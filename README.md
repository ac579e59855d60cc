# Round-robin league: fixtures, standings, undo and score parsing

This project models the engine of a small Streamlit page (`app.py`) that
runs a single round-robin league. The page does four things:

- It pairs every two registered players once (`generate_matches`), shuffles
  the fixtures and shows them one at a time.
- It reads the score typed for the fixture at the front of the queue
  (`parse_score_input`, which accepts `"2x1"` or `"2 1"`).
- It records the result: it pushes `(fixture, score1, score2)` onto a
  history, pops the fixture and updates both players' rows in place
  (`update_table`).
- It undoes the most recent result: it pops the history, runs the exact
  inverse update (`undo_update_table`) and puts the fixture back at the
  front of the queue.

The Dafny modules follow that structure:

- `Sequences`: the `Distinct` predicate on lists.
- `Standings`: the `Stats` row, the `Player` class with its mutable
  counters, `UpdateTable` and `UndoUpdateTable` as methods that change two
  players in place, and the same update as a value. `Record` and `Unrecord`
  work on a `map<Player, Stats>`, and `Replay` folds a whole history from a
  table. Consistency (`matches == wins + draws + losses`,
  `points == 3 * wins + draws`), matches played and zero-sum goal
  difference are proved once about `Replay`.
- `Fixtures`: `GenerateMatches` keeps the page's nested loops and its
  `random.shuffle`. The shuffle is modelled as the runtime's Fisher–Yates
  swap loop with the random draws supplied by a parameter. Both are proved
  against `AllPairs`, the row-by-row enumeration: the result is a
  permutation of it, it has n(n-1)/2 fixtures, it holds every pair of
  distinct players exactly once, and it never pairs a player with itself.
- `ScoreParser`: the delimiter rule, `str.split('x')`, `str.split()`,
  `int()` and the two-value unpacking, as pure functions. Results are
  tagged `Ok`/`Err`, so every `ValueError` path of the page is a value.
  The properties proved are the acceptance condition (an if-and-only-if),
  the printed-score round trip `"a x b"` / `"a b"` → `(a, b)` and the
  rejections.
- `Tournament`: the `League` class holds the page's session state: the
  players, the fixture queue (`matches`) and the result stack (`history`).
  `Submit`, `Undo` and `Regenerate` model the three buttons. Every one of
  them preserves `Valid()`, which says two things:
  - the queue plus the played fixtures are exactly the round robin;
  - the players' rows are the replay of the history from zero.
- `SessionExamples`: concrete two-player sessions that exhibit the two
  findings below.

The integers are Python's, so they are unbounded and Dafny's `int` models
them exactly. Scores may be negative (`"-1x2"` parses), and the ledger
works for any integer scores.

The page names two formats, in its input hint "(ex: 2x1 ou 2 1)"
(app.py:150) and in its error message "Use '2x1' ou '2 1'" (app.py:107).
The code picks the second format only when the input contains the space
character `' '`, and then splits on any whitespace. So `"2\t1"` is refused
(`ScoreParser.ScoreExampleTab`), even though the split itself would cut it
at the tab.

Python's `str.split()` and `int()` do not agree on what whitespace is. The
split cuts at the separators U+001C to U+001F; `int()` does not strip them.
So `"\x1c2x1"` is refused (`ScoreParser.ScoreExampleSeparator`).

## Model

| member | source | states |
|---|---|---|
| Standings.Gain | app.py:39-56 | one match adds exactly one match played and `scored - conceded` to goal difference; exactly one of win, loss or draw, chosen by comparing the scores; 3 points for a win and 1 for a draw |
| Standings.Player.constructor | app.py:6-14 | a new player has the given name and team and an all-zero row |
| Standings.Player.Reset | app.py:133-138 | the row is all zeros again, the state a new table gives every player |
| Standings.UpdateTable | app.py:37-56 | player1 gains `Gain(score1, score2)` and player2 gains `Gain(score2, score1)`, nothing else changes; if both are the same object, both gains land on it |
| Standings.UndoUpdateTable | app.py:61-80 | subtracts the same two gains, field by field, with the same branch on the scores |
| Standings.Record | app.py:37-56 | the table keeps its keys; only the fixture's two rows change; each gets one more match and their goal differences move by opposite amounts |
| Standings.Unrecord | app.py:61-80 | the table keeps its keys; only the fixture's two rows change |
| Standings.UnrecordRecord | app.py:37-80 | undoing a recorded result restores every row exactly, for any integer scores, even when both sides are the same player |
| Standings.RecordUnrecord | app.py:37-80 | recording after undoing also restores the table: the two updates are mutual inverses |
| Standings.RecordConsistent | app.py:42-56 | recording a result keeps `matches == wins + draws + losses` and `points == 3 * wins + draws` in every row |
| Standings.ReplayConsistent | app.py:42-56 | every table reached from a consistent one by any history is consistent |
| Standings.ReplayMatches | app.py:42-43 | a player's matches played grows by exactly the number of history entries it appears in |
| Standings.RecordGoalSum | app.py:39-41 | recording a result leaves the sum of goal differences over the players unchanged |
| Standings.ReplayGoalSum | app.py:39-41 | the sum of goal differences is unchanged by any history over the table's players |
| Fixtures.Swap | app.py:34 | swapping two positions yields a permutation with just those two positions exchanged |
| Fixtures.Shuffle | app.py:34 | whatever the random draws, the shuffled list is a permutation of its input |
| Fixtures.GenerateMatches | app.py:29-35 | the fixtures are a permutation of the enumeration of every pair `(players[i], players[j])` with `i < j` |
| Fixtures.AllPairsLength | app.py:31-33 | n players give n(n-1)/2 fixtures |
| Fixtures.AllPairsMembers | app.py:31-33 | a pair is enumerated if and only if it is `(players[a], players[b])` for some `a < b` |
| Fixtures.PairsBeforeDistinct | app.py:31-33 | for distinct players the enumeration never repeats a pair |
| Fixtures.Endpoints | app.py:29-35 | every generated fixture pairs two registered players |
| Fixtures.RoundRobin | app.py:29-35 | for distinct players, any reordering of the enumeration has n(n-1)/2 fixtures, holds every pair `a < b` exactly once and nothing else, and never pairs a player with itself |
| Fixtures.TwoPlayers | app.py:29-35 | two players give the single fixture (first, second) |
| ScoreParser.SplitOn | app.py:103 | `split('x')` yields at least one token and no token contains the separator |
| ScoreParser.SplitOnCount | app.py:103 | `split('x')` yields one token more than the input has separators |
| ScoreParser.JoinSplitOn | app.py:103 | joining the tokens with the separator gives back the input |
| ScoreParser.SplitWhitespace | app.py:105 | `split()` yields only non-empty tokens free of whitespace |
| ScoreParser.Gaps | app.py:105 | the input has one whitespace-only gap more than `split()` has tokens, and every gap between two tokens is non-empty |
| ScoreParser.SplitWhitespaceWeave | app.py:105 | the tokens of `split()` are the input's words in order: interleaved with the gaps they give back the input |
| ScoreParser.SplitWhitespaceWord | app.py:105 | a word followed by whitespace (or by nothing) is the first token, and the rest is split separately |
| ScoreParser.ParseInt | app.py:103 | `int()` accepts a token if and only if, once the whitespace `int()` ignores is stripped, what remains is an optional sign followed by one or more digits; the value is the digits' decimal value, negated after a '-' |
| ScoreParser.TrimStart | app.py:103 | `int()` drops a leading run of the whitespace it ignores, and only that; the rest starts with another character |
| ScoreParser.TrimEnd | app.py:103 | `int()` drops a trailing run of the whitespace it ignores, and only that; the rest ends with another character |
| ScoreParser.ParseLiteral | app.py:103 | a bare literal is read if and only if it is an optional sign followed by one or more digits; the value is signed |
| ScoreParser.ParseIntUnpadded | app.py:103 | a token without whitespace at its ends is accepted if and only if it is an integer literal |
| ScoreParser.ParseIntPadded | app.py:103 | spaces around a token do not change what `int()` reads |
| ScoreParser.ParseIntBadAt | app.py:103 | a token with a character that is neither a digit nor a leading sign is refused |
| ScoreParser.IntExampleSeparator | app.py:103 | `int()` refuses a literal behind U+001C, which it does not strip |
| ScoreParser.IntExampleLetter | app.py:103 | `"a"` is refused |
| ScoreParser.IntExampleTrailingLetter | app.py:103 | `"1a"` is refused |
| ScoreParser.IntExampleDoubleSign | app.py:103 | `"--1"` is refused |
| ScoreParser.IntExampleSignOnly | app.py:103 | `"+"` is refused |
| ScoreParser.IntExampleSigned | app.py:103 | `" -7 "` reads as -7 |
| ScoreParser.IntToStringRoundTrip | app.py:103 | `int(str(n)) == n` for every integer, negatives included |
| ScoreParser.Tokens | app.py:101-107 | there is no token list, the `ValueError` of line 107, if and only if the input has neither 'x' nor ' ' |
| ScoreParser.Unpack | app.py:155 | unpacking succeeds if and only if there are exactly two tokens and both are integers; the value is the two integers in order; a failure is a bad token or a wrong count |
| ScoreParser.ParseScore | app.py:101-107 | a score is accepted if and only if the delimiter rule yields exactly two integer tokens, which are its value; it is refused for lack of a delimiter if and only if neither 'x' nor ' ' occurs |
| ScoreParser.ParseScoreWithX | app.py:102-103 | the printed `a x b` (no spaces) parses to `(a, b)` for all integers |
| ScoreParser.ParseScoreWithSpace | app.py:104-105 | the printed `a b` parses to `(a, b)` for all integers |
| ScoreParser.ParseScoreThreeTokens | app.py:155 | three integer tokens joined by 'x' are refused as a wrong token count |
| ScoreParser.ParseScoreThreeValues | app.py:155 | the printed `a x b x c` is refused for every three integers |
| ScoreParser.ScoreExampleWithX | app.py:102-103 | `"2x1"` parses to (2, 1) |
| ScoreParser.ScoreExampleWithSpace | app.py:104-105 | `"2 1"` parses to (2, 1) |
| ScoreParser.ScoreExampleNoDelimiter | app.py:106-107 | `"abc"` is refused for lack of a delimiter |
| ScoreParser.ScoreExampleTab | app.py:104-107 | `"2\t1"` is refused: a tab alone does not select the whitespace format |
| ScoreParser.ScoreExampleThreeTokens | app.py:155 | `"2x1x3"` is refused as a wrong token count |
| ScoreParser.ParseScoreBadToken | app.py:155 | two 'x'-separated tokens are refused as not an integer when either token is not one |
| ScoreParser.ParseScoreBadFirst | app.py:155 | a non-integer, 'x' and a printed integer are refused as not an integer, for every integer |
| ScoreParser.ParseScoreBadSecond | app.py:155 | a printed integer, 'x' and a non-integer are refused as not an integer, for every integer |
| ScoreParser.ScoreExampleLetter | app.py:103 | `"2xa"` is refused because a token is not an integer |
| ScoreParser.ScoreExampleSeparator | app.py:102-103 | `"\x1c2x1"` is refused because a token is not an integer |
| Tournament.ZeroTable | app.py:131-139 | a fresh table has exactly one row per player, and every row is all zeros |
| Tournament.AccountedFresh | app.py:129-140 | freshly generated fixtures with an empty history account for the whole round robin |
| Tournament.AccountedPlay | app.py:156-157 | moving the front fixture from the queue to the history keeps the round robin accounted for |
| Tournament.AccountedUndo | app.py:166-168 | moving the last result's fixture from the history back to the front of the queue keeps the round robin accounted for |
| Tournament.ReplaysRecord | app.py:156-158 | if the table is the replay of the history, recording a result keeps it so |
| Tournament.ReplaysUnrecord | app.py:166-167 | if the table is the replay of the history, undoing the last result keeps it so |
| Tournament.League.constructor | app.py:129-140 | generating matches for new players gives the shuffled round robin, an empty history and a valid league |
| Tournament.League.Submit | app.py:145-162 | with no fixture left nothing happens; empty input does nothing; a refused score reports its error and changes nothing; an accepted score pushes `(front fixture, score1, score2)`, pops the queue and records it in the table; the league stays valid |
| Tournament.League.Apply | app.py:155-158 | history push, queue pop and table update for the front fixture, keeping the league valid |
| Tournament.League.Undo | app.py:164-171 | with an empty history nothing changes; otherwise the last result is popped, unrecorded from the table, and its fixture is back at the front of the queue; the league stays valid |
| Tournament.League.UndoAsWritten | app.py:145-172 | as `Undo`, but with an empty queue the button is absent and nothing changes |
| Tournament.League.SubmitThenUndo | app.py:152-171 | an accepted result followed by an undo restores the queue, the history and every row |
| Tournament.League.Regenerate | app.py:129-140 | pressing "generate matches" again gives a new round robin, an empty history and all-zero rows |
| Tournament.League.ResetRows | app.py:131-139 | every player's row is zero, as in the new table |
| Tournament.League.RegenerateAsWritten | app.py:129-140 | as the page does it: a new round robin and an empty history, while the players' rows stay as they were |
| Tournament.League.RowsConsistent | app.py:42-56 | in a valid league every row has `matches == wins + draws + losses` and `points == 3 * wins + draws` |
| Tournament.League.MatchesPlayed | app.py:42-43 | in a valid league a player's matches played is the number of recorded results it appears in |
| Tournament.League.GoalDifferenceZeroSum | app.py:39-41 | in a valid league the goal differences sum to zero |
| Tournament.League.EveryPairOnce | app.py:129-168 | in a valid league every pair of players is either pending or played, exactly once, and pending plus played is n(n-1)/2 |
| Tournament.League.TableAfterUpdate | app.py:158 | the rows after `UpdateTable` on the front fixture are the recorded table |
| Tournament.League.TableAfterUndo | app.py:167 | the rows after `UndoUpdateTable` are the unrecorded table |
| SessionExamples.StaleStandingsExample | app.py:129-140 | after one result and a second "generate matches", the history is empty but a player still shows one match played, so the league is not valid |
| SessionExamples.FinalUndoExample | app.py:145-172 | after the last fixture is played, the undo step is not offered and the result stays recorded |

## Left out

- The page itself is left out: the widgets, titles, messages, `st.rerun`, `display_table` (and its sort by points), `display_next_matches` and `reset_league`. None of them changes the league state modelled here, except `reset_league`, which clears the whole session.
- `create_players` (app.py:19-27) is not called by `main` and is not modelled.
- The pandas table and `update_dataframe` (app.py:85-87) are left out. The standings are modelled as the players' own counters, which the page copies into the table row whose label is `str(player)`. Two players with the same name and team share a label, and the page then writes both of them into both rows. This model keys rows by player object, so that collision is not represented.
- Player names and teams are constants here. The page rewrites them from text inputs on every rerun (app.py:123-127). They are not only for display: `str(player)` is the row label the table is built with (app.py:132) and the key `update_dataframe` matches on (app.py:86). Renaming a player after "Gerar Partidas" therefore makes the page stop updating that player's row, without an error. The model keys rows by player object, so it does not show this.
- A change of player count re-creates the players (app.py:120-121). The model starts from the players given to the `League` constructor, and `Regenerate` keeps the same players.
- Fixtures.Shuffle: the random draws are a parameter, so the model proves the result is a permutation for every sequence of draws, but not that all orders are equally likely.
- ScoreParser.ParseInt: only ASCII digits with an optional sign and surrounding whitespace are accepted. Python's `int()` also accepts underscores between digits and non-ASCII decimal digits, and those inputs are refused here.
- ScoreParser.ParseInt: `int()` raising for any other reason than a malformed literal (such as an over-long digit string) is not modelled.
- SessionExamples.StaleStandingsExample and SessionExamples.FinalUndoExample record their result through `Apply` with the parsed values (1, 0) rather than through `Submit` with the text `"1x0"`; `ScoreParser.ScoreExampleWithX` shows the parsing step separately.

## Findings

| source | as written | input that shows it | evidently intended | confidence | as-written member | corrected member |
|---|---|---|---|---|---|---|
| app.py:129-140 | "Gerar Partidas" creates a new all-zero table and an empty history but does not reset the `Player` objects. When the player count is unchanged the same objects are reused, and the next `update_dataframe` writes their old counters into the new table | two players A and B, result 1x0 recorded, then "Gerar Partidas" pressed again: the history is empty but A still has one match played, so the next result shows A with two | a new league starts every player's row at zero | not executed | Tournament.League.RegenerateAsWritten, SessionExamples.StaleStandingsExample | Tournament.League.Regenerate |
| app.py:145 | the "Desfazer Última Partida" button is inside `if st.session_state.matches:`, so it disappears once the queue is empty | two players A and B, result 1x0 recorded for the only fixture: the queue is empty and the result cannot be undone | the most recent result can always be undone while the history is non-empty | not executed | Tournament.League.UndoAsWritten, SessionExamples.FinalUndoExample | Tournament.League.Undo |
