/** The league session: the players, the queue of fixtures still to play
    (consumed from the front), the stack of applied results, and the two
    steps that move between them: recording the result typed for the next
    fixture, and undoing the most recent result. */
module Tournament {
  import opened Sequences
  import opened Standings
  import opened Fixtures
  import opened ScoreParser

  /** What pressing the "update match" button did. */
  datatype SubmitOutcome =
    | NoPendingFixture                  // every fixture has been played: there is no button
    | EmptyInput                        // nothing typed: nothing happens
    | Rejected(error: ScoreError)       // the score did not parse: an error is shown
    | Recorded(score1: int, score2: int)

  /** What pressing the "undo last match" button did. */
  datatype UndoOutcome =
    | UndoNotOffered                    // the button is not on the page
    | NothingToUndo                     // empty history: an error is shown
    | Undone(entry: Entry<Player>)

  /** A fresh standings table: one all-zero row per player. */
  function ZeroTable(ps: seq<Player>): (t: map<Player, Stats>)
    ensures forall p :: p in ps ==> p in t && t[p] == Zero
    ensures t.Keys == set p | p in ps
  {
    map p | p in ps :: Zero
  }

  /** The fixtures of the results in a history, oldest first. */
  ghost function FixturesOf<K>(h: seq<Entry<K>>): (r: seq<(K, K)>)
    ensures |r| == |h|
    decreases |h|
  {
    if h == [] then [] else FixturesOf(h[..|h| - 1]) + [h[|h| - 1].fixture]
  }

  lemma FixturesOfPush<K>(h: seq<Entry<K>>, e: Entry<K>)
    ensures FixturesOf(h + [e]) == FixturesOf(h) + [e.fixture]
  {
    assert (h + [e])[..|h|] == h;
  }

  /** Every fixture of the round robin over `ps` is either still in the
      queue or recorded in the history, exactly once, and every fixture
      pairs two of the players. */
  ghost predicate Accounted(ps: seq<Player>, queue: seq<(Player, Player)>, played: seq<Entry<Player>>) {
    Distinct(ps) &&
    (forall f :: f in queue ==> f.0 in ps && f.1 in ps) &&
    (forall e :: e in played ==> e.fixture.0 in ps && e.fixture.1 in ps) &&
    multiset(queue) + multiset(FixturesOf(played)) == multiset(AllPairs(ps))
  }

  /** The table `t` is what recording `played` from all-zero rows gives. */
  ghost predicate Replays(ps: seq<Player>, t: map<Player, Stats>, played: seq<Entry<Player>>) {
    Involves(ZeroTable(ps), played) && t == Replay(ZeroTable(ps), played)
  }

  /** A new round robin with nothing played accounts for every fixture. */
  lemma AccountedFresh(ps: seq<Player>, queue: seq<(Player, Player)>)
    requires Distinct(ps) && multiset(queue) == multiset(AllPairs(ps))
    ensures Accounted(ps, queue, [])
  {
    Endpoints(ps, queue);
    assert FixturesOf<Player>([]) == [];
  }

  /** Playing the fixture at the front of the queue moves it to the history. */
  lemma AccountedPlay(ps: seq<Player>, queue: seq<(Player, Player)>, played: seq<Entry<Player>>, e: Entry<Player>)
    requires Accounted(ps, queue, played)
    requires queue != [] && e.fixture == queue[0]
    ensures Accounted(ps, queue[1..], played + [e])
  {
    FixturesOfPush(played, e);
    assert queue == [e.fixture] + queue[1..];
    assert e.fixture in queue;
    forall f | f in queue[1..] ensures f.0 in ps && f.1 in ps {
      assert f in queue;
    }
  }

  /** Taking back the last result puts its fixture back at the front. */
  lemma AccountedUndo(ps: seq<Player>, queue: seq<(Player, Player)>, played: seq<Entry<Player>>, last: Entry<Player>)
    requires Accounted(ps, queue, played) && played != [] && last == played[|played| - 1]
    ensures Accounted(ps, [last.fixture] + queue, played[..|played| - 1])
  {
    var init := played[..|played| - 1];
    assert played == init + [last];
    FixturesOfPush(init, last);
    assert last in played;
    forall e | e in init ensures e.fixture.0 in ps && e.fixture.1 in ps {
      assert e in played;
    }
  }

  /** Recording a result extends the replayed history by it. */
  lemma ReplaysRecord(ps: seq<Player>, t: map<Player, Stats>, played: seq<Entry<Player>>, e: Entry<Player>)
    requires Replays(ps, t, played) && e.fixture.0 in ps && e.fixture.1 in ps
    ensures Replays(ps, Record(t, e), played + [e])
  {
    ReplayPush(ZeroTable(ps), played, e);
  }

  /** Unrecording the last result replays the history without it. */
  lemma ReplaysUnrecord(ps: seq<Player>, t: map<Player, Stats>, played: seq<Entry<Player>>, last: Entry<Player>)
    requires Replays(ps, t, played) && played != [] && last == played[|played| - 1]
    ensures last.fixture.0 in t && last.fixture.1 in t
    ensures Replays(ps, Unrecord(t, last), played[..|played| - 1])
  {
    var init := played[..|played| - 1];
    assert played == init + [last];
    ReplayPush(ZeroTable(ps), init, last);
    UnrecordRecord(Replay(ZeroTable(ps), init), last);
  }

  class League {
    const players: seq<Player>
    var matches: seq<(Player, Player)>
    var history: seq<Entry<Player>>

    /** The standings table the players' rows make up. */
    ghost function Table(): map<Player, Stats>
      reads players
    {
      map p | p in players :: p.Snapshot()
    }

    /** Every fixture of the round robin is either still queued or recorded
        in the history, exactly once. */
    ghost predicate Scheduled()
      reads this
    {
      Accounted(players, matches, history)
    }

    /** The fixtures are accounted for, and the table is exactly what
        recording the history from all-zero rows gives. */
    ghost predicate Valid()
      reads this, players
    {
      Accounted(players, matches, history) && Replays(players, Table(), history)
    }

    /** "Generate matches" for freshly created players: the fixtures of the
        round robin in shuffled order and an empty history. */
    constructor (ps: seq<Player>, pick: nat -> nat)
      requires Distinct(ps)
      requires forall p :: p in ps ==> p.Snapshot() == Zero
      ensures players == ps && history == [] && Valid()
      ensures multiset(matches) == multiset(AllPairs(ps))
    {
      players := ps;
      var generated := GenerateMatches(ps, pick);
      matches := generated;
      history := [];
      new;
      AccountedFresh(ps, generated);
      assert Table() == ZeroTable(ps);
    }

    /** "Update match": reads the score typed for the fixture at the front of
        the queue; if it parses, pushes (fixture, score1, score2) onto the
        history, drops the fixture from the queue and updates both rows.
        Any failure leaves the session as it was. */
    method Submit(input: string) returns (outcome: SubmitOutcome)
      requires Valid()
      modifies this, players
      ensures Valid()
      ensures old(matches) == [] ==> outcome == NoPendingFixture
      ensures old(matches) != [] && input == "" ==> outcome == EmptyInput
      ensures old(matches) != [] && input != "" && ParseScore(input).Err? ==>
        outcome == Rejected(ParseScore(input).error)
      ensures old(matches) != [] && input != "" && ParseScore(input).Ok? ==>
        outcome == Recorded(ParseScore(input).value.0, ParseScore(input).value.1)
      ensures !outcome.Recorded? ==>
        matches == old(matches) && history == old(history) && Table() == old(Table())
      ensures outcome.Recorded? ==>
        var e := Entry(old(matches)[0], outcome.score1, outcome.score2);
        history == old(history) + [e] && matches == old(matches)[1..] &&
        Table() == Record(old(Table()), e)
    {
      if matches == [] {
        return NoPendingFixture;
      }
      if input == "" {
        return EmptyInput;
      }
      match ParseScore(input)
      case Err(error) =>
        outcome := Rejected(error);
      case Ok((score1, score2)) =>
        Apply(score1, score2);
        outcome := Recorded(score1, score2);
    }

    /** The successful branch of "update match": history push, queue pop,
        then the two rows. */
    method Apply(score1: int, score2: int)
      requires Valid() && matches != []
      modifies this, players
      ensures Valid()
      ensures var e := Entry(old(matches)[0], score1, score2);
        history == old(history) + [e] && matches == old(matches)[1..] &&
        Table() == Record(old(Table()), e)
    {
      ghost var before := Table();
      ghost var played := history;
      var fixture := matches[0];
      var e := Entry(fixture, score1, score2);
      history := history + [e];
      matches := matches[1..];
      UpdateTable(fixture.0, fixture.1, score1, score2);
      AccountedPlay(players, old(matches), played, e);
      TableAfterUpdate(e);
      ReplaysRecord(players, before, played, e);
    }

    /** "Undo last match": pops the most recent result, takes it back from
        both rows and puts its fixture back at the front of the queue, so it
        is the next one to play. With an empty history nothing changes. */
    method Undo() returns (outcome: UndoOutcome)
      requires Valid()
      modifies this, players
      ensures Valid()
      ensures old(history) == [] ==>
        outcome == NothingToUndo &&
        matches == old(matches) && history == old(history) && Table() == old(Table())
      ensures old(history) != [] ==>
        var e := old(history)[|old(history)| - 1];
        outcome == Undone(e) && history == old(history)[..|old(history)| - 1] &&
        matches == [e.fixture] + old(matches) && Table() == Unrecord(old(Table()), e)
    {
      if history == [] {
        return NothingToUndo;
      }
      ghost var before := Table();
      ghost var played := history;
      var last := history[|history| - 1];
      history := history[..|history| - 1];
      UndoUpdateTable(last.fixture.0, last.fixture.1, last.score1, last.score2);
      matches := [last.fixture] + matches;
      AccountedUndo(players, old(matches), played, last);
      TableAfterUndo(last);
      ReplaysUnrecord(players, before, played, last);
      outcome := Undone(last);
    }

    /** The undo step as the page offers it: its button is drawn only while
        fixtures remain in the queue, so once the last fixture has been
        played the last result can no longer be undone. */
    method UndoAsWritten() returns (outcome: UndoOutcome)
      requires Valid()
      modifies this, players
      ensures Valid()
      ensures old(matches) == [] ==>
        outcome == UndoNotOffered &&
        matches == old(matches) && history == old(history) && Table() == old(Table())
      ensures old(matches) != [] && old(history) == [] ==>
        outcome == NothingToUndo &&
        matches == old(matches) && history == old(history) && Table() == old(Table())
      ensures old(matches) != [] && old(history) != [] ==>
        var e := old(history)[|old(history)| - 1];
        outcome == Undone(e) && history == old(history)[..|old(history)| - 1] &&
        matches == [e.fixture] + old(matches) && Table() == Unrecord(old(Table()), e)
    {
      if matches == [] {
        return UndoNotOffered;
      }
      outcome := Undo();
    }

    /** Recording a result and then undoing it gives back the queue, the
        history and every row of the table. */
    method SubmitThenUndo(input: string) returns (submitted: SubmitOutcome, undone: UndoOutcome)
      requires Valid()
      modifies this, players
      ensures Valid()
      ensures submitted.Recorded? ==>
        undone.Undone? && matches == old(matches) && history == old(history) && Table() == old(Table())
    {
      ghost var before := Table();
      submitted := Submit(input);
      ghost var between := Table();
      undone := Undo();
      if submitted.Recorded? {
        var e := Entry(old(matches)[0], submitted.score1, submitted.score2);
        assert old(matches) == [e.fixture] + old(matches)[1..];
        UnrecordRecord(before, e);
      }
    }

    /** "Generate matches" pressed on a running league, as intended: a new
        shuffled round robin, an empty history and every row back to zero. */
    method Regenerate(pick: nat -> nat)
      requires Scheduled()
      modifies this, players
      ensures history == [] && Valid()
      ensures multiset(matches) == multiset(AllPairs(players))
      ensures Table() == ZeroTable(players)
    {
      ResetRows();
      var generated := GenerateMatches(players, pick);
      matches := generated;
      history := [];
      AccountedFresh(players, generated);
    }

    /** Clears every player's row. */
    method ResetRows()
      modifies players
      ensures Table() == ZeroTable(players)
    {
      var i := 0;
      while i < |players|
        invariant i <= |players|
        invariant forall k :: 0 <= k < i ==> players[k].Snapshot() == Zero
      {
        players[i].Reset();
        i := i + 1;
      }
      assert forall p :: p in players ==> p.Snapshot() == Zero;
    }

    /** "Generate matches" pressed on a running league, as the page does it:
        a new round robin and an empty history, but the players keep the
        rows of the previous league. */
    method RegenerateAsWritten(pick: nat -> nat)
      requires Scheduled()
      modifies this
      ensures history == [] && Scheduled()
      ensures multiset(matches) == multiset(AllPairs(players))
      ensures Table() == old(Table())
    {
      var generated := GenerateMatches(players, pick);
      matches := generated;
      history := [];
      AccountedFresh(players, generated);
    }

    /** Every row keeps matches == wins + draws + losses and
        points == 3 * wins + draws, whatever results were recorded. */
    lemma RowsConsistent()
      requires Valid()
      ensures forall p :: p in players ==> Consistent(p.Snapshot())
    {
      var zero := ZeroTable(players);
      ReplayConsistent(zero, history);
      forall p | p in players ensures Consistent(p.Snapshot()) {
        assert Table()[p] == p.Snapshot();
      }
    }

    /** A player's matches played is the number of recorded results it
        took part in. */
    lemma MatchesPlayed(p: Player)
      requires Valid() && p in players
      ensures p.matches == Appearances(history, p)
    {
      var zero := ZeroTable(players);
      ReplayMatches(zero, history, p);
      assert Table()[p] == p.Snapshot();
    }

    /** Goal difference is zero-sum over the whole table. */
    lemma GoalDifferenceZeroSum()
      requires Valid()
      ensures GoalSum(Table(), players) == 0
    {
      var zero := ZeroTable(players);
      ReplayGoalSum(zero, players, history);
      GoalSumAllZero(zero, players);
    }

    /** Every pair (players[a], players[b]) with a < b is either still in the
        queue or in the history, once; played and pending fixtures together
        are n * (n - 1) / 2. */
    lemma EveryPairOnce()
      requires Valid()
      ensures 2 * (|matches| + |history|) == |players| * (|players| - 1)
      ensures forall a, b :: 0 <= a < b < |players| ==>
        multiset(matches)[(players[a], players[b])] +
        multiset(FixturesOf(history))[(players[a], players[b])] == 1
    {
      var all := AllPairs(players);
      assert |multiset(all)| == |matches| + |history|;
      RoundRobin(players, all);
    }

    /** The rows after UpdateTable on the fixture's two players are the
        recorded table. */
    twostate lemma TableAfterUpdate(e: Entry<Player>)
      requires e.fixture.0 in players && e.fixture.1 in players
      requires forall p :: p in players && p != e.fixture.0 && p != e.fixture.1 ==> unchanged(p)
      requires e.fixture.0 != e.fixture.1 ==>
        e.fixture.0.Snapshot() == Add(old(e.fixture.0.Snapshot()), Gain(e.score1, e.score2)) &&
        e.fixture.1.Snapshot() == Add(old(e.fixture.1.Snapshot()), Gain(e.score2, e.score1))
      requires e.fixture.0 == e.fixture.1 ==>
        e.fixture.0.Snapshot() == Add(Add(old(e.fixture.0.Snapshot()), Gain(e.score1, e.score2)), Gain(e.score2, e.score1))
      ensures Table() == Record(old(Table()), e)
    {
    }

    /** The rows after UndoUpdateTable are the unrecorded table. */
    twostate lemma TableAfterUndo(e: Entry<Player>)
      requires e.fixture.0 in players && e.fixture.1 in players
      requires forall p :: p in players && p != e.fixture.0 && p != e.fixture.1 ==> unchanged(p)
      requires e.fixture.0 != e.fixture.1 ==>
        e.fixture.0.Snapshot() == Sub(old(e.fixture.0.Snapshot()), Gain(e.score1, e.score2)) &&
        e.fixture.1.Snapshot() == Sub(old(e.fixture.1.Snapshot()), Gain(e.score2, e.score1))
      requires e.fixture.0 == e.fixture.1 ==>
        e.fixture.0.Snapshot() == Sub(Sub(old(e.fixture.0.Snapshot()), Gain(e.score1, e.score2)), Gain(e.score2, e.score1))
      ensures Table() == Unrecord(old(Table()), e)
    {
    }
  }
}

/** The two discrepancies of the page's session logic, on a league of two
    players A and B whose single fixture is recorded as 1x0. */
module SessionExamples {
  import opened Standings
  import opened Fixtures
  import opened ScoreParser
  import opened Tournament

  /** A fresh league of two players: its single fixture is (A, B). */
  method NewTwoPlayerLeague() returns (league: League, a: Player, b: Player)
    ensures fresh(league) && fresh(a) && fresh(b) && a != b
    ensures league.Valid() && league.players == [a, b]
    ensures league.matches == [(a, b)] && league.history == []
  {
    a := new Player("A", "Alpha");
    b := new Player("B", "Beta");
    league := new League([a, b], n => 0);
    TwoPlayers(a, b, league.matches);
  }

  /** Records the result 1x0 for the fixture (A, B). */
  method RecordOneNil(league: League, a: Player, b: Player)
    requires league.Valid() && league.players == [a, b] && a != b
    requires league.matches == [(a, b)] && league.history == []
    modifies league, a, b
    ensures league.Valid() && league.players == [a, b]
    ensures league.matches == [] && league.history == [Entry((a, b), 1, 0)]
  {
    league.Apply(1, 0);
  }

  /** After a single result between `a` and `b`, each has played one match. */
  lemma OneMatchEach(league: League, a: Player, b: Player)
    requires league.Valid() && a in league.players && b in league.players && a != b
    requires league.history == [Entry((a, b), 1, 0)]
    ensures a.matches == 1 && b.matches == 1
  {
    assert league.history[..0] == [];
    league.MatchesPlayed(a);
    league.MatchesPlayed(b);
  }

  /** A league of two players A and B after "1x0" was typed for its
      single fixture. */
  method TwoPlayerLeague() returns (league: League, a: Player, b: Player)
    ensures fresh(league) && fresh(a) && fresh(b) && a != b
    ensures league.Valid() && league.players == [a, b]
    ensures league.matches == [] && league.history == [Entry((a, b), 1, 0)]
  {
    league, a, b := NewTwoPlayerLeague();
    RecordOneNil(league, a, b);
  }

  /** Generating the matches again leaves the players' rows as they were:
      the new league has an empty history, yet A still shows a match
      played, so the table is no longer the replay of the history. */
  method StaleStandingsExample() returns (league: League, a: Player)
    ensures a in league.players && league.history == []
    ensures a.matches == 1
    ensures !league.Valid()
  {
    var b;
    league, a, b := TwoPlayerLeague();
    OneMatchEach(league, a, b);
    league.RegenerateAsWritten(n => 0);
    assert league.Table()[a] == a.Snapshot();
  }

  /** Once the only fixture has been played the queue is empty, so the undo
      button is not drawn and the recorded result cannot be taken back. */
  method FinalUndoExample() returns (league: League, outcome: UndoOutcome)
    ensures league.matches == [] && |league.history| == 1
    ensures outcome == UndoNotOffered
  {
    var a, b;
    league, a, b := TwoPlayerLeague();
    outcome := league.UndoAsWritten();
  }
}
