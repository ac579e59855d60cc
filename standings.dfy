/** The standings ledger: the statistics a Player carries, the in-place
    update a match result makes to two players, and its exact inverse.
    Standings are also described as values (a map from player to Stats) so
    that a whole history of results can be replayed and reasoned about. */
module Standings {
  import opened Sequences

  /** One row of the standings table: matches played, wins, draws, losses,
      goal difference and points. */
  datatype Stats = Stats(goalDifference: int, matches: int, points: int,
                         wins: int, losses: int, draws: int)

  const Zero := Stats(0, 0, 0, 0, 0, 0)

  function Add(a: Stats, d: Stats): (r: Stats) {
    Stats(a.goalDifference + d.goalDifference, a.matches + d.matches, a.points + d.points,
          a.wins + d.wins, a.losses + d.losses, a.draws + d.draws)
  }

  function Sub(a: Stats, d: Stats): (r: Stats) {
    Stats(a.goalDifference - d.goalDifference, a.matches - d.matches, a.points - d.points,
          a.wins - d.wins, a.losses - d.losses, a.draws - d.draws)
  }

  /** The bookkeeping every row keeps: each match is exactly one of a win, a
      draw or a loss, and a win is worth three points, a draw one. */
  predicate Consistent(s: Stats) {
    s.matches == s.wins + s.draws + s.losses && s.points == 3 * s.wins + s.draws
  }

  /** What one match adds to the row of a player who scored `scored` goals
      and conceded `conceded`. */
  function Gain(scored: int, conceded: int): (d: Stats)
    ensures d.matches == 1 && d.goalDifference == scored - conceded
    ensures d.wins == (if scored > conceded then 1 else 0)
    ensures d.losses == (if scored < conceded then 1 else 0)
    ensures d.draws == (if scored == conceded then 1 else 0)
    ensures d.points == 3 * d.wins + d.draws
  {
    if scored > conceded then Stats(scored - conceded, 1, 3, 1, 0, 0)
    else if scored < conceded then Stats(scored - conceded, 1, 0, 0, 1, 0)
    else Stats(0, 1, 1, 0, 0, 1)
  }

  /** A participant with its running statistics, updated in place. */
  class Player {
    const name: string
    const team: string
    var goalDifference: int
    var matches: int
    var points: int
    var wins: int
    var losses: int
    var draws: int

    constructor (name: string, team: string)
      ensures this.name == name && this.team == team
      ensures Snapshot() == Zero
    {
      this.name := name;
      this.team := team;
      goalDifference, matches, points := 0, 0, 0;
      wins, losses, draws := 0, 0, 0;
    }

    /** Clears the row, as a new league starts it. */
    method Reset()
      modifies this
      ensures Snapshot() == Zero
    {
      goalDifference, matches, points := 0, 0, 0;
      wins, losses, draws := 0, 0, 0;
    }

    /** The player's current row of the standings table. */
    function Snapshot(): (s: Stats)
      reads this
    {
      Stats(goalDifference, matches, points, wins, losses, draws)
    }
  }

  /** Records the result `score1`-`score2` of `player1` against `player2`.
      The two players are normally distinct; when they are the same object
      both halves of the update land on it, as they would in place. */
  method UpdateTable(player1: Player, player2: Player, score1: int, score2: int)
    modifies player1, player2
    ensures player1 != player2 ==>
      player1.Snapshot() == Add(old(player1.Snapshot()), Gain(score1, score2)) &&
      player2.Snapshot() == Add(old(player2.Snapshot()), Gain(score2, score1))
    ensures player1 == player2 ==>
      player1.Snapshot() == Add(Add(old(player1.Snapshot()), Gain(score1, score2)), Gain(score2, score1))
  {
    ghost var before1, before2 := player1.Snapshot(), player2.Snapshot();
    var goalDiff := score1 - score2;
    player1.goalDifference := player1.goalDifference + goalDiff;
    player2.goalDifference := player2.goalDifference - goalDiff;
    player1.matches := player1.matches + 1;
    player2.matches := player2.matches + 1;
    if score1 > score2 {
      player1.wins := player1.wins + 1;
      player1.points := player1.points + 3;
      player2.losses := player2.losses + 1;
    } else if score1 < score2 {
      player2.wins := player2.wins + 1;
      player2.points := player2.points + 3;
      player1.losses := player1.losses + 1;
    } else {
      player1.draws := player1.draws + 1;
      player2.draws := player2.draws + 1;
      player1.points := player1.points + 1;
      player2.points := player2.points + 1;
    }
    if player1 == player2 {
      assert player1.Snapshot() == Add(Add(before1, Gain(score1, score2)), Gain(score2, score1));
    } else {
      assert player1.Snapshot() == Add(before1, Gain(score1, score2));
      assert player2.Snapshot() == Add(before2, Gain(score2, score1));
    }
  }

  /** Takes back a result recorded by UpdateTable: recomputes the same
      branch from the stored scores and subtracts field by field. */
  method UndoUpdateTable(player1: Player, player2: Player, score1: int, score2: int)
    modifies player1, player2
    ensures player1 != player2 ==>
      player1.Snapshot() == Sub(old(player1.Snapshot()), Gain(score1, score2)) &&
      player2.Snapshot() == Sub(old(player2.Snapshot()), Gain(score2, score1))
    ensures player1 == player2 ==>
      player1.Snapshot() == Sub(Sub(old(player1.Snapshot()), Gain(score1, score2)), Gain(score2, score1))
  {
    ghost var before1, before2 := player1.Snapshot(), player2.Snapshot();
    var goalDiff := score1 - score2;
    player1.goalDifference := player1.goalDifference - goalDiff;
    player2.goalDifference := player2.goalDifference + goalDiff;
    player1.matches := player1.matches - 1;
    player2.matches := player2.matches - 1;
    if score1 > score2 {
      player1.wins := player1.wins - 1;
      player1.points := player1.points - 3;
      player2.losses := player2.losses - 1;
    } else if score1 < score2 {
      player2.wins := player2.wins - 1;
      player2.points := player2.points - 3;
      player1.losses := player1.losses - 1;
    } else {
      player1.draws := player1.draws - 1;
      player2.draws := player2.draws - 1;
      player1.points := player1.points - 1;
      player2.points := player2.points - 1;
    }
    if player1 == player2 {
      assert player1.Snapshot() == Sub(Sub(before1, Gain(score1, score2)), Gain(score2, score1));
    } else {
      assert player1.Snapshot() == Sub(before1, Gain(score1, score2));
      assert player2.Snapshot() == Sub(before2, Gain(score2, score1));
    }
  }

  /** An applied result as the history stores it: the fixture (home, away)
      and the two scores it was played with. */
  datatype Entry<K> = Entry(fixture: (K, K), score1: int, score2: int)

  /** The standings table as a value, keyed by player. Record is what
      UpdateTable does to it: first the home row, then the away row. */
  function Record<K>(t: map<K, Stats>, e: Entry<K>): (r: map<K, Stats>)
    requires e.fixture.0 in t && e.fixture.1 in t
    ensures r.Keys == t.Keys
    ensures forall k :: k in t && k != e.fixture.0 && k != e.fixture.1 ==> r[k] == t[k]
    ensures e.fixture.0 != e.fixture.1 ==>
      r[e.fixture.0].matches == t[e.fixture.0].matches + 1 &&
      r[e.fixture.1].matches == t[e.fixture.1].matches + 1 &&
      r[e.fixture.0].goalDifference + r[e.fixture.1].goalDifference
        == t[e.fixture.0].goalDifference + t[e.fixture.1].goalDifference
  {
    var (home, away) := e.fixture;
    var t1 := t[home := Add(t[home], Gain(e.score1, e.score2))];
    t1[away := Add(t1[away], Gain(e.score2, e.score1))]
  }

  /** What UndoUpdateTable does to the table: the same two rows, the same
      deltas, subtracted. */
  function Unrecord<K>(t: map<K, Stats>, e: Entry<K>): (r: map<K, Stats>)
    requires e.fixture.0 in t && e.fixture.1 in t
    ensures r.Keys == t.Keys
    ensures forall k :: k in t && k != e.fixture.0 && k != e.fixture.1 ==> r[k] == t[k]
  {
    var (home, away) := e.fixture;
    var t1 := t[home := Sub(t[home], Gain(e.score1, e.score2))];
    t1[away := Sub(t1[away], Gain(e.score2, e.score1))]
  }

  /** Undo after apply gives back the table exactly, for any two keys (equal
      or not) and any integer scores, negative ones included. */
  lemma {:induction false} UnrecordRecord<K>(t: map<K, Stats>, e: Entry<K>)
    requires e.fixture.0 in t && e.fixture.1 in t
    ensures Unrecord(Record(t, e), e) == t
  {
    var (home, away) := e.fixture;
    var g1, g2 := Gain(e.score1, e.score2), Gain(e.score2, e.score1);
    var r := Unrecord(Record(t, e), e);
    if home == away {
      assert r[home] == Sub(Sub(Add(Add(t[home], g1), g2), g1), g2);
    } else {
      assert r[home] == Sub(Add(t[home], g1), g1);
      assert r[away] == Sub(Add(t[away], g2), g2);
    }
    assert r.Keys == t.Keys;
    forall k | k in t ensures r[k] == t[k] {}
  }

  /** And apply after undo: the two are mutually inverse. */
  lemma {:induction false} RecordUnrecord<K>(t: map<K, Stats>, e: Entry<K>)
    requires e.fixture.0 in t && e.fixture.1 in t
    ensures Record(Unrecord(t, e), e) == t
  {
    var (home, away) := e.fixture;
    var g1, g2 := Gain(e.score1, e.score2), Gain(e.score2, e.score1);
    var r := Record(Unrecord(t, e), e);
    if home == away {
      assert r[home] == Add(Add(Sub(Sub(t[home], g1), g2), g1), g2);
    } else {
      assert r[home] == Add(Sub(t[home], g1), g1);
      assert r[away] == Add(Sub(t[away], g2), g2);
    }
    assert r.Keys == t.Keys;
    forall k | k in t ensures r[k] == t[k] {}
  }

  /** Every row of a table keeps the bookkeeping invariant. */
  ghost predicate AllConsistent<K>(t: map<K, Stats>) {
    forall k :: k in t ==> Consistent(t[k])
  }

  /** Recording a result keeps every row consistent. */
  lemma RecordConsistent<K>(t: map<K, Stats>, e: Entry<K>)
    requires e.fixture.0 in t && e.fixture.1 in t
    requires AllConsistent(t)
    ensures AllConsistent(Record(t, e))
  {
  }

  /** Every history entry names two rows of the table. */
  ghost predicate Involves<K>(t: map<K, Stats>, h: seq<Entry<K>>) {
    forall e :: e in h ==> e.fixture.0 in t && e.fixture.1 in t
  }

  /** The table obtained by recording the results of `h`, oldest first. */
  function Replay<K>(t: map<K, Stats>, h: seq<Entry<K>>): (r: map<K, Stats>)
    requires Involves(t, h)
    ensures r.Keys == t.Keys
    decreases |h|
  {
    if h == [] then t else Record(Replay(t, h[..|h| - 1]), h[|h| - 1])
  }

  lemma ReplayPush<K>(t: map<K, Stats>, h: seq<Entry<K>>, e: Entry<K>)
    requires Involves(t, h + [e])
    ensures Involves(t, h)
    ensures Replay(t, h + [e]) == Record(Replay(t, h), e)
  {
    assert (h + [e])[..|h|] == h;
  }

  /** Starting from consistent rows, any history of results leaves every row
      consistent: matches == wins + draws + losses, points == 3 * wins + draws. */
  lemma {:induction false} ReplayConsistent<K>(t: map<K, Stats>, h: seq<Entry<K>>)
    requires Involves(t, h) && AllConsistent(t)
    ensures AllConsistent(Replay(t, h))
    decreases |h|
  {
    if h != [] {
      ReplayConsistent(t, h[..|h| - 1]);
      RecordConsistent(Replay(t, h[..|h| - 1]), h[|h| - 1]);
    }
  }

  /** How many times `k` takes part in the results of `h` (twice for an
      entry that pairs `k` with itself). */
  ghost function Appearances<K>(h: seq<Entry<K>>, k: K): (n: nat)
    decreases |h|
  {
    if h == [] then 0
    else
      var e := h[|h| - 1];
      Appearances(h[..|h| - 1], k)
        + (if e.fixture.0 == k then 1 else 0) + (if e.fixture.1 == k then 1 else 0)
  }

  /** A player's matches played grow by exactly one per result it took part in. */
  lemma {:induction false} ReplayMatches<K>(t: map<K, Stats>, h: seq<Entry<K>>, k: K)
    requires Involves(t, h) && k in t
    ensures Replay(t, h)[k].matches == t[k].matches + Appearances(h, k)
    decreases |h|
  {
    if h != [] {
      ReplayMatches(t, h[..|h| - 1], k);
    }
  }

  /** The sum of goal differences over the rows named in `ks`. */
  function GoalSum<K>(t: map<K, Stats>, ks: seq<K>): (sum: int)
    requires forall k :: k in ks ==> k in t
    decreases |ks|
  {
    if ks == [] then 0 else GoalSum(t, ks[..|ks| - 1]) + t[ks[|ks| - 1]].goalDifference
  }

  /** Changing one row moves the sum by the change of that row, provided
      the row is listed once. */
  lemma {:induction false} GoalSumUpdate<K>(t: map<K, Stats>, ks: seq<K>, k: K, v: Stats)
    requires forall x :: x in ks ==> x in t
    requires Distinct(ks) && k in ks
    ensures GoalSum(t[k := v], ks) == GoalSum(t, ks) - t[k].goalDifference + v.goalDifference
    decreases |ks|
  {
    var last := ks[|ks| - 1];
    var init := ks[..|ks| - 1];
    if last == k {
      assert k !in init by {
        forall i | 0 <= i < |init| ensures init[i] != k { assert ks[i] == init[i]; }
      }
      GoalSumUnchanged(t, init, k, v);
    } else {
      assert k in init by {
        var i :| 0 <= i < |ks| && ks[i] == k;
        assert i < |ks| - 1 && init[i] == k;
      }
      GoalSumUpdate(t, init, k, v);
    }
  }

  lemma {:induction false} GoalSumUnchanged<K>(t: map<K, Stats>, ks: seq<K>, k: K, v: Stats)
    requires forall x :: x in ks ==> x in t
    requires k !in ks
    ensures GoalSum(t[k := v], ks) == GoalSum(t, ks)
    decreases |ks|
  {
    if ks != [] {
      GoalSumUnchanged(t, ks[..|ks| - 1], k, v);
    }
  }

  lemma {:induction false} GoalSumAllZero<K>(t: map<K, Stats>, ks: seq<K>)
    requires forall k :: k in ks ==> k in t && t[k].goalDifference == 0
    ensures GoalSum(t, ks) == 0
    decreases |ks|
  {
    if ks != [] {
      GoalSumAllZero(t, ks[..|ks| - 1]);
    }
  }

  /** Goal difference is zero-sum: recording a result between two listed
      players leaves the total over all listed players unchanged. */
  lemma RecordGoalSum<K>(t: map<K, Stats>, ks: seq<K>, e: Entry<K>)
    requires forall x :: x in ks ==> x in t
    requires Distinct(ks) && e.fixture.0 in ks && e.fixture.1 in ks
    ensures GoalSum(Record(t, e), ks) == GoalSum(t, ks)
  {
    var (home, away) := e.fixture;
    var t1 := t[home := Add(t[home], Gain(e.score1, e.score2))];
    GoalSumUpdate(t, ks, home, Add(t[home], Gain(e.score1, e.score2)));
    GoalSumUpdate(t1, ks, away, Add(t1[away], Gain(e.score2, e.score1)));
  }

  /** Over a whole history, the total goal difference never moves. */
  lemma {:induction false} ReplayGoalSum<K>(t: map<K, Stats>, ks: seq<K>, h: seq<Entry<K>>)
    requires forall x :: x in ks ==> x in t
    requires Distinct(ks)
    requires forall e :: e in h ==> e.fixture.0 in ks && e.fixture.1 in ks
    ensures Involves(t, h)
    ensures GoalSum(Replay(t, h), ks) == GoalSum(t, ks)
    decreases |h|
  {
    if h != [] {
      var init := h[..|h| - 1];
      ReplayGoalSum(t, ks, init);
      RecordGoalSum(Replay(t, init), ks, h[|h| - 1]);
    }
  }
}
