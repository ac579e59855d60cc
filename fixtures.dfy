/** Fixture generation for a single round robin: every pair of players
    (players[i], players[j]) with i < j, enumerated row by row and then put
    into a random order. */
module Fixtures {
  import opened Sequences

  /** The pairs (ps[i], ps[k]) for i < k < j, in increasing k. */
  function Row<T>(ps: seq<T>, i: nat, j: nat): (r: seq<(T, T)>)
    requires i < |ps| && j <= |ps|
    ensures |r| == if j <= i then 0 else j - i - 1
    ensures forall p :: 0 <= p < |r| ==> r[p] == (ps[i], ps[i + 1 + p])
  {
    seq(if j <= i then 0 else j - i - 1, p requires 0 <= p && i + 1 + p < |ps| => (ps[i], ps[i + 1 + p]))
  }

  /** The rows of the first `i` players, in order. */
  function PairsBefore<T>(ps: seq<T>, i: nat): (r: seq<(T, T)>)
    requires i <= |ps|
  {
    if i == 0 then [] else PairsBefore(ps, i - 1) + Row(ps, i - 1, |ps|)
  }

  /** The fixtures before shuffling, in the order the nested loops append them. */
  function AllPairs<T>(ps: seq<T>): (r: seq<(T, T)>) {
    PairsBefore(ps, |ps|)
  }

  /** Swaps two positions of a list, as `x[i], x[j] = x[j], x[i]` does. */
  function Swap<T>(s: seq<T>, i: nat, j: nat): (r: seq<T>)
    requires i < |s| && j < |s|
    ensures multiset(r) == multiset(s) && |r| == |s|
    ensures r[i] == s[j] && r[j] == s[i]
    ensures forall k :: 0 <= k < |s| && k != i && k != j ==> r[k] == s[k]
  {
    var r := s[i := s[j]][j := s[i]];
    assert multiset(r) == multiset(s) by {
      var m := multiset(s);
      assert multiset(s[i := s[j]]) == m[s[i] := m[s[i]] - 1][s[j] := m[s[j]] + 1 - (if s[i] == s[j] then 1 else 0)];
    }
    r
  }

  /** The list shuffle of the Python runtime (Fisher-Yates from the back):
      for i = n-1 down to 1, swap position i with a position drawn from
      0..i. The draws are the parameter `pick`; whatever it returns, the
      result is a reordering of the input. */
  method Shuffle<T>(s: seq<T>, pick: nat -> nat) returns (r: seq<T>)
    ensures multiset(r) == multiset(s)
  {
    r := s;
    var i := |r| - 1;
    while i >= 1
      invariant i < |r|
      invariant multiset(r) == multiset(s)
    {
      var j := pick(i) % (i + 1);
      r := Swap(r, i, j);
      i := i - 1;
    }
  }

  /** Enumerates every pair (players[i], players[j]) with i < j, then
      shuffles the list. */
  method GenerateMatches<T>(players: seq<T>, pick: nat -> nat) returns (matches: seq<(T, T)>)
    ensures multiset(matches) == multiset(AllPairs(players))
  {
    matches := [];
    var i := 0;
    while i < |players|
      invariant i <= |players|
      invariant matches == PairsBefore(players, i)
    {
      var j := i + 1;
      while j < |players|
        invariant i + 1 <= j <= |players|
        invariant matches == PairsBefore(players, i) + Row(players, i, j)
      {
        ghost var done, row := PairsBefore(players, i), Row(players, i, j);
        matches := matches + [(players[i], players[j])];
        assert matches == done + (row + [(players[i], players[j])]);
        RowPush(players, i, j);
        j := j + 1;
      }
      PairsBeforePush(players, i);
      i := i + 1;
    }
    matches := Shuffle(matches, pick);
  }

  // ---- what the enumeration contains ----

  lemma RowPush<T>(ps: seq<T>, i: nat, j: nat)
    requires i < j < |ps|
    ensures Row(ps, i, j + 1) == Row(ps, i, j) + [(ps[i], ps[j])]
  {
  }

  lemma PairsBeforePush<T>(ps: seq<T>, i: nat)
    requires i < |ps|
    ensures PairsBefore(ps, i + 1) == PairsBefore(ps, i) + Row(ps, i, |ps|)
  {
  }


  /** (n - 1) + (n - 2) + ... + (n - i): the length of the first `i` rows. */
  function RowsTotal(n: int, i: nat): (total: int) {
    if i == 0 then 0 else RowsTotal(n, i - 1) + (n - i)
  }

  lemma LengthStep(i: int, n: int)
    ensures (i - 1) * (2 * n - (i - 1) - 1) + 2 * (n - i) == i * (2 * n - i - 1)
  {
  }

  lemma {:induction false} RowsTotalClosed(n: int, i: nat)
    ensures 2 * RowsTotal(n, i) == i * (2 * n - i - 1)
  {
    if i > 0 {
      RowsTotalClosed(n, i - 1);
      LengthStep(i, n);
    }
  }

  lemma {:induction false} PairsBeforeLength<T>(ps: seq<T>, i: nat)
    requires i <= |ps|
    ensures |PairsBefore(ps, i)| == RowsTotal(|ps|, i)
  {
    if i > 0 {
      PairsBeforeLength(ps, i - 1);
      assert |PairsBefore(ps, i)| == |PairsBefore(ps, i - 1)| + |Row(ps, i - 1, |ps|)|;
    }
  }

  /** There are n*(n-1)/2 fixtures for n players. */
  lemma AllPairsLength<T>(ps: seq<T>)
    ensures 2 * |AllPairs(ps)| == |ps| * (|ps| - 1)
    ensures |AllPairs(ps)| == |ps| * (|ps| - 1) / 2
  {
    PairsBeforeLength(ps, |ps|);
    RowsTotalClosed(|ps|, |ps|);
  }

  /** The position, within its row, of a pair of the row. */
  lemma RowIndex<T>(ps: seq<T>, i: nat, j: nat, x: (T, T)) returns (k: nat)
    requires i < |ps| && j <= |ps| && x in Row(ps, i, j)
    ensures i < k < j && x == (ps[i], ps[k])
  {
    var row := Row(ps, i, j);
    var p :| 0 <= p < |row| && row[p] == x;
    k := i + 1 + p;
  }

  /** Where the pair (ps[i], ps[k]) sits in the row. */
  lemma RowAt<T>(ps: seq<T>, i: nat, j: nat, k: nat) returns (p: nat)
    requires i < k < j <= |ps|
    ensures p < |Row(ps, i, j)| && Row(ps, i, j)[p] == (ps[i], ps[k])
  {
    p := k - i - 1;
  }

  /** The two positions of a pair of the first `i` rows. */
  lemma {:induction false} PairsBeforeIndex<T>(ps: seq<T>, i: nat, x: (T, T)) returns (a: nat, b: nat)
    requires i <= |ps| && x in PairsBefore(ps, i)
    ensures a < i && a < b < |ps| && x == (ps[a], ps[b])
  {
    if x in Row(ps, i - 1, |ps|) {
      a := i - 1;
      b := RowIndex(ps, i - 1, |ps|, x);
    } else {
      a, b := PairsBeforeIndex(ps, i - 1, x);
    }
  }

  /** Where the pair (ps[a], ps[b]) sits in the first `i` rows. */
  lemma {:induction false} PairsBeforeAt<T>(ps: seq<T>, i: nat, a: nat, b: nat) returns (p: nat)
    requires a < i <= |ps| && a < b < |ps|
    ensures p < |PairsBefore(ps, i)| && PairsBefore(ps, i)[p] == (ps[a], ps[b])
  {
    var before, row := PairsBefore(ps, i - 1), Row(ps, i - 1, |ps|);
    assert PairsBefore(ps, i) == before + row;
    if a == i - 1 {
      var q := RowAt(ps, a, |ps|, b);
      p := |before| + q;
      assert (before + row)[p] == row[q];
    } else {
      p := PairsBeforeAt(ps, i - 1, a, b);
      assert (before + row)[p] == before[p];
    }
  }

  /** A fixture is exactly a pair (players[i], players[j]) with i < j. */
  lemma AllPairsMembers<T>(ps: seq<T>, x: (T, T))
    ensures x in AllPairs(ps) <==> exists a, b :: 0 <= a < b < |ps| && x == (ps[a], ps[b])
  {
    if x in AllPairs(ps) {
      var a, b := PairsBeforeIndex(ps, |ps|, x);
    }
    if exists a, b :: 0 <= a < b < |ps| && x == (ps[a], ps[b]) {
      var a, b :| 0 <= a < b < |ps| && x == (ps[a], ps[b]);
      var p := PairsBeforeAt(ps, |ps|, a, b);
    }
  }

  lemma DistinctAppend<T>(s: seq<T>, t: seq<T>)
    requires Distinct(s) && Distinct(t)
    requires forall a, b :: 0 <= a < |s| && 0 <= b < |t| ==> s[a] != t[b]
    ensures Distinct(s + t)
  {
    forall i, j | 0 <= i < j < |s + t| ensures (s + t)[i] != (s + t)[j] {
      if i < |s| && j >= |s| {
        assert (s + t)[i] == s[i] && (s + t)[j] == t[j - |s|];
      }
    }
  }

  lemma RowDistinct<T>(ps: seq<T>, i: nat, j: nat)
    requires i < |ps| && j <= |ps| && Distinct(ps)
    ensures Distinct(Row(ps, i, j))
  {
    var row := Row(ps, i, j);
    forall a, b | 0 <= a < b < |row| ensures row[a] != row[b] {
      assert ps[i + 1 + a] != ps[i + 1 + b];
    }
  }

  lemma {:induction false} PairsBeforeDistinct<T>(ps: seq<T>, i: nat)
    requires i <= |ps| && Distinct(ps)
    ensures Distinct(PairsBefore(ps, i))
  {
    if i > 0 {
      PairsBeforeDistinct(ps, i - 1);
      RowDistinct(ps, i - 1, |ps|);
      RowAfterPairs(ps, i - 1);
      DistinctAppend(PairsBefore(ps, i - 1), Row(ps, i - 1, |ps|));
      PairsBeforePush(ps, i - 1);
    }
  }

  /** Row `i` shares no pair with the rows before it. */
  lemma RowAfterPairs<T>(ps: seq<T>, i: nat)
    requires i < |ps| && Distinct(ps)
    ensures forall a, b :: 0 <= a < |PairsBefore(ps, i)| && 0 <= b < |Row(ps, i, |ps|)| ==>
      PairsBefore(ps, i)[a] != Row(ps, i, |ps|)[b]
  {
    var before, row := PairsBefore(ps, i), Row(ps, i, |ps|);
    forall a, b | 0 <= a < |before| && 0 <= b < |row| ensures before[a] != row[b] {
      var a', b' := PairsBeforeIndex(ps, i, before[a]);
      var k := RowIndex(ps, i, |ps|, row[b]);
      assert ps[a'] != ps[i];
    }
  }

  /** Every reordering of the enumeration pairs players of the list only. */
  lemma Endpoints<T>(players: seq<T>, matches: seq<(T, T)>)
    requires multiset(matches) == multiset(AllPairs(players))
    ensures forall x :: x in matches ==> x.0 in players && x.1 in players
  {
    forall x | x in matches ensures x.0 in players && x.1 in players {
      assert x in multiset(AllPairs(players));
      AllPairsMembers(players, x);
    }
  }

  /** The round-robin guarantee, for any reordering `matches` of the
      enumeration over distinct players: n*(n-1)/2 fixtures, every pair
      (players[a], players[b]) with a < b exactly once, nothing else, and
      no player paired with itself. */
  lemma RoundRobin<T>(players: seq<T>, matches: seq<(T, T)>)
    requires Distinct(players)
    requires multiset(matches) == multiset(AllPairs(players))
    ensures 2 * |matches| == |players| * (|players| - 1)
    ensures forall a, b :: 0 <= a < b < |players| ==> multiset(matches)[(players[a], players[b])] == 1
    ensures forall x :: x in matches ==>
      multiset(matches)[x] == 1 && x.0 != x.1 &&
      exists a, b :: 0 <= a < b < |players| && x == (players[a], players[b])
  {
    var all := AllPairs(players);
    assert |matches| == |multiset(matches)| == |all|;
    AllPairsLength(players);
    PairsBeforeDistinct(players, |players|);
    forall a, b | 0 <= a < b < |players|
      ensures multiset(matches)[(players[a], players[b])] == 1
    {
      AllPairsMembers(players, (players[a], players[b]));
      DistinctCount(all, (players[a], players[b]));
    }
    forall x | x in matches
      ensures multiset(matches)[x] == 1 && x.0 != x.1
      ensures exists a, b :: 0 <= a < b < |players| && x == (players[a], players[b])
    {
      assert x in multiset(all);
      AllPairsMembers(players, x);
      DistinctCount(all, x);
    }
  }

  /** Two players give the single fixture (first, second). */
  lemma TwoPlayers<T>(a: T, b: T, matches: seq<(T, T)>)
    requires multiset(matches) == multiset(AllPairs([a, b]))
    ensures matches == [(a, b)]
  {
    assert Row([a, b], 0, 2) == [(a, b)];
    assert Row([a, b], 1, 2) == [];
    assert PairsBefore([a, b], 1) == [(a, b)];
    assert PairsBefore([a, b], 2) == [(a, b)];
    assert |matches| == 1;
    assert matches[0] in multiset(matches);
  }
}
