/**
 * Best-score leaderboards kept as arrays of rows: a submission replaces the
 * sender's row only when it beats it strictly, the board is re-sorted by
 * score with the stable `Array.prototype.sort`, and some boards are then
 * cut to their first `n` rows. The snake, snake-arena and tetris-arena
 * boards are instances.
 */
module Boards {
  import opened Options
  import opened JsValues
  import opened Ranking

  /** No two rows belong to the same address. */
  predicate DistinctBy<T, K(==)>(s: seq<T>, addr: T -> K)
  {
    forall i, j :: 0 <= i < j < |s| ==> addr(s[i]) != addr(s[j])
  }

  /** `board.find(r => r.address === a)`: the first row of `a`. */
  function FindBy<T, K(==)>(s: seq<T>, a: K, addr: T -> K): (r: Option<T>)
    ensures r.Some? ==> r.value in s && addr(r.value) == a
    ensures r.None? <==> forall i :: 0 <= i < |s| ==> addr(s[i]) != a
    decreases |s|
  {
    if s == [] then None
    else if addr(s[0]) == a then Some(s[0])
    else
      var r := FindBy(s[1..], a, addr);
      assert forall i :: 0 < i < |s| ==> s[i] == s[1..][i - 1];
      r
  }

  /** With one row per address, `find` gives that row. */
  lemma {:induction false} FindByUnique<T, K>(s: seq<T>, a: K, addr: T -> K, i: int)
    requires DistinctBy(s, addr) && 0 <= i < |s| && addr(s[i]) == a
    ensures FindBy(s, a, addr) == Some(s[i])
    decreases |s|
  {
    if i > 0 {
      assert addr(s[0]) != a;
      assert DistinctBy(s[1..], addr);
      assert s[1..][i - 1] == s[i];
      FindByUnique(s[1..], a, addr, i - 1);
    }
  }

  /** With one row per address, two rows of the same address are the same row. */
  lemma SameAddressSameRow<T, K>(s: seq<T>, addr: T -> K, x: T, y: T)
    requires DistinctBy(s, addr) && x in s && y in s && addr(x) == addr(y)
    ensures x == y
  {
    var i :| 0 <= i < |s| && s[i] == x;
    var j :| 0 <= j < |s| && s[j] == y;
    assert i == j;
  }

  /** `board.filter(r => r.address !== a)` */
  function Without<T, K(==)>(s: seq<T>, a: K, addr: T -> K): (r: seq<T>)
    ensures |r| <= |s|
    ensures forall i :: 0 <= i < |r| ==> r[i] in s && addr(r[i]) != a
    ensures forall i :: 0 <= i < |s| && addr(s[i]) != a ==> s[i] in r
    decreases |s|
  {
    if s == [] then []
    else
      assert s == [s[0]] + s[1..];
      var rest := Without(s[1..], a, addr);
      if addr(s[0]) == a then rest else [s[0]] + rest
  }

  lemma {:induction false} WithoutDistinct<T, K>(s: seq<T>, a: K, addr: T -> K)
    requires DistinctBy(s, addr)
    ensures DistinctBy(Without(s, a, addr), addr)
    decreases |s|
  {
    if s != [] {
      var t := s[1..];
      assert DistinctBy(t, addr);
      WithoutDistinct(t, a, addr);
      var rest := Without(t, a, addr);
      if addr(s[0]) != a {
        var r := [s[0]] + rest;
        forall j | 0 < j < |r|
          ensures addr(r[0]) != addr(r[j])
        {
          assert r[j] in t;
          var k :| 0 <= k < |t| && t[k] == r[j];
          assert s[k + 1] == r[j];
        }
        assert forall i, j :: 0 < i < j < |r| ==> r[i] == rest[i - 1] && r[j] == rest[j - 1];
      }
    }
  }

  /** `board.filter(p)` */
  function Keep<T>(s: seq<T>, p: T -> bool): (r: seq<T>)
    ensures |r| <= |s|
    ensures forall i :: 0 <= i < |r| ==> r[i] in s && p(r[i])
    ensures forall i :: 0 <= i < |s| && p(s[i]) ==> s[i] in r
    decreases |s|
  {
    if s == [] then []
    else
      assert s == [s[0]] + s[1..];
      var rest := Keep(s[1..], p);
      if p(s[0]) then [s[0]] + rest else rest
  }

  lemma {:induction false} KeepDistinct<T, K>(s: seq<T>, p: T -> bool, addr: T -> K)
    requires DistinctBy(s, addr)
    ensures DistinctBy(Keep(s, p), addr)
    decreases |s|
  {
    if s != [] {
      var t := s[1..];
      assert DistinctBy(t, addr);
      KeepDistinct(t, p, addr);
      var rest := Keep(t, p);
      if p(s[0]) {
        var r := [s[0]] + rest;
        forall j | 0 < j < |r|
          ensures addr(r[0]) != addr(r[j])
        {
          assert r[j] in t;
          var k :| 0 <= k < |t| && t[k] == r[j];
          assert s[k + 1] == r[j];
        }
        assert forall i, j :: 0 < i < j < |r| ==> r[i] == rest[i - 1] && r[j] == rest[j - 1];
      }
    }
  }

  lemma {:induction false} KeepSorted<T>(s: seq<T>, p: T -> bool, key: T -> seq<int>)
    requires SortedBy(s, key)
    ensures SortedBy(Keep(s, p), key)
    decreases |s|
  {
    if s != [] {
      var t := s[1..];
      assert SortedBy(t, key);
      KeepSorted(t, p, key);
      var rest := Keep(t, p);
      if p(s[0]) {
        var r := [s[0]] + rest;
        forall j | 0 < j < |r|
          ensures !Precedes(key(r[j]), key(r[0]))
        {
          assert r[j] in t;
          var k :| 0 <= k < |t| && t[k] == r[j];
          assert s[k + 1] == r[j];
        }
        assert forall i, j :: 0 < i < j < |r| ==> r[i] == rest[i - 1] && r[j] == rest[j - 1];
      }
    }
  }

  /** `board.splice(board.findIndex(r => r.address === a), 1)`, when there is such a row. */
  function RemoveFirst<T, K(==)>(s: seq<T>, a: K, addr: T -> K): (r: seq<T>)
    decreases |s|
  {
    if s == [] then []
    else if addr(s[0]) == a then s[1..]
    else [s[0]] + RemoveFirst(s[1..], a, addr)
  }

  /** With one row per address, removing the first row of `a` removes all of them. */
  lemma {:induction false} RemoveFirstIsWithout<T, K>(s: seq<T>, a: K, addr: T -> K)
    requires DistinctBy(s, addr)
    ensures RemoveFirst(s, a, addr) == Without(s, a, addr)
    decreases |s|
  {
    if s != [] {
      var t := s[1..];
      assert DistinctBy(t, addr);
      if addr(s[0]) == a {
        WithoutNone(t, a, addr);
      } else {
        RemoveFirstIsWithout(t, a, addr);
      }
    }
  }

  lemma {:induction false} WithoutNone<T, K>(s: seq<T>, a: K, addr: T -> K)
    requires forall i :: 0 <= i < |s| ==> addr(s[i]) != a
    ensures Without(s, a, addr) == s
    decreases |s|
  {
    if s != [] {
      WithoutNone(s[1..], a, addr);
      assert s == [s[0]] + s[1..];
    }
  }

  /** The comparator `(a, b) => b.score - a.score`. */
  function ScoreKey<T>(score: T -> int): T -> seq<int>
  {
    t => [score(t)]
  }

  /** Sorted by the score comparator means the scores never increase. */
  lemma ScoresNonIncreasing<T>(s: seq<T>, score: T -> int)
    requires SortedBy(s, ScoreKey(score))
    ensures forall i, j :: 0 <= i < j < |s| ==> score(s[i]) >= score(s[j])
  {
    forall i, j | 0 <= i < j < |s|
      ensures score(s[i]) >= score(s[j])
    {
      PrecedesSingle(score(s[j]), score(s[i]));
      assert ScoreKey(score)(s[j]) == [score(s[j])];
      assert ScoreKey(score)(s[i]) == [score(s[i])];
    }
  }

  lemma ScoreKeysUniform<T>(s: seq<T>, score: T -> int)
    ensures UniformKeys(s, ScoreKey(score), 1)
  {
  }

  lemma {:induction false} InsertDistinct<T, K>(s: seq<T>, e: T, key: T -> seq<int>, addr: T -> K)
    requires DistinctBy(s, addr)
    requires forall i :: 0 <= i < |s| ==> addr(s[i]) != addr(e)
    ensures DistinctBy(Insert(s, e, key), addr)
    decreases |s|
  {
    if s != [] && !Precedes(key(e), key(s[0])) {
      var t := s[1..];
      assert DistinctBy(t, addr);
      InsertDistinct(t, e, key, addr);
      var rt := Insert(t, e, key);
      var r := [s[0]] + rt;
      forall j | 0 <= j < |rt|
        ensures addr(s[0]) != addr(rt[j])
      {
        assert rt[j] in multiset(t) + multiset{e};
        if rt[j] != e {
          assert rt[j] in t;
          var k :| 0 <= k < |t| && t[k] == rt[j];
          assert s[k + 1] == rt[j];
        }
      }
      assert forall i, j :: 0 < i < j < |r| ==> r[i] == rt[i - 1] && r[j] == rt[j - 1];
    }
  }

  /** Sorting keeps one row per address. */
  lemma {:induction false} SortDistinct<T, K>(s: seq<T>, key: T -> seq<int>, addr: T -> K)
    requires DistinctBy(s, addr)
    ensures DistinctBy(SortDesc(s, key), addr)
    decreases |s|
  {
    if s != [] {
      var init := s[..|s| - 1];
      var e := s[|s| - 1];
      assert DistinctBy(init, addr);
      SortDistinct(init, key, addr);
      var sorted := SortDesc(init, key);
      forall i | 0 <= i < |sorted|
        ensures addr(sorted[i]) != addr(e)
      {
        assert sorted[i] in multiset(init);
        var k :| 0 <= k < |init| && init[k] == sorted[i];
        assert s[k] == sorted[i];
      }
      InsertDistinct(sorted, e, key, addr);
    }
  }

  /** The sender's row is dropped, the new row appended and the board re-sorted by score. */
  function Resorted<T, K(==)>(s: seq<T>, row: T, addr: T -> K, score: T -> int): (r: seq<T>)
    ensures |r| <= |s| + 1
  {
    SortDesc(Without(s, addr(row), addr) + [row], ScoreKey(score))
  }

  /** The re-sorted board holds the new row and every row of the other senders, and nothing else. */
  lemma ResortedMembers<T, K>(s: seq<T>, row: T, addr: T -> K, score: T -> int)
    ensures var r := Resorted(s, row, addr, score);
      && row in r
      && (forall i :: 0 <= i < |r| ==> r[i] == row || (r[i] in s && addr(r[i]) != addr(row)))
      && (forall i :: 0 <= i < |s| && addr(s[i]) != addr(row) ==> s[i] in r)
  {
    var w0 := Without(s, addr(row), addr);
    var w := w0 + [row];
    var r := Resorted(s, row, addr, score);
    assert multiset(r) == multiset(w);
    assert w[|w0|] == row;
    assert row in multiset(r);
    forall i | 0 <= i < |r|
      ensures r[i] == row || (r[i] in s && addr(r[i]) != addr(row))
    {
      assert r[i] in multiset(w);
      if r[i] != row {
        assert r[i] in w0;
        var k :| 0 <= k < |w0| && w0[k] == r[i];
      }
    }
    forall i | 0 <= i < |s| && addr(s[i]) != addr(row)
      ensures s[i] in r
    {
      assert s[i] in w0;
      var k :| 0 <= k < |w0| && w0[k] == s[i];
      assert w[k] == s[i];
      assert s[i] in multiset(w);
    }
  }

  lemma ResortedShape<T, K>(s: seq<T>, row: T, addr: T -> K, score: T -> int)
    requires DistinctBy(s, addr)
    ensures DistinctBy(Resorted(s, row, addr, score), addr)
    ensures SortedBy(Resorted(s, row, addr, score), ScoreKey(score))
  {
    var w0 := Without(s, addr(row), addr);
    WithoutDistinct(s, addr(row), addr);
    var w := w0 + [row];
    assert forall i :: 0 <= i < |w0| ==> w0[i] in w0;
    assert DistinctBy(w, addr);
    SortDistinct(w, ScoreKey(score), addr);
    ScoreKeysUniform(w, score);
    SortDescSorted(w, ScoreKey(score), 1);
  }

  /** A prefix of a board keeps its shape. */
  lemma TakeShape<T, K>(s: seq<T>, n: nat, addr: T -> K, key: T -> seq<int>)
    requires DistinctBy(s, addr) && SortedBy(s, key)
    ensures DistinctBy(Take(s, n), addr) && SortedBy(Take(s, n), key)
    ensures forall x :: x in Take(s, n) ==> x in s
  {
    var r := Take(s, n);
    assert forall i :: 0 <= i < |r| ==> r[i] == s[i];
  }

  /** The new row beats the sender's row, or the sender has none. */
  predicate Improves<T, K(==)>(s: seq<T>, row: T, addr: T -> K, score: T -> int)
  {
    var e := FindBy(s, addr(row), addr);
    e.None? || score(e.value) < score(row)
  }

  /** `submit`: unchanged unless the row improves on the sender's best; then re-sorted and cut to `cap`. */
  function Submit<T, K(==)>(s: seq<T>, row: T, addr: T -> K, score: T -> int, cap: nat): (r: seq<T>)
    ensures !Improves(s, row, addr, score) ==> r == s
    ensures Improves(s, row, addr, score) ==> |r| <= cap
  {
    if !Improves(s, row, addr, score) then s else Take(Resorted(s, row, addr, score), cap)
  }

  /** `submit` on a board without a cap. */
  function SubmitUncapped<T, K(==)>(s: seq<T>, row: T, addr: T -> K, score: T -> int): (r: seq<T>)
    ensures !Improves(s, row, addr, score) ==> r == s
  {
    if !Improves(s, row, addr, score) then s else Resorted(s, row, addr, score)
  }

  /** An uncapped submission brings in no row but the submitted one. */
  lemma SubmitUncappedMembers<T, K>(s: seq<T>, row: T, addr: T -> K, score: T -> int, z: T)
    requires z in SubmitUncapped(s, row, addr, score)
    ensures z == row || z in s
  {
    if Improves(s, row, addr, score) {
      ResortedMembers(s, row, addr, score);
      var r := Resorted(s, row, addr, score);
      var k :| 0 <= k < |r| && r[k] == z;
    }
  }

  /** An uncapped board behaves as one whose cap it cannot outgrow in one step. */
  lemma SubmitUncappedIsSubmit<T, K>(s: seq<T>, row: T, addr: T -> K, score: T -> int)
    ensures SubmitUncapped(s, row, addr, score) == Submit(s, row, addr, score, |s| + 1)
  {
  }

  /**
   * A board with one row per address, sorted by score and within its cap
   * stays so, and no address's best score ever goes down while its row is
   * kept: a row is only ever replaced by a strictly higher one.
   */
  lemma SubmitKeepsBest<T, K>(s: seq<T>, row: T, addr: T -> K, score: T -> int, cap: nat, x: T, y: T)
    requires DistinctBy(s, addr) && SortedBy(s, ScoreKey(score)) && |s| <= cap
    ensures DistinctBy(Submit(s, row, addr, score, cap), addr)
    ensures SortedBy(Submit(s, row, addr, score, cap), ScoreKey(score))
    ensures |Submit(s, row, addr, score, cap)| <= cap
    ensures x in s && y in Submit(s, row, addr, score, cap) && addr(x) == addr(y) ==> score(y) >= score(x)
    ensures Improves(s, row, addr, score) ==>
      forall z :: z in Submit(s, row, addr, score, cap) ==> z == row || (z in s && addr(z) != addr(row))
  {
    var r := Submit(s, row, addr, score, cap);
    if Improves(s, row, addr, score) {
      ResortedShape(s, row, addr, score);
      ResortedMembers(s, row, addr, score);
      TakeShape(Resorted(s, row, addr, score), cap, addr, ScoreKey(score));
      if x in s && y in r && addr(x) == addr(y) {
        var i :| 0 <= i < |s| && s[i] == x;
        if y == row {
          FindByUnique(s, addr(row), addr, i);
        } else {
          var j :| 0 <= j < |s| && s[j] == y;
          assert i == j;
        }
      }
    } else if x in s && y in r && addr(x) == addr(y) {
      var i :| 0 <= i < |s| && s[i] == x;
      var j :| 0 <= j < |s| && s[j] == y;
      assert i == j;
    }
  }

  /** Appending a row and re-sorting the whole board, then cutting it (battle boards). */
  function AppendTop<T>(s: seq<T>, row: T, score: T -> int, cap: nat): (r: seq<T>)
    ensures |r| <= cap
    ensures forall x :: x in r ==> x == row || x in s
  {
    var w := s + [row];
    var sorted := SortDesc(w, ScoreKey(score));
    assert forall x :: x in sorted ==> x in multiset(w);
    var r := Take(sorted, cap);
    assert forall x :: x in r ==> x in sorted;
    r
  }

  /** The battle board stays sorted and holds the smaller of its new length and `cap` rows. */
  lemma AppendTopSorted<T>(s: seq<T>, row: T, score: T -> int, cap: nat)
    ensures SortedBy(AppendTop(s, row, score, cap), ScoreKey(score))
    ensures |AppendTop(s, row, score, cap)| == if |s| + 1 < cap then |s| + 1 else cap
  {
    var w := s + [row];
    ScoreKeysUniform(w, score);
    SortDescSorted(w, ScoreKey(score), 1);
    var sorted := SortDesc(w, ScoreKey(score));
    assert forall i :: 0 <= i < |Take(sorted, cap)| ==> Take(sorted, cap)[i] == sorted[i];
  }
}
