/**
 * Leaderboard ordering. The boards are sorted with `Array.prototype.sort`
 * (stable) and a comparator of the form `(b.k1 - a.k1) || (b.k2 - a.k2) || ...`,
 * that is, by a key compared lexicographically in descending order; ties
 * keep their input order. The tetris-arena board guards each step with
 * `!==` instead and falls back to the timestamp; that comparator is modelled
 * as written in `TetrisArenaLogic.Compare`, and `TetrisArenaLogic.ComparatorAgrees`
 * relates it to the key order here.
 */
module Ranking {

  /** `a` strictly precedes `b`: at the first differing position `a` is larger. */
  predicate Precedes(a: seq<int>, b: seq<int>)
    decreases |a|
  {
    a != [] && b != [] && (a[0] > b[0] || (a[0] == b[0] && Precedes(a[1..], b[1..])))
  }

  lemma {:induction false} PrecedesIrreflexive(a: seq<int>)
    ensures !Precedes(a, a)
    decreases |a|
  {
    if a != [] {
      PrecedesIrreflexive(a[1..]);
    }
  }

  lemma {:induction false} PrecedesTransitive(a: seq<int>, b: seq<int>, c: seq<int>)
    requires Precedes(a, b) && Precedes(b, c)
    ensures Precedes(a, c)
    decreases |a|
  {
    if a[0] == b[0] && b[0] == c[0] {
      PrecedesTransitive(a[1..], b[1..], c[1..]);
    }
  }

  /** A one-field key precedes another exactly when its field is larger. */
  lemma PrecedesSingle(a: int, b: int)
    ensures Precedes([a], [b]) <==> a > b
  {
    assert [a][1..] == [] && [b][1..] == [];
  }

  /** A key made of two parts compares by its first part, and by the second on a tie. */
  lemma {:induction false} PrecedesConcat(a: seq<int>, b: seq<int>, c: seq<int>, d: seq<int>)
    requires |a| == |c|
    ensures Precedes(a + b, c + d) <==> Precedes(a, c) || (a == c && Precedes(b, d))
    decreases |a|
  {
    if a != [] {
      assert (a + b)[1..] == a[1..] + b && (c + d)[1..] == c[1..] + d;
      PrecedesConcat(a[1..], b, c[1..], d);
      if a[0] == c[0] && a[1..] == c[1..] {
        assert a == [a[0]] + a[1..] && c == [c[0]] + c[1..];
      }
    } else {
      assert a + b == b && c + d == d;
    }
  }

  /** Keys of the same length are comparable: one precedes, or they are equal. */
  lemma {:induction false} PrecedesTotal(a: seq<int>, b: seq<int>)
    requires |a| == |b|
    ensures Precedes(a, b) || Precedes(b, a) || a == b
    decreases |a|
  {
    if a != [] && a[0] == b[0] {
      PrecedesTotal(a[1..], b[1..]);
      if a[1..] == b[1..] {
        assert a == [a[0]] + a[1..] && b == [b[0]] + b[1..];
      }
    }
  }

  /** No later element strictly precedes an earlier one. */
  predicate SortedBy<T>(s: seq<T>, key: T -> seq<int>)
  {
    forall i, j :: 0 <= i < j < |s| ==> !Precedes(key(s[j]), key(s[i]))
  }

  /** Order depends only on the keys. */
  lemma SortedBySameKeys<T>(s: seq<T>, t: seq<T>, key: T -> seq<int>)
    requires SortedBy(s, key) && |t| == |s|
    requires forall i :: 0 <= i < |s| ==> key(t[i]) == key(s[i])
    ensures SortedBy(t, key)
  {
    forall i, j | 0 <= i < j < |t|
      ensures !Precedes(key(t[j]), key(t[i]))
    {
      assert key(t[j]) == key(s[j]) && key(t[i]) == key(s[i]);
    }
  }

  /** Keys are all of one length (the comparator always looks at the same fields). */
  predicate UniformKeys<T>(s: seq<T>, key: T -> seq<int>, width: nat)
  {
    forall i :: 0 <= i < |s| ==> |key(s[i])| == width
  }

  /** Places `e` before the first element it strictly precedes: after every tie. */
  function Insert<T>(s: seq<T>, e: T, key: T -> seq<int>): (r: seq<T>)
    ensures multiset(r) == multiset(s) + multiset{e}
    ensures |r| == |s| + 1
    decreases |s|
  {
    if s == [] then [e]
    else if Precedes(key(e), key(s[0])) then [e] + s
    else
      assert s == [s[0]] + s[1..];
      [s[0]] + Insert(s[1..], e, key)
  }

  /** The stable sort: insertion of each element, in input order, into the sorted prefix. */
  function SortDesc<T>(s: seq<T>, key: T -> seq<int>): (r: seq<T>)
    ensures multiset(r) == multiset(s)
    ensures |r| == |s|
    decreases |s|
  {
    if s == [] then []
    else
      assert s == s[..|s| - 1] + [s[|s| - 1]];
      Insert(SortDesc(s[..|s| - 1], key), s[|s| - 1], key)
  }

  lemma {:induction false} InsertSorted<T>(s: seq<T>, e: T, key: T -> seq<int>, width: nat)
    requires SortedBy(s, key) && UniformKeys(s, key, width) && |key(e)| == width
    ensures SortedBy(Insert(s, e, key), key)
    ensures UniformKeys(Insert(s, e, key), key, width)
    decreases |s|
  {
    var r := Insert(s, e, key);
    if s == [] {
    } else if Precedes(key(e), key(s[0])) {
      forall i, j | 0 <= i < j < |r|
        ensures !Precedes(key(r[j]), key(r[i]))
      {
        if i == 0 {
          // r[j] is some s[j-1]; if it preceded e, it would precede s[0] too.
          assert r[j] == s[j - 1];
          if Precedes(key(r[j]), key(e)) {
            PrecedesTransitive(key(r[j]), key(e), key(s[0]));
            if j == 1 {
              PrecedesIrreflexive(key(s[0]));
            }
          }
        }
      }
      assert multiset(r) == multiset(s) + multiset{e};
      forall i | 0 <= i < |r|
        ensures |key(r[i])| == width
      {
        if i > 0 {
          assert r[i] == s[i - 1];
        }
      }
    } else {
      var tail := s[1..];
      assert SortedBy(tail, key);
      InsertSorted(tail, e, key, width);
      var rt := Insert(tail, e, key);
      assert r == [s[0]] + rt;
      forall j | 0 < j < |r|
        ensures !Precedes(key(r[j]), key(r[0]))
      {
        var x := r[j];
        assert x in multiset(rt);
        assert x in multiset(tail) + multiset{e};
        if x == e {
        } else {
          assert x in tail;
          var k :| 0 <= k < |tail| && tail[k] == x;
          assert s[k + 1] == x;
        }
      }
    }
  }

  lemma {:induction false} SortDescSorted<T>(s: seq<T>, key: T -> seq<int>, width: nat)
    requires UniformKeys(s, key, width)
    ensures SortedBy(SortDesc(s, key), key)
    ensures UniformKeys(SortDesc(s, key), key, width)
    decreases |s|
  {
    if s != [] {
      var init := s[..|s| - 1];
      assert UniformKeys(init, key, width) by {
        forall i | 0 <= i < |init|
          ensures |key(init[i])| == width
        {
          assert init[i] == s[i];
        }
      }
      SortDescSorted(init, key, width);
      InsertSorted(SortDesc(init, key), s[|s| - 1], key, width);
    }
  }

  /** Inserting into a sorted sequence an element that nothing precedes puts it last. */
  lemma {:induction false} InsertSortedIdentity<T>(s: seq<T>, e: T, key: T -> seq<int>)
    requires forall i :: 0 <= i < |s| ==> !Precedes(key(e), key(s[i]))
    ensures Insert(s, e, key) == s + [e]
    decreases |s|
  {
    if s != [] {
      InsertSortedIdentity(s[1..], e, key);
      assert s == [s[0]] + s[1..];
    }
  }

  /** Sorting an already sorted sequence changes nothing. */
  lemma {:induction false} SortDescOfSorted<T>(s: seq<T>, key: T -> seq<int>)
    requires SortedBy(s, key)
    ensures SortDesc(s, key) == s
    decreases |s|
  {
    if s != [] {
      var init := s[..|s| - 1];
      assert SortedBy(init, key);
      SortDescOfSorted(init, key);
      InsertSortedIdentity(init, s[|s| - 1], key);
      assert init + [s[|s| - 1]] == s;
    }
  }

  /** The best `n` of a sequence: sorted, then cut. */
  function Top<T>(s: seq<T>, key: T -> seq<int>, n: nat): (r: seq<T>)
    ensures |r| <= n && |r| <= |s|
    ensures forall x :: x in r ==> x in s
  {
    var sorted := SortDesc(s, key);
    assert forall x :: x in sorted ==> x in multiset(s);
    if |sorted| <= n then sorted
    else
      assert forall x :: x in sorted[..n] ==> x in sorted;
      sorted[..n]
  }

  /**
   * Top-n: the kept entries are sorted, and no dropped entry strictly
   * precedes a kept one.
   */
  lemma TopIsBest<T>(s: seq<T>, key: T -> seq<int>, n: nat, width: nat)
    requires UniformKeys(s, key, width)
    ensures SortedBy(Top(s, key, n), key)
    ensures |Top(s, key, n)| == if |s| < n then |s| else n
    ensures forall i, j :: 0 <= i < |Top(s, key, n)| <= j < |SortDesc(s, key)| ==>
      !Precedes(key(SortDesc(s, key)[j]), key(Top(s, key, n)[i]))
  {
    SortDescSorted(s, key, width);
  }
}
