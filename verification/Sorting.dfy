/**
 Python's `sorted` as the code under study uses it: a stable sort by a total preorder. The
 members below say all that the other modules use: the result is a permutation, it is in order,
 elements that compare equal keep their input order, and an antisymmetric order leaves only one
 possible result.
 */
module Sorting {

  ghost predicate TotalPreorder<T(!new)>(le: (T, T) -> bool) {
    && (forall x, y :: le(x, y) || le(y, x))
    && (forall x, y, z :: le(x, y) && le(y, z) ==> le(x, z))
  }

  ghost predicate Sorted<T>(s: seq<T>, le: (T, T) -> bool) {
    forall i, j :: 0 <= i < j < |s| ==> le(s[i], s[j])
  }

  predicate NoDup<T(==)>(s: seq<T>) {
    forall i, j :: 0 <= i < j < |s| ==> s[i] != s[j]
  }

  /** Inserts x before the first element it is at most, which is what keeps the sort stable. */
  function Insert<T>(x: T, s: seq<T>, le: (T, T) -> bool): (r: seq<T>)
    ensures multiset(r) == multiset{x} + multiset(s)
  {
    if s == [] then [x]
    else if le(x, s[0]) then [x] + s
    else
      assert s == [s[0]] + s[1..];
      [s[0]] + Insert(x, s[1..], le)
  }

  function SortBy<T>(s: seq<T>, le: (T, T) -> bool): (r: seq<T>)
    ensures multiset(r) == multiset(s)
    ensures |r| == |s|
  {
    if s == [] then []
    else
      assert s == [s[0]] + s[1..];
      var r := Insert(s[0], SortBy(s[1..], le), le);
      assert |r| == |multiset(r)| && |s| == |multiset(s)|;
      r
  }

  lemma SameElements<T>(s: seq<T>, t: seq<T>)
    requires multiset(s) == multiset(t)
    ensures |s| == |t|
    ensures forall x :: x in s <==> x in t
  {
    assert |s| == |multiset(s)| && |t| == |multiset(t)|;
    forall x ensures x in s <==> x in t {
      assert x in s <==> x in multiset(s);
      assert x in t <==> x in multiset(t);
    }
  }

  lemma SortedCons<T>(x: T, s: seq<T>, le: (T, T) -> bool)
    requires Sorted(s, le) && forall k :: 0 <= k < |s| ==> le(x, s[k])
    ensures Sorted([x] + s, le)
  {
  }

  lemma SortedRest<T>(s: seq<T>, le: (T, T) -> bool)
    requires Sorted(s, le) && s != []
    ensures Sorted(s[1..], le) && forall k :: 0 < k < |s| ==> le(s[0], s[k])
  {
  }

  lemma Transitive<T(!new)>(x: T, y: T, z: T, le: (T, T) -> bool)
    requires TotalPreorder(le) && le(x, y) && le(y, z)
    ensures le(x, z)
  {
  }

  lemma Total<T(!new)>(x: T, y: T, le: (T, T) -> bool)
    requires TotalPreorder(le)
    ensures le(x, y) || le(y, x)
  {
  }

  lemma {:induction false} InsertSorted<T(!new)>(x: T, s: seq<T>, le: (T, T) -> bool)
    requires TotalPreorder(le) && Sorted(s, le)
    ensures Sorted(Insert(x, s, le), le)
  {
    hide TotalPreorder, Sorted;
    if s == [] {
      SortedCons(x, [], le) by { NoneSorted(le); }
      assert [x] + [] == [x];
    } else {
      SortedRest(s, le);
      Total(x, s[0], le);
      if le(x, s[0]) {
        forall k | 0 <= k < |s| ensures le(x, s[k]) {
          if k > 0 {
            Transitive(x, s[0], s[k], le);
          }
        }
        SortedCons(x, s, le);
      } else {
        var t := Insert(x, s[1..], le);
        InsertSorted(x, s[1..], le);
        SameElements(t, [x] + s[1..]);
        forall k | 0 <= k < |t| ensures le(s[0], t[k]) {
          assert t[k] in [x] + s[1..];
        }
        SortedCons(s[0], t, le);
      }
    }
  }

  lemma NoneSorted<T>(le: (T, T) -> bool)
    ensures Sorted([], le)
  {
  }

  /** The result is in order. */
  lemma {:induction false} SortBySorted<T(!new)>(s: seq<T>, le: (T, T) -> bool)
    requires TotalPreorder(le)
    ensures Sorted(SortBy(s, le), le)
  {
    if s != [] {
      SortBySorted(s[1..], le);
      InsertSorted(s[0], SortBy(s[1..], le), le);
    }
  }

  /** The elements of s that compare equal to x, in the order of s. */
  ghost function Class<T>(s: seq<T>, x: T, le: (T, T) -> bool): (r: seq<T>) {
    if s == [] then []
    else (if le(x, s[0]) && le(s[0], x) then [s[0]] else []) + Class(s[1..], x, le)
  }

  lemma ClassCons<T>(y: T, s: seq<T>, x: T, le: (T, T) -> bool)
    ensures Class([y] + s, x, le) == (if le(x, y) && le(y, x) then [y] else []) + Class(s, x, le)
  {
    assert ([y] + s)[1..] == s;
  }

  lemma {:induction false} InsertStable<T(!new)>(y: T, s: seq<T>, x: T, le: (T, T) -> bool)
    requires TotalPreorder(le)
    ensures Class(Insert(y, s, le), x, le) == Class([y] + s, x, le)
  {
    hide TotalPreorder, Class;
    if s == [] {
      assert [y] + s == [y];
    } else if !le(y, s[0]) {
      var head, rest := s[0], s[1..];
      InsertStable(y, rest, x, le);
      assert s == [head] + rest;
      ClassCons(head, Insert(y, rest, le), x, le);
      ClassCons(y, rest, x, le);
      ClassCons(y, s, x, le);
      ClassCons(head, rest, x, le);
      if le(y, x) && le(x, head) {
        Transitive(y, x, head, le);
      }
      SwapEmpty(if le(x, y) && le(y, x) then [y] else [], if le(x, head) && le(head, x) then [head] else [],
                Class(rest, x, le));
    }
  }

  lemma SwapEmpty<T>(a: seq<T>, b: seq<T>, c: seq<T>)
    requires a == [] || b == []
    ensures a + (b + c) == b + (a + c)
  {
    assert [] + c == c && [] + (b + c) == b + c && [] + (a + c) == a + c;
  }

  /** Stability: elements that compare equal keep their input order. */
  lemma {:induction false} SortByStable<T(!new)>(s: seq<T>, x: T, le: (T, T) -> bool)
    requires TotalPreorder(le)
    ensures Class(SortBy(s, le), x, le) == Class(s, x, le)
  {
    if s != [] {
      SortByStable(s[1..], x, le);
      InsertStable(s[0], SortBy(s[1..], le), x, le);
      ClassCons(s[0], SortBy(s[1..], le), x, le);
    }
  }

  /** x stands before y. */
  ghost predicate Before<T>(s: seq<T>, x: T, y: T) {
    exists i, j :: 0 <= i < j < |s| && s[i] == x && s[j] == y
  }

  lemma {:induction false} InsertKeepsOrder<T>(z: T, s: seq<T>, x: T, y: T, le: (T, T) -> bool)
    requires Before(s, x, y)
    ensures Before(Insert(z, s, le), x, y)
  {
    var i, j :| 0 <= i < j < |s| && s[i] == x && s[j] == y;
    var r := Insert(z, s, le);
    if le(z, s[0]) {
      assert r[i + 1] == x && r[j + 1] == y;
    } else {
      var t := Insert(z, s[1..], le);
      assert r == [s[0]] + t;
      if i == 0 {
        InsertKeeps(z, s[1..], y, le);
        var k :| 0 <= k < |t| && t[k] == y;
        assert r[0] == x && r[k + 1] == y;
      } else {
        assert s[1..][i - 1] == x && s[1..][j - 1] == y;
        InsertKeepsOrder(z, s[1..], x, y, le);
        var k, l :| 0 <= k < l < |t| && t[k] == x && t[l] == y;
        assert r[k + 1] == x && r[l + 1] == y;
      }
    }
  }

  lemma InsertKeeps<T>(z: T, s: seq<T>, x: T, le: (T, T) -> bool)
    requires x in s
    ensures x in Insert(z, s, le)
  {
    assert x in multiset(Insert(z, s, le));
  }

  /** What is inserted goes before everything it is at most. */
  lemma {:induction false} InsertedBefore<T>(x: T, s: seq<T>, y: T, le: (T, T) -> bool)
    requires y in s && le(x, y)
    ensures Before(Insert(x, s, le), x, y)
  {
    var k :| 0 <= k < |s| && s[k] == y;
    var r := Insert(x, s, le);
    if le(x, s[0]) {
      assert r[0] == x && r[k + 1] == y;
    } else {
      assert k > 0 && s[1..][k - 1] == y;
      InsertedBefore(x, s[1..], y, le);
      var t := Insert(x, s[1..], le);
      var i, j :| 0 <= i < j < |t| && t[i] == x && t[j] == y;
      assert r[i + 1] == x && r[j + 1] == y;
    }
  }

  /** Two elements already in order stay in order, even if they compare equal. */
  lemma {:induction false} SortKeepsOrder<T>(s: seq<T>, i: nat, j: nat, le: (T, T) -> bool)
    requires i < j < |s| && le(s[i], s[j])
    ensures Before(SortBy(s, le), s[i], s[j])
  {
    var t := SortBy(s[1..], le);
    if i == 0 {
      assert s[1..][j - 1] == s[j];
      SameElements(t, s[1..]);
      InsertedBefore(s[0], t, s[j], le);
    } else {
      SortKeepsOrder(s[1..], i - 1, j - 1, le);
      InsertKeepsOrder(s[0], t, s[i], s[j], le);
    }
  }

  /** Two sorted permutations of each other are equal when no two of their elements compare equal. */
  lemma {:induction false} SortedUnique<T(!new)>(s: seq<T>, t: seq<T>, le: (T, T) -> bool)
    requires forall x, y :: x in s && y in s && le(x, y) && le(y, x) ==> x == y
    requires Sorted(s, le) && Sorted(t, le) && multiset(s) == multiset(t)
    ensures s == t
  {
    SameElements(s, t);
    if s != [] {
      FirstIsLeast(s, t, le);
      WithoutFirst(s);
      WithoutFirst(t);
      SortedRest(s, le);
      SortedRest(t, le);
      hide Sorted;
      SortedUnique(s[1..], t[1..], le);
    }
  }

  lemma WithoutFirst<T>(s: seq<T>)
    requires s != []
    ensures s == [s[0]] + s[1..] && multiset(s[1..]) == multiset(s) - multiset{s[0]}
  {
    assert s == [s[0]] + s[1..];
  }

  lemma FirstIsLeast<T(!new)>(s: seq<T>, t: seq<T>, le: (T, T) -> bool)
    requires forall x, y :: x in s && y in s && le(x, y) && le(y, x) ==> x == y
    requires Sorted(s, le) && Sorted(t, le) && s != [] && t != []
    requires s[0] in t && t[0] in s
    ensures s[0] == t[0]
  {
    var i :| 0 <= i < |t| && t[i] == s[0];
    var j :| 0 <= j < |s| && s[j] == t[0];
  }

  lemma {:induction false} NoDupCount<T>(s: seq<T>, x: T)
    requires NoDup(s)
    ensures multiset(s)[x] <= 1
  {
    if s != [] {
      NoDupCount(s[1..], x);
      assert s == [s[0]] + s[1..];
      if x == s[0] {
        assert x !in s[1..];
        assert x !in multiset(s[1..]);
      }
    }
  }

  /** A permutation of a duplicate-free sequence is duplicate-free. */
  lemma NoDupPermutation<T>(s: seq<T>, t: seq<T>)
    requires NoDup(s) && multiset(s) == multiset(t)
    ensures NoDup(t)
  {
    forall i, j | 0 <= i < j < |t| ensures t[i] != t[j] {
      NoDupCount(s, t[j]);
      assert t == t[..j] + t[j..];
      assert t[j] == t[j..][0];
      assert t[j] in multiset(t[j..]);
      assert t[..j][i] == t[i];
      assert t[i] in multiset(t[..j]);
    }
  }
}
