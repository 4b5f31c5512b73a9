/** Sums over sequences, of integers and of reals; they do not depend on order. */
module Sums {

  function Sum<T>(s: seq<T>, f: T -> int): (n: int) {
    if s == [] then 0 else f(s[0]) + Sum(s[1..], f)
  }

  lemma {:induction false} SumSplit<T>(a: seq<T>, b: seq<T>, f: T -> int)
    ensures Sum(a + b, f) == Sum(a, f) + Sum(b, f)
  {
    if a == [] {
      assert a + b == b;
    } else {
      assert (a + b)[1..] == a[1..] + b;
      SumSplit(a[1..], b, f);
    }
  }

  /** Taking one element out, from the sequence and from its multiset. */
  lemma Remove<T>(t: seq<T>, k: nat)
    requires k < |t|
    ensures t == t[..k] + ([t[k]] + t[k + 1..])
    ensures multiset(t[..k] + t[k + 1..]) == multiset(t) - multiset{t[k]}
  {
    assert t == t[..k] + ([t[k]] + t[k + 1..]);
  }

  lemma SumCons<T>(x: T, s: seq<T>, f: T -> int)
    ensures Sum([x] + s, f) == f(x) + Sum(s, f)
  {
    assert ([x] + s)[1..] == s;
  }

  lemma SumRemove<T>(t: seq<T>, k: nat, f: T -> int)
    requires k < |t|
    ensures Sum(t, f) == f(t[k]) + Sum(t[..k] + t[k + 1..], f)
  {
    hide Sum;
    Remove(t, k);
    SumSplit(t[..k], t[k + 1..], f);
    SumSplit(t[..k], [t[k]] + t[k + 1..], f);
    SumCons(t[k], t[k + 1..], f);
  }

  lemma {:induction false} SumPermutation<T>(s: seq<T>, t: seq<T>, f: T -> int)
    requires multiset(s) == multiset(t)
    ensures Sum(s, f) == Sum(t, f)
    decreases |s|
  {
    hide Sum;
    if s == [] {
      assert |t| == |multiset(t)|;
    } else {
      var k := Find(s[0], t);
      SumRemove(s, 0, f);
      SumRemove(t, k, f);
      Remove(s, 0);
      Remove(t, k);
      SumPermutation(s[..0] + s[1..], t[..k] + t[k + 1..], f);
    }
  }

  lemma Find<T>(x: T, t: seq<T>) returns (k: nat)
    requires x in multiset(t)
    ensures k < |t| && t[k] == x
  {
    k :| 0 <= k < |t| && t[k] == x;
  }

  /** Only the values on the elements matter. */
  lemma {:induction false} SumSame<T>(s: seq<T>, f: T -> int, g: T -> int)
    requires forall i :: 0 <= i < |s| ==> f(s[i]) == g(s[i])
    ensures Sum(s, f) == Sum(s, g)
  {
    if s != [] {
      SumSame(s[1..], f, g);
    }
  }

  // ----- reals

  function RealSum<T>(s: seq<T>, f: T -> real): (r: real) {
    if s == [] then 0.0 else RealSum(s[..|s| - 1], f) + f(s[|s| - 1])
  }

  /** A sum is 0 over nothing and grows by the value of each element appended. */
  lemma RealSumNext<T>(s: seq<T>, x: T, f: T -> real)
    ensures RealSum([], f) == 0.0
    ensures RealSum(s + [x], f) == RealSum(s, f) + f(x)
  {
    assert (s + [x])[..|s|] == s;
  }

  lemma {:induction false} RealSumSplit<T>(a: seq<T>, b: seq<T>, f: T -> real)
    ensures RealSum(a + b, f) == RealSum(a, f) + RealSum(b, f)
  {
    if b == [] {
      assert a + b == a;
    } else {
      var n := |b| - 1;
      assert (a + b)[..|a| + n] == a + b[..n];
      RealSumSplit(a, b[..n], f);
    }
  }

  lemma RealSumRemove<T>(t: seq<T>, k: nat, f: T -> real)
    requires k < |t|
    ensures RealSum(t, f) == f(t[k]) + RealSum(t[..k] + t[k + 1..], f)
  {
    hide RealSum;
    Remove(t, k);
    RealSumSplit(t[..k], t[k + 1..], f);
    RealSumSplit(t[..k], [t[k]] + t[k + 1..], f);
    RealSumSplit([t[k]], t[k + 1..], f);
    RealSumNext([], t[k], f);
    assert [] + [t[k]] == [t[k]];
  }

  lemma {:induction false} RealSumPermutation<T>(s: seq<T>, t: seq<T>, f: T -> real)
    requires multiset(s) == multiset(t)
    ensures RealSum(s, f) == RealSum(t, f)
    decreases |s|
  {
    hide RealSum;
    if s == [] {
      assert |t| == |multiset(t)|;
    } else {
      var k := Find(s[0], t);
      RealSumRemove(s, 0, f);
      RealSumRemove(t, k, f);
      Remove(s, 0);
      Remove(t, k);
      RealSumPermutation(s[..0] + s[1..], t[..k] + t[k + 1..], f);
    }
  }

  lemma {:induction false} RealSumNonNegative<T>(s: seq<T>, f: T -> real)
    requires forall x :: x in s ==> f(x) >= 0.0
    ensures RealSum(s, f) >= 0.0
  {
    if s != [] {
      RealSumNonNegative(s[..|s| - 1], f);
    }
  }
}
