/** The longest common prefix of two sequences, which prefix reuse and draft acceptance both come down to. */
module CommonPrefix {

  function Lcp<T(==)>(a: seq<T>, b: seq<T>): (n: nat)
    ensures n <= |a| && n <= |b|
    ensures a[..n] == b[..n]
    ensures n < |a| && n < |b| ==> a[n] != b[n]
  {
    if a == [] || b == [] || a[0] != b[0] then 0
    else
      var n := Lcp(a[1..], b[1..]);
      assert a[..n + 1] == [a[0]] + a[1..][..n];
      assert b[..n + 1] == [b[0]] + b[1..][..n];
      1 + n
  }

  /** Lcp is the length of the longest common prefix, and the only number with its properties. */
  lemma LcpUnique<T>(a: seq<T>, b: seq<T>, n: nat)
    requires n <= |a| && n <= |b| && a[..n] == b[..n]
    ensures n <= Lcp(a, b)
    ensures n == |a| || n == |b| || a[n] != b[n] ==> n == Lcp(a, b)
  {
    var m := Lcp(a, b);
    forall k | 0 <= k < n ensures a[k] == b[k] {
      assert a[..n][k] == b[..n][k];
    }
    forall k | 0 <= k < m ensures a[k] == b[k] {
      assert a[..m][k] == b[..m][k];
    }
  }

  lemma LcpSymmetric<T>(a: seq<T>, b: seq<T>)
    ensures Lcp(a, b) == Lcp(b, a)
  {
    LcpUnique(b, a, Lcp(a, b));
  }

  /** The loop that measures it, element by element. */
  method CommonPrefixLen<T(==)>(left: seq<T>, right: seq<T>) returns (count: nat)
    ensures count == Lcp(left, right)
  {
    count := 0;
    while count < |left| && count < |right| && left[count] == right[count]
      invariant count <= |left| && count <= |right|
      invariant left[..count] == right[..count]
    {
      assert left[..count + 1] == left[..count] + [left[count]];
      assert right[..count + 1] == right[..count] + [right[count]];
      count := count + 1;
    }
    LcpUnique(left, right, count);
  }
}
