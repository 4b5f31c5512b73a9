/** Python's order on strings: lexicographic by code point. */
module StringOrder {
  import opened Sorting

  predicate Le(a: string, b: string) {
    a == [] || (b != [] && (a[0] < b[0] || (a[0] == b[0] && Le(a[1..], b[1..]))))
  }

  lemma {:induction false} LeTotal(a: string, b: string)
    ensures Le(a, b) || Le(b, a)
  {
    if a != [] && b != [] && a[0] == b[0] {
      LeTotal(a[1..], b[1..]);
    }
  }

  lemma {:induction false} LeTransitive(a: string, b: string, c: string)
    requires Le(a, b) && Le(b, c)
    ensures Le(a, c)
  {
    if a != [] && a[0] == b[0] == c[0] {
      LeTransitive(a[1..], b[1..], c[1..]);
    }
  }

  lemma {:induction false} LeAntisymmetric(a: string, b: string)
    requires Le(a, b) && Le(b, a)
    ensures a == b
  {
    if a != [] {
      LeAntisymmetric(a[1..], b[1..]);
      assert a == [a[0]] + a[1..] && b == [b[0]] + b[1..];
    }
  }

  /** a comes before b exactly when it is a prefix of b, or is smaller at the first place they differ. */
  lemma {:induction false} LeMeans(a: string, b: string)
    ensures Le(a, b) <==>
      a <= b || exists k :: 0 <= k < |a| && k < |b| && a[..k] == b[..k] && a[k] < b[k]
  {
    if a != [] && b != [] && a[0] == b[0] {
      LeMeans(a[1..], b[1..]);
      var c, d := a[1..], b[1..];
      assert a == [a[0]] + c && b == [b[0]] + d;
      if k :| 0 <= k < |c| && k < |d| && c[..k] == d[..k] && c[k] < d[k] {
        assert a[..k + 1] == [a[0]] + c[..k] && b[..k + 1] == [b[0]] + d[..k] && a[k + 1] < b[k + 1];
      }
      if k :| 0 <= k < |a| && k < |b| && a[..k] == b[..k] && a[k] < b[k] {
        assert k > 0 && a[..k][1..] == c[..k - 1] && b[..k][1..] == d[..k - 1];
        assert c[k - 1] < d[k - 1];
      }
    } else if a != [] && b != [] {
      forall k | 0 < k < |a| && k < |b| ensures a[..k] != b[..k] {
        assert a[..k][0] == a[0] && b[..k][0] == b[0];
      }
      assert a[..0] == b[..0];
    }
  }

  /** Le is a total order. */
  lemma LeOrder()
    ensures TotalPreorder(Le)
    ensures forall a, b :: Le(a, b) && Le(b, a) ==> a == b
  {
    forall a, b ensures Le(a, b) || Le(b, a) { LeTotal(a, b); }
    forall a, b, c | Le(a, b) && Le(b, c) ensures Le(a, c) { LeTransitive(a, b, c); }
    forall a, b | Le(a, b) && Le(b, a) ensures a == b { LeAntisymmetric(a, b); }
  }

  /** `sorted` on a set of strings: every element once, in increasing order. */
  method SortedKeys(keys: set<string>) returns (r: seq<string>)
    ensures NoDup(r) && Sorted(r, Le)
    ensures forall x :: x in r <==> x in keys
  {
    hide Le;
    LeOrder();
    r := [];
    var todo := keys;
    while todo != {}
      invariant todo <= keys && NoDup(r) && Sorted(r, Le)
      invariant forall x :: x in r <==> x in keys - todo
      decreases |todo|
    {
      var x :| x in todo;
      var next := Insert(x, r, Le);
      InsertSorted(x, r, Le);
      assert x !in r;
      assert NoDup([x] + r);
      assert multiset(next) == multiset([x] + r);
      NoDupPermutation([x] + r, next);
      SameElements([x] + r, next);
      forall y ensures y in next <==> y in keys - (todo - {x}) {
        assert y in next <==> y in [x] + r;
      }
      r, todo := next, todo - {x};
    }
  }
}
