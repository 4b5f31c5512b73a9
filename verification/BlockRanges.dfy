/**
 Block ranges written START:END, and the two routines that combine a list of them into one range.
 Both accept a list exactly when some reordering of it tiles an interval.
 */
module BlockRanges {
  import opened Decimal
  import opened Options
  import opened Sorting
  import opened Sums

  type Range = (int, int)

  function ShowRange(r: Range): (s: string) { Show(r.0) + ":" + Show(r.1) }

  // ----- parsing

  /** The text before and after the first colon. */
  function Partition(s: string): (r: Option<(string, string)>) {
    if s == [] then None
    else if s[0] == ':' then Some(([], s[1..]))
    else
      var rest := Partition(s[1..]);
      if rest.None? then None else Some(([s[0]] + rest.value.0, rest.value.1))
  }

  /** START:END with two integers in any order. */
  function ReadRange(s: string): (r: Option<Range>) {
    var parts := Partition(s);
    if parts.None? then None
    else
      var a, b := Read(parts.value.0), Read(parts.value.1);
      if a.None? || b.None? then None else Some((a.value, b.value))
  }

  /** START:END where END exceeds START. */
  function ReadBlockRange(s: string): (r: Option<Range>) {
    var r := ReadRange(s);
    if r.Some? && r.value.1 <= r.value.0 then None else r
  }

  lemma {:induction false} PartitionAt(a: string, b: string)
    requires ':' !in a
    ensures Partition(a + ":" + b) == Some((a, b))
  {
    var s := a + ":" + b;
    if a == [] {
      assert s[1..] == b;
    } else {
      assert a[0] in a;
      PartitionAt(a[1..], b);
      assert s[1..] == a[1..] + ":" + b;
      assert [a[0]] + a[1..] == a;
    }
  }

  lemma {:induction false} PartitionNone(s: string)
    requires ':' !in s
    ensures Partition(s).None?
  {
    if s != [] {
      assert s[0] in s && (forall c :: c in s[1..] ==> c in s);
      PartitionNone(s[1..]);
    }
  }

  lemma {:induction false} PartitionSplits(s: string)
    requires Partition(s).Some?
    ensures var (a, b) := Partition(s).value; ':' !in a && s == a + ":" + b
  {
    if s[0] != ':' {
      PartitionSplits(s[1..]);
    }
  }

  /** A text is the range from x to y exactly when it is a number for x, a colon and a number for y. */
  lemma ReadRangeMeans(s: string, x: int, y: int)
    ensures ReadRange(s) == Some((x, y)) <==>
      exists a, b :: ':' !in a && s == a + ":" + b && Read(a) == Some(x) && Read(b) == Some(y)
    ensures ReadBlockRange(s) == Some((x, y)) <==> ReadRange(s) == Some((x, y)) && x < y
  {
    hide Read;
    if ReadRange(s) == Some((x, y)) {
      PartitionSplits(s);
      var (a, b) := Partition(s).value;
      assert s == a + ":" + b;
    }
    if a, b :| ':' !in a && s == a + ":" + b && Read(a) == Some(x) && Read(b) == Some(y) {
      PartitionAt(a, b);
    }
  }

  /** How a range is printed. */
  lemma ShowRangeMeans(a: int, b: int)
    ensures ShowRange((a, b)) == Show(a) + ":" + Show(b)
  {
  }

  /** Reading a printed range gives it back. */
  lemma RangeRoundTrip(r: Range)
    ensures ReadRange(ShowRange(r)) == Some(r)
    ensures r.0 < r.1 ==> ReadBlockRange(ShowRange(r)) == Some(r)
  {
    var a := Show(r.0);
    assert forall i :: 0 <= i < |a| ==> a[i] != ':';
    PartitionAt(a, Show(r.1));
    ReadShow(r.0);
    ReadShow(r.1);
  }

  // ----- tilings

  /** The ranges, in this order, are non-empty and follow one another from a to b. */
  predicate Chain(p: seq<Range>, a: int, b: int) {
    if p == [] then a == b else p[0].0 == a && p[0].0 < p[0].1 && Chain(p[1..], p[0].1, b)
  }

  /** Some reordering of the ranges tiles the interval from a to b. */
  ghost predicate Tiles(ranges: seq<Range>, a: int, b: int) {
    exists p :: multiset(p) == multiset(ranges) && Chain(p, a, b)
  }

  predicate RangeLe(x: Range, y: Range) { x.0 < y.0 || (x.0 == y.0 && x.1 <= y.1) }

  lemma {:induction false} ChainStartsLater(p: seq<Range>, a: int, b: int)
    requires Chain(p, a, b)
    ensures a <= b && forall i :: 0 <= i < |p| ==> a <= p[i].0 < p[i].1 <= b
  {
    if p != [] {
      ChainStartsLater(p[1..], p[0].1, b);
      forall i | 0 <= i < |p| ensures a <= p[i].0 < p[i].1 <= b {
        if i > 0 {
          assert p[i] == p[1..][i - 1];
        }
      }
    }
  }

  lemma {:induction false} ChainSorted(p: seq<Range>, a: int, b: int)
    requires Chain(p, a, b)
    ensures Sorted(p, RangeLe)
  {
    if p != [] {
      ChainSorted(p[1..], p[0].1, b);
      ChainStartsLater(p[1..], p[0].1, b);
      forall i, j | 0 <= i < j < |p| ensures RangeLe(p[i], p[j]) {
        assert p[j] == p[1..][j - 1];
        if i > 0 {
          assert p[i] == p[1..][i - 1];
        }
      }
    }
  }

  /** A tiling is found by sorting, if there is one at all. */
  lemma TilesBySorting(ranges: seq<Range>, a: int, b: int)
    ensures Tiles(ranges, a, b) <==> Chain(SortBy(ranges, RangeLe), a, b)
  {
    var s := SortBy(ranges, RangeLe);
    if Tiles(ranges, a, b) {
      var p :| multiset(p) == multiset(ranges) && Chain(p, a, b);
      ChainSorted(p, a, b);
      SortBySorted(ranges, RangeLe);
      SortedUnique(p, s, RangeLe);
    }
  }

  function Width(r: Range): (n: int) { r.1 - r.0 }

  lemma {:induction false} ChainWidth(p: seq<Range>, a: int, b: int)
    requires Chain(p, a, b)
    ensures Sum(p, Width) == b - a
  {
    if p != [] {
      ChainWidth(p[1..], p[0].1, b);
    }
  }

  /** The interval is determined by the ranges, whatever their order, and has their total width. */
  lemma TilesUnique(r: seq<Range>, t: seq<Range>, a: int, b: int, c: int, d: int)
    requires multiset(r) == multiset(t) && r != [] && Tiles(r, a, b) && Tiles(t, c, d)
    ensures a == c && b == d && Sum(r, Width) == b - a
  {
    var p :| multiset(p) == multiset(r) && Chain(p, a, b);
    var q :| multiset(q) == multiset(t) && Chain(q, c, d);
    ChainSorted(p, a, b);
    ChainSorted(q, c, d);
    SortedUnique(p, q, RangeLe);
    SameElements(p, r);
    SumPermutation(p, r, Width);
    ChainWidth(p, a, b);
    ChainWidth(q, c, d);
  }

  // ----- combining

  ghost predicate Parses(texts: seq<string>, ranges: seq<Range>) {
    |texts| == |ranges| && forall i :: 0 <= i < |texts| ==> ReadRange(texts[i]) == Some(ranges[i])
  }

  /** The texts are ranges of which some reordering tiles the interval from a to b. */
  ghost predicate Combines(texts: seq<string>, a: int, b: int) {
    exists ranges :: Parses(texts, ranges) && ranges != [] && Tiles(ranges, a, b)
  }

  /** Follows a sorted list from its first start; None at the first gap, overlap or empty range. */
  method Follow(sorted: seq<Range>) returns (end: Option<int>)
    requires sorted != []
    ensures end.Some? ==> Chain(sorted, sorted[0].0, end.value)
    ensures end.None? ==> forall b :: !Chain(sorted, sorted[0].0, b)
  {
    var cursor := sorted[0].0;
    for n := 0 to |sorted|
      invariant forall b :: Chain(sorted, sorted[0].0, b) <==> Chain(sorted[n..], cursor, b)
    {
      assert sorted[n..][1..] == sorted[n + 1..];
      var r := sorted[n];
      if r.0 != cursor || r.1 <= r.0 { return None; }
      cursor := r.1;
    }
    assert Chain(sorted[|sorted|..], cursor, cursor);
    end := Some(cursor);
  }

  /** The join server's routine: every text must be a non-empty range. */
  method CombinedAssignmentRange(texts: seq<string>) returns (r: Option<string>)
    ensures r.Some? ==> exists a, b :: r.value == ShowRange((a, b)) && Combines(texts, a, b)
    ensures r.None? ==> forall a, b :: !Combines(texts, a, b)
  {
    var parsed: seq<Range> := [];
    for n := 0 to |texts|
      invariant Parses(texts[..n], parsed)
      invariant forall i :: 0 <= i < n ==> parsed[i].0 < parsed[i].1
    {
      var x := ReadBlockRange(texts[n]);
      if x.None? {
        NotARange(texts, n);
        return None;
      }
      parsed := parsed + [x.value];
    }
    assert texts[..|texts|] == texts;
    r := CombineParsed(texts, parsed);
  }

  /** The multi-block routine: at least two texts, and emptiness is checked along the way. */
  method CombinedRange(texts: seq<string>) returns (r: Option<string>)
    ensures r.Some? ==> |texts| >= 2 && exists a, b :: r.value == ShowRange((a, b)) && Combines(texts, a, b)
    ensures r.None? ==> |texts| < 2 || forall a, b :: !Combines(texts, a, b)
  {
    var parsed: seq<Range> := [];
    for n := 0 to |texts|
      invariant Parses(texts[..n], parsed)
    {
      var x := ReadRange(texts[n]);
      if x.None? {
        NotARange(texts, n);
        return None;
      }
      parsed := parsed + [x.value];
    }
    assert texts[..|texts|] == texts;
    if |parsed| < 2 { return None; }
    r := CombineParsed(texts, parsed);
  }

  method CombineParsed(texts: seq<string>, parsed: seq<Range>) returns (r: Option<string>)
    requires Parses(texts, parsed)
    ensures r.Some? ==> exists a, b :: r.value == ShowRange((a, b)) && Combines(texts, a, b)
    ensures r.None? ==> forall a, b :: !Combines(texts, a, b)
  {
    if parsed == [] { return None; }
    var sorted := SortBy(parsed, RangeLe);
    var end := Follow(sorted);
    forall a, b ensures Combines(texts, a, b) <==> Chain(sorted, a, b) {
      CombinesSorted(texts, parsed, a, b);
    }
    if end.None? {
      return None;
    }
    assert Combines(texts, sorted[0].0, end.value);
    return Some(ShowRange((sorted[0].0, end.value)));
  }

  lemma CombinesSorted(texts: seq<string>, parsed: seq<Range>, a: int, b: int)
    requires Parses(texts, parsed) && parsed != []
    ensures Combines(texts, a, b) <==> Chain(SortBy(parsed, RangeLe), a, b)
  {
    TilesBySorting(parsed, a, b);
    if Combines(texts, a, b) {
      var ranges :| Parses(texts, ranges) && ranges != [] && Tiles(ranges, a, b);
      assert ranges == parsed;
    }
  }

  lemma NotARange(texts: seq<string>, n: nat)
    requires n < |texts| && ReadBlockRange(texts[n]).None?
    ensures forall a, b :: !Combines(texts, a, b)
  {
    forall a, b ensures !Combines(texts, a, b) {
      if ranges :| Parses(texts, ranges) && ranges != [] && Tiles(ranges, a, b) {
        var p :| multiset(p) == multiset(ranges) && Chain(p, a, b);
        ChainStartsLater(p, a, b);
        SameElements(p, ranges);
        assert ranges[n] in p;
      }
    }
  }

  /** Printed ranges that tile an interval combine to exactly that interval. */
  lemma ShownCombines(p: seq<Range>, a: int, b: int)
    requires p != [] && Chain(p, a, b)
    ensures Combines(seq(|p|, i requires 0 <= i < |p| => ShowRange(p[i])), a, b)
  {
    var texts := seq(|p|, i requires 0 <= i < |p| => ShowRange(p[i]));
    forall i | 0 <= i < |p| ensures ReadRange(texts[i]) == Some(p[i]) {
      RangeRoundTrip(p[i]);
    }
    assert Parses(texts, p);
    assert Tiles(p, a, b);
  }

  // ----- the result does not depend on the order of the list, nor on the routine

  ghost function RangesOf(texts: seq<string>): (r: seq<Range>) {
    if texts == [] then []
    else
      var first := ReadRange(texts[0]);
      [if first.Some? then first.value else (0, 0)] + RangesOf(texts[1..])
  }

  lemma {:induction false} RangesOfSplit(a: seq<string>, b: seq<string>)
    ensures RangesOf(a + b) == RangesOf(a) + RangesOf(b)
  {
    if a == [] {
      assert a + b == b;
    } else {
      assert (a + b)[1..] == a[1..] + b;
      RangesOfSplit(a[1..], b);
    }
  }

  lemma {:induction false} RangesOfPermutation(s: seq<string>, t: seq<string>)
    requires multiset(s) == multiset(t)
    ensures multiset(RangesOf(s)) == multiset(RangesOf(t))
  {
    if s == [] {
      assert |t| == |multiset(t)|;
    } else {
      assert s == [s[0]] + s[1..];
      assert s[0] in multiset(t);
      var k :| 0 <= k < |t| && t[k] == s[0];
      var front, back := t[..k], t[k + 1..];
      assert t == front + ([t[k]] + back);
      assert multiset(front + back) == multiset(t) - multiset{t[k]};
      assert multiset(s[1..]) == multiset(s) - multiset{s[0]};
      RangesOfPermutation(s[1..], front + back);
      hide RangesOf;
      RangesOfMoved(s[0], s[1..], front, back);
    }
  }

  lemma RangesOfMoved(x: string, rest: seq<string>, front: seq<string>, back: seq<string>)
    requires multiset(RangesOf(rest)) == multiset(RangesOf(front + back))
    ensures multiset(RangesOf([x] + rest)) == multiset(RangesOf(front + ([x] + back)))
  {
    hide RangesOf;
    RangesOfSplit([x], rest);
    RangesOfSplit([x], back);
    RangesOfSplit(front, back);
    RangesOfSplit(front, [x] + back);
  }

  lemma {:induction false} ParsesMeans(texts: seq<string>, ranges: seq<Range>)
    ensures Parses(texts, ranges) <==>
      ranges == RangesOf(texts) && forall i :: 0 <= i < |texts| ==> ReadRange(texts[i]).Some?
  {
    hide ReadRange;
    if texts != [] {
      if ranges != [] {
        ParsesMeans(texts[1..], ranges[1..]);
        assert ranges == [ranges[0]] + ranges[1..];
      }
      ParsesMeans(texts[1..], RangesOf(texts[1..]));
    }
  }

  lemma CombinesMeans(texts: seq<string>, a: int, b: int)
    ensures Combines(texts, a, b) <==>
      && texts != [] && (forall i :: 0 <= i < |texts| ==> ReadRange(texts[i]).Some?)
      && Tiles(RangesOf(texts), a, b)
  {
    hide Tiles, ReadRange;
    if Combines(texts, a, b) {
      var ranges :| Parses(texts, ranges) && ranges != [] && Tiles(ranges, a, b);
      ParsesMeans(texts, ranges);
    }
    ParsesMeans(texts, RangesOf(texts));
  }

  /** Two lists with the same entries combine to the same interval or both to none; in particular
      the interval is unique, so the two routines agree wherever both apply. */
  lemma CombinationUnique(s: seq<string>, t: seq<string>, a: int, b: int)
    requires multiset(s) == multiset(t) && Combines(s, a, b)
    ensures Combines(t, a, b)
    ensures forall c, d :: Combines(t, c, d) ==> c == a && d == b
  {
    CombinesMeans(s, a, b);
    CombinesMeans(t, a, b);
    RangesOfPermutation(s, t);
    SameElements(s, t);
    var r, q := RangesOf(s), RangesOf(t);
    assert Tiles(q, a, b) by {
      var p :| multiset(p) == multiset(r) && Chain(p, a, b);
    }
    forall i | 0 <= i < |t| ensures ReadRange(t[i]).Some? {
      assert t[i] in s;
    }
    forall c, d | Combines(t, c, d) ensures c == a && d == b {
      CombinesMeans(t, c, d);
      TilesUnique(r, q, a, b, c, d);
    }
  }
}
