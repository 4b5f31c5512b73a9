/** The dashboard's sweep for uncovered layers. */
module LayerGaps {
  import opened Sorting
  import opened Sums
  import BlockRanges

  datatype Segment = Segment(start: int, end: int, proven: bool)

  datatype Report = NoRanges | EndsAtZero | Gaps(gaps: seq<BlockRanges.Range>, total: int, provenLayers: int)

  /** Whether some segment of some group covers the layer. */
  ghost predicate Covered(groups: seq<seq<Segment>>, layer: int) {
    exists g, k :: 0 <= g < |groups| && 0 <= k < |groups[g]| && groups[g][k].start <= layer < groups[g][k].end
  }

  ghost predicate CoveredBy(s: seq<Segment>, layer: int) {
    exists i :: 0 <= i < |s| && s[i].start <= layer < s[i].end
  }

  predicate StartsBy(a: Segment, b: Segment) { a.start <= b.start }

  ghost predicate InGaps(gaps: seq<BlockRanges.Range>, layer: int) {
    exists i :: 0 <= i < |gaps| && gaps[i].0 <= layer < gaps[i].1
  }

  /** Non-empty, in order and apart from each other. */
  ghost predicate Separate(gaps: seq<BlockRanges.Range>) {
    && (forall i :: 0 <= i < |gaps| ==> 0 <= gaps[i].0 < gaps[i].1)
    && (forall i, j :: 0 <= i < j < |gaps| ==> gaps[i].1 < gaps[j].0)
  }

  /** The segments that are not empty, group by group. */
  function NonEmpty(s: seq<Segment>): (r: seq<Segment>) {
    if s == [] then []
    else NonEmpty(s[..|s| - 1]) + (if s[|s| - 1].end > s[|s| - 1].start then [s[|s| - 1]] else [])
  }

  function Collect(groups: seq<seq<Segment>>): (r: seq<Segment>) {
    if groups == [] then [] else Collect(groups[..|groups| - 1]) + NonEmpty(groups[|groups| - 1])
  }

  /** Collecting goes through the groups and their segments in order and leaves out only the empty ones. */
  lemma CollectMeans(groups: seq<seq<Segment>>, s: seq<Segment>, x: Segment)
    ensures Collect([]) == [] && NonEmpty([]) == []
    ensures Collect(groups + [s]) == Collect(groups) + NonEmpty(s)
    ensures NonEmpty(s + [x]) == NonEmpty(s) + if x.start < x.end then [x] else []
  {
    assert (groups + [s])[..|groups|] == groups && (s + [x])[..|s|] == s;
  }

  lemma CoveredByAppend(a: seq<Segment>, b: seq<Segment>, layer: int)
    ensures CoveredBy(a + b, layer) <==> CoveredBy(a, layer) || CoveredBy(b, layer)
  {
    if CoveredBy(a, layer) {
      var i :| 0 <= i < |a| && a[i].start <= layer < a[i].end;
      assert (a + b)[i] == a[i];
    }
    if CoveredBy(b, layer) {
      var i :| 0 <= i < |b| && b[i].start <= layer < b[i].end;
      assert (a + b)[|a| + i] == b[i];
    }
  }

  lemma {:induction false} NonEmptyCovers(s: seq<Segment>, layer: int)
    ensures CoveredBy(NonEmpty(s), layer) <==> CoveredBy(s, layer)
  {
    if s != [] {
      var n := |s| - 1;
      NonEmptyCovers(s[..n], layer);
      assert s == s[..n] + [s[n]];
      CoveredByAppend(s[..n], [s[n]], layer);
      CoveredByAppend(NonEmpty(s[..n]), if s[n].end > s[n].start then [s[n]] else [], layer);
      if s[n].end > s[n].start {
      } else {
        assert !CoveredBy([s[n]], layer) && !CoveredBy([], layer);
      }
    }
  }

  lemma {:induction false} CollectCovers(groups: seq<seq<Segment>>, layer: int)
    ensures CoveredBy(Collect(groups), layer) <==> Covered(groups, layer)
  {
    if groups != [] {
      var n := |groups| - 1;
      var front, last := groups[..n], groups[n];
      CollectCovers(front, layer);
      NonEmptyCovers(last, layer);
      CoveredByAppend(Collect(front), NonEmpty(last), layer);
      if Covered(front, layer) {
        var g, k :| 0 <= g < n && 0 <= k < |front[g]| && front[g][k].start <= layer < front[g][k].end;
        assert groups[g] == front[g];
      }
      if CoveredBy(last, layer) {
        var k :| 0 <= k < |last| && last[k].start <= layer < last[k].end;
        assert groups[n][k] == last[k];
      }
      if Covered(groups, layer) {
        var g, k :| 0 <= g < |groups| && 0 <= k < |groups[g]| && groups[g][k].start <= layer < groups[g][k].end;
        assert g < n ==> front[g] == groups[g];
      }
    }
  }

  /** How far the sweep has come: every layer below the cursor is judged, and every gap found so far
      lies before the segment that ended it. */
  ghost predicate Swept(s: seq<Segment>, cursor: int, gaps: seq<BlockRanges.Range>) {
    && cursor >= 0 && (forall i :: 0 <= i < |s| ==> s[i].end <= cursor)
    && (cursor > 0 ==> exists i :: 0 <= i < |s| && s[i].end == cursor)
    && Separate(gaps)
    && (forall i :: 0 <= i < |gaps| ==> gaps[i].1 < cursor && s != [] && gaps[i].1 <= s[|s| - 1].start)
    && (forall layer :: 0 <= layer < cursor ==> (InGaps(gaps, layer) <==> !CoveredBy(s, layer)))
  }

  lemma SweepStep(s: seq<Segment>, x: Segment, cursor: int, gaps: seq<BlockRanges.Range>, gaps': seq<BlockRanges.Range>)
    requires Swept(s, cursor, gaps) && x.start < x.end
    requires s != [] ==> s[|s| - 1].start <= x.start
    requires gaps' == if x.start > cursor then gaps + [(cursor, x.start)] else gaps
    ensures Swept(s + [x], if cursor < x.end then x.end else cursor, gaps')
  {
    var t := s + [x];
    var cursor' := if cursor < x.end then x.end else cursor;
    forall layer | 0 <= layer < cursor' ensures InGaps(gaps', layer) <==> !CoveredBy(t, layer) {
      SweepLayer(s, x, cursor, gaps, gaps', layer);
    }
    hide InGaps, CoveredBy;
    if cursor < x.end {
      assert t[|s|].end == cursor';
    } else if cursor > 0 {
      var i :| 0 <= i < |s| && s[i].end == cursor;
      assert t[i].end == cursor';
    }
  }

  lemma OneCovers(x: Segment, layer: int)
    ensures CoveredBy([x], layer) <==> x.start <= layer < x.end
  {
    if x.start <= layer < x.end {
      assert [x][0] == x;
    }
  }

  lemma NoCoverBeyond(s: seq<Segment>, cursor: int, layer: int)
    requires forall i :: 0 <= i < |s| ==> s[i].end <= cursor
    requires layer >= cursor
    ensures !CoveredBy(s, layer)
  {
  }

  lemma GapsEndBefore(gaps: seq<BlockRanges.Range>, end: int, layer: int)
    requires forall i :: 0 <= i < |gaps| ==> gaps[i].1 <= end
    requires layer >= end
    ensures !InGaps(gaps, layer)
  {
  }

  lemma SweepLayer(s: seq<Segment>, x: Segment, cursor: int, gaps: seq<BlockRanges.Range>, gaps': seq<BlockRanges.Range>, layer: int)
    requires Swept(s, cursor, gaps) && x.start < x.end
    requires s != [] ==> s[|s| - 1].start <= x.start
    requires gaps' == if x.start > cursor then gaps + [(cursor, x.start)] else gaps
    requires 0 <= layer < if cursor < x.end then x.end else cursor
    ensures InGaps(gaps', layer) <==> !CoveredBy(s + [x], layer)
  {
    hide InGaps, CoveredBy, Separate;
    CoveredByAppend(s, [x], layer);
    OneCovers(x, layer);
    InGapsAppend(gaps, gaps', cursor, x.start, layer);
    if layer >= cursor {
      NoCoverBeyond(s, cursor, layer);
      GapsEndBefore(gaps, cursor, layer);
    } else if layer >= x.start {
      GapsEndBefore(gaps, x.start, layer);
    }
  }

  lemma InGapsAppend(gaps: seq<BlockRanges.Range>, gaps': seq<BlockRanges.Range>, lo: int, hi: int, layer: int)
    requires gaps' == if hi > lo then gaps + [(lo, hi)] else gaps
    ensures InGaps(gaps', layer) <==> InGaps(gaps, layer) || lo <= layer < hi
  {
    if InGaps(gaps, layer) {
      var i :| 0 <= i < |gaps| && gaps[i].0 <= layer < gaps[i].1;
      assert gaps'[i] == gaps[i];
    }
    if lo <= layer < hi {
      assert gaps'[|gaps|] == (lo, hi);
    }
  }

  method CollectRanges(groups: seq<seq<Segment>>) returns (ranges: seq<Segment>)
    ensures ranges == Collect(groups)
    ensures forall i :: 0 <= i < |ranges| ==> ranges[i].start < ranges[i].end
  {
    ranges := [];
    for g := 0 to |groups|
      invariant ranges == Collect(groups[..g])
      invariant forall i :: 0 <= i < |ranges| ==> ranges[i].start < ranges[i].end
    {
      ghost var before := ranges;
      for k := 0 to |groups[g]|
        invariant ranges == before + NonEmpty(groups[g][..k])
        invariant forall i :: 0 <= i < |ranges| ==> ranges[i].start < ranges[i].end
      {
        assert groups[g][..k + 1][..k] == groups[g][..k];
        var seg := groups[g][k];
        if seg.end > seg.start {
          ranges := ranges + [seg];
        }
      }
      assert groups[g][..|groups[g]|] == groups[g];
      assert groups[..g + 1][..g] == groups[..g];
    }
    assert groups[..|groups|] == groups;
  }

  /** The gaps of the sweep are exactly the layers that no segment of any group covers, from layer 0
      to the furthest end, even when segments overlap, nest or start below zero. */
  ghost predicate Exact(groups: seq<seq<Segment>>, gaps: seq<BlockRanges.Range>) {
    && Separate(gaps)
    && (forall layer :: InGaps(gaps, layer) ==> !Covered(groups, layer))
    && (forall layer, beyond :: 0 <= layer <= beyond && Covered(groups, beyond) && !Covered(groups, layer) ==>
          InGaps(gaps, layer))
    && (forall layer :: InGaps(gaps, layer) ==> exists beyond :: layer < beyond && Covered(groups, beyond))
  }

  /** What exactness says: gaps are non-empty, in order and apart; no layer in a gap is covered, and some
      layer beyond it is; and an uncovered layer from 0 on with a covered one beyond it is in a gap. */
  lemma ExactMeans(groups: seq<seq<Segment>>, gaps: seq<BlockRanges.Range>, layer: int, beyond: int)
    requires Exact(groups, gaps)
    ensures forall i :: 0 <= i < |gaps| ==> 0 <= gaps[i].0 < gaps[i].1
    ensures forall i, j :: 0 <= i < j < |gaps| ==> gaps[i].1 < gaps[j].0
    ensures forall i :: 0 <= i < |gaps| && gaps[i].0 <= layer < gaps[i].1 ==>
      !Covered(groups, layer) && exists b :: layer < b && Covered(groups, b)
    ensures 0 <= layer <= beyond && Covered(groups, beyond) && !Covered(groups, layer) ==>
      exists i :: 0 <= i < |gaps| && gaps[i].0 <= layer < gaps[i].1
  {
    hide Covered;
    forall i | 0 <= i < |gaps| && gaps[i].0 <= layer < gaps[i].1
      ensures !Covered(groups, layer) && exists b :: layer < b && Covered(groups, b)
    {
      assert InGaps(gaps, layer);
    }
  }

  function ProvenWidth(s: Segment): (n: int) { if s.proven then s.end - s.start else 0 }

  /** The segment that starts last; of several that do, the one listed last. */
  function LastStarting(s: seq<Segment>): (k: nat)
    requires s != []
    ensures k < |s|
    ensures forall i :: 0 <= i < k ==> s[i].start <= s[k].start
    ensures forall i :: k < i < |s| ==> s[i].start < s[k].start
  {
    if |s| == 1 then 0
    else
      var k := LastStarting(s[1..]) + 1;
      assert s[k] == s[1..][k - 1];
      assert forall i :: 0 < i < |s| ==> s[i] == s[1..][i - 1];
      if s[k].start < s[0].start then 0 else k
  }

  /** Sorting by start puts that segment last, because the sort is stable. */
  lemma {:induction false} SortedLast(s: seq<Segment>)
    requires s != []
    ensures var t := SortBy(s, StartsBy); t[|t| - 1] == s[LastStarting(s)]
  {
    hide *;
    SortUnfold(s);
    LastUnfold(s);
    if |s| > 1 {
      SortedLast(s[1..]);
      StartsOrder();
      SortBySorted(s[1..], StartsBy);
      InsertLast(s[0], SortBy(s[1..], StartsBy));
    }
  }

  lemma SortUnfold(s: seq<Segment>)
    requires s != []
    ensures SortBy(s, StartsBy) == Insert(s[0], SortBy(s[1..], StartsBy), StartsBy)
    ensures |s| == 1 ==> SortBy(s, StartsBy) == [s[0]]
  {
  }

  lemma LastUnfold(s: seq<Segment>)
    requires s != []
    ensures |s| == 1 ==> LastStarting(s) == 0
    ensures |s| > 1 ==>
      var x := s[1..][LastStarting(s[1..])];
      s[LastStarting(s)] == if s[0].start <= x.start then x else s[0]
  {
  }

  lemma {:induction false} InsertLast(x: Segment, t: seq<Segment>)
    requires t != [] && Sorted(t, StartsBy)
    ensures var r := Insert(x, t, StartsBy);
      r != [] && r[|r| - 1] == if x.start <= t[|t| - 1].start then t[|t| - 1] else x
  {
    if x.start > t[0].start && |t| > 1 {
      SortedRest(t, StartsBy);
      InsertLast(x, t[1..]);
    } else if x.start > t[0].start {
      assert t[1..] == [] && Insert(x, [], StartsBy) == [x];
    } else {
      assert |t| > 1 ==> StartsBy(t[0], t[|t| - 1]);
    }
  }

  /** The total that the dashboard reports. */
  function ReportedTotal(groups: seq<seq<Segment>>): (n: int)
    requires Collect(groups) != []
  {
    var s := Collect(groups);
    s[LastStarting(s)].end
  }

  /** Whether some segment starts no later than x and ends beyond it. */
  ghost predicate Outreached(groups: seq<seq<Segment>>, x: Segment) {
    exists g, k :: 0 <= g < |groups| && 0 <= k < |groups[g]|
      && groups[g][k].start <= x.start && x.end < groups[g][k].end
  }

  /** The reported total is the furthest end, the end of the last covered layer, exactly when no segment
      reaches around the last one to start. */
  lemma TotalIsFurthest(groups: seq<seq<Segment>>)
    requires Collect(groups) != []
    ensures var s := Collect(groups);
      && Covered(groups, ReportedTotal(groups) - 1)
      && ((forall layer :: Covered(groups, layer) ==> layer < ReportedTotal(groups))
          <==> !Outreached(groups, s[LastStarting(s)]))
  {
    var s := Collect(groups);
    var x := s[LastStarting(s)];
    hide Collect, LastStarting;
    CollectFrom(groups, x);
    assert CoveredBy(s, x.end - 1);
    CollectCovers(groups, x.end - 1);
    if Outreached(groups, x) {
      var g, k :| 0 <= g < |groups| && 0 <= k < |groups[g]|
        && groups[g][k].start <= x.start && x.end < groups[g][k].end;
      assert Covered(groups, x.end);
    }
    if layer :| Covered(groups, layer) && layer >= x.end {
      CollectCovers(groups, layer);
      var i :| 0 <= i < |s| && s[i].start <= layer < s[i].end;
      CollectFrom(groups, s[i]);
    }
  }

  lemma TotalOfRanges(groups: seq<seq<Segment>>)
    requires Collect(groups) != []
    ensures var s := Collect(groups); ReportedTotal(groups) == s[LastStarting(s)].end
  {
  }

  lemma {:induction false} NonEmptyFrom(s: seq<Segment>, x: Segment)
    ensures x in NonEmpty(s) <==> x in s && x.start < x.end
  {
    if s != [] {
      var n := |s| - 1;
      NonEmptyFrom(s[..n], x);
      assert s == s[..n] + [s[n]];
    }
  }

  /** Every collected segment is a non-empty one of some group. */
  lemma {:induction false} CollectFrom(groups: seq<seq<Segment>>, x: Segment)
    requires x in Collect(groups)
    ensures x.start < x.end
    ensures exists g, k :: 0 <= g < |groups| && 0 <= k < |groups[g]| && groups[g][k] == x
  {
    var n := |groups| - 1;
    if x in Collect(groups[..n]) {
      CollectFrom(groups[..n], x);
      var g, k :| 0 <= g < n && 0 <= k < |groups[..n][g]| && groups[..n][g][k] == x;
      assert groups[g][k] == x;
    } else {
      NonEmptyFrom(groups[n], x);
      var k :| 0 <= k < |groups[n]| && groups[n][k] == x;
    }
  }

  /** Nested segments: the total is 5 although layers up to 9 are covered. */
  lemma NestedTotal(a: bool, b: bool)
    ensures var groups := [[Segment(0, 10, a), Segment(2, 5, b)]];
      Collect(groups) != [] && ReportedTotal(groups) == 5 && Covered(groups, 9)
  {
    var x, y := Segment(0, 10, a), Segment(2, 5, b);
    var groups := [[x, y]];
    assert [x, y][..1] == [x] && [x][..0] == [];
    assert NonEmpty([x]) == [x] && NonEmpty([x, y]) == [x, y];
    assert groups[..0] == [] && Collect(groups) == [x, y];
    assert [x, y][1..] == [y];
    assert groups[0][0] == x;
  }

  method DetectGaps(groups: seq<seq<Segment>>) returns (r: Report)
    ensures Exact(groups, if r.Gaps? then r.gaps else [])
    ensures r.NoRanges? <==> Collect(groups) == []
    ensures r.Gaps? ==>
      r.provenLayers == Sum(Collect(groups), (s: Segment) => if s.proven then s.end - s.start else 0)
    ensures r.EndsAtZero? <==> Collect(groups) != [] && ReportedTotal(groups) == 0
    ensures r.Gaps? ==> r.total == ReportedTotal(groups)
  {
    hide *;
    var ranges := CollectRanges(groups);
    if ranges == [] {
      NothingCovered(groups);
      return NoRanges;
    }
    var sorted := SortBy(ranges, StartsBy);
    SortedRanges(ranges);
    SortedLast(ranges);
    TotalOfRanges(groups);
    var total := sorted[|sorted| - 1].end;
    if total == 0 {
      LastEndsAtZero(groups, sorted);
      return EndsAtZero;
    }
    var gaps, cursor, proven := Sweep(sorted);
    SweepPassesLast(sorted, cursor, gaps);
    if cursor < total {
      gaps := gaps + [(cursor, total)];
    }
    SweptIsExact(groups, sorted, cursor, gaps);
    SumPermutation(sorted, ranges, ProvenWidth);
    ProvenSum(ranges);
    r := Gaps(gaps, total, proven);
  }

  lemma ProvenSum(ranges: seq<Segment>)
    ensures Sum(ranges, ProvenWidth) == Sum(ranges, (s: Segment) => if s.proven then s.end - s.start else 0)
  {
    hide Sum;
    SumSame(ranges, ProvenWidth, (s: Segment) => if s.proven then s.end - s.start else 0);
  }

  lemma StartsOrder()
    ensures TotalPreorder(StartsBy)
  {
  }

  lemma SortedRanges(ranges: seq<Segment>)
    requires forall i :: 0 <= i < |ranges| ==> ranges[i].start < ranges[i].end
    ensures var s := SortBy(ranges, StartsBy);
      && |s| == |ranges| && Sorted(s, StartsBy)
      && (forall x :: x in s <==> x in ranges)
      && (forall i :: 0 <= i < |s| ==> s[i].start < s[i].end)
      && multiset(s) == multiset(ranges)
  {
    StartsOrder();
    hide TotalPreorder, SortBy, Sorted, StartsBy;
    var s := SortBy(ranges, StartsBy);
    SortBySorted(ranges, StartsBy);
    SameElements(s, ranges);
    forall i | 0 <= i < |s| ensures s[i].start < s[i].end {
      assert s[i] in ranges;
    }
  }

  /** The sweep ends at or beyond the end of the last segment, so the closing gap is never added. */
  lemma SweepPassesLast(s: seq<Segment>, cursor: int, gaps: seq<BlockRanges.Range>)
    requires s != [] && Swept(s, cursor, gaps)
    ensures cursor >= s[|s| - 1].end
  {
  }

  method Sweep(sorted: seq<Segment>) returns (gaps: seq<BlockRanges.Range>, cursor: int, proven: int)
    requires Sorted(sorted, StartsBy) && forall i :: 0 <= i < |sorted| ==> sorted[i].start < sorted[i].end
    ensures Swept(sorted, cursor, gaps)
    ensures proven == Sum(sorted, ProvenWidth)
  {
    gaps, cursor, proven := [], 0, 0;
    for n := 0 to |sorted|
      invariant Swept(sorted[..n], cursor, gaps)
      invariant proven == Sum(sorted[..n], ProvenWidth)
    {
      hide Swept;
      var seg := sorted[n];
      ghost var before, at := gaps, cursor;
      if seg.start > cursor {
        gaps := gaps + [(cursor, seg.start)];
      }
      cursor := if cursor < seg.end then seg.end else cursor;
      if seg.proven {
        proven := proven + (seg.end - seg.start);
      }
      assert n > 0 ==> StartsBy(sorted[n - 1], sorted[n]);
      SweepStep(sorted[..n], seg, at, before, gaps);
      SumSplit(sorted[..n], [seg], ProvenWidth);
      assert [seg][1..] == [];
      assert Sum([seg][1..], ProvenWidth) == 0;
      assert sorted[..n + 1] == sorted[..n] + [seg];
    }
    assert sorted[..|sorted|] == sorted;
  }

  lemma SameCover(groups: seq<seq<Segment>>, s: seq<Segment>, layer: int)
    requires forall x :: x in s <==> x in Collect(groups)
    ensures CoveredBy(s, layer) <==> Covered(groups, layer)
  {
    var c := Collect(groups);
    CollectCovers(groups, layer);
    if CoveredBy(s, layer) {
      var i :| 0 <= i < |s| && s[i].start <= layer < s[i].end;
      assert s[i] in c;
      var j :| 0 <= j < |c| && c[j] == s[i];
    }
    if CoveredBy(c, layer) {
      var i :| 0 <= i < |c| && c[i].start <= layer < c[i].end;
      assert c[i] in s;
      var j :| 0 <= j < |s| && s[j] == c[i];
    }
  }

  lemma NothingCovered(groups: seq<seq<Segment>>)
    requires Collect(groups) == []
    ensures Exact(groups, [])
  {
    forall layer ensures !Covered(groups, layer) {
      CollectCovers(groups, layer);
    }
  }

  /** If the last segment to start ends at zero, all segments start below zero, so nothing from layer 0
      up to any end is uncovered. */
  lemma LastEndsAtZero(groups: seq<seq<Segment>>, s: seq<Segment>)
    requires s != [] && Sorted(s, StartsBy) && s[|s| - 1].end == 0
    requires forall i :: 0 <= i < |s| ==> s[i].start < s[i].end
    requires forall x :: x in s <==> x in Collect(groups)
    ensures Exact(groups, [])
  {
    forall layer, beyond | 0 <= layer <= beyond && Covered(groups, beyond) ensures Covered(groups, layer) {
      SameCover(groups, s, beyond);
      SameCover(groups, s, layer);
      var i :| 0 <= i < |s| && s[i].start <= beyond < s[i].end;
      assert i < |s| - 1 ==> StartsBy(s[i], s[|s| - 1]);
      assert s[i].start <= layer < s[i].end;
    }
  }

  lemma SweptIsExact(groups: seq<seq<Segment>>, s: seq<Segment>, cursor: int, gaps: seq<BlockRanges.Range>)
    requires Swept(s, cursor, gaps)
    requires forall i :: 0 <= i < |s| ==> s[i].start < s[i].end
    requires forall x :: x in s <==> x in Collect(groups)
    ensures Exact(groups, gaps)
  {
    hide Collect;
    forall layer ensures CoveredBy(s, layer) <==> Covered(groups, layer) {
      SameCover(groups, s, layer);
    }
    hide Covered;
    forall layer | InGaps(gaps, layer) ensures !CoveredBy(s, layer) && 0 <= layer < cursor - 1 {
    }
    forall layer | InGaps(gaps, layer) ensures exists beyond :: layer < beyond && Covered(groups, beyond) {
      var i :| 0 <= i < |s| && s[i].end == cursor;
      assert CoveredBy(s, cursor - 1);
      assert Covered(groups, cursor - 1);
    }
  }
}
