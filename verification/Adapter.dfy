/**
 Padded batches and the opt-in adapter that turns timeline rows into per-tick batch payloads.
 Padding loses nothing, and the payloads hold exactly the timeline.
 */
module Adapter {
  import opened Scheduler
  import opened SchedulerRuns
  import opened SchedulerHistory
  import opened Simulation
  import opened Options

  datatype PaddedBatch = PaddedBatch(inputIds: seq<seq<int>>, attentionMask: seq<seq<int>>, lengths: seq<nat>)

  datatype TickBatch = TickBatch(tick: int, ids: seq<string>, positions: seq<int>, input: PaddedBatch,
                                 expectedOutputs: seq<int>, finished: seq<string>)

  datatype AdapterPlan = AdapterPlan(optIn: bool, tickBatches: seq<TickBatch>, outputs: map<string, seq<int>>)

  function Repeat(x: int, n: nat): (r: seq<int>)
  {
    seq(n, _ => x)
  }

  /** The tokens of a padded row that the attention mask keeps. */
  function Unmask(row: seq<int>, mask: seq<int>): (r: seq<int>)
    requires |row| == |mask|
  {
    if row == [] then []
    else (if mask[0] == 1 then [row[0]] else []) + Unmask(row[1..], mask[1..])
  }

  lemma {:induction false} UnmaskPadding(x: seq<int>, pad: int, n: nat)
    ensures Unmask(x + Repeat(pad, n), Repeat(1, |x|) + Repeat(0, n)) == x
  {
    var row, mask := x + Repeat(pad, n), Repeat(1, |x|) + Repeat(0, n);
    if x == [] {
      if n > 0 {
        assert row[1..] == [] + Repeat(pad, n - 1);
        assert mask[1..] == Repeat(1, 0) + Repeat(0, n - 1);
        UnmaskPadding([], pad, n - 1);
      }
    } else {
      assert row[1..] == x[1..] + Repeat(pad, n);
      assert mask[1..] == Repeat(1, |x| - 1) + Repeat(0, n);
      UnmaskPadding(x[1..], pad, n);
    }
  }

  /** Every row has the same width, and mask and length each recover the sequence that was padded. */
  ghost predicate Pads(sequences: seq<seq<int>>, pad: int, width: nat, b: PaddedBatch) {
    && |b.inputIds| == |b.attentionMask| == |b.lengths| == |sequences|
    && forall i :: 0 <= i < |sequences| ==>
        && |b.inputIds[i]| == |b.attentionMask[i]| == width
        && b.lengths[i] == |sequences[i]| <= width
        && b.inputIds[i][..b.lengths[i]] == sequences[i]
        && (forall k :: b.lengths[i] <= k < width ==> b.inputIds[i][k] == pad)
        && (forall k :: 0 <= k < width ==> b.attentionMask[i][k] == if k < b.lengths[i] then 1 else 0)
        && Unmask(b.inputIds[i], b.attentionMask[i]) == sequences[i]
  }

  /** The length of the longest sequence. */
  function WidthOf(sequences: seq<seq<int>>): (n: nat)
    ensures forall i :: 0 <= i < |sequences| ==> |sequences[i]| <= n
    ensures sequences != [] ==> exists i :: 0 <= i < |sequences| && n == |sequences[i]|
  {
    if sequences == [] then 0
    else
      var last := |sequences| - 1;
      var n := WidthOf(sequences[..last]);
      assert forall i :: 0 <= i < last ==> sequences[..last][i] == sequences[i];
      if |sequences[last]| > n then |sequences[last]| else n
  }

  method BuildPaddedBatch(sequences: seq<seq<int>>, pad: int) returns (b: PaddedBatch)
    ensures Pads(sequences, pad, WidthOf(sequences), b)
  {
    hide *;
    var maxLen := LongestLength(sequences);
    var padded: seq<seq<int>>, masks: seq<seq<int>>, lengths: seq<nat> := [], [], [];
    PadsNone(pad, maxLen);
    assert sequences[..0] == [];
    for n := 0 to |sequences|
      invariant Pads(sequences[..n], pad, maxLen, PaddedBatch(padded, masks, lengths))
    {
      var x := sequences[n];
      var count := maxLen - |x|;
      PadsNext(sequences[..n], x, pad, maxLen, PaddedBatch(padded, masks, lengths));
      lengths := lengths + [|x|];
      padded := padded + [x + Repeat(pad, count)];
      masks := masks + [Repeat(1, |x|) + Repeat(0, count)];
      assert sequences[..n + 1] == sequences[..n] + [x];
    }
    assert sequences[..|sequences|] == sequences;
    b := PaddedBatch(padded, masks, lengths);
  }

  method LongestLength(sequences: seq<seq<int>>) returns (maxLen: nat)
    ensures maxLen == WidthOf(sequences)
  {
    maxLen := 0;
    for n := 0 to |sequences|
      invariant maxLen == WidthOf(sequences[..n])
    {
      assert sequences[..n + 1][..n] == sequences[..n];
      if |sequences[n]| > maxLen {
        maxLen := |sequences[n]|;
      }
    }
    assert sequences[..|sequences|] == sequences;
  }

  lemma PadsNone(pad: int, width: nat)
    ensures Pads([], pad, width, PaddedBatch([], [], []))
  {
  }

  lemma PadsNext(sequences: seq<seq<int>>, x: seq<int>, pad: int, width: nat, b: PaddedBatch)
    requires Pads(sequences, pad, width, b) && |x| <= width
    ensures Pads(sequences + [x], pad, width,
                 PaddedBatch(b.inputIds + [x + Repeat(pad, width - |x|)],
                             b.attentionMask + [Repeat(1, |x|) + Repeat(0, width - |x|)], b.lengths + [|x|]))
  {
    UnmaskPadding(x, pad, width - |x|);
    hide Unmask;
  }

  /** Whether a payload holds exactly what a timeline row holds. */
  ghost predicate Carries(t: TickBatch, row: Row) {
    && t.tick == row.tick && t.ids == row.ids && t.positions == row.positions
    && t.expectedOutputs == row.outputs && t.finished == row.finished
    && |t.input.inputIds| == |t.input.attentionMask| == |t.input.lengths| == |row.inputs|
    && forall i :: 0 <= i < |row.inputs| ==>
        t.input.inputIds[i] == [row.inputs[i]] && t.input.attentionMask[i] == [1] && t.input.lengths[i] == 1
  }

  lemma SingletonPads(inputs: seq<int>, pad: int, width: nat, b: PaddedBatch, i: nat)
    requires |inputs| > 0 && i < |inputs|
    requires Pads(seq(|inputs|, k requires 0 <= k < |inputs| => [inputs[k]]), pad, width, b) && width == 1
    ensures b.inputIds[i] == [inputs[i]] && b.attentionMask[i] == [1]
  {
    var row, mask := b.inputIds[i], b.attentionMask[i];
    assert row[..1] == row;
    assert row[1..] == [] && mask[1..] == [];
    assert Unmask(row[1..], mask[1..]) == [];
    assert mask == [mask[0]];
  }

  method BuildAdapterPlan(requests: seq<Request>, maxBatchSize: int, optIn: bool, pad: int)
    returns (r: Result<AdapterPlan, Failure>)
    ensures r.Ok? <==> maxBatchSize >= 1 && UniqueIds(requests)
    ensures r.Ok? ==>
      var rows := Finish(maxBatchSize, Init(requests)).timeline;
      && r.value.optIn == optIn
      && (!optIn ==> r.value.tickBatches == [])
      && (optIn ==> |r.value.tickBatches| == |rows|)
      && (optIn ==> forall i :: 0 <= i < |rows| ==> Carries(r.value.tickBatches[i], rows[i]))
      && forall q :: q in requests ==> q.id in r.value.outputs && r.value.outputs[q.id] == q.target
  {
    hide Finish, Init;
    var simulated := Simulate(requests, maxBatchSize);
    if simulated.Err? {
      return Err(simulated.error);
    }
    var rows := simulated.value.timeline;
    var ticks: seq<TickBatch> := [];
    if optIn {
      for n := 0 to |rows|
        invariant |ticks| == n && forall i :: 0 <= i < n ==> Carries(ticks[i], rows[i])
      {
        var t := BuildTick(rows[n], pad);
        ticks := ticks + [t];
      }
    }
    r := Ok(AdapterPlan(optIn, ticks, simulated.value.outputs));
  }

  method BuildTick(row: Row, pad: int) returns (t: TickBatch)
    ensures Carries(t, row)
  {
    var sequences := seq(|row.inputs|, k requires 0 <= k < |row.inputs| => [row.inputs[k]]);
    var input := BuildPaddedBatch(sequences, pad);
    forall i | 0 <= i < |row.inputs| ensures input.inputIds[i] == [row.inputs[i]] && input.attentionMask[i] == [1] {
      SingletonPads(row.inputs, pad, WidthOf(sequences), input, i);
    }
    t := TickBatch(row.tick, row.ids, row.positions, input, row.outputs, row.finished);
  }

  // ----- reading the payloads back

  /** The timeline row that a payload stands for, its inputs taken from the padded batch. */
  ghost function RowOfTick(t: TickBatch): (row: Row) {
    Row(t.tick, t.ids, t.positions,
        seq(|t.input.inputIds|, i requires 0 <= i < |t.input.inputIds| =>
          if t.input.inputIds[i] == [] then 0 else t.input.inputIds[i][0]),
        t.expectedOutputs, t.finished)
  }

  ghost function RowsOfTicks(ticks: seq<TickBatch>): (rows: seq<Row>) {
    seq(|ticks|, i requires 0 <= i < |ticks| => RowOfTick(ticks[i]))
  }

  lemma CarriesRow(t: TickBatch, row: Row)
    requires Carries(t, row)
    ensures RowOfTick(t) == row
  {
    assert RowOfTick(t).inputs == row.inputs;
  }

  /** Reading the adapter's payloads for one request gives exactly that request's own decode. */
  lemma PayloadsDeinterleave(requests: seq<Request>, B: nat, ticks: seq<TickBatch>, q: Request)
    requires UniqueIds(requests) && B >= 1 && q in requests
    requires var rows := Finish(B, Init(requests)).timeline;
             |ticks| == |rows| && forall i :: 0 <= i < |rows| ==> Carries(ticks[i], rows[i])
    ensures (forall i :: 0 <= i < |ticks| ==> RowShape(RowsOfTicks(ticks)[i]))
    ensures Project(Flatten(RowsOfTicks(ticks)), q.id) == Solo(q, |q.target|)
  {
    hide Finish, Init, Carries, RowOfTick, Flatten, Project, Solo;
    var rows := Finish(B, Init(requests)).timeline;
    forall i | 0 <= i < |rows| ensures RowsOfTicks(ticks)[i] == rows[i] {
      CarriesRow(ticks[i], rows[i]);
    }
    assert RowsOfTicks(ticks) == rows;
    TimelineDeinterleaves(requests, B, q);
  }
}
