/**
 The scheduler meets the live-evidence verifier: evidence built from a simulated run passes exactly
 when the run has something to show, namely a late arrival and a batched tick.
 */
module SchedulerEvidence {
  import opened Arithmetic
  import opened Scheduler
  import opened SchedulerRuns
  import opened SchedulerBatches
  import opened SchedulerHistory
  import opened SchedulerBounds
  import Simulation
  import LiveProof
  import EvidenceRows
  import opened Options

  // ----- nobody is served before arriving

  ghost predicate ArrivedBy(table: map<string, Slot>, id: string, tick: int) {
    id in table && table[id].request.arrival <= tick
  }

  ghost predicate RowOnTime(table: map<string, Slot>, row: Row) {
    forall k :: 0 <= k < |row.ids| ==> ArrivedBy(table, row.ids[k], row.tick)
  }

  ghost predicate OnTime(s: State) {
    && (forall i :: 0 <= i < |s.engine.active| ==> ArrivedBy(s.engine.table, s.engine.active[i], s.tick))
    && (forall i :: 0 <= i < |s.timeline| ==> RowOnTime(s.engine.table, s.timeline[i]))
  }

  lemma {:induction false} AdmitOnTime(s: State)
    requires StateInv(s) && OnTime(s)
    ensures OnTime(Admit(s))
    decreases |s.pending|
  {
    if s.pending != [] && s.pending[0].arrival <= s.tick {
      assert PendingOk(s.pending[0], s.engine, s.tick);
      AdmitOnTime(AdmitOne(s));
    }
  }

  lemma ServedOnTime(e: Engine, k: nat, tick: int)
    requires EngineInv(e) && k <= |e.active|
    requires forall i :: 0 <= i < |e.active| ==> ArrivedBy(e.table, e.active[i], tick)
    ensures var r := ServeMany(e, k);
            && (forall i :: 0 <= i < |r.active| ==> ArrivedBy(r.table, r.active[i], tick))
            && RowOnTime(r.table, RowOf(tick, BatchEvents(e, k)))
            && (forall row :: RowOnTime(e.table, row) ==> RowOnTime(r.table, row))
  {
    var r := ServeMany(e, k);
    forall id, t | ArrivedBy(e.table, id, t) ensures ArrivedBy(r.table, id, t) {
      ServeManyOwns(e, k, id);
    }
    forall i | 0 <= i < |r.active| ensures ArrivedBy(r.table, r.active[i], tick) {
      StaysActive(e, k, r.active[i]);
      var j :| 0 <= j < |e.active| && e.active[j] == r.active[i];
      assert ArrivedBy(e.table, e.active[j], tick);
    }
    hide ServeMany, EngineInv;
    BatchRow(e, k, tick);
  }

  lemma StaysActive(e: Engine, k: nat, id: string)
    requires EngineInv(e) && id in ServeMany(e, k).active
    ensures id in e.active
  {
    var i :| 0 <= i < |ServeMany(e, k).active| && ServeMany(e, k).active[i] == id;
    ActiveFacts(ServeMany(e, k), i);
    if id !in e.active {
      ServeManyFrame(e, k, id);
    }
  }

  lemma LaterIsFine(e: Engine, tick: int)
    requires forall i :: 0 <= i < |e.active| ==> ArrivedBy(e.table, e.active[i], tick)
    ensures forall i :: 0 <= i < |e.active| ==> ArrivedBy(e.table, e.active[i], tick + 1)
  {
  }

  lemma StepOnTime(B: nat, s: State)
    requires StateInv(s) && OnTime(s)
    ensures OnTime(Step(B, s))
  {
    hide RowOnTime, EngineInv, ServeMany, RowOf, Admit, ArrivedBy;
    AdmitOnTime(s);
    var a := Admit(s);
    StateEngine(a);
    if a.engine.active != [] {
      var k := Min(B, |a.engine.active|);
      ServedOnTime(a.engine, k, a.tick);
      LaterIsFine(ServeMany(a.engine, k), a.tick);
    }
  }

  lemma {:induction false} FinishOnTime(B: nat, s: State)
    requires StateInv(s) && B >= 1 && OnTime(s)
    ensures OnTime(Finish(B, s))
    decreases Rank(s), Distance(s)
  {
    hide Step, StateInv, OnTime, Rank, Distance;
    Simulation.FinishUnfold(B, s);
    if !Done(s) {
      StepProgress(B, s);
      StepOnTime(B, s);
      FinishOnTime(B, Step(B, s));
    }
  }

  lemma InitOnTime(requests: seq<Request>)
    requires UniqueIds(requests)
    ensures OnTime(Init(requests))
  {
    hide StateInv, TableOf, UniqueIds;
  }

  lemma OnTimeMeans(s: State, i: nat, id: string)
    requires OnTime(s) && i < |s.timeline| && id in s.timeline[i].ids
    ensures id in s.engine.table && s.engine.table[id].request.arrival <= s.timeline[i].tick
  {
    var row := s.timeline[i];
    assert RowOnTime(s.engine.table, row);
    var k :| 0 <= k < |row.ids| && row.ids[k] == id;
    assert ArrivedBy(s.engine.table, row.ids[k], row.tick);
  }

  /** Every row of a finished run serves only requests that have arrived by its tick. */
  lemma ServedAfterArrival(requests: seq<Request>, B: nat, i: nat, id: string)
    requires UniqueIds(requests) && B >= 1 && i < |Finish(B, Init(requests)).timeline|
    requires id in Finish(B, Init(requests)).timeline[i].ids
    ensures exists q :: q in requests && q.id == id && q.arrival <= Finish(B, Init(requests)).timeline[i].tick
  {
    hide *;
    InitOnTime(requests);
    FinishOnTime(B, Init(requests));
    var f := Finish(B, Init(requests));
    OnTimeMeans(f, i, id);
    FinalKeys(requests, B);
    var q :| q in requests && q.id == id;
    Simulation.FinalSlot(requests, B, q);
  }

  lemma FinalKeys(requests: seq<Request>, B: nat)
    requires UniqueIds(requests) && B >= 1
    ensures forall id :: id in Finish(B, Init(requests)).engine.table ==> exists q :: q in requests && q.id == id
  {
    var s := Init(requests);
    FinishIsIterate(B, s);
    IterateKeys(B, s, Length(B, s));
    hide Finish, Iterate, StateInv;
    assert s.engine.table == TableOf(requests);
  }

  lemma StepKeys(B: nat, s: State)
    requires StateInv(s)
    ensures Step(B, s).engine.table.Keys == s.engine.table.Keys
  {
    hide EngineInv, RowOf, ServeMany;
  }

  lemma {:induction false} IterateKeys(B: nat, s: State, n: nat)
    requires StateInv(s)
    ensures Iterate(B, s, n).engine.table.Keys == s.engine.table.Keys
  {
    hide Step, StateInv;
    if n > 0 {
      IterateKeys(B, s, n - 1);
      StepKeys(B, Iterate(B, s, n - 1));
    }
  }

  // ----- everyone is served

  lemma {:induction false} ProjectedIsThere(log: seq<Event>, id: string)
    requires Project(log, id) != []
    ensures exists i :: 0 <= i < |log| && log[i].id == id
  {
    var n := |log| - 1;
    if log[n].id != id {
      ProjectedIsThere(log[..n], id);
      var i :| 0 <= i < n && log[..n][i].id == id;
      assert log[i].id == id;
    }
  }

  lemma {:induction false} LoggedIsInRow(rows: seq<Row>, id: string)
    requires forall i :: 0 <= i < |rows| ==> RowShape(rows[i])
    requires exists i :: 0 <= i < |Flatten(rows)| && Flatten(rows)[i].id == id
    ensures exists i :: 0 <= i < |rows| && id in rows[i].ids
  {
    var n := |rows| - 1;
    var i :| 0 <= i < |Flatten(rows)| && Flatten(rows)[i].id == id;
    var front := Flatten(rows[..n]);
    if i < |front| {
      assert front[i].id == id;
      LoggedIsInRow(rows[..n], id);
      var k :| 0 <= k < n && id in rows[..n][k].ids;
      assert id in rows[k].ids;
    } else {
      assert RowEvents(rows[n])[i - |front|].id == id;
      assert id in rows[n].ids;
    }
  }

  lemma ServedSomewhere(requests: seq<Request>, B: nat, q: Request)
    requires UniqueIds(requests) && B >= 1 && q in requests && q.target != []
    ensures exists i :: 0 <= i < |Finish(B, Init(requests)).timeline| && q.id in Finish(B, Init(requests)).timeline[i].ids
  {
    hide Finish, Init;
    Simulation.TimelineDeinterleaves(requests, B, q);
    var rows := Finish(B, Init(requests)).timeline;
    assert |Solo(q, |q.target|)| == |q.target|;
    hide Flatten, Project, RowShape;
    ProjectedIsThere(Flatten(rows), q.id);
    LoggedIsInRow(rows, q.id);
  }

  // ----- evidence from a simulated run

  function SomeIds(ids: seq<string>): (r: seq<Option<string>>) {
    seq(|ids|, i requires 0 <= i < |ids| => Some(ids[i]))
  }

  function TickOf(row: Row): (t: LiveProof.Tick) {
    LiveProof.Batch(Some(row.tick), SomeIds(row.ids), None)
  }

  function TicksOf(timeline: seq<Row>): (r: seq<LiveProof.Tick>) {
    seq(|timeline|, i requires 0 <= i < |timeline| => TickOf(timeline[i]))
  }

  function RowFor(q: Request, outputs: map<string, seq<int>>, fingerprint: string): (r: LiveProof.RawRow) {
    var fp := Present(fingerprint);
    EvidenceRows.Object(Some(q.id), LiveProof.Row(
      Some(q.arrival),
      Some(LiveProof.Side(Some(q.target), fp)),
      Some(LiveProof.Side(if q.id in outputs then Some(outputs[q.id]) else None, fp)),
      None))
  }

  /** Evidence as a server would report it that decodes exactly as the scheduler does. */
  function EvidenceOf(requests: seq<Request>, report: Simulation.Report, model: string, fingerprint: string)
    : (p: LiveProof.Payload)
  {
    LiveProof.Payload(
      Present(model), Some(LiveProof.PROOF_GATE), Some(LiveProof.OPT_IN_FLAG), true, true, false,
      Some(seq(|requests|, i requires 0 <= i < |requests| => RowFor(requests[i], report.outputs, fingerprint))),
      Some(TicksOf(report.timeline)))
  }

  /** The rows of a run in which something can be seen. */
  ghost predicate Staggered(requests: seq<Request>) {
    exists i, j :: 0 <= i < |requests| && 0 <= j < |requests| && requests[i].arrival < requests[j].arrival
  }

  lemma StaggeredSome(requests: seq<Request>)
    ensures Staggered(requests) ==> exists q :: q in requests
  {
    if Staggered(requests) {
      var i, j :| 0 <= i < |requests| && 0 <= j < |requests| && requests[i].arrival < requests[j].arrival;
      assert requests[i] in requests;
    }
  }

  ghost predicate ReportOf(requests: seq<Request>, B: nat, report: Simulation.Report)
    requires UniqueIds(requests) && B >= 1
  {
    && report.timeline == Finish(B, Init(requests)).timeline
    && forall q :: q in requests ==> q.id in report.outputs && report.outputs[q.id] == q.target
  }

  lemma EvidenceRowsHold(requests: seq<Request>, B: nat, report: Simulation.Report, model: string, fingerprint: string)
    requires UniqueIds(requests) && B >= 1 && ReportOf(requests, B, report)
    ensures var rows := EvidenceOf(requests, report, model, fingerprint).rows.value;
            && (LiveProof.RowsHold(rows) <==> forall q :: q in requests ==> q.target != [] && fingerprint != "")
            && (LiveProof.LateArrival(rows) <==> Staggered(requests))
            && (forall q :: q in requests ==> EvidenceRows.Known(rows, q.id))
  {
    hide Finish, Init;
    var rows := EvidenceOf(requests, report, model, fingerprint).rows.value;
    forall i | 0 <= i < |rows|
      ensures rows[i].Object? && EvidenceRows.RowId(rows[i], i) == requests[i].id
      ensures rows[i].row.arrival == Some(requests[i].arrival)
      ensures LiveProof.RowHolds(rows[i]) <==> requests[i].target != [] && fingerprint != ""
    {
      assert requests[i] in requests;
    }
    hide EvidenceRows.RowId, LiveProof.RowHolds, RowFor;
    forall q | q in requests ensures EvidenceRows.Known(rows, q.id) {
      var i :| 0 <= i < |requests| && requests[i] == q;
      assert EvidenceRows.RowId(rows[i], i) == q.id;
    }
    if LiveProof.RowsHold(rows) {
      forall q | q in requests ensures q.target != [] && fingerprint != "" {
        var i :| 0 <= i < |requests| && requests[i] == q;
        assert LiveProof.RowHolds(rows[i]);
      }
    }
    if Staggered(requests) {
      var i, j :| 0 <= i < |requests| && 0 <= j < |requests| && requests[i].arrival < requests[j].arrival;
      assert rows[i].row.arrival.value < rows[j].row.arrival.value;
    }
  }

  lemma TickOfMeans(row: Row, id: string)
    ensures LiveProof.Batched(TickOf(row)) <==> |row.ids| > 1
    ensures LiveProof.Mentions(TickOf(row), id) <==> id in row.ids
  {
    if id in row.ids {
      var k :| 0 <= k < |row.ids| && row.ids[k] == id;
      assert SomeIds(row.ids)[k] == Some(id);
    }
  }

  lemma EvidenceShape(requests: seq<Request>, report: Simulation.Report, model: string, fingerprint: string)
    ensures var p := EvidenceOf(requests, report, model, fingerprint);
            && (LiveProof.HeaderHolds(p, Some(model)) <==> model != "")
            && p.rows.Some? && |p.rows.value| == |requests|
            && (forall i :: 0 <= i < |requests| ==> p.rows.value[i] == RowFor(requests[i], report.outputs, fingerprint))
            && p.ticks == Some(TicksOf(report.timeline))
  {
  }

  lemma KnownTick(row: Row, rows: seq<LiveProof.RawRow>)
    requires forall k :: 0 <= k < |row.ids| ==> EvidenceRows.Known(rows, row.ids[k])
    ensures LiveProof.TickHolds(TickOf(row), rows)
  {
    hide EvidenceRows.Known;
  }

  lemma EvidenceTicks(requests: seq<Request>, B: nat, report: Simulation.Report, model: string, fingerprint: string)
    requires UniqueIds(requests) && B >= 1 && ReportOf(requests, B, report)
    ensures var rows := EvidenceOf(requests, report, model, fingerprint).rows.value;
            var ticks := TicksOf(report.timeline);
            && (forall i :: 0 <= i < |ticks| ==> LiveProof.TickHolds(ticks[i], rows))
            && ((exists i :: 0 <= i < |ticks| && LiveProof.Batched(ticks[i])) <==>
                exists i :: 0 <= i < |report.timeline| && |report.timeline[i].ids| > 1)
  {
    hide *;
    EvidenceShape(requests, report, model, fingerprint);
    var rows := EvidenceOf(requests, report, model, fingerprint).rows.value;
    var ticks := TicksOf(report.timeline);
    EvidenceRowsHold(requests, B, report, model, fingerprint);
    ReportTimeline(requests, B, report);
    TicksOfEach(report.timeline);
    forall i | 0 <= i < |ticks|
      ensures LiveProof.TickHolds(ticks[i], rows)
      ensures LiveProof.Batched(ticks[i]) <==> |report.timeline[i].ids| > 1
    {
      TickOfMeans(report.timeline[i], "");
      var ids := report.timeline[i].ids;
      forall k | 0 <= k < |ids| ensures EvidenceRows.Known(rows, ids[k]) {
        ServedAfterArrival(requests, B, i, ids[k]);
      }
      KnownTick(report.timeline[i], rows);
    }
    if i :| 0 <= i < |report.timeline| && |report.timeline[i].ids| > 1 {
      assert LiveProof.Batched(ticks[i]);
    }
  }

  lemma ReportTimeline(requests: seq<Request>, B: nat, report: Simulation.Report)
    requires UniqueIds(requests) && B >= 1 && ReportOf(requests, B, report)
    ensures report.timeline == Finish(B, Init(requests)).timeline
  {
    hide Finish, Init;
  }

  lemma TicksOfEach(timeline: seq<Row>)
    ensures |TicksOf(timeline)| == |timeline|
    ensures forall i :: 0 <= i < |timeline| ==> TicksOf(timeline)[i] == TickOf(timeline[i])
  {
  }

  lemma {:induction false} FirstSeenOnTime(rows: seq<Row>, id: string, arrival: int)
    requires exists i :: 0 <= i < |rows| && id in rows[i].ids
    requires forall i :: 0 <= i < |rows| && id in rows[i].ids ==> arrival <= rows[i].tick
    ensures var seen := LiveProof.FirstSeen(TicksOf(rows), id);
            seen.Some? && arrival <= seen.value
  {
    hide TickOf;
    var ticks := TicksOf(rows);
    TickOfMeans(rows[0], id);
    TickOfTick(rows[0]);
    if id !in rows[0].ids {
      var rest := rows[1..];
      var i :| 0 <= i < |rows| && id in rows[i].ids;
      assert rest[i - 1] == rows[i];
      assert ticks[1..] == TicksOf(rest);
      FirstSeenOnTime(rest, id, arrival);
    }
  }

  lemma TickOfTick(row: Row)
    ensures TickOf(row).Batch? && TickOf(row).tick == Some(row.tick)
  {
  }

  lemma RowSeen(q: Request, outputs: map<string, seq<int>>, fingerprint: string, i: nat, ticks: seq<LiveProof.Tick>)
    requires LiveProof.FirstSeen(ticks, q.id).Some? && q.arrival <= LiveProof.FirstSeen(ticks, q.id).value
    ensures LiveProof.SeenInTime(RowFor(q, outputs, fingerprint), i, ticks)
  {
    hide LiveProof.FirstSeen;
  }

  lemma EvidenceSeen(requests: seq<Request>, B: nat, report: Simulation.Report, fingerprint: string, i: nat)
    requires UniqueIds(requests) && B >= 1 && ReportOf(requests, B, report)
    requires i < |requests| && requests[i].target != []
    ensures LiveProof.SeenInTime(RowFor(requests[i], report.outputs, fingerprint), i, TicksOf(report.timeline))
  {
    hide *;
    var q := requests[i];
    ReportTimeline(requests, B, report);
    ServedSomewhere(requests, B, q);
    forall k | 0 <= k < |report.timeline| && q.id in report.timeline[k].ids
      ensures q.arrival <= report.timeline[k].tick
    {
      ServedAfterArrival(requests, B, k, q.id);
      SameId(requests, q);
    }
    FirstSeenOnTime(report.timeline, q.id, q.arrival);
    RowSeen(q, report.outputs, fingerprint, i, TicksOf(report.timeline));
  }

  lemma SameId(requests: seq<Request>, q: Request)
    requires UniqueIds(requests) && q in requests
    ensures forall r :: r in requests && r.id == q.id ==> r == q
  {
  }

  /** A simulated run passes the live verifier exactly when model and fingerprint are not empty, every
      request has tokens to decode, two of them arrive at different ticks and some tick decodes more
      than one. */
  lemma SimulationMeetsVerifier(requests: seq<Request>, B: nat, report: Simulation.Report, model: string,
                                fingerprint: string, minRequests: int)
    requires UniqueIds(requests) && B >= 1 && ReportOf(requests, B, report)
    ensures var p := EvidenceOf(requests, report, model, fingerprint);
            LiveProof.EvidenceHolds(p, Some(model), minRequests) <==>
              && model != "" && fingerprint != ""
              && |requests| >= minRequests
              && (forall q :: q in requests ==> q.target != [])
              && Staggered(requests)
              && exists i :: 0 <= i < |report.timeline| && |report.timeline[i].ids| > 1
  {
    hide *;
    var p := EvidenceOf(requests, report, model, fingerprint);
    EvidenceShape(requests, report, model, fingerprint);
    EvidenceRowsHold(requests, B, report, model, fingerprint);
    EvidenceTicks(requests, B, report, model, fingerprint);
    LiveProof.EvidenceParts(p, Some(model), minRequests);
    StaggeredSome(requests);
    if forall q :: q in requests ==> q.target != [] {
      forall i | 0 <= i < |requests| ensures LiveProof.SeenInTime(p.rows.value[i], i, p.ticks.value) {
        EvidenceSeen(requests, B, report, fingerprint, i);
      }
    }
  }

  /** From requests to the live verdict: simulate, report the run as evidence, verify. The verdict is
      positive exactly when model and fingerprint are not empty, there are enough requests, all have
      tokens to decode, two arrive at different ticks and some tick of the run serves more than one. */
  method SimulatedVerdict(requests: seq<Request>, maxBatchSize: int, model: string, fingerprint: string,
                          minRequests: int)
    returns (r: Result<bool, Simulation.Failure>)
    ensures r.Ok? <==> maxBatchSize >= 1 && UniqueIds(requests)
    ensures r.Ok? ==>
      (r.value <==>
         && model != "" && fingerprint != "" && |requests| >= minRequests
         && (forall q :: q in requests ==> q.target != [])
         && (exists i, j :: 0 <= i < |requests| && 0 <= j < |requests| && requests[i].arrival < requests[j].arrival)
         && var rows := Finish(maxBatchSize, Init(requests)).timeline;
            exists i :: 0 <= i < |rows| && |rows[i].ids| > 1)
  {
    var simulated := Simulation.Simulate(requests, maxBatchSize);
    if simulated.Err? {
      return Err(simulated.error);
    }
    hide Finish, Init, UniqueIds, LiveProof.EvidenceHolds;
    var report := simulated.value;
    var verdict := LiveProof.Verify(EvidenceOf(requests, report, model, fingerprint), Some(model), minRequests);
    SimulationMeetsVerifier(requests, maxBatchSize, report, model, fingerprint, minRequests);
    r := Ok(verdict.failed == []);
  }
}
