/**
 Admission and waiting: a request is admitted at exactly its arrival tick, what a tick does to the
 queue, and when exactly a queued request is first served.
 */
module SchedulerFairness {
  import opened Arithmetic
  import opened Sorting
  import opened Scheduler
  import opened SchedulerRuns
  import opened SchedulerBatches
  import opened SchedulerHistory

  // ----- admission

  /** Admission only appends to the active queue and to the completion list. */
  lemma {:induction false} AdmitAppends(s: State)
    requires StateInv(s)
    ensures s.engine.active <= Admit(s).engine.active
    ensures s.engine.completed <= Admit(s).engine.completed
    decreases |s.pending|
  {
    if s.pending != [] && s.pending[0].arrival <= s.tick {
      AdmitAppends(AdmitOne(s));
    }
  }

  /** A request leaves the pending queue at the tick it arrives, not before and not after. */
  lemma {:induction false} AdmittedOnArrival(s: State, q: Request)
    requires StateInv(s) && q in s.pending
    ensures q.arrival > s.tick ==> q in Admit(s).pending
    ensures q.arrival <= s.tick ==> q.arrival == s.tick && q !in Admit(s).pending
    ensures q.arrival <= s.tick && q.target != [] ==> q.id in Admit(s).engine.active
    ensures q.arrival <= s.tick && q.target == [] ==> q.id in Admit(s).engine.completed
    decreases |s.pending|
  {
    var i :| 0 <= i < |s.pending| && s.pending[i] == q;
    assert PendingOk(s.pending[i], s.engine, s.tick);
    if s.pending[0].arrival <= s.tick {
      var r := AdmitOne(s);
      if i == 0 {
        AdmitAppends(r);
        if q.target == [] {
          assert r.engine.completed[|r.engine.completed| - 1] == q.id;
        } else {
          assert r.engine.active[|r.engine.active| - 1] == q.id;
        }
      } else {
        assert r.pending[i - 1] == q;
        AdmittedOnArrival(r, q);
      }
    }
  }

  // ----- one serving step

  /** All that an iteration with a non-empty queue does: it advances the first k records as they were
      when the tick began, requeues the unfinished ones behind the rest of the queue, completes the
      others, logs the k services and reports them in one row, and the clock goes up by one. */
  lemma StepIsBatch(B: nat, s: State)
    requires StateInv(s) && Admit(s).engine.active != []
    ensures var a, r := Admit(s), Step(B, s);
            var events := r.engine.log[|s.engine.log|..];
            && s.engine.log <= r.engine.log && |events| == Min(B, |a.engine.active|)
            && ParallelBatch(a.engine, events, r.engine)
            && r.timeline == s.timeline + [RowOf(s.tick, events)]
            && r.pending == a.pending && r.tick == s.tick + 1
  {
    hide *;
    var a := Admit(s);
    StepRow(B, s);
    SerialIsParallel(a.engine, Min(B, |a.engine.active|));
  }

  lemma StepRow(B: nat, s: State)
    requires StateInv(s) && Admit(s).engine.active != []
    ensures EngineInv(Admit(s).engine)
    ensures var a := Admit(s);
            var e := ServeMany(a.engine, Min(B, |a.engine.active|));
            Step(B, s) == State(a.pending, e, s.timeline + [RowOf(s.tick, e.log[|s.engine.log|..])], s.tick + 1)
  {
    hide EngineInv, ServeMany, RowOf, Admit;
  }

  /** Of this, the parts that waiting times depend on. */
  lemma StepServes(B: nat, s: State)
    requires StateInv(s) && B >= 1 && Admit(s).engine.active != []
    ensures var q := Admit(s).engine.active;
            var k := Min(B, |q|);
            var r := Step(B, s);
            && r.tick == s.tick + 1
            && r.pending == Admit(s).pending
            && |r.timeline| == |s.timeline| + 1 && s.timeline <= r.timeline
            && r.timeline[|s.timeline|].tick == s.tick
            && r.timeline[|s.timeline|].ids == q[..k]
            && |r.engine.log| == |s.engine.log| + k
            && q[k..] <= r.engine.active
  {
    hide EngineInv;
    var a := Admit(s);
    var k := Min(B, |a.engine.active|);
    BatchRow(a.engine, k, a.tick);
    SerialIsParallel(a.engine, k);
  }

  lemma InFirst(ids: seq<string>, k: nat, i: nat)
    requires NoDup(ids) && k <= |ids| && i < |ids|
    ensures ids[i] in ids[..k] <==> i < k
  {
    if i < k {
      assert ids[..k][i] == ids[i];
    }
  }

  lemma BatchSlot(e: Engine, k: nat, i: nat)
    requires EngineInv(e) && k <= |e.active| && i < |e.active|
    ensures Unfinished(e.table, e.active[i]) && e.active[i] in ServeMany(e, k).table
    ensures ServeMany(e, k).table[e.active[i]]
         == if i < k then Advance(e.table[e.active[i]]) else e.table[e.active[i]]
  {
    hide EngineInv, NoDup, ServeMany;
    SerialIsParallel(e, k);
    ActiveFacts(e, i);
    InFirst(e.active, k, i);
  }

  /** Each active request is either served in the tick or was shut out by a full batch. */
  lemma StepPosition(B: nat, s: State, i: nat)
    requires StateInv(s) && B >= 1 && i < |Admit(s).engine.active|
    ensures var id := Admit(s).engine.active[i];
            && Unfinished(s.engine.table, id) && id in Step(B, s).engine.table
            && Step(B, s).engine.table[id] == if i < B then Advance(s.engine.table[id]) else s.engine.table[id]
  {
    hide *;
    var a := Admit(s);
    StepRow(B, s);
    AdmitInv(s);
    BatchSlot(a.engine, Min(B, |a.engine.active|), i);
    UnfinishedIn(s.engine.table, a.engine.active[i]);
  }

  lemma UnfinishedIn(table: map<string, Slot>, id: string)
    requires Unfinished(table, id)
    ensures id in table && table[id].position < |table[id].request.target|
  {
  }

  // ----- exact waiting time

  /** The request at index i of the queue at tick t is served at tick t + i / B, and not before. */
  lemma {:induction false} WaitingTime(B: nat, s: State, i: nat)
    requires StateInv(s) && B >= 1 && i < |Admit(s).engine.active|
    ensures FirstServed(Iterate(B, s, i / B + 1).timeline, s, Admit(s).engine.active[i], i / B, i % B)
    decreases i
  {
    hide *;
    var q := Admit(s).engine.active;
    StepServes(B, s);
    if i < B {
      DivUnique(i, B, 0, i);
      IterateOne(B, s);
      ServedNow(Step(B, s).timeline, s, q[i], i);
    } else {
      var r := Step(B, s);
      DivStep(i, B);
      AdmitAppends(r);
      assert q[B..][i - B] == q[i];
      WaitingTime(B, r, i - B);
      IterateFirst(B, s, i / B + 1);
      AdmitInv(s);
      NotInFirst(Admit(s).engine, B, i);
      ServedLater(Iterate(B, s, i / B + 1).timeline, s, r, q[i], (i - B) / B, i % B);
    }
  }

  /** In these rows, id is first served `wait` ticks from s on, as entry k of its row. */
  ghost predicate FirstServed(rows: seq<Row>, s: State, id: string, wait: nat, k: nat) {
    var n := |s.timeline|;
    && |rows| == n + wait + 1 && s.timeline <= rows
    && rows[n + wait].tick == s.tick + wait
    && k < |rows[n + wait].ids| && rows[n + wait].ids[k] == id
    && forall j :: n <= j < n + wait ==> id !in rows[j].ids
  }

  lemma FirstServedMeans(rows: seq<Row>, s: State, id: string, wait: nat, k: nat)
    requires FirstServed(rows, s, id, wait, k)
    ensures var n := |s.timeline|;
      && |rows| == n + wait + 1 && s.timeline <= rows && rows[n + wait].tick == s.tick + wait
      && k < |rows[n + wait].ids| && rows[n + wait].ids[k] == id
      && forall j :: n <= j < n + wait ==> id !in rows[j].ids
  {
  }

  lemma ServedNow(rows: seq<Row>, s: State, id: string, k: nat)
    requires |rows| == |s.timeline| + 1 && s.timeline <= rows && rows[|s.timeline|].tick == s.tick
    requires k < |rows[|s.timeline|].ids| && rows[|s.timeline|].ids[k] == id
    ensures FirstServed(rows, s, id, 0, k)
  {
  }

  lemma ServedLater(rows: seq<Row>, s: State, r: State, id: string, wait: nat, k: nat)
    requires FirstServed(rows, r, id, wait, k)
    requires r.tick == s.tick + 1 && |r.timeline| == |s.timeline| + 1 && s.timeline <= r.timeline
    requires id !in r.timeline[|s.timeline|].ids
    ensures FirstServed(rows, s, id, wait + 1, k)
  {
  }

  lemma AdmitInv(s: State)
    requires StateInv(s)
    ensures EngineInv(Admit(s).engine)
  {
    hide EngineInv, Admit;
  }

  lemma NotInFirst(e: Engine, k: nat, i: nat)
    requires EngineInv(e) && k <= i < |e.active|
    ensures e.active[i] !in e.active[..k]
  {
  }

}
