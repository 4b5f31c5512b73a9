/**
 How long a run takes: a response bound for every request under any arrivals, and, once nothing is
 left to arrive, a makespan bound and the equality of every run with serial round robin.
 */
module SchedulerBounds {
  import opened Arithmetic
  import opened Scheduler
  import opened SchedulerRuns
  import opened SchedulerBatches
  import opened SchedulerHistory
  import opened SchedulerFairness
  import opened SchedulerTurns

  // ----- response time

  ghost function Position(s: State, id: string): (n: nat) {
    if id in s.engine.table then s.engine.table[id].position else 0
  }

  /** While x is in the queue, every tick either serves x or decodes B tokens of others. */
  lemma StepResponse(B: nat, s: State, x: string)
    requires StateInv(s) && B >= 1 && x in Admit(s).engine.active
    ensures var r := Step(B, s);
            && r.tick == s.tick + 1 && |r.timeline| == |s.timeline| + 1 && s.timeline <= r.timeline
            && 0 <= Position(r, x) - Position(s, x) <= 1
            && B <= |r.engine.log| - |s.engine.log| + (B - 1) * (Position(r, x) - Position(s, x))
  {
    hide *;
    var q := Admit(s).engine.active;
    var i :| 0 <= i < |q| && q[i] == x;
    StepServes(B, s);
    PositionStep(B, s, i);
    var d := Position(Step(B, s), x) - Position(s, x);
    assert (d == 1 && Min(B, |q|) >= 1) || (d == 0 && Min(B, |q|) >= B);
    OneOrNone(B, Min(B, |q|), d);
  }

  lemma PositionStep(B: nat, s: State, i: nat)
    requires StateInv(s) && B >= 1 && i < |Admit(s).engine.active|
    ensures var x := Admit(s).engine.active[i];
            Position(Step(B, s), x) == Position(s, x) + if i < B then 1 else 0
  {
    hide Step, StateInv, Admit, Unfinished;
    StepPosition(B, s, i);
    UnfinishedIn(s.engine.table, Admit(s).engine.active[i]);
  }

  lemma OneOrNone(B: nat, served: int, d: int)
    ensures (d == 1 && served >= 1) || (d == 0 && served >= B) ==> B <= served + (B - 1) * d
  {
  }

  lemma {:induction false} StretchResponse(B: nat, s: State, x: string, n: nat)
    requires StateInv(s) && B >= 1
    requires forall j :: 0 <= j < n ==> x in Admit(Iterate(B, s, j)).engine.active
    ensures var r := Iterate(B, s, n);
            && r.tick == s.tick + n && |r.timeline| == |s.timeline| + n && s.timeline <= r.timeline
            && B * n <= |r.engine.log| - |s.engine.log| + (B - 1) * (Position(r, x) - Position(s, x))
  {
    hide Step, StateInv, Admit, Position;
    if n > 0 {
      StretchResponse(B, s, x, n - 1);
      var m := Iterate(B, s, n - 1);
      StepResponse(B, m, x);
      var r := Step(B, m);
      Distribute(B - 1, Position(r, x) - Position(m, x), Position(m, x) - Position(s, x));
      Distribute(B, n - 1, 1);
    }
  }

  /** Every pending request with something to decode is queued at the tick it arrives. */
  lemma {:induction false} Admission(B: nat, s: State, q: Request) returns (j: nat)
    requires StateInv(s) && B >= 1 && q in s.pending && q.target != []
    ensures q.id in Admit(Iterate(B, s, j)).engine.active
    ensures Iterate(B, s, j).tick == q.arrival && Position(Iterate(B, s, j), q.id) == 0
    decreases Rank(s), Distance(s)
  {
    hide Step, StateInv, Admit, Position, Rank, Distance;
    AdmittedOnArrival(s, q);
    if q.arrival <= s.tick {
      j := 0;
      PendingPosition(s, q);
    } else {
      StepProgress(B, s);
      StepKeepsPending(B, s);
      j := Admission(B, Step(B, s), q);
      IterateFirst(B, s, j + 1);
      j := j + 1;
    }
  }

  lemma PendingPosition(s: State, q: Request)
    requires StateInv(s) && q in s.pending
    ensures Position(s, q.id) == 0
  {
    var i :| 0 <= i < |s.pending| && s.pending[i] == q;
    assert PendingOk(s.pending[i], s.engine, s.tick);
  }

  lemma StepKeepsPending(B: nat, s: State)
    requires StateInv(s)
    ensures Step(B, s).pending == Admit(s).pending
  {
  }

  /** A request in the queue stays in the queue at every tick until the row that finishes it. */
  lemma {:induction false} Completion(B: nat, s: State, x: string) returns (n: nat)
    requires StateInv(s) && B >= 1 && x in Admit(s).engine.active
    ensures n >= 1 && forall j :: 0 <= j < n ==> x in Admit(Iterate(B, s, j)).engine.active
    ensures var rows := Iterate(B, s, n).timeline; |rows| > 0 && x in rows[|rows| - 1].finished
    ensures Finished(Iterate(B, s, n).engine.table, x)
    decreases Rank(s), Distance(s)
  {
    hide Step, StateInv, Admit, Rank, Distance, Finished;
    AdmitEmpty(s);
    StepProgress(B, s);
    StepFinishes(B, s, x);
    var r := Step(B, s);
    if x in r.engine.active {
      AdmitAppends(r);
      n := Completion(B, r, x);
      IterateFirst(B, s, n + 1);
      forall j | 0 <= j < n + 1 ensures x in Admit(Iterate(B, s, j)).engine.active {
        if j > 0 {
          IterateFirst(B, s, j);
        }
      }
      n := n + 1;
    } else {
      n := 1;
      assert Iterate(B, s, 1) == Step(B, Iterate(B, s, 0));
    }
  }

  lemma AdmitEmpty(s: State)
    requires StateInv(s)
    ensures Admit(s).engine.active != [] ==> !Done(s)
  {
  }

  /** After a tick, a queued request is still queued or the tick's row reports it finished. */
  lemma StepFinishes(B: nat, s: State, x: string)
    requires StateInv(s) && B >= 1 && x in Admit(s).engine.active
    ensures var r := Step(B, s);
            || x in r.engine.active
            || (|r.timeline| > 0 && x in r.timeline[|r.timeline| - 1].finished && Finished(r.engine.table, x))
  {
    var a := Admit(s);
    var k := Min(B, |a.engine.active|);
    SerialIsParallel(a.engine, k);
    var events := BatchEvents(a.engine, k);
    var r := ServeMany(a.engine, k);
    if x !in r.active {
      StillQueued(a.engine, events, r, x);
      assert x in r.completed;
      hide ServeMany;
    }
  }

  lemma StillQueued(e: Engine, events: seq<Event>, r: Engine, x: string)
    requires EngineInv(e) && |events| <= |e.active| && ParallelBatch(e, events, r) && x in e.active && x !in r.active
    ensures x in FinishedIds(events) && x in r.completed
  {
    var i :| 0 <= i < |e.active| && e.active[i] == x;
    assert i < |events|;
    assert events[i].id == x;
    FinishedMeans(events, x);
    if !events[i].last {
      RequeuedHas(events, i);
    }
  }

  lemma {:induction false} RequeuedHas(events: seq<Event>, i: nat)
    requires i < |events| && !events[i].last
    ensures events[i].id in RequeuedIds(events)
  {
    var n := |events| - 1;
    if i < n {
      RequeuedHas(events[..n], i);
    }
  }

  // ----- the response bound, read off the final timeline

  /** Tokens decoded in these rows. */
  function Slots(rows: seq<Row>): (n: nat) {
    if rows == [] then 0 else Slots(rows[..|rows| - 1]) + |rows[|rows| - 1].ids|
  }

  lemma {:induction false} SlotsSplit(a: seq<Row>, b: seq<Row>)
    ensures Slots(a + b) == Slots(a) + Slots(b)
  {
    if b == [] {
      assert a + b == a;
    } else {
      SlotsSplit(a, b[..|b| - 1]);
      assert (a + b)[..|a + b| - 1] == a + b[..|b| - 1];
    }
  }

  lemma {:induction false} SlotsFlatten(rows: seq<Row>)
    requires forall i :: 0 <= i < |rows| ==> RowShape(rows[i])
    ensures |Flatten(rows)| == Slots(rows)
  {
    if rows != [] {
      SlotsFlatten(rows[..|rows| - 1]);
    }
  }

  lemma StepTimelineGrows(B: nat, s: State)
    requires StateInv(s)
    ensures s.timeline <= Step(B, s).timeline
    ensures Done(s) ==> Step(B, s) == s
  {
    hide EngineInv, RowOf, ServeMany;
  }

  /** Nothing is ever rewritten: every intermediate timeline is a prefix of the final one. */
  lemma {:induction false} IterateWithinFinish(B: nat, s: State, n: nat)
    requires StateInv(s) && B >= 1
    ensures Iterate(B, s, n).timeline <= Finish(B, s).timeline
    decreases Rank(s), Distance(s), n
  {
    hide Step, StateInv, Rank, Distance;
    StepTimelineGrows(B, s);
    if Done(s) {
      if n > 0 {
        IterateFirst(B, s, n);
        IterateWithinFinish(B, s, n - 1);
      }
    } else {
      StepProgress(B, s);
      if n == 0 {
        IterateWithinFinish(B, Step(B, s), 0);
      } else {
        IterateFirst(B, s, n);
        IterateWithinFinish(B, Step(B, s), n - 1);
      }
    }
  }

  /** A record always belongs to the request it was made for. */
  ghost predicate Owns(s: State, q: Request) {
    q.id in s.engine.table && s.engine.table[q.id].request == q
  }

  lemma ServeOneOwns(e: Engine, id: string)
    requires EngineInv(e) && id in e.table
    ensures ServeOne(e).table[id].request == e.table[id].request
  {
  }

  lemma {:induction false} ServeManyOwns(e: Engine, n: nat, id: string)
    requires EngineInv(e) && id in e.table
    ensures ServeMany(e, n).table[id].request == e.table[id].request
  {
    hide EngineInv, ServeOne;
    if n > 0 {
      ServeManyOwns(e, n - 1, id);
      ServeOneOwns(ServeMany(e, n - 1), id);
    }
  }

  lemma StepOwns(B: nat, s: State, q: Request)
    requires StateInv(s) && Owns(s, q)
    ensures Owns(Step(B, s), q)
  {
    hide EngineInv, RowOf;
    ServeManyOwns(Admit(s).engine, Min(B, |Admit(s).engine.active|), q.id);
  }

  lemma PositionBound(s: State, q: Request)
    requires StateInv(s) && Owns(s, q)
    ensures Position(s, q.id) <= |q.target|
  {
    assert SlotOk(q.id, s.engine.table[q.id]);
  }

  lemma {:induction false} IterateOwns(B: nat, s: State, n: nat, q: Request)
    requires StateInv(s) && Owns(s, q)
    ensures Owns(Iterate(B, s, n), q)
    ensures Position(Iterate(B, s, n), q.id) <= |q.target|
  {
    hide Step, StateInv, Owns, Position;
    if n > 0 {
      IterateOwns(B, s, n - 1, q);
      StepOwns(B, Iterate(B, s, n - 1), q);
    }
    PositionBound(Iterate(B, s, n), q);
  }

  /** The rows written while x is queued: one per tick, starting with the current one. */
  lemma StretchTicks(B: nat, s: State, x: string, n: nat)
    requires StateInv(s) && B >= 1 && n >= 1
    requires forall j :: 0 <= j < n ==> x in Admit(Iterate(B, s, j)).engine.active
    ensures var rows := Iterate(B, s, n).timeline;
            && |rows| == |s.timeline| + n
            && rows[|s.timeline|].tick == s.tick && rows[|rows| - 1].tick == s.tick + n - 1
  {
    hide Step, StateInv, Admit, Position;
    StretchResponse(B, s, x, n);
    StretchResponse(B, s, x, n - 1);
    StepServes(B, Iterate(B, s, n - 1));
    if n > 1 {
      StretchTicks(B, s, x, n - 1);
    }
  }

  lemma WindowSlots(B: nat, m: State, r: State, rows: seq<Row>)
    requires TimelineInv(B, m) && TimelineInv(B, r) && m.timeline <= r.timeline <= rows
    ensures Slots(rows[|m.timeline|..|r.timeline|]) == |r.engine.log| - |m.engine.log|
  {
    SlotsFlatten(m.timeline);
    SlotsFlatten(r.timeline);
    var window := rows[|m.timeline|..|r.timeline|];
    assert r.timeline == m.timeline + window;
    SlotsSplit(m.timeline, window);
  }

  /** Response bound. A request that arrives at row p of the final timeline finishes in row f, one
      row per tick in between, and those rows are so full that
      B * (f - p + 1) <= tokens in them + (B - 1) * its own length. */
  lemma ResponseTime(B: nat, s: State, q: Request) returns (p: nat, f: nat)
    requires StateInv(s) && B >= 1 && TimelineInv(B, s) && Deinterleaves(s.engine)
    requires q in s.pending && q.target != []
    ensures var rows := Finish(B, s).timeline;
            && p <= f < |rows|
            && rows[p].tick == q.arrival && rows[f].tick == q.arrival + (f - p)
            && q.id in rows[f].finished
            && B * (f - p + 1) <= Slots(rows[p..f + 1]) + (B - 1) * |q.target|
  {
    hide *;
    var j := Admission(B, s, q);
    PendingOwns(s, q);
    var m := Iterate(B, s, j);
    var n := Completion(B, m, q.id);
    var r := Iterate(B, m, n);
    IterateHistory(B, s, j);
    IterateHistory(B, m, n);
    StretchResponse(B, m, q.id, n);
    StretchTicks(B, m, q.id, n);
    IterateSplit(B, s, j, n);
    IterateWithinFinish(B, s, j + n);
    IterateOwns(B, s, j + n, q);
    WindowSlots(B, m, r, Finish(B, s).timeline);
    ScaleUp(B - 1, Position(r, q.id), |q.target|);
    p, f := |m.timeline|, |m.timeline| + n - 1;
  }

  lemma PendingOwns(s: State, q: Request)
    requires StateInv(s) && q in s.pending
    ensures Owns(s, q)
  {
    var i :| 0 <= i < |s.pending| && s.pending[i] == q;
    assert PendingOk(s.pending[i], s.engine, s.tick);
  }

  // ----- requests that arrive together

  lemma {:induction false} ServeManySplit(e: Engine, m: nat, n: nat)
    requires EngineInv(e)
    ensures ServeMany(e, m + n) == ServeMany(ServeMany(e, m), n)
  {
    hide ServeOne, EngineInv;
    if n > 0 {
      ServeManySplit(e, m, n - 1);
      assert m + n - 1 == m + (n - 1);
    }
  }

  /** An iteration with nothing left to arrive. */
  lemma StepAlone(B: nat, s: State)
    requires StateInv(s) && B >= 1 && s.pending == [] && s.engine.active != []
    ensures var r := Step(B, s);
            var k := Min(B, |s.engine.active|);
            && r.engine == ServeMany(s.engine, k)
            && r.pending == [] && |r.timeline| == |s.timeline| + 1
            && Work(r) == Work(s) - k
  {
    assert Admit(s) == s;
    ServeWork(B, s);
    hide EngineInv, RowOf, ServeMany, Work;
  }

  lemma StateEngine(s: State)
    requires StateInv(s)
    ensures EngineInv(s.engine)
  {
  }

  /** With nothing left to arrive, a run of any batch size is plain serial round robin. */
  lemma {:induction false} FinishIsSerial(B: nat, s: State)
    requires StateInv(s) && B >= 1 && s.pending == []
    ensures Finish(B, s).engine == ServeMany(s.engine, Work(s))
    decreases Rank(s), Distance(s)
  {
    hide *;
    StateEngine(s);
    FinishOnce(B, s);
    if !Done(s) {
      StepProgress(B, s);
      StepAlone(B, s);
      FinishIsSerial(B, Step(B, s));
      ServeManySplit(s.engine, Min(B, |s.engine.active|), Work(Step(B, s)));
    }
  }

  lemma FinishOnce(B: nat, s: State)
    requires StateInv(s) && B >= 1 && s.pending == []
    ensures Done(s) ==> Finish(B, s) == s && Work(s) == 0 && Finish(B, s).engine == ServeMany(s.engine, Work(s))
    ensures !Done(s) ==> s.engine.active != [] && Finish(B, s) == Finish(B, Step(B, s))
  {
    hide StateInv, Step;
    StateEngine(s);
  }

  /** Makespan bound: B * rows <= tokens + (B - 1) * longest, for a run with nothing left to arrive. */
  lemma {:induction false} Makespan(B: nat, s: State, longest: nat)
    requires StateInv(s) && B >= 1 && s.pending == []
    requires forall i :: 0 <= i < |s.engine.active| ==> Left(s.engine.table, s.engine.active[i]) <= longest
    ensures B * (|Finish(B, s).timeline| - |s.timeline|) <= Work(s) + (B - 1) * longest
    decreases Rank(s), Distance(s)
  {
    hide *;
    FinishOnce(B, s);
    if !Done(s) {
      StepProgress(B, s);
      StepAlone(B, s);
      StepLeft(B, s, longest);
      var r := Step(B, s);
      var rows := |Finish(B, r).timeline| - |r.timeline|;
      if |s.engine.active| >= B {
        Makespan(B, r, longest);
        FullTick(B, rows, Work(r), longest);
        assert |Finish(B, s).timeline| - |s.timeline| == rows + 1;
      } else {
        Makespan(B, r, longest - 1);
        ShortTick(B, rows, Work(r), longest, |s.engine.active|);
        assert |Finish(B, s).timeline| - |s.timeline| == rows + 1;
      }
    }
  }

  lemma FullTick(B: nat, rows: int, work: int, longest: nat)
    requires B * rows <= work + (B - 1) * longest
    ensures B * (rows + 1) <= work + B + (B - 1) * longest
  {
    Distribute(B, rows, 1);
  }

  lemma ShortTick(B: nat, rows: int, work: int, longest: nat, served: nat)
    requires longest >= 1 && served >= 1 && B * rows <= work + (B - 1) * (longest - 1)
    ensures B * (rows + 1) <= work + served + (B - 1) * longest
  {
    Distribute(B, rows, 1);
    Distribute(B - 1, longest - 1, 1);
  }

  lemma StepLeft(B: nat, s: State, longest: nat)
    requires StateInv(s) && B >= 1 && s.pending == [] && s.engine.active != []
    requires forall i :: 0 <= i < |s.engine.active| ==> Left(s.engine.table, s.engine.active[i]) <= longest
    ensures longest >= 1 && Step(B, s).pending == []
    ensures var r := Step(B, s).engine;
            forall i :: 0 <= i < |r.active| ==>
              Left(r.table, r.active[i]) <= if |s.engine.active| < B then longest - 1 else longest
  {
    assert Left(s.engine.table, s.engine.active[0]) >= 1 by { ActiveFacts(s.engine, 0); }
    var r := Step(B, s).engine;
    forall i | 0 <= i < |r.active|
      ensures Left(r.table, r.active[i]) <= if |s.engine.active| < B then longest - 1 else longest
    {
      LeftShrinks(B, s, r.active[i]);
      var j :| 0 <= j < |s.engine.active| && s.engine.active[j] == r.active[i];
      assert Left(s.engine.table, s.engine.active[j]) <= longest;
    }
  }

  lemma LeftShrinks(B: nat, s: State, id: string)
    requires StateInv(s) && B >= 1 && s.pending == [] && id in Step(B, s).engine.active
    ensures id in s.engine.active
    ensures Left(Step(B, s).engine.table, id)
         <= if |s.engine.active| < B then Left(s.engine.table, id) - 1 else Left(s.engine.table, id)
  {
    assert Admit(s) == s;
    assert id in s.engine.table by {
      var k :| 0 <= k < |Step(B, s).engine.active| && Step(B, s).engine.active[k] == id;
      ActiveFacts(Step(B, s).engine, k);
    }
    StepArrived(B, s, id);
    var i :| 0 <= i < |s.engine.active| && s.engine.active[i] == id;
    StepPosition(B, s, i);
    ActiveFacts(s.engine, i);
    hide Step, StateInv, EngineInv;
  }
}
