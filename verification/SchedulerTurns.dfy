/** Strict alternation: no active request is served twice before another active one is served once. */
module SchedulerTurns {
  import opened Arithmetic
  import opened Sorting
  import opened Scheduler
  import opened SchedulerBatches
  import opened SchedulerHistory
  import opened SchedulerFairness

  /** Whether an odd number of these services went to x or y, so that it is now y's turn. */
  ghost predicate Swapped(events: seq<Event>, x: string, y: string) {
    events != []
    && var n := |events| - 1;
       if events[n].id == x || events[n].id == y then !Swapped(events[..n], x, y) else Swapped(events[..n], x, y)
  }

  /** Among these services, x and y strictly alternate, x first. */
  ghost predicate StrictTurns(events: seq<Event>, x: string, y: string) {
    events == []
    || (var n := |events| - 1;
        && StrictTurns(events[..n], x, y)
        && (events[n].id == x ==> !Swapped(events[..n], x, y))
        && (events[n].id == y ==> Swapped(events[..n], x, y)))
  }

  /** The turns so far have been strict and the queue holds x and y in the order of their next turns. */
  ghost predicate InTurn(q: seq<string>, events: seq<Event>, x: string, y: string) {
    && StrictTurns(events, x, y)
    && if Swapped(events, x, y) then Before(q, y, x) else Before(q, x, y)
  }

  /** Strict turns keep the two progress counts within one of each other. */
  lemma {:induction false} TurnsBalance(events: seq<Event>, x: string, y: string)
    requires x != y && StrictTurns(events, x, y)
    ensures |Project(events, x)| - |Project(events, y)| == if Swapped(events, x, y) then 1 else 0
  {
    if events != [] {
      TurnsBalance(events[..|events| - 1], x, y);
    }
  }

  lemma BeforeAppend(q: seq<string>, t: seq<string>, x: string, y: string)
    requires Before(q, x, y) && q <= t
    ensures Before(t, x, y)
  {
    var i, j :| 0 <= i < j < |q| && q[i] == x && q[j] == y;
    assert t[i] == x && t[j] == y;
  }

  /** Rotating the queue keeps the order of two requests, or swaps it when the first one is moved. */
  lemma BeforeRotate(q: seq<string>, t: seq<string>, x: string, y: string)
    requires NoDup(q) && Before(q, x, y) && q != [] && x in t && y in t
    requires t == q[1..] || t == q[1..] + [q[0]]
    ensures q[0] != y
    ensures if q[0] == x then Before(t, y, x) else Before(t, x, y)
  {
    var i, j :| 0 <= i < j < |q| && q[i] == x && q[j] == y;
    assert t[j - 1] == y;
    if i == 0 {
      assert t[|q| - 1] == x;
    } else {
      assert t[i - 1] == x;
    }
  }

  lemma ServeOneTurns(e: Engine, events: seq<Event>, x: string, y: string)
    requires EngineInv(e) && e.active != [] && InTurn(e.active, events, x, y)
    requires x in ServeOne(e).active && y in ServeOne(e).active
    ensures InTurn(ServeOne(e).active, events + [NextEvent(e)], x, y)
  {
    var evs := events + [NextEvent(e)];
    assert evs[..|events|] == events;
    hide EngineInv, NoDup;
    var q, t := e.active, ServeOne(e).active;
    assert NoDup(q) by { ActiveFacts(e, 0); }
    if Swapped(events, x, y) {
      BeforeRotate(q, t, y, x);
    } else {
      BeforeRotate(q, t, x, y);
    }
  }

  lemma ServeOneStillActive(e: Engine, id: string)
    requires EngineInv(e) && id in e.table && id in ServeOne(e).active
    ensures id in e.active
  {
    if id !in e.active {
      ServeOneFrame(e, id);
    }
  }

  lemma {:induction false} ServeManyTurns(e: Engine, k: nat, base: nat, x: string, y: string)
    requires EngineInv(e) && k <= |e.active| && base <= |e.log|
    requires x in e.table && y in e.table
    requires InTurn(e.active, e.log[base..], x, y)
    requires x in ServeMany(e, k).active && y in ServeMany(e, k).active
    ensures InTurn(ServeMany(e, k).active, ServeMany(e, k).log[base..], x, y)
  {
    hide ServeOne, InTurn, EngineInv;
    if k > 0 {
      var m := ServeMany(e, k - 1);
      ServeOneStillActive(m, x);
      ServeOneStillActive(m, y);
      ServeManyTurns(e, k - 1, base, x, y);
      assert m.active != [];
      ServeOneTurns(m, m.log[base..], x, y);
      assert ServeOne(m).log[base..] == m.log[base..] + [NextEvent(m)];
    }
  }

  // ----- across ticks

  lemma {:induction false} AdmitFresh(s: State, id: string)
    requires StateInv(s) && id in s.engine.table
    requires forall i :: 0 <= i < |s.pending| ==> s.pending[i].id != id
    ensures forall i :: 0 <= i < |Admit(s).pending| ==> Admit(s).pending[i].id != id
    ensures id in Admit(s).engine.active <==> id in s.engine.active
    decreases |s.pending|
  {
    if s.pending != [] && s.pending[0].arrival <= s.tick {
      AdmitFresh(AdmitOne(s), id);
    }
  }

  /** A request that is no longer to come. */
  ghost predicate Arrived(s: State, id: string) {
    id in s.engine.table && forall i :: 0 <= i < |s.pending| ==> s.pending[i].id != id
  }

  lemma StepArrived(B: nat, s: State, id: string)
    requires StateInv(s) && Arrived(s, id)
    ensures Arrived(Step(B, s), id)
    ensures id in Step(B, s).engine.active ==> id in Admit(s).engine.active && id in s.engine.active
  {
    AdmitFresh(s, id);
    hide EngineInv;
    var a := Admit(s);
    if id !in a.engine.active {
      ServeManyFrame(a.engine, Min(B, |a.engine.active|), id);
    }
  }

  lemma StepTurns(B: nat, s: State, base: nat, x: string, y: string)
    requires StateInv(s) && B >= 1 && base <= |s.engine.log| && Arrived(s, x) && Arrived(s, y)
    requires InTurn(s.engine.active, s.engine.log[base..], x, y)
    requires x in Step(B, s).engine.active && y in Step(B, s).engine.active
    ensures |s.engine.log| <= |Step(B, s).engine.log|
    ensures InTurn(Step(B, s).engine.active, Step(B, s).engine.log[base..], x, y)
  {
    StepArrived(B, s, x);
    AdmitAppends(s);
    var a := Admit(s);
    hide EngineInv, RowOf, StrictTurns, Swapped;
    if Swapped(s.engine.log[base..], x, y) {
      BeforeAppend(s.engine.active, a.engine.active, y, x);
    } else {
      BeforeAppend(s.engine.active, a.engine.active, x, y);
    }
    assert InTurn(a.engine.active, a.engine.log[base..], x, y);
    ServeManyTurns(a.engine, Min(B, |a.engine.active|), base, x, y);
  }

  /** Over any stretch of the run in which x and y stay active, their services strictly alternate. */
  lemma {:induction false} TakeTurns(B: nat, s: State, n: nat, x: string, y: string)
    requires StateInv(s) && B >= 1 && Before(s.engine.active, x, y)
    requires x in Iterate(B, s, n).engine.active && y in Iterate(B, s, n).engine.active
    ensures |s.engine.log| <= |Iterate(B, s, n).engine.log|
    ensures InTurn(Iterate(B, s, n).engine.active, Iterate(B, s, n).engine.log[|s.engine.log|..], x, y)
    ensures Arrived(Iterate(B, s, n), x) && Arrived(Iterate(B, s, n), y)
  {
    if n == 0 {
      hide Step;
      BothArrived(s, x, y);
      assert s.engine.log[|s.engine.log|..] == [];
    } else {
      hide Step, StateInv, InTurn, Before, Arrived;
      IterateArrived(B, s, n - 1, x, y);
      var m := Iterate(B, s, n - 1);
      StepArrived(B, m, x);
      StepArrived(B, m, y);
      TakeTurns(B, s, n - 1, x, y);
      StepTurns(B, m, |s.engine.log|, x, y);
    }
  }

  lemma BothArrived(s: State, x: string, y: string)
    requires StateInv(s) && Before(s.engine.active, x, y)
    ensures Arrived(s, x) && Arrived(s, y) && x != y
  {
    var i, j :| 0 <= i < j < |s.engine.active| && s.engine.active[i] == x && s.engine.active[j] == y;
    ActiveFacts(s.engine, i);
    ActiveFacts(s.engine, j);
    forall k | 0 <= k < |s.pending| ensures s.pending[k].id != x && s.pending[k].id != y {
      assert PendingOk(s.pending[k], s.engine, s.tick);
    }
  }

  lemma {:induction false} IterateArrived(B: nat, s: State, n: nat, x: string, y: string)
    requires StateInv(s) && Before(s.engine.active, x, y)
    ensures Arrived(Iterate(B, s, n), x) && Arrived(Iterate(B, s, n), y)
  {
    hide Step, StateInv, Before, Arrived;
    if n == 0 {
      BothArrived(s, x, y);
    } else {
      IterateArrived(B, s, n - 1, x, y);
      StepArrived(B, Iterate(B, s, n - 1), x);
      StepArrived(B, Iterate(B, s, n - 1), y);
    }
  }

  lemma {:induction false} ProjectSplit(a: seq<Event>, b: seq<Event>, id: string)
    ensures Project(a + b, id) == Project(a, id) + Project(b, id)
  {
    if b == [] {
      assert a + b == a;
    } else {
      hide Project;
      var n := |b| - 1;
      ProjectSplit(a, b[..n], id);
      assert a + b == (a + b[..n]) + [b[n]] && b == b[..n] + [b[n]];
      ProjectAppend(a + b[..n], b[n], id);
      ProjectAppend(b[..n], b[n], id);
    }
  }

  lemma BalancedProgress(e: Engine, r: Engine, events: seq<Event>, x: string, y: string)
    requires EngineInv(e) && EngineInv(r) && Deinterleaves(e) && Deinterleaves(r)
    requires r.log == e.log + events && x != y && StrictTurns(events, x, y)
    requires x in e.table && y in e.table && x in r.table && y in r.table
    ensures 0 <= (r.table[x].position - e.table[x].position) - (r.table[y].position - e.table[y].position) <= 1
  {
    hide EngineInv, Project, StrictTurns, Swapped;
    TurnsBalance(events, x, y);
    ProjectSplit(e.log, events, x);
    ProjectSplit(e.log, events, y);
  }

  /** ... and so the progress the two make over that stretch differs by at most one token. */
  lemma ProgressWithinOne(B: nat, s: State, n: nat, x: string, y: string)
    requires StateInv(s) && B >= 1 && TimelineInv(B, s) && Deinterleaves(s.engine) && Before(s.engine.active, x, y)
    requires x in Iterate(B, s, n).engine.active && y in Iterate(B, s, n).engine.active
    ensures var t := Iterate(B, s, n).engine.table;
            && x in t && y in t && x in s.engine.table && y in s.engine.table
            && 0 <= (t[x].position - s.engine.table[x].position)
                  - (t[y].position - s.engine.table[y].position) <= 1
  {
    hide EngineInv, Iterate, TimelineInv, Deinterleaves, StrictTurns, Swapped, Before;
    TakeTurns(B, s, n, x, y);
    BothArrived(s, x, y);
    IterateHistory(B, s, n);
    IterateLog(B, s, n);
    var r := Iterate(B, s, n).engine;
    BalancedProgress(s.engine, r, r.log[|s.engine.log|..], x, y);
  }

  lemma StepLog(B: nat, s: State)
    requires StateInv(s)
    ensures s.engine.log <= Step(B, s).engine.log
  {
    hide EngineInv, RowOf, ServeMany;
  }

  /** The log only grows. */
  lemma {:induction false} IterateLog(B: nat, s: State, n: nat)
    requires StateInv(s)
    ensures s.engine.log <= Iterate(B, s, n).engine.log
  {
    hide Step, StateInv;
    if n > 0 {
      IterateLog(B, s, n - 1);
      StepLog(B, Iterate(B, s, n - 1));
    }
  }
}
