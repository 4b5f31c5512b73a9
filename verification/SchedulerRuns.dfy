/**
 Whole runs of the scheduler: the loop ends, and the tokens decoded and the tokens left always add up
 to the same number.
 */
module SchedulerRuns {
  import opened Arithmetic
  import opened Scheduler

  // ----- tokens left to decode

  function Left(table: map<string, Slot>, id: string): (n: nat) {
    if Unfinished(table, id) then |table[id].request.target| - table[id].position else 0
  }

  function Remaining(ids: seq<string>, table: map<string, Slot>): (n: nat) {
    if ids == [] then 0 else Left(table, ids[0]) + Remaining(ids[1..], table)
  }

  function TargetTokens(requests: seq<Request>): (n: nat) {
    if requests == [] then 0 else |requests[0].target| + TargetTokens(requests[1..])
  }

  function Work(s: State): (n: nat) {
    Remaining(s.engine.active, s.engine.table) + TargetTokens(s.pending)
  }

  lemma {:induction false} RemainingAppend(ids: seq<string>, id: string, table: map<string, Slot>)
    ensures Remaining(ids + [id], table) == Remaining(ids, table) + Left(table, id)
  {
    if ids == [] {
      assert ([] + [id])[1..] == [];
    } else {
      assert (ids + [id])[1..] == ids[1..] + [id];
      RemainingAppend(ids[1..], id, table);
    }
  }

  lemma {:induction false} RemainingFrame(ids: seq<string>, table: map<string, Slot>, id: string, slot: Slot)
    requires id !in ids
    ensures Remaining(ids, table[id := slot]) == Remaining(ids, table)
  {
    if ids != [] {
      assert ids[0] in ids;
      RemainingFrame(ids[1..], table, id, slot);
    }
  }

  lemma {:induction false} RemainingAtLeast(ids: seq<string>, table: map<string, Slot>)
    requires forall i :: 0 <= i < |ids| ==> Unfinished(table, ids[i])
    ensures Remaining(ids, table) >= |ids|
  {
    if ids != [] {
      RemainingAtLeast(ids[1..], table);
    }
  }

  /** One service uses up exactly one token of the remaining work. */
  lemma ServeOneWork(e: Engine)
    requires EngineInv(e) && e.active != []
    ensures Remaining(ServeOne(e).active, ServeOne(e).table) == Remaining(e.active, e.table) - 1
  {
    var id, rest := e.active[0], e.active[1..];
    var slot := Advance(e.table[id]);
    RemainingFrame(rest, e.table, id, slot);
    RemainingAppend(rest, id, e.table[id := slot]);
  }

  lemma RemainingOfNone(table: map<string, Slot>)
    ensures Remaining([], table) == 0
  {
  }

  lemma {:induction false} ServeManyWork(e: Engine, n: nat)
    requires EngineInv(e) && n <= Remaining(e.active, e.table)
    ensures var r := ServeMany(e, n);
            && |r.log| == |e.log| + n
            && Remaining(r.active, r.table) == Remaining(e.active, e.table) - n
  {
    hide *;
    ServeManyUnfold(e, n);
    if n > 0 {
      ServeManyWork(e, n - 1);
      var m := ServeMany(e, n - 1);
      RemainingOfNone(m.table);
      ServeOneWork(m);
    }
  }

  lemma AdmitOneWork(s: State)
    requires StateInv(s) && s.pending != []
    ensures Work(AdmitOne(s)) == Work(s)
  {
    assert PendingOk(s.pending[0], s.engine, s.tick);
    RemainingAppend(s.engine.active, s.pending[0].id, s.engine.table);
  }

  lemma {:induction false} AdmitWork(s: State)
    requires StateInv(s)
    ensures Work(Admit(s)) == Work(s)
    ensures |Admit(s).pending| <= |s.pending|
    ensures |Admit(s).pending| == |s.pending| ==> Admit(s) == s
    decreases |s.pending|
  {
    if s.pending != [] && s.pending[0].arrival <= s.tick {
      AdmitOneWork(s);
      AdmitWork(AdmitOne(s));
    }
  }

  /** A decode tick decodes exactly min(B, active) tokens. */
  lemma ServeWork(B: nat, s: State)
    requires StateInv(s)
    requires forall i :: 0 <= i < |s.pending| ==> s.pending[i].arrival > s.tick
    ensures |Serve(B, s).engine.log| == |s.engine.log| + Min(B, |s.engine.active|)
    ensures Work(Serve(B, s)) == Work(s) - Min(B, |s.engine.active|)
  {
    RemainingAtLeast(s.engine.active, s.engine.table);
    ServeManyWork(s.engine, Min(B, |s.engine.active|));
  }

  /** No token is lost or decoded twice: what is decoded and what is left always add up. */
  lemma StepConservesTokens(B: nat, s: State)
    requires StateInv(s)
    ensures |Step(B, s).engine.log| + Work(Step(B, s)) == |s.engine.log| + Work(s)
  {
    hide Work, StateInv, Serve;
    AdmitWork(s);
    JumpWork(Admit(s));
    if Admit(s).engine.active != [] {
      ServeWork(B, Admit(s));
    }
  }

  /** Moving the clock alone leaves the work as it is. */
  lemma JumpWork(s: State)
    ensures forall t :: Work(s.(tick := t)) == Work(s)
  {
  }

  // ----- termination

  ghost function Rank(s: State): (n: nat) { Work(s) + |s.pending| }

  ghost function Distance(s: State): (n: nat) {
    if s.pending == [] then 0 else Max(0, s.pending[0].arrival - s.tick)
  }

  /** Every iteration decodes a token, admits a request, or reaches the next arrival. */
  lemma StepProgress(B: nat, s: State)
    requires StateInv(s) && B >= 1 && !Done(s)
    ensures Rank(Step(B, s)) < Rank(s) || (Rank(Step(B, s)) == Rank(s) && Distance(Step(B, s)) < Distance(s))
  {
    var a := Admit(s);
    AdmitWork(s);
    if a.engine.active != [] {
      ServeWork(B, a);
    }
  }

  /** The state in which the scheduling loop stops. */
  function Finish(B: nat, s: State): (r: State)
    requires StateInv(s) && B >= 1
    ensures StateInv(r) && Done(r)
    decreases Rank(s), Distance(s)
  {
    if Done(s) then s
    else
      StepProgress(B, s);
      Finish(B, Step(B, s))
  }

  /** The number of iterations the loop makes. */
  ghost function Length(B: nat, s: State): (n: nat)
    requires StateInv(s) && B >= 1
    decreases Rank(s), Distance(s)
  {
    if Done(s) then 0
    else
      StepProgress(B, s);
      1 + Length(B, Step(B, s))
  }

  lemma {:induction false} IterateSplit(B: nat, s: State, m: nat, n: nat)
    requires StateInv(s)
    ensures Iterate(B, s, m + n) == Iterate(B, Iterate(B, s, m), n)
  {
    hide Step;
    if n > 0 {
      IterateSplit(B, s, m, n - 1);
      assert m + n - 1 == m + (n - 1);
    }
  }

  lemma IterateFirst(B: nat, s: State, n: nat)
    requires StateInv(s) && n >= 1
    ensures Iterate(B, s, n) == Iterate(B, Step(B, s), n - 1)
  {
    hide Step;
    IterateSplit(B, s, 1, n - 1);
    assert Iterate(B, s, 1) == Step(B, Iterate(B, s, 0));
  }

  lemma IterateOne(B: nat, s: State)
    requires StateInv(s)
    ensures Iterate(B, s, 1) == Step(B, s)
  {
    hide Step, StateInv;
    assert Iterate(B, s, 1) == Step(B, Iterate(B, s, 0));
  }

  /** The loop stops after finitely many iterations, in state Finish. */
  lemma {:induction false} FinishIsIterate(B: nat, s: State)
    requires StateInv(s) && B >= 1
    ensures Finish(B, s) == Iterate(B, s, Length(B, s))
    decreases Rank(s), Distance(s)
  {
    hide Step;
    if !Done(s) {
      StepProgress(B, s);
      FinishIsIterate(B, Step(B, s));
      IterateFirst(B, s, Length(B, s));
    }
  }

  lemma {:induction false} FinishConservesTokens(B: nat, s: State)
    requires StateInv(s) && B >= 1
    ensures |Finish(B, s).engine.log| == |s.engine.log| + Work(s)
    decreases Rank(s), Distance(s)
  {
    hide Step;
    if !Done(s) {
      StepProgress(B, s);
      StepConservesTokens(B, s);
      FinishConservesTokens(B, Step(B, s));
    }
  }
}
