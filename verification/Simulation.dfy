/**
 `simulate_continuous_decode`, loop by loop, proved against the state machine of module Scheduler,
 and what that machine's run lemmas say of whole simulations.
 */
module Simulation {
  import opened Arithmetic
  import opened Sorting
  import opened Scheduler
  import opened SchedulerRuns
  import opened SchedulerBatches
  import opened SchedulerHistory
  import opened SchedulerBounds
  import opened SchedulerTogether
  import opened SchedulerTurns
  import opened Options
  import Duplicates

  datatype Failure = BatchSizeNotPositive | DuplicateRequestId(id: string)

  datatype Report = Report(
    passed: bool,
    requestCount: nat,
    maxBatchSize: nat,
    totalDecodeBatches: nat,
    serialDecodeBatches: nat,
    timeline: seq<Row>,
    outputs: map<string, seq<int>>,
    expected: map<string, seq<int>>,
    completed: seq<string>)

  /** Finds an id used by two requests, if there is one. */
  method ValidateRequests(requests: seq<Request>) returns (dup: Option<string>)
    ensures dup.None? <==> UniqueIds(requests)
    ensures dup.Some? ==>
      exists i, j :: 0 <= i < j < |requests| && requests[i].id == requests[j].id == dup.value
  {
    var ids := seq(|requests|, i requires 0 <= i < |requests| => requests[i].id);
    dup := Duplicates.FindDuplicate(ids);
    if UniqueIds(requests) {
      assert NoDup(ids);
    } else {
      var i, j :| 0 <= i < j < |requests| && requests[i].id == requests[j].id;
      assert ids[i] == ids[j];
    }
  }

  /** The mirror set that the queue operations keep next to the active queue. */
  ghost predicate Mirrors(activeSet: set<string>, active: seq<string>) {
    activeSet == set x | x in active
  }

  /** Admits every request whose arrival tick has come. */
  method AdmitArrivals(pending: seq<Request>, active: seq<string>, activeSet: set<string>, completed: seq<string>,
                       tick: int, ghost s: State)
    returns (pending': seq<Request>, active': seq<string>, activeSet': set<string>, completed': seq<string>)
    requires StateInv(s) && Mirrors(activeSet, active) && s.tick == tick
    requires s.pending == pending && s.engine.active == active && s.engine.completed == completed
    ensures var a := Admit(s);
            pending' == a.pending && active' == a.engine.active && completed' == a.engine.completed
    ensures Mirrors(activeSet', active')
  {
    pending', active', activeSet', completed' := pending, active, activeSet, completed;
    ghost var t := s;
    while pending' != [] && pending'[0].arrival <= tick
      invariant StateInv(t) && Admit(t) == Admit(s) && t.tick == tick
      invariant t.pending == pending' && t.engine.active == active' && t.engine.completed == completed'
      invariant Mirrors(activeSet', active')
      decreases |pending'|
    {
      var request := pending'[0];
      pending' := pending'[1..];
      if |request.target| == 0 {
        completed' := completed' + [request.id];
      } else {
        active' := active' + [request.id];
        activeSet' := activeSet' + {request.id};
      }
      t := AdmitOne(t);
    }
  }

  /** Pops at most maxBatch ids from the front of the queue. */
  method PopBatch(active: seq<string>, activeSet: set<string>, maxBatch: nat)
    returns (batch: seq<string>, active': seq<string>, activeSet': set<string>)
    requires NoDup(active) && Mirrors(activeSet, active)
    ensures batch == active[..Min(maxBatch, |active|)] && active' == active[Min(maxBatch, |active|)..]
    ensures Mirrors(activeSet', active')
  {
    batch, active', activeSet' := [], active, activeSet;
    var n := 0;
    while n < maxBatch && active' != []
      invariant n <= maxBatch && n <= |active|
      invariant batch == active[..n] && active' == active[n..]
      invariant Mirrors(activeSet', active')
    {
      var id := active'[0];
      assert id == active[n] && id !in active[n + 1..];
      assert active' == [id] + active[n + 1..];
      active' := active'[1..];
      assert id in activeSet';
      activeSet' := activeSet' - {id};
      batch := batch + [id];
      n := n + 1;
    }
  }

  lemma RowAppend(tick: int, events: seq<Event>, ev: Event)
    ensures var row, next := RowOf(tick, events), RowOf(tick, events + [ev]);
            && next.ids == row.ids + [ev.id] && next.positions == row.positions + [ev.position]
            && next.inputs == row.inputs + [ev.input] && next.outputs == row.outputs + [ev.output]
            && next.finished == row.finished + (if ev.last then [ev.id] else [])
            && next.tick == row.tick == tick
  {
    BatchIdsAppend(events, ev);
  }

  /** The j-th service of a batch goes to the j-th request of the queue. */
  lemma BatchNext(e: Engine, j: nat)
    requires EngineInv(e) && j < |e.active|
    ensures var m := ServeMany(e, j);
            && m.active != [] && m.active[0] == e.active[j]
            && BatchEvents(e, j + 1) == BatchEvents(e, j) + [NextEvent(m)]
  {
    hide ServeOne, EngineInv;
    SerialIsParallel(e, j);
    ParallelHead(e, BatchEvents(e, j), ServeMany(e, j));
    var m := ServeMany(e, j);
    assert ServeMany(e, j + 1).log == m.log + [NextEvent(m)];
  }

  /** One more service of the batch, as the loop below computes it. */
  lemma DecodeStep(e: Engine, j: nat)
    requires EngineInv(e) && j < |e.active|
    ensures var m, next := ServeMany(e, j), ServeMany(e, j + 1);
            var id := e.active[j];
            && Unfinished(m.table, id) && SlotOk(id, m.table[id])
            && var ev := EventOf(id, m.table[id]);
            && next.table == m.table[id := Advance(m.table[id])]
            && next.completed == m.completed + (if ev.last then [id] else [])
            && BatchEvents(e, j + 1) == BatchEvents(e, j) + [ev]
  {
    hide EngineInv;
    BatchNext(e, j);
    ActiveFacts(ServeMany(e, j), 0);
  }

  /** Decodes the next token of one request from its record. */
  method DecodeOne(id: string, slot: Slot) returns (position: int, input: int, output: int, slot': Slot, last: bool)
    requires SlotOk(id, slot) && slot.position < |slot.request.target|
    ensures Event(id, position, input, output, last) == EventOf(id, slot) && slot' == Advance(slot)
  {
    var request := slot.request;
    position := slot.position;
    var generated := slot.generated;
    input := if position == 0 then request.prompt[|request.prompt| - 1] else generated[|generated| - 1];
    output := request.target[position];
    generated := generated + [output];
    slot' := Slot(request, position + 1, generated);
    last := position + 1 >= |request.target|;
  }

  /** What the decoding loop holds after serving the first j requests of the queue. */
  ghost predicate Decoded(e: Engine, j: nat, table: map<string, Slot>, completed: seq<string>, row: Row,
                          requeue: seq<string>)
    requires EngineInv(e)
  {
    && table == ServeMany(e, j).table && completed == ServeMany(e, j).completed
    && row == RowOf(0, BatchEvents(e, j))
    && requeue == RequeuedIds(BatchEvents(e, j))
  }

  lemma DecodedStart(e: Engine)
    requires EngineInv(e)
    ensures Decoded(e, 0, e.table, e.completed, Row(0, [], [], [], [], []), [])
  {
    assert BatchEvents(e, 0) == [];
  }

  lemma DecodedStep(e: Engine, j: nat, table: map<string, Slot>, completed: seq<string>, row: Row,
                    requeue: seq<string>)
    requires EngineInv(e) && j < |e.active| && Decoded(e, j, table, completed, row, requeue)
    ensures var id := e.active[j];
            && id in table && SlotOk(id, table[id]) && table[id].position < |table[id].request.target|
            && var ev := EventOf(id, table[id]);
               var ends := if ev.last then [id] else [];
            && Decoded(e, j + 1, table[id := Advance(table[id])], completed + ends,
                       Row(0, row.ids + [id], row.positions + [ev.position], row.inputs + [ev.input],
                           row.outputs + [ev.output], row.finished + ends),
                       requeue + (if ev.last then [] else [id]))
  {
    hide EngineInv, BatchEvents, ServeMany, RowOf, RequeuedIds;
    DecodeStep(e, j);
    var ev := EventOf(e.active[j], table[e.active[j]]);
    RowAppend(0, BatchEvents(e, j), ev);
    BatchIdsAppend(BatchEvents(e, j), ev);
  }

  /** Decodes one token for each request of the batch and sorts the batch into finished and requeued. */
  method DecodeBatch(batch: seq<string>, table: map<string, Slot>, completed: seq<string>, ghost e: Engine)
    returns (table': map<string, Slot>, completed': seq<string>, positions: seq<int>, inputs: seq<int>,
             outputs: seq<int>, finished: seq<string>, requeue: seq<string>)
    requires EngineInv(e) && batch <= e.active && table == e.table && completed == e.completed
    ensures Decoded(e, |batch|, table', completed', Row(0, batch, positions, inputs, outputs, finished), requeue)
  {
    hide *;
    table', completed', positions, inputs, outputs, finished, requeue := table, completed, [], [], [], [], [];
    DecodedStart(e);
    assert batch[..0] == [];
    for j := 0 to |batch|
      invariant Decoded(e, j, table', completed', Row(0, batch[..j], positions, inputs, outputs, finished), requeue)
    {
      DecodedStep(e, j, table', completed', Row(0, batch[..j], positions, inputs, outputs, finished), requeue);
      var id := batch[j];
      var position, input, output, slot, last := DecodeOne(id, table'[id]);
      positions := positions + [position];
      inputs := inputs + [input];
      outputs := outputs + [output];
      table' := table'[id := slot];
      if last {
        finished := finished + [id];
        completed' := completed' + [id];
        assert requeue + [] == requeue;
      } else {
        requeue := requeue + [id];
        assert finished + [] == finished && completed' + [] == completed';
      }
      assert batch[..j + 1] == batch[..j] + [id];
    }
    assert batch[..|batch|] == batch;
  }

  /** Puts the unfinished part of the batch back, skipping any id that is already queued. */
  method Requeue(active: seq<string>, activeSet: set<string>, requeue: seq<string>)
    returns (active': seq<string>, activeSet': set<string>)
    requires Mirrors(activeSet, active) && NoDup(active + requeue)
    ensures active' == active + requeue && Mirrors(activeSet', active')
  {
    active', activeSet' := active, activeSet;
    for n := 0 to |requeue|
      invariant active' == active + requeue[..n]
      invariant Mirrors(activeSet', active')
    {
      var id := requeue[n];
      assert (active + requeue)[|active| + n] == id;
      assert active' == (active + requeue)[..|active| + n];
      assert id !in active';
      if id !in activeSet' {
        active' := active' + [id];
        activeSet' := activeSet' + {id};
      }
      assert requeue[..n + 1] == requeue[..n] + [id];
    }
  }

  /** The scheduling loop, from the sorted queue to the last completion. */
  method RunLoop(requests: seq<Request>, maxBatch: nat)
    returns (table: map<string, Slot>, completed: seq<string>, timeline: seq<Row>)
    requires UniqueIds(requests) && maxBatch >= 1
    ensures var f := Finish(maxBatch, Init(requests));
            table == f.engine.table && completed == f.engine.completed && timeline == f.timeline
  {
    hide Finish, StateInv, EngineInv, Step, Rank, Distance, Admit, ServeMany;
    var pending := SortBy(requests, ArrivesBy);
    table := TableOf(requests);
    var active: seq<string>, activeSet: set<string> := [], {};
    completed, timeline := [], [];
    var tick := if pending != [] then pending[0].arrival else 0;
    ghost var s := Init(requests);
    while pending != [] || active != []
      invariant StateInv(s) && Finish(maxBatch, s) == Finish(maxBatch, Init(requests))
      invariant s.pending == pending && s.timeline == timeline && s.tick == tick
      invariant s.engine.active == active && s.engine.table == table && s.engine.completed == completed
      invariant Mirrors(activeSet, active)
      decreases Rank(s), Distance(s)
    {
      StepProgress(maxBatch, s);
      FinishUnfold(maxBatch, s);
      ghost var a := Admit(s);
      pending, active, activeSet, completed := AdmitArrivals(pending, active, activeSet, completed, tick, s);
      StepCases(maxBatch, s);
      if active == [] {
        if pending != [] {
          tick := Max(tick + 1, pending[0].arrival);
        }
      } else {
        var batch: seq<string>;
        ActiveFacts(a.engine, 0);
        batch, active, activeSet := PopBatch(active, activeSet, maxBatch);
        var positions, inputs, outputs, finished, requeue;
        table, completed, positions, inputs, outputs, finished, requeue :=
          DecodeBatch(batch, table, completed, a.engine);
        active, activeSet := Requeue(active, activeSet, requeue);
        timeline := timeline + [Row(tick, batch, positions, inputs, outputs, finished)];
        tick := tick + 1;
      }
      s := Step(maxBatch, s);
    }
    FinishUnfold(maxBatch, s);
  }

  lemma FinishUnfold(B: nat, s: State)
    requires StateInv(s) && B >= 1
    ensures Finish(B, s) == if Done(s) then s else Finish(B, Step(B, s))
  {
    hide StateInv, Step;
  }

  /** An iteration of the loop in the terms in which the loop computes it. */
  lemma StepCases(B: nat, s: State)
    requires StateInv(s) && B >= 1
    ensures EngineInv(Admit(s).engine)
    ensures var a, r := Admit(s), Step(B, s);
            var k := Min(B, |a.engine.active|);
            var events := BatchEvents(a.engine, k);
            if a.engine.active == [] then
              r == if a.pending == [] then a else a.(tick := Max(s.tick + 1, a.pending[0].arrival))
            else
              && r.pending == a.pending && r.tick == s.tick + 1
              && r.timeline == s.timeline + [RowOf(0, events).(tick := s.tick)]
              && r.engine.active == a.engine.active[k..] + RequeuedIds(events)
              && NoDup(a.engine.active[k..] + RequeuedIds(events))
              && r.engine.table == ServeMany(a.engine, k).table
              && r.engine.completed == ServeMany(a.engine, k).completed
  {
    hide EngineInv, ServeMany, RequeuedIds;
    StateEngine(Admit(s));
    BatchQueue(Admit(s).engine, Min(B, |Admit(s).engine.active|));
  }

  /** After a batch the queue is what was behind it, then the unfinished part of the batch. */
  lemma BatchQueue(e: Engine, k: nat)
    requires EngineInv(e) && k <= |e.active|
    ensures ServeMany(e, k).active == e.active[k..] + RequeuedIds(BatchEvents(e, k))
    ensures NoDup(ServeMany(e, k).active)
  {
    hide ServeMany, RequeuedIds, FinishedIds, EngineInv;
    SerialIsParallel(e, k);
    EngineNoDup(ServeMany(e, k));
  }

  lemma EngineNoDup(e: Engine)
    requires EngineInv(e)
    ensures NoDup(e.active)
  {
  }

  // ----- what the whole run delivers

  lemma {:induction false} IdsOfInsert(x: Request, s: seq<Request>)
    ensures multiset(IdsOf(Insert(x, s, ArrivesBy))) == multiset{x.id} + multiset(IdsOf(s))
  {
    if s != [] && !ArrivesBy(x, s[0]) {
      var t := Insert(x, s[1..], ArrivesBy);
      IdsOfInsert(x, s[1..]);
      assert IdsOf([s[0]] + t) == [s[0].id] + IdsOf(t);
      assert IdsOf(s) == [s[0].id] + IdsOf(s[1..]);
    } else {
      assert IdsOf([x] + s) == [x.id] + IdsOf(s);
    }
  }

  lemma IdsOfFirst(s: seq<Request>)
    requires s != []
    ensures IdsOf(s) == [s[0].id] + IdsOf(s[1..])
  {
  }

  lemma {:induction false} IdsOfSort(s: seq<Request>)
    ensures multiset(IdsOf(SortBy(s, ArrivesBy))) == multiset(IdsOf(s))
  {
    hide Insert, IdsOf;
    if s == [] {
      assert SortBy(s, ArrivesBy) == s;
    } else {
      IdsOfSort(s[1..]);
      IdsOfInsert(s[0], SortBy(s[1..], ArrivesBy));
      IdsOfFirst(s);
    }
  }

  lemma InitHistory(requests: seq<Request>, B: nat)
    requires UniqueIds(requests)
    ensures var s := Init(requests);
            && TimelineInv(B, s) && Deinterleaves(s.engine)
            && Everyone(s) == multiset(IdsOf(requests))
            && forall r :: r in requests ==> r in s.pending && Owns(s, r)
  {
    hide SortBy, StateInv, EngineInv;
    IdsOfSort(requests);
    InitOrder(requests);
    var s := Init(requests);
    forall id | id in s.engine.table
      ensures Project(s.engine.log, id) == Solo(s.engine.table[id].request, s.engine.table[id].position)
    {
    }
  }

  /** At every point of every run, each request is in exactly one of pending, active and completed. */
  lemma ExactlyOnePlace(requests: seq<Request>, B: nat, n: nat, r: Request)
    requires UniqueIds(requests) && B >= 1 && r in requests
    ensures var s := Iterate(B, Init(requests), n);
            multiset(IdsOf(s.pending))[r.id] + multiset(s.engine.active)[r.id] + multiset(s.engine.completed)[r.id] == 1
  {
    hide TimelineInv, Deinterleaves, StateInv, Init, Iterate, Owns;
    InitHistory(requests, B);
    IterateHistory(B, Init(requests), n);
    var i :| 0 <= i < |requests| && requests[i] == r;
    var ids := IdsOf(requests);
    assert ids[i] == r.id && NoDup(ids);
    NoDupCount(ids, r.id);
    assert r.id in multiset(ids);
  }

  /** The state at the end: every request has decoded exactly its target and completed exactly once. */
  lemma FinalState(requests: seq<Request>, B: nat)
    requires UniqueIds(requests) && B >= 1
    ensures var f := Finish(B, Init(requests));
            && TimelineInv(B, f) && Deinterleaves(f.engine)
            && multiset(f.engine.completed) == multiset(IdsOf(requests))
            && |f.engine.log| == TargetTokens(requests)
  {
    hide TimelineInv, Deinterleaves, StateInv, Init, Iterate, Owns;
    var s := Init(requests);
    InitHistory(requests, B);
    InitWork(requests);
    FinishIsIterate(B, s);
    IterateHistory(B, s, Length(B, s));
    FinishConservesTokens(B, s);
    InitLog(requests);
    hide Finish;
    assert IdsOf([]) == [];
  }

  lemma InitLog(requests: seq<Request>)
    requires UniqueIds(requests)
    ensures Init(requests).engine.log == []
  {
  }

  lemma FinalSlot(requests: seq<Request>, B: nat, r: Request)
    requires UniqueIds(requests) && B >= 1 && r in requests
    ensures var t := Finish(B, Init(requests)).engine.table;
            r.id in t && t[r.id] == Slot(r, |r.target|, r.target)
  {
    hide TimelineInv, Deinterleaves, StateInv, Init, Iterate, Owns;
    var s := Init(requests);
    InitHistory(requests, B);
    FinalState(requests, B);
    FinishIsIterate(B, s);
    IterateOwns(B, s, Length(B, s), r);
    var f := Finish(B, s);
    var i :| 0 <= i < |requests| && requests[i] == r;
    assert IdsOf(requests)[i] == r.id;
    assert r.id in multiset(f.engine.completed);
    CompletedSlot(f, r);
  }

  lemma CompletedSlot(f: State, r: Request)
    requires StateInv(f) && Owns(f, r) && r.id in f.engine.completed
    ensures r.id in f.engine.table && f.engine.table[r.id] == Slot(r, |r.target|, r.target)
  {
    var i :| 0 <= i < |f.engine.completed| && f.engine.completed[i] == r.id;
    assert Finished(f.engine.table, f.engine.completed[i]);
    assert SlotOk(r.id, f.engine.table[r.id]);
  }

  /** Deinterleaving: reading the final timeline for one request gives exactly its own decode:
      positions 0, 1, 2, ..., each input the previous output (the last prompt token at first). */
  lemma TimelineDeinterleaves(requests: seq<Request>, B: nat, r: Request)
    requires UniqueIds(requests) && B >= 1 && r in requests
    ensures var rows := Finish(B, Init(requests)).timeline;
            && (forall i :: 0 <= i < |rows| ==> RowShape(rows[i]))
            && Project(Flatten(rows), r.id) == Solo(r, |r.target|)
  {
    hide Init, Finish, Project, Solo, Flatten;
    FinalState(requests, B);
    FinalSlot(requests, B, r);
  }

  /** The response bound for every request of every run, read off the final timeline. */
  lemma ResponseBound(requests: seq<Request>, B: nat, q: Request) returns (p: nat, f: nat)
    requires UniqueIds(requests) && B >= 1 && q in requests && q.target != []
    ensures var rows := Finish(B, Init(requests)).timeline;
            && p <= f < |rows|
            && rows[p].tick == q.arrival && rows[f].tick == q.arrival + (f - p)
            && q.id in rows[f].finished
            && B * (f - p + 1) <= Slots(rows[p..f + 1]) + (B - 1) * |q.target|
  {
    hide *;
    InitHistory(requests, B);
    p, f := ResponseTime(B, Init(requests), q);
  }

  /** Fairness at every point of every run: while two requests stay active their progress since that
      point differs by at most one token. */
  lemma FairProgress(requests: seq<Request>, B: nat, m: nat, n: nat, x: string, y: string)
    requires UniqueIds(requests) && B >= 1
    requires var s := Iterate(B, Init(requests), m);
             && Before(s.engine.active, x, y)
             && x in Iterate(B, s, n).engine.active && y in Iterate(B, s, n).engine.active
    ensures var s := Iterate(B, Init(requests), m);
            var t := Iterate(B, s, n).engine.table;
            && x in t && y in t && x in s.engine.table && y in s.engine.table
            && 0 <= (t[x].position - s.engine.table[x].position)
                  - (t[y].position - s.engine.table[y].position) <= 1
  {
    hide *;
    InitHistory(requests, B);
    IterateHistory(B, Init(requests), m);
    ProgressWithinOne(B, Iterate(B, Init(requests), m), n, x, y);
  }

  /** Simulates a whole run and reports on it. */
  method Simulate(requests: seq<Request>, maxBatchSize: int) returns (r: Result<Report, Failure>)
    ensures maxBatchSize < 1 ==> r == Err(BatchSizeNotPositive)
    ensures maxBatchSize >= 1 && !UniqueIds(requests) ==>
      && r.Err? && r.error.DuplicateRequestId?
      && exists i, j :: 0 <= i < j < |requests| && requests[i].id == requests[j].id == r.error.id
    ensures maxBatchSize >= 1 && UniqueIds(requests) ==>
      && r.Ok?
      && var f := Finish(maxBatchSize, Init(requests));
      && r.value.passed && r.value.maxBatchSize == maxBatchSize && r.value.requestCount == |requests|
      && r.value.timeline == f.timeline && r.value.totalDecodeBatches == |f.timeline|
      && r.value.completed == f.engine.completed
      && multiset(r.value.completed) == multiset(IdsOf(requests))
      && r.value.outputs.Keys == (set q | q in requests :: q.id)
      && (forall q :: q in requests ==> r.value.outputs[q.id] == q.target)
      && r.value.outputs == r.value.expected
      && r.value.serialDecodeBatches == TargetTokens(requests) == Slots(r.value.timeline)
  {
    if maxBatchSize < 1 {
      return Err(BatchSizeNotPositive);
    }
    var dup := ValidateRequests(requests);
    if dup.Some? {
      return Err(DuplicateRequestId(dup.value));
    }
    hide *;
    var table, completed, timeline := RunLoop(requests, maxBatchSize);
    FinalState(requests, maxBatchSize);
    forall q | q in requests ensures q.id in table && table[q.id] == Slot(q, |q.target|, q.target) {
      FinalSlot(requests, maxBatchSize, q);
    }
    UsedSlots(requests, maxBatchSize);
    CompletedCount(requests, completed);
    var report := BuildReport(requests, maxBatchSize, table, completed, timeline);
    r := Ok(report);
  }

  function ByRequest(requests: seq<Request>, f: Request -> seq<int>): (m: map<string, seq<int>>)
    requires UniqueIds(requests)
    ensures m.Keys == set q | q in requests :: q.id
    ensures forall q :: q in requests ==> m[q.id] == f(q)
  {
    map q | q in requests :: q.id := f(q)
  }

  lemma SameByRequest(requests: seq<Request>, f: Request -> seq<int>, g: Request -> seq<int>)
    requires UniqueIds(requests)
    ensures ByRequest(requests, f) == ByRequest(requests, g) <==> forall q :: q in requests ==> f(q) == g(q)
  {
    var m, n := ByRequest(requests, f), ByRequest(requests, g);
    if m == n {
      forall q | q in requests ensures f(q) == g(q) {
        assert m[q.id] == n[q.id];
      }
    }
    if forall q :: q in requests ==> f(q) == g(q) {
      forall id | id in m ensures m[id] == n[id] {
        var q :| q in requests && q.id == id;
      }
    }
  }

  /** Compares the outputs with the targets; the comparison is exact. */
  method BuildReport(requests: seq<Request>, maxBatch: nat, table: map<string, Slot>, completed: seq<string>,
                     timeline: seq<Row>)
    returns (r: Report)
    requires UniqueIds(requests) && forall q :: q in requests ==> q.id in table
    ensures r.passed <==>
      (forall q :: q in requests ==> table[q.id].generated == q.target) && |completed| == |requests|
    ensures r.outputs.Keys == r.expected.Keys == set q | q in requests :: q.id
    ensures forall q :: q in requests ==> r.outputs[q.id] == table[q.id].generated && r.expected[q.id] == q.target
    ensures r.passed ==> r.outputs == r.expected
    ensures r.requestCount == |requests| && r.maxBatchSize == maxBatch && r.totalDecodeBatches == |timeline|
    ensures r.serialDecodeBatches == TargetTokens(requests)
    ensures r.timeline == timeline && r.completed == completed
  {
    hide UniqueIds, ByRequest, TargetTokens;
    var generated := (q: Request) => if q.id in table then table[q.id].generated else [];
    var target := (q: Request) => q.target;
    var outputs := ByRequest(requests, generated);
    var expected := ByRequest(requests, target);
    SameByRequest(requests, generated, target);
    var serial := 0;
    for n := 0 to |requests|
      invariant serial + TargetTokens(requests[n..]) == TargetTokens(requests)
    {
      TargetTokensNext(requests, n);
      serial := serial + |requests[n].target|;
    }
    TargetTokensEnd(requests);
    var passed := outputs == expected && |completed| == |requests|;
    r := Report(passed, |requests|, maxBatch, |timeline|, serial, timeline, outputs, expected, completed);
  }

  lemma TargetTokensNext(requests: seq<Request>, n: nat)
    requires n < |requests|
    ensures TargetTokens(requests[n..]) == |requests[n].target| + TargetTokens(requests[n + 1..])
  {
    assert requests[n..][1..] == requests[n + 1..];
  }

  lemma TargetTokensEnd(requests: seq<Request>)
    ensures requests[0..] == requests && TargetTokens(requests[|requests|..]) == 0
  {
  }

  lemma CompletedCount(requests: seq<Request>, completed: seq<string>)
    requires multiset(completed) == multiset(IdsOf(requests))
    ensures |completed| == |requests|
  {
    assert |completed| == |multiset(completed)|;
    assert |IdsOf(requests)| == |multiset(IdsOf(requests))|;
  }

  /** The slots used in all rows are the tokens decoded in all. */
  lemma UsedSlots(requests: seq<Request>, B: nat)
    requires UniqueIds(requests) && B >= 1
    ensures Slots(Finish(B, Init(requests)).timeline) == TargetTokens(requests)
  {
    hide Init, Finish, Flatten, Slots;
    FinalState(requests, B);
    SlotsFlatten(Finish(B, Init(requests)).timeline);
  }
}
