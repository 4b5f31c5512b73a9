/**
 The continuous-batching decode scheduler as a state machine over values.

 `ServeOne` is plain serial round robin. A decode tick admits the requests whose arrival tick has
 come and then serves a bounded batch; `Step` says what one iteration of the scheduling loop does
 and `Finish` runs the loop to its end. The loops themselves are in module Simulation, which is
 proved against these functions.
 */
module Scheduler {
  import opened Arithmetic
  import opened Sorting

  datatype Fields = Fields(id: string, prompt: seq<int>, target: seq<int>, arrival: int)

  /** What the constructor of a decode request lets through. */
  type Request = f: Fields | f.id != "" && f.prompt != [] && f.arrival >= 0
    witness Fields("r", [0], [], 0)

  /** The record kept per request id: how far it has got and what it has generated. */
  datatype Slot = Slot(request: Request, position: nat, generated: seq<int>)

  /** One request served in one tick. */
  datatype Event = Event(id: string, position: int, input: int, output: int, last: bool)

  /** Active queue, records and completion list; `log` is every service so far, in order. */
  datatype Engine = Engine(active: seq<string>, table: map<string, Slot>, completed: seq<string>, log: seq<Event>)

  datatype Row = Row(tick: int, ids: seq<string>, positions: seq<int>, inputs: seq<int>, outputs: seq<int>,
                     finished: seq<string>)

  datatype State = State(pending: seq<Request>, engine: Engine, timeline: seq<Row>, tick: int)

  // ----- serial round robin

  predicate SlotOk(id: string, slot: Slot) {
    && slot.request.id == id
    && slot.position <= |slot.request.target|
    && slot.generated == slot.request.target[..slot.position]
  }

  predicate Unfinished(table: map<string, Slot>, id: string) {
    id in table && table[id].position < |table[id].request.target|
  }

  predicate Finished(table: map<string, Slot>, id: string) {
    id in table && table[id].position >= |table[id].request.target|
  }

  predicate EngineInv(e: Engine) {
    && (forall id :: id in e.table ==> SlotOk(id, e.table[id]))
    && (forall i :: 0 <= i < |e.active| ==> Unfinished(e.table, e.active[i]))
    && (forall i :: 0 <= i < |e.completed| ==> Finished(e.table, e.completed[i]))
    && NoDup(e.active)
  }

  /** The service a request with this record receives next. */
  function EventOf(id: string, slot: Slot): (ev: Event)
    requires SlotOk(id, slot) && slot.position < |slot.request.target|
  {
    var r := slot.request;
    Event(id, slot.position,
          if slot.position == 0 then r.prompt[|r.prompt| - 1] else slot.generated[|slot.generated| - 1],
          r.target[slot.position],
          slot.position + 1 >= |r.target|)
  }

  function NextEvent(e: Engine): (ev: Event)
    requires EngineInv(e) && e.active != []
  {
    EventOf(e.active[0], e.table[e.active[0]])
  }

  function Advance(slot: Slot): (r: Slot)
    requires slot.position < |slot.request.target|
  {
    Slot(slot.request, slot.position + 1, slot.generated + [slot.request.target[slot.position]])
  }

  lemma AdvanceOk(id: string, slot: Slot)
    requires SlotOk(id, slot) && slot.position < |slot.request.target|
    ensures SlotOk(id, Advance(slot))
  {
  }

  /** Advancing the record of the head of the queue keeps all that the engine relies on. */
  lemma ServeKeepsInv(e: Engine, table: map<string, Slot>)
    requires EngineInv(e) && e.active != []
    requires table == e.table[e.active[0] := Advance(e.table[e.active[0]])]
    ensures forall id :: id in table ==> SlotOk(id, table[id])
    ensures var rest, moved := e.active[1..], e.active[1..] + [e.active[0]];
      && NoDup(rest) && NoDup(moved)
      && (forall i :: 0 <= i < |rest| ==> Unfinished(table, rest[i]))
      && (!Finished(table, e.active[0]) ==> forall i :: 0 <= i < |moved| ==> Unfinished(table, moved[i]))
    ensures forall i :: 0 <= i < |e.completed| ==> Finished(table, e.completed[i])
  {
    var head := e.active[0];
    AdvanceOk(head, e.table[head]);
    forall i | 0 <= i < |e.active| - 1 ensures Unfinished(table, e.active[1..][i]) {
      assert Unfinished(e.table, e.active[i + 1]);
    }
    forall i | 0 <= i < |e.completed| ensures Finished(table, e.completed[i]) {
      assert Finished(e.table, e.completed[i]);
    }
  }

  /** Serves the head of the queue one token; it goes to the back, or leaves if that was its last. */
  function ServeOne(e: Engine): (r: Engine)
    requires EngineInv(e)
    ensures EngineInv(r)
    ensures r.table.Keys == e.table.Keys
    ensures e.active == [] ==> r == e
    ensures e.active != [] ==> r.log == e.log + [NextEvent(e)]
  {
    if e.active == [] then e
    else
      var id := e.active[0];
      var ev := NextEvent(e);
      var table := e.table[id := Advance(e.table[id])];
      ServeKeepsInv(e, table);
      if ev.last then Engine(e.active[1..], table, e.completed + [id], e.log + [ev])
      else Engine(e.active[1..] + [id], table, e.completed, e.log + [ev])
  }

  function ServeMany(e: Engine, n: nat): (r: Engine)
    requires EngineInv(e)
    ensures EngineInv(r)
    ensures r.table.Keys == e.table.Keys
    ensures e.log <= r.log
  {
    if n == 0 then e else ServeOne(ServeMany(e, n - 1))
  }

  lemma ServeManyUnfold(e: Engine, n: nat)
    requires EngineInv(e)
    ensures ServeMany(e, n) == if n == 0 then e else ServeOne(ServeMany(e, n - 1))
  {
    hide ServeOne, EngineInv;
  }

  // ----- one tick

  function FinishedIds(events: seq<Event>): (r: seq<string>) {
    if events == [] then []
    else FinishedIds(events[..|events| - 1])
         + (if events[|events| - 1].last then [events[|events| - 1].id] else [])
  }

  function RequeuedIds(events: seq<Event>): (r: seq<string>) {
    if events == [] then []
    else RequeuedIds(events[..|events| - 1])
         + (if events[|events| - 1].last then [] else [events[|events| - 1].id])
  }

  function RowOf(tick: int, events: seq<Event>): (r: Row) {
    Row(tick,
        seq(|events|, i requires 0 <= i < |events| => events[i].id),
        seq(|events|, i requires 0 <= i < |events| => events[i].position),
        seq(|events|, i requires 0 <= i < |events| => events[i].input),
        seq(|events|, i requires 0 <= i < |events| => events[i].output),
        FinishedIds(events))
  }

  predicate PendingOk(r: Request, e: Engine, tick: int) {
    && r.id in e.table && e.table[r.id] == Slot(r, 0, [])
    && r.id !in e.active && r.id !in e.completed
    && r.arrival >= tick
  }

  predicate PendingOrder(pending: seq<Request>) {
    forall i, j :: 0 <= i < j < |pending| ==>
      pending[i].arrival <= pending[j].arrival && pending[i].id != pending[j].id
  }

  predicate StateInv(s: State) {
    && EngineInv(s.engine)
    && PendingOrder(s.pending)
    && forall i :: 0 <= i < |s.pending| ==> PendingOk(s.pending[i], s.engine, s.tick)
  }

  /** Moves one arrived request out of the pending queue; one with nothing to decode completes at once. */
  function AdmitOne(s: State): (r: State)
    requires StateInv(s) && s.pending != []
    ensures StateInv(r)
  {
    var q := s.pending[0];
    var e := if q.target == [] then s.engine.(completed := s.engine.completed + [q.id])
             else s.engine.(active := s.engine.active + [q.id]);
    s.(pending := s.pending[1..], engine := e)
  }

  function Admit(s: State): (r: State)
    requires StateInv(s)
    ensures StateInv(r)
    ensures r.tick == s.tick && r.timeline == s.timeline
    ensures r.engine.table == s.engine.table && r.engine.log == s.engine.log
    ensures forall i :: 0 <= i < |r.pending| ==> r.pending[i].arrival > s.tick
    decreases |s.pending|
  {
    if s.pending == [] || s.pending[0].arrival > s.tick then s else Admit(AdmitOne(s))
  }

  lemma ServeOneFrame(e: Engine, id: string)
    requires EngineInv(e) && id in e.table && id !in e.active
    ensures ServeOne(e).table[id] == e.table[id] && id !in ServeOne(e).active
    ensures id !in e.completed ==> id !in ServeOne(e).completed
  {
    if e.active != [] {
      assert e.active[0] in e.active;
    }
  }

  /** Serving touches only requests that were active. */
  lemma {:induction false} ServeManyFrame(e: Engine, n: nat, id: string)
    requires EngineInv(e) && id in e.table && id !in e.active
    ensures ServeMany(e, n).table[id] == e.table[id] && id !in ServeMany(e, n).active
    ensures id !in e.completed ==> id !in ServeMany(e, n).completed
  {
    hide *;
    ServeManyUnfold(e, n);
    if n > 0 {
      ServeManyFrame(e, n - 1, id);
      ServeOneFrame(ServeMany(e, n - 1), id);
    }
  }

  lemma ServeManyPending(s: State, n: nat)
    requires StateInv(s)
    ensures forall i :: 0 <= i < |s.pending| ==> PendingOk(s.pending[i], ServeMany(s.engine, n), s.tick)
  {
    forall i | 0 <= i < |s.pending| ensures PendingOk(s.pending[i], ServeMany(s.engine, n), s.tick) {
      assert PendingOk(s.pending[i], s.engine, s.tick);
      ServeManyFrame(s.engine, n, s.pending[i].id);
    }
  }

  /** A decode tick over the queue as it stands: the first B active requests get one token each. */
  function Serve(B: nat, s: State): (r: State)
    requires StateInv(s)
    requires forall i :: 0 <= i < |s.pending| ==> s.pending[i].arrival > s.tick
    ensures StateInv(r)
  {
    var e := ServeMany(s.engine, Min(B, |s.engine.active|));
    ServeManyPending(s, Min(B, |s.engine.active|));
    State(s.pending, e, s.timeline + [RowOf(s.tick, e.log[|s.engine.log|..])], s.tick + 1)
  }

  predicate Done(s: State) { s.pending == [] && s.engine.active == [] }

  /** One iteration of the scheduling loop: admit, then serve a batch or jump the clock. */
  function Step(B: nat, s: State): (r: State)
    requires StateInv(s)
    ensures StateInv(r)
  {
    var a := Admit(s);
    if a.engine.active != [] then Serve(B, a)
    else if a.pending != [] then a.(tick := Max(a.tick + 1, a.pending[0].arrival))
    else a
  }

  function Iterate(B: nat, s: State, n: nat): (r: State)
    requires StateInv(s)
    ensures StateInv(r)
  {
    if n == 0 then s else Step(B, Iterate(B, s, n - 1))
  }

  // ----- the start of a run

  predicate UniqueIds(requests: seq<Request>) {
    forall i, j :: 0 <= i < j < |requests| ==> requests[i].id != requests[j].id
  }

  predicate ArrivesBy(a: Request, b: Request) { a.arrival <= b.arrival }

  function TableOf(requests: seq<Request>): (table: map<string, Slot>)
    requires UniqueIds(requests)
  {
    map r | r in requests :: r.id := Slot(r, 0, [])
  }

  /** Requests in order of arrival, first come first; the clock starts at the first arrival. */
  function Init(requests: seq<Request>): (s: State)
    requires UniqueIds(requests)
    ensures StateInv(s)
  {
    var pending := SortBy(requests, ArrivesBy);
    InitInv(requests);
    State(pending, Engine([], TableOf(requests), [], []), [], if pending == [] then 0 else pending[0].arrival)
  }

  lemma InitOrder(requests: seq<Request>)
    requires UniqueIds(requests)
    ensures PendingOrder(SortBy(requests, ArrivesBy))
    ensures forall r :: r in SortBy(requests, ArrivesBy) <==> r in requests
  {
    var pending := SortBy(requests, ArrivesBy);
    hide SortBy;
    SortBySorted(requests, ArrivesBy);
    SameElements(pending, requests);
    NoDupPermutation(requests, pending);
    forall i, j | 0 <= i < j < |pending|
      ensures pending[i].arrival <= pending[j].arrival && pending[i].id != pending[j].id
    {
      assert ArrivesBy(pending[i], pending[j]);
      assert pending[i] in requests && pending[j] in requests;
    }
  }

  lemma TableHas(requests: seq<Request>, r: Request)
    requires UniqueIds(requests) && r in requests
    ensures r.id in TableOf(requests) && TableOf(requests)[r.id] == Slot(r, 0, [])
  {
  }

  lemma TableSlots(requests: seq<Request>)
    requires UniqueIds(requests)
    ensures EngineInv(Engine([], TableOf(requests), [], []))
  {
    hide UniqueIds;
    forall id | id in TableOf(requests) ensures SlotOk(id, TableOf(requests)[id]) {
      var r :| r in requests && r.id == id;
      TableHas(requests, r);
    }
  }

  lemma InitInv(requests: seq<Request>)
    requires UniqueIds(requests)
    ensures var pending := SortBy(requests, ArrivesBy);
            var tick := if pending == [] then 0 else pending[0].arrival;
            StateInv(State(pending, Engine([], TableOf(requests), [], []), [], tick))
  {
    hide SortBy, TableOf, UniqueIds, EngineInv;
    InitOrder(requests);
    TableSlots(requests);
    var pending := SortBy(requests, ArrivesBy);
    var tick := if pending == [] then 0 else pending[0].arrival;
    var e := Engine([], TableOf(requests), [], []);
    forall i | 0 <= i < |pending| ensures PendingOk(pending[i], e, tick) {
      TableHas(requests, pending[i]);
    }
  }

  /** First come, first served: requests that arrive together wait in the order they were given. */
  lemma ArrivalOrderStable(requests: seq<Request>, r: Request)
    requires UniqueIds(requests)
    ensures Class(Init(requests).pending, r, ArrivesBy) == Class(requests, r, ArrivesBy)
  {
    SortByStable(requests, r, ArrivesBy);
  }
}
