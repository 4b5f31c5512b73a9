/**
 What the timeline records. Read row by row it is the log of services; read for one request it is
 that request's own decode, position by position, each input being the previous output; and its
 ticks only go up.
 */
module SchedulerHistory {
  import opened Arithmetic
  import opened Sorting
  import opened Scheduler
  import opened SchedulerBatches

  // ----- timeline rows and the log of services

  predicate RowShape(row: Row) {
    |row.ids| == |row.positions| == |row.inputs| == |row.outputs|
  }

  /** The services a row reports. */
  function RowEvents(row: Row): (r: seq<Event>)
    requires RowShape(row)
  {
    seq(|row.ids|, i requires 0 <= i < |row.ids| =>
      Event(row.ids[i], row.positions[i], row.inputs[i], row.outputs[i], row.ids[i] in row.finished))
  }

  function Flatten(timeline: seq<Row>): (r: seq<Event>)
    requires forall i :: 0 <= i < |timeline| ==> RowShape(timeline[i])
  {
    if timeline == [] then []
    else Flatten(timeline[..|timeline| - 1]) + RowEvents(timeline[|timeline| - 1])
  }

  lemma {:induction false} FinishedMeans(events: seq<Event>, id: string)
    ensures id in FinishedIds(events) <==> exists i :: 0 <= i < |events| && events[i].last && events[i].id == id
  {
    if events != [] {
      var n := |events| - 1;
      FinishedMeans(events[..n], id);
      if id in FinishedIds(events[..n]) {
        var i :| 0 <= i < n && events[..n][i].last && events[..n][i].id == id;
        assert events[i].last && events[i].id == id;
      }
      if i :| 0 <= i < |events| && events[i].last && events[i].id == id {
        assert i < n ==> events[..n][i] == events[i];
      }
    }
  }

  /** Writing a batch as a row and reading it back is the identity when no request is served twice. */
  lemma RowRoundTrip(tick: int, events: seq<Event>)
    requires forall i, j :: 0 <= i < j < |events| ==> events[i].id != events[j].id
    ensures RowShape(RowOf(tick, events)) && RowEvents(RowOf(tick, events)) == events
  {
    var back := RowEvents(RowOf(tick, events));
    forall i | 0 <= i < |events| ensures back[i] == events[i] {
      FinishedMeans(events, events[i].id);
    }
  }

  /** The timeline and the log tell the same story, tick by tick in increasing order. */
  ghost predicate TimelineInv(B: nat, s: State) {
    && (forall i :: 0 <= i < |s.timeline| ==> RowShape(s.timeline[i]) && 1 <= |s.timeline[i].ids| <= B)
    && Flatten(s.timeline) == s.engine.log
    && (forall i, j :: 0 <= i < j < |s.timeline| ==> s.timeline[i].tick < s.timeline[j].tick)
    && (forall i :: 0 <= i < |s.timeline| ==> s.timeline[i].tick < s.tick && NoDup(s.timeline[i].ids))
  }

  ghost function BatchEvents(e: Engine, k: nat): (r: seq<Event>)
    requires EngineInv(e)
  {
    ServeMany(e, k).log[|e.log|..]
  }

  /** A tick serves the first k requests of the queue, in queue order. */
  lemma BatchIds(e: Engine, k: nat)
    requires EngineInv(e) && k <= |e.active|
    ensures |BatchEvents(e, k)| == k
    ensures forall i :: 0 <= i < k ==> BatchEvents(e, k)[i].id == e.active[i]
  {
    SerialIsParallel(e, k);
    hide ServeMany;
    forall i | 0 <= i < k ensures BatchEvents(e, k)[i].id == e.active[i] {
      assert BatchEvents(e, k)[i] == EventOf(e.active[i], e.table[e.active[i]]);
    }
  }

  lemma BatchRow(e: Engine, k: nat, tick: int)
    requires EngineInv(e) && k <= |e.active|
    ensures var row := RowOf(tick, BatchEvents(e, k));
            && RowShape(row) && RowEvents(row) == BatchEvents(e, k)
            && row.ids == e.active[..k]
            && NoDup(row.ids)
  {
    hide BatchEvents;
    BatchIds(e, k);
    RowRoundTrip(tick, BatchEvents(e, k));
    assert RowOf(tick, BatchEvents(e, k)).ids == e.active[..k];
  }

  lemma FlattenAppend(timeline: seq<Row>, row: Row)
    requires forall i :: 0 <= i < |timeline| ==> RowShape(timeline[i])
    requires RowShape(row)
    ensures Flatten(timeline + [row]) == Flatten(timeline) + RowEvents(row)
  {
    assert (timeline + [row])[..|timeline|] == timeline;
  }

  lemma TimelineAppend(B: nat, s: State, row: Row, s': State)
    requires TimelineInv(B, s)
    requires RowShape(row) && NoDup(row.ids) && 1 <= |row.ids| <= B && row.tick == s.tick
    requires s'.timeline == s.timeline + [row] && s'.tick == s.tick + 1
    requires s'.engine.log == s.engine.log + RowEvents(row)
    ensures TimelineInv(B, s')
  {
    hide NoDup, RowEvents;
    FlattenAppend(s.timeline, row);
  }

  lemma ServeTimeline(B: nat, a: State)
    requires StateInv(a) && B >= 1 && a.engine.active != [] && TimelineInv(B, a)
    requires forall i :: 0 <= i < |a.pending| ==> a.pending[i].arrival > a.tick
    ensures TimelineInv(B, Serve(B, a))
  {
    hide TimelineInv, EngineInv, NoDup, RowEvents;
    var k := Min(B, |a.engine.active|);
    BatchRow(a.engine, k, a.tick);
    TimelineAppend(B, a, RowOf(a.tick, BatchEvents(a.engine, k)), Serve(B, a));
  }

  lemma StepTimeline(B: nat, s: State)
    requires StateInv(s) && B >= 1 && TimelineInv(B, s)
    ensures TimelineInv(B, Step(B, s))
  {
    hide Flatten, NoDup;
    var a := Admit(s);
    assert TimelineInv(B, a);
    if a.engine.active != [] {
      ServeTimeline(B, a);
    }
  }

  // ----- deinterleaving

  /** The services of one request, in order. */
  ghost function Project(log: seq<Event>, id: string): (r: seq<Event>) {
    if log == [] then []
    else Project(log[..|log| - 1], id) + (if log[|log| - 1].id == id then [log[|log| - 1]] else [])
  }

  /** What decoding r alone does at position p: consume the previous token, emit the next one. */
  ghost function SoloEvent(r: Request, p: nat): (ev: Event)
    requires p < |r.target|
  {
    Event(r.id, p, if p == 0 then r.prompt[|r.prompt| - 1] else r.target[p - 1], r.target[p], p + 1 == |r.target|)
  }

  ghost function Solo(r: Request, n: nat): (evs: seq<Event>)
    requires n <= |r.target|
  {
    seq(n, p requires 0 <= p < n => SoloEvent(r, p))
  }

  ghost predicate Deinterleaves(e: Engine)
    requires EngineInv(e)
  {
    forall id :: id in e.table ==> Project(e.log, id) == Solo(e.table[id].request, e.table[id].position)
  }

  lemma ProjectAppend(log: seq<Event>, ev: Event, id: string)
    ensures Project(log + [ev], id) == Project(log, id) + (if ev.id == id then [ev] else [])
  {
    assert (log + [ev])[..|log|] == log;
  }

  lemma SoloNext(id: string, slot: Slot)
    requires SlotOk(id, slot) && slot.position < |slot.request.target|
    ensures Solo(slot.request, slot.position + 1) == Solo(slot.request, slot.position) + [EventOf(id, slot)]
  {
  }

  lemma ServeOneDeinterleaves(e: Engine)
    requires EngineInv(e) && Deinterleaves(e)
    ensures Deinterleaves(ServeOne(e))
  {
    if e.active != [] {
      var r := ServeOne(e);
      var served := e.active[0];
      forall id | id in r.table
        ensures Project(r.log, id) == Solo(r.table[id].request, r.table[id].position)
      {
        ProjectAppend(e.log, NextEvent(e), id);
        if id == served {
          SoloNext(id, e.table[id]);
        }
      }
    }
  }

  lemma {:induction false} ServeManyDeinterleaves(e: Engine, n: nat)
    requires EngineInv(e) && Deinterleaves(e)
    ensures Deinterleaves(ServeMany(e, n))
  {
    hide ServeOne, Deinterleaves, EngineInv;
    if n > 0 {
      ServeManyDeinterleaves(e, n - 1);
      ServeOneDeinterleaves(ServeMany(e, n - 1));
    }
  }

  lemma StepDeinterleaves(B: nat, s: State)
    requires StateInv(s) && Deinterleaves(s.engine)
    ensures Deinterleaves(Step(B, s).engine)
  {
    var a := Admit(s);
    assert Deinterleaves(a.engine);
    ServeManyDeinterleaves(a.engine, Min(B, |a.engine.active|));
  }

  // ----- who is where

  ghost function IdsOf(requests: seq<Request>): (r: seq<string>) {
    seq(|requests|, i requires 0 <= i < |requests| => requests[i].id)
  }

  /** Every request id, with multiplicity, wherever it is: pending, active or completed. */
  ghost function Everyone(s: State): (m: multiset<string>) {
    multiset(IdsOf(s.pending)) + (multiset(s.engine.active) + multiset(s.engine.completed))
  }

  lemma ServeOneKeepsEveryone(e: Engine)
    requires EngineInv(e)
    ensures multiset(ServeOne(e).active) + multiset(ServeOne(e).completed) == multiset(e.active) + multiset(e.completed)
  {
    if e.active != [] {
      assert e.active == [e.active[0]] + e.active[1..];
    }
  }

  lemma {:induction false} ServeManyKeepsEveryone(e: Engine, n: nat)
    requires EngineInv(e)
    ensures multiset(ServeMany(e, n).active) + multiset(ServeMany(e, n).completed)
         == multiset(e.active) + multiset(e.completed)
  {
    hide ServeOne, EngineInv;
    if n > 0 {
      ServeManyKeepsEveryone(e, n - 1);
      ServeOneKeepsEveryone(ServeMany(e, n - 1));
    }
  }

  lemma {:induction false} AdmitKeepsEveryone(s: State)
    requires StateInv(s)
    ensures Everyone(Admit(s)) == Everyone(s)
    decreases |s.pending|
  {
    if s.pending != [] && s.pending[0].arrival <= s.tick {
      var q := s.pending[0];
      assert IdsOf(s.pending) == [q.id] + IdsOf(s.pending[1..]);
      assert Everyone(AdmitOne(s)) == Everyone(s);
      AdmitKeepsEveryone(AdmitOne(s));
    }
  }

  /** No request is lost or counted twice: each step keeps the combined queues a permutation. */
  lemma StepKeepsEveryone(B: nat, s: State)
    requires StateInv(s)
    ensures Everyone(Step(B, s)) == Everyone(s)
  {
    AdmitKeepsEveryone(s);
    hide EngineInv, StateInv, IdsOf, RowOf, Admit;
    var a := Admit(s);
    if a.engine.active != [] {
      ServeManyKeepsEveryone(a.engine, Min(B, |a.engine.active|));
    }
  }

  // ----- whole runs

  lemma {:induction false} IterateHistory(B: nat, s: State, n: nat)
    requires StateInv(s) && B >= 1 && TimelineInv(B, s) && Deinterleaves(s.engine)
    ensures TimelineInv(B, Iterate(B, s, n)) && Deinterleaves(Iterate(B, s, n).engine)
    ensures Everyone(Iterate(B, s, n)) == Everyone(s)
  {
    hide Step, TimelineInv, Deinterleaves, Everyone, StateInv;
    if n > 0 {
      IterateHistory(B, s, n - 1);
      var m := Iterate(B, s, n - 1);
      StepTimeline(B, m);
      StepDeinterleaves(B, m);
      StepKeepsEveryone(B, m);
    }
  }
}
