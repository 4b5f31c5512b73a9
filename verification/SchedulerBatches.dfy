/**
 What a batched tick does, in three equivalent forms: k serial round-robin services, one parallel
 update of the first k records, and the row written to the timeline.
 */
module SchedulerBatches {
  import opened Sorting
  import opened Scheduler

  /** The events of a batch, each computed from the record as it was when the tick began. */
  ghost predicate ParallelEvents(e: Engine, events: seq<Event>)
    requires EngineInv(e) && |events| <= |e.active|
  {
    forall i :: 0 <= i < |events| ==> events[i] == EventOf(e.active[i], e.table[e.active[i]])
  }

  /** What k services in parallel make of the engine. */
  ghost predicate ParallelBatch(e: Engine, events: seq<Event>, r: Engine)
    requires EngineInv(e) && |events| <= |e.active|
  {
    && ParallelEvents(e, events)
    && r.active == e.active[|events|..] + RequeuedIds(events)
    && r.completed == e.completed + FinishedIds(events)
    && r.log == e.log + events
    && r.table.Keys == e.table.Keys
    && forall id :: id in e.table ==>
        r.table[id] == if id in e.active[..|events|] then Advance(e.table[id]) else e.table[id]
  }

  lemma BatchIdsAppend(events: seq<Event>, ev: Event)
    ensures FinishedIds(events + [ev]) == FinishedIds(events) + (if ev.last then [ev.id] else [])
    ensures RequeuedIds(events + [ev]) == RequeuedIds(events) + (if ev.last then [] else [ev.id])
  {
    assert (events + [ev])[..|events|] == events;
  }

  lemma TakeOneMore(ids: seq<string>, k: nat, id: string)
    requires k < |ids| && NoDup(ids)
    ensures id in ids[..k + 1] <==> id in ids[..k] || id == ids[k]
    ensures ids[k] !in ids[..k]
  {
    assert ids[..k + 1] == ids[..k] + [ids[k]];
  }

  lemma QueueHead(ids: seq<string>, k: nat, requeued: seq<string>)
    requires k < |ids|
    ensures var q := ids[k..] + requeued; q[0] == ids[k] && q[1..] == ids[k + 1..] + requeued
  {
  }

  lemma QueueTail(a: seq<string>, b: seq<string>, ev: Event)
    ensures (a + b) + [ev.id] == a + (b + [ev.id])
    ensures b + [] == b
  {
  }

  lemma ActiveFacts(e: Engine, k: nat)
    requires EngineInv(e) && k < |e.active|
    ensures NoDup(e.active) && Unfinished(e.table, e.active[k])
    ensures SlotOk(e.active[k], e.table[e.active[k]])
  {
  }

  /** The next service sees the record that its request had when the tick began. */
  lemma ParallelHead(e: Engine, events: seq<Event>, m: Engine)
    requires EngineInv(e) && EngineInv(m) && |events| < |e.active|
    requires ParallelBatch(e, events, m)
    ensures m.active != [] && m.active[0] == e.active[|events|]
    ensures m.active[1..] == e.active[|events| + 1..] + RequeuedIds(events)
    ensures m.table[m.active[0]] == e.table[e.active[|events|]]
  {
    hide EngineInv, NoDup;
    var k := |events|;
    ActiveFacts(e, k);
    TakeOneMore(e.active, k, e.active[k]);
    QueueHead(e.active, k, RequeuedIds(events));
  }

  lemma ParallelTable(e: Engine, events: seq<Event>, m: Engine, id: string)
    requires EngineInv(e) && EngineInv(m) && |events| < |e.active|
    requires ParallelBatch(e, events, m) && id in e.table
    ensures id in ServeOne(m).table
    ensures ServeOne(m).table[id]
         == if id in e.active[..|events| + 1] then Advance(e.table[id]) else e.table[id]
  {
    ParallelHead(e, events, m);
    TakeOneMore(e.active, |events|, id);
  }

  lemma ParallelTables(e: Engine, events: seq<Event>, m: Engine)
    requires EngineInv(e) && EngineInv(m) && |events| < |e.active|
    requires ParallelBatch(e, events, m)
    ensures forall id :: id in e.table ==>
      && id in ServeOne(m).table
      && ServeOne(m).table[id]
      == if id in e.active[..|events| + 1] then Advance(e.table[id]) else e.table[id]
  {
    hide ServeOne, Advance, ParallelBatch;
    forall id | id in e.table
      ensures id in ServeOne(m).table
      ensures ServeOne(m).table[id]
           == if id in e.active[..|events| + 1] then Advance(e.table[id]) else e.table[id]
    {
      ParallelTable(e, events, m, id);
    }
  }

  lemma ParallelQueues(e: Engine, events: seq<Event>, m: Engine)
    requires EngineInv(e) && EngineInv(m) && |events| < |e.active|
    requires ParallelBatch(e, events, m) && m.active != []
    ensures var evs, r := events + [NextEvent(m)], ServeOne(m);
      && r.active == e.active[|evs|..] + RequeuedIds(evs)
      && r.completed == e.completed + FinishedIds(evs)
      && r.log == e.log + evs
  {
    hide EngineInv, NoDup, RequeuedIds, FinishedIds, Advance, ParallelEvents;
    ParallelHead(e, events, m);
    var k, ev := |events|, NextEvent(m);
    BatchIdsAppend(events, ev);
    QueueTail(e.active[k + 1..], RequeuedIds(events), ev);
    QueueTail(e.completed, FinishedIds(events), ev);
  }

  lemma ParallelStep(e: Engine, events: seq<Event>, m: Engine)
    requires EngineInv(e) && EngineInv(m) && |events| < |e.active|
    requires ParallelBatch(e, events, m)
    ensures m.active != []
    ensures ParallelBatch(e, events + [NextEvent(m)], ServeOne(m))
  {
    hide EngineInv, NoDup, RequeuedIds, FinishedIds, Advance, ServeOne;
    ParallelHead(e, events, m);
    ActiveFacts(e, |events|);
    ParallelQueues(e, events, m);
    ParallelTables(e, events, m);
  }

  lemma ParallelStart(e: Engine)
    requires EngineInv(e)
    ensures e.log[|e.log|..] == [] && ParallelBatch(e, [], e)
  {
    assert e.active[0..] == e.active;
  }

  /** k round-robin services in a row are the same as serving the first k requests at once. */
  lemma {:induction false} SerialIsParallel(e: Engine, k: nat)
    requires EngineInv(e) && k <= |e.active|
    ensures |ServeMany(e, k).log| == |e.log| + k
    ensures ParallelBatch(e, ServeMany(e, k).log[|e.log|..], ServeMany(e, k))
  {
    hide *;
    ServeManyUnfold(e, k);
    if k == 0 {
      ParallelStart(e);
    } else {
      SerialIsParallel(e, k - 1);
      var m := ServeMany(e, k - 1);
      var events := m.log[|e.log|..];
      ParallelStep(e, events, m);
      assert (m.log + [NextEvent(m)])[|e.log|..] == events + [NextEvent(m)];
    }
  }
}
