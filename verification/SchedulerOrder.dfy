/**
 First come, first served: the order in which requests are admitted, and its effect on whole runs. A
 request that arrives earlier, or at the same tick but is listed earlier, is served before the other
 is served for the first time, whatever the batch size.
 */
module SchedulerOrder {
  import opened Arithmetic
  import opened Sorting
  import opened Scheduler
  import opened SchedulerRuns
  import opened SchedulerBatches
  import opened SchedulerHistory
  import opened SchedulerBounds
  import opened SchedulerRows

  // ----- the order of admission

  ghost predicate Increasing(p: seq<nat>) {
    forall a, b :: 0 <= a < b < |p| ==> p[a] < p[b]
  }

  /** Some positions of the pending queue, in order, and the ids that wait there. */
  ghost predicate Picks(pending: seq<Request>, p: seq<nat>, ids: seq<string>) {
    && Increasing(p) && |p| == |ids|
    && forall k :: 0 <= k < |p| ==> p[k] < |pending| && ids[k] == pending[p[k]].id
  }

  lemma PicksLater(pending: seq<Request>, p: seq<nat>, ids: seq<string>)
    requires pending != [] && Picks(pending[1..], p, ids)
    ensures Picks(pending, Shift(p), ids)
    ensures Picks(pending, [0] + Shift(p), [pending[0].id] + ids)
  {
    ShiftMeans(p);
    hide Shift;
    var q, longer, more := Shift(p), [0] + Shift(p), [pending[0].id] + ids;
    forall k | 0 <= k < |q| ensures q[k] < |pending| && ids[k] == pending[q[k]].id {
      assert pending[1..][p[k]] == pending[q[k]];
    }
    forall k | 0 <= k < |longer| ensures longer[k] < |pending| && more[k] == pending[longer[k]].id {
      assert k > 0 ==> longer[k] == q[k - 1] && more[k] == ids[k - 1];
    }
    assert forall k :: 0 < k < |longer| ==> longer[k] == p[k - 1] + 1;
  }

  /** A queue that has grown by the ids at some positions of the pending queue, in order. */
  ghost predicate Grows(pending: seq<Request>, p: seq<nat>, before: seq<string>, after: seq<string>) {
    before <= after && Picks(pending, p, after[|before|..])
  }

  /** The positions among the first n whose requests have tokens to decode, or none. */
  ghost predicate Covers(pending: seq<Request>, n: nat, p: seq<nat>, tokens: bool)
    requires n <= |pending|
  {
    forall i :: i in p <==> 0 <= i < n && (pending[i].target != [] <==> tokens)
  }

  /** Admission takes exactly the arrived requests off the front of the pending queue: those with tokens
      to decode join the back of the active queue, and those without join the completed list, both in
      pending order. */
  lemma AdmitQueues(s: State) returns (n: nat, queued: seq<nat>, done: seq<nat>)
    requires StateInv(s)
    ensures n <= |s.pending| && Admit(s).pending == s.pending[n..]
    ensures forall i :: 0 <= i < |s.pending| ==> (i < n <==> s.pending[i].arrival <= s.tick)
    ensures forall i :: i in queued <==> 0 <= i < n && s.pending[i].target != []
    ensures forall i :: i in done <==> 0 <= i < n && s.pending[i].target == []
    ensures forall a, b :: 0 <= a < b < |queued| ==> queued[a] < queued[b]
    ensures forall a, b :: 0 <= a < b < |done| ==> done[a] < done[b]
    ensures |Admit(s).engine.active| == |s.engine.active| + |queued| && s.engine.active <= Admit(s).engine.active
    ensures forall k :: 0 <= k < |queued| ==>
      queued[k] < n && Admit(s).engine.active[|s.engine.active| + k] == s.pending[queued[k]].id
    ensures |Admit(s).engine.completed| == |s.engine.completed| + |done| && s.engine.completed <= Admit(s).engine.completed
    ensures forall k :: 0 <= k < |done| ==>
      done[k] < n && Admit(s).engine.completed[|s.engine.completed| + k] == s.pending[done[k]].id
  {
    n, queued, done := AdmitStepwise(s);
    hide StateInv, Admit;
    GrowsMeans(s.pending, queued, s.engine.active, Admit(s).engine.active);
    GrowsMeans(s.pending, done, s.engine.completed, Admit(s).engine.completed);
    hide Picks;
  }

  lemma GrowsMeans(pending: seq<Request>, p: seq<nat>, before: seq<string>, after: seq<string>)
    requires Grows(pending, p, before, after)
    ensures before <= after && |after| == |before| + |p| && Increasing(p)
    ensures forall k :: 0 <= k < |p| ==> p[k] < |pending| && after[|before| + k] == pending[p[k]].id
  {
  }

  lemma {:induction false} AdmitStepwise(s: State) returns (n: nat, queued: seq<nat>, done: seq<nat>)
    requires StateInv(s)
    ensures n <= |s.pending| && Admit(s).pending == s.pending[n..]
    ensures forall i :: 0 <= i < |s.pending| ==> (i < n <==> s.pending[i].arrival <= s.tick)
    ensures Covers(s.pending, n, queued, true) && Covers(s.pending, n, done, false)
    ensures Grows(s.pending, queued, s.engine.active, Admit(s).engine.active)
    ensures Grows(s.pending, done, s.engine.completed, Admit(s).engine.completed)
    decreases |s.pending|
  {
    hide *;
    if s.pending == [] || s.pending[0].arrival > s.tick {
      n, queued, done := 0, [], [];
      NoneArrived(s);
    } else {
      var r := AdmitOne(s);
      AdmitUnfold(s);
      var m, q, d := AdmitStepwise(r);
      n := m + 1;
      forall i | 0 <= i < |s.pending| ensures i < n <==> s.pending[i].arrival <= s.tick {
        assert i > 0 ==> s.pending[i] == r.pending[i - 1];
      }
      CoversLater(s.pending, m, q, true);
      CoversLater(s.pending, m, d, false);
      GrowsLater(s.pending, q, s.engine.active, r.engine.active, Admit(s).engine.active);
      GrowsLater(s.pending, d, s.engine.completed, r.engine.completed, Admit(s).engine.completed);
      if s.pending[0].target != [] {
        queued, done := [0] + Shift(q), Shift(d);
      } else {
        queued, done := Shift(q), [0] + Shift(d);
      }
    }
  }

  lemma NoneArrived(s: State)
    requires StateInv(s) && (s.pending == [] || s.pending[0].arrival > s.tick)
    ensures Admit(s) == s && s.pending[0..] == s.pending
    ensures forall i :: 0 <= i < |s.pending| ==> s.pending[i].arrival > s.tick
    ensures Covers(s.pending, 0, [], true) && Covers(s.pending, 0, [], false)
    ensures Grows(s.pending, [], s.engine.active, s.engine.active)
    ensures Grows(s.pending, [], s.engine.completed, s.engine.completed)
  {
    hide EngineInv;
    forall i | 0 <= i < |s.pending| ensures s.pending[i].arrival > s.tick {
      assert i > 0 ==> s.pending[0].arrival <= s.pending[i].arrival;
    }
  }

  lemma AdmitUnfold(s: State)
    requires StateInv(s) && s.pending != [] && s.pending[0].arrival <= s.tick
    ensures var r := AdmitOne(s);
      && Admit(s) == Admit(r) && r.pending == s.pending[1..] && r.tick == s.tick
      && (forall k :: 0 <= k < |s.pending| ==> s.pending[k..] == if k == 0 then s.pending else r.pending[k - 1..])
      && r.engine.active == s.engine.active + (if s.pending[0].target != [] then [s.pending[0].id] else [])
      && r.engine.completed == s.engine.completed + (if s.pending[0].target != [] then [] else [s.pending[0].id])
  {
    hide StateInv;
  }

  lemma CoversLater(pending: seq<Request>, m: nat, p: seq<nat>, tokens: bool)
    requires pending != [] && m <= |pending| - 1 && Covers(pending[1..], m, p, tokens)
    ensures Covers(pending, m + 1, if pending[0].target != [] <==> tokens then [0] + Shift(p) else Shift(p), tokens)
  {
    ShiftMeans(p);
    hide Shift;
    var q := if pending[0].target != [] <==> tokens then [0] + Shift(p) else Shift(p);
    forall i ensures i in q <==> 0 <= i < m + 1 && (pending[i].target != [] <==> tokens) {
      assert 1 <= i < m + 1 ==> pending[i] == pending[1..][i - 1];
    }
  }

  lemma GrowsLater(pending: seq<Request>, p: seq<nat>, before: seq<string>, mid: seq<string>, after: seq<string>)
    requires pending != [] && Grows(pending[1..], p, mid, after)
    requires mid == before || mid == before + [pending[0].id]
    ensures mid == before ==> Grows(pending, Shift(p), before, after)
    ensures mid == before + [pending[0].id] ==> Grows(pending, [0] + Shift(p), before, after)
  {
    PicksLater(pending, p, after[|mid|..]);
    if mid != before {
      assert after[|before|..] == [pending[0].id] + after[|mid|..];
    }
  }

  // ----- the order of service

  /** Every service of y comes after some service of x. */
  ghost predicate Precedes(log: seq<Event>, x: string, y: string) {
    forall k :: 0 <= k < |log| && log[k].id == y ==> Served(log[..k], x)
  }

  ghost predicate Served(log: seq<Event>, x: string) {
    exists k :: 0 <= k < |log| && log[k].id == x
  }

  /** x is ahead of y: in the queue, in the arrivals still to come, or queued while y is still to come. */
  ghost predicate Ahead(pending: seq<string>, active: seq<string>, x: string, y: string) {
    Before(pending, x, y) || Before(active, x, y) || (x in active && y in pending)
  }

  ghost predicate InOrder(pending: seq<string>, e: Engine, x: string, y: string) {
    Precedes(e.log, x, y) && (Served(e.log, x) || Ahead(pending, e.active, x, y))
  }

  lemma ServedNext(log: seq<Event>, ev: Event, x: string, y: string)
    requires Precedes(log, x, y) && (ev.id == y ==> Served(log, x))
    ensures Precedes(log + [ev], x, y)
    ensures Served(log + [ev], x) <==> Served(log, x) || ev.id == x
  {
    var more := log + [ev];
    assert more[..|log|] == log;
    forall k | 0 <= k < |more| && more[k].id == y ensures Served(more[..k], x) {
      if k < |log| {
        assert more[..k] == log[..k];
        assert log[k].id == y;
      }
    }
    if Served(log, x) {
      var k :| 0 <= k < |log| && log[k].id == x;
      assert more[k].id == x;
    }
    assert more[|log|] == ev;
  }

  lemma ServeOneInOrder(pending: seq<string>, e: Engine, x: string, y: string)
    requires EngineInv(e) && InOrder(pending, e, x, y) && x != y
    requires forall i :: 0 <= i < |pending| ==> pending[i] !in e.active
    requires x in e.table && x in ServeOne(e).table
    ensures InOrder(pending, ServeOne(e), x, y)
  {
    if e.active != [] {
      var r, ev := ServeOne(e), NextEvent(e);
      hide Precedes, Served, EngineInv;
      assert r.log == e.log + [ev] && ev.id == e.active[0];
      assert NoDup(e.active) by { ActiveFacts(e, 0); }
      if !Served(e.log, x) {
        HeadAhead(pending, e.active, r.active, x, y);
      }
      ServedNext(e.log, ev, x, y);
    }
  }

  /** While x is ahead of y, the head of the queue is not y, and unless it is x, x stays ahead. */
  lemma HeadAhead(pending: seq<string>, q: seq<string>, t: seq<string>, x: string, y: string)
    requires NoDup(q) && q != [] && Ahead(pending, q, x, y) && x != y
    requires forall i :: 0 <= i < |pending| ==> pending[i] !in q
    requires t == q[1..] || t == q[1..] + [q[0]]
    ensures q[0] != y && (q[0] != x ==> Ahead(pending, t, x, y))
  {
    if Before(q, x, y) {
      var i, j :| 0 <= i < j < |q| && q[i] == x && q[j] == y;
      if i > 0 {
        assert t[i - 1] == x && t[j - 1] == y;
      }
    } else if Before(pending, x, y) {
      var i, j :| 0 <= i < j < |pending| && pending[i] == x && pending[j] == y;
    } else {
      var i :| 0 <= i < |q| && q[i] == x;
      var j :| 0 <= j < |pending| && pending[j] == y;
      if i > 0 {
        assert t[i - 1] == x;
      }
    }
  }

  lemma {:induction false} ServeManyInOrder(pending: seq<string>, e: Engine, n: nat, x: string, y: string)
    requires EngineInv(e) && InOrder(pending, e, x, y) && x != y && x in e.table
    requires forall i :: 0 <= i < |pending| ==> pending[i] in e.table && pending[i] !in e.active
    ensures InOrder(pending, ServeMany(e, n), x, y)
  {
    hide *;
    ServeManyUnfold(e, n);
    if n > 0 {
      ServeManyInOrder(pending, e, n - 1, x, y);
      forall i | 0 <= i < |pending| ensures pending[i] !in ServeMany(e, n - 1).active {
        ServeManyFrame(e, n - 1, pending[i]);
      }
      ServeOneInOrder(pending, ServeMany(e, n - 1), x, y);
    }
  }

  lemma AheadAdmit(pending: seq<string>, active: seq<string>, x: string, y: string)
    requires pending != [] && x != y && Ahead(pending, active, x, y)
    requires NoDup(pending) && forall i :: 0 <= i < |pending| ==> pending[i] !in active
    ensures Ahead(pending[1..], active + [pending[0]], x, y)
    ensures pending[0] != x && pending[0] != y ==> Ahead(pending[1..], active, x, y)
  {
    var rest, queue := pending[1..], active + [pending[0]];
    if Before(active, x, y) {
      var i, j :| 0 <= i < j < |active| && active[i] == x && active[j] == y;
      assert queue[i] == x && queue[j] == y;
    } else if Before(pending, x, y) {
      var i, j :| 0 <= i < j < |pending| && pending[i] == x && pending[j] == y;
      assert rest[j - 1] == y;
      if i == 0 {
        assert queue[|active|] == x;
      } else {
        assert rest[i - 1] == x;
      }
    } else {
      var i :| 0 <= i < |active| && active[i] == x;
      var j :| 0 <= j < |pending| && pending[j] == y;
      assert queue[i] == x;
      if j == 0 {
        assert queue[|active|] == y;
      } else {
        assert rest[j - 1] == y;
      }
    }
  }

  ghost predicate HasTokens(s: State, id: string) {
    id in s.engine.table && s.engine.table[id].request.target != []
  }

  lemma {:induction false} AdmitInOrder(s: State, x: string, y: string)
    requires StateInv(s) && x != y && HasTokens(s, x) && HasTokens(s, y) && InOrder(IdsOf(s.pending), s.engine, x, y)
    ensures InOrder(IdsOf(Admit(s).pending), Admit(s).engine, x, y)
    decreases |s.pending|
  {
    if s.pending != [] && s.pending[0].arrival <= s.tick {
      var r, ids := AdmitOne(s), IdsOf(s.pending);
      PendingIds(s);
      assert IdsOf(r.pending) == ids[1..];
      assert PendingOk(s.pending[0], s.engine, s.tick);
      if !Served(s.engine.log, x) {
        AheadAdmit(ids, s.engine.active, x, y);
      }
      AdmitInOrder(r, x, y);
    }
  }

  lemma PendingIds(s: State)
    requires StateInv(s)
    ensures NoDup(IdsOf(s.pending))
    ensures forall i :: 0 <= i < |s.pending| ==>
      IdsOf(s.pending)[i] in s.engine.table && IdsOf(s.pending)[i] !in s.engine.active
  {
    hide EngineInv;
    forall i | 0 <= i < |s.pending|
      ensures IdsOf(s.pending)[i] in s.engine.table && IdsOf(s.pending)[i] !in s.engine.active
    {
      assert PendingOk(s.pending[i], s.engine, s.tick);
    }
  }

  lemma StepInOrder(B: nat, s: State, x: string, y: string)
    requires StateInv(s) && x != y && HasTokens(s, x) && HasTokens(s, y) && InOrder(IdsOf(s.pending), s.engine, x, y)
    ensures InOrder(IdsOf(Step(B, s).pending), Step(B, s).engine, x, y)
    ensures HasTokens(Step(B, s), x) && HasTokens(Step(B, s), y)
  {
    AdmitInOrder(s, x, y);
    var a := Admit(s);
    PendingIds(a);
    var k := Min(B, |a.engine.active|);
    ServeManyInOrder(IdsOf(a.pending), a.engine, k, x, y);
    ServeManyOwns(a.engine, k, x);
    ServeManyOwns(a.engine, k, y);
    hide EngineInv, ServeMany, RowOf, InOrder, IdsOf;
  }

  lemma {:induction false} FinishInOrder(B: nat, s: State, x: string, y: string)
    requires StateInv(s) && B >= 1 && x != y && HasTokens(s, x) && HasTokens(s, y)
    requires InOrder(IdsOf(s.pending), s.engine, x, y)
    ensures Precedes(Finish(B, s).engine.log, x, y)
    decreases Rank(s), Distance(s)
  {
    hide Step, StateInv, HasTokens, Rank, Distance;
    Simulation.FinishUnfold(B, s);
    if !Done(s) {
      StepProgress(B, s);
      StepInOrder(B, s, x, y);
      FinishInOrder(B, Step(B, s), x, y);
    }
  }

  /** Of two requests, the first to come: by arrival, and at the same tick by their place in the list. */
  ghost predicate ComesFirst(requests: seq<Request>, i: nat, j: nat)
    requires i < |requests| && j < |requests|
  {
    requests[i].arrival < requests[j].arrival || (requests[i].arrival == requests[j].arrival && i < j)
  }

  lemma InitStart(requests: seq<Request>)
    requires UniqueIds(requests)
    ensures var s := Init(requests);
      && s.pending == SortBy(requests, ArrivesBy) && s.engine.log == [] && s.engine.active == []
      && forall q :: q in requests && q.target != [] ==> HasTokens(s, q.id)
  {
    hide SortBy;
    forall q | q in requests && q.target != [] ensures HasTokens(Init(requests), q.id) {
      TableHas(requests, q);
    }
  }

  lemma EarlierFirst(pending: seq<Request>, x: Request, y: Request)
    requires PendingOrder(pending) && x in pending && y in pending && x.arrival < y.arrival
    ensures Before(pending, x, y)
  {
    var k :| 0 <= k < |pending| && pending[k] == x;
    var l :| 0 <= l < |pending| && pending[l] == y;
    assert k < l;
  }

  lemma SortedInOrder(requests: seq<Request>, i: nat, j: nat)
    requires UniqueIds(requests) && i < |requests| && j < |requests| && ComesFirst(requests, i, j)
    ensures Before(SortBy(requests, ArrivesBy), requests[i], requests[j])
  {
    hide SortBy, UniqueIds;
    if i < j {
      SortKeepsOrder(requests, i, j, ArrivesBy);
    } else {
      InitOrder(requests);
      assert requests[i] in requests && requests[j] in requests;
      EarlierFirst(SortBy(requests, ArrivesBy), requests[i], requests[j]);
    }
  }

  lemma PendingInOrder(requests: seq<Request>, i: nat, j: nat)
    requires UniqueIds(requests) && i < |requests| && j < |requests| && ComesFirst(requests, i, j)
    ensures Before(IdsOf(SortBy(requests, ArrivesBy)), requests[i].id, requests[j].id)
  {
    SortedInOrder(requests, i, j);
    hide SortBy, UniqueIds;
    var pending := SortBy(requests, ArrivesBy);
    var k, l :| 0 <= k < l < |pending| && pending[k] == requests[i] && pending[l] == requests[j];
    assert IdsOf(pending)[k] == requests[i].id && IdsOf(pending)[l] == requests[j].id;
  }

  lemma FinalInOrder(requests: seq<Request>, B: nat, i: nat, j: nat)
    requires UniqueIds(requests) && B >= 1 && i < |requests| && j < |requests| && ComesFirst(requests, i, j)
    requires requests[i].target != [] && requests[j].target != []
    ensures Precedes(Finish(B, Init(requests)).engine.log, requests[i].id, requests[j].id)
  {
    var x, y := requests[i].id, requests[j].id;
    assert x != y && requests[i] in requests && requests[j] in requests;
    hide *;
    InitStart(requests);
    PendingInOrder(requests, i, j);
    StartInOrder(Init(requests), x, y);
    FinishInOrder(B, Init(requests), x, y);
  }

  /** First come, first served. Of two requests with tokens to decode, the one that arrives first, or is
      listed first if both arrive at the same tick, has been served before any entry that serves the
      other: in an earlier row, or earlier in the same row. */
  lemma FirstComeFirstServed(requests: seq<Request>, B: nat, rows: seq<Row>, i: nat, j: nat, r: nat, b: nat)
    returns (p: nat, a: nat)
    requires UniqueIds(requests) && B >= 1 && rows == Finish(B, Init(requests)).timeline
    requires i < |requests| && j < |requests|
    requires requests[i].arrival < requests[j].arrival || (requests[i].arrival == requests[j].arrival && i < j)
    requires requests[i].target != [] && requests[j].target != []
    requires r < |rows| && b < |rows[r].ids| && rows[r].ids[b] == requests[j].id
    ensures p < |rows| && a < |rows[p].ids| && rows[p].ids[a] == requests[i].id
    ensures p < r || (p == r && a < b)
  {
    assert ComesFirst(requests, i, j);
    hide *;
    FinalInOrder(requests, B, i, j);
    FinalFlat(requests, B);
    p, a := EarlierPlace(rows, requests[i].id, requests[j].id, r, b);
  }

  lemma EarlierPlace(rows: seq<Row>, x: string, y: string, r: nat, b: nat) returns (p: nat, a: nat)
    requires forall i :: 0 <= i < |rows| ==> RowShape(rows[i])
    requires Precedes(Flatten(rows), x, y) && r < |rows| && b < |rows[r].ids| && rows[r].ids[b] == y
    ensures p < |rows| && a < |rows[p].ids| && rows[p].ids[a] == x
    ensures p < r || (p == r && a < b)
  {
    hide Flatten, Slots, Precedes, RowShape;
    FlatIndex(rows, r, b);
    var k := PrecededBy(Flatten(rows), x, y, Slots(rows[..r]) + b);
    p, a := FlatPlace(rows, k);
    FlatIndex(rows, p, a);
    if p > r {
      SlotsMonotone(rows, r, p);
    }
  }

  lemma StartInOrder(s: State, x: string, y: string)
    requires s.engine.log == [] && Before(IdsOf(s.pending), x, y)
    ensures InOrder(IdsOf(s.pending), s.engine, x, y)
  {
  }

  lemma PrecededBy(log: seq<Event>, x: string, y: string, l: nat) returns (k: nat)
    requires Precedes(log, x, y) && l < |log| && log[l].id == y
    ensures k < l && log[k].id == x
  {
    assert Served(log[..l], x);
    k :| 0 <= k < l && log[..l][k].id == x;
  }
}
