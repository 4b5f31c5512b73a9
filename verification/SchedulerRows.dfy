/**
 The final timeline entry by entry: what stands in a row for a request, and that every token of every
 request stands in exactly one place, in order.
 */
module SchedulerRows {
  import opened Scheduler
  import opened SchedulerRuns
  import opened SchedulerHistory
  import opened SchedulerBounds
  import opened SchedulerTurns
  import opened SchedulerTogether
  import opened Sorting
  import Simulation

  // ----- places in the flattened timeline

  /** The place in the flattened timeline of entry a of row p. */
  lemma {:induction false} FlatIndex(rows: seq<Row>, p: nat, a: nat)
    requires forall i :: 0 <= i < |rows| ==> RowShape(rows[i])
    requires p < |rows| && a < |rows[p].ids|
    ensures var k := Slots(rows[..p]) + a;
      && k < |Flatten(rows)|
      && Flatten(rows)[k] == Event(rows[p].ids[a], rows[p].positions[a], rows[p].inputs[a], rows[p].outputs[a],
                                   rows[p].ids[a] in rows[p].finished)
  {
    var n := |rows| - 1;
    SlotsFlatten(rows[..n]);
    if p < n {
      FlatIndex(rows[..n], p, a);
      assert rows[..n][..p] == rows[..p];
    }
  }

  /** Every place in the flattened timeline is such a place. */
  lemma {:induction false} FlatPlace(rows: seq<Row>, k: nat) returns (p: nat, a: nat)
    requires forall i :: 0 <= i < |rows| ==> RowShape(rows[i])
    requires k < |Flatten(rows)|
    ensures p < |rows| && a < |rows[p].ids| && k == Slots(rows[..p]) + a
  {
    var n := |rows| - 1;
    SlotsFlatten(rows[..n]);
    if k < |Flatten(rows[..n])| {
      p, a := FlatPlace(rows[..n], k);
      assert rows[..n][..p] == rows[..p];
    } else {
      p, a := n, k - |Flatten(rows[..n])|;
    }
  }

  lemma {:induction false} SlotsMonotone(rows: seq<Row>, p: nat, r: nat)
    requires p < r <= |rows|
    ensures Slots(rows[..p]) + |rows[p].ids| <= Slots(rows[..r])
  {
    assert rows[..r][..r - 1] == rows[..r - 1];
    if p < r - 1 {
      SlotsMonotone(rows, p, r - 1);
    }
  }

  lemma FinalFlat(requests: seq<Request>, B: nat)
    requires UniqueIds(requests) && B >= 1
    ensures var f := Finish(B, Init(requests));
      && (forall i :: 0 <= i < |f.timeline| ==> RowShape(f.timeline[i]))
      && Flatten(f.timeline) == f.engine.log
  {
    hide Finish, Init, Flatten, RowShape;
    Simulation.FinalState(requests, B);
  }

  // ----- one request's services

  /** The service at place k is the one that projecting the log finds after those before place k. */
  lemma {:induction false} ProjectAt(log: seq<Event>, id: string, k: nat)
    requires k < |log| && log[k].id == id
    ensures |Project(log[..k], id)| < |Project(log, id)|
    ensures Project(log, id)[|Project(log[..k], id)|] == log[k]
  {
    var n := |log| - 1;
    if k < n {
      ProjectAt(log[..n], id, k);
      assert log[..n][..k] == log[..k];
    }
  }

  lemma {:induction false} ProjectPlace(log: seq<Event>, id: string, p: nat) returns (k: nat)
    requires p < |Project(log, id)|
    ensures k < |log| && log[k].id == id && |Project(log[..k], id)| == p
  {
    var n := |log| - 1;
    if p < |Project(log[..n], id)| {
      k := ProjectPlace(log[..n], id, p);
      assert log[..n][..k] == log[..k];
    } else {
      k := n;
    }
  }

  lemma {:induction false} ProjectGrows(log: seq<Event>, id: string, k: nat, l: nat)
    requires k < l <= |log| && log[k].id == id
    ensures |Project(log[..k], id)| < |Project(log[..l], id)|
  {
    assert log[..l][..l - 1] == log[..l - 1];
    if k < l - 1 {
      ProjectGrows(log, id, k, l - 1);
    }
  }

  // ----- the timeline, entry by entry

  /** Rows from which the services of q read as its own decode. */
  ghost predicate Reads(rows: seq<Row>, q: Request) {
    && (forall i :: 0 <= i < |rows| ==> RowShape(rows[i]))
    && Project(Flatten(rows), q.id) == Solo(q, |q.target|)
  }

  lemma FinalReads(requests: seq<Request>, B: nat, q: Request)
    requires UniqueIds(requests) && B >= 1 && q in requests
    ensures Reads(Finish(B, Init(requests)).timeline, q)
  {
    hide Finish, Init, Flatten, Project, Solo;
    Simulation.TimelineDeinterleaves(requests, B, q);
  }

  lemma SoloAt(q: Request, p: nat)
    requires p < |q.target|
    ensures |Solo(q, |q.target|)| == |q.target|
    ensures Solo(q, |q.target|)[p]
         == Event(q.id, p, if p == 0 then q.prompt[|q.prompt| - 1] else q.target[p - 1], q.target[p], p == |q.target| - 1)
  {
  }

  /** Entry a of row r is the service that reading the rows for q finds at its position. */
  lemma EntryIsService(rows: seq<Row>, q: Request, r: nat, a: nat) returns (k: nat)
    requires Reads(rows, q) && r < |rows| && a < |rows[r].ids| && rows[r].ids[a] == q.id
    ensures RowShape(rows[r]) && k == Slots(rows[..r]) + a < |Flatten(rows)| && Flatten(rows)[k].id == q.id
    ensures rows[r].positions[a] == |Project(Flatten(rows)[..k], q.id)| < |q.target|
    ensures Event(q.id, rows[r].positions[a], rows[r].inputs[a], rows[r].outputs[a], q.id in rows[r].finished)
         == Solo(q, |q.target|)[rows[r].positions[a]]
  {
    hide Flatten, Project, Solo, Slots;
    k := Slots(rows[..r]) + a;
    FlatIndex(rows, r, a);
    ProjectAt(Flatten(rows), q.id, k);
    SoloLength(q);
    SoloAt(q, |Project(Flatten(rows)[..k], q.id)|);
  }

  lemma SoloLength(q: Request)
    ensures |Solo(q, |q.target|)| == |q.target|
  {
  }

  /** An entry for a request carries one of its positions, the target token there, and as input the
      target token before it, or the last prompt token at position 0; and the row reports the request
      as finished exactly at its last position. */
  lemma EntryDecodes(requests: seq<Request>, B: nat, rows: seq<Row>, q: Request, r: nat, a: nat)
    requires UniqueIds(requests) && B >= 1 && q in requests && rows == Finish(B, Init(requests)).timeline
    requires r < |rows| && a < |rows[r].ids| && rows[r].ids[a] == q.id
    ensures |rows[r].ids| == |rows[r].positions| == |rows[r].inputs| == |rows[r].outputs|
    ensures var p := rows[r].positions[a];
      && 0 <= p < |q.target| && rows[r].outputs[a] == q.target[p]
      && rows[r].inputs[a] == (if p == 0 then q.prompt[|q.prompt| - 1] else q.target[p - 1])
      && (q.id in rows[r].finished <==> p == |q.target| - 1)
  {
    hide *;
    FinalReads(requests, B, q);
    var k := EntryIsService(rows, q, r, a);
    ShapeMeans(rows[r]);
    SoloAt(q, rows[r].positions[a]);
  }

  lemma ReadsShape(rows: seq<Row>, q: Request)
    requires Reads(rows, q)
    ensures forall i :: 0 <= i < |rows| ==> RowShape(rows[i])
  {
  }

  lemma ShapeMeans(row: Row)
    requires RowShape(row)
    ensures |row.ids| == |row.positions| == |row.inputs| == |row.outputs|
  {
  }

  /** Every token of a request is decoded in some entry. */
  lemma EveryTokenDecoded(requests: seq<Request>, B: nat, rows: seq<Row>, q: Request, p: nat) returns (r: nat, a: nat)
    requires UniqueIds(requests) && B >= 1 && q in requests && rows == Finish(B, Init(requests)).timeline
    requires p < |q.target|
    ensures r < |rows| && a < |rows[r].ids| == |rows[r].positions|
    ensures rows[r].ids[a] == q.id && rows[r].positions[a] == p
  {
    hide *;
    FinalReads(requests, B, q);
    r, a := TokenPlace(rows, q, p);
    var k := EntryIsService(rows, q, r, a);
    ShapeMeans(rows[r]);
  }

  lemma TokenPlace(rows: seq<Row>, q: Request, p: nat) returns (r: nat, a: nat)
    requires Reads(rows, q) && p < |q.target|
    ensures r < |rows| && a < |rows[r].ids| && rows[r].ids[a] == q.id
    ensures var k := Slots(rows[..r]) + a;
      k <= |Flatten(rows)| && |Project(Flatten(rows)[..k], q.id)| == p
  {
    hide Flatten, Project, Solo, Slots;
    SoloLength(q);
    var k := ProjectPlace(Flatten(rows), q.id, p);
    r, a := FlatPlace(rows, k);
    FlatIndex(rows, r, a);
  }

  /** Its positions go up from row to row, so no token is decoded twice. */
  lemma PositionsIncrease(requests: seq<Request>, B: nat, rows: seq<Row>, q: Request, r: nat, a: nat, r': nat, a': nat)
    requires UniqueIds(requests) && B >= 1 && q in requests && rows == Finish(B, Init(requests)).timeline
    requires r < r' < |rows| && a < |rows[r].ids| && a' < |rows[r'].ids|
    requires rows[r].ids[a] == q.id == rows[r'].ids[a']
    ensures |rows[r].ids| == |rows[r].positions| && |rows[r'].ids| == |rows[r'].positions|
    ensures rows[r].positions[a] < rows[r'].positions[a']
  {
    hide *;
    FinalReads(requests, B, q);
    var k := EntryIsService(rows, q, r, a);
    var l := EntryIsService(rows, q, r', a');
    SlotsMonotone(rows, r, r');
    ReadsShape(rows, q);
    ProjectGrows(Flatten(rows), q.id, k, l);
    ShapeMeans(rows[r]);
    ShapeMeans(rows[r']);
  }

  // ----- the run is one of the schedules it is compared with

  /** The batches of a timeline, as such a schedule. */
  function Batches(rows: seq<Row>): (r: seq<seq<string>>) {
    seq(|rows|, i requires 0 <= i < |rows| => rows[i].ids)
  }

  lemma {:induction false} CountOnce(row: Row, id: string)
    requires RowShape(row) && NoDup(row.ids)
    ensures |Project(RowEvents(row), id)| == if id in row.ids then 1 else 0
    decreases |row.ids|
  {
    var n := |row.ids|;
    if n > 0 {
      var last := n - 1;
      var front := row.(ids := row.ids[..last], positions := row.positions[..last], inputs := row.inputs[..last],
                        outputs := row.outputs[..last]);
      CountOnce(front, id);
      assert row.ids == row.ids[..last] + [row.ids[last]];
      var evs := RowEvents(row);
      assert evs[..last] == RowEvents(front);
      assert row.ids[last] !in row.ids[..last];
    }
  }

  lemma {:induction false} AppearancesAre(rows: seq<Row>, id: string)
    requires forall i :: 0 <= i < |rows| ==> RowShape(rows[i]) && NoDup(rows[i].ids)
    ensures Appearances(Batches(rows), id) == |Project(Flatten(rows), id)|
  {
    if rows != [] {
      var n := |rows| - 1;
      AppearancesAre(rows[..n], id);
      assert Batches(rows)[..n] == Batches(rows[..n]);
      CountOnce(rows[n], id);
      ProjectSplit(Flatten(rows[..n]), RowEvents(rows[n]), id);
    }
  }

  lemma ShortRows(B: nat, s: State)
    requires TimelineInv(B, s)
    ensures forall i :: 0 <= i < |s.timeline| ==>
      RowShape(s.timeline[i]) && NoDup(s.timeline[i].ids) && |s.timeline[i].ids| <= B
  {
    hide Flatten, NoDup, RowShape;
  }

  /** The run itself is a feasible schedule: batches of at most B, and every request as often as it has
      target tokens. */
  lemma RunIsFeasible(requests: seq<Request>, B: nat)
    requires UniqueIds(requests) && B >= 1
    ensures Feasible(B, requests, Batches(Finish(B, Init(requests)).timeline))
  {
    var f := Finish(B, Init(requests));
    hide Finish, Init, UniqueIds, TimelineInv, Appearances, Project, Flatten;
    Simulation.FinalState(requests, B);
    ShortRows(B, f);
    forall q | q in requests ensures Appearances(Batches(f.timeline), q.id) == |q.target| {
      Simulation.TimelineDeinterleaves(requests, B, q);
      AppearancesAre(f.timeline, q.id);
      SoloLength(q);
    }
  }
}
