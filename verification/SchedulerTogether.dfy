/**
 Requests that all arrive at the same tick: the batch size cannot change what is decoded when, the
 number of decode batches is within the list-scheduling bound, and no schedule whatever is more
 than a factor 2 - 1/B shorter.
 */
module SchedulerTogether {
  import opened Arithmetic
  import opened Sorting
  import opened Scheduler
  import opened SchedulerRuns
  import opened SchedulerBatches
  import opened SchedulerBounds

  ghost predicate SameArrival(requests: seq<Request>) {
    forall q, r :: q in requests && r in requests ==> q.arrival == r.arrival
  }

  lemma Together(requests: seq<Request>)
    requires forall q, r :: q in requests && r in requests ==> q.arrival == r.arrival
    ensures SameArrival(requests)
  {
  }

  lemma AdmitsAll(requests: seq<Request>)
    requires UniqueIds(requests) && SameArrival(requests)
    ensures Admit(Init(requests)).pending == []
  {
    var s := Init(requests);
    InitOrder(requests);
    forall i | 0 <= i < |s.pending| ensures s.pending[i].arrival == s.tick {
      assert s.pending[i] in requests && s.pending[0] in requests;
    }
    AdmitDrains(s);
  }

  lemma {:induction false} AdmitDrains(s: State)
    requires StateInv(s) && forall i :: 0 <= i < |s.pending| ==> s.pending[i].arrival == s.tick
    ensures Admit(s).pending == []
    decreases |s.pending|
  {
    if s.pending != [] {
      AdmitDrains(AdmitOne(s));
    }
  }

  /** Admitting early changes nothing when nobody is left waiting. */
  lemma FinishAdmit(B: nat, s: State)
    requires StateInv(s) && B >= 1 && Admit(s).pending == []
    ensures Finish(B, s) == Finish(B, Admit(s))
  {
    var a := Admit(s);
    assert Admit(a) == a;
    if Done(s) {
      assert a == s;
    } else if Done(a) {
      assert Step(B, s) == a;
    } else {
      assert Step(B, s) == Step(B, a);
    }
    hide EngineInv, StateInv, Step;
  }

  /** The flattened service order, every output and the completion order are the same for all batch
      sizes: each run is serial round robin. */
  lemma ServiceOrderIndependent(requests: seq<Request>, B: nat, C: nat)
    requires UniqueIds(requests) && B >= 1 && C >= 1
    requires forall q, r :: q in requests && r in requests ==> q.arrival == r.arrival
    ensures Finish(B, Init(requests)).engine == Finish(C, Init(requests)).engine
    ensures Finish(B, Init(requests)).engine == ServeMany(Admit(Init(requests)).engine, TargetTokens(requests))
  {
    Together(requests);
    hide Init, Admit, Finish, ServeMany;
    var s := Init(requests);
    AdmitsAll(requests);
    FinishAdmit(B, s);
    FinishAdmit(C, s);
    FinishIsSerial(B, Admit(s));
    FinishIsSerial(C, Admit(s));
    InitWork(requests);
    AdmitWork(s);
  }

  lemma {:induction false} TargetTokensInsert(x: Request, s: seq<Request>)
    ensures TargetTokens(Insert(x, s, ArrivesBy)) == |x.target| + TargetTokens(s)
  {
    if s != [] && !ArrivesBy(x, s[0]) {
      TargetTokensInsert(x, s[1..]);
      assert ([s[0]] + Insert(x, s[1..], ArrivesBy))[1..] == Insert(x, s[1..], ArrivesBy);
    } else {
      assert ([x] + s)[1..] == s;
    }
  }

  lemma {:induction false} TargetTokensSort(s: seq<Request>)
    ensures TargetTokens(SortBy(s, ArrivesBy)) == TargetTokens(s)
  {
    if s != [] {
      TargetTokensSort(s[1..]);
      TargetTokensInsert(s[0], SortBy(s[1..], ArrivesBy));
    }
  }

  /** A run starts with all target tokens still to decode. */
  lemma InitWork(requests: seq<Request>)
    requires UniqueIds(requests)
    ensures Work(Init(requests)) == TargetTokens(requests)
  {
    TargetTokensSort(requests);
  }

  lemma InitLeft(requests: seq<Request>, longest: nat)
    requires UniqueIds(requests) && forall r :: r in requests ==> |r.target| <= longest
    ensures var e := Admit(Init(requests)).engine;
            forall i :: 0 <= i < |e.active| ==> Left(e.table, e.active[i]) <= longest
  {
    var e := Admit(Init(requests)).engine;
    assert e.table == TableOf(requests);
    forall i | 0 <= i < |e.active| ensures Left(e.table, e.active[i]) <= longest {
      ActiveFacts(e, i);
      assert e.active[i] in TableOf(requests);
    }
  }

  /** List-scheduling bound on the number of decode batches. */
  lemma MakespanTogether(requests: seq<Request>, B: nat, longest: nat)
    requires UniqueIds(requests) && B >= 1
    requires forall q, r :: q in requests && r in requests ==> q.arrival == r.arrival
    requires forall r :: r in requests ==> |r.target| <= longest
    ensures B * |Finish(B, Init(requests)).timeline| <= TargetTokens(requests) + (B - 1) * longest
  {
    hide *;
    Together(requests);
    var s := Init(requests);
    AdmitsAll(requests);
    FinishAdmit(B, s);
    InitLeft(requests, longest);
    InitWork(requests);
    AdmitWork(s);
    InitRows(requests);
    Makespan(B, Admit(s), longest);
  }

  lemma InitRows(requests: seq<Request>)
    requires UniqueIds(requests)
    ensures Init(requests).timeline == []
  {
  }

  // ----- comparison with every feasible schedule

  /** In how many rows an id appears. */
  ghost function Appearances(schedule: seq<seq<string>>, id: string): (n: nat) {
    if schedule == [] then 0
    else Appearances(schedule[..|schedule| - 1], id) + (if id in schedule[|schedule| - 1] then 1 else 0)
  }

  /** Any way to decode the requests in batches of at most B, one token per request and batch. */
  ghost predicate Feasible(B: nat, requests: seq<Request>, schedule: seq<seq<string>>) {
    && (forall i :: 0 <= i < |schedule| ==> |schedule[i]| <= B)
    && (forall r :: r in requests ==> Appearances(schedule, r.id) == |r.target|)
  }

  ghost function HowMany(requests: seq<Request>, ids: set<string>): (n: nat) {
    if requests == [] then 0 else (if requests[0].id in ids then 1 else 0) + HowMany(requests[1..], ids)
  }

  lemma {:induction false} HowManyWithout(requests: seq<Request>, ids: set<string>, id: string)
    requires forall r :: r in requests ==> r.id != id
    ensures HowMany(requests, ids - {id}) == HowMany(requests, ids)
  {
    if requests != [] {
      assert requests[0] in requests;
      HowManyWithout(requests[1..], ids, id);
    }
  }

  lemma {:induction false} HowManyBound(requests: seq<Request>, ids: set<string>)
    requires UniqueIds(requests)
    ensures HowMany(requests, ids) <= |ids|
  {
    if requests != [] {
      var id := requests[0].id;
      if id in ids {
        HowManyWithout(requests[1..], ids, id);
        HowManyBound(requests[1..], ids - {id});
      } else {
        HowManyBound(requests[1..], ids);
      }
    }
  }

  lemma {:induction false} RowAsSet(row: seq<string>)
    ensures |set x | x in row| <= |row|
  {
    if row != [] {
      RowAsSet(row[1..]);
      assert (set x | x in row) == {row[0]} + (set x | x in row[1..]);
    }
  }

  ghost function AllAppearances(requests: seq<Request>, schedule: seq<seq<string>>): (n: nat) {
    if requests == [] then 0 else Appearances(schedule, requests[0].id) + AllAppearances(requests[1..], schedule)
  }

  lemma {:induction false} AppearancesRow(requests: seq<Request>, schedule: seq<seq<string>>, row: seq<string>)
    ensures AllAppearances(requests, schedule + [row])
         == AllAppearances(requests, schedule) + HowMany(requests, set x | x in row)
  {
    if requests != [] {
      AppearancesRow(requests[1..], schedule, row);
      assert (schedule + [row])[..|schedule|] == schedule;
    }
  }

  lemma {:induction false} CapacityBound(B: nat, requests: seq<Request>, schedule: seq<seq<string>>)
    requires UniqueIds(requests) && forall i :: 0 <= i < |schedule| ==> |schedule[i]| <= B
    ensures AllAppearances(requests, schedule) <= B * |schedule|
  {
    if schedule == [] {
      NoAppearances(requests);
    } else {
      var n := |schedule| - 1;
      CapacityBound(B, requests, schedule[..n]);
      assert schedule == schedule[..n] + [schedule[n]];
      AppearancesRow(requests, schedule[..n], schedule[n]);
      HowManyBound(requests, set x | x in schedule[n]);
      RowAsSet(schedule[n]);
      Distribute(B, n, 1);
    }
  }

  lemma {:induction false} NoAppearances(requests: seq<Request>)
    ensures AllAppearances(requests, []) == 0
  {
    if requests != [] {
      NoAppearances(requests[1..]);
    }
  }

  lemma {:induction false} AllDecoded(requests: seq<Request>, schedule: seq<seq<string>>)
    requires forall r :: r in requests ==> Appearances(schedule, r.id) == |r.target|
    ensures AllAppearances(requests, schedule) == TargetTokens(requests)
  {
    if requests != [] {
      assert requests[0] in requests;
      AllDecoded(requests[1..], schedule);
    }
  }

  lemma {:induction false} AppearsOncePerRow(schedule: seq<seq<string>>, id: string)
    ensures Appearances(schedule, id) <= |schedule|
  {
    if schedule != [] {
      AppearsOncePerRow(schedule[..|schedule| - 1], id);
    }
  }

  /** The scheduler uses at most 2 - 1/B times as many decode batches as any feasible schedule. */
  lemma NearOptimal(requests: seq<Request>, B: nat, schedule: seq<seq<string>>)
    requires UniqueIds(requests) && B >= 1 && Feasible(B, requests, schedule)
    requires forall q, r :: q in requests && r in requests ==> q.arrival == r.arrival
    ensures B * |Finish(B, Init(requests)).timeline| <= (2 * B - 1) * |schedule|
  {
    hide Finish, Init;
    forall r | r in requests ensures |r.target| <= |schedule| {
      AppearsOncePerRow(schedule, r.id);
    }
    MakespanTogether(requests, B, |schedule|);
    CapacityBound(B, requests, schedule);
    AllDecoded(requests, schedule);
    DistributeLeft(B, B - 1, |schedule|);
  }

}
