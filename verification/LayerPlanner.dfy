/**
 Contiguous layer placement by free memory. Memory is in exact numbers; a peer's free memory is what
 the planner reads after rounding.
 */
module LayerPlanner {
  import opened Arithmetic
  import opened Sorting
  import opened Sums
  import StringOrder
  import BlockRanges
  import Decimal
  import opened Options

  datatype Peer = Peer(name: Option<string>, freeGb: real)

  datatype Assignment = Assignment(hostname: string, start: int, end: int, count: int, freeGb: real, capacity: int)

  datatype Plan = Plan(supported: bool, numLayers: int, placed: int, missing: int, assignments: seq<Assignment>)

  datatype Launch = Launch(assignment: Assignment, port: int, blockRange: string, seed: Option<string>)

  function Hostname(p: Peer): (s: string) {
    if p.name.Some? && p.name.value != "" then p.name.value else "unknown"
  }

  predicate ByHost(a: Peer, b: Peer) { StringOrder.Le(Hostname(a), Hostname(b)) }

  /** Whole layers that fit into a peer's free memory; negative when its free memory is. */
  function Capacity(p: Peer, perLayer: real): (n: int)
    requires perLayer > 0.0
    ensures n as real <= p.freeGb / perLayer < n as real + 1.0
  {
    (p.freeGb / perLayer).Floor
  }

  function Usable(perLayer: real): (f: Peer -> int)
    requires perLayer > 0.0
  {
    (p: Peer) => if Capacity(p, perLayer) > 0 then Capacity(p, perLayer) else 0
  }

  /** A peer is called by its name, and `unknown` if it has none. */
  lemma HostnameMeans(p: Peer)
    ensures p.name.Some? && p.name.value != "" ==> Hostname(p) == p.name.value
    ensures p.name.None? || p.name.value == "" ==> Hostname(p) == "unknown"
  {
  }

  function TotalCapacity(peers: seq<Peer>, perLayer: real): (n: int)
    requires perLayer > 0.0
  {
    Sum(peers, Usable(perLayer))
  }

  function RangesOf(assignments: seq<Assignment>): (r: seq<BlockRanges.Range>) {
    seq(|assignments|, i requires 0 <= i < |assignments| => (assignments[i].start, assignments[i].end))
  }

  /** A peer's assignment: at least one layer and no more than fit into its memory. */
  ghost predicate AssignmentOk(a: Assignment, peers: seq<Peer>, perLayer: real)
    requires perLayer > 0.0
  {
    && a.count == a.end - a.start && 1 <= a.count <= a.capacity
    && a.count as real * perLayer <= a.freeGb
    && exists p :: p in peers && a.hostname == Hostname(p) && a.capacity == Capacity(p, perLayer) && a.freeGb == p.freeGb
  }

  /** What an assignment respects: at least one layer, no more than fit, and within the peer's memory. */
  lemma AssignmentFits(a: Assignment, peers: seq<Peer>, perLayer: real)
    requires perLayer > 0.0 && AssignmentOk(a, peers, perLayer)
    ensures 1 <= a.count == a.end - a.start && a.count <= a.capacity && a.count as real * perLayer <= a.freeGb
  {
  }

  lemma CapacityFits(p: Peer, perLayer: real, n: int)
    requires perLayer > 0.0 && n <= Capacity(p, perLayer)
    ensures n as real * perLayer <= p.freeGb
  {
    var q := p.freeGb / perLayer;
    assert q * perLayer == p.freeGb;
    MulMono(n as real, q, perLayer);
  }

  lemma {:induction false} ChainAppend(p: seq<BlockRanges.Range>, a: int, b: int, c: int)
    requires BlockRanges.Chain(p, a, b) && b < c
    ensures BlockRanges.Chain(p + [(b, c)], a, c)
  {
    if p == [] {
      assert ([] + [(b, c)])[1..] == [];
      assert BlockRanges.Chain([], c, c);
    } else {
      assert (p + [(b, c)])[1..] == p[1..] + [(b, c)];
      ChainAppend(p[1..], p[0].1, b, c);
    }
  }

  lemma {:induction false} UsableNonNegative(peers: seq<Peer>, perLayer: real)
    requires perLayer > 0.0
    ensures TotalCapacity(peers, perLayer) >= 0
  {
    if peers != [] {
      UsableNonNegative(peers[1..], perLayer);
    }
  }

  /** The assignments of these peers, in this order, from layer `next` on. */
  function AssignFrom(peers: seq<Peer>, next: int, numLayers: int, perLayer: real): (r: seq<Assignment>)
    requires perLayer > 0.0
  {
    if peers == [] || next >= numLayers then []
    else
      var capacity := Capacity(peers[0], perLayer);
      if capacity <= 0 then AssignFrom(peers[1..], next, numLayers, perLayer)
      else
        var count := Min(capacity, numLayers - next);
        [Assignment(Hostname(peers[0]), next, next + count, count, peers[0].freeGb, capacity)]
        + AssignFrom(peers[1..], next + count, numLayers, perLayer)
  }

  /** The assignments tile [0, placed) in order, each within its peer's memory, and placed is the
      smaller of the layer count and the pooled capacity, whatever the order of the peers. */
  ghost predicate Places(peers: seq<Peer>, numLayers: int, perLayer: real, plan: Plan)
    requires perLayer > 0.0
  {
    && plan.numLayers == numLayers
    && plan.placed == Min(numLayers, TotalCapacity(peers, perLayer))
    && plan.missing == numLayers - plan.placed && (plan.supported <==> plan.placed == numLayers)
    && BlockRanges.Chain(RangesOf(plan.assignments), 0, plan.placed)
    && (forall i :: 0 <= i < |plan.assignments| ==> AssignmentOk(plan.assignments[i], peers, perLayer))
    && plan.assignments == AssignFrom(SortBy(peers, ByHost), 0, numLayers, perLayer)
  }

  method PlanPlacement(peers: seq<Peer>, numLayers: int, requiredGb: real) returns (plan: Plan)
    ensures numLayers <= 0 || requiredGb <= 0.0 ==> plan == Plan(false, numLayers, 0, Max(numLayers, 0), [])
    ensures numLayers > 0 && requiredGb > 0.0 ==> Places(peers, numLayers, requiredGb / numLayers as real, plan)
  {
    if numLayers <= 0 || requiredGb <= 0.0 {
      return Plan(false, numLayers, 0, Max(numLayers, 0), []);
    }
    var perLayer := requiredGb / numLayers as real;
    plan := Place(peers, numLayers, perLayer);
  }

  /** What the placement loop holds after the first n peers. */
  ghost predicate PlacedSoFar(peers: seq<Peer>, sorted: seq<Peer>, n: nat, numLayers: int, perLayer: real,
                              assignments: seq<Assignment>, next: int)
    requires perLayer > 0.0
  {
    && n <= |sorted| && 0 <= next <= numLayers
    && assignments + AssignFrom(sorted[n..], next, numLayers, perLayer) == AssignFrom(sorted, 0, numLayers, perLayer)
    && next == Min(numLayers, TotalCapacity(sorted[..n], perLayer))
    && BlockRanges.Chain(RangesOf(assignments), 0, next)
    && forall i :: 0 <= i < |assignments| ==> AssignmentOk(assignments[i], peers, perLayer)
  }

  method Place(peers: seq<Peer>, numLayers: int, perLayer: real) returns (plan: Plan)
    requires numLayers > 0 && perLayer > 0.0
    ensures Places(peers, numLayers, perLayer, plan)
  {
    hide *;
    var assignments: seq<Assignment>, next := [], 0;
    var sorted := SortBy(peers, ByHost);
    PlaceStart(peers, sorted, numLayers, perLayer);
    SameElements(sorted, peers);
    var n := 0;
    while n < |sorted| && next < numLayers
      invariant 0 <= n <= |sorted|
      invariant PlacedSoFar(peers, sorted, n, numLayers, perLayer, assignments, next)
      decreases |sorted| - n
    {
      var peer := sorted[n];
      var capacity := Capacity(peer, perLayer);
      PlaceNext(peers, sorted, n, numLayers, perLayer, assignments, next);
      if capacity > 0 {
        var count := Min(capacity, numLayers - next);
        assignments := assignments + [Assignment(Hostname(peer), next, next + count, count, peer.freeGb, capacity)];
        next := next + count;
      }
      n := n + 1;
    }
    PlaceEnd(peers, sorted, n, numLayers, perLayer, assignments, next);
    plan := Plan(Max(numLayers - next, 0) == 0, numLayers, next, Max(numLayers - next, 0), assignments);
  }

  lemma PlaceNext(peers: seq<Peer>, sorted: seq<Peer>, n: nat, numLayers: int, perLayer: real,
                  assignments: seq<Assignment>, next: int)
    requires perLayer > 0.0 && PlacedSoFar(peers, sorted, n, numLayers, perLayer, assignments, next)
    requires n < |sorted| && next < numLayers && sorted[n] in peers
    ensures var peer := sorted[n];
            var capacity := Capacity(peer, perLayer);
            var count := Min(capacity, numLayers - next);
            var a := Assignment(Hostname(peer), next, next + count, count, peer.freeGb, capacity);
            if capacity > 0
            then PlacedSoFar(peers, sorted, n + 1, numLayers, perLayer, assignments + [a], next + count)
            else PlacedSoFar(peers, sorted, n + 1, numLayers, perLayer, assignments, next)
  {
    var peer := sorted[n];
    var capacity := Capacity(peer, perLayer);
    hide BlockRanges.Chain, AssignmentOk, RangesOf, TotalCapacity, Capacity, Hostname;
    TotalNext(sorted, n, perLayer);
    AssignNext(sorted, n, next, numLayers, perLayer, assignments);
    hide AssignFrom;
    if capacity > 0 {
      var count := Min(capacity, numLayers - next);
      var a := Assignment(Hostname(peer), next, next + count, count, peer.freeGb, capacity);
      NewAssignment(a, peer, peers, perLayer);
      RangesNext(assignments, a);
      ChainAppend(RangesOf(assignments), 0, next, next + count);
    }
  }

  lemma AssignNext(sorted: seq<Peer>, n: nat, next: int, numLayers: int, perLayer: real, done: seq<Assignment>)
    requires perLayer > 0.0 && n < |sorted| && next < numLayers
    ensures var peer := sorted[n];
            var capacity := Capacity(peer, perLayer);
            var count := Min(capacity, numLayers - next);
            var a := Assignment(Hostname(peer), next, next + count, count, peer.freeGb, capacity);
            done + AssignFrom(sorted[n..], next, numLayers, perLayer)
            == if capacity > 0 then done + [a] + AssignFrom(sorted[n + 1..], next + count, numLayers, perLayer)
               else done + AssignFrom(sorted[n + 1..], next, numLayers, perLayer)
  {
    hide Capacity, Hostname;
    assert sorted[n..][1..] == sorted[n + 1..];
  }

  lemma PlaceEnd(peers: seq<Peer>, sorted: seq<Peer>, n: nat, numLayers: int, perLayer: real,
                 assignments: seq<Assignment>, next: int)
    requires perLayer > 0.0 && PlacedSoFar(peers, sorted, n, numLayers, perLayer, assignments, next)
    requires n == |sorted| || next >= numLayers
    requires sorted == SortBy(peers, ByHost)
    ensures Places(peers, numLayers, perLayer,
                   Plan(Max(numLayers - next, 0) == 0, numLayers, next, Max(numLayers - next, 0), assignments))
  {
    hide BlockRanges.Chain, AssignmentOk, RangesOf, SortBy, TotalCapacity, Sum, Usable, Capacity;
    SumPermutation(sorted, peers, Usable(perLayer));
    TotalIsSum(sorted, perLayer);
    TotalIsSum(peers, perLayer);
    assert AssignFrom(sorted[n..], next, numLayers, perLayer) == [];
    assert assignments + [] == assignments;
    RestAddsNothing(sorted, n, perLayer);
  }

  lemma PlaceStart(peers: seq<Peer>, sorted: seq<Peer>, numLayers: int, perLayer: real)
    requires perLayer > 0.0 && numLayers > 0
    ensures PlacedSoFar(peers, sorted, 0, numLayers, perLayer, [], 0)
  {
    assert sorted[..0] == [] && sorted[0..] == sorted;
    assert [] + AssignFrom(sorted, 0, numLayers, perLayer) == AssignFrom(sorted, 0, numLayers, perLayer);
  }

  lemma NewAssignment(a: Assignment, peer: Peer, peers: seq<Peer>, perLayer: real)
    requires perLayer > 0.0 && peer in peers
    requires a.count == a.end - a.start && 1 <= a.count <= a.capacity == Capacity(peer, perLayer)
    requires a.hostname == Hostname(peer) && a.freeGb == peer.freeGb
    ensures AssignmentOk(a, peers, perLayer)
  {
    CapacityFits(peer, perLayer, a.count);
  }

  lemma RangesNext(assignments: seq<Assignment>, a: Assignment)
    ensures RangesOf(assignments + [a]) == RangesOf(assignments) + [(a.start, a.end)]
  {
  }

  lemma TotalNext(peers: seq<Peer>, n: nat, perLayer: real)
    requires n < |peers| && perLayer > 0.0
    ensures TotalCapacity(peers[..n + 1], perLayer)
         == TotalCapacity(peers[..n], perLayer) + Max(Capacity(peers[n], perLayer), 0)
  {
    assert peers[..n + 1] == peers[..n] + [peers[n]];
    SumSplit(peers[..n], [peers[n]], Usable(perLayer));
    assert [peers[n]][1..] == [];
    assert Sum([peers[n]][1..], Usable(perLayer)) == 0;
  }

  lemma RestAddsNothing(peers: seq<Peer>, n: nat, perLayer: real)
    requires n <= |peers| && perLayer > 0.0
    ensures TotalCapacity(peers, perLayer) >= TotalCapacity(peers[..n], perLayer)
    ensures n == |peers| ==> TotalCapacity(peers, perLayer) == TotalCapacity(peers[..n], perLayer)
  {
    assert peers == peers[..n] + peers[n..];
    SumSplit(peers[..n], peers[n..], Usable(perLayer));
    UsableNonNegative(peers[n..], perLayer);
    if n == |peers| {
      assert peers[..n] == peers;
    }
  }

  /** Repeated scans give the same plan: with distinct host names, the order in which the peers are
      listed does not matter. */
  lemma PlanStable(p: seq<Peer>, q: seq<Peer>, numLayers: int, perLayer: real, a: Plan, b: Plan)
    requires perLayer > 0.0 && multiset(p) == multiset(q)
    requires forall x, y :: x in p && y in p && Hostname(x) == Hostname(y) ==> x == y
    requires Places(p, numLayers, perLayer, a) && Places(q, numLayers, perLayer, b)
    ensures a == b
  {
    StringOrder.LeOrder();
    hide StringOrder.Le, BlockRanges.Chain, AssignmentOk, AssignFrom, Hostname, SortBy, TotalCapacity;
    var s, t := SortBy(p, ByHost), SortBy(q, ByHost);
    SortBySorted(p, ByHost);
    SortBySorted(q, ByHost);
    SameElements(s, p);
    SortedUnique(s, t, ByHost);
    SumPermutation(p, q, Usable(perLayer));
    TotalIsSum(p, perLayer);
    TotalIsSum(q, perLayer);
  }

  lemma TotalIsSum(peers: seq<Peer>, perLayer: real)
    requires perLayer > 0.0
    ensures TotalCapacity(peers, perLayer) == Sum(peers, Usable(perLayer))
  {
  }

  // ----- who gets what

  /** The assignment of a peer that takes layers from `start` on. */
  ghost predicate Assigns(a: Assignment, p: Peer, perLayer: real)
    requires perLayer > 0.0
  {
    a.hostname == Hostname(p) && a.freeGb == p.freeGb && a.capacity == Capacity(p, perLayer) > 0
  }

  /** Assignment k goes to peer at[k]. */
  ghost predicate Matches(peers: seq<Peer>, perLayer: real, r: seq<Assignment>, at: seq<nat>)
    requires perLayer > 0.0
  {
    && |at| == |r| && (forall k :: 0 <= k < |at| ==> at[k] < |peers| && Assigns(r[k], peers[at[k]], perLayer))
    && (forall k, l :: 0 <= k < l < |at| ==> at[k] < at[l])
  }

  /** Only peers without room for a layer are passed over. */
  ghost predicate Skips(peers: seq<Peer>, perLayer: real, short: bool, at: seq<nat>)
    requires perLayer > 0.0
  {
    forall j :: 0 <= j < |peers| && j !in at && (short || (at != [] && j < at[|at| - 1])) ==>
      Capacity(peers[j], perLayer) <= 0
  }

  /** Each assigned peer is filled up, except the last when the layers run out. */
  ghost predicate Full(r: seq<Assignment>, short: bool) {
    forall k :: 0 <= k < |r| && (k + 1 < |r| || short) ==> r[k].count == r[k].capacity
  }

  /** Greedy filling in order. */
  ghost predicate Fills(peers: seq<Peer>, next: int, numLayers: int, perLayer: real, r: seq<Assignment>, at: seq<nat>)
    requires perLayer > 0.0
  {
    var short := EndOf(next, r) < numLayers;
    Matches(peers, perLayer, r, at) && Skips(peers, perLayer, short, at) && Full(r, short)
  }

  function EndOf(next: int, r: seq<Assignment>): (n: int) { if r == [] then next else r[|r| - 1].end }

  lemma {:induction false} AssignFills(peers: seq<Peer>, next: int, numLayers: int, perLayer: real)
    returns (at: seq<nat>)
    requires perLayer > 0.0
    ensures Fills(peers, next, numLayers, perLayer, AssignFrom(peers, next, numLayers, perLayer), at)
  {
    hide *;
    AssignUnfold(peers, next, numLayers, perLayer);
    if peers == [] || next >= numLayers {
      at := [];
      FillsNone(peers, next, numLayers, perLayer);
    } else {
      var rest := peers[1..];
      var capacity := Capacity(peers[0], perLayer);
      if capacity <= 0 {
        var more := AssignFills(rest, next, numLayers, perLayer);
        at := Shift(more);
        FillsLater(peers, next, numLayers, perLayer, AssignFrom(rest, next, numLayers, perLayer), more);
      } else {
        var count := Min(capacity, numLayers - next);
        var more := AssignFills(rest, next + count, numLayers, perLayer);
        at := [0] + Shift(more);
        var a := Assignment(Hostname(peers[0]), next, next + count, count, peers[0].freeGb, capacity);
        FillsFirst(peers, a, numLayers, perLayer, AssignFrom(rest, next + count, numLayers, perLayer), more);
      }
    }
  }

  lemma AssignUnfold(peers: seq<Peer>, next: int, numLayers: int, perLayer: real)
    requires perLayer > 0.0
    ensures var r := AssignFrom(peers, next, numLayers, perLayer);
      if peers == [] || next >= numLayers then r == []
      else
        var capacity := Capacity(peers[0], perLayer);
        var count := Min(capacity, numLayers - next);
        if capacity <= 0 then r == AssignFrom(peers[1..], next, numLayers, perLayer)
        else
          && r == [Assignment(Hostname(peers[0]), next, next + count, count, peers[0].freeGb, capacity)]
                  + AssignFrom(peers[1..], next + count, numLayers, perLayer)
          && (next + count >= numLayers ==> AssignFrom(peers[1..], next + count, numLayers, perLayer) == [])
  {
    hide Capacity, Hostname;
  }

  lemma FillsNone(peers: seq<Peer>, next: int, numLayers: int, perLayer: real)
    requires perLayer > 0.0 && (peers == [] || next >= numLayers)
    ensures Fills(peers, next, numLayers, perLayer, [], [])
  {
  }

  lemma FillsLater(peers: seq<Peer>, next: int, numLayers: int, perLayer: real, r: seq<Assignment>, more: seq<nat>)
    requires perLayer > 0.0 && peers != [] && Capacity(peers[0], perLayer) <= 0
    requires Fills(peers[1..], next, numLayers, perLayer, r, more)
    ensures Fills(peers, next, numLayers, perLayer, r, Shift(more))
  {
    ShiftMeans(more);
    hide Capacity, Assigns, Shift, EndOf;
    var at, short := Shift(more), EndOf(next, r) < numLayers;
    forall j | 0 <= j < |peers| && j !in at && (short || (at != [] && j < at[|at| - 1]))
      ensures Capacity(peers[j], perLayer) <= 0
    {
      assert j > 0 ==> peers[j] == peers[1..][j - 1] && (j - 1) !in more;
    }
  }

  lemma FillsFirst(peers: seq<Peer>, a: Assignment, numLayers: int, perLayer: real, r: seq<Assignment>, more: seq<nat>)
    requires perLayer > 0.0 && peers != [] && a.hostname == Hostname(peers[0]) && a.freeGb == peers[0].freeGb
    requires a.capacity == Capacity(peers[0], perLayer) > 0
    requires a.end < numLayers ==> a.count == a.capacity
    requires a.end >= numLayers ==> r == []
    requires Fills(peers[1..], a.end, numLayers, perLayer, r, more)
    ensures Fills(peers, a.start, numLayers, perLayer, [a] + r, [0] + Shift(more))
  {
    hide Matches, Skips, Full, Shift, Capacity, Hostname;
    var short := EndOf(a.end, r) < numLayers;
    assert EndOf(a.start, [a] + r) == EndOf(a.end, r);
    assert Assigns(a, peers[0], perLayer);
    MatchesFirst(peers, a, perLayer, r, more);
    SkipsFirst(peers, perLayer, short, more);
    FullFirst(a, r, short);
  }

  lemma MatchesFirst(peers: seq<Peer>, a: Assignment, perLayer: real, r: seq<Assignment>, more: seq<nat>)
    requires perLayer > 0.0 && peers != [] && Assigns(a, peers[0], perLayer) && Matches(peers[1..], perLayer, r, more)
    ensures Matches(peers, perLayer, [a] + r, [0] + Shift(more))
  {
    hide Assigns;
    var all, at := [a] + r, [0] + Shift(more);
    forall k | 0 <= k < |at| ensures at[k] < |peers| && Assigns(all[k], peers[at[k]], perLayer) {
      assert k > 0 ==> all[k] == r[k - 1] && peers[at[k]] == peers[1..][more[k - 1]];
    }
  }

  lemma SkipsFirst(peers: seq<Peer>, perLayer: real, short: bool, more: seq<nat>)
    requires perLayer > 0.0 && peers != [] && Skips(peers[1..], perLayer, short, more)
    ensures Skips(peers, perLayer, short, [0] + Shift(more))
  {
    ShiftMeans(more);
    hide Capacity, Shift;
    var at := [0] + Shift(more);
    forall j | 0 <= j < |peers| && j !in at && (short || j < at[|at| - 1]) ensures Capacity(peers[j], perLayer) <= 0 {
      assert j > 0 && peers[j] == peers[1..][j - 1] && (j - 1) !in more;
    }
  }

  lemma FullFirst(a: Assignment, r: seq<Assignment>, short: bool)
    requires Full(r, short) && (r != [] || short ==> a.count == a.capacity)
    ensures Full([a] + r, short)
  {
  }

  /** Which peers a plan uses and how far: peers in order of host name, those of the same name as listed;
      each assignment goes to the next peer with room for a layer, and takes all its room unless the
      layers run out. */
  lemma PlanFills(peers: seq<Peer>, numLayers: int, perLayer: real, plan: Plan) returns (order: seq<Peer>, at: seq<nat>)
    requires numLayers > 0 && perLayer > 0.0 && Places(peers, numLayers, perLayer, plan)
    ensures multiset(order) == multiset(peers)
    ensures forall i, j :: 0 <= i < j < |order| ==> StringOrder.Le(Hostname(order[i]), Hostname(order[j]))
    ensures forall i, j :: 0 <= i < j < |peers| && Hostname(peers[i]) == Hostname(peers[j]) ==>
      Before(order, peers[i], peers[j])
    ensures |at| == |plan.assignments| && forall k, l :: 0 <= k < l < |at| ==> at[k] < at[l]
    ensures forall k :: 0 <= k < |at| ==>
      && at[k] < |order| && plan.assignments[k].hostname == Hostname(order[at[k]])
      && plan.assignments[k].freeGb == order[at[k]].freeGb
      && plan.assignments[k].capacity == Capacity(order[at[k]], perLayer) > 0
    ensures forall j :: 0 <= j < |order| && j !in at && (plan.placed < numLayers || (at != [] && j < at[|at| - 1])) ==>
      Capacity(order[j], perLayer) <= 0
    ensures forall k :: 0 <= k < |at| && (k + 1 < |at| || plan.placed < numLayers) ==>
      plan.assignments[k].count == plan.assignments[k].capacity
  {
    hide *;
    order := SortBy(peers, ByHost);
    at := AssignFills(order, 0, numLayers, perLayer);
    PlanEnd(peers, numLayers, perLayer, plan);
    HostOrder(peers);
    FillsMeans(order, numLayers, perLayer, plan.assignments, at);
  }

  lemma FillsMeans(peers: seq<Peer>, numLayers: int, perLayer: real, r: seq<Assignment>, at: seq<nat>)
    requires perLayer > 0.0 && Fills(peers, 0, numLayers, perLayer, r, at)
    ensures |at| == |r| && forall k, l :: 0 <= k < l < |at| ==> at[k] < at[l]
    ensures forall k :: 0 <= k < |at| ==>
      && at[k] < |peers| && r[k].hostname == Hostname(peers[at[k]]) && r[k].freeGb == peers[at[k]].freeGb
      && r[k].capacity == Capacity(peers[at[k]], perLayer) > 0
    ensures var short := (if r == [] then 0 else r[|r| - 1].end) < numLayers;
      && (forall j :: 0 <= j < |peers| && j !in at && (short || (at != [] && j < at[|at| - 1])) ==>
            Capacity(peers[j], perLayer) <= 0)
      && (forall k :: 0 <= k < |at| && (k + 1 < |at| || short) ==> r[k].count == r[k].capacity)
  {
    hide Capacity, Hostname;
  }

  lemma PlanEnd(peers: seq<Peer>, numLayers: int, perLayer: real, plan: Plan)
    requires numLayers > 0 && perLayer > 0.0 && Places(peers, numLayers, perLayer, plan)
    ensures plan.placed == if plan.assignments == [] then 0 else plan.assignments[|plan.assignments| - 1].end
    ensures plan.assignments == AssignFrom(SortBy(peers, ByHost), 0, numLayers, perLayer)
  {
    hide AssignmentOk, TotalCapacity, SortBy, AssignFrom;
    ChainEnd(RangesOf(plan.assignments), 0, plan.placed);
  }

  lemma {:induction false} ChainEnd(p: seq<BlockRanges.Range>, a: int, b: int)
    requires BlockRanges.Chain(p, a, b)
    ensures b == if p == [] then a else p[|p| - 1].1
  {
    if p != [] {
      ChainEnd(p[1..], p[0].1, b);
    }
  }

  lemma HostOrder(peers: seq<Peer>)
    ensures var order := SortBy(peers, ByHost);
      && (forall i, j :: 0 <= i < j < |order| ==> StringOrder.Le(Hostname(order[i]), Hostname(order[j])))
      && (forall i, j :: 0 <= i < j < |peers| && Hostname(peers[i]) == Hostname(peers[j]) ==>
            Before(order, peers[i], peers[j]))
  {
    StringOrder.LeOrder();
    hide SortBy, StringOrder.Le, Hostname;
    SortBySorted(peers, ByHost);
    var order := SortBy(peers, ByHost);
    forall i, j | 0 <= i < j < |order| ensures StringOrder.Le(Hostname(order[i]), Hostname(order[j])) {
      assert ByHost(order[i], order[j]);
    }
    forall i, j | 0 <= i < j < |peers| && Hostname(peers[i]) == Hostname(peers[j])
      ensures Before(order, peers[i], peers[j])
    {
      SortKeepsOrder(peers, i, j, ByHost);
    }
  }

  // ----- pooled memory

  /** The free memory of all peers together. */
  function Pooled(peers: seq<Peer>): (r: real) {
    if peers == [] then 0.0 else (if peers[0].freeGb > 0.0 then peers[0].freeGb else 0.0) + Pooled(peers[1..])
  }

  lemma {:induction false} PooledMeans(peers: seq<Peer>)
    ensures Pooled(peers) == RealSum(peers, (p: Peer) => if p.freeGb > 0.0 then p.freeGb else 0.0)
  {
    if peers != [] {
      var f := (p: Peer) => if p.freeGb > 0.0 then p.freeGb else 0.0;
      PooledMeans(peers[1..]);
      assert peers == [peers[0]] + peers[1..];
      RealSumSplit([peers[0]], peers[1..], f);
      RealSumNext([], peers[0], f);
      assert [] + [peers[0]] == [peers[0]];
    }
  }

  lemma FloorBounds(p: Peer, perLayer: real)
    requires perLayer > 0.0
    ensures var free := if p.freeGb > 0.0 then p.freeGb else 0.0;
            var n := Usable(perLayer)(p) as real;
            n * perLayer <= free < (n + 1.0) * perLayer
  {
    var n := Usable(perLayer)(p);
    if n > 0 {
      CapacityFits(p, perLayer, n);
      QuotientLess(p.freeGb, perLayer, n as real + 1.0);
      MulMono(1.0, n as real, perLayer);
    } else {
      QuotientLess(p.freeGb, perLayer, 1.0);
    }
  }

  /** Pooled memory lies between the pooled capacity and one layer more per peer. */
  lemma {:induction false} PooledBounds(peers: seq<Peer>, perLayer: real)
    requires perLayer > 0.0
    ensures TotalCapacity(peers, perLayer) as real * perLayer <= Pooled(peers)
    ensures peers != [] ==> Pooled(peers) < (TotalCapacity(peers, perLayer) + |peers|) as real * perLayer
  {
    if peers != [] {
      var n, m := Usable(perLayer)(peers[0]), TotalCapacity(peers[1..], perLayer);
      FloorBounds(peers[0], perLayer);
      PooledBounds(peers[1..], perLayer);
      RealDistribute(n as real, m as real, perLayer);
      RealDistribute(n as real + 1.0, (m + |peers| - 1) as real, perLayer);
      if peers[1..] == [] {
        assert m == 0 && Pooled(peers[1..]) == 0.0;
      }
    }
  }

  /** A supported plan has enough memory in the pool; and a pool with one layer less than one layer
      per peer to spare is always enough. */
  lemma PooledMemory(peers: seq<Peer>, numLayers: int, perLayer: real, plan: Plan)
    requires numLayers > 0 && perLayer > 0.0 && Places(peers, numLayers, perLayer, plan)
    ensures plan.supported ==> Pooled(peers) >= numLayers as real * perLayer
    ensures peers != [] && Pooled(peers) >= (numLayers + |peers| - 1) as real * perLayer ==> plan.supported
  {
    hide *;
    var total := TotalCapacity(peers, perLayer);
    PlacedIsMin(peers, numLayers, perLayer, plan);
    PooledBounds(peers, perLayer);
    if plan.supported {
      AtLeastLayers(Pooled(peers), total, numLayers, perLayer);
    } else if peers != [] {
      FewerLayers(Pooled(peers), total, |peers|, numLayers, perLayer);
    }
  }

  lemma AtLeastLayers(pooled: real, total: int, numLayers: int, perLayer: real)
    requires perLayer > 0.0 && total >= numLayers && total as real * perLayer <= pooled
    ensures pooled >= numLayers as real * perLayer
  {
    MulMono(numLayers as real, total as real, perLayer);
  }

  lemma FewerLayers(pooled: real, total: int, n: nat, numLayers: int, perLayer: real)
    requires perLayer > 0.0 && total < numLayers && pooled < (total + n) as real * perLayer
    ensures pooled < (numLayers + n - 1) as real * perLayer
  {
    MulMono((total + n) as real, (numLayers + n - 1) as real, perLayer);
  }

  /** A plan is supported exactly when the whole layers that fit on each peer add up to the model. */
  lemma PlacedIsMin(peers: seq<Peer>, numLayers: int, perLayer: real, plan: Plan)
    requires perLayer > 0.0 && Places(peers, numLayers, perLayer, plan)
    ensures plan.supported <==> TotalCapacity(peers, perLayer) >= numLayers
  {
    hide BlockRanges.Chain, AssignmentOk, TotalCapacity;
  }

  /** Enough memory in the pool alone is not enough: what is left over on each peer cannot be used. Two
      peers with 1.5 each have room for 3 layers of 1, and yet no plan places the third. */
  lemma PoolAloneNotEnough(plan: Plan)
    requires Places([Peer(None, 1.5), Peer(None, 1.5)], 3, 1.0, plan)
    ensures Pooled([Peer(None, 1.5), Peer(None, 1.5)]) >= 3.0 * 1.0
    ensures !plan.supported && plan.placed == 2 && plan.missing == 1
  {
    var a := Peer(None, 1.5);
    assert Capacity(a, 1.0) == 1;
    var peers := [a, a];
    assert peers[1..] == [a] && [a][1..] == [];
    assert Sum([], Usable(1.0)) == 0 && Pooled([]) == 0.0;
    assert Sum([a], Usable(1.0)) == 1 && Pooled([a]) == 1.5;
    assert TotalCapacity(peers, 1.0) == 2;
    hide BlockRanges.Chain, AssignmentOk, TotalCapacity, AssignFrom, SortBy, RangesOf;
  }

  // ----- launch commands

  /** The host that launch commands name; one without a name is called by its place. */
  function LaunchHost(a: Assignment, index: nat): (s: string)
    ensures s != ""
  {
    if a.hostname != "" then a.hostname else "peer-" + Decimal.Show(index + 1)
  }

  lemma FirstHost(a: Assignment)
    ensures LaunchHost(a, 0) == if a.hostname == "" then "peer-1" else a.hostname
  {
    assert Decimal.Show(1) == "1";
    assert "peer-" + "1" == "peer-1";
  }

  /** Gives each assignment a port and its block range; followers point at the first host. */
  method AttachLaunch(plan: Plan, basePort: int) returns (launches: seq<Launch>)
    ensures |launches| == |plan.assignments|
    ensures forall i :: 0 <= i < |launches| ==>
      && launches[i].assignment == plan.assignments[i] && launches[i].port == basePort + i
      && launches[i].blockRange == BlockRanges.ShowRange((plan.assignments[i].start, plan.assignments[i].end))
      && launches[i].seed == if i == 0 then None else Some(if plan.assignments[0].hostname == "" then "peer-1" else plan.assignments[0].hostname)
  {
    launches := [];
    var seed: Option<string> := None;
    for n := 0 to |plan.assignments|
      invariant |launches| == n
      invariant n > 0 ==> seed == Some(if plan.assignments[0].hostname == "" then "peer-1" else plan.assignments[0].hostname)
      invariant n == 0 ==> seed == None
      invariant forall i :: 0 <= i < n ==>
        && launches[i].assignment == plan.assignments[i] && launches[i].port == basePort + i
        && launches[i].blockRange == BlockRanges.ShowRange((plan.assignments[i].start, plan.assignments[i].end))
        && launches[i].seed == if i == 0 then None else Some(if plan.assignments[0].hostname == "" then "peer-1" else plan.assignments[0].hostname)
    {
      hide BlockRanges.ShowRange, LaunchHost;
      var a := plan.assignments[n];
      if seed.None? {
        FirstHost(a);
        seed := Some(LaunchHost(a, n));
      }
      launches := launches + [Launch(a, basePort + n, BlockRanges.ShowRange((a.start, a.end)),
                                     if n == 0 then None else seed)];
    }
  }

  /** The block ranges of a plan with any assignment at all combine to 0:placed. */
  lemma PlanCombines(peers: seq<Peer>, numLayers: int, perLayer: real, plan: Plan, launches: seq<Launch>)
    requires numLayers > 0 && perLayer > 0.0 && Places(peers, numLayers, perLayer, plan) && plan.assignments != []
    requires |launches| == |plan.assignments|
    requires forall i :: 0 <= i < |launches| ==>
      launches[i].blockRange == BlockRanges.ShowRange((plan.assignments[i].start, plan.assignments[i].end))
    ensures BlockRanges.Combines(seq(|launches|, i requires 0 <= i < |launches| => launches[i].blockRange), 0, plan.placed)
  {
    var p := RangesOf(plan.assignments);
    hide AssignmentOk, TotalCapacity;
    assert BlockRanges.Chain(p, 0, plan.placed);
    BlockRanges.ShownCombines(p, 0, plan.placed);
    hide BlockRanges.Chain, BlockRanges.ShowRange, BlockRanges.Combines;
    assert seq(|launches|, i requires 0 <= i < |launches| => launches[i].blockRange)
        == seq(|p|, i requires 0 <= i < |p| => BlockRanges.ShowRange(p[i]));
  }
}
