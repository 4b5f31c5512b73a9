/**
 The KV prefix-reuse planner. Requests are planned in order; each may reuse the longest prefix it
 shares with an entry of the cache, and then joins the cache. The total cost turns out to be a
 count of trie nodes, and so does not depend on the order of the requests.
 */
module PrefixReuse {
  import opened Arithmetic
  import opened CommonPrefix
  import opened Sums
  import opened Options
  import Duplicates

  type Tokens = seq<int>

  datatype Fields = Fields(id: string, tokens: Tokens)

  /** A request or a cache entry; the constructors of both refuse an empty id or no tokens. */
  type Entry = f: Fields | f.id != "" && f.tokens != [] witness Fields("e", [0])

  datatype PlanRow = PlanRow(id: string, matched: Option<string>, reusedCount: nat, reused: Tokens, prefill: Tokens,
                             reconstructed: Tokens, matches: bool)

  datatype Failure = ThresholdNotPositive | DuplicateRequestId(id: string)

  datatype Plan = Plan(passed: bool, totalOriginal: nat, totalPrefill: nat, saved: nat, reuseEvents: nat,
                       cacheAfter: seq<Entry>, rows: seq<PlanRow>)

  // ----- what the planner computes

  /** The longest prefix that t shares with any of the entries. */
  function Best(t: Tokens, entries: seq<Tokens>): (n: nat)
    ensures n <= |t|
  {
    if entries == [] then 0
    else
      var last := |entries| - 1;
      var b := Best(t, entries[..last]);
      var c := Lcp(t, entries[last]);
      if c > b then c else b
  }

  lemma {:induction false} BestIsLongest(t: Tokens, entries: seq<Tokens>)
    ensures forall i :: 0 <= i < |entries| ==> Lcp(t, entries[i]) <= Best(t, entries)
    ensures Best(t, entries) > 0 ==> exists i :: 0 <= i < |entries| && Lcp(t, entries[i]) == Best(t, entries)
  {
    if entries != [] {
      var last := |entries| - 1;
      BestIsLongest(t, entries[..last]);
      forall i | 0 <= i < last ensures Lcp(t, entries[i]) <= Best(t, entries[..last]) {
        assert entries[..last][i] == entries[i];
      }
      if Best(t, entries[..last]) > 0 {
        var i :| 0 <= i < last && Lcp(t, entries[..last][i]) == Best(t, entries[..last]);
        assert entries[i] == entries[..last][i];
      }
    }
  }

  function Reused(t: Tokens, entries: seq<Tokens>, m: int): (n: nat)
    ensures n <= |t|
  {
    if Best(t, entries) < m then 0 else Best(t, entries)
  }

  function TokensOf(entries: seq<Entry>): (r: seq<Tokens>) {
    seq(|entries|, i requires 0 <= i < |entries| => entries[i].tokens)
  }

  /** Tokens prefilled when the requests are planned in order against a growing cache. */
  function Prefill(requests: seq<Tokens>, cache: seq<Tokens>, m: int): (n: nat) {
    if requests == [] then 0
    else |requests[0]| - Reused(requests[0], cache, m) + Prefill(requests[1..], cache + [requests[0]], m)
  }

  function Events(requests: seq<Tokens>, cache: seq<Tokens>, m: int): (n: nat) {
    if requests == [] then 0
    else (if Reused(requests[0], cache, m) > 0 then 1 else 0) + Events(requests[1..], cache + [requests[0]], m)
  }

  // ----- the trie

  /** The prefixes of at least m tokens that some entry has: the trie nodes at depth m and below. */
  ghost function Nodes(entries: seq<Tokens>, m: nat): (r: set<Tokens>) {
    set i, k | 0 <= i < |entries| && m <= k <= |entries[i]| :: entries[i][..k]
  }

  /** The m-token prefixes that some entry has. */
  ghost function Level(entries: seq<Tokens>, m: nat): (r: set<Tokens>) {
    set i | 0 <= i < |entries| && m <= |entries[i]| :: entries[i][..m]
  }

  /** The new trie nodes of the requests, at depth m and below. */
  ghost function NewNodes(requests: seq<Tokens>, cache: seq<Tokens>, m: nat): (r: set<Tokens>) {
    Nodes(requests, m) - Nodes(cache, m)
  }

  ghost function NewLevel(requests: seq<Tokens>, cache: seq<Tokens>, m: nat): (r: set<Tokens>) {
    Level(requests, m) - Level(cache, m)
  }

  /** Whether some entry starts with the first k tokens of t depends only on the longest match. */
  lemma CachedPrefix(t: Tokens, entries: seq<Tokens>, m: nat, k: nat)
    requires 1 <= m <= k <= |t|
    ensures t[..k] in Nodes(entries, m) <==> k <= Best(t, entries)
  {
    BestIsLongest(t, entries);
    hide Best, Lcp;
    if t[..k] in Nodes(entries, m) {
      var i, j :| 0 <= i < |entries| && m <= j <= |entries[i]| && entries[i][..j] == t[..k];
      assert |entries[i][..j]| == j;
      LcpUnique(t, entries[i], k);
    }
    if k <= Best(t, entries) {
      var i :| 0 <= i < |entries| && Lcp(t, entries[i]) == Best(t, entries);
      var n := Lcp(t, entries[i]);
      assert t[..k] == t[..n][..k] == entries[i][..n][..k] == entries[i][..k];
    }
  }

  lemma CachedLevel(t: Tokens, entries: seq<Tokens>, m: nat)
    requires 1 <= m <= |t|
    ensures t[..m] in Level(entries, m) <==> m <= Best(t, entries)
  {
    CachedPrefix(t, entries, m, m);
    if t[..m] in Nodes(entries, m) {
      var i, j :| 0 <= i < |entries| && m <= j <= |entries[i]| && entries[i][..j] == t[..m];
      assert |entries[i][..j]| == j;
    }
    if t[..m] in Level(entries, m) {
      var i :| 0 <= i < |entries| && m <= |entries[i]| && entries[i][..m] == t[..m];
      assert entries[i][..m] in Nodes(entries, m);
    }
  }

  ghost function PrefixRange(t: Tokens, lo: nat, hi: nat): (r: set<Tokens>)
    requires hi <= |t|
  {
    set k | lo < k <= hi :: t[..k]
  }

  lemma {:induction false} PrefixRangeSize(t: Tokens, lo: nat, hi: nat)
    requires lo <= hi <= |t|
    ensures |PrefixRange(t, lo, hi)| == hi - lo
  {
    if lo < hi {
      PrefixRangeSize(t, lo, hi - 1);
      assert PrefixRange(t, lo, hi) == PrefixRange(t, lo, hi - 1) + {t[..hi]};
      forall k | lo < k <= hi - 1 ensures t[..k] != t[..hi] {
        assert |t[..k]| == k;
      }
    } else {
      assert PrefixRange(t, lo, hi) == {};
    }
  }

  /** The trie nodes that t adds to the cache: those longer than its longest match. */
  lemma AddedNodes(t: Tokens, cache: seq<Tokens>, m: nat)
    requires m >= 1
    ensures |NewNodes([t], cache, m)|
         == if |t| < m then 0 else if Best(t, cache) < m then |t| - m + 1 else |t| - Best(t, cache)
  {
    var b := Best(t, cache);
    var lo := if b < m then m - 1 else b;
    var added := NewNodes([t], cache, m);
    if |t| < m {
      assert added == {};
    } else {
      forall x ensures x in added <==> x in PrefixRange(t, lo, |t|) {
        if x in added {
          var i, k :| 0 <= i < |[t]| && m <= k <= |[t][i]| && [t][i][..k] == x;
          CachedPrefix(t, cache, m, k);
        }
        if x in PrefixRange(t, lo, |t|) {
          var k :| lo < k <= |t| && t[..k] == x;
          CachedPrefix(t, cache, m, k);
          assert [t][0][..k] in Nodes([t], m);
        }
      }
      assert added == PrefixRange(t, lo, |t|);
      PrefixRangeSize(t, lo, |t|);
    }
  }

  lemma AddedLevel(t: Tokens, cache: seq<Tokens>, m: nat)
    requires m >= 1
    ensures |NewLevel([t], cache, m)| == if |t| >= m && Best(t, cache) < m then 1 else 0
  {
    if |t| < m {
      assert Level([t], m) == {};
    } else {
      assert [t][0][..m] in Level([t], m);
      assert Level([t], m) == {t[..m]};
      CachedLevel(t, cache, m);
      assert Level([t], m) - Level(cache, m) == if Best(t, cache) < m then {t[..m]} else {};
    }
  }

  lemma NodesUnion(a: seq<Tokens>, b: seq<Tokens>, m: nat)
    ensures Nodes(a + b, m) == Nodes(a, m) + Nodes(b, m)
    ensures Level(a + b, m) == Level(a, m) + Level(b, m)
  {
    forall x | x in Nodes(a, m) + Nodes(b, m) ensures x in Nodes(a + b, m) {
      if x in Nodes(a, m) {
        var i, k :| 0 <= i < |a| && m <= k <= |a[i]| && a[i][..k] == x;
        assert (a + b)[i] == a[i];
      } else {
        var i, k :| 0 <= i < |b| && m <= k <= |b[i]| && b[i][..k] == x;
        assert (a + b)[|a| + i] == b[i];
      }
    }
    forall x | x in Level(a, m) + Level(b, m) ensures x in Level(a + b, m) {
      if x in Level(a, m) {
        var i :| 0 <= i < |a| && m <= |a[i]| && a[i][..m] == x;
        assert (a + b)[i] == a[i];
      } else {
        var i :| 0 <= i < |b| && m <= |b[i]| && b[i][..m] == x;
        assert (a + b)[|a| + i] == b[i];
      }
    }
  }

  lemma CountInTwoSteps(first: set<Tokens>, rest: set<Tokens>, cache: set<Tokens>)
    ensures |(first + rest) - cache| == |first - cache| + |rest - (cache + first)|
  {
    assert (first + rest) - cache == (first - cache) + (rest - (cache + first));
  }

  // ----- the cost theorem

  function ShortLength(m: int): (f: Tokens -> int) { (t: Tokens) => if |t| < m then |t| else 0 }

  function IsLong(m: int): (f: Tokens -> int) { (t: Tokens) => if |t| < m then 0 else 1 }

  lemma NewInTwoSteps(t: Tokens, rest: seq<Tokens>, cache: seq<Tokens>, m: nat)
    ensures |NewNodes([t] + rest, cache, m)| == |NewNodes([t], cache, m)| + |NewNodes(rest, cache + [t], m)|
    ensures |NewLevel([t] + rest, cache, m)| == |NewLevel([t], cache, m)| + |NewLevel(rest, cache + [t], m)|
  {
    hide Nodes, Level;
    NodesUnion([t], rest, m);
    NodesUnion(cache, [t], m);
    CountInTwoSteps(Nodes([t], m), Nodes(rest, m), Nodes(cache, m));
    CountInTwoSteps(Level([t], m), Level(rest, m), Level(cache, m));
  }

  /** Total prefill for any threshold m: the new trie nodes at depth m and below, the m - 1 tokens
      above each new m-token prefix, and the requests too short ever to reuse anything. */
  lemma {:induction false} PrefillIsTrieCost(requests: seq<Tokens>, cache: seq<Tokens>, m: nat)
    requires m >= 1
    ensures Prefill(requests, cache, m)
         == |NewNodes(requests, cache, m)| + (m - 1) * |NewLevel(requests, cache, m)| + Sum(requests, ShortLength(m))
  {
    hide *;
    if requests == [] {
      NothingNew(cache, m);
    } else {
      var t, rest := requests[0], requests[1..];
      PlanFirst(requests, cache, m);
      PrefillIsTrieCost(rest, cache + [t], m);
      AddedNodes(t, cache, m);
      AddedLevel(t, cache, m);
      NewInTwoSteps(t, rest, cache, m);
      assert requests == [t] + rest;
      Distribute(m - 1, |NewLevel([t], cache, m)|, |NewLevel(rest, cache + [t], m)|);
    }
  }

  lemma NothingNew(cache: seq<Tokens>, m: nat)
    ensures NewNodes([], cache, m) == {} && NewLevel([], cache, m) == {}
    ensures Prefill([], cache, m) == 0 && Events([], cache, m) == 0
    ensures Sum([], ShortLength(m)) == 0 && Sum([], IsLong(m)) == 0
  {
  }

  /** What planning the first request contributes to the totals. */
  lemma PlanFirst(requests: seq<Tokens>, cache: seq<Tokens>, m: nat)
    requires requests != []
    ensures var t, rest := requests[0], requests[1..];
            var reused := if Best(t, cache) < m then 0 else Best(t, cache);
            && Prefill(requests, cache, m) == |t| - reused + Prefill(rest, cache + [t], m)
            && Events(requests, cache, m) == (if reused > 0 then 1 else 0) + Events(rest, cache + [t], m)
            && Sum(requests, ShortLength(m)) == (if |t| < m then |t| else 0) + Sum(rest, ShortLength(m))
            && Sum(requests, IsLong(m)) == (if |t| < m then 0 else 1) + Sum(rest, IsLong(m))
  {
    hide Best;
  }

  /** With threshold 1 the total prefill is exactly the number of new trie nodes. */
  lemma PrefillIsNodeCount(requests: seq<Tokens>, cache: seq<Tokens>)
    requires forall i :: 0 <= i < |requests| ==> requests[i] != []
    ensures Prefill(requests, cache, 1) == |NewNodes(requests, cache, 1)|
  {
    hide NewNodes, NewLevel, Prefill, Sum, ShortLength;
    PrefillIsTrieCost(requests, cache, 1);
    NoShortRequests(requests);
  }

  lemma {:induction false} NoShortRequests(requests: seq<Tokens>)
    requires forall i :: 0 <= i < |requests| ==> requests[i] != []
    ensures Sum(requests, ShortLength(1)) == 0
  {
    if requests != [] {
      NoShortRequests(requests[1..]);
    }
  }

  /** Every request of at least m tokens either reuses something or brings a new m-token prefix. */
  lemma {:induction false} EventsAreRepeats(requests: seq<Tokens>, cache: seq<Tokens>, m: nat)
    requires m >= 1
    ensures Events(requests, cache, m) == Sum(requests, IsLong(m)) - |NewLevel(requests, cache, m)|
  {
    hide *;
    if requests == [] {
      NothingNew(cache, m);
    } else {
      var t, rest := requests[0], requests[1..];
      PlanFirst(requests, cache, m);
      EventsAreRepeats(rest, cache + [t], m);
      AddedLevel(t, cache, m);
      NewInTwoSteps(t, rest, cache, m);
      assert requests == [t] + rest;
    }
  }

  lemma NodesPermutation(a: seq<Tokens>, b: seq<Tokens>, m: nat)
    requires multiset(a) == multiset(b)
    ensures Nodes(a, m) <= Nodes(b, m) && Level(a, m) <= Level(b, m)
  {
    forall i | 0 <= i < |a| ensures exists j :: 0 <= j < |b| && b[j] == a[i] {
      assert a[i] in multiset(b);
    }
  }

  /** Neither the total prefill nor the number of reuse events depends on the order of the requests. */
  lemma OrderIndependent(a: seq<Tokens>, b: seq<Tokens>, cache: seq<Tokens>, m: nat)
    requires m >= 1 && multiset(a) == multiset(b)
    ensures Prefill(a, cache, m) == Prefill(b, cache, m)
    ensures Events(a, cache, m) == Events(b, cache, m)
  {
    hide Nodes, Level, Prefill, Events, Sum, ShortLength, IsLong;
    PrefillIsTrieCost(a, cache, m);
    PrefillIsTrieCost(b, cache, m);
    EventsAreRepeats(a, cache, m);
    EventsAreRepeats(b, cache, m);
    NodesPermutation(a, b, m);
    NodesPermutation(b, a, m);
    assert Nodes(a, m) == Nodes(b, m) && Level(a, m) == Level(b, m);
    SumPermutation(a, b, ShortLength(m));
    SumPermutation(a, b, IsLong(m));
  }

  // ----- the loops

  /** The first entry with the longest match, if that match is long enough. */
  method FindBestPrefix(tokens: Tokens, entries: seq<Entry>, m: int) returns (matched: Option<Entry>, count: nat)
    ensures count == Reused(tokens, TokensOf(entries), m)
    ensures matched.Some? <==> count > 0
    ensures matched.Some? ==>
      exists i :: 0 <= i < |entries| && entries[i] == matched.value && FirstBest(tokens, entries, i, count)
  {
    hide Lcp, Best, TokensOf;
    matched, count := None, 0;
    ghost var at := 0;
    BestNone(tokens, entries);
    for n := 0 to |entries|
      invariant count == Best(tokens, TokensOf(entries[..n]))
      invariant matched.Some? <==> count > 0
      invariant matched.Some? ==> at < n && entries[at] == matched.value && FirstBest(tokens, entries, at, count)
    {
      var candidate := CommonPrefixLen(tokens, entries[n].tokens);
      BestNext(tokens, entries, n);
      if candidate > count {
        matched, count, at := Some(entries[n]), candidate, n;
      }
    }
    assert entries[..|entries|] == entries;
    if count < m {
      matched, count := None, 0;
    }
  }

  /** Entry i has a match of this length, and no entry before it has one as long. */
  ghost predicate FirstBest(tokens: Tokens, entries: seq<Entry>, i: nat, count: nat)
    requires i < |entries|
  {
    Lcp(tokens, entries[i].tokens) == count && forall j :: 0 <= j < i ==> Lcp(tokens, entries[j].tokens) < count
  }

  lemma BestNone(tokens: Tokens, entries: seq<Entry>)
    ensures Best(tokens, TokensOf(entries[..0])) == 0
  {
  }

  lemma BestNext(tokens: Tokens, entries: seq<Entry>, n: nat)
    requires n < |entries|
    ensures var b, c := Best(tokens, TokensOf(entries[..n])), Lcp(tokens, entries[n].tokens);
      && Best(tokens, TokensOf(entries[..n + 1])) == (if c > b then c else b)
      && (c > b ==> FirstBest(tokens, entries, n, c))
  {
    hide Lcp;
    assert TokensOf(entries[..n + 1])[..n] == TokensOf(entries[..n]);
    BestIsLongest(tokens, TokensOf(entries[..n]));
    forall j | 0 <= j < n ensures Lcp(tokens, entries[j].tokens) <= Best(tokens, TokensOf(entries[..n])) {
      assert TokensOf(entries[..n])[j] == entries[j].tokens;
    }
  }

  predicate UniqueIds(requests: seq<Entry>) {
    forall i, j :: 0 <= i < j < |requests| ==> requests[i].id != requests[j].id
  }

  function Length(e: Entry): (n: int) { |e.tokens| }

  function AsEntry(request: Entry): (e: Entry) { Fields(request.id + ":full", request.tokens) }

  /** The cache after these requests have been planned. */
  function CacheAfter(initial: seq<Entry>, requests: seq<Entry>): (r: seq<Entry>) {
    initial + seq(|requests|, i requires 0 <= i < |requests| => AsEntry(requests[i]))
  }

  /** A row reuses the longest cached prefix, prefills the rest, and the two make up the request; its match
      is the first entry that has that prefix. */
  ghost predicate RowOk(row: PlanRow, request: Entry, cache: seq<Entry>, m: int) {
    && row.id == request.id
    && row.reusedCount == Reused(request.tokens, TokensOf(cache), m) == |row.reused|
    && row.reused + row.prefill == row.reconstructed == request.tokens
    && row.matches
    && (row.matched.Some? <==> row.reusedCount > 0)
    && (row.matched.Some? ==>
          exists k :: 0 <= k < |cache| && cache[k].id == row.matched.value
            && FirstBest(request.tokens, cache, k, row.reusedCount))
  }

  method PlanRequest(request: Entry, cache: seq<Entry>, m: int) returns (row: PlanRow)
    ensures RowOk(row, request, cache, m)
    ensures |row.prefill| == |request.tokens| - row.reusedCount
  {
    var matched, count := FindBestPrefix(request.tokens, cache, m);
    var reused := request.tokens[..count];
    var suffix := request.tokens[count..];
    var reconstructed := reused + suffix;
    var id: Option<string> := None;
    if matched.Some? {
      id := Some(matched.value.id);
      ghost var i :| 0 <= i < |cache| && cache[i] == matched.value && FirstBest(request.tokens, cache, i, count);
      assert cache[i].id == matched.value.id;
    }
    row := PlanRow(request.id, id, count, reused, suffix, reconstructed, reconstructed == request.tokens);
  }

  /** The report of a run of the planner. */
  ghost predicate PlanOk(p: Plan, requests: seq<Entry>, initial: seq<Entry>, m: int) {
    && p.passed && |p.rows| == |requests|
    && (forall i :: 0 <= i < |requests| ==>
          RowOk(p.rows[i], requests[i], CacheAfter(initial, requests[..i]), m))
    && p.totalPrefill == Prefill(TokensOf(requests), TokensOf(initial), m)
    && p.reuseEvents == Events(TokensOf(requests), TokensOf(initial), m)
    && p.saved + p.totalPrefill == p.totalOriginal == Sum(requests, Length)
    && p.saved == Sum(p.rows, ReusedLength) && p.reuseEvents == Sum(p.rows, Reuses)
    && p.cacheAfter == CacheAfter(initial, requests)
  }

  function ReusedLength(row: PlanRow): (n: int) { row.reusedCount }

  function Reuses(row: PlanRow): (n: int) { if row.reusedCount > 0 then 1 else 0 }

  /** A plan, row by row and in full. The final cache is the initial one followed by one entry per request,
      named after it. Row i splits its request into the longest prefix of at least m tokens that the
      cache had when it was planned, and the rest; it names the first entry with that prefix. The
      totals add up the rows. */
  lemma PlanMeans(p: Plan, requests: seq<Entry>, initial: seq<Entry>, m: int)
    requires m >= 1 && PlanOk(p, requests, initial, m)
    ensures p.passed && |p.rows| == |requests| && |p.cacheAfter| == |initial| + |requests|
    ensures p.cacheAfter[..|initial|] == initial
    ensures forall i :: 0 <= i < |requests| ==>
      && p.cacheAfter[|initial| + i].id == requests[i].id + ":full"
      && p.cacheAfter[|initial| + i].tokens == requests[i].tokens
    ensures forall i :: 0 <= i < |requests| ==>
      && p.rows[i].id == requests[i].id && p.rows[i].matches
      && p.rows[i].reused + p.rows[i].prefill == p.rows[i].reconstructed == requests[i].tokens
      && |p.rows[i].reused| == p.rows[i].reusedCount
    ensures forall i :: 0 <= i < |requests| ==>
      && (p.rows[i].reusedCount == 0 || p.rows[i].reusedCount >= m)
      && (p.rows[i].matched.Some? <==> p.rows[i].reusedCount > 0)
    ensures forall i, k :: 0 <= i < |requests| && 0 <= k < |initial| + i ==>
      var n := Lcp(requests[i].tokens, p.cacheAfter[k].tokens);
      n >= m ==> n <= p.rows[i].reusedCount
    ensures forall i :: 0 <= i < |requests| && p.rows[i].matched.Some? ==>
      exists k :: 0 <= k < |initial| + i && p.cacheAfter[k].id == p.rows[i].matched.value
        && Lcp(requests[i].tokens, p.cacheAfter[k].tokens) == p.rows[i].reusedCount
        && forall j :: 0 <= j < k ==> Lcp(requests[i].tokens, p.cacheAfter[j].tokens) < p.rows[i].reusedCount
    ensures p.totalOriginal == Sum(requests, (r: Entry) => |r.tokens|)
    ensures p.totalPrefill == p.totalOriginal - p.saved && p.saved == Sum(p.rows, (row: PlanRow) => row.reusedCount)
    ensures p.reuseEvents == Sum(p.rows, (row: PlanRow) => if row.reusedCount > 0 then 1 else 0)
  {
    hide *;
    PlanParts(p, requests, initial, m);
    PlanTotals(p, requests);
    CacheAfterMeans(initial, requests);
    forall i | 0 <= i < |requests|
      ensures p.rows[i].id == requests[i].id && p.rows[i].matches
      ensures p.rows[i].reused + p.rows[i].prefill == p.rows[i].reconstructed == requests[i].tokens
      ensures |p.rows[i].reused| == p.rows[i].reusedCount
      ensures ReusesLongest(p.rows[i], requests[i].tokens, p.cacheAfter[..|initial| + i], m)
    {
      CacheBefore(initial, requests, i);
      RowReusesLongest(p.rows[i], requests[i], p.cacheAfter[..|initial| + i], m);
    }
    forall i | 0 <= i < |requests|
      ensures p.rows[i].reusedCount == 0 || p.rows[i].reusedCount >= m
      ensures p.rows[i].matched.Some? <==> p.rows[i].reusedCount > 0
      ensures forall k :: 0 <= k < |initial| + i ==>
        var n := Lcp(requests[i].tokens, p.cacheAfter[k].tokens); n >= m ==> n <= p.rows[i].reusedCount
      ensures p.rows[i].matched.Some? ==>
        exists k :: 0 <= k < |initial| + i && p.cacheAfter[k].id == p.rows[i].matched.value
          && Lcp(requests[i].tokens, p.cacheAfter[k].tokens) == p.rows[i].reusedCount
          && forall j :: 0 <= j < k ==> Lcp(requests[i].tokens, p.cacheAfter[j].tokens) < p.rows[i].reusedCount
    {
      LongestIn(p.rows[i], requests[i].tokens, p.cacheAfter, |initial| + i, m);
    }
  }

  lemma PlanParts(p: Plan, requests: seq<Entry>, initial: seq<Entry>, m: int)
    requires PlanOk(p, requests, initial, m)
    ensures p.passed && |p.rows| == |requests| && p.cacheAfter == CacheAfter(initial, requests)
    ensures forall i :: 0 <= i < |requests| ==> RowOk(p.rows[i], requests[i], CacheAfter(initial, requests[..i]), m)
    ensures p.saved + p.totalPrefill == p.totalOriginal == Sum(requests, Length)
    ensures p.saved == Sum(p.rows, ReusedLength) && p.reuseEvents == Sum(p.rows, Reuses)
  {
    hide RowOk, CacheAfter, Prefill, Events, Sum, TokensOf;
  }

  lemma PlanTotals(p: Plan, requests: seq<Entry>)
    ensures Sum(requests, Length) == Sum(requests, (r: Entry) => |r.tokens|)
    ensures Sum(p.rows, ReusedLength) == Sum(p.rows, (row: PlanRow) => row.reusedCount)
    ensures Sum(p.rows, Reuses) == Sum(p.rows, (row: PlanRow) => if row.reusedCount > 0 then 1 else 0)
  {
    hide Sum;
    SumSame(requests, Length, (r: Entry) => |r.tokens|);
    SumSame(p.rows, ReusedLength, (row: PlanRow) => row.reusedCount);
    SumSame(p.rows, Reuses, (row: PlanRow) => if row.reusedCount > 0 then 1 else 0);
  }

  lemma CacheAfterMeans(initial: seq<Entry>, requests: seq<Entry>)
    ensures var cache := CacheAfter(initial, requests);
      && |cache| == |initial| + |requests| && cache[..|initial|] == initial
      && forall i :: 0 <= i < |requests| ==>
           cache[|initial| + i].id == requests[i].id + ":full" && cache[|initial| + i].tokens == requests[i].tokens
  {
  }

  lemma CacheBefore(initial: seq<Entry>, requests: seq<Entry>, i: nat)
    requires i < |requests|
    ensures |initial| + i <= |CacheAfter(initial, requests)|
    ensures CacheAfter(initial, requests[..i]) == CacheAfter(initial, requests)[..|initial| + i]
  {
  }

  /** What a plan costs in all: for every threshold the totals are counts of trie nodes of the requests. */
  lemma PlanCost(p: Plan, requests: seq<Entry>, initial: seq<Entry>, m: nat)
    requires m >= 1 && PlanOk(p, requests, initial, m)
    ensures var r, c := TokensOf(requests), TokensOf(initial);
      && p.totalPrefill == |NewNodes(r, c, m)| + (m - 1) * |NewLevel(r, c, m)| + Sum(r, ShortLength(m))
      && p.reuseEvents == Sum(r, IsLong(m)) - |NewLevel(r, c, m)|
      && (m == 1 ==> p.totalPrefill == |NewNodes(r, c, 1)|)
  {
    hide *;
    PlanPrefill(p, requests, initial, m);
    PrefillIsTrieCost(TokensOf(requests), TokensOf(initial), m);
    EventsAreRepeats(TokensOf(requests), TokensOf(initial), m);
    if m == 1 {
      NonEmptyTokens(requests);
      PrefillIsNodeCount(TokensOf(requests), TokensOf(initial));
    }
  }

  lemma PlanPrefill(p: Plan, requests: seq<Entry>, initial: seq<Entry>, m: int)
    requires PlanOk(p, requests, initial, m)
    ensures p.totalPrefill == Prefill(TokensOf(requests), TokensOf(initial), m)
    ensures p.reuseEvents == Events(TokensOf(requests), TokensOf(initial), m)
  {
    hide RowOk, CacheAfter, Prefill, Events, Sum, TokensOf;
  }

  lemma NonEmptyTokens(requests: seq<Entry>)
    ensures forall i :: 0 <= i < |TokensOf(requests)| ==> TokensOf(requests)[i] != []
  {
  }

  /** No entry shares more than the reused tokens, unless all share fewer than m; and the first entry
      that shares them is the match. */
  ghost predicate ReusesLongest(row: PlanRow, tokens: Tokens, cache: seq<Entry>, m: int) {
    && (row.reusedCount == 0 || row.reusedCount >= m)
    && (forall k :: 0 <= k < |cache| && Lcp(tokens, cache[k].tokens) >= m ==>
          Lcp(tokens, cache[k].tokens) <= row.reusedCount)
    && (row.matched.Some? <==> row.reusedCount > 0)
    && (row.matched.Some? ==>
          exists k :: 0 <= k < |cache| && cache[k].id == row.matched.value
            && Lcp(tokens, cache[k].tokens) == row.reusedCount
            && forall j :: 0 <= j < k ==> Lcp(tokens, cache[j].tokens) < row.reusedCount)
  }

  lemma LongestIn(row: PlanRow, tokens: Tokens, all: seq<Entry>, n: nat, m: int)
    requires n <= |all| && ReusesLongest(row, tokens, all[..n], m)
    ensures row.reusedCount == 0 || row.reusedCount >= m
    ensures row.matched.Some? <==> row.reusedCount > 0
    ensures forall k :: 0 <= k < n ==>
      var c := Lcp(tokens, all[k].tokens); c >= m ==> c <= row.reusedCount
    ensures row.matched.Some? ==>
      exists k :: 0 <= k < n && all[k].id == row.matched.value && Lcp(tokens, all[k].tokens) == row.reusedCount
        && forall j :: 0 <= j < k ==> Lcp(tokens, all[j].tokens) < row.reusedCount
  {
    hide Lcp;
    var cache := all[..n];
    assert forall k :: 0 <= k < n ==> cache[k] == all[k];
    if row.matched.Some? {
      var k :| 0 <= k < |cache| && cache[k].id == row.matched.value && Lcp(tokens, cache[k].tokens) == row.reusedCount
        && forall j :: 0 <= j < k ==> Lcp(tokens, cache[j].tokens) < row.reusedCount;
      assert all[k].id == row.matched.value;
    }
  }

  lemma RowReusesLongest(row: PlanRow, request: Entry, cache: seq<Entry>, m: int)
    requires m >= 1 && RowOk(row, request, cache, m)
    ensures row.id == request.id && row.matches && |row.reused| == row.reusedCount
    ensures row.reused + row.prefill == row.reconstructed == request.tokens
    ensures ReusesLongest(row, request.tokens, cache, m)
  {
    hide Lcp, Best;
    BestIsLongest(request.tokens, TokensOf(cache));
    forall k | 0 <= k < |cache| && Lcp(request.tokens, cache[k].tokens) >= m
      ensures Lcp(request.tokens, cache[k].tokens) <= row.reusedCount
    {
      assert TokensOf(cache)[k] == cache[k].tokens;
    }
    if row.matched.Some? {
      var k :| 0 <= k < |cache| && cache[k].id == row.matched.value
        && FirstBest(request.tokens, cache, k, row.reusedCount);
      assert Lcp(request.tokens, cache[k].tokens) == row.reusedCount;
    }
  }

  method PlanAll(requests: seq<Entry>, initial: seq<Entry>, m: nat) returns (p: Plan)
    ensures PlanOk(p, requests, initial, m)
  {
    hide *;
    var cache, rows: seq<PlanRow>, passed := initial, [], true;
    var original: nat, prefill: nat, saved: nat, events: nat := 0, 0, 0, 0;
    PlanStart(requests, initial);
    assert Sum(rows, ReusedLength) == Sum(rows, Reuses) == 0 by { NoTotals(); }
    for n := 0 to |requests|
      invariant |rows| == n && passed && saved + prefill == original
      invariant saved == Sum(rows, ReusedLength) && events == Sum(rows, Reuses)
      invariant forall i :: 0 <= i < n ==> RowOk(rows[i], requests[i], CacheAfter(initial, requests[..i]), m)
      invariant cache == CacheAfter(initial, requests[..n])
      invariant original + Sum(requests[n..], Length) == Sum(requests, Length)
      invariant prefill + Prefill(TokensOf(requests[n..]), TokensOf(cache), m)
             == Prefill(TokensOf(requests), TokensOf(initial), m)
      invariant events + Events(TokensOf(requests[n..]), TokensOf(cache), m)
             == Events(TokensOf(requests), TokensOf(initial), m)
    {
      var request := requests[n];
      original := original + |request.tokens|;
      var row := PlanRequest(request, cache, m);
      PlanStep(requests, n, initial, m, row);
      prefill := prefill + |row.prefill|;
      saved := saved + row.reusedCount;
      TotalsNext(rows, row);
      rows := rows + [row];
      if row.reusedCount > 0 {
        events := events + 1;
      }
      passed := passed && row.matches;
      cache := cache + [AsEntry(request)];
    }
    PlanEnd(requests, TokensOf(cache), m);
    assert requests[..|requests|] == requests;
    p := Plan(passed, original, prefill, saved, events, cache, rows);
    PlanDone(p, requests, initial, m);
  }

  lemma NoTotals()
    ensures Sum([], ReusedLength) == 0 && Sum([], Reuses) == 0
  {
  }

  lemma TotalsNext(rows: seq<PlanRow>, row: PlanRow)
    ensures Sum(rows + [row], ReusedLength) == Sum(rows, ReusedLength) + row.reusedCount
    ensures Sum(rows + [row], Reuses) == Sum(rows, Reuses) + if row.reusedCount > 0 then 1 else 0
  {
    SumSplit(rows, [row], ReusedLength);
    SumSplit(rows, [row], Reuses);
    NoTotals();
    assert [row][1..] == [];
  }

  lemma PlanDone(p: Plan, requests: seq<Entry>, initial: seq<Entry>, m: int)
    requires p.passed && |p.rows| == |requests|
    requires forall i :: 0 <= i < |requests| ==> RowOk(p.rows[i], requests[i], CacheAfter(initial, requests[..i]), m)
    requires p.totalPrefill == Prefill(TokensOf(requests), TokensOf(initial), m)
    requires p.reuseEvents == Events(TokensOf(requests), TokensOf(initial), m)
    requires p.saved + p.totalPrefill == p.totalOriginal == Sum(requests, Length)
    requires p.saved == Sum(p.rows, ReusedLength) && p.reuseEvents == Sum(p.rows, Reuses)
    requires p.cacheAfter == CacheAfter(initial, requests)
    ensures PlanOk(p, requests, initial, m)
  {
    hide RowOk, CacheAfter, Prefill, Events, TokensOf, Sum;
  }

  /** Plans all requests in order. */
  method PlanPrefixReuse(requests: seq<Entry>, initial: seq<Entry>, m: int) returns (r: Result<Plan, Failure>)
    ensures m < 1 ==> r == Err(ThresholdNotPositive)
    ensures m >= 1 && !UniqueIds(requests) ==>
      && r.Err? && r.error.DuplicateRequestId?
      && exists i, j :: 0 <= i < j < |requests| && requests[i].id == requests[j].id == r.error.id
    ensures m >= 1 && UniqueIds(requests) ==> r.Ok? && PlanOk(r.value, requests, initial, m)
  {
    if m < 1 {
      return Err(ThresholdNotPositive);
    }
    var ids := seq(|requests|, i requires 0 <= i < |requests| => requests[i].id);
    var dup := Duplicates.FindDuplicate(ids);
    if dup.Some? {
      var i, j :| 0 <= i < j < |ids| && ids[i] == ids[j] == dup.value;
      assert requests[i].id == requests[j].id;
      return Err(DuplicateRequestId(dup.value));
    }
    assert UniqueIds(requests) by {
      forall i, j | 0 <= i < j < |requests| ensures requests[i].id != requests[j].id {
        assert ids[i] != ids[j];
      }
    }
    hide *;
    var p := PlanAll(requests, initial, m);
    r := Ok(p);
  }

  lemma PlanStart(requests: seq<Entry>, initial: seq<Entry>)
    ensures CacheAfter(initial, requests[..0]) == initial && requests[0..] == requests
  {
  }

  lemma PlanEnd(requests: seq<Entry>, cache: seq<Tokens>, m: int)
    ensures Prefill(TokensOf(requests[|requests|..]), cache, m) == 0
    ensures Events(TokensOf(requests[|requests|..]), cache, m) == 0
    ensures Sum(requests[|requests|..], Length) == 0
  {
  }

  lemma PlanStep(requests: seq<Entry>, n: nat, initial: seq<Entry>, m: nat, row: PlanRow)
    requires n < |requests|
    requires RowOk(row, requests[n], CacheAfter(initial, requests[..n]), m)
    ensures var cache := CacheAfter(initial, requests[..n]);
            var next := cache + [AsEntry(requests[n])];
            var now, rest := TokensOf(requests[n..]), TokensOf(requests[n + 1..]);
            && next == CacheAfter(initial, requests[..n + 1])
            && Prefill(now, TokensOf(cache), m)
            == |requests[n].tokens| - row.reusedCount + Prefill(rest, TokensOf(next), m)
            && Events(now, TokensOf(cache), m)
            == (if row.reusedCount > 0 then 1 else 0) + Events(rest, TokensOf(next), m)
            && Sum(requests[n..], Length) == |requests[n].tokens| + Sum(requests[n + 1..], Length)
            && row.matches
  {
    var cache := CacheAfter(initial, requests[..n]);
    var next := cache + [AsEntry(requests[n])];
    var now, rest := TokensOf(requests[n..]), TokensOf(requests[n + 1..]);
    assert now[0] == requests[n].tokens && now[1..] == rest;
    assert TokensOf(next) == TokensOf(cache) + [requests[n].tokens];
    assert requests[..n + 1] == requests[..n] + [requests[n]];
    assert next == CacheAfter(initial, requests[..n + 1]);
    assert requests[n..][1..] == requests[n + 1..];
    hide Best, TokensOf, CacheAfter;
  }
}
