/**
 The assembler that turns live captures and a server report into KV prefix-reuse evidence, and what
 its evidence needs in order to pass the verifier.
 */
module LiveCapture {
  import opened Sorting
  import StringOrder
  import KvProof
  import opened EvidenceRows
  import opened Options

  /** A count in the server report: absent, present but not an integer, or an integer. */
  datatype Count = Missing | NotAnInteger | Integer(n: int)

  datatype ServerReport = ServerReport(
    metadataBoundary: bool, observedMetadata: bool, optIn: bool, reuseObserved: bool, liveProven: bool, handoff: bool,
    source: Option<string>, destination: Option<string>, checksum: Option<string>,
    clientCount: Count, serverCount: Count, reusedBy: map<string, int>)

  /** A logits fingerprint: the first non-empty one of the capture, or a digest. */
  type Fingerprint = s: string | s != "" witness "0"

  /** A captured run; `tokens` is None when no generated tokens can be read from it. */
  datatype Capture = Capture(model: Option<string>, tokens: Option<seq<int>>, fingerprint: Fingerprint, seconds: Option<real>)

  datatype Failure = CommonPrefixEmpty | RequestIdsDiffer | WrongModel(id: string) | SuffixEmpty(id: string)
    | NoTokens(id: string)

  // ----- what the server report proves

  predicate MetadataOnly(s: ServerReport) { (s.metadataBoundary || s.observedMetadata) && !s.liveProven }

  predicate HandoffObserved(s: ServerReport) {
    && s.handoff && s.source.Some? && s.destination.Some? && s.source != s.destination
    && s.checksum.Some? && |s.checksum.value| == 64
  }

  predicate LiveReuseProven(s: ServerReport) {
    !MetadataOnly(s) && s.optIn && s.reuseObserved && s.liveProven && HandoffObserved(s)
  }

  /** The prefix count the server reports for a request, or 0 if it proves nothing. */
  function ReusedBy(s: ServerReport, id: string): (n: nat) {
    if LiveReuseProven(s) && id in s.reusedBy && s.reusedBy[id] > 0 then s.reusedBy[id] else 0
  }

  function CountOf(c: Count, default: int): (r: Option<int>) {
    match c
    case Missing => Some(default)
    case NotAnInteger => None
    case Integer(n) => Some(n)
  }

  /** What it takes for a server report to prove live reuse. */
  lemma LiveReuseMeans(s: ServerReport)
    ensures LiveReuseProven(s) <==>
      && s.liveProven && s.optIn && s.reuseObserved && s.handoff
      && s.source.Some? && s.destination.Some? && s.source.value != s.destination.value
      && s.checksum.Some? && |s.checksum.value| == 64
  {
  }

  /** Without live reuse nothing counts as reused; with it, what the server reports for the request, if positive. */
  lemma ReusedMeans(s: ServerReport, id: string)
    ensures !LiveReuseProven(s) ==> ReusedBy(s, id) == 0
    ensures LiveReuseProven(s) && id in s.reusedBy && s.reusedBy[id] > 0 ==> ReusedBy(s, id) == s.reusedBy[id]
    ensures id !in s.reusedBy || s.reusedBy[id] <= 0 ==> ReusedBy(s, id) == 0
  {
    hide LiveReuseProven;
  }

  // ----- the evidence

  function ObservationOf(s: ServerReport, prefixLength: nat): (o: KvProof.Observation) {
    KvProof.Observation(true, true, true, s.source, s.destination, None, None,
                        s.checksum, CountOf(s.clientCount, prefixLength), CountOf(s.serverCount, prefixLength))
  }

  function SideOf(c: Capture, reused: Option<int>): (side: KvProof.Side) {
    KvProof.Side(c.tokens, Some(c.fingerprint), None, None, reused, c.seconds)
  }

  function RowFor(id: string, common: seq<int>, suffix: seq<int>, baseline: Capture, reuse: Capture, s: ServerReport)
    : (r: KvProof.RawRow)
  {
    Object(Some(id), KvProof.Row(
      Some(common), Some(suffix),
      Some(SideOf(baseline, None)), Some(SideOf(reuse, Some(ReusedBy(s, id)))),
      false, false, None, None, None, None, None, None))
  }

  datatype Input = Input(model: string, common: seq<int>, suffixes: map<string, seq<int>>,
                         baseline: map<string, Capture>, reuse: map<string, Capture>, server: ServerReport)

  function PayloadOf(x: Input, rows: seq<KvProof.RawRow>): (p: KvProof.Payload) {
    var live := LiveReuseProven(x.server);
    KvProof.Payload(
      Present(x.model), Some(KvProof.PROOF_GATE), live, true,
      Some(KvProof.REQUIRED_TAGS + ["live_server_capture"]),
      x.server.reuseObserved && live,
      if live then [ObservationOf(x.server, |x.common|)] else [],
      Some(rows), KvProof.Given(x.common))
  }

  /** What the assembler insists on. */
  ghost predicate WellFormed(x: Input) {
    && x.common != [] && x.baseline.Keys == x.reuse.Keys == x.suffixes.Keys
    && forall id :: id in x.baseline ==> CaptureOk(x, id)
  }

  predicate CaptureOk(x: Input, id: string)
    requires id in x.baseline && id in x.reuse && id in x.suffixes
  {
    && (x.baseline[id].model.Some? ==> x.baseline[id].model.value == x.model)
    && (x.reuse[id].model.Some? ==> x.reuse[id].model.value == x.model)
    && x.suffixes[id] != []
    && x.baseline[id].tokens.Some? && x.baseline[id].tokens.value != []
    && x.reuse[id].tokens.Some? && x.reuse[id].tokens.value != []
  }

  /** The evidence that the assembler builds: one row per request, in the order of the ids. */
  ghost predicate Assembled(x: Input, order: seq<string>, p: KvProof.Payload)
    requires WellFormed(x)
  {
    && NoDup(order) && (forall id :: id in order <==> id in x.baseline)
    && p == PayloadOf(x, RowsFor(x, order))
  }

  ghost function RowsFor(x: Input, order: seq<string>): (rows: seq<KvProof.RawRow>)
    requires x.baseline.Keys == x.reuse.Keys == x.suffixes.Keys
    requires forall id :: id in order ==> id in x.baseline
  {
    seq(|order|, i requires 0 <= i < |order| =>
      assert order[i] in order;
      RowFor(order[i], x.common, x.suffixes[order[i]], x.baseline[order[i]], x.reuse[order[i]], x.server))
  }

  /** The evidence field by field, apart from its rows. */
  lemma AssembledMeans(x: Input, order: seq<string>, p: KvProof.Payload)
    requires WellFormed(x) && Assembled(x, order, p)
    ensures p.model == (if x.model == "" then None else Some(x.model)) && p.proofGate == Some("kv_prefix_reuse")
    ensures p.reuseEnabled == LiveReuseProven(x.server) && p.baselineMarked && p.common == KvProof.Given(x.common)
    ensures p.tags
         == Some(["kv_prefix_reuse", "no_reuse_baseline", "same_prefix_varied_suffix", "live_server_capture"])
    ensures p.serverClaims == LiveReuseProven(x.server)
    ensures !LiveReuseProven(x.server) ==> p.observations == []
    ensures LiveReuseProven(x.server) ==>
      && |p.observations| == 1
      && var o := p.observations[0];
      && o.reuseObserved && o.liveProven && o.handoff && o.source == x.server.source
      && o.destination == x.server.destination && o.sourceSlice.None? && o.destinationSlice.None?
      && o.checksum == x.server.checksum
      && o.clientCount == CountOf(x.server.clientCount, |x.common|)
      && o.serverCount == CountOf(x.server.serverCount, |x.common|)
  {
    hide CaptureOk, LiveReuseProven, CountOf, NoDup;
    assert KvProof.REQUIRED_TAGS + ["live_server_capture"]
        == ["kv_prefix_reuse", "no_reuse_baseline", "same_prefix_varied_suffix", "live_server_capture"];
    LiveReuseMeans(x.server);
  }

  /** A row of the evidence: the request's captures side by side, with the server's count for it. */
  lemma AssembledRow(x: Input, order: seq<string>, p: KvProof.Payload, i: nat)
    requires WellFormed(x) && Assembled(x, order, p) && i < |order|
    ensures p.rows.Some? && |p.rows.value| == |order| && order[i] in x.baseline
    ensures var id, raw := order[i], p.rows.value[i];
      && raw.Object? && raw.id == Some(id) && raw.row.prefix == Some(x.common) && raw.row.suffix == Some(x.suffixes[id])
      && raw.row.baseline == Some(KvProof.Side(x.baseline[id].tokens, Some(x.baseline[id].fingerprint), None, None, None,
                                               x.baseline[id].seconds))
      && raw.row.reuse == Some(KvProof.Side(x.reuse[id].tokens, Some(x.reuse[id].fingerprint), None, None,
                                            Some(ReusedBy(x.server, id)), x.reuse[id].seconds))
      && !raw.row.deniesTokens && !raw.row.deniesLogits && raw.row.maxAbs.None? && raw.row.meanAbs.None?
      && raw.row.reusedCount.None? && raw.row.baselineSeconds.None? && raw.row.reuseSeconds.None?
      && raw.row.declaredDelta.None?
  {
    hide CaptureOk, LiveReuseProven, CountOf, NoDup, ReusedBy;
    assert order[i] in order;
  }

  /** Which captures fit: of this model if they name one, with generated tokens and a suffix. */
  lemma CaptureFits(x: Input, id: string)
    requires id in x.baseline && id in x.reuse && id in x.suffixes
    ensures CaptureOk(x, id) <==>
      && x.suffixes[id] != []
      && forall c :: c == x.baseline[id] || c == x.reuse[id] ==>
           (c.model.Some? ==> c.model.value == x.model) && c.tokens.Some? && c.tokens.value != []
  {
  }

  method Assemble(x: Input) returns (r: Result<KvProof.Payload, Failure>, order: seq<string>)
    ensures r.Ok? <==> WellFormed(x)
    ensures r.Ok? ==> Sorted(order, StringOrder.Le) && Assembled(x, order, r.value)
  {
    order := [];
    if x.common == [] { return Err(CommonPrefixEmpty), order; }
    if x.baseline.Keys != x.reuse.Keys || x.baseline.Keys != x.suffixes.Keys { return Err(RequestIdsDiffer), order; }
    order := StringOrder.SortedKeys(x.baseline.Keys);
    r := AssembleRows(x, order);
  }

  /** One row per request; the first request whose captures do not fit stops the assembly. */
  method AssembleRows(x: Input, order: seq<string>) returns (r: Result<KvProof.Payload, Failure>)
    requires x.common != [] && x.baseline.Keys == x.reuse.Keys == x.suffixes.Keys
    requires NoDup(order) && forall id :: id in order <==> id in x.baseline
    ensures r.Ok? <==> WellFormed(x)
    ensures r.Ok? ==> Assembled(x, order, r.value)
  {
    hide CaptureOk, RowFor, PayloadOf, NoDup, RowsFor;
    RowsForNone(x);
    assert order[..0] == [];
    var rows: seq<KvProof.RawRow> := [];
    for n := 0 to |order|
      invariant rows == RowsFor(x, order[..n])
      invariant forall i :: 0 <= i < n ==> CaptureOk(x, order[i])
    {
      var id := order[n];
      assert id in order;
      var problem := CheckCapture(x, id);
      if problem.Some? { return Err(problem.value); }
      rows := rows + [RowFor(id, x.common, x.suffixes[id], x.baseline[id], x.reuse[id], x.server)];
      RowsForNext(x, order, n);
    }
    assert order[..|order|] == order;
    EachCaptureOk(x, order);
    r := Ok(PayloadOf(x, rows));
  }

  lemma RowsForNone(x: Input)
    requires x.baseline.Keys == x.reuse.Keys == x.suffixes.Keys
    ensures RowsFor(x, []) == []
  {
  }

  lemma RowsForNext(x: Input, order: seq<string>, n: nat)
    requires x.baseline.Keys == x.reuse.Keys == x.suffixes.Keys && n < |order|
    requires forall id :: id in order ==> id in x.baseline
    ensures var id := order[n];
            && id in x.baseline
            && RowsFor(x, order[..n + 1])
            == RowsFor(x, order[..n]) + [RowFor(id, x.common, x.suffixes[id], x.baseline[id], x.reuse[id], x.server)]
  {
    hide RowFor;
    assert order[n] in order;
    assert order[..n + 1] == order[..n] + [order[n]];
  }

  lemma EachCaptureOk(x: Input, order: seq<string>)
    requires x.baseline.Keys == x.reuse.Keys == x.suffixes.Keys
    requires forall id :: id in order <==> id in x.baseline
    requires forall i :: 0 <= i < |order| ==> order[i] in x.baseline && CaptureOk(x, order[i])
    ensures forall id :: id in x.baseline ==> CaptureOk(x, id)
  {
    hide CaptureOk;
    forall id | id in x.baseline ensures CaptureOk(x, id) {
      assert id in order;
      var i :| 0 <= i < |order| && order[i] == id;
    }
  }

  method CheckCapture(x: Input, id: string) returns (problem: Option<Failure>)
    requires id in x.baseline && id in x.reuse && id in x.suffixes
    ensures problem.None? <==> CaptureOk(x, id)
  {
    var a, b := x.baseline[id], x.reuse[id];
    if (a.model.Some? && a.model.value != x.model) || (b.model.Some? && b.model.value != x.model) {
      return Some(WrongModel(id));
    }
    if x.suffixes[id] == [] { return Some(SuffixEmpty(id)); }
    if a.tokens.None? || a.tokens.value == [] || b.tokens.None? || b.tokens.value == [] { return Some(NoTokens(id)); }
    return None;
  }

  // ----- what it takes to pass

  /** Assembled evidence cannot pass unless the server report declared the opt-in, observed reuse,
      proved it live, and handed a checksummed prefix between two distinct handles. */
  lemma OnlyLiveReusePasses(x: Input, order: seq<string>, p: KvProof.Payload, model: Option<string>,
                            minRequests: nat, requireSpeedup: bool)
    requires WellFormed(x) && Assembled(x, order, p)
    requires KvProof.EvidenceHolds(p, model, minRequests, requireSpeedup)
    ensures x.server.optIn && x.server.reuseObserved && x.server.liveProven && x.server.handoff
    ensures x.server.source.Some? && x.server.destination.Some? && x.server.source != x.server.destination
    ensures x.server.checksum.Some? && |x.server.checksum.value| == 64
  {
    hide KvProof.ServerHolds, KvProof.AllHold, UniqueIds, KvProof.Suffixes, KvProof.Saved, RowsFor, WellFormed;
    assert KvProof.HeaderHolds(p, model);
  }

  /** A request whose capture supports the claim. */
  predicate CaptureAgrees(x: Input, id: string)
    requires id in x.baseline && id in x.reuse
  {
    && x.reuse[id].tokens == x.baseline[id].tokens && x.reuse[id].fingerprint == x.baseline[id].fingerprint
    && ReusedBy(x.server, id) >= |x.common|
    && x.baseline[id].seconds.Some? && x.baseline[id].seconds.value > 0.0
    && x.reuse[id].seconds.Some? && x.reuse[id].seconds.value > 0.0
  }

  predicate ServerCountsAgree(x: Input) {
    var a, b := CountOf(x.server.clientCount, |x.common|), CountOf(x.server.serverCount, |x.common|);
    a.Some? && b.Some? ==> a == b
  }

  lemma RowForHolds(x: Input, id: string)
    requires WellFormed(x) && id in x.baseline
    ensures var raw := RowFor(id, x.common, x.suffixes[id], x.baseline[id], x.reuse[id], x.server);
            && (KvProof.RowHolds(raw, KvProof.Given(x.common), x.common) <==> CaptureAgrees(x, id))
            && KvProof.RowSuffix(raw.row) == x.suffixes[id] != []
  {
    assert CaptureOk(x, id);
    hide ReusedBy;
  }

  lemma ServerFits(x: Input, rows: seq<KvProof.RawRow>, model: Option<string>)
    ensures var p := PayloadOf(x, rows);
            KvProof.HeaderHolds(p, model) && KvProof.ServerHolds(p) <==>
              && x.model != "" && (model.Some? ==> model.value == x.model)
              && LiveReuseProven(x.server) && ServerCountsAgree(x)
  {
    var p := PayloadOf(x, rows);
    assert forall i :: 0 <= i < |KvProof.REQUIRED_TAGS| ==>
        p.tags.value[i] == KvProof.REQUIRED_TAGS[i];
    if LiveReuseProven(x.server) {
      var o := ObservationOf(x.server, |x.common|);
      assert p.observations == [o];
      assert p.observations[0] == o;
      assert KvProof.Distinct(o) && KvProof.Checksummed(o);
      assert KvProof.CountsAgree(o) <==> ServerCountsAgree(x);
    }
  }

  lemma RowsForEach(x: Input, order: seq<string>)
    requires WellFormed(x) && forall id :: id in order ==> id in x.baseline
    ensures var rows := RowsFor(x, order);
      && |rows| == |order|
      && forall i :: 0 <= i < |order| ==>
           && order[i] in x.baseline && rows[i].Object?
           && rows[i] == RowFor(order[i], x.common, x.suffixes[order[i]], x.baseline[order[i]], x.reuse[order[i]], x.server)
  {
    hide RowFor, CaptureOk;
    forall i | 0 <= i < |order| ensures order[i] in x.baseline && RowsFor(x, order)[i].Object? {
      assert order[i] in order;
      RowForObject(order[i], x.common, x.suffixes[order[i]], x.baseline[order[i]], x.reuse[order[i]], x.server);
    }
  }

  lemma RowForObject(id: string, common: seq<int>, suffix: seq<int>, baseline: Capture, reuse: Capture, s: ServerReport)
    ensures RowFor(id, common, suffix, baseline, reuse, s).Object?
  {
  }

  /** The id a row goes by in the verifier: its own, or one made from its place if that is empty. */
  lemma RowForId(id: string, common: seq<int>, suffix: seq<int>, baseline: Capture, reuse: Capture, s: ServerReport, i: nat)
    ensures RowId(RowFor(id, common, suffix, baseline, reuse, s), i)
         == if id == "" then "request-" + Decimal.Show(i) else id
  {
    hide Decimal.Show;
  }

  lemma ShowZero()
    ensures "request-" + Decimal.Show(0) == "request-0"
  {
    assert Decimal.Show(0) == "0";
  }

  /** In sorted order only the first id can be empty. */
  lemma EmptyFirst(order: seq<string>, i: nat)
    requires NoDup(order) && Sorted(order, StringOrder.Le) && i < |order| && order[i] == ""
    ensures i == 0
  {
    assert i == 0 || StringOrder.Le(order[0], order[i]);
  }

  /** The ids stay distinct unless an empty one is renamed to one that is taken. */
  ghost predicate NamesDistinct(x: Input) { "" in x.baseline ==> "request-0" !in x.baseline }

  /** The ids by which the verifier knows the rows. */
  lemma RowsForIds(x: Input, order: seq<string>)
    requires WellFormed(x) && NoDup(order) && Sorted(order, StringOrder.Le)
    requires forall id :: id in order ==> id in x.baseline
    ensures |RowsFor(x, order)| == |order|
    ensures forall i :: 0 <= i < |order| ==>
      && RowsFor(x, order)[i].Object? && (order[i] == "" ==> i == 0)
      && RowId(RowsFor(x, order)[i], i) == if order[i] == "" then "request-0" else order[i]
  {
    RowsForEach(x, order);
    ShowZero();
    hide *;
    forall i | 0 <= i < |order|
      ensures order[i] == "" ==> i == 0
      ensures RowId(RowsFor(x, order)[i], i) == if order[i] == "" then "request-0" else order[i]
    {
      var id := order[i];
      RowForId(id, x.common, x.suffixes[id], x.baseline[id], x.reuse[id], x.server, i);
      if id == "" {
        EmptyFirst(order, i);
      }
    }
  }

  lemma RowsUnique(x: Input, order: seq<string>)
    requires WellFormed(x) && NoDup(order) && Sorted(order, StringOrder.Le)
    requires forall id :: id in order <==> id in x.baseline
    ensures UniqueIds(RowsFor(x, order)) <==> NamesDistinct(x)
  {
    RowsForIds(x, order);
    var rows := RowsFor(x, order);
    hide RowsFor, WellFormed, RowId, Sorted;
    if "" in x.baseline && "request-0" in x.baseline {
      assert "" in order && "request-0" in order;
      var i :| 0 <= i < |order| && order[i] == "";
      var j :| 0 <= j < |order| && order[j] == "request-0";
      assert RowId(rows[i], i) == RowId(rows[j], j);
    }
    if NamesDistinct(x) {
      forall i, j | 0 <= i < j < |rows| ensures RowId(rows[i], i) != RowId(rows[j], j) {
        assert order[i] in order && order[j] in order;
      }
    }
  }

  lemma RowsAgree(x: Input, order: seq<string>)
    requires WellFormed(x) && forall id :: id in order <==> id in x.baseline
    ensures (exists P :: KvProof.AllHold(RowsFor(x, order), KvProof.Given(x.common), P)) <==>
            forall id :: id in x.baseline ==> CaptureAgrees(x, id)
  {
    RowsForEach(x, order);
    var rows, common := RowsFor(x, order), KvProof.Given(x.common);
    hide RowsFor, RowFor, WellFormed, CaptureAgrees, KvProof.TokensHold, KvProof.LogitsHold, KvProof.TimingHolds,
      KvProof.ReusedCount, KvProof.RowPrefix, KvProof.RowSuffix;
    forall i | 0 <= i < |rows| ensures KvProof.RowHolds(rows[i], common, x.common) <==> CaptureAgrees(x, order[i]) {
      RowForHolds(x, order[i]);
    }
    if P :| KvProof.AllHold(rows, common, P) {
      forall id | id in x.baseline ensures CaptureAgrees(x, id) {
        assert id in order;
        var i :| 0 <= i < |order| && order[i] == id;
        assert KvProof.RowHolds(rows[i], common, P);
        assert P == x.common;
      }
    }
    if forall id :: id in x.baseline ==> CaptureAgrees(x, id) {
      assert KvProof.AllHold(rows, common, x.common);
    }
  }

  lemma RowsSuffixes(x: Input, order: seq<string>)
    requires WellFormed(x) && forall id :: id in order <==> id in x.baseline
    ensures KvProof.Suffixes(RowsFor(x, order)) == x.suffixes.Values
  {
    RowsForEach(x, order);
    var rows := RowsFor(x, order);
    hide RowsFor, RowFor, KvProof.RowHolds, CaptureAgrees, RowId, CaptureOk;
    forall i | 0 <= i < |rows| ensures KvProof.RowSuffix(rows[i].row) == x.suffixes[order[i]] != [] {
      RowForHolds(x, order[i]);
    }
    hide KvProof.RowSuffix;
    forall v | v in x.suffixes.Values ensures v in KvProof.Suffixes(rows) {
      var id :| id in x.suffixes && x.suffixes[id] == v;
      assert id in order;
      var i :| 0 <= i < |order| && order[i] == id;
      assert KvProof.RowSuffix(rows[i].row) == v;
    }
  }

  lemma {:induction false} EnumerationSize(order: seq<string>, keys: set<string>)
    requires NoDup(order) && forall id :: id in order <==> id in keys
    ensures |order| == |keys|
  {
    if order == [] {
      assert keys == {};
    } else {
      var id := order[0];
      assert id in order;
      forall y ensures y in order[1..] <==> y in keys - {id} {
        assert order == [id] + order[1..];
      }
      EnumerationSize(order[1..], keys - {id});
    }
  }

  /** The seconds that reuse saves on a request, as its two captures measured them. */
  function SecondsSavedBy(x: Input, id: string): (r: real) {
    if id in x.baseline && id in x.reuse && x.baseline[id].seconds.Some? && x.reuse[id].seconds.Some?
    then x.baseline[id].seconds.value - x.reuse[id].seconds.value else 0.0
  }

  function SecondsSaved(x: Input, order: seq<string>): (r: real) {
    if order == [] then 0.0 else SecondsSaved(x, order[..|order| - 1]) + SecondsSavedBy(x, order[|order| - 1])
  }

  lemma RowForSaves(x: Input, id: string)
    requires WellFormed(x) && id in x.baseline && CaptureAgrees(x, id)
    ensures KvProof.RowSaved(RowFor(id, x.common, x.suffixes[id], x.baseline[id], x.reuse[id], x.server))
         == SecondsSavedBy(x, id)
  {
    hide ReusedBy;
  }

  lemma {:induction false} RowsSave(x: Input, order: seq<string>)
    requires WellFormed(x) && forall id :: id in order ==> id in x.baseline && CaptureAgrees(x, id)
    ensures KvProof.Saved(RowsFor(x, order)) == SecondsSaved(x, order)
  {
    if order == [] {
      RowsForNone(x);
    } else {
      var n := |order| - 1;
      hide CaptureOk, RowFor, KvProof.RowSaved, SecondsSavedBy;
      RowsForNext(x, order, n);
      RowsSave(x, order[..n]);
      assert order[..n + 1] == order;
      RowForSaves(x, order[n]);
      var row := RowFor(order[n], x.common, x.suffixes[order[n]], x.baseline[order[n]], x.reuse[order[n]], x.server);
      KvProof.SavedNext(RowsFor(x, order[..n]), row);
    }
  }

  /** Exactly when assembled evidence passes: the model has a name, the server proves live reuse and
      its two counts agree, there are enough requests and enough distinct suffixes, every request
      agrees with its baseline and reuses the whole prefix, and, if asked for, the captures with reuse
      took less time in total. */
  lemma AssembledPasses(x: Input, order: seq<string>, p: KvProof.Payload, model: Option<string>,
                        minRequests: nat, requireSpeedup: bool)
    requires WellFormed(x) && Sorted(order, StringOrder.Le) && Assembled(x, order, p) && minRequests >= 1
    ensures KvProof.EvidenceHolds(p, model, minRequests, requireSpeedup) <==>
      && x.model != "" && (model.Some? ==> model.value == x.model)
      && LiveReuseProven(x.server) && ServerCountsAgree(x)
      && ("" in x.baseline ==> "request-0" !in x.baseline)
      && |x.baseline.Keys| >= minRequests && |x.suffixes.Values| >= minRequests
      && (forall id :: id in x.baseline ==> CaptureAgrees(x, id))
      && (requireSpeedup ==> SecondsSaved(x, order) > 0.0)
  {
    hide *;
    AssembledParts(x, order, p);
    var rows := RowsFor(x, order);
    RowsForEach(x, order);
    EnumerationSize(order, x.baseline.Keys);
    ServerFits(x, rows, model);
    RowsUnique(x, order);
    RowsAgree(x, order);
    RowsSuffixes(x, order);
    PayloadShape(x, rows);
    NamesMean(x);
    EvidenceParts(p, model, minRequests, requireSpeedup);
    if forall id :: id in x.baseline ==> CaptureAgrees(x, id) {
      RowsSave(x, order);
    }
  }

  lemma NamesMean(x: Input)
    ensures NamesDistinct(x) <==> ("" in x.baseline ==> "request-0" !in x.baseline)
  {
  }

  /** Which captures support the claim: same tokens, same fingerprint, both timed, and the server reports
      at least the whole prefix as reused for the request. */
  lemma CaptureAgreesMeans(x: Input, id: string)
    requires id in x.baseline && id in x.reuse && LiveReuseProven(x.server) && x.common != []
    ensures CaptureAgrees(x, id) <==>
      && x.baseline[id].tokens == x.reuse[id].tokens && x.baseline[id].fingerprint == x.reuse[id].fingerprint
      && id in x.server.reusedBy && x.server.reusedBy[id] >= |x.common|
      && x.baseline[id].seconds.Some? && x.baseline[id].seconds.value > 0.0
      && x.reuse[id].seconds.Some? && x.reuse[id].seconds.value > 0.0
  {
    hide LiveReuseProven;
  }

  /** A count that is missing stands for the prefix length; counts must agree where both are integers. */
  lemma CountsMean(x: Input)
    ensures ServerCountsAgree(x) <==>
      !x.server.clientCount.NotAnInteger? && !x.server.serverCount.NotAnInteger? ==>
      (if x.server.clientCount.Missing? then |x.common| else x.server.clientCount.n)
      == (if x.server.serverCount.Missing? then |x.common| else x.server.serverCount.n)
  {
  }

  /** The seconds saved grow request by request by what its captures measured. */
  lemma SecondsSavedMeans(x: Input, order: seq<string>, id: string)
    requires id in x.baseline && id in x.reuse && x.baseline[id].seconds.Some? && x.reuse[id].seconds.Some?
    ensures SecondsSaved(x, []) == 0.0
    ensures SecondsSaved(x, order + [id])
         == SecondsSaved(x, order) + (x.baseline[id].seconds.value - x.reuse[id].seconds.value)
  {
    assert (order + [id])[..|order|] == order;
  }

  lemma AssembledParts(x: Input, order: seq<string>, p: KvProof.Payload)
    requires WellFormed(x) && Assembled(x, order, p)
    ensures x.baseline.Keys == x.reuse.Keys == x.suffixes.Keys
    ensures NoDup(order) && (forall id :: id in order <==> id in x.baseline) && p == PayloadOf(x, RowsFor(x, order))
  {
    hide PayloadOf, RowsFor, NoDup, CaptureOk;
  }

  lemma EvidenceParts(p: KvProof.Payload, model: Option<string>, minRequests: nat, requireSpeedup: bool)
    ensures KvProof.EvidenceHolds(p, model, minRequests, requireSpeedup) <==>
      && KvProof.HeaderHolds(p, model) && KvProof.ServerHolds(p)
      && p.rows.Some? && |p.rows.value| >= minRequests && UniqueIds(p.rows.value)
      && |KvProof.Suffixes(p.rows.value)| >= minRequests
      && (exists P :: KvProof.AllHold(p.rows.value, p.common, P))
      && (requireSpeedup ==> KvProof.Saved(p.rows.value) > 0.0)
  {
    hide KvProof.HeaderHolds, KvProof.ServerHolds, KvProof.AllHold, UniqueIds, KvProof.Suffixes, KvProof.Saved;
  }

  lemma PayloadShape(x: Input, rows: seq<KvProof.RawRow>)
    ensures PayloadOf(x, rows).rows == Some(rows) && PayloadOf(x, rows).common == KvProof.Given(x.common)
  {
  }
}
