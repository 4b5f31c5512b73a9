/**
 The fail-closed verifier of KV prefix-reuse evidence. As in LiveProof, an absent or malformed field
 is None, and the contract of the verifier says exactly which evidence passes. Seconds and logit
 differences are exact numbers.
 */
module KvProof {
  import opened EvidenceRows
  import opened Sums
  import opened Options

  datatype Side = Side(tokens: Option<seq<int>>, fingerprint: Option<string>, logits: Option<seq<real>>,
                       correctness: Option<string>, reusedCount: Option<int>, seconds: Option<real>)

  datatype Row = Row(prefix: Option<seq<int>>, suffix: Option<seq<int>>,
                     baseline: Option<Side>, reuse: Option<Side>, deniesTokens: bool, deniesLogits: bool,
                     maxAbs: Option<real>, meanAbs: Option<real>, reusedCount: Option<int>,
                     baselineSeconds: Option<real>, reuseSeconds: Option<real>, declaredDelta: Option<real>)

  type RawRow = Raw<Row>

  datatype Observation = Observation(reuseObserved: bool, liveProven: bool, handoff: bool,
                                     source: Option<string>, destination: Option<string>,
                                     sourceSlice: Option<(int, int)>, destinationSlice: Option<(int, int)>,
                                     checksum: Option<string>, clientCount: Option<int>, serverCount: Option<int>)

  datatype CommonPrefix = Absent | Malformed | Given(tokens: seq<int>)

  datatype Payload = Payload(model: Option<string>, proofGate: Option<string>, reuseEnabled: bool, baselineMarked: bool,
                             tags: Option<seq<string>>, serverClaims: bool, observations: seq<Observation>,
                             rows: Option<seq<RawRow>>, common: CommonPrefix)

  datatype Failure =
    | ModelMismatch | ModelMissing | WrongGate | ReuseNotEnabled | BaselineNotMarked | TagsNotAList | TagsMissing
    | ServerSilent | NoHandoff | HandlesNotDistinct | WidthsDiffer | CountsDiffer
    | RowsNotAList | TooFewRows | CommonPrefixMalformed | RowNotAnObject(index: nat) | DuplicateId(id: string)
    | PrefixMissing(index: nat) | SuffixMissing(index: nat) | PrefixDiffers(index: nat)
    | BaselineMissing(index: nat) | ReuseMissing(index: nat) | BaselineTokensMissing(index: nat)
    | ReuseTokensMissing(index: nat) | TokensDiffer(index: nat) | TokensDenied(index: nat)
    | BaselineLogitsMissing(index: nat) | ReuseLogitsMissing(index: nat) | LogitsDiffer(index: nat)
    | LogitsDenied(index: nat) | CorrectnessDiffers(index: nat) | ReusedCountMissing(index: nat)
    | ReusedTooFew(index: nat) | BaselineSecondsMissing(index: nat) | ReuseSecondsMissing(index: nat)
    | DeltaWrong(index: nat) | PrefixNotShared | TooFewSuffixes | NotEveryRowReused | NotFaster

  datatype Report = Report(model: Option<string>, failed: seq<Failure>, samePrefixVariedSuffix: bool, tokenParity: bool,
                           logitParity: bool, timingMeasured: bool, speedup: bool, serverObserved: bool)
  {
    predicate Passed() { failed == [] }
  }

  datatype Refusal = MinRequestsNotPositive

  const PROOF_GATE := "kv_prefix_reuse"
  const REQUIRED_TAGS := ["kv_prefix_reuse", "no_reuse_baseline", "same_prefix_varied_suffix"]
  const MAX_ABS_TOLERANCE: real := 0.01
  const MEAN_ABS_TOLERANCE: real := 0.001
  const DELTA_TOLERANCE: real := 0.000001
  const NO_SIDE := Side(None, None, None, None, None, None)

  // ----- reading fields

  function SideOf(side: Option<Side>): (s: Side) { if side.Some? then side.value else NO_SIDE }

  /** The prefix of a row: its own, or the common one if it has none. */
  function RowPrefix(row: Row, common: CommonPrefix): (r: seq<int>) {
    if row.prefix.Some? then row.prefix.value else if common.Given? then common.tokens else []
  }

  function RowSuffix(row: Row): (r: seq<int>) { if row.suffix.Some? then row.suffix.value else [] }

  function Positive(x: Option<real>): (r: Option<real>) { if x.Some? && x.value > 0.0 then x else None }

  function BaselineSeconds(row: Row): (r: Option<real>) {
    var own := Positive(SideOf(row.baseline).seconds);
    if own.Some? then own else Positive(row.baselineSeconds)
  }

  function ReuseSeconds(row: Row): (r: Option<real>) {
    var own := Positive(SideOf(row.reuse).seconds);
    if own.Some? then own else Positive(row.reuseSeconds)
  }

  function ReusedCount(row: Row): (r: Option<int>) {
    if SideOf(row.reuse).reusedCount.Some? then SideOf(row.reuse).reusedCount else row.reusedCount
  }

  function Abs(x: real): (r: real) { if x < 0.0 then -x else x }

  /** The largest of the pairwise differences. */
  function MaxDiff(a: seq<real>, b: seq<real>): (r: real)
    requires |a| == |b|
    ensures r >= 0.0
    ensures forall i :: 0 <= i < |a| ==> Abs(a[i] - b[i]) <= r
    ensures a != [] ==> exists i :: 0 <= i < |a| && Abs(a[i] - b[i]) == r
  {
    if a == [] then 0.0
    else
      var d := Abs(a[0] - b[0]);
      var rest := MaxDiff(a[1..], b[1..]);
      assert d >= rest ==> Abs(a[0] - b[0]) == d;
      assert forall i :: 0 < i < |a| ==> a[i] == a[1..][i - 1] && b[i] == b[1..][i - 1];
      if d > rest then d else rest
  }

  function Pairs(a: seq<real>, b: seq<real>): (r: seq<(real, real)>)
    requires |a| == |b|
  {
    seq(|a|, i requires 0 <= i < |a| => (a[i], b[i]))
  }

  /** The sum of the pairwise differences. */
  function SumDiff(a: seq<real>, b: seq<real>): (r: real)
    requires |a| == |b|
  {
    RealSum(Pairs(a, b), (p: (real, real)) => Abs(p.0 - p.1))
  }

  /** That sum is 0 over no pairs and grows by the difference of each pair appended. */
  lemma SumDiffNext(a: seq<real>, b: seq<real>, x: real, y: real)
    requires |a| == |b|
    ensures SumDiff([], []) == 0.0
    ensures SumDiff(a + [x], b + [y]) == SumDiff(a, b) + if x < y then y - x else x - y
  {
    var f := (p: (real, real)) => Abs(p.0 - p.1);
    assert Pairs(a + [x], b + [y]) == Pairs(a, b) + [(x, y)];
    RealSumNext(Pairs(a, b), (x, y), f);
    assert Pairs([], []) == [];
  }

  /** It is never negative and does not depend on the order of the pairs. */
  lemma SumDiffReorder(a: seq<real>, b: seq<real>, c: seq<real>, d: seq<real>)
    requires |a| == |b| && |c| == |d| && multiset(Pairs(a, b)) == multiset(Pairs(c, d))
    ensures SumDiff(a, b) == SumDiff(c, d) >= 0.0
  {
    RealSumPermutation(Pairs(a, b), Pairs(c, d), (p: (real, real)) => Abs(p.0 - p.1));
    RealSumNonNegative(Pairs(a, b), (p: (real, real)) => Abs(p.0 - p.1));
  }

  // ----- what passing evidence says

  ghost predicate HeaderHolds(p: Payload, model: Option<string>) {
    && (model.Some? ==> p.model == model) && p.model.Some?
    && (p.proofGate.None? || p.proofGate.value == PROOF_GATE)
    && p.reuseEnabled && p.baselineMarked
    && p.tags.Some? && (forall i :: 0 <= i < |REQUIRED_TAGS| ==> REQUIRED_TAGS[i] in p.tags.value)
    && !p.common.Malformed?
  }

  /** Whether two handles, or two slices of one handle, are disjoint and of equal width. */
  predicate Distinct(o: Observation) {
    && o.source.Some? && o.destination.Some?
    && (o.source != o.destination
        || (&& o.sourceSlice.Some? && o.destinationSlice.Some?
            && var (a, b) := o.sourceSlice.value;
               var (c, d) := o.destinationSlice.value;
               && 0 <= a < b && 0 <= c < d && b - a == d - c && (b <= c || d <= a)))
  }

  predicate Checksummed(o: Observation) { o.checksum.Some? && |o.checksum.value| == 64 }

  predicate CountsAgree(o: Observation) {
    o.clientCount.Some? && o.serverCount.Some? ==> o.clientCount == o.serverCount
  }

  /** A handoff that the verifier passes over rather than judges. */
  predicate Inconclusive(o: Observation) {
    !o.handoff || o.source.None? || o.destination.None? || (Distinct(o) && !Checksummed(o))
  }

  /** Some handoff is conclusive, and the first conclusive one is sound. */
  ghost predicate HandoffHolds(observations: seq<Observation>) {
    exists i :: 0 <= i < |observations| && !Inconclusive(observations[i])
      && (forall j :: 0 <= j < i ==> Inconclusive(observations[j]))
      && Distinct(observations[i]) && Checksummed(observations[i]) && CountsAgree(observations[i])
  }

  ghost predicate ServerHolds(p: Payload) {
    && (p.serverClaims
        || exists i :: 0 <= i < |p.observations| && p.observations[i].reuseObserved && p.observations[i].liveProven)
    && HandoffHolds(p.observations)
  }

  ghost predicate TokensHold(row: Row) {
    && row.baseline.Some? && row.reuse.Some? && !row.deniesTokens
    && row.baseline.value.tokens.Some? && row.baseline.value.tokens.value != []
    && row.reuse.value.tokens == row.baseline.value.tokens
    && (row.baseline.value.correctness.Some? && row.reuse.value.correctness.Some? ==>
          row.baseline.value.correctness == row.reuse.value.correctness)
  }

  /** Logits agree by number: by the declared differences, or by the logits themselves. */
  predicate NumbersAgree(row: Row) {
    if row.maxAbs.Some? && row.meanAbs.Some? then
      row.maxAbs.value <= MAX_ABS_TOLERANCE && row.meanAbs.value <= MEAN_ABS_TOLERANCE
    else
      var a, b := SideOf(row.baseline).logits, SideOf(row.reuse).logits;
      && a.Some? && b.Some? && |a.value| == |b.value| > 0
      && MaxDiff(a.value, b.value) <= MAX_ABS_TOLERANCE
      && SumDiff(a.value, b.value) <= MEAN_ABS_TOLERANCE * |a.value| as real
  }

  ghost predicate LogitsHold(row: Row) {
    var a, b := SideOf(row.baseline).fingerprint, SideOf(row.reuse).fingerprint;
    a.Some? && b.Some? && (a == b || NumbersAgree(row)) && !row.deniesLogits
  }

  ghost predicate TimingHolds(row: Row) {
    && BaselineSeconds(row).Some? && ReuseSeconds(row).Some?
    && (row.declaredDelta.Some? ==>
          Abs(row.declaredDelta.value - (BaselineSeconds(row).value - ReuseSeconds(row).value)) <= DELTA_TOLERANCE)
  }

  /** A row that reuses at least the prefix P, has a suffix, and agrees with its baseline. */
  ghost predicate RowHolds(raw: RawRow, common: CommonPrefix, P: seq<int>) {
    raw.Object?
    && RowPrefix(raw.row, common) == P && P != [] && (common.Given? ==> common.tokens == P)
    && RowSuffix(raw.row) != []
    && TokensHold(raw.row) && LogitsHold(raw.row) && TimingHolds(raw.row)
    && ReusedCount(raw.row).Some? && ReusedCount(raw.row).value >= |P|
  }

  ghost predicate AllHold(rows: seq<RawRow>, common: CommonPrefix, P: seq<int>) {
    forall i :: 0 <= i < |rows| ==> RowHolds(rows[i], common, P)
  }

  ghost function Suffixes(rows: seq<RawRow>): (r: set<seq<int>>) {
    set i | 0 <= i < |rows| && rows[i].Object? && RowSuffix(rows[i].row) != [] :: RowSuffix(rows[i].row)
  }

  /** The time a row saves, when both times are known. */
  function RowSaved(raw: RawRow): (r: real) {
    if raw.Object? && BaselineSeconds(raw.row).Some? && ReuseSeconds(raw.row).Some?
    then BaselineSeconds(raw.row).value - ReuseSeconds(raw.row).value else 0.0
  }

  function Saved(rows: seq<RawRow>): (r: real) {
    if rows == [] then 0.0
    else
      Saved(rows[..|rows| - 1]) + RowSaved(rows[|rows| - 1])
  }

  /** Exactly the evidence that passes: one non-empty prefix shared by all rows, enough distinct
      suffixes, parity in every row, and, if asked for, less time in total with reuse than without. */
  ghost predicate EvidenceHolds(p: Payload, model: Option<string>, minRequests: nat, requireSpeedup: bool) {
    && HeaderHolds(p, model) && ServerHolds(p)
    && p.rows.Some? && |p.rows.value| >= minRequests && UniqueIds(p.rows.value)
    && |Suffixes(p.rows.value)| >= minRequests
    && (exists P :: AllHold(p.rows.value, p.common, P))
    && (requireSpeedup ==> Saved(p.rows.value) > 0.0)
  }

  // ----- the same, field by field

  /** What the header of passing evidence carries. */
  lemma HeaderMeans(p: Payload, model: Option<string>)
    ensures HeaderHolds(p, model) <==>
      && p.model.Some? && (model.Some? ==> p.model.value == model.value)
      && (p.proofGate.Some? ==> p.proofGate.value == "kv_prefix_reuse")
      && p.reuseEnabled && p.baselineMarked && !p.common.Malformed?
      && p.tags.Some? && "kv_prefix_reuse" in p.tags.value && "no_reuse_baseline" in p.tags.value
      && "same_prefix_varied_suffix" in p.tags.value
  {
    var tags := if p.tags.Some? then p.tags.value else [];
    assert REQUIRED_TAGS[0] == "kv_prefix_reuse" && REQUIRED_TAGS[1] == "no_reuse_baseline"
        && REQUIRED_TAGS[2] == "same_prefix_varied_suffix" && |REQUIRED_TAGS| == 3;
    if HeaderHolds(p, model) {
      assert REQUIRED_TAGS[0] in tags && REQUIRED_TAGS[1] in tags && REQUIRED_TAGS[2] in tags;
    }
  }

  /** Source and destination are distinct when they are two handles, or two disjoint slices of equal
      width of one handle. A handoff without both handles is passed over, and so is a distinct one
      without a checksum of 64 characters. */
  lemma HandoffMeans(o: Observation)
    ensures Distinct(o) <==>
      && o.source.Some? && o.destination.Some?
      && (o.source.value == o.destination.value ==>
            && o.sourceSlice.Some? && o.destinationSlice.Some?
            && var (a, b) := o.sourceSlice.value;
               var (c, d) := o.destinationSlice.value;
            && 0 <= a < b && 0 <= c < d && b - a == d - c && (b <= c || d <= a))
    ensures Inconclusive(o) <==>
      || !o.handoff || o.source.None? || o.destination.None?
      || (Distinct(o) && (o.checksum.None? || |o.checksum.value| != 64))
    ensures Checksummed(o) && CountsAgree(o) <==>
      && o.checksum.Some? && |o.checksum.value| == 64
      && (o.clientCount.Some? && o.serverCount.Some? ==> o.clientCount.value == o.serverCount.value)
  {
  }

  /** The server's part: it reported reuse, in its summary or in an observation, and the first handoff
      that is not passed over is sound. */
  lemma ServerMeans(p: Payload)
    ensures ServerHolds(p) <==>
      && (p.serverClaims
          || exists i :: 0 <= i < |p.observations| && p.observations[i].reuseObserved && p.observations[i].liveProven)
      && exists i :: 0 <= i < |p.observations| && !Inconclusive(p.observations[i])
           && (forall j :: 0 <= j < i ==> Inconclusive(p.observations[j]))
           && Distinct(p.observations[i]) && Checksummed(p.observations[i]) && CountsAgree(p.observations[i])
  {
    hide Inconclusive, Distinct, Checksummed, CountsAgree;
  }

  /** Logits agree by number exactly when the declared differences are within 0.01 and 0.001, or, when
      one of them is missing, every logit is within 0.01 and their mean difference within 0.001. */
  lemma NumbersMean(row: Row)
    ensures row.maxAbs.Some? && row.meanAbs.Some? ==>
      (NumbersAgree(row) <==> row.maxAbs.value <= 0.01 && row.meanAbs.value <= 0.001)
    ensures row.maxAbs.None? || row.meanAbs.None? ==>
      (NumbersAgree(row) <==>
         && row.baseline.Some? && row.baseline.value.logits.Some? && row.reuse.Some? && row.reuse.value.logits.Some?
         && var a, b := row.baseline.value.logits.value, row.reuse.value.logits.value;
         && |a| == |b| > 0
         && (forall i :: 0 <= i < |a| ==> -0.01 <= a[i] - b[i] <= 0.01)
         && SumDiff(a, b) / |a| as real <= 0.001)
  {
    hide SumDiff;
    var a, b := SideOf(row.baseline).logits, SideOf(row.reuse).logits;
    if a.Some? && b.Some? && |a.value| == |b.value| > 0 {
      MaxMeans(a.value, b.value);
      MeanMeans(SumDiff(a.value, b.value), |a.value| as real);
    }
  }

  lemma MaxMeans(a: seq<real>, b: seq<real>)
    requires |a| == |b| > 0
    ensures MaxDiff(a, b) <= 0.01 <==> forall i :: 0 <= i < |a| ==> -0.01 <= a[i] - b[i] <= 0.01
  {
    var k :| 0 <= k < |a| && Abs(a[k] - b[k]) == MaxDiff(a, b);
    hide MaxDiff;
    if MaxDiff(a, b) <= 0.01 {
      forall i | 0 <= i < |a| ensures -0.01 <= a[i] - b[i] <= 0.01 {
        assert Abs(a[i] - b[i]) <= MaxDiff(a, b);
      }
    }
  }

  lemma MeanMeans(total: real, n: real)
    requires n > 0.0
    ensures total <= 0.001 * n <==> total / n <= 0.001
  {
    assert total / n * n == total;
    if total / n <= 0.001 {
      assert total / n * n <= 0.001 * n;
    } else {
      assert total / n * n > 0.001 * n;
    }
  }

  /** The time that counts for a side: its own if positive, else the row's if that is positive. */
  lemma SecondsMean(row: Row, t: real)
    ensures BaselineSeconds(row) == Some(t) <==>
      && t > 0.0
      && var own := if row.baseline.Some? then row.baseline.value.seconds else None;
         own == Some(t) || ((own.None? || own.value <= 0.0) && row.baselineSeconds == Some(t))
    ensures ReuseSeconds(row) == Some(t) <==>
      && t > 0.0
      && var own := if row.reuse.Some? then row.reuse.value.seconds else None;
         own == Some(t) || ((own.None? || own.value <= 0.0) && row.reuseSeconds == Some(t))
  {
  }

  /** What a passing row carries. */
  lemma RowMeans(raw: RawRow, common: CommonPrefix, P: seq<int>)
    ensures RowHolds(raw, common, P) <==>
      && raw.Object? && P != []
      && var row := raw.row;
      && (row.prefix == Some(P) || (row.prefix.None? && common.Given?)) && (common.Given? ==> common.tokens == P)
      && row.suffix.Some? && row.suffix.value != []
      && row.baseline.Some? && row.reuse.Some?
      && var a, b := row.baseline.value, row.reuse.value;
      && a.tokens.Some? && b.tokens.Some? && a.tokens.value == b.tokens.value != [] && !row.deniesTokens
      && (a.correctness.Some? && b.correctness.Some? ==> a.correctness.value == b.correctness.value)
      && a.fingerprint.Some? && b.fingerprint.Some? && !row.deniesLogits
      && (a.fingerprint.value == b.fingerprint.value || NumbersAgree(row))
      && BaselineSeconds(row).Some? && ReuseSeconds(row).Some?
      && (row.declaredDelta.Some? ==>
            -0.000001 <= row.declaredDelta.value - (BaselineSeconds(row).value - ReuseSeconds(row).value) <= 0.000001)
      && (b.reusedCount.Some? ==> b.reusedCount.value >= |P|)
      && (b.reusedCount.None? ==> row.reusedCount.Some? && row.reusedCount.value >= |P|)
  {
    hide NumbersAgree, BaselineSeconds, ReuseSeconds;
  }

  /** The time saved in total grows row by row by the difference of the two times, where both are known. */
  lemma SavedMeans(rows: seq<RawRow>, raw: RawRow)
    ensures Saved([]) == 0.0
    ensures Saved(rows + [raw]) == Saved(rows) +
      if raw.Object? && BaselineSeconds(raw.row).Some? && ReuseSeconds(raw.row).Some?
      then BaselineSeconds(raw.row).value - ReuseSeconds(raw.row).value else 0.0
  {
    hide BaselineSeconds, ReuseSeconds;
    SavedNext(rows, raw);
  }

  /** Suffixes are the distinct non-empty suffixes that rows carry. */
  lemma SuffixesMean(rows: seq<RawRow>, x: seq<int>)
    ensures x in Suffixes(rows) <==>
      x != [] && exists i :: 0 <= i < |rows| && rows[i].Object? && rows[i].row.suffix == Some(x)
  {
    if x in Suffixes(rows) {
      var i :| 0 <= i < |rows| && rows[i].Object? && RowSuffix(rows[i].row) != [] && RowSuffix(rows[i].row) == x;
      assert rows[i].row.suffix == Some(x);
    }
    if x != [] && exists i :: 0 <= i < |rows| && rows[i].Object? && rows[i].row.suffix == Some(x) {
      var i :| 0 <= i < |rows| && rows[i].Object? && rows[i].row.suffix == Some(x);
      assert RowSuffix(rows[i].row) == x;
    }
  }

  // ----- what the report's flags say, on passing and failing evidence alike

  predicate AboutTokens(f: Failure) {
    f.BaselineTokensMissing? || f.ReuseTokensMissing? || f.TokensDiffer? || f.TokensDenied? || f.CorrectnessDiffers?
  }

  predicate AboutLogits(f: Failure) {
    f.BaselineLogitsMissing? || f.ReuseLogitsMissing? || f.LogitsDiffer? || f.LogitsDenied?
  }

  ghost predicate TokensAgree(rows: seq<RawRow>) {
    forall i :: 0 <= i < |rows| && rows[i].Object? ==> TokensHold(rows[i].row)
  }

  ghost predicate LogitsAgree(rows: seq<RawRow>) {
    forall i :: 0 <= i < |rows| && rows[i].Object? ==> LogitsHold(rows[i].row)
  }

  ghost predicate AllTimed(rows: seq<RawRow>) {
    forall i :: 0 <= i < |rows| ==> rows[i].Object? && TimingHolds(rows[i].row)
  }

  ghost function Prefixes(rows: seq<RawRow>, common: CommonPrefix): (r: set<seq<int>>) {
    set i | 0 <= i < |rows| && rows[i].Object? && RowPrefix(rows[i].row, common) != [] :: RowPrefix(rows[i].row, common)
  }

  ghost predicate TokenTrouble(failed: seq<Failure>) {
    exists i :: 0 <= i < |failed| && AboutTokens(failed[i])
  }

  ghost predicate LogitTrouble(failed: seq<Failure>) {
    exists i :: 0 <= i < |failed| && AboutLogits(failed[i])
  }

  lemma TroubleAdds(a: seq<Failure>, b: seq<Failure>)
    ensures TokenTrouble(a + b) <==> TokenTrouble(a) || TokenTrouble(b)
    ensures LogitTrouble(a + b) <==> LogitTrouble(a) || LogitTrouble(b)
  {
    hide AboutTokens, AboutLogits;
    var all := a + b;
    forall i | 0 <= i < |a| ensures all[i] == a[i] { }
    forall i | 0 <= i < |b| ensures all[|a| + i] == b[i] { }
    assert forall i :: |a| <= i < |all| ==> all[i] == b[i - |a|];
  }

  // ----- the checks

  method CheckHeader(p: Payload, model: Option<string>) returns (failed: seq<Failure>)
    ensures failed == [] <==> HeaderHolds(p, model)
    ensures !TokenTrouble(failed) && !LogitTrouble(failed)
  {
    hide TokenTrouble, LogitTrouble;
    failed := [];
    if model.Some? && p.model != model { failed := failed + [ModelMismatch]; }
    if p.model.None? { failed := failed + [ModelMissing]; }
    if p.proofGate.Some? && p.proofGate.value != PROOF_GATE { failed := failed + [WrongGate]; }
    if !p.reuseEnabled { failed := failed + [ReuseNotEnabled]; }
    if !p.baselineMarked { failed := failed + [BaselineNotMarked]; }
    NoTrouble(failed);
    var tagFailures := CheckTags(p.tags);
    var commonFailures := if p.common.Malformed? then [CommonPrefixMalformed] else [];
    TroubleAdds(failed, tagFailures);
    TroubleAdds(failed + tagFailures, commonFailures);
    NoTrouble(commonFailures);
    failed := failed + tagFailures + commonFailures;
  }

  predicate AboutHeader(f: Failure) {
    f.ModelMismatch? || f.ModelMissing? || f.WrongGate? || f.ReuseNotEnabled? || f.BaselineNotMarked?
    || f.CommonPrefixMalformed?
  }

  lemma NoTrouble(failed: seq<Failure>)
    requires forall i :: 0 <= i < |failed| ==> AboutHeader(failed[i])
    ensures !TokenTrouble(failed) && !LogitTrouble(failed)
  {
  }

  method CheckTags(list: Option<seq<string>>) returns (failed: seq<Failure>)
    ensures failed == [] <==> list.Some? && forall i :: 0 <= i < |REQUIRED_TAGS| ==> REQUIRED_TAGS[i] in list.value
    ensures !TokenTrouble(failed) && !LogitTrouble(failed)
  {
    failed := [];
    var tags: seq<string> := [];
    if list.Some? { tags := list.value; } else { failed := [TagsNotAList]; }
    if exists i :: 0 <= i < |REQUIRED_TAGS| && REQUIRED_TAGS[i] !in tags { failed := failed + [TagsMissing]; }
  }

  function Normalize(slice: Option<(int, int)>): (r: Option<(int, int)>) {
    if slice.Some? && 0 <= slice.value.0 < slice.value.1 then slice else None
  }

  predicate NonOverlapping(a: (int, int), b: (int, int)) { a.1 <= b.0 || b.1 <= a.0 }

  /** Judges the first conclusive handoff. */
  method CheckHandoff(observations: seq<Observation>) returns (ok: bool, failed: seq<Failure>)
    ensures !TokenTrouble(failed) && !LogitTrouble(failed)
    ensures ok <==> HandoffHolds(observations)
    ensures ok <==> failed == []
  {
    for n := 0 to |observations|
      invariant forall j :: 0 <= j < n ==> Inconclusive(observations[j])
    {
      var o := observations[n];
      if o.handoff && o.source.Some? && o.destination.Some? {
        if o.source == o.destination {
          var a, b := Normalize(o.sourceSlice), Normalize(o.destinationSlice);
          if a.None? || b.None? { return false, [HandlesNotDistinct]; }
          if a.value.1 - a.value.0 != b.value.1 - b.value.0 { return false, [WidthsDiffer]; }
          if !NonOverlapping(a.value, b.value) { return false, [HandlesNotDistinct]; }
        }
        assert Distinct(o);
        if Checksummed(o) {
          if !CountsAgree(o) { return false, [CountsDiffer]; }
          return true, [];
        }
      }
    }
    return false, [NoHandoff];
  }

  method CheckServer(p: Payload) returns (observed: bool, failed: seq<Failure>)
    ensures !TokenTrouble(failed) && !LogitTrouble(failed)
    ensures observed <==> ServerHolds(p)
    ensures observed <==> failed == []
  {
    var reported := p.serverClaims
      || exists i :: 0 <= i < |p.observations| && p.observations[i].reuseObserved && p.observations[i].liveProven;
    if !reported { return false, [ServerSilent]; }
    observed, failed := CheckHandoff(p.observations);
  }

  method CheckPrefix(row: Row, index: nat, common: CommonPrefix) returns (failed: seq<Failure>)
    ensures !TokenTrouble(failed) && !LogitTrouble(failed)
    ensures var P := RowPrefix(row, common);
      failed == [] <==> P != [] && (common.Given? ==> common.tokens == P) && RowSuffix(row) != []
  {
    failed := [];
    var P := RowPrefix(row, common);
    if P == [] { failed := failed + [PrefixMissing(index)]; }
    if RowSuffix(row) == [] { failed := failed + [SuffixMissing(index)]; }
    if P != [] && common.Given? && P != common.tokens { failed := failed + [PrefixDiffers(index)]; }
  }

  method CheckTokens(row: Row, index: nat) returns (failed: seq<Failure>, mismatch: bool)
    ensures failed == [] <==> TokensHold(row)
    ensures failed != [] ==> AboutTokens(failed[|failed| - 1])
    ensures mismatch ==> failed != []
    ensures !LogitTrouble(failed)
  {
    hide LogitTrouble, AboutLogits;
    failed, mismatch := [], false;
    if row.baseline.None? { failed := failed + [BaselineMissing(index)]; }
    if row.reuse.None? { failed := failed + [ReuseMissing(index)]; }
    var a, b := SideOf(row.baseline), SideOf(row.reuse);
    if a.tokens.None? || a.tokens.value == [] { failed := failed + [BaselineTokensMissing(index)]; }
    if b.tokens.None? || b.tokens.value == [] { failed := failed + [ReuseTokensMissing(index)]; }
    if a.tokens.Some? && b.tokens.Some? && a.tokens != b.tokens {
      failed, mismatch := failed + [TokensDiffer(index)], true;
    }
    if row.deniesTokens { failed, mismatch := failed + [TokensDenied(index)], true; }
    if a.correctness.Some? && b.correctness.Some? && a.correctness != b.correctness {
      failed, mismatch := failed + [CorrectnessDiffers(index)], true;
    }
    NotLogits(failed);
  }

  lemma NotLogits(failed: seq<Failure>)
    requires forall i :: 0 <= i < |failed| ==>
      failed[i].BaselineMissing? || failed[i].ReuseMissing? || AboutTokens(failed[i])
    ensures !LogitTrouble(failed)
  {
  }

  method CheckLogits(row: Row, index: nat) returns (failed: seq<Failure>, mismatch: bool)
    ensures failed == [] <==> LogitsHold(row)
    ensures failed != [] ==> AboutLogits(failed[|failed| - 1])
    ensures mismatch ==> failed != []
    ensures !TokenTrouble(failed)
  {
    failed, mismatch := [], false;
    var a, b := SideOf(row.baseline).fingerprint, SideOf(row.reuse).fingerprint;
    if a.None? { failed := failed + [BaselineLogitsMissing(index)]; }
    if b.None? { failed := failed + [ReuseLogitsMissing(index)]; }
    if a.Some? && b.Some? && a != b && !NumbersAgree(row) {
      failed, mismatch := failed + [LogitsDiffer(index)], true;
    }
    if row.deniesLogits { failed, mismatch := failed + [LogitsDenied(index)], true; }
  }

  /** Judges the reused count against the row's prefix. */
  method CheckCount(row: Row, index: nat, P: seq<int>) returns (failed: seq<Failure>)
    ensures failed == [] <==>
      ReusedCount(row).Some? && ReusedCount(row).value > 0 && (P != [] ==> ReusedCount(row).value >= |P|)
    ensures forall i :: 0 <= i < |failed| ==> failed[i].ReusedCountMissing? || failed[i].ReusedTooFew?
  {
    var count := ReusedCount(row);
    if count.None? || count.value <= 0 { return [ReusedCountMissing(index)]; }
    if P != [] && count.value < |P| { return [ReusedTooFew(index)]; }
    return [];
  }

  method CheckTiming(row: Row, index: nat) returns (failed: seq<Failure>)
    ensures !TokenTrouble(failed) && !LogitTrouble(failed)
    ensures failed == [] <==> TimingHolds(row)
  {
    failed := [];
    var a, b := BaselineSeconds(row), ReuseSeconds(row);
    if a.None? { failed := failed + [BaselineSecondsMissing(index)]; }
    if b.None? { failed := failed + [ReuseSecondsMissing(index)]; }
    if a.Some? && b.Some? {
      var actual := a.value - b.value;
      if row.declaredDelta.Some? && Abs(row.declaredDelta.value - actual) > DELTA_TOLERANCE {
        failed := failed + [DeltaWrong(index)];
      }
    }
  }

  datatype Scan = Scan(failed: seq<Failure>, seen: set<string>, prefixes: seq<seq<int>>, suffixes: seq<seq<int>>,
                       events: nat, baselineTotal: real, reuseTotal: real, timingRows: nat,
                       tokenMismatch: bool, logitMismatch: bool, timingFailure: bool)

  /** A row that is in order by itself, with the prefix it has. */
  ghost predicate RowSelf(raw: RawRow, common: CommonPrefix) {
    raw.Object? && RowHolds(raw, common, RowPrefix(raw.row, common))
  }

  /** How the scan changes with one more row. */
  ghost predicate ScanStep(index: nat, raw: RawRow, common: CommonPrefix, s: Scan, t: Scan) {
    if raw.NotAnObject? then t == s.(failed := s.failed + [RowNotAnObject(index)])
    else
      var id := RowId(raw, index);
      && (t.failed == [] <==> s.failed == [] && id !in s.seen && RowSelf(raw, common))
      && t.seen == s.seen + {id}
      && t.suffixes == (if RowSuffix(raw.row) != [] then s.suffixes + [RowSuffix(raw.row)] else s.suffixes)
      && t.prefixes == (if RowPrefix(raw.row, common) != [] then s.prefixes + [RowPrefix(raw.row, common)] else s.prefixes)
      && (TokenProblem(t) <==> TokenProblem(s) || !TokensHold(raw.row))
      && (LogitProblem(t) <==> LogitProblem(s) || !LogitsHold(raw.row))
      && t.timingRows <= s.timingRows + 1
      && (TimingHolds(raw.row) ==> t.timingRows == s.timingRows + 1 && t.timingFailure == s.timingFailure)
      && (!TimingHolds(raw.row) ==> t.timingFailure)
      && t.baselineTotal - t.reuseTotal == s.baselineTotal - s.reuseTotal + RowSaved(raw)
      && (t.failed == [] ==> t.events == s.events + 1)
  }

  ghost predicate TokenProblem(s: Scan) { s.tokenMismatch || TokenTrouble(s.failed) }

  ghost predicate LogitProblem(s: Scan) { s.logitMismatch || LogitTrouble(s.failed) }

  method ScanRow(raw: RawRow, index: nat, common: CommonPrefix, s: Scan) returns (t: Scan)
    requires raw.Object?
    ensures ScanStep(index, raw, common, s, t)
  {
    hide TokensHold, LogitsHold, RowId, BaselineSeconds, ReuseSeconds, RowPrefix, RowSuffix, Abs, TokenTrouble, LogitTrouble,
      RowSelf, TimingHolds, RowSaved;
    RowParts(raw, common);
    var row, id := raw.row, RowId(raw, index);
    var failed, tokenMismatch, logitMismatch, reused, timingFailed := CheckRow(raw, index, common, id in s.seen);
    TroubleAdds(s.failed, failed);
    var P, suffix := RowPrefix(row, common), RowSuffix(row);
    var prefixes := if P != [] then s.prefixes + [P] else s.prefixes;
    var suffixes := if suffix != [] then s.suffixes + [suffix] else s.suffixes;
    var a, b := BaselineSeconds(row), ReuseSeconds(row);
    var both := a.Some? && b.Some?;
    t := Scan(s.failed + failed, s.seen + {id}, prefixes, suffixes, if reused then s.events + 1 else s.events,
              if both then s.baselineTotal + a.value else s.baselineTotal,
              if both then s.reuseTotal + b.value else s.reuseTotal,
              if both then s.timingRows + 1 else s.timingRows,
              s.tokenMismatch || tokenMismatch, s.logitMismatch || logitMismatch, s.timingFailure || timingFailed);
  }

  /** All the checks of one row. */
  method CheckRow(raw: RawRow, index: nat, common: CommonPrefix, duplicate: bool)
    returns (failed: seq<Failure>, tokenMismatch: bool, logitMismatch: bool, reused: bool, timingFailed: bool)
    requires raw.Object?
    ensures failed == [] <==> !duplicate && RowSelf(raw, common)
    ensures TokenTrouble(failed) <==> !TokensHold(raw.row)
    ensures LogitTrouble(failed) <==> !LogitsHold(raw.row)
    ensures tokenMismatch ==> !TokensHold(raw.row)
    ensures logitMismatch ==> !LogitsHold(raw.row)
    ensures timingFailed <==> !TimingHolds(raw.row)
    ensures failed == [] ==> reused
  {
    hide *;
    RowParts(raw, common);
    var row := raw.row;
    var idFailures: seq<Failure> := if duplicate then [DuplicateId(RowId(raw, index))] else [];
    var prefixFailures := CheckPrefix(row, index, common);
    var tokenFailures, logitFailures;
    tokenFailures, tokenMismatch := CheckTokens(row, index);
    logitFailures, logitMismatch := CheckLogits(row, index);
    var countFailures := CheckCount(row, index, RowPrefix(row, common));
    var timingFailures := CheckTiming(row, index);
    RowTrouble(idFailures, prefixFailures, tokenFailures, logitFailures, countFailures, timingFailures);
    failed := idFailures + prefixFailures + tokenFailures + logitFailures + countFailures + timingFailures;
    reused, timingFailed := countFailures == [], timingFailures != [];
  }

  lemma RowParts(raw: RawRow, common: CommonPrefix)
    requires raw.Object?
    ensures var row := raw.row;
      var P, n := RowPrefix(row, common), ReusedCount(row);
      && (RowSelf(raw, common) <==>
            && P != [] && (common.Given? ==> common.tokens == P) && RowSuffix(row) != []
            && TokensHold(row) && LogitsHold(row) && TimingHolds(row) && n.Some? && n.value >= |P|)
      && (TimingHolds(row) ==> BaselineSeconds(row).Some? && ReuseSeconds(row).Some?)
      && RowSaved(raw) == if BaselineSeconds(row).Some? && ReuseSeconds(row).Some?
                          then BaselineSeconds(row).value - ReuseSeconds(row).value else 0.0
  {
    hide TokensHold, LogitsHold, BaselineSeconds, ReuseSeconds, ReusedCount, RowPrefix, RowSuffix;
  }

  /** Of the failures of a row, only those of the token check concern tokens, and those of the logits
      check concern logits. */
  lemma RowTrouble(ids: seq<Failure>, prefixes: seq<Failure>, tokens: seq<Failure>, logits: seq<Failure>,
                   counts: seq<Failure>, timing: seq<Failure>)
    requires forall i :: 0 <= i < |ids| ==> ids[i].DuplicateId?
    requires forall i :: 0 <= i < |counts| ==> counts[i].ReusedCountMissing? || counts[i].ReusedTooFew?
    requires !TokenTrouble(prefixes) && !LogitTrouble(prefixes) && !TokenTrouble(timing) && !LogitTrouble(timing)
    requires !LogitTrouble(tokens) && (tokens != [] ==> AboutTokens(tokens[|tokens| - 1]))
    requires !TokenTrouble(logits) && (logits != [] ==> AboutLogits(logits[|logits| - 1]))
    ensures var all := ids + prefixes + tokens + logits + counts + timing;
      (TokenTrouble(all) <==> tokens != []) && (LogitTrouble(all) <==> logits != [])
  {
    assert !TokenTrouble(ids) && !LogitTrouble(ids) && !TokenTrouble(counts) && !LogitTrouble(counts);
    assert TokenTrouble(tokens) <==> tokens != [];
    assert LogitTrouble(logits) <==> logits != [];
    hide TokenTrouble, LogitTrouble;
    TroubleAdds(ids, prefixes);
    TroubleAdds(ids + prefixes, tokens);
    TroubleAdds(ids + prefixes + tokens, logits);
    TroubleAdds(ids + prefixes + tokens + logits, counts);
    TroubleAdds(ids + prefixes + tokens + logits + counts, timing);
  }

  ghost predicate AllSelf(rows: seq<RawRow>, common: CommonPrefix) {
    forall i :: 0 <= i < |rows| ==> RowSelf(rows[i], common)
  }

  /** What scanning a list of rows yields. */
  ghost predicate Scanned(rows: seq<RawRow>, common: CommonPrefix, s: Scan) {
    && (s.failed == [] <==> UniqueIds(rows) && AllSelf(rows, common))
    && (forall id :: id in s.seen <==> Known(rows, id))
    && (set x | x in s.suffixes) == Suffixes(rows)
    && s.baselineTotal - s.reuseTotal == Saved(rows)
    && (set x | x in s.prefixes) == Prefixes(rows, common)
    && (TokenProblem(s) <==> !TokensAgree(rows))
    && (LogitProblem(s) <==> !LogitsAgree(rows))
    && s.timingRows <= |rows| && (s.timingRows == |rows| && !s.timingFailure <==> AllTimed(rows))
    && (s.failed == [] ==> s.events == |rows|)
  }

  lemma SelfNext(rows: seq<RawRow>, raw: RawRow, common: CommonPrefix)
    ensures AllSelf(rows + [raw], common) <==> AllSelf(rows, common) && RowSelf(raw, common)
  {
    hide RowSelf;
    var all := rows + [raw];
    assert all[|rows|] == raw && forall i :: 0 <= i < |rows| ==> all[i] == rows[i];
  }

  lemma SuffixesNext(rows: seq<RawRow>, raw: RawRow)
    ensures Suffixes(rows + [raw])
         == Suffixes(rows) + (if raw.Object? && RowSuffix(raw.row) != [] then {RowSuffix(raw.row)} else {})
  {
    hide RowSuffix;
    var all := rows + [raw];
    assert all[|rows|] == raw && forall i :: 0 <= i < |rows| ==> all[i] == rows[i];
    forall x | x in Suffixes(rows) ensures x in Suffixes(all) {
      var i :| 0 <= i < |rows| && rows[i].Object? && RowSuffix(rows[i].row) != [] && RowSuffix(rows[i].row) == x;
      assert RowSuffix(all[i].row) == x;
    }
    if raw.Object? && RowSuffix(raw.row) != [] {
      assert RowSuffix(all[|rows|].row) in Suffixes(all);
    }
  }

  lemma SavedNext(rows: seq<RawRow>, raw: RawRow)
    ensures Saved(rows + [raw]) == Saved(rows) + RowSaved(raw)
  {
    assert (rows + [raw])[..|rows|] == rows;
  }

  lemma SetNext(xs: seq<seq<int>>, x: seq<int>)
    ensures (set y | y in xs + [x]) == (set y | y in xs) + {x}
  {
  }

  lemma PrefixesNext(rows: seq<RawRow>, raw: RawRow, common: CommonPrefix)
    ensures Prefixes(rows + [raw], common)
         == Prefixes(rows, common)
            + (if raw.Object? && RowPrefix(raw.row, common) != [] then {RowPrefix(raw.row, common)} else {})
  {
    hide RowPrefix;
    var all := rows + [raw];
    assert all[|rows|] == raw && forall i :: 0 <= i < |rows| ==> all[i] == rows[i];
    forall x | x in Prefixes(rows, common) ensures x in Prefixes(all, common) {
      var i :| 0 <= i < |rows| && rows[i].Object? && RowPrefix(rows[i].row, common) != []
        && RowPrefix(rows[i].row, common) == x;
      assert RowPrefix(all[i].row, common) == x;
    }
    if raw.Object? && RowPrefix(raw.row, common) != [] {
      assert RowPrefix(all[|rows|].row, common) in Prefixes(all, common);
    }
  }

  lemma FlagsNext(rows: seq<RawRow>, raw: RawRow)
    ensures TokensAgree(rows + [raw]) <==> TokensAgree(rows) && (raw.Object? ==> TokensHold(raw.row))
    ensures LogitsAgree(rows + [raw]) <==> LogitsAgree(rows) && (raw.Object? ==> LogitsHold(raw.row))
    ensures AllTimed(rows + [raw]) <==> AllTimed(rows) && raw.Object? && TimingHolds(raw.row)
  {
    hide TokensHold, LogitsHold, TimingHolds;
    var all := rows + [raw];
    assert all[|rows|] == raw && forall i :: 0 <= i < |rows| ==> all[i] == rows[i];
  }

  lemma SkippedTrouble(s: Scan, t: Scan, index: nat)
    requires t == s.(failed := s.failed + [RowNotAnObject(index)])
    ensures (TokenProblem(t) <==> TokenProblem(s)) && (LogitProblem(t) <==> LogitProblem(s))
  {
    TroubleAdds(s.failed, [RowNotAnObject(index)]);
  }

  lemma ScannedNext(rows: seq<RawRow>, raw: RawRow, common: CommonPrefix, s: Scan, t: Scan)
    requires Scanned(rows, common, s) && ScanStep(|rows|, raw, common, s, t)
    ensures Scanned(rows + [raw], common, t)
  {
    hide RowId, RowSelf, UniqueIds, AllSelf, Known, Suffixes, Saved, RowSuffix, RowPrefix, RowSaved, Prefixes,
      TokensAgree, LogitsAgree, AllTimed, TokenProblem, LogitProblem, TokensHold, LogitsHold, TimingHolds;
    var all := rows + [raw];
    forall id ensures id in t.seen <==> Known(all, id) {
      KnownNext(rows, raw, id);
    }
    UniqueNext(rows, raw);
    SelfNext(rows, raw, common);
    SuffixesNext(rows, raw);
    PrefixesNext(rows, raw, common);
    FlagsNext(rows, raw);
    SavedNext(rows, raw);
    NotSelf(raw, common);
    if raw.NotAnObject? {
      SkippedTrouble(s, t, |rows|);
    } else {
      if RowSuffix(raw.row) != [] {
        SetNext(s.suffixes, RowSuffix(raw.row));
      }
      if RowPrefix(raw.row, common) != [] {
        SetNext(s.prefixes, RowPrefix(raw.row, common));
      }
    }
  }

  lemma NotSelf(raw: RawRow, common: CommonPrefix)
    ensures raw.NotAnObject? ==> !RowSelf(raw, common) && RowSaved(raw) == 0.0
  {
  }

  method ScanRows(rows: seq<RawRow>, common: CommonPrefix) returns (s: Scan)
    ensures Scanned(rows, common, s)
  {
    hide *;
    s := Scan([], {}, [], [], 0, 0.0, 0.0, 0, false, false, false);
    ScannedNone(common, s);
    assert rows[..0] == [];
    for n := 0 to |rows|
      invariant Scanned(rows[..n], common, s)
    {
      ghost var before := s;
      if rows[n].NotAnObject? {
        s := s.(failed := s.failed + [RowNotAnObject(n)]);
        SkippedRow(n, common, before, s);
      } else {
        s := ScanRow(rows[n], n, common, s);
      }
      ScannedNext(rows[..n], rows[n], common, before, s);
      assert rows[..n + 1] == rows[..n] + [rows[n]];
    }
    assert rows[..|rows|] == rows;
  }

  lemma ScannedNone(common: CommonPrefix, s: Scan)
    requires s == Scan([], {}, [], [], 0, 0.0, 0.0, 0, false, false, false)
    ensures Scanned([], common, s)
  {
  }

  lemma SkippedRow(index: nat, common: CommonPrefix, s: Scan, t: Scan)
    requires t == s.(failed := s.failed + [RowNotAnObject(index)])
    ensures ScanStep(index, NotAnObject, common, s, t)
  {
  }

  // ----- the verdict

  lemma {:induction false} CardinalitySubset(a: set<seq<int>>, b: set<seq<int>>)
    requires a <= b
    ensures |a| <= |b|
  {
    assert b == a + (b - a);
  }

  lemma OneElement(all: set<seq<int>>, x: seq<int>, y: seq<int>)
    requires x in all && y in all && |all| == 1
    ensures x == y
  {
    if x != y {
      CardinalitySubset({x, y}, all);
    }
  }

  /** Rows that are each in order share one prefix exactly when there is one distinct prefix. */
  lemma SharedPrefix(rows: seq<RawRow>, common: CommonPrefix)
    requires AllSelf(rows, common) && rows != []
    ensures |Prefixes(rows, common)| == 1 <==> exists P :: AllHold(rows, common, P)
  {
    hide TokensHold, LogitsHold, TimingHolds, RowPrefix;
    var all := Prefixes(rows, common);
    forall i | 0 <= i < |rows|
      ensures rows[i].Object? && RowHolds(rows[i], common, RowPrefix(rows[i].row, common))
      ensures RowPrefix(rows[i].row, common) in all
    {
      assert RowSelf(rows[i], common);
    }
    var P := RowPrefix(rows[0].row, common);
    if |all| == 1 {
      forall i | 0 <= i < |rows| ensures RowHolds(rows[i], common, P) {
        OneElement(all, RowPrefix(rows[i].row, common), P);
      }
      assert AllHold(rows, common, P);
    }
    if Q :| AllHold(rows, common, Q) {
      forall i | 0 <= i < |rows| ensures RowPrefix(rows[i].row, common) == Q {
        assert RowHolds(rows[i], common, Q);
      }
      assert all == {Q};
    }
  }

  lemma HoldImpliesSelf(rows: seq<RawRow>, common: CommonPrefix)
    ensures (exists P :: AllHold(rows, common, P)) ==> AllSelf(rows, common)
  {
    hide TokensHold, LogitsHold, TimingHolds;
    if P :| AllHold(rows, common, P) {
      forall i | 0 <= i < |rows| ensures RowSelf(rows[i], common) {
        assert RowHolds(rows[i], common, P);
      }
    }
  }

  lemma VerdictMeans(p: Payload, model: Option<string>, minRequests: nat, requireSpeedup: bool, s: Scan)
    requires minRequests >= 1
    requires Scanned(if p.rows.Some? then p.rows.value else [], p.common, s)
    ensures var rows := if p.rows.Some? then p.rows.value else [];
            EvidenceHolds(p, model, minRequests, requireSpeedup) <==>
              && HeaderHolds(p, model) && ServerHolds(p)
              && p.rows.Some? && |rows| >= minRequests && s.failed == []
              && |Prefixes(rows, p.common)| == 1 && |Suffixes(rows)| >= minRequests
              && (requireSpeedup ==> Saved(rows) > 0.0)
  {
    var rows := if p.rows.Some? then p.rows.value else [];
    HoldImpliesSelf(rows, p.common);
    if s.failed == [] && rows != [] {
      SharedPrefix(rows, p.common);
    }
    hide HeaderHolds, ServerHolds, UniqueIds, AllSelf, AllHold, Known, Suffixes, Saved, RowId, RowPrefix, Prefixes,
      TokensAgree, LogitsAgree, AllTimed, TokenProblem, LogitProblem;
  }

  /** Rows in order are in agreement and timed. */
  lemma CleanFlags(rows: seq<RawRow>, common: CommonPrefix)
    requires AllSelf(rows, common)
    ensures TokensAgree(rows) && LogitsAgree(rows) && AllTimed(rows)
  {
    hide TokensHold, LogitsHold, TimingHolds, RowPrefix;
    forall i | 0 <= i < |rows|
      ensures rows[i].Object? && TokensHold(rows[i].row) && LogitsHold(rows[i].row) && TimingHolds(rows[i].row)
    {
      assert RowSelf(rows[i], common);
    }
  }

  lemma QuietMeans(failed: seq<Failure>)
    ensures (forall f :: f in failed ==> !AboutTokens(f)) <==> !TokenTrouble(failed)
    ensures (forall f :: f in failed ==> !AboutLogits(f)) <==> !LogitTrouble(failed)
  {
    hide AboutTokens, AboutLogits;
    if forall f :: f in failed ==> !AboutTokens(f) {
      forall i | 0 <= i < |failed| ensures !AboutTokens(failed[i]) { }
    }
    if forall f :: f in failed ==> !AboutLogits(f) {
      forall i | 0 <= i < |failed| ensures !AboutLogits(failed[i]) { }
    }
  }

  /** Verifies KV prefix-reuse evidence. It passes exactly when EvidenceHolds; its flags say what they
      say whether it passes or not; and when it passes, every flag that later gates ask for is set. */
  method Verify(p: Payload, model: Option<string>, minRequests: int, requireSpeedup: bool) returns (r: Result<Report, Refusal>)
    ensures r.Err? <==> minRequests <= 0
    ensures r.Ok? ==>
      && (r.value.Passed() <==> EvidenceHolds(p, model, minRequests, requireSpeedup))
      && r.value.model == (if p.model.Some? then p.model else model)
      && (r.value.serverObserved <==> ServerHolds(p))
      && FlagsFit(r.value, if p.rows.Some? then p.rows.value else [], p.common, minRequests)
      && (r.value.Passed() ==>
            && r.value.model == p.model
            && r.value.samePrefixVariedSuffix && r.value.tokenParity && r.value.logitParity
            && r.value.timingMeasured && r.value.serverObserved && (requireSpeedup ==> r.value.speedup))
  {
    if minRequests <= 0 {
      return Err(MinRequestsNotPositive);
    }
    hide *;
    var before := CheckHeader(p, model);
    var observed, serverFailures := CheckServer(p);
    TroubleAdds(before, serverFailures);
    before := before + serverFailures;
    var rows: seq<RawRow> := [];
    var listFailures: seq<Failure> := [];
    if p.rows.Some? { rows := p.rows.value; } else { listFailures := listFailures + [RowsNotAList]; }
    if |rows| < minRequests { listFailures := listFailures + [TooFewRows]; }
    var s := ScanRows(rows, p.common);
    var after, same, measured, speedup := JudgeTotals(rows, p.common, s, minRequests, requireSpeedup);
    OtherTrouble(before, listFailures, s.failed, after);
    var failed := before + listFailures + s.failed + after;
    QuietMeans(failed);
    ScannedParts(rows, p.common, s);
    var tokens := rows != [] && !s.tokenMismatch && forall f :: f in failed ==> !AboutTokens(f);
    var logits := rows != [] && !s.logitMismatch && forall f :: f in failed ==> !AboutLogits(f);
    VerdictMeans(p, model, minRequests, requireSpeedup, s);
    PassedMeans();
    HeaderModel(p, model);
    var out := if p.model.Some? then p.model else model;
    r := Ok(Report(out, failed, same, tokens, logits, measured, speedup, observed));
    FlagsFitMeans(r.value, rows, p.common, minRequests);
  }

  /** The checks on all rows together. */
  method JudgeTotals(rows: seq<RawRow>, common: CommonPrefix, s: Scan, minRequests: nat, requireSpeedup: bool)
    returns (failed: seq<Failure>, same: bool, measured: bool, speedup: bool)
    requires Scanned(rows, common, s) && minRequests >= 1
    ensures same <==> |rows| >= minRequests && |Prefixes(rows, common)| == 1 && |Suffixes(rows)| >= minRequests
    ensures measured <==> rows != [] && AllTimed(rows)
    ensures speedup <==> measured && Saved(rows) > 0.0
    ensures s.failed == [] && |rows| >= minRequests ==>
      (failed == [] <==> same && (requireSpeedup ==> Saved(rows) > 0.0))
    ensures forall i :: 0 <= i < |failed| ==>
      failed[i].PrefixNotShared? || failed[i].TooFewSuffixes? || failed[i].NotEveryRowReused? || failed[i].NotFaster?
  {
    hide *;
    ScannedParts(rows, common, s);
    var prefixes, suffixes := set x | x in s.prefixes, set x | x in s.suffixes;
    failed := [];
    if |prefixes| != 1 { failed := failed + [PrefixNotShared]; }
    if |suffixes| < minRequests { failed := failed + [TooFewSuffixes]; }
    if rows != [] && s.events < |rows| { failed := failed + [NotEveryRowReused]; }
    measured := s.timingRows == |rows| && !s.timingFailure && rows != [];
    speedup := measured && s.baselineTotal - s.reuseTotal > 0.0;
    if requireSpeedup && measured && !speedup { failed := failed + [NotFaster]; }
    same := |rows| >= minRequests && |prefixes| == 1 && |suffixes| >= minRequests;
  }

  /** The flags of a report, in terms of the rows alone. */
  ghost predicate FlagsFit(r: Report, rows: seq<RawRow>, common: CommonPrefix, minRequests: int) {
    && (r.samePrefixVariedSuffix <==>
          |rows| >= minRequests && |Prefixes(rows, common)| == 1 && |Suffixes(rows)| >= minRequests)
    && (r.tokenParity <==> rows != [] && TokensAgree(rows))
    && (r.logitParity <==> rows != [] && LogitsAgree(rows))
    && (r.timingMeasured <==> rows != [] && AllTimed(rows))
    && (r.speedup <==> r.timingMeasured && Saved(rows) > 0.0)
  }

  lemma FlagsFitMeans(r: Report, rows: seq<RawRow>, common: CommonPrefix, minRequests: int)
    ensures FlagsFit(r, rows, common, minRequests) <==>
      && (r.samePrefixVariedSuffix <==>
            |rows| >= minRequests && |Prefixes(rows, common)| == 1 && |Suffixes(rows)| >= minRequests)
      && (r.tokenParity <==> rows != [] && TokensAgree(rows))
      && (r.logitParity <==> rows != [] && LogitsAgree(rows))
      && (r.timingMeasured <==> rows != [] && AllTimed(rows))
      && (r.speedup <==> r.timingMeasured && Saved(rows) > 0.0)
  {
    hide Prefixes, Suffixes, TokensAgree, LogitsAgree, AllTimed, Saved;
  }

  lemma ScannedParts(rows: seq<RawRow>, common: CommonPrefix, s: Scan)
    requires Scanned(rows, common, s)
    ensures (set x | x in s.suffixes) == Suffixes(rows) && (set x | x in s.prefixes) == Prefixes(rows, common)
    ensures s.baselineTotal - s.reuseTotal == Saved(rows)
    ensures s.tokenMismatch || TokenTrouble(s.failed) <==> !TokensAgree(rows)
    ensures s.logitMismatch || LogitTrouble(s.failed) <==> !LogitsAgree(rows)
    ensures s.timingRows == |rows| && !s.timingFailure <==> AllTimed(rows)
    ensures s.failed == [] ==> s.events == |rows| && TokensAgree(rows) && LogitsAgree(rows) && AllTimed(rows)
  {
    hide UniqueIds, AllSelf, Known, Suffixes, Saved, RowId, RowPrefix, Prefixes, TokensAgree, LogitsAgree, AllTimed,
      TokenTrouble, LogitTrouble;
    if s.failed == [] {
      CleanFlags(rows, common);
    }
  }

  lemma OtherTrouble(before: seq<Failure>, list: seq<Failure>, scan: seq<Failure>, after: seq<Failure>)
    requires !TokenTrouble(before) && !LogitTrouble(before)
    requires forall i :: 0 <= i < |list| ==> list[i].RowsNotAList? || list[i].TooFewRows?
    requires forall i :: 0 <= i < |after| ==>
      after[i].PrefixNotShared? || after[i].TooFewSuffixes? || after[i].NotEveryRowReused? || after[i].NotFaster?
    ensures TokenTrouble(before + list + scan + after) <==> TokenTrouble(scan)
    ensures LogitTrouble(before + list + scan + after) <==> LogitTrouble(scan)
  {
    assert !TokenTrouble(list) && !LogitTrouble(list) && !TokenTrouble(after) && !LogitTrouble(after);
    hide TokenTrouble, LogitTrouble;
    TroubleAdds(before, list);
    TroubleAdds(before + list, scan);
    TroubleAdds(before + list + scan, after);
  }

  lemma PassedMeans()
    ensures forall r: Report :: r.Passed() <==> r.failed == []
  {
  }

  lemma HeaderModel(p: Payload, model: Option<string>)
    ensures HeaderHolds(p, model) ==> p.model.Some?
  {
  }
}
