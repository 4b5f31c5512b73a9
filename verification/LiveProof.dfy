/**
 The fail-closed verifier of live continuous-batching evidence. Evidence rows are read into
 datatypes; an absent or malformed field is None. A check that fails adds to a list, and the
 evidence passes when the list stays empty: the contract says exactly which evidence that is.
 */
module LiveProof {
  import opened EvidenceRows
  import opened Options

  datatype Side = Side(tokens: Option<seq<int>>, fingerprint: Option<string>)

  datatype Comparison = Comparison(maxAbs: Option<real>, meanAbs: Option<real>, topMatch: bool)

  datatype Row = Row(arrival: Option<int>, baseline: Option<Side>, continuous: Option<Side>,
                     comparison: Option<Comparison>)

  type RawRow = Raw<Row>

  /** A tick batch of the server report; entries of `ids` that are not non-empty strings are None. */
  datatype Tick = NotABatch | Batch(tick: Option<int>, ids: seq<Option<string>>, mask: Option<seq<bool>>)

  datatype Payload = Payload(model: Option<string>, proofGate: Option<string>, optInFlag: Option<string>, optIn: bool,
                             observed: bool, claimsSpeedup: bool, rows: Option<seq<RawRow>>, ticks: Option<seq<Tick>>)

  datatype Failure =
    | ModelMismatch | ModelMissing | WrongGate | WrongFlag | NotOptedIn | NotObserved | ClaimsSpeedup
    | RowsNotAList | TooFewRows | RowNotAnObject(index: nat) | DuplicateId(id: string) | ArrivalMissing(id: string)
    | BaselineMissing(id: string) | ContinuousMissing(id: string) | BaselineTokensMissing(id: string)
    | ContinuousTokensMissing(id: string) | TokensDiffer(id: string) | FingerprintMissing(id: string)
    | MaxDiffMissing(id: string) | MeanDiffMissing(id: string) | MaxDiffTooLarge(id: string)
    | MeanDiffTooLarge(id: string) | TopTokenMismatch(id: string) | FingerprintsDiffer(id: string)
    | NoLateArrival | TicksNotAList | TickMissing(index: nat) | InvalidTickId(index: nat) | UnknownTickId(id: string)
    | NoBatchedTick | NeverMentioned(id: string) | SeenBeforeArrival(id: string)

  datatype Report = Report(model: Option<string>, failed: seq<Failure>, lateArrival: bool, batchedTicks: nat,
                           tokenParity: bool, fingerprintParity: bool, numericParity: bool, logitsParity: bool)
  {
    predicate Passed() { failed == [] }
  }

  const PROOF_GATE := "continuous_batching"
  const OPT_IN_FLAG := "BLOOMBEE_ENABLE_LIVE_CONTINUOUS_BATCHING"
  const MAX_ABS_TOLERANCE: real := 0.01
  const MEAN_ABS_TOLERANCE: real := 0.001

  // ----- what passing evidence says

  ghost predicate HeaderHolds(p: Payload, model: Option<string>) {
    && (model.Some? ==> p.model == model) && p.model.Some?
    && (p.proofGate.None? || p.proofGate.value == PROOF_GATE)
    && p.optInFlag == Some(OPT_IN_FLAG) && p.optIn && p.observed && !p.claimsSpeedup
  }

  ghost predicate TokensHold(row: Row) {
    && row.baseline.Some? && row.continuous.Some?
    && row.baseline.value.tokens.Some? && row.baseline.value.tokens.value != []
    && row.continuous.value.tokens == row.baseline.value.tokens
  }

  predicate FingerprintsEqual(row: Row) {
    && row.baseline.Some? && row.continuous.Some? && row.baseline.value.fingerprint.Some?
    && row.continuous.value.fingerprint == row.baseline.value.fingerprint
  }

  predicate WithinTolerance(c: Comparison) {
    && c.maxAbs.Some? && c.maxAbs.value <= MAX_ABS_TOLERANCE
    && c.meanAbs.Some? && c.meanAbs.value <= MEAN_ABS_TOLERANCE
    && c.topMatch
  }

  predicate FingerprintsPresent(row: Row) {
    && row.baseline.Some? && row.continuous.Some?
    && row.baseline.value.fingerprint.Some? && row.continuous.value.fingerprint.Some?
  }

  ghost predicate LogitsHold(row: Row) {
    FingerprintsPresent(row)
    && (FingerprintsEqual(row) || (row.comparison.Some? && WithinTolerance(row.comparison.value)))
  }

  ghost predicate RowHolds(raw: RawRow) {
    raw.Object? && raw.row.arrival.Some? && TokensHold(raw.row) && LogitsHold(raw.row)
  }

  ghost predicate RowsHold(rows: seq<RawRow>) {
    && (forall i :: 0 <= i < |rows| ==> RowHolds(rows[i]))
    && UniqueIds(rows)
  }

  ghost predicate LateArrival(rows: seq<RawRow>) {
    exists i, j :: 0 <= i < |rows| && 0 <= j < |rows| && rows[i].Object? && rows[j].Object?
      && rows[i].row.arrival.Some? && rows[j].row.arrival.Some?
      && rows[i].row.arrival.value < rows[j].row.arrival.value
  }

  /** The ids of a batch that its mask leaves active; a missing or misfitting mask leaves all. */
  function ActiveIds(t: Tick): (r: seq<Option<string>>)
    requires t.Batch?
  {
    if t.mask.Some? && |t.mask.value| == |t.ids| then Select(t.ids, t.mask.value) else t.ids
  }

  function Select(ids: seq<Option<string>>, mask: seq<bool>): (r: seq<Option<string>>)
    requires |ids| == |mask|
  {
    if ids == [] then [] else (if mask[0] then [ids[0]] else []) + Select(ids[1..], mask[1..])
  }

  ghost predicate TickHolds(t: Tick, rows: seq<RawRow>) {
    t.Batch? ==>
      && t.tick.Some?
      && forall i :: 0 <= i < |ActiveIds(t)| ==> ActiveIds(t)[i].Some? && Known(rows, ActiveIds(t)[i].value)
  }

  predicate Batched(t: Tick) { t.Batch? && t.tick.Some? && |ActiveIds(t)| > 1 }

  predicate Mentions(t: Tick, id: string) { t.Batch? && t.tick.Some? && Some(id) in ActiveIds(t) }

  /** The tick of the first batch, in list order, that mentions id. */
  function FirstSeen(ticks: seq<Tick>, id: string): (r: Option<int>) {
    if ticks == [] then None
    else if Mentions(ticks[0], id) then ticks[0].tick
    else FirstSeen(ticks[1..], id)
  }

  ghost predicate TicksHold(ticks: seq<Tick>, rows: seq<RawRow>) {
    && (forall i :: 0 <= i < |ticks| ==> TickHolds(ticks[i], rows))
    && (exists i :: 0 <= i < |ticks| && Batched(ticks[i]))
  }

  ghost predicate SeenInTime(raw: RawRow, index: nat, ticks: seq<Tick>) {
    raw.Object? && raw.row.arrival.Some?
    && var seen := FirstSeen(ticks, RowId(raw, index));
       seen.Some? && raw.row.arrival.value <= seen.value
  }

  /** Exactly the evidence that passes. */
  ghost predicate EvidenceHolds(p: Payload, model: Option<string>, minRequests: int) {
    && HeaderHolds(p, model)
    && p.rows.Some? && |p.rows.value| >= minRequests && RowsHold(p.rows.value) && LateArrival(p.rows.value)
    && p.ticks.Some? && TicksHold(p.ticks.value, p.rows.value)
    && forall i :: 0 <= i < |p.rows.value| ==> SeenInTime(p.rows.value[i], i, p.ticks.value)
  }

  // ----- the same, field by field

  lemma HeaderMeans(p: Payload, model: Option<string>)
    ensures HeaderHolds(p, model) <==>
      && p.model.Some? && (model.Some? ==> p.model.value == model.value)
      && (p.proofGate.Some? ==> p.proofGate.value == "continuous_batching")
      && p.optInFlag == Some("BLOOMBEE_ENABLE_LIVE_CONTINUOUS_BATCHING") && p.optIn && p.observed && !p.claimsSpeedup
  {
  }

  lemma RowMeans(raw: RawRow)
    ensures RowHolds(raw) <==>
      && raw.Object? && raw.row.arrival.Some? && raw.row.baseline.Some? && raw.row.continuous.Some?
      && var a, b := raw.row.baseline.value, raw.row.continuous.value;
      && a.tokens.Some? && b.tokens.Some? && a.tokens.value == b.tokens.value != []
      && a.fingerprint.Some? && b.fingerprint.Some?
      && (a.fingerprint.value != b.fingerprint.value ==>
            && raw.row.comparison.Some?
            && var c := raw.row.comparison.value;
            && c.maxAbs.Some? && c.maxAbs.value <= 0.01 && c.meanAbs.Some? && c.meanAbs.value <= 0.001 && c.topMatch)
  {
  }

  /** Whether position i of a batch is active: a mask that fits the ids decides, without one all are. */
  ghost predicate ActiveAt(t: Tick, i: int)
    requires t.Batch? && 0 <= i < |t.ids|
  {
    t.mask.Some? && |t.mask.value| == |t.ids| ==> t.mask.value[i]
  }

  /** Selecting by mask keeps exactly what stands at the positions that the mask marks, ... */
  lemma {:induction false} SelectMeans(ids: seq<Option<string>>, mask: seq<bool>, x: Option<string>)
    requires |ids| == |mask|
    ensures x in Select(ids, mask) <==> exists i :: 0 <= i < |ids| && mask[i] && ids[i] == x
  {
    if ids != [] {
      SelectMeans(ids[1..], mask[1..], x);
      if i :| 0 <= i < |ids| && mask[i] && ids[i] == x {
        assert i > 0 ==> mask[1..][i - 1] && ids[1..][i - 1] == x;
      }
      if i :| 0 <= i < |ids[1..]| && mask[1..][i] && ids[1..][i] == x {
        assert mask[i + 1] && ids[i + 1] == x;
      }
    }
  }

  lemma {:induction false} SelectSome(ids: seq<Option<string>>, mask: seq<bool>)
    requires |ids| == |mask|
    ensures |Select(ids, mask)| >= 1 <==> exists i :: 0 <= i < |ids| && mask[i]
  {
    if ids != [] {
      SelectSome(ids[1..], mask[1..]);
      if i :| 0 <= i < |ids| && mask[i] {
        assert i > 0 ==> mask[1..][i - 1];
      }
      if i :| 0 <= i < |ids[1..]| && mask[1..][i] {
        assert mask[i + 1];
      }
    }
  }

  /** ... and as many, so that two are kept exactly when two are marked. */
  lemma {:induction false} SelectTwo(ids: seq<Option<string>>, mask: seq<bool>)
    requires |ids| == |mask|
    ensures |Select(ids, mask)| > 1 <==> exists i, j :: 0 <= i < j < |ids| && mask[i] && mask[j]
  {
    if ids != [] {
      SelectTwo(ids[1..], mask[1..]);
      SelectSome(ids[1..], mask[1..]);
      if i, j :| 0 <= i < j < |ids| && mask[i] && mask[j] {
        assert mask[1..][j - 1];
        assert i > 0 ==> mask[1..][i - 1] && mask[1..][j - 1];
      }
      if i, j :| 0 <= i < j < |ids[1..]| && mask[1..][i] && mask[1..][j] {
        assert mask[i + 1] && mask[j + 1];
      }
      if i :| 0 <= i < |ids[1..]| && mask[1..][i] {
        assert mask[i + 1];
      }
    }
  }

  /** What a tick batch says, position by position: it mentions what stands at active positions, it is
      batched when two positions are active, and it is in order when the ids there are known. */
  lemma TickMeans(t: Tick, id: string, rows: seq<RawRow>)
    requires t.Batch?
    ensures Mentions(t, id) <==> t.tick.Some? && exists i :: 0 <= i < |t.ids| && ActiveAt(t, i) && t.ids[i] == Some(id)
    ensures Batched(t) <==> t.tick.Some? && exists i, j :: 0 <= i < j < |t.ids| && ActiveAt(t, i) && ActiveAt(t, j)
    ensures TickHolds(t, rows) <==>
      && t.tick.Some?
      && forall i :: 0 <= i < |t.ids| && ActiveAt(t, i) ==> t.ids[i].Some? && Known(rows, t.ids[i].value)
  {
    hide Known;
    ActiveIdsMean(t, Some(id));
    ActiveIdsTwo(t);
    var active := ActiveIds(t);
    hide ActiveIds, ActiveAt;
    forall x ensures x in active <==> exists i :: 0 <= i < |t.ids| && ActiveAt(t, i) && t.ids[i] == x {
      ActiveIdsMean(t, x);
    }
    if forall i :: 0 <= i < |active| ==> active[i].Some? && Known(rows, active[i].value) {
      forall i | 0 <= i < |t.ids| && ActiveAt(t, i) ensures t.ids[i].Some? && Known(rows, t.ids[i].value) {
        assert t.ids[i] in active;
      }
    }
    if forall i :: 0 <= i < |t.ids| && ActiveAt(t, i) ==> t.ids[i].Some? && Known(rows, t.ids[i].value) {
      forall i | 0 <= i < |active| ensures active[i].Some? && Known(rows, active[i].value) {
        assert active[i] in active;
      }
    }
  }

  lemma ActiveIdsMean(t: Tick, x: Option<string>)
    requires t.Batch?
    ensures x in ActiveIds(t) <==> exists i :: 0 <= i < |t.ids| && ActiveAt(t, i) && t.ids[i] == x
  {
    if t.mask.Some? && |t.mask.value| == |t.ids| {
      SelectMeans(t.ids, t.mask.value, x);
      forall i | 0 <= i < |t.ids| ensures ActiveAt(t, i) <==> t.mask.value[i] { }
    } else {
      forall i | 0 <= i < |t.ids| ensures ActiveAt(t, i) { }
    }
  }

  lemma ActiveIdsTwo(t: Tick)
    requires t.Batch?
    ensures |ActiveIds(t)| > 1 <==> exists i, j :: 0 <= i < j < |t.ids| && ActiveAt(t, i) && ActiveAt(t, j)
  {
    if t.mask.Some? && |t.mask.value| == |t.ids| {
      SelectTwo(t.ids, t.mask.value);
      forall i | 0 <= i < |t.ids| ensures ActiveAt(t, i) <==> t.mask.value[i] { }
    } else if |t.ids| > 1 {
      assert ActiveAt(t, 0) && ActiveAt(t, 1);
    }
  }

  /** The first sighting is the tick of the first batch in the list that mentions the id. */
  lemma {:induction false} FirstSeenMeans(ticks: seq<Tick>, id: string, k: nat)
    requires k < |ticks|
    requires Mentions(ticks[k], id) && forall j :: 0 <= j < k ==> !Mentions(ticks[j], id)
    ensures FirstSeen(ticks, id) == ticks[k].tick
  {
    hide Mentions;
    if k > 0 {
      FirstSeenMeans(ticks[1..], id, k - 1);
    }
  }

  lemma {:induction false} NeverSeen(ticks: seq<Tick>, id: string)
    requires forall j :: 0 <= j < |ticks| ==> !Mentions(ticks[j], id)
    ensures FirstSeen(ticks, id).None?
  {
    hide Mentions;
    if ticks != [] {
      NeverSeen(ticks[1..], id);
    }
  }

  // ----- what the report's flags say, on passing and failing evidence alike

  predicate AboutTokens(f: Failure) {
    f.BaselineTokensMissing? || f.ContinuousTokensMissing? || f.TokensDiffer? || f.TopTokenMismatch?
  }

  ghost predicate TokenTrouble(failed: seq<Failure>) {
    exists i :: 0 <= i < |failed| && AboutTokens(failed[i])
  }

  lemma TroubleAdds(a: seq<Failure>, b: seq<Failure>)
    ensures TokenTrouble(a + b) <==> TokenTrouble(a) || TokenTrouble(b)
  {
    hide AboutTokens;
    var all := a + b;
    forall i | 0 <= i < |a| ensures all[i] == a[i] { }
    forall i | 0 <= i < |b| ensures all[|a| + i] == b[i] { }
    assert forall i :: |a| <= i < |all| ==> all[i] == b[i - |a|];
  }

  /** Whether the row compares logits by number and only the top token is off. */
  predicate TopTokenOff(row: Row) {
    && FingerprintsPresent(row) && !FingerprintsEqual(row) && row.comparison.Some?
    && WithinTolerance(row.comparison.value.(topMatch := true)) && !row.comparison.value.topMatch
  }

  ghost predicate TokensAgree(rows: seq<RawRow>) {
    forall i :: 0 <= i < |rows| && rows[i].Object? ==> TokensHold(rows[i].row) && !TopTokenOff(rows[i].row)
  }

  ghost predicate LogitsAgree(rows: seq<RawRow>) {
    forall i :: 0 <= i < |rows| && rows[i].Object? ==> LogitsHold(rows[i].row)
  }

  /** Some row's logits agree by number although their fingerprints differ. */
  ghost predicate ByNumber(rows: seq<RawRow>) {
    exists i :: 0 <= i < |rows| && rows[i].Object? && LogitsHold(rows[i].row) && !FingerprintsEqual(rows[i].row)
  }

  lemma FlagsNext(rows: seq<RawRow>, raw: RawRow)
    ensures TokensAgree(rows + [raw]) <==>
      TokensAgree(rows) && (raw.Object? ==> TokensHold(raw.row) && !TopTokenOff(raw.row))
    ensures LogitsAgree(rows + [raw]) <==> LogitsAgree(rows) && (raw.Object? ==> LogitsHold(raw.row))
    ensures ByNumber(rows + [raw]) <==>
      ByNumber(rows) || (raw.Object? && LogitsHold(raw.row) && !FingerprintsEqual(raw.row))
  {
    hide TokensHold, LogitsHold, TopTokenOff, FingerprintsEqual;
    var all := rows + [raw];
    assert all[|rows|] == raw && forall i :: 0 <= i < |rows| ==> all[i] == rows[i];
    if i :| 0 <= i < |rows| && rows[i].Object? && LogitsHold(rows[i].row) && !FingerprintsEqual(rows[i].row) {
      assert LogitsHold(all[i].row);
    }
  }

  // ----- the checks

  method CheckHeader(p: Payload, model: Option<string>) returns (failed: seq<Failure>)
    ensures failed == [] <==> HeaderHolds(p, model)
    ensures !TokenTrouble(failed)
  {
    hide TokenTrouble;
    failed := [];
    if model.Some? && p.model != model { failed := failed + [ModelMismatch]; }
    if p.model.None? { failed := failed + [ModelMissing]; }
    if p.proofGate.Some? && p.proofGate.value != PROOF_GATE { failed := failed + [WrongGate]; }
    NotAboutTokens(failed);
    var switches := CheckSwitches(p);
    TroubleAdds(failed, switches);
    failed := failed + switches;
  }

  /** The opt-in, the server's observation, and no claim of a speedup. */
  method CheckSwitches(p: Payload) returns (failed: seq<Failure>)
    ensures failed == [] <==> p.optInFlag == Some(OPT_IN_FLAG) && p.optIn && p.observed && !p.claimsSpeedup
    ensures !TokenTrouble(failed)
  {
    hide TokenTrouble;
    failed := [];
    if p.optInFlag != Some(OPT_IN_FLAG) { failed := failed + [WrongFlag]; }
    if !p.optIn { failed := failed + [NotOptedIn]; }
    if !p.observed { failed := failed + [NotObserved]; }
    if p.claimsSpeedup { failed := failed + [ClaimsSpeedup]; }
    NotAboutTokens(failed);
  }

  /** Compares logits by number; fails without a reason when the row carries no comparison at all. */
  method CompareNumbers(row: Row, id: string) returns (ok: bool, failed: seq<Failure>)
    ensures ok <==> row.comparison.Some? && WithinTolerance(row.comparison.value)
    ensures ok ==> failed == []
    ensures |failed| <= 1
    ensures TokenTrouble(failed) <==>
      row.comparison.Some? && WithinTolerance(row.comparison.value.(topMatch := true)) && !row.comparison.value.topMatch
  {
    if row.comparison.None? { return false, []; }
    var c := row.comparison.value;
    if c.maxAbs.None? { return false, [MaxDiffMissing(id)]; }
    if c.meanAbs.None? { return false, [MeanDiffMissing(id)]; }
    if c.maxAbs.value > MAX_ABS_TOLERANCE { return false, [MaxDiffTooLarge(id)]; }
    if c.meanAbs.value > MEAN_ABS_TOLERANCE { return false, [MeanDiffTooLarge(id)]; }
    if !c.topMatch {
      failed := [TopTokenMismatch(id)];
      assert AboutTokens(failed[0]);
      return false, failed;
    }
    return true, [];
  }

  method CheckLogits(row: Row, id: string)
    returns (failed: seq<Failure>, byFingerprint: bool, byNumbers: bool)
    ensures failed == [] <==> LogitsHold(row)
    ensures byFingerprint <==> FingerprintsEqual(row)
    ensures byNumbers <==> LogitsHold(row) && !FingerprintsEqual(row)
    ensures TokenTrouble(failed) <==> TopTokenOff(row)
  {
    failed, byNumbers := [], false;
    byFingerprint := FingerprintsEqual(row);
    if !FingerprintsPresent(row) {
      failed := [FingerprintMissing(id)];
    } else if !byFingerprint {
      byNumbers, failed := CompareNumbers(row, id);
      if !byNumbers && failed == [] {
        failed := [FingerprintsDiffer(id)];
      }
    }
  }

  function SideTokens(side: Option<Side>): (r: Option<seq<int>>) {
    if side.None? then None else side.value.tokens
  }

  method CheckTokens(row: Row, id: string) returns (failed: seq<Failure>, mismatch: bool)
    ensures failed == [] <==> TokensHold(row)
    ensures failed != [] ==> AboutTokens(failed[|failed| - 1])
    ensures mismatch ==> failed != []
  {
    failed, mismatch := [], false;
    if row.baseline.None? { failed := failed + [BaselineMissing(id)]; }
    if row.continuous.None? { failed := failed + [ContinuousMissing(id)]; }
    var a, b := SideTokens(row.baseline), SideTokens(row.continuous);
    if a.None? || a.value == [] { failed := failed + [BaselineTokensMissing(id)]; }
    if b.None? || b.value == [] { failed := failed + [ContinuousTokensMissing(id)]; }
    if a.Some? && b.Some? && a != b {
      failed, mismatch := failed + [TokensDiffer(id)], true;
    }
  }

  datatype Scan = Scan(failed: seq<Failure>, seen: set<string>, arrivals: seq<int>, arrivalOf: map<string, int>,
                       tokenMismatch: bool, logitsFailed: bool, byFingerprint: nat, byNumbers: nat)

  ghost predicate AllFingerprintsEqual(rows: seq<RawRow>) {
    forall i :: 0 <= i < |rows| ==> rows[i].Object? && FingerprintsEqual(rows[i].row)
  }

  /** What scanning a list of rows yields. */
  ghost predicate Scanned(rows: seq<RawRow>, s: Scan) {
    && (s.failed == [] <==> RowsHold(rows))
    && (forall id :: id in s.seen <==> Known(rows, id))
    && (forall x :: x in s.arrivals <==>
          exists i :: 0 <= i < |rows| && rows[i].Object? && rows[i].row.arrival == Some(x))
    && (TokenProblem(s) <==> !TokensAgree(rows))
    && (s.logitsFailed <==> !LogitsAgree(rows))
    && s.byFingerprint <= |rows| && (s.byFingerprint == |rows| <==> AllFingerprintsEqual(rows))
    && (s.byNumbers > 0 <==> ByNumber(rows))
    && (s.failed == [] ==> forall i :: 0 <= i < |rows| ==>
          RowId(rows[i], i) in s.arrivalOf && s.arrivalOf[RowId(rows[i], i)] == rows[i].row.arrival.value)
  }

  ghost predicate TokenProblem(s: Scan) { s.tokenMismatch || TokenTrouble(s.failed) }

  method ScanRow(raw: RawRow, index: nat, s: Scan) returns (t: Scan)
    requires raw.Object?
    ensures ScanStep(index, raw, s, t)
  {
    hide TokenTrouble, AboutTokens, TopTokenOff, RowId, TokensHold, LogitsHold, FingerprintsEqual;
    var row, id := raw.row, RowId(raw, index);
    var idFailures: seq<Failure> := if id in s.seen then [DuplicateId(id)] else [];
    var arrivalFailures: seq<Failure> := [];
    var arrivals, arrivalOf := s.arrivals, s.arrivalOf;
    if row.arrival.None? {
      arrivalFailures := [ArrivalMissing(id)];
    } else {
      arrivals, arrivalOf := arrivals + [row.arrival.value], arrivalOf[id := row.arrival.value];
    }
    var tokenFailures, mismatch := CheckTokens(row, id);
    var logitFailures, byFingerprint, byNumbers := CheckLogits(row, id);
    RowTrouble(s.failed, idFailures, arrivalFailures, tokenFailures, logitFailures);
    var failed := s.failed + idFailures + arrivalFailures + tokenFailures + logitFailures;
    t := Scan(failed, s.seen + {id}, arrivals, arrivalOf, s.tokenMismatch || mismatch,
              s.logitsFailed || logitFailures != [],
              s.byFingerprint + (if byFingerprint then 1 else 0), s.byNumbers + (if byNumbers then 1 else 0));
  }

  /** Of the failures of a row, those of the token check concern tokens, and so may one of the logits check. */
  lemma RowTrouble(before: seq<Failure>, ids: seq<Failure>, arrivals: seq<Failure>, tokens: seq<Failure>,
                   logits: seq<Failure>)
    requires forall i :: 0 <= i < |ids| ==> ids[i].DuplicateId?
    requires forall i :: 0 <= i < |arrivals| ==> arrivals[i].ArrivalMissing?
    requires tokens != [] ==> AboutTokens(tokens[|tokens| - 1])
    ensures TokenTrouble(before + ids + arrivals + tokens + logits) <==>
      TokenTrouble(before) || tokens != [] || TokenTrouble(logits)
  {
    assert !TokenTrouble(ids) && !TokenTrouble(arrivals);
    assert TokenTrouble(tokens) <==> tokens != [];
    hide TokenTrouble;
    TroubleAdds(before, ids);
    TroubleAdds(before + ids, arrivals);
    TroubleAdds(before + ids + arrivals, tokens);
    TroubleAdds(before + ids + arrivals + tokens, logits);
  }

  lemma RowsHoldNext(rows: seq<RawRow>, raw: RawRow)
    ensures RowsHold(rows + [raw]) <==> RowsHold(rows) && RowHolds(raw) && !Known(rows, RowId(raw, |rows|))
  {
    hide TokensHold, LogitsHold, RowId, UniqueIds, Known;
    UniqueNext(rows, raw);
    var all := rows + [raw];
    assert all[|rows|] == raw;
    assert forall i :: 0 <= i < |rows| ==> all[i] == rows[i];
  }

  method ScanRows(rows: seq<RawRow>) returns (s: Scan)
    ensures Scanned(rows, s)
  {
    hide *;
    s := Scan([], {}, [], map[], false, false, 0, 0);
    ScannedNone(s);
    assert rows[..0] == [];
    for n := 0 to |rows|
      invariant Scanned(rows[..n], s)
    {
      ghost var before := s;
      if rows[n].NotAnObject? {
        s := s.(failed := s.failed + [RowNotAnObject(n)]);
        SkippedRow(n, before, s);
      } else {
        s := ScanRow(rows[n], n, s);
      }
      ScannedNext(rows[..n], rows[n], before, s);
      assert rows[..n + 1] == rows[..n] + [rows[n]];
    }
    assert rows[..|rows|] == rows;
  }

  /** How the scan changes with one more row. */
  ghost predicate ScanStep(index: nat, raw: RawRow, s: Scan, t: Scan) {
    if raw.NotAnObject? then t == s.(failed := s.failed + [RowNotAnObject(index)])
    else
      var id := RowId(raw, index);
      && (t.failed == [] <==> s.failed == [] && id !in s.seen && RowHolds(raw))
      && t.seen == s.seen + {id}
      && t.arrivals == (if raw.row.arrival.Some? then s.arrivals + [raw.row.arrival.value] else s.arrivals)
      && t.arrivalOf == (if raw.row.arrival.Some? then s.arrivalOf[id := raw.row.arrival.value] else s.arrivalOf)
      && (TokenProblem(t) <==> TokenProblem(s) || !TokensHold(raw.row) || TopTokenOff(raw.row))
      && (t.logitsFailed <==> s.logitsFailed || !LogitsHold(raw.row))
      && t.byFingerprint == s.byFingerprint + (if FingerprintsEqual(raw.row) then 1 else 0)
      && t.byNumbers == s.byNumbers + (if LogitsHold(raw.row) && !FingerprintsEqual(raw.row) then 1 else 0)
  }

  lemma ScannedNone(s: Scan)
    requires s == Scan([], {}, [], map[], false, false, 0, 0)
    ensures Scanned([], s)
  {
  }

  lemma SkippedRow(index: nat, s: Scan, t: Scan)
    requires t == s.(failed := s.failed + [RowNotAnObject(index)])
    ensures ScanStep(index, NotAnObject, s, t)
  {
  }

  lemma SkippedTrouble(s: Scan, t: Scan, index: nat)
    requires t == s.(failed := s.failed + [RowNotAnObject(index)])
    ensures TokenProblem(t) <==> TokenProblem(s)
  {
    TroubleAdds(s.failed, [RowNotAnObject(index)]);
  }

  lemma ScannedNext(rows: seq<RawRow>, raw: RawRow, s: Scan, t: Scan)
    requires Scanned(rows, s) && ScanStep(|rows|, raw, s, t)
    ensures Scanned(rows + [raw], t)
  {
    hide TokensHold, LogitsHold, RowId, RowsHold, Known, FingerprintsEqual, AllFingerprintsEqual, TokensAgree, LogitsAgree,
      ByNumber, TokenProblem, TopTokenOff;
    var all := rows + [raw];
    assert all[|rows|] == raw;
    assert forall i :: 0 <= i < |rows| ==> all[i] == rows[i];
    forall id ensures id in t.seen <==> Known(all, id) {
      KnownNext(rows, raw, id);
    }
    RowsHoldNext(rows, raw);
    ArrivalsNext(rows, raw, s, t);
    FlagsNext(rows, raw);
    FingerprintsNext(rows, raw);
    if raw.NotAnObject? {
      SkippedTrouble(s, t, |rows|);
    }
    if t.failed == [] {
      ArrivalOfNext(rows, raw, s, t);
    }
  }

  lemma FingerprintsNext(rows: seq<RawRow>, raw: RawRow)
    ensures AllFingerprintsEqual(rows + [raw]) <==>
      AllFingerprintsEqual(rows) && raw.Object? && FingerprintsEqual(raw.row)
  {
    hide FingerprintsEqual;
    var all := rows + [raw];
    assert all[|rows|] == raw;
    assert forall i :: 0 <= i < |rows| ==> all[i] == rows[i];
  }

  lemma ArrivalsNext(rows: seq<RawRow>, raw: RawRow, s: Scan, t: Scan)
    requires Scanned(rows, s) && ScanStep(|rows|, raw, s, t)
    ensures forall x :: x in t.arrivals <==>
      exists i :: 0 <= i < |rows + [raw]| && (rows + [raw])[i].Object? && (rows + [raw])[i].row.arrival == Some(x)
  {
    hide RowHolds, RowId, RowsHold, Known;
    var all := rows + [raw];
    forall x
      ensures x in t.arrivals <==> exists i :: 0 <= i < |all| && all[i].Object? && all[i].row.arrival == Some(x)
    {
      if x in s.arrivals {
        var i :| 0 <= i < |rows| && rows[i].Object? && rows[i].row.arrival == Some(x);
        assert all[i] == rows[i];
      }
      assert all[|rows|] == raw;
      if i :| 0 <= i < |all| && all[i].Object? && all[i].row.arrival == Some(x) {
        assert i < |rows| ==> rows[i] == all[i];
      }
    }
  }

  lemma ArrivalOfNext(rows: seq<RawRow>, raw: RawRow, s: Scan, t: Scan)
    requires Scanned(rows, s) && ScanStep(|rows|, raw, s, t) && t.failed == [] && RowsHold(rows + [raw])
    ensures forall i :: 0 <= i < |rows + [raw]| ==>
      var x := (rows + [raw])[i];
      RowId(x, i) in t.arrivalOf && t.arrivalOf[RowId(x, i)] == x.row.arrival.value
  {
    hide TokensHold, LogitsHold, RowId, Known;
    var all := rows + [raw];
    forall i | 0 <= i < |all|
      ensures RowId(all[i], i) in t.arrivalOf && t.arrivalOf[RowId(all[i], i)] == all[i].row.arrival.value
    {
      if i < |rows| {
        assert all[i] == rows[i];
        assert RowId(all[i], i) != RowId(all[|rows|], |rows|);
      }
    }
  }

  /** Whether the largest of these exceeds the smallest. */
  method Spread(arrivals: seq<int>) returns (late: bool)
    ensures late <==> exists x, y :: x in arrivals && y in arrivals && x < y
  {
    if arrivals == [] { return false; }
    var lo, hi := arrivals[0], arrivals[0];
    for n := 0 to |arrivals|
      invariant lo in arrivals && hi in arrivals
      invariant forall i :: 0 <= i < n ==> lo <= arrivals[i] <= hi
    {
      if arrivals[n] < lo { lo := arrivals[n]; }
      if arrivals[n] > hi { hi := arrivals[n]; }
    }
    late := hi > lo;
  }

  lemma SpreadIsLate(rows: seq<RawRow>, s: Scan)
    requires Scanned(rows, s)
    ensures (exists x, y :: x in s.arrivals && y in s.arrivals && x < y) <==> LateArrival(rows)
  {
    hide RowsHold, Known, RowId;
    if x, y :| x in s.arrivals && y in s.arrivals && x < y {
      var i :| 0 <= i < |rows| && rows[i].Object? && rows[i].row.arrival == Some(x);
      var j :| 0 <= j < |rows| && rows[j].Object? && rows[j].row.arrival == Some(y);
    }
    if LateArrival(rows) {
      var i, j :| 0 <= i < |rows| && 0 <= j < |rows| && rows[i].Object? && rows[j].Object?
        && rows[i].row.arrival.Some? && rows[j].row.arrival.Some?
        && rows[i].row.arrival.value < rows[j].row.arrival.value;
      assert rows[i].row.arrival.value in s.arrivals && rows[j].row.arrival.value in s.arrivals;
    }
  }

  // ----- the server's tick batches

  lemma {:induction false} FirstSeenNext(ticks: seq<Tick>, t: Tick, id: string)
    ensures FirstSeen(ticks + [t], id)
         == if FirstSeen(ticks, id).Some? then FirstSeen(ticks, id) else if Mentions(t, id) then t.tick else None
  {
    if ticks != [] {
      assert (ticks + [t])[1..] == ticks[1..] + [t];
      FirstSeenNext(ticks[1..], t, id);
    }
  }

  function BatchedCount(ticks: seq<Tick>): (n: nat) {
    if ticks == [] then 0
    else BatchedCount(ticks[..|ticks| - 1]) + (if Batched(ticks[|ticks| - 1]) then 1 else 0)
  }

  lemma {:induction false} BatchedCountMeans(ticks: seq<Tick>)
    ensures BatchedCount(ticks) > 0 <==> exists i :: 0 <= i < |ticks| && Batched(ticks[i])
  {
    hide Batched;
    if ticks != [] {
      var n := |ticks| - 1;
      BatchedCountMeans(ticks[..n]);
      if BatchedCount(ticks[..n]) > 0 {
        var i :| 0 <= i < n && Batched(ticks[..n][i]);
        assert Batched(ticks[i]);
      }
      if i :| 0 <= i < |ticks| && Batched(ticks[i]) {
        assert i < n ==> ticks[..n][i] == ticks[i];
      }
    }
  }

  /** Counting counts each batched tick once. */
  lemma {:induction false} BatchedCountIs(ticks: seq<Tick>)
    ensures BatchedCount(ticks) == |set i | 0 <= i < |ticks| && Batched(ticks[i])|
  {
    hide Batched;
    if ticks != [] {
      var n := |ticks| - 1;
      BatchedCountIs(ticks[..n]);
      var front := set i | 0 <= i < n && Batched(ticks[..n][i]);
      assert front == set i | 0 <= i < n && Batched(ticks[i]);
      assert (set i | 0 <= i < |ticks| && Batched(ticks[i])) == front + (if Batched(ticks[n]) then {n} else {});
    }
  }

  ghost predicate TickFits(t: Tick, seen: set<string>) {
    t.Batch? ==>
      && t.tick.Some?
      && forall i :: 0 <= i < |ActiveIds(t)| ==> ActiveIds(t)[i].Some? && ActiveIds(t)[i].value in seen
  }

  /** First sightings after these ticks, of known requests only. */
  ghost predicate Sightings(ticks: seq<Tick>, seen: set<string>, first: map<string, int>) {
    forall id :: if id in seen && FirstSeen(ticks, id).Some?
                 then id in first && first[id] == FirstSeen(ticks, id).value
                 else id !in first
  }

  /** Records the first sighting of each known id of a batch. */
  method SightIds(ids: seq<Option<string>>, index: nat, tick: int, seen: set<string>, first: map<string, int>)
    returns (failed: seq<Failure>, first': map<string, int>)
    ensures failed == [] <==> forall i :: 0 <= i < |ids| ==> ids[i].Some? && ids[i].value in seen
    ensures forall id :: id in first' <==> id in first || (id in seen && Some(id) in ids)
    ensures forall id :: id in first' ==> first'[id] == if id in first then first[id] else tick
    ensures !TokenTrouble(failed)
  {
    failed, first' := [], first;
    for n := 0 to |ids|
      invariant failed == [] <==> forall i :: 0 <= i < n ==> ids[i].Some? && ids[i].value in seen
      invariant forall id :: id in first' <==> id in first || (id in seen && Some(id) in ids[..n])
      invariant forall id :: id in first' ==> first'[id] == if id in first then first[id] else tick
      invariant !TokenTrouble(failed)
    {
      assert ids[..n + 1] == ids[..n] + [ids[n]];
      if ids[n].None? {
        failed := failed + [InvalidTickId(index)];
      } else if ids[n].value !in seen {
        failed := failed + [UnknownTickId(ids[n].value)];
      } else if ids[n].value !in first' {
        first' := first'[ids[n].value := tick];
      }
    }
    assert ids[..|ids|] == ids;
  }

  method ScanTicks(ticks: seq<Tick>, seen: set<string>)
    returns (failed: seq<Failure>, batched: nat, first: map<string, int>)
    ensures failed == [] <==> forall i :: 0 <= i < |ticks| ==> TickFits(ticks[i], seen)
    ensures batched == BatchedCount(ticks)
    ensures Sightings(ticks, seen, first)
    ensures !TokenTrouble(failed)
  {
    hide *;
    failed, batched, first := [], 0, map[];
    NoTicks(seen);
    NotAboutTokens([]);
    assert ticks[..0] == [];
    for n := 0 to |ticks|
      invariant failed == [] <==> forall i :: 0 <= i < n ==> TickFits(ticks[i], seen)
      invariant batched == BatchedCount(ticks[..n])
      invariant Sightings(ticks[..n], seen, first)
      invariant !TokenTrouble(failed)
    {
      var problems, more, next := ScanTick(ticks[n], n, seen, first);
      BatchedCountNext(ticks, n);
      SightingsNext(ticks[..n], ticks[n], seen, first, next);
      assert ticks[..n + 1] == ticks[..n] + [ticks[n]];
      TroubleAdds(failed, problems);
      failed, first := failed + problems, next;
      if more {
        batched := batched + 1;
      }
    }
    assert ticks[..|ticks|] == ticks;
  }

  method ScanTick(t: Tick, index: nat, seen: set<string>, first: map<string, int>)
    returns (failed: seq<Failure>, batched: bool, first': map<string, int>)
    ensures failed == [] <==> TickFits(t, seen)
    ensures batched <==> Batched(t)
    ensures !TokenTrouble(failed)
    ensures forall id :: id in first' <==> id in first || (id in seen && Mentions(t, id))
    ensures forall id :: id in first' ==>
      if id in first then first'[id] == first[id] else t.Batch? && t.tick == Some(first'[id])
  {
    failed, batched, first' := [], false, first;
    if t.Batch? {
      if t.tick.None? {
        failed := [TickMissing(index)];
      } else {
        var active := ActiveIds(t);
        batched := |active| > 1;
        failed, first' := SightIds(active, index, t.tick.value, seen, first);
      }
    }
  }

  lemma BatchedCountNext(ticks: seq<Tick>, n: nat)
    requires n < |ticks|
    ensures BatchedCount(ticks[..n + 1]) == BatchedCount(ticks[..n]) + if Batched(ticks[n]) then 1 else 0
  {
    hide Batched;
    assert ticks[..n + 1][..n] == ticks[..n];
  }

  lemma SightingsNext(ticks: seq<Tick>, t: Tick, seen: set<string>, first: map<string, int>, first': map<string, int>)
    requires Sightings(ticks, seen, first)
    requires forall id :: id in first' <==> id in first || (id in seen && Mentions(t, id))
    requires forall id :: id in first' ==>
      if id in first then first'[id] == first[id] else t.Batch? && t.tick == Some(first'[id])
    ensures Sightings(ticks + [t], seen, first')
  {
    forall id ensures if id in seen && FirstSeen(ticks + [t], id).Some?
                      then id in first' && first'[id] == FirstSeen(ticks + [t], id).value
                      else id !in first'
    {
      FirstSeenNext(ticks, t, id);
    }
  }

  /** Each known request must have been seen, and not before it declared to arrive. */
  method CheckSightings(seen: set<string>, arrivalOf: map<string, int>, first: map<string, int>)
    returns (failed: seq<Failure>)
    ensures failed == [] <==>
      forall id :: id in seen ==> id in first && (id in arrivalOf ==> arrivalOf[id] <= first[id])
    ensures !TokenTrouble(failed)
  {
    failed := [];
    var todo := seen;
    while todo != {}
      invariant todo <= seen
      invariant failed == [] <==>
        forall id :: id in seen - todo ==> id in first && (id in arrivalOf ==> arrivalOf[id] <= first[id])
      invariant !TokenTrouble(failed)
      decreases |todo|
    {
      var id :| id in todo;
      assert seen - (todo - {id}) == (seen - todo) + {id};
      if id !in first {
        failed := failed + [NeverMentioned(id)];
      } else if id in arrivalOf && first[id] < arrivalOf[id] {
        failed := failed + [SeenBeforeArrival(id)];
      }
      todo := todo - {id};
    }
  }

  // ----- the verdict

  /** Verifies live evidence. It passes exactly when EvidenceHolds; its flags say what they say whether
      it passes or not; and when it passes, every flag that later gates ask for is set. */
  method Verify(p: Payload, model: Option<string>, minRequests: int) returns (r: Report)
    ensures r.Passed() <==> EvidenceHolds(p, model, minRequests)
    ensures r.model == p.model
    ensures r.lateArrival <==> p.rows.Some? && LateArrival(p.rows.value)
    ensures r.batchedTicks == if p.ticks.Some? then BatchedCount(p.ticks.value) else 0
    ensures FlagsFit(r, if p.rows.Some? then p.rows.value else [])
    ensures r.Passed() ==> r.lateArrival && r.batchedTicks > 0 && r.tokenParity && r.logitsParity
    ensures r.Passed() ==> (r.fingerprintParity <==> AllFingerprintsEqual(p.rows.value))
    ensures r.Passed() ==> (r.numericParity <==> !AllFingerprintsEqual(p.rows.value))
  {
    hide *;
    PassedMeans();
    var header := CheckHeader(p, model);
    var rows := if p.rows.Some? then p.rows.value else [];
    var rowFailures, s, late := VerifyRows(p, rows, minRequests);
    var tickFailures, batched, first := VerifyTicks(p, s);
    TroubleAdds(header, rowFailures);
    TroubleAdds(header + rowFailures, tickFailures);
    var failed := header + rowFailures + tickFailures;
    QuietMeans(failed);
    var tokenParity := rows != [] && !s.tokenMismatch && forall f :: f in failed ==> !AboutTokens(f);
    var fingerprintParity := |rows| > 0 && s.byFingerprint == |rows|;
    var numericParity := |rows| > 0 && s.byNumbers > 0 && !s.logitsFailed;
    r := Report(p.model, failed, late, batched, tokenParity, fingerprintParity, numericParity,
                fingerprintParity || numericParity);
    VerdictMeans(p, model, minRequests, s, first, batched, late);
    ScannedFlags(rows, s);
    FlagsFitMeans(r, rows);
    NoTicks({});
  }

  /** The flags of a report, in terms of the rows alone. */
  ghost predicate FlagsFit(r: Report, rows: seq<RawRow>) {
    && (r.tokenParity <==> rows != [] && TokensAgree(rows))
    && (r.fingerprintParity <==> rows != [] && AllFingerprintsEqual(rows))
    && (r.numericParity <==> rows != [] && ByNumber(rows) && LogitsAgree(rows))
    && (r.logitsParity <==> r.fingerprintParity || r.numericParity)
  }

  lemma FlagsFitMeans(r: Report, rows: seq<RawRow>)
    ensures FlagsFit(r, rows) <==>
      && (r.tokenParity <==> rows != [] && TokensAgree(rows))
      && (r.fingerprintParity <==> rows != [] && AllFingerprintsEqual(rows))
      && (r.numericParity <==> rows != [] && ByNumber(rows) && LogitsAgree(rows))
      && (r.logitsParity <==> r.fingerprintParity || r.numericParity)
  {
    hide TokensAgree, AllFingerprintsEqual, ByNumber, LogitsAgree;
  }

  lemma QuietMeans(failed: seq<Failure>)
    ensures (forall f :: f in failed ==> !AboutTokens(f)) <==> !TokenTrouble(failed)
  {
    hide AboutTokens;
    if forall f :: f in failed ==> !AboutTokens(f) {
      forall i | 0 <= i < |failed| ensures !AboutTokens(failed[i]) { }
    }
  }

  /** What the scan knows about the flags; rows that all hold agree in everything. */
  lemma ScannedFlags(rows: seq<RawRow>, s: Scan)
    requires Scanned(rows, s)
    ensures s.tokenMismatch || TokenTrouble(s.failed) <==> !TokensAgree(rows)
    ensures s.logitsFailed <==> !LogitsAgree(rows)
    ensures s.byFingerprint == |rows| <==> AllFingerprintsEqual(rows)
    ensures s.byNumbers > 0 <==> ByNumber(rows)
    ensures s.failed == [] ==> TokensAgree(rows) && LogitsAgree(rows) && (ByNumber(rows) <==> !AllFingerprintsEqual(rows))
    ensures LateArrival(rows) ==> rows != []
    ensures !LateArrival([])
  {
    hide Known, RowId, UniqueIds, TokenTrouble;
    if s.failed == [] {
      forall i | 0 <= i < |rows|
        ensures TokensHold(rows[i].row) && LogitsHold(rows[i].row) && !TopTokenOff(rows[i].row)
      {
        assert RowHolds(rows[i]);
      }
      hide TokensHold, LogitsHold, TopTokenOff, FingerprintsEqual;
      if !AllFingerprintsEqual(rows) {
        var i :| 0 <= i < |rows| && !FingerprintsEqual(rows[i].row);
        assert LogitsHold(rows[i].row);
      }
    }
  }

  method VerifyRows(p: Payload, rows: seq<RawRow>, minRequests: int)
    returns (failed: seq<Failure>, s: Scan, late: bool)
    requires rows == if p.rows.Some? then p.rows.value else []
    ensures failed == [] <==> p.rows.Some? && |rows| >= minRequests && s.failed == [] && late
    ensures Scanned(rows, s) && (late <==> LateArrival(rows))
    ensures TokenTrouble(failed) <==> TokenTrouble(s.failed)
  {
    hide *;
    var before: seq<Failure>, after: seq<Failure> := [], [];
    if p.rows.None? { before := before + [RowsNotAList]; }
    if |rows| < minRequests { before := before + [TooFewRows]; }
    s := ScanRows(rows);
    late := Spread(s.arrivals);
    SpreadIsLate(rows, s);
    if !late { after := after + [NoLateArrival]; }
    NotAboutTokens(before);
    NotAboutTokens(after);
    TroubleAdds(before, s.failed);
    TroubleAdds(before + s.failed, after);
    failed := before + s.failed + after;
  }

  predicate AboutHeader(f: Failure) {
    f.ModelMismatch? || f.ModelMissing? || f.WrongGate? || f.WrongFlag? || f.NotOptedIn? || f.NotObserved?
    || f.ClaimsSpeedup?
  }

  lemma NotAboutTokens(failed: seq<Failure>)
    requires forall i :: 0 <= i < |failed| ==>
      || failed[i].RowsNotAList? || failed[i].TooFewRows? || failed[i].NoLateArrival? || failed[i].TicksNotAList?
      || failed[i].NoBatchedTick? || AboutHeader(failed[i])
    ensures !TokenTrouble(failed)
  {
  }

  method VerifyTicks(p: Payload, s: Scan)
    returns (failed: seq<Failure>, batched: nat, first: map<string, int>)
    ensures var ticks := if p.ticks.Some? then p.ticks.value else [];
      && batched == BatchedCount(ticks) && Sightings(ticks, s.seen, first)
      && (failed == [] <==>
            && p.ticks.Some? && (forall i :: 0 <= i < |ticks| ==> TickFits(ticks[i], s.seen)) && batched > 0
            && forall id :: id in s.seen ==> id in first && (id in s.arrivalOf ==> s.arrivalOf[id] <= first[id]))
    ensures !TokenTrouble(failed)
  {
    hide *;
    var ticks: seq<Tick>, listFailures: seq<Failure> := [], [];
    if p.ticks.Some? { ticks := p.ticks.value; } else { listFailures := [TicksNotAList]; }
    var tickFailures;
    tickFailures, batched, first := ScanTicks(ticks, s.seen);
    var batchFailures: seq<Failure> := if batched == 0 then [NoBatchedTick] else [];
    var sightFailures := CheckSightings(s.seen, s.arrivalOf, first);
    NotAboutTokens(listFailures);
    NotAboutTokens(batchFailures);
    TroubleAdds(listFailures, tickFailures);
    TroubleAdds(listFailures + tickFailures, batchFailures);
    TroubleAdds(listFailures + tickFailures + batchFailures, sightFailures);
    failed := listFailures + tickFailures + batchFailures + sightFailures;
  }

  lemma NoTicks(seen: set<string>)
    ensures BatchedCount([]) == 0 && Sightings([], seen, map[])
  {
  }

  lemma PassedMeans()
    ensures forall r: Report :: r.Passed() <==> r.failed == []
  {
  }

  /** The separate verdicts together are the evidence condition. */
  lemma VerdictMeans(p: Payload, model: Option<string>, minRequests: int, s: Scan, first: map<string, int>,
                     batched: nat, late: bool)
    requires var rows := if p.rows.Some? then p.rows.value else [];
             var ticks := if p.ticks.Some? then p.ticks.value else [];
             && Scanned(rows, s) && Sightings(ticks, s.seen, first)
             && batched == BatchedCount(ticks) && (late <==> LateArrival(rows))
    ensures var rows := if p.rows.Some? then p.rows.value else [];
            var ticks := if p.ticks.Some? then p.ticks.value else [];
            EvidenceHolds(p, model, minRequests) <==>
              && HeaderHolds(p, model) && p.rows.Some? && |rows| >= minRequests && s.failed == [] && late
              && p.ticks.Some? && (forall i :: 0 <= i < |ticks| ==> TickFits(ticks[i], s.seen)) && batched > 0
              && forall id :: id in s.seen ==> id in first && (id in s.arrivalOf ==> s.arrivalOf[id] <= first[id])
  {
    var rows := if p.rows.Some? then p.rows.value else [];
    var ticks := if p.ticks.Some? then p.ticks.value else [];
    BatchedCountMeans(ticks);
    TicksFitMeans(rows, ticks, s);
    if s.failed == [] {
      SightingsMean(rows, ticks, s, first);
    }
    hide *;
    EvidenceParts(p, model, minRequests);
    ScannedParts(rows, s);
  }

  lemma EvidenceParts(p: Payload, model: Option<string>, minRequests: int)
    ensures EvidenceHolds(p, model, minRequests) <==>
      && HeaderHolds(p, model)
      && p.rows.Some? && |p.rows.value| >= minRequests && RowsHold(p.rows.value) && LateArrival(p.rows.value)
      && p.ticks.Some?
      && (forall i :: 0 <= i < |p.ticks.value| ==> TickHolds(p.ticks.value[i], p.rows.value))
      && (exists i :: 0 <= i < |p.ticks.value| && Batched(p.ticks.value[i]))
      && forall i :: 0 <= i < |p.rows.value| ==> SeenInTime(p.rows.value[i], i, p.ticks.value)
  {
    hide HeaderHolds, RowsHold, LateArrival, TickHolds, SeenInTime, Batched;
  }

  lemma ScannedParts(rows: seq<RawRow>, s: Scan)
    requires Scanned(rows, s)
    ensures s.failed == [] <==> RowsHold(rows)
  {
    hide RowsHold, Known, RowId;
  }

  lemma TicksFitMeans(rows: seq<RawRow>, ticks: seq<Tick>, s: Scan)
    requires Scanned(rows, s)
    ensures (forall i :: 0 <= i < |ticks| ==> TickFits(ticks[i], s.seen)) <==>
            (forall i :: 0 <= i < |ticks| ==> TickHolds(ticks[i], rows))
  {
    hide RowsHold, RowId, Known, ActiveIds;
    assert forall t :: TickFits(t, s.seen) <==> TickHolds(t, rows);
  }

  lemma SightingsMean(rows: seq<RawRow>, ticks: seq<Tick>, s: Scan, first: map<string, int>)
    requires Scanned(rows, s) && s.failed == [] && Sightings(ticks, s.seen, first)
    ensures (forall id :: id in s.seen ==> id in first && (id in s.arrivalOf ==> s.arrivalOf[id] <= first[id])) <==>
            (forall i :: 0 <= i < |rows| ==> SeenInTime(rows[i], i, ticks))
  {
    hide TokensHold, LogitsHold, RowId, FirstSeen;
    if forall id :: id in s.seen ==> id in first && (id in s.arrivalOf ==> s.arrivalOf[id] <= first[id]) {
      forall i | 0 <= i < |rows| ensures SeenInTime(rows[i], i, ticks) {
        assert Known(rows, RowId(rows[i], i));
      }
    }
    if forall i :: 0 <= i < |rows| ==> SeenInTime(rows[i], i, ticks) {
      forall id | id in s.seen ensures id in first && (id in s.arrivalOf ==> s.arrivalOf[id] <= first[id]) {
        var i :| 0 <= i < |rows| && rows[i].Object? && RowId(rows[i], i) == id;
        assert SeenInTime(rows[i], i, ticks);
      }
    }
  }

  // ----- what a pass means for the server's log

  /** Batches listed in the order of their ticks. */
  ghost predicate InTickOrder(ticks: seq<Tick>) {
    forall i, j :: 0 <= i < j < |ticks| && ticks[i].Batch? && ticks[j].Batch? && ticks[i].tick.Some? && ticks[j].tick.Some?
      ==> ticks[i].tick.value <= ticks[j].tick.value
  }

  lemma {:induction false} FirstSeenIsFirst(ticks: seq<Tick>, id: string)
    requires FirstSeen(ticks, id).Some? && InTickOrder(ticks)
    ensures exists k :: 0 <= k < |ticks| && Mentions(ticks[k], id)
    ensures forall k :: 0 <= k < |ticks| && Mentions(ticks[k], id) ==> FirstSeen(ticks, id).value <= ticks[k].tick.value
  {
    hide ActiveIds;
    if !Mentions(ticks[0], id) {
      FirstSeenIsFirst(ticks[1..], id);
      var k :| 0 <= k < |ticks[1..]| && Mentions(ticks[1..][k], id);
      assert ticks[k + 1] == ticks[1..][k];
      forall k | 0 <= k < |ticks| && Mentions(ticks[k], id)
        ensures FirstSeen(ticks, id).value <= ticks[k].tick.value
      {
        assert ticks[k] == ticks[1..][k - 1];
      }
    }
  }

  /** In passing evidence with batches in tick order, every request stands at an active position of some
      batch, and at none of a batch before its declared arrival. */
  lemma NoEarlyMention(p: Payload, model: Option<string>, minRequests: int, i: nat)
    requires EvidenceHolds(p, model, minRequests) && i < |p.rows.value|
    requires var ticks := p.ticks.value;
      forall k, l ::
        (0 <= k < l < |ticks| && ticks[k].Batch? && ticks[l].Batch? && ticks[k].tick.Some? && ticks[l].tick.Some?) ==>
        ticks[k].tick.value <= ticks[l].tick.value
    ensures var raw, ticks := p.rows.value[i], p.ticks.value;
            && raw.Object? && raw.row.arrival.Some?
            && (exists k, j :: 0 <= k < |ticks| && ticks[k].Batch? && 0 <= j < |ticks[k].ids|
                  && ActiveAt(ticks[k], j) && ticks[k].ids[j] == Some(RowId(raw, i)))
            && forall k, j ::
                 (0 <= k < |ticks| && ticks[k].Batch? && 0 <= j < |ticks[k].ids|
                  && ActiveAt(ticks[k], j) && ticks[k].ids[j] == Some(RowId(raw, i))) ==>
                 ticks[k].tick.Some? && raw.row.arrival.value <= ticks[k].tick.value
  {
    hide RowsHold, TicksHold, LateArrival, HeaderHolds, RowId;
    assert InTickOrder(p.ticks.value);
    hide InTickOrder;
    var raw, ticks := p.rows.value[i], p.ticks.value;
    var id := RowId(raw, i);
    assert SeenInTime(raw, i, ticks);
    EvidenceParts(p, model, minRequests);
    hide FirstSeen, Mentions, TickHolds, ActiveAt, EvidenceHolds, Known;
    FirstSeenIsFirst(ticks, id);
    var k :| 0 <= k < |ticks| && Mentions(ticks[k], id);
    MentionedBatch(ticks[k], id);
    TickMeans(ticks[k], id, p.rows.value);
    forall k, j | 0 <= k < |ticks| && ticks[k].Batch? && 0 <= j < |ticks[k].ids| && ActiveAt(ticks[k], j)
        && ticks[k].ids[j] == Some(id)
      ensures ticks[k].tick.Some? && raw.row.arrival.value <= ticks[k].tick.value
    {
      assert TickHolds(ticks[k], p.rows.value);
      TickMeans(ticks[k], id, p.rows.value);
    }
  }

  lemma MentionedBatch(t: Tick, id: string)
    requires Mentions(t, id)
    ensures t.Batch?
  {
  }
}
