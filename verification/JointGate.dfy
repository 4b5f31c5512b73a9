/**
 The joint readiness gate over a continuous-batching report and a KV prefix-reuse report. On reports
 that the two verifiers wrote, it passes exactly when both of them passed.
 */
module JointGate {
  import LiveProof
  import KvProof
  import opened Options

  /** The fields of a continuous-batching report that the gate reads. */
  datatype Continuous = Continuous(gate: Option<string>, passed: bool, lateParity: bool, lateObserved: bool,
                                   batchedTicks: Option<int>, tokenParity: bool, logitsParity: bool,
                                   fingerprintParity: bool, failedChecks: seq<string>, model: Option<string>)

  /** The fields of a KV prefix-reuse report that the gate reads. */
  datatype Kv = Kv(gate: Option<string>, passed: bool, samePrefixVariedSuffix: bool, tokenParity: bool,
                   logitParity: bool, timingMeasured: bool, liveProven: bool, serverObserved: bool,
                   failedChecks: seq<string>, model: Option<string>)

  datatype Blocked = WrongGate | NotPassed | NoLateParity | NoLateArrival | NoBatchedTick | NoTokenParity
    | NoLogitsParity | NoVariedSuffix | NoTiming | NoLiveReuse | FailedCheck(text: string) | ModelMismatch

  datatype Report = Report(passed: bool, continuousReady: bool, kvReady: bool, blocked: seq<Blocked>,
                           model: Option<string>)

  ghost predicate ContinuousFit(r: Continuous) {
    && r.gate == Some(LiveProof.PROOF_GATE) && r.passed && r.lateParity && r.lateObserved
    && r.batchedTicks.Some? && r.batchedTicks.value > 0
    && r.tokenParity && (r.logitsParity || r.fingerprintParity) && r.failedChecks == []
  }

  ghost predicate KvFit(r: Kv) {
    && r.gate == Some(KvProof.PROOF_GATE) && r.passed && r.samePrefixVariedSuffix && r.tokenParity && r.logitParity
    && r.timingMeasured && r.liveProven && r.serverObserved && r.failedChecks == []
  }

  function Checks(texts: seq<string>): (r: seq<Blocked>) {
    seq(|texts|, i requires 0 <= i < |texts| => FailedCheck(texts[i]))
  }

  method ContinuousReady(r: Continuous) returns (ready: bool, blocked: seq<Blocked>)
    ensures ready <==> ContinuousFit(r)
    ensures ready <==> blocked == []
  {
    blocked := [];
    if r.gate != Some(LiveProof.PROOF_GATE) { blocked := blocked + [WrongGate]; }
    if !r.passed { blocked := blocked + [NotPassed]; }
    if !r.lateParity { blocked := blocked + [NoLateParity]; }
    if !r.lateObserved { blocked := blocked + [NoLateArrival]; }
    if r.batchedTicks.None? || r.batchedTicks.value <= 0 { blocked := blocked + [NoBatchedTick]; }
    if !r.tokenParity { blocked := blocked + [NoTokenParity]; }
    if !(r.logitsParity || r.fingerprintParity) { blocked := blocked + [NoLogitsParity]; }
    blocked := blocked + Checks(r.failedChecks);
    ready := blocked == [];
  }

  method KvReady(r: Kv) returns (ready: bool, blocked: seq<Blocked>)
    ensures ready <==> KvFit(r)
    ensures ready <==> blocked == []
  {
    blocked := [];
    if r.gate != Some(KvProof.PROOF_GATE) { blocked := blocked + [WrongGate]; }
    if !r.passed { blocked := blocked + [NotPassed]; }
    if !r.samePrefixVariedSuffix { blocked := blocked + [NoVariedSuffix]; }
    if !r.tokenParity { blocked := blocked + [NoTokenParity]; }
    if !r.logitParity { blocked := blocked + [NoLogitsParity]; }
    if !r.timingMeasured { blocked := blocked + [NoTiming]; }
    if !(r.liveProven && r.serverObserved) { blocked := blocked + [NoLiveReuse]; }
    blocked := blocked + Checks(r.failedChecks);
    ready := blocked == [];
  }

  /** The first model id that is a non-empty string. */
  function FirstModel(models: seq<Option<string>>): (m: Option<string>) {
    if models == [] then None
    else if models[0].Some? && models[0].value != "" then models[0]
    else FirstModel(models[1..])
  }

  lemma FirstOfTwo(a: Option<string>, b: Option<string>)
    ensures FirstModel([b]) == if b.Some? && b.value != "" then b else None
    ensures FirstModel([a, b]) == if a.Some? && a.value != "" then a else FirstModel([b])
  {
    assert [a, b][1..] == [b];
    var rest := [b][1..];
    assert rest == [] && FirstModel(rest) == None;
  }

  /** Both reports name a model, and not the same one. */
  ghost predicate ModelsClash(a: Option<string>, b: Option<string>) {
    a.Some? && b.Some? && a.value != "" && b.value != "" && a != b
  }

  method BuildJointReport(c: Continuous, k: Kv) returns (r: Report)
    ensures r.passed <==> ContinuousFit(c) && KvFit(k) && !ModelsClash(c.model, k.model)
    ensures r.passed <==> r.blocked == []
    ensures r.continuousReady <==> ContinuousFit(c)
    ensures r.kvReady <==> KvFit(k)
    ensures r.model == FirstModel([c.model, k.model])
  {
    var continuousOk, continuousBlocked := ContinuousReady(c);
    var kvOk, kvBlocked := KvReady(k);
    var blocked := continuousBlocked + kvBlocked;
    var model, other := FirstModel([c.model, k.model]), FirstModel([k.model]);
    FirstOfTwo(c.model, k.model);
    if model.Some? && other.Some? && model != other { blocked := blocked + [ModelMismatch]; }
    r := Report(blocked == [], continuousOk, kvOk, blocked, model);
  }

  // ----- reports written by the verifiers

  function FromLive(r: LiveProof.Report, describe: LiveProof.Failure -> string): (c: Continuous) {
    Continuous(Some(LiveProof.PROOF_GATE), r.Passed(), r.Passed(), r.lateArrival, Some(r.batchedTicks), r.tokenParity,
               r.logitsParity, r.fingerprintParity,
               seq(|r.failed|, i requires 0 <= i < |r.failed| => describe(r.failed[i])), r.model)
  }

  function FromKv(r: KvProof.Report, describe: KvProof.Failure -> string): (k: Kv) {
    Kv(Some(KvProof.PROOF_GATE), r.Passed(), r.samePrefixVariedSuffix, r.tokenParity, r.logitParity, r.timingMeasured,
       r.serverObserved, r.serverObserved,
       seq(|r.failed|, i requires 0 <= i < |r.failed| => describe(r.failed[i])), r.model)
  }

  /** From raw evidence to the joint verdict: it is positive exactly when the live evidence and the KV
      evidence both hold and do not name different models. */
  method JointVerdict(live: LiveProof.Payload, kv: KvProof.Payload, model: Option<string>,
                      minRequests: int, requireSpeedup: bool,
                      describeLive: LiveProof.Failure -> string, describeKv: KvProof.Failure -> string)
    returns (passed: bool)
    requires minRequests >= 1
    ensures passed <==>
      && LiveProof.EvidenceHolds(live, model, minRequests)
      && KvProof.EvidenceHolds(kv, model, minRequests, requireSpeedup)
      && !ModelsClash(live.model, kv.model)
  {
    var a := LiveProof.Verify(live, model, minRequests);
    var b := KvProof.Verify(kv, model, minRequests, requireSpeedup);
    hide LiveProof.EvidenceHolds, KvProof.EvidenceHolds, KvProof.ServerHolds, LiveProof.LateArrival, LiveProof.BatchedCount;
    var joint := BuildJointReport(FromLive(a, describeLive), FromKv(b.value, describeKv));
    passed := joint.passed;
  }
}
