/**
 Draft acceptance for speculative decoding. The target model is any function from a context to the
 next token; drafts are arbitrary. Every acceptance loop of the code is shown to compute the longest
 common prefix of the draft and the model's own greedy decode.
 */
module Speculation {
  import opened CommonPrefix
  import opened Options

  type Token = int
  type Byte = int

  // ----- evaluating a draft against a known verifier stream

  datatype Verdict = Verdict(accepted: seq<Token>, rejected: seq<Token>, fallback: Option<Token>, bonus: Option<Token>,
                             committed: seq<Token>)

  function Commits(draft: seq<Token>, verifier: seq<Token>): (n: nat)
    ensures n <= |verifier|
  {
    if Lcp(draft, verifier) < |verifier| then Lcp(draft, verifier) + 1 else |verifier|
  }

  /** A verdict accepts the longest common prefix, and what it commits is always a piece of the
      verifier's own stream: one token more than it accepted, as long as there is one. */
  ghost predicate VerdictOk(draft: seq<Token>, verifier: seq<Token>, v: Verdict) {
    var n := Lcp(draft, verifier);
    && v.accepted == draft[..n] && v.rejected == draft[n..]
    && v.accepted + v.rejected == draft
    && (v.fallback.Some? <==> n < |draft| && n < |verifier|)
    && (v.bonus.Some? <==> n == |draft| && n < |verifier|)
    && (v.fallback.Some? ==> v.fallback.value == verifier[n] && v.fallback.value != draft[n])
    && (v.bonus.Some? ==> v.bonus.value == verifier[n])
    && v.committed == verifier[..Commits(draft, verifier)]
  }

  method EvaluateDraft(draft: seq<Token>, verifier: seq<Token>) returns (v: Verdict)
    ensures VerdictOk(draft, verifier, v)
  {
    var accepted: seq<Token> := [];
    var index := 0;
    while index < |draft| && index < |verifier| && verifier[index] == draft[index]
      invariant index <= |draft| && index <= |verifier|
      invariant accepted == draft[..index] == verifier[..index]
    {
      assert draft[..index + 1] == draft[..index] + [draft[index]];
      assert verifier[..index + 1] == verifier[..index] + [verifier[index]];
      accepted := accepted + [draft[index]];
      index := index + 1;
    }
    LcpUnique(draft, verifier, index);
    var count := |accepted|;
    var rejected := draft[count..];
    var fallback := if rejected != [] && count < |verifier| then Some(verifier[count]) else None;
    var bonus := if rejected == [] && count < |verifier| then Some(verifier[count]) else None;
    var committed := accepted;
    if fallback.Some? {
      committed := committed + [fallback.value];
    } else if bonus.Some? {
      committed := committed + [bonus.value];
    }
    assert count < |verifier| ==> verifier[..count + 1] == verifier[..count] + [verifier[count]];
    v := Verdict(accepted, rejected, fallback, bonus, committed);
  }

  // ----- whole speculative runs

  /** A run of evaluations: each round evaluates its draft, whatever that is, against what is left of
      the verifier's stream, and what it commits is taken off the stream. */
  ghost predicate Run(drafts: seq<seq<Token>>, verdicts: seq<Verdict>, verifier: seq<Token>)
    decreases |verdicts|
  {
    && |drafts| == |verdicts|
    && (verdicts != [] ==>
          && verifier != [] && VerdictOk(drafts[0], verifier, verdicts[0])
          && Run(drafts[1..], verdicts[1..], verifier[|verdicts[0].committed|..]))
  }

  /** All that the verdicts commit, in order. */
  function Committed(verdicts: seq<Verdict>): (r: seq<Token>) {
    if verdicts == [] then [] else verdicts[0].committed + Committed(verdicts[1..])
  }

  /** Draft tokens accepted over the whole run. */
  function AcceptedCount(verdicts: seq<Verdict>): (n: nat) {
    if verdicts == [] then 0 else |verdicts[0].accepted| + AcceptedCount(verdicts[1..])
  }

  /** Whether the last verdict had no verifier token left to add to what it accepted. */
  predicate EndsWithoutExtra(verdicts: seq<Verdict>) {
    verdicts != [] && verdicts[|verdicts| - 1].fallback.None? && verdicts[|verdicts| - 1].bonus.None?
  }

  /** Speculation is lossless whatever is drafted: at every point of a run the verdicts have committed
      a prefix of the verifier's stream, at least one token per round, so the whole stream after at
      most as many rounds as it has tokens. And every accepted token saves a round: rounds and
      accepted tokens add up to the tokens committed, plus one if the last round added no token. */
  lemma {:induction false} SpeculationLossless(drafts: seq<seq<Token>>, verdicts: seq<Verdict>, verifier: seq<Token>)
    requires Run(drafts, verdicts, verifier)
    ensures Committed(verdicts) <= verifier
    ensures |verdicts| <= |Committed(verdicts)|
    ensures |verdicts| >= |verifier| ==> Committed(verdicts) == verifier
    ensures |verdicts| + AcceptedCount(verdicts)
         == |Committed(verdicts)| + if EndsWithoutExtra(verdicts) then 1 else 0
    decreases |verdicts|
  {
    if verdicts != [] {
      var n := |verdicts[0].committed|;
      assert n == Commits(drafts[0], verifier);
      SpeculationLossless(drafts[1..], verdicts[1..], verifier[n..]);
      assert verifier == verifier[..n] + verifier[n..];
      if |verdicts| > 1 {
        assert verifier[n..] != [];
      }
    }
  }

  /** What a provider with a fixed token list proposes: its first tokens, as many as asked for. */
  function StaticPropose(tokens: seq<Token>, maxDraftTokens: int): (r: seq<Token>)
    ensures r <= tokens
    ensures |r| == |tokens| || (|r| < |tokens| && |r| == AtLeastZero(maxDraftTokens))
    ensures |r| <= AtLeastZero(maxDraftTokens)
  {
    var bounded := if maxDraftTokens < 0 then 0 else maxDraftTokens;
    if bounded <= |tokens| then tokens[..bounded] else tokens
  }

  // ----- the target model

  /** One score row per token of the input, the row of a token seeing that token and those before it. */
  datatype Model<!L> = Model(scores: seq<Token> -> seq<L>, argmax: L -> Token,
                             piece: (Token, seq<Token>) -> seq<Byte>)

  ghost predicate Causal<L(!new)>(m: Model<L>) {
    && (forall input :: |m.scores(input)| == |input|)
    && (forall input, n :: 1 <= n <= |input| ==> m.scores(input)[n - 1] == m.scores(input[..n])[n - 1])
  }

  /** The token the model picks after a context. */
  function Next<L(!new)>(m: Model<L>, context: seq<Token>): (t: Token)
    requires context != [] && |m.scores(context)| == |context|
  {
    m.argmax(m.scores(context)[|context| - 1])
  }

  /** Sequential greedy decode of n tokens. */
  ghost function Greedy<L(!new)>(m: Model<L>, prompt: seq<Token>, n: nat): (r: seq<Token>)
    requires Causal(m) && prompt != []
    ensures |r| == n
  {
    if n == 0 then []
    else
      var g := Greedy(m, prompt, n - 1);
      g + [Next(m, prompt + g)]
  }

  lemma {:induction false} GreedyPrefix<L(!new)>(m: Model<L>, prompt: seq<Token>, k: nat, n: nat)
    requires Causal(m) && prompt != [] && k <= n
    ensures Greedy(m, prompt, n)[..k] == Greedy(m, prompt, k)
  {
    if k < n {
      GreedyPrefix(m, prompt, k, n - 1);
      assert Greedy(m, prompt, n)[..k] == Greedy(m, prompt, n - 1)[..k];
    }
  }

  /** Decoding a tokens and then b more from there is decoding a + b. */
  lemma {:induction false} GreedyContinues<L(!new)>(m: Model<L>, prompt: seq<Token>, a: nat, b: nat)
    requires Causal(m) && prompt != []
    ensures Greedy(m, prompt, a + b) == Greedy(m, prompt, a) + Greedy(m, prompt + Greedy(m, prompt, a), b)
  {
    var front := Greedy(m, prompt, a);
    if b == 0 {
      assert front + [] == front;
    } else {
      GreedyContinues(m, prompt, a, b - 1);
      var rest := Greedy(m, prompt + front, b - 1);
      assert prompt + (front + rest) == prompt + front + rest;
    }
  }

  /** A speculative decode: each round evaluates its draft against the model's own greedy continuation
      of all that is committed so far, looking ahead as far as it likes. */
  ghost predicate ModelRun<L(!new)>(m: Model<L>, context: seq<Token>, drafts: seq<seq<Token>>, lookahead: seq<nat>,
                                    verdicts: seq<Verdict>)
    requires Causal(m) && context != []
    decreases |verdicts|
  {
    && |drafts| == |lookahead| == |verdicts|
    && (verdicts != [] ==>
          && lookahead[0] >= 1 && VerdictOk(drafts[0], Greedy(m, context, lookahead[0]), verdicts[0])
          && ModelRun(m, context + verdicts[0].committed, drafts[1..], lookahead[1..], verdicts[1..]))
  }

  /** Whatever is drafted and however far each round looks ahead, a speculative decode commits exactly
      what the model would have decoded one token at a time, and at least one token per round. */
  lemma {:induction false} SpeculationIsGreedy<L(!new)>(m: Model<L>, prompt: seq<Token>, drafts: seq<seq<Token>>,
                                                        lookahead: seq<nat>, verdicts: seq<Verdict>)
    requires Causal(m) && prompt != [] && ModelRun(m, prompt, drafts, lookahead, verdicts)
    ensures Committed(verdicts) == Greedy(m, prompt, |Committed(verdicts)|)
    ensures |verdicts| <= |Committed(verdicts)|
    decreases |verdicts|
  {
    hide Causal;
    if verdicts != [] {
      var first, rest := verdicts[0].committed, Committed(verdicts[1..]);
      GreedyPrefix(m, prompt, |first|, lookahead[0]);
      SpeculationIsGreedy(m, prompt + first, drafts[1..], lookahead[1..], verdicts[1..]);
      GreedyContinues(m, prompt, |first|, |rest|);
    }
  }

  // ----- external draft tokens, checked in one forced batch

  datatype MismatchReason = TargetEndedFirst | NotTheGreedyToken

  datatype Mismatch = Mismatch(index: nat, phone: Token, target: Option<Token>, reason: MismatchReason)

  datatype ExternalReport = ExternalReport(generated: seq<Token>, pieces: seq<seq<Byte>>, accepted: seq<Token>,
                                           acceptedBytes: seq<seq<Byte>>, proven: bool, mismatch: Option<Mismatch>)

  datatype Failure = ContextOverflow

  ghost function MismatchAt(phone: seq<Token>, generated: seq<Token>, n: nat): (r: Mismatch)
    requires n < |phone| && n <= |generated|
  {
    if n == |generated| then Mismatch(n, phone[n], None, TargetEndedFirst)
    else Mismatch(n, phone[n], Some(generated[n]), NotTheGreedyToken)
  }

  /** Compares draft ids with target ids, whatever these are and however many there are. */
  method BuildExternalReport(phone: seq<Token>, generated: seq<Token>, pieces: seq<seq<Byte>>)
    returns (r: ExternalReport)
    requires |generated| <= |pieces|
    ensures var n := Lcp(phone, generated);
      && r.generated == generated && r.pieces == pieces && r.accepted == phone[..n] && r.acceptedBytes == pieces[..n]
      && (r.mismatch.None? <==> n == |phone|)
      && (r.mismatch.Some? ==> r.mismatch.value == MismatchAt(phone, generated, n))
      && (r.proven <==> phone != [] && phone <= generated)
  {
    var accepted: seq<Token>, bytes: seq<seq<Byte>>, mismatch: Option<Mismatch> := [], [], None;
    var index := 0;
    while index < |phone| && mismatch.None?
      invariant index <= |phone| && index <= |generated|
      invariant accepted == phone[..index] == generated[..index] && bytes == pieces[..index]
      invariant mismatch.Some? ==> index < |phone| && mismatch.value == MismatchAt(phone, generated, index)
      invariant mismatch.Some? && index < |generated| ==> phone[index] != generated[index]
      decreases |phone| - index, if mismatch.None? then 1 else 0
    {
      if index >= |generated| {
        mismatch := Some(Mismatch(index, phone[index], None, TargetEndedFirst));
      } else if phone[index] == generated[index] {
        assert phone[..index + 1] == phone[..index] + [phone[index]];
        assert generated[..index + 1] == generated[..index] + [generated[index]];
        accepted := accepted + [phone[index]];
        bytes := bytes + [pieces[index]];
        index := index + 1;
      } else {
        mismatch := Some(Mismatch(index, phone[index], Some(generated[index]), NotTheGreedyToken));
      }
    }
    LcpUnique(phone, generated, index);
    assert phone <= generated <==> index == |phone|;
    var proven := |phone| > 0 && |accepted| == |phone| && mismatch.None?;
    r := ExternalReport(generated, pieces, accepted, bytes, proven, mismatch);
  }

  /** Row index of the forced batch is conditioned on the draft only up to that index. */
  lemma ForcedRow<L(!new)>(m: Model<L>, prompt: seq<Token>, draft: seq<Token>, index: nat)
    requires Causal(m) && prompt != [] && index < |draft|
    requires draft[..index] == Greedy(m, prompt, index)
    ensures |m.scores(prompt + draft)| == |prompt| + |draft|
    ensures Greedy(m, prompt, index + 1)
         == Greedy(m, prompt, index) + [m.argmax(m.scores(prompt + draft)[|prompt| - 1 + index])]
  {
    var input := prompt + draft;
    var n := |prompt| + index;
    assert input[..n] == prompt + draft[..index];
    assert m.scores(input)[n - 1] == m.scores(input[..n])[n - 1];
  }

  /** Reads target tokens off the forced batch until the first one the draft missed. */
  method ForcedBatch<L(!new)>(m: Model<L>, prompt: seq<Token>, draft: seq<Token>)
    returns (generated: seq<Token>, pieces: seq<seq<Byte>>)
    requires Causal(m) && prompt != []
    ensures |pieces| == |generated| <= |draft| && generated == Greedy(m, prompt, |generated|)
    ensures Lcp(draft, generated) == Lcp(draft, Greedy(m, prompt, |draft|))
    ensures var n := Lcp(draft, generated); |generated| == if n < |draft| then n + 1 else n
    ensures forall i :: 0 <= i < |generated| ==> pieces[i] == m.piece(generated[i], prompt + generated[..i])
  {
    hide *;
    generated, pieces := [], [];
    var scores := m.scores(prompt + draft);
    GreedyNone(m, prompt);
    var index, missed := 0, false;
    while index < |draft| && !missed
      invariant index <= |draft| && |pieces| == |generated|
      invariant !missed ==> generated == draft[..index]
      invariant missed ==> index < |draft| && |generated| == index + 1 && generated[..index] == draft[..index]
      invariant missed ==> generated[index] != draft[index]
      invariant generated == Greedy(m, prompt, |generated|)
      invariant forall i :: 0 <= i < |generated| ==> pieces[i] == m.piece(generated[i], prompt + generated[..i])
      decreases |draft| - index, if missed then 0 else 1
    {
      ForcedRow(m, prompt, draft, index);
      var target := m.argmax(scores[|prompt| - 1 + index]);
      ghost var longer := generated + [target];
      assert longer[..index] == draft[..index];
      assert forall i :: 0 <= i < index ==> longer[..i] == generated[..i];
      generated := generated + [target];
      pieces := pieces + [m.piece(target, prompt + draft[..index])];
      if draft[index] == target {
        assert draft[..index + 1] == draft[..index] + [target];
        index := index + 1;
      } else {
        missed := true;
      }
    }
    GreedyPrefix(m, prompt, |generated|, |draft|);
    assert !missed ==> generated[..index] == generated;
    SameAcceptance(draft, generated, Greedy(m, prompt, |draft|), index);
  }

  lemma GreedyNone<L(!new)>(m: Model<L>, prompt: seq<Token>)
    requires Causal(m) && prompt != []
    ensures Greedy(m, prompt, 0) == []
  {
  }

  /** A draft is accepted up to its first miss, whether the stream stops there or goes on. */
  lemma SameAcceptance(draft: seq<Token>, seen: seq<Token>, full: seq<Token>, index: nat)
    requires seen <= full && index <= |seen| && index <= |draft| && draft[..index] == seen[..index]
    requires (index == |draft| && index == |seen|) || (index < |draft| && index < |seen| && draft[index] != seen[index])
    ensures Lcp(draft, seen) == Lcp(draft, full) == index
  {
    assert full[..index] == seen[..index];
    LcpUnique(draft, seen, index);
    LcpUnique(draft, full, index);
  }

  /** Forced-batch verification of an external draft: it accepts exactly the longest prefix of the
      draft that sequential greedy decode would have produced, although every row after a wrong
      token was conditioned on it; the target stream never ends before the draft; and what it
      reports as generated is the greedy decode up to the first token the draft missed, each token
      with its piece in the context of those before it. */
  method VerifyExternal<L(!new)>(m: Model<L>, prompt: seq<Token>, draft: seq<Token>, nCtx: int)
    returns (r: Result<ExternalReport, Failure>)
    requires Causal(m) && prompt != []
    ensures r.Err? <==> |prompt| + |draft| > nCtx
    ensures r.Ok? ==>
      var greedy := Greedy(m, prompt, |draft|);
      var n := Lcp(draft, greedy);
      && r.value.accepted == draft[..n] == greedy[..n]
      && r.value.generated == greedy[..if n < |draft| then n + 1 else n]
      && |r.value.pieces| == |r.value.generated| && r.value.acceptedBytes == r.value.pieces[..n]
      && (forall i :: 0 <= i < |r.value.generated| ==> r.value.pieces[i] == m.piece(greedy[i], prompt + greedy[..i]))
      && (r.value.proven <==> draft != [] && draft == greedy)
      && (r.value.mismatch.None? <==> draft == greedy)
      && (r.value.mismatch.Some? ==>
            r.value.mismatch.value == Mismatch(n, draft[n], Some(greedy[n]), NotTheGreedyToken))
  {
    if |prompt| + |draft| > nCtx {
      return Err(ContextOverflow);
    }
    hide *;
    var generated, pieces := ForcedBatch(m, prompt, draft);
    GreedyPrefix(m, prompt, |generated|, |draft|);
    ExternalEnd(draft, generated, Greedy(m, prompt, |draft|));
    var report := BuildExternalReport(draft, generated, pieces);
    r := Ok(report);
  }

  /** Comparing with the generated ids is comparing with the whole decode. */
  lemma ExternalEnd(draft: seq<Token>, generated: seq<Token>, greedy: seq<Token>)
    requires |greedy| == |draft| && |generated| <= |draft| && generated == greedy[..|generated|]
    requires Lcp(draft, generated) == Lcp(draft, greedy)
    requires var n := Lcp(draft, generated); |generated| == if n < |draft| then n + 1 else n
    ensures var n := Lcp(draft, greedy);
      && draft[..n] == greedy[..n] && (draft == greedy <==> n == |draft|) && (draft <= generated <==> n == |draft|)
      && (n < |draft| ==> MismatchAt(draft, generated, n) == Mismatch(n, draft[n], Some(greedy[n]), NotTheGreedyToken))
      && (forall i :: 0 <= i < |generated| ==> generated[i] == greedy[i] && generated[..i] == greedy[..i])
  {
    hide Lcp;
    var n := Lcp(draft, greedy);
    if n == |draft| {
      assert draft[..n] == draft && greedy[..n] == greedy && generated[..n] == generated;
    } else {
      assert generated[n] == greedy[n];
    }
  }

  // ----- draft text, checked byte by byte against sampled pieces

  datatype TextMismatch = TextMismatch(tokenIndex: nat, tokenId: Token, commonBytes: nat)

  datatype TextReport = TextReport(accepted: seq<Byte>, acceptedTokens: nat, proven: bool,
                                   mismatch: Option<TextMismatch>)

  ghost function Concat(pieces: seq<seq<Byte>>): (r: seq<Byte>) {
    if pieces == [] then [] else Concat(pieces[..|pieces| - 1]) + pieces[|pieces| - 1]
  }

  lemma ConcatNext(pieces: seq<seq<Byte>>, n: nat)
    requires n < |pieces|
    ensures Concat(pieces[..n + 1]) == Concat(pieces[..n]) + pieces[n]
  {
    assert pieces[..n + 1][..n] == pieces[..n];
  }

  lemma {:induction false} ConcatPrefix(pieces: seq<seq<Byte>>, k: nat)
    requires k <= |pieces|
    ensures Concat(pieces[..k]) <= Concat(pieces)
  {
    if k < |pieces| {
      var n := |pieces| - 1;
      ConcatPrefix(pieces[..n], k);
      assert pieces[..n][..k] == pieces[..k];
    } else {
      assert pieces[..k] == pieces;
    }
  }

  /** Once the stream has covered the draft or left it, more of the stream changes nothing. */
  lemma LcpSettled(draft: seq<Byte>, a: seq<Byte>, b: seq<Byte>)
    requires a <= b && (!(a <= draft) || |a| == |draft|)
    ensures Lcp(draft, a) == Lcp(draft, b)
  {
    var n := Lcp(draft, a);
    assert b[..n] == a[..n];
    if n == |a| {
      assert a == a[..n] == draft[..n];
    }
    LcpUnique(draft, b, n);
  }

  /** The tokens counted as accepted: pieces that together are a prefix of the draft, up to the piece
      that completes the draft or leaves it. */
  ghost predicate CountedTokens(draft: seq<Byte>, pieces: seq<seq<Byte>>, n: nat) {
    && n <= |pieces| && Concat(pieces[..n]) <= draft
    && (forall j :: 0 < j < n ==> |Concat(pieces[..j])| < |draft|)
    && (n == |pieces| || (n > 0 && |Concat(pieces[..n])| == |draft|) || !(Concat(pieces[..n + 1]) <= draft))
  }

  /** What a report on a draft says: the accepted bytes are the longest common prefix of the draft and
      the joined pieces, and a mismatch names the first piece that is not wholly part of the draft,
      unless earlier pieces completed it. */
  ghost predicate TextReportOk(draft: seq<Byte>, ids: seq<Token>, pieces: seq<seq<Byte>>, r: TextReport)
    requires |pieces| <= |ids|
  {
    var n := r.acceptedTokens;
    && r.accepted == draft[..Lcp(draft, Concat(pieces))]
    && (r.proven <==> draft <= Concat(pieces))
    && CountedTokens(draft, pieces, n)
    && (r.mismatch.Some? <==> n < |pieces| && !(n > 0 && |Concat(pieces[..n])| == |draft|))
    && (r.mismatch.Some? ==> r.mismatch.value == TextMismatch(n, ids[n], |r.accepted|))
    && (r.mismatch.None? ==> Concat(pieces[..n]) == r.accepted)
  }

  lemma ConcatNone(pieces: seq<seq<Byte>>)
    ensures Concat(pieces[..0]) == []
  {
  }

  /** Accepts the longest common prefix of the draft and the joined pieces, however the bytes fall
      across the pieces. */
  method BuildTextReport(draft: seq<Byte>, ids: seq<Token>, pieces: seq<seq<Byte>>) returns (r: TextReport)
    requires |pieces| <= |ids|
    ensures TextReportOk(draft, ids, pieces, r)
  {
    hide Lcp, Concat;
    ConcatNone(pieces);
    var accepted: seq<Byte>, count, mismatch: Option<TextMismatch> := [], 0, None;
    var stop := false;
    while count < |pieces| && !stop
      invariant count <= |pieces| && accepted == Concat(pieces[..count]) <= draft
      invariant mismatch.None?
      invariant forall j :: 0 < j < count ==> |Concat(pieces[..j])| < |draft|
      invariant if stop then count > 0 && |accepted| == |draft| else count > 0 ==> |accepted| < |draft|
      decreases |pieces| - count, if stop then 0 else 1
    {
      var candidate := accepted + pieces[count];
      ConcatNext(pieces, count);
      if candidate <= draft {
        accepted := candidate;
        count := count + 1;
        if |accepted| == |draft| {
          stop := true;
        }
      } else {
        var common := CommonPrefixLen(candidate, draft);
        LcpSymmetric(candidate, draft);
        ConcatPrefix(pieces, count + 1);
        LcpSettled(draft, candidate, Concat(pieces));
        accepted := candidate[..common];
        mismatch := Some(TextMismatch(count, ids[count], common));
        break;
      }
    }
    if mismatch.None? {
      assert stop || pieces[..count] == pieces;
      ConcatPrefix(pieces, count);
      LcpUnique(draft, accepted, |accepted|);
      if stop {
        LcpSettled(draft, accepted, Concat(pieces));
      }
    }
    LcpUnique(draft, Concat(pieces), |accepted|);
    r := TextReport(accepted, count, |accepted| == |draft|, mismatch);
  }

  lemma ConcatLonger(pieces: seq<seq<Byte>>, j: nat, k: nat)
    requires j <= k <= |pieces|
    ensures Concat(pieces[..j]) <= Concat(pieces[..k])
  {
    ConcatPrefix(pieces[..k], j);
    assert pieces[..k][..j] == pieces[..j];
  }

  /** Draft and pieces determine the number of counted tokens. */
  lemma CountedUnique(draft: seq<Byte>, pieces: seq<seq<Byte>>, n: nat, k: nat)
    requires CountedTokens(draft, pieces, n) && CountedTokens(draft, pieces, k)
    ensures n == k
  {
    hide Concat;
    if n < k {
      ConcatLonger(pieces, n + 1, k);
    } else if k < n {
      ConcatLonger(pieces, k + 1, n);
    }
  }

  /** There is only one report on a draft. */
  lemma TextReportUnique(draft: seq<Byte>, ids: seq<Token>, pieces: seq<seq<Byte>>, a: TextReport, b: TextReport)
    requires |pieces| <= |ids| && TextReportOk(draft, ids, pieces, a) && TextReportOk(draft, ids, pieces, b)
    ensures a == b
  {
    CountedUnique(draft, pieces, a.acceptedTokens, b.acceptedTokens);
    hide Concat, Lcp, CountedTokens;
  }

  /** A report can call a draft proven and name a mismatch all the same: exactly when the pieces cover
      the draft and no piece ends where the draft ends. */
  lemma ProvenWithMismatch(draft: seq<Byte>, ids: seq<Token>, pieces: seq<seq<Byte>>, r: TextReport)
    requires |pieces| <= |ids| && TextReportOk(draft, ids, pieces, r)
    ensures r.proven && r.mismatch.Some? <==>
      && draft <= Concat(pieces) && pieces != []
      && forall k :: 1 <= k <= |pieces| ==> |Concat(pieces[..k])| != |draft|
  {
    hide Concat, Lcp;
    var n := r.acceptedTokens;
    if r.proven && r.mismatch.Some? {
      ConcatPrefix(pieces, n + 1);
      forall k | 1 <= k <= |pieces| ensures |Concat(pieces[..k])| != |draft| {
        if k > n {
          ConcatLonger(pieces, n + 1, k);
        }
      }
    } else if r.proven && n == |pieces| {
      assert pieces[..n] == pieces;
    }
  }

  /** The empty draft, against any first piece that is not empty. */
  lemma EmptyDraftMismatch(id: Token, piece: seq<Byte>, r: TextReport)
    requires piece != [] && TextReportOk([], [id], [piece], r)
    ensures r.proven && r.mismatch == Some(TextMismatch(0, id, 0))
  {
    var pieces := [piece];
    ConcatNext(pieces, 0);
    ConcatNone(pieces);
    assert pieces[..1] == pieces;
    ProvenWithMismatch([], [id], pieces, r);
  }

  /** The draft "ab", against the single piece "abc". */
  lemma OvershootMismatch(id: Token, r: TextReport)
    requires TextReportOk([97, 98], [id], [[97, 98, 99]], r)
    ensures r.proven && r.mismatch == Some(TextMismatch(0, id, 2))
  {
    var draft, pieces: seq<seq<Byte>> := [97, 98], [[97, 98, 99]];
    ConcatNext(pieces, 0);
    ConcatNone(pieces);
    assert pieces[..1] == pieces;
    ProvenWithMismatch(draft, [id], pieces, r);
    PrefixIffCovered(draft, Concat(pieces));
  }

  /** Pieces that have covered the draft or left it already determine the report: it is the report on
      any longer stream as well. */
  lemma TextReportSettled(draft: seq<Byte>, ids: seq<Token>, pieces: seq<seq<Byte>>,
                          allIds: seq<Token>, all: seq<seq<Byte>>, r: TextReport)
    requires |pieces| <= |ids| && |all| <= |allIds| && pieces <= all && ids <= allIds
    requires pieces == all || (pieces != [] && (!(Concat(pieces) <= draft) || |Concat(pieces)| == |draft|))
    requires TextReportOk(draft, ids, pieces, r)
    ensures TextReportOk(draft, allIds, all, r)
  {
    hide Concat, Lcp;
    var n := r.acceptedTokens;
    assert all[..|pieces|] == pieces;
    if pieces != all {
      ConcatPrefix(all, |pieces|);
      LcpSettled(draft, Concat(pieces), Concat(all));
    }
    PrefixIffCovered(draft, Concat(pieces));
    PrefixIffCovered(draft, Concat(all));
    forall j | 0 <= j <= |pieces| ensures all[..j] == pieces[..j] {
    }
    assert pieces[..|pieces|] == pieces;
  }

  /** The pieces of the first n greedily decoded tokens. */
  ghost function GreedyPieces<L(!new)>(m: Model<L>, prompt: seq<Token>, n: nat): (r: seq<seq<Byte>>)
    requires Causal(m) && prompt != []
  {
    var g := Greedy(m, prompt, n);
    seq(n, i requires 0 <= i < n => m.piece(g[i], []))
  }

  /** Each piece is that of one greedily decoded token, in no context. */
  lemma GreedyPiecesAre<L(!new)>(m: Model<L>, prompt: seq<Token>, n: nat)
    requires Causal(m) && prompt != []
    ensures var pieces := GreedyPieces(m, prompt, n);
      |pieces| == n && forall i :: 0 <= i < n ==> pieces[i] == m.piece(Greedy(m, prompt, n)[i], [])
  {
  }

  lemma GreedyPiecesPrefix<L(!new)>(m: Model<L>, prompt: seq<Token>, k: nat, n: nat)
    requires Causal(m) && prompt != [] && k <= n
    ensures GreedyPieces(m, prompt, n)[..k] == GreedyPieces(m, prompt, k)
  {
    GreedyPrefix(m, prompt, k, n);
    forall i | 0 <= i < k ensures GreedyPieces(m, prompt, n)[i] == GreedyPieces(m, prompt, k)[i] {
      assert Greedy(m, prompt, n)[i] == Greedy(m, prompt, n)[..k][i];
    }
  }

  function AtLeastZero(n: int): (r: nat) { if n < 0 then 0 else n }

  /** Samples greedily until the draft is covered or left, or the token budget is used up. */
  method Sample<L(!new)>(m: Model<L>, prompt: seq<Token>, draft: seq<Byte>, maxTokens: int)
    returns (ids: seq<Token>, pieces: seq<seq<Byte>>)
    requires Causal(m) && prompt != []
    ensures |ids| <= AtLeastZero(maxTokens) && ids == Greedy(m, prompt, |ids|)
    ensures pieces == GreedyPieces(m, prompt, |ids|)
    ensures |ids| == AtLeastZero(maxTokens)
         || (ids != [] && (!(Concat(pieces) <= draft) || |Concat(pieces)| == |draft|))
  {
    ids, pieces := [], [];
    var accepted: seq<Byte>, context, stop := [], prompt, false;
    while |ids| < maxTokens && !stop
      invariant |ids| <= AtLeastZero(maxTokens) && ids == Greedy(m, prompt, |ids|)
      invariant pieces == GreedyPieces(m, prompt, |ids|)
      invariant stop ==> ids != [] && (!(Concat(pieces) <= draft) || |Concat(pieces)| == |draft|)
      invariant !stop ==> accepted == Concat(pieces) <= draft && context == prompt + ids
      decreases maxTokens - |ids|
    {
      var token := Next(m, context);
      var piece := m.piece(token, []);
      ghost var n := |ids|;
      assert Greedy(m, prompt, n + 1) == Greedy(m, prompt, n) + [token];
      GreedyPiecesPrefix(m, prompt, n, n + 1);
      assert GreedyPieces(m, prompt, n + 1) == pieces + [piece];
      assert (pieces + [piece])[..n] == pieces;
      ids := ids + [token];
      pieces := pieces + [piece];
      var candidate := accepted + piece;
      assert candidate == Concat(pieces);
      if candidate <= draft {
        accepted := candidate;
        context := context + [token];
        stop := |accepted| >= |draft|;
      } else {
        stop := true;
      }
    }
  }

  function TokenBudget(maxTokens: Option<int>, draft: seq<Byte>): (n: int) {
    if maxTokens.None? || maxTokens.value == 0 then (if |draft| < 1 then 1 else |draft|) else maxTokens.value
  }

  /** The report is the one on the first n greedily decoded tokens. */
  ghost predicate ReportsOn<L(!new)>(m: Model<L>, prompt: seq<Token>, draft: seq<Byte>, n: nat, r: TextReport)
    requires Causal(m) && prompt != []
  {
    TextReportOk(draft, Greedy(m, prompt, n), GreedyPieces(m, prompt, n), r)
  }

  lemma {:induction false} ConcatAtLeast(pieces: seq<seq<Byte>>)
    requires forall i :: 0 <= i < |pieces| ==> pieces[i] != []
    ensures |Concat(pieces)| >= |pieces|
  {
    if pieces != [] {
      ConcatAtLeast(pieces[..|pieces| - 1]);
    }
  }

  /** If no token is an empty piece, as many tokens as the draft has bytes, and at least one, settle the
      report: decoding further never changes it. */
  lemma BudgetSuffices<L(!new)>(m: Model<L>, prompt: seq<Token>, draft: seq<Byte>, budget: nat, n: nat, r: TextReport)
    requires Causal(m) && prompt != [] && ReportsOn(m, prompt, draft, budget, r)
    requires (forall t :: m.piece(t, []) != []) && 1 <= budget <= n && |draft| <= budget
    ensures ReportsOn(m, prompt, draft, n, r)
  {
    hide Causal;
    var pieces := GreedyPieces(m, prompt, budget);
    forall i | 0 <= i < |pieces| ensures pieces[i] != [] {
      var t := Greedy(m, prompt, budget)[i];
      assert pieces[i] == m.piece(t, []);
    }
    ConcatAtLeast(pieces);
    GreedyPrefix(m, prompt, budget, n);
    GreedyPiecesPrefix(m, prompt, budget, n);
    TextReportSettled(draft, Greedy(m, prompt, budget), pieces, Greedy(m, prompt, n), GreedyPieces(m, prompt, n), r);
  }

  /** Verification of a draft text: stopping the sampler early changes nothing. With a limit of k tokens
      the report is the one on exactly k greedily decoded tokens. Without a limit, or with 0, it is the
      one on as many tokens as the draft has bytes, and at least one; and if no token is an empty
      piece, it is the one on any longer decode as well. The report agrees with the evaluation of the
      same bytes as a draft. */
  method VerifyText<L(!new)>(m: Model<L>, prompt: seq<Token>, draft: seq<Byte>, maxTokens: Option<int>)
    returns (r: TextReport)
    requires Causal(m) && prompt != []
    ensures maxTokens.Some? && maxTokens.value > 0 ==> ReportsOn(m, prompt, draft, maxTokens.value, r)
    ensures maxTokens.Some? && maxTokens.value < 0 ==> ReportsOn(m, prompt, draft, 0, r)
    ensures maxTokens.None? || maxTokens.value == 0 ==>
      ReportsOn(m, prompt, draft, if draft == [] then 1 else |draft|, r)
    ensures (maxTokens.None? || maxTokens.value == 0) && (forall t :: m.piece(t, []) != []) ==>
      forall n: nat :: n >= 1 && n >= |draft| ==> ReportsOn(m, prompt, draft, n, r)
    ensures forall n: nat, v ::
      (ReportsOn(m, prompt, draft, n, r) && VerdictOk(draft, Concat(GreedyPieces(m, prompt, n)), v)) ==>
      r.accepted == v.accepted && (r.proven <==> v.rejected == [])
  {
    hide *;
    var budget := TokenBudget(maxTokens, draft);
    var ids, pieces := Sample(m, prompt, draft, budget);
    GreedyPiecesAre(m, prompt, |ids|);
    r := BuildTextReport(draft, ids, pieces);
    SampleReports(m, prompt, draft, budget, ids, pieces, r);
    BudgetMeans(maxTokens, draft);
    ghost var n := AtLeastZero(budget);
    if (maxTokens.None? || maxTokens.value == 0) && (forall t :: m.piece(t, []) != []) {
      forall k: nat | k >= 1 && k >= |draft| ensures ReportsOn(m, prompt, draft, k, r) {
        BudgetSuffices(m, prompt, draft, n, k, r);
      }
    }
    ReportAgrees(m, prompt, draft, r);
  }

  lemma BudgetMeans(maxTokens: Option<int>, draft: seq<Byte>)
    ensures AtLeastZero(TokenBudget(maxTokens, draft)) ==
      if maxTokens.Some? && maxTokens.value > 0 then maxTokens.value
      else if maxTokens.Some? && maxTokens.value < 0 then 0
      else if draft == [] then 1 else |draft|
  {
  }

  /** A report on what the sampler yields is the report on the whole budget. */
  lemma SampleReports<L(!new)>(m: Model<L>, prompt: seq<Token>, draft: seq<Byte>, budget: int, ids: seq<Token>,
                               pieces: seq<seq<Byte>>, r: TextReport)
    requires Causal(m) && prompt != [] && |ids| <= AtLeastZero(budget) && ids == Greedy(m, prompt, |ids|)
    requires pieces == GreedyPieces(m, prompt, |ids|) && |pieces| <= |ids|
    requires |ids| == AtLeastZero(budget)
          || (ids != [] && (!(Concat(pieces) <= draft) || |Concat(pieces)| == |draft|))
    requires TextReportOk(draft, ids, pieces, r)
    ensures ReportsOn(m, prompt, draft, AtLeastZero(budget), r)
  {
    var n := AtLeastZero(budget);
    hide Causal, Greedy, TextReportOk, Concat, AtLeastZero;
    var allIds, all := Greedy(m, prompt, n), GreedyPieces(m, prompt, n);
    GreedyPrefix(m, prompt, |ids|, n);
    GreedyPiecesPrefix(m, prompt, |ids|, n);
    assert |ids| == n ==> all[..|ids|] == all;
    TextReportSettled(draft, ids, pieces, allIds, all, r);
  }

  lemma ReportAgrees<L(!new)>(m: Model<L>, prompt: seq<Token>, draft: seq<Byte>, r: TextReport)
    requires Causal(m) && prompt != []
    ensures forall n: nat, v ::
      (ReportsOn(m, prompt, draft, n, r) && VerdictOk(draft, Concat(GreedyPieces(m, prompt, n)), v)) ==>
      r.accepted == v.accepted && (r.proven <==> v.rejected == [])
  {
    hide Causal, Greedy, GreedyPieces, Concat, Lcp, CountedTokens;
    forall n: nat, v | ReportsOn(m, prompt, draft, n, r) && VerdictOk(draft, Concat(GreedyPieces(m, prompt, n)), v)
      ensures r.accepted == v.accepted && (r.proven <==> v.rejected == [])
    {
      PrefixIffCovered(draft, Concat(GreedyPieces(m, prompt, n)));
    }
  }

  lemma PrefixIffCovered(draft: seq<Byte>, stream: seq<Byte>)
    ensures draft <= stream <==> Lcp(draft, stream) == |draft|
  {
    if draft <= stream {
      assert draft[..|draft|] == stream[..|draft|];
      LcpUnique(draft, stream, |draft|);
    }
  }
}
