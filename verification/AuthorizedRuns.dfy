/** What is authorized can be carried out: runs in which a permit, or an approved request, ends in a successful restart. */
module AuthorizedRuns {
  import opened Prelude
  import opened Identifiers
  import opened RemediationPolicy
  import opened GovernanceModels
  import opened GovernanceAgent
  import opened ApprovalAgent
  import opened CanonicalJson
  import opened ExecutionLedger
  import opened GovernedExecution
  import SignedEnvelope
  import Gate = ExecutorGate
  import P = Pipeline
  import L = LedgerRuns

  // ---------------------------------------------------------------- protocol steps in sequence

  /** These steps, one after the other, lead from s to t. */
  ghost predicate Leads(s: P.State, steps: seq<P.Step>, t: P.State, c: P.Config)
    decreases |steps|
  {
    if steps == [] then s == t
    else P.Enabled(s, steps[0], c) && Leads(P.Apply(s, steps[0], c), steps[1..], t, c)
  }

  lemma FirstLeads(s: P.State, step: P.Step, steps: seq<P.Step>, t: P.State, c: P.Config)
    requires P.Enabled(s, step, c) && Leads(P.Apply(s, step, c), steps, t, c)
    ensures Leads(s, [step] + steps, t, c)
  {
    hide P.Enabled, P.Apply;
    assert ([step] + steps)[1..] == steps;
  }

  ghost predicate ReachedByProtocol(s: P.State, c: P.Config) {
    exists trace :: P.Run(trace, c) && trace[|trace| - 1] == s
  }

  lemma ProtocolStep(s: P.State, step: P.Step, c: P.Config)
    requires ReachedByProtocol(s, c) && P.Enabled(s, step, c)
    ensures ReachedByProtocol(P.Apply(s, step, c), c)
  {
    hide P.Enabled, P.Apply;
    var trace :| P.Run(trace, c) && trace[|trace| - 1] == s;
    var longer := trace + [P.Apply(s, step, c)];
    forall i | 0 <= i < |longer| - 1 ensures P.Next(longer[i], longer[i + 1], c) {
      assert i < |trace| - 1 ==> P.Next(trace[i], trace[i + 1], c);
    }
    assert P.Run(longer, c) && longer[|longer| - 1] == P.Apply(s, step, c);
  }

  lemma {:induction false} LeadsToReached(s: P.State, steps: seq<P.Step>, t: P.State, c: P.Config)
    requires ReachedByProtocol(s, c) && Leads(s, steps, t, c)
    ensures ReachedByProtocol(t, c)
    decreases |steps|
  {
    hide P.Enabled, P.Apply, ReachedByProtocol;
    if steps != [] {
      ProtocolStep(s, steps[0], c);
      LeadsToReached(P.Apply(s, steps[0], c), steps[1..], t, c);
    }
  }

  lemma StartReachedByProtocol(c: P.Config)
    ensures ReachedByProtocol(P.INITIAL, c)
  {
    assert P.Run([P.INITIAL], c);
  }

  // ---------------------------------------------------------------- the same with executing workers

  ghost predicate Reached(s: State, c: Config) {
    exists trace, steps :: TimelyRun(trace, steps, c) && trace[|steps|] == s
  }

  lemma OneMore(s: State, step: Step, c: Config)
    requires Reached(s, c) && Enabled(s, step, c) && OnTime(s, step)
    ensures Reached(Apply(s, step, c), c)
  {
    hide Enabled, Apply, OnTime, Initial;
    var trace, steps :| TimelyRun(trace, steps, c) && trace[|steps|] == s;
    var trace', steps' := trace + [Apply(s, step, c)], steps + [step];
    forall k | 0 <= k < |steps'|
      ensures Enabled(trace'[k], steps'[k], c) && OnTime(trace'[k], steps'[k]) && trace'[k + 1] == Apply(trace'[k], steps'[k], c)
    {
      if k < |steps| {
        assert trace'[k] == trace[k] && trace'[k + 1] == trace[k + 1] && steps'[k] == steps[k];
      }
    }
    assert TimelyRun(trace', steps', c) && trace'[|steps'|] == Apply(s, step, c);
  }

  lemma {:induction false} LeadsToGoverned(s: State, steps: seq<P.Step>, t: P.State, c: Config)
    requires Reached(s, c) && Leads(s.protocol, steps, t, c.protocol)
    requires forall q :: q in steps ==> !q.Executed?
    ensures Reached(s.(protocol := t), c)
    decreases |steps|
  {
    hide P.Enabled, P.Apply, Reached;
    if steps != [] {
      assert steps[0] in steps;
      OneMore(s, Govern(steps[0]), c);
      LeadsToGoverned(s.(protocol := P.Apply(s.protocol, steps[0], c.protocol)), steps[1..], t, c);
    } else {
      assert s.(protocol := t) == s;
    }
  }

  lemma StartReached(clock: int, c: Config)
    ensures Reached(State(P.INITIAL, clock, map[]), c)
  {
    assert TimelyRun([State(P.INITIAL, clock, map[])], [], c);
  }

  // ---------------------------------------------------------------- decisions that go out

  /** A permitted incident: analyzed, decided, published. */
  lemma PermitGoesOut(a: AnalyzedIncident, now: int, c: P.Config) returns (steps: seq<P.Step>, t: P.State)
    requires ValidAnalysis(a.analysis) && MeetsHardChecks(a, c.gov) && MeetsAutomaticControls(a, c.gov)
    ensures Leads(P.INITIAL, steps, t, c) && (forall q :: q in steps ==> !q.Executed?)
    ensures P.DecisionOn(a, now, c) in t.decisions && P.DecisionOn(a, now, c).decision == Permit
  {
    VerdictOfAnalysis(a, now, c.gov, c.platform);
    hide GovernanceAgent.Govern, MeetsHardChecks, MeetsAutomaticControls;
    var d := P.DecisionOn(a, now, c);
    var s1 := P.Apply(P.INITIAL, P.Analyze(a), c);
    var s2 := P.Apply(s1, P.Decided(a, now), c);
    t := P.Apply(s2, P.Published(d), c);
    steps := [P.Analyze(a)] + ([P.Decided(a, now)] + ([P.Published(d)] + []));
    FirstLeads(s2, P.Published(d), [], t, c);
    FirstLeads(s1, P.Decided(a, now), [P.Published(d)] + [], t, c);
    FirstLeads(P.INITIAL, P.Analyze(a), [P.Decided(a, now)] + ([P.Published(d)] + []), t, c);
  }

  /** The envelope is about this request and is accepted for it while it is pending. */
  predicate Answers(e: Envelope, r: RequestEvent, checkedAt: int, readAt: int, decidedAt: int, c: P.Config) {
    e.approvalRequestId == r.approvalRequestId && Evaluate(e, Some(PendingRecord(r)), checkedAt, readAt, decidedAt, c.approval, c.platform).Ok?
  }

  /** The decision that the envelope turns its request into. */
  function Answer(e: Envelope, r: RequestEvent, checkedAt: int, readAt: int, decidedAt: int, c: P.Config): GovernanceDecision
    requires Answers(e, r, checkedAt, readAt, decidedAt, c)
  {
    Evaluate(e, Some(PendingRecord(r)), checkedAt, readAt, decidedAt, c.approval, c.platform).value
  }

  /** The state holds the pending request of this incident as its first incarnation. */
  predicate HoldsRequest(s: P.State, r: RequestEvent) {
    r.approvalRequestId in s.requests && s.requests[r.approvalRequestId] == P.Live(0, PendingRecord(r))
  }

  lemma RequestLeads(a: AnalyzedIncident, now: int, requestedAt: int, e: Envelope, c: P.Config)
    returns (analyzed: P.State, asked: P.State, signed: P.State)
    requires ValidAnalysis(a.analysis) && P.DecisionOn(a, now, c).decision == RequireApproval
    ensures P.Enabled(P.INITIAL, P.Analyze(a), c) && analyzed == P.Apply(P.INITIAL, P.Analyze(a), c)
    ensures P.Enabled(analyzed, P.Requested(a, now, requestedAt, true), c) && asked == P.Apply(analyzed, P.Requested(a, now, requestedAt, true), c)
    ensures P.Enabled(asked, P.Sign(SignedPayload(e)), c) && signed == P.Apply(asked, P.Sign(SignedPayload(e)), c)
    ensures HoldsRequest(signed, P.RequestFor(a, now, requestedAt, c)) && SignedPayload(e) in signed.signed
  {
    hide P.DecisionOn, P.RequestFor, SignedPayload;
    analyzed := P.Apply(P.INITIAL, P.Analyze(a), c);
    P.RequestedStep(analyzed, a, now, requestedAt, c);
    asked := P.Apply(analyzed, P.Requested(a, now, requestedAt, true), c);
    signed := P.Apply(asked, P.Sign(SignedPayload(e)), c);
  }

  lemma AnswerLeads(s: P.State, r: RequestEvent, e: Envelope, checkedAt: int, readAt: int, decidedAt: int, t: P.Attempt, c: P.Config)
    returns (evaluated: P.State, committed: P.State, published: P.State)
    requires HoldsRequest(s, r) && Answers(e, r, checkedAt, readAt, decidedAt, c) && SignedPayload(e) in s.signed
    requires t == P.Attempt(e, 0, r, Answer(e, r, checkedAt, readAt, decidedAt, c), decidedAt)
    ensures P.Enabled(s, P.Evaluated(e, checkedAt, readAt, decidedAt), c) && evaluated == P.Apply(s, P.Evaluated(e, checkedAt, readAt, decidedAt), c)
    ensures P.Enabled(evaluated, P.Committed(t), c) && committed == P.Apply(evaluated, P.Committed(t), c)
    ensures P.Enabled(committed, P.Published(t.result), c) && published == P.Apply(committed, P.Published(t.result), c)
    ensures t.result in published.decisions
  {
    EvaluatedFirst(s, r, e, checkedAt, readAt, decidedAt, t, c);
    hide P.Enabled, P.Apply, Evaluate, Answers, Holds;
    evaluated := s.(attempts := s.attempts + {t});
    assert evaluated.requests[e.approvalRequestId].record == PendingRecord(r);
    P.ResolutionGoesOut(evaluated, t, c);
    committed := P.Apply(evaluated, P.Committed(t), c);
    published := PublishedLast(committed, t.result, c);
  }

  lemma AnswersHasValue(e: Envelope, r: RequestEvent, checkedAt: int, readAt: int, decidedAt: int, c: P.Config)
    requires Answers(e, r, checkedAt, readAt, decidedAt, c)
    ensures e.approvalRequestId == r.approvalRequestId
    ensures Evaluate(e, Some(PendingRecord(r)), checkedAt, readAt, decidedAt, c.approval, c.platform) == Ok(Answer(e, r, checkedAt, readAt, decidedAt, c))
  {
    hide Evaluate;
  }

  lemma EvaluatedFirst(s: P.State, r: RequestEvent, e: Envelope, checkedAt: int, readAt: int, decidedAt: int, t: P.Attempt, c: P.Config)
    requires HoldsRequest(s, r) && Answers(e, r, checkedAt, readAt, decidedAt, c) && SignedPayload(e) in s.signed
    requires t == P.Attempt(e, 0, r, Answer(e, r, checkedAt, readAt, decidedAt, c), decidedAt)
    ensures e.approvalRequestId in s.requests && s.requests[e.approvalRequestId].record == PendingRecord(r)
    ensures P.Enabled(s, P.Evaluated(e, checkedAt, readAt, decidedAt), c)
    ensures P.Apply(s, P.Evaluated(e, checkedAt, readAt, decidedAt), c) == s.(attempts := s.attempts + {t})
  {
    SignedIsVerified(s, e, c);
    AnswersHasValue(e, r, checkedAt, readAt, decidedAt, c);
    hide Evaluate, P.SignatureVerifies, SignedPayload, P.Enabled, P.Apply, Answers;
    EvaluationEnabled(s, e, checkedAt, readAt, decidedAt, c);
    P.EvaluationAddsAttempt(s, e, checkedAt, readAt, decidedAt, c);
  }

  lemma EvaluationEnabled(s: P.State, e: Envelope, checkedAt: int, readAt: int, decidedAt: int, c: P.Config)
    requires P.SignatureVerifies(s, e, c) && e.approvalRequestId in s.requests
    requires Evaluate(e, Some(s.requests[e.approvalRequestId].record), checkedAt, readAt, decidedAt, c.approval, c.platform).Ok?
    ensures P.Enabled(s, P.Evaluated(e, checkedAt, readAt, decidedAt), c)
  {
    hide Evaluate, P.SignatureVerifies;
  }

  lemma PublishedLast(s: P.State, d: GovernanceDecision, c: P.Config) returns (t: P.State)
    requires d in s.outbox
    ensures P.Enabled(s, P.Published(d), c) && t == P.Apply(s, P.Published(d), c) && d in t.decisions
  {
    t := P.Apply(s, P.Published(d), c);
  }

  lemma AsksForApproval(a: AnalyzedIncident, now: int, c: P.Config)
    requires MeetsHardChecks(a, c.gov) && !MeetsAutomaticControls(a, c.gov)
    ensures P.DecisionOn(a, now, c).decision == RequireApproval
  {
    hide GovernanceAgent.Govern, MeetsHardChecks, MeetsAutomaticControls;
    VerdictOfAnalysis(a, now, c.gov, c.platform);
  }

  /** A request that is stored and shown, a signed envelope that answers it, and the answer goes out. */
  lemma AnswerGoesOut(a: AnalyzedIncident, now: int, requestedAt: int, e: Envelope, checkedAt: int, readAt: int, decidedAt: int, c: P.Config)
    returns (steps: seq<P.Step>, t: P.State)
    requires ValidAnalysis(a.analysis) && MeetsHardChecks(a, c.gov) && !MeetsAutomaticControls(a, c.gov)
    requires Answers(e, P.RequestFor(a, now, requestedAt, c), checkedAt, readAt, decidedAt, c)
    ensures Leads(P.INITIAL, steps, t, c) && (forall q :: q in steps ==> !q.Executed?)
    ensures Answer(e, P.RequestFor(a, now, requestedAt, c), checkedAt, readAt, decidedAt, c) in t.decisions
  {
    hide *;
    AsksForApproval(a, now, c);
    var r := P.RequestFor(a, now, requestedAt, c);
    var result := Answer(e, r, checkedAt, readAt, decidedAt, c);
    var attempt := P.Attempt(e, 0, r, result, decidedAt);
    var analyze, request, sign := P.Analyze(a), P.Requested(a, now, requestedAt, true), P.Sign(SignedPayload(e));
    var evaluate, commit, publish := P.Evaluated(e, checkedAt, readAt, decidedAt), P.Committed(attempt), P.Published(result);
    var s1, s2, s3 := RequestLeads(a, now, requestedAt, e, c);
    var s4, s5, s6 := AnswerLeads(s3, r, e, checkedAt, readAt, decidedAt, attempt, c);
    t := s6;
    EmptyLeads(t, c);
    var later := ThreeLead(s3, evaluate, s4, commit, s5, publish, [], t, c);
    steps := ThreeLead(P.INITIAL, analyze, s1, request, s2, sign, later, t, c);
  }

  lemma ThreeLead(s: P.State, a: P.Step, s1: P.State, b: P.Step, s2: P.State, d: P.Step, rest: seq<P.Step>, t: P.State, c: P.Config)
    returns (steps: seq<P.Step>)
    requires P.Enabled(s, a, c) && s1 == P.Apply(s, a, c) && P.Enabled(s1, b, c) && s2 == P.Apply(s1, b, c)
    requires P.Enabled(s2, d, c) && Leads(P.Apply(s2, d, c), rest, t, c)
    ensures Leads(s, steps, t, c) && steps == [a, b, d] + rest
  {
    hide P.Enabled, P.Apply, Leads;
    FirstLeads(s2, d, rest, t, c);
    FirstLeads(s1, b, [d] + rest, t, c);
    FirstLeads(s, a, [b] + ([d] + rest), t, c);
    steps := [a] + ([b] + ([d] + rest));
  }

  lemma EmptyLeads(s: P.State, c: P.Config)
    ensures Leads(s, [], s, c)
  {
  }

  lemma SignedIsVerified(s: P.State, e: Envelope, c: P.Config)
    requires SignedPayload(e) in s.signed
    ensures P.SignatureVerifies(s, e, c)
  {
    hide Canonical, SignedPayload;
    assert c.platform.sha256(Canonical(SignedPayload(e), Raw)) == c.platform.sha256(SignedEnvelope.SignedText(e));
  }

  // ---------------------------------------------------------------- and are executed

  /** The document of the call is completed with this result by the one attempt there is, and the call is recorded. */
  ghost predicate Carried(s: State, x: P.Call, result: RemediationResult, c: Config) {
    var l := LedgerOf(s, DocumentOf(x, c));
    && x in s.protocol.calls && l.handled == [x] && Successes(s, DocumentOf(x, c)) == |l.attempts| == 1
    && l.attempts[0].calls == 1 && l.doc.Some? && l.doc.value.status == "completed" && l.doc.value.result == Some(result)
  }

  lemma DeliveredFirst(s: State, x: P.Call, c: Config) returns (t: State)
    requires Reached(s, c) && s.ledgers == map[]
    requires x.decision in s.protocol.decisions && Gate.Admits(x.decision, x.readAt, c.protocol.exec, c.protocol.platform)
    ensures Reached(t, c) && t.clock == s.clock
    ensures LedgerOf(t, DocumentOf(x, c)) == Ledger(Some(ClaimedDoc(None, s.clock, c.ledger)), [L.Attempt(s.clock + c.ledger.lease, L.Held, 0)], [x], 0)
  {
    hide Gate.Admits, DocumentOf, Reached;
    OneMore(s, Deliver(x, s.clock), c);
    t := Apply(s, Deliver(x, s.clock), c);
    assert LedgerOf(s, DocumentOf(x, c)) == EMPTY;
  }

  lemma CalledNext(s: State, x: P.Call, id: string, doc: Option<Doc>, lease: int, c: Config) returns (t: State)
    requires Reached(s, c) && s.clock < lease
    requires LedgerOf(s, id) == Ledger(doc, [L.Attempt(lease, L.Held, 0)], [x], 0)
    ensures Reached(t, c) && t.clock == s.clock && x in t.protocol.calls
    ensures LedgerOf(t, id) == Ledger(doc, [L.Attempt(lease, L.Called, 1)], [x], 0)
  {
    hide Gate.Admits, DocumentOf, Reached;
    var q := L.Call(0);
    OneMore(s, Write(id, q), c);
    t := Apply(s, Write(id, q), c);
    assert View(s, id).attempts[0 := L.Attempt(lease, L.Called, 1)] == [L.Attempt(lease, L.Called, 1)];
  }

  lemma CompletedLast(s: State, x: P.Call, id: string, doc: Option<Doc>, lease: int, result: RemediationResult, c: Config) returns (t: State)
    requires Reached(s, c) && s.clock < lease && x in s.protocol.calls
    requires LedgerOf(s, id) == Ledger(doc, [L.Attempt(lease, L.Called, 1)], [x], 0)
    ensures Reached(t, c) && x in t.protocol.calls
    ensures LedgerOf(t, id) == Ledger(Some(CompletedDoc(doc, result, s.clock)), [L.Attempt(lease, L.Done, 1)], [x], 0)
  {
    hide Gate.Admits, DocumentOf, Reached;
    var q := L.Complete(0, result);
    OneMore(s, Write(id, q), c);
    t := Apply(s, Write(id, q), c);
    assert View(s, id).attempts[0 := L.Attempt(lease, L.Done, 1)] == [L.Attempt(lease, L.Done, 1)];
  }

  lemma ExecutionSucceeds(s: State, x: P.Call, result: RemediationResult, c: Config) returns (t: State)
    requires Reached(s, c) && s.ledgers == map[] && c.ledger.lease > 0
    requires x.decision in s.protocol.decisions && Gate.Admits(x.decision, x.readAt, c.protocol.exec, c.protocol.platform)
    ensures Reached(t, c) && Carried(t, x, result, c)
  {
    hide Gate.Admits, DocumentOf, Reached;
    var id, lease, doc := DocumentOf(x, c), s.clock + c.ledger.lease, Some(ClaimedDoc(None, s.clock, c.ledger));
    var delivered := DeliveredFirst(s, x, c);
    var called := CalledNext(delivered, x, id, doc, lease, c);
    t := CompletedLast(called, x, id, doc, lease, result, c);
    OneSuccess(lease, t.clock);
    hide L.Count, LedgerOf;
  }

  lemma OneSuccess(lease: int, clock: int)
    ensures L.Count([L.Attempt(lease, L.Done, 1)], clock, L.Succeeded) == 1
  {
    assert [L.Attempt(lease, L.Done, 1)][..0] == [];
  }

  /** A run of the protocol makes this call, and one with workers carries it out. */
  ghost predicate CanBeExecuted(x: P.Call, result: RemediationResult, c: Config) {
    && (exists s :: ReachedByProtocol(s, c.protocol) && x in s.calls)
    && (exists s :: Reached(s, c) && Carried(s, x, result, c))
  }

  /** A decision that went out and that the gate admits is executed by the protocol alone, and successfully with workers. */
  lemma PublishedIsExecuted(steps: seq<P.Step>, t: P.State, x: P.Call, result: RemediationResult, clock: int, c: Config)
    requires Leads(P.INITIAL, steps, t, c.protocol) && (forall q :: q in steps ==> !q.Executed?)
    requires x.decision in t.decisions && Gate.Admits(x.decision, x.readAt, c.protocol.exec, c.protocol.platform) && c.ledger.lease > 0
    ensures CanBeExecuted(x, result, c)
  {
    hide Gate.Admits, Reached, ReachedByProtocol, Carried, Leads;
    StartReachedByProtocol(c.protocol);
    LeadsToReached(P.INITIAL, steps, t, c.protocol);
    var execute := P.Executed(x.decision, x.readAt);
    ProtocolStep(t, execute, c.protocol);
    assert x in P.Apply(t, execute, c.protocol).calls;
    StartReached(clock, c);
    LeadsToGoverned(State(P.INITIAL, clock, map[]), steps, t, c);
    var s := ExecutionSucceeds(State(t, clock, map[]), x, result, c);
  }

  lemma DecidedVerdict(a: AnalyzedIncident, now: int, g: GovernanceConfig, p: Platform)
    ensures GovernanceAgent.Govern(a, now, g, p).decision == Decide(BuildPolicyInput(a, g)).decision
  {
    hide Decide, BuildPolicyInput;
  }

  lemma AnswerAdmitted(a: AnalyzedIncident, now: int, requestedAt: int, e: Envelope, checkedAt: int, envelopeReadAt: int, decidedAt: int,
                       readAt: int, c: P.Config)
    requires Sound(c.platform) && Gate.Matches(c.gov, c.exec) && c.approval.keyVersion != "" && c.exec.executionMode in {"controlled", "approval-only"}
    requires MeetsHardChecks(a, c.gov) && !MeetsAutomaticControls(a, c.gov)
    requires Answers(e, P.RequestFor(a, now, requestedAt, c), checkedAt, envelopeReadAt, decidedAt, c) && e.decision == APPROVE
    ensures var d := Answer(e, P.RequestFor(a, now, requestedAt, c), checkedAt, envelopeReadAt, decidedAt, c);
            c.platform.parse(d.expiresAt).Some? && (Gate.Admits(d, readAt, c.exec, c.platform) <==> readAt < c.platform.parse(d.expiresAt).value)
  {
    hide GovernanceAgent.Govern, Evaluate, Answers, Answer, Gate.Admits, Gate.Matches, MeetsHardChecks, MeetsAutomaticControls, Decide, BuildPolicyInput, StableId, Sha256Hex;
    AsksForApproval(a, now, c);
    DecidedVerdict(a, now, c.gov, c.platform);
    var request := P.RequestFor(a, now, requestedAt, c);
    AnswersHasValue(e, request, checkedAt, envelopeReadAt, decidedAt, c);
    assert PendingRecord(request).requestEvent.governanceDecision == GovernanceAgent.Govern(a, now, c.gov, c.platform);
    hide P.RequestFor;
    HumanDecisionAdmitted(a, now, e, PendingRecord(request), checkedAt, envelopeReadAt, decidedAt, readAt, c.gov, c.approval, c.exec, c.platform);
  }

  // ---------------------------------------------------------------- main results

  /**
   * Every incident that passes the hard checks and the automatic controls can be restarted: there is a
   * timely run that ends with one successful attempt, whatever the gateway answers, as long as execution
   * is controlled and the decision has not expired.
   */
  lemma PermittedIsExecuted(a: AnalyzedIncident, now: int, readAt: int, result: RemediationResult, clock: int, c: Config)
    requires Sound(c.protocol.platform) && Gate.Matches(c.protocol.gov, c.protocol.exec) && c.ledger.lease > 0
    requires ValidAnalysis(a.analysis) && MeetsHardChecks(a, c.protocol.gov) && MeetsAutomaticControls(a, c.protocol.gov)
    requires c.protocol.exec.executionMode == "controlled" && readAt < now + c.protocol.gov.decisionTtl
    ensures CanBeExecuted(P.Call(P.DecisionOn(a, now, c.protocol), readAt), result, c)
  {
    var steps, t := PermitGoesOut(a, now, c.protocol);
    Gate.OpaDecisionAdmitted(a, now, readAt, c.protocol.gov, c.protocol.exec, c.protocol.platform);
    DecidedVerdict(a, now, c.protocol.gov, c.protocol.platform);
    hide *;
    PublishedIsExecuted(steps, t, P.Call(P.DecisionOn(a, now, c.protocol), readAt), result, clock, c);
  }

  /**
   * Every incident that passes the hard checks but not the controls can be restarted with an approval: if
   * the agent accepts a signed APPROVE for its request, execution is controlled or approval-only and the
   * resolved decision has not expired, there is such a run for the resolved decision.
   */
  lemma ApprovedIsExecuted(a: AnalyzedIncident, now: int, requestedAt: int, e: Envelope, checkedAt: int, envelopeReadAt: int, decidedAt: int,
                           readAt: int, result: RemediationResult, clock: int, c: Config)
    requires Sound(c.protocol.platform) && Gate.Matches(c.protocol.gov, c.protocol.exec) && c.ledger.lease > 0
    requires c.protocol.approval.keyVersion != "" && c.protocol.exec.executionMode in {"controlled", "approval-only"}
    requires ValidAnalysis(a.analysis) && MeetsHardChecks(a, c.protocol.gov) && !MeetsAutomaticControls(a, c.protocol.gov)
    requires Answers(e, P.RequestFor(a, now, requestedAt, c.protocol), checkedAt, envelopeReadAt, decidedAt, c.protocol) && e.decision == APPROVE
    ensures var d := Answer(e, P.RequestFor(a, now, requestedAt, c.protocol), checkedAt, envelopeReadAt, decidedAt, c.protocol);
            && c.protocol.platform.parse(d.expiresAt).Some?
            && (readAt < c.protocol.platform.parse(d.expiresAt).value ==> CanBeExecuted(P.Call(d, readAt), result, c))
  {
    var r := P.RequestFor(a, now, requestedAt, c.protocol);
    AnswerAdmitted(a, now, requestedAt, e, checkedAt, envelopeReadAt, decidedAt, readAt, c.protocol);
    hide *;
    var steps, t := AnswerGoesOut(a, now, requestedAt, e, checkedAt, envelopeReadAt, decidedAt, c.protocol);
    var d := Answer(e, r, checkedAt, envelopeReadAt, decidedAt, c.protocol);
    if readAt < c.protocol.platform.parse(d.expiresAt).value {
      PublishedIsExecuted(steps, t, P.Call(d, readAt), result, clock, c);
    }
  }
}
