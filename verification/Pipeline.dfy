/**
 * Governance, approval and execution as one transition system. Messages stay deliverable once
 * published, so a run may lose, repeat and reorder them; a handler may stop after any of its effects;
 * every clock reading is arbitrary; a stored request may be deleted at any moment.
 */
module Pipeline {
  import opened Prelude
  import opened Identifiers
  import opened CanonicalJson
  import opened RemediationPolicy
  import opened GovernanceModels
  import opened GovernanceAgent
  import opened ApprovalAgent
  import opened SignedEnvelope
  import Gate = ExecutorGate

  datatype Config = Config(gov: GovernanceConfig, approval: ApprovalConfig, exec: Gate.ExecutorConfig, platform: Platform)

  /** A stored request; each creation under an id starts a new incarnation. */
  datatype Live = Live(incarnation: nat, record: ApprovalRecord)

  /**
   * An approval handler between reading the request and its resolving transaction, which may be
   * repeated when its commit was not acknowledged.
   */
  datatype Attempt = Attempt(envelope: Envelope, incarnation: nat, request: RequestEvent, result: GovernanceDecision, decidedAt: int)

  datatype Call = Call(decision: GovernanceDecision, readAt: int)

  datatype State = State(
    analyzed: set<AnalyzedIncident>,           // incidents the analyst published
    requests: map<string, Live>,               // the approval collection
    origins: seq<RequestEvent>,                // origins[k] created incarnation k
    announced: set<(nat, RequestEvent)>,       // request events published for review
    signed: set<map<string, string>>,          // payloads the approval key has signed
    attempts: set<Attempt>,
    resolved: set<(nat, GovernanceDecision)>,  // answers the resolving transaction gave
    outbox: set<GovernanceDecision>,           // decisions computed, perhaps not yet published
    decisions: set<GovernanceDecision>,        // decisions published
    calls: set<Call>)                          // restarts requested of the MCP gateway

  const INITIAL := State({}, map[], [], {}, {}, {}, {}, {}, {}, {})

  datatype Step =
    | Analyze(a: AnalyzedIncident)
    | Decided(a: AnalyzedIncident, now: int)
    | Requested(a: AnalyzedIncident, now: int, requestedAt: int, delivered: bool)
    | Sign(payload: map<string, string>)
    | Evaluated(e: Envelope, checkedAt: int, readAt: int, decidedAt: int)
    | Committed(t: Attempt)
    | Published(d: GovernanceDecision)
    | Deleted(id: string)
    | Executed(d: GovernanceDecision, now: int)

  function Find(s: State, id: string): Option<ApprovalRecord> {
    if id in s.requests then Some(s.requests[id].record) else None
  }

  /** The signature verifies when the key has signed a payload with the same digest. */
  ghost predicate SignatureVerifies(s: State, e: Envelope, c: Config) {
    exists payload :: payload in s.signed && c.platform.sha256(Canonical(payload, Raw)) == c.platform.sha256(SignedText(e))
  }

  function DecisionOn(a: AnalyzedIncident, now: int, c: Config): GovernanceDecision {
    Govern(a, now, c.gov, c.platform)
  }

  function RequestFor(a: AnalyzedIncident, now: int, requestedAt: int, c: Config): RequestEvent {
    CreateRequestEvent(DecisionOn(a, now, c), requestedAt, c.gov, c.platform)
  }

  /** Both halves of a resolution fail on a request that is not stored. */
  ghost predicate Enabled(s: State, step: Step, c: Config) {
    match step
    case Analyze(a) => ValidAnalysis(a.analysis)
    case Decided(a, now) => a in s.analyzed && DecisionOn(a, now, c).decision != RequireApproval
    case Requested(a, now, requestedAt, _) =>
      && a in s.analyzed && DecisionOn(a, now, c).decision == RequireApproval
      && PersistOutcome(Find(s, RequestFor(a, now, requestedAt, c).approvalRequestId), RequestFor(a, now, requestedAt, c)).Ok?
    case Sign(_) => true
    case Evaluated(e, checkedAt, readAt, decidedAt) =>
      && SignatureVerifies(s, e, c) && e.approvalRequestId in s.requests
      && Evaluate(e, Some(s.requests[e.approvalRequestId].record), checkedAt, readAt, decidedAt, c.approval, c.platform).Ok?
    case Committed(t) =>
      && t in s.attempts && t.envelope.approvalRequestId in s.requests
      && CommitOutcome(Some(s.requests[t.envelope.approvalRequestId].record), t.envelope, t.result).Ok?
    case Published(d) => d in s.outbox
    case Deleted(id) => id in s.requests
    case Executed(d, now) => d in s.decisions && Gate.Admits(d, now, c.exec, c.platform)
  }

  ghost function Apply(s: State, step: Step, c: Config): State
    requires Enabled(s, step, c)
  {
    match step
    case Analyze(a) => s.(analyzed := s.analyzed + {a})
    case Decided(a, now) => s.(outbox := s.outbox + {DecisionOn(a, now, c)})
    case Requested(a, now, requestedAt, delivered) => AfterRequest(s, RequestFor(a, now, requestedAt, c), delivered)
    case Sign(payload) => s.(signed := s.signed + {payload})
    case Evaluated(e, checkedAt, readAt, decidedAt) =>
      var live := s.requests[e.approvalRequestId];
      var result := Evaluate(e, Some(live.record), checkedAt, readAt, decidedAt, c.approval, c.platform).value;
      s.(attempts := s.attempts + {Attempt(e, live.incarnation, live.record.requestEvent, result, decidedAt)})
    case Committed(t) =>
      var id := t.envelope.approvalRequestId;
      var live := s.requests[id];
      var outcome := CommitOutcome(Some(live.record), t.envelope, t.result).value;
      s.(requests := s.requests[id := live.(record := outcome.record)],
         resolved := s.resolved + {(live.incarnation, outcome.emitted)},
         outbox := s.outbox + {outcome.emitted})
    case Published(d) => s.(decisions := s.decisions + {d})
    case Deleted(id) => s.(requests := s.requests - {id})
    case Executed(d, now) => s.(calls := s.calls + {Call(d, now)})
  }

  /**
   * create_approval_request and what follows it: the request is stored if its id is free, announced
   * unless already resolved, and the decision itself goes out only if the announcement did.
   */
  function AfterRequest(s: State, request: RequestEvent, delivered: bool): State {
    var id := request.approvalRequestId;
    var created := id !in s.requests;
    var k := if created then |s.origins| else s.requests[id].incarnation;
    var announce := created || s.requests[id].record.status == "pending";
    s.(requests := if created then s.requests[id := Live(k, PendingRecord(request))] else s.requests,
       origins := if created then s.origins + [request] else s.origins,
       announced := if announce && delivered then s.announced + {(k, request)} else s.announced,
       outbox := if announce && !delivered then s.outbox else s.outbox + {request.governanceDecision})
  }

  ghost predicate Next(s: State, s': State, c: Config) {
    exists step :: Enabled(s, step, c) && s' == Apply(s, step, c)
  }

  ghost predicate Run(trace: seq<State>, c: Config) {
    && |trace| > 0 && trace[0] == INITIAL
    && forall i :: 0 <= i < |trace| - 1 ==> Next(trace[i], trace[i + 1], c)
  }

  // ---------------------------------------------------------------- invariant

  ghost predicate Governed(d: GovernanceDecision, analyzed: set<AnalyzedIncident>, c: Config) {
    exists a, now :: a in analyzed && d == DecisionOn(a, now, c)
  }

  ghost predicate ProperRequest(r: RequestEvent, analyzed: set<AnalyzedIncident>, c: Config) {
    exists a, now, requestedAt :: a in analyzed && r == RequestFor(a, now, requestedAt, c) && DecisionOn(a, now, c).decision == RequireApproval
  }

  /** Every request ever created asks for approval of a decision on an analyzed incident. */
  ghost predicate OriginsProper(origins: seq<RequestEvent>, analyzed: set<AnalyzedIncident>, c: Config) {
    forall k :: 0 <= k < |origins| ==> ProperRequest(origins[k], analyzed, c)
  }

  ghost predicate ProperLive(id: string, live: Live, origins: seq<RequestEvent>, resolved: set<(nat, GovernanceDecision)>) {
    var r := live.record;
    && live.incarnation < |origins|
    && r.requestEvent == origins[live.incarnation] && r.requestEvent.approvalRequestId == id
    && r.requestHash == r.requestEvent.requestHash
    && (r.status == "pending" || r.status == "approved" || r.status == "denied")
    && (r.status == "pending" ==> forall d :: (live.incarnation, d) !in resolved)
    && (r.status != "pending" ==> r.resolvedDecision.Some? && (live.incarnation, r.resolvedDecision.value) in resolved)
  }

  /** A stored request is its origin, and is resolved exactly when its incarnation has an answer. */
  ghost predicate RequestsProper(requests: map<string, Live>, origins: seq<RequestEvent>, resolved: set<(nat, GovernanceDecision)>) {
    forall id :: id in requests ==> ProperLive(id, requests[id], origins, resolved)
  }

  ghost predicate ProperAttempt(t: Attempt, origins: seq<RequestEvent>, signed: set<map<string, string>>, c: Config) {
    && t.incarnation < |origins| && t.request == origins[t.incarnation]
    && t.request.approvalRequestId == t.envelope.approvalRequestId
    && SignedPayload(t.envelope) in signed
    && t.envelope.keyVersion == c.approval.keyVersion
    && t.request.requestHash == t.envelope.requestHash
    && c.platform.parse(t.envelope.expiresAt).Some? && c.platform.parse(t.request.expiresAt).Some?
    && c.platform.parse(t.envelope.expiresAt).value <= c.platform.parse(t.request.expiresAt).value
    && t.result == ResolvedDecision(t.request.governanceDecision, t.envelope, c.platform.parse(t.envelope.expiresAt).value, t.decidedAt, c.approval, c.platform)
  }

  /** Every evaluated envelope was signed, and its result resolves the request it was checked against. */
  ghost predicate AttemptsProper(attempts: set<Attempt>, origins: seq<RequestEvent>, signed: set<map<string, string>>, c: Config) {
    forall t :: t in attempts ==> ProperAttempt(t, origins, signed, c)
  }

  ghost predicate ResultOfAttempt(d: GovernanceDecision, id: string, attempts: set<Attempt>) {
    exists t :: t in attempts && t.result == d && t.envelope.approvalRequestId == id
  }

  /** Every answer is the result of an attempt on the same request id. */
  ghost predicate AnswersProper(resolved: set<(nat, GovernanceDecision)>, origins: seq<RequestEvent>, attempts: set<Attempt>) {
    forall k, d :: (k, d) in resolved ==> k < |origins| && ResultOfAttempt(d, origins[k].approvalRequestId, attempts)
  }

  /** An incarnation has at most one answer. */
  ghost predicate OneAnswer(resolved: set<(nat, GovernanceDecision)>) {
    forall k, d, d' :: (k, d) in resolved && (k, d') in resolved ==> d == d'
  }

  /** What reviewers are shown has the hash of what is stored. */
  ghost predicate AnnouncementsProper(announced: set<(nat, RequestEvent)>, origins: seq<RequestEvent>, analyzed: set<AnalyzedIncident>, c: Config) {
    forall k, r :: (k, r) in announced ==> k < |origins| && ProperRequest(r, analyzed, c) && r.requestHash == origins[k].requestHash
  }

  ghost predicate Answered(d: GovernanceDecision, resolved: set<(nat, GovernanceDecision)>) {
    exists k :: (k, d) in resolved
  }

  /** Every decision that may go out is the governance agent's or an answer. */
  ghost predicate OutboxProper(outbox: set<GovernanceDecision>, analyzed: set<AnalyzedIncident>, resolved: set<(nat, GovernanceDecision)>, c: Config) {
    forall d :: d in outbox ==> Governed(d, analyzed, c) || Answered(d, resolved)
  }

  ghost predicate CallsProper(calls: set<Call>, decisions: set<GovernanceDecision>, c: Config) {
    forall x :: x in calls ==> x.decision in decisions && Gate.Admits(x.decision, x.readAt, c.exec, c.platform)
  }

  ghost predicate Inv(s: State, c: Config) {
    && OriginsProper(s.origins, s.analyzed, c)
    && RequestsProper(s.requests, s.origins, s.resolved)
    && AttemptsProper(s.attempts, s.origins, s.signed, c)
    && AnswersProper(s.resolved, s.origins, s.attempts)
    && OneAnswer(s.resolved)
    && AnnouncementsProper(s.announced, s.origins, s.analyzed, c)
    && OutboxProper(s.outbox, s.analyzed, s.resolved, c)
    && s.decisions <= s.outbox
    && CallsProper(s.calls, s.decisions, c)
  }

  // ---------------------------------------------------------------- what growth of history preserves

  lemma RequestStaysProper(r: RequestEvent, analyzed: set<AnalyzedIncident>, analyzed': set<AnalyzedIncident>, c: Config)
    requires analyzed <= analyzed' && ProperRequest(r, analyzed, c)
    ensures ProperRequest(r, analyzed', c)
  {
    var a, now, requestedAt :| a in analyzed && r == RequestFor(a, now, requestedAt, c) && DecisionOn(a, now, c).decision == RequireApproval;
    assert a in analyzed';
  }

  lemma MoreAnalyzed(s: State, analyzed': set<AnalyzedIncident>, c: Config)
    requires Inv(s, c) && s.analyzed <= analyzed'
    ensures OriginsProper(s.origins, analyzed', c)
    ensures AnnouncementsProper(s.announced, s.origins, analyzed', c)
    ensures OutboxProper(s.outbox, analyzed', s.resolved, c)
  {
    forall k | 0 <= k < |s.origins| ensures ProperRequest(s.origins[k], analyzed', c) {
      RequestStaysProper(s.origins[k], s.analyzed, analyzed', c);
    }
    forall k, r | (k, r) in s.announced ensures ProperRequest(r, analyzed', c) {
      RequestStaysProper(r, s.analyzed, analyzed', c);
    }
    forall d | d in s.outbox ensures Governed(d, analyzed', c) || Answered(d, s.resolved) {
      if Governed(d, s.analyzed, c) {
        var a, now :| a in s.analyzed && d == DecisionOn(a, now, c);
        assert a in analyzed';
      }
    }
  }

  lemma MoreOrigins(s: State, r: RequestEvent, c: Config)
    requires Inv(s, c) && ProperRequest(r, s.analyzed, c)
    ensures OriginsProper(s.origins + [r], s.analyzed, c)
    ensures RequestsProper(s.requests, s.origins + [r], s.resolved)
    ensures AttemptsProper(s.attempts, s.origins + [r], s.signed, c)
    ensures AnswersProper(s.resolved, s.origins + [r], s.attempts)
    ensures AnnouncementsProper(s.announced, s.origins + [r], s.analyzed, c)
  {
    hide DecisionOn, RequestFor, ResolvedDecision;
    var origins := s.origins + [r];
    assert forall k :: 0 <= k < |s.origins| ==> origins[k] == s.origins[k];
    forall t | t in s.attempts ensures ProperAttempt(t, origins, s.signed, c) {
      assert ProperAttempt(t, s.origins, s.signed, c);
    }
    forall id | id in s.requests ensures ProperLive(id, s.requests[id], origins, s.resolved) {
      assert ProperLive(id, s.requests[id], s.origins, s.resolved);
    }
    forall k, d | (k, d) in s.resolved ensures ResultOfAttempt(d, origins[k].approvalRequestId, s.attempts) {
      assert ResultOfAttempt(d, s.origins[k].approvalRequestId, s.attempts);
    }
    forall k, q | (k, q) in s.announced ensures q.requestHash == origins[k].requestHash {
      assert q.requestHash == s.origins[k].requestHash;
    }
  }

  lemma MoreSigned(s: State, payload: map<string, string>, c: Config)
    requires Inv(s, c)
    ensures AttemptsProper(s.attempts, s.origins, s.signed + {payload}, c)
  {
    forall t | t in s.attempts ensures ProperAttempt(t, s.origins, s.signed + {payload}, c) {
      assert ProperAttempt(t, s.origins, s.signed, c);
    }
  }

  lemma MoreAttempts(s: State, t: Attempt, c: Config)
    requires Inv(s, c) && ProperAttempt(t, s.origins, s.signed, c)
    ensures AttemptsProper(s.attempts + {t}, s.origins, s.signed, c)
    ensures AnswersProper(s.resolved, s.origins, s.attempts + {t})
  {
    hide DecisionOn, RequestFor, ResolvedDecision;
    forall k, d | (k, d) in s.resolved ensures ResultOfAttempt(d, s.origins[k].approvalRequestId, s.attempts + {t}) {
      assert ResultOfAttempt(d, s.origins[k].approvalRequestId, s.attempts);
      var u :| u in s.attempts && u.result == d && u.envelope.approvalRequestId == s.origins[k].approvalRequestId;
      assert u in s.attempts + {t};
    }
  }

  lemma MoreOutput(s: State, d: GovernanceDecision, c: Config)
    requires Inv(s, c) && (Governed(d, s.analyzed, c) || Answered(d, s.resolved))
    ensures OutboxProper(s.outbox + {d}, s.analyzed, s.resolved, c)
  {
  }

  // ---------------------------------------------------------------- every step keeps the invariant

  lemma AfterRequested(s: State, a: AnalyzedIncident, now: int, requestedAt: int, delivered: bool, c: Config)
    requires Inv(s, c) && Enabled(s, Requested(a, now, requestedAt, delivered), c)
    ensures Inv(Apply(s, Requested(a, now, requestedAt, delivered), c), c)
  {
    hide DecisionOn, RequestFor, ResolvedDecision;
    var request := RequestFor(a, now, requestedAt, c);
    assert ProperRequest(request, s.analyzed, c);
    RequestCarriesDecision(a, now, requestedAt, c);
    assert Governed(request.governanceDecision, s.analyzed, c);
    MoreOutput(s, request.governanceDecision, c);
    if request.approvalRequestId !in s.requests {
      MoreOrigins(s, request, c);
      NewRequestIsProper(s, request, c);
      NewAnnouncement(s, s.origins + [request], |s.origins|, request, c);
    } else {
      var id := request.approvalRequestId;
      assert ProperLive(id, s.requests[id], s.origins, s.resolved);
      NewAnnouncement(s, s.origins, s.requests[id].incarnation, request, c);
    }
  }

  lemma RequestCarriesDecision(a: AnalyzedIncident, now: int, requestedAt: int, c: Config)
    ensures RequestFor(a, now, requestedAt, c).governanceDecision == DecisionOn(a, now, c)
  {
  }

  lemma NewRequestIsProper(s: State, request: RequestEvent, c: Config)
    requires Inv(s, c) && RequestsProper(s.requests, s.origins + [request], s.resolved)
    ensures RequestsProper(s.requests[request.approvalRequestId := Live(|s.origins|, PendingRecord(request))], s.origins + [request], s.resolved)
  {
    assert forall k, d :: (k, d) in s.resolved ==> k < |s.origins|;
  }

  lemma NewAnnouncement(s: State, origins: seq<RequestEvent>, k: nat, r: RequestEvent, c: Config)
    requires AnnouncementsProper(s.announced, origins, s.analyzed, c) && ProperRequest(r, s.analyzed, c)
    requires k < |origins| && r.requestHash == origins[k].requestHash
    ensures AnnouncementsProper(s.announced + {(k, r)}, origins, s.analyzed, c)
  {
  }

  lemma AfterEvaluate(s: State, e: Envelope, checkedAt: int, readAt: int, decidedAt: int, c: Config)
    requires Sound(c.platform) && Inv(s, c) && Enabled(s, Evaluated(e, checkedAt, readAt, decidedAt), c)
    ensures Inv(Apply(s, Evaluated(e, checkedAt, readAt, decidedAt), c), c)
  {
    var live := s.requests[e.approvalRequestId];
    var result := Evaluate(e, Some(live.record), checkedAt, readAt, decidedAt, c.approval, c.platform).value;
    SignedPayloadFound(s, e, c);
    NewAttemptIsProper(s, e, checkedAt, readAt, decidedAt, c);
    MoreAttempts(s, Attempt(e, live.incarnation, live.record.requestEvent, result, decidedAt), c);
  }

  /** A verified signature was made over this very payload. */
  lemma SignedPayloadFound(s: State, e: Envelope, c: Config)
    requires Sound(c.platform) && SignatureVerifies(s, e, c)
    ensures SignedPayload(e) in s.signed
  {
    var payload :| payload in s.signed && c.platform.sha256(Canonical(payload, Raw)) == c.platform.sha256(SignedText(e));
    CanonicalInjective(payload, Raw, SignedPayload(e), Raw);
  }

  lemma NewAttemptIsProper(s: State, e: Envelope, checkedAt: int, readAt: int, decidedAt: int, c: Config)
    requires Sound(c.platform) && SignedPayload(e) in s.signed && e.approvalRequestId in s.requests
    requires ProperLive(e.approvalRequestId, s.requests[e.approvalRequestId], s.origins, s.resolved)
    requires Evaluate(e, Some(s.requests[e.approvalRequestId].record), checkedAt, readAt, decidedAt, c.approval, c.platform).Ok?
    ensures var live := s.requests[e.approvalRequestId];
            var result := Evaluate(e, Some(live.record), checkedAt, readAt, decidedAt, c.approval, c.platform).value;
            ProperAttempt(Attempt(e, live.incarnation, live.record.requestEvent, result, decidedAt), s.origins, s.signed, c)
  {
    var record := s.requests[e.approvalRequestId].record;
    var expires := EvaluatedDecision(e, record, checkedAt, readAt, decidedAt, c.approval, c.platform);
    var _, _, _ := ExpiryChain(e, record, checkedAt, readAt, decidedAt, c.approval, c.platform);
  }

  lemma AfterCommit(s: State, t: Attempt, c: Config)
    requires Inv(s, c) && Enabled(s, Committed(t), c)
    ensures Inv(Apply(s, Committed(t), c), c)
  {
    hide DecisionOn, RequestFor, ResolvedDecision, ProperAttempt, ProperRequest, Governed;
    var id := t.envelope.approvalRequestId;
    var live := s.requests[id];
    assert ProperLive(id, live, s.origins, s.resolved);
    if live.record.status == "pending" {
      FirstAnswer(s, t, CommitOutcome(Some(live.record), t.envelope, t.result).value.record, c);
    } else {
      ReplayChangesOutboxOnly(s, t, c);
      assert Answered(live.record.resolvedDecision.value, s.resolved);
      MoreOutput(s, live.record.resolvedDecision.value, c);
    }
  }

  /** Resolving a resolved request offers its stored decision again, and changes nothing else. */
  lemma ReplayChangesOutboxOnly(s: State, t: Attempt, c: Config)
    requires Enabled(s, Committed(t), c)
    requires var id := t.envelope.approvalRequestId;
             s.requests[id].record.status != "pending" && ProperLive(id, s.requests[id], s.origins, s.resolved)
    ensures var r := s.requests[t.envelope.approvalRequestId].record;
            r.resolvedDecision.Some? && Apply(s, Committed(t), c) == s.(outbox := s.outbox + {r.resolvedDecision.value})
  {
    hide DecisionOn, RequestFor, ResolvedDecision;
    var id := t.envelope.approvalRequestId;
    var live := s.requests[id];
    ResolvedRequestReplays(live.record, live.record.resolvedDecision.value, t.envelope, t.result);
    hide CommitOutcome;
    assert s.requests[id := live] == s.requests;
    assert s.resolved + {(live.incarnation, live.record.resolvedDecision.value)} == s.resolved;
  }

  predicate Resolves(before: ApprovalRecord, after: ApprovalRecord, d: GovernanceDecision) {
    && before.status == "pending" && after.requestEvent == before.requestEvent && after.requestHash == before.requestHash
    && (after.status == "approved" || after.status == "denied") && after.resolvedDecision == Some(d)
  }

  lemma ResolvedRequestIsProper(s: State, id: string, record: ApprovalRecord, d: GovernanceDecision)
    requires RequestsProper(s.requests, s.origins, s.resolved)
    requires id in s.requests && Resolves(s.requests[id].record, record, d)
    ensures var live := s.requests[id];
            RequestsProper(s.requests[id := live.(record := record)], s.origins, s.resolved + {(live.incarnation, d)})
  {
    var live := s.requests[id];
    var requests, resolved := s.requests[id := live.(record := record)], s.resolved + {(live.incarnation, d)};
    assert ProperLive(id, live, s.origins, s.resolved);
    forall i | i in requests ensures ProperLive(i, requests[i], s.origins, resolved) {
      assert ProperLive(i, s.requests[i], s.origins, s.resolved);
      // distinct ids are distinct incarnations, because an origin names its own id
      assert i != id ==> s.requests[i].incarnation != live.incarnation;
    }
  }

  lemma NewAnswerIsOnly(s: State, id: string, d: GovernanceDecision)
    requires OneAnswer(s.resolved) && id in s.requests && s.requests[id].record.status == "pending"
    requires ProperLive(id, s.requests[id], s.origins, s.resolved)
    ensures OneAnswer(s.resolved + {(s.requests[id].incarnation, d)})
  {
  }

  /** Resolving a pending request gives its incarnation the one answer it has. */
  lemma FirstAnswer(s: State, t: Attempt, record: ApprovalRecord, c: Config)
    requires Inv(s, c) && t in s.attempts && t.envelope.approvalRequestId in s.requests
    requires Resolves(s.requests[t.envelope.approvalRequestId].record, record, t.result)
    ensures var id := t.envelope.approvalRequestId;
            var live := s.requests[id];
            var resolved := s.resolved + {(live.incarnation, t.result)};
            && RequestsProper(s.requests[id := live.(record := record)], s.origins, resolved)
            && AnswersProper(resolved, s.origins, s.attempts)
            && OneAnswer(resolved)
            && OutboxProper(s.outbox + {t.result}, s.analyzed, resolved, c)
  {
    hide ProperAttempt, ProperRequest, Governed;
    var id := t.envelope.approvalRequestId;
    var k := s.requests[id].incarnation;
    var resolved := s.resolved + {(k, t.result)};
    assert ProperLive(id, s.requests[id], s.origins, s.resolved);
    ResolvedRequestIsProper(s, id, record, t.result);
    NewAnswerIsOnly(s, id, t.result);
    hide ProperLive, RequestsProper;
    assert ResultOfAttempt(t.result, s.origins[k].approvalRequestId, s.attempts);
    forall d | d in s.outbox + {t.result} ensures Governed(d, s.analyzed, c) || Answered(d, resolved) {
      if d in s.outbox && Answered(d, s.resolved) {
        var j :| (j, d) in s.resolved;
        assert (j, d) in resolved;
      } else if d == t.result {
        assert (k, d) in resolved;
      }
    }
  }

  lemma AfterAnalyze(s: State, a: AnalyzedIncident, c: Config)
    requires Inv(s, c) && Enabled(s, Analyze(a), c)
    ensures Inv(Apply(s, Analyze(a), c), c)
  {
    MoreAnalyzed(s, s.analyzed + {a}, c);
    hide DecisionOn, RequestFor, ProperAttempt, ProperLive, ResolvedDecision, SignedPayload;
  }

  lemma AfterDecided(s: State, a: AnalyzedIncident, now: int, c: Config)
    requires Inv(s, c) && Enabled(s, Decided(a, now), c)
    ensures Inv(Apply(s, Decided(a, now), c), c)
  {
    hide DecisionOn, RequestFor, ProperAttempt, ProperLive;
    assert Governed(DecisionOn(a, now, c), s.analyzed, c);
    MoreOutput(s, DecisionOn(a, now, c), c);
  }

  lemma AfterSign(s: State, payload: map<string, string>, c: Config)
    requires Inv(s, c)
    ensures Inv(Apply(s, Sign(payload), c), c)
  {
    hide DecisionOn, RequestFor, ProperAttempt, ProperLive;
    MoreSigned(s, payload, c);
  }

  lemma AfterPublishDeleteExecute(s: State, step: Step, c: Config)
    requires Inv(s, c) && Enabled(s, step, c) && (step.Published? || step.Deleted? || step.Executed?)
    ensures Inv(Apply(s, step, c), c)
  {
    hide DecisionOn, RequestFor, ProperAttempt, ProperLive, Gate.Admits, Governed, Answered;
  }

  lemma StepKeepsInv(s: State, step: Step, c: Config)
    requires Sound(c.platform) && Inv(s, c) && Enabled(s, step, c)
    ensures Inv(Apply(s, step, c), c)
  {
    match step
    case Analyze(a) => hide *; AfterAnalyze(s, a, c);
    case Decided(a, now) => hide *; AfterDecided(s, a, now, c);
    case Requested(a, now, requestedAt, delivered) => hide *; AfterRequested(s, a, now, requestedAt, delivered, c);
    case Sign(payload) => hide *; AfterSign(s, payload, c);
    case Evaluated(e, checkedAt, readAt, decidedAt) => hide *; AfterEvaluate(s, e, checkedAt, readAt, decidedAt, c);
    case Committed(t) => hide *; AfterCommit(s, t, c);
    case _ => hide *; AfterPublishDeleteExecute(s, step, c);
  }

  lemma RunStep(trace: seq<State>, c: Config, i: nat) returns (step: Step)
    requires Run(trace, c) && 0 < i < |trace|
    ensures Enabled(trace[i - 1], step, c) && trace[i] == Apply(trace[i - 1], step, c)
  {
    hide Enabled, Apply;
    var j := i - 1;
    assert Next(trace[j], trace[j + 1], c);
    step :| Enabled(trace[j], step, c) && trace[j + 1] == Apply(trace[j], step, c);
  }

  lemma InitialInv(c: Config)
    ensures Inv(INITIAL, c)
  {
  }

  lemma {:induction false} ReachableInv(trace: seq<State>, c: Config, i: nat)
    requires Sound(c.platform) && Run(trace, c) && i < |trace|
    ensures Inv(trace[i], c)
  {
    if i == 0 {
      InitialInv(c);
    } else {
      ReachableInv(trace, c, i - 1);
      var step := RunStep(trace, c, i);
      StepKeepsInv(trace[i - 1], step, c);
    }
  }

  // ---------------------------------------------------------------- main results: provenance

  /** The gateway call concerns exactly what was analyzed, under the policy both ends run. */
  predicate SameSubject(d: GovernanceDecision, a: AnalyzedIncident, c: Config) {
    && d.analysisId == a.analysisId && d.analysis == a.analysis
    && d.incident == a.incident && d.incidentId == a.incident.incidentId
    && d.policy.policySha256 == c.gov.policySha256 == c.exec.localPolicySha256
  }

  /** The policy let the restart through on its own: every hard check and every automatic control. */
  ghost predicate AutomaticallyAuthorized(x: Call, s: State, c: Config) {
    exists a :: a in s.analyzed && SameSubject(x.decision, a, c)
      && MeetsHardChecks(a, c.gov) && MeetsAutomaticControls(a, c.gov)
  }

  /** The mapping a request hash was computed from names the restart that is called. */
  ghost predicate HashNames(hash: string, d: GovernanceDecision, c: Config) {
    forall binding :: Sha256Hex(c.platform, binding) == hash ==> NamesRestart(binding, d)
  }

  predicate NamesRestart(binding: map<string, string>, d: GovernanceDecision) {
    var action := d.analysis.recommendedAction;
    && {"analysis_id", "incident_id", "policy_sha256", "action", "target_namespace", "target_deployment"} <= binding.Keys
    && binding["analysis_id"] == d.analysisId && binding["incident_id"] == d.incidentId
    && binding["policy_sha256"] == d.policy.policySha256
    && binding["action"] == action.action
    && binding["target_namespace"] == action.targetNamespace
    && binding["target_deployment"] == action.targetDeployment
  }

  /** The approval key signed an approval, under the expected key version, whose request hash names this restart. */
  ghost predicate SignedApproval(t: Attempt, x: Call, s: State, c: Config) {
    && t in s.attempts && t.result == x.decision
    && SignedPayload(t.envelope) in s.signed
    && t.envelope.decision == APPROVE && t.envelope.keyVersion == c.approval.keyVersion
    && HashNames(t.envelope.requestHash, x.decision, c)
  }

  /** The call precedes the end of the decision, the envelope, the request and the approval lifetime. */
  ghost predicate InTime(t: Attempt, createdAt: int, x: Call, c: Config) {
    && c.platform.parse(x.decision.expiresAt).Some? && c.platform.parse(t.envelope.expiresAt).Some?
    && c.platform.parse(t.request.createdAt) == Some(createdAt)
    && x.readAt < c.platform.parse(x.decision.expiresAt).value
    && c.platform.parse(x.decision.expiresAt).value <= c.platform.parse(t.envelope.expiresAt).value
    && c.platform.parse(x.decision.expiresAt).value <= t.decidedAt + c.approval.permitTtl
    && c.platform.parse(t.envelope.expiresAt).value <= createdAt + c.gov.approvalTtl
  }

  /** Some incarnation of a request was answered with this decision, and with no other. */
  ghost predicate OnlyAnswer(d: GovernanceDecision, t: Attempt, s: State, c: Config) {
    exists k :: AnswersRequest(k, d, t, s, c)
  }

  /**
   * Incarnation k has the answer d and no other, and is a request for the decision that the signed
   * envelope is about: it has the envelope's request id and the decision id of the signed request.
   */
  ghost predicate AnswersRequest(k: nat, d: GovernanceDecision, t: Attempt, s: State, c: Config) {
    && k < |s.origins| && ProperRequest(s.origins[k], s.analyzed, c)
    && s.origins[k].approvalRequestId == t.envelope.approvalRequestId
    && s.origins[k].governanceDecisionId == t.request.governanceDecisionId
    && (k, d) in s.resolved && forall d' :: (k, d') in s.resolved ==> d' == d
  }

  /** The policy asked for approval of a restart that passes every hard check, and it was given in time. */
  ghost predicate HumanAuthorized(x: Call, s: State, c: Config) {
    exists a, t, createdAt ::
      && a in s.analyzed && SameSubject(x.decision, a, c)
      && MeetsHardChecks(a, c.gov) && !MeetsAutomaticControls(a, c.gov)
      && SignedApproval(t, x, s, c) && InTime(t, createdAt, x, c)
      && OnlyAnswer(x.decision, t, s, c)
  }

  lemma GovernedCallIsAutomatic(x: Call, s: State, c: Config)
    requires Governed(x.decision, s.analyzed, c) && Gate.Admits(x.decision, x.readAt, c.exec, c.platform)
    ensures AutomaticallyAuthorized(x, s, c)
  {
    var a, now :| a in s.analyzed && x.decision == DecisionOn(a, now, c);
    PermittedRestart(a, now, x, c);
    Gate.AdmissionMeans(x.decision, x.readAt, c.exec, c.platform);
  }

  lemma PermittedRestart(a: AnalyzedIncident, now: int, x: Call, c: Config)
    requires x.decision == DecisionOn(a, now, c) && Gate.Admits(x.decision, x.readAt, c.exec, c.platform)
    ensures SameSubject(x.decision, a, c)
    ensures MeetsHardChecks(a, c.gov) && MeetsAutomaticControls(a, c.gov)
  {
    DecisionIsAbout(a, now, c);
    hide DecisionOn, Gate.Admits, MeetsHardChecks, MeetsAutomaticControls;
    Gate.AdmissionMeans(x.decision, x.readAt, c.exec, c.platform);
  }

  /** A governance decision says what it was about. */
  predicate AboutIncident(d: GovernanceDecision, a: AnalyzedIncident, c: Config) {
    && d.analysisId == a.analysisId && d.analysis == a.analysis
    && d.incident == a.incident && d.incidentId == a.incident.incidentId
    && d.policy.policySha256 == c.gov.policySha256
  }

  lemma DecisionIsAbout(a: AnalyzedIncident, now: int, c: Config)
    ensures AboutIncident(DecisionOn(a, now, c), a, c)
    ensures DecisionOn(a, now, c).decision == Permit <==> MeetsHardChecks(a, c.gov) && MeetsAutomaticControls(a, c.gov)
    ensures DecisionOn(a, now, c).decision == RequireApproval <==> MeetsHardChecks(a, c.gov) && !MeetsAutomaticControls(a, c.gov)
  {
    hide Decide, MeetsHardChecks, MeetsAutomaticControls, BuildPolicyInput;
    VerdictOfAnalysis(a, now, c.gov, c.platform);
  }

  /** Everything a request binds is in the mapping its hash was computed from. */
  lemma RequestBinds(a: AnalyzedIncident, now: int, requestedAt: int, c: Config)
    requires Sound(c.platform)
    ensures var r := RequestFor(a, now, requestedAt, c);
            && NamesRestart(r.binding, r.governanceDecision) && r.requestHash == Sha256Hex(c.platform, r.binding)
            && r.governanceDecision == DecisionOn(a, now, c)
            && c.platform.parse(r.createdAt) == Some(requestedAt)
            && c.platform.parse(r.expiresAt) == Some(requestedAt + c.gov.approvalTtl)
  {
    hide DecisionOn, Sha256Hex, StableId;
    BindingNames(DecisionOn(a, now, c), RequestFor(a, now, requestedAt, c).approvalRequestId, c.platform.format(requestedAt + c.gov.approvalTtl));
  }

  lemma BindingNames(d: GovernanceDecision, id: string, expiresAt: string)
    ensures NamesRestart(RequestBinding(d, id, expiresAt), d)
  {
  }

  /** Resolving changes the verdict, not the subject; only an approval can be admitted. */
  lemma ResolutionKeepsSubject(original: GovernanceDecision, e: Envelope, expires: int, decidedAt: int, x: Call, c: Config)
    requires Sound(c.platform)
    requires x.decision == ResolvedDecision(original, e, expires, decidedAt, c.approval, c.platform)
    requires Gate.Admits(x.decision, x.readAt, c.exec, c.platform)
    ensures x.decision == original.(governanceDecisionId := x.decision.governanceDecisionId, decidedAt := x.decision.decidedAt,
              expiresAt := x.decision.expiresAt, decisionSource := KmsHumanApproval, decision := Permit,
              policy := x.decision.policy, approval := x.decision.approval)
    ensures x.decision.policy.policySha256 == original.policy.policySha256 == c.exec.localPolicySha256
    ensures e.decision == APPROVE
    ensures c.platform.parse(x.decision.expiresAt) == Some(Min(expires, decidedAt + c.approval.permitTtl))
    ensures x.readAt < Min(expires, decidedAt + c.approval.permitTtl)
  {
    Gate.AdmissionMeans(x.decision, x.readAt, c.exec, c.platform);
  }

  lemma SameHashSameRestart(r: RequestEvent, x: Call, c: Config)
    requires Sound(c.platform) && r.requestHash == Sha256Hex(c.platform, r.binding) && NamesRestart(r.binding, x.decision)
    ensures HashNames(r.requestHash, x.decision, c)
  {
    forall binding | Sha256Hex(c.platform, binding) == r.requestHash ensures NamesRestart(binding, x.decision) {
      Sha256HexInjective(c.platform, binding, r.binding);
    }
  }

  /** Trace an answer back to the attempt, the request and the incident it came from. */
  lemma OriginOfAnswer(d: GovernanceDecision, k: nat, s: State, c: Config)
    returns (t: Attempt, a: AnalyzedIncident, now: int, requestedAt: int)
    requires Inv(s, c) && (k, d) in s.resolved
    ensures t in s.attempts && t.result == d && ProperAttempt(t, s.origins, s.signed, c)
    ensures ProperRequest(t.request, s.analyzed, c)
    ensures k < |s.origins| && ProperRequest(s.origins[k], s.analyzed, c)
    ensures s.origins[k].approvalRequestId == t.envelope.approvalRequestId == t.request.approvalRequestId
    ensures a in s.analyzed && t.request == RequestFor(a, now, requestedAt, c) && DecisionOn(a, now, c).decision == RequireApproval
  {
    hide RequestFor, DecisionOn, ResolvedDecision, SignedPayload;
    assert ResultOfAttempt(d, s.origins[k].approvalRequestId, s.attempts);
    t :| t in s.attempts && t.result == d && t.envelope.approvalRequestId == s.origins[k].approvalRequestId;
    assert ProperAttempt(t, s.origins, s.signed, c);
    assert ProperRequest(t.request, s.analyzed, c);
    a, now, requestedAt :| a in s.analyzed && t.request == RequestFor(a, now, requestedAt, c) && DecisionOn(a, now, c).decision == RequireApproval;
  }

  lemma AnsweredCallIsHuman(x: Call, k: nat, s: State, c: Config)
    requires Sound(c.platform) && Inv(s, c)
    requires (k, x.decision) in s.resolved && Gate.Admits(x.decision, x.readAt, c.exec, c.platform)
    ensures HumanAuthorized(x, s, c)
  {
    hide *;
    var t, a, now, requestedAt := OriginOfAnswer(x.decision, k, s, c);
    DecisionIsAbout(a, now, c);
    RequestBinds(a, now, requestedAt, c);
    AttemptAuthorizes(t, a, requestedAt, x, s, c);
    InvOneAnswer(s, c);
    SameRequestSameDecision(s.origins[k], t.request, s, c);
    OnlyOneAnswer(x.decision, k, t, s, c);
    HumanAuthorizedBy(a, t, requestedAt, x, s, c);
  }

  lemma OnlyOneAnswer(d: GovernanceDecision, k: nat, t: Attempt, s: State, c: Config)
    requires OneAnswer(s.resolved) && (k, d) in s.resolved
    requires k < |s.origins| && ProperRequest(s.origins[k], s.analyzed, c)
    requires s.origins[k].approvalRequestId == t.envelope.approvalRequestId
    requires s.origins[k].governanceDecisionId == t.request.governanceDecisionId
    ensures OnlyAnswer(d, t, s, c)
  {
    hide ProperRequest;
    assert AnswersRequest(k, d, t, s, c);
  }

  /** A request id determines the decision that approval is asked for. */
  lemma SameRequestSameDecision(q: RequestEvent, r: RequestEvent, s: State, c: Config)
    requires Sound(c.platform) && ProperRequest(q, s.analyzed, c) && ProperRequest(r, s.analyzed, c)
    requires q.approvalRequestId == r.approvalRequestId
    ensures q.governanceDecisionId == r.governanceDecisionId
  {
    hide *;
    RequestIdOf(q, s, c);
    RequestIdOf(r, s, c);
    StableIdInjective(c.platform, "approval-request", [q.governanceDecisionId], "approval-request", [r.governanceDecisionId]);
    assert [q.governanceDecisionId][0] == [r.governanceDecisionId][0];
  }

  lemma RequestIdOf(r: RequestEvent, s: State, c: Config)
    requires ProperRequest(r, s.analyzed, c)
    ensures r.approvalRequestId == StableId(c.platform, "approval-request", [r.governanceDecisionId])
  {
    hide DecisionOn, Sha256Hex, StableId;
  }

  lemma AttemptAuthorizes(t: Attempt, a: AnalyzedIncident, createdAt: int, x: Call, s: State, c: Config)
    requires Sound(c.platform) && ProperAttempt(t, s.origins, s.signed, c) && t in s.attempts && t.result == x.decision
    requires Gate.Admits(x.decision, x.readAt, c.exec, c.platform)
    requires AboutIncident(t.request.governanceDecision, a, c)
    requires NamesRestart(t.request.binding, t.request.governanceDecision) && t.request.requestHash == Sha256Hex(c.platform, t.request.binding)
    requires c.platform.parse(t.request.createdAt) == Some(createdAt)
    requires c.platform.parse(t.request.expiresAt) == Some(createdAt + c.gov.approvalTtl)
    ensures SignedApproval(t, x, s, c) && InTime(t, createdAt, x, c) && SameSubject(x.decision, a, c)
  {
    hide Gate.Admits, ResolvedDecision, SignedPayload, Sha256Hex, HashNames;
    ResolutionKeepsSubject(t.request.governanceDecision, t.envelope, c.platform.parse(t.envelope.expiresAt).value, t.decidedAt, x, c);
    SameHashSameRestart(t.request, x, c);
  }

  lemma HumanAuthorizedBy(a: AnalyzedIncident, t: Attempt, createdAt: int, x: Call, s: State, c: Config)
    requires a in s.analyzed && SameSubject(x.decision, a, c)
    requires MeetsHardChecks(a, c.gov) && !MeetsAutomaticControls(a, c.gov)
    requires SignedApproval(t, x, s, c) && InTime(t, createdAt, x, c) && OnlyAnswer(x.decision, t, s, c)
    ensures HumanAuthorized(x, s, c)
  {
    hide MeetsHardChecks, MeetsAutomaticControls, SignedApproval, InTime, OnlyAnswer, SameSubject;
  }

  /** Every call of a state that satisfies the invariant is authorized. */
  lemma CallIsAuthorized(s: State, c: Config, x: Call)
    requires Sound(c.platform) && Inv(s, c) && x in s.calls
    ensures x.decision.decisionSource == DgcOpa ==> AutomaticallyAuthorized(x, s, c)
    ensures x.decision.decisionSource == KmsHumanApproval ==> HumanAuthorized(x, s, c)
  {
    hide Gate.Admits, AutomaticallyAuthorized, HumanAuthorized;
    assert Governed(x.decision, s.analyzed, c) || Answered(x.decision, s.resolved);
    if Governed(x.decision, s.analyzed, c) {
      GovernedCallIsAutomatic(x, s, c);
      GovernedSource(x.decision, s, c);
    } else {
      var k :| (k, x.decision) in s.resolved;
      AnsweredCallIsHuman(x, k, s, c);
      AnsweredSource(x.decision, k, s, c);
    }
  }

  /**
   * In every run, every call of the gateway descends either from an incident the policy permitted
   * outright, passing every hard check and every automatic control, or from one for which it required
   * approval after passing every hard check and for which the approval key signed an approval that
   * hashes to this very restart, still in time, being the only answer its request ever got.
   */
  lemma EveryCallIsAuthorized(trace: seq<State>, c: Config, i: nat, x: Call)
    requires Sound(c.platform) && Run(trace, c) && i < |trace| && x in trace[i].calls
    ensures x.decision.decisionSource == DgcOpa ==> AutomaticallyAuthorized(x, trace[i], c)
    ensures x.decision.decisionSource == KmsHumanApproval ==> HumanAuthorized(x, trace[i], c)
  {
    hide *;
    ReachableInv(trace, c, i);
    CallIsAuthorized(trace[i], c, x);
  }

  /** And the executor's gate admitted it at the moment it read the clock. */
  lemma CallWasAdmitted(s: State, c: Config, x: Call)
    requires Inv(s, c) && x in s.calls
    ensures x.decision in s.decisions && Gate.Admits(x.decision, x.readAt, c.exec, c.platform)
  {
    hide Gate.Admits, RequestsProper, OriginsProper, AttemptsProper, AnswersProper, AnnouncementsProper, OutboxProper;
  }

  lemma GovernedSource(d: GovernanceDecision, s: State, c: Config)
    requires Governed(d, s.analyzed, c)
    ensures d.decisionSource == DgcOpa
  {
    hide Decide;
  }

  lemma AnsweredSource(d: GovernanceDecision, k: nat, s: State, c: Config)
    requires Inv(s, c) && (k, d) in s.resolved
    ensures d.decisionSource == KmsHumanApproval
  {
    hide RequestFor, DecisionOn;
    assert ResultOfAttempt(d, s.origins[k].approvalRequestId, s.attempts);
    var t :| t in s.attempts && t.result == d && t.envelope.approvalRequestId == s.origins[k].approvalRequestId;
    assert ProperAttempt(t, s.origins, s.signed, c);
  }

  // ---------------------------------------------------------------- main results: single resolution

  /** What a step may do to everything that records history. */
  predicate Grows(s: State, s': State) {
    && s.analyzed <= s'.analyzed && s.origins <= s'.origins && s.announced <= s'.announced && s.signed <= s'.signed
    && s.attempts <= s'.attempts && s.resolved <= s'.resolved && s.outbox <= s'.outbox && s.decisions <= s'.decisions
    && s.calls <= s'.calls
  }

  lemma StepGrows(s: State, step: Step, c: Config)
    requires Enabled(s, step, c)
    ensures Grows(s, Apply(s, step, c))
  {
    hide DecisionOn, RequestFor, Evaluate, CommitOutcome;
  }

  lemma {:induction false} HistoryGrows(trace: seq<State>, c: Config, i: nat, j: nat)
    requires Run(trace, c) && i <= j < |trace|
    ensures Grows(trace[i], trace[j])
  {
    hide Enabled, Apply;
    if i < j {
      HistoryGrows(trace, c, i, j - 1);
      var step := RunStep(trace, c, j);
      StepGrows(trace[j - 1], step, c);
    }
  }

  /**
   * All answers ever given for one incarnation of a request are the same decision, so never both a
   * permit and a denial, whenever in the run they were given.
   */
  lemma OneAnswerPerRequest(trace: seq<State>, c: Config, i: nat, j: nat, k: nat, d: GovernanceDecision, d': GovernanceDecision)
    requires Sound(c.platform) && Run(trace, c) && i <= j < |trace|
    requires (k, d) in trace[i].resolved && (k, d') in trace[j].resolved
    ensures d == d'
  {
    hide Inv;
    HistoryGrows(trace, c, i, j);
    ReachableInv(trace, c, j);
    InvOneAnswer(trace[j], c);
  }

  lemma InvOneAnswer(s: State, c: Config)
    requires Inv(s, c)
    ensures OneAnswer(s.resolved)
  {
    hide DecisionOn, RequestFor, ResolvedDecision;
  }

  /** How a stored request may change while its incarnation lives. */
  predicate Evolves(before: Live, after: Live) {
    && before.incarnation == after.incarnation
    && before.record.requestEvent == after.record.requestEvent
    && before.record.requestHash == after.record.requestHash
    && before.record.governanceDecisionId == after.record.governanceDecisionId
    && (before.record.status != "pending" ==> after == before)
  }

  /** A stored request after a step was there before, perhaps just resolved, or is a new incarnation. */
  lemma StepEvolves(s: State, step: Step, id: string, c: Config)
    requires Enabled(s, step, c) && Inv(s, c)
    requires id in Apply(s, step, c).requests
    ensures var after := Apply(s, step, c).requests[id];
            if id in s.requests then Evolves(s.requests[id], after) else after.incarnation == |s.origins|
  {
    hide Inv, DecisionOn, RequestFor, Evaluate, CommitOutcome, AfterRequest, Gate.Admits, SignatureVerifies;
    match step
    case Committed(t) => hide *; CommitEvolves(s, t, id, c);
    case Requested(a, now, requestedAt, delivered) => RequestEvolves(s, RequestFor(a, now, requestedAt, c), delivered, id);
    case _ => OtherStepEvolves(s, step, id, c);
  }

  lemma RequestEvolves(s: State, request: RequestEvent, delivered: bool, id: string)
    requires id in AfterRequest(s, request, delivered).requests
    ensures var after := AfterRequest(s, request, delivered).requests[id];
            if id in s.requests then Evolves(s.requests[id], after) else after.incarnation == |s.origins|
  {
  }

  lemma OtherStepEvolves(s: State, step: Step, id: string, c: Config)
    requires Enabled(s, step, c) && !step.Committed? && !step.Requested?
    requires id in Apply(s, step, c).requests
    ensures id in s.requests && Apply(s, step, c).requests[id] == s.requests[id]
  {
    hide DecisionOn, RequestFor, Evaluate, CommitOutcome, Gate.Admits, SignatureVerifies;
  }

  lemma CommitEvolves(s: State, t: Attempt, id: string, c: Config)
    requires Enabled(s, Committed(t), c) && Inv(s, c) && id in Apply(s, Committed(t), c).requests
    ensures id in s.requests && Evolves(s.requests[id], Apply(s, Committed(t), c).requests[id])
  {
    hide DecisionOn, RequestFor, ProperAttempt, Governed, Answered;
    assert ProperLive(t.envelope.approvalRequestId, s.requests[t.envelope.approvalRequestId], s.origins, s.resolved);
  }

  /**
   * While one incarnation of a request lives, its event, hash and decision id never change, its status
   * leaves pending at most once, and once resolved the record never changes again.
   */
  lemma {:induction false} StoredRequestIsStable(trace: seq<State>, c: Config, i: nat, j: nat, id: string)
    requires Sound(c.platform) && Run(trace, c) && i <= j < |trace|
    requires id in trace[i].requests && id in trace[j].requests
    requires trace[i].requests[id].incarnation == trace[j].requests[id].incarnation
    ensures Evolves(trace[i].requests[id], trace[j].requests[id])
  {
    hide Enabled, Apply, Inv;
    if i < j {
      var step := RunStep(trace, c, j);
      ReachableInv(trace, c, j - 1);
      ReachableInv(trace, c, i);
      StepEvolves(trace[j - 1], step, id, c);
      HistoryGrows(trace, c, i, j - 1);
      LiveHasOrigin(trace[i], id, c);
      StoredRequestIsStable(trace, c, i, j - 1, id);
    }
  }

  lemma {:induction false} PresentStays(trace: seq<State>, c: Config, i: nat, j: nat, id: string)
    requires Sound(c.platform) && Run(trace, c) && i <= j < |trace|
    requires forall m :: i <= m <= j ==> id in trace[m].requests
    ensures trace[j].requests[id].incarnation == trace[i].requests[id].incarnation
  {
    hide Enabled, Apply, Inv;
    if i < j {
      PresentStays(trace, c, i, j - 1, id);
      var step := RunStep(trace, c, j);
      ReachableInv(trace, c, j - 1);
      StepEvolves(trace[j - 1], step, id, c);
    }
  }

  lemma {:induction false} AbsentIsRenewed(trace: seq<State>, c: Config, m: nat, j: nat, id: string)
    requires Sound(c.platform) && Run(trace, c) && m <= j < |trace|
    requires id !in trace[m].requests && id in trace[j].requests
    ensures trace[j].requests[id].incarnation >= |trace[m].origins|
  {
    hide Enabled, Apply, Inv;
    if m < j {
      var step := RunStep(trace, c, j);
      ReachableInv(trace, c, j - 1);
      StepEvolves(trace[j - 1], step, id, c);
      HistoryGrows(trace, c, m, j - 1);
      if id in trace[j - 1].requests {
        AbsentIsRenewed(trace, c, m, j - 1, id);
      }
    }
  }

  /**
   * A request stored at two moments of a run is the same incarnation exactly when it was not deleted
   * in between. So an evaluated envelope resolves the request it was checked against exactly then.
   */
  lemma SameIncarnationExactly(trace: seq<State>, c: Config, i: nat, j: nat, id: string)
    requires Sound(c.platform) && Run(trace, c) && i <= j < |trace|
    requires id in trace[i].requests && id in trace[j].requests
    ensures trace[j].requests[id].incarnation == trace[i].requests[id].incarnation
       <==> forall m :: i <= m <= j ==> id in trace[m].requests
  {
    hide Run, Inv;
    if m :| i <= m <= j && id !in trace[m].requests {
      ReachableInv(trace, c, i);
      LiveHasOrigin(trace[i], id, c);
      HistoryGrows(trace, c, i, m);
      AbsentIsRenewed(trace, c, m, j, id);
    } else {
      PresentStays(trace, c, i, j, id);
    }
  }

  lemma LiveHasOrigin(s: State, id: string, c: Config)
    requires Inv(s, c) && id in s.requests
    ensures s.requests[id].incarnation < |s.origins|
    ensures s.requests[id].record.requestEvent == s.origins[s.requests[id].incarnation]
    ensures s.requests[id].record.requestHash == s.requests[id].record.requestEvent.requestHash
  {
    hide DecisionOn, RequestFor, ResolvedDecision, SignedPayload;
    assert ProperLive(id, s.requests[id], s.origins, s.resolved);
  }

  /**
   * The first write wins. A governance redelivery for a stored request is accepted only when it
   * computes the very same binding, hence at the same instant; at any other instant it is refused
   * and neither the record nor the announcement is repeated.
   */
  lemma RedeliveryAcceptedOnlyAtSameInstant(s: State, a: AnalyzedIncident, now: int, requestedAt: int, first: RequestEvent, firstAt: int, c: Config)
    requires Sound(c.platform) && Inv(s, c)
    requires RequestFor(a, now, requestedAt, c).approvalRequestId in s.requests
    requires first == s.requests[RequestFor(a, now, requestedAt, c).approvalRequestId].record.requestEvent
    requires c.platform.parse(first.createdAt) == Some(firstAt)
    ensures var again := RequestFor(a, now, requestedAt, c);
            && (PersistOutcome(Find(s, again.approvalRequestId), again).Ok? <==> again.binding == first.binding)
            && (PersistOutcome(Find(s, again.approvalRequestId), again).Ok? ==> requestedAt == firstAt)
  {
    hide DecisionOn, RequestFor, Sha256Hex, Inv;
    var again := RequestFor(a, now, requestedAt, c);
    LiveHasOrigin(s, again.approvalRequestId, c);
    RequestBinds(a, now, requestedAt, c);
    var k := s.requests[again.approvalRequestId].incarnation;
    var a', now', firstAt' := OriginRequest(s, k, c);
    RequestBinds(a', now', firstAt', c);
    Sha256HexInjective(c.platform, again.binding, first.binding);
    BindingDatesRequest(a, now, requestedAt, c);
    BindingDatesRequest(a', now', firstAt', c);
  }

  /**
   * A governance redelivery of an incident whose request is stored is accepted exactly when it reads
   * the clock, for the request's lifetime, at the very instant the stored request was made.
   */
  lemma RedeliveryAcceptedExactlyAtSameInstant(s: State, a: AnalyzedIncident, now: int, requestedAt: int, firstNow: int, firstAt: int, c: Config)
    requires Sound(c.platform) && Inv(s, c)
    requires RequestFor(a, now, requestedAt, c).approvalRequestId in s.requests
    requires s.requests[RequestFor(a, now, requestedAt, c).approvalRequestId].record.requestEvent == RequestFor(a, firstNow, firstAt, c)
    ensures var again := RequestFor(a, now, requestedAt, c);
            PersistOutcome(Find(s, again.approvalRequestId), again).Ok? <==> requestedAt == firstAt
  {
    hide DecisionOn, RequestFor, Sha256Hex, Inv;
    RequestBinds(a, firstNow, firstAt, c);
    RedeliveryAcceptedOnlyAtSameInstant(s, a, now, requestedAt, RequestFor(a, firstNow, firstAt, c), firstAt, c);
    if requestedAt == firstAt {
      BindingIgnoresDecisionTime(a, now, firstNow, firstAt, c);
    }
  }

  /**
   * The resolving transaction does not compare hashes. A stored request of the incident that an evaluated
   * envelope is about has the signed hash exactly when it was made at the instant of the evaluated one.
   */
  lemma SignedHashStoredExactly(s: State, t: Attempt, a: AnalyzedIncident, now: int, requestedAt: int, storedNow: int, storedAt: int, c: Config)
    requires Sound(c.platform) && Inv(s, c) && t in s.attempts
    requires t.request == RequestFor(a, now, requestedAt, c) && t.envelope.approvalRequestId in s.requests
    requires s.requests[t.envelope.approvalRequestId].record.requestEvent == RequestFor(a, storedNow, storedAt, c)
    ensures s.requests[t.envelope.approvalRequestId].record.requestHash == t.envelope.requestHash <==> requestedAt == storedAt
  {
    AttemptIsProper(s, t, c);
    hide Inv, RequestFor;
    RedeliveryAcceptedExactlyAtSameInstant(s, a, now, requestedAt, storedNow, storedAt, c);
  }

  lemma AttemptIsProper(s: State, t: Attempt, c: Config)
    requires Inv(s, c) && t in s.attempts
    ensures t.request.approvalRequestId == t.envelope.approvalRequestId && t.request.requestHash == t.envelope.requestHash
  {
    hide DecisionOn, RequestFor, ResolvedDecision, SignedPayload;
    assert ProperAttempt(t, s.origins, s.signed, c);
  }

  /** The decision's own clock reading is not bound, only the request's. */
  lemma BindingIgnoresDecisionTime(a: AnalyzedIncident, now: int, firstNow: int, requestedAt: int, c: Config)
    ensures RequestFor(a, now, requestedAt, c).binding == RequestFor(a, firstNow, requestedAt, c).binding
  {
    hide Decide, StableId, Sha256Hex;
  }

  lemma OriginRequest(s: State, k: nat, c: Config) returns (a: AnalyzedIncident, now: int, requestedAt: int)
    requires Inv(s, c) && k < |s.origins|
    ensures a in s.analyzed && s.origins[k] == RequestFor(a, now, requestedAt, c)
  {
    hide DecisionOn, RequestFor, ResolvedDecision, SignedPayload;
    assert ProperRequest(s.origins[k], s.analyzed, c);
    a, now, requestedAt :| a in s.analyzed && s.origins[k] == RequestFor(a, now, requestedAt, c) && DecisionOn(a, now, c).decision == RequireApproval;
  }

  lemma BindingDatesRequest(a: AnalyzedIncident, now: int, requestedAt: int, c: Config)
    requires Sound(c.platform)
    ensures "expires_at" in RequestFor(a, now, requestedAt, c).binding
    ensures c.platform.parse(RequestFor(a, now, requestedAt, c).binding["expires_at"]) == Some(requestedAt + c.gov.approvalTtl)
  {
    hide DecisionOn, Sha256Hex, StableId;
  }

  /** Whatever is announced for review has exactly the stored binding of its incarnation. */
  lemma AnnouncedIsStored(trace: seq<State>, c: Config, i: nat, k: nat, r: RequestEvent)
    requires Sound(c.platform) && Run(trace, c) && i < |trace| && (k, r) in trace[i].announced
    ensures k < |trace[i].origins| && r.binding == trace[i].origins[k].binding
  {
    hide DecisionOn, RequestFor, Sha256Hex, ResolvedDecision, SignedPayload;
    ReachableInv(trace, c, i);
    var s := trace[i];
    var a', now', firstAt := OriginRequest(s, k, c);
    RequestBinds(a', now', firstAt, c);
    assert ProperRequest(r, s.analyzed, c);
    var a, now, requestedAt :| a in s.analyzed && r == RequestFor(a, now, requestedAt, c) && DecisionOn(a, now, c).decision == RequireApproval;
    RequestBinds(a, now, requestedAt, c);
    Sha256HexInjective(c.platform, r.binding, s.origins[k].binding);
  }

  /** Committing this attempt offers the stored decision d for publication, and changes nothing else. */
  ghost predicate Reemits(s: State, t: Attempt, d: GovernanceDecision, c: Config) {
    && Enabled(s, Committed(t), c)
    && s.requests[t.envelope.approvalRequestId].record.resolvedDecision == Some(d)
    && Apply(s, Committed(t), c) == s.(outbox := s.outbox + {d})
  }

  /**
   * The resolving transaction on a resolved request: it is accepted exactly for the approval id that
   * resolved it, offers the stored decision for publication once more, and changes nothing else.
   */
  lemma ResolvedCommitRepeats(s: State, t: Attempt, d: GovernanceDecision, c: Config)
    requires t in s.attempts && t.envelope.approvalRequestId in s.requests
    requires ProperLive(t.envelope.approvalRequestId, s.requests[t.envelope.approvalRequestId], s.origins, s.resolved)
    requires s.requests[t.envelope.approvalRequestId].record.status != "pending"
    requires s.requests[t.envelope.approvalRequestId].record.resolvedDecision == Some(d)
    ensures Enabled(s, Committed(t), c) <==> s.requests[t.envelope.approvalRequestId].record.approvalId == t.envelope.approvalId
    ensures Enabled(s, Committed(t), c) ==> Reemits(s, t, d, c)
  {
    if Enabled(s, Committed(t), c) {
      ReplayChangesOutboxOnly(s, t, c);
    }
    hide Apply;
  }

  /** An envelope that passed evaluation once fails it later for its own expiry or its request's, and for nothing else. */
  lemma EvaluatedAgain(e: Envelope, r: ApprovalRecord, r': ApprovalRecord, checkedAt0: int, readAt0: int, decidedAt0: int,
                       checkedAt: int, readAt: int, decidedAt: int, cfg: ApprovalConfig, p: Platform)
    requires Evaluate(e, Some(r), checkedAt0, readAt0, decidedAt0, cfg, p).Ok? && checkedAt0 <= checkedAt
    requires r'.requestEvent == r.requestEvent && r'.requestHash == r.requestHash && r'.governanceDecisionId == r.governanceDecisionId
    ensures p.parse(e.expiresAt).Some? && p.parse(r.requestEvent.expiresAt).Some?
    ensures Evaluate(e, Some(r'), checkedAt, readAt, decidedAt, cfg, p).Ok?
       <==> checkedAt < p.parse(e.expiresAt).value && readAt < p.parse(r.requestEvent.expiresAt).value
  {
    hide ResolvedDecision, Strip;
  }

  predicate SameIncarnation(s: State, s': State, id: string) {
    id in s.requests && id in s'.requests && s.requests[id].incarnation == s'.requests[id].incarnation
  }

  /**
   * A redelivered envelope that was accepted once is accepted again, while its request is stored,
   * exactly as long as neither the envelope nor the request has expired.
   */
  lemma RedeliveryAcceptedExactly(trace: seq<State>, c: Config, i: nat, j: nat, e: Envelope, checkedAt0: int, readAt0: int, decidedAt0: int,
                                  checkedAt: int, readAt: int, decidedAt: int)
    requires Sound(c.platform) && Run(trace, c) && i <= j < |trace|
    requires Enabled(trace[i], Evaluated(e, checkedAt0, readAt0, decidedAt0), c) && checkedAt0 <= checkedAt
    requires SameIncarnation(trace[i], trace[j], e.approvalRequestId)
    ensures var request := trace[j].requests[e.approvalRequestId].record.requestEvent;
            && c.platform.parse(e.expiresAt).Some? && c.platform.parse(request.expiresAt).Some?
            && (Enabled(trace[j], Evaluated(e, checkedAt, readAt, decidedAt), c) <==>
                  checkedAt < c.platform.parse(e.expiresAt).value && readAt < c.platform.parse(request.expiresAt).value)
  {
    hide Run, Evaluate, Inv;
    var id := e.approvalRequestId;
    var before, now := trace[i].requests[id], trace[j].requests[id];
    StoredRequestIsStable(trace, c, i, j, id);
    HistoryGrows(trace, c, i, j);
    EvaluatedAgain(e, before.record, now.record, checkedAt0, readAt0, decidedAt0, checkedAt, readAt, decidedAt, c.approval, c.platform);
    SignaturesStay(trace[i], trace[j], e, c);
  }

  lemma SignaturesStay(s: State, s': State, e: Envelope, c: Config)
    requires s.signed <= s'.signed && SignatureVerifies(s, e, c)
    ensures SignatureVerifies(s', e, c)
  {
    var payload :| payload in s.signed && c.platform.sha256(Canonical(payload, Raw)) == c.platform.sha256(SignedText(e));
    assert payload in s'.signed;
  }

  /** The attempt an evaluation step leaves behind. */
  function AttemptOf(s: State, e: Envelope, checkedAt: int, readAt: int, decidedAt: int, c: Config): Attempt
    requires e.approvalRequestId in s.requests
    requires Evaluate(e, Some(s.requests[e.approvalRequestId].record), checkedAt, readAt, decidedAt, c.approval, c.platform).Ok?
  {
    var live := s.requests[e.approvalRequestId];
    Attempt(e, live.incarnation, live.record.requestEvent,
            Evaluate(e, Some(live.record), checkedAt, readAt, decidedAt, c.approval, c.platform).value, decidedAt)
  }

  /**
   * A resolution whose publication was lost is repeated unchanged: when the envelope of the attempt that
   * resolved a request is delivered again before envelope and request expire, it is accepted, and its
   * transaction then offers that attempt's decision for publication, whatever this delivery itself
   * computed. From the earlier of the two expiries on it is refused, and the lost decision stays lost.
   */
  lemma RedeliveryReemitsStored(trace: seq<State>, c: Config, i: nat, m: nat, j: nat, resolving: Attempt, e: Envelope,
                                checkedAt0: int, readAt0: int, decidedAt0: int, checkedAt: int, readAt: int, decidedAt: int)
    requires Sound(c.platform) && Run(trace, c) && i <= j && m < j < |trace| && e == resolving.envelope
    requires Enabled(trace[i], Evaluated(e, checkedAt0, readAt0, decidedAt0), c) && checkedAt0 <= checkedAt
    requires Resolving(trace[m], trace[m + 1], resolving, c)
    requires SameIncarnation(trace[i], trace[j], e.approvalRequestId) && SameIncarnation(trace[m], trace[j], e.approvalRequestId)
    ensures var s, record := trace[j], trace[j].requests[e.approvalRequestId].record;
            var again := Evaluated(e, checkedAt, readAt, decidedAt);
            && record.resolvedDecision == Some(resolving.result)
            && record.status == (if e.decision == APPROVE then "approved" else "denied")
            && c.platform.parse(e.expiresAt).Some? && c.platform.parse(record.requestEvent.expiresAt).Some?
            && (Enabled(s, again, c) <==>
                  checkedAt < c.platform.parse(e.expiresAt).value && readAt < c.platform.parse(record.requestEvent.expiresAt).value)
            && (Enabled(s, again, c) ==> LeadsToReemission(s, e, checkedAt, readAt, decidedAt, resolving.result, c))
  {
    hide Run, Inv, Apply, ProperLive, Reemits, AttemptOf, Evaluate, SignatureVerifies, Gate.Admits;
    RedeliveryAcceptedExactly(trace, c, i, j, e, checkedAt0, readAt0, decidedAt0, checkedAt, readAt, decidedAt);
    ResolutionIsKept(trace, c, m, j, resolving);
    ReachableInv(trace, c, j);
    ResolvedHasDecision(trace[j], e.approvalRequestId, c);
    if Enabled(trace[j], Evaluated(e, checkedAt, readAt, decidedAt), c) {
      AcceptedReemits(trace[j], AttemptOf(trace[j], e, checkedAt, readAt, decidedAt, c), e, checkedAt, readAt, decidedAt, resolving.result, c);
    }
  }

  /** What the resolving transaction stored is what is stored as long as the incarnation lives. */
  lemma ResolutionIsKept(trace: seq<State>, c: Config, m: nat, j: nat, t: Attempt)
    requires Sound(c.platform) && Run(trace, c) && m < j < |trace|
    requires Resolving(trace[m], trace[m + 1], t, c)
    requires SameIncarnation(trace[m], trace[j], t.envelope.approvalRequestId)
    ensures ResolvedBy(trace[j].requests[t.envelope.approvalRequestId].record, t)
  {
    hide Run, Inv;
    CommittedStep(trace[m], t, c);
    hide Enabled, Apply;
    StoredRequestIsStable(trace, c, m + 1, j, t.envelope.approvalRequestId);
  }

  /** This step is the transaction of an attempt that resolves its pending request. */
  ghost predicate Resolving(s: State, s': State, t: Attempt, c: Config) {
    && Enabled(s, Committed(t), c) && s' == Apply(s, Committed(t), c)
    && s.requests[t.envelope.approvalRequestId].record.status == "pending"
  }

  /** Evaluating this envelope adds an attempt, and that attempt's transaction offers d again. */
  ghost predicate LeadsToReemission(s: State, e: Envelope, checkedAt: int, readAt: int, decidedAt: int, d: GovernanceDecision, c: Config)
    requires Enabled(s, Evaluated(e, checkedAt, readAt, decidedAt), c)
  {
    var t := AttemptOf(s, e, checkedAt, readAt, decidedAt, c);
    && Apply(s, Evaluated(e, checkedAt, readAt, decidedAt), c) == s.(attempts := s.attempts + {t})
    && t.envelope == e && Reemits(s.(attempts := s.attempts + {t}), t, d, c)
  }

  predicate ResolvedBy(r: ApprovalRecord, t: Attempt) {
    && r.status == (if t.envelope.decision == APPROVE then "approved" else "denied")
    && r.approvalId == t.envelope.approvalId && r.resolvedDecision == Some(t.result)
  }

  lemma AcceptedReemits(s: State, t: Attempt, e: Envelope, checkedAt: int, readAt: int, decidedAt: int, d: GovernanceDecision, c: Config)
    requires Enabled(s, Evaluated(e, checkedAt, readAt, decidedAt), c)
    requires ProperLive(e.approvalRequestId, s.requests[e.approvalRequestId], s.origins, s.resolved)
    requires t == AttemptOf(s, e, checkedAt, readAt, decidedAt, c)
    requires var r := s.requests[e.approvalRequestId].record;
             r.status != "pending" && r.approvalId == e.approvalId && r.resolvedDecision == Some(d)
    ensures LeadsToReemission(s, e, checkedAt, readAt, decidedAt, d, c)
  {
    EvaluationAddsAttempt(s, e, checkedAt, readAt, decidedAt, c);
    hide Enabled, Apply, AttemptOf, Evaluate, Reemits, ProperLive;
    ResolvedCommitRepeats(s.(attempts := s.attempts + {t}), t, d, c);
  }

  lemma EvaluationAddsAttempt(s: State, e: Envelope, checkedAt: int, readAt: int, decidedAt: int, c: Config)
    requires Enabled(s, Evaluated(e, checkedAt, readAt, decidedAt), c)
    ensures Apply(s, Evaluated(e, checkedAt, readAt, decidedAt), c)
         == s.(attempts := s.attempts + {AttemptOf(s, e, checkedAt, readAt, decidedAt, c)})
    ensures AttemptOf(s, e, checkedAt, readAt, decidedAt, c).envelope == e
  {
    hide Evaluate, SignatureVerifies;
  }

  lemma ResolvedHasDecision(s: State, id: string, c: Config)
    requires Inv(s, c) && id in s.requests && s.requests[id].record.status != "pending"
    ensures s.requests[id].record.resolvedDecision.Some? && ProperLive(id, s.requests[id], s.origins, s.resolved)
  {
    hide DecisionOn, RequestFor, ResolvedDecision, SignedPayload;
    assert ProperLive(id, s.requests[id], s.origins, s.resolved);
  }

  /** Reviewers are shown a request only by the step that stores or repeats it, and never once it has an answer. */
  lemma AnnouncedOnlyUnanswered(s: State, step: Step, k: nat, r: RequestEvent, c: Config)
    requires Inv(s, c) && Enabled(s, step, c)
    requires (k, r) in Apply(s, step, c).announced && (k, r) !in s.announced
    ensures step.Requested? && step.delivered && r == RequestFor(step.a, step.now, step.requestedAt, c)
    ensures forall d :: (k, d) !in s.resolved
  {
    hide DecisionOn, RequestFor, ProperAttempt, ProperRequest, Governed, Evaluate, CommitOutcome, SignatureVerifies, Gate.Admits;
    if step.Requested? {
      var id := RequestFor(step.a, step.now, step.requestedAt, c).approvalRequestId;
      if id in s.requests {
        assert ProperLive(id, s.requests[id], s.origins, s.resolved);
      }
    }
  }

  // ---------------------------------------------------------------- reviewers are asked first

  ghost predicate HasAnswer(s: State, k: nat) {
    exists d :: (k, d) in s.resolved
  }

  /**
   * What an accepted request does. Unless its stored request has an answer, reviewers must be shown it
   * before its decision goes out; when that publication fails, nothing goes out. Once it has an answer,
   * reviewers are not asked again and the decision goes out at once.
   */
  lemma RequestShownFirst(s: State, a: AnalyzedIncident, now: int, requestedAt: int, delivered: bool, c: Config)
    requires Inv(s, c) && Enabled(s, Requested(a, now, requestedAt, delivered), c)
    ensures var r := RequestFor(a, now, requestedAt, c);
            var after := Apply(s, Requested(a, now, requestedAt, delivered), c);
            && r.approvalRequestId in after.requests
            && var k := after.requests[r.approvalRequestId].incarnation;
            if HasAnswer(s, k) then after.announced == s.announced && after.outbox == s.outbox + {r.governanceDecision}
            else if delivered then after.announced == s.announced + {(k, r)} && after.outbox == s.outbox + {r.governanceDecision}
            else after.announced == s.announced && after.outbox == s.outbox
  {
    hide DecisionOn, RequestFor, ProperAttempt, ProperRequest, Governed, Gate.Admits, PersistOutcome;
    var id := RequestFor(a, now, requestedAt, c).approvalRequestId;
    if id in s.requests {
      assert ProperLive(id, s.requests[id], s.origins, s.resolved);
    } else {
      assert forall d :: (|s.origins|, d) !in s.resolved;
    }
  }

  /** Incarnation k asked for approval of this decision, and was shown to reviewers with it or has an answer. */
  ghost predicate AskedAs(k: nat, d: GovernanceDecision, s: State, c: Config) {
    && k < |s.origins| && s.origins[k].approvalRequestId == StableId(c.platform, "approval-request", [d.governanceDecisionId])
    && (HasAnswer(s, k) || exists r :: (k, r) in s.announced && r.governanceDecision == d)
  }

  ghost predicate Asked(d: GovernanceDecision, s: State, c: Config) {
    exists k :: AskedAs(k, d, s, c)
  }

  lemma StaysAsked(d: GovernanceDecision, s: State, s': State, c: Config)
    requires Grows(s, s') && Asked(d, s, c)
    ensures Asked(d, s', c)
  {
    hide StableId;
    var k: nat :| AskedAs(k, d, s, c);
    assert s.origins[k] == s'.origins[k];
    if HasAnswer(s, k) {
      var d' :| (k, d') in s.resolved;
      assert (k, d') in s'.resolved;
    } else {
      var r :| (k, r) in s.announced && r.governanceDecision == d;
      assert (k, r) in s'.announced;
    }
    assert AskedAs(k, d, s', c);
  }

  /** An answer permits or denies. */
  lemma AnswersDecide(s: State, k: nat, d: GovernanceDecision, c: Config)
    requires Inv(s, c) && (k, d) in s.resolved
    ensures d.decision != RequireApproval
  {
    hide DecisionOn, RequestFor, ProperRequest, ProperLive, SignedPayload, StableId;
    assert ResultOfAttempt(d, s.origins[k].approvalRequestId, s.attempts);
    var t :| t in s.attempts && t.result == d && t.envelope.approvalRequestId == s.origins[k].approvalRequestId;
    assert ProperAttempt(t, s.origins, s.signed, c);
  }

  lemma OutputComesFrom(s: State, step: Step, d: GovernanceDecision, c: Config)
    requires Enabled(s, step, c) && d in Apply(s, step, c).outbox && d !in s.outbox
    ensures step.Requested? || step.Decided? || step.Committed?
    ensures step.Requested? ==> d == RequestFor(step.a, step.now, step.requestedAt, c).governanceDecision
    ensures step.Decided? ==> d.decision != RequireApproval
    ensures step.Committed? ==> exists k :: (k, d) in Apply(s, step, c).resolved
  {
    hide DecisionOn, RequestFor, Evaluate, CommitOutcome, SignatureVerifies, Gate.Admits, PersistOutcome;
    if step.Committed? {
      assert (s.requests[step.t.envelope.approvalRequestId].incarnation, d) in Apply(s, step, c).resolved;
    }
  }

  lemma RequestIdOfDecision(a: AnalyzedIncident, now: int, requestedAt: int, c: Config)
    ensures var r := RequestFor(a, now, requestedAt, c);
            r.approvalRequestId == StableId(c.platform, "approval-request", [r.governanceDecision.governanceDecisionId])
  {
    hide DecisionOn, Sha256Hex, StableId;
  }

  lemma RequestedIsAsked(s: State, a: AnalyzedIncident, now: int, requestedAt: int, delivered: bool, c: Config)
    requires Inv(s, c) && Enabled(s, Requested(a, now, requestedAt, delivered), c)
    requires Inv(Apply(s, Requested(a, now, requestedAt, delivered), c), c)
    ensures var r, after := RequestFor(a, now, requestedAt, c), Apply(s, Requested(a, now, requestedAt, delivered), c);
            r.governanceDecision in after.outbox && r.governanceDecision !in s.outbox ==> Asked(r.governanceDecision, after, c)
  {
    var r, after := RequestFor(a, now, requestedAt, c), Apply(s, Requested(a, now, requestedAt, delivered), c);
    RequestShownFirst(s, a, now, requestedAt, delivered, c);
    StepGrows(s, Requested(a, now, requestedAt, delivered), c);
    RequestIdOfDecision(a, now, requestedAt, c);
    LiveIsItsOrigin(after, r.approvalRequestId, c);
    hide Inv, Enabled, Apply, RequestFor, StableId;
    var k := after.requests[r.approvalRequestId].incarnation;
    if r.governanceDecision in after.outbox && r.governanceDecision !in s.outbox {
      if HasAnswer(s, k) {
        var d :| (k, d) in s.resolved;
        assert (k, d) in after.resolved;
      } else {
        assert (k, r) in after.announced;
      }
      assert AskedAs(k, r.governanceDecision, after, c);
    }
  }

  lemma LiveIsItsOrigin(s: State, id: string, c: Config)
    requires Inv(s, c) && id in s.requests
    ensures s.requests[id].incarnation < |s.origins| && s.origins[s.requests[id].incarnation].approvalRequestId == id
  {
    hide DecisionOn, RequestFor, ResolvedDecision, SignedPayload;
    assert ProperLive(id, s.requests[id], s.origins, s.resolved);
  }

  /**
   * In every run, no decision that requires approval goes out before reviewers could be asked: an
   * incarnation of its own request was published for review with it, or has an answer already.
   */
  lemma {:induction false} AskedBeforePublished(trace: seq<State>, c: Config, i: nat, d: GovernanceDecision)
    requires Sound(c.platform) && Run(trace, c) && i < |trace|
    requires d in trace[i].outbox && d.decision == RequireApproval
    ensures Asked(d, trace[i], c)
  {
    hide Inv, Enabled, Apply, Asked;
    if i > 0 {
      var step := RunStep(trace, c, i);
      if d in trace[i - 1].outbox {
        AskedBeforePublished(trace, c, i - 1, d);
        StepGrows(trace[i - 1], step, c);
        StaysAsked(d, trace[i - 1], trace[i], c);
      } else {
        ReachableInv(trace, c, i - 1);
        ReachableInv(trace, c, i);
        OutputComesFrom(trace[i - 1], step, d, c);
        if step.Committed? {
          var k :| (k, d) in trace[i].resolved;
          AnswersDecide(trace[i], k, d, c);
        } else if step.Requested? {
          RequestedIsAsked(trace[i - 1], step.a, step.now, step.requestedAt, step.delivered, c);
        }
      }
    }
  }

  // ---------------------------------------------------------------- a request made again

  lemma DeletedStep(s: State, id: string, c: Config)
    requires id in s.requests
    ensures Enabled(s, Deleted(id), c) && Apply(s, Deleted(id), c) == s.(requests := s.requests - {id})
  {
  }

  lemma RequestedStep(s: State, a: AnalyzedIncident, now: int, requestedAt: int, c: Config)
    requires a in s.analyzed && DecisionOn(a, now, c).decision == RequireApproval
    requires RequestFor(a, now, requestedAt, c).approvalRequestId !in s.requests
    ensures Enabled(s, Requested(a, now, requestedAt, true), c)
    ensures var request, s' := RequestFor(a, now, requestedAt, c), Apply(s, Requested(a, now, requestedAt, true), c);
            && s'.requests == s.requests[request.approvalRequestId := Live(|s.origins|, PendingRecord(request))]
            && s'.attempts == s.attempts
  {
    hide DecisionOn, RequestFor;
  }

  lemma CommittedStep(s: State, t: Attempt, c: Config)
    requires t in s.attempts && t.envelope.approvalRequestId in s.requests
    requires s.requests[t.envelope.approvalRequestId].record.status == "pending"
    ensures Enabled(s, Committed(t), c)
    ensures var before, after := s.requests[t.envelope.approvalRequestId], Apply(s, Committed(t), c).requests;
            && t.envelope.approvalRequestId in after
            && after[t.envelope.approvalRequestId].incarnation == before.incarnation
            && after[t.envelope.approvalRequestId].record.requestHash == before.record.requestHash
            && ResolvedBy(after[t.envelope.approvalRequestId].record, t)
  {
  }

  /** The transaction that resolves a pending request offers its decision for publication, and answers no other request. */
  lemma ResolutionGoesOut(s: State, t: Attempt, c: Config)
    requires t in s.attempts && t.envelope.approvalRequestId in s.requests
    requires s.requests[t.envelope.approvalRequestId].record.status == "pending"
    ensures Enabled(s, Committed(t), c)
    ensures var id := t.envelope.approvalRequestId;
            var after := Apply(s, Committed(t), c);
            && after.outbox == s.outbox + {t.result}
            && after.resolved == s.resolved + {(s.requests[id].incarnation, t.result)}
            && id in after.requests && ResolvedBy(after.requests[id].record, t)
            && after.requests - {id} == s.requests - {id}
            && after == s.(requests := after.requests, resolved := after.resolved, outbox := after.outbox)
  {
  }

  /**
   * An evaluated envelope resolves a request it was not signed for: between its evaluation and its
   * transaction the request is deleted and, at another instant, made again; the new incarnation has
   * another hash and is resolved all the same.
   */
  lemma RenewedRequestIsResolved(s: State, t: Attempt, a: AnalyzedIncident, now: int, requestedAt: int, again: int, againAt: int, c: Config)
    returns (s1: State, s2: State, s3: State)
    requires Sound(c.platform) && Inv(s, c) && t in s.attempts && t.envelope.approvalRequestId in s.requests && a in s.analyzed
    requires t.request == RequestFor(a, now, requestedAt, c) && againAt != requestedAt
    requires DecisionOn(a, again, c).decision == RequireApproval
    ensures var id := t.envelope.approvalRequestId;
            && Enabled(s, Deleted(id), c) && s1 == Apply(s, Deleted(id), c)
            && Enabled(s1, Requested(a, again, againAt, true), c) && s2 == Apply(s1, Requested(a, again, againAt, true), c)
            && Enabled(s2, Committed(t), c) && s3 == Apply(s2, Committed(t), c)
            && id in s3.requests && s3.requests[id].incarnation == |s.origins|
            && s3.requests[id].record.requestHash != t.envelope.requestHash
            && s3.requests[id].record.resolvedDecision == Some(t.result)
  {
    var id := t.envelope.approvalRequestId;
    hide DecisionOn, RequestFor, Enabled, Apply;
    AttemptIsProper(s, t, c);
    hide Inv;
    SameIncidentSameRequest(a, now, requestedAt, again, againAt, c);
    DeletedStep(s, id, c);
    s1 := Apply(s, Deleted(id), c);
    RequestedStep(s1, a, again, againAt, c);
    s2 := Apply(s1, Requested(a, again, againAt, true), c);
    CommittedStep(s2, t, c);
    s3 := Apply(s2, Committed(t), c);
    OtherInstantOtherHash(a, now, requestedAt, again, againAt, c);
  }

  lemma SameIncidentSameRequest(a: AnalyzedIncident, now: int, requestedAt: int, again: int, againAt: int, c: Config)
    ensures RequestFor(a, again, againAt, c).approvalRequestId == RequestFor(a, now, requestedAt, c).approvalRequestId
  {
    hide Decide, StableId, Sha256Hex;
  }

  lemma OtherInstantOtherHash(a: AnalyzedIncident, now: int, requestedAt: int, again: int, againAt: int, c: Config)
    requires Sound(c.platform) && againAt != requestedAt
    ensures RequestFor(a, again, againAt, c).requestHash != RequestFor(a, now, requestedAt, c).requestHash
  {
    hide DecisionOn, RequestFor, Sha256Hex;
    RequestBinds(a, now, requestedAt, c);
    RequestBinds(a, again, againAt, c);
    BindingDatesRequest(a, now, requestedAt, c);
    BindingDatesRequest(a, again, againAt, c);
    Sha256HexInjective(c.platform, RequestFor(a, now, requestedAt, c).binding, RequestFor(a, again, againAt, c).binding);
  }
}
