/**
 * The approval agent: checking a signed envelope against the stored request, building the resolved
 * decision, and the transaction that resolves a request once. Also the review script that signs.
 */
module ApprovalAgent {
  import opened Prelude
  import opened Identifiers
  import opened RemediationPolicy
  import opened GovernanceModels
  import opened GovernanceAgent
  import opened ExecutorGate

  datatype ApprovalConfig = ApprovalConfig(keyVersion: string, clockSkew: int, permitTtl: int)

  // ---------------------------------------------------------------- str.strip()

  predicate IsWhitespace(c: char) {
    var n := c as int;
    || 0x09 <= n <= 0x0D || 0x1C <= n <= 0x20 || n == 0x85 || n == 0xA0 || n == 0x1680
    || 0x2000 <= n <= 0x200A || n == 0x2028 || n == 0x2029 || n == 0x202F || n == 0x205F || n == 0x3000
  }

  /** The 29 white-space characters of Unicode, one by one. */
  lemma WhitespaceListed(c: char)
    ensures IsWhitespace(c) <==> c as int in {
      9, 10, 11, 12, 13, 28, 29, 30, 31, 32, 133, 160, 5760,
      8192, 8193, 8194, 8195, 8196, 8197, 8198, 8199, 8200, 8201, 8202, 8232, 8233, 8239, 8287, 12288}
  {
  }

  function StripLeft(s: string): string {
    if s != "" && IsWhitespace(s[0]) then StripLeft(s[1..]) else s
  }

  function StripRight(s: string): string {
    if s != "" && IsWhitespace(s[|s| - 1]) then StripRight(s[..|s| - 1]) else s
  }

  function Strip(s: string): string {
    StripRight(StripLeft(s))
  }

  lemma StripNotLonger(s: string)
    ensures |Strip(s)| <= |s|
  {
    LeftNotLonger(s);
    RightNotLonger(StripLeft(s));
  }

  lemma {:induction false} LeftNotLonger(s: string)
    ensures |StripLeft(s)| <= |s|
  {
    if s != "" { LeftNotLonger(s[1..]); }
  }

  lemma {:induction false} RightNotLonger(s: string)
    ensures |StripRight(s)| <= |s|
  {
    if s != "" { RightNotLonger(s[..|s| - 1]); }
  }

  // ---------------------------------------------------------------- checks on the envelope

  /** validate_time_window; on success the parsed issue and expiry instants. */
  function ValidateTimeWindow(e: Envelope, now: int, cfg: ApprovalConfig, p: Platform): Result<(int, int)> {
    match (p.parse(e.issuedAt), p.parse(e.expiresAt))
    case (Some(issued), Some(expires)) =>
      if issued > now + cfg.clockSkew then Err("approval issued_at is too far in the future")
      else if expires <= now then Err("approval has expired")
      else if expires <= issued then Err("approval expires_at must be after issued_at")
      else if Strip(e.reviewer) == "" then Err("approval reviewer is required")
      else if |Strip(e.reason)| < 10 then Err("approval reason must contain at least 10 characters")
      else Ok((issued, expires))
    case _ => Err("invalid isoformat string")
  }

  /** The decision that a checked envelope turns the original request for approval into. */
  function ResolvedDecision(original: GovernanceDecision, e: Envelope, expires: int, now: int, cfg: ApprovalConfig, p: Platform): GovernanceDecision {
    var approved := e.decision == APPROVE;
    var verdict := if approved then Permit else Deny;
    var note := (if approved then "human approval by " else "human denial by ") + e.reviewer + ": " + e.reason;
    original.(
      governanceDecisionId := StableId(p, "governance-decision", [original.governanceDecisionId, e.approvalId, VerdictName(verdict)]),
      decidedAt := p.format(now),
      expiresAt := p.format(Min(expires, now + cfg.permitTtl)),
      decisionSource := KmsHumanApproval,
      decision := verdict,
      policy := original.policy.(decision := verdict, approved := approved, reasons := original.policy.reasons + [note]),
      approval := ApprovalMetadata(
        e.approvalId, e.approvalRequestId, approved, e.reviewer, e.reason, e.issuedAt, e.expiresAt, e.keyVersion, true))
  }

  /**
   * Everything before the resolving transaction, for an envelope whose signature verified: the time
   * window read at checkedAt, the stored request read at readAt, the decision dated decidedAt.
   */
  function Evaluate(e: Envelope, found: Option<ApprovalRecord>, checkedAt: int, readAt: int, decidedAt: int,
                    cfg: ApprovalConfig, p: Platform): Result<GovernanceDecision>
  {
    match ValidateTimeWindow(e, checkedAt, cfg, p)
    case Err(error) => Err(error)
    case Ok((_, expires)) =>
      if e.keyVersion != cfg.keyVersion then Err("approval was signed by an unexpected KMS key version")
      else
        match found
        case None => Err("approval request does not exist")
        case Some(r) =>
          if r.requestHash != e.requestHash then Err("approval request hash does not match Firestore state")
          else if r.governanceDecisionId != e.governanceDecisionId then Err("approval is not bound to the expected governance decision")
          else
            match p.parse(r.requestEvent.expiresAt)
            case None => Err("invalid isoformat string")
            case Some(requestExpiry) =>
              if requestExpiry <= readAt then Err("approval request has expired")
              else if expires > requestExpiry then Err("approval validity exceeds the original request expiry")
              else Ok(ResolvedDecision(r.requestEvent.governanceDecision, e, expires, decidedAt, cfg, p))
  }

  // ---------------------------------------------------------------- the resolving transaction

  datatype Resolution = Resolution(record: ApprovalRecord, emitted: GovernanceDecision, first: bool)

  /** The transaction's answer for the document it finds, given the result computed before it. */
  function CommitOutcome(found: Option<ApprovalRecord>, e: Envelope, result: GovernanceDecision): Result<Resolution> {
    match found
    case None => Err("approval request disappeared during evaluation")
    case Some(r) =>
      if r.status == "approved" || r.status == "denied" then
        if r.approvalId != e.approvalId then Err("approval request was already resolved by another decision")
        else
          match r.resolvedDecision
          case None => Err("resolved approval is missing its stored decision")
          case Some(stored) => Ok(Resolution(r, stored, false))
      else if r.status != "pending" then Err("approval request cannot be resolved from status")
      else
        Ok(Resolution(
          r.(status := if e.decision == APPROVE then "approved" else "denied",
             approvalId := e.approvalId, resolvedDecision := Some(result)),
          result, true))
  }

  /** The approval collection, as the two agents write it. */
  class ApprovalCollection {
    var records: map<string, ApprovalRecord>

    function Find(id: string): Option<ApprovalRecord>
      reads this
    {
      if id in records then Some(records[id]) else None
    }

    constructor ()
      ensures records == map[]
    {
      records := map[];
    }

    /** persist_approval_request: created at most once, refused when the hash differs. */
    method PersistApprovalRequest(e: RequestEvent) returns (r: Result<string>)
      modifies this
      ensures r == PersistOutcome(old(Find(e.approvalRequestId)), e)
      ensures e.approvalRequestId !in old(records) ==>
        && r == Ok("created")
        && records == old(records)[e.approvalRequestId := ApprovalRecord("pending", e.governanceDecisionId, e.requestHash, e, "", None)]
      ensures e.approvalRequestId in old(records) ==>
        && records == old(records)
        && (r.Ok? <==> old(records)[e.approvalRequestId].requestHash == e.requestHash)
        && (r.Ok? ==> r.value == old(records)[e.approvalRequestId].status)
    {
      if e.approvalRequestId in records {
        var existing := records[e.approvalRequestId];
        if existing.requestHash != e.requestHash {
          return Err("approval request ID collision detected");
        }
        return Ok(existing.status);
      }
      records := records[e.approvalRequestId := PendingRecord(e)];
      return Ok("created");
    }

    /** commit_resolution: a pending request is resolved, a resolved one answers its own approval again. */
    method CommitResolution(e: Envelope, result: GovernanceDecision) returns (r: Result<Resolution>)
      modifies this
      ensures r == CommitOutcome(old(Find(e.approvalRequestId)), e, result)
      ensures e.approvalRequestId !in old(records) ==> r.Err? && records == old(records)
      // a pending request takes the verdict, the approval id and the decision, and keeps the rest
      ensures e.approvalRequestId in old(records) && old(records)[e.approvalRequestId].status == "pending" ==>
        var before := old(records)[e.approvalRequestId];
        && r.Ok? && r.value.first && r.value.emitted == result
        && records == old(records)[e.approvalRequestId := ApprovalRecord(
             if e.decision == APPROVE then "approved" else "denied",
             before.governanceDecisionId, before.requestHash, before.requestEvent, e.approvalId, Some(result))]
      // any other request is left alone; a resolved one answers its own approval with what it stored
      ensures e.approvalRequestId in old(records) && old(records)[e.approvalRequestId].status != "pending" ==>
        var before := old(records)[e.approvalRequestId];
        && records == old(records)
        && (r.Ok? <==> before.status in {"approved", "denied"} && before.approvalId == e.approvalId && before.resolvedDecision.Some?)
        && (r.Ok? ==> !r.value.first && before.resolvedDecision == Some(r.value.emitted))
    {
      if e.approvalRequestId !in records {
        return Err("approval request disappeared during evaluation");
      }
      var data := records[e.approvalRequestId];
      if data.status == "approved" || data.status == "denied" {
        if data.approvalId != e.approvalId {
          return Err("approval request was already resolved by another decision");
        }
        match data.resolvedDecision {
          case None => return Err("resolved approval is missing its stored decision");
          case Some(stored) =>
            return Ok(Resolution(data, stored, false));
        }
      }
      if data.status != "pending" {
        return Err("approval request cannot be resolved from status");
      }
      var resolved := data.(status := if e.decision == APPROVE then "approved" else "denied",
                            approvalId := e.approvalId, resolvedDecision := Some(result));
      records := records[e.approvalRequestId := resolved];
      return Ok(Resolution(resolved, result, true));
    }
  }

  // ---------------------------------------------------------------- properties of one resolution

  /**
   * The expiry chain. A resolved decision expires no later than its envelope, the request it answers
   * and its own decision time plus the permit lifetime; and when the request came from the governance
   * agent, no later than the request's creation plus the approval lifetime.
   */
  lemma ExpiryChain(e: Envelope, r: ApprovalRecord, checkedAt: int, readAt: int, decidedAt: int, cfg: ApprovalConfig, p: Platform)
    returns (expiry: int, envelopeExpiry: int, requestExpiry: int)
    requires Sound(p)
    requires Evaluate(e, Some(r), checkedAt, readAt, decidedAt, cfg, p).Ok?
    ensures p.parse(Evaluate(e, Some(r), checkedAt, readAt, decidedAt, cfg, p).value.expiresAt) == Some(expiry)
    ensures p.parse(e.expiresAt) == Some(envelopeExpiry) && p.parse(r.requestEvent.expiresAt) == Some(requestExpiry)
    ensures expiry <= envelopeExpiry <= requestExpiry
    ensures expiry <= decidedAt + cfg.permitTtl
    ensures checkedAt < envelopeExpiry && readAt < requestExpiry
    ensures forall d, created, gov :: r.requestEvent == CreateRequestEvent(d, created, gov, p) ==> expiry <= created + gov.approvalTtl
  {
    envelopeExpiry := p.parse(e.expiresAt).value;
    requestExpiry := p.parse(r.requestEvent.expiresAt).value;
    expiry := Min(envelopeExpiry, decidedAt + cfg.permitTtl);
  }

  /**
   * Under matching configurations the gate admits a human decision on a request for approval exactly
   * when the reviewer approved, execution is controlled or approval-only, and it has not expired.
   */
  lemma HumanDecisionAdmitted(a: AnalyzedIncident, analyzedAt: int, e: Envelope, r: ApprovalRecord,
                              checkedAt: int, readAt: int, decidedAt: int, now: int,
                              gov: GovernanceConfig, cfg: ApprovalConfig, exec: ExecutorConfig, p: Platform)
    requires Sound(p) && Matches(gov, exec) && cfg.keyVersion != ""
    requires Decide(BuildPolicyInput(a, gov)).decision == RequireApproval
    requires r.requestEvent.governanceDecision == Govern(a, analyzedAt, gov, p)
    requires Evaluate(e, Some(r), checkedAt, readAt, decidedAt, cfg, p).Ok?
    ensures var d := Evaluate(e, Some(r), checkedAt, readAt, decidedAt, cfg, p).value;
            && p.parse(d.expiresAt).Some?
            && (Admits(d, now, exec, p) <==>
                  && e.decision == APPROVE
                  && exec.executionMode in {"controlled", "approval-only"}
                  && now < p.parse(d.expiresAt).value)
  {
    var expires := EvaluatedDecision(e, r, checkedAt, readAt, decidedAt, cfg, p);
    GovernedRestartHolds(a, analyzedAt, gov, p);
    ResolvedDecisionAdmitted(Govern(a, analyzedAt, gov, p), e, expires, decidedAt, now, gov, cfg, exec, p);
  }

  /** What success of Evaluate says about its inputs and its result. */
  lemma EvaluatedDecision(e: Envelope, r: ApprovalRecord, checkedAt: int, readAt: int, decidedAt: int, cfg: ApprovalConfig, p: Platform)
    returns (expires: int)
    requires Evaluate(e, Some(r), checkedAt, readAt, decidedAt, cfg, p).Ok?
    ensures p.parse(e.expiresAt) == Some(expires)
    ensures Evaluate(e, Some(r), checkedAt, readAt, decidedAt, cfg, p).value
         == ResolvedDecision(r.requestEvent.governanceDecision, e, expires, decidedAt, cfg, p)
    ensures r.requestHash == e.requestHash && r.governanceDecisionId == e.governanceDecisionId
    ensures e.keyVersion == cfg.keyVersion && e.reviewer != ""
  {
    expires := p.parse(e.expiresAt).value;
    StripNotLonger(e.reviewer);
  }

  /** A governed restart that needs approval names an allowlisted target and the agent's own policy. */
  predicate GovernedRestart(d: GovernanceDecision, gov: GovernanceConfig) {
    var action := d.analysis.recommendedAction;
    && d.policy.policyId == gov.policyId && d.policy.policySha256 == gov.policySha256
    && action.action == "restart_deployment"
    && action.targetNamespace in gov.allowedNamespaces
    && action.targetDeployment in gov.allowedDeployments
  }

  lemma GovernedRestartHolds(a: AnalyzedIncident, now: int, gov: GovernanceConfig, p: Platform)
    requires Decide(BuildPolicyInput(a, gov)).decision == RequireApproval
    ensures GovernedRestart(Govern(a, now, gov, p), gov)
  {
    ApprovalCandidateChecks(BuildPolicyInput(a, gov));
  }

  lemma ResolvedDecisionAdmitted(original: GovernanceDecision, e: Envelope, expires: int, decidedAt: int, now: int,
                                 gov: GovernanceConfig, cfg: ApprovalConfig, exec: ExecutorConfig, p: Platform)
    requires Sound(p) && Matches(gov, exec) && e.keyVersion != "" && e.reviewer != ""
    requires GovernedRestart(original, gov)
    ensures var d := ResolvedDecision(original, e, expires, decidedAt, cfg, p);
            && p.parse(d.expiresAt).Some?
            && (Admits(d, now, exec, p) <==>
                  && e.decision == APPROVE
                  && exec.executionMode in {"controlled", "approval-only"}
                  && now < p.parse(d.expiresAt).value)
  {
    var d := ResolvedDecision(original, e, expires, decidedAt, cfg, p);
    AdmissionMeans(d, now, exec, p);
    assert p.parse(d.expiresAt) == Some(Min(expires, decidedAt + cfg.permitTtl));
  }

  /**
   * A resolved request answers only the approval that resolved it, and answers it with the stored
   * decision: the record does not change and what was computed for this delivery is discarded.
   */
  lemma ResolvedRequestReplays(r: ApprovalRecord, stored: GovernanceDecision, e: Envelope, result: GovernanceDecision)
    requires r.status in {"approved", "denied"} && r.resolvedDecision == Some(stored)
    ensures CommitOutcome(Some(r), e, result).Ok? <==> e.approvalId == r.approvalId
    ensures CommitOutcome(Some(r), e, result).Ok? ==> CommitOutcome(Some(r), e, result).value == Resolution(r, stored, false)
  {
  }

  /**
   * The transaction run twice. The first envelope resolves a pending request, whatever it says; after it
   * a second one is accepted exactly when it has the first one's approval id, and is then answered with
   * the first one's decision.
   */
  lemma ResolvedOnceAndForAll(r: ApprovalRecord, e: Envelope, d: GovernanceDecision, f: Envelope, g: GovernanceDecision)
    requires r.status == "pending"
    ensures CommitOutcome(Some(r), e, d).Ok?
    ensures var first := CommitOutcome(Some(r), e, d).value;
            && first.emitted == d && first.record.requestEvent == r.requestEvent && first.record.requestHash == r.requestHash
            && (first.record.status == "approved" <==> e.decision == APPROVE) && (first.record.status == "denied" <==> e.decision == DENY)
            && var second := CommitOutcome(Some(first.record), f, g);
            && (second.Ok? <==> f.approvalId == e.approvalId)
            && (second.Ok? ==> second.value.emitted == d && second.value.record == first.record)
  {
    var first := CommitOutcome(Some(r), e, d).value;
    ResolvedRequestReplays(first.record, d, f, g);
  }

  // ---------------------------------------------------------------- which envelopes are accepted, and what they make

  predicate AllWhitespace(s: string) {
    forall i :: 0 <= i < |s| ==> IsWhitespace(s[i])
  }

  lemma {:induction false} StripLeftCuts(s: string) returns (i: nat)
    ensures i <= |s| && StripLeft(s) == s[i..] && AllWhitespace(s[..i]) && (i < |s| ==> !IsWhitespace(s[i]))
  {
    if s != "" && IsWhitespace(s[0]) {
      var j := StripLeftCuts(s[1..]);
      i := j + 1;
      assert s[1..][j..] == s[i..] && s[..i] == [s[0]] + s[1..][..j];
    } else {
      i := 0;
    }
  }

  lemma {:induction false} StripRightCuts(s: string) returns (j: nat)
    ensures j <= |s| && StripRight(s) == s[..j] && AllWhitespace(s[j..]) && (j > 0 ==> !IsWhitespace(s[j - 1]))
  {
    var n := |s| - 1;
    if s != "" && IsWhitespace(s[n]) {
      j := StripRightCuts(s[..n]);
      assert s[..n][..j] == s[..j] && s[j..] == s[..n][j..] + [s[n]];
    } else {
      j := |s|;
    }
  }

  /** Stripping cuts white space at both ends, all of it, and nothing else. */
  lemma StripCuts(s: string) returns (i: nat, j: nat)
    ensures i <= j <= |s| && Strip(s) == s[i..j] && AllWhitespace(s[..i]) && AllWhitespace(s[j..])
    ensures i < j ==> !IsWhitespace(s[i]) && !IsWhitespace(s[j - 1])
  {
    i := StripLeftCuts(s);
    var k := StripRightCuts(s[i..]);
    j := i + k;
    hide IsWhitespace, StripLeft, StripRight;
    assert s[i..][..k] == s[i..j] && s[i..][k..] == s[j..];
  }

  /** An envelope whose signature verified is accepted exactly when all of this holds. */
  lemma EnvelopeAcceptedExactly(e: Envelope, r: ApprovalRecord, checkedAt: int, readAt: int, decidedAt: int, cfg: ApprovalConfig, p: Platform)
    ensures Evaluate(e, Some(r), checkedAt, readAt, decidedAt, cfg, p).Ok? <==>
      var issued, expires, requestEnds := p.parse(e.issuedAt), p.parse(e.expiresAt), p.parse(r.requestEvent.expiresAt);
      && issued.Some? && expires.Some? && requestEnds.Some?
      && issued.value <= checkedAt + cfg.clockSkew && issued.value < expires.value
      && checkedAt < expires.value <= requestEnds.value && readAt < requestEnds.value
      && Strip(e.reviewer) != "" && |Strip(e.reason)| >= 10
      && e.keyVersion == cfg.keyVersion && e.requestHash == r.requestHash && e.governanceDecisionId == r.governanceDecisionId
    ensures Evaluate(e, None, checkedAt, readAt, decidedAt, cfg, p).Err?
  {
    hide Strip, ResolvedDecision;
  }

  /** What the resolved decision says: the reviewer's verdict and name, its dates, and the original's subject and policy. */
  lemma ResolvedDecisionSays(o: GovernanceDecision, e: Envelope, expires: int, now: int, cfg: ApprovalConfig, p: Platform)
    requires Sound(p)
    ensures var d := ResolvedDecision(o, e, expires, now, cfg, p);
            var approved := e.decision == APPROVE;
            && d.governanceDecisionId == StableId(p, "governance-decision", [o.governanceDecisionId, e.approvalId, if approved then "PERMIT" else "DENY"])
            && d.decisionSource == KmsHumanApproval && d.decision == d.policy.decision == (if approved then Permit else Deny)
            && d.policy.approved == approved == d.approval.approved && d.approval.signatureVerified
            && p.parse(d.decidedAt) == Some(now) && p.parse(d.expiresAt) == Some(if expires <= now + cfg.permitTtl then expires else now + cfg.permitTtl)
            && d.approval.approvalId == e.approvalId && d.approval.approvalRequestId == e.approvalRequestId
            && d.approval.reviewer == e.reviewer && d.approval.reason == e.reason && d.approval.keyVersion == e.keyVersion
            && d.approval.issuedAt == e.issuedAt && d.approval.expiresAt == e.expiresAt
            && d.analysisId == o.analysisId && d.incidentId == o.incidentId && d.severity == o.severity
            && d.incident == o.incident && d.analysis == o.analysis
            && d.policy.policyId == o.policy.policyId && d.policy.policyVersion == o.policy.policyVersion
            && d.policy.policySha256 == o.policy.policySha256 && d.policy.automationMode == o.policy.automationMode
            && d.policy.riskTier == o.policy.riskTier && d.policy.approvalRequired == o.policy.approvalRequired
            && d.policy.reasons == o.policy.reasons + [(if approved then "human approval by " else "human denial by ") + e.reviewer + ": " + e.reason]
  {
    hide StableId;
  }

  // ---------------------------------------------------------------- the review script

  /** The unsigned envelope that the script builds for a pulled request event. */
  function ScriptEnvelope(request: RequestEvent, requestExpiry: int, approvalId: string, verdict: ApprovalVerdict,
                          reviewer: string, reason: string, now: int, ttl: int, keyVersion: string, signature: string, p: Platform): Envelope
  {
    Envelope("1.0", approvalId, request.approvalRequestId, request.governanceDecisionId, verdict, reviewer, reason,
             p.format(now), p.format(Min(requestExpiry, now + ttl)), request.requestHash, keyVersion, signature)
  }

  /** The script copies the request's ids and hash, and never outlives the request or the lifetime it was given. */
  lemma ScriptEnvelopeSays(r: RequestEvent, requestExpiry: int, approvalId: string, verdict: ApprovalVerdict,
                           reviewer: string, reason: string, now: int, ttl: int, keyVersion: string, signature: string, p: Platform)
    requires Sound(p)
    ensures var e := ScriptEnvelope(r, requestExpiry, approvalId, verdict, reviewer, reason, now, ttl, keyVersion, signature, p);
            && e.schemaVersion == "1.0" && e.approvalId == approvalId && e.keyVersion == keyVersion && e.signature == signature
            && e.approvalRequestId == r.approvalRequestId && e.governanceDecisionId == r.governanceDecisionId && e.requestHash == r.requestHash
            && e.decision == verdict && e.reviewer == reviewer && e.reason == reason && p.parse(e.issuedAt) == Some(now)
            && p.parse(e.expiresAt) == Some(if requestExpiry <= now + ttl then requestExpiry else now + ttl)
  {
  }

  /** What the script itself insists on before it signs. */
  predicate ScriptAccepts(reviewer: string, reason: string) {
    reviewer != "" && '@' in reviewer && |reason| >= 10
  }

  /**
   * The agent accepts a script-made envelope for the stored request exactly when the two clocks agree
   * within the skew, envelope and request are unexpired on arrival, the script signed before the
   * request expired with a positive lifetime, the key is the expected one, and reviewer and reason
   * survive stripping. In particular it never refuses one for outliving its request.
   */
  lemma ScriptEnvelopeAccepted(r: ApprovalRecord, requestExpiry: int, approvalId: string, verdict: ApprovalVerdict,
                               reviewer: string, reason: string, now: int, ttl: int, keyVersion: string, signature: string,
                               checkedAt: int, readAt: int, decidedAt: int, cfg: ApprovalConfig, p: Platform)
    requires Sound(p)
    requires p.parse(r.requestEvent.expiresAt) == Some(requestExpiry)
    requires r.requestHash == r.requestEvent.requestHash && r.governanceDecisionId == r.requestEvent.governanceDecisionId
    ensures var e := ScriptEnvelope(r.requestEvent, requestExpiry, approvalId, verdict, reviewer, reason, now, ttl, keyVersion, signature, p);
            var outcome := Evaluate(e, Some(r), checkedAt, readAt, decidedAt, cfg, p);
            && outcome != Err("approval validity exceeds the original request expiry")
            && (outcome.Ok? <==>
                  && now <= checkedAt + cfg.clockSkew
                  && checkedAt < Min(requestExpiry, now + ttl)
                  && now < requestExpiry && ttl > 0
                  && readAt < requestExpiry
                  && keyVersion == cfg.keyVersion
                  && Strip(reviewer) != "" && |Strip(reason)| >= 10)
  {
    var e := ScriptEnvelope(r.requestEvent, requestExpiry, approvalId, verdict, reviewer, reason, now, ttl, keyVersion, signature, p);
    assert p.parse(e.issuedAt) == Some(now) && p.parse(e.expiresAt) == Some(Min(requestExpiry, now + ttl));
  }

  /**
   * Whatever reviewer the script lets through, the agent lets through: an address is not all white space.
   * So of what the script insists on, the agent can find fault with the reason alone.
   */
  lemma ScriptReviewerPasses(reviewer: string, reason: string)
    requires ScriptAccepts(reviewer, reason)
    ensures Strip(reviewer) != "" && |reason| >= 10
    ensures |Strip(reason)| < 10 ==> IsWhitespace(reason[0]) || IsWhitespace(reason[|reason| - 1])
  {
    var i, j := StripCuts(reviewer);
    var k :| 0 <= k < |reviewer| && reviewer[k] == '@';
    var m, n := StripCuts(reason);
    hide Strip;
    assert m > 0 ==> reason[..m][0] == reason[0];
    assert n < |reason| ==> reason[n..][|reason| - n - 1] == reason[|reason| - 1];
  }

  /** The script counts the characters of a reason, the agent those left after stripping: a gap. */
  lemma PaddedReasonPassesScriptOnly()
    ensures ScriptAccepts("a@b", "  short   ") && |Strip("  short   ")| < 10
  {
    StripNotLonger("short   ");
    assert StripLeft("  short   ") == StripLeft(" short   ") == StripLeft("short   ") by {
      assert "  short   "[1..] == " short   " && " short   "[1..] == "short   ";
    }
    RightNotLonger(StripLeft("short   "));
    LeftNotLonger("short   ");
  }
}
