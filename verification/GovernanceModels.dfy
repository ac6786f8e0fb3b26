/** The messages and records of the remediation protocol. */
module GovernanceModels {
  import opened Prelude
  import opened RemediationPolicy

  datatype RecommendedAction = RecommendedAction(
    action: string,
    targetNamespace: string,
    targetDeployment: string,
    rationale: string,
    operationalRisk: string,
    requiresHumanApproval: bool)

  datatype Analysis = Analysis(
    assessedSeverity: string,
    confidence: real,
    keyEvidence: seq<string>,
    recommendedAction: RecommendedAction)

  /** sources is None when the incident's field is present but not a list. */
  datatype Incident = Incident(incidentId: string, signalCount: int, sources: Option<seq<string>>)

  datatype AnalyzedIncident = AnalyzedIncident(analysisId: string, incident: Incident, analysis: Analysis)

  /** What model validation lets through. */
  predicate ValidAnalysis(a: Analysis) {
    && 0.0 <= a.confidence <= 1.0
    && a.assessedSeverity in {"LOW", "MEDIUM", "HIGH", "CRITICAL"}
    && a.recommendedAction.action in {"none", "investigate", "restart_deployment"}
    && a.recommendedAction.operationalRisk in {"low", "medium", "high"}
  }

  /** Three actions, four severities, three risks and a confidence up to one, independently of each other. */
  lemma ValidAnalysisExactly(a: Analysis)
    ensures ValidAnalysis(a) <==>
      && 0.0 <= a.confidence <= 1.0
      && (exists i :: 0 <= i < 4 && a.assessedSeverity == ["LOW", "MEDIUM", "HIGH", "CRITICAL"][i])
      && (exists i :: 0 <= i < 3 && a.recommendedAction.action == ["none", "investigate", "restart_deployment"][i])
      && (exists i :: 0 <= i < 3 && a.recommendedAction.operationalRisk == ["low", "medium", "high"][i])
  {
    FourTexts(a.assessedSeverity, "LOW", "MEDIUM", "HIGH", "CRITICAL");
    ThreeTexts(a.recommendedAction.action, "none", "investigate", "restart_deployment");
    ThreeTexts(a.recommendedAction.operationalRisk, "low", "medium", "high");
  }

  lemma ThreeTexts(s: string, x: string, y: string, z: string)
    ensures s in {x, y, z} <==> exists i :: 0 <= i < 3 && s == [x, y, z][i]
  {
    assert [x, y, z][0] == x && [x, y, z][1] == y && [x, y, z][2] == z;
  }

  lemma FourTexts(s: string, w: string, x: string, y: string, z: string)
    ensures s in {w, x, y, z} <==> exists i :: 0 <= i < 4 && s == [w, x, y, z][i]
  {
    assert [w, x, y, z][0] == w && [w, x, y, z][1] == x && [w, x, y, z][2] == y && [w, x, y, z][3] == z;
  }

  datatype GovernancePolicy = GovernancePolicy(
    policyId: string,
    policyVersion: string,
    policySha256: string,
    automationMode: string,
    decision: Verdict,
    riskTier: string,
    approvalRequired: bool,
    approved: bool,
    reasons: seq<string>)

  datatype ApprovalMetadata = ApprovalMetadata(
    approvalId: string,
    approvalRequestId: string,
    approved: bool,
    reviewer: string,
    reason: string,
    issuedAt: string,
    expiresAt: string,
    keyVersion: string,
    signatureVerified: bool)

  const NO_APPROVAL := ApprovalMetadata("", "", false, "", "", "", "", "", false)

  datatype DecisionSource = DgcOpa | KmsHumanApproval

  datatype GovernanceDecision = GovernanceDecision(
    severity: string,
    governanceDecisionId: string,
    analysisId: string,
    incidentId: string,
    decidedAt: string,
    expiresAt: string,
    decisionSource: DecisionSource,
    decision: Verdict,
    policy: GovernancePolicy,
    approval: ApprovalMetadata,
    incident: Incident,
    analysis: Analysis)

  datatype ApprovalVerdict = APPROVE | DENY

  datatype Envelope = Envelope(
    schemaVersion: string,
    approvalId: string,
    approvalRequestId: string,
    governanceDecisionId: string,
    decision: ApprovalVerdict,
    reviewer: string,
    reason: string,
    issuedAt: string,
    expiresAt: string,
    requestHash: string,
    keyVersion: string,
    signature: string)

  function VerdictText(v: ApprovalVerdict): string {
    match v case APPROVE => "APPROVE" case DENY => "DENY"
  }

  /** Every field of the envelope except its signature. */
  function SignedPayload(e: Envelope): map<string, string> {
    map[
      "schema_version" := e.schemaVersion,
      "event_type" := "approval-decision",
      "approval_id" := e.approvalId,
      "approval_request_id" := e.approvalRequestId,
      "governance_decision_id" := e.governanceDecisionId,
      "decision" := VerdictText(e.decision),
      "reviewer" := e.reviewer,
      "reason" := e.reason,
      "issued_at" := e.issuedAt,
      "expires_at" := e.expiresAt,
      "request_hash" := e.requestHash,
      "key_version" := e.keyVersion]
  }

  datatype RequestEvent = RequestEvent(
    approvalRequestId: string,
    governanceDecisionId: string,
    analysisId: string,
    incidentId: string,
    createdAt: string,
    expiresAt: string,
    requestHash: string,
    binding: map<string, string>,
    governanceDecision: GovernanceDecision)

  /** One document of the approval collection. */
  datatype ApprovalRecord = ApprovalRecord(
    status: string,
    governanceDecisionId: string,
    requestHash: string,
    requestEvent: RequestEvent,
    approvalId: string,
    resolvedDecision: Option<GovernanceDecision>)
}
