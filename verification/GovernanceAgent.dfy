/** The governance agent: policy input, governance decision and the create-once approval request. */
module GovernanceAgent {
  import opened Prelude
  import opened Identifiers
  import opened RemediationPolicy
  import opened GovernanceModels

  datatype GovernanceConfig = GovernanceConfig(
    policyId: string,
    policyVersion: string,
    policySha256: string,
    automationMode: string,
    decisionTtl: int,
    approvalTtl: int,
    thresholds: Thresholds,
    allowedNamespaces: set<string>,
    allowedDeployments: set<string>)

  function BuildPolicyInput(a: AnalyzedIncident, cfg: GovernanceConfig): PolicyInput {
    var action := a.analysis.recommendedAction;
    PolicyInput(
      a.analysisId, a.incident.incidentId, action.action, action.targetNamespace, action.targetDeployment,
      a.analysis.assessedSeverity, a.analysis.confidence, action.operationalRisk, action.requiresHumanApproval,
      a.incident.signalCount,
      (match a.incident.sources case Some(list) => |list| case None => 0),
      |a.analysis.keyEvidence|,
      cfg.automationMode, cfg.allowedNamespaces, cfg.allowedDeployments, cfg.thresholds)
  }

  function VerdictName(v: Verdict): string {
    match v case Permit => "PERMIT" case Deny => "DENY" case RequireApproval => "REQUIRE_APPROVAL" case NoAction => "NO_ACTION"
  }

  function BuildGovernanceDecision(a: AnalyzedIncident, result: PolicyResult, now: int, cfg: GovernanceConfig, p: Platform): GovernanceDecision {
    var policy := GovernancePolicy(
      cfg.policyId, cfg.policyVersion, cfg.policySha256, cfg.automationMode,
      result.decision, result.riskTier, result.approvalRequired,
      result.decision == Permit && !result.approvalRequired, result.reasons);
    GovernanceDecision(
      a.analysis.assessedSeverity,
      StableId(p, "governance-decision", [a.analysisId, cfg.policySha256, VerdictName(result.decision)]),
      a.analysisId, a.incident.incidentId, p.format(now), p.format(now + cfg.decisionTtl),
      DgcOpa, result.decision, policy, NO_APPROVAL, a.incident, a.analysis)
  }

  /** The decision the agent reaches on an incident when it reads the clock at now. */
  function Govern(a: AnalyzedIncident, now: int, cfg: GovernanceConfig, p: Platform): GovernanceDecision {
    BuildGovernanceDecision(a, Decide(BuildPolicyInput(a, cfg)), now, cfg, p)
  }

  // ---------------------------------------------------------------- the verdict, read off the analysis

  function SourceCount(incident: Incident): nat {
    match incident.sources case Some(list) => |list| case None => 0
  }

  /** What every restart must show before anyone may authorize it. */
  predicate MeetsHardChecks(a: AnalyzedIncident, g: GovernanceConfig) {
    var action := a.analysis.recommendedAction;
    && action.action == "restart_deployment"
    && action.targetNamespace in g.allowedNamespaces && action.targetDeployment in g.allowedDeployments
    && a.analysis.assessedSeverity in {"HIGH", "CRITICAL"}
    && action.operationalRisk in {"low", "medium"}
    && a.analysis.confidence >= g.thresholds.approvalConfidence
    && a.incident.signalCount >= 2 && |a.analysis.keyEvidence| >= 2
  }

  /** What it must show besides to be executed without a human. */
  predicate MeetsAutomaticControls(a: AnalyzedIncident, g: GovernanceConfig) {
    var action := a.analysis.recommendedAction;
    && g.automationMode == "controlled"
    && !action.requiresHumanApproval
    && a.analysis.assessedSeverity == "HIGH" && action.operationalRisk == "low"
    && a.analysis.confidence >= g.thresholds.automaticConfidence
    && a.incident.signalCount >= g.thresholds.automaticMinSignals
    && SourceCount(a.incident) >= g.thresholds.automaticMinSources
    && |a.analysis.keyEvidence| >= g.thresholds.automaticMinEvidence
  }

  /** The agent's verdict on every analyzed incident, by what the analyst wrote and the agent is configured for. */
  lemma VerdictOfAnalysis(a: AnalyzedIncident, now: int, g: GovernanceConfig, p: Platform)
    ensures var d := Govern(a, now, g, p);
            var none := a.analysis.recommendedAction.action in {"none", "investigate"};
            && d.decision == d.policy.decision
            && (d.decision == NoAction <==> none)
            && (d.decision == Permit <==> MeetsHardChecks(a, g) && MeetsAutomaticControls(a, g))
            && (d.decision == RequireApproval <==> MeetsHardChecks(a, g) && !MeetsAutomaticControls(a, g))
            && (d.decision == Deny <==> !none && !MeetsHardChecks(a, g))
            && (d.policy.approvalRequired <==> d.decision == RequireApproval) && (d.policy.approved <==> d.decision == Permit)
  {
    hide Decide, BuildPolicyInput, PassesHardChecks, Holds, MeetsHardChecks, MeetsAutomaticControls;
    InputOfAnalysis(a, g);
    VerdictExactly(BuildPolicyInput(a, g));
  }

  lemma InputOfAnalysis(a: AnalyzedIncident, g: GovernanceConfig)
    ensures var i := BuildPolicyInput(a, g);
            && i.action == a.analysis.recommendedAction.action
            && (MeetsHardChecks(a, g) <==> IsRestart(i) && PassesHardChecks(i))
            && (MeetsAutomaticControls(a, g) <==> forall c :: Holds(c, i))
  {
    var i := BuildPolicyInput(a, g);
    if forall c :: Holds(c, i) {
      assert Holds(ModeControlled, i) && Holds(NoApprovalRequested, i) && Holds(SeverityHigh, i) && Holds(RiskLow, i);
      assert Holds(ConfidentEnough, i) && Holds(EnoughSignals, i) && Holds(EnoughSources, i) && Holds(EnoughEvidence, i);
    }
  }

  /** What the decision says besides its verdict: its id and dates, its subject, the policy it was made under. */
  lemma GovernedDecisionSays(a: AnalyzedIncident, now: int, g: GovernanceConfig, p: Platform)
    requires Sound(p)
    ensures var d := Govern(a, now, g, p);
            && d.governanceDecisionId == StableId(p, "governance-decision", [
                 a.analysisId, g.policySha256,
                 if d.decision == Permit then "PERMIT" else if d.decision == Deny then "DENY"
                 else if d.decision == RequireApproval then "REQUIRE_APPROVAL" else "NO_ACTION"])
            && p.parse(d.decidedAt) == Some(now) && p.parse(d.expiresAt) == Some(now + g.decisionTtl)
            && d.analysisId == a.analysisId && d.analysis == a.analysis
            && d.incident == a.incident && d.incidentId == a.incident.incidentId && d.severity == a.analysis.assessedSeverity
            && d.decisionSource == DgcOpa && !d.approval.approved && !d.approval.signatureVerified
            && d.policy.policyId == g.policyId && d.policy.policyVersion == g.policyVersion
            && d.policy.policySha256 == g.policySha256 && d.policy.automationMode == g.automationMode
  {
    hide Decide, StableId;
  }

  function RequestBinding(d: GovernanceDecision, requestId: string, expiresAt: string): map<string, string> {
    var action := d.analysis.recommendedAction;
    map[
      "approval_request_id" := requestId,
      "governance_decision_id" := d.governanceDecisionId,
      "analysis_id" := d.analysisId,
      "incident_id" := d.incidentId,
      "policy_sha256" := d.policy.policySha256,
      "action" := action.action,
      "target_namespace" := action.targetNamespace,
      "target_deployment" := action.targetDeployment,
      "expires_at" := expiresAt]
  }

  function CreateRequestEvent(d: GovernanceDecision, now: int, cfg: GovernanceConfig, p: Platform): RequestEvent {
    var expiresAt := p.format(now + cfg.approvalTtl);
    var requestId := StableId(p, "approval-request", [d.governanceDecisionId]);
    var binding := RequestBinding(d, requestId, expiresAt);
    RequestEvent(
      requestId, d.governanceDecisionId, d.analysisId, d.incidentId, p.format(now), expiresAt,
      Sha256Hex(p, binding), binding, d)
  }

  /** A freshly created record. */
  function PendingRecord(e: RequestEvent): ApprovalRecord {
    ApprovalRecord("pending", e.governanceDecisionId, e.requestHash, e, "", None)
  }

  /** What the create transaction answers for the document it finds under the request's id. */
  function PersistOutcome(found: Option<ApprovalRecord>, e: RequestEvent): Result<string> {
    match found
    case None => Ok("created")
    case Some(r) =>
      if r.requestHash != e.requestHash then Err("approval request ID collision detected")
      else Ok(r.status)
  }

  /** The binding names the request, the decision, the restart and its end, and nothing else. */
  lemma RequestSays(d: GovernanceDecision, now: int, g: GovernanceConfig, p: Platform)
    requires Sound(p)
    ensures var r := CreateRequestEvent(d, now, g, p);
            var b := r.binding;
            && r.approvalRequestId == StableId(p, "approval-request", [d.governanceDecisionId])
            && p.parse(r.createdAt) == Some(now) && p.parse(r.expiresAt) == Some(now + g.approvalTtl)
            && r.governanceDecision == d && r.governanceDecisionId == d.governanceDecisionId
            && r.analysisId == d.analysisId && r.incidentId == d.incidentId && r.requestHash == Sha256Hex(p, b)
            && b.Keys == {"approval_request_id", "governance_decision_id", "analysis_id", "incident_id", "policy_sha256",
                          "action", "target_namespace", "target_deployment", "expires_at"}
            && b["approval_request_id"] == r.approvalRequestId && b["governance_decision_id"] == d.governanceDecisionId
            && b["analysis_id"] == d.analysisId && b["incident_id"] == d.incidentId && b["policy_sha256"] == d.policy.policySha256
            && b["action"] == d.analysis.recommendedAction.action
            && b["target_namespace"] == d.analysis.recommendedAction.targetNamespace
            && b["target_deployment"] == d.analysis.recommendedAction.targetDeployment && b["expires_at"] == r.expiresAt
  {
    hide StableId, Sha256Hex;
  }
}
