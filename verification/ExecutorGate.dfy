/** The remediation agent's validation of a governance decision. */
module ExecutorGate {
  import opened Identifiers
  import opened RemediationPolicy
  import opened GovernanceModels
  import opened GovernanceAgent

  datatype ExecutorConfig = ExecutorConfig(
    executionMode: string,
    expectedPolicyId: string,
    localPolicySha256: string,
    allowedNamespaces: set<string>,
    allowedDeployments: set<string>)

  predicate IsSha256Hex(s: string) {
    |s| == 64 && forall i :: 0 <= i < |s| ==> '0' <= s[i] <= '9' || 'a' <= s[i] <= 'f' || 'A' <= s[i] <= 'F'
  }

  function Note(condition: bool, reason: string): seq<string> {
    if condition then [reason] else []
  }

  function VerdictReasons(d: GovernanceDecision): seq<string> {
    Note(d.decision != Permit, "governance decision is not PERMIT")
  }

  function ModeReasons(d: GovernanceDecision, cfg: ExecutorConfig): seq<string> {
    if cfg.executionMode == "disabled" then ["EXECUTION_MODE is disabled"]
    else if cfg.executionMode == "approval-only" then
      Note(d.decisionSource != KmsHumanApproval, "approval-only mode requires a KMS human approval")
    else Note(cfg.executionMode != "controlled", "EXECUTION_MODE must be disabled, approval-only, or controlled")
  }

  function PolicyReasons(d: GovernanceDecision, cfg: ExecutorConfig): seq<string> {
    PolicyIdentityReasons(d, cfg) + PolicyVerdictReasons(d)
  }

  function PolicyIdentityReasons(d: GovernanceDecision, cfg: ExecutorConfig): seq<string> {
    Note(d.policy.policyId != cfg.expectedPolicyId, "governance policy ID does not match the executor allowlist")
    + (if !IsSha256Hex(d.policy.policySha256) then ["governance policy SHA-256 is missing or malformed"]
       else Note(d.policy.policySha256 != cfg.localPolicySha256, "governance policy SHA-256 does not match the executor policy"))
  }

  function PolicyVerdictReasons(d: GovernanceDecision): seq<string> {
    Note(d.policy.decision != Permit, "embedded policy decision is not PERMIT")
    + Note(!d.policy.approved, "embedded policy approval flag is false")
  }

  function ExpiryReasons(d: GovernanceDecision, now: int, p: Platform): seq<string> {
    match p.parse(d.expiresAt)
    case Some(t) => Note(t <= now, "governance decision has expired")
    case None => ["governance decision expiry is malformed"]
  }

  function ActionReasons(d: GovernanceDecision, cfg: ExecutorConfig): seq<string> {
    var action := d.analysis.recommendedAction;
    Note(action.action != "restart_deployment", "only restart_deployment is supported")
    + Note(action.targetNamespace !in cfg.allowedNamespaces, "target namespace is not allowlisted")
    + Note(action.targetDeployment !in cfg.allowedDeployments, "target deployment is not allowlisted")
  }

  function HumanReasons(d: GovernanceDecision): seq<string> {
    if d.policy.approvalRequired || d.decisionSource == KmsHumanApproval then
      Note(!d.approval.approved, "human approval flag is false")
      + Note(!d.approval.signatureVerified, "human approval signature was not verified")
      + Note(d.approval.reviewer == "", "human approval reviewer is missing")
      + Note(d.approval.keyVersion == "", "human approval KMS key version is missing")
    else []
  }

  function DirectReasons(d: GovernanceDecision): seq<string> {
    Note(d.decisionSource == DgcOpa && d.policy.approvalRequired, "OPA decision requiring approval cannot execute directly")
  }

  /** The reasons for which a decision is blocked when the clock reads now. */
  function GateReasons(d: GovernanceDecision, now: int, cfg: ExecutorConfig, p: Platform): seq<string> {
    VerdictReasons(d)
    + ModeReasons(d, cfg)
    + PolicyReasons(d, cfg)
    + ExpiryReasons(d, now, p)
    + ActionReasons(d, cfg)
    + HumanReasons(d)
    + DirectReasons(d)
  }

  predicate Admits(d: GovernanceDecision, now: int, cfg: ExecutorConfig, p: Platform) {
    GateReasons(d, now, cfg, p) == []
  }

  // Each of these appends one group of reasons, in the order of the source.

  method CheckVerdict(d: GovernanceDecision) returns (reasons: seq<string>)
    ensures reasons == VerdictReasons(d)
  {
    reasons := [];
    if d.decision != Permit {
      reasons := reasons + ["governance decision is not PERMIT"];
    }
  }

  method CheckMode(d: GovernanceDecision, cfg: ExecutorConfig, before: seq<string>) returns (reasons: seq<string>)
    ensures reasons == before + ModeReasons(d, cfg)
  {
    reasons := before;
    if cfg.executionMode == "disabled" {
      reasons := reasons + ["EXECUTION_MODE is disabled"];
    } else if cfg.executionMode == "approval-only" {
      if d.decisionSource != KmsHumanApproval {
        reasons := reasons + ["approval-only mode requires a KMS human approval"];
      }
    } else if cfg.executionMode != "controlled" {
      reasons := reasons + ["EXECUTION_MODE must be disabled, approval-only, or controlled"];
    }
  }

  method CheckPolicyIdentity(d: GovernanceDecision, cfg: ExecutorConfig, before: seq<string>) returns (reasons: seq<string>)
    ensures reasons == before + PolicyIdentityReasons(d, cfg)
  {
    hide IsSha256Hex;
    reasons := before;
    if d.policy.policyId != cfg.expectedPolicyId {
      reasons := reasons + ["governance policy ID does not match the executor allowlist"];
    }
    if !IsSha256Hex(d.policy.policySha256) {
      reasons := reasons + ["governance policy SHA-256 is missing or malformed"];
    } else if d.policy.policySha256 != cfg.localPolicySha256 {
      reasons := reasons + ["governance policy SHA-256 does not match the executor policy"];
    }
  }

  method CheckPolicyVerdict(d: GovernanceDecision, before: seq<string>) returns (reasons: seq<string>)
    ensures reasons == before + PolicyVerdictReasons(d)
  {
    reasons := before;
    if d.policy.decision != Permit {
      reasons := reasons + ["embedded policy decision is not PERMIT"];
    }
    if !d.policy.approved {
      reasons := reasons + ["embedded policy approval flag is false"];
    }
  }

  method CheckExpiry(d: GovernanceDecision, now: int, p: Platform, before: seq<string>) returns (reasons: seq<string>)
    ensures reasons == before + ExpiryReasons(d, now, p)
  {
    reasons := before;
    match p.parse(d.expiresAt) {
      case Some(t) =>
        if t <= now {
          reasons := reasons + ["governance decision has expired"];
        }
      case None =>
        reasons := reasons + ["governance decision expiry is malformed"];
    }
  }

  method CheckAction(d: GovernanceDecision, cfg: ExecutorConfig, before: seq<string>) returns (reasons: seq<string>)
    ensures reasons == before + ActionReasons(d, cfg)
  {
    reasons := before;
    var action := d.analysis.recommendedAction;
    if action.action != "restart_deployment" {
      reasons := reasons + ["only restart_deployment is supported"];
    }
    if action.targetNamespace !in cfg.allowedNamespaces {
      reasons := reasons + ["target namespace is not allowlisted"];
    }
    if action.targetDeployment !in cfg.allowedDeployments {
      reasons := reasons + ["target deployment is not allowlisted"];
    }
  }

  method CheckHuman(d: GovernanceDecision, before: seq<string>) returns (reasons: seq<string>)
    ensures reasons == before + HumanReasons(d)
  {
    reasons := before;
    if d.policy.approvalRequired || d.decisionSource == KmsHumanApproval {
      if !d.approval.approved {
        reasons := reasons + ["human approval flag is false"];
      }
      if !d.approval.signatureVerified {
        reasons := reasons + ["human approval signature was not verified"];
      }
      if d.approval.reviewer == "" {
        reasons := reasons + ["human approval reviewer is missing"];
      }
      if d.approval.keyVersion == "" {
        reasons := reasons + ["human approval KMS key version is missing"];
      }
    }
  }

  method CheckDirect(d: GovernanceDecision, before: seq<string>) returns (reasons: seq<string>)
    ensures reasons == before + DirectReasons(d)
  {
    reasons := before;
    if d.decisionSource == DgcOpa && d.policy.approvalRequired {
      reasons := reasons + ["OPA decision requiring approval cannot execute directly"];
    }
  }

  lemma GroupsInOrder(d: GovernanceDecision, now: int, cfg: ExecutorConfig, p: Platform, reasons: seq<string>)
    requires reasons == VerdictReasons(d) + ModeReasons(d, cfg) + PolicyIdentityReasons(d, cfg) + PolicyVerdictReasons(d)
                        + ExpiryReasons(d, now, p) + ActionReasons(d, cfg) + HumanReasons(d) + DirectReasons(d)
    ensures reasons == GateReasons(d, now, cfg, p)
    ensures reasons == [] <==> Admits(d, now, cfg, p)
  {
    hide VerdictReasons, ModeReasons, PolicyIdentityReasons, PolicyVerdictReasons, ExpiryReasons, ActionReasons, HumanReasons, DirectReasons;
    var before := VerdictReasons(d) + ModeReasons(d, cfg);
    assert before + PolicyIdentityReasons(d, cfg) + PolicyVerdictReasons(d) == before + PolicyReasons(d, cfg);
  }

  /** validate_governance_decision, appending to its list of reasons group by group. */
  method ValidateGovernanceDecision(d: GovernanceDecision, now: int, cfg: ExecutorConfig, p: Platform)
    returns (valid: bool, reasons: seq<string>)
    ensures reasons == GateReasons(d, now, cfg, p)
    ensures valid == Admits(d, now, cfg, p)
  {
    hide *;
    reasons := CheckVerdict(d);
    reasons := CheckMode(d, cfg, reasons);
    reasons := CheckPolicyIdentity(d, cfg, reasons);
    reasons := CheckPolicyVerdict(d, reasons);
    reasons := CheckExpiry(d, now, p, reasons);
    reasons := CheckAction(d, cfg, reasons);
    reasons := CheckHuman(d, reasons);
    reasons := CheckDirect(d, reasons);
    GroupsInOrder(d, now, cfg, p, reasons);
    valid := reasons == [];
  }

  /** An empty list of reasons, spelled out as what the decision must be. */
  lemma AdmissionMeans(d: GovernanceDecision, now: int, cfg: ExecutorConfig, p: Platform)
    ensures Admits(d, now, cfg, p) <==>
      && d.decision == Permit && d.policy.decision == Permit && d.policy.approved
      && (cfg.executionMode == "controlled" || (cfg.executionMode == "approval-only" && d.decisionSource == KmsHumanApproval))
      && d.policy.policyId == cfg.expectedPolicyId
      && d.policy.policySha256 == cfg.localPolicySha256 && IsSha256Hex(cfg.localPolicySha256)
      && p.parse(d.expiresAt).Some? && now < p.parse(d.expiresAt).value
      && d.analysis.recommendedAction.action == "restart_deployment"
      && d.analysis.recommendedAction.targetNamespace in cfg.allowedNamespaces
      && d.analysis.recommendedAction.targetDeployment in cfg.allowedDeployments
      && (if d.decisionSource == DgcOpa then !d.policy.approvalRequired
          else d.approval.approved && d.approval.signatureVerified && d.approval.reviewer != "" && d.approval.keyVersion != "")
  {
    hide *;
    EmptyParts(d, now, cfg, p);
    EmptyMode(d, cfg);
    EmptyPolicy(d, cfg);
    EmptyExpiry(d, now, p);
    EmptyAction(d, cfg);
    EmptyHuman(d);
  }

  lemma EmptyMode(d: GovernanceDecision, cfg: ExecutorConfig)
    ensures ModeReasons(d, cfg) == [] <==>
      cfg.executionMode == "controlled" || (cfg.executionMode == "approval-only" && d.decisionSource == KmsHumanApproval)
  {
  }

  lemma EmptyPolicy(d: GovernanceDecision, cfg: ExecutorConfig)
    ensures PolicyReasons(d, cfg) == [] <==>
      && d.policy.policyId == cfg.expectedPolicyId && IsSha256Hex(cfg.localPolicySha256)
      && d.policy.policySha256 == cfg.localPolicySha256 && d.policy.decision == Permit && d.policy.approved
  {
    hide IsSha256Hex;
  }

  lemma EmptyExpiry(d: GovernanceDecision, now: int, p: Platform)
    ensures ExpiryReasons(d, now, p) == [] <==> p.parse(d.expiresAt).Some? && now < p.parse(d.expiresAt).value
  {
  }

  lemma EmptyAction(d: GovernanceDecision, cfg: ExecutorConfig)
    ensures ActionReasons(d, cfg) == [] <==>
      && d.analysis.recommendedAction.action == "restart_deployment"
      && d.analysis.recommendedAction.targetNamespace in cfg.allowedNamespaces
      && d.analysis.recommendedAction.targetDeployment in cfg.allowedDeployments
  {
  }

  lemma EmptyHuman(d: GovernanceDecision)
    ensures HumanReasons(d) == [] && DirectReasons(d) == [] <==>
      if d.decisionSource == DgcOpa then !d.policy.approvalRequired
      else d.approval.approved && d.approval.signatureVerified && d.approval.reviewer != "" && d.approval.keyVersion != ""
  {
  }

  lemma EmptyParts(d: GovernanceDecision, now: int, cfg: ExecutorConfig, p: Platform)
    ensures Admits(d, now, cfg, p) <==>
      d.decision == Permit && ModeReasons(d, cfg) == [] && PolicyReasons(d, cfg) == []
      && ExpiryReasons(d, now, p) == [] && ActionReasons(d, cfg) == [] && HumanReasons(d) == [] && DirectReasons(d) == []
  {
    hide ModeReasons, PolicyReasons, ExpiryReasons, ActionReasons, HumanReasons, DirectReasons;
    assert |GateReasons(d, now, cfg, p)|
      == |VerdictReasons(d)| + |ModeReasons(d, cfg)| + |PolicyReasons(d, cfg)|
       + |ExpiryReasons(d, now, p)| + |ActionReasons(d, cfg)| + |HumanReasons(d)| + |DirectReasons(d)|;
  }

  /** 64 hexadecimal digits of either case. */
  lemma Sha256HexExactly(s: string)
    ensures IsSha256Hex(s) <==> |s| == 64 && forall i :: 0 <= i < 64 ==> s[i] in "0123456789abcdefABCDEF"
  {
    forall c: char ensures c in "0123456789abcdefABCDEF" <==> '0' <= c <= '9' || 'a' <= c <= 'f' || 'A' <= c <= 'F' {
      HexCharacter(c);
    }
  }

  lemma HexCharacter(c: char)
    ensures c in "0123456789abcdefABCDEF" <==> '0' <= c <= '9' || 'a' <= c <= 'f' || 'A' <= c <= 'F'
  {
    var digits := "0123456789abcdefABCDEF";
    if '0' <= c <= '9' { assert digits[c as int - '0' as int] == c; }
    if 'a' <= c <= 'f' { assert digits[10 + (c as int - 'a' as int)] == c; }
    if 'A' <= c <= 'F' { assert digits[16 + (c as int - 'A' as int)] == c; }
  }

  predicate Within(part: seq<string>, whole: seq<string>) {
    forall line :: line in part ==> line in whole
  }

  /** Every group of reasons is part of the whole list. */
  lemma GroupsAreListed(d: GovernanceDecision, now: int, cfg: ExecutorConfig, p: Platform)
    ensures var reasons := GateReasons(d, now, cfg, p);
            && Within(VerdictReasons(d), reasons) && Within(ModeReasons(d, cfg), reasons)
            && Within(PolicyIdentityReasons(d, cfg), reasons) && Within(PolicyVerdictReasons(d), reasons)
            && Within(ExpiryReasons(d, now, p), reasons) && Within(ActionReasons(d, cfg), reasons)
            && Within(HumanReasons(d), reasons) && Within(DirectReasons(d), reasons)
  {
    hide VerdictReasons, ModeReasons, PolicyIdentityReasons, PolicyVerdictReasons, ExpiryReasons, ActionReasons, HumanReasons, DirectReasons;
  }

  lemma NotedLine(condition: bool, line: string)
    ensures condition ==> line in Note(condition, line)
  {
    if condition { assert Note(condition, line)[0] == line; }
  }

  lemma VerdictLines(d: GovernanceDecision, reasons: seq<string>)
    requires Within(VerdictReasons(d), reasons)
    ensures d.decision != Permit ==> "governance decision is not PERMIT" in reasons
  {
    hide Note;
    NotedLine(d.decision != Permit, "governance decision is not PERMIT");
  }

  lemma ModeLines(d: GovernanceDecision, cfg: ExecutorConfig, reasons: seq<string>)
    requires Within(ModeReasons(d, cfg), reasons)
    ensures cfg.executionMode == "disabled" ==> "EXECUTION_MODE is disabled" in reasons
    ensures cfg.executionMode == "approval-only" && d.decisionSource == DgcOpa ==> "approval-only mode requires a KMS human approval" in reasons
    ensures cfg.executionMode !in {"disabled", "approval-only", "controlled"} ==>
              "EXECUTION_MODE must be disabled, approval-only, or controlled" in reasons
  {
    hide Note;
    NotedLine(d.decisionSource != KmsHumanApproval, "approval-only mode requires a KMS human approval");
    NotedLine(cfg.executionMode != "controlled", "EXECUTION_MODE must be disabled, approval-only, or controlled");
    if cfg.executionMode == "disabled" {
      assert ModeReasons(d, cfg)[0] == "EXECUTION_MODE is disabled";
    }
  }

  lemma PolicyIdentityLines(d: GovernanceDecision, cfg: ExecutorConfig, reasons: seq<string>)
    requires Within(PolicyIdentityReasons(d, cfg), reasons)
    ensures d.policy.policyId != cfg.expectedPolicyId ==> "governance policy ID does not match the executor allowlist" in reasons
    ensures !IsSha256Hex(d.policy.policySha256) ==> "governance policy SHA-256 is missing or malformed" in reasons
    ensures IsSha256Hex(d.policy.policySha256) && d.policy.policySha256 != cfg.localPolicySha256 ==>
              "governance policy SHA-256 does not match the executor policy" in reasons
  {
    hide Note, IsSha256Hex;
    NotedLine(d.policy.policyId != cfg.expectedPolicyId, "governance policy ID does not match the executor allowlist");
    NotedLine(d.policy.policySha256 != cfg.localPolicySha256, "governance policy SHA-256 does not match the executor policy");
    if !IsSha256Hex(d.policy.policySha256) {
      assert ["governance policy SHA-256 is missing or malformed"][0] == "governance policy SHA-256 is missing or malformed";
      assert "governance policy SHA-256 is missing or malformed" in PolicyIdentityReasons(d, cfg);
    }
  }

  lemma PolicyVerdictLines(d: GovernanceDecision, reasons: seq<string>)
    requires Within(PolicyVerdictReasons(d), reasons)
    ensures d.policy.decision != Permit ==> "embedded policy decision is not PERMIT" in reasons
    ensures !d.policy.approved ==> "embedded policy approval flag is false" in reasons
  {
    hide Note;
    NotedLine(d.policy.decision != Permit, "embedded policy decision is not PERMIT");
    NotedLine(!d.policy.approved, "embedded policy approval flag is false");
  }

  lemma ExpiryLines(d: GovernanceDecision, now: int, p: Platform, reasons: seq<string>)
    requires Within(ExpiryReasons(d, now, p), reasons)
    ensures match p.parse(d.expiresAt)
            case Some(t) => t <= now ==> "governance decision has expired" in reasons
            case None => "governance decision expiry is malformed" in reasons
  {
    hide Note;
    match p.parse(d.expiresAt) {
      case Some(t) => NotedLine(t <= now, "governance decision has expired");
      case None => assert ExpiryReasons(d, now, p)[0] == "governance decision expiry is malformed";
    }
  }

  lemma ActionLines(d: GovernanceDecision, cfg: ExecutorConfig, reasons: seq<string>)
    requires Within(ActionReasons(d, cfg), reasons)
    ensures d.analysis.recommendedAction.action != "restart_deployment" ==> "only restart_deployment is supported" in reasons
    ensures d.analysis.recommendedAction.targetNamespace !in cfg.allowedNamespaces ==> "target namespace is not allowlisted" in reasons
    ensures d.analysis.recommendedAction.targetDeployment !in cfg.allowedDeployments ==> "target deployment is not allowlisted" in reasons
  {
    hide Note;
    var action := d.analysis.recommendedAction;
    NotedLine(action.action != "restart_deployment", "only restart_deployment is supported");
    NotedLine(action.targetNamespace !in cfg.allowedNamespaces, "target namespace is not allowlisted");
    NotedLine(action.targetDeployment !in cfg.allowedDeployments, "target deployment is not allowlisted");
  }

  lemma HumanLines(d: GovernanceDecision, reasons: seq<string>)
    requires Within(HumanReasons(d), reasons)
    requires d.policy.approvalRequired || d.decisionSource == KmsHumanApproval
    ensures !d.approval.approved ==> "human approval flag is false" in reasons
    ensures !d.approval.signatureVerified ==> "human approval signature was not verified" in reasons
    ensures d.approval.reviewer == "" ==> "human approval reviewer is missing" in reasons
    ensures d.approval.keyVersion == "" ==> "human approval KMS key version is missing" in reasons
  {
    hide Note;
    NotedLine(!d.approval.approved, "human approval flag is false");
    NotedLine(!d.approval.signatureVerified, "human approval signature was not verified");
    NotedLine(d.approval.reviewer == "", "human approval reviewer is missing");
    NotedLine(d.approval.keyVersion == "", "human approval KMS key version is missing");
  }

  lemma DirectLines(d: GovernanceDecision, reasons: seq<string>)
    requires Within(DirectReasons(d), reasons)
    ensures d.decisionSource == DgcOpa && d.policy.approvalRequired ==> "OPA decision requiring approval cannot execute directly" in reasons
  {
    hide Note;
    NotedLine(d.decisionSource == DgcOpa && d.policy.approvalRequired, "OPA decision requiring approval cannot execute directly");
  }

  /** A blocked decision is told why: each condition that fails puts its own line on the list. */
  lemma FailedConditionsListed(d: GovernanceDecision, now: int, cfg: ExecutorConfig, p: Platform)
    ensures var reasons, action := GateReasons(d, now, cfg, p), d.analysis.recommendedAction;
            && (d.decision != Permit ==> "governance decision is not PERMIT" in reasons)
            && (cfg.executionMode == "disabled" ==> "EXECUTION_MODE is disabled" in reasons)
            && (cfg.executionMode == "approval-only" && d.decisionSource == DgcOpa ==> "approval-only mode requires a KMS human approval" in reasons)
            && (cfg.executionMode !in {"disabled", "approval-only", "controlled"} ==>
                  "EXECUTION_MODE must be disabled, approval-only, or controlled" in reasons)
            && (action.action != "restart_deployment" ==> "only restart_deployment is supported" in reasons)
            && (action.targetNamespace !in cfg.allowedNamespaces ==> "target namespace is not allowlisted" in reasons)
            && (action.targetDeployment !in cfg.allowedDeployments ==> "target deployment is not allowlisted" in reasons)
            && (match p.parse(d.expiresAt)
                case Some(t) => t <= now ==> "governance decision has expired" in reasons
                case None => "governance decision expiry is malformed" in reasons)
  {
    hide *;
    var reasons := GateReasons(d, now, cfg, p);
    GroupsAreListed(d, now, cfg, p);
    VerdictLines(d, reasons);
    ModeLines(d, cfg, reasons);
    ActionLines(d, cfg, reasons);
    ExpiryLines(d, now, p, reasons);
  }

  lemma FailedPolicyConditionsListed(d: GovernanceDecision, now: int, cfg: ExecutorConfig, p: Platform)
    ensures var reasons := GateReasons(d, now, cfg, p);
            && (d.policy.policyId != cfg.expectedPolicyId ==> "governance policy ID does not match the executor allowlist" in reasons)
            && (!IsSha256Hex(d.policy.policySha256) ==> "governance policy SHA-256 is missing or malformed" in reasons)
            && (IsSha256Hex(d.policy.policySha256) && d.policy.policySha256 != cfg.localPolicySha256 ==>
                  "governance policy SHA-256 does not match the executor policy" in reasons)
            && (d.policy.decision != Permit ==> "embedded policy decision is not PERMIT" in reasons)
            && (!d.policy.approved ==> "embedded policy approval flag is false" in reasons)
            && (d.decisionSource == DgcOpa && d.policy.approvalRequired ==> "OPA decision requiring approval cannot execute directly" in reasons)
  {
    hide *;
    var reasons := GateReasons(d, now, cfg, p);
    GroupsAreListed(d, now, cfg, p);
    PolicyIdentityLines(d, cfg, reasons);
    PolicyVerdictLines(d, reasons);
    DirectLines(d, reasons);
  }

  lemma FailedApprovalConditionsListed(d: GovernanceDecision, now: int, cfg: ExecutorConfig, p: Platform)
    requires d.policy.approvalRequired || d.decisionSource == KmsHumanApproval
    ensures var reasons := GateReasons(d, now, cfg, p);
            && (!d.approval.approved ==> "human approval flag is false" in reasons)
            && (!d.approval.signatureVerified ==> "human approval signature was not verified" in reasons)
            && (d.approval.reviewer == "" ==> "human approval reviewer is missing" in reasons)
            && (d.approval.keyVersion == "" ==> "human approval KMS key version is missing" in reasons)
  {
    hide *;
    GroupsAreListed(d, now, cfg, p);
    HumanLines(d, GateReasons(d, now, cfg, p));
  }

  /** The executor runs the same policy file and allowlists at least what the policy may permit. */
  predicate Matches(gov: GovernanceConfig, exec: ExecutorConfig) {
    && gov.policyId == exec.expectedPolicyId
    && gov.policySha256 == exec.localPolicySha256 && IsSha256Hex(exec.localPolicySha256)
    && gov.allowedNamespaces <= exec.allowedNamespaces
    && gov.allowedDeployments <= exec.allowedDeployments
  }

  lemma PermitIsAllowlistedRestart(i: PolicyInput)
    ensures Decide(i).decision == Permit ==>
      && i.action == "restart_deployment" && i.targetNamespace in i.allowedNamespaces && i.targetDeployment in i.allowedDeployments
      && !Decide(i).approvalRequired
  {
    var r := ExactlyOneRuleFires(i);
    if Decide(i).decision == Permit { RestartVerdict(i); }
  }

  /**
   * Under matching configurations the gate admits a decision of the governance agent exactly when
   * the policy permitted it, execution is controlled and the decision has not expired.
   */
  lemma OpaDecisionAdmitted(a: AnalyzedIncident, decidedAt: int, now: int, gov: GovernanceConfig, exec: ExecutorConfig, p: Platform)
    requires Sound(p) && Matches(gov, exec)
    ensures Admits(Govern(a, decidedAt, gov, p), now, exec, p) <==>
      && Decide(BuildPolicyInput(a, gov)).decision == Permit
      && exec.executionMode == "controlled"
      && now < decidedAt + gov.decisionTtl
  {
    hide Decide, Admits;
    var input := BuildPolicyInput(a, gov);
    var d := Govern(a, decidedAt, gov, p);
    AdmissionMeans(d, now, exec, p);
    PermitIsAllowlistedRestart(input);
  }

  /** Denials, requests for approval and non-actions are never admitted, whatever the configuration. */
  lemma OnlyPermitsAdmitted(d: GovernanceDecision, now: int, cfg: ExecutorConfig, p: Platform)
    requires Admits(d, now, cfg, p)
    ensures d.decision == Permit && d.policy.decision == Permit
    ensures d.decisionSource == DgcOpa ==> cfg.executionMode == "controlled"
    ensures cfg.executionMode != "disabled"
  {
    AdmissionMeans(d, now, cfg, p);
  }
}
