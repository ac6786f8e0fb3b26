/** The governance policy: policy/governance/remediation.rego as a function of its input. */
module RemediationPolicy {
  import opened StringOrder

  datatype Thresholds = Thresholds(
    approvalConfidence: real,
    automaticConfidence: real,
    automaticMinSignals: int,
    automaticMinSources: int,
    automaticMinEvidence: int)

  datatype PolicyInput = PolicyInput(
    analysisId: string,
    incidentId: string,
    action: string,
    targetNamespace: string,
    targetDeployment: string,
    assessedSeverity: string,
    confidence: real,
    operationalRisk: string,
    requiresHumanApproval: bool,
    signalCount: int,
    sourceCount: int,
    evidenceCount: int,
    automationMode: string,
    allowedNamespaces: set<string>,
    allowedDeployments: set<string>,
    thresholds: Thresholds)

  datatype Verdict = Permit | Deny | RequireApproval | NoAction

  datatype PolicyResult = PolicyResult(decision: Verdict, riskTier: string, approvalRequired: bool, reasons: seq<string>)

  predicate IsNoAction(i: PolicyInput) {
    i.action == "none" || i.action == "investigate"
  }

  predicate IsRestart(i: PolicyInput) {
    i.action == "restart_deployment"
  }

  predicate SeverityActionable(i: PolicyInput) {
    i.assessedSeverity == "HIGH" || i.assessedSeverity == "CRITICAL"
  }

  predicate RiskApprovable(i: PolicyInput) {
    i.operationalRisk == "low" || i.operationalRisk == "medium"
  }

  // ---------------------------------------------------------------- the rules as written

  function If(condition: bool, reason: string): set<string> {
    if condition then {reason} else {}
  }

  function HardDenials(i: PolicyInput): set<string> {
    ActionDenials(i) + TargetDenials(i)
  }

  function ActionDenials(i: PolicyInput): set<string> {
    If(!IsNoAction(i) && !IsRestart(i), "unsupported remediation action")
    + If(IsRestart(i) && !SeverityActionable(i), "assessed severity is below HIGH")
    + If(IsRestart(i) && i.confidence < i.thresholds.approvalConfidence, "analysis confidence is below the approval threshold")
    + If(IsRestart(i) && !RiskApprovable(i), "operational risk is too high")
  }

  function TargetDenials(i: PolicyInput): set<string> {
    If(IsRestart(i) && i.targetNamespace !in i.allowedNamespaces, "target namespace is not allowlisted")
    + If(IsRestart(i) && i.targetDeployment !in i.allowedDeployments, "target deployment is not allowlisted")
    + If(IsRestart(i) && i.signalCount < 2, "incident has fewer than two correlated signals")
    + If(IsRestart(i) && i.evidenceCount < 2, "analysis has fewer than two evidence items")
  }

  predicate SafeCandidate(i: PolicyInput) {
    IsRestart(i) && HardDenials(i) == {}
  }

  predicate AutomaticCandidate(i: PolicyInput) {
    && SafeCandidate(i)
    && i.automationMode == "controlled"
    && i.assessedSeverity == "HIGH"
    && i.confidence >= i.thresholds.automaticConfidence
    && i.operationalRisk == "low"
    && !i.requiresHumanApproval
    && i.signalCount >= i.thresholds.automaticMinSignals
    && i.sourceCount >= i.thresholds.automaticMinSources
    && i.evidenceCount >= i.thresholds.automaticMinEvidence
  }

  predicate ApprovalCandidate(i: PolicyInput) {
    SafeCandidate(i) && !AutomaticCandidate(i)
  }

  function ApprovalReasons(i: PolicyInput): set<string> {
    if ApprovalCandidate(i) then ManualControls(i) else {}
  }

  /** The bodies of the approval_reasons rules below their common first condition. */
  function ManualControls(i: PolicyInput): set<string> {
    JudgementControls(i) + EvidenceControls(i)
  }

  function JudgementControls(i: PolicyInput): set<string> {
    If(i.automationMode != "controlled", "automation mode is not controlled")
    + If(i.requiresHumanApproval, "analysis explicitly requires human approval")
    + If(i.assessedSeverity == "CRITICAL", "CRITICAL incidents require human approval")
    + If(i.operationalRisk == "medium", "operational risk is medium")
  }

  function EvidenceControls(i: PolicyInput): set<string> {
    If(i.confidence < i.thresholds.automaticConfidence, "confidence is below the automatic threshold")
    + If(i.signalCount < i.thresholds.automaticMinSignals, "signal count is below the automatic threshold")
    + If(i.sourceCount < i.thresholds.automaticMinSources, "source diversity is below the automatic threshold")
    + If(i.evidenceCount < i.thresholds.automaticMinEvidence, "evidence count is below the automatic threshold")
  }

  /** The four conditional definitions of decision; the default applies when none of them does. */
  datatype Rule = NoActionRule | PermitRule | ApprovalRule | DenyRule

  predicate Fires(r: Rule, i: PolicyInput) {
    match r
    case NoActionRule => IsNoAction(i)
    case PermitRule => AutomaticCandidate(i)
    case ApprovalRule => ApprovalCandidate(i)
    case DenyRule => !IsNoAction(i) && HardDenials(i) != {}
  }

  function Outcome(r: Rule, i: PolicyInput): PolicyResult {
    match r
    case NoActionRule => PolicyResult(NoAction, "low", false, ["analysis recommended no operational change"])
    case PermitRule => PolicyResult(Permit, "low", false, ["all automatic remediation controls passed"])
    case ApprovalRule => PolicyResult(RequireApproval, i.operationalRisk, true, Sorted(ApprovalReasons(i)))
    case DenyRule => PolicyResult(Deny, "high", false, Sorted(HardDenials(i)))
  }

  const DEFAULT_OUTCOME := PolicyResult(Deny, "high", false, ["no governance rule matched"])

  function Decide(i: PolicyInput): PolicyResult {
    if Fires(NoActionRule, i) then Outcome(NoActionRule, i)
    else if Fires(PermitRule, i) then Outcome(PermitRule, i)
    else if Fires(ApprovalRule, i) then Outcome(ApprovalRule, i)
    else if Fires(DenyRule, i) then Outcome(DenyRule, i)
    else DEFAULT_OUTCOME
  }

  // ---------------------------------------------------------------- totality

  /**
   * For every input exactly one conditional definition applies. So no two of them conflict, the
   * order in which Decide tries them is immaterial, and the default is never reached.
   */
  lemma ExactlyOneRuleFires(i: PolicyInput) returns (r: Rule)
    ensures Fires(r, i)
    ensures forall q :: Fires(q, i) ==> q == r
    ensures Decide(i) == Outcome(r, i)
  {
    hide HardDenials, ApprovalReasons, Sorted;
    var safe, automatic := SafeCandidate(i), AutomaticCandidate(i);
    NoActionHasNoDenials(i);
    r := if IsNoAction(i) then NoActionRule
         else if automatic then PermitRule
         else if safe then ApprovalRule
         else DenyRule;
    forall q | Fires(q, i) ensures q == r {
      match q case NoActionRule => case PermitRule => case ApprovalRule => case DenyRule =>
    }
  }

  /** Only a restart, or an action no rule knows, can be hard-denied. */
  lemma NoActionHasNoDenials(i: PolicyInput)
    ensures IsNoAction(i) ==> HardDenials(i) == {}
    ensures !IsNoAction(i) && HardDenials(i) == {} ==> IsRestart(i)
  {
    if !IsNoAction(i) && !IsRestart(i) {
      assert "unsupported remediation action" in HardDenials(i);
    }
  }

  // ---------------------------------------------------------------- reasons name the failed controls

  /** The eight controls that separate automatic execution from a human decision. */
  datatype Control =
    | ModeControlled | NoApprovalRequested | SeverityHigh | RiskLow
    | ConfidentEnough | EnoughSignals | EnoughSources | EnoughEvidence

  predicate Holds(c: Control, i: PolicyInput) {
    match c
    case ModeControlled => i.automationMode == "controlled"
    case NoApprovalRequested => !i.requiresHumanApproval
    case SeverityHigh => i.assessedSeverity == "HIGH"
    case RiskLow => i.operationalRisk == "low"
    case ConfidentEnough => i.confidence >= i.thresholds.automaticConfidence
    case EnoughSignals => i.signalCount >= i.thresholds.automaticMinSignals
    case EnoughSources => i.sourceCount >= i.thresholds.automaticMinSources
    case EnoughEvidence => i.evidenceCount >= i.thresholds.automaticMinEvidence
  }

  function Explains(c: Control): string {
    match c
    case ModeControlled => "automation mode is not controlled"
    case NoApprovalRequested => "analysis explicitly requires human approval"
    case SeverityHigh => "CRITICAL incidents require human approval"
    case RiskLow => "operational risk is medium"
    case ConfidentEnough => "confidence is below the automatic threshold"
    case EnoughSignals => "signal count is below the automatic threshold"
    case EnoughSources => "source diversity is below the automatic threshold"
    case EnoughEvidence => "evidence count is below the automatic threshold"
  }

  /** The checks a restart must pass before anyone may authorize it. */
  predicate PassesHardChecks(i: PolicyInput) {
    && SeverityActionable(i)
    && i.confidence >= i.thresholds.approvalConfidence
    && RiskApprovable(i)
    && i.targetNamespace in i.allowedNamespaces
    && i.targetDeployment in i.allowedDeployments
    && i.signalCount >= 2
    && i.evidenceCount >= 2
  }

  lemma NoDenialsMeansChecksPass(i: PolicyInput)
    requires IsRestart(i)
    ensures HardDenials(i) == {} <==> PassesHardChecks(i)
  {
    if HardDenials(i) == {} {
      assert !SeverityActionable(i) ==> "assessed severity is below HIGH" in HardDenials(i);
      assert i.confidence < i.thresholds.approvalConfidence ==> "analysis confidence is below the approval threshold" in HardDenials(i);
      assert !RiskApprovable(i) ==> "operational risk is too high" in HardDenials(i);
      assert i.targetNamespace !in i.allowedNamespaces ==> "target namespace is not allowlisted" in HardDenials(i);
      assert i.targetDeployment !in i.allowedDeployments ==> "target deployment is not allowlisted" in HardDenials(i);
      assert i.signalCount < 2 ==> "incident has fewer than two correlated signals" in HardDenials(i);
      assert i.evidenceCount < 2 ==> "analysis has fewer than two evidence items" in HardDenials(i);
    }
  }

  /** What each of the three verdicts on a restart means, in terms of the checks alone. */
  lemma RestartVerdict(i: PolicyInput)
    requires IsRestart(i)
    ensures Decide(i).decision == Deny <==> !PassesHardChecks(i)
    ensures Decide(i).decision == Permit <==> PassesHardChecks(i) && forall c :: Holds(c, i)
    ensures Decide(i).decision == RequireApproval <==> PassesHardChecks(i) && exists c :: !Holds(c, i)
    ensures Decide(i).approvalRequired <==> Decide(i).decision == RequireApproval
  {
    hide HardDenials, ApprovalReasons, PassesHardChecks, Holds, Sorted;
    NoDenialsMeansChecksPass(i);
    AutomaticMeansAllControls(i);
  }

  /** The verdict on any action, known to the rules or not. */
  lemma VerdictExactly(i: PolicyInput)
    ensures Decide(i).decision == NoAction <==> IsNoAction(i)
    ensures Decide(i).decision == Permit <==> IsRestart(i) && PassesHardChecks(i) && forall c :: Holds(c, i)
    ensures Decide(i).decision == RequireApproval <==> IsRestart(i) && PassesHardChecks(i) && exists c :: !Holds(c, i)
    ensures Decide(i).decision == Deny <==> !IsNoAction(i) && !(IsRestart(i) && PassesHardChecks(i))
    ensures Decide(i).approvalRequired <==> Decide(i).decision == RequireApproval
  {
    if IsRestart(i) {
      RestartVerdict(i);
      hide *;
      RestartActs(i);
    } else {
      UnknownDenied(i);
    }
  }

  lemma RestartActs(i: PolicyInput)
    requires IsRestart(i)
    ensures !IsNoAction(i) && Decide(i).decision != NoAction
  {
    hide HardDenials, ApprovalReasons, Sorted;
  }

  lemma UnknownDenied(i: PolicyInput)
    requires !IsRestart(i)
    ensures Decide(i).decision == if IsNoAction(i) then NoAction else Deny
    ensures !Decide(i).approvalRequired
  {
    hide HardDenials, ApprovalReasons, Sorted;
    NoActionHasNoDenials(i);
  }

  lemma AutomaticMeansAllControls(i: PolicyInput)
    ensures AutomaticCandidate(i) <==> SafeCandidate(i) && forall c :: Holds(c, i)
  {
    if SafeCandidate(i) && forall c :: Holds(c, i) {
      assert Holds(ModeControlled, i) && Holds(NoApprovalRequested, i) && Holds(SeverityHigh, i) && Holds(RiskLow, i);
      assert Holds(ConfidentEnough, i) && Holds(EnoughSignals, i) && Holds(EnoughSources, i) && Holds(EnoughEvidence, i);
    }
  }

  /** The explanations are pairwise different; length and last letter tell them apart. */
  lemma ExplanationsDiffer(c: Control, e: Control)
    ensures Explains(c) == Explains(e) ==> c == e
  {
    ExplanationShape(c);
    ExplanationShape(e);
    hide Explains;
  }

  function ShapeOf(c: Control): (int, char) {
    match c
    case ModeControlled => (33, 'd')
    case NoApprovalRequested => (43, 'l')
    case SeverityHigh => (41, 'l')
    case RiskLow => (26, 'm')
    case ConfidentEnough => (43, 'd')
    case EnoughSignals => (45, 'd')
    case EnoughSources => (49, 'd')
    case EnoughEvidence => (47, 'd')
  }

  lemma ExplanationShape(c: Control)
    ensures |Explains(c)| > 0 && (|Explains(c)|, Explains(c)[|Explains(c)| - 1]) == ShapeOf(c)
  {
    if c.ModeControlled? || c.NoApprovalRequested? || c.SeverityHigh? || c.RiskLow? {
      JudgementShape(c);
    } else {
      EvidenceShape(c);
    }
    hide Explains, ShapeOf;
  }

  lemma JudgementShape(c: Control)
    requires c.ModeControlled? || c.NoApprovalRequested? || c.SeverityHigh? || c.RiskLow?
    ensures |Explains(c)| > 0 && (|Explains(c)|, Explains(c)[|Explains(c)| - 1]) == ShapeOf(c)
  {
  }

  lemma EvidenceShape(c: Control)
    requires c.ConfidentEnough? || c.EnoughSignals? || c.EnoughSources? || c.EnoughEvidence?
    ensures |Explains(c)| > 0 && (|Explains(c)|, Explains(c)[|Explains(c)| - 1]) == ShapeOf(c)
  {
  }

  lemma ManualControlHasReason(c: Control, i: PolicyInput)
    requires SeverityActionable(i) && RiskApprovable(i)
    ensures !Holds(c, i) ==> Explains(c) in ManualControls(i)
  {
    if !Holds(c, i) {
      if c.ModeControlled? || c.NoApprovalRequested? || c.SeverityHigh? || c.RiskLow? {
        FailedJudgementListed(c, i);
      } else {
        FailedEvidenceListed(c, i);
      }
    }
  }

  lemma FailedJudgementListed(c: Control, i: PolicyInput)
    requires SeverityActionable(i) && RiskApprovable(i) && !Holds(c, i)
    requires c.ModeControlled? || c.NoApprovalRequested? || c.SeverityHigh? || c.RiskLow?
    ensures Explains(c) in JudgementControls(i)
  {
    var reasons := JudgementControls(i);
    assert i.automationMode != "controlled" ==> "automation mode is not controlled" in reasons;
    assert i.requiresHumanApproval ==> "analysis explicitly requires human approval" in reasons;
    assert i.assessedSeverity == "CRITICAL" ==> "CRITICAL incidents require human approval" in reasons;
    assert i.operationalRisk == "medium" ==> "operational risk is medium" in reasons;
  }

  lemma FailedEvidenceListed(c: Control, i: PolicyInput)
    requires !Holds(c, i)
    requires c.ConfidentEnough? || c.EnoughSignals? || c.EnoughSources? || c.EnoughEvidence?
    ensures Explains(c) in EvidenceControls(i)
  {
    var reasons := EvidenceControls(i);
    assert !Holds(ConfidentEnough, i) ==> "confidence is below the automatic threshold" in reasons;
    assert !Holds(EnoughSignals, i) ==> "signal count is below the automatic threshold" in reasons;
    assert !Holds(EnoughSources, i) ==> "source diversity is below the automatic threshold" in reasons;
    assert !Holds(EnoughEvidence, i) ==> "evidence count is below the automatic threshold" in reasons;
  }

  lemma JudgementReason(x: string, i: PolicyInput) returns (c: Control)
    requires x in JudgementControls(i)
    ensures !Holds(c, i) && x == Explains(c)
  {
    if i.automationMode != "controlled" && x == Explains(ModeControlled) { return ModeControlled; }
    if i.requiresHumanApproval && x == Explains(NoApprovalRequested) { return NoApprovalRequested; }
    if i.assessedSeverity == "CRITICAL" && x == Explains(SeverityHigh) { return SeverityHigh; }
    return RiskLow;
  }

  lemma EvidenceReason(x: string, i: PolicyInput) returns (c: Control)
    requires x in EvidenceControls(i)
    ensures !Holds(c, i) && x == Explains(c)
  {
    if !Holds(ConfidentEnough, i) && x == Explains(ConfidentEnough) { return ConfidentEnough; }
    if !Holds(EnoughSignals, i) && x == Explains(EnoughSignals) { return EnoughSignals; }
    if !Holds(EnoughSources, i) && x == Explains(EnoughSources) { return EnoughSources; }
    return EnoughEvidence;
  }

  lemma ReasonHasManualControl(x: string, i: PolicyInput) returns (c: Control)
    requires x in ManualControls(i)
    ensures !Holds(c, i) && x == Explains(c)
  {
    if x in JudgementControls(i) {
      c := JudgementReason(x, i);
    } else {
      c := EvidenceReason(x, i);
    }
  }

  /** The approval rules, read as one rule per control. */
  lemma ManualControlsAreFailedControls(x: string, i: PolicyInput)
    requires SeverityActionable(i) && RiskApprovable(i)
    ensures x in ManualControls(i) <==> exists c :: !Holds(c, i) && x == Explains(c)
  {
    if x in ManualControls(i) {
      var c := ReasonHasManualControl(x, i);
    }
    forall c { ManualControlHasReason(c, i); }
  }

  lemma ApprovalCandidateChecks(i: PolicyInput)
    requires Decide(i).decision == RequireApproval
    ensures ApprovalCandidate(i) && Decide(i) == Outcome(ApprovalRule, i)
    ensures IsRestart(i) && PassesHardChecks(i) && exists c :: !Holds(c, i)
  {
    hide Decide, PassesHardChecks, Holds;
    var r := ExactlyOneRuleFires(i);
    RestartVerdict(i);
  }

  /**
   * A request for approval carries a nonempty ascending list of reasons, and the reason of a control
   * is on the list exactly when that control failed.
   */
  lemma ReasonsNameFailedControls(i: PolicyInput)
    requires Decide(i).decision == RequireApproval
    ensures Decide(i).reasons != [] && Ascending(Decide(i).reasons)
    ensures forall c :: Explains(c) in Decide(i).reasons <==> !Holds(c, i)
    ensures forall x :: x in Decide(i).reasons ==> exists c :: x == Explains(c)
    ensures Decide(i).riskTier in {"low", "medium"}
  {
    ApprovalCandidateChecks(i);
    ReasonListMembers(i);
    var failed :| !Holds(failed, i);
    assert Explains(failed) in Decide(i).reasons;
  }

  lemma ReasonListMembers(i: PolicyInput)
    requires SeverityActionable(i) && RiskApprovable(i)
    ensures forall c :: Explains(c) in ManualControls(i) <==> !Holds(c, i)
    ensures forall x :: x in ManualControls(i) ==> exists c :: x == Explains(c)
  {
    forall c ensures Explains(c) in ManualControls(i) <==> !Holds(c, i) {
      ManualControlsAreFailedControls(Explains(c), i);
      forall e ensures Explains(c) == Explains(e) ==> c == e { ExplanationsDiffer(c, e); }
    }
    forall x | x in ManualControls(i) ensures exists c :: x == Explains(c) {
      ManualControlsAreFailedControls(x, i);
    }
  }

  // ---------------------------------------------------------------- denials name the failed checks

  datatype HardCheck =
    | ActionKnown | SeverityHighEnough | ConfidentAtAll | RiskNotHigh
    | NamespaceListed | DeploymentListed | TwoSignals | TwoEvidenceItems

  predicate Fails(h: HardCheck, i: PolicyInput) {
    match h
    case ActionKnown => i.action !in {"none", "investigate", "restart_deployment"}
    case SeverityHighEnough => i.action == "restart_deployment" && i.assessedSeverity !in {"HIGH", "CRITICAL"}
    case ConfidentAtAll => i.action == "restart_deployment" && i.confidence < i.thresholds.approvalConfidence
    case RiskNotHigh => i.action == "restart_deployment" && i.operationalRisk !in {"low", "medium"}
    case NamespaceListed => i.action == "restart_deployment" && i.targetNamespace !in i.allowedNamespaces
    case DeploymentListed => i.action == "restart_deployment" && i.targetDeployment !in i.allowedDeployments
    case TwoSignals => i.action == "restart_deployment" && i.signalCount < 2
    case TwoEvidenceItems => i.action == "restart_deployment" && i.evidenceCount < 2
  }

  function Denial(h: HardCheck): string {
    match h
    case ActionKnown => "unsupported remediation action"
    case SeverityHighEnough => "assessed severity is below HIGH"
    case ConfidentAtAll => "analysis confidence is below the approval threshold"
    case RiskNotHigh => "operational risk is too high"
    case NamespaceListed => "target namespace is not allowlisted"
    case DeploymentListed => "target deployment is not allowlisted"
    case TwoSignals => "incident has fewer than two correlated signals"
    case TwoEvidenceItems => "analysis has fewer than two evidence items"
  }

  function DenialLength(h: HardCheck): int {
    match h
    case ActionKnown => 30
    case SeverityHighEnough => 31
    case ConfidentAtAll => 51
    case RiskNotHigh => 28
    case NamespaceListed => 35
    case DeploymentListed => 36
    case TwoSignals => 46
    case TwoEvidenceItems => 42
  }

  lemma DenialsDiffer(h: HardCheck, g: HardCheck)
    ensures Denial(h) == Denial(g) ==> h == g
  {
    DenialShape(h);
    DenialShape(g);
    hide Denial;
  }

  lemma DenialShape(h: HardCheck)
    ensures |Denial(h)| == DenialLength(h)
  {
  }

  lemma FailedActionCheckListed(h: HardCheck, i: PolicyInput)
    requires Fails(h, i) && (h.ActionKnown? || h.SeverityHighEnough? || h.ConfidentAtAll? || h.RiskNotHigh?)
    ensures Denial(h) in ActionDenials(i)
  {
  }

  lemma FailedTargetCheckListed(h: HardCheck, i: PolicyInput)
    requires Fails(h, i) && (h.NamespaceListed? || h.DeploymentListed? || h.TwoSignals? || h.TwoEvidenceItems?)
    ensures Denial(h) in TargetDenials(i)
  {
  }

  lemma FailedCheckListed(h: HardCheck, i: PolicyInput)
    requires Fails(h, i)
    ensures Denial(h) in HardDenials(i)
  {
    if h.ActionKnown? || h.SeverityHighEnough? || h.ConfidentAtAll? || h.RiskNotHigh? {
      FailedActionCheckListed(h, i);
    } else {
      FailedTargetCheckListed(h, i);
    }
    hide ActionDenials, TargetDenials, Denial;
  }

  lemma ActionDenialHasCheck(x: string, i: PolicyInput) returns (h: HardCheck)
    requires x in ActionDenials(i)
    ensures Fails(h, i) && x == Denial(h)
  {
    if Fails(ActionKnown, i) && x == Denial(ActionKnown) { return ActionKnown; }
    if Fails(SeverityHighEnough, i) && x == Denial(SeverityHighEnough) { return SeverityHighEnough; }
    if Fails(ConfidentAtAll, i) && x == Denial(ConfidentAtAll) { return ConfidentAtAll; }
    return RiskNotHigh;
  }

  lemma TargetDenialHasCheck(x: string, i: PolicyInput) returns (h: HardCheck)
    requires x in TargetDenials(i)
    ensures Fails(h, i) && x == Denial(h)
  {
    if Fails(NamespaceListed, i) && x == Denial(NamespaceListed) { return NamespaceListed; }
    if Fails(DeploymentListed, i) && x == Denial(DeploymentListed) { return DeploymentListed; }
    if Fails(TwoSignals, i) && x == Denial(TwoSignals) { return TwoSignals; }
    return TwoEvidenceItems;
  }

  lemma DenialHasCheck(x: string, i: PolicyInput) returns (h: HardCheck)
    requires x in HardDenials(i)
    ensures Fails(h, i) && x == Denial(h)
  {
    hide Fails, Denial, ActionDenials, TargetDenials;
    if x in ActionDenials(i) {
      h := ActionDenialHasCheck(x, i);
    } else {
      h := TargetDenialHasCheck(x, i);
    }
  }

  lemma DenialsAreFailedChecks(i: PolicyInput)
    ensures forall h :: Denial(h) in HardDenials(i) <==> Fails(h, i)
    ensures forall x :: x in HardDenials(i) ==> exists h :: x == Denial(h)
  {
    hide Fails, Denial, HardDenials;
    forall h ensures Denial(h) in HardDenials(i) <==> Fails(h, i) {
      if Fails(h, i) { FailedCheckListed(h, i); }
      if Denial(h) in HardDenials(i) {
        var g := DenialHasCheck(Denial(h), i);
        DenialsDiffer(h, g);
      }
    }
    forall x | x in HardDenials(i) ensures exists h :: x == Denial(h) {
      var h := DenialHasCheck(x, i);
    }
  }

  /** A denial carries a nonempty ascending list that names a check exactly when it failed. */
  lemma DenialsNameFailedChecks(i: PolicyInput)
    requires Decide(i).decision == Deny
    ensures Decide(i).reasons != [] && Ascending(Decide(i).reasons) && Decide(i).riskTier == "high"
    ensures forall h :: Denial(h) in Decide(i).reasons <==> Fails(h, i)
    ensures forall x :: x in Decide(i).reasons ==> exists h :: x == Denial(h)
  {
    DenialsAreFailedChecks(i);
    DenialIsSorted(i);
    hide Decide, HardDenials, Denial, Fails, Sorted;
  }

  lemma DenialIsSorted(i: PolicyInput)
    requires Decide(i).decision == Deny
    ensures HardDenials(i) != {} && Decide(i) == PolicyResult(Deny, "high", false, Sorted(HardDenials(i)))
  {
    hide HardDenials, ApprovalReasons, Sorted;
    var r := ExactlyOneRuleFires(i);
  }

  /** The two other verdicts explain themselves in one fixed line, and both are low risk. */
  lemma FixedExplanations(i: PolicyInput)
    ensures Decide(i).decision == Permit ==> Decide(i).reasons == ["all automatic remediation controls passed"] && Decide(i).riskTier == "low"
    ensures Decide(i).decision == NoAction ==> Decide(i).reasons == ["analysis recommended no operational change"] && Decide(i).riskTier == "low"
    ensures Decide(i).decision == RequireApproval ==> Decide(i).riskTier == i.operationalRisk
  {
    hide HardDenials, ApprovalReasons, Sorted;
    var r := ExactlyOneRuleFires(i);
  }

  // ---------------------------------------------------------------- monotonicity

  function Strictness(v: Verdict): int {
    match v case Deny => 0 case RequireApproval => 1 case Permit => 2 case NoAction => 0
  }

  function RiskRank(risk: string): int {
    if risk == "low" then 0 else if risk == "medium" then 1 else 2
  }

  /** b is a restart of the same target at the same severity with at least as much in its favour. */
  predicate AtLeastAsSafe(a: PolicyInput, b: PolicyInput) {
    && IsRestart(a) && IsRestart(b)
    && a.targetNamespace == b.targetNamespace
    && a.targetDeployment == b.targetDeployment
    && a.assessedSeverity == b.assessedSeverity
    && a.confidence <= b.confidence
    && a.signalCount <= b.signalCount
    && a.sourceCount <= b.sourceCount
    && a.evidenceCount <= b.evidenceCount
    && RiskRank(b.operationalRisk) <= RiskRank(a.operationalRisk)
    && (b.requiresHumanApproval ==> a.requiresHumanApproval)
    && (b.automationMode == a.automationMode || b.automationMode == "controlled")
    && a.allowedNamespaces <= b.allowedNamespaces
    && a.allowedDeployments <= b.allowedDeployments
    && b.thresholds.approvalConfidence <= a.thresholds.approvalConfidence
    && b.thresholds.automaticConfidence <= a.thresholds.automaticConfidence
    && b.thresholds.automaticMinSignals <= a.thresholds.automaticMinSignals
    && b.thresholds.automaticMinSources <= a.thresholds.automaticMinSources
    && b.thresholds.automaticMinEvidence <= a.thresholds.automaticMinEvidence
  }

  /** Better evidence, lower risk, looser thresholds or wider allowlists never make the verdict stricter. */
  lemma VerdictIsMonotone(a: PolicyInput, b: PolicyInput)
    requires AtLeastAsSafe(a, b)
    ensures Strictness(Decide(a).decision) <= Strictness(Decide(b).decision)
  {
    BetterInputPassesMore(a, b);
    VerdictRank(a);
    VerdictRank(b);
  }

  lemma BetterInputPassesMore(a: PolicyInput, b: PolicyInput)
    requires AtLeastAsSafe(a, b)
    ensures PassesHardChecks(a) ==> PassesHardChecks(b)
    ensures PassesHardChecks(a) ==> forall c :: Holds(c, a) ==> Holds(c, b)
  {
  }

  lemma VerdictRank(i: PolicyInput)
    requires IsRestart(i)
    ensures Strictness(Decide(i).decision)
         == if !PassesHardChecks(i) then 0 else if forall c :: Holds(c, i) then 2 else 1
  {
    hide Decide, PassesHardChecks, Holds;
    var r := ExactlyOneRuleFires(i);
    RestartVerdict(i);
  }
}
