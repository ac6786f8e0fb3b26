/**
 * Which decisions share an execution document. A decision id is made from the analysis id, the policy
 * and the verdict, and the analysis id from incident and revision alone, so two analyses of one incident
 * revision have one document even if they recommend different restarts.
 */
module SharedDocuments {
  import opened Prelude
  import opened Identifiers
  import opened RemediationPolicy
  import opened GovernanceModels
  import opened GovernanceAgent
  import opened ExecutorGate
  import opened ApprovalAgent
  import opened ExecutionLedger

  /** The same action on the same deployment. */
  predicate SameRestart(a: Analysis, b: Analysis) {
    var x, y := a.recommendedAction, b.recommendedAction;
    x.action == y.action && x.targetNamespace == y.targetNamespace && x.targetDeployment == y.targetDeployment
  }

  lemma ShareDocumentExactly(d: GovernanceDecision, d': GovernanceDecision, p: Platform)
    requires Sound(p)
    ensures DocumentId(d, p) == DocumentId(d', p) <==> d.governanceDecisionId == d'.governanceDecisionId
  {
    hide StableId, SplitAtColon;
    DocumentIdInjective(d, d', p);
  }

  lemma DecisionIdInjective(p: Platform, a: seq<string>, b: seq<string>)
    requires Sound(p)
    ensures StableId(p, "governance-decision", a) == StableId(p, "governance-decision", b) <==> a == b
  {
    hide StableId;
    StableIdInjective(p, "governance-decision", a, "governance-decision", b);
  }

  lemma VerdictNamesDiffer(v: Verdict, w: Verdict)
    ensures VerdictName(v) == VerdictName(w) <==> v == w
  {
    assert VerdictName(Permit)[0] == 'P' && VerdictName(Deny)[0] == 'D';
    assert VerdictName(RequireApproval)[0] == 'R' && VerdictName(NoAction)[0] == 'N';
  }

  /** Two decisions of governance agents share a document exactly when analysis, policy file and verdict agree. */
  lemma GovernedShareDocumentExactly(a: AnalyzedIncident, b: AnalyzedIncident, t: int, u: int, gov: GovernanceConfig, gov': GovernanceConfig,
                                     p: Platform)
    requires Sound(p)
    ensures DocumentId(Govern(a, t, gov, p), p) == DocumentId(Govern(b, u, gov', p), p) <==>
      a.analysisId == b.analysisId && gov.policySha256 == gov'.policySha256
      && Govern(a, t, gov, p).decision == Govern(b, u, gov', p).decision
  {
    hide StableId, Sound, Decide, DocumentId, BuildPolicyInput, VerdictName;
    var v, w := Decide(BuildPolicyInput(a, gov)).decision, Decide(BuildPolicyInput(b, gov')).decision;
    ShareDocumentExactly(Govern(a, t, gov, p), Govern(b, u, gov', p), p);
    DecisionIdInjective(p, [a.analysisId, gov.policySha256, VerdictName(v)], [b.analysisId, gov'.policySha256, VerdictName(w)]);
    ThreeEqual(a.analysisId, gov.policySha256, VerdictName(v), b.analysisId, gov'.policySha256, VerdictName(w));
    VerdictNamesDiffer(v, w);
  }

  lemma ThreeEqual(x: string, y: string, z: string, x': string, y': string, z': string)
    ensures [x, y, z] == [x', y', z'] <==> x == x' && y == y' && z == z'
  {
    assert [x, y, z] == [x', y', z'] ==> [x, y, z][0] == [x', y', z'][0] && [x, y, z][1] == [x', y', z'][1] && [x, y, z][2] == [x', y', z'][2];
  }

  /** Two human decisions share one exactly when original decision, approval and verdict agree. */
  lemma ResolvedShareDocumentExactly(o: GovernanceDecision, o': GovernanceDecision, e: Envelope, e': Envelope,
                                     expires: int, expires': int, t: int, u: int, cfg: ApprovalConfig, p: Platform)
    requires Sound(p)
    ensures DocumentId(ResolvedDecision(o, e, expires, t, cfg, p), p) == DocumentId(ResolvedDecision(o', e', expires', u, cfg, p), p) <==>
      o.governanceDecisionId == o'.governanceDecisionId && e.approvalId == e'.approvalId && e.decision == e'.decision
  {
    hide StableId, Sound, DocumentId, VerdictName;
    var v, w := if e.decision == APPROVE then Permit else Deny, if e'.decision == APPROVE then Permit else Deny;
    ShareDocumentExactly(ResolvedDecision(o, e, expires, t, cfg, p), ResolvedDecision(o', e', expires', u, cfg, p), p);
    DecisionIdInjective(p, [o.governanceDecisionId, e.approvalId, VerdictName(v)], [o'.governanceDecisionId, e'.approvalId, VerdictName(w)]);
    ThreeEqual(o.governanceDecisionId, e.approvalId, VerdictName(v), o'.governanceDecisionId, e'.approvalId, VerdictName(w));
    VerdictNamesDiffer(v, w);
  }

  predicate Permitted(a: AnalyzedIncident, gov: GovernanceConfig) {
    Decide(BuildPolicyInput(a, gov)).decision == Permit
  }

  /** Among the published analyses, an analysis id stands for one restart. */
  predicate AnalysesFixRestarts(analyzed: set<AnalyzedIncident>, gov: GovernanceConfig) {
    forall a, b :: a in analyzed && b in analyzed && Permitted(a, gov) && Permitted(b, gov) && a.analysisId == b.analysisId ==>
      SameRestart(a.analysis, b.analysis)
  }

  ghost predicate DocumentsFixRestarts(analyzed: set<AnalyzedIncident>, gov: GovernanceConfig, p: Platform) {
    forall a, b, t, u :: a in analyzed && b in analyzed && Permitted(a, gov) && Permitted(b, gov)
      && DocumentId(Govern(a, t, gov, p), p) == DocumentId(Govern(b, u, gov, p), p)
      ==> SameRestart(Govern(a, t, gov, p).analysis, Govern(b, u, gov, p).analysis)
  }

  /**
   * A document stands for one restart, over all permitted decisions that any redelivery can produce,
   * exactly when no two published analyses with one id recommend different restarts.
   */
  lemma DocumentsFixRestartsExactly(analyzed: set<AnalyzedIncident>, gov: GovernanceConfig, p: Platform)
    requires Sound(p)
    ensures DocumentsFixRestarts(analyzed, gov, p) <==> AnalysesFixRestarts(analyzed, gov)
  {
    hide DocumentId, Permitted, SameRestart, Govern, Sound;
    forall a, b, t, u | AnalysesFixRestarts(analyzed, gov)
      && a in analyzed && b in analyzed && Permitted(a, gov) && Permitted(b, gov)
      && DocumentId(Govern(a, t, gov, p), p) == DocumentId(Govern(b, u, gov, p), p)
      ensures SameRestart(Govern(a, t, gov, p).analysis, Govern(b, u, gov, p).analysis)
    {
      PermittedPair(a, b, t, u, gov, p);
    }
    forall a, b | DocumentsFixRestarts(analyzed, gov, p)
      && a in analyzed && b in analyzed && Permitted(a, gov) && Permitted(b, gov) && a.analysisId == b.analysisId
      ensures SameRestart(a.analysis, b.analysis)
    {
      PermittedPair(a, b, 0, 0, gov, p);
      assert DocumentId(Govern(a, 0, gov, p), p) == DocumentId(Govern(b, 0, gov, p), p);
    }
  }

  lemma PermittedPair(a: AnalyzedIncident, b: AnalyzedIncident, t: int, u: int, gov: GovernanceConfig, p: Platform)
    requires Sound(p) && Permitted(a, gov) && Permitted(b, gov)
    ensures DocumentId(Govern(a, t, gov, p), p) == DocumentId(Govern(b, u, gov, p), p) <==> a.analysisId == b.analysisId
    ensures Govern(a, t, gov, p).analysis == a.analysis && Govern(b, u, gov, p).analysis == b.analysis
  {
    hide DocumentId, Decide, BuildPolicyInput;
    GovernedShareDocumentExactly(a, b, t, u, gov, gov, p);
    GovernKeepsAnalysis(a, t, gov, p);
    GovernKeepsAnalysis(b, u, gov, p);
  }

  lemma GovernKeepsAnalysis(a: AnalyzedIncident, t: int, gov: GovernanceConfig, p: Platform)
    ensures Govern(a, t, gov, p).analysis == a.analysis
  {
    hide Decide;
  }

  // ---------------------------------------------------------------- which configurations rule it out

  /** The settings under which some analysis can be permitted outright. */
  predicate CanPermit(gov: GovernanceConfig) {
    && gov.automationMode == "controlled"
    && gov.thresholds.approvalConfidence <= 1.0 && gov.thresholds.automaticConfidence <= 1.0
    && gov.allowedNamespaces != {} && gov.allowedDeployments != {}
  }

  predicate OneTarget(gov: GovernanceConfig) {
    |gov.allowedNamespaces| <= 1 && |gov.allowedDeployments| <= 1
  }

  function Copies(n: int): (s: seq<string>)
    ensures |s| == Max(0, n)
  {
    seq(Max(0, n), _ => "")
  }

  /** One and the same incident, analysed with full confidence and enough evidence, for a given target. */
  function Sample(targetNamespace: string, targetDeployment: string, gov: GovernanceConfig): AnalyzedIncident {
    var th := gov.thresholds;
    AnalyzedIncident(
      "analysis", Incident("incident", Max(2, th.automaticMinSignals), Some(Copies(th.automaticMinSources))),
      Analysis("HIGH", 1.0, Copies(Max(2, th.automaticMinEvidence)),
               RecommendedAction("restart_deployment", targetNamespace, targetDeployment, "", "low", false)))
  }

  lemma SampleIsPermitted(targetNamespace: string, targetDeployment: string, gov: GovernanceConfig)
    requires CanPermit(gov) && targetNamespace in gov.allowedNamespaces && targetDeployment in gov.allowedDeployments
    ensures ValidAnalysis(Sample(targetNamespace, targetDeployment, gov).analysis)
    ensures Permitted(Sample(targetNamespace, targetDeployment, gov), gov)
  {
    hide Decide;
    var input := BuildPolicyInput(Sample(targetNamespace, targetDeployment, gov), gov);
    RestartVerdict(input);
    assert PassesHardChecks(input);
    assert forall c :: Holds(c, input);
  }

  lemma PermittedTarget(a: AnalyzedIncident, gov: GovernanceConfig)
    requires Permitted(a, gov) && ValidAnalysis(a.analysis)
    ensures CanPermit(gov)
    ensures a.analysis.recommendedAction.action == "restart_deployment"
    ensures a.analysis.recommendedAction.targetNamespace in gov.allowedNamespaces
    ensures a.analysis.recommendedAction.targetDeployment in gov.allowedDeployments
  {
    hide Decide;
    var input := BuildPolicyInput(a, gov);
    PermitIsAllowlistedRestart(input);
    RestartVerdict(input);
    assert Holds(ModeControlled, input) && Holds(ConfidentEnough, input);
  }

  /** The settings are exactly those under which a valid analysis can be permitted. */
  lemma CanPermitExactly(gov: GovernanceConfig)
    ensures CanPermit(gov) <==> exists a: AnalyzedIncident :: ValidAnalysis(a.analysis) && Permitted(a, gov)
  {
    if CanPermit(gov) {
      var m :| m in gov.allowedNamespaces;
      var d :| d in gov.allowedDeployments;
      SampleIsPermitted(m, d, gov);
    }
    hide Permitted, CanPermit, ValidAnalysis;
    if a: AnalyzedIncident :| ValidAnalysis(a.analysis) && Permitted(a, gov) {
      PermittedTarget(a, gov);
    }
  }

  lemma TheOnlyMember(s: set<string>, x: string, y: string)
    requires |s| <= 1 && x in s && y in s
    ensures x == y
  {
    var rest := s - {x};
    assert |rest| == |s| - 1;
    assert y == x || y in rest;
  }

  lemma TwoMembers(s: set<string>) returns (x: string, y: string)
    requires |s| >= 2
    ensures x in s && y in s && x != y
  {
    x :| x in s;
    assert |s - {x}| == |s| - 1;
    y :| y in s - {x};
  }

  /** Two analyses of one incident that the policy permits, under one analysis id, with different restarts. */
  lemma SamplesShareDocument(gov: GovernanceConfig, m: string, d: string, m': string, d': string, t: int, u: int, p: Platform)
    requires Sound(p) && CanPermit(gov) && (m != m' || d != d')
    requires m in gov.allowedNamespaces && m' in gov.allowedNamespaces && d in gov.allowedDeployments && d' in gov.allowedDeployments
    ensures var a, b := Sample(m, d, gov), Sample(m', d', gov);
            && ValidAnalysis(a.analysis) && ValidAnalysis(b.analysis) && a.incident == b.incident && a.analysisId == b.analysisId
            && Permitted(a, gov) && Permitted(b, gov) && !SameRestart(a.analysis, b.analysis)
            && DocumentId(Govern(a, t, gov, p), p) == DocumentId(Govern(b, u, gov, p), p)
  {
    hide Permitted, ValidAnalysis, Govern, DocumentId, CanPermit;
    SampleIsPermitted(m, d, gov);
    SampleIsPermitted(m', d', gov);
    PermittedPair(Sample(m, d, gov), Sample(m', d', gov), t, u, gov, p);
  }

  ghost predicate EveryDocumentOneRestart(gov: GovernanceConfig, p: Platform) {
    forall analyzed: set<AnalyzedIncident> ::
      (forall a :: a in analyzed ==> ValidAnalysis(a.analysis)) ==> DocumentsFixRestarts(analyzed, gov, p)
  }

  /**
   * Whatever valid analyses are published, every document stands for one restart exactly when the
   * configuration permits nothing or allowlists at most one namespace and one deployment.
   */
  lemma OneRestartPerDocumentExactly(gov: GovernanceConfig, p: Platform)
    requires Sound(p)
    ensures EveryDocumentOneRestart(gov, p) <==> !CanPermit(gov) || OneTarget(gov)
  {
    hide Sound, DocumentsFixRestarts;
    if !CanPermit(gov) || OneTarget(gov) {
      forall analyzed: set<AnalyzedIncident> | forall a :: a in analyzed ==> ValidAnalysis(a.analysis)
        ensures DocumentsFixRestarts(analyzed, gov, p)
      {
        SafeConfiguration(analyzed, gov, p);
      }
    } else {
      UnsafeConfiguration(gov, p);
    }
  }

  lemma SafeConfiguration(analyzed: set<AnalyzedIncident>, gov: GovernanceConfig, p: Platform)
    requires Sound(p) && (!CanPermit(gov) || OneTarget(gov))
    requires forall a :: a in analyzed ==> ValidAnalysis(a.analysis)
    ensures DocumentsFixRestarts(analyzed, gov, p)
  {
    hide Permitted, CanPermit, ValidAnalysis;
    forall a, b | a in analyzed && b in analyzed && Permitted(a, gov) && Permitted(b, gov) && a.analysisId == b.analysisId
      ensures SameRestart(a.analysis, b.analysis)
    {
      PermittedTarget(a, gov);
      PermittedTarget(b, gov);
      var x, y := a.analysis.recommendedAction, b.analysis.recommendedAction;
      TheOnlyMember(gov.allowedNamespaces, x.targetNamespace, y.targetNamespace);
      TheOnlyMember(gov.allowedDeployments, x.targetDeployment, y.targetDeployment);
    }
    hide DocumentsFixRestarts;
    DocumentsFixRestartsExactly(analyzed, gov, p);
  }

  lemma UnsafeConfiguration(gov: GovernanceConfig, p: Platform)
    requires Sound(p) && CanPermit(gov) && !OneTarget(gov)
    ensures !EveryDocumentOneRestart(gov, p)
  {
    var m :| m in gov.allowedNamespaces;
    var d :| d in gov.allowedDeployments;
    var m', d' := m, d;
    if |gov.allowedNamespaces| >= 2 {
      m, m' := TwoMembers(gov.allowedNamespaces);
    } else {
      d, d' := TwoMembers(gov.allowedDeployments);
    }
    SamplesShareDocument(gov, m, d, m', d', 0, 0, p);
    SamplesBreak(Sample(m, d, gov), Sample(m', d', gov), gov, p);
  }

  lemma SamplesBreak(a: AnalyzedIncident, b: AnalyzedIncident, gov: GovernanceConfig, p: Platform)
    requires ValidAnalysis(a.analysis) && ValidAnalysis(b.analysis)
    requires Permitted(a, gov) && Permitted(b, gov) && !SameRestart(a.analysis, b.analysis)
    requires DocumentId(Govern(a, 0, gov, p), p) == DocumentId(Govern(b, 0, gov, p), p)
    ensures !EveryDocumentOneRestart(gov, p)
  {
    hide Permitted, ValidAnalysis, Decide, DocumentId, SameRestart;
    GovernKeepsAnalysis(a, 0, gov, p);
    GovernKeepsAnalysis(b, 0, gov, p);
    hide Govern;
    assert a in {a, b} && b in {a, b};
    assert !DocumentsFixRestarts({a, b}, gov, p);
  }

  /**
   * When two analyses of one id differ in their restart, the one that completes first answers for the
   * other: the second decision is admitted, finds the first one's document completed, and is given the
   * result of the first one's gateway call.
   */
  lemma OtherRestartAnsweredByFirst(a: AnalyzedIncident, b: AnalyzedIncident, t: int, u: int, found: Option<Doc>,
                                    messageId: string, reply: GatewayReply, completedAt: int, readAt: int,
                                    gov: GovernanceConfig, exec: ExecutorConfig, p: Platform)
    requires Sound(p) && Matches(gov, exec) && exec.executionMode == "controlled" && gov.decisionTtl > 0
    requires Permitted(a, gov) && Permitted(b, gov) && a.analysisId == b.analysisId && !SameRestart(a.analysis, b.analysis)
    ensures var first, second := Govern(a, t, gov, p), Govern(b, u, gov, p);
            && DocumentId(second, p) == DocumentId(first, p)
            && Admits(second, u, exec, p)
            && !SameRestart(first.analysis, second.analysis)
            && Claim(Some(CompletedDoc(found, CallResult(first, messageId, reply), completedAt)), readAt)
               == Completed(CallResult(first, messageId, reply))
  {
    hide DocumentId, Decide, BuildPolicyInput, Govern, Admits;
    PermittedPair(b, a, u, t, gov, p);
    OpaDecisionAdmitted(b, u, u, gov, exec, p);
  }
}
