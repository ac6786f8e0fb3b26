/** Deleting an execution document at its TTL, seen together with the expiry of decisions. */
module Retention {
  import opened Prelude
  import opened Identifiers
  import opened RemediationPolicy
  import opened GovernanceModels
  import opened GovernanceAgent
  import opened ExecutorGate
  import opened ApprovalAgent
  import opened ExecutionLedger
  import LedgerRuns

  predicate Outlived(claimedAt: int, cfg: LedgerConfig, now: int) {
    ClaimedDoc(None, claimedAt, cfg).expiresAt.Some? && ClaimedDoc(None, claimedAt, cfg).expiresAt.value <= now
  }

  /**
   * The gate admits an OPA decision at some moment after the document that a claim wrote may be deleted
   * exactly when the policy permitted it, execution is controlled, and it was made later than the
   * retention time minus the decision lifetime after the claim.
   */
  lemma OutlivesRecordExactly(a: AnalyzedIncident, decidedAt: int, claimedAt: int,
                              gov: GovernanceConfig, exec: ExecutorConfig, cfg: LedgerConfig, p: Platform)
    requires Sound(p) && Matches(gov, exec)
    ensures (exists now :: Outlived(claimedAt, cfg, now) && Admits(Govern(a, decidedAt, gov, p), now, exec, p)) <==>
      && Decide(BuildPolicyInput(a, gov)).decision == Permit
      && exec.executionMode == "controlled"
      && decidedAt > claimedAt + cfg.ttl - gov.decisionTtl
  {
    hide Admits, Govern, Decide, BuildPolicyInput;
    forall now {
      OpaDecisionAdmitted(a, decidedAt, now, gov, exec, p);
    }
    assert Outlived(claimedAt, cfg, claimedAt + cfg.ttl);
  }

  /** So no decision that existed at the claim can be executed again, if records outlast decisions. */
  lemma NoEarlierDecisionOutlivesRecord(a: AnalyzedIncident, decidedAt: int, claimedAt: int, now: int,
                                        gov: GovernanceConfig, exec: ExecutorConfig, cfg: LedgerConfig, p: Platform)
    requires Sound(p) && Matches(gov, exec) && gov.decisionTtl <= cfg.ttl
    requires decidedAt <= claimedAt && Outlived(claimedAt, cfg, now)
    ensures !Admits(Govern(a, decidedAt, gov, p), now, exec, p)
  {
    hide Admits, Govern;
    OpaDecisionAdmitted(a, decidedAt, now, gov, exec, p);
  }

  /** The same exact condition for a human decision on a request for approval. */
  lemma ResolvedOutlivesRecordExactly(a: AnalyzedIncident, analyzedAt: int, e: Envelope, r: ApprovalRecord,
                                      checkedAt: int, readAt: int, decidedAt: int, claimedAt: int,
                                      gov: GovernanceConfig, approval: ApprovalConfig, exec: ExecutorConfig, cfg: LedgerConfig, p: Platform)
    requires Sound(p) && Matches(gov, exec) && approval.keyVersion != ""
    requires Decide(BuildPolicyInput(a, gov)).decision == RequireApproval
    requires r.requestEvent.governanceDecision == Govern(a, analyzedAt, gov, p)
    requires Evaluate(e, Some(r), checkedAt, readAt, decidedAt, approval, p).Ok?
    ensures var d := Evaluate(e, Some(r), checkedAt, readAt, decidedAt, approval, p).value;
            && p.parse(d.expiresAt).Some?
            && ((exists now :: Outlived(claimedAt, cfg, now) && Admits(d, now, exec, p)) <==>
                  && e.decision == APPROVE
                  && exec.executionMode in {"controlled", "approval-only"}
                  && p.parse(d.expiresAt).value > claimedAt + cfg.ttl)
  {
    hide Admits, Govern, Decide, BuildPolicyInput, Evaluate;
    forall now {
      HumanDecisionAdmitted(a, analyzedAt, e, r, checkedAt, readAt, decidedAt, now, gov, approval, exec, p);
    }
    HumanDecisionAdmitted(a, analyzedAt, e, r, checkedAt, readAt, decidedAt, claimedAt, gov, approval, exec, p);
    assert Outlived(claimedAt, cfg, claimedAt + cfg.ttl);
  }

  /** A human decision made by the claim has ended when the record may go, if records outlast permits. */
  lemma ResolvedDecisionEndsBeforeRecord(e: Envelope, r: ApprovalRecord, checkedAt: int, readAt: int, decidedAt: int,
                                         claimedAt: int, now: int,
                                         approval: ApprovalConfig, exec: ExecutorConfig, cfg: LedgerConfig, p: Platform)
    requires Sound(p) && approval.permitTtl <= cfg.ttl && decidedAt <= claimedAt
    requires Evaluate(e, Some(r), checkedAt, readAt, decidedAt, approval, p).Ok?
    requires Outlived(claimedAt, cfg, now)
    ensures !Admits(Evaluate(e, Some(r), checkedAt, readAt, decidedAt, approval, p).value, now, exec, p)
  {
    hide Admits, Evaluate;
    var d := Evaluate(e, Some(r), checkedAt, readAt, decidedAt, approval, p).value;
    var _, _, _ := ExpiryChain(e, r, checkedAt, readAt, decidedAt, approval, p);
    AdmissionMeans(d, now, exec, p);
  }

  /**
   * The document is keyed by the decision id, which a governance redelivery reproduces with a fresh
   * expiry. So once the document may be deleted, deciding the same permitted incident again can reopen
   * its execution: the new message has the old id, is admitted, and there is a timely run in which the
   * first decision completes, the document is deleted and the second decision calls the gateway again.
   */
  lemma RedecisionReopensDeletedRecord(a: AnalyzedIncident, first: int, again: int, result: RemediationResult,
                                       gov: GovernanceConfig, exec: ExecutorConfig, cfg: LedgerConfig, p: Platform)
    returns (trace: seq<LedgerRuns.State>, steps: seq<LedgerRuns.Step>)
    requires Sound(p) && Matches(gov, exec) && exec.executionMode == "controlled" && gov.decisionTtl > 0
    requires Decide(BuildPolicyInput(a, gov)).decision == Permit
    requires 0 < cfg.lease && first <= again && Outlived(first, cfg, again)
    ensures Govern(a, again, gov, p).governanceDecisionId == Govern(a, first, gov, p).governanceDecisionId
    ensures DocumentId(Govern(a, again, gov, p), p) == DocumentId(Govern(a, first, gov, p), p)
    ensures Admits(Govern(a, first, gov, p), first, exec, p) && Admits(Govern(a, again, gov, p), again, exec, p)
    ensures LedgerRuns.TimelyRun(trace, steps, cfg) && |trace| == 8
    ensures LedgerRuns.IsCompleted(trace[4], result) && steps[4] == LedgerRuns.Expire
    ensures steps[5] == LedgerRuns.Deliver(again) && steps[6] == LedgerRuns.Call(1)
    ensures LedgerRuns.TotalCalls(trace[7].attempts) == 2
  {
    hide Admits, Decide, BuildPolicyInput, StableId, SplitAtColon, LedgerRuns.TimelyRun;
    OpaDecisionAdmitted(a, first, first, gov, exec, p);
    OpaDecisionAdmitted(a, again, again, gov, exec, p);
    trace, steps := LedgerRuns.DeletionReopens(cfg, result, first, again);
    LedgerRuns.TwoCalls(trace[7].attempts);
  }
}
