/** The remediation agent's execution documents: lease-based claim, completion and failure. */
module ExecutionLedger {
  import opened Prelude
  import opened Identifiers
  import opened RemediationPolicy
  import opened GovernanceModels
  import opened ExecutorGate

  datatype GatewayReply = GatewayReply(accepted: bool, statusCode: int)

  datatype RemediationResult = RemediationResult(
    governanceDecisionId: string,
    inputMessageId: string,
    status: string,
    executorReasons: seq<string>,
    gateway: Option<GatewayReply>)

  /** One execution document; a field that was never written is None. */
  datatype Doc = Doc(status: string, leaseExpiresAt: Option<int>, expiresAt: Option<int>, result: Option<RemediationResult>)

  datatype LedgerConfig = LedgerConfig(lease: int, ttl: int)

  datatype ClaimAnswer = Completed(result: RemediationResult) | InProgress | Claimed

  const BLANK := Doc("", None, None, None)

  function Existing(found: Option<Doc>): Doc {
    match found case Some(d) => d case None => BLANK
  }

  /** What the claim transaction answers when the clock was read at now. */
  function Claim(found: Option<Doc>, now: int): ClaimAnswer {
    match found
    case None => Claimed
    case Some(d) =>
      if d.status == "completed" && d.result.Some? then Completed(d.result.value)
      else if d.status == "executing" && d.leaseExpiresAt.Some? && d.leaseExpiresAt.value > now then InProgress
      else Claimed
  }

  // The three merging writes. Fields they do not name keep their value.

  function ClaimedDoc(found: Option<Doc>, now: int, cfg: LedgerConfig): Doc {
    Existing(found).(status := "executing", leaseExpiresAt := Some(now + cfg.lease), expiresAt := Some(now + cfg.ttl))
  }

  function CompletedDoc(found: Option<Doc>, result: RemediationResult, now: int): Doc {
    Existing(found).(status := "completed", result := Some(result), leaseExpiresAt := Some(now))
  }

  function FailedDoc(found: Option<Doc>, now: int): Doc {
    Existing(found).(status := "failed", leaseExpiresAt := Some(now))
  }

  function DocumentId(d: GovernanceDecision, p: Platform): string {
    SplitAtColon(StableId(p, "execution", [d.governanceDecisionId])).1
  }

  /** Different decisions have different documents. */
  lemma DocumentIdInjective(a: GovernanceDecision, b: GovernanceDecision, p: Platform)
    requires Sound(p)
    ensures DocumentId(a, p) == DocumentId(b, p) ==> a.governanceDecisionId == b.governanceDecisionId
  {
    SplitUndoesPrefix("execution", p.sha256(JsonArray([a.governanceDecisionId])));
    SplitUndoesPrefix("execution", p.sha256(JsonArray([b.governanceDecisionId])));
    if DocumentId(a, p) == DocumentId(b, p) {
      JsonArrayInjective([a.governanceDecisionId], [b.governanceDecisionId]);
      assert [a.governanceDecisionId][0] == [b.governanceDecisionId][0];
    }
  }

  /** The document of a decision is named by the digest of its id, whatever the prefix of stable ids. */
  lemma DocumentIdText(d: GovernanceDecision, p: Platform)
    ensures DocumentId(d, p) == p.sha256(JsonArray([d.governanceDecisionId]))
  {
    SplitUndoesPrefix("execution", p.sha256(JsonArray([d.governanceDecisionId])));
  }

  function TerminalStatus(v: Verdict): Option<string> {
    match v
    case Deny => Some("denied-by-governance")
    case NoAction => Some("no-action")
    case RequireApproval => Some("awaiting-human-approval")
    case Permit => None
  }

  /** The result of an answered gateway call. */
  function CallResult(d: GovernanceDecision, messageId: string, reply: GatewayReply): RemediationResult {
    RemediationResult(d.governanceDecisionId, messageId, if reply.accepted then "executed" else "rejected-by-gateway", [], Some(reply))
  }

  /** The answer to a decision that is no permit, or that the gate blocks. */
  function RefusedAnswer(d: GovernanceDecision, messageId: string, now: int, exec: ExecutorConfig, p: Platform): RemediationResult {
    match TerminalStatus(d.decision)
    case Some(status) => RemediationResult(d.governanceDecisionId, messageId, status, [], None)
    case None => RemediationResult(d.governanceDecisionId, messageId, "execution-blocked", GateReasons(d, now, exec, p), None)
  }

  function CallAnswer(d: GovernanceDecision, messageId: string, reply: Option<GatewayReply>): Option<RemediationResult> {
    if reply.Some? then Some(CallResult(d, messageId, reply.value)) else None
  }

  /** What a call leaves of the claimed document: evidence that cannot be written fails it after all. */
  function FinishedDoc(claimed: Doc, answer: Option<RemediationResult>, evidence: bool, now: int): Doc {
    match answer
    case None => FailedDoc(Some(claimed), now)
    case Some(result) =>
      var completed := CompletedDoc(Some(claimed), result, now);
      if evidence then completed else FailedDoc(Some(completed), now)
  }

  lemma OneDocumentWritten(before: map<string, Doc>, after: map<string, Doc>, id: string)
    requires id in after && after - {id} == before - {id}
    ensures after == before[id := after[id]]
  {
    forall k ensures k in after <==> k in before[id := after[id]] {
      assert k != id ==> (k in after <==> k in after - {id}) && (k in before <==> k in before - {id});
    }
    forall k | k in after && k != id ensures after[k] == before[k] {
      assert after[k] == (after - {id})[k] && before[k] == (before - {id})[k];
    }
  }

  class ExecutionCollection {
    var docs: map<string, Doc>

    constructor ()
      ensures docs == map[]
    {
      docs := map[];
    }

    function Find(id: string): Option<Doc>
      reads this
    {
      if id in docs then Some(docs[id]) else None
    }

    method ClaimExecution(id: string, now: int, cfg: LedgerConfig) returns (answer: ClaimAnswer)
      modifies this
      ensures answer == Claim(old(Find(id)), now)
      ensures docs == if answer == Claimed then old(docs)[id := ClaimedDoc(old(Find(id)), now, cfg)] else old(docs)
      // a stored result is answered, a running lease refused, and everything else claimed
      ensures forall result :: answer == Completed(result) <==>
        id in old(docs) && old(docs)[id].status == "completed" && old(docs)[id].result == Some(result)
      ensures answer == InProgress <==>
        id in old(docs) && old(docs)[id].status == "executing" && old(docs)[id].leaseExpiresAt.Some? && old(docs)[id].leaseExpiresAt.value > now
      ensures answer == Claimed ==>
        && id in docs && docs[id].status == "executing"
        && docs[id].leaseExpiresAt == Some(now + cfg.lease) && docs[id].expiresAt == Some(now + cfg.ttl)
        && docs[id].result == if id in old(docs) then old(docs)[id].result else None
    {
      if id in docs {
        var data := docs[id];
        if data.status == "completed" && data.result.Some? {
          return Completed(data.result.value);
        }
        if data.status == "executing" && data.leaseExpiresAt.Some? && data.leaseExpiresAt.value > now {
          return InProgress;
        }
      }
      docs := docs[id := ClaimedDoc(Find(id), now, cfg)];
      return Claimed;
    }

    /**
     * The completing write, field by field. The document takes the result and gives up its lease at
     * once; it keeps its retention time, and whoever held the lease before makes no difference.
     */
    method CompleteExecution(id: string, result: RemediationResult, now: int)
      modifies this
      ensures id in docs && docs[id].status == "completed" && docs[id].result == Some(result)
      ensures docs[id].leaseExpiresAt == Some(now)
      ensures docs[id].expiresAt == if id in old(docs) then old(docs)[id].expiresAt else None
      ensures docs - {id} == old(docs) - {id}
    {
      var data := if id in docs then docs[id] else BLANK;
      data := data.(status := "completed");
      data := data.(result := Some(result));
      data := data.(leaseExpiresAt := Some(now));
      docs := docs[id := data];
    }

    /**
     * The failing write, field by field. A result that was stored before stays in the document, under
     * a status that no longer offers it; again the lease makes no difference.
     */
    method FailExecution(id: string, now: int)
      modifies this
      ensures id in docs && docs[id].status == "failed"
      ensures docs[id].leaseExpiresAt == Some(now)
      ensures docs[id].expiresAt == if id in old(docs) then old(docs)[id].expiresAt else None
      ensures docs[id].result == if id in old(docs) then old(docs)[id].result else None
      ensures docs - {id} == old(docs) - {id}
    {
      var data := if id in docs then docs[id] else BLANK;
      data := data.(status := "failed");
      data := data.(leaseExpiresAt := Some(now));
      docs := docs[id := data];
    }

    /**
     * process, run without interruption. The gateway's reply is None when the call raises, and
     * evidence says whether printing the evidence succeeds; called reports whether the gateway was
     * called. The decision is validated before the document is looked at.
     */
    method Process(d: GovernanceDecision, messageId: string, validatedAt: int, claimedAt: int, finishedAt: int,
                   reply: Option<GatewayReply>, evidence: bool, exec: ExecutorConfig, cfg: LedgerConfig, p: Platform)
      returns (r: Result<RemediationResult>, called: bool)
      modifies this
      // the gateway is called for an admitted permit that could claim its document, and for nothing else
      ensures called <==> Admits(d, validatedAt, exec, p) && Claim(old(Find(DocumentId(d, p))), claimedAt) == Claimed
      ensures !called ==> docs == old(docs) && (!evidence ==> r.Err?)
      // a decision that is no permit, or is blocked, answers so even if its execution once completed
      ensures !Admits(d, validatedAt, exec, p) && evidence ==> r == Ok(RefusedAnswer(d, messageId, validatedAt, exec, p))
      ensures !Admits(d, validatedAt, exec, p) && evidence ==>
        && r.value.governanceDecisionId == d.governanceDecisionId && r.value.inputMessageId == messageId && r.value.gateway == None
        && match d.decision
           case Deny => r.value.status == "denied-by-governance" && r.value.executorReasons == []
           case NoAction => r.value.status == "no-action" && r.value.executorReasons == []
           case RequireApproval => r.value.status == "awaiting-human-approval" && r.value.executorReasons == []
           case Permit => r.value.status == "execution-blocked" && r.value.executorReasons == GateReasons(d, validatedAt, exec, p) != []
      // a completed execution is answered from the document, a running one is refused
      ensures forall stored :: Admits(d, validatedAt, exec, p) && Claim(old(Find(DocumentId(d, p))), claimedAt) == Completed(stored) && evidence ==>
        r == Ok(stored)
      ensures Admits(d, validatedAt, exec, p) && Claim(old(Find(DocumentId(d, p))), claimedAt) == InProgress ==> r.Err?
      // a call ends completed with its result, or failed
      ensures called ==> (r.Ok? <==> reply.Some? && evidence) && (r.Ok? ==> r.value == CallResult(d, messageId, reply.value))
      ensures called ==> docs == old(docs)[DocumentId(d, p) := FinishedDoc(
        ClaimedDoc(old(Find(DocumentId(d, p))), claimedAt, cfg), CallAnswer(d, messageId, reply), evidence, finishedAt)]
      // the result says what the gateway said, and is what the completed document stores
      ensures called && r.Ok? ==>
        && reply.Some? && r.value.gateway == reply
        && r.value.status == (if reply.value.accepted then "executed" else "rejected-by-gateway")
        && r.value.governanceDecisionId == d.governanceDecisionId && r.value.inputMessageId == messageId && r.value.executorReasons == []
      ensures called ==>
        && DocumentId(d, p) in docs && docs - {DocumentId(d, p)} == old(docs) - {DocumentId(d, p)}
        && var doc := docs[DocumentId(d, p)];
        && doc.expiresAt == Some(claimedAt + cfg.ttl) && doc.leaseExpiresAt == Some(finishedAt)
        && (if r.Ok? then doc.status == "completed" && doc.result == Some(r.value) else doc.status == "failed")
    {
      hide GateReasons, StableId, SplitAtColon;
      called := false;
      var terminal := TerminalStatus(d.decision);
      if terminal.Some? {
        NotPermitNotAdmitted(d, validatedAt, exec, p);
        if !evidence { return Err("evidence could not be written"), false; }
        return Ok(RemediationResult(d.governanceDecisionId, messageId, terminal.value, [], None)), false;
      }
      var valid, reasons := ValidateGovernanceDecision(d, validatedAt, exec, p);
      if !valid {
        if !evidence { return Err("evidence could not be written"), false; }
        return Ok(RemediationResult(d.governanceDecisionId, messageId, "execution-blocked", reasons, None)), false;
      }
      var id := DocumentId(d, p);
      var answer := ClaimExecution(id, claimedAt, cfg);
      if answer.Completed? {
        if !evidence { return Err("evidence could not be written"), false; }
        return Ok(answer.result), false;
      }
      if answer.InProgress? {
        return Err("remediation decision is already being executed"), false;
      }
      called := true;
      if reply.None? {
        FailExecution(id, finishedAt);
        OneDocumentWritten(old(docs), docs, id);
        return Err("the gateway call failed"), true;
      }
      var result := CallResult(d, messageId, reply.value);
      CompleteExecution(id, result, finishedAt);
      if !evidence {
        FailExecution(id, finishedAt);
        OneDocumentWritten(old(docs), docs, id);
        return Err("evidence could not be written"), true;
      }
      OneDocumentWritten(old(docs), docs, id);
      return Ok(result), true;
    }
  }

  lemma NotPermitNotAdmitted(d: GovernanceDecision, now: int, cfg: ExecutorConfig, p: Platform)
    ensures Admits(d, now, cfg, p) ==> d.decision == Permit
  {
    if Admits(d, now, cfg, p) { OnlyPermitsAdmitted(d, now, cfg, p); }
  }
}
