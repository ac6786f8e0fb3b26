/** From a signed file to a checked envelope: the signer's and the verifier's routes to the same bytes. */
module SignedEnvelope {
  import opened Prelude
  import opened CanonicalJson
  import opened Identifiers
  import opened GovernanceModels

  /** ApprovalDecisionEnvelope.model_validate: no unknown key, no missing one, two defaults. */
  function ReadEnvelope(m: map<string, string>): Option<Envelope> {
    if !(m.Keys <= {"schema_version", "event_type", "approval_id", "approval_request_id", "governance_decision_id", "decision",
                    "reviewer", "reason", "issued_at", "expires_at", "request_hash", "key_version", "signature"}) then None
    else if "event_type" in m && m["event_type"] != "approval-decision" then None
    else if "approval_id" !in m || "approval_request_id" !in m || "governance_decision_id" !in m || "decision" !in m
         || "reviewer" !in m || "reason" !in m || "issued_at" !in m || "expires_at" !in m
         || "request_hash" !in m || "key_version" !in m || "signature" !in m then None
    else if m["decision"] != "APPROVE" && m["decision"] != "DENY" then None
    else
      Some(Envelope(
        if "schema_version" in m then m["schema_version"] else "1.0",
        m["approval_id"], m["approval_request_id"], m["governance_decision_id"],
        if m["decision"] == "APPROVE" then APPROVE else DENY,
        m["reviewer"], m["reason"], m["issued_at"], m["expires_at"], m["request_hash"], m["key_version"], m["signature"]))
  }

  /** The bytes the reviewer's key signs, as text. */
  function SignedText(e: Envelope): string {
    Canonical(SignedPayload(e), Raw)
  }

  /** The file the script publishes: the signed members and the signature, ASCII-escaped. */
  function PublishedText(e: Envelope): string {
    Canonical(SignedPayload(e)["signature" := e.signature], Ascii)
  }

  lemma ReadEnvelopeUndoesPayload(e: Envelope)
    ensures ReadEnvelope(SignedPayload(e)["signature" := e.signature]) == Some(e)
  {
    var m := SignedPayload(e)["signature" := e.signature];
    PayloadFields(e);
    assert m["decision"] == VerdictText(e.decision);
    assert m["signature"] == e.signature;
  }

  lemma PayloadFields(e: Envelope)
    ensures var m := SignedPayload(e);
            && m.Keys == {"schema_version", "event_type", "approval_id", "approval_request_id", "governance_decision_id", "decision",
                          "reviewer", "reason", "issued_at", "expires_at", "request_hash", "key_version"}
            && m["schema_version"] == e.schemaVersion && m["event_type"] == "approval-decision"
            && m["approval_id"] == e.approvalId && m["approval_request_id"] == e.approvalRequestId
            && m["governance_decision_id"] == e.governanceDecisionId && m["decision"] == (if e.decision == APPROVE then "APPROVE" else "DENY")
            && m["reviewer"] == e.reviewer && m["reason"] == e.reason
            && m["issued_at"] == e.issuedAt && m["expires_at"] == e.expiresAt
            && m["request_hash"] == e.requestHash && m["key_version"] == e.keyVersion
  {
  }

  /** Members a file may leave out, with their defaults. */
  function Defaulted(m: map<string, string>): map<string, string> {
    map["schema_version" := "1.0", "event_type" := "approval-decision"] + m
  }

  /** A file is an envelope exactly when, but for the two defaults, its members are the envelope's own. */
  lemma ReadEnvelopeExactly(m: map<string, string>, e: Envelope)
    ensures ReadEnvelope(m) == Some(e) <==> Defaulted(m) == SignedPayload(e)["signature" := e.signature]
  {
    PayloadFields(e);
    if ReadEnvelope(m) == Some(e) {
      assert Defaulted(m).Keys == SignedPayload(e)["signature" := e.signature].Keys;
    }
    if Defaulted(m) == SignedPayload(e)["signature" := e.signature] {
      DefaultedIsRead(m, e);
    }
  }

  lemma DefaultedIsRead(m: map<string, string>, e: Envelope)
    requires Defaulted(m) == SignedPayload(e)["signature" := e.signature]
    ensures ReadEnvelope(m) == Some(e)
  {
    PayloadFields(e);
    hide SignedPayload;
    RequiredMember(m, "approval_id");
    RequiredMember(m, "approval_request_id");
    RequiredMember(m, "governance_decision_id");
    RequiredMember(m, "decision");
    RequiredMember(m, "reviewer");
    RequiredMember(m, "reason");
    RequiredMember(m, "issued_at");
    RequiredMember(m, "expires_at");
    RequiredMember(m, "request_hash");
    RequiredMember(m, "key_version");
    RequiredMember(m, "signature");
    OptionalMembers(m);
    hide Defaulted;
  }

  lemma RequiredMember(m: map<string, string>, k: string)
    requires k in Defaulted(m) && k != "schema_version" && k != "event_type"
    ensures k in m && m[k] == Defaulted(m)[k]
  {
  }

  lemma OptionalMembers(m: map<string, string>)
    ensures m.Keys <= Defaulted(m).Keys && "schema_version" in Defaulted(m) && "event_type" in Defaulted(m)
    ensures Defaulted(m)["schema_version"] == if "schema_version" in m then m["schema_version"] else "1.0"
    ensures Defaulted(m)["event_type"] == if "event_type" in m then m["event_type"] else "approval-decision"
  {
  }

  /** The published file is read back as the very envelope, whose text is the one that was signed. */
  lemma AgentRebuildsSignedText(e: Envelope)
    ensures Loads(PublishedText(e)).Some?
    ensures ReadEnvelope(Loads(PublishedText(e)).value) == Some(e)
    ensures Loads(SignedText(e)) == Some(SignedPayload(e))
  {
    LoadsUndoesCanonical(SignedPayload(e)["signature" := e.signature], Ascii);
    LoadsUndoesCanonical(SignedPayload(e), Raw);
    ReadEnvelopeUndoesPayload(e);
  }

  lemma PayloadInjective(e: Envelope, f: Envelope)
    requires SignedPayload(e) == SignedPayload(f)
    ensures e == f.(signature := e.signature)
  {
    PayloadFields(e);
    PayloadFields(f);
    assert VerdictText(e.decision) == VerdictText(f.decision);
  }

  /**
   * Nothing else verifies under the same signature: whatever text arrives, if it is read as an
   * envelope whose signed text has the digest that was signed, it is the signed envelope.
   */
  lemma NoOtherEnvelopeHasThatDigest(e: Envelope, text: string, p: Platform)
    requires Sound(p)
    requires Loads(text).Some? && ReadEnvelope(Loads(text).value).Some?
    requires var f := ReadEnvelope(Loads(text).value).value; p.sha256(SignedText(f)) == p.sha256(SignedText(e))
    ensures e == ReadEnvelope(Loads(text).value).value.(signature := e.signature)
  {
    var f := ReadEnvelope(Loads(text).value).value;
    CanonicalInjective(SignedPayload(f), Raw, SignedPayload(e), Raw);
    PayloadInjective(e, f);
  }
}
