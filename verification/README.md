# Governed remediation: a verified model

The repository runs a chain of agents that turns security findings into a guarded Kubernetes restart.
Scan reports are normalised and batched, findings are scored and correlated per entity, an analyst
attaches a recommended action, a deterministic policy permits, denies or asks for a human decision, a
reviewer signs an approval with Cloud KMS, and an executor calls the gateway under a lease. The agents
talk over messages that may be lost, repeated and reordered, and share documents that are only updated
in transactions. This project states that protocol and its computations in Dafny and proves what they
keep, over all inputs and all runs.

## How it is organised

| File | Content |
|---|---|
| `Prelude`, `StringOrder` | Option, Result, min and max; code-point order of strings and sorted sets |
| `CanonicalJson` | printer and parser for flat string objects (RFC 8259, sections 4 and 7) |
| `JsonGrammar` | syntax trees of those objects: exactly what the parser reads |
| `Identifiers` | digests, stable ids, timestamps |
| `RemediationPolicy` | the Rego policy as a function of its input |
| `GovernanceModels`, `GovernanceAgent` | the protocol's records; policy input, decision and approval request |
| `SignedEnvelope` | the signer's and the verifier's routes to the signed bytes |
| `ApprovalAgent` | envelope checks, resolved decision, the approval collection, the review script |
| `ExecutorGate` | the executor's validation of a decision |
| `Pipeline` | governance, approval and execution as one transition system |
| `ExecutionLedger`, `LedgerRuns` | the execution document and all its interleaved runs |
| `GovernedExecution` | both systems together: governance, approval and any number of executing workers |
| `AuthorizedRuns` | runs in which a permit or an approved request ends in a successful restart |
| `SingleExecution` | the same with punctual executors: one decision succeeds at most once |
| `Retention` | deletion of execution documents against expiry of decisions |
| `SharedDocuments` | which decisions share an execution document |
| `CorrelationWindow`, `CorrelationRuns`, `Observer` | the scored window, all its runs, and the observer's weights |
| `CorrelationBounds` | runs that meet the bounds on a window's incidents |
| `AgentRuntime`, `RuntimeRuns` | one subscriber callback, and any number of them interleaved |
| `Aggregator`, `ScannerPublisher` | the capped ingestion loops and the batching in front of them |

Code that updates a document, a counter or a list is a class or a method with a loop, proved against a
function of the old state; the lemmas are about that function. Concurrency is a transition system whose
steps are the transactions and side effects of the handlers; a lemma about `trace[k]` therefore holds in
every state of every run, for any number of workers and deliveries.

## Assumptions

* SHA-256 is injective, and parsing a formatted instant gives it back (`Identifiers.Sound`). The calendar is not
  modelled: an instant is an integer, its text form is whatever `format` returns. No length is assumed of a digest.
* A signature verifies exactly when the approval key signed a payload with that digest.
* A Firestore transaction is one atomic step; any document may be deleted once its TTL has passed, an
  approval request even earlier.
* Topics carry only what the agents emitted, in any order, any number of times or never.
* Clock readings are arbitrary, with two exceptions. In `LedgerRuns` a reading is at most the current clock and may be
  arbitrarily stale. In `CorrelationRuns` an observation after TTL deletion reads a clock later than the start of the deleted window.
* Mutual exclusion and finality of a completed execution rest on one explicit assumption, `LedgerRuns.OnTime`: an
  attempt acts only while its own lease lasts (the gateway call times out after 20 s, the lease is 180 s),
  and the retention time is at least the lease. `OverstayBreaksExclusion` shows that it is needed.
* `SingleExecution` further assumes that a decision is checked no earlier than it was made and claimed within a given
  gap after that check, and that retention covers the permit lifetime, the gap and a lease (`SingleExecution.Punctual`).
* The correlation window length is not negative and the buffer holds at least one signal.
* Acknowledging, refusing and recording metrics do not raise; publishing and logging may.

## Where the code and its documentation part

The model follows the code. These lemmas say where that differs from what is promised.

* "Firestore stores approval and execution state to prevent replay and duplicate remediation"
  (`docs/concepts/deterministic-governance.md`, and the enforcement controls in `README.md`). A completed execution is run again in two
  ways even when every attempt is on time. Something raises after the completing write was applied: the write
  itself, or the evidence line after it (`LedgerRuns.EvidenceFailureReopens`). Or the document has been deleted and the incident is
  decided again under the same decision id (`LedgerRuns.DeletionReopens`, `Retention.RedecisionReopensDeletedRecord`).
  `LedgerRuns.CompletedStepExactly` and `Retention.OutlivesRecordExactly` give the exact conditions, and `LedgerRuns.ClaimsAreConserved` and
  `GovernedExecution.CallsAreAuthorizedAndBounded` say how often it can happen at most.
* An execution document stands for an analysis id, a policy and a verdict, not for a restart. If the policy can permit
  something and more than one namespace or deployment is allowlisted, two analyses of one incident revision can
  recommend different restarts and share a document, and the second is answered with the result of the first
  (`SharedDocuments.SamplesShareDocument`, `SharedDocuments.OtherRestartAnsweredByFirst`). With one namespace and one deployment, as
  shipped in `manifests/governance-agent.yaml` and `manifests/remediation-agent.yaml`, this cannot happen
  (`SharedDocuments.OneRestartPerDocumentExactly`).
* The resolving transaction does not compare the request hash again. If a request is deleted and made again between
  the evaluation of an envelope and its transaction, the envelope resolves a request with a hash it was not signed
  for (`Pipeline.RenewedRequestIsResolved`; exactly when: `Pipeline.SameIncarnationExactly`, `Pipeline.SignedHashStoredExactly`). What is executed is
  still the restart that was signed (`Pipeline.EveryCallIsAuthorized`).
* A lost resolution is published again only while neither envelope nor request has expired
  (`Pipeline.RedeliveryReemitsStored`); after that the stored decision is never sent.
* A redelivered governance message does not republish its request. It computes a new expiry, hence a new
  hash, and the create transaction answers "ID collision" unless both deliveries happened at the same instant
  (`Pipeline.RedeliveryAcceptedExactlyAtSameInstant`).
* The enforcement controls list severity, confidence and evidence count among the checks before
  execution. The executor checks none of them; that they held follows only from where an admitted decision
  came from, which is what `Pipeline.EveryCallIsAuthorized` proves.
* Validation precedes the claim, so a completed decision that is redelivered after its expiry is answered
  `execution-blocked` and not with its stored result (`ExecutionLedger.ExecutionCollection.Process`).
* The review script counts the characters of a reason, the approval agent those left after stripping
  (`ApprovalAgent.PaddedReasonPassesScriptOnly`, `ApprovalAgent.ScriptEnvelopeAccepted`).
* A success line that cannot be logged makes the runtime refuse a message it has already acknowledged and
  count it twice (`RuntimeRuns.RaisingLogCountsTwice`, `RuntimeRuns.CountersAtRest`).

## Model

| member | source | states |
|---|---|---|
| `Pipeline.EveryCallIsAuthorized` | python/remediation_agent.py:310-355 | in every run, each gateway call descends from an analyzed incident whose recommended restart is allowlisted, at most medium in risk, HIGH or CRITICAL, confident enough for approval and backed by two signals and two evidence items; and either the mode is controlled, no human was asked for, severity is HIGH, risk low, and confidence, signals, sources and evidence reach the automatic thresholds, or one of these fails and an APPROVE was signed under the expected key version over a hash that names this very incident, policy, action and target, still in time, being the only answer its stored request ever got |
| `AuthorizedRuns.PermittedIsExecuted` | python/remediation_agent.py:310-355 | the converse for permits: every valid incident that passes the hard checks and the automatic controls has a run of the protocol that calls the gateway for it, and a timely run with workers in which one attempt calls once and completes its document with the result, as long as execution is controlled and the decision has not expired |
| `AuthorizedRuns.ApprovedIsExecuted` | python/approval_agent.py:243-272 | the converse for approvals: every valid incident that passes the hard checks but not the controls has such runs for each envelope that approves its request and is accepted, until the resolved decision expires |
| `GovernanceAgent.VerdictOfAnalysis` | policy/governance/remediation.rego:15-151 | the verdict on every analyzed incident, read off the analysis and the configuration: NO_ACTION for none and investigate; for anything else PERMIT, REQUIRE_APPROVAL or DENY exactly by those hard checks and automatic controls, the request for a human among them |
| `GovernanceModels.ValidAnalysisExactly` | python/governance_models.py:8-36 | model validation lets through exactly three actions, four severities, three risks and a confidence between 0 and 1 |
| `GovernanceAgent.GovernedDecisionSays` | python/governance_agent.py:207-248 | the decision has the id made of analysis, policy file and verdict, ends one decision lifetime after it was made, and carries the incident, the analysis and the policy unchanged and no approval |
| `GovernanceAgent.RequestSays` | python/governance_agent.py:151-167 | the request ends one approval lifetime after it was made, and its hash is that of a mapping that names request, decision, analysis, incident, policy, action, target and end, and nothing else |
| `GovernedExecution.CallsAreAuthorizedAndBounded` | python/remediation_agent.py:310-355 | in every timely run of governance, approval and any number of workers, the calls on one decision id number at most one more than its failed and abandoned attempts and the deletions of its document, all are recorded by an attempt on that document, and every one was admitted by the gate and is authorized as above |
| `SingleExecution.ApprovalSucceedsOnce` | python/approval_agent.py:206-240 | in every timely run with punctual executors, all answers of one stored request are one decision, and of all attempts that ever handle it at most one has succeeded or is running, however often its document is deleted |
| `SingleExecution.DecisionSucceedsOnce` | python/remediation_agent.py:191-228 | the same for any decision whose lifetime, gap and lease the retention time covers |
| `LedgerRuns.SuccessesFarApart` | python/remediation_agent.py:196-226 | in every timely run, two attempts on one document that succeeded or are running claimed it more than retention less lease apart |
| `GovernedExecution.RequestSucceedsOnce` | python/approval_agent.py:206-240 | without punctuality: successful executions on the document number at most one more than its deletions |
| `GovernedExecution.ReachableInv` | python/remediation_agent.py:327-355 | the joint invariant: every attempt handles an admitted published decision of its own document, and every call was made by an attempt |
| `Pipeline.ReachableInv` | python/governance_agent.py:170-330 | every reachable state of governance, approval and executor satisfies the protocol invariant: requests, attempts, answers, announcements and outgoing decisions all trace back to analyzed incidents |
| `Pipeline.OneAnswerPerRequest` | python/approval_agent.py:206-240 | all answers ever given for one stored request, at any two moments of a run, are the same decision |
| `Pipeline.ResolutionGoesOut` | python/approval_agent.py:221-240 | the transaction on a pending request always succeeds, stores verdict, approval id and decision, and offers exactly this decision for publication, no other request changing |
| `Pipeline.StoredRequestIsStable` | python/approval_agent.py:206-237 | while a request is stored its event, hash and decision id never change, its status leaves pending at most once, and a resolved record never changes |
| `Pipeline.RedeliveryAcceptedExactlyAtSameInstant` | python/governance_agent.py:251-278 | first write wins: a redelivery of the incident whose request is stored is accepted if and only if it makes its request at the very instant the stored one was made |
| `Pipeline.RedeliveryAcceptedOnlyAtSameInstant` | python/governance_agent.py:179-186 | for any analyzed incident with the id of a stored request, acceptance means the same binding |
| `Pipeline.SameIncarnationExactly` | python/approval_agent.py:206-237 | a request stored at two moments is the same one, so that an evaluated envelope resolves the request it was checked against, if and only if it was not deleted in between |
| `Pipeline.SignedHashStoredExactly` | python/approval_agent.py:206-237 | a stored request of the signed incident has the signed hash if and only if it was made at the instant of the signed one |
| `Pipeline.RenewedRequestIsResolved` | python/approval_agent.py:206-237 | from any state with an evaluated envelope: deletion, a new request at another instant, and the transaction resolves it under another hash |
| `Pipeline.AnnouncedIsStored` | python/governance_agent.py:274-278 | every request shown to reviewers binds exactly what is stored |
| `Pipeline.AskedBeforePublished` | python/governance_agent.py:251-278 | in every run, no decision that requires approval goes out before an incarnation of its own request was published for review with it or already has an answer |
| `Pipeline.RequestShownFirst` | python/governance_agent.py:251-278 | an accepted request without an answer is shown to reviewers and its decision goes out after it, or, when that publication fails, nothing goes out; with an answer, only the decision goes out |
| `Pipeline.AnnouncedOnlyUnanswered` | python/governance_agent.py:274-278 | a request is shown to reviewers only by the step that stores or repeats it, and never once it has an answer |
| `Pipeline.RedeliveryAcceptedExactly` | python/approval_agent.py:96-111 | an envelope that was accepted once is accepted again, while its request is stored, if and only if neither it nor the request has expired |
| `Pipeline.RedeliveryReemitsStored` | python/approval_agent.py:212-240 | once the transaction of an attempt has resolved a request, the record holds its verdict and decision; redelivering its envelope is accepted if and only if envelope and request have not expired, and then the transaction offers that very decision for publication and changes nothing else |
| `Pipeline.ResolvedCommitRepeats` | python/approval_agent.py:212-220 | on a resolved request the transaction succeeds if and only if the approval id is the stored one, and then only offers the stored decision again |
| `ApprovalAgent.ResolvedOnceAndForAll` | python/approval_agent.py:206-237 | the transaction run twice: after an envelope resolved a pending request, a second envelope succeeds if and only if it has the same approval id, and is answered with the first decision, the record staying as the first left it |
| `Pipeline.SignedPayloadFound` | python/approval_agent.py:82-93 | a verified signature was made over exactly the fields of the envelope at hand |
| `LedgerRuns.MutualExclusion` | python/remediation_agent.py:191-258 | for any number of workers, crashes, redeliveries and stale readings, no two attempts on one decision are between claim and completion at once, and none calls twice |
| `LedgerRuns.LiveAttemptRefusesOthers` | python/remediation_agent.py:200-211 | while an attempt is live every other delivery is told "in progress", however stale its clock reading |
| `LedgerRuns.GivingUpFreesDocument` | python/remediation_agent.py:246-258 | a live attempt, whether it has called or not, can fail its document at once, and the next delivery then claims it without waiting for the lease |
| `LedgerRuns.CompletedStepExactly` | python/remediation_agent.py:340-355 | a step leaves a completed document completed with the same result if and only if it is neither the failing of a completed attempt nor TTL deletion |
| `LedgerRuns.CompletedIsFinal` | python/remediation_agent.py:200-243 | absent those two steps, status and stored result never change again, nobody calls the gateway, and every delivery is answered with the stored result |
| `LedgerRuns.ClaimsAreConserved` | python/remediation_agent.py:200-258 | in every timely run: claims = succeeded + failed + abandoned + running, succeeded and running are at most one more than the deletions, and gateway calls at most one more than deletions, failed and abandoned attempts |
| `LedgerRuns.ConservedWhileRetained` | python/remediation_agent.py:200-258 | without deletion the excess is one, even when completed attempts fail afterwards |
| `LedgerRuns.DeletionReopens` | python/remediation_agent.py:196-226 | a timely run in which a completed document is deleted at its TTL, claimed again and called a second time, meeting that bound |
| `LedgerRuns.ProcessIsAPath` | python/remediation_agent.py:333-355 | the document that an uninterrupted handler leaves is what the steps of one attempt leave, in a timely way if it finishes within its lease |
| `LedgerRuns.OverstayBreaksExclusion` | python/remediation_agent.py:231-243 | for every lease, an attempt that outlives it is joined by a second one and later overwrites its stored result |
| `LedgerRuns.EvidenceFailureReopens` | python/remediation_agent.py:350-355 | a timely run in which a completed decision is failed by its own attempt, because the completing write or the evidence line raised after it was applied, and is claimed and called a second time |
| `ExecutionLedger.DocumentIdInjective` | python/remediation_agent.py:191-194 | different decisions have different execution documents |
| `ExecutionLedger.DocumentIdText` | python/remediation_agent.py:191-194 | a document is named by the digest of the decision id alone, the prefix of the stable id being cut off |
| `ExecutionLedger.ExecutionCollection.ClaimExecution` | python/remediation_agent.py:191-228 | a claim answers the stored result of a completed document, "in progress" for an executing one whose lease has not ended, and otherwise claims: status executing, a fresh lease and retention time, any stored result kept, no other document changed |
| `ExecutionLedger.ExecutionCollection.CompleteExecution` | python/remediation_agent.py:231-243 | after the completing write the document has status, result and an ended lease, keeps its retention time whoever held the lease, and no other document changes |
| `ExecutionLedger.ExecutionCollection.FailExecution` | python/remediation_agent.py:246-258 | after the failing write the lease has ended, a stored result and the retention time are kept under a status that no longer offers them, and no other document changes |
| `ExecutionLedger.ExecutionCollection.Process` | python/remediation_agent.py:261-355 | the gateway is called exactly for an admitted permit that could claim its document; then the result is executed or rejected-by-gateway by the reply, under this decision and message, and is what the completed document stores, or the document is failed; every other verdict is answered with its own status and changes nothing, and a replay is answered with the stored result |
| `Retention.OutlivesRecordExactly` | python/remediation_agent.py:196-226 | a governance decision is admitted at some moment after the document of a claim may be deleted if and only if it is permitted, the mode is controlled and it was made later than claim + retention - decision lifetime |
| `Retention.ResolvedOutlivesRecordExactly` | python/approval_agent.py:117-122 | the same for a human decision: if and only if approved, in an executing mode and expiring after claim + retention |
| `Retention.NoEarlierDecisionOutlivesRecord` | python/remediation_agent.py:196-226 | if records outlast decisions, none made up to the claim is admitted once the document may be deleted |
| `Retention.ResolvedDecisionEndsBeforeRecord` | python/approval_agent.py:117-122 | the same for a human decision, whose lifetime is the permit's |
| `Retention.RedecisionReopensDeletedRecord` | python/governance_agent.py:207-248 | deciding a permitted incident again once its document may be deleted reproduces the document id and is admitted, and a timely run completes the first decision, deletes the document and calls the gateway for the second |
| `SharedDocuments.OneRestartPerDocumentExactly` | python/ir_analyst_agent.py:180-184 | whatever valid analyses are published, every document stands for one restart if and only if the configuration can permit nothing or allowlists at most one namespace and one deployment |
| `SharedDocuments.CanPermitExactly` | policy/governance/remediation.rego:60-75 | some valid analysis is permitted if and only if the mode is controlled, both confidence thresholds are at most 1 and neither allowlist is empty |
| `SharedDocuments.SamplesShareDocument` | python/governance_agent.py:214-219 | for any two allowlisted targets, two valid permitted analyses of one incident under one id with different restarts and the same document |
| `SharedDocuments.DocumentsFixRestartsExactly` | python/governance_agent.py:214-219 | for a given set of analyses, documents stand for one restart, over all redeliveries, if and only if analysis ids do |
| `SharedDocuments.GovernedShareDocumentExactly` | python/governance_agent.py:214-219 | decisions on any two incidents under any two configurations share a document if and only if analysis id, policy file and verdict agree |
| `SharedDocuments.ResolvedShareDocumentExactly` | python/approval_agent.py:157-162 | two human decisions share one if and only if original decision, approval id and verdict agree |
| `SharedDocuments.OtherRestartAnsweredByFirst` | python/remediation_agent.py:333-336 | of two permitted analyses with one id and different restarts, the second decision is admitted, has the first one's document, and once that is completed is answered with the result of the first one's call |
| `RemediationPolicy.ExactlyOneRuleFires` | policy/governance/remediation.rego:122-151 | for every input exactly one of the four conditional decisions applies, so none conflict and the default is unreachable |
| `RemediationPolicy.RestartVerdict` | policy/governance/remediation.rego:20-151 | for a restart: DENY iff a hard check fails, PERMIT iff all hard checks and all eight controls hold, REQUIRE_APPROVAL iff only a control fails |
| `RemediationPolicy.NoDenialsMeansChecksPass` | policy/governance/remediation.rego:20-63 | the set of hard denials is empty if and only if every hard check passes |
| `RemediationPolicy.ManualControlsAreFailedControls` | policy/governance/remediation.rego:82-120 | the approval reasons are exactly the explanations of the failed automatic controls |
| `RemediationPolicy.ReasonsNameFailedControls` | policy/governance/remediation.rego:77-141 | a request for approval carries a nonempty ascending list that names a control exactly when it failed |
| `RemediationPolicy.DenialsNameFailedChecks` | policy/governance/remediation.rego:20-58 | a denial is high risk and carries a nonempty ascending list that names a hard check exactly when it failed, and nothing else |
| `RemediationPolicy.FixedExplanations` | policy/governance/remediation.rego:122-141 | permits and non-actions carry their one fixed line and low risk, requests for approval the analyst's own risk |
| `RemediationPolicy.VerdictIsMonotone` | policy/governance/remediation.rego:15-151 | better evidence, lower risk, looser thresholds, wider allowlists or dropping the approval request never makes the verdict on a restart stricter |
| `ExecutorGate.ValidateGovernanceDecision` | python/remediation_agent.py:84-138 | the appended reasons are the specified ones in order, and the decision is valid exactly when there are none |
| `ExecutorGate.AdmissionMeans` | python/remediation_agent.py:84-138 | an empty list of reasons, spelled out in both directions as what the decision and the configuration must be |
| `ExecutorGate.OpaDecisionAdmitted` | python/remediation_agent.py:84-138 | under matching configurations a governance decision is admitted if and only if the policy permitted it, the mode is controlled and it has not expired |
| `ExecutorGate.OnlyPermitsAdmitted` | python/remediation_agent.py:88-108 | no denial, request for approval or non-action passes the gate under any configuration |
| `ExecutorGate.FailedConditionsListed` | python/remediation_agent.py:88-124 | every failing condition on verdict, mode, expiry, action and target puts its own line among the reasons |
| `ExecutorGate.FailedPolicyConditionsListed` | python/remediation_agent.py:100-136 | the same for policy id, policy digest, embedded verdict and direct execution |
| `ExecutorGate.FailedApprovalConditionsListed` | python/remediation_agent.py:123-133 | the same for approval flag, signature, reviewer and key version, whenever a human decision is at stake |
| `ExecutorGate.Sha256HexExactly` | python/governance_common.py:41-44 | 64 hexadecimal digits of either case and nothing else |
| `ApprovalAgent.HumanDecisionAdmitted` | python/approval_agent.py:126-173 | under matching configurations a resolved decision is admitted if and only if the reviewer approved, the mode is controlled or approval-only and it has not expired |
| `ApprovalAgent.ExpiryChain` | python/approval_agent.py:96-121 | a human decision ends no later than its envelope, its request, its own time plus the permit lifetime, and its request's creation plus the approval lifetime |
| `ApprovalAgent.EvaluatedDecision` | python/approval_agent.py:176-203 | an envelope that passes every check is bound to the stored hash, decision id and key, and yields the resolved decision of the stored request |
| `ApprovalAgent.EnvelopeAcceptedExactly` | python/approval_agent.py:96-203 | an envelope that verified is accepted if and only if both ends parse, it was issued no later than now plus the skew, it and the request are unexpired, it ends after its issue and no later than the request, reviewer and reason are long enough stripped, and key version, hash and decision id are the expected ones |
| `ApprovalAgent.ResolvedDecisionSays` | python/approval_agent.py:113-173 | the resolved decision has the id made of original, approval and verdict, ends at the earlier of envelope and permit lifetime, records reviewer, reason, key and verdict, and keeps the original subject, policy and reasons |
| `ApprovalAgent.StripCuts` | python/approval_agent.py:107-110 | stripping cuts all white space at both ends and nothing else; white space is the 29 characters of `ApprovalAgent.WhitespaceListed` |
| `ApprovalAgent.ScriptEnvelopeAccepted` | scripts/11-review-approval.sh:104-108 | exact condition under which the agent accepts a script-made envelope; it is never refused for outliving its request |
| `ApprovalAgent.ScriptEnvelopeSays` | scripts/11-review-approval.sh:104-108 | the envelope the script makes copies the request's ids and hash, is dated now, and ends with the request or its own lifetime, whichever is earlier |
| `ApprovalAgent.ScriptReviewerPasses` | scripts/11-review-approval.sh:26-37 | a reviewer the script lets through is one the agent lets through, and the agent can find a reason too short only for white space at its ends |
| `ApprovalAgent.PaddedReasonPassesScriptOnly` | python/approval_agent.py:109-110 | a padded reason that the script accepts and the agent refuses |
| `ApprovalAgent.ApprovalCollection.PersistApprovalRequest` | python/governance_agent.py:170-204 | a free id takes a pending record of the request and its hash; an occupied one is left alone, answers its status if the hashes agree and is refused otherwise |
| `ApprovalAgent.ApprovalCollection.CommitResolution` | python/approval_agent.py:206-239 | a pending record takes verdict, approval id and decision and keeps everything else; any other record is left alone, and answers its stored decision exactly to the approval id that resolved it |
| `SignedEnvelope.AgentRebuildsSignedText` | scripts/11-review-approval.sh:107-121 | for every envelope, the published ASCII-escaped message is read back as that envelope, whose canonical bytes are those the reviewer signed |
| `SignedEnvelope.NoOtherEnvelopeHasThatDigest` | python/approval_agent.py:82-93 | any text read as an envelope with the signed digest is the signed envelope, up to its signature |
| `SignedEnvelope.ReadEnvelopeUndoesPayload` | python/governance_models.py:97-115 | reading the signed fields and the signature gives back the envelope |
| `SignedEnvelope.ReadEnvelopeExactly` | python/governance_models.py:97-115 | a file is read as an envelope if and only if its members, with the two defaults filled in, are the signed fields and the signature of that envelope |
| `CanonicalJson.LoadsUndoesCanonical` | python/governance_common.py:9-17 | parsing undoes canonical printing for every flat mapping, escaped or not |
| `CanonicalJson.CanonicalInjective` | python/governance_common.py:9-17 | equal canonical texts, even across the two escaping modes, mean equal mappings |
| `JsonGrammar.ReadsExactly` | python/agent_runtime.py:152-156 | the parser reads exactly the texts of objects whose members are strings, given by syntax trees with any white space, escapes, hexadecimal case and member order, and reads each as the members it is the text of; in both directions |
| `JsonGrammar.LastCounts` | python/agent_runtime.py:152-156 | of members with one key the last one counts |
| `CanonicalJson.DumpIgnoresOrder` | python/governance_common.py:11-16 | the printed text depends on the mapping and not on insertion order |
| `CanonicalJson.RebuiltTextIsSignedText` | scripts/11-review-approval.sh:117-122 | adding a member, publishing escaped, parsing and dropping it reproduces the signed text |
| `CanonicalJson.CanonicalIsPrintable` | python/governance_common.py:9-17 | canonical text contains no line break or other control character, and escaped text only ASCII |
| `CanonicalJson.EscapesExactly` | python/governance_common.py:11-16 | a character stands for itself exactly when it is printable in the mode and neither quotation mark nor backslash |
| `CanonicalJson.EscapeForms` | python/governance_common.py:11-16 | exactly seven characters have a short escape, the one the parser knows; others become one lower-case numbered escape or a pair |
| `CanonicalJson.TwoMembersText` | python/governance_common.py:11-16 | the text of two members, character by character: lower key first, a colon, one comma, no space |
| `StringOrder.LeqExactly` | python/governance_common.py:13-13 | the key order is decided by the first code point in which two strings differ, a proper beginning coming first |
| `Identifiers.Sha256HexInjective` | python/governance_common.py:20-21 | equal hashes mean equal bindings |
| `Identifiers.StableIdInjective` | python/agent_runtime.py:316-320 | a stable id determines its prefix and every value it was made from |
| `Identifiers.StableIdText` | python/agent_runtime.py:316-320 | the id of two plain values: prefix, colon, and the digest of their array with the separators used by default |
| `CorrelationWindow.CorrelationDocument.UpdateCorrelationWindow` | python/correlation_agent.py:242-530 | the step-by-step update leaves the document and returns the incident that the specification gives for the old document, in every branch |
| `CorrelationWindow.LateObservationStartsWindow` | python/correlation_agent.py:267-530 | more than the window length after the start, or with no window, the document afterwards starts now, holds this one signal and id, has the incident id of now, and counts publications from zero |
| `CorrelationWindow.TimelyObservationJoins` | python/correlation_agent.py:261-530 | within the window length the start stays, signal and id join the bounded buffer and list, and revision and rank move only with a publication |
| `CorrelationWindow.SeenObservationIsIgnored` | python/correlation_agent.py:325-329 | within the window length an id on the list changes and publishes nothing |
| `CorrelationWindow.LastExactly` | python/correlation_agent.py:335-347 | the buffer bound keeps the last signals, that many; all of them when it is zero; all but that many when it is negative |
| `CorrelationWindow.PublishedExactly` | python/correlation_agent.py:427-479 | an incident is published if and only if the score ranks above every rank published for the window and either a buffered severity spells critical in any case or score and signal count reach their thresholds |
| `CorrelationWindow.IncidentIsTheWindow` | python/correlation_agent.py:482-530 | a published incident carries id, revision, start, signals, score and level of the stored window, and exactly the sources, categories and types of its signals |
| `CorrelationWindow.ScoreExactly` | python/correlation_agent.py:384-425 | the score is at most 100 and otherwise the sum of the weights, 12 for several sources, 3 for each further signal up to 12, and 4 for each further category up to 8 |
| `CorrelationWindow.LevelExactly` | python/correlation_agent.py:159-171 | the score bounds of the four levels |
| `CorrelationWindow.ScoreIgnoresOrder` | python/correlation_agent.py:349-452 | score, eligibility and the derived sets depend only on the multiset of buffered signals |
| `CorrelationWindow.SignalNeverLowersScore` | python/correlation_agent.py:331-433 | while the buffer has room, a signal of nonnegative weight never lowers score, rank or eligibility |
| `CorrelationWindow.NeverLowersExactly` | python/correlation_agent.py:331-433 | for every buffer bound: no signal of nonnegative weight lowers the score of any buffer of a given length if and only if that length is below the bound |
| `CorrelationWindow.FullBufferCanLowerScore` | python/correlation_agent.py:335-337 | for every buffer bound a full buffer and a new signal that lowers its score |
| `CorrelationRuns.RevisionCountsNewMaxima` | python/correlation_agent.py:427-479 | after any history the stored rank is the maximum over the eligible steps, the revision is the number of their strict new maxima and of the incidents committed under the window's id, and is at most four |
| `CorrelationRuns.AtMostThreeIncidents` | python/observer_agent.py:47-64 | with the observer's weights and a threshold of at least 25 a window commits at most three incidents |
| `CorrelationBounds.ThreeIncidentsExactly` | python/correlation_agent.py:444-479 | where one signal can be enough, observer weights never give more than three incidents if and only if the threshold is at least 25 |
| `CorrelationBounds.ObservedIncidentsReached` | python/observer_agent.py:47-64 | a run with observer weights that commits three incidents under thresholds from 25 to 41, and four under lower ones |
| `CorrelationBounds.FourIncidentsReached` | python/correlation_agent.py:433-479 | a run that commits four incidents under any threshold |
| `CorrelationRuns.EligibleRank` | python/correlation_agent.py:433-466 | with those weights an eligible buffer is at least MEDIUM |
| `CorrelationRuns.PublishedAtMostOnce` | python/correlation_agent.py:468-516 | each pair of incident id and revision is published at most once per entity, over rollovers, redeliveries, lost or delayed publications and deletion |
| `CorrelationRuns.PendingOrPublished` | python/correlation_agent.py:563-603 | in every reachable state each committed incident either was published or still can be |
| `CorrelationRuns.WindowStartsIncrease` | python/correlation_agent.py:261-294 | of any two windows of a run the later one starts strictly later, whether or not they published anything and however the clock readings moved |
| `CorrelationRuns.BufferIsConsistent` | python/correlation_agent.py:325-427 | in every reachable state signals and seen ids correspond position by position without duplicates within the bound, everything derived equals its recomputation, and the score is at most 100 |
| `CorrelationRuns.BufferIsLastAccepted` | python/correlation_agent.py:331-347 | over every run the buffer is the last signals accepted in its window, up to the bound |
| `CorrelationRuns.RedeliveryIgnoredExactly` | python/correlation_agent.py:325-347 | redelivering an observation that its window accepted changes and publishes nothing if and only if fewer than the bound were accepted after it |
| `CorrelationRuns.BufferedObservationIsIgnored` | python/correlation_agent.py:325-329 | redelivering a buffered observation within its window changes and publishes nothing |
| `Observer.WeightRange` | python/observer_agent.py:47-64 | observer weights lie between 2 and 67, and a critical one is at least 55 |
| `Observer.WeightsTabled` | python/observer_agent.py:47-64 | the weight of an observation is its severity's weight plus its source's bonus, unknown ones included |
| `Observer.SingleReachesThresholdExactly` | python/observer_agent.py:47-64 | a single observation reaches the shipped score threshold exactly if it is critical, or HIGH from a source other than logs or unknown ones |
| `AgentRuntime.Runtime.Publish` | python/agent_runtime.py:109-141 | an event is counted exactly when its confirmation came back, although it may reach the topic without one |
| `AgentRuntime.Runtime.PublishAll` | python/agent_runtime.py:165-166 | outputs reach the topic in order; if a call raises, it is the first one not confirmed, everything before it was sent, and its own event exactly if the broker took it |
| `AgentRuntime.Runtime.Callback` | python/agent_runtime.py:143-204 | a message is acknowledged exactly when every output was confirmed, and handed back exactly when it was not acknowledged or the success line raised; processed, failed and published count accordingly, in-flight is as before, and the topic has every output or those up to the first call that raised |
| `RuntimeRuns.CountersBalance` | python/agent_runtime.py:148-204 | at every instant of any interleaving: received + settled but still in flight + counted twice = processed + failed + inflight |
| `RuntimeRuns.ClampNeverFires` | python/agent_runtime.py:197-204 | the in-flight count is at least one whenever it is decremented |
| `RuntimeRuns.AckedMeansPublished` | python/agent_runtime.py:158-167 | an acknowledged message has every output on the topic in order; a finished unacknowledged one was handed back |
| `RuntimeRuns.SettledOnceExactly` | python/agent_runtime.py:167-195 | a finished callback both acknowledges and refuses, and counts both ways, if and only if its success line raised; otherwise exactly one |
| `RuntimeRuns.CountersAtRest` | python/agent_runtime.py:148-204 | when all callbacks have returned, inflight is 0 and received = processed + failed, less one for each success line that raised |
| `RuntimeRuns.CallbackIsARun` | python/agent_runtime.py:143-204 | what the callback method does alone is a run of the interleaved system |
| `RuntimeRuns.RaisingLogCountsTwice` | python/agent_runtime.py:175-195 | every fully published message whose success line raises ends acknowledged, refused and counted twice |
| `Aggregator.NormalizeTrivyReport` | python/aggregator.py:354-636 | the nested early-exit loops return the first findings of the whole report up to the cap, as many as the cap allows; for a cap below one, what the slice leaves of the first result |
| `Aggregator.UptoExactly` | python/aggregator.py:605-608 | a cap keeps the leading elements, that many, or all but that many when it is negative |
| `Aggregator.ReportFindingsExactly` | python/aggregator.py:354-636 | the uncapped findings of a report: one for each item of each of its three lists, result by result and list by list, open, of the list's own category, with the item's text, the report's image and the result's target; or the one closed summary of a clean report |
| `Aggregator.NormalizeTrivy` | python/aggregator.py:639-673 | cutting every report and then the list equals cutting the uncapped findings of all reports once, as many as the cap allows |
| `Aggregator.AllFindingsExactly` | python/aggregator.py:639-673 | the uncapped findings of a list of reports are those of its reports, one report after the other, elements that are no object giving none |
| `Aggregator.NormalizeProwler` | python/aggregator.py:676-848 | the loop returns the first findings of the filtered report up to the cap, but at least one |
| `Aggregator.CheckFindingsExactly` | python/aggregator.py:676-848 | the uncapped findings of a Prowler report: in order, one for each check that is an object and has not passed, or any if passes are published, with the check's text and its status |
| `Aggregator.UpperExactly` | python/aggregator.py:695-705 | the 26 small letters are raised and nothing else changes |
| `ScannerPublisher.Payloads` | python/scanner_publisher.py:135-162 | only Prowler lists are split, in order; a zero batch size raises at the first of them, after yielding exactly the documents before it |
| `ScannerPublisher.BatchesExactly` | python/scanner_publisher.py:151-159 | the batches of a list are lists that joined give the list, all full except perhaps the last, none empty |
| `ScannerPublisher.OthersSentWhole` | python/scanner_publisher.py:143-162 | documents of any other source, and Prowler documents that are no lists, are sent as they are, whatever the batch size |
| `ScannerPublisher.SplittingKeepsAll` | python/scanner_publisher.py:143-162 | for a positive batch size, splitting neither drops nor reorders a finding |
| `ScannerPublisher.CapLosesExactly` | python/aggregator.py:842-848 | the cap loses findings if and only if some payload holds more of them than the cap |
| `ScannerPublisher.LosslessExactly` | python/scanner_publisher.py:151-159 | batching and capping lose no Prowler finding, whatever the reports, if and only if the batch size is between one and the cap |
| `ScannerPublisher.BadBatchLoses` | python/scanner_publisher.py:151-159 | for every other batch size one list of failing checks is enough to lose a finding |

## Left out

- LedgerRuns.MutualExclusion: assumes that an attempt acts only within its own lease, because the completing and failing writes do not check who holds it.
- LedgerRuns.CompletedIsFinal: excludes the two steps that reopen a completed document; `CompletedStepExactly` shows that these and no others do.
- CorrelationRuns.PublishedAtMostOnce: no at-least-once counterpart is stated, because the transaction commits before the runtime publishes and a publication that fails is never repeated.
- ScannerPublisher.LosslessExactly: compares with one accepted delivery per payload; the publisher's retries may deliver a payload again, and a batch that is never accepted stops the job.
- GovernedExecution.CallsAreAuthorizedAndBounded: rests on the same lease assumption as `LedgerRuns.MutualExclusion`; with it a call may still be repeated after a failure, an abandonment or a deletion, as counted.
- The gateway and `python/mcp_server.py`: straight-line request checks, including the nonempty rationale the executor does not ask for.
- Gemini analysis: any analysis that meets the model's field constraints.
- OPA transport: the policy is evaluated directly; an OPA answer outside its schema, or none, stops the handler before any effect.
- Envelope and decision schemas beyond the fields above; a request record without its event; nested JSON, floats in JSON, `default=str`.
- Calendar text: time zones and malformed offsets appear only as timestamps that do not parse.
- JSON texts with unpaired surrogates, which cannot be encoded as UTF-8.
- Vendor fields of scan items are kept as raw text; random ids for items without one, `upper()` beyond ASCII in Prowler statuses, results that are not objects, and Falco, SCC, Cloud Logging and MCP findings are not modelled.
- The observer's entity key and signal type: an observation arrives with them.
- Raising `ack` and `nack`, `BaseException`, shutdown and the flow-control limits of the subscriber.
- Audit events, Markdown, Slack and Jira reporting, metrics, health endpoints, deployment scripts, Terraform and the Conftest policy.
