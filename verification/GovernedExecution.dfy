/**
 * Governance, approval and any number of executing workers together: Pipeline's protocol with one
 * execution document for every decision id, under one clock.
 */
module GovernedExecution {
  import opened Prelude
  import opened Identifiers
  import opened GovernanceModels
  import opened ExecutionLedger
  import Gate = ExecutorGate
  import P = Pipeline
  import L = LedgerRuns

  datatype Config = Config(protocol: P.Config, ledger: LedgerConfig)

  /** A document, its attempts, the decision each attempt handles, and how often TTL has deleted it. */
  datatype Ledger = Ledger(doc: Option<Doc>, attempts: seq<L.Attempt>, handled: seq<P.Call>, deletions: nat)

  datatype State = State(protocol: P.State, clock: int, ledgers: map<string, Ledger>)

  const EMPTY := Ledger(None, [], [], 0)

  /**
   * Deliver(x, readAt): an executor that admitted x.decision at x.readAt tries to claim with a clock
   * reading of readAt. Write: one of the steps that an attempt, or TTL, takes on a document.
   */
  datatype Step =
    | Govern(action: P.Step)
    | Tick(to: int)
    | Deliver(x: P.Call, readAt: int)
    | Write(id: string, step: L.Step)

  function LedgerOf(s: State, id: string): Ledger {
    if id in s.ledgers then s.ledgers[id] else EMPTY
  }

  /** The run of one document that this state is a moment of. */
  function View(s: State, id: string): L.State {
    L.State(s.clock, LedgerOf(s, id).doc, LedgerOf(s, id).attempts)
  }

  function DocumentOf(x: P.Call, c: Config): string {
    DocumentId(x.decision, c.protocol.platform)
  }

  ghost predicate Enabled(s: State, step: Step, c: Config) {
    match step
    case Govern(q) => !q.Executed? && P.Enabled(s.protocol, q, c.protocol)
    case Tick(to) => s.clock <= to
    case Deliver(x, readAt) =>
      && x.decision in s.protocol.decisions && Gate.Admits(x.decision, x.readAt, c.protocol.exec, c.protocol.platform)
      && readAt <= s.clock
    case Write(id, q) =>
      && !q.Tick? && !q.Deliver? && L.Enabled(View(s, id), q)
      && (q.Call? ==> q.i < |LedgerOf(s, id).handled|)
  }

  /** The ledger after one step of its own run; a claim remembers the decision it was made for. */
  function Advanced(s: State, id: string, q: L.Step, handled: seq<P.Call>, c: Config): Ledger
    requires L.Enabled(View(s, id), q)
  {
    var view := L.Apply(View(s, id), q, c.ledger);
    var l := LedgerOf(s, id);
    Ledger(view.doc, view.attempts, if |view.attempts| > |l.attempts| then l.handled + handled else l.handled,
           l.deletions + L.Bit(q.Expire?))
  }

  ghost function Apply(s: State, step: Step, c: Config): State
    requires Enabled(s, step, c)
  {
    match step
    case Govern(q) => s.(protocol := P.Apply(s.protocol, q, c.protocol))
    case Tick(to) => s.(clock := to)
    case Deliver(x, readAt) =>
      s.(ledgers := s.ledgers[DocumentOf(x, c) := Advanced(s, DocumentOf(x, c), L.Deliver(readAt), [x], c)])
    case Write(id, q) =>
      s.(ledgers := s.ledgers[id := Advanced(s, id, q, [], c)],
         protocol := if q.Call? then s.protocol.(calls := s.protocol.calls + {LedgerOf(s, id).handled[q.i]}) else s.protocol)
  }

  /** The assumption of LedgerRuns: an attempt acts only while its own lease lasts. */
  predicate OnTime(s: State, step: Step) {
    step.Write? ==> L.OnTime(View(s, step.id), step.step)
  }

  predicate Initial(s: State) {
    s.protocol == P.INITIAL && s.ledgers == map[]
  }

  ghost predicate TimelyRun(trace: seq<State>, steps: seq<Step>, c: Config) {
    && |trace| == |steps| + 1 && Initial(trace[0])
    && forall k :: 0 <= k < |steps| ==>
         Enabled(trace[k], steps[k], c) && OnTime(trace[k], steps[k]) && trace[k + 1] == Apply(trace[k], steps[k], c)
  }

  // ---------------------------------------------------------------- invariant

  /** An attempt handles an admitted decision of this document, and has called only for that decision. */
  ghost predicate Handles(x: P.Call, a: L.Attempt, id: string, protocol: P.State, c: Config) {
    && x.decision in protocol.decisions
    && Gate.Admits(x.decision, x.readAt, c.protocol.exec, c.protocol.platform)
    && DocumentOf(x, c) == id
    && (a.calls >= 1 ==> x in protocol.calls)
  }

  ghost predicate AllHandle(l: Ledger, id: string, protocol: P.State, c: Config) {
    && |l.handled| == |l.attempts|
    && forall i :: 0 <= i < |l.attempts| ==> Handles(l.handled[i], l.attempts[i], id, protocol, c)
  }

  ghost predicate LedgerProper(s: State, id: string, c: Config) {
    && L.Exclusive(View(s, id)) && L.Accounted(View(s, id), LedgerOf(s, id).deletions)
    && AllHandle(LedgerOf(s, id), id, s.protocol, c)
  }

  predicate MadeBy(x: P.Call, l: Ledger) {
    exists i :: 0 <= i < |l.attempts| && i < |l.handled| && l.handled[i] == x && l.attempts[i].calls >= 1
  }

  ghost predicate Inv(s: State, c: Config) {
    && P.Inv(s.protocol, c.protocol)
    && (forall id :: LedgerProper(s, id, c))
    && (forall x :: x in s.protocol.calls ==> MadeBy(x, LedgerOf(s, DocumentOf(x, c))))
  }

  // ---------------------------------------------------------------- one document

  /** A step adds at most one attempt, with its decision, and counts a call for the attempt that calls. */
  predicate Follows(l: Ledger, l': Ledger, q: L.Step, handled: seq<P.Call>) {
    && |l'.handled| == |l'.attempts| && l.handled <= l'.handled
    && |l.attempts| <= |l'.attempts| <= |l.attempts| + 1
    && (|l'.attempts| > |l.attempts| ==>
          |handled| == 1 && l'.handled[|l.attempts|] == handled[0] && l'.attempts[|l.attempts|].calls == 0)
    && forall i :: 0 <= i < |l.attempts| ==> l'.attempts[i].calls == l.attempts[i].calls + L.Bit(q == L.Call(i))
  }

  lemma AdvancedFollows(s: State, id: string, q: L.Step, handled: seq<P.Call>, c: Config)
    requires L.Enabled(View(s, id), q) && |LedgerOf(s, id).handled| == |LedgerOf(s, id).attempts|
    requires q.Deliver? ==> |handled| == 1
    ensures Follows(LedgerOf(s, id), Advanced(s, id, q, handled, c), q, handled)
  {
  }

  /** A step of a document's own run keeps what LedgerRuns proves of such runs. */
  lemma AdvancedIsAccounted(s: State, id: string, q: L.Step, handled: seq<P.Call>, c: Config)
    requires c.ledger.lease <= c.ledger.ttl
    requires L.Enabled(View(s, id), q) && L.OnTime(View(s, id), q) && !q.Tick?
    requires L.Exclusive(View(s, id)) && L.Accounted(View(s, id), LedgerOf(s, id).deletions)
    ensures var l := Advanced(s, id, q, handled, c);
            var view := L.State(s.clock, l.doc, l.attempts);
            view == L.Apply(View(s, id), q, c.ledger) && L.Exclusive(view) && L.Accounted(view, l.deletions)
  {
    L.StepKeepsExclusive(View(s, id), q, c.ledger);
    L.StepKeepsAccount(View(s, id), q, c.ledger, LedgerOf(s, id).deletions);
    hide L.Exclusive, L.Accounted, L.OnTime;
  }

  /** More decisions and calls, and the same attempt: it still handles its decision. */
  lemma StillHandles(x: P.Call, a: L.Attempt, a': L.Attempt, id: string, before: P.State, after: P.State, c: Config)
    requires Handles(x, a, id, before, c) && before.decisions <= after.decisions && before.calls <= after.calls
    requires a'.calls == a.calls || x in after.calls
    ensures Handles(x, a', id, after, c)
  {
    hide Gate.Admits, DocumentOf;
  }

  lemma FollowerHandles(l: Ledger, l': Ledger, q: L.Step, handled: seq<P.Call>, id: string, before: P.State, after: P.State, c: Config)
    requires AllHandle(l, id, before, c) && before.decisions <= after.decisions && before.calls <= after.calls
    requires Follows(l, l', q, handled)
    requires |handled| == 1 ==> Handles(handled[0], L.Attempt(0, L.Held, 0), id, after, c)
    requires q.Call? ==> q.i < |l.handled| && l.handled[q.i] in after.calls
    ensures AllHandle(l', id, after, c)
  {
    hide Handles;
    forall i | 0 <= i < |l'.attempts| ensures Handles(l'.handled[i], l'.attempts[i], id, after, c) {
      if i < |l.attempts| {
        StillHandles(l.handled[i], l.attempts[i], l'.attempts[i], id, before, after, c);
      } else {
        StillHandles(handled[0], L.Attempt(0, L.Held, 0), l'.attempts[i], id, after, after, c);
      }
    }
  }

  lemma LedgerStays(s: State, s': State, id: string, c: Config)
    requires LedgerProper(s, id, c) && View(s', id) == View(s, id) && LedgerOf(s', id) == LedgerOf(s, id)
    requires s.protocol.decisions <= s'.protocol.decisions && s.protocol.calls <= s'.protocol.calls
    ensures LedgerProper(s', id, c)
  {
    hide L.Exclusive, L.Accounted, Handles, View, LedgerOf;
    var l := LedgerOf(s, id);
    forall i | 0 <= i < |l.attempts| ensures Handles(l.handled[i], l.attempts[i], id, s'.protocol, c) {
      StillHandles(l.handled[i], l.attempts[i], l.attempts[i], id, s.protocol, s'.protocol, c);
    }
  }

  lemma TickedLedgerProper(s: State, to: int, id: string, c: Config)
    requires c.ledger.lease <= c.ledger.ttl && LedgerProper(s, id, c) && s.clock <= to
    ensures LedgerProper(s.(clock := to), id, c)
  {
    L.StepKeepsExclusive(View(s, id), L.Tick(to), c.ledger);
    hide L.Exclusive, Handles;
  }

  lemma WrittenLedgerProper(s: State, s': State, id: string, q: L.Step, handled: seq<P.Call>, c: Config)
    requires c.ledger.lease <= c.ledger.ttl && LedgerProper(s, id, c)
    requires L.Enabled(View(s, id), q) && L.OnTime(View(s, id), q) && !q.Tick?
    requires (q.Deliver? ==> |handled| == 1) && (|handled| == 1 ==> Handles(handled[0], L.Attempt(0, L.Held, 0), id, s'.protocol, c))
    requires q.Call? ==> q.i < |LedgerOf(s, id).handled| && LedgerOf(s, id).handled[q.i] in s'.protocol.calls
    requires s.protocol.decisions <= s'.protocol.decisions && s.protocol.calls <= s'.protocol.calls
    requires s'.clock == s.clock && LedgerOf(s', id) == Advanced(s, id, q, handled, c)
    ensures LedgerProper(s', id, c)
  {
    hide L.Exclusive, L.Accounted, L.Enabled, L.OnTime, Follows, Handles, Advanced, LedgerOf;
    AdvancedFollows(s, id, q, handled, c);
    AdvancedIsAccounted(s, id, q, handled, c);
    FollowerHandles(LedgerOf(s, id), LedgerOf(s', id), q, handled, id, s.protocol, s'.protocol, c);
  }

  lemma MadeStays(x: P.Call, s: State, id: string, q: L.Step, handled: seq<P.Call>, c: Config)
    requires L.Enabled(View(s, id), q) && |LedgerOf(s, id).handled| == |LedgerOf(s, id).attempts|
    requires q.Deliver? ==> |handled| == 1
    requires MadeBy(x, LedgerOf(s, id)) || (q.Call? && q.i < |LedgerOf(s, id).handled| && x == LedgerOf(s, id).handled[q.i])
    ensures MadeBy(x, Advanced(s, id, q, handled, c))
  {
    var l, l' := LedgerOf(s, id), Advanced(s, id, q, handled, c);
    AdvancedFollows(s, id, q, handled, c);
    hide L.Enabled, L.Apply, Advanced;
    if MadeBy(x, l) {
      var i :| 0 <= i < |l.attempts| && i < |l.handled| && l.handled[i] == x && l.attempts[i].calls >= 1;
      assert l'.handled[i] == x && l'.attempts[i].calls >= 1;
    } else {
      assert l'.handled[q.i] == x && l'.attempts[q.i].calls >= 1;
    }
  }

  // ---------------------------------------------------------------- every step keeps the invariant

  lemma CallsOnlyByExecution(s: P.State, q: P.Step, c: P.Config)
    requires P.Enabled(s, q, c) && !q.Executed?
    ensures P.Apply(s, q, c).calls == s.calls
  {
    hide P.DecisionOn, P.RequestFor;
  }

  lemma AfterGovern(s: State, q: P.Step, c: Config)
    requires Sound(c.protocol.platform) && Inv(s, c) && Enabled(s, Govern(q), c)
    ensures Inv(Apply(s, Govern(q), c), c)
  {
    hide P.Inv, P.Enabled, P.Apply, LedgerProper, MadeBy;
    var s' := Apply(s, Govern(q), c);
    P.StepKeepsInv(s.protocol, q, c.protocol);
    P.StepGrows(s.protocol, q, c.protocol);
    CallsOnlyByExecution(s.protocol, q, c.protocol);
    forall id ensures LedgerProper(s', id, c) {
      LedgerStays(s, s', id, c);
    }
  }

  lemma AfterTick(s: State, to: int, c: Config)
    requires c.ledger.lease <= c.ledger.ttl && Inv(s, c) && s.clock <= to
    ensures Inv(s.(clock := to), c)
  {
    hide P.Inv, LedgerProper, MadeBy;
    forall id ensures LedgerProper(s.(clock := to), id, c) {
      TickedLedgerProper(s, to, id, c);
    }
  }

  /** All that a write to one document changes. */
  ghost predicate Writes(s: State, s': State, id: string, q: L.Step, handled: seq<P.Call>, c: Config)
    requires L.Enabled(View(s, id), q)
  {
    && s'.ledgers == s.ledgers[id := Advanced(s, id, q, handled, c)] && s'.clock == s.clock
    && s'.protocol == s.protocol.(calls := s'.protocol.calls)
    && (q.Call? ==> q.i < |LedgerOf(s, id).handled|)
    && s'.protocol.calls == s.protocol.calls + if q.Call? then {LedgerOf(s, id).handled[q.i]} else {}
  }

  lemma WriteKeepsLedgers(s: State, s': State, id: string, q: L.Step, handled: seq<P.Call>, c: Config)
    requires c.ledger.lease <= c.ledger.ttl && forall other :: LedgerProper(s, other, c)
    requires L.Enabled(View(s, id), q) && L.OnTime(View(s, id), q) && !q.Tick? && Writes(s, s', id, q, handled, c)
    requires (q.Deliver? ==> |handled| == 1) && (|handled| == 1 ==> Handles(handled[0], L.Attempt(0, L.Held, 0), id, s'.protocol, c))
    ensures forall other :: LedgerProper(s', other, c)
  {
    hide L.Enabled, L.OnTime, Handles, Advanced, LedgerProper;
    forall other ensures LedgerProper(s', other, c) {
      if other == id {
        WrittenLedgerProper(s, s', id, q, handled, c);
      } else {
        LedgerStays(s, s', other, c);
      }
    }
  }

  lemma WriteKeepsMade(s: State, s': State, id: string, q: L.Step, handled: seq<P.Call>, c: Config)
    requires LedgerProper(s, id, c) && forall x :: x in s.protocol.calls ==> MadeBy(x, LedgerOf(s, DocumentOf(x, c)))
    requires L.Enabled(View(s, id), q) && Writes(s, s', id, q, handled, c) && (q.Deliver? ==> |handled| == 1)
    ensures forall x :: x in s'.protocol.calls ==> MadeBy(x, LedgerOf(s', DocumentOf(x, c)))
  {
    hide LedgerProper, L.Enabled, Advanced, MadeBy, DocumentOf, View;
    forall x | x in s'.protocol.calls ensures MadeBy(x, LedgerOf(s', DocumentOf(x, c))) {
      OneMadeStays(x, s, s', id, q, handled, c);
    }
  }

  lemma OneMadeStays(x: P.Call, s: State, s': State, id: string, q: L.Step, handled: seq<P.Call>, c: Config)
    requires LedgerProper(s, id, c) && x in s'.protocol.calls
    requires x in s.protocol.calls ==> MadeBy(x, LedgerOf(s, DocumentOf(x, c)))
    requires L.Enabled(View(s, id), q) && Writes(s, s', id, q, handled, c) && (q.Deliver? ==> |handled| == 1)
    ensures MadeBy(x, LedgerOf(s', DocumentOf(x, c)))
  {
    hide L.Enabled, Advanced, MadeBy, DocumentOf, L.Exclusive, L.Accounted, Handles, View;
    if x !in s.protocol.calls {
      HandledIsHere(x, q.i, s, id, c);
    }
    if DocumentOf(x, c) == id {
      MadeStays(x, s, id, q, handled, c);
    }
  }

  lemma HandledIsHere(x: P.Call, i: nat, s: State, id: string, c: Config)
    requires LedgerProper(s, id, c) && i < |LedgerOf(s, id).handled| && x == LedgerOf(s, id).handled[i]
    ensures DocumentOf(x, c) == id
    ensures x.decision in s.protocol.decisions && Gate.Admits(x.decision, x.readAt, c.protocol.exec, c.protocol.platform)
  {
    hide L.Exclusive, L.Accounted, Gate.Admits, DocumentOf;
    assert Handles(LedgerOf(s, id).handled[i], LedgerOf(s, id).attempts[i], id, s.protocol, c);
  }

  /** Recording the call of an admitted decision is a step of the protocol. */
  lemma CallKeepsProtocol(s: P.State, x: P.Call, c: P.Config)
    requires Sound(c.platform) && P.Inv(s, c) && x.decision in s.decisions && Gate.Admits(x.decision, x.readAt, c.exec, c.platform)
    ensures P.Inv(s.(calls := s.calls + {x}), c)
  {
    hide P.Inv, Gate.Admits;
    P.StepKeepsInv(s, P.Executed(x.decision, x.readAt), c);
    assert P.Call(x.decision, x.readAt) == x;
  }

  lemma AfterDeliver(s: State, x: P.Call, readAt: int, c: Config)
    requires c.ledger.lease <= c.ledger.ttl && Inv(s, c) && Enabled(s, Deliver(x, readAt), c)
    ensures Inv(Apply(s, Deliver(x, readAt), c), c)
  {
    hide P.Inv, Gate.Admits, LedgerProper, MadeBy, Advanced, DocumentOf;
    var id, s' := DocumentOf(x, c), Apply(s, Deliver(x, readAt), c);
    assert s'.protocol.calls == s.protocol.calls + {};
    assert Handles(x, L.Attempt(0, L.Held, 0), id, s'.protocol, c);
    WriteKeepsLedgers(s, s', id, L.Deliver(readAt), [x], c);
    WriteKeepsMade(s, s', id, L.Deliver(readAt), [x], c);
  }

  lemma AfterWrite(s: State, id: string, q: L.Step, c: Config)
    requires Sound(c.protocol.platform) && c.ledger.lease <= c.ledger.ttl
    requires Inv(s, c) && Enabled(s, Write(id, q), c) && OnTime(s, Write(id, q))
    ensures Inv(Apply(s, Write(id, q), c), c)
  {
    hide P.Inv, Gate.Admits, LedgerProper, MadeBy, Advanced, DocumentOf, L.Enabled, L.OnTime;
    var s' := Apply(s, Write(id, q), c);
    if q.Call? {
      HandledIsHere(LedgerOf(s, id).handled[q.i], q.i, s, id, c);
      CallKeepsProtocol(s.protocol, LedgerOf(s, id).handled[q.i], c.protocol);
    } else {
      assert s'.protocol.calls == s.protocol.calls + {};
    }
    WriteKeepsLedgers(s, s', id, q, [], c);
    WriteKeepsMade(s, s', id, q, [], c);
  }

  lemma StepKeepsInv(s: State, step: Step, c: Config)
    requires Sound(c.protocol.platform) && c.ledger.lease <= c.ledger.ttl
    requires Inv(s, c) && Enabled(s, step, c) && OnTime(s, step)
    ensures Inv(Apply(s, step, c), c)
  {
    hide Inv, P.Inv, Gate.Admits, Advanced, DocumentOf;
    match step
    case Govern(q) => AfterGovern(s, q, c);
    case Tick(to) => AfterTick(s, to, c);
    case Deliver(x, readAt) => AfterDeliver(s, x, readAt, c);
    case Write(id, q) => AfterWrite(s, id, q, c);
  }

  lemma InitialInv(s: State, c: Config)
    requires Initial(s)
    ensures Inv(s, c)
  {
    P.InitialInv(c.protocol);
  }

  lemma {:induction false} ReachableInv(trace: seq<State>, steps: seq<Step>, c: Config, k: nat)
    requires Sound(c.protocol.platform) && c.ledger.lease <= c.ledger.ttl && TimelyRun(trace, steps, c) && k < |trace|
    ensures Inv(trace[k], c)
  {
    hide Inv, Enabled, OnTime, Apply;
    if k == 0 {
      InitialInv(trace[0], c);
    } else {
      ReachableInv(trace, steps, c, k - 1);
      StepKeepsInv(trace[k - 1], steps[k - 1], c);
      assert trace[k - 1 + 1] == trace[k];
    }
  }

  // ---------------------------------------------------------------- main results

  /** Admitted by the executor's gate, and descending from a permit or from a signed approval. */
  ghost predicate Authorized(x: P.Call, s: P.State, c: Config) {
    && Gate.Admits(x.decision, x.readAt, c.protocol.exec, c.protocol.platform)
    && if x.decision.decisionSource == DgcOpa then P.AutomaticallyAuthorized(x, s, c.protocol) else P.HumanAuthorized(x, s, c.protocol)
  }

  lemma InvMeansBounded(s: State, c: Config, id: string)
    requires Sound(c.protocol.platform) && Inv(s, c)
    ensures L.Conserved(View(s, id), LedgerOf(s, id).deletions)
    ensures AllHandle(LedgerOf(s, id), id, s.protocol, c)
    ensures forall x :: x in s.protocol.calls ==> MadeBy(x, LedgerOf(s, DocumentOf(x, c))) && Authorized(x, s.protocol, c)
  {
    hide P.Inv, Gate.Admits, L.Exclusive, L.Accounted, L.Conserved, AllHandle, MadeBy, DocumentOf, P.AutomaticallyAuthorized, P.HumanAuthorized;
    assert LedgerProper(s, id, c);
    L.AccountedIsConserved(View(s, id), LedgerOf(s, id).deletions);
    forall x | x in s.protocol.calls ensures Authorized(x, s.protocol, c) {
      P.CallIsAuthorized(s.protocol, c.protocol, x);
      P.CallWasAdmitted(s.protocol, c.protocol, x);
    }
  }

  lemma HandledByDocument(s: State, c: Config, id: string)
    requires AllHandle(LedgerOf(s, id), id, s.protocol, c)
    ensures var l := LedgerOf(s, id);
            |l.handled| == |l.attempts| &&
            forall i :: 0 <= i < |l.attempts| && l.attempts[i].calls >= 1 ==> l.handled[i] in s.protocol.calls && DocumentOf(l.handled[i], c) == id
  {
    hide Gate.Admits, DocumentOf;
  }

  /** How many attempts on a document have succeeded. */
  function Successes(s: State, id: string): nat {
    L.Count(LedgerOf(s, id).attempts, s.clock, L.Succeeded)
  }

  /**
   * Authorized and counted. In every timely run of governance, approval and any number of workers, the
   * gateway calls for one decision id number at most one more than the attempts on it that gave up or
   * were abandoned and the deletions of its document; and every one of these calls is authorized by the
   * policy alone or by the single answer to a signed request.
   */
  lemma CallsAreAuthorizedAndBounded(trace: seq<State>, steps: seq<Step>, c: Config, k: nat, id: string)
    requires Sound(c.protocol.platform) && c.ledger.lease <= c.ledger.ttl && TimelyRun(trace, steps, c) && k < |trace|
    ensures var s := trace[k];
            var l := LedgerOf(s, id);
            && L.Conserved(View(s, id), l.deletions)
            && |l.handled| == |l.attempts|
            && (forall i :: 0 <= i < |l.attempts| && l.attempts[i].calls >= 1 ==>
                  l.handled[i] in s.protocol.calls && DocumentOf(l.handled[i], c) == id && Authorized(l.handled[i], s.protocol, c))
            && (forall x :: x in s.protocol.calls && DocumentOf(x, c) == id ==> MadeBy(x, l))
  {
    hide *;
    ReachableInv(trace, steps, c, k);
    InvMeansBounded(trace[k], c, id);
    HandledByDocument(trace[k], c, id);
  }

  /**
   * An approval request leads to at most one successful execution between deletions: whatever answers
   * one of its incarnations gave, they are one decision, and the attempts on its document that succeeded
   * number at most one more than the document's deletions.
   */
  lemma RequestSucceedsOnce(trace: seq<State>, steps: seq<Step>, c: Config, k: nat, incarnation: nat, d: GovernanceDecision, d': GovernanceDecision)
    requires Sound(c.protocol.platform) && c.ledger.lease <= c.ledger.ttl && TimelyRun(trace, steps, c) && k < |trace|
    requires (incarnation, d) in trace[k].protocol.resolved && (incarnation, d') in trace[k].protocol.resolved
    ensures d == d'
    ensures var id := DocumentId(d, c.protocol.platform);
            Successes(trace[k], id) <= 1 + LedgerOf(trace[k], id).deletions
  {
    hide P.Inv;
    ReachableInv(trace, steps, c, k);
    P.InvOneAnswer(trace[k].protocol, c.protocol);
    InvMeansBounded(trace[k], c, DocumentId(d, c.protocol.platform));
  }
}
