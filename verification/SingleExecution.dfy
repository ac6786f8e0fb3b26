/**
 * Runs in which executors are also punctual: a decision is checked after it was made, and claimed within
 * a bounded time after it was checked. Then one decision succeeds at most once, deletions or not.
 */
module SingleExecution {
  import opened Identifiers
  import opened GovernanceModels
  import opened ExecutionLedger
  import opened GovernedExecution

  /** The gate reads the clock after the decision was made, and the claim within gap after the gate. */
  predicate Punctual(step: Step, gap: int, c: Config) {
    step.Deliver? ==>
      var made := c.protocol.platform.parse(step.x.decision.decidedAt);
      made.Some? && made.value <= step.x.readAt <= step.readAt <= step.x.readAt + gap
  }

  ghost predicate PunctualRun(trace: seq<State>, steps: seq<Step>, gap: int, c: Config) {
    TimelyRun(trace, steps, c) && forall k :: 0 <= k < |steps| ==> Punctual(steps[k], gap, c)
  }

  /** The attempt claimed its document between the making of its decision and, but for gap, its expiry. */
  predicate Dated(x: P.Call, a: L.Attempt, gap: int, c: Config) {
    var made, expires := c.protocol.platform.parse(x.decision.decidedAt), c.protocol.platform.parse(x.decision.expiresAt);
    made.Some? && expires.Some? && made.value <= L.Started(a, c.ledger) < expires.value + gap
  }

  predicate AllDated(l: Ledger, gap: int, c: Config) {
    |l.handled| == |l.attempts| && forall i :: 0 <= i < |l.attempts| ==> Dated(l.handled[i], l.attempts[i], gap, c)
  }

  predicate LedgerTimed(s: State, id: string, gap: int, c: Config) {
    L.Spaced(View(s, id), c.ledger) && AllDated(LedgerOf(s, id), gap, c)
  }

  ghost predicate Timed(s: State, gap: int, c: Config) {
    forall id :: LedgerTimed(s, id, gap, c)
  }

  // ---------------------------------------------------------------- every step keeps the dates

  lemma AdvancedKeepsLeases(s: State, id: string, q: L.Step, handled: seq<P.Call>, c: Config)
    requires L.Enabled(View(s, id), q) && |LedgerOf(s, id).handled| == |LedgerOf(s, id).attempts|
    requires q.Deliver? ==> |handled| == 1
    ensures var l, l' := LedgerOf(s, id), Advanced(s, id, q, handled, c);
            && |l'.handled| == |l'.attempts| && l.handled <= l'.handled && |l.attempts| <= |l'.attempts| <= |l.attempts| + 1
            && (forall i :: 0 <= i < |l.attempts| ==> l'.attempts[i].lease == l.attempts[i].lease)
            && (|l'.attempts| > |l.attempts| ==>
                  q.Deliver? && l'.handled[|l.attempts|] == handled[0] && l'.attempts[|l.attempts|].lease == q.readAt + c.ledger.lease)
  {
  }

  lemma SameLeaseSameDate(x: P.Call, a: L.Attempt, a': L.Attempt, gap: int, c: Config)
    requires Dated(x, a, gap, c) && a'.lease == a.lease
    ensures Dated(x, a', gap, c)
  {
  }

  lemma AdvancedIsDated(s: State, id: string, q: L.Step, handled: seq<P.Call>, gap: int, c: Config)
    requires L.Enabled(View(s, id), q) && AllDated(LedgerOf(s, id), gap, c)
    requires q.Deliver? ==> |handled| == 1 && Dated(handled[0], L.Attempt(q.readAt + c.ledger.lease, L.Held, 0), gap, c)
    ensures AllDated(Advanced(s, id, q, handled, c), gap, c)
  {
    var l, l' := LedgerOf(s, id), Advanced(s, id, q, handled, c);
    AdvancedKeepsLeases(s, id, q, handled, c);
    hide L.Enabled, Advanced, Dated;
    forall i | 0 <= i < |l'.attempts| ensures Dated(l'.handled[i], l'.attempts[i], gap, c) {
      if i < |l.attempts| {
        SameLeaseSameDate(l.handled[i], l.attempts[i], l'.attempts[i], gap, c);
      } else {
        SameLeaseSameDate(handled[0], L.Attempt(q.readAt + c.ledger.lease, L.Held, 0), l'.attempts[i], gap, c);
      }
    }
  }

  lemma WrittenLedgerTimed(s: State, s': State, id: string, q: L.Step, handled: seq<P.Call>, gap: int, c: Config)
    requires c.ledger.lease <= c.ledger.ttl && LedgerTimed(s, id, gap, c) && L.Exclusive(View(s, id))
    requires L.Enabled(View(s, id), q) && L.OnTime(View(s, id), q) && !q.Tick?
    requires q.Deliver? ==> |handled| == 1 && Dated(handled[0], L.Attempt(q.readAt + c.ledger.lease, L.Held, 0), gap, c)
    requires s'.clock == s.clock && LedgerOf(s', id) == Advanced(s, id, q, handled, c)
    ensures LedgerTimed(s', id, gap, c)
  {
    L.StepKeepsSpaced(View(s, id), q, c.ledger);
    AdvancedIsDated(s, id, q, handled, gap, c);
    AdvancedView(s, id, q, handled, c);
    hide L.Spaced, L.Exclusive, L.Enabled, L.OnTime, Dated, Advanced;
  }

  lemma AdvancedView(s: State, id: string, q: L.Step, handled: seq<P.Call>, c: Config)
    requires L.Enabled(View(s, id), q) && !q.Tick?
    ensures var l := Advanced(s, id, q, handled, c); L.State(s.clock, l.doc, l.attempts) == L.Apply(View(s, id), q, c.ledger)
  {
  }

  lemma TickedLedgerTimed(s: State, to: int, id: string, gap: int, c: Config)
    requires c.ledger.lease <= c.ledger.ttl && LedgerTimed(s, id, gap, c) && L.Exclusive(View(s, id)) && s.clock <= to
    ensures LedgerTimed(s.(clock := to), id, gap, c)
  {
    L.StepKeepsSpaced(View(s, id), L.Tick(to), c.ledger);
    hide L.Spaced, L.Exclusive, Dated;
  }

  /** An admitted decision that is claimed punctually is claimed in its own time. */
  lemma DeliveredIsDated(s: State, x: P.Call, readAt: int, gap: int, c: Config)
    requires Enabled(s, Deliver(x, readAt), c) && Punctual(Deliver(x, readAt), gap, c)
    ensures Dated(x, L.Attempt(readAt + c.ledger.lease, L.Held, 0), gap, c)
  {
    hide Gate.Admits;
    Gate.AdmissionMeans(x.decision, x.readAt, c.protocol.exec, c.protocol.platform);
  }

  lemma LedgerIsExclusive(s: State, id: string, c: Config)
    requires Inv(s, c)
    ensures L.Exclusive(View(s, id))
  {
    hide P.Inv, L.Exclusive, L.Accounted, AllHandle, MadeBy;
    assert LedgerProper(s, id, c);
  }

  lemma StepKeepsTimed(s: State, step: Step, gap: int, c: Config)
    requires c.ledger.lease <= c.ledger.ttl && Inv(s, c) && Timed(s, gap, c)
    requires Enabled(s, step, c) && OnTime(s, step) && Punctual(step, gap, c)
    ensures Timed(Apply(s, step, c), gap, c)
  {
    hide Inv, Enabled, OnTime, Apply, LedgerTimed, Punctual, Dated, L.Exclusive;
    if step.Deliver? {
      DeliveredIsDated(s, step.x, step.readAt, gap, c);
    }
    forall id ensures LedgerTimed(Apply(s, step, c), id, gap, c) {
      LedgerIsExclusive(s, id, c);
      OneLedgerTimed(s, step, id, gap, c);
    }
  }

  lemma OneLedgerTimed(s: State, step: Step, id: string, gap: int, c: Config)
    requires c.ledger.lease <= c.ledger.ttl && LedgerTimed(s, id, gap, c) && L.Exclusive(View(s, id))
    requires Enabled(s, step, c) && OnTime(s, step)
    requires step.Deliver? ==> Dated(step.x, L.Attempt(step.readAt + c.ledger.lease, L.Held, 0), gap, c)
    ensures LedgerTimed(Apply(s, step, c), id, gap, c)
  {
    hide P.Enabled, P.Apply, Gate.Admits, L.Exclusive, L.Spaced, Dated, Advanced, DocumentOf;
    var s' := Apply(s, step, c);
    match step
    case Govern(_) => assert View(s', id) == View(s, id);
    case Tick(to) => TickedLedgerTimed(s, to, id, gap, c);
    case Deliver(x, readAt) =>
      if id == DocumentOf(x, c) {
        WrittenLedgerTimed(s, s', id, L.Deliver(readAt), [x], gap, c);
      } else {
        assert View(s', id) == View(s, id);
      }
    case Write(written, q) =>
      if id == written {
        WrittenLedgerTimed(s, s', id, q, [], gap, c);
      } else {
        assert View(s', id) == View(s, id);
      }
  }

  lemma {:induction false} ReachableTimed(trace: seq<State>, steps: seq<Step>, gap: int, c: Config, k: nat)
    requires Sound(c.protocol.platform) && c.ledger.lease <= c.ledger.ttl && PunctualRun(trace, steps, gap, c) && k < |trace|
    ensures Timed(trace[k], gap, c)
  {
    hide Inv, Enabled, OnTime, Apply;
    if k > 0 {
      ReachableTimed(trace, steps, gap, c, k - 1);
      ReachableInv(trace, steps, c, k - 1);
      StepKeepsTimed(trace[k - 1], steps[k - 1], gap, c);
      assert trace[k - 1 + 1] == trace[k];
    }
  }

  // ---------------------------------------------------------------- main results

  /** The decision's lifetime, with the gap and a lease added, is within the retention time. */
  predicate Outlasted(d: GovernanceDecision, gap: int, c: Config) {
    var made, expires := c.protocol.platform.parse(d.decidedAt), c.protocol.platform.parse(d.expiresAt);
    made.Some? && expires.Some? && expires.value + gap + c.ledger.lease <= made.value + c.ledger.ttl
  }

  /**
   * In every timely and punctual run, of all attempts that ever handle one decision at most one has
   * succeeded or is running, however often its document is deleted.
   */
  lemma DecisionSucceedsOnce(trace: seq<State>, steps: seq<Step>, gap: int, c: Config, k: nat, d: GovernanceDecision, i: nat, j: nat)
    requires Sound(c.protocol.platform) && c.ledger.lease <= c.ledger.ttl && PunctualRun(trace, steps, gap, c) && k < |trace|
    requires Outlasted(d, gap, c)
    requires var l := LedgerOf(trace[k], DocumentId(d, c.protocol.platform));
             && |l.handled| == |l.attempts| && i < |l.attempts| && j < |l.attempts|
             && l.handled[i].decision == d && l.handled[j].decision == d
             && L.Effective(l.attempts[i], trace[k].clock) && L.Effective(l.attempts[j], trace[k].clock)
    ensures i == j
  {
    ReachableTimed(trace, steps, gap, c, k);
    ReachableInv(trace, steps, c, k);
    TimedDecisionOnce(trace[k], gap, c, d, DocumentId(d, c.protocol.platform), i, j);
  }

  lemma TimedDecisionOnce(s: State, gap: int, c: Config, d: GovernanceDecision, id: string, i: nat, j: nat)
    requires c.ledger.lease <= c.ledger.ttl && Inv(s, c) && Timed(s, gap, c) && Outlasted(d, gap, c)
    requires var l := LedgerOf(s, id);
             && |l.handled| == |l.attempts| && i < |l.attempts| && j < |l.attempts|
             && l.handled[i].decision == d && l.handled[j].decision == d
             && L.Effective(l.attempts[i], s.clock) && L.Effective(l.attempts[j], s.clock)
    ensures i == j
  {
    LedgerIsExclusive(s, id, c);
    hide Inv, L.Exclusive, L.Spaced, L.Effective;
    assert LedgerTimed(s, id, gap, c);
    if i != j {
      L.EffectiveFarApart(View(s, id), i, j, c.ledger);
    }
  }

  /**
   * An approval executes at most once, ever. Whatever answers one incarnation of an approval request
   * gave, they are one decision, and of all attempts that ever handle it at most one has succeeded or is
   * running, if the retention time covers the permit lifetime, the gap and a lease.
   */
  lemma ApprovalSucceedsOnce(trace: seq<State>, steps: seq<Step>, gap: int, c: Config, k: nat,
                             incarnation: nat, d: GovernanceDecision, d': GovernanceDecision, i: nat, j: nat)
    requires Sound(c.protocol.platform) && PunctualRun(trace, steps, gap, c) && k < |trace|
    requires c.ledger.lease <= c.ledger.ttl && c.protocol.approval.permitTtl + gap + c.ledger.lease <= c.ledger.ttl
    requires (incarnation, d) in trace[k].protocol.resolved && (incarnation, d') in trace[k].protocol.resolved
    ensures d == d'
    ensures var l := LedgerOf(trace[k], DocumentId(d, c.protocol.platform));
            && |l.handled| == |l.attempts| && i < |l.attempts| && j < |l.attempts|
            && l.handled[i].decision == d && l.handled[j].decision == d
            && L.Effective(l.attempts[i], trace[k].clock) && L.Effective(l.attempts[j], trace[k].clock)
            ==> i == j
  {
    ReachableTimed(trace, steps, gap, c, k);
    ReachableInv(trace, steps, c, k);
    AnswerIsOutlasted(trace[k], incarnation, d, gap, c);
    OneAnswerOnly(trace[k], incarnation, d, d', c);
    var id := DocumentId(d, c.protocol.platform);
    var l := LedgerOf(trace[k], id);
    hide Inv, Timed, PunctualRun, Outlasted, L.Effective;
    if |l.handled| == |l.attempts| && i < |l.attempts| && j < |l.attempts|
       && l.handled[i].decision == d && l.handled[j].decision == d
       && L.Effective(l.attempts[i], trace[k].clock) && L.Effective(l.attempts[j], trace[k].clock) {
      TimedDecisionOnce(trace[k], gap, c, d, id, i, j);
    }
  }

  lemma OneAnswerOnly(s: State, incarnation: nat, d: GovernanceDecision, d': GovernanceDecision, c: Config)
    requires Inv(s, c) && (incarnation, d) in s.protocol.resolved && (incarnation, d') in s.protocol.resolved
    ensures d == d'
  {
    hide P.Inv, LedgerProper, MadeBy;
    P.InvOneAnswer(s.protocol, c.protocol);
  }

  /** A resolved decision ends within the permit lifetime of being made. */
  lemma AnswerIsOutlasted(s: State, incarnation: nat, d: GovernanceDecision, gap: int, c: Config)
    requires Sound(c.protocol.platform) && Inv(s, c) && (incarnation, d) in s.protocol.resolved
    requires c.protocol.approval.permitTtl + gap + c.ledger.lease <= c.ledger.ttl
    ensures Outlasted(d, gap, c)
  {
    hide P.Inv, LedgerProper, MadeBy;
    var t, _, _, _ := P.OriginOfAnswer(d, incarnation, s.protocol, c.protocol);
    ResolvedLifetime(t, s.protocol, c.protocol);
  }

  lemma ResolvedLifetime(t: P.Attempt, s: P.State, c: P.Config)
    requires Sound(c.platform) && P.ProperAttempt(t, s.origins, s.signed, c)
    ensures var made, expires := c.platform.parse(t.result.decidedAt), c.platform.parse(t.result.expiresAt);
            made.Some? && expires.Some? && expires.value <= made.value + c.approval.permitTtl
  {
  }
}
