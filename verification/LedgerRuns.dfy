/**
 * All runs of one execution document: any number of deliveries, interleaved write by write, with
 * stale clock readings, workers that stop for good at any point, and deletion at the document's TTL.
 */
module LedgerRuns {
  import opened Prelude
  import opened ExecutionLedger

  // ---------------------------------------------------------------- transition system

  /** Held: claimed, gateway not yet called. Called: waiting for the gateway or for the final write. */
  datatype Phase = Held | Called | Done | Failed

  /** A delivery that claimed; its lease counts from a clock reading made before the transaction. */
  datatype Attempt = Attempt(lease: int, phase: Phase, calls: nat)

  datatype State = State(clock: int, doc: Option<Doc>, attempts: seq<Attempt>)

  datatype Step =
    | Tick(to: int)
    | Deliver(readAt: int)                          // a delivery that passed validation
    | Call(i: nat)
    | Complete(i: nat, result: RemediationResult)
    | Fail(i: nat)
    | FailAfterComplete(i: nat)                     // after the completing write, it or the evidence line raised
    | Expire                                        // deletion of the document at its TTL

  predicate Enabled(s: State, step: Step) {
    match step
    case Tick(to) => s.clock <= to
    case Deliver(readAt) => readAt <= s.clock
    case Call(i) => i < |s.attempts| && s.attempts[i].phase == Held
    case Complete(i, _) => i < |s.attempts| && s.attempts[i].phase == Called
    case Fail(i) => i < |s.attempts| && (s.attempts[i].phase == Held || s.attempts[i].phase == Called)
    case FailAfterComplete(i) => i < |s.attempts| && s.attempts[i].phase == Done
    case Expire => s.doc.Some? && s.doc.value.expiresAt.Some? && s.doc.value.expiresAt.value <= s.clock
  }

  function Apply(s: State, step: Step, cfg: LedgerConfig): State
    requires Enabled(s, step)
  {
    match step
    case Tick(to) => s.(clock := to)
    case Deliver(readAt) =>
      if Claim(s.doc, readAt) == Claimed
      then s.(doc := Some(ClaimedDoc(s.doc, readAt, cfg)), attempts := s.attempts + [Attempt(readAt + cfg.lease, Held, 0)])
      else s
    case Call(i) => s.(attempts := s.attempts[i := s.attempts[i].(phase := Called, calls := s.attempts[i].calls + 1)])
    case Complete(i, result) =>
      s.(doc := Some(CompletedDoc(s.doc, result, s.clock)), attempts := s.attempts[i := s.attempts[i].(phase := Done)])
    case Fail(i) => s.(doc := Some(FailedDoc(s.doc, s.clock)), attempts := s.attempts[i := s.attempts[i].(phase := Failed)])
    case FailAfterComplete(i) => s.(doc := Some(FailedDoc(s.doc, s.clock)), attempts := s.attempts[i := s.attempts[i].(phase := Failed)])
    case Expire => s.(doc := None)
  }

  predicate Initial(s: State) {
    s.doc == None && s.attempts == []
  }

  /** trace[k + 1] follows from trace[k] by steps[k]. */
  predicate Path(trace: seq<State>, steps: seq<Step>, cfg: LedgerConfig) {
    && |trace| == |steps| + 1
    && forall k :: 0 <= k < |steps| ==> Enabled(trace[k], steps[k]) && trace[k + 1] == Apply(trace[k], steps[k], cfg)
  }

  predicate Run(trace: seq<State>, steps: seq<Step>, cfg: LedgerConfig) {
    Path(trace, steps, cfg) && Initial(trace[0])
  }

  /** The assumption: an attempt acts only while its own lease lasts. */
  predicate OnTime(s: State, step: Step) {
    match step
    case Call(i) => i < |s.attempts| && s.clock < s.attempts[i].lease
    case Complete(i, _) => i < |s.attempts| && s.clock < s.attempts[i].lease
    case Fail(i) => i < |s.attempts| && s.clock < s.attempts[i].lease
    case FailAfterComplete(i) => i < |s.attempts| && s.clock < s.attempts[i].lease
    case _ => true
  }

  predicate TimelyRun(trace: seq<State>, steps: seq<Step>, cfg: LedgerConfig) {
    Run(trace, steps, cfg) && forall k :: 0 <= k < |steps| ==> OnTime(trace[k], steps[k])
  }

  /** Between its claim and its completion or failure, with its lease still running. */
  predicate Live(a: Attempt, clock: int) {
    (a.phase == Held || a.phase == Called) && clock < a.lease
  }

  // ---------------------------------------------------------------- mutual exclusion

  /** Live, or completed before its lease ran out: until then the document is its own. */
  predicate Occupies(a: Attempt, clock: int) {
    a.phase != Failed && clock < a.lease
  }

  /** The document of an occupying attempt: executing under exactly its lease, or completed. */
  predicate Owns(doc: Option<Doc>, a: Attempt) {
    && doc.Some? && doc.value.expiresAt.Some? && a.lease <= doc.value.expiresAt.value
    && (if a.phase == Done then doc.value.status == "completed" && doc.value.result.Some?
        else doc.value.status == "executing" && doc.value.leaseExpiresAt == Some(a.lease))
  }

  predicate Exclusive(s: State) {
    && (forall i :: 0 <= i < |s.attempts| && Occupies(s.attempts[i], s.clock) ==> Owns(s.doc, s.attempts[i]))
    && (forall i, j :: 0 <= i < j < |s.attempts| ==> !(Occupies(s.attempts[i], s.clock) && Occupies(s.attempts[j], s.clock)))
    && (forall i :: 0 <= i < |s.attempts| ==> s.attempts[i].calls <= if s.attempts[i].phase == Held then 0 else 1)
  }

  /** An executing document refuses exactly the deliveries that read the clock before its lease ends. */
  lemma LeaseRefusesExactly(doc: Doc, lease: int, readAt: int)
    requires doc.status == "executing" && doc.leaseExpiresAt == Some(lease)
    ensures Claim(Some(doc), readAt) == InProgress <==> readAt < lease
    ensures Claim(Some(doc), readAt) == Claimed <==> lease <= readAt
  {
  }

  /** A live attempt turns every other delivery away, however stale its clock reading. */
  lemma LiveAttemptRefusesOthers(s: State, i: nat, readAt: int)
    requires Exclusive(s) && i < |s.attempts| && Live(s.attempts[i], s.clock) && readAt <= s.clock
    ensures Claim(s.doc, readAt) == InProgress
  {
    hide Claim;
    assert Owns(s.doc, s.attempts[i]);
    LeaseRefusesExactly(s.doc.value, s.attempts[i].lease, readAt);
  }

  lemma DeliverKeepsExclusive(s: State, readAt: int, cfg: LedgerConfig)
    requires cfg.lease <= cfg.ttl && Exclusive(s) && readAt <= s.clock
    ensures Exclusive(Apply(s, Deliver(readAt), cfg))
  {
    var s' := Apply(s, Deliver(readAt), cfg);
    if Claim(s.doc, readAt) == Claimed {
      forall i | 0 <= i < |s.attempts| ensures !Occupies(s.attempts[i], s.clock) && s'.attempts[i] == s.attempts[i] {
        assert Occupies(s.attempts[i], s.clock) ==> Owns(s.doc, s.attempts[i]);
      }
    }
  }

  lemma StepKeepsExclusive(s: State, step: Step, cfg: LedgerConfig)
    requires cfg.lease <= cfg.ttl
    requires Exclusive(s) && Enabled(s, step) && OnTime(s, step)
    ensures Exclusive(Apply(s, step, cfg))
  {
    var s' := Apply(s, step, cfg);
    match step
    case Deliver(readAt) => DeliverKeepsExclusive(s, readAt, cfg);
    case Expire =>
      forall i | 0 <= i < |s.attempts| ensures !Occupies(s.attempts[i], s.clock) {
        assert Occupies(s.attempts[i], s.clock) ==> Owns(s.doc, s.attempts[i]);
      }
    case Tick(to) =>
      forall i | 0 <= i < |s.attempts| && Occupies(s'.attempts[i], s'.clock) ensures Occupies(s.attempts[i], s.clock) {}
    case Call(i) => OthersIdle(s, i);
    case Complete(i, _) => OthersIdle(s, i);
    case Fail(i) => OthersIdle(s, i);
    case FailAfterComplete(i) => OthersIdle(s, i);
  }

  lemma OthersIdle(s: State, i: nat)
    requires Exclusive(s) && i < |s.attempts| && Occupies(s.attempts[i], s.clock)
    ensures Owns(s.doc, s.attempts[i])
    ensures forall j :: 0 <= j < |s.attempts| && j != i ==> !Occupies(s.attempts[j], s.clock)
  {
  }

  lemma {:induction false} ReachableExclusive(trace: seq<State>, steps: seq<Step>, cfg: LedgerConfig, k: nat)
    requires cfg.lease <= cfg.ttl && TimelyRun(trace, steps, cfg) && k < |trace|
    ensures Exclusive(trace[k])
  {
    if k > 0 {
      ReachableExclusive(trace, steps, cfg, k - 1);
      StepKeepsExclusive(trace[k - 1], steps[k - 1], cfg);
      assert trace[k - 1 + 1] == trace[k];
    }
  }

  /**
   * If every attempt acts only while its own lease lasts, then at no moment of any run are two
   * attempts on one decision both between claim and completion, and no attempt calls twice.
   */
  lemma MutualExclusion(trace: seq<State>, steps: seq<Step>, cfg: LedgerConfig, k: nat, i: nat, j: nat)
    requires cfg.lease <= cfg.ttl && TimelyRun(trace, steps, cfg) && k < |trace|
    requires i < |trace[k].attempts| && j < |trace[k].attempts|
    requires Live(trace[k].attempts[i], trace[k].clock) && Live(trace[k].attempts[j], trace[k].clock)
    ensures i == j && trace[k].attempts[i].calls <= 1
  {
    ReachableExclusive(trace, steps, cfg, k);
  }

  /**
   * Nobody waits for the lease of an attempt that gives up: called or not, a live attempt can fail its
   * document at once, and the very next delivery claims it.
   */
  lemma GivingUpFreesDocument(s: State, i: nat, cfg: LedgerConfig)
    requires i < |s.attempts| && Live(s.attempts[i], s.clock)
    ensures Enabled(s, Fail(i)) && OnTime(s, Fail(i))
    ensures var after := Apply(s, Fail(i), cfg);
            && after.doc.Some? && after.doc.value.status == "failed" && after.clock == s.clock
            && Enabled(after, Deliver(s.clock)) && |Apply(after, Deliver(s.clock), cfg).attempts| == |s.attempts| + 1
            && Live(Apply(after, Deliver(s.clock), cfg).attempts[|s.attempts|], s.clock) == (cfg.lease > 0)
  {
  }

  // ---------------------------------------------------------------- completed is final

  predicate IsCompleted(s: State, result: RemediationResult) {
    s.doc.Some? && s.doc.value.status == "completed" && s.doc.value.result == Some(result)
  }

  /** The two steps that take a completed document away. */
  predicate Reopens(step: Step) {
    step.FailAfterComplete? || step.Expire?
  }

  /**
   * From a completed document, an enabled timely step leaves document and calls as they are unless it
   * is the failing of a completed attempt or the deletion at the TTL, and those two always end it.
   */
  lemma CompletedStepExactly(s: State, step: Step, cfg: LedgerConfig, result: RemediationResult)
    requires Exclusive(s) && IsCompleted(s, result) && Enabled(s, step) && OnTime(s, step)
    ensures IsCompleted(Apply(s, step, cfg), result) <==> !Reopens(step)
    ensures !Reopens(step) ==> Apply(s, step, cfg).doc == s.doc && Apply(s, step, cfg).attempts == s.attempts
    ensures forall readAt :: Claim(s.doc, readAt) == Completed(result)
  {
    match step
    case Call(i) => CompletedMeansNoneLive(s, i);
    case Complete(i, _) => CompletedMeansNoneLive(s, i);
    case Fail(i) => CompletedMeansNoneLive(s, i);
    case _ =>
  }

  lemma CompletedMeansNoneLive(s: State, i: nat)
    requires Exclusive(s) && s.doc.Some? && s.doc.value.status == "completed" && i < |s.attempts|
    ensures !Live(s.attempts[i], s.clock)
  {
    assert Occupies(s.attempts[i], s.clock) ==> Owns(s.doc, s.attempts[i]);
  }

  /**
   * Completed is final. From the moment the document is completed, as long as no completed attempt
   * fails afterwards and the document is not deleted, its status and stored result never change,
   * nobody calls the gateway again, and every delivery is answered with the stored result.
   */
  lemma {:induction false} CompletedIsFinal(trace: seq<State>, steps: seq<Step>, cfg: LedgerConfig, k: nat, n: nat, result: RemediationResult)
    requires cfg.lease <= cfg.ttl && TimelyRun(trace, steps, cfg) && k <= n < |trace|
    requires IsCompleted(trace[k], result)
    requires forall m :: k <= m < n ==> !Reopens(steps[m])
    ensures trace[n].doc == trace[k].doc && trace[n].attempts == trace[k].attempts
    ensures forall readAt :: Claim(trace[n].doc, readAt) == Completed(result)
  {
    ReachableExclusive(trace, steps, cfg, n);
    if k < n {
      CompletedIsFinal(trace, steps, cfg, k, n - 1, result);
      ReachableExclusive(trace, steps, cfg, n - 1);
      CompletedStepExactly(trace[n - 1], steps[n - 1], cfg, result);
      assert trace[n - 1 + 1] == trace[n];
    }
  }

  // ---------------------------------------------------------------- conservation

  datatype Fate = Succeeded | GaveUp | Abandoned | Running

  function FateOf(a: Attempt, clock: int): Fate {
    match a.phase
    case Done => Succeeded
    case Failed => GaveUp
    case _ => if clock < a.lease then Running else Abandoned
  }

  function Count(attempts: seq<Attempt>, clock: int, fate: Fate): nat {
    if attempts == [] then 0
    else Count(attempts[..|attempts| - 1], clock, fate) + if FateOf(attempts[|attempts| - 1], clock) == fate then 1 else 0
  }

  function TotalCalls(attempts: seq<Attempt>): nat {
    if attempts == [] then 0 else TotalCalls(attempts[..|attempts| - 1]) + attempts[|attempts| - 1].calls
  }

  lemma {:induction false} FatesPartition(attempts: seq<Attempt>, clock: int)
    ensures |attempts| == Count(attempts, clock, Succeeded) + Count(attempts, clock, GaveUp)
                        + Count(attempts, clock, Abandoned) + Count(attempts, clock, Running)
  {
    if attempts != [] { FatesPartition(attempts[..|attempts| - 1], clock); }
  }

  lemma {:induction false} CallsBounded(attempts: seq<Attempt>)
    requires forall i :: 0 <= i < |attempts| ==> attempts[i].calls <= 1
    ensures TotalCalls(attempts) <= |attempts|
  {
    if attempts != [] { CallsBounded(attempts[..|attempts| - 1]); }
  }

  lemma {:induction false} CountZero(attempts: seq<Attempt>, clock: int, fate: Fate)
    requires forall i :: 0 <= i < |attempts| ==> FateOf(attempts[i], clock) != fate
    ensures Count(attempts, clock, fate) == 0
  {
    if attempts != [] { CountZero(attempts[..|attempts| - 1], clock, fate); }
  }

  /** If no two attempts are running, at most one is; and none at all once the document is completed. */
  lemma {:induction false} RunningAtMostOne(attempts: seq<Attempt>, clock: int)
    requires forall i, j :: 0 <= i < j < |attempts| ==> !(Live(attempts[i], clock) && Live(attempts[j], clock))
    ensures Count(attempts, clock, Running) <= 1
  {
    if attempts != [] {
      var n := |attempts| - 1;
      if Live(attempts[n], clock) {
        forall i | 0 <= i < n ensures FateOf(attempts[..n][i], clock) != Running {
          assert !Live(attempts[i], clock);
        }
        CountZero(attempts[..n], clock, Running);
      } else {
        RunningAtMostOne(attempts[..n], clock);
      }
    }
  }

  function Bit(b: bool): nat {
    if b then 1 else 0
  }

  function Dones(attempts: seq<Attempt>): nat {
    if attempts == [] then 0 else Dones(attempts[..|attempts| - 1]) + Bit(attempts[|attempts| - 1].phase == Done)
  }

  lemma {:induction false} DonesSucceeded(attempts: seq<Attempt>, clock: int)
    ensures Count(attempts, clock, Succeeded) == Dones(attempts)
  {
    if attempts != [] { DonesSucceeded(attempts[..|attempts| - 1], clock); }
  }

  lemma {:induction false} DonesUpdate(attempts: seq<Attempt>, i: nat, a: Attempt)
    requires i < |attempts|
    ensures Dones(attempts[i := a]) + Bit(attempts[i].phase == Done) == Dones(attempts) + Bit(a.phase == Done)
  {
    var last := |attempts| - 1;
    if i == last {
      assert attempts[i := a][..last] == attempts[..last];
    } else {
      DonesUpdate(attempts[..last], i, a);
      assert attempts[i := a][..last] == attempts[..last][i := a];
    }
  }

  lemma DonesAppend(attempts: seq<Attempt>, a: Attempt)
    ensures Dones(attempts + [a]) == Dones(attempts) + Bit(a.phase == Done)
  {
    assert (attempts + [a])[..|attempts|] == attempts;
  }

  predicate HoldsResult(doc: Option<Doc>) {
    doc.Some? && doc.value.status == "completed" && doc.value.result.Some?
  }

  /** Each deletion can release one completed attempt; the document vouches for at most one more. */
  predicate Accounted(s: State, deletions: nat) {
    Dones(s.attempts) <= deletions + Bit(HoldsResult(s.doc))
  }

  lemma StepKeepsAccount(s: State, step: Step, cfg: LedgerConfig, deletions: nat)
    requires Exclusive(s) && Accounted(s, deletions) && Enabled(s, step) && OnTime(s, step)
    ensures Accounted(Apply(s, step, cfg), deletions + Bit(step.Expire?))
  {
    match step
    case Tick(_) =>
    case Expire =>
    case Deliver(readAt) => DonesAppend(s.attempts, Attempt(readAt + cfg.lease, Held, 0));
    case Call(i) => OwnerWrites(s, step, i, cfg);
    case Complete(i, _) => OwnerWrites(s, step, i, cfg);
    case Fail(i) => OwnerWrites(s, step, i, cfg);
    case FailAfterComplete(i) => OwnerWrites(s, step, i, cfg);
  }

  /** A timely attempt owns the document it writes, so both change together. */
  lemma OwnerWrites(s: State, step: Step, i: nat, cfg: LedgerConfig)
    requires Exclusive(s) && Enabled(s, step) && OnTime(s, step)
    requires step == Call(i) || (step.Complete? && step.i == i) || step == Fail(i) || step == FailAfterComplete(i)
    ensures var s' := Apply(s, step, cfg);
            Dones(s'.attempts) + Bit(HoldsResult(s.doc)) == Dones(s.attempts) + Bit(HoldsResult(s'.doc))
  {
    OthersIdle(s, i);
    DonesUpdate(s.attempts, i, Apply(s, step, cfg).attempts[i]);
    assert Apply(s, step, cfg).attempts == s.attempts[i := Apply(s, step, cfg).attempts[i]];
  }

  function Deletions(steps: seq<Step>): nat {
    if steps == [] then 0 else Deletions(steps[..|steps| - 1]) + Bit(steps[|steps| - 1].Expire?)
  }

  lemma {:induction false} ReachableAccounted(trace: seq<State>, steps: seq<Step>, cfg: LedgerConfig, k: nat)
    requires cfg.lease <= cfg.ttl && TimelyRun(trace, steps, cfg) && k < |trace|
    ensures Accounted(trace[k], Deletions(steps[..k]))
  {
    if k > 0 {
      ReachableAccounted(trace, steps, cfg, k - 1);
      ReachableExclusive(trace, steps, cfg, k - 1);
      StepKeepsAccount(trace[k - 1], steps[k - 1], cfg, Deletions(steps[..k - 1]));
      assert trace[k - 1 + 1] == trace[k];
      assert steps[..k][..k - 1] == steps[..k - 1];
    }
  }

  /** What an accounted state says about fates and calls. */
  predicate Conserved(s: State, deletions: nat) {
    var succeeded, running := Count(s.attempts, s.clock, Succeeded), Count(s.attempts, s.clock, Running);
    var gaveUp, abandoned := Count(s.attempts, s.clock, GaveUp), Count(s.attempts, s.clock, Abandoned);
    && |s.attempts| == succeeded + gaveUp + abandoned + running
    && succeeded + running <= 1 + deletions
    && TotalCalls(s.attempts) <= 1 + deletions + gaveUp + abandoned
  }

  lemma AccountedIsConserved(s: State, deletions: nat)
    requires Exclusive(s) && Accounted(s, deletions)
    ensures Conserved(s, deletions)
  {
    FatesPartition(s.attempts, s.clock);
    CallsBounded(s.attempts);
    DonesSucceeded(s.attempts, s.clock);
    RunningAtMostOne(s.attempts, s.clock);
    if HoldsResult(s.doc) {
      forall i | 0 <= i < |s.attempts| ensures FateOf(s.attempts[i], s.clock) != Running {
        CompletedMeansNoneLive(s, i);
      }
      CountZero(s.attempts, s.clock, Running);
    }
  }

  /**
   * Conservation, in every timely run. Every claim is one attempt that succeeded, gave up, was
   * abandoned to lease expiry or is still running; those that succeeded or are running number at most
   * one more than the deletions of the document at its TTL; so the gateway has been called at most
   * once more than that plus the attempts that gave up or were abandoned.
   */
  lemma ClaimsAreConserved(trace: seq<State>, steps: seq<Step>, cfg: LedgerConfig, k: nat)
    requires cfg.lease <= cfg.ttl && TimelyRun(trace, steps, cfg) && k < |trace|
    ensures Conserved(trace[k], Deletions(steps[..k]))
  {
    ReachableExclusive(trace, steps, cfg, k);
    ReachableAccounted(trace, steps, cfg, k);
    AccountedIsConserved(trace[k], Deletions(steps[..k]));
  }

  lemma {:induction false} NoDeletions(steps: seq<Step>)
    requires forall m :: 0 <= m < |steps| ==> !steps[m].Expire?
    ensures Deletions(steps) == 0
  {
    if steps != [] { NoDeletions(steps[..|steps| - 1]); }
  }

  /** While the document is never deleted, the excess is one, also when completed attempts fail afterwards. */
  lemma ConservedWhileRetained(trace: seq<State>, steps: seq<Step>, cfg: LedgerConfig, k: nat)
    requires cfg.lease <= cfg.ttl && TimelyRun(trace, steps, cfg) && k < |trace|
    requires forall m :: 0 <= m < k ==> !steps[m].Expire?
    ensures Conserved(trace[k], 0)
  {
    ClaimsAreConserved(trace, steps, cfg, k);
    NoDeletions(steps[..k]);
  }

  // ---------------------------------------------------------------- successes are far apart

  /** The clock reading of an attempt's claim. */
  function Started(a: Attempt, cfg: LedgerConfig): int {
    a.lease - cfg.lease
  }

  predicate FarApart(a: Attempt, b: Attempt, cfg: LedgerConfig) {
    Started(a, cfg) + cfg.ttl < Started(b, cfg) + cfg.lease || Started(b, cfg) + cfg.ttl < Started(a, cfg) + cfg.lease
  }

  /** The document of a completed attempt may have been deleted, or is still there to hold its result. */
  predicate StillStored(a: Attempt, doc: Option<Doc>, clock: int, cfg: LedgerConfig) {
    clock >= Started(a, cfg) + cfg.ttl || (HoldsResult(doc) && doc.value.expiresAt == Some(Started(a, cfg) + cfg.ttl))
  }

  predicate Spaced(s: State, cfg: LedgerConfig) {
    && (forall i :: 0 <= i < |s.attempts| && Occupies(s.attempts[i], s.clock) ==>
          s.doc.Some? && s.doc.value.expiresAt == Some(Started(s.attempts[i], cfg) + cfg.ttl))
    && (forall i :: 0 <= i < |s.attempts| && s.attempts[i].phase == Done ==> StillStored(s.attempts[i], s.doc, s.clock, cfg))
    && (forall i, j :: 0 <= i < j < |s.attempts| && s.attempts[i].phase == Done && s.attempts[j].phase == Done ==>
          FarApart(s.attempts[i], s.attempts[j], cfg))
  }

  lemma DeliverKeepsSpaced(s: State, readAt: int, cfg: LedgerConfig)
    requires cfg.lease <= cfg.ttl && Exclusive(s) && Spaced(s, cfg) && readAt <= s.clock
    ensures Spaced(Apply(s, Deliver(readAt), cfg), cfg)
  {
    var s' := Apply(s, Deliver(readAt), cfg);
    if Claim(s.doc, readAt) == Claimed {
      forall i | 0 <= i < |s.attempts| ensures !Occupies(s.attempts[i], s.clock) && s'.attempts[i] == s.attempts[i] {
        assert Occupies(s.attempts[i], s.clock) ==> Owns(s.doc, s.attempts[i]);
      }
    }
  }

  /** Only one completed attempt's document can still be the one an occupying attempt owns: its own. */
  lemma OthersDeleted(s: State, i: nat, j: nat, cfg: LedgerConfig)
    requires cfg.lease <= cfg.ttl && Exclusive(s) && Spaced(s, cfg)
    requires i < |s.attempts| && j < |s.attempts| && i != j
    requires Occupies(s.attempts[i], s.clock) && s.attempts[j].phase == Done
    ensures s.clock >= Started(s.attempts[j], cfg) + cfg.ttl && FarApart(s.attempts[i], s.attempts[j], cfg)
  {
    OthersIdle(s, i);
    assert StillStored(s.attempts[j], s.doc, s.clock, cfg);
    if s.attempts[i].phase == Done {
      assert FarApart(s.attempts[i], s.attempts[j], cfg);
    }
  }

  lemma OwnerKeepsSpaced(s: State, step: Step, i: nat, cfg: LedgerConfig)
    requires cfg.lease <= cfg.ttl && Exclusive(s) && Spaced(s, cfg) && Enabled(s, step) && OnTime(s, step)
    requires step == Call(i) || (step.Complete? && step.i == i) || step == Fail(i) || step == FailAfterComplete(i)
    ensures Spaced(Apply(s, step, cfg), cfg)
  {
    OthersIdle(s, i);
    forall j | 0 <= j < |s.attempts| && j != i && s.attempts[j].phase == Done
      ensures s.clock >= Started(s.attempts[j], cfg) + cfg.ttl && FarApart(s.attempts[i], s.attempts[j], cfg)
    {
      OthersDeleted(s, i, j, cfg);
    }
  }

  lemma StepKeepsSpaced(s: State, step: Step, cfg: LedgerConfig)
    requires cfg.lease <= cfg.ttl && Exclusive(s) && Spaced(s, cfg) && Enabled(s, step) && OnTime(s, step)
    ensures Spaced(Apply(s, step, cfg), cfg)
  {
    match step
    case Tick(_) =>
    case Expire =>
    case Deliver(readAt) => DeliverKeepsSpaced(s, readAt, cfg);
    case Call(i) => OwnerKeepsSpaced(s, step, i, cfg);
    case Complete(i, _) => OwnerKeepsSpaced(s, step, i, cfg);
    case Fail(i) => OwnerKeepsSpaced(s, step, i, cfg);
    case FailAfterComplete(i) => OwnerKeepsSpaced(s, step, i, cfg);
  }

  lemma {:induction false} ReachableSpaced(trace: seq<State>, steps: seq<Step>, cfg: LedgerConfig, k: nat)
    requires cfg.lease <= cfg.ttl && TimelyRun(trace, steps, cfg) && k < |trace|
    ensures Spaced(trace[k], cfg)
  {
    if k > 0 {
      ReachableSpaced(trace, steps, cfg, k - 1);
      ReachableExclusive(trace, steps, cfg, k - 1);
      StepKeepsSpaced(trace[k - 1], steps[k - 1], cfg);
      assert trace[k - 1 + 1] == trace[k];
    }
  }

  predicate Effective(a: Attempt, clock: int) {
    a.phase == Done || Live(a, clock)
  }

  lemma EffectiveFarApart(s: State, i: nat, j: nat, cfg: LedgerConfig)
    requires cfg.lease <= cfg.ttl && Exclusive(s) && Spaced(s, cfg)
    requires i < |s.attempts| && j < |s.attempts| && i != j
    requires Effective(s.attempts[i], s.clock) && Effective(s.attempts[j], s.clock)
    ensures FarApart(s.attempts[i], s.attempts[j], cfg)
  {
    if Live(s.attempts[i], s.clock) {
      OthersIdle(s, i);
      OthersDeleted(s, i, j, cfg);
    } else if Live(s.attempts[j], s.clock) {
      OthersIdle(s, j);
      OthersDeleted(s, j, i, cfg);
    }
  }

  /**
   * In every timely run, two attempts on one document that succeeded or are running claimed it more
   * than the retention time less the lease apart.
   */
  lemma SuccessesFarApart(trace: seq<State>, steps: seq<Step>, cfg: LedgerConfig, k: nat, i: nat, j: nat)
    requires cfg.lease <= cfg.ttl && TimelyRun(trace, steps, cfg) && k < |trace|
    requires i < |trace[k].attempts| && j < |trace[k].attempts| && i != j
    requires Effective(trace[k].attempts[i], trace[k].clock) && Effective(trace[k].attempts[j], trace[k].clock)
    ensures FarApart(trace[k].attempts[i], trace[k].attempts[j], cfg)
  {
    ReachableExclusive(trace, steps, cfg, k);
    ReachableSpaced(trace, steps, cfg, k);
    EffectiveFarApart(trace[k], i, j, cfg);
  }

  // ---------------------------------------------------------------- where the assumptions are needed

  /**
   * Without the assumption exclusion fails, whatever the lease: an attempt that is still waiting for
   * the gateway when its lease ends is joined by a second one, and its late completion then replaces
   * the result the second one stored.
   */
  lemma OverstayBreaksExclusion(cfg: LedgerConfig, early: RemediationResult, late: RemediationResult)
    returns (trace: seq<State>, steps: seq<Step>)
    requires 0 <= cfg.lease
    ensures Run(trace, steps, cfg) && |trace| == 8
    ensures |trace[5].attempts| == 2 && trace[5].attempts[0].phase == Called && trace[5].attempts[1].phase == Called
    ensures IsCompleted(trace[6], early) && IsCompleted(trace[7], late)
  {
    steps := [Deliver(0), Call(0), Tick(cfg.lease), Deliver(cfg.lease), Call(1), Complete(1, early), Complete(0, late)];
    var s0 := State(0, None, []);
    var s1 := Apply(s0, Deliver(0), cfg);
    var s2 := Apply(s1, Call(0), cfg);
    var s3 := Apply(s2, Tick(cfg.lease), cfg);
    var s4 := Apply(s3, Deliver(cfg.lease), cfg);
    var s5 := Apply(s4, Call(1), cfg);
    var s6 := Apply(s5, Complete(1, early), cfg);
    var s7 := Apply(s6, Complete(0, late), cfg);
    trace := [s0, s1, s2, s3, s4, s5, s6, s7];
  }

  /**
   * Completed is not final when the evidence line of a completed attempt cannot be written: even in a
   * timely run the document is failed again, the next delivery claims it and the gateway is called a
   * second time for one decision.
   */
  lemma EvidenceFailureReopens(cfg: LedgerConfig, result: RemediationResult)
    returns (trace: seq<State>, steps: seq<Step>)
    requires 0 < cfg.lease
    ensures TimelyRun(trace, steps, cfg) && |trace| == 7
    ensures IsCompleted(trace[3], result) && TotalCalls(trace[6].attempts) == 2
  {
    steps := [Deliver(0), Call(0), Complete(0, result), FailAfterComplete(0), Deliver(0), Call(1)];
    var s0 := State(0, None, []);
    var s1 := Apply(s0, Deliver(0), cfg);
    var s2 := Apply(s1, Call(0), cfg);
    var s3 := Apply(s2, Complete(0, result), cfg);
    var s4 := Apply(s3, FailAfterComplete(0), cfg);
    var s5 := Apply(s4, Deliver(0), cfg);
    var s6 := Apply(s5, Call(1), cfg);
    trace := [s0, s1, s2, s3, s4, s5, s6];
    TwoCalls(s6.attempts);
    hide TotalCalls;
  }

  lemma TwoCalls(attempts: seq<Attempt>)
    requires |attempts| == 2 && attempts[0].calls == attempts[1].calls == 1
    ensures TotalCalls(attempts) == 2
  {
    assert attempts[..1] == [attempts[0]];
    assert TotalCalls([attempts[0]]) == 1;
  }

  /**
   * Deletion at the TTL reopens a decision in a timely run: once the document of a completed attempt
   * has been deleted, the next delivery claims it and calls the gateway again. The bound of
   * ClaimsAreConserved is met: one deletion, one success and one more attempt running.
   */
  lemma DeletionReopens(cfg: LedgerConfig, result: RemediationResult, first: int, again: int)
    returns (trace: seq<State>, steps: seq<Step>)
    requires 0 < cfg.lease && first <= again && first + cfg.ttl <= again
    ensures TimelyRun(trace, steps, cfg) && |trace| == 8 && trace[0].clock == first && trace[7].clock == again
    ensures steps == [Deliver(first), Call(0), Complete(0, result), Tick(again), Expire, Deliver(again), Call(1)]
    ensures IsCompleted(trace[4], result) && trace[5].doc == None
    ensures var attempts := trace[7].attempts;
            && |attempts| == 2 && attempts[0].phase == Done && Live(attempts[1], again)
            && attempts[0].calls == attempts[1].calls == 1
  {
    steps := [Deliver(first), Call(0), Complete(0, result), Tick(again), Expire, Deliver(again), Call(1)];
    var s0 := State(first, None, []);
    var s1 := Apply(s0, Deliver(first), cfg);
    var s2 := Apply(s1, Call(0), cfg);
    var s3 := Apply(s2, Complete(0, result), cfg);
    var s4 := Apply(s3, Tick(again), cfg);
    var s5 := Apply(s4, Expire, cfg);
    var s6 := Apply(s5, Deliver(again), cfg);
    var s7 := Apply(s6, Call(1), cfg);
    trace := [s0, s1, s2, s3, s4, s5, s6, s7];
  }

  // ---------------------------------------------------------------- one delivery is a run of these steps

  /** The attempt that one uninterrupted delivery makes. */
  function Processed(claimedAt: int, answer: Option<RemediationResult>, evidence: bool, cfg: LedgerConfig): Attempt {
    Attempt(claimedAt + cfg.lease, if answer.Some? && evidence then Done else Failed, 1)
  }

  predicate AllOnTime(trace: seq<State>, steps: seq<Step>)
    requires |trace| == |steps| + 1
  {
    forall k :: 0 <= k < |steps| ==> OnTime(trace[k], steps[k])
  }

  lemma Extend(trace: seq<State>, steps: seq<Step>, step: Step, cfg: LedgerConfig) returns (trace': seq<State>, steps': seq<Step>)
    requires Path(trace, steps, cfg) && Enabled(trace[|steps|], step)
    ensures Path(trace', steps', cfg) && trace'[0] == trace[0] && trace'[|steps'|] == Apply(trace[|steps|], step, cfg)
    ensures AllOnTime(trace', steps') <==> AllOnTime(trace, steps) && OnTime(trace[|steps|], step)
  {
    hide Enabled, Apply, OnTime;
    trace', steps' := trace + [Apply(trace[|steps|], step, cfg)], steps + [step];
    assert trace'[|steps|] == trace[|steps|] && steps'[|steps|] == step;
    assert forall k :: 0 <= k < |steps| ==> trace'[k] == trace[k] && steps'[k] == steps[k];
  }

  /**
   * What ExecutionLedger.ExecutionCollection.Process does to the document of a decision it calls the
   * gateway for is what the steps of one attempt do in sequence; timely if it finishes within its lease.
   */
  lemma ProcessIsAPath(s: State, claimedAt: int, finishedAt: int, answer: Option<RemediationResult>, evidence: bool, cfg: LedgerConfig)
    returns (trace: seq<State>, steps: seq<Step>)
    requires s.clock <= claimedAt <= finishedAt && Claim(s.doc, claimedAt) == Claimed
    ensures Path(trace, steps, cfg) && trace[0] == s
    ensures trace[|steps|] == State(finishedAt, Some(FinishedDoc(ClaimedDoc(s.doc, claimedAt, cfg), answer, evidence, finishedAt)),
                                    s.attempts + [Processed(claimedAt, answer, evidence, cfg)])
    ensures finishedAt < claimedAt + cfg.lease ==> AllOnTime(trace, steps)
  {
    hide Path, AllOnTime;
    var i := |s.attempts|;
    trace, steps := ClaimAndCall(s, claimedAt, finishedAt, cfg);
    match answer
    case None =>
      trace, steps := Extend(trace, steps, Fail(i), cfg);
    case Some(result) =>
      trace, steps := Extend(trace, steps, Complete(i, result), cfg);
      if !evidence {
        trace, steps := Extend(trace, steps, FailAfterComplete(i), cfg);
      }
  }

  lemma ClaimAndCall(s: State, claimedAt: int, now: int, cfg: LedgerConfig) returns (trace: seq<State>, steps: seq<Step>)
    requires s.clock <= claimedAt <= now && Claim(s.doc, claimedAt) == Claimed
    ensures Path(trace, steps, cfg) && trace[0] == s
    ensures trace[|steps|] == State(now, Some(ClaimedDoc(s.doc, claimedAt, cfg)), s.attempts + [Attempt(claimedAt + cfg.lease, Called, 1)])
    ensures now < claimedAt + cfg.lease ==> AllOnTime(trace, steps)
  {
    trace, steps := [s], [];
    assert Path(trace, steps, cfg) && AllOnTime(trace, steps);
    hide Path, AllOnTime;
    trace, steps := Extend(trace, steps, Tick(claimedAt), cfg);
    trace, steps := Extend(trace, steps, Deliver(claimedAt), cfg);
    trace, steps := Extend(trace, steps, Call(|s.attempts|), cfg);
    trace, steps := Extend(trace, steps, Tick(now), cfg);
  }
}
