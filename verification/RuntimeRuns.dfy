/**
 * Any number of callbacks on one runtime, interleaved at every statement that touches the shared counters,
 * the topic or the message.
 */
module RuntimeRuns {
  import opened Prelude
  import opened AgentRuntime

  datatype State = State(counters: Counters, handlers: seq<Handler>)

  const START := State(ZERO, [])

  datatype Step =
    | Begin
    | Process(i: nat, outputs: seq<Event>)
    | RaiseEarly(i: nat)                       // decoding or processing raised
    | Send(i: nat, outcome: SendOutcome)
    | Ack(i: nat)
    | CountProcessed(i: nat)
    | LogReturns(i: nat)
    | LogRaises(i: nat)
    | Nack(i: nat)
    | CountFailed(i: nat)                      // the failure line may raise: the finally clause follows either way
    | Finish(i: nat)

  /** The statement a step executes is the one its callback has reached. */
  predicate Enabled(s: State, step: Step) {
    step.Begin? ||
    (step.i < |s.handlers| &&
     var h := s.handlers[step.i];
     match step
     case Process(_, _) => h.phase == Running && h.outputs.None?
     case RaiseEarly(_) => h.phase == Running && h.outputs.None?
     case Send(_, _) => h.phase == Running && h.outputs.Some? && h.confirmed < |h.outputs.value|
     case Ack(_) => h.phase == Running && h.outputs.Some? && h.confirmed == |h.outputs.value|
     case CountProcessed(_) => h.phase == Acked
     case LogReturns(_) => h.phase == Logging
     case LogRaises(_) => h.phase == Logging
     case Nack(_) => h.phase == Raising
     case CountFailed(_) => h.phase == Nacked
     case Finish(_) => h.phase == Closing)
  }

  /** The handler after its own step. */
  function Advanced(h: Handler, step: Step): Handler
    requires !step.Begin?
    requires step.Send? ==> h.outputs.Some? && h.confirmed < |h.outputs.value|
  {
    match step
    case Process(_, outputs) => h.(outputs := Some(outputs))
    case RaiseEarly(_) => h.(phase := Raising)
    case Send(_, Confirmed) => h.(sent := h.sent + [h.outputs.value[h.confirmed]], confirmed := h.confirmed + 1)
    case Send(_, Refused) => h.(phase := Raising)
    case Send(_, AcceptedButRaised) => h.(sent := h.sent + [h.outputs.value[h.confirmed]], phase := Raising)
    case Ack(_) => h.(acked := true, phase := Acked)
    case CountProcessed(_) => h.(processed := true, phase := Logging)
    case LogReturns(_) => h.(phase := Closing)
    case LogRaises(_) => h.(phase := Raising)
    case Nack(_) => h.(nacked := true, phase := Nacked)
    case CountFailed(_) => h.(failed := true, phase := Closing)
    case Finish(_) => h.(phase := Done)
  }

  function Counted(c: Counters, step: Step): Counters {
    match step
    case Begin => Begun(c)
    case Send(_, Confirmed) => CountedPublished(c)
    case CountProcessed(_) => CountedProcessed(c)
    case CountFailed(_) => CountedFailed(c)
    case Finish(_) => Finished(c)
    case _ => c
  }

  function Apply(s: State, step: Step): State
    requires Enabled(s, step)
  {
    State(Counted(s.counters, step),
          if step.Begin? then s.handlers + [FRESH] else s.handlers[step.i := Advanced(s.handlers[step.i], step)])
  }

  predicate RunFrom(s: State, trace: seq<State>, steps: seq<Step>) {
    && |trace| == |steps| + 1 && trace[0] == s
    && forall k :: 0 <= k < |steps| ==> Enabled(trace[k], steps[k]) && trace[k + 1] == Apply(trace[k], steps[k])
  }

  predicate Run(trace: seq<State>, steps: seq<Step>) {
    RunFrom(START, trace, steps)
  }

  // ---------------------------------------------------------------- tallies over the handlers

  function Tally(hs: seq<Handler>, f: Handler -> nat): nat {
    if hs == [] then 0 else Tally(hs[..|hs| - 1], f) + f(hs[|hs| - 1])
  }

  function Open(h: Handler): nat { Bit(h.phase != Done) }
  function Processed(h: Handler): nat { Bit(h.processed) }
  function Failed(h: Handler): nat { Bit(h.failed) }
  function Both(h: Handler): nat { Bit(h.processed && h.failed) }
  function Published(h: Handler): nat { h.confirmed }
  /** Settled handlers that still count as in flight. */
  function Lingering(h: Handler): nat { Bit((h.processed || h.failed) && h.phase != Done) }

  lemma TallyAppend(hs: seq<Handler>, h: Handler, f: Handler -> nat)
    ensures Tally(hs + [h], f) == Tally(hs, f) + f(h)
  {
    assert (hs + [h])[..|hs|] == hs;
  }

  lemma {:induction false} TallyUpdate(hs: seq<Handler>, i: nat, h: Handler, f: Handler -> nat)
    requires i < |hs|
    ensures Tally(hs[i := h], f) + f(hs[i]) == Tally(hs, f) + f(h)
  {
    var last := |hs| - 1;
    if i == last {
      assert hs[i := h][..last] == hs[..last];
    } else {
      TallyUpdate(hs[..last], i, h, f);
      assert hs[i := h][..last] == hs[..last][i := h];
    }
  }

  lemma {:induction false} TallyAtLeast(hs: seq<Handler>, i: nat, f: Handler -> nat)
    requires i < |hs|
    ensures Tally(hs, f) >= f(hs[i])
  {
    if i < |hs| - 1 {
      TallyAtLeast(hs[..|hs| - 1], i, f);
    }
  }

  // ---------------------------------------------------------------- invariant

  /** What reached the topic: the confirmed outputs in order, and at most the next one unconfirmed. */
  predicate InOrder(h: Handler) {
    match h.outputs
    case None => h.confirmed == 0 && h.sent == [] && !h.acked
    case Some(outputs) =>
      && h.confirmed <= |outputs| && (h.acked ==> h.confirmed == |outputs|)
      && (h.sent == outputs[..h.confirmed] ||
          (h.phase != Running && h.confirmed < |outputs| && h.sent == outputs[..h.confirmed + 1]))
  }

  /** Which settlements and counts a callback has made at each statement. */
  predicate Reached(h: Handler) {
    match h.phase
    case Running => !h.acked && !h.nacked && !h.processed && !h.failed
    case Acked => h.acked && !h.nacked && !h.processed && !h.failed
    case Logging => h.acked && !h.nacked && h.processed && !h.failed
    case Raising => h.acked == h.processed && !h.nacked && !h.failed
    case Nacked => h.acked == h.processed && h.nacked && !h.failed
    case Closing => h.acked == h.processed && h.nacked == h.failed && (h.acked || h.nacked)
    case Done => h.acked == h.processed && h.nacked == h.failed && (h.acked || h.nacked)
  }

  predicate Agree(c: Counters, hs: seq<Handler>) {
    && c.received == |hs|
    && c.inflight == Tally(hs, Open)
    && c.processed == Tally(hs, Processed)
    && c.failed == Tally(hs, Failed)
    && c.published == Tally(hs, Published)
  }

  predicate Inv(s: State) {
    && (forall i :: 0 <= i < |s.handlers| ==> InOrder(s.handlers[i]) && Reached(s.handlers[i]))
    && Agree(s.counters, s.handlers)
  }

  lemma HandlerStepKeepsInv(h: Handler, step: Step)
    requires !step.Begin? && Enabled(State(ZERO, [h]), step.(i := 0)) && InOrder(h) && Reached(h)
    ensures InOrder(Advanced(h, step)) && Reached(Advanced(h, step))
  {
    if h.outputs.Some? && h.confirmed < |h.outputs.value| {
      var outputs := h.outputs.value;
      assert outputs[..h.confirmed] + [outputs[h.confirmed]] == outputs[..h.confirmed + 1];
    }
  }

  /** How one step changes a sum over the handlers. */
  lemma TallyStep(s: State, step: Step, f: Handler -> nat)
    requires Enabled(s, step)
    ensures var after := Tally(Apply(s, step).handlers, f);
            if step.Begin? then after == Tally(s.handlers, f) + f(FRESH)
            else after + f(s.handlers[step.i]) == Tally(s.handlers, f) + f(Advanced(s.handlers[step.i], step))
  {
    hide Tally, Advanced, Counted;
    if step.Begin? {
      TallyAppend(s.handlers, FRESH, f);
    } else {
      TallyUpdate(s.handlers, step.i, Advanced(s.handlers[step.i], step), f);
    }
  }

  /** A callback's own step moves each counter by what it changes in the callback's own record. */
  lemma CountsFollow(c: Counters, h: Handler, step: Step)
    requires !step.Begin? && Enabled(State(ZERO, [h]), step.(i := 0)) && Reached(h)
    ensures var c', h' := Counted(c, step), Advanced(h, step);
            && c'.received == c.received
            && c'.processed + Processed(h) == c.processed + Processed(h')
            && c'.failed + Failed(h) == c.failed + Failed(h')
            && c'.published + Published(h) == c.published + Published(h')
            && (c.inflight >= 1 ==> c'.inflight + Open(h) == c.inflight + Open(h'))
  {
  }

  lemma StepKeepsTallies(s: State, step: Step)
    requires Inv(s) && Enabled(s, step)
    ensures Agree(Apply(s, step).counters, Apply(s, step).handlers)
  {
    TallyStep(s, step, Open);
    TallyStep(s, step, Processed);
    TallyStep(s, step, Failed);
    TallyStep(s, step, Published);
    if !step.Begin? {
      CountsFollow(s.counters, s.handlers[step.i], step);
      TallyAtLeast(s.handlers, step.i, Open);
    }
    hide Tally, Advanced, InOrder, Reached;
  }

  lemma StepKeepsInv(s: State, step: Step)
    requires Inv(s) && Enabled(s, step)
    ensures Inv(Apply(s, step))
  {
    StepKeepsTallies(s, step);
    if !step.Begin? {
      HandlerStepKeepsInv(s.handlers[step.i], step);
    }
  }

  lemma {:induction false} ReachableInv(trace: seq<State>, steps: seq<Step>, k: nat)
    requires Run(trace, steps) && k < |trace|
    ensures Inv(trace[k])
  {
    if k > 0 {
      ReachableInv(trace, steps, k - 1);
      StepKeepsInv(trace[k - 1], steps[k - 1]);
    }
  }

  // ---------------------------------------------------------------- what every run keeps

  lemma {:induction false} TalliesBalance(hs: seq<Handler>)
    requires forall i :: 0 <= i < |hs| ==> Reached(hs[i])
    ensures |hs| + Tally(hs, Lingering) + Tally(hs, Both) == Tally(hs, Processed) + Tally(hs, Failed) + Tally(hs, Open)
  {
    if hs != [] {
      TalliesBalance(hs[..|hs| - 1]);
    }
  }

  /**
   * At every instant: received + settled but still in flight + counted twice = processed + failed + inflight.
   */
  lemma CountersBalance(trace: seq<State>, steps: seq<Step>, k: nat)
    requires Run(trace, steps) && k < |trace|
    ensures var c, hs := trace[k].counters, trace[k].handlers;
            c.received + Tally(hs, Lingering) + Tally(hs, Both) == c.processed + c.failed + c.inflight
  {
    ReachableInv(trace, steps, k);
    TalliesBalance(trace[k].handlers);
  }

  /** The lower bound on the in-flight count never applies. */
  lemma ClampNeverFires(trace: seq<State>, steps: seq<Step>, k: nat)
    requires Run(trace, steps) && k < |steps| && steps[k].Finish?
    ensures trace[k].counters.inflight >= 1
    ensures trace[k + 1].counters.inflight == trace[k].counters.inflight - 1
  {
    ReachableInv(trace, steps, k);
    TallyAtLeast(trace[k].handlers, steps[k].i, Open);
  }

  /** An acknowledged message has every output on the topic, in order; an unacknowledged one is handed back. */
  lemma AckedMeansPublished(trace: seq<State>, steps: seq<Step>, k: nat, i: nat)
    requires Run(trace, steps) && k < |trace| && i < |trace[k].handlers|
    ensures var h := trace[k].handlers[i];
            && (h.acked ==> h.outputs == Some(h.sent) && h.confirmed == |h.sent|)
            && (h.phase == Done && !h.acked ==> h.nacked)
  {
    ReachableInv(trace, steps, k);
    var h := trace[k].handlers[i];
    if h.acked {
      assert h.outputs.value[..h.confirmed] == h.outputs.value;
    }
  }

  // ---------------------------------------------------------------- a logging call that raises after the ack

  /** Acknowledged, and on the way to being handed back as well. */
  predicate Torn(h: Handler) {
    h.acked && (h.nacked || h.phase == Raising || h.phase == Nacked)
  }

  function TornBit(h: Handler): nat { Bit(Torn(h)) }

  function LogFailures(steps: seq<Step>): nat {
    if steps == [] then 0 else LogFailures(steps[..|steps| - 1]) + Bit(steps[|steps| - 1].LogRaises?)
  }

  lemma TornAdvances(h: Handler, step: Step)
    requires !step.Begin? && Enabled(State(ZERO, [h]), step.(i := 0)) && Reached(h)
    ensures Torn(Advanced(h, step)) <==> Torn(h) || step.LogRaises?
    ensures step.LogRaises? ==> !Torn(h)
  {
  }

  lemma TornStep(s: State, step: Step, i: nat)
    requires Inv(s) && Enabled(s, step) && i < |Apply(s, step).handlers|
    ensures Torn(Apply(s, step).handlers[i]) <==> (i < |s.handlers| && Torn(s.handlers[i])) || step == LogRaises(i)
  {
    if !step.Begin? {
      TornAdvances(s.handlers[step.i], step);
      hide Torn, Advanced, InOrder, Reached, Agree;
    }
  }

  lemma InPrefix(steps: seq<Step>, k: nat, step: Step)
    requires 0 < k <= |steps|
    ensures step in steps[..k] <==> step in steps[..k - 1] || step == steps[k - 1]
  {
    assert steps[..k] == steps[..k - 1] + [steps[k - 1]];
  }

  lemma {:induction false} TornByLoggingOnly(trace: seq<State>, steps: seq<Step>, k: nat, i: nat)
    requires Run(trace, steps) && k < |trace| && i < |trace[k].handlers|
    ensures Torn(trace[k].handlers[i]) <==> LogRaises(i) in steps[..k]
  {
    if k > 0 {
      ReachableInv(trace, steps, k - 1);
      TornStep(trace[k - 1], steps[k - 1], i);
      InPrefix(steps, k, LogRaises(i));
      hide Torn, Inv, Apply, Enabled;
      if i < |trace[k - 1].handlers| {
        TornByLoggingOnly(trace, steps, k - 1, i);
      } else {
        NoStepBeforeBegin(trace, steps, k - 1, i);
      }
    }
  }

  lemma {:induction false} NoStepBeforeBegin(trace: seq<State>, steps: seq<Step>, k: nat, i: nat)
    requires Run(trace, steps) && k < |trace| && |trace[k].handlers| <= i
    ensures LogRaises(i) !in steps[..k]
  {
    if k > 0 {
      InPrefix(steps, k, LogRaises(i));
      NoStepBeforeBegin(trace, steps, k - 1, i);
    }
  }

  /**
   * A finished callback settles its message both ways, and is counted both ways, exactly when its
   * success line raised; otherwise it settles and counts exactly one way.
   */
  lemma SettledOnceExactly(trace: seq<State>, steps: seq<Step>, k: nat, i: nat)
    requires Run(trace, steps) && k < |trace| && i < |trace[k].handlers| && trace[k].handlers[i].phase == Done
    ensures var h := trace[k].handlers[i];
            && (h.acked && h.nacked <==> LogRaises(i) in steps[..k])
            && (h.acked || h.nacked) && h.processed == h.acked && h.failed == h.nacked
  {
    ReachableInv(trace, steps, k);
    TornByLoggingOnly(trace, steps, k, i);
  }

  lemma {:induction false} LogFailuresAreTorn(trace: seq<State>, steps: seq<Step>, k: nat)
    requires Run(trace, steps) && k < |trace|
    ensures LogFailures(steps[..k]) == Tally(trace[k].handlers, TornBit)
  {
    if k > 0 {
      var before, step := trace[k - 1], steps[k - 1];
      assert steps[..k][..k - 1] == steps[..k - 1];
      LogFailuresAreTorn(trace, steps, k - 1);
      ReachableInv(trace, steps, k - 1);
      TallyStep(before, step, TornBit);
      if !step.Begin? {
        TornAdvances(before.handlers[step.i], step);
      }
      hide Tally, Torn, Advanced, Apply, InOrder, Reached, Agree;
    }
  }

  lemma {:induction false} TornWhenDone(hs: seq<Handler>)
    requires forall i :: 0 <= i < |hs| ==> Reached(hs[i]) && hs[i].phase == Done
    ensures Tally(hs, Both) == Tally(hs, TornBit) && Tally(hs, Lingering) == 0 && Tally(hs, Open) == 0
  {
    if hs != [] {
      TornWhenDone(hs[..|hs| - 1]);
    }
  }

  /** Once every callback has returned: received = processed + failed, less one for each success line that raised. */
  lemma CountersAtRest(trace: seq<State>, steps: seq<Step>, k: nat)
    requires Run(trace, steps) && k < |trace|
    requires forall i :: 0 <= i < |trace[k].handlers| ==> trace[k].handlers[i].phase == Done
    ensures var c := trace[k].counters;
            c.inflight == 0 && c.received + LogFailures(steps[..k]) == c.processed + c.failed
  {
    CountersBalance(trace, steps, k);
    ReachableInv(trace, steps, k);
    TornWhenDone(trace[k].handlers);
    LogFailuresAreTorn(trace, steps, k);
  }

  // ---------------------------------------------------------------- one callback is a run of these steps

  ghost predicate Reaches(s: State, t: State) {
    exists trace, steps :: RunFrom(s, trace, steps) && trace[|steps|] == t
  }

  lemma ReachesStep(s: State, t: State, step: Step)
    requires Reaches(s, t) && Enabled(t, step)
    ensures Reaches(s, Apply(t, step))
  {
    var trace, steps :| RunFrom(s, trace, steps) && trace[|steps|] == t;
    var u := Apply(t, step);
    hide Apply, Enabled;
    assert RunFrom(s, trace + [u], steps + [step]) && (trace + [u])[|steps + [step]|] == u;
  }

  lemma ReachesSelf(s: State)
    ensures Reaches(s, s)
  {
    assert RunFrom(s, [s], []);
  }

  /** The step of the callback that began last. */
  lemma LastAdvances(s: State, c: Counters, h: Handler, step: Step)
    requires Reaches(s, State(c, s.handlers + [h]))
    requires !step.Begin? && step.i == |s.handlers| && Enabled(State(c, s.handlers + [h]), step)
    ensures Reaches(s, State(Counted(c, step), s.handlers + [Advanced(h, step)]))
  {
    hide Reaches;
    var t := State(c, s.handlers + [h]);
    assert Apply(t, step).handlers == s.handlers + [Advanced(h, step)];
    ReachesStep(s, t, step);
  }

  function Sending(outputs: seq<Event>, n: nat): Handler
    requires n <= |outputs|
  {
    FRESH.(outputs := Some(outputs), confirmed := n, sent := outputs[..n])
  }

  lemma {:induction false} SendsReach(s: State, outputs: seq<Event>, sends: nat -> SendOutcome, n: nat)
    requires n <= |outputs| && forall j :: 0 <= j < n ==> sends(j) == Confirmed
    ensures var c := Begun(s.counters);
            Reaches(s, State(c.(published := c.published + n), s.handlers + [Sending(outputs, n)]))
  {
    hide Reaches;
    var i, c := |s.handlers|, Begun(s.counters);
    if n == 0 {
      ReachesSelf(s);
      ReachesStep(s, s, Begin);
      LastAdvances(s, c, FRESH, Process(i, outputs));
    } else {
      SendsReach(s, outputs, sends, n - 1);
      LastAdvances(s, c.(published := c.published + (n - 1)), Sending(outputs, n - 1), Send(i, Confirmed));
      assert outputs[..n - 1] + [outputs[n - 1]] == outputs[..n];
    }
  }

  lemma RaisedReaches(s: State, c: Counters, h: Handler)
    requires h.phase == Raising && Reaches(s, State(c, s.handlers + [h]))
    ensures Reaches(s, State(Finished(CountedFailed(c)), s.handlers + [h.(nacked := true, failed := true, phase := Done)]))
  {
    hide Reaches;
    var i := |s.handlers|;
    LastAdvances(s, c, h, Nack(i));
    LastAdvances(s, c, h.(nacked := true, phase := Nacked), CountFailed(i));
    LastAdvances(s, CountedFailed(c), h.(nacked := true, failed := true, phase := Closing), Finish(i));
  }

  lemma AckedReaches(s: State, c: Counters, outputs: seq<Event>, logRaises: bool)
    requires Reaches(s, State(c, s.handlers + [Sending(outputs, |outputs|)]))
    ensures var h := Sending(outputs, |outputs|).(acked := true, processed := true, nacked := logRaises, failed := logRaises, phase := Done);
            var after := CountedProcessed(c);
            Reaches(s, State(Finished(if logRaises then CountedFailed(after) else after), s.handlers + [h]))
  {
    hide Reaches;
    var i := |s.handlers|;
    var h := Sending(outputs, |outputs|);
    LastAdvances(s, c, h, Ack(i));
    LastAdvances(s, c, h.(acked := true, phase := Acked), CountProcessed(i));
    var logging := h.(acked := true, processed := true, phase := Logging);
    if logRaises {
      LastAdvances(s, CountedProcessed(c), logging, LogRaises(i));
      RaisedReaches(s, CountedProcessed(c), logging.(phase := Raising));
    } else {
      LastAdvances(s, CountedProcessed(c), logging, LogReturns(i));
      LastAdvances(s, CountedProcessed(c), logging.(phase := Closing), Finish(i));
    }
  }

  /** What AgentRuntime.Runtime.Callback does to the counters and the topic is what its steps do in sequence. */
  lemma CallbackIsARun(s: State, work: Option<seq<Event>>, sends: nat -> SendOutcome, logRaises: bool)
    ensures var h := Handled(work, sends, logRaises);
            Reaches(s, State(CountedAlone(s.counters, h), s.handlers + [h]))
  {
    hide Reaches;
    var i, c := |s.handlers|, Begun(s.counters);
    if work.None? {
      ReachesSelf(s);
      ReachesStep(s, s, Begin);
      LastAdvances(s, c, FRESH, RaiseEarly(i));
      RaisedReaches(s, c, FRESH.(phase := Raising));
    } else {
      var outputs := work.value;
      var n := ConfirmedCount(outputs, sends, 0);
      var sent := c.(published := c.published + n);
      SendsReach(s, outputs, sends, n);
      if n == |outputs| {
        AckedReaches(s, sent, outputs, logRaises);
        assert outputs[..n] == outputs;
      } else {
        LastAdvances(s, sent, Sending(outputs, n), Send(i, sends(n)));
        assert outputs[..n] + [] == outputs[..n];
        RaisedReaches(s, sent, Sending(outputs, n).(sent := Sent(outputs, sends, n), phase := Raising));
      }
    }
  }

  predicate CountedTwice(s: State) {
    && s.counters.received == 1 && s.counters.processed == 1 && s.counters.failed == 1
    && |s.handlers| == 1 && s.handlers[0].phase == Done && s.handlers[0].acked && s.handlers[0].nacked
  }

  /** Any message that is published in full and whose success line raises is settled both ways and counted twice. */
  lemma RaisingLogCountsTwice(outputs: seq<Event>, sends: nat -> SendOutcome)
    requires forall j :: 0 <= j < |outputs| ==> sends(j) == Confirmed
    ensures exists s: State :: Reaches(START, s) && CountedTwice(s)
  {
    hide Reaches;
    var h := Handled(Some(outputs), sends, true);
    CallbackIsARun(START, Some(outputs), sends, true);
    assert CountedTwice(State(CountedAlone(ZERO, h), [] + [h]));
  }
}
