/**
 * The Pub/Sub subscriber runtime: its counters, and when it acknowledges a message. The class holds one
 * callback as it is written; RuntimeRuns interleaves any number of them.
 */
module AgentRuntime {
  import opened Prelude

  type Event = string

  /** What one publish call does: the broker accepts or refuses, and the caller may not learn of an acceptance. */
  datatype SendOutcome = Confirmed | Refused | AcceptedButRaised

  /** The values the runtime keeps behind its state lock. */
  datatype Counters = Counters(received: nat, processed: nat, published: nat, failed: nat, inflight: nat)

  const ZERO := Counters(0, 0, 0, 0, 0)

  function Begun(c: Counters): Counters {
    c.(received := c.received + 1, inflight := c.inflight + 1)
  }

  function CountedPublished(c: Counters): Counters {
    c.(published := c.published + 1)
  }

  function CountedProcessed(c: Counters): Counters {
    c.(processed := c.processed + 1)
  }

  function CountedFailed(c: Counters): Counters {
    c.(failed := c.failed + 1)
  }

  function Finished(c: Counters): Counters {
    c.(inflight := Max(0, c.inflight - 1))
  }

  // ---------------------------------------------------------------- what one callback amounts to

  /** Where a callback is: Raising means inside the except clause, Closing inside the finally clause. */
  datatype Phase = Running | Acked | Logging | Raising | Nacked | Closing | Done

  /** One delivery. sent lists what reached the topic, confirmed how many of the outputs were counted. */
  datatype Handler = Handler(
    phase: Phase, outputs: Option<seq<Event>>, confirmed: nat, sent: seq<Event>,
    acked: bool, nacked: bool, processed: bool, failed: bool)

  const FRESH := Handler(Running, None, 0, [], false, false, false, false)

  /** How many publish calls are confirmed before the first that raises. */
  function ConfirmedCount(outputs: seq<Event>, sends: nat -> SendOutcome, k: nat): (n: nat)
    requires k <= |outputs|
    ensures k <= n <= |outputs|
    ensures forall j :: k <= j < n ==> sends(j) == Confirmed
    ensures n < |outputs| ==> sends(n) != Confirmed
    decreases |outputs| - k
  {
    if k < |outputs| && sends(k) == Confirmed then ConfirmedCount(outputs, sends, k + 1) else k
  }

  /** What reached the topic when the first n outputs were confirmed and the call after them, if any, raised. */
  function Sent(outputs: seq<Event>, sends: nat -> SendOutcome, n: nat): seq<Event>
    requires n <= |outputs|
  {
    outputs[..n] + if n < |outputs| && sends(n) == AcceptedButRaised then [outputs[n]] else []
  }

  /** A finished callback: work is None when decoding the message or processing it raised. */
  function Handled(work: Option<seq<Event>>, sends: nat -> SendOutcome, logRaises: bool): Handler {
    if work.None? then Handler(Done, None, 0, [], false, true, false, true)
    else
      var n := ConfirmedCount(work.value, sends, 0);
      if n == |work.value|
      then Handler(Done, work, n, work.value, true, logRaises, true, logRaises)
      else Handler(Done, work, n, Sent(work.value, sends, n), false, true, false, true)
  }

  /** The n-th call is the first to raise: the outputs before it are out, and its own if the broker took it. */
  predicate Interrupted(outputs: seq<Event>, sends: nat -> SendOutcome, n: nat, before: seq<Event>, after: seq<Event>) {
    && n < |outputs| && sends(n) != Confirmed && (forall k :: 0 <= k < n ==> sends(k) == Confirmed)
    && after == before + outputs[..if sends(n) == AcceptedButRaised then n + 1 else n]
  }

  function Bit(b: bool): nat {
    if b then 1 else 0
  }

  /** The counters after a callback that ran alone. */
  function CountedAlone(c: Counters, h: Handler): Counters {
    Counters(c.received + 1, c.processed + Bit(h.processed), c.published + h.confirmed, c.failed + Bit(h.failed), c.inflight)
  }

  // ---------------------------------------------------------------- the runtime itself

  /** A Pub/Sub delivery; the fields say which settlement calls were made on it. */
  class Message {
    var acked: bool
    var nacked: bool

    constructor ()
      ensures !acked && !nacked
    {
      acked, nacked := false, false;
    }
  }

  class Topic {
    var events: seq<Event>

    constructor ()
      ensures events == []
    {
      events := [];
    }
  }

  class Runtime {
    var received: nat
    var processed: nat
    var published: nat
    var failed: nat
    var inflight: nat
    const topic: Topic

    constructor (topic: Topic)
      ensures this.topic == topic && Snapshot() == ZERO
    {
      this.topic := topic;
      received, processed, published, failed, inflight := 0, 0, 0, 0, 0;
    }

    function Snapshot(): Counters
      reads this
    {
      Counters(received, processed, published, failed, inflight)
    }

    /** Publishes one event; the count moves only when the broker's confirmation came back. */
    method Publish(event: Event, outcome: SendOutcome) returns (raised: bool)
      modifies topic, this`published
      ensures raised <==> outcome != Confirmed
      ensures topic.events == old(topic.events) + if outcome == Refused then [] else [event]
      ensures Snapshot() == if outcome == Confirmed then CountedPublished(old(Snapshot())) else old(Snapshot())
    {
      if outcome == Refused {
        return true;
      }
      topic.events := topic.events + [event];
      if outcome == AcceptedButRaised {
        return true;
      }
      published := published + 1;
      return false;
    }

    /** The publishing loop: stops at the first call that raises. */
    method PublishAll(outputs: seq<Event>, sends: nat -> SendOutcome) returns (n: nat, raised: bool)
      modifies topic, this`published
      ensures n == ConfirmedCount(outputs, sends, 0) && (raised <==> n < |outputs|)
      ensures topic.events == old(topic.events) + Sent(outputs, sends, n)
      ensures raised ==> Interrupted(outputs, sends, n, old(topic.events), topic.events)
      ensures !raised ==> topic.events == old(topic.events) + outputs && forall k :: 0 <= k < |outputs| ==> sends(k) == Confirmed
      ensures published == old(published) + n
    {
      n, raised := 0, false;
      while n < |outputs| && !raised
        invariant n <= |outputs| && (raised ==> n < |outputs|)
        invariant ConfirmedCount(outputs, sends, 0) == if raised then n else ConfirmedCount(outputs, sends, n)
        invariant topic.events == old(topic.events) + if raised then Sent(outputs, sends, n) else outputs[..n]
        invariant published == old(published) + n
        decreases |outputs| - n, !raised
      {
        raised := Publish(outputs[n], sends(n));
        if !raised {
          n := n + 1;
        }
      }
    }

    /** One callback. work is what decoding and processing the message give, None when they raise. */
    method Callback(message: Message, work: Option<seq<Event>>, sends: nat -> SendOutcome, logRaises: bool)
      requires !message.acked && !message.nacked
      modifies this, topic, message
      ensures Snapshot() == CountedAlone(old(Snapshot()), Handled(work, sends, logRaises))
      ensures topic.events == old(topic.events) + Handled(work, sends, logRaises).sent
      ensures message.acked == Handled(work, sends, logRaises).acked
      ensures message.nacked == Handled(work, sends, logRaises).nacked
      // acknowledged when every output was confirmed, handed back otherwise or when the success line raised
      ensures message.acked <==> work.Some? && forall k :: 0 <= k < |work.value| ==> sends(k) == Confirmed
      ensures message.nacked <==> !message.acked || logRaises
      ensures received == old(received) + 1 && inflight == old(inflight)
      ensures processed == old(processed) + Bit(message.acked) && failed == old(failed) + Bit(message.nacked)
      ensures message.acked ==> topic.events == old(topic.events) + work.value && published == old(published) + |work.value|
      ensures work.None? ==> topic.events == old(topic.events) && published == old(published)
      ensures work.Some? && !message.acked ==>
        exists n: nat :: Interrupted(work.value, sends, n, old(topic.events), topic.events) && published == old(published) + n
    {
      hide Sent, ConfirmedCount;
      received := received + 1;
      inflight := inflight + 1;

      var raised := work.None?;
      if !raised {
        var n;
        n, raised := PublishAll(work.value, sends);
        if !raised {
          message.acked := true;
          processed := processed + 1;
          raised := logRaises;
        }
      }
      if raised {
        message.nacked := true;
        failed := failed + 1;
      }
      inflight := Max(0, inflight - 1);
    }
  }
}
