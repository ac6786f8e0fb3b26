/**
 * All runs of one entity's correlation window: any observations, arbitrary clock readings, incidents
 * published late, out of order or never, and deletion of the stored window at its TTL.
 */
module CorrelationRuns {
  import opened Prelude
  import opened StringOrder
  import opened Identifiers
  import opened CorrelationWindow
  import opened Observer

  // ---------------------------------------------------------------- transition system

  datatype State = State(
    window: Option<Window>,
    floor: Option<int>,           // start of the window last deleted
    eligible: seq<int>,           // ranks of the current window's steps that met the publication conditions
    past: nat,                    // how many committed incidents belong to earlier windows
    committed: seq<Incident>,     // incidents the transaction decided to publish
    pending: set<nat>,            // those whose handler has not published them yet
    emitted: seq<nat>)            // those published, in the order of publication

  /** Emit(i) publishes committed[i]; a handler that stops before it never does. */
  datatype Step = Observe(o: Observation, now: int) | Emit(i: nat) | Expire

  const INITIAL := State(None, None, [], 0, [], {}, [])

  predicate Duplicate(s: State, o: Observation, now: int, cfg: Config) {
    s.window.Some? && now - s.window.value.startedAt <= cfg.windowLength && o.observationId in s.window.value.seen
  }

  /** Clock readings are arbitrary, except that they pass the start of a window that TTL has deleted. */
  predicate Enabled(s: State, step: Step, entityKey: string) {
    match step
    case Observe(o, now) => o.entityKey == entityKey && (s.window.None? && s.floor.Some? ==> now > s.floor.value)
    case Emit(i) => i in s.pending
    case Expire => s.window.Some?
  }

  function Apply(s: State, step: Step, entityKey: string, cfg: Config, p: Platform): State
    requires Enabled(s, step, entityKey)
  {
    match step
    case Expire => s.(window := None, floor := Some(s.window.value.startedAt))
    case Emit(i) => s.(pending := s.pending - {i}, emitted := s.emitted + [i])
    case Observe(o, now) =>
      if Duplicate(s, o, now, cfg) then s else AfterObservation(s, o, now, cfg, p)
  }

  /** The observation starts a window: the first of all, after a rollover, or after TTL deletion. */
  predicate Opens(s: State, step: Step, cfg: Config) {
    step.Observe? && (s.window.None? || step.now - s.window.value.startedAt > cfg.windowLength)
  }

  function AfterObservation(s: State, o: Observation, now: int, cfg: Config, p: Platform): State {
    var (w, incident) := Update(s.window, o, now, cfg, p);
    var after := Extended(Current(s.window, o.entityKey, now, cfg, p), o, now, cfg, p);
    var rollover := Opens(s, Observe(o, now), cfg);
    var ranks := if Eligible(after.signals, cfg) then [SeverityRank(after.riskLevel)] else [];
    var incidents := if incident.Some? then [incident.value] else [];
    State(w, s.floor,
          (if rollover then [] else s.eligible) + ranks,
          if rollover then |s.committed| else s.past,
          s.committed + incidents,
          s.pending + if incident.Some? then {|s.committed|} else {},
          s.emitted)
  }

  predicate Run(trace: seq<State>, steps: seq<Step>, entityKey: string, cfg: Config, p: Platform) {
    && |trace| == |steps| + 1 && trace[0] == INITIAL
    && forall k :: 0 <= k < |steps| ==> Enabled(trace[k], steps[k], entityKey) && trace[k + 1] == Apply(trace[k], steps[k], entityKey, cfg, p)
  }

  // ---------------------------------------------------------------- strict new maxima

  function MaxRank(ranks: seq<int>): int {
    if ranks == [] then 0 else Max(MaxRank(ranks[..|ranks| - 1]), ranks[|ranks| - 1])
  }

  /** How many ranks exceed every rank before them. */
  function Records(ranks: seq<int>): nat {
    if ranks == [] then 0
    else Records(ranks[..|ranks| - 1]) + if ranks[|ranks| - 1] > MaxRank(ranks[..|ranks| - 1]) then 1 else 0
  }

  lemma RecordsAppend(ranks: seq<int>, r: int)
    ensures MaxRank(ranks + [r]) == Max(MaxRank(ranks), r)
    ensures Records(ranks + [r]) == Records(ranks) + if r > MaxRank(ranks) then 1 else 0
  {
    assert (ranks + [r])[..|ranks|] == ranks;
  }

  /** Strict new maxima drawn from base + 1 .. top number at most top - base. */
  lemma {:induction false} RecordsBounded(ranks: seq<int>, base: int)
    requires 0 <= base && forall i :: 0 <= i < |ranks| ==> base < ranks[i] <= 5
    ensures ranks != [] ==> base < MaxRank(ranks) <= 5
    ensures Records(ranks) <= Max(0, MaxRank(ranks) - base)
  {
    if ranks != [] { RecordsBounded(ranks[..|ranks| - 1], base); }
  }

  // ---------------------------------------------------------------- invariant

  /** Buffer and dedupe list correspond position by position, and everything derived is up to date. */
  predicate WindowProper(w: Window, entityKey: string, cfg: Config, p: Platform) {
    && w.entityKey == entityKey
    && 1 <= |w.signals| == |w.seen| <= cfg.maxSignals
    && (forall i :: 0 <= i < |w.signals| ==> w.signals[i].observationId == w.seen[i])
    && (forall i, j :: 0 <= i < j < |w.seen| ==> w.seen[i] != w.seen[j])
    && w.sources == Sorted(Sources(w.signals)) && w.categories == Sorted(Categories(w.signals))
    && w.signalTypes == Sorted(SignalTypes(w.signals))
    && w.riskScore == Score(w.signals) && w.riskLevel == RiskLevel(w.riskScore)
    && w.incidentId == IncidentIdOf(entityKey, w.startedAt, p)
  }

  /** Rank and revision are the maximum and the number of new maxima of the eligible steps. */
  predicate PublicationProper(s: State) {
    s.window.Some? ==>
      && s.window.value.lastPublishedRank == MaxRank(s.eligible)
      && s.window.value.revision == Records(s.eligible)
      && s.past <= |s.committed| && s.window.value.revision == |s.committed| - s.past
  }

  predicate RanksProper(s: State) {
    forall i :: 0 <= i < |s.eligible| ==> 2 <= s.eligible[i] <= 5
  }

  /** The incidents of the current window are its revisions 1, 2, ...; all others are of earlier windows. */
  predicate CommitsProper(s: State, entityKey: string, p: Platform) {
    && (forall i :: 0 <= i < |s.committed| ==> s.committed[i].incidentId == IncidentIdOf(entityKey, s.committed[i].startedAt, p))
    && (s.window.Some? ==> s.past <= |s.committed|)
    && (s.window.Some? ==> forall i :: s.past <= i < |s.committed| ==>
          s.committed[i].startedAt == s.window.value.startedAt && s.committed[i].revision == i - s.past + 1)
    && (s.window.Some? ==> forall i :: 0 <= i < s.past ==> s.committed[i].startedAt < s.window.value.startedAt)
    && (s.window.None? && s.floor.Some? ==> forall i :: 0 <= i < |s.committed| ==> s.committed[i].startedAt <= s.floor.value)
    && (s.window.None? && s.floor.None? ==> s.committed == [])
  }

  predicate Later(x: Incident, y: Incident) {
    x.startedAt < y.startedAt || (x.startedAt == y.startedAt && x.revision < y.revision)
  }

  predicate Increasing(incidents: seq<Incident>) {
    forall i, j :: 0 <= i < j < |incidents| ==> Later(incidents[i], incidents[j])
  }

  /** What is pending or published was committed, and nothing is published twice or again. */
  predicate EmissionsProper(s: State) {
    && Increasing(s.committed)
    && (forall i :: i in s.pending ==> i < |s.committed|)
    && (forall i :: 0 <= i < |s.emitted| ==> s.emitted[i] < |s.committed| && s.emitted[i] !in s.pending)
    && (forall i, j :: 0 <= i < j < |s.emitted| ==> s.emitted[i] != s.emitted[j])
  }

  predicate Inv(s: State, entityKey: string, cfg: Config, p: Platform) {
    && (s.window.Some? ==> WindowProper(s.window.value, entityKey, cfg, p))
    && PublicationProper(s) && RanksProper(s) && CommitsProper(s, entityKey, p) && EmissionsProper(s)
  }

  // ---------------------------------------------------------------- one observation keeps it

  /** What Current hands to Extended: an up-to-date window or an empty one. */
  predicate Extendable(w: Window, entityKey: string, cfg: Config) {
    && |w.signals| == |w.seen| <= cfg.maxSignals
    && (forall i :: 0 <= i < |w.signals| ==> w.signals[i].observationId == w.seen[i])
    && (forall i, j :: 0 <= i < j < |w.seen| ==> w.seen[i] != w.seen[j])
  }

  lemma ExtendedIsProper(w: Window, o: Observation, now: int, cfg: Config, p: Platform)
    requires cfg.maxSignals >= 1 && Extendable(w, o.entityKey, cfg) && o.observationId !in w.seen
    ensures WindowProper(Extended(w, o, now, cfg, p), o.entityKey, cfg, p)
  {
    hide Score, Sorted, Sources, Categories, SignalTypes, StableId, Eligible;
    var signals := w.signals + [CompactSignal(o)];
    var seen := w.seen + [o.observationId];
    assert forall i :: 0 <= i < |signals| ==> signals[i].observationId == seen[i];
    assert forall i, j :: 0 <= i < j < |seen| ==> seen[i] != seen[j];
  }

  lemma CurrentIsExtendable(s: State, o: Observation, now: int, cfg: Config, p: Platform)
    requires Inv(s, o.entityKey, cfg, p) && cfg.maxSignals >= 1
    ensures Extendable(Current(s.window, o.entityKey, now, cfg, p), o.entityKey, cfg)
  {
    hide Score, Sorted, Sources, Categories, SignalTypes, StableId, Eligible, CommitsProper, EmissionsProper, PublicationProper;
  }

  /** Every rollover starts the new window strictly later than any window before, whatever the clock does. */
  lemma RolloverStartsLater(s: State, o: Observation, now: int, cfg: Config, p: Platform)
    requires CommitsProper(s, o.entityKey, p) && cfg.windowLength >= 0
    requires Enabled(s, Observe(o, now), o.entityKey) && Opens(s, Observe(o, now), cfg)
    ensures s.window.Some? ==> s.window.value.startedAt < now
    ensures forall i :: 0 <= i < |s.committed| ==> s.committed[i].startedAt < now
  {
    hide StableId;
  }

  /** Whether an observation that extends the window publishes, and what it leaves. */
  lemma ExtendedPublishes(w: Window, o: Observation, now: int, cfg: Config, p: Platform)
    ensures var after := Extended(w, o, now, cfg, p);
            var rank := SeverityRank(after.riskLevel);
            var publish := Eligible(after.signals, cfg) && rank > w.lastPublishedRank;
            && 2 <= rank <= 5
            && after.lastPublishedRank == (if publish then rank else w.lastPublishedRank)
            && after.revision == w.revision + (if publish then 1 else 0)
  {
    hide Score, Sorted, Sources, Categories, SignalTypes, StableId, Eligible, Last;
  }

  lemma PublicationStays(s: State, o: Observation, now: int, cfg: Config, p: Platform)
    requires PublicationProper(s) && RanksProper(s) && !Duplicate(s, o, now, cfg)
    ensures PublicationProper(AfterObservation(s, o, now, cfg, p))
    ensures RanksProper(AfterObservation(s, o, now, cfg, p))
  {
    hide Extended, IncidentIdOf, Eligible, MaxRank, Records;
    var current := Current(s.window, o.entityKey, now, cfg, p);
    var after := Extended(current, o, now, cfg, p);
    var before := if Opens(s, Observe(o, now), cfg) then [] else s.eligible;
    EmptyRecords();
    ExtendedPublishes(current, o, now, cfg, p);
    RecordsAppend(before, SeverityRank(after.riskLevel));
    assert before + [] == before;
  }

  lemma EmptyRecords()
    ensures MaxRank([]) == 0 && Records([]) == 0
  {
  }

  lemma CommitsStay(s: State, o: Observation, now: int, cfg: Config, p: Platform)
    requires Inv(s, o.entityKey, cfg, p) && cfg.windowLength >= 0
    requires Enabled(s, Observe(o, now), o.entityKey) && !Duplicate(s, o, now, cfg)
    ensures CommitsProper(AfterObservation(s, o, now, cfg, p), o.entityKey, p)
  {
    hide Score, Sorted, Sources, Categories, SignalTypes, StableId, Eligible, EmissionsProper, WindowProper, MaxRank, Records;
    if Opens(s, Observe(o, now), cfg) { RolloverStartsLater(s, o, now, cfg, p); }
  }

  lemma EmissionsStay(s: State, o: Observation, now: int, cfg: Config, p: Platform)
    requires Inv(s, o.entityKey, cfg, p) && cfg.windowLength >= 0
    requires Enabled(s, Observe(o, now), o.entityKey) && !Duplicate(s, o, now, cfg)
    ensures EmissionsProper(AfterObservation(s, o, now, cfg, p))
  {
    hide Score, Sorted, Sources, Categories, SignalTypes, StableId, Eligible, WindowProper, MaxRank, Records;
    var s' := AfterObservation(s, o, now, cfg, p);
    if Opens(s, Observe(o, now), cfg) { RolloverStartsLater(s, o, now, cfg, p); }
    if |s'.committed| > |s.committed| {
      var x := s'.committed[|s.committed|];
      forall i | 0 <= i < |s.committed| ensures Later(s.committed[i], x) {}
    } else {
      assert s'.committed == s.committed;
    }
  }

  lemma ObservationKeepsInv(s: State, o: Observation, now: int, cfg: Config, p: Platform)
    requires cfg.windowLength >= 0 && cfg.maxSignals >= 1 && Inv(s, o.entityKey, cfg, p)
    requires Enabled(s, Observe(o, now), o.entityKey) && !Duplicate(s, o, now, cfg)
    ensures Inv(AfterObservation(s, o, now, cfg, p), o.entityKey, cfg, p)
  {
    hide Current, Extended, WindowProper, PublicationProper, RanksProper, CommitsProper, EmissionsProper, Eligible, Duplicate;
    CurrentIsExtendable(s, o, now, cfg, p);
    NotDuplicate(s, o, now, cfg, p);
    ExtendedIsProper(Current(s.window, o.entityKey, now, cfg, p), o, now, cfg, p);
    PublicationStays(s, o, now, cfg, p);
    CommitsStay(s, o, now, cfg, p);
    EmissionsStay(s, o, now, cfg, p);
  }

  lemma ExpiryKeepsInv(s: State, entityKey: string, cfg: Config, p: Platform)
    requires Inv(s, entityKey, cfg, p) && s.window.Some?
    ensures Inv(s.(window := None, floor := Some(s.window.value.startedAt)), entityKey, cfg, p)
  {
    hide Score, Sorted, Sources, Categories, SignalTypes, StableId, Eligible, MaxRank, Records, WindowProper;
  }

  lemma EmissionKeepsInv(s: State, i: nat, entityKey: string, cfg: Config, p: Platform)
    requires Inv(s, entityKey, cfg, p) && i in s.pending
    ensures Inv(s.(pending := s.pending - {i}, emitted := s.emitted + [i]), entityKey, cfg, p)
  {
    hide Score, Sorted, Sources, Categories, SignalTypes, StableId, Eligible, MaxRank, Records, WindowProper, Later;
  }

  lemma StepKeepsInv(s: State, step: Step, entityKey: string, cfg: Config, p: Platform)
    requires cfg.windowLength >= 0 && cfg.maxSignals >= 1
    requires Inv(s, entityKey, cfg, p) && Enabled(s, step, entityKey)
    ensures Inv(Apply(s, step, entityKey, cfg, p), entityKey, cfg, p)
  {
    hide Inv, Duplicate, AfterObservation;
    match step
    case Expire => ExpiryKeepsInv(s, entityKey, cfg, p);
    case Emit(i) => EmissionKeepsInv(s, i, entityKey, cfg, p);
    case Observe(o, now) =>
      if !Duplicate(s, o, now, cfg) { ObservationKeepsInv(s, o, now, cfg, p); }
  }

  lemma NotDuplicate(s: State, o: Observation, now: int, cfg: Config, p: Platform)
    requires !Duplicate(s, o, now, cfg)
    ensures o.observationId !in Current(s.window, o.entityKey, now, cfg, p).seen
  {
  }

  lemma {:induction false} ReachableInv(trace: seq<State>, steps: seq<Step>, entityKey: string, cfg: Config, p: Platform, k: nat)
    requires cfg.windowLength >= 0 && cfg.maxSignals >= 1
    requires Run(trace, steps, entityKey, cfg, p) && k < |trace|
    ensures Inv(trace[k], entityKey, cfg, p)
  {
    hide Apply, Inv, Enabled;
    if k == 0 {
      InitialInv(entityKey, cfg, p);
    } else {
      ReachableInv(trace, steps, entityKey, cfg, p, k - 1);
      StepKeepsInv(trace[k - 1], steps[k - 1], entityKey, cfg, p);
      assert trace[k - 1 + 1] == trace[k];
    }
  }

  lemma InitialInv(entityKey: string, cfg: Config, p: Platform)
    ensures Inv(INITIAL, entityKey, cfg, p)
  {
  }

  // ---------------------------------------------------------------- main results

  /**
   * After any history, the stored rank is the maximum rank over the window's eligible steps, the
   * revision is the number of their strict new maxima, and that is the number of incidents committed
   * under the window's incident id, which carry the revisions 1, 2, ...; never more than four.
   */
  lemma RevisionCountsNewMaxima(trace: seq<State>, steps: seq<Step>, entityKey: string, cfg: Config, p: Platform, k: nat)
    requires Sound(p) && cfg.windowLength >= 0 && cfg.maxSignals >= 1
    requires Run(trace, steps, entityKey, cfg, p) && k < |trace| && trace[k].window.Some?
    ensures var s := trace[k];
            var w := s.window.value;
            && w.lastPublishedRank == MaxRank(s.eligible) && w.revision == Records(s.eligible) <= 4
            && s.past <= |s.committed| && |s.committed| == s.past + w.revision
            && (forall i :: 0 <= i < s.past ==> s.committed[i].incidentId != w.incidentId)
            && (forall i :: s.past <= i < |s.committed| ==> s.committed[i].incidentId == w.incidentId && s.committed[i].revision == i - s.past + 1)
  {
    hide Apply, Enabled, Run, Sorted, Score, MaxRank, Records, IncidentIdOf;
    var s := trace[k];
    ReachableInv(trace, steps, entityKey, cfg, p, k);
    RecordsBounded(s.eligible, 1);
    forall i | 0 <= i < s.past ensures s.committed[i].incidentId != s.window.value.incidentId {
      IncidentIdInjective(entityKey, s.committed[i].startedAt, s.window.value.startedAt, p);
    }
    EmptyRecords();
  }

  lemma IncidentIdInjective(entityKey: string, a: int, b: int, p: Platform)
    requires Sound(p)
    ensures IncidentIdOf(entityKey, a, p) == IncidentIdOf(entityKey, b, p) ==> a == b
  {
    StableIdInjective(p, "incident", [entityKey, p.format(a)], "incident", [entityKey, p.format(b)]);
    if IncidentIdOf(entityKey, a, p) == IncidentIdOf(entityKey, b, p) {
      assert [entityKey, p.format(a)][1] == [entityKey, p.format(b)][1];
      assert p.parse(p.format(a)) == p.parse(p.format(b));
    }
  }

  /**
   * Each pair of incident id and revision is published at most once per entity, across every window
   * rollover, redelivery, lost or delayed publication and TTL deletion.
   */
  lemma PublishedAtMostOnce(trace: seq<State>, steps: seq<Step>, entityKey: string, cfg: Config, p: Platform, k: nat, i: nat, j: nat)
    requires Sound(p) && cfg.windowLength >= 0 && cfg.maxSignals >= 1
    requires Run(trace, steps, entityKey, cfg, p) && k < |trace| && i < |trace[k].emitted| && j < |trace[k].emitted| && i != j
    ensures var s := trace[k];
            && s.emitted[i] < |s.committed| && s.emitted[j] < |s.committed|
            && var x, y := s.committed[s.emitted[i]], s.committed[s.emitted[j]];
            !(x.incidentId == y.incidentId && x.revision == y.revision)
  {
    hide Apply, Enabled, Run, Sorted, Score, MaxRank, Records, IncidentIdOf;
    ReachableInv(trace, steps, entityKey, cfg, p, k);
    var s := trace[k];
    var x, y := s.committed[s.emitted[i]], s.committed[s.emitted[j]];
    assert Later(x, y) || Later(y, x);
    IncidentIdInjective(entityKey, x.startedAt, y.startedAt, p);
  }

  predicate Awaited(s: State, i: nat) {
    i < |s.committed| ==> (i in s.pending <==> i !in s.emitted)
  }

  lemma StaysAwaited(s: State, step: Step, entityKey: string, cfg: Config, p: Platform, i: nat)
    requires Enabled(s, step, entityKey) && EmissionsProper(s) && Awaited(s, i)
    ensures Awaited(Apply(s, step, entityKey, cfg, p), i)
  {
    hide Update, Extended, Current, Eligible, Increasing, Opens, Duplicate;
    match step
    case Observe(o, now) =>
      assert |s.committed| !in s.emitted;
    case Emit(j) =>
      assert s.emitted + [j] == Apply(s, step, entityKey, cfg, p).emitted;
    case Expire =>
  }

  /** Every incident committed so far either was published or still can be: the state itself loses none. */
  lemma {:induction false} PendingOrPublished(trace: seq<State>, steps: seq<Step>, entityKey: string, cfg: Config, p: Platform, k: nat, i: nat)
    requires cfg.windowLength >= 0 && cfg.maxSignals >= 1
    requires Run(trace, steps, entityKey, cfg, p) && k < |trace| && i < |trace[k].committed|
    ensures i in trace[k].pending <==> i !in trace[k].emitted
    ensures i in trace[k].pending ==> Enabled(trace[k], Emit(i), entityKey)
  {
    AlwaysAwaited(trace, steps, entityKey, cfg, p, k, i);
    hide Run;
  }

  lemma {:induction false} AlwaysAwaited(trace: seq<State>, steps: seq<Step>, entityKey: string, cfg: Config, p: Platform, k: nat, i: nat)
    requires cfg.windowLength >= 0 && cfg.maxSignals >= 1
    requires Run(trace, steps, entityKey, cfg, p) && k < |trace|
    ensures Awaited(trace[k], i)
  {
    hide Enabled, Apply, WindowProper, PublicationProper, CommitsProper, RanksProper, EmissionsProper;
    if k == 0 {
      assert trace[0].committed == [];
    } else {
      ReachableInv(trace, steps, entityKey, cfg, p, k - 1);
      AlwaysAwaited(trace, steps, entityKey, cfg, p, k - 1, i);
      hide Awaited;
      StaysAwaited(trace[k - 1], steps[k - 1], entityKey, cfg, p, i);
      assert trace[(k - 1) + 1] == Apply(trace[k - 1], steps[k - 1], entityKey, cfg, p);
    }
  }

  /** The start of the stored window, or of the one deleted last. */
  function LastStart(s: State): Option<int> {
    if s.window.Some? then Some(s.window.value.startedAt) else s.floor
  }

  lemma StepMovesStart(s: State, step: Step, entityKey: string, cfg: Config, p: Platform)
    requires cfg.windowLength >= 0 && Enabled(s, step, entityKey)
    ensures Opens(s, step, cfg) ==> LastStart(Apply(s, step, entityKey, cfg, p)) == Some(step.now)
    ensures Opens(s, step, cfg) && LastStart(s).Some? ==> LastStart(s).value < step.now
    ensures !Opens(s, step, cfg) ==> LastStart(Apply(s, step, entityKey, cfg, p)) == LastStart(s)
  {
    hide Score, Sorted, Sources, Categories, SignalTypes, StableId, Eligible;
  }

  lemma RunStep(trace: seq<State>, steps: seq<Step>, entityKey: string, cfg: Config, p: Platform, k: nat)
    requires Run(trace, steps, entityKey, cfg, p) && k + 1 < |trace|
    ensures |trace| == |steps| + 1 && Enabled(trace[k], steps[k], entityKey)
    ensures trace[k + 1] == Apply(trace[k], steps[k], entityKey, cfg, p)
  {
    hide Enabled, Apply;
  }

  lemma {:induction false} StartsNeverFall(trace: seq<State>, steps: seq<Step>, entityKey: string, cfg: Config, p: Platform, i: nat, j: nat)
    requires cfg.windowLength >= 0 && Run(trace, steps, entityKey, cfg, p) && i <= j < |trace|
    requires LastStart(trace[i]).Some?
    ensures LastStart(trace[j]).Some? && LastStart(trace[i]).value <= LastStart(trace[j]).value
  {
    hide *;
    if i < j {
      RunStep(trace, steps, entityKey, cfg, p, j - 1);
      StartsNeverFall(trace, steps, entityKey, cfg, p, i, j - 1);
      StepMovesStart(trace[j - 1], steps[j - 1], entityKey, cfg, p);
    }
  }

  /**
   * Of any two windows of a run the later one starts strictly later, whether or not either of them
   * published anything and however the clock readings in between moved.
   */
  lemma WindowStartsIncrease(trace: seq<State>, steps: seq<Step>, entityKey: string, cfg: Config, p: Platform, i: nat, j: nat)
    requires cfg.windowLength >= 0 && Run(trace, steps, entityKey, cfg, p) && i < j < |steps|
    requires Opens(trace[i], steps[i], cfg) && Opens(trace[j], steps[j], cfg)
    ensures LastStart(trace[i + 1]) == Some(steps[i].now) && LastStart(trace[j + 1]) == Some(steps[j].now)
    ensures steps[i].now < steps[j].now
  {
    StepMovesStart(trace[i], steps[i], entityKey, cfg, p);
    StepMovesStart(trace[j], steps[j], entityKey, cfg, p);
    StartsNeverFall(trace, steps, entityKey, cfg, p, i + 1, j);
    hide Enabled, Apply, LastStart;
  }

  lemma StoredScoreBounded(s: State, entityKey: string, cfg: Config, p: Platform)
    requires Inv(s, entityKey, cfg, p) && s.window.Some?
    ensures s.window.value.riskScore <= 100
  {
    hide Score, PublicationProper, RanksProper, CommitsProper, EmissionsProper;
    ScoreAtMost100(s.window.value.signals);
  }

  /** The buffer invariant in every reachable state, and with it the bound on the stored score. */
  lemma BufferIsConsistent(trace: seq<State>, steps: seq<Step>, entityKey: string, cfg: Config, p: Platform, k: nat)
    requires cfg.windowLength >= 0 && cfg.maxSignals >= 1
    requires Run(trace, steps, entityKey, cfg, p) && k < |trace| && trace[k].window.Some?
    ensures WindowProper(trace[k].window.value, entityKey, cfg, p)
    ensures trace[k].window.value.riskScore <= 100
  {
    ReachableInv(trace, steps, entityKey, cfg, p, k);
    StoredScoreBounded(trace[k], entityKey, cfg, p);
    hide Apply, Enabled, Run, WindowProper, PublicationProper, RanksProper, CommitsProper, EmissionsProper;
  }

  /**
   * Redelivering any observation whose signal is still buffered, while its window lasts, changes
   * nothing and publishes nothing.
   */
  lemma BufferedObservationIsIgnored(trace: seq<State>, steps: seq<Step>, cfg: Config, p: Platform, k: nat,
                                     x: Signal, o: Observation, now: int)
    requires cfg.windowLength >= 0 && cfg.maxSignals >= 1
    requires Run(trace, steps, o.entityKey, cfg, p) && k < |trace| && trace[k].window.Some?
    requires x in trace[k].window.value.signals && x.observationId == o.observationId
    requires now - trace[k].window.value.startedAt <= cfg.windowLength
    ensures Update(trace[k].window, o, now, cfg, p) == (trace[k].window, None)
    ensures Apply(trace[k], Observe(o, now), o.entityKey, cfg, p) == trace[k]
  {
    hide Run, Score, Sorted, Extended, StableId;
    var w := trace[k].window.value;
    BufferIsConsistent(trace, steps, o.entityKey, cfg, p, k);
    var i :| 0 <= i < |w.signals| && w.signals[i] == x;
    assert w.seen[i] == o.observationId;
  }

  /** The signals accepted since the window at moment k was started, in order of acceptance. */
  function Accepted(trace: seq<State>, steps: seq<Step>, k: nat, cfg: Config): seq<Signal>
    requires k < |trace| == |steps| + 1
  {
    if k == 0 then []
    else
      var before := Accepted(trace, steps, k - 1, cfg);
      match steps[k - 1]
      case Expire => []
      case Emit(_) => before
      case Observe(o, now) =>
        if Duplicate(trace[k - 1], o, now, cfg) then before
        else (if Opens(trace[k - 1], steps[k - 1], cfg) then [] else before) + [CompactSignal(o)]
  }

  lemma LastOfLast(s: seq<Signal>, x: Signal, n: int)
    requires n >= 1
    ensures Last(Last(s, n) + [x], n) == Last(s + [x], n)
  {
  }

  /** What one step does to the buffer. */
  lemma StepBuffers(s: State, step: Step, entityKey: string, cfg: Config, p: Platform)
    requires Enabled(s, step, entityKey)
    ensures var s' := Apply(s, step, entityKey, cfg, p);
            match step
            case Expire => s'.window == None
            case Emit(_) => s'.window == s.window
            case Observe(o, now) =>
              if Duplicate(s, o, now, cfg) then s'.window == s.window
              else s'.window.Some? && s'.window.value.signals
                     == Last((if Opens(s, step, cfg) then [] else s.window.value.signals) + [CompactSignal(o)], cfg.maxSignals)
  {
    hide Score, Sorted, Sources, Categories, SignalTypes, StableId, Eligible, Last;
  }

  /** The buffer is the last maxSignals signals accepted in its window. */
  lemma {:induction false} BufferIsLastAccepted(trace: seq<State>, steps: seq<Step>, entityKey: string, cfg: Config, p: Platform, k: nat)
    requires cfg.maxSignals >= 1 && Run(trace, steps, entityKey, cfg, p) && k < |trace| && trace[k].window.Some?
    ensures trace[k].window.value.signals == Last(Accepted(trace, steps, k, cfg), cfg.maxSignals)
  {
    var j := k - 1;
    RunStep(trace, steps, entityKey, cfg, p, j);
    StepBuffers(trace[j], steps[j], entityKey, cfg, p);
    if trace[j].window.Some? {
      BufferIsLastAccepted(trace, steps, entityKey, cfg, p, j);
    }
    hide Enabled, Apply, Duplicate, CompactSignal, Run;
    if steps[j].Observe? && trace[j].window.Some? {
      LastOfLast(Accepted(trace, steps, j, cfg), CompactSignal(steps[j].o), cfg.maxSignals);
    }
  }

  /**
   * Redelivering an observation that its window, still lasting, accepted before changes nothing and
   * publishes nothing exactly as long as fewer than maxSignals others were accepted after it.
   */
  lemma RedeliveryIgnoredExactly(trace: seq<State>, steps: seq<Step>, cfg: Config, p: Platform, k: nat, o: Observation, now: int, n: nat)
    requires cfg.windowLength >= 0 && cfg.maxSignals >= 1
    requires Run(trace, steps, o.entityKey, cfg, p) && k < |trace| && trace[k].window.Some?
    requires now - trace[k].window.value.startedAt <= cfg.windowLength
    requires var accepted := Accepted(trace, steps, k, cfg);
             && n < |accepted| && accepted[n].observationId == o.observationId
             && forall m :: n < m < |accepted| ==> accepted[m].observationId != o.observationId
    ensures Update(trace[k].window, o, now, cfg, p) == (trace[k].window, None)
       <==> |Accepted(trace, steps, k, cfg)| - 1 - n < cfg.maxSignals
  {
    var w, accepted := trace[k].window.value, Accepted(trace, steps, k, cfg);
    hide Run;
    BufferIsConsistent(trace, steps, o.entityKey, cfg, p, k);
    BufferIsLastAccepted(trace, steps, o.entityKey, cfg, p, k);
    SeenExactly(w, accepted, n, o.entityKey, cfg, p);
    IgnoredExactly(w, o, now, cfg, p);
    hide Update, WindowProper, Accepted;
  }

  lemma SeenExactly(w: Window, accepted: seq<Signal>, n: nat, entityKey: string, cfg: Config, p: Platform)
    requires cfg.maxSignals >= 1 && WindowProper(w, entityKey, cfg, p) && w.signals == Last(accepted, cfg.maxSignals)
    requires n < |accepted| && forall m :: n < m < |accepted| ==> accepted[m].observationId != accepted[n].observationId
    ensures accepted[n].observationId in w.seen <==> |accepted| - 1 - n < cfg.maxSignals
  {
    hide Score, Sorted, Sources, Categories, SignalTypes, IncidentIdOf, RiskLevel;
    var dropped := |accepted| - |w.signals|;
    assert forall i :: 0 <= i < |w.signals| ==> w.signals[i] == accepted[dropped + i];
    if |accepted| - 1 - n < cfg.maxSignals {
      assert w.seen[n - dropped] == accepted[n].observationId;
    }
    assert forall i :: 0 <= i < |w.seen| ==> w.seen[i] == accepted[dropped + i].observationId;
  }

  lemma IgnoredExactly(w: Window, o: Observation, now: int, cfg: Config, p: Platform)
    requires cfg.maxSignals >= 1 && now - w.startedAt <= cfg.windowLength
    ensures Update(Some(w), o, now, cfg, p) == (Some(w), None) <==> o.observationId in w.seen
  {
    hide Score, Sorted, Sources, Categories, SignalTypes, IncidentIdOf, RiskLevel, Eligible;
    if o.observationId !in w.seen {
      var after := Extended(w, o, now, cfg, p);
      assert after.seen[|after.seen| - 1] == o.observationId;
    }
  }

  // ---------------------------------------------------------------- with observer weights

  ghost predicate ObserverStep(step: Step) {
    step.Observe? ==> Observed(step.o.severity, step.o.riskWeight)
  }

  ghost predicate ObserverState(s: State) {
    && (s.window.Some? ==> forall i :: 0 <= i < |s.window.value.signals| ==>
          Observed(s.window.value.signals[i].severity, s.window.value.signals[i].riskWeight))
    && (forall i :: 0 <= i < |s.eligible| ==> 3 <= s.eligible[i] <= 5)
  }

  lemma {:induction false} BaseScoreAtLeast(signals: seq<Signal>, x: Signal)
    requires forall i :: 0 <= i < |signals| ==> signals[i].riskWeight >= 0
    ensures BaseScore(signals) >= 0
    ensures x in signals ==> BaseScore(signals) >= x.riskWeight
  {
    if signals != [] {
      assert signals == [signals[0]] + signals[1..];
      BaseScoreAtLeast(signals[1..], x);
    }
  }

  /** With observer weights and a threshold of at least 25, an eligible step has rank at least MEDIUM. */
  lemma EligibleRank(signals: seq<Signal>, cfg: Config)
    requires cfg.threshold >= 25 && Eligible(signals, cfg)
    requires forall i :: 0 <= i < |signals| ==> Observed(signals[i].severity, signals[i].riskWeight)
    ensures SeverityRank(RiskLevel(Score(signals))) >= 3
  {
    forall i | 0 <= i < |signals| ensures signals[i].riskWeight >= 2 && (IsCritical(signals[i].severity) ==> signals[i].riskWeight >= 55) {
      WeightRange(signals[i].severity, signals[i].riskWeight);
    }
    if HasCritical(signals) {
      hide IsCritical, Observed;
      var x :| x in signals && IsCritical(x.severity);
      BaseScoreAtLeast(signals, x);
    }
  }

  lemma StepKeepsObserver(s: State, step: Step, entityKey: string, cfg: Config, p: Platform)
    requires cfg.threshold >= 25 && cfg.maxSignals >= 1
    requires Enabled(s, step, entityKey) && ObserverState(s) && ObserverStep(step)
    ensures ObserverState(Apply(s, step, entityKey, cfg, p))
  {
    hide Observed, Score, Sorted, StableId, Eligible, Sources, Categories, SignalTypes;
    if step.Observe? && !Duplicate(s, step.o, step.now, cfg) {
      var after := Extended(Current(s.window, step.o.entityKey, step.now, cfg, p), step.o, step.now, cfg, p);
      ExtendedPublishes(Current(s.window, step.o.entityKey, step.now, cfg, p), step.o, step.now, cfg, p);
      if Eligible(after.signals, cfg) { EligibleRank(after.signals, cfg); }
    }
  }

  /**
   * With the observer's weights and a threshold of at least 25 (the shipped one is 40), a window
   * commits at most three incidents.
   */
  lemma {:induction false} AtMostThreeIncidents(trace: seq<State>, steps: seq<Step>, entityKey: string, cfg: Config, p: Platform, k: nat)
    requires cfg.windowLength >= 0 && cfg.maxSignals >= 1 && cfg.threshold >= 25
    requires Run(trace, steps, entityKey, cfg, p) && k < |trace|
    requires forall m :: 0 <= m < k ==> ObserverStep(steps[m])
    ensures ObserverState(trace[k])
    ensures trace[k].window.Some? ==> trace[k].window.value.revision <= 3
  {
    hide Apply, Enabled, ObserverStep, WindowProper, MaxRank, Records;
    if k > 0 {
      AtMostThreeIncidents(trace, steps, entityKey, cfg, p, k - 1);
      StepKeepsObserver(trace[k - 1], steps[k - 1], entityKey, cfg, p);
      assert trace[k - 1 + 1] == trace[k];
    }
    ReachableInv(trace, steps, entityKey, cfg, p, k);
    RecordsBounded(trace[k].eligible, 2);
    EmptyRecords();
  }
}
