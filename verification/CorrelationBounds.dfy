/** Runs that meet the bounds on the incidents of one window. */
module CorrelationBounds {
  import opened Identifiers
  import opened CorrelationWindow
  import opened CorrelationRuns
  import opened Observer

  // ---------------------------------------------------------------- four observations, each a level higher

  function Id(n: nat): string {
    seq(n, _ => 'x')
  }

  function Weight(n: nat): int {
    if n == 0 || n == 3 then 24 else 14
  }

  /** The n-th observation; the first one's severity is the caller's. */
  function Rising(entityKey: string, severity: string, n: nat): Observation {
    Observation(Id(n), "", "", entityKey, "", Weight(n),
                if n == 0 then severity else if n == 3 then "MEDIUM" else "LOW", "trivy", "", "")
  }

  function RisingSignals(entityKey: string, severity: string, n: nat): seq<Signal> {
    if n == 0 then [] else RisingSignals(entityKey, severity, n - 1) + [CompactSignal(Rising(entityKey, severity, n - 1))]
  }

  function Ids(n: nat): seq<string> {
    if n == 0 then [] else Ids(n - 1) + [Id(n - 1)]
  }

  /** The scores reached: LOW, MEDIUM, HIGH and CRITICAL. */
  function RisingScore(n: nat): int {
    if n == 1 then 24 else if n == 2 then 41 else if n == 3 then 58 else 85
  }

  lemma {:induction false} RisingShape(entityKey: string, severity: string, n: nat)
    ensures |RisingSignals(entityKey, severity, n)| == n == |Ids(n)|
    ensures forall x :: x in RisingSignals(entityKey, severity, n) ==> x.source == "trivy" && x.category == ""
    ensures forall i :: 0 <= i < n ==> Ids(n)[i] == Id(i)
    ensures Id(n) !in Ids(n)
  {
    if n > 0 {
      RisingShape(entityKey, severity, n - 1);
    }
    assert forall i :: 0 <= i < n ==> |Id(i)| == i != |Id(n)|;
  }

  lemma {:induction false} RisingWeights(entityKey: string, severity: string, n: nat)
    requires n <= 4
    ensures BaseScore(RisingSignals(entityKey, severity, n))
         == if n == 0 then 0 else if n == 1 then 24 else if n == 2 then 38 else if n == 3 then 52 else 76
  {
    if n > 0 {
      RisingWeights(entityKey, severity, n - 1);
      var x := CompactSignal(Rising(entityKey, severity, n - 1));
      BaseScoreConcat(RisingSignals(entityKey, severity, n - 1), [x]);
      assert BaseScore([x]) == x.riskWeight by { assert [x][1..] == []; }
    }
  }

  lemma RisingScores(entityKey: string, severity: string, n: nat)
    requires 1 <= n <= 4
    ensures Score(RisingSignals(entityKey, severity, n)) == RisingScore(n)
    ensures SeverityRank(RiskLevel(RisingScore(n))) == n + 1
  {
    RisingShape(entityKey, severity, n);
    RisingWeights(entityKey, severity, n);
    UniformScore(RisingSignals(entityKey, severity, n), "trivy", "");
    hide Score, BaseScore;
  }

  predicate EligibleAt(n: nat, critical: bool, cfg: Config) {
    critical || (RisingScore(n) >= cfg.threshold && n >= cfg.minSignals)
  }

  lemma {:induction false} RisingCritical(entityKey: string, severity: string, n: nat)
    requires n >= 1
    ensures HasCritical(RisingSignals(entityKey, severity, n)) <==> IsCritical(severity)
  {
    var x := CompactSignal(Rising(entityKey, severity, n - 1));
    assert !IsCritical("LOW") && !IsCritical("MEDIUM");
    hide IsCritical;
    assert x in RisingSignals(entityKey, severity, n);
    if n > 1 {
      RisingCritical(entityKey, severity, n - 1);
      assert forall y :: y in RisingSignals(entityKey, severity, n - 1) ==> y in RisingSignals(entityKey, severity, n);
    } else {
      assert RisingSignals(entityKey, severity, 1) == [x];
    }
  }

  lemma RisingEligible(entityKey: string, severity: string, n: nat, cfg: Config)
    requires 1 <= n <= 4
    ensures Eligible(RisingSignals(entityKey, severity, n), cfg) <==> EligibleAt(n, IsCritical(severity), cfg)
  {
    RisingShape(entityKey, severity, n);
    RisingScores(entityKey, severity, n);
    RisingCritical(entityKey, severity, n);
    hide Score, HasCritical, IsCritical, RisingScore;
  }

  /** How many of the first n observations are published. */
  function Published(n: nat, critical: bool, cfg: Config): nat {
    if n == 0 then 0 else Published(n - 1, critical, cfg) + if EligibleAt(n, critical, cfg) then 1 else 0
  }

  // ---------------------------------------------------------------- the run

  /** The window after n of the observations, all read at clock 0. */
  predicate Risen(s: State, entityKey: string, severity: string, n: nat, cfg: Config) {
    if n == 0 then s == INITIAL
    else
      && s.window.Some? && s.window.value.startedAt == 0
      && s.window.value.signals == RisingSignals(entityKey, severity, n) && s.window.value.seen == Ids(n)
      && s.window.value.lastPublishedRank <= n + 1
      && s.window.value.revision == Published(n, IsCritical(severity), cfg)
  }

  /** What is added to a window with room, and when it publishes. */
  lemma ObservedWindow(s: State, o: Observation, w: Window, entityKey: string, cfg: Config, p: Platform)
    requires Enabled(s, Observe(o, 0), entityKey) && w == Current(s.window, o.entityKey, 0, cfg, p)
    requires o.observationId !in w.seen && |w.signals| < cfg.maxSignals && |w.seen| < cfg.maxSignals
    ensures var after := Apply(s, Observe(o, 0), entityKey, cfg, p).window;
            && after.Some? && after.value.startedAt == w.startedAt
            && after.value.signals == w.signals + [CompactSignal(o)] && after.value.seen == w.seen + [o.observationId]
            && var rank := SeverityRank(RiskLevel(Score(after.value.signals)));
            && var publish := Eligible(after.value.signals, cfg) && rank > w.lastPublishedRank;
            && after.value.lastPublishedRank == (if publish then rank else w.lastPublishedRank)
            && after.value.revision == w.revision + (if publish then 1 else 0)
  {
    hide Score, Eligible, StableId, Sources, Categories, SignalTypes, RiskLevel, SeverityRank, CompactSignal;
  }

  /** The window that the next observation is added to. */
  lemma RisenCurrent(s: State, entityKey: string, severity: string, n: nat, cfg: Config, p: Platform)
    requires cfg.windowLength >= 0 && Risen(s, entityKey, severity, n, cfg)
    ensures var w := Current(s.window, entityKey, 0, cfg, p);
            && w.startedAt == 0 && w.signals == RisingSignals(entityKey, severity, n) && w.seen == Ids(n)
            && w.lastPublishedRank <= n + 1 && w.revision == Published(n, IsCritical(severity), cfg)
  {
    hide IsCritical, EligibleAt;
  }

  lemma RisingNext(entityKey: string, severity: string, n: nat, cfg: Config)
    ensures RisingSignals(entityKey, severity, n + 1) == RisingSignals(entityKey, severity, n) + [CompactSignal(Rising(entityKey, severity, n))]
    ensures Ids(n + 1) == Ids(n) + [Id(n)] && Rising(entityKey, severity, n).observationId == Id(n)
    ensures var critical := IsCritical(severity);
            Published(n + 1, critical, cfg) == Published(n, critical, cfg) + if EligibleAt(n + 1, critical, cfg) then 1 else 0
  {
    hide IsCritical, EligibleAt, Id, Weight, CompactSignal;
  }

  lemma RisesOnce(s: State, entityKey: string, severity: string, n: nat, cfg: Config, p: Platform)
    requires n < 4 <= cfg.maxSignals && cfg.windowLength >= 0 && Risen(s, entityKey, severity, n, cfg)
    ensures Enabled(s, Observe(Rising(entityKey, severity, n), 0), entityKey)
    ensures Risen(Apply(s, Observe(Rising(entityKey, severity, n), 0), entityKey, cfg, p), entityKey, severity, n + 1, cfg)
  {
    var w := Current(s.window, entityKey, 0, cfg, p);
    RisingShape(entityKey, severity, n);
    RisingScores(entityKey, severity, n + 1);
    RisingEligible(entityKey, severity, n + 1, cfg);
    RisenCurrent(s, entityKey, severity, n, cfg, p);
    RisingNext(entityKey, severity, n, cfg);
    hide Score, Eligible, IsCritical, EligibleAt, RisingScore, RisingSignals, Ids, Published, Id, Weight;
    hide Current, Apply, CompactSignal, RiskLevel, SeverityRank, BaseScore;
    ObservedWindow(s, Rising(entityKey, severity, n), w, entityKey, cfg, p);
  }

  lemma {:induction false} RisingRun(entityKey: string, severity: string, n: nat, cfg: Config, p: Platform)
    returns (trace: seq<State>, steps: seq<Step>)
    requires n <= 4 <= cfg.maxSignals && cfg.windowLength >= 0
    ensures Run(trace, steps, entityKey, cfg, p) && |steps| == n
    ensures Risen(trace[n], entityKey, severity, n, cfg)
    ensures forall k :: 0 <= k < n ==> steps[k] == Observe(Rising(entityKey, severity, k), 0)
  {
    if n == 0 {
      trace, steps := [INITIAL], [];
    } else {
      hide *;
      var before, so := RisingRun(entityKey, severity, n - 1, cfg, p);
      var step := Observe(Rising(entityKey, severity, n - 1), 0);
      RunLength(before, so, entityKey, cfg, p);
      RisesOnce(before[n - 1], entityKey, severity, n - 1, cfg, p);
      ExtendRun(before, so, step, entityKey, cfg, p);
      trace, steps := before + [Apply(before[n - 1], step, entityKey, cfg, p)], so + [step];
    }
  }

  lemma RunLength(trace: seq<State>, steps: seq<Step>, entityKey: string, cfg: Config, p: Platform)
    requires Run(trace, steps, entityKey, cfg, p)
    ensures |trace| == |steps| + 1
  {
    hide Enabled, Apply;
  }

  lemma ExtendRun(trace: seq<State>, steps: seq<Step>, step: Step, entityKey: string, cfg: Config, p: Platform)
    requires Run(trace, steps, entityKey, cfg, p) && Enabled(trace[|steps|], step, entityKey)
    ensures Run(trace + [Apply(trace[|steps|], step, entityKey, cfg, p)], steps + [step], entityKey, cfg, p)
  {
    hide Enabled, Apply;
  }

  lemma PublishedCounts(critical: bool, cfg: Config)
    ensures critical ==> Published(4, critical, cfg) == 4
    ensures !critical && 25 <= cfg.threshold <= 41 && cfg.minSignals <= 2 ==> Published(4, critical, cfg) == 3
    ensures cfg.threshold <= 24 && cfg.minSignals <= 1 ==> Published(4, critical, cfg) == 4
  {
    assert Published(4, critical, cfg) == Published(3, critical, cfg) + if EligibleAt(4, critical, cfg) then 1 else 0;
    assert Published(3, critical, cfg) == Published(2, critical, cfg) + if EligibleAt(3, critical, cfg) then 1 else 0;
    assert Published(2, critical, cfg) == Published(1, critical, cfg) + if EligibleAt(2, critical, cfg) then 1 else 0;
    assert Published(1, critical, cfg) == Published(0, critical, cfg) + if EligibleAt(1, critical, cfg) then 1 else 0;
  }

  // ---------------------------------------------------------------- main results

  lemma CriticalIsCritical()
    ensures IsCritical("CRITICAL")
  {
  }

  /** Four incidents under any threshold, when a critical signal weighs little. */
  lemma FourIncidentsReached(entityKey: string, cfg: Config, p: Platform) returns (trace: seq<State>, steps: seq<Step>)
    requires cfg.maxSignals >= 4 && cfg.windowLength >= 0
    ensures Run(trace, steps, entityKey, cfg, p) && |trace| == 5
    ensures trace[4].window.Some? && trace[4].window.value.revision == 4
  {
    trace, steps := RisingRun(entityKey, "CRITICAL", 4, cfg, p);
    CriticalIsCritical();
    PublishedCounts(true, cfg);
    hide Run, IsCritical, Published;
  }

  /**
   * The observer's weights reach three incidents under a threshold from 25 to 41, as shipped, and four
   * under a lower one, if that many signals are enough.
   */
  lemma ObservedIncidentsReached(entityKey: string, cfg: Config, p: Platform) returns (trace: seq<State>, steps: seq<Step>)
    requires cfg.maxSignals >= 4 && cfg.windowLength >= 0
    ensures Run(trace, steps, entityKey, cfg, p) && |trace| == 5 && forall k :: 0 <= k < 4 ==> ObserverStep(steps[k])
    ensures trace[4].window.Some?
    ensures 25 <= cfg.threshold <= 41 && cfg.minSignals <= 2 ==> trace[4].window.value.revision == 3
    ensures cfg.threshold <= 24 && cfg.minSignals <= 1 ==> trace[4].window.value.revision == 4
  {
    trace, steps := RisingRun(entityKey, "MEDIUM", 4, cfg, p);
    assert !IsCritical("MEDIUM");
    PublishedCounts(false, cfg);
    hide Run, IsCritical, Published;
    forall k | 0 <= k < 4 ensures ObserverStep(steps[k]) {
      RisingIsObserved(entityKey, k);
    }
  }

  lemma RisingIsObserved(entityKey: string, k: nat)
    requires k < 4
    ensures ObserverStep(Observe(Rising(entityKey, "MEDIUM", k), 0))
  {
    var o := Rising(entityKey, "MEDIUM", k);
    assert o.riskWeight == RiskWeight(o.severity, "trivy");
    assert !IsCritical("LOW") && !IsCritical("MEDIUM");
  }

  ghost predicate ObservedRun(trace: seq<State>, steps: seq<Step>, entityKey: string, cfg: Config, p: Platform) {
    Run(trace, steps, entityKey, cfg, p) && forall m :: 0 <= m < |steps| ==> ObserverStep(steps[m])
  }

  predicate MoreThanThree(s: State) {
    s.window.Some? && s.window.value.revision > 3
  }

  ghost predicate NeverMoreThanThree(entityKey: string, cfg: Config, p: Platform) {
    forall trace: seq<State>, steps: seq<Step>, k: nat ::
      ObservedRun(trace, steps, entityKey, cfg, p) && k < |trace| ==> !MoreThanThree(trace[k])
  }

  /** When a single signal can be enough, three is the bound exactly for thresholds of at least 25. */
  lemma ThreeIncidentsExactly(entityKey: string, cfg: Config, p: Platform)
    requires cfg.maxSignals >= 4 && cfg.windowLength >= 0 && cfg.minSignals <= 1
    ensures NeverMoreThanThree(entityKey, cfg, p) <==> cfg.threshold >= 25
  {
    hide Run, ObserverStep;
    if cfg.threshold >= 25 {
      forall trace: seq<State>, steps: seq<Step>, k: nat | ObservedRun(trace, steps, entityKey, cfg, p) && k < |trace|
        ensures !MoreThanThree(trace[k])
      {
        RunLength(trace, steps, entityKey, cfg, p);
        AtMostThreeIncidents(trace, steps, entityKey, cfg, p, k);
      }
    } else {
      var trace, steps := ObservedIncidentsReached(entityKey, cfg, p);
      RunLength(trace, steps, entityKey, cfg, p);
      assert ObservedRun(trace, steps, entityKey, cfg, p) && MoreThanThree(trace[4]);
    }
  }
}
