/** The correlation agent's window of one entity: buffer, dedupe list, score and publication. */
module CorrelationWindow {
  import opened Prelude
  import opened StringOrder
  import opened Identifiers

  datatype Config = Config(windowLength: int, minSignals: int, threshold: int, maxSignals: int, stateTtl: int)

  /** source and category are read from the finding; details are the fields only copied along. */
  datatype Observation = Observation(
    observationId: string,
    findingId: string,
    observedAt: string,
    entityKey: string,
    signalType: string,
    riskWeight: int,
    severity: string,
    source: string,
    category: string,
    details: string)

  datatype Signal = Signal(
    observationId: string,
    findingId: string,
    observedAt: string,
    source: string,
    category: string,
    severity: string,
    signalType: string,
    riskWeight: int,
    details: string)

  datatype Level = Low | Medium | High | Critical

  datatype Window = Window(
    entityKey: string,
    startedAt: int,
    lastSeenAt: int,
    expiresAt: int,
    signals: seq<Signal>,
    seen: seq<string>,
    sources: seq<string>,
    categories: seq<string>,
    signalTypes: seq<string>,
    riskScore: int,
    riskLevel: Level,
    lastPublishedRank: int,
    revision: int,
    incidentId: string)

  datatype Incident = Incident(
    incidentId: string,
    revision: int,
    createdAt: int,
    startedAt: int,
    entityKey: string,
    riskScore: int,
    riskLevel: Level,
    signals: seq<Signal>,
    sources: seq<string>,
    categories: seq<string>,
    signalTypes: seq<string>)

  function CompactSignal(o: Observation): Signal {
    Signal(o.observationId, o.findingId, o.observedAt, o.source, o.category, o.severity, o.signalType, o.riskWeight, o.details)
  }

  // ---------------------------------------------------------------- score

  function RiskLevel(score: int): Level {
    if score >= 80 then Critical else if score >= 50 then High else if score >= 25 then Medium else Low
  }

  function SeverityRank(l: Level): int {
    match l case Low => 2 case Medium => 3 case High => 4 case Critical => 5
  }

  function Sources(signals: seq<Signal>): set<string> { set x | x in signals :: x.source }

  function Categories(signals: seq<Signal>): set<string> { set x | x in signals :: x.category }

  function SignalTypes(signals: seq<Signal>): set<string> { set x | x in signals :: x.signalType }

  function BaseScore(signals: seq<Signal>): int {
    if signals == [] then 0 else signals[0].riskWeight + BaseScore(signals[1..])
  }

  function Bonus(sources: nat, signals: nat, categories: nat): int {
    (if sources >= 2 then 12 else 0) + Min(12, Max(0, signals - 1) * 3) + Min(8, Max(0, categories - 1) * 4)
  }

  function Score(signals: seq<Signal>): int {
    Min(100, BaseScore(signals) + Bonus(|Sources(signals)|, |signals|, |Categories(signals)|))
  }

  /** severity.upper() == "CRITICAL"; besides the capitals' own lower case, a dotless i is raised to I. */
  predicate IsCritical(severity: string) {
    |severity| == 8 && forall i :: 0 <= i < 8 ==> Raise(severity[i]) == "CRITICAL"[i]
  }

  function Raise(c: char): char {
    if 'a' <= c <= 'z' then (c as int - 32) as char else if c == '\U{0131}' then 'I' else c
  }

  predicate HasCritical(signals: seq<Signal>) {
    exists x :: x in signals && IsCritical(x.severity)
  }

  /** What must hold, besides a higher rank, for an incident to be published. */
  predicate Eligible(signals: seq<Signal>, cfg: Config) {
    HasCritical(signals) || (Score(signals) >= cfg.threshold && |signals| >= cfg.minSignals)
  }

  // ---------------------------------------------------------------- one observation

  /** The slice s[-n:], whose start is clamped to the list and which keeps everything for n = 0. */
  function Last<T>(s: seq<T>, n: int): seq<T> {
    if n == 0 then s
    else if n > 0 then (if |s| <= n then s else s[|s| - n..])
    else s[Min(-n, |s|)..]
  }

  /** A bound keeps trailing elements: that many, all of them when it is zero, all but that many when it is negative. */
  lemma LastExactly<T>(s: seq<T>, n: int)
    ensures |Last(s, n)| == if n > 0 then Min(n, |s|) else if n == 0 then |s| else Max(0, |s| + n)
    ensures |Last(s, n)| <= |s| && Last(s, n) == s[|s| - |Last(s, n)|..]
  {
  }

  predicate Expired(w: Option<Window>, now: int, cfg: Config) {
    w.None? || now - w.value.startedAt > cfg.windowLength
  }

  /** The window an observation is added to: the stored one, or an empty one starting now. */
  function Current(w: Option<Window>, entityKey: string, now: int, cfg: Config, p: Platform): Window {
    if Expired(w, now, cfg)
    then Window(entityKey, now, now, now, [], [], [], [], [], 0, Low, 0, 0, IncidentIdOf(entityKey, now, p))
    else w.value
  }

  function IncidentIdOf(entityKey: string, startedAt: int, p: Platform): string {
    StableId(p, "incident", [entityKey, p.format(startedAt)])
  }

  /** The stored window after an observation that was not a duplicate. */
  function Extended(w: Window, o: Observation, now: int, cfg: Config, p: Platform): Window {
    var signals := Last(w.signals + [CompactSignal(o)], cfg.maxSignals);
    var score := Score(signals);
    var rank := SeverityRank(RiskLevel(score));
    var publish := Eligible(signals, cfg) && rank > w.lastPublishedRank;
    Window(
      o.entityKey, w.startedAt, now, now + cfg.stateTtl, signals, Last(w.seen + [o.observationId], cfg.maxSignals),
      Sorted(Sources(signals)), Sorted(Categories(signals)), Sorted(SignalTypes(signals)), score, RiskLevel(score),
      if publish then rank else w.lastPublishedRank, if publish then w.revision + 1 else w.revision,
      IncidentIdOf(o.entityKey, w.startedAt, p))
  }

  function IncidentFrom(w: Window, now: int): Incident {
    Incident(w.incidentId, w.revision, now, w.startedAt, w.entityKey, w.riskScore, w.riskLevel,
             w.signals, w.sources, w.categories, w.signalTypes)
  }

  /** The transaction: the document afterwards and the incident to publish, if any. */
  function Update(w: Option<Window>, o: Observation, now: int, cfg: Config, p: Platform): (Option<Window>, Option<Incident>) {
    var current := Current(w, o.entityKey, now, cfg, p);
    if o.observationId in current.seen then (w, None)
    else
      var after := Extended(current, o, now, cfg, p);
      (Some(after), if after.revision > current.revision then Some(IncidentFrom(after, now)) else None)
  }

  /** The document of one entity, updated in place. */
  class CorrelationDocument {
    var window: Option<Window>

    constructor ()
      ensures window == None
    {
      window := None;
    }

    method UpdateCorrelationWindow(o: Observation, now: int, cfg: Config, p: Platform) returns (incident: Option<Incident>)
      modifies this
      ensures (window, incident) == Update(old(window), o, now, cfg, p)
    {
      hide StableId, Score, Sorted, Eligible, Sources, Categories, SignalTypes;
      var startedAt: int;
      var signals: seq<Signal> := [];
      var seen: seq<string> := [];
      var lastPublishedRank, revision := 0, 0;
      var expired := window.None? || now - window.value.startedAt > cfg.windowLength;
      if expired {
        startedAt := now;
      } else {
        startedAt := window.value.startedAt;
        signals := window.value.signals;
        seen := window.value.seen;
        lastPublishedRank := window.value.lastPublishedRank;
        revision := window.value.revision;
      }
      if o.observationId in seen {
        return None;
      }
      signals := signals + [CompactSignal(o)];
      signals := Last(signals, cfg.maxSignals);
      seen := seen + [o.observationId];
      seen := Last(seen, cfg.maxSignals);
      var score := Score(signals);
      var level := RiskLevel(score);
      var currentRank := SeverityRank(level);
      var publish := Eligible(signals, cfg) && currentRank > lastPublishedRank;
      if publish {
        revision := revision + 1;
        lastPublishedRank := currentRank;
      }
      var state := Window(o.entityKey, startedAt, now, now + cfg.stateTtl, signals, seen,
                          Sorted(Sources(signals)), Sorted(Categories(signals)), Sorted(SignalTypes(signals)), score, level,
                          lastPublishedRank, revision, IncidentIdOf(o.entityKey, startedAt, p));
      window := Some(state);
      return if publish then Some(IncidentFrom(state, now)) else None;
    }
  }

  /** The buffered signal says of the observation who, what, when and how much it weighs. */
  lemma SignalSays(o: Observation)
    ensures var x := CompactSignal(o);
            && x.observationId == o.observationId && x.findingId == o.findingId && x.observedAt == o.observedAt
            && x.source == o.source && x.category == o.category && x.severity == o.severity
            && x.signalType == o.signalType && x.riskWeight == o.riskWeight
  {
  }

  // ---------------------------------------------------------------- which window an observation joins

  predicate PublishesAbove(rank: int, signals: seq<Signal>, cfg: Config) {
    Eligible(signals, cfg) && SeverityRank(RiskLevel(Score(signals))) > rank
  }

  /**
   * An observation with no window, or more than the window length after its start, starts a window of
   * its own: one signal, one id, a start and an incident id of now, and a publication counted from zero.
   * A negative bound keeps neither the signal nor the id, as the slice it stands in does.
   */
  lemma LateObservationStartsWindow(w: Option<Window>, o: Observation, now: int, cfg: Config, p: Platform)
    requires w.Some? ==> now - w.value.startedAt > cfg.windowLength
    ensures var (after, incident) := Update(w, o, now, cfg, p);
            && after.Some? && after.value.startedAt == now && after.value.entityKey == o.entityKey
            && after.value.signals == (if cfg.maxSignals >= 0 then [CompactSignal(o)] else [])
            && after.value.seen == (if cfg.maxSignals >= 0 then [o.observationId] else [])
            && after.value.lastSeenAt == now && after.value.expiresAt == now + cfg.stateTtl
            && after.value.incidentId == StableId(p, "incident", [o.entityKey, p.format(now)])
            && (incident.Some? <==> Eligible(after.value.signals, cfg))
            && after.value.revision == (if incident.Some? then 1 else 0)
            && after.value.lastPublishedRank == (if incident.Some? then SeverityRank(after.value.riskLevel) else 0)
  {
    hide Score, Eligible, Sorted, Sources, Categories, SignalTypes, StableId;
    assert [] + [CompactSignal(o)] == [CompactSignal(o)] && [] + [o.observationId] == [o.observationId];
  }

  /** Within the window length a new observation joins the stored window, which keeps its start. */
  lemma TimelyObservationJoins(w: Window, o: Observation, now: int, cfg: Config, p: Platform)
    requires now - w.startedAt <= cfg.windowLength && o.observationId !in w.seen
    ensures var (after, incident) := Update(Some(w), o, now, cfg, p);
            && after.Some? && after.value.startedAt == w.startedAt && after.value.entityKey == o.entityKey
            && after.value.signals == Last(w.signals + [CompactSignal(o)], cfg.maxSignals)
            && after.value.seen == Last(w.seen + [o.observationId], cfg.maxSignals)
            && after.value.lastSeenAt == now && after.value.expiresAt == now + cfg.stateTtl
            && after.value.incidentId == StableId(p, "incident", [o.entityKey, p.format(w.startedAt)])
            && (incident.Some? <==> PublishesAbove(w.lastPublishedRank, after.value.signals, cfg))
            && after.value.revision == w.revision + (if incident.Some? then 1 else 0)
            && after.value.lastPublishedRank == (if incident.Some? then SeverityRank(after.value.riskLevel) else w.lastPublishedRank)
  {
    hide Score, Eligible, Sorted, Sources, Categories, SignalTypes, StableId, Last;
  }

  /** Within the window length an id on the dedupe list changes nothing and publishes nothing. */
  lemma SeenObservationIsIgnored(w: Window, o: Observation, now: int, cfg: Config, p: Platform)
    requires now - w.startedAt <= cfg.windowLength && o.observationId in w.seen
    ensures Update(Some(w), o, now, cfg, p) == (Some(w), None)
  {
    hide Score, Eligible, Sorted, Sources, Categories, SignalTypes, StableId, Last;
  }

  /** A published incident carries the window as it is stored, with its own level as severity. */
  lemma IncidentIsTheWindow(w: Option<Window>, o: Observation, now: int, cfg: Config, p: Platform)
    ensures var (after, incident) := Update(w, o, now, cfg, p);
            incident.Some? ==>
              var x := incident.value;
              && after.Some? && x.incidentId == after.value.incidentId && x.revision == after.value.revision
              && x.createdAt == now && x.startedAt == after.value.startedAt && x.entityKey == o.entityKey
              && x.signals == after.value.signals && x.riskScore == Score(x.signals) && x.riskLevel == RiskLevel(Score(x.signals))
              && (forall y :: y in x.sources <==> exists z :: z in x.signals && z.source == y)
              && (forall y :: y in x.categories <==> exists z :: z in x.signals && z.category == y)
              && (forall y :: y in x.signalTypes <==> exists z :: z in x.signals && z.signalType == y)
  {
    hide Score, Eligible, StableId, Last;
  }

  // ---------------------------------------------------------------- when it publishes

  /** The text critical in any case, a dotless i included. */
  predicate SpellsCritical(s: string) {
    && |s| == 8 && s[0] in {'c', 'C'} && s[1] in {'r', 'R'} && s[2] in {'i', 'I', '\U{0131}'} && s[3] in {'t', 'T'}
    && s[4] in {'i', 'I', '\U{0131}'} && s[5] in {'c', 'C'} && s[6] in {'a', 'A'} && s[7] in {'l', 'L'}
  }

  lemma CriticalInAnyCase(s: string)
    ensures IsCritical(s) <==> SpellsCritical(s)
  {
    var capitals := "CRITICAL";
    if |s| == 8 {
      RaisedTo(s[0], 'C');
      RaisedTo(s[1], 'R');
      RaisedTo(s[2], 'I');
      RaisedTo(s[3], 'T');
      RaisedTo(s[4], 'I');
      RaisedTo(s[5], 'C');
      RaisedTo(s[6], 'A');
      RaisedTo(s[7], 'L');
      hide Raise;
      assert IsCritical(s) ==> Raise(s[0]) == 'C' && Raise(s[1]) == 'R' && Raise(s[2]) == 'I' && Raise(s[3]) == 'T';
      assert IsCritical(s) ==> Raise(s[4]) == 'I' && Raise(s[5]) == 'C' && Raise(s[6]) == 'A' && Raise(s[7]) == 'L';
    }
  }

  lemma RaisedTo(c: char, capital: char)
    requires 'A' <= capital <= 'Z'
    ensures Raise(c) == capital <==> c == capital || c as int == capital as int + 32 || (capital == 'I' && c == '\U{0131}')
  {
  }

  /** The rank of a score, as a number. */
  function RankOfScore(score: int): int {
    if score < 25 then 2 else if score < 50 then 3 else if score < 80 then 4 else 5
  }

  /**
   * An observation that is not ignored is published exactly when the window it leaves ranks above every
   * rank published for it so far, and holds a critical signal or has both score and signals enough.
   */
  lemma PublishedExactly(w: Option<Window>, o: Observation, now: int, cfg: Config, p: Platform)
    requires w.Some? && now - w.value.startedAt <= cfg.windowLength ==> o.observationId !in w.value.seen
    ensures var (after, incident) := Update(w, o, now, cfg, p);
            && after.Some?
            && var a, before := after.value, if w.Some? && now - w.value.startedAt <= cfg.windowLength then w.value.lastPublishedRank else 0;
            && a.riskScore == Score(a.signals)
            && (incident.Some? <==>
                  && RankOfScore(a.riskScore) > before
                  && ((exists x :: x in a.signals && SpellsCritical(x.severity)) || (a.riskScore >= cfg.threshold && |a.signals| >= cfg.minSignals)))
            && a.lastPublishedRank == if incident.Some? then RankOfScore(a.riskScore) else before
  {
    hide Score, Sorted, Sources, Categories, SignalTypes, StableId, Last, IsCritical, SpellsCritical;
    forall x: Signal ensures IsCritical(x.severity) <==> SpellsCritical(x.severity) {
      CriticalInAnyCase(x.severity);
    }
  }

  // ---------------------------------------------------------------- properties of the score

  lemma ScoreAtMost100(signals: seq<Signal>)
    ensures Score(signals) <= 100
  {
  }

  lemma {:induction false} BaseScoreConcat(a: seq<Signal>, b: seq<Signal>)
    ensures BaseScore(a + b) == BaseScore(a) + BaseScore(b)
  {
    if a == [] {
      assert a + b == b;
    } else {
      assert (a + b)[1..] == a[1..] + b;
      BaseScoreConcat(a[1..], b);
    }
  }

  lemma RemoveAt(s: seq<Signal>, j: nat)
    requires j < |s|
    ensures multiset(s[..j] + s[j + 1..]) == multiset(s) - multiset{s[j]}
  {
    assert s == s[..j] + [s[j]] + s[j + 1..];
  }

  lemma {:induction false} BaseScoreRemove(s: seq<Signal>, j: nat)
    requires j < |s|
    ensures BaseScore(s) == s[j].riskWeight + BaseScore(s[..j] + s[j + 1..])
  {
    var rest := s[..j] + s[j + 1..];
    if j == 0 {
      assert rest == s[1..];
    } else {
      BaseScoreRemove(s[1..], j - 1);
      assert s[1..][..j - 1] + s[1..][j..] == rest[1..];
    }
  }

  lemma {:induction false} BaseScorePermutes(a: seq<Signal>, b: seq<Signal>)
    requires multiset(a) == multiset(b)
    ensures BaseScore(a) == BaseScore(b)
    decreases |a|
  {
    hide BaseScore;
    if a == [] {
      assert |multiset(b)| == |b|;
    } else {
      var j := Occurrence(a, b);
      var a', b' := a[..0] + a[1..], b[..j] + b[j + 1..];
      BaseScoreRemove(a, 0);
      BaseScoreRemove(b, j);
      assert multiset(a') == multiset(b') by {
        RemoveAt(a, 0);
        RemoveAt(b, j);
      }
      BaseScorePermutes(a', b');
    }
  }

  lemma Occurrence(a: seq<Signal>, b: seq<Signal>) returns (j: nat)
    requires a != [] && multiset(a) == multiset(b)
    ensures j < |b| && b[j] == a[0]
  {
    SameMembers(a, b);
    assert a[0] in b;
    j :| 0 <= j < |b| && b[j] == a[0];
  }

  /** Arrival order is irrelevant: score, level, sets and eligibility depend only on which signals are buffered. */
  lemma ScoreIgnoresOrder(a: seq<Signal>, b: seq<Signal>, cfg: Config)
    requires multiset(a) == multiset(b)
    ensures Score(a) == Score(b) && Eligible(a, cfg) == Eligible(b, cfg)
    ensures Sources(a) == Sources(b) && Categories(a) == Categories(b) && SignalTypes(a) == SignalTypes(b)
  {
    BaseScorePermutes(a, b);
    assert |multiset(a)| == |a| && |multiset(b)| == |b|;
    SameMembers(a, b);
    assert Sources(a) == Sources(b) && Categories(a) == Categories(b) && SignalTypes(a) == SignalTypes(b);
  }

  lemma SameMembers(a: seq<Signal>, b: seq<Signal>)
    requires multiset(a) == multiset(b)
    ensures forall x :: x in a <==> x in b
  {
    forall x ensures x in a <==> x in b {
      assert x in a <==> x in multiset(a);
      assert x in b <==> x in multiset(b);
    }
  }

  lemma SubsetCardinality(a: set<string>, b: set<string>)
    requires a <= b
    ensures |a| <= |b|
  {
    assert b == a + (b - a);
  }

  /** While the buffer has room, a signal of nonnegative weight never lowers score, rank or eligibility. */
  lemma SignalNeverLowersScore(signals: seq<Signal>, x: Signal, cfg: Config)
    requires x.riskWeight >= 0
    requires cfg.maxSignals >= 1 && |signals| < cfg.maxSignals
    ensures Last(signals + [x], cfg.maxSignals) == signals + [x]
    ensures Score(signals) <= Score(signals + [x])
    ensures SeverityRank(RiskLevel(Score(signals))) <= SeverityRank(RiskLevel(Score(signals + [x])))
    ensures Eligible(signals, cfg) ==> Eligible(signals + [x], cfg)
  {
    BaseScoreConcat(signals, [x]);
    assert [x][1..] == [];
    assert BaseScore([x]) == x.riskWeight;
    SubsetCardinality(Sources(signals), Sources(signals + [x]));
    SubsetCardinality(Categories(signals), Categories(signals + [x]));
    BonusMonotone(|Sources(signals)|, |Sources(signals + [x])|, |signals|, |Categories(signals)|, |Categories(signals + [x])|);
    if HasCritical(signals) {
      var y :| y in signals && IsCritical(y.severity);
      assert y in signals + [x];
    }
  }

  lemma BonusMonotone(sources: nat, sources': nat, signals: nat, categories: nat, categories': nat)
    requires sources <= sources' && categories <= categories'
    ensures Bonus(sources, signals, categories) <= Bonus(sources', signals + 1, categories')
  {
  }

  // ---------------------------------------------------------------- the score, spelled out

  predicate SeveralSources(signals: seq<Signal>) {
    exists x, y :: x in signals && y in signals && x.source != y.source
  }

  predicate TwoCategories(signals: seq<Signal>) {
    exists x, y :: x in signals && y in signals && x.category != y.category
  }

  predicate ThreeCategories(signals: seq<Signal>) {
    exists x, y, z :: x in signals && y in signals && z in signals
      && x.category != y.category && y.category != z.category && x.category != z.category
  }

  lemma TwoOf(s: set<string>)
    ensures |s| >= 2 <==> exists x, y :: x in s && y in s && x != y
  {
    if |s| >= 2 {
      var x :| x in s;
      assert |s - {x}| == |s| - 1;
      var y :| y in s - {x};
    }
    if x, y :| x in s && y in s && x != y {
      SubsetCardinality({x, y}, s);
    }
  }

  lemma ThreeOf(s: set<string>)
    ensures |s| >= 3 <==> exists x, y, z :: x in s && y in s && z in s && x != y && y != z && x != z
  {
    if |s| >= 3 {
      var x :| x in s;
      assert |s - {x}| == |s| - 1;
      var y :| y in s - {x};
      assert |s - {x} - {y}| == |s| - 2;
      var z :| z in s - {x} - {y};
    }
    if x, y, z :| x in s && y in s && z in s && x != y && y != z && x != z {
      SubsetCardinality({x, y, z}, s);
    }
  }

  lemma SourcesSeveral(signals: seq<Signal>)
    ensures |Sources(signals)| >= 2 <==> SeveralSources(signals)
  {
    TwoOf(Sources(signals));
    if x, y :| x in signals && y in signals && x.source != y.source {
      assert x.source in Sources(signals) && y.source in Sources(signals);
    }
  }

  lemma CategoriesTwo(signals: seq<Signal>)
    ensures |Categories(signals)| >= 2 <==> TwoCategories(signals)
  {
    TwoOf(Categories(signals));
    if x, y :| x in signals && y in signals && x.category != y.category {
      assert x.category in Categories(signals) && y.category in Categories(signals);
    }
  }

  lemma CategoryHasSignal(signals: seq<Signal>, c: string) returns (x: Signal)
    requires c in Categories(signals)
    ensures x in signals && x.category == c
  {
    x :| x in signals && x.category == c;
  }

  lemma CategoriesThree(signals: seq<Signal>)
    ensures |Categories(signals)| >= 3 <==> ThreeCategories(signals)
  {
    var all := Categories(signals);
    forall x | x in signals ensures x.category in all {}
    hide Categories;
    ThreeOf(all);
    if |all| >= 3 {
      var a, b, c :| a in all && b in all && c in all && a != b && b != c && a != c;
      var x := CategoryHasSignal(signals, a);
      var y := CategoryHasSignal(signals, b);
      var z := CategoryHasSignal(signals, c);
      assert x in signals && y in signals && z in signals;
    }
  }

  /**
   * The score before it is capped at 100: the weights, twelve for a second source, three for each of up to
   * four further signals, and four each for a second and a third category.
   */
  lemma ScoreExactly(signals: seq<Signal>)
    ensures var total := BaseScore(signals)
              + (if SeveralSources(signals) then 12 else 0)
              + (if |signals| == 0 then 0 else if |signals| <= 5 then 3 * (|signals| - 1) else 12)
              + (if TwoCategories(signals) then 4 else 0) + (if ThreeCategories(signals) then 4 else 0);
            Score(signals) == if total > 100 then 100 else total
  {
    SourcesSeveral(signals);
    CategoriesTwo(signals);
    CategoriesThree(signals);
    hide BaseScore, Sources, Categories, SeveralSources, TwoCategories, ThreeCategories;
  }

  /** The weights are added up: nothing for no signal, and one signal's own weight for one more. */
  lemma WeightsAddUp(signals: seq<Signal>, x: Signal)
    ensures BaseScore([]) == 0 && BaseScore(signals + [x]) == BaseScore(signals) + x.riskWeight
  {
    BaseScoreConcat(signals, [x]);
    assert [x][1..] == [];
  }

  /** The level of a score: MEDIUM from 25, HIGH from 50, CRITICAL from 80, in this order. */
  lemma LevelExactly(score: int)
    ensures SeverityRank(RiskLevel(score)) >= 3 <==> score >= 25
    ensures SeverityRank(RiskLevel(score)) >= 4 <==> score >= 50
    ensures SeverityRank(RiskLevel(score)) >= 5 <==> score >= 80
    ensures 2 <= SeverityRank(RiskLevel(score)) <= 5
    ensures RiskLevel(score) == Medium <==> SeverityRank(RiskLevel(score)) == 3
    ensures RiskLevel(score) == High <==> SeverityRank(RiskLevel(score)) == 4
  {
  }

  // ---------------------------------------------------------------- a full buffer

  /** A signal that differs from others of its kind in its weight alone. */
  function Weighing(weight: int): Signal {
    Signal("", "", "", "", "", "", "", weight, "")
  }

  function Weightless(n: nat): (signals: seq<Signal>)
    ensures |signals| == n && forall i :: 0 <= i < n ==> signals[i] == Weighing(0)
  {
    if n == 0 then [] else [Weighing(0)] + Weightless(n - 1)
  }

  lemma {:induction false} WeightlessScore(n: nat)
    ensures BaseScore(Weightless(n)) == 0
  {
    if n > 0 { WeightlessScore(n - 1); }
  }

  /** With one source and one category only the number of signals adds to the weights. */
  lemma UniformScore(signals: seq<Signal>, source: string, category: string)
    requires signals != [] && forall x :: x in signals ==> x.source == source && x.category == category
    ensures Score(signals) == Min(100, BaseScore(signals) + Bonus(1, |signals|, 1))
  {
    hide BaseScore, Bonus, Sources, Categories, Min;
    UniformSets(signals, source, category);
    assert |{source}| == 1 && |{category}| == 1;
  }

  lemma UniformSets(signals: seq<Signal>, source: string, category: string)
    requires signals != [] && forall x :: x in signals ==> x.source == source && x.category == category
    ensures Sources(signals) == {source} && Categories(signals) == {category}
  {
    assert signals[0] in signals;
    assert signals[0].source in Sources(signals) && signals[0].category in Categories(signals);
  }

  lemma SlidWeights(n: nat)
    requires n >= 1
    ensures BaseScore([Weighing(1)] + Weightless(n - 1)) == 1
    ensures BaseScore(Weightless(n - 1) + [Weighing(0)]) == 0
  {
    WeightlessScore(n - 1);
    assert ([Weighing(1)] + Weightless(n - 1))[1..] == Weightless(n - 1);
    BaseScoreConcat(Weightless(n - 1), [Weighing(0)]);
    assert [Weighing(0)][1..] == [];
  }

  lemma OneSourceBonus(n: nat)
    ensures 0 <= Bonus(1, n, 1) <= 12
  {
  }

  /** A full buffer of any size drops its oldest signal, and if the new one weighs less the score falls. */
  lemma FullBufferCanLowerScore(cfg: Config)
    requires cfg.maxSignals >= 1
    ensures var buffer := [Weighing(1)] + Weightless(cfg.maxSignals - 1);
            |buffer| == cfg.maxSignals && Score(Last(buffer + [Weighing(0)], cfg.maxSignals)) < Score(buffer)
  {
    hide Score, BaseScore, Weightless, Bonus;
    var n := cfg.maxSignals;
    var buffer, after := [Weighing(1)] + Weightless(n - 1), Weightless(n - 1) + [Weighing(0)];
    SlidWeights(n);
    UniformScore(buffer, "", "");
    UniformScore(after, "", "");
    OneSourceBonus(n);
    assert Last(buffer + [Weighing(0)], n) == after;
  }

  lemma WeighsNothing()
    ensures Weighing(0).riskWeight == 0
  {
  }

  /** No signal of nonnegative weight lowers the score of any buffer of this length. */
  ghost predicate NeverLowers(length: nat, cfg: Config) {
    forall signals: seq<Signal>, x: Signal ::
      |signals| == length && x.riskWeight >= 0 ==> Score(signals) <= Score(Last(signals + [x], cfg.maxSignals))
  }

  /** Adding a signal is safe for the score exactly as long as the buffer has room. */
  lemma NeverLowersExactly(length: nat, cfg: Config)
    requires cfg.maxSignals >= 1 && length <= cfg.maxSignals
    ensures NeverLowers(length, cfg) <==> length < cfg.maxSignals
  {
    hide Score, Last, Eligible, RiskLevel, SeverityRank, Weightless, Weighing;
    if length < cfg.maxSignals {
      forall signals: seq<Signal>, x: Signal | |signals| == length && x.riskWeight >= 0
        ensures Score(signals) <= Score(Last(signals + [x], cfg.maxSignals))
      {
        SignalNeverLowersScore(signals, x, cfg);
      }
    } else {
      FullBufferCanLowerScore(cfg);
      WeighsNothing();
    }
  }
}
