/**
 * Sequential runs over the in-memory store: alerts processed one after the other, and an
 * environment that moves incidents between states. What the source leaves open (the drawn
 * identifier, the answer of the lookup, the clock readings) is carried by the events, and
 * `Enabled` says which values the source could have produced.
 */
module Runs {
  import opened Wrappers
  import opened Collections
  import opened Domain
  import opened Correlation
  import opened MemoryStore
  import Lexicographic

  datatype Event =
    | Submit(alert: Alert, t1: Time, t2: Time, id: string, topology: Option<TopologySlice>, found: Option<string>)
    | SetState(id: string, state: IncidentState)
  {
    predicate Submits(key: string) {
      Submit? && KeyOf(alert) == key
    }

    /** The incident a submission is written to. */
    function Home(): string
      requires Submit?
    {
      if found.Some? then found.value else id
    }
  }

  /** The incident a submission saves, given what its lookup returned. */
  function Saved(base: Option<Incident>, e: Event): Incident
    requires e.Submit?
  {
    if base.None? then Opened(e.id, e.alert, e.t1, e.topology) else Extended(base.value, e.alert, e.t1)
  }

  function Base(m: Incidents, found: Option<string>): Option<Incident> {
    if found.Some? && found.value in m then Some(m[found.value]) else None
  }

  function Apply(m: Incidents, e: Event): Incidents {
    match e
    case Submit(_, _, _, _, _, found) =>
      var inc := Saved(Base(m, found), e);
      m[inc.id := inc]
    case SetState(id, state) =>
      if id in m then m[id := m[id].(state := state)] else m
  }

  function Store(es: seq<Event>): Incidents {
    if es == [] then map[] else Apply(Store(Init(es)), Last(es))
  }

  /** A call on a key starts after the earlier calls on that key have done their lookups. */
  ghost predicate ClockGoesOn(es: seq<Event>, key: string, now: Time) {
    forall i | 0 <= i < |es| && es[i].Submits(key) :: es[i].t2 <= now
  }

  /** What the source could have produced, if identifiers may be drawn twice. */
  ghost predicate Answered(es: seq<Event>, e: Event, window: Time) {
    match e
    case Submit(alert, t1, t2, _, _, found) =>
      && t1 <= t2
      && ClockGoesOn(es, KeyOf(alert), t1)
      && IsLookup(Store(es), KeyOf(alert), t2, window, found)
    case SetState(id, state) =>
      id in Store(es) && Store(es)[id].state == Resolved ==> state == Resolved
  }

  ghost predicate DrawsFresh(es: seq<Event>, e: Event) {
    e.Submit? && e.found.None? ==> e.id !in Store(es)
  }

  ghost predicate Enabled(es: seq<Event>, e: Event, window: Time) {
    Answered(es, e, window) && DrawsFresh(es, e)
  }

  ghost predicate Valid(es: seq<Event>, window: Time) {
    es != [] ==> Valid(Init(es), window) && Enabled(Init(es), Last(es), window)
  }

  lemma {:induction false} ValidPrefix(es: seq<Event>, window: Time, n: nat)
    requires Valid(es, window) && n <= |es|
    ensures Valid(es[..n], window)
    decreases |es|
  {
    if n == |es| {
      assert es[..n] == es;
    } else {
      ValidPrefix(Init(es), window, n);
      assert Init(es)[..n] == es[..n];
    }
  }

  lemma {:induction false} StoreIndexed(es: seq<Event>)
    ensures Indexed(Store(es))
  {
    if es != [] {
      StoreIndexed(Init(es));
    }
  }

  // ---- What each incident records about its alerts ----

  function Severities(alerts: seq<Alert>): seq<string> {
    seq(|alerts|, i requires 0 <= i < |alerts| => SeverityOf(alerts[i]))
  }

  ghost predicate RecordsItsAlerts(inc: Incident) {
    && inc.alerts != []
    && inc.version == |inc.alerts|
    && inc.severity == Lexicographic.MaxOf(Severities(inc.alerts))
    && (forall a | a in inc.alerts :: KeyOf(a) == inc.key)
    && inc.service == ScopeOf(inc.alerts[0]).service
    && inc.cluster == ScopeOf(inc.alerts[0]).cluster
    && inc.firstAlertAt == inc.alerts[0].startsAt
  }

  lemma ExtendedRecords(inc: Incident, alert: Alert, now: Time)
    requires RecordsItsAlerts(inc) && KeyOf(alert) == inc.key
    ensures RecordsItsAlerts(Extended(inc, alert, now))
  {
    var after := Extended(inc, alert, now);
    var ss := Severities(after.alerts);
    assert ss[..|ss| - 1] == Severities(inc.alerts);
  }

  lemma {:induction false} StoreRecords(es: seq<Event>, window: Time)
    requires Valid(es, window)
    ensures forall id | id in Store(es) :: RecordsItsAlerts(Store(es)[id])
  {
    if es != [] {
      StoreRecords(Init(es), window);
      var m, e := Store(Init(es)), Last(es);
      if e.Submit? {
        if e.found.Some? {
          ExtendedRecords(m[e.found.value], e.alert, e.t1);
        } else {
          var first := Opened(e.id, e.alert, e.t1, e.topology);
          assert Severities(first.alerts) == [SeverityOf(e.alert)];
          assert RecordsItsAlerts(first);
        }
      }
    }
  }

  /**
   * The severity of an incident is the maximum, in string order, of the severities of its
   * alerts, whatever the order they came in.
   */
  lemma SeverityIsMaximum(es: seq<Event>, window: Time, id: string, inAnyOrder: seq<Alert>)
    requires Valid(es, window) && id in Store(es)
    requires inAnyOrder != [] && multiset(Severities(inAnyOrder)) == multiset(Severities(Store(es)[id].alerts))
    ensures Lexicographic.IsMaximum(Store(es)[id].severity, Severities(Store(es)[id].alerts))
    ensures Store(es)[id].severity == Lexicographic.MaxOf(Severities(inAnyOrder))
  {
    StoreRecords(es, window);
    var ss := Severities(Store(es)[id].alerts);
    assert RecordsItsAlerts(Store(es)[id]);
    Lexicographic.MaxOfIsMaximum(ss);
    Lexicographic.MaxOfIgnoresOrder(ss, Severities(inAnyOrder));
  }

  lemma GradedAlerts(alerts: seq<Alert>)
    requires alerts != [] && forall a | a in alerts :: Graded(SeverityOf(a))
    ensures IsMostUrgent(Lexicographic.MaxOf(Severities(alerts)), Severities(alerts)) <==>
            || (forall a | a in alerts :: SeverityOf(a) != "critical")
            || (forall a | a in alerts :: SeverityOf(a) == "critical")
  {
    var ss := Severities(alerts);
    forall i | 0 <= i < |ss| ensures alerts[i] in alerts && ss[i] == SeverityOf(alerts[i]) {}
    forall a | a in alerts ensures SeverityOf(a) in ss {
      var i :| 0 <= i < |alerts| && alerts[i] == a;
      assert ss[i] == SeverityOf(a);
    }
    GreatestIsMostUrgentIff(ss);
  }

  /**
   * So an incident whose alerts are graded has the most urgent of their severities if and only
   * if none of them is critical, or all are.
   */
  lemma SeverityIsMostUrgentIff(es: seq<Event>, window: Time, id: string)
    requires Valid(es, window) && id in Store(es)
    requires forall a | a in Store(es)[id].alerts :: Graded(SeverityOf(a))
    ensures var inc := Store(es)[id];
            IsMostUrgent(inc.severity, Severities(inc.alerts)) <==>
            || (forall a | a in inc.alerts :: SeverityOf(a) != "critical")
            || (forall a | a in inc.alerts :: SeverityOf(a) == "critical")
  {
    StoreRecords(es, window);
    assert RecordsItsAlerts(Store(es)[id]);
    GradedAlerts(Store(es)[id].alerts);
  }

  /**
   * When no submitted cluster or namespace holds a '/', all alerts of an incident have its
   * recorded cluster and service, and one namespace.
   */
  lemma IncidentsAreHomogeneous(es: seq<Event>, window: Time, id: string, a: Alert)
    requires Valid(es, window) && id in Store(es) && a in Store(es)[id].alerts
    requires forall b | b in Store(es)[id].alerts :: SlashFree(ScopeOf(b).cluster) && SlashFree(ScopeOf(b).namespace)
    ensures ScopeOf(a).cluster == Store(es)[id].cluster && ScopeOf(a).service == Store(es)[id].service
    ensures ScopeOf(a).namespace == ScopeOf(Store(es)[id].alerts[0]).namespace
  {
    StoreRecords(es, window);
    var inc := Store(es)[id];
    assert RecordsItsAlerts(inc);
    assert inc.alerts[0] in inc.alerts;
    KeyIdentifiesScope(a, inc.alerts[0]);
  }

  // ---- Conservation ----

  /** A step keeps every alert every incident holds. */
  ghost predicate KeepsAlerts(m: Incidents, n: Incidents) {
    forall id | id in m :: id in n && m[id].alerts <= n[id].alerts
  }

  lemma StepKeepsAlerts(es: seq<Event>, window: Time)
    requires es != [] && Valid(es, window)
    ensures KeepsAlerts(Store(Init(es)), Store(es))
  {
    StoreIndexed(Init(es));
  }

  /** Every submission of a run is held, ever after, by the incident it was written to. */
  lemma {:induction false} SubmissionsAreHeld(es: seq<Event>, window: Time, i: nat)
    requires Valid(es, window) && i < |es| && es[i].Submit?
    ensures es[i].Home() in Store(es) && es[i].alert in Store(es)[es[i].Home()].alerts
    decreases |es|
  {
    if i < |es| - 1 {
      SubmissionsAreHeld(Init(es), window, i);
      StepKeepsAlerts(es, window);
      var id, a := es[i].Home(), es[i].alert;
      var before, after := Store(Init(es))[id].alerts, Store(es)[id].alerts;
      var j :| 0 <= j < |before| && before[j] == a;
      assert after[j] == a;
    } else {
      StoreIndexed(Init(es));
      var alerts := Saved(Base(Store(Init(es)), es[i].found), es[i]).alerts;
      assert alerts[|alerts| - 1] == es[i].alert;
    }
  }

  // ---- Identifiers drawn twice ----

  ghost predicate AllAnswered(es: seq<Event>, window: Time) {
    es != [] ==> AllAnswered(Init(es), window) && Answered(Init(es), Last(es), window)
  }

  /** Every identifier was unused when an incident was opened under it. */
  ghost predicate AllFresh(es: seq<Event>) {
    es != [] ==> AllFresh(Init(es)) && DrawsFresh(Init(es), Last(es))
  }

  lemma {:induction false} ValidIff(es: seq<Event>, window: Time)
    ensures Valid(es, window) <==> AllAnswered(es, window) && AllFresh(es)
  {
    if es != [] {
      ValidIff(Init(es), window);
    }
  }

  function AlertsAt(m: Incidents, id: string): nat {
    if id in m then |m[id].alerts| else 0
  }

  /** How many alerts all incidents hold together. */
  ghost function AlertCount(m: Incidents): int {
    Sum(m.Keys, id => AlertsAt(m, id))
  }

  function Submissions(es: seq<Event>): nat {
    if es == [] then 0 else Submissions(Init(es)) + if Last(es).Submit? then 1 else 0
  }

  lemma CountAfter(m: Incidents, id: string, inc: Incident)
    ensures AlertCount(m[id := inc]) == AlertCount(m) - AlertsAt(m, id) + |inc.alerts|
  {
    var m' := m[id := inc];
    var f, f' := x => AlertsAt(m, x), x => AlertsAt(m', x);
    SumTake(m'.Keys, f', id);
    assert m'.Keys - {id} == m.Keys - {id};
    SumSame(m.Keys - {id}, f, f');
    if id in m {
      SumTake(m.Keys, f, id);
    } else {
      assert m.Keys - {id} == m.Keys;
    }
  }

  lemma {:induction false} IncidentsHaveAlerts(es: seq<Event>)
    ensures forall id | id in Store(es) :: Store(es)[id].alerts != []
  {
    if es != [] {
      IncidentsHaveAlerts(Init(es));
    }
  }

  /** Each step adds its submission to the count, but takes away those of an incident it overwrites. */
  lemma StepCounts(es: seq<Event>, window: Time)
    requires es != [] && Answered(Init(es), Last(es), window)
    ensures var m, e := Store(Init(es)), Last(es);
            AlertCount(Store(es)) == AlertCount(m) + (if e.Submit? then 1 else 0)
                                     - if e.Submit? && e.found.None? then AlertsAt(m, e.id) else 0
  {
    var m, e := Store(Init(es)), Last(es);
    StoreIndexed(Init(es));
    match e
    case Submit(_, _, _, _, _, found) =>
      CountAfter(m, e.Home(), Saved(Base(m, found), e));
    case SetState(id, state) =>
      if id in m {
        CountAfter(m, id, m[id].(state := state));
      }
  }

  /**
   * Identifiers are drawn from a clock, and may repeat. The incidents never hold more alerts
   * than were submitted, and they hold as many if and only if every incident was opened under
   * an identifier that was not in use: a repeated one overwrites an incident with its alerts.
   */
  lemma {:induction false} AllAreHeldIff(es: seq<Event>, window: Time)
    requires AllAnswered(es, window)
    ensures AlertCount(Store(es)) <= Submissions(es)
    ensures AlertCount(Store(es)) == Submissions(es) <==> AllFresh(es)
  {
    if es != [] {
      AllAreHeldIff(Init(es), window);
      StepCounts(es, window);
      IncidentsHaveAlerts(Init(es));
    }
  }

  /** With one identifier drawn for two keys, the first alert is in no incident. */
  lemma RepeatedIdLosesAlert(a: Alert, b: Alert, window: Time) returns (es: seq<Event>)
    requires KeyOf(a) != KeyOf(b)
    ensures |es| == 2 && es[0].Submit? && es[1].Submit? && es[0].alert == a && es[1].alert == b && es[0].id == es[1].id
    ensures AllAnswered(es, window) && !AllFresh(es)
    ensures forall id | id in Store(es) :: a !in Store(es)[id].alerts
  {
    var first, second := Submit(a, 0, 0, "i", None, None), Submit(b, 0, 0, "i", None, None);
    es := [first, second];
    assert Init(es) == [first] && Init([first]) == [];
    assert Store([first]) == map["i" := Opened("i", a, 0, None)];
    assert Store(es) == map["i" := Opened("i", b, 0, None)];
  }
}
