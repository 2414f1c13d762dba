/**
 * The correlator over the in-memory store. The ghost log of what it has done is a
 * sequential run, so every theorem about runs is about this object.
 */
module Correlator {
  import opened Wrappers
  import opened Collections
  import opened Domain
  import opened Correlation
  import opened LabelReading
  import opened IncidentFields
  import opened MemoryStore
  import opened Runs
  import Lexicographic

  /** The incident with the alert at its end, recorded now; only the severity may change besides, if it is greater. */
  ghost predicate Appended(found: Incident, alert: Alert, now: Time, inc: Incident) {
    && inc.alerts == found.alerts + [alert] && inc.version == found.version + 1
    && inc.lastAlertAt == now && inc.updatedAt == now
    && inc.id == found.id && inc.service == found.service && inc.cluster == found.cluster
    && inc.environment == found.environment && inc.key == found.key && inc.state == found.state
    && inc.createdAt == found.createdAt && inc.firstAlertAt == found.firstAlertAt && inc.topology == found.topology
    && (inc.severity == found.severity || IsSeverityOf(alert.labels, inc.severity))
    && !Lexicographic.Less(inc.severity, found.severity)
    && forall s | IsSeverityOf(alert.labels, s) :: !Lexicographic.Less(inc.severity, s)
  }

  lemma ExtendedAppends(found: Incident, alert: Alert, now: Time)
    ensures Appended(found, alert, now, Extended(found, alert, now))
  {
    var s := SeverityOf(alert);
    SeverityIsRead(alert, s);
    Lexicographic.Trichotomy(found.severity, s);
    Lexicographic.Trichotomy(s, s);
    Lexicographic.Trichotomy(found.severity, found.severity);
    forall t | IsSeverityOf(alert.labels, t) ensures t == s {
      SeverityIsRead(alert, t);
    }
  }

  /** The incident to save: a new one, or the one found, changed field by field. */
  method NextIncident(found: Option<Incident>, alert: Alert, now: Time, id: string, topology: Option<TopologySlice>)
    returns (inc: Incident)
    ensures inc == if found.Some? then Extended(found.value, alert, now) else Opened(id, alert, now, topology)
    ensures found.None? ==>
              var e := Submit(alert, now, now, id, topology, None);
              OpenedBy(inc, e) && MovedTo(inc, [alert], e, Open) && IsSeverityOf(alert.labels, inc.severity)
    ensures found.Some? ==> Appended(found.value, alert, now, inc)
  {
    if found.None? {
      inc := Opened(id, alert, now, topology);
      OpenedReads(Submit(alert, now, now, id, topology, None));
      SeverityIsRead(alert, inc.severity);
      return;
    }
    inc := found.value;
    inc := inc.(alerts := inc.alerts + [alert]);
    inc := inc.(lastAlertAt := now);
    inc := inc.(updatedAt := now);
    var s := SeverityOf(alert);
    if Lexicographic.Less(inc.severity, s) {
      inc := inc.(severity := s);
    }
    inc := inc.(version := inc.version + 1);
    ExtendedAppends(found.value, alert, now);
  }

  class Correlator {
    const window: Time
    const store: InMemoryIncidentStore
    ghost var log: seq<Event>

    /** The store holds what the logged run leaves. */
    ghost predicate Tracked()
      reads this, store
    {
      Runs.Valid(log, window) && store.incidents == Store(log)
    }

    constructor (store: InMemoryIncidentStore, window: Time)
      requires store.incidents == map[]
      ensures this.store == store && this.window == window && log == []
      ensures Tracked() && store.Valid()
    {
      this.store := store;
      this.window := window;
      log := [];
    }

    /**
     * Processes one alert. `t1` and `t2` are the clock readings of the correlator and of the
     * store's lookup, `id` is what the identifier source would draw and `topology` what the
     * graph answers.
     */
    method ProcessAlert(alert: Alert, t1: Time, t2: Time, id: string, topology: Option<TopologySlice>)
      requires store.Valid()
      modifies this`log, store
      ensures store.Valid()
      ensures log != [] && Init(log) == old(log)
      ensures Last(log).Submit? && Last(log) == Submit(alert, t1, t2, id, topology, Last(log).found)
      ensures IsLookup(old(store.incidents), KeyOf(alert), t2, window, Last(log).found)
      ensures store.incidents == Apply(old(store.incidents), Last(log))
      ensures old(Tracked()) && t1 <= t2 && ClockGoesOn(old(log), KeyOf(alert), t1) && id !in old(store.incidents) ==>
                Tracked()
    {
      var key := KeyOf(alert);
      var found := store.FindOpenByCorrelationKey(key, window, t2);
      ghost var e := Submit(alert, t1, t2, id, topology, if found.Some? then Some(found.value.id) else None);
      log := log + [e];
      assert Init(log) == old(log);

      var inc := NextIncident(found, alert, t1, id, topology);
      store.Save(inc);
    }
  }
}
