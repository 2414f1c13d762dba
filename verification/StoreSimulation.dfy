/**
 * The two stores, driven by the same alerts and the same clock, hold the same incidents as
 * long as no lookup lands exactly on the window boundary, where they are seen to differ.
 */
module StoreSimulation {
  import opened Wrappers
  import opened Collections
  import opened Domain
  import opened Correlation
  import opened MemoryStore
  import opened PgTables
  import opened Runs
  import opened PgRuns
  import Sessions

  /** One call on both stores: each lookup has its own answer. */
  datatype Both =
    | BothSubmit(alert: Alert, t1: Time, t2: Time, t3: Time, id: string, topology: Option<TopologySlice>,
                 found: Option<string>, pgFound: Option<string>, read: seq<AlertRow>)
    | BothSetState(id: string, state: IncidentState, at: Time)
  {
    function Mem(): Event {
      match this
      case BothSubmit(alert, t1, t2, _, id, topology, found, _, _) => Submit(alert, t1, t2, id, topology, found)
      case BothSetState(id, state, _) => SetState(id, state)
    }

    function Pg(): PgEvent {
      match this
      case BothSubmit(alert, t1, t2, t3, id, topology, _, pgFound, read) =>
        PgSubmit(alert, t1, t2, t3, id, topology, pgFound, read)
      case BothSetState(id, state, at) => PgSetState(id, state, at)
    }
  }

  function Mems(ps: seq<Both>): seq<Event> {
    seq(|ps|, i requires 0 <= i < |ps| => ps[i].Mem())
  }

  function Pgs(ps: seq<Both>): seq<PgEvent> {
    seq(|ps|, i requires 0 <= i < |ps| => ps[i].Pg())
  }

  /** Some unresolved incident of the key was last alerted exactly the window ago. */
  ghost predicate OnBoundary(m: Incidents, key: string, now: Time, window: Time) {
    exists id :: id in m && m[id].key == key && m[id].state != Resolved && now - m[id].lastAlertAt == window
  }

  ghost predicate NoTies(ps: seq<Both>, window: Time) {
    ps != [] ==>
      && NoTies(Init(ps), window)
      && (Last(ps).BothSubmit? ==> !OnBoundary(Store(Mems(Init(ps))), KeyOf(Last(ps).alert), Last(ps).t2, window))
  }

  // ---- The simulation relation ----

  ghost predicate SameIncident(inc: Incident, row: IncidentRow) {
    && inc.id == row.id && inc.service == row.service && inc.cluster == row.cluster
    && inc.environment == row.environment && inc.severity == row.severity && inc.key == row.key
    && Int32(inc.version) == row.version && inc.state == row.state && inc.createdAt == row.createdAt
    && inc.firstAlertAt == row.firstAlertAt && inc.lastAlertAt == row.lastAlertAt && inc.topology == row.topology
  }

  /** The rows of an incident are the last-wins-by-fingerprint collapse of its alert list. */
  ghost predicate Collapsed(alerts: seq<Alert>, rows: seq<AlertRow>, id: string) {
    forall fingerprint :: RowFor(rows, id, fingerprint) == RowOfLast(id, alerts, fingerprint)
  }

  ghost predicate Simulates(m: Incidents, t: Tables) {
    && WellFormed(t) && Indexed(m)
    && m.Keys == t.incidents.Keys
    && (forall id | id in m :: SameIncident(m[id], t.incidents[id]))
    && (forall id | id in m :: Collapsed(m[id].alerts, t.alerts, id))
  }

  // ---- The lookups ----

  lemma LiveAgrees(inc: Incident, row: IncidentRow, key: string, now: Time, window: Time)
    requires SameIncident(inc, row)
    ensures LiveRow(row, key, now - window) <==> Live(inc, key, now, window) && now - inc.lastAlertAt != window
  {
  }

  /**
   * The two lookups agree if and only if the incident the in-memory one finds is not exactly
   * on the boundary; there the in-memory store still sees it and Postgres does not.
   */
  lemma LookupsAgreeIff(m: Incidents, t: Tables, key: string, now: Time, window: Time, found: Option<string>,
                        pgFound: Option<string>)
    requires Simulates(m, t) && AtMostOneLive(m, key, now, window)
    requires IsLookup(m, key, now, window, found) && IsFind(t.incidents, key, now - window, pgFound)
    ensures found == pgFound <==> !OnBoundary(m, key, now, window)
    ensures OnBoundary(m, key, now, window) ==> found.Some? && pgFound.None?
  {
    forall id | id in m
      ensures LiveRow(t.incidents[id], key, now - window) <==>
              Live(m[id], key, now, window) && now - m[id].lastAlertAt != window
    {
      LiveAgrees(m[id], t.incidents[id], key, now, window);
    }
    if OnBoundary(m, key, now, window) {
      var id :| id in m && m[id].key == key && m[id].state != Resolved && now - m[id].lastAlertAt == window;
      assert Live(m[id], key, now, window);
    }
    if found.Some? {
      assert Live(m[found.value], key, now, window);
    }
    if pgFound.Some? {
      assert LiveRow(t.incidents[pgFound.value], key, now - window);
    }
  }

  // ---- One step ----

  lemma ExtendSimulates(m: Incidents, t: Tables, id: string, read: seq<AlertRow>, alert: Alert, t1: Time, t3: Time)
    requires Simulates(m, t) && id in m && IsRead(t.alerts, id, read)
    ensures var inc := Extended(RowToIncident(t.incidents[id], read), alert, t1);
            Simulates(m[id := Extended(m[id], alert, t1)], SaveTables(t, inc, t3))
  {
    var inc := Extended(RowToIncident(t.incidents[id], read), alert, t1);
    var m', t' := m[id := Extended(m[id], alert, t1)], SaveTables(t, inc, t3);
    SaveWellFormed(t, inc, t3);
    Int32OfSum(m[id].version);
    forall x | x in m' ensures Collapsed(m'[x].alerts, t'.alerts, x) {
      forall fingerprint ensures RowFor(t'.alerts, x, fingerprint) == RowOfLast(x, m'[x].alerts, fingerprint) {
        SaveExtended(t, id, read, alert, x, fingerprint);
        LastOfAppended(id, m[id].alerts, alert, fingerprint);
        assert Collapsed(m[x].alerts, t.alerts, x);
      }
    }
  }

  lemma OpenSimulates(m: Incidents, t: Tables, inc: Incident, t3: Time)
    requires Simulates(m, t) && inc.id !in m
    ensures Simulates(m[inc.id := inc], SaveTables(t, inc, t3))
  {
    var m', t' := m[inc.id := inc], SaveTables(t, inc, t3);
    SaveWellFormed(t, inc, t3);
    forall x | x in m' ensures Collapsed(m'[x].alerts, t'.alerts, x) {
      forall fingerprint ensures RowFor(t'.alerts, x, fingerprint) == RowOfLast(x, m'[x].alerts, fingerprint) {
        UpsertAllKeepsLast(t.alerts, inc.id, inc.alerts, x, fingerprint);
        RowForIsRow(t.alerts, x, fingerprint);
        assert x in m ==> Collapsed(m[x].alerts, t.alerts, x);
      }
    }
  }

  lemma StateSimulates(m: Incidents, t: Tables, id: string, state: IncidentState, at: Time)
    requires Simulates(m, t)
    ensures Simulates(Apply(m, SetState(id, state)), PgApply(t, PgSetState(id, state, at)))
  {
  }

  // ---- Runs ----

  lemma Projections(ps: seq<Both>)
    requires ps != []
    ensures Mems(ps) != [] && Init(Mems(ps)) == Mems(Init(ps)) && Last(Mems(ps)) == Last(ps).Mem()
    ensures Pgs(ps) != [] && Init(Pgs(ps)) == Pgs(Init(ps)) && Last(Pgs(ps)) == Last(ps).Pg()
  {
  }

  lemma ClockAtLookup(es: seq<Event>, e: Event, key: string, window: Time)
    requires Enabled(es, e, window) && e.Submits(key)
    ensures ClockGoesOn(es, key, e.t2)
  {
  }

  lemma StepAgrees(ps: seq<Both>, window: Time)
    requires ps != [] && Last(ps).BothSubmit?
    requires Valid(Mems(ps), window) && PgValid(Pgs(ps), window)
    requires Simulates(Store(Mems(Init(ps))), PgStore(Pgs(Init(ps))))
    ensures Last(ps).found == Last(ps).pgFound <==>
            !OnBoundary(Store(Mems(Init(ps))), KeyOf(Last(ps).alert), Last(ps).t2, window)
  {
    Projections(ps);
    var e := Last(ps);
    ClockAtLookup(Mems(Init(ps)), e.Mem(), KeyOf(e.alert), window);
    Sessions.AtMostOneLiveEver(Mems(Init(ps)), KeyOf(e.alert), window, e.t2);
    LookupsAgreeIff(Store(Mems(Init(ps))), PgStore(Pgs(Init(ps))), KeyOf(e.alert), e.t2, window, e.found, e.pgFound);
  }

  /**
   * In every run in which no lookup lands on the boundary, both stores hold the same
   * incidents, and the alert rows of each are the collapse of its in-memory alert list.
   */
  lemma {:induction false} StoresAgree(ps: seq<Both>, window: Time)
    requires Valid(Mems(ps), window) && PgValid(Pgs(ps), window) && NoTies(ps, window)
    ensures Simulates(Store(Mems(ps)), PgStore(Pgs(ps)))
  {
    if ps != [] {
      Projections(ps);
      StoresAgree(Init(ps), window);
      var m, t, e := Store(Mems(Init(ps))), PgStore(Pgs(Init(ps))), Last(ps);
      match e
      case BothSetState(id, state, at) =>
        StateSimulates(m, t, id, state, at);
      case BothSubmit(alert, t1, t2, t3, id, topology, found, pgFound, read) =>
        StepAgrees(ps, window);
        if found.Some? {
          ExtendSimulates(m, t, found.value, read, alert, t1, t3);
        } else {
          OpenSimulates(m, t, Opened(id, alert, t1, topology), t3);
        }
    }
  }

  lemma {:induction false} PrefixOfBoth(ps: seq<Both>, window: Time, n: nat)
    requires Valid(Mems(ps), window) && PgValid(Pgs(ps), window) && NoTies(ps, window) && n <= |ps|
    ensures Valid(Mems(ps[..n]), window) && PgValid(Pgs(ps[..n]), window) && NoTies(ps[..n], window)
    decreases |ps|
  {
    if n == |ps| {
      assert ps[..n] == ps;
    } else {
      Projections(ps);
      PrefixOfBoth(Init(ps), window, n);
      assert Init(ps)[..n] == ps[..n];
    }
  }

  /** Every lookup of such a run gives the same incident in both stores. */
  lemma LookupsAgree(ps: seq<Both>, window: Time, i: nat)
    requires Valid(Mems(ps), window) && PgValid(Pgs(ps), window) && NoTies(ps, window)
    requires i < |ps| && ps[i].BothSubmit?
    ensures ps[i].found == ps[i].pgFound
  {
    var upto := ps[..i + 1];
    PrefixOfBoth(ps, window, i + 1);
    PrefixOfBoth(ps, window, i);
    assert Init(upto) == ps[..i] && Last(upto) == ps[i];
    StoresAgree(ps[..i], window);
    StepAgrees(upto, window);
  }

  /**
   * The first lookup on the boundary parts the stores: after it the in-memory store has added
   * the alert to an incident it already had, and Postgres has opened a new one.
   */
  lemma TieParts(ps: seq<Both>, window: Time)
    requires ps != [] && Last(ps).BothSubmit? && NoTies(Init(ps), window) && !NoTies(ps, window)
    requires Valid(Mems(ps), window) && PgValid(Pgs(ps), window)
    ensures Store(Mems(ps)).Keys == Store(Mems(Init(ps))).Keys
    ensures PgStore(Pgs(ps)).incidents.Keys == PgStore(Pgs(Init(ps))).incidents.Keys + {Last(ps).id}
    ensures !Simulates(Store(Mems(ps)), PgStore(Pgs(ps)))
  {
    Projections(ps);
    StoresAgree(Init(ps), window);
    var m, t, e := Store(Mems(Init(ps))), PgStore(Pgs(Init(ps))), Last(ps);
    ClockAtLookup(Mems(Init(ps)), e.Mem(), KeyOf(e.alert), window);
    Sessions.AtMostOneLiveEver(Mems(Init(ps)), KeyOf(e.alert), window, e.t2);
    LookupsAgreeIff(m, t, KeyOf(e.alert), e.t2, window, e.found, e.pgFound);
    StoreIndexed(Mems(Init(ps)));
  }

  // ---- A run in which they part ----

  lemma OneSubmission(a: Alert, id: string, window: Time)
    ensures var e := BothSubmit(a, 0, 0, 0, id, None, None, None, []);
            var ps := [e];
            && Mems(ps) == [e.Mem()] && Pgs(ps) == [e.Pg()]
            && Valid(Mems(ps), window) && PgValid(Pgs(ps), window) && NoTies(ps, window)
            && Store(Mems(ps)) == map[id := Opened(id, a, 0, None)]
            && PgStore(Pgs(ps)).incidents == map[id := SavedRow(EMPTY, Opened(id, a, 0, None), 0)]
  {
    var e := BothSubmit(a, 0, 0, 0, id, None, None, None, []);
    assert Init([e]) == [] && Last([e]) == e;
    assert Init([e.Mem()]) == [] && Last([e.Mem()]) == e.Mem();
    assert Init([e.Pg()]) == [] && Last([e.Pg()]) == e.Pg();
  }

  lemma TieAnswers(a: Alert, id: string, key: string, window: Time)
    requires KeyOf(a) == key && window >= 0
    ensures var m := map[id := Opened(id, a, 0, None)];
            OnBoundary(m, key, window, window) && IsLookup(m, key, window, window, Some(id))
    ensures IsFind(map[id := SavedRow(EMPTY, Opened(id, a, 0, None), 0)], key, window - window, None)
  {
    var m := map[id := Opened(id, a, 0, None)];
    assert id in m;
  }

  /**
   * Such runs exist: for any two alerts of a key, the second looked up exactly the window
   * after the first, one store ends with one incident and the other with two.
   */
  lemma StoresCanPart(a: Alert, b: Alert, window: Time) returns (ps: seq<Both>)
    requires KeyOf(a) == KeyOf(b) && window >= 0
    ensures |ps| == 2 && ps[0].BothSubmit? && ps[1].BothSubmit? && ps[0].alert == a && ps[1].alert == b
    ensures ps[0].t1 == ps[0].t2 == 0 && ps[1].t1 == ps[1].t2 == window
    ensures Valid(Mems(ps), window) && PgValid(Pgs(ps), window) && !NoTies(ps, window)
    ensures ps[1].found == Some("i") && ps[1].pgFound == None
    ensures Store(Mems(ps)).Keys == {"i"} && PgStore(Pgs(ps)).incidents.Keys == {"i", "j"}
  {
    var first := BothSubmit(a, 0, 0, 0, "i", None, None, None, []);
    var second := BothSubmit(b, window, window, window, "j", None, Some("i"), None, []);
    ps := [first, second];
    assert Init(ps) == [first] && Last(ps) == second;
    OneSubmission(a, "i", window);
    TieAnswers(a, "i", KeyOf(b), window);
    Projections(ps);
    assert !NoTies(ps, window);
  }

  ghost predicate AlwaysSimulates(ps: seq<Both>) {
    Simulates(Store(Mems(ps)), PgStore(Pgs(ps))) && (ps != [] ==> AlwaysSimulates(Init(ps)))
  }

  /** The stores agree all along a run if and only if none of its lookups lands on the boundary. */
  lemma {:induction false} StoresAgreeIff(ps: seq<Both>, window: Time)
    requires Valid(Mems(ps), window) && PgValid(Pgs(ps), window)
    ensures AlwaysSimulates(ps) <==> NoTies(ps, window)
  {
    if ps == [] {
      StoresAgree(ps, window);
    } else {
      Projections(ps);
      StoresAgreeIff(Init(ps), window);
      if NoTies(ps, window) {
        StoresAgree(ps, window);
      } else if NoTies(Init(ps), window) {
        TieParts(ps, window);
      }
    }
  }
}
