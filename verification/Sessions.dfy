/**
 * Online correlation equals offline sessionization. `Sessions` splits the alerts of one key
 * without any store: a new session starts when the gap to the last alert exceeds the window,
 * or the last session was resolved. The incidents of that key are exactly these sessions.
 */
module Sessions {
  import opened Wrappers
  import opened Collections
  import opened Domain
  import opened Correlation
  import opened MemoryStore
  import opened Runs

  datatype Session = Session(id: string, alerts: seq<Alert>, last: Time, resolved: bool)

  predicate Joins(ss: seq<Session>, t2: Time, window: Time) {
    ss != [] && !Last(ss).resolved && t2 - Last(ss).last <= window
  }

  function Closing(ss: seq<Session>, id: string, state: IncidentState): seq<Session> {
    seq(|ss|, i requires 0 <= i < |ss| =>
      if ss[i].id == id && state == Resolved then ss[i].(resolved := true) else ss[i])
  }

  /** The offline definition. It reads no store and ignores what lookups found. */
  function Sessions(es: seq<Event>, key: string, window: Time): seq<Session> {
    if es == [] then [] else
    var ss := Sessions(Init(es), key, window);
    match Last(es)
    case SetState(id, state) => Closing(ss, id, state)
    case Submit(alert, t1, t2, id, _, _) =>
      if KeyOf(alert) != key then ss
      else if Joins(ss, t2, window) then Init(ss) + [Last(ss).(alerts := Last(ss).alerts + [alert], last := t1)]
      else ss + [Session(id, [alert], t1, false)]
  }

  /** The lookup time of the latest submission of a key (0 before the first one). */
  function Clock(es: seq<Event>, key: string): Time {
    if es == [] then 0 else
    if Last(es).Submits(key) then Last(es).t2 else Clock(Init(es), key)
  }

  lemma {:induction false} ClockIsLatest(es: seq<Event>, key: string, now: Time)
    requires ClockGoesOn(es, key, now)
    ensures (exists i :: 0 <= i < |es| && es[i].Submits(key)) ==> Clock(es, key) <= now
  {
    if es != [] && !Last(es).Submits(key) {
      assert forall i | 0 <= i < |Init(es)| :: Init(es)[i] == es[i];
      ClockIsLatest(Init(es), key, now);
    }
  }

  /** The incident that holds a session. */
  ghost predicate Holds(m: Incidents, key: string, s: Session) {
    && s.id in m
    && m[s.id].key == key
    && m[s.id].alerts == s.alerts
    && m[s.id].lastAlertAt == s.last
    && (m[s.id].state == Resolved <==> s.resolved)
  }

  /** The incidents of a key are its sessions, one each; every session but the last is over. */
  ghost predicate Agrees(m: Incidents, key: string, ss: seq<Session>, clock: Time, window: Time) {
    && (forall s | s in ss :: Holds(m, key, s))
    && (forall id | id in m && m[id].key == key :: exists s :: s in ss && s.id == id)
    && (forall i, j | 0 <= i < j < |ss| :: ss[i].id != ss[j].id)
    && (forall i | 0 <= i < |ss| - 1 :: ss[i].resolved || clock - ss[i].last > window)
    && (forall s | s in ss :: s.last <= clock)
  }

  /** Once a session is over no later lookup sees it, so only the last one can be found. */
  lemma LookupSeesLastSession(m: Incidents, key: string, ss: seq<Session>, clock: Time, now: Time, window: Time)
    requires Agrees(m, key, ss, clock, window) && (ss != [] ==> clock <= now)
    ensures forall id | id in m && Live(m[id], key, now, window) :: Joins(ss, now, window) && id == Last(ss).id
    ensures Joins(ss, now, window) ==> Last(ss).id in m && Live(m[Last(ss).id], key, now, window)
  {
    forall id | id in m && Live(m[id], key, now, window) ensures Joins(ss, now, window) && id == Last(ss).id {
      var s :| s in ss && s.id == id;
      var i :| 0 <= i < |ss| && ss[i] == s;
      assert Holds(m, key, ss[i]);
    }
    if ss != [] {
      assert Last(ss) in ss;
      assert Holds(m, key, Last(ss));
    }
  }

  lemma FoundIsLastSession(m: Incidents, key: string, ss: seq<Session>, clock: Time, now: Time, window: Time,
                           found: Option<string>)
    requires Agrees(m, key, ss, clock, window) && (ss != [] ==> clock <= now)
    requires IsLookup(m, key, now, window, found)
    ensures found == if Joins(ss, now, window) then Some(Last(ss).id) else None
  {
    LookupSeesLastSession(m, key, ss, clock, now, window);
  }

  lemma CloseAgrees(m: Incidents, key: string, ss: seq<Session>, clock: Time, window: Time, id: string,
                    state: IncidentState)
    requires Agrees(m, key, ss, clock, window)
    requires id in m && m[id].state == Resolved ==> state == Resolved
    ensures Agrees(Apply(m, SetState(id, state)), key, Closing(ss, id, state), clock, window)
  {
    var m', ss' := Apply(m, SetState(id, state)), Closing(ss, id, state);
    assert forall i | 0 <= i < |ss| ::
        ss'[i].id == ss[i].id && ss'[i].last == ss[i].last && (ss[i].resolved ==> ss'[i].resolved);
    forall i | 0 <= i < |ss'| ensures Holds(m', key, ss'[i]) && ss'[i].last <= clock {
      assert Holds(m, key, ss[i]);
    }
    forall x | x in m' && m'[x].key == key ensures exists s :: s in ss' && s.id == x {
      var s :| s in ss && s.id == x;
      var i :| 0 <= i < |ss| && ss[i] == s;
      assert ss'[i].id == x;
    }
  }

  /** A submission of another key leaves the incidents of this key alone. */
  lemma OtherKeyAgrees(m: Incidents, key: string, ss: seq<Session>, clock: Time, window: Time, inc: Incident)
    requires Agrees(m, key, ss, clock, window)
    requires inc.key != key && (inc.id in m ==> m[inc.id].key != key)
    ensures Agrees(m[inc.id := inc], key, ss, clock, window)
  {
    forall s | s in ss ensures Holds(m[inc.id := inc], key, s) {
      assert Holds(m, key, s);
    }
  }

  lemma JoinAgrees(m: Incidents, key: string, ss: seq<Session>, clock: Time, e: Event, window: Time)
    requires Agrees(m, key, ss, clock, window) && Indexed(m)
    requires e.Submits(key) && clock <= e.t1 <= e.t2
    requires Joins(ss, e.t2, window) && e.found == Some(Last(ss).id)
    ensures var s := Last(ss).(alerts := Last(ss).alerts + [e.alert], last := e.t1);
            Agrees(Apply(m, e), key, Init(ss) + [s], e.t2, window)
  {
    var last := Last(ss);
    var s := last.(alerts := last.alerts + [e.alert], last := e.t1);
    assert last in ss && Holds(m, key, last);
    GrowAgrees(m, key, ss, clock, s, Extended(m[last.id], e.alert, e.t1), e.t2, window);
  }

  /** The last session and its incident may grow together. */
  lemma GrowAgrees(m: Incidents, key: string, ss: seq<Session>, clock: Time, s: Session, inc: Incident, now: Time,
                   window: Time)
    requires Agrees(m, key, ss, clock, window)
    requires ss != [] && s.id == Last(ss).id == inc.id && clock <= now && s.last <= now
    requires Holds(m[inc.id := inc], key, s)
    ensures Agrees(m[inc.id := inc], key, Init(ss) + [s], now, window)
  {
    var m', ss' := m[inc.id := inc], Init(ss) + [s];
    assert forall i | 0 <= i < |ss'| :: ss'[i].id == ss[i].id;
    forall t | t in ss' ensures Holds(m', key, t) && t.last <= now {
      var i :| 0 <= i < |ss'| && ss'[i] == t;
      if i < |ss| - 1 {
        assert t == ss[i] && Holds(m, key, ss[i]);
        assert ss[i].id != ss[|ss| - 1].id;
      }
    }
    forall x | x in m' && m'[x].key == key ensures exists t :: t in ss' && t.id == x {
      if x == s.id {
        assert s in ss';
      } else {
        var t :| t in ss && t.id == x;
        var i :| 0 <= i < |ss| && ss[i] == t;
        assert ss'[i] == t;
      }
    }
  }

  lemma SplitAgrees(m: Incidents, key: string, ss: seq<Session>, clock: Time, e: Event, window: Time)
    requires Agrees(m, key, ss, clock, window) && Indexed(m)
    requires e.Submits(key) && (ss != [] ==> clock <= e.t1) && e.t1 <= e.t2
    requires !Joins(ss, e.t2, window) && e.found.None? && e.id !in m
    ensures Agrees(Apply(m, e), key, ss + [Session(e.id, [e.alert], e.t1, false)], e.t2, window)
  {
    var s, inc := Session(e.id, [e.alert], e.t1, false), Opened(e.id, e.alert, e.t1, e.topology);
    OpenAgrees(m, key, ss, clock, s, inc, e.t2, window);
  }

  /** A new session and its incident may be added when the last session is over. */
  lemma OpenAgrees(m: Incidents, key: string, ss: seq<Session>, clock: Time, s: Session, inc: Incident, now: Time,
                   window: Time)
    requires Agrees(m, key, ss, clock, window)
    requires (ss != [] ==> clock <= now) && s.last <= now && !Joins(ss, now, window)
    requires s.id == inc.id && inc.id !in m && Holds(m[inc.id := inc], key, s)
    ensures Agrees(m[inc.id := inc], key, ss + [s], now, window)
  {
    var m', ss' := m[inc.id := inc], ss + [s];
    forall i | 0 <= i < |ss| ensures Holds(m', key, ss[i]) && Holds(m, key, ss[i]) && ss[i].last <= now {
      assert ss[i] in ss;
    }
    forall x | x in m' && m'[x].key == key ensures exists s' :: s' in ss' && s'.id == x {
      if x in m && x != s.id {
        var s' :| s' in ss && s'.id == x;
        assert s' in ss';
      } else {
        assert s in ss';
      }
    }
  }

  lemma {:induction false} SessionsStarted(es: seq<Event>, key: string, window: Time)
    requires Sessions(es, key, window) != []
    ensures exists i :: 0 <= i < |es| && es[i].Submits(key)
  {
    if !Last(es).Submits(key) {
      SessionsStarted(Init(es), key, window);
      var i :| 0 <= i < |Init(es)| && Init(es)[i].Submits(key);
      assert es[i].Submits(key);
    } else {
      assert es[|es| - 1].Submits(key);
    }
  }

  lemma StepAgrees(es: seq<Event>, key: string, window: Time)
    requires es != [] && Enabled(Init(es), Last(es), window)
    requires Agrees(Store(Init(es)), key, Sessions(Init(es), key, window), Clock(Init(es), key), window)
    ensures Agrees(Store(es), key, Sessions(es, key, window), Clock(es, key), window)
    ensures Last(es).Submits(key) ==>
              Last(es).found == if Joins(Sessions(Init(es), key, window), Last(es).t2, window)
                                then Some(Last(Sessions(Init(es), key, window)).id) else None
  {
    var m, ss, clock, e := Store(Init(es)), Sessions(Init(es), key, window), Clock(Init(es), key), Last(es);
    StoreIndexed(Init(es));
    match e
    case SetState(id, state) =>
      CloseAgrees(m, key, ss, clock, window, id, state);
    case Submit(alert, t1, t2, id, _, found) =>
      if KeyOf(alert) != key {
        OtherKeyAgrees(m, key, ss, clock, window, Saved(Base(m, found), e));
      } else {
        if ss != [] {
          SessionsStarted(Init(es), key, window);
          ClockIsLatest(Init(es), key, t1);
        }
        FoundIsLastSession(m, key, ss, clock, t2, window, found);
        if Joins(ss, t2, window) {
          JoinAgrees(m, key, ss, clock, e, window);
        } else {
          SplitAgrees(m, key, ss, clock, e, window);
        }
      }
  }

  /** The main theorem: the incidents of a key are its offline sessions. */
  lemma {:induction false} OnlineIsOffline(es: seq<Event>, key: string, window: Time)
    requires Valid(es, window)
    ensures Agrees(Store(es), key, Sessions(es, key, window), Clock(es, key), window)
  {
    if es != [] {
      OnlineIsOffline(Init(es), key, window);
      StepAgrees(es, key, window);
    }
  }

  /**
   * From the latest lookup on, at most one incident of a key is live at any time, so a
   * lookup has one answer whatever the order the store is walked in.
   */
  lemma AtMostOneLiveEver(es: seq<Event>, key: string, window: Time, now: Time)
    requires Valid(es, window) && ClockGoesOn(es, key, now)
    ensures AtMostOneLive(Store(es), key, now, window)
    ensures forall a, b ::
              IsLookup(Store(es), key, now, window, a) && IsLookup(Store(es), key, now, window, b) ==> a == b
  {
    var m, ss := Store(es), Sessions(es, key, window);
    OnlineIsOffline(es, key, window);
    if ss != [] {
      SessionsStarted(es, key, window);
      ClockIsLatest(es, key, now);
    }
    LookupSeesLastSession(m, key, ss, Clock(es, key), now, window);
    forall a, b | IsLookup(m, key, now, window, a) && IsLookup(m, key, now, window, b) ensures a == b {
      LookupIsDetermined(m, key, now, window, a, b);
    }
  }

  // ---- Nothing is lost, repeated or reordered ----

  function Submitted(es: seq<Event>, key: string): seq<Alert> {
    if es == [] then [] else
    Submitted(Init(es), key) + if Last(es).Submits(key) then [Last(es).alert] else []
  }

  function Concatenated(ss: seq<Session>): seq<Alert> {
    if ss == [] then [] else Concatenated(Init(ss)) + Last(ss).alerts
  }

  lemma {:induction false} ClosingKeepsAlerts(ss: seq<Session>, id: string, state: IncidentState)
    ensures Concatenated(Closing(ss, id, state)) == Concatenated(ss)
  {
    if ss != [] {
      ClosingKeepsAlerts(Init(ss), id, state);
      assert Init(Closing(ss, id, state)) == Closing(Init(ss), id, state);
    }
  }

  lemma {:induction false} SessionsKeepEveryAlert(es: seq<Event>, key: string, window: Time)
    ensures Concatenated(Sessions(es, key, window)) == Submitted(es, key)
  {
    if es != [] {
      SessionsKeepEveryAlert(Init(es), key, window);
      var ss, e := Sessions(Init(es), key, window), Last(es);
      match e
      case SetState(id, state) =>
        ClosingKeepsAlerts(ss, id, state);
      case Submit(alert, t1, t2, id, _, _) =>
        if KeyOf(alert) == key {
          if Joins(ss, t2, window) {
            OneMoreSession(Init(ss), Last(ss).(alerts := Last(ss).alerts + [alert], last := t1));
          } else {
            OneMoreSession(ss, Session(id, [alert], t1, false));
          }
        }
    }
  }

  lemma OneMoreSession(ss: seq<Session>, s: Session)
    ensures Concatenated(ss + [s]) == Concatenated(ss) + s.alerts
  {
    assert Init(ss + [s]) == ss && Last(ss + [s]) == s;
  }

  /** The incidents of a key in the order they were opened. */
  function OpenedIds(es: seq<Event>, key: string): seq<string> {
    if es == [] then [] else
    OpenedIds(Init(es), key) + if Last(es).Submits(key) && Last(es).found.None? then [Last(es).id] else []
  }

  function AlertsOfAll(m: Incidents, ids: seq<string>): seq<Alert>
    requires forall id | id in ids :: id in m
  {
    if ids == [] then [] else AlertsOfAll(m, Init(ids)) + m[Last(ids)].alerts
  }

  function Ids(ss: seq<Session>): seq<string> {
    seq(|ss|, i requires 0 <= i < |ss| => ss[i].id)
  }

  lemma StepOpens(es: seq<Event>, key: string, window: Time)
    requires es != []
    requires Last(es).Submits(key) ==>
               (Last(es).found.None? <==> !Joins(Sessions(Init(es), key, window), Last(es).t2, window))
    ensures Ids(Sessions(es, key, window))
            == Ids(Sessions(Init(es), key, window))
               + if Last(es).Submits(key) && Last(es).found.None? then [Last(es).id] else []
  {
  }

  lemma {:induction false} OpenedAreSessions(es: seq<Event>, key: string, window: Time)
    requires Valid(es, window)
    ensures OpenedIds(es, key) == Ids(Sessions(es, key, window))
  {
    if es != [] {
      OpenedAreSessions(Init(es), key, window);
      OnlineIsOffline(Init(es), key, window);
      StepAgrees(es, key, window);
      StepOpens(es, key, window);
    }
  }

  lemma {:induction false} AlertsOfSessions(m: Incidents, key: string, ss: seq<Session>)
    requires forall s | s in ss :: Holds(m, key, s)
    ensures forall id | id in Ids(ss) :: id in m
    ensures AlertsOfAll(m, Ids(ss)) == Concatenated(ss)
  {
    forall id | id in Ids(ss) ensures id in m {
      var i :| 0 <= i < |ss| && ss[i].id == id;
      assert Holds(m, key, ss[i]);
    }
    if ss != [] {
      AlertsOfSessions(m, key, Init(ss));
      assert Init(Ids(ss)) == Ids(Init(ss));
      assert Holds(m, key, Last(ss));
    }
  }

  lemma IdsAreIncidents(m: Incidents, key: string, ss: seq<Session>, clock: Time, window: Time, id: string)
    requires Agrees(m, key, ss, clock, window)
    ensures id in Ids(ss) <==> id in m && m[id].key == key
  {
    if id in Ids(ss) {
      var i :| 0 <= i < |ss| && ss[i].id == id;
      assert Holds(m, key, ss[i]);
    }
    if id in m && m[id].key == key {
      var s :| s in ss && s.id == id;
      var i :| 0 <= i < |ss| && ss[i] == s;
      assert Ids(ss)[i] == id;
    }
  }

  /**
   * Concatenating the incidents of a key in the order they were opened gives exactly the
   * alerts submitted with that key, in order, once each.
   */
  lemma IncidentsHoldTheSubmissions(es: seq<Event>, key: string, window: Time)
    requires Valid(es, window)
    ensures forall id :: id in OpenedIds(es, key) <==> id in Store(es) && Store(es)[id].key == key
    ensures AlertsOfAll(Store(es), OpenedIds(es, key)) == Submitted(es, key)
  {
    var m, ss := Store(es), Sessions(es, key, window);
    OnlineIsOffline(es, key, window);
    OpenedAreSessions(es, key, window);
    SessionsKeepEveryAlert(es, key, window);
    AlertsOfSessions(m, key, ss);
    forall id ensures id in Ids(ss) <==> id in m && m[id].key == key {
      IdsAreIncidents(m, key, ss, Clock(es, key), window, id);
    }
  }

  // ---- Where the boundaries fall ----

  ghost predicate ResolvedBetween(es: seq<Event>, id: string, i: nat, j: nat)
    requires j <= |es|
  {
    exists p :: i < p < j && es[p] == SetState(id, Resolved)
  }

  /** Until the next submission of the key, the last session is the one submission `i` was written to. */
  lemma {:induction false} LastSessionSince(es: seq<Event>, key: string, window: Time, i: nat)
    requires Valid(es, window) && i < |es| && es[i].Submits(key)
    requires forall p | i < p < |es| :: !es[p].Submits(key)
    ensures var ss := Sessions(es, key, window);
            && ss != []
            && Last(ss).id == es[i].Home()
            && Last(ss).last == es[i].t1
            && (Last(ss).resolved <==> ResolvedBetween(es, es[i].Home(), i, |es|))
  {
    if i == |es| - 1 {
      LastSessionNow(es, key, window);
    } else {
      LastSessionSince(Init(es), key, window, i);
      ResolvedGrows(es, es[i].Home(), i);
    }
  }

  lemma LastSessionNow(es: seq<Event>, key: string, window: Time)
    requires es != [] && Valid(es, window) && Last(es).Submits(key)
    ensures var ss := Sessions(es, key, window);
            ss != [] && Last(ss).id == Last(es).Home() && Last(ss).last == Last(es).t1 && !Last(ss).resolved
  {
    OnlineIsOffline(Init(es), key, window);
    StepAgrees(es, key, window);
  }

  lemma ResolvedGrows(es: seq<Event>, id: string, i: nat)
    requires i < |es| - 1
    ensures ResolvedBetween(es, id, i, |es|) <==>
            ResolvedBetween(Init(es), id, i, |es| - 1) || Last(es) == SetState(id, Resolved)
  {
    if ResolvedBetween(Init(es), id, i, |es| - 1) {
      var p :| i < p < |es| - 1 && Init(es)[p] == SetState(id, Resolved);
      assert es[p] == SetState(id, Resolved);
    }
    if ResolvedBetween(es, id, i, |es|) && Last(es) != SetState(id, Resolved) {
      var p :| i < p < |es| && es[p] == SetState(id, Resolved);
      assert Init(es)[p] == SetState(id, Resolved);
    }
    assert Last(es) == SetState(id, Resolved) ==> es[|es| - 1] == SetState(id, Resolved);
  }

  /** Right before the later alert: the last session is that of the earlier one. */
  lemma SessionBefore(es: seq<Event>, key: string, window: Time, i: nat, j: nat)
    requires Valid(es, window) && i < j < |es| && es[i].Submits(key)
    requires forall p | i < p < j :: !es[p].Submits(key)
    ensures Valid(es[..j], window)
    ensures var ss := Sessions(es[..j], key, window);
            && ss != [] && Last(ss).id == es[i].Home() && Last(ss).last == es[i].t1
            && (Last(ss).resolved <==> ResolvedBetween(es, es[i].Home(), i, j))
  {
    var before := es[..j];
    ValidPrefix(es, window, j);
    LastSessionSince(before, key, window, i);
    assert ResolvedBetween(before, es[i].Home(), i, j) <==> ResolvedBetween(es, es[i].Home(), i, j) by {
      assert forall p | i < p < j :: before[p] == es[p];
    }
  }

  /** An alert goes to the last session if that joins, and else to an incident of its own. */
  lemma LaterJoinsIff(es: seq<Event>, key: string, window: Time, j: nat)
    requires Valid(es, window) && j < |es| && es[j].Submits(key)
    requires Valid(es[..j], window) && Sessions(es[..j], key, window) != []
    ensures var ss := Sessions(es[..j], key, window);
            es[j].Home() == Last(ss).id <==> Joins(ss, es[j].t2, window)
  {
    var before, upto := es[..j], es[..j + 1];
    ValidPrefix(es, window, j + 1);
    assert Init(upto) == before && Last(upto) == es[j];
    OnlineIsOffline(before, key, window);
    StepAgrees(upto, key, window);
    assert Holds(Store(before), key, Last(Sessions(before, key, window)));
  }

  /**
   * Two adjacent alerts of a key share an incident if and only if the later lookup comes at
   * most the window after the earlier recorded time, and the incident was not resolved in
   * between.
   */
  lemma AdjacentAlertsShareIff(es: seq<Event>, key: string, window: Time, i: nat, j: nat)
    requires Valid(es, window) && i < j < |es| && es[i].Submits(key) && es[j].Submits(key)
    requires forall p | i < p < j :: !es[p].Submits(key)
    ensures es[i].Home() == es[j].Home() <==>
            es[j].t2 - es[i].t1 <= window && !ResolvedBetween(es, es[i].Home(), i, j)
  {
    SessionBefore(es, key, window, i, j);
    LaterJoinsIff(es, key, window, j);
  }
}
