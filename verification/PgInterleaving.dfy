/**
 * Concurrent calls over the Postgres store. The lookup is two statements outside any
 * transaction, the save is one transaction, and all of them may interleave. Snapshots go
 * stale, but a save only upserts and nothing deletes, so no fingerprint is ever lost.
 * Statements on the side columns and the state may come at any point.
 */
module PgInterleaving {
  import opened Wrappers
  import opened Collections
  import opened Domain
  import opened Correlation
  import opened PgTables
  import SideColumns

  datatype Frame =
    | Started(alert: Alert, t1: Time)
    | RowFound(alert: Alert, t1: Time, row: IncidentRow)
    | Looked(alert: Alert, t1: Time, base: Option<Incident>)
    | Succeeded(id: string, alert: Alert)
    | Failed

  datatype State = State(tables: Tables, calls: map<nat, Frame>)

  const INITIAL := State(EMPTY, map[])

  datatype Step =
    | Begin(c: nat, alert: Alert, t1: Time)
    | FindRow(c: nat, t2: Time, answer: Option<string>)
    | ReadAlerts(c: nat, read: seq<AlertRow>)
    | Save(c: nat, id: string, topology: Option<TopologySlice>, t3: Time)
    | Fail(c: nat)
    | Other(op: SideColumns.Op)

  ghost predicate Enabled(s: State, step: Step, window: Time) {
    match step
    case Begin(c, _, _) => c !in s.calls
    case FindRow(c, t2, answer) =>
      c in s.calls && s.calls[c].Started? && IsFind(s.tables.incidents, KeyOf(s.calls[c].alert), t2 - window, answer)
    case ReadAlerts(c, read) =>
      c in s.calls && s.calls[c].RowFound? && IsRead(s.tables.alerts, s.calls[c].row.id, read)
    case Save(c, _, _, _) => c in s.calls && s.calls[c].Looked?
    case Fail(c) => c in s.calls && !s.calls[c].Succeeded?
    case Other(op) => !op.Save?
  }

  /** The incident a call saves: what it found with the alert appended, or a new one. */
  function Saving(f: Frame, id: string, topology: Option<TopologySlice>): Incident
    requires f.Looked?
  {
    if f.base.Some? then Extended(f.base.value, f.alert, f.t1) else Opened(id, f.alert, f.t1, topology)
  }

  function Next(s: State, step: Step, window: Time): State
    requires Enabled(s, step, window)
  {
    match step
    case Begin(c, alert, t1) => s.(calls := s.calls[c := Started(alert, t1)])
    case FindRow(c, _, answer) =>
      var f := s.calls[c];
      s.(calls := s.calls[c := if answer.Some? then RowFound(f.alert, f.t1, s.tables.incidents[answer.value])
                               else Looked(f.alert, f.t1, None)])
    case ReadAlerts(c, read) =>
      var f := s.calls[c];
      s.(calls := s.calls[c := Looked(f.alert, f.t1, Some(RowToIncident(f.row, read)))])
    case Save(c, id, topology, t3) =>
      var inc := Saving(s.calls[c], id, topology);
      State(SaveTables(s.tables, inc, t3), s.calls[c := Succeeded(inc.id, s.calls[c].alert)])
    case Fail(c) => s.(calls := s.calls[c := Failed])
    case Other(op) => s.(tables := SideColumns.Effect(s.tables, op))
  }

  ghost predicate Possible(steps: seq<Step>, window: Time)
    decreases |steps|, 0
  {
    steps != [] ==> Possible(Init(steps), window) && Enabled(After(Init(steps), window), Last(steps), window)
  }

  ghost function After(steps: seq<Step>, window: Time): State
    requires Possible(steps, window)
    decreases |steps|, 1
  {
    if steps == [] then INITIAL else Next(After(Init(steps), window), Last(steps), window)
  }

  lemma {:induction false} PrefixOfRun(steps: seq<Step>, window: Time, n: nat)
    requires Possible(steps, window) && n <= |steps|
    ensures Possible(steps[..n], window)
    decreases |steps|
  {
    if n == |steps| {
      assert steps[..n] == steps;
    } else {
      PrefixOfRun(Init(steps), window, n);
      assert Init(steps)[..n] == steps[..n];
    }
  }

  ghost predicate Reached(s: State, window: Time) {
    exists steps :: Possible(steps, window) && After(steps, window) == s
  }

  /** A set of states that no step leaves. */
  ghost predicate Closed(reach: State -> bool, window: Time) {
    forall s: State, step: Step :: reach(s) && Enabled(s, step, window) ==> reach(Next(s, step, window))
  }

  lemma ReachedIsClosed(window: Time)
    ensures Reached(INITIAL, window) && Closed(s => Reached(s, window), window)
  {
    assert Possible([], window) && After([], window) == INITIAL;
    forall s: State, step: Step | Reached(s, window) && Enabled(s, step, window)
      ensures Reached(Next(s, step, window), window)
    {
      var p :| Possible(p, window) && After(p, window) == s;
      assert Init(p + [step]) == p && Last(p + [step]) == step;
      assert Possible(p + [step], window);
    }
  }

  // ---- The invariant ----

  /** A row is what some successful call submitted to that incident. */
  ghost predicate Witnessed(calls: map<nat, Frame>, r: AlertRow) {
    exists c :: c in calls && calls[c].Succeeded? && r == RowOf(calls[c].id, calls[c].alert)
  }

  ghost predicate FrameOk(s: State, f: Frame) {
    match f
    case Looked(_, _, base) =>
      base.Some? ==> forall a | a in base.value.alerts :: Witnessed(s.calls, RowOf(base.value.id, a))
    case Succeeded(id, alert) => id in s.tables.incidents && RowFor(s.tables.alerts, id, alert.fingerprint).Some?
    case _ => true
  }

  ghost predicate Conserving(s: State) {
    && WellFormed(s.tables)
    && (forall r | r in s.tables.alerts :: Witnessed(s.calls, r))
    && (forall c | c in s.calls :: FrameOk(s, s.calls[c]))
  }

  /** Rows stay, incidents stay, and calls that succeeded have succeeded. */
  ghost predicate Keeps(s: State, s': State) {
    && s.tables.incidents.Keys <= s'.tables.incidents.Keys
    && (forall id, fingerprint | RowFor(s.tables.alerts, id, fingerprint).Some? ::
          RowFor(s'.tables.alerts, id, fingerprint).Some?)
    && (forall c | c in s.calls && s.calls[c].Succeeded? :: c in s'.calls && s'.calls[c] == s.calls[c])
  }

  lemma WitnessedStays(s: State, s': State, r: AlertRow)
    requires Keeps(s, s') && Witnessed(s.calls, r)
    ensures Witnessed(s'.calls, r)
  {
    var c :| c in s.calls && s.calls[c].Succeeded? && r == RowOf(s.calls[c].id, s.calls[c].alert);
    assert s'.calls[c] == s.calls[c];
  }

  lemma FrameStays(s: State, s': State, f: Frame)
    requires Keeps(s, s') && FrameOk(s, f)
    ensures FrameOk(s', f)
  {
    if f.Looked? && f.base.Some? {
      forall a | a in f.base.value.alerts ensures Witnessed(s'.calls, RowOf(f.base.value.id, a)) {
        WitnessedStays(s, s', RowOf(f.base.value.id, a));
      }
    }
  }

  /** Steps that change no alert row, and give one call a new frame. */
  lemma RowsUntouched(s: State, s': State, c: nat)
    requires Conserving(s) && WellFormed(s'.tables)
    requires s'.tables.alerts == s.tables.alerts && s'.tables.incidents.Keys == s.tables.incidents.Keys
    requires forall d | d in s.calls && d != c :: d in s'.calls && s'.calls[d] == s.calls[d]
    requires s'.calls.Keys <= s.calls.Keys + {c}
    requires c in s.calls ==> c in s'.calls && (s.calls[c].Succeeded? ==> s'.calls[c] == s.calls[c])
    requires c in s'.calls ==> FrameOk(s, s'.calls[c])
    ensures Conserving(s') && Keeps(s, s')
  {
    forall r | r in s'.tables.alerts ensures Witnessed(s'.calls, r) {
      WitnessedStays(s, s', r);
    }
    forall d | d in s'.calls ensures FrameOk(s', s'.calls[d]) {
      FrameStays(s, s', s'.calls[d]);
    }
  }

  lemma ReadWitnessed(s: State, row: IncidentRow, read: seq<AlertRow>)
    requires Conserving(s) && IsRead(s.tables.alerts, row.id, read)
    ensures forall a | a in Alerts(read) :: Witnessed(s.calls, RowOf(row.id, a))
  {
    forall a | a in Alerts(read) ensures Witnessed(s.calls, RowOf(row.id, a)) {
      var i :| 0 <= i < |read| && Alerts(read)[i] == a;
      ReadMember(s.tables.alerts, row.id, read, read[i]);
      assert RowOf(row.id, a) == read[i];
    }
  }

  lemma {:induction false} UpsertedRows(rows: seq<AlertRow>, id: string, alerts: seq<Alert>, r: AlertRow)
    requires Unique(rows) && r in UpsertAll(rows, id, alerts)
    ensures r in rows || exists a :: a in alerts && r == RowOf(id, a)
  {
    if alerts != [] {
      var init, last := alerts[..|alerts| - 1], alerts[|alerts| - 1];
      UpsertAllWellFormed(rows, id, init);
      UpsertRows(UpsertAll(rows, id, init), RowOf(id, last), r);
      if r != RowOf(id, last) {
        UpsertedRows(rows, id, init, r);
        if r !in rows {
          var a :| a in init && r == RowOf(id, a);
          assert a in alerts;
        }
      }
    }
  }

  /** After a save, the row of each fingerprint is the last of what was saved under it. */
  lemma SaveRows(s: State, c: nat, id: string, topology: Option<TopologySlice>, t3: Time, window: Time, at: string,
                 fingerprint: string)
    requires Enabled(s, Save(c, id, topology, t3), window)
    ensures var inc, rows := Saving(s.calls[c], id, topology), Next(s, Save(c, id, topology, t3), window).tables.alerts;
            && inc.alerts != [] && inc.alerts[|inc.alerts| - 1] == s.calls[c].alert
            && RowFor(rows, at, fingerprint)
               == if at == inc.id && LastWith(inc.alerts, fingerprint).Some?
                  then Some(RowOf(at, LastWith(inc.alerts, fingerprint).value))
                  else RowFor(s.tables.alerts, at, fingerprint)
  {
    var inc := Saving(s.calls[c], id, topology);
    UpsertAllKeepsLast(s.tables.alerts, inc.id, inc.alerts, at, fingerprint);
  }

  lemma SaveKeeps(s: State, c: nat, id: string, topology: Option<TopologySlice>, t3: Time, window: Time)
    requires Conserving(s) && Enabled(s, Save(c, id, topology, t3), window)
    ensures Keeps(s, Next(s, Save(c, id, topology, t3), window))
  {
    var s' := Next(s, Save(c, id, topology, t3), window);
    forall at, fingerprint | RowFor(s.tables.alerts, at, fingerprint).Some?
      ensures RowFor(s'.tables.alerts, at, fingerprint).Some?
    {
      SaveRows(s, c, id, topology, t3, window, at, fingerprint);
    }
  }

  lemma SaveConserves(s: State, c: nat, id: string, topology: Option<TopologySlice>, t3: Time, window: Time)
    requires Conserving(s) && Enabled(s, Save(c, id, topology, t3), window)
    ensures Conserving(Next(s, Save(c, id, topology, t3), window))
  {
    var f, s' := s.calls[c], Next(s, Save(c, id, topology, t3), window);
    var inc := Saving(f, id, topology);
    SaveKeeps(s, c, id, topology, t3, window);
    SaveWellFormed(s.tables, inc, t3);
    assert FrameOk(s, f);
    forall r | r in s'.tables.alerts ensures Witnessed(s'.calls, r) {
      UpsertedRows(s.tables.alerts, inc.id, inc.alerts, r);
      if r in s.tables.alerts {
        WitnessedStays(s, s', r);
      } else {
        var a :| a in inc.alerts && r == RowOf(inc.id, a);
        if a == f.alert {
          assert s'.calls[c] == Succeeded(inc.id, a);
        } else {
          assert f.base.Some? && a in f.base.value.alerts;
          WitnessedStays(s, s', r);
        }
      }
    }
    SaveRows(s, c, id, topology, t3, window, inc.id, f.alert.fingerprint);
    forall d | d in s'.calls ensures FrameOk(s', s'.calls[d]) {
      if d != c {
        FrameStays(s, s', s.calls[d]);
      }
    }
  }

  lemma NextConserves(s: State, step: Step, window: Time)
    requires Conserving(s) && Enabled(s, step, window)
    ensures Conserving(Next(s, step, window)) && Keeps(s, Next(s, step, window))
  {
    var s' := Next(s, step, window);
    match step
    case Begin(c, alert, t1) => RowsUntouched(s, s', c);
    case FindRow(c, t2, answer) => RowsUntouched(s, s', c);
    case ReadAlerts(c, read) =>
      ReadWitnessed(s, s.calls[c].row, read);
      RowsUntouched(s, s', c);
    case Save(c, id, topology, t3) =>
      SaveKeeps(s, c, id, topology, t3, window);
      SaveConserves(s, c, id, topology, t3, window);
    case Fail(c) => RowsUntouched(s, s', c);
    case Other(op) => RowsUntouched(s, s', 0);
  }

  lemma {:induction false} AlwaysConserving(steps: seq<Step>, window: Time)
    requires Possible(steps, window)
    ensures Conserving(After(steps, window))
  {
    if steps != [] {
      AlwaysConserving(Init(steps), window);
      NextConserves(After(Init(steps), window), Last(steps), window);
    }
  }

  lemma {:induction false} KeptEverAfter(steps: seq<Step>, window: Time, n: nat)
    requires Possible(steps, window) && n <= |steps|
    ensures Possible(steps[..n], window) && Keeps(After(steps[..n], window), After(steps, window))
    decreases |steps|
  {
    if n == |steps| {
      assert steps[..n] == steps;
    } else {
      assert Init(steps)[..n] == steps[..n];
      KeptEverAfter(Init(steps), window, n);
      AlwaysConserving(Init(steps), window);
      NextConserves(After(Init(steps), window), Last(steps), window);
    }
  }

  /**
   * Conservation under every interleaving: once a call has succeeded, the incident it wrote
   * has exactly one row with its fingerprint in all later states, and that row is what some
   * successful call submitted to that incident under that fingerprint.
   */
  lemma NothingIsLost(steps: seq<Step>, window: Time, n: nat, c: nat)
    requires Possible(steps, window) && n <= |steps| && Possible(steps[..n], window)
    requires c in After(steps[..n], window).calls && After(steps[..n], window).calls[c].Succeeded?
    ensures var call, t := After(steps[..n], window).calls[c], After(steps, window).tables;
            && call.id in t.incidents
            && Unique(t.alerts)
            && var r := RowFor(t.alerts, call.id, call.alert.fingerprint);
               && r.Some? && r.value in t.alerts
               && SameRow(r.value, call.id, call.alert.fingerprint)
               && Witnessed(After(steps, window).calls, r.value)
  {
    KeptEverAfter(steps, window, n);
    AlwaysConserving(steps, window);
    AlwaysConserving(steps[..n], window);
    var s, call := After(steps, window), After(steps[..n], window).calls[c];
    assert s.calls[c] == call && FrameOk(s, call);
    RowForIsRow(s.tables.alerts, call.id, call.alert.fingerprint);
  }
}
