/**
 * Payloads under interleaving. A fingerprint is never lost, but a save from a stale snapshot
 * can put an older payload back. This module says exactly when, for one row and one save, and
 * for whole runs.
 */
module PgPayloads {
  import opened Wrappers
  import opened Collections
  import opened Domain
  import opened Correlation
  import opened PgTables
  import opened PgRuns
  import opened PgInterleaving

  // ---- What a call read, and when ----

  /** The run up to the latest point at which the call read the alert rows of its incident. */
  ghost function ReadPoint(steps: seq<Step>, c: nat): (r: seq<Step>)
    ensures |r| <= |steps| && r == steps[..|r|]
  {
    if steps == [] then []
    else if Last(steps).ReadAlerts? && Last(steps).c == c then Init(steps)
    else ReadPoint(Init(steps), c)
  }

  /** The alert rows as they were when the call read them. */
  ghost function RowsRead(steps: seq<Step>, c: nat, window: Time): seq<AlertRow>
    requires Possible(steps, window)
  {
    PrefixOfRun(steps, window, |ReadPoint(steps, c)|);
    After(ReadPoint(steps, c), window).tables.alerts
  }

  function AlertInRow(row: Option<AlertRow>): Option<Alert> {
    if row.Some? then Some(AlertOf(row.value)) else None
  }

  /** The last payload of each fingerprint in a snapshot is what the table held when it was read. */
  ghost predicate Snapshot(f: Frame, rows: seq<AlertRow>) {
    f.Looked? && f.base.Some? ==>
      forall fingerprint ::
        LastWith(f.base.value.alerts, fingerprint) == AlertInRow(RowFor(rows, f.base.value.id, fingerprint))
  }

  lemma ReadSnapshot(rows: seq<AlertRow>, row: IncidentRow, read: seq<AlertRow>, f: Frame)
    requires Unique(rows) && IsRead(rows, row.id, read)
    requires f.Looked? && f.base == Some(RowToIncident(row, read))
    ensures Snapshot(f, rows)
  {
    forall fingerprint ensures LastWith(Alerts(read), fingerprint) == AlertInRow(RowFor(rows, row.id, fingerprint)) {
      ReadBack(rows, row.id, read, fingerprint);
    }
  }

  lemma {:induction false} SnapshotsAreRows(steps: seq<Step>, window: Time, c: nat)
    requires Possible(steps, window) && c in After(steps, window).calls
    ensures Snapshot(After(steps, window).calls[c], RowsRead(steps, c, window))
  {
    if steps != [] {
      var s, step := After(Init(steps), window), Last(steps);
      if step.ReadAlerts? && step.c == c {
        AlwaysConserving(Init(steps), window);
        ReadSnapshot(s.tables.alerts, s.calls[c].row, step.read, After(steps, window).calls[c]);
      } else if c in s.calls {
        SnapshotsAreRows(Init(steps), window, c);
      }
    }
  }

  // ---- One save, one row ----

  lemma SaveFrom(s: State, c: nat, id: string, topology: Option<TopologySlice>, t3: Time, window: Time,
                 fingerprint: string)
    requires Enabled(s, Save(c, id, topology, t3), window)
    ensures var f, s' := s.calls[c], Next(s, Save(c, id, topology, t3), window);
            var inc := Saving(f, id, topology);
            var known := if f.base.Some? then LastWith(f.base.value.alerts, fingerprint) else None;
            RowFor(s'.tables.alerts, inc.id, fingerprint)
            == if f.alert.fingerprint == fingerprint then Some(RowOf(inc.id, f.alert))
               else if known.Some? then Some(RowOf(inc.id, known.value))
               else RowFor(s.tables.alerts, inc.id, fingerprint)
    ensures var f, s' := s.calls[c], Next(s, Save(c, id, topology, t3), window);
            forall at | at != Saving(f, id, topology).id ::
              RowFor(s'.tables.alerts, at, fingerprint) == RowFor(s.tables.alerts, at, fingerprint)
  {
    var f := s.calls[c];
    var inc := Saving(f, id, topology);
    SaveRows(s, c, id, topology, t3, window, inc.id, fingerprint);
    assert inc.alerts[..|inc.alerts| - 1] == if f.base.Some? then f.base.value.alerts else [];
    var s' := Next(s, Save(c, id, topology, t3), window);
    forall at | at != inc.id
      ensures RowFor(s'.tables.alerts, at, fingerprint) == RowFor(s.tables.alerts, at, fingerprint)
    {
      SaveRows(s, c, id, topology, t3, window, at, fingerprint);
    }
  }

  /**
   * A save leaves the row of another fingerprint as it is if and only if there was no such
   * row when its call read the incident, or the row is now what it was then.
   */
  lemma PayloadKeptIff(steps: seq<Step>, window: Time, fingerprint: string)
    requires steps != [] && Possible(steps, window) && Last(steps).Save?
    requires var f := After(Init(steps), window).calls[Last(steps).c];
             f.base.Some? && f.alert.fingerprint != fingerprint
    ensures var s, s' := After(Init(steps), window), After(steps, window);
            var at := s.calls[Last(steps).c].base.value.id;
            var read := RowFor(RowsRead(Init(steps), Last(steps).c, window), at, fingerprint);
            RowFor(s'.tables.alerts, at, fingerprint) == RowFor(s.tables.alerts, at, fingerprint) <==>
            read.None? || read == RowFor(s.tables.alerts, at, fingerprint)
  {
    var s, step := After(Init(steps), window), Last(steps);
    var at, rows := s.calls[step.c].base.value.id, RowsRead(Init(steps), step.c, window);
    SaveFrom(s, step.c, step.id, step.topology, step.t3, window, fingerprint);
    SnapshotsAreRows(Init(steps), window, step.c);
    RowForIsRow(rows, at, fingerprint);
    assert LastWith(s.calls[step.c].base.value.alerts, fingerprint) == AlertInRow(RowFor(rows, at, fingerprint));
  }

  // ---- Whole runs ----

  /** The alerts saved to an incident, in the order of the saves. */
  ghost function SavedTo(steps: seq<Step>, id: string, window: Time): seq<Alert>
    requires Possible(steps, window)
  {
    if steps == [] then [] else
    SavedTo(Init(steps), id, window) + SavedNow(After(Init(steps), window), Last(steps), id, window)
  }

  ghost function SavedNow(s: State, step: Step, id: string, window: Time): seq<Alert>
    requires Enabled(s, step, window)
  {
    if step.Save? && Saving(s.calls[step.c], step.id, step.topology).id == id then [s.calls[step.c].alert] else []
  }

  /** The row carries the last payload saved under the fingerprint; there is none if nothing was. */
  ghost predicate RowIsLatest(steps: seq<Step>, window: Time, id: string, fingerprint: string)
    requires Possible(steps, window)
  {
    RowFor(After(steps, window).tables.alerts, id, fingerprint)
    == RowOfLast(id, SavedTo(steps, id, window), fingerprint)
  }

  ghost predicate Latest(steps: seq<Step>, window: Time)
    requires Possible(steps, window)
  {
    forall id, fingerprint :: RowIsLatest(steps, window, id, fingerprint)
  }

  ghost predicate AlwaysLatest(steps: seq<Step>, window: Time)
    requires Possible(steps, window)
  {
    Latest(steps, window) && (steps != [] ==> AlwaysLatest(Init(steps), window))
  }

  /** The alerts that had been saved to the incident when the call read it. */
  ghost function SavedWhenRead(steps: seq<Step>, c: nat, id: string, window: Time): seq<Alert>
    requires Possible(steps, window)
  {
    PrefixOfRun(steps, window, |ReadPoint(steps, c)|);
    SavedTo(ReadPoint(steps, c), id, window)
  }

  /** The last payload of a fingerprint among these; there is none for a call that opens an incident. */
  ghost function LastKnown(steps: seq<Step>, c: nat, window: Time, fingerprint: string): Option<Alert>
    requires Possible(steps, window) && c in After(steps, window).calls && After(steps, window).calls[c].Looked?
  {
    var f := After(steps, window).calls[c];
    if f.base.Some? then LastWith(SavedWhenRead(steps, c, f.base.value.id, window), fingerprint) else None
  }

  /**
   * Of each other fingerprint that had been saved when the call read the incident, no other
   * payload is the last one saved now.
   */
  ghost predicate UpToDate(steps: seq<Step>, c: nat, window: Time)
    requires Possible(steps, window) && c in After(steps, window).calls && After(steps, window).calls[c].Looked?
  {
    var f := After(steps, window).calls[c];
    f.base.Some? ==>
      forall fingerprint | fingerprint != f.alert.fingerprint ::
        var known := LastKnown(steps, c, window, fingerprint);
        known.None? || known == LastWith(SavedTo(steps, f.base.value.id, window), fingerprint)
  }

  ghost predicate NoStaleSave(steps: seq<Step>, window: Time)
    requires Possible(steps, window)
  {
    steps != [] ==>
      && NoStaleSave(Init(steps), window)
      && (Last(steps).Save? ==> UpToDate(Init(steps), Last(steps).c, window))
  }

  lemma {:induction false} LatestWhenRead(steps: seq<Step>, c: nat, window: Time)
    requires Possible(steps, window) && AlwaysLatest(steps, window)
    ensures Possible(ReadPoint(steps, c), window) && Latest(ReadPoint(steps, c), window)
  {
    if steps != [] {
      if !(Last(steps).ReadAlerts? && Last(steps).c == c) {
        LatestWhenRead(Init(steps), c, window);
      }
    }
  }

  /** While the last payload has always won, a snapshot holds the last payloads of its time. */
  lemma KnownWhenRead(steps: seq<Step>, c: nat, window: Time, fingerprint: string)
    requires Possible(steps, window) && AlwaysLatest(steps, window)
    requires c in After(steps, window).calls && After(steps, window).calls[c].Looked?
    requires After(steps, window).calls[c].base.Some?
    ensures var base := After(steps, window).calls[c].base.value;
            LastWith(base.alerts, fingerprint) == LastWith(SavedWhenRead(steps, c, base.id, window), fingerprint)
  {
    SnapshotsAreRows(steps, window, c);
    LatestWhenRead(steps, c, window);
    var base := After(steps, window).calls[c].base.value;
    assert RowIsLatest(ReadPoint(steps, c), window, base.id, fingerprint);
  }

  lemma OnlySavesWriteRows(s: State, step: Step, window: Time)
    requires Enabled(s, step, window) && !step.Save?
    ensures Next(s, step, window).tables.alerts == s.tables.alerts
  {
  }

  lemma OtherStepKeepsLatest(steps: seq<Step>, window: Time)
    requires steps != [] && Possible(steps, window) && !Last(steps).Save? && Latest(Init(steps), window)
    ensures Latest(steps, window)
  {
    OnlySavesWriteRows(After(Init(steps), window), Last(steps), window);
    forall id, fingerprint ensures RowIsLatest(steps, window, id, fingerprint) {
      assert RowIsLatest(Init(steps), window, id, fingerprint);
      assert SavedTo(steps, id, window) == SavedTo(Init(steps), id, window);
    }
  }

  /** What a save does to one row, as long as the last payload has always won before. */
  lemma SaveKeepsRowLatestIff(steps: seq<Step>, window: Time, at: string, fingerprint: string)
    requires steps != [] && Possible(steps, window) && Last(steps).Save? && AlwaysLatest(Init(steps), window)
    ensures var s, step := After(Init(steps), window), Last(steps);
            var f := s.calls[step.c];
            var known := LastKnown(Init(steps), step.c, window, fingerprint);
            RowIsLatest(steps, window, at, fingerprint) <==>
            at != Saving(f, step.id, step.topology).id || fingerprint == f.alert.fingerprint
            || known.None? || known == LastWith(SavedTo(Init(steps), at, window), fingerprint)
  {
    var s, step := After(Init(steps), window), Last(steps);
    var f := s.calls[step.c];
    SaveFrom(s, step.c, step.id, step.topology, step.t3, window, fingerprint);
    if f.base.Some? {
      KnownWhenRead(Init(steps), step.c, window, fingerprint);
    }
    var before := SavedTo(Init(steps), at, window);
    assert RowIsLatest(Init(steps), window, at, fingerprint);
    LastOfAppended(at, before, f.alert, fingerprint);
    assert before + [] == before;
  }

  lemma SaveKeepsLatestIff(steps: seq<Step>, window: Time)
    requires steps != [] && Possible(steps, window) && Last(steps).Save? && AlwaysLatest(Init(steps), window)
    ensures Latest(steps, window) <==> UpToDate(Init(steps), Last(steps).c, window)
  {
    var s, step := After(Init(steps), window), Last(steps);
    var f := s.calls[step.c];
    forall at, fingerprint
      ensures var known := LastKnown(Init(steps), step.c, window, fingerprint);
              RowIsLatest(steps, window, at, fingerprint) <==>
              at != Saving(f, step.id, step.topology).id || fingerprint == f.alert.fingerprint
              || known.None? || known == LastWith(SavedTo(Init(steps), at, window), fingerprint)
    {
      SaveKeepsRowLatestIff(steps, window, at, fingerprint);
    }
  }

  /**
   * All along a run, each row carries the last payload saved under its fingerprint, if and
   * only if no save is stale: of no other fingerprint does its snapshot hold a payload that
   * is not the last one saved.
   */
  lemma {:induction false} LastPayloadWinsIff(steps: seq<Step>, window: Time)
    requires Possible(steps, window)
    ensures AlwaysLatest(steps, window) <==> NoStaleSave(steps, window)
  {
    if steps != [] {
      LastPayloadWinsIff(Init(steps), window);
      if AlwaysLatest(Init(steps), window) {
        if Last(steps).Save? {
          SaveKeepsLatestIff(steps, window);
        } else {
          OtherStepKeepsLatest(steps, window);
        }
      }
    }
  }

  // ---- Calls that do not overlap on an incident ----

  /** How often the incident has been saved since the call read it. */
  ghost function SavesSinceRead(steps: seq<Step>, c: nat, id: string, window: Time): nat
    requires Possible(steps, window)
  {
    if steps == [] || (Last(steps).ReadAlerts? && Last(steps).c == c) then 0 else
    SavesSinceRead(Init(steps), c, id, window) + |SavedNow(After(Init(steps), window), Last(steps), id, window)|
  }

  /** No save to an incident falls between another call's read of it and that call's save. */
  ghost predicate NoOverlap(steps: seq<Step>, window: Time)
    requires Possible(steps, window)
  {
    steps != [] ==>
      && NoOverlap(Init(steps), window)
      && (Last(steps).Save? ==>
            var f := After(Init(steps), window).calls[Last(steps).c];
            f.base.Some? ==> SavesSinceRead(Init(steps), Last(steps).c, f.base.value.id, window) == 0)
  }

  lemma {:induction false} NothingSavedSince(steps: seq<Step>, c: nat, id: string, window: Time)
    requires Possible(steps, window) && SavesSinceRead(steps, c, id, window) == 0
    requires c in After(steps, window).calls && After(steps, window).calls[c].Looked?
    requires After(steps, window).calls[c].base.Some?
    ensures SavedWhenRead(steps, c, id, window) == SavedTo(steps, id, window)
  {
    if !(Last(steps).ReadAlerts? && Last(steps).c == c) {
      NothingSavedSince(Init(steps), c, id, window);
      assert SavedNow(After(Init(steps), window), Last(steps), id, window) == [];
    } else {
      assert SavedTo(steps, id, window) == SavedTo(Init(steps), id, window);
    }
  }

  /**
   * When calls do not overlap on an incident, the last payload wins over the interleaving, in
   * the order of the saves.
   */
  lemma {:induction false} LastPayloadWinsWithoutOverlap(steps: seq<Step>, window: Time,
                                                         id: string, fingerprint: string)
    requires Possible(steps, window) && NoOverlap(steps, window)
    ensures NoStaleSave(steps, window)
    ensures RowIsLatest(steps, window, id, fingerprint)
  {
    if steps != [] {
      LastPayloadWinsWithoutOverlap(Init(steps), window, id, fingerprint);
      if Last(steps).Save? {
        var c := Last(steps).c;
        var f := After(Init(steps), window).calls[c];
        if f.base.Some? {
          NothingSavedSince(Init(steps), c, f.base.value.id, window);
        }
      }
    }
    LastPayloadWinsIff(steps, window);
  }

  // ---- A run in which a payload goes back ----

  /** One incident is stored, opened at time 0. */
  predicate HasOne(t: Tables, row: IncidentRow, key: string) {
    t.incidents == map["i" := row] && row.id == "i" && row.key == key && row.state == Open && row.lastAlertAt == 0
  }

  lemma FirstSaved(reach: State -> bool, a: Alert, window: Time) returns (s: State, row: IncidentRow)
    requires Closed(reach, window) && reach(INITIAL)
    ensures reach(s) && HasOne(s.tables, row, KeyOf(a)) && s.tables.alerts == [RowOf("i", a)] && s.calls.Keys == {0}
  {
    var s1 := Next(INITIAL, Begin(0, a, 0), window);
    var s2 := Next(s1, FindRow(0, 0, None), window);
    assert s2.calls[0] == Looked(a, 0, None);
    s := Next(s2, Save(0, "i", None, 0), window);
    row := s.tables.incidents["i"];
    assert UpsertAll([], "i", [a]) == [RowOf("i", a)] by {
      assert [a][..0] == [] && UpsertAll([], "i", []) == [];
    }
  }

  /** A call finds the incident and reads its one alert row. */
  lemma OneReads(reach: State -> bool, s: State, c: nat, alert: Alert, window: Time, row: IncidentRow, r: AlertRow)
    returns (s': State)
    requires Closed(reach, window) && reach(s) && window > 0 && HasOne(s.tables, row, KeyOf(alert)) && c !in s.calls
    requires s.tables.alerts == [r] && r.incidentId == "i"
    ensures reach(s') && s'.tables == s.tables
    ensures s'.calls == s.calls[c := Looked(alert, 0, Some(RowToIncident(row, [r])))]
  {
    var s1 := Next(s, Begin(c, alert, 0), window);
    assert IsFind(s.tables.incidents, KeyOf(alert), 0 - window, Some("i"));
    var s2 := Next(s1, FindRow(c, 0, Some("i")), window);
    assert RowsOf([r], "i") == [r];
    assert IsRead(s2.tables.alerts, "i", [r]);
    s' := Next(s2, ReadAlerts(c, [r]), window);
  }

  /** The two saves, the one with the newer payload first. */
  lemma StaleSave(s: State, c: nat, d: nat, a: Alert, newer: Alert, b: Alert, row: IncidentRow, window: Time)
    returns (mid: State, s': State)
    requires c in s.calls && d in s.calls && c != d && row.id == "i"
    requires s.calls[c] == Looked(b, 0, Some(RowToIncident(row, [RowOf("i", a)])))
    requires s.calls[d] == Looked(newer, 0, Some(RowToIncident(row, [RowOf("i", a)])))
    requires a.fingerprint == newer.fingerprint != b.fingerprint
    ensures mid == Next(s, Save(d, "j", None, 0), window) && s' == Next(mid, Save(c, "j", None, 0), window)
    ensures RowFor(mid.tables.alerts, "i", a.fingerprint) == Some(RowOf("i", newer))
    ensures RowFor(s'.tables.alerts, "i", a.fingerprint) == Some(RowOf("i", a))
    ensures mid.calls[d] == Succeeded("i", newer) && s'.calls[d] == Succeeded("i", newer)
    ensures s'.calls[c] == Succeeded("i", b)
  {
    mid := Next(s, Save(d, "j", None, 0), window);
    s' := Next(mid, Save(c, "j", None, 0), window);
    SaveFrom(s, d, "j", None, 0, window, a.fingerprint);
    SaveFrom(mid, c, "j", None, 0, window, a.fingerprint);
    assert AlertOf(RowOf("i", a)) == a && LastWith([a], a.fingerprint) == Some(a);
  }

  lemma GoesBack(reach: State -> bool, a: Alert, newer: Alert, b: Alert, window: Time) returns (mid: State, s: State)
    requires Closed(reach, window) && reach(INITIAL) && window > 0
    requires KeyOf(a) == KeyOf(newer) == KeyOf(b) && a.fingerprint == newer.fingerprint != b.fingerprint
    ensures reach(mid) && reach(s) && PutsBack(mid, s, a, newer, b, window)
  {
    var row;
    s, row := FirstSaved(reach, a, window);
    s := OneReads(reach, s, 1, b, window, row, RowOf("i", a));
    s := OneReads(reach, s, 2, newer, window, row, RowOf("i", a));
    mid, s := StaleSave(s, 1, 2, a, newer, b, row, window);
  }

  /** Call 2 has saved the newer payload; then the save of call 1 puts the older one back. */
  ghost predicate PutsBack(mid: State, s: State, a: Alert, newer: Alert, b: Alert, window: Time) {
    && Enabled(mid, Save(1, "j", None, 0), window) && s == Next(mid, Save(1, "j", None, 0), window)
    && 2 in mid.calls && mid.calls[2] == Succeeded("i", newer)
    && RowFor(mid.tables.alerts, "i", a.fingerprint) == Some(RowOf("i", newer))
    && RowFor(s.tables.alerts, "i", a.fingerprint) == Some(RowOf("i", a))
  }

  /**
   * The last payload need not win: for any two payloads of one fingerprint, and another alert
   * of their key, there is a run in which the newer payload is saved and then the older one
   * is put back.
   */
  lemma PayloadCanGoBack(a: Alert, newer: Alert, b: Alert, window: Time) returns (mid: State, s: State)
    requires window > 0 && KeyOf(a) == KeyOf(newer) == KeyOf(b) && a.fingerprint == newer.fingerprint != b.fingerprint
    ensures Reached(mid, window) && Reached(s, window) && PutsBack(mid, s, a, newer, b, window)
  {
    ReachedIsClosed(window);
    mid, s := GoesBack(s => Reached(s, window), a, newer, b, window);
  }
}
