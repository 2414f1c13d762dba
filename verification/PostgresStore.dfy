/**
 * The Postgres-backed store: a save is one transaction that checks for the incident, creates
 * or updates it, and upserts its alerts one by one. The database may report an error at any
 * statement; `fails` says at which one, counting the statements of a call from 0.
 */
module PostgresStore {
  import opened Wrappers
  import opened Collections
  import opened Domain
  import opened Correlation
  import opened PgTables
  import opened Runs
  import opened PgRuns
  import Correlator
  import opened PgFields

  lemma UpsertAllSnoc(rows: seq<AlertRow>, id: string, alerts: seq<Alert>, n: nat)
    requires n < |alerts|
    ensures UpsertAll(rows, id, alerts[..n + 1]) == Upsert(UpsertAll(rows, id, alerts[..n]), RowOf(id, alerts[n]))
  {
    assert alerts[..n + 1][..n] == alerts[..n];
  }

  lemma {:induction false} RowsOfSnoc(rows: seq<AlertRow>, id: string, row: AlertRow)
    ensures RowsOf(rows + [row], id) == RowsOf(rows, id) + if row.incidentId == id then [row] else []
  {
    if rows == [] {
      assert rows + [row] == [row];
    } else {
      RowsOfSnoc(rows[1..], id, row);
      assert (rows + [row])[1..] == rows[1..] + [row];
    }
  }

  lemma {:induction false} RowsOfCount(rows: seq<AlertRow>, id: string, r: AlertRow)
    ensures multiset(RowsOf(rows, id))[r] == if r.incidentId == id then multiset(rows)[r] else 0
  {
    if rows != [] {
      RowsOfCount(rows[1..], id, r);
      assert rows == [rows[0]] + rows[1..];
    }
  }

  class PostgresIncidentStore {
    var tables: Tables

    constructor ()
      ensures tables == EMPTY
    {
      tables := EMPTY;
    }

    /**
     * All or nothing: a save that fails at any statement, the commit included, leaves both
     * tables as they were; one that does not fail saves the incident and all its alerts.
     */
    method Save(inc: Incident, now: Time, fails: Option<nat>) returns (ok: bool)
      modifies this
      ensures ok <==> fails.None? || fails.value > 3 + |inc.alerts|
      ensures tables == if ok then SaveTables(old(tables), inc, now) else old(tables)
    {
      if fails == Some(0) {
        return false;
      }
      var tx := tables;

      if fails == Some(1) {
        return false;
      }
      var isNew := inc.id !in tx.incidents;

      if fails == Some(2) {
        return false;
      }
      if isNew {
        var row := IncidentRow(
          inc.id, inc.service, inc.cluster, inc.environment, inc.severity, inc.key, Int32(inc.version),
          inc.state, inc.createdAt, inc.updatedAt, inc.firstAlertAt, inc.lastAlertAt, inc.topology, 0, None, None);
        tx := tx.(incidents := tx.incidents[inc.id := row]);
      } else {
        var existing := tx.incidents[inc.id];
        var row := IncidentRow(
          inc.id, inc.service, inc.cluster, inc.environment, inc.severity, inc.key, Int32(inc.version),
          inc.state, existing.createdAt, now, inc.firstAlertAt, inc.lastAlertAt, inc.topology,
          existing.attempts, existing.prUrl, existing.rca);
        tx := tx.(incidents := tx.incidents[inc.id := row]);
      }

      var i := 0;
      while i < |inc.alerts|
        invariant 0 <= i <= |inc.alerts|
        invariant tables == old(tables)
        invariant fails.Some? ==> fails.value >= 3 + i
        invariant tx.incidents == old(tables).incidents[inc.id := SavedRow(old(tables), inc, now)]
        invariant tx.alerts == UpsertAll(old(tables).alerts, inc.id, inc.alerts[..i])
      {
        if fails == Some(3 + i) {
          return false;
        }
        UpsertAllSnoc(old(tables).alerts, inc.id, inc.alerts, i);
        var r := CreateAlert(tx, RowOf(inc.id, inc.alerts[i]));
        if r.None? {
          return false;
        }
        tx := r.value;
        i := i + 1;
      }
      assert inc.alerts[..i] == inc.alerts;

      if fails == Some(3 + i) {
        return false;
      }
      tables := tx;
      return true;
    }

    /** The alert rows of an incident, latest start first. */
    method GetAlertsByIncidentID(id: string) returns (items: seq<AlertRow>)
      ensures IsRead(tables.alerts, id, items)
      ensures forall i, j | 0 <= i < j < |items| :: items[i].startsAt >= items[j].startsAt
      ensures forall r: AlertRow :: multiset(items)[r] == if r.incidentId == id then multiset(tables.alerts)[r] else 0
    {
      items := [];
      var i := 0;
      while i < |tables.alerts|
        invariant 0 <= i <= |tables.alerts|
        invariant IsRead(tables.alerts[..i], id, items)
      {
        var row := tables.alerts[i];
        assert tables.alerts[..i + 1] == tables.alerts[..i] + [row];
        RowsOfSnoc(tables.alerts[..i], id, row);
        if row.incidentId == id {
          InsertByStartAdds(row, items);
          InsertByStartOrders(row, items);
          items := InsertByStart(row, items);
        }
        i := i + 1;
      }
      assert tables.alerts[..i] == tables.alerts;
      forall r: AlertRow
        ensures multiset(RowsOf(tables.alerts, id))[r] == if r.incidentId == id then multiset(tables.alerts)[r] else 0
      {
        RowsOfCount(tables.alerts, id, r);
      }
    }

    /** Decoding keeps every row, in order. */
    static method RowToDomain(row: IncidentRow, rows: seq<AlertRow>) returns (inc: Incident)
      ensures inc == RowToIncident(row, rows)
      ensures inc.id == row.id && inc.service == row.service && inc.cluster == row.cluster
      ensures inc.environment == row.environment && inc.severity == row.severity && inc.key == row.key
      ensures inc.version == row.version && inc.state == row.state && inc.topology == row.topology
      ensures inc.createdAt == row.createdAt && inc.updatedAt == row.updatedAt
      ensures inc.firstAlertAt == row.firstAlertAt && inc.lastAlertAt == row.lastAlertAt
      ensures |inc.alerts| == |rows| && forall i | 0 <= i < |rows| :: SamePayload(inc.alerts[i], rows[i])
    {
      var alerts := [];
      for i := 0 to |rows|
        invariant alerts == Alerts(rows[..i])
      {
        var a := rows[i];
        alerts := alerts + [Alert(a.fingerprint, a.labels, a.annotations, a.startsAt, a.endsAt)];
      }
      assert rows[..|rows|] == rows;
      inc := Incident(
        row.id, row.service, row.cluster, row.environment, row.severity, alerts, row.key, row.version,
        row.state, row.createdAt, row.updatedAt, row.firstAlertAt, row.lastAlertAt, row.topology);
    }

    /** An error of either statement is returned, not taken for a missing incident. */
    method GetByID(id: string, fails: Option<nat>) returns (r: Result<Option<Incident>>)
      ensures r.Error? <==> fails == Some(0) || (fails == Some(1) && id in tables.incidents)
      ensures r.Ok? ==> (r.value.Some? <==> id in tables.incidents)
      ensures r.Ok? && r.value.Some? ==>
                exists read ::
                  IsRead(tables.alerts, id, read) && r.value.value == RowToIncident(tables.incidents[id], read)
    {
      if fails == Some(0) {
        return Error;
      }
      if id !in tables.incidents {
        return Ok(None);
      }
      if fails == Some(1) {
        return Error;
      }
      var read := GetAlertsByIncidentID(id);
      var inc := RowToDomain(tables.incidents[id], read);
      r := Ok(Some(inc));
    }

    /** The statement's own search: a live row with the latest alert time, whatever the order of the table. */
    method FindRow(key: string, cutoff: Time) returns (best: Option<string>)
      ensures IsFind(tables.incidents, key, cutoff, best)
      ensures best.Some? ==>
                && best.value in tables.incidents
                && var row := tables.incidents[best.value];
                   row.key == key && row.state != Resolved && row.lastAlertAt > cutoff
      ensures forall row | row in tables.incidents.Values && row.key == key && row.state != Resolved
                           && row.lastAlertAt > cutoff ::
                best.Some? && row.lastAlertAt <= tables.incidents[best.value].lastAlertAt
    {
      best := None;
      var rest := tables.incidents.Keys;
      while rest != {}
        invariant rest <= tables.incidents.Keys
        invariant best.Some? ==> best.value in tables.incidents && LiveRow(tables.incidents[best.value], key, cutoff)
        invariant forall id | id in tables.incidents && id !in rest && LiveRow(tables.incidents[id], key, cutoff) ::
                    best.Some? && tables.incidents[id].lastAlertAt <= tables.incidents[best.value].lastAlertAt
        decreases rest
      {
        var id :| id in rest;
        rest := rest - {id};
        if LiveRow(tables.incidents[id], key, cutoff) {
          if best.None? || tables.incidents[id].lastAlertAt > tables.incidents[best.value].lastAlertAt {
            best := Some(id);
          }
        }
      }
    }

    /** `found` and `read` are what the two statements returned, as far as they were reached. */
    method FindOpenByCorrelationKey(key: string, window: Time, now: Time, fails: Option<nat>)
      returns (r: Result<Option<Incident>>, found: Option<string>, read: seq<AlertRow>)
      ensures fails.None? ==> r.Ok?
      ensures fails == Some(0) ==> r.Error?
      ensures fails != Some(0) ==> IsFind(tables.incidents, key, now - window, found)
      ensures fails == Some(1) ==> (r.Error? <==> found.Some?)
      ensures r.Ok? && found.Some? ==> IsRead(tables.alerts, found.value, read)
      ensures r.Ok? ==>
                && fails != Some(0)
                && r.value == if found.Some? then Some(RowToIncident(tables.incidents[found.value], read)) else None
    {
      var cutoff := now - window;
      found, read := None, [];
      if fails == Some(0) {
        return Error, found, read;
      }
      found := FindRow(key, cutoff);
      if found.None? {
        return Ok(None), found, read;
      }
      assert found.value in tables.incidents;
      if fails == Some(1) {
        return Error, found, read;
      }
      read := GetAlertsByIncidentID(found.value);
      var inc := RowToDomain(tables.incidents[found.value], read);
      r := Ok(Some(inc));
    }
  }

  /** The clock readings of a call, after those of the earlier calls on its key. */
  ghost predicate Timely(log: seq<PgEvent>, key: string, t1: Time, t2: Time, t3: Time) {
    t1 <= t2 <= t3 && PgClockGoesOn(log, key, t1)
  }

  lemma OneMore(log: seq<PgEvent>, e: PgEvent, window: Time, t: Tables)
    requires e.PgSubmit? && IsFind(t.incidents, KeyOf(e.alert), e.t2 - window, e.found)
    requires e.found.Some? ==> IsRead(t.alerts, e.found.value, e.read)
    ensures Init(log + [e]) == log && Last(log + [e]) == e
    ensures t == PgStore(log) && Timely(log, KeyOf(e.alert), e.t1, e.t2, e.t3) && e.id !in t.incidents ==>
              PgValid(log, window) ==> PgValid(log + [e], window) && PgStore(log + [e]) == PgApply(t, e)
  {
    assert Init(log + [e]) == log;
  }

  /** What a call saves, given what its lookup returned, is what its event stands for. */
  lemma SavedFromRead(t: Tables, e: PgEvent, found: Option<Incident>)
    requires e.PgSubmit? && (e.found.Some? ==> e.found.value in t.incidents)
    requires found == if e.found.Some? then Some(RowToIncident(t.incidents[e.found.value], e.read)) else None
    ensures SaveTables(t, Saved(found, e.Plain()), e.t3) == PgApply(t, e)
  {
  }

  /** The correlator over the Postgres store; its log is a run of that store. */
  class PgCorrelator {
    const window: Time
    const store: PostgresIncidentStore
    ghost var log: seq<PgEvent>

    ghost predicate Tracked()
      reads this, store
    {
      PgValid(log, window) && store.tables == PgStore(log)
    }

    constructor (store: PostgresIncidentStore, window: Time)
      requires store.tables == EMPTY
      ensures this.store == store && this.window == window && log == [] && Tracked()
    {
      this.store := store;
      this.window := window;
      log := [];
    }

    /** The lookup, the change and the save; `e` is the event that this is, if it succeeds. */
    method FindAndSave(alert: Alert, t1: Time, t2: Time, t3: Time, id: string, topology: Option<TopologySlice>,
                       findFails: Option<nat>, saveFails: Option<nat>)
      returns (ok: bool, ghost e: PgEvent)
      modifies store
      ensures findFails.None? && saveFails.None? ==> ok
      ensures findFails == Some(0) || saveFails == Some(0) ==> !ok
      ensures !ok ==> store.tables == old(store.tables)
      ensures e.PgSubmit? && e == PgSubmit(alert, t1, t2, t3, id, topology, e.found, e.read)
      ensures ok ==>
                && IsFind(old(store.tables).incidents, KeyOf(alert), t2 - window, e.found)
                && (e.found.Some? ==> findFails != Some(1) && IsRead(old(store.tables).alerts, e.found.value, e.read))
                && store.tables == PgApply(old(store.tables), e)
    {
      var key := KeyOf(alert);
      var found, at, read := store.FindOpenByCorrelationKey(key, window, t2, findFails);
      e := PgSubmit(alert, t1, t2, t3, id, topology, at, read);
      if found.Error? {
        return false, e;
      }
      var inc := Correlator.NextIncident(found.value, alert, t1, id, topology);
      SavedFromRead(store.tables, e, found.value);
      ok := store.Save(inc, t3, saveFails);
    }

    /**
     * Processes one alert. When the lookup or the save fails, the error is returned, nothing
     * has changed and nothing is logged.
     */
    method ProcessAlert(alert: Alert, t1: Time, t2: Time, t3: Time, id: string, topology: Option<TopologySlice>,
                        findFails: Option<nat>, saveFails: Option<nat>)
      returns (ok: bool)
      modifies this`log, store
      ensures findFails.None? && saveFails.None? ==> ok
      ensures findFails == Some(0) || saveFails == Some(0) ==> !ok
      ensures !ok ==> log == old(log) && store.tables == old(store.tables)
      ensures ok ==>
                && log != [] && Init(log) == old(log)
                && Last(log).PgSubmit?
                && Last(log) == PgSubmit(alert, t1, t2, t3, id, topology, Last(log).found, Last(log).read)
                && IsFind(old(store.tables).incidents, KeyOf(alert), t2 - window, Last(log).found)
                && (Last(log).found.Some? ==>
                      findFails != Some(1) && IsRead(old(store.tables).alerts, Last(log).found.value, Last(log).read))
                && store.tables == PgApply(old(store.tables), Last(log))
      ensures old(Tracked()) && Timely(old(log), KeyOf(alert), t1, t2, t3) && id !in old(store.tables).incidents ==>
                Tracked()
    {
      ghost var e;
      ok, e := FindAndSave(alert, t1, t2, t3, id, topology, findFails, saveFails);
      if ok {
        OneMore(log, e, window, old(store.tables));
        log := log + [e];
      }
    }
  }
}
