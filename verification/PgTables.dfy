/**
 * The two tables of the Postgres store and what its SQL statements do to them. Incidents
 * are keyed by their primary key. Alert rows are a list, so that "at most one row for an
 * incident and a fingerprint" is something the upsert has to keep.
 */
module PgTables {
  import opened Wrappers
  import opened Domain

  /** A signed 32-bit column takes a number modulo 2^32. */
  function Int32(x: int): (r: int)
    ensures -0x8000_0000 <= r < 0x8000_0000
    ensures (x - r) % 0x1_0000_0000 == 0
    ensures -0x8000_0000 <= x < 0x8000_0000 ==> r == x
  {
    (x + 0x8000_0000) % 0x1_0000_0000 - 0x8000_0000
  }

  lemma Int32OfSum(x: int)
    ensures Int32(Int32(x) + 1) == Int32(x + 1)
  {
  }

  datatype IncidentRow = IncidentRow(
    id: string,
    service: string,
    cluster: string,
    environment: string,
    severity: string,
    key: string,
    version: int,
    state: IncidentState,
    createdAt: Time,
    updatedAt: Time,
    firstAlertAt: Time,
    lastAlertAt: Time,
    topology: Option<TopologySlice>,
    attempts: int,
    prUrl: Option<string>,
    rca: Option<string>)

  datatype AlertRow = AlertRow(
    incidentId: string,
    fingerprint: string,
    labels: Labels,
    annotations: Labels,
    startsAt: Time,
    endsAt: Option<Time>)

  datatype Tables = Tables(incidents: map<string, IncidentRow>, alerts: seq<AlertRow>)

  const EMPTY := Tables(map[], [])

  function RowOf(id: string, alert: Alert): AlertRow {
    AlertRow(id, alert.fingerprint, alert.labels, alert.annotations, alert.startsAt, alert.endsAt)
  }

  function AlertOf(row: AlertRow): Alert {
    Alert(row.fingerprint, row.labels, row.annotations, row.startsAt, row.endsAt)
  }

  // ---- CreateAlert: insert, or on conflict overwrite the payload in place ----

  predicate SameRow(row: AlertRow, id: string, fingerprint: string) {
    row.incidentId == id && row.fingerprint == fingerprint
  }

  function Upsert(rows: seq<AlertRow>, row: AlertRow): seq<AlertRow> {
    if rows == [] then [row]
    else if SameRow(rows[0], row.incidentId, row.fingerprint) then [row] + rows[1..]
    else [rows[0]] + Upsert(rows[1..], row)
  }

  /** The foreign key: an alert row needs its incident. */
  function CreateAlert(t: Tables, row: AlertRow): Option<Tables> {
    if row.incidentId in t.incidents then Some(t.(alerts := Upsert(t.alerts, row))) else None
  }

  function RowFor(rows: seq<AlertRow>, id: string, fingerprint: string): Option<AlertRow> {
    if rows == [] then None
    else if SameRow(rows[0], id, fingerprint) then Some(rows[0])
    else RowFor(rows[1..], id, fingerprint)
  }

  ghost predicate Unique(rows: seq<AlertRow>) {
    forall i, j | 0 <= i < j < |rows| :: !SameRow(rows[i], rows[j].incidentId, rows[j].fingerprint)
  }

  ghost predicate WellFormed(t: Tables) {
    && Unique(t.alerts)
    && (forall r | r in t.alerts :: r.incidentId in t.incidents)
    && (forall id | id in t.incidents :: t.incidents[id].id == id)
  }

  /** An upsert is an update of the table seen as a map from (incident, fingerprint). */
  lemma {:induction false} UpsertUpdates(rows: seq<AlertRow>, row: AlertRow, id: string, fingerprint: string)
    ensures RowFor(Upsert(rows, row), id, fingerprint)
            == if SameRow(row, id, fingerprint) then Some(row) else RowFor(rows, id, fingerprint)
  {
    if rows != [] && !SameRow(rows[0], row.incidentId, row.fingerprint) {
      UpsertUpdates(rows[1..], row, id, fingerprint);
    }
  }

  lemma {:induction false} UpsertRows(rows: seq<AlertRow>, row: AlertRow, r: AlertRow)
    requires r in Upsert(rows, row)
    ensures r == row || (r in rows && !SameRow(r, row.incidentId, row.fingerprint)) || (r in rows && !Unique(rows))
  {
    if rows != [] {
      if SameRow(rows[0], row.incidentId, row.fingerprint) {
        if r in rows[1..] {
          var i :| 0 <= i < |rows| - 1 && rows[1..][i] == r;
          assert rows[i + 1] == r;
        }
      } else if r in Upsert(rows[1..], row) {
        UpsertRows(rows[1..], row, r);
        if !Unique(rows[1..]) {
          TailUnique(rows);
        }
      }
    }
  }

  lemma TailUnique(rows: seq<AlertRow>)
    requires rows != []
    ensures Unique(rows) ==> Unique(rows[1..])
  {
  }

  lemma {:induction false} UpsertKeepsUnique(rows: seq<AlertRow>, row: AlertRow)
    requires Unique(rows)
    ensures Unique(Upsert(rows, row))
  {
    if rows != [] {
      TailUnique(rows);
      if !SameRow(rows[0], row.incidentId, row.fingerprint) {
        UpsertKeepsUnique(rows[1..], row);
        forall r | r in Upsert(rows[1..], row) ensures !SameRow(rows[0], r.incidentId, r.fingerprint) {
          UpsertRows(rows[1..], row, r);
        }
        var after := Upsert(rows, row);
        forall i, j | 0 <= i < j < |after| ensures !SameRow(after[i], after[j].incidentId, after[j].fingerprint) {
          if i == 0 {
            assert after[j] in Upsert(rows[1..], row);
          }
        }
      }
    }
  }

  /** In a table without duplicates, a row is found by its incident and fingerprint. */
  lemma {:induction false} RowForFinds(rows: seq<AlertRow>, r: AlertRow)
    requires Unique(rows)
    ensures r in rows <==> RowFor(rows, r.incidentId, r.fingerprint) == Some(r)
  {
    if rows != [] {
      TailUnique(rows);
      RowForFinds(rows[1..], r);
      assert r in rows <==> r == rows[0] || r in rows[1..];
      if r in rows[1..] {
        var i :| 0 <= i < |rows| - 1 && rows[1..][i] == r;
        assert rows[i + 1] == r;
      }
    }
  }

  lemma {:induction false} RowForIsRow(rows: seq<AlertRow>, id: string, fingerprint: string)
    ensures var r := RowFor(rows, id, fingerprint);
            r.Some? ==> r.value in rows && SameRow(r.value, id, fingerprint)
  {
    if rows != [] {
      RowForIsRow(rows[1..], id, fingerprint);
    }
  }

  // ---- GetAlertsByIncidentID: the rows of an incident, latest start first ----

  function RowsOf(rows: seq<AlertRow>, id: string): seq<AlertRow> {
    if rows == [] then []
    else (if rows[0].incidentId == id then [rows[0]] else []) + RowsOf(rows[1..], id)
  }

  ghost predicate LatestFirst(rows: seq<AlertRow>) {
    forall i, j | 0 <= i < j < |rows| :: rows[i].startsAt >= rows[j].startsAt
  }

  /** Every order the statement may return the rows in: ties are left open. */
  ghost predicate IsRead(rows: seq<AlertRow>, id: string, read: seq<AlertRow>) {
    LatestFirst(read) && multiset(read) == multiset(RowsOf(rows, id))
  }

  lemma {:induction false} RowsOfMember(rows: seq<AlertRow>, id: string, r: AlertRow)
    ensures r in RowsOf(rows, id) <==> r in rows && r.incidentId == id
  {
    if rows != [] {
      RowsOfMember(rows[1..], id, r);
    }
  }

  lemma ReadMember(rows: seq<AlertRow>, id: string, read: seq<AlertRow>, r: AlertRow)
    requires IsRead(rows, id, read)
    ensures r in read <==> r in rows && r.incidentId == id
  {
    RowsOfMember(rows, id, r);
    assert r in read <==> r in multiset(read);
    assert r in RowsOf(rows, id) <==> r in multiset(RowsOf(rows, id));
  }

  function InsertByStart(row: AlertRow, rows: seq<AlertRow>): seq<AlertRow> {
    if rows == [] || row.startsAt >= rows[0].startsAt then [row] + rows
    else [rows[0]] + InsertByStart(row, rows[1..])
  }

  lemma {:induction false} InsertByStartAdds(row: AlertRow, rows: seq<AlertRow>)
    ensures multiset(InsertByStart(row, rows)) == multiset(rows) + multiset{row}
  {
    if rows != [] {
      InsertByStartAdds(row, rows[1..]);
      assert rows == [rows[0]] + rows[1..];
    }
  }

  lemma {:induction false} InsertByStartBound(row: AlertRow, rows: seq<AlertRow>, bound: Time)
    requires row.startsAt <= bound && forall r | r in rows :: r.startsAt <= bound
    ensures forall r | r in InsertByStart(row, rows) :: r.startsAt <= bound
  {
    if rows != [] {
      InsertByStartBound(row, rows[1..], bound);
    }
  }

  lemma {:induction false} InsertByStartOrders(row: AlertRow, rows: seq<AlertRow>)
    requires LatestFirst(rows)
    ensures LatestFirst(InsertByStart(row, rows))
  {
    if rows != [] && row.startsAt < rows[0].startsAt {
      InsertByStartOrders(row, rows[1..]);
      InsertByStartBound(row, rows[1..], rows[0].startsAt);
    }
  }

  // ---- The statements on incidents ----

  /** Save: the row is created with fresh side columns, or updated keeping them and its creation time. */
  function SavedRow(t: Tables, inc: Incident, now: Time): IncidentRow {
    var created := IncidentRow(
                     inc.id, inc.service, inc.cluster, inc.environment, inc.severity, inc.key, Int32(inc.version),
                     inc.state, inc.createdAt, inc.updatedAt, inc.firstAlertAt, inc.lastAlertAt, inc.topology,
                     0, None, None);
    if inc.id !in t.incidents then created else
    var existing := t.incidents[inc.id];
    created.(createdAt := existing.createdAt, updatedAt := now,
             attempts := existing.attempts, prUrl := existing.prUrl, rca := existing.rca)
  }

  function UpsertAll(rows: seq<AlertRow>, id: string, alerts: seq<Alert>): seq<AlertRow> {
    if alerts == [] then rows
    else Upsert(UpsertAll(rows, id, alerts[..|alerts| - 1]), RowOf(id, alerts[|alerts| - 1]))
  }

  /** What a save that commits does. */
  function SaveTables(t: Tables, inc: Incident, now: Time): Tables {
    Tables(t.incidents[inc.id := SavedRow(t, inc, now)], UpsertAll(t.alerts, inc.id, inc.alerts))
  }

  /** The last of a list of alerts with a fingerprint. */
  function LastWith(alerts: seq<Alert>, fingerprint: string): Option<Alert> {
    if alerts == [] then None
    else if alerts[|alerts| - 1].fingerprint == fingerprint then Some(alerts[|alerts| - 1])
    else LastWith(alerts[..|alerts| - 1], fingerprint)
  }

  /** The row that the last of a list of alerts with a fingerprint would have. */
  function RowOfLast(id: string, alerts: seq<Alert>, fingerprint: string): Option<AlertRow> {
    var last := LastWith(alerts, fingerprint);
    if last.Some? then Some(RowOf(id, last.value)) else None
  }

  lemma LastOfAppended(id: string, alerts: seq<Alert>, alert: Alert, fingerprint: string)
    ensures RowOfLast(id, alerts + [alert], fingerprint)
            == if alert.fingerprint == fingerprint then Some(RowOf(id, alert)) else RowOfLast(id, alerts, fingerprint)
  {
    assert (alerts + [alert])[..|alerts|] == alerts;
  }

  /** Upserting a list leaves, for each fingerprint in it, its last payload, and the other rows alone. */
  lemma {:induction false} UpsertAllKeepsLast(rows: seq<AlertRow>, id: string, alerts: seq<Alert>,
                                              at: string, fingerprint: string)
    ensures RowFor(UpsertAll(rows, id, alerts), at, fingerprint)
            == if at == id && LastWith(alerts, fingerprint).Some?
               then Some(RowOf(id, LastWith(alerts, fingerprint).value))
               else RowFor(rows, at, fingerprint)
  {
    if alerts != [] {
      var init, last := alerts[..|alerts| - 1], alerts[|alerts| - 1];
      UpsertAllKeepsLast(rows, id, init, at, fingerprint);
      UpsertUpdates(UpsertAll(rows, id, init), RowOf(id, last), at, fingerprint);
    }
  }

  lemma {:induction false} UpsertAllWellFormed(rows: seq<AlertRow>, id: string, alerts: seq<Alert>)
    requires Unique(rows)
    ensures Unique(UpsertAll(rows, id, alerts))
    ensures forall r | r in UpsertAll(rows, id, alerts) :: r.incidentId == id || r in rows
  {
    if alerts != [] {
      var init, last := alerts[..|alerts| - 1], alerts[|alerts| - 1];
      UpsertAllWellFormed(rows, id, init);
      UpsertKeepsUnique(UpsertAll(rows, id, init), RowOf(id, last));
      forall r | r in UpsertAll(rows, id, alerts) ensures r.incidentId == id || r in rows {
        UpsertRows(UpsertAll(rows, id, init), RowOf(id, last), r);
      }
    }
  }

  lemma SaveWellFormed(t: Tables, inc: Incident, now: Time)
    requires WellFormed(t)
    ensures WellFormed(SaveTables(t, inc, now))
  {
    UpsertAllWellFormed(t.alerts, inc.id, inc.alerts);
  }

  const MAX_INT32 := 0x7FFF_FFFF

  /** The single-column updates; `None` is the error of a missing row or of a column out of range. */
  function IncrementAttempts(t: Tables, id: string, now: Time): Option<Tables> {
    if id !in t.incidents || t.incidents[id].attempts >= MAX_INT32 then None else
    var row := t.incidents[id];
    Some(t.(incidents := t.incidents[id := row.(attempts := row.attempts + 1, updatedAt := now)]))
  }

  function UpdatePR(t: Tables, id: string, url: Option<string>, now: Time): Option<Tables> {
    if id !in t.incidents then None else
    Some(t.(incidents := t.incidents[id := t.incidents[id].(prUrl := url, updatedAt := now)]))
  }

  function UpdateRCA(t: Tables, id: string, rca: Option<string>, now: Time): Option<Tables> {
    if id !in t.incidents then None else
    Some(t.(incidents := t.incidents[id := t.incidents[id].(rca := rca, updatedAt := now)]))
  }

  function UpdateState(t: Tables, id: string, state: IncidentState, now: Time): Option<Tables> {
    if id !in t.incidents then None else
    Some(t.(incidents := t.incidents[id := t.incidents[id].(state := state, updatedAt := now)]))
  }

  // ---- FindOpenByCorrelationKey ----

  predicate LiveRow(row: IncidentRow, key: string, cutoff: Time) {
    row.key == key && row.state != Resolved && row.lastAlertAt > cutoff
  }

  /** Every answer of the windowed find: a live row with the latest alert time. */
  ghost predicate IsFind(incidents: map<string, IncidentRow>, key: string, cutoff: Time, found: Option<string>) {
    match found
    case None => forall id | id in incidents :: !LiveRow(incidents[id], key, cutoff)
    case Some(best) =>
      && best in incidents
      && LiveRow(incidents[best], key, cutoff)
      && forall id | id in incidents && LiveRow(incidents[id], key, cutoff) ::
           incidents[id].lastAlertAt <= incidents[best].lastAlertAt
  }

  function Alerts(rows: seq<AlertRow>): seq<Alert> {
    seq(|rows|, i requires 0 <= i < |rows| => AlertOf(rows[i]))
  }

  function RowToIncident(row: IncidentRow, rows: seq<AlertRow>): Incident {
    Incident(
      row.id, row.service, row.cluster, row.environment, row.severity, Alerts(rows), row.key, row.version,
      row.state, row.createdAt, row.updatedAt, row.firstAlertAt, row.lastAlertAt, row.topology)
  }
}
