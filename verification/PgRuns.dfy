/**
 * Sequential runs over the Postgres store, and what they leave in the tables: each alert row
 * carries the latest payload submitted under its fingerprint, and each incident row counts
 * all submissions it received.
 */
module PgRuns {
  import opened Wrappers
  import opened Collections
  import opened Domain
  import opened Correlation
  import opened PgTables
  import opened Runs
  import Lexicographic

  /** As for the in-memory store; `read` is the order the alert rows came in, `t3` the time of the save. */
  datatype PgEvent =
    | PgSubmit(alert: Alert, t1: Time, t2: Time, t3: Time, id: string, topology: Option<TopologySlice>,
               found: Option<string>, read: seq<AlertRow>)
    | PgSetState(id: string, state: IncidentState, at: Time)
  {
    function Plain(): Event {
      match this
      case PgSubmit(alert, t1, t2, _, id, topology, found, _) => Submit(alert, t1, t2, id, topology, found)
      case PgSetState(id, state, _) => SetState(id, state)
    }
  }

  function PgBase(t: Tables, e: PgEvent): Option<Incident>
    requires e.PgSubmit?
  {
    if e.found.Some? && e.found.value in t.incidents then Some(RowToIncident(t.incidents[e.found.value], e.read))
    else None
  }

  function PgApply(t: Tables, e: PgEvent): Tables {
    match e
    case PgSubmit(_, _, _, t3, _, _, _, _) => SaveTables(t, Saved(PgBase(t, e), e.Plain()), t3)
    case PgSetState(id, state, at) =>
      var r := UpdateState(t, id, state, at);
      if r.Some? then r.value else t
  }

  function PgStore(es: seq<PgEvent>): Tables {
    if es == [] then EMPTY else PgApply(PgStore(Init(es)), Last(es))
  }

  ghost predicate PgClockGoesOn(es: seq<PgEvent>, key: string, now: Time) {
    forall i | 0 <= i < |es| && es[i].Plain().Submits(key) :: es[i].t2 <= now
  }

  ghost predicate PgEnabled(es: seq<PgEvent>, e: PgEvent, window: Time) {
    match e
    case PgSubmit(alert, t1, t2, t3, id, _, found, read) =>
      && t1 <= t2 <= t3
      && PgClockGoesOn(es, KeyOf(alert), t1)
      && IsFind(PgStore(es).incidents, KeyOf(alert), t2 - window, found)
      && (if found.Some? then IsRead(PgStore(es).alerts, found.value, read) else id !in PgStore(es).incidents)
    case PgSetState(id, state, _) =>
      id in PgStore(es).incidents && PgStore(es).incidents[id].state == Resolved ==> state == Resolved
  }

  ghost predicate PgValid(es: seq<PgEvent>, window: Time) {
    es != [] ==> PgValid(Init(es), window) && PgEnabled(Init(es), Last(es), window)
  }

  lemma {:induction false} PgStoreWellFormed(es: seq<PgEvent>)
    ensures WellFormed(PgStore(es))
  {
    if es != [] {
      PgStoreWellFormed(Init(es));
      var t, e := PgStore(Init(es)), Last(es);
      if e.PgSubmit? {
        SaveWellFormed(t, Saved(PgBase(t, e), e.Plain()), e.t3);
      }
    }
  }

  // ---- Reading the rows back and saving them again changes none of them ----

  lemma {:induction false} LastWithIn(alerts: seq<Alert>, fingerprint: string)
    ensures var r := LastWith(alerts, fingerprint);
            if r.Some? then r.value in alerts && r.value.fingerprint == fingerprint
            else forall a | a in alerts :: a.fingerprint != fingerprint
  {
    if alerts != [] {
      LastWithIn(alerts[..|alerts| - 1], fingerprint);
      assert alerts == alerts[..|alerts| - 1] + [alerts[|alerts| - 1]];
    }
  }

  lemma AlertRead(read: seq<AlertRow>, r: AlertRow)
    requires r in read
    ensures AlertOf(r) in Alerts(read)
  {
    var i :| 0 <= i < |read| && read[i] == r;
    assert Alerts(read)[i] == AlertOf(r);
  }

  /** Read in any order, the rows of an incident have the payloads of the table. */
  lemma ReadBack(rows: seq<AlertRow>, id: string, read: seq<AlertRow>, fingerprint: string)
    requires Unique(rows) && IsRead(rows, id, read)
    ensures var r := RowFor(rows, id, fingerprint);
            LastWith(Alerts(read), fingerprint) == if r.Some? then Some(AlertOf(r.value)) else None
  {
    var alerts := Alerts(read);
    var r, last := RowFor(rows, id, fingerprint), LastWith(alerts, fingerprint);
    LastWithIn(alerts, fingerprint);
    RowForIsRow(rows, id, fingerprint);
    if last.Some? {
      var i :| 0 <= i < |alerts| && alerts[i] == last.value;
      ReadMember(rows, id, read, read[i]);
      RowForFinds(rows, read[i]);
    } else if r.Some? {
      ReadMember(rows, id, read, r.value);
      AlertRead(read, r.value);
    }
  }

  /** The row of a fingerprint after an alert has been appended to what was read and all is saved. */
  lemma SaveExtended(t: Tables, id: string, read: seq<AlertRow>, alert: Alert, at: string, fingerprint: string)
    requires WellFormed(t) && IsRead(t.alerts, id, read)
    ensures RowFor(UpsertAll(t.alerts, id, Alerts(read) + [alert]), at, fingerprint)
            == if at == id && alert.fingerprint == fingerprint then Some(RowOf(id, alert))
               else RowFor(t.alerts, at, fingerprint)
  {
    var alerts := Alerts(read) + [alert];
    assert alerts[..|alerts| - 1] == Alerts(read);
    UpsertAllKeepsLast(t.alerts, id, alerts, at, fingerprint);
    if at == id {
      ReadBack(t.alerts, id, read, fingerprint);
      RowForIsRow(t.alerts, id, fingerprint);
    }
  }

  /** A submission writes the row of its own fingerprint in its incident, and no other row. */
  lemma SubmitWritesOneRow(es: seq<PgEvent>, window: Time, at: string, fingerprint: string)
    requires es != [] && PgValid(es, window) && Last(es).PgSubmit?
    ensures var e := Last(es);
            RowFor(PgStore(es).alerts, at, fingerprint)
            == if at == e.Plain().Home() && fingerprint == e.alert.fingerprint then Some(RowOf(at, e.alert))
               else RowFor(PgStore(Init(es)).alerts, at, fingerprint)
  {
    var t, e := PgStore(Init(es)), Last(es);
    PgStoreWellFormed(Init(es));
    if e.found.Some? {
      SaveExtended(t, e.found.value, e.read, e.alert, at, fingerprint);
    } else {
      UpsertAllKeepsLast(t.alerts, e.id, [e.alert], at, fingerprint);
    }
  }

  // ---- Last payload wins ----

  /** The alerts submitted to an incident, in order. */
  function SentTo(es: seq<PgEvent>, id: string): seq<Alert> {
    if es == [] then [] else
    SentTo(Init(es), id) + if Last(es).PgSubmit? && Last(es).Plain().Home() == id then [Last(es).alert] else []
  }

  lemma LastSent(es: seq<PgEvent>, id: string, fingerprint: string)
    requires es != []
    ensures LastWith(SentTo(es, id), fingerprint)
            == if Last(es).PgSubmit? && Last(es).Plain().Home() == id && Last(es).alert.fingerprint == fingerprint
               then Some(Last(es).alert)
               else LastWith(SentTo(Init(es), id), fingerprint)
  {
    var before, sent := SentTo(Init(es), id), SentTo(es, id);
    if sent != before {
      assert sent[..|sent| - 1] == before;
    }
  }

  /**
   * After any run, the rows of an incident are its submissions with the last one of each
   * fingerprint kept; so no fingerprint is lost and none has two rows.
   */
  lemma {:induction false} LastPayloadWins(es: seq<PgEvent>, window: Time, id: string, fingerprint: string)
    requires PgValid(es, window)
    ensures Unique(PgStore(es).alerts)
    ensures RowFor(PgStore(es).alerts, id, fingerprint) == RowOfLast(id, SentTo(es, id), fingerprint)
  {
    PgStoreWellFormed(es);
    if es != [] {
      LastPayloadWins(Init(es), window, id, fingerprint);
      LastSent(es, id, fingerprint);
      if Last(es).PgSubmit? {
        SubmitWritesOneRow(es, window, id, fingerprint);
      }
    }
  }

  // ---- What an incident row records ----

  ghost predicate RowRecords(row: IncidentRow, sent: seq<Alert>) {
    && sent != []
    && row.version == Int32(|sent|)
    && row.severity == Lexicographic.MaxOf(Severities(sent))
    && (forall a | a in sent :: KeyOf(a) == row.key)
    && row.service == ScopeOf(sent[0]).service && row.cluster == ScopeOf(sent[0]).cluster
    && row.firstAlertAt == sent[0].startsAt
  }

  lemma ExtendedRowRecords(row: IncidentRow, read: seq<AlertRow>, sent: seq<Alert>, alert: Alert, now: Time,
                           row': IncidentRow)
    requires RowRecords(row, sent) && KeyOf(alert) == row.key
    requires var inc := Extended(RowToIncident(row, read), alert, now);
             && row'.version == Int32(inc.version) && row'.severity == inc.severity && row'.key == inc.key
             && row'.service == inc.service && row'.cluster == inc.cluster && row'.firstAlertAt == inc.firstAlertAt
    ensures RowRecords(row', sent + [alert])
  {
    var ss := Severities(sent + [alert]);
    assert ss[..|ss| - 1] == Severities(sent);
    Int32OfSum(|sent|);
  }

  lemma OpenedRowRecords(t: Tables, id: string, alert: Alert, t1: Time, t3: Time, topology: Option<TopologySlice>)
    ensures RowRecords(SavedRow(t, Opened(id, alert, t1, topology), t3), [alert])
  {
    assert Severities([alert]) == [SeverityOf(alert)];
  }

  lemma {:induction false} NothingSentYet(es: seq<PgEvent>, window: Time, id: string)
    requires PgValid(es, window) && id !in PgStore(es).incidents
    ensures SentTo(es, id) == []
  {
    if es != [] {
      PgStoreWellFormed(Init(es));
      NothingSentYet(Init(es), window, id);
    }
  }

  /**
   * A row's version is its number of submissions (modulo 2^32), and its severity the maximum
   * over all of them, including those whose payload has been overwritten since.
   */
  lemma {:induction false} RowsRecordSubmissions(es: seq<PgEvent>, window: Time, id: string)
    requires PgValid(es, window) && id in PgStore(es).incidents
    ensures RowRecords(PgStore(es).incidents[id], SentTo(es, id))
  {
    var t, e := PgStore(Init(es)), Last(es);
    PgStoreWellFormed(Init(es));
    if id in t.incidents {
      RowsRecordSubmissions(Init(es), window, id);
    } else {
      NothingSentYet(Init(es), window, id);
    }
    if e.PgSubmit? && e.Plain().Home() == id {
      if e.found.Some? {
        ExtendedRowRecords(t.incidents[id], e.read, SentTo(Init(es), id), e.alert, e.t1, PgStore(es).incidents[id]);
      } else {
        assert SentTo(es, id) == [e.alert];
        OpenedRowRecords(t, e.id, e.alert, e.t1, e.t3, e.topology);
      }
    } else {
      assert SentTo(es, id) == SentTo(Init(es), id);
    }
  }
}
