/**
 * Every column of an incident row, read off the history of its run, and every field of what is
 * read back: after one save, and after any run, where it is what the in-memory store holds.
 */
module PgFields {
  import opened Wrappers
  import opened Collections
  import opened Domain
  import opened Correlation
  import opened LabelReading
  import opened IncidentFields
  import opened PgTables
  import opened Runs
  import opened PgRuns
  import opened StoreSimulation
  import Lexicographic

  function Plains(es: seq<PgEvent>): seq<Event> {
    seq(|es|, i requires 0 <= i < |es| => es[i].Plain())
  }

  lemma PlainsGrow(es: seq<PgEvent>)
    requires es != []
    ensures Plains(es) != [] && Init(Plains(es)) == Plains(Init(es)) && Last(Plains(es)) == Last(es).Plain()
  {
  }

  /** The time of the latest statement that wrote the row: its creation, an update or a move. */
  function LastWritten(es: seq<PgEvent>, id: string): Time {
    if es == [] then 0 else
    match Last(es)
    case PgSubmit(_, t1, _, t3, _, _, found, _) =>
      if SubmitsTo(Last(es).Plain(), id) then (if found.None? then t1 else t3) else LastWritten(Init(es), id)
    case PgSetState(of, _, at) =>
      if of == id && FirstTo(Plains(Init(es)), id).Some? then at else LastWritten(Init(es), id)
  }

  // ---- The columns of a row ----

  ghost predicate RowOpenedBy(row: IncidentRow, first: Event)
    requires first.Submit?
  {
    && row.id == first.id
    && IsServiceOf(first.alert.labels, row.service)
    && Reads(first.alert.labels, "cluster", row.cluster)
    && Reads(first.alert.labels, "environment", row.environment)
    && IsKeyOf(first.alert.labels, row.key)
    && row.createdAt == first.t1
    && row.firstAlertAt == first.alert.startsAt
    && row.topology == first.topology
  }

  ghost predicate RowMovedTo(row: IncidentRow, sent: nat, last: Event, state: IncidentState, written: Time)
    requires last.Submit?
  {
    && row.version == Int32(sent)
    && row.lastAlertAt == last.t1
    && row.updatedAt == written
    && row.state == state
  }

  ghost predicate RowDescribed(es: seq<PgEvent>, id: string) {
    var plain := Plains(es);
    if FirstTo(plain, id).None? then
      id !in PgStore(es).incidents && IncidentFields.SentTo(plain, id) == [] && StateOf(plain, id) == Open
    else
    && id in PgStore(es).incidents
    && RowOpenedBy(PgStore(es).incidents[id], FirstTo(plain, id).value)
    && RowMovedTo(PgStore(es).incidents[id], |IncidentFields.SentTo(plain, id)|, LastTo(plain, id).value,
                  StateOf(plain, id), LastWritten(es, id))
  }

  lemma OpenedRowReads(t: Tables, e: Event, t3: Time)
    requires e.Submit? && e.id !in t.incidents
    ensures var row := SavedRow(t, Opened(e.id, e.alert, e.t1, e.topology), t3);
            RowOpenedBy(row, e) && RowMovedTo(row, 1, e, Open, e.t1)
  {
    ServiceIsRead(e.alert.labels, PrimaryService(e.alert.labels));
    KeyIsRead(e.alert, KeyOf(e.alert));
  }

  lemma ExtendedRowReads(t: Tables, id: string, read: seq<AlertRow>, first: Event, sent: nat, last: Event,
                         state: IncidentState, written: Time, e: Event, t3: Time)
    requires first.Submit? && last.Submit? && e.Submit? && id in t.incidents && t.incidents[id].id == id
    requires RowOpenedBy(t.incidents[id], first) && RowMovedTo(t.incidents[id], sent, last, state, written)
    ensures var row := SavedRow(t, Extended(RowToIncident(t.incidents[id], read), e.alert, e.t1), t3);
            RowOpenedBy(row, first) && RowMovedTo(row, sent + 1, e, state, t3)
  {
    Int32OfSum(sent);
  }

  lemma SubmitRowDescribed(es: seq<PgEvent>, window: Time, id: string)
    requires es != [] && PgValid(es, window) && Last(es).PgSubmit? && RowDescribed(Init(es), id)
    ensures RowDescribed(es, id)
  {
    var t, e := PgStore(Init(es)), Last(es);
    var before := Plains(Init(es));
    PlainsGrow(es);
    PgStoreWellFormed(Init(es));
    if SubmitsTo(e.Plain(), id) {
      if e.found.None? {
        OpenedRowReads(t, e.Plain(), e.t3);
      } else {
        ExtendedRowReads(t, id, e.read, FirstTo(before, id).value, |IncidentFields.SentTo(before, id)|,
                         LastTo(before, id).value, StateOf(before, id), LastWritten(Init(es), id), e.Plain(), e.t3);
      }
    }
  }

  lemma MoveRowDescribed(es: seq<PgEvent>, id: string)
    requires es != [] && Last(es).PgSetState? && RowDescribed(Init(es), id)
    ensures RowDescribed(es, id)
  {
    PlainsGrow(es);
  }

  lemma {:induction false} AlwaysRowDescribed(es: seq<PgEvent>, window: Time, id: string)
    requires PgValid(es, window)
    ensures RowDescribed(es, id)
  {
    if es != [] {
      AlwaysRowDescribed(Init(es), window, id);
      if Last(es).PgSubmit? {
        SubmitRowDescribed(es, window, id);
      } else {
        MoveRowDescribed(es, id);
      }
    }
  }

  lemma {:induction false} SameSent(es: seq<PgEvent>, id: string)
    ensures PgRuns.SentTo(es, id) == IncidentFields.SentTo(Plains(es), id)
  {
    if es != [] {
      PlainsGrow(es);
      SameSent(Init(es), id);
    }
  }

  /**
   * Every column of every incident row, in every run: as for the in-memory store, with the
   * version as the column holds it, and the time of the latest statement that wrote the row.
   */
  lemma ColumnsAreRead(es: seq<PgEvent>, window: Time, id: string)
    requires PgValid(es, window)
    ensures var plain := Plains(es);
            && (id in PgStore(es).incidents <==> FirstTo(plain, id).Some?)
            && (id in PgStore(es).incidents ==>
                  var row, sent := PgStore(es).incidents[id], IncidentFields.SentTo(plain, id);
                  && RowOpenedBy(row, FirstTo(plain, id).value)
                  && RowMovedTo(row, |sent|, LastTo(plain, id).value, StateOf(plain, id), LastWritten(es, id))
                  && IsGreatestSeverity(row.severity, sent))
  {
    AlwaysRowDescribed(es, window, id);
    if id in PgStore(es).incidents {
      RowsRecordSubmissions(es, window, id);
      SameSent(es, id);
      GreatestIsRead(PgRuns.SentTo(es, id), PgStore(es).incidents[id].severity);
    }
  }

  // ---- What is read back ----

  /** The alerts read are the last of each fingerprint, each once, latest start first. */
  ghost predicate ReadsLast(alerts: seq<Alert>, sent: seq<Alert>) {
    && (forall fingerprint :: LastWith(alerts, fingerprint) == LastWith(sent, fingerprint))
    && (forall i, j | 0 <= i < j < |alerts| :: alerts[i].fingerprint != alerts[j].fingerprint)
    && (forall i, j | 0 <= i < j < |alerts| :: alerts[i].startsAt >= alerts[j].startsAt)
  }

  /** Rows read from a table without duplicates have a fingerprint each. */
  lemma ReadHasNoRepeats(rows: seq<AlertRow>, id: string, read: seq<AlertRow>)
    requires Unique(rows) && IsRead(rows, id, read)
    ensures forall i, j | 0 <= i < j < |read| :: read[i].fingerprint != read[j].fingerprint
  {
    RowsOfUnique(rows, id);
    forall i, j | 0 <= i < j < |read| ensures read[i].fingerprint != read[j].fingerprint {
      ReadMember(rows, id, read, read[i]);
      ReadMember(rows, id, read, read[j]);
      if read[i].fingerprint == read[j].fingerprint {
        RowForFinds(rows, read[i]);
        RowForFinds(rows, read[j]);
        TwiceIn(read, i, j);
        OnceIn(RowsOf(rows, id), read[i]);
      }
    }
  }

  lemma TwiceIn(read: seq<AlertRow>, i: nat, j: nat)
    requires i < j < |read| && read[i] == read[j]
    ensures multiset(read)[read[i]] >= 2
  {
    assert read == read[..i] + [read[i]] + read[i + 1..j] + [read[j]] + read[j + 1..];
  }

  lemma {:induction false} RowsOfUnique(rows: seq<AlertRow>, id: string)
    requires Unique(rows)
    ensures Unique(RowsOf(rows, id))
  {
    if rows != [] {
      TailUnique(rows);
      RowsOfUnique(rows[1..], id);
      forall r | r in RowsOf(rows[1..], id) ensures !SameRow(rows[0], r.incidentId, r.fingerprint) {
        RowsOfMember(rows[1..], id, r);
        var k :| 0 <= k < |rows| - 1 && rows[1..][k] == r;
        assert rows[k + 1] == r;
      }
    }
  }

  lemma {:induction false} OnceIn(rows: seq<AlertRow>, r: AlertRow)
    requires Unique(rows)
    ensures multiset(rows)[r] <= 1
  {
    if rows != [] {
      TailUnique(rows);
      OnceIn(rows[1..], r);
      assert rows == [rows[0]] + rows[1..];
      if r in rows[1..] {
        var k :| 0 <= k < |rows| - 1 && rows[1..][k] == r;
        assert rows[k + 1] == r && !SameRow(rows[0], r.incidentId, r.fingerprint);
      }
    }
  }

  /** An alert and a row hold the same payload, column by column. */
  predicate SamePayload(a: Alert, row: AlertRow) {
    && a.fingerprint == row.fingerprint && a.labels == row.labels && a.annotations == row.annotations
    && a.startsAt == row.startsAt && a.endsAt == row.endsAt
  }

  lemma ReadsTheRows(rows: seq<AlertRow>, id: string, read: seq<AlertRow>, fingerprint: string)
    requires Unique(rows) && IsRead(rows, id, read)
    ensures LastWith(Alerts(read), fingerprint).Some? <==> RowFor(rows, id, fingerprint).Some?
    ensures RowFor(rows, id, fingerprint).Some? ==>
              SamePayload(LastWith(Alerts(read), fingerprint).value, RowFor(rows, id, fingerprint).value)
  {
    ReadBack(rows, id, read, fingerprint);
  }

  lemma ReadInOrder(rows: seq<AlertRow>, id: string, read: seq<AlertRow>)
    requires Unique(rows) && IsRead(rows, id, read)
    ensures forall i, j | 0 <= i < j < |read| ::
              && Alerts(read)[i].fingerprint != Alerts(read)[j].fingerprint
              && Alerts(read)[i].startsAt >= Alerts(read)[j].startsAt
  {
    ReadHasNoRepeats(rows, id, read);
  }

  /** Each alert row holds the payload last submitted under its fingerprint, column by column. */
  lemma RowsCarryPayloads(es: seq<PgEvent>, window: Time, id: string, fingerprint: string)
    requires PgValid(es, window)
    ensures var last := LastWith(IncidentFields.SentTo(Plains(es), id), fingerprint);
            var row := RowFor(PgStore(es).alerts, id, fingerprint);
            && (last.Some? <==> row.Some?)
            && (row.Some? ==> row.value.incidentId == id && SamePayload(last.value, row.value))
  {
    LastPayloadWins(es, window, id, fingerprint);
    SameSent(es, id);
  }

  /**
   * What is read back right after a save, field by field: the incident that was saved, with its
   * version as the column holds it, the creation time that an earlier save may have fixed, and
   * of each fingerprint its last alert, or the row that was there before.
   */
  lemma SavedIsReadBack(t: Tables, inc: Incident, now: Time, read: seq<AlertRow>, r: Incident)
    requires WellFormed(t) && IsRead(SaveTables(t, inc, now).alerts, inc.id, read)
    requires r == RowToIncident(SaveTables(t, inc, now).incidents[inc.id], read)
    ensures r.id == inc.id && r.service == inc.service && r.cluster == inc.cluster && r.environment == inc.environment
    ensures r.severity == inc.severity && r.key == inc.key && r.state == inc.state && r.version == Int32(inc.version)
    ensures r.firstAlertAt == inc.firstAlertAt && r.lastAlertAt == inc.lastAlertAt && r.topology == inc.topology
    ensures inc.id in t.incidents ==> r.createdAt == t.incidents[inc.id].createdAt && r.updatedAt == now
    ensures inc.id !in t.incidents ==> r.createdAt == inc.createdAt && r.updatedAt == inc.updatedAt
    ensures forall fingerprint | LastWith(inc.alerts, fingerprint).Some? ::
              LastWith(r.alerts, fingerprint) == LastWith(inc.alerts, fingerprint)
    ensures forall fingerprint | LastWith(inc.alerts, fingerprint).None? ::
              var before, after := RowFor(t.alerts, inc.id, fingerprint), LastWith(r.alerts, fingerprint);
              (after.Some? <==> before.Some?) && (before.Some? ==> SamePayload(after.value, before.value))
    ensures forall i, j | 0 <= i < j < |r.alerts| ::
              r.alerts[i].fingerprint != r.alerts[j].fingerprint && r.alerts[i].startsAt >= r.alerts[j].startsAt
  {
    var rows := SaveTables(t, inc, now).alerts;
    SaveWellFormed(t, inc, now);
    ReadInOrder(rows, inc.id, read);
    forall fingerprint
      ensures LastWith(r.alerts, fingerprint).Some? <==> RowFor(rows, inc.id, fingerprint).Some?
      ensures RowFor(rows, inc.id, fingerprint).Some? ==>
                SamePayload(LastWith(r.alerts, fingerprint).value, RowFor(rows, inc.id, fingerprint).value)
      ensures RowFor(rows, inc.id, fingerprint)
              == if LastWith(inc.alerts, fingerprint).Some?
                 then Some(RowOf(inc.id, LastWith(inc.alerts, fingerprint).value))
                 else RowFor(t.alerts, inc.id, fingerprint)
    {
      ReadsTheRows(rows, inc.id, read, fingerprint);
      UpsertAllKeepsLast(t.alerts, inc.id, inc.alerts, inc.id, fingerprint);
    }
  }

  /**
   * What is read back after any run, field by field, said by the history alone. There is no
   * condition on the window boundary here.
   */
  lemma RunIsReadBack(es: seq<PgEvent>, window: Time, id: string, read: seq<AlertRow>, r: Incident)
    requires PgValid(es, window) && id in PgStore(es).incidents && IsRead(PgStore(es).alerts, id, read)
    requires r == RowToIncident(PgStore(es).incidents[id], read)
    ensures FirstTo(Plains(es), id).Some?
    ensures var plain := Plains(es);
            var sent, last := IncidentFields.SentTo(plain, id), LastTo(plain, id).value;
            && OpenedBy(r, FirstTo(plain, id).value)
            && IsGreatestSeverity(r.severity, sent) && r.version == Int32(|sent|)
            && r.lastAlertAt == last.t1 && r.updatedAt == LastWritten(es, id) && r.state == StateOf(plain, id)
            && ReadsLast(r.alerts, sent)
  {
    ColumnsAreRead(es, window, id);
    PgStoreWellFormed(es);
    ReadInOrder(PgStore(es).alerts, id, read);
    forall fingerprint
      ensures LastWith(r.alerts, fingerprint) == LastWith(IncidentFields.SentTo(Plains(es), id), fingerprint)
    {
      ReadsTheRows(PgStore(es).alerts, id, read, fingerprint);
      RowsCarryPayloads(es, window, id, fingerprint);
    }
  }

  /**
   * Round trip over runs of both stores: what is read back from Postgres agrees with the
   * incident of the in-memory store in every field but the update time, which is that of the
   * latest statement on the row; its alerts are the last of each fingerprint.
   */
  lemma ReadAgreesWithMemory(ps: seq<Both>, window: Time, id: string, read: seq<AlertRow>, r: Incident)
    requires Valid(Mems(ps), window) && PgValid(Pgs(ps), window) && NoTies(ps, window)
    requires id in PgStore(Pgs(ps)).incidents && IsRead(PgStore(Pgs(ps)).alerts, id, read)
    requires r == RowToIncident(PgStore(Pgs(ps)).incidents[id], read)
    ensures id in Store(Mems(ps))
    ensures var m := Store(Mems(ps))[id];
            && r.id == m.id && r.service == m.service && r.cluster == m.cluster && r.environment == m.environment
            && r.severity == m.severity && r.key == m.key && r.state == m.state && r.version == Int32(m.version)
            && r.createdAt == m.createdAt && r.firstAlertAt == m.firstAlertAt && r.lastAlertAt == m.lastAlertAt
            && r.topology == m.topology && r.updatedAt == LastWritten(Pgs(ps), id)
            && ReadsLast(r.alerts, m.alerts)
  {
    StoresAgree(ps, window);
    ColumnsAreRead(Pgs(ps), window, id);
    PgStoreWellFormed(Pgs(ps));
    ReadInOrder(PgStore(Pgs(ps)).alerts, id, read);
    var m, t := Store(Mems(ps)), PgStore(Pgs(ps));
    forall fingerprint ensures LastWith(r.alerts, fingerprint) == LastWith(m[id].alerts, fingerprint) {
      ReadsTheRows(t.alerts, id, read, fingerprint);
      assert Collapsed(m[id].alerts, t.alerts, id);
    }
  }
}
