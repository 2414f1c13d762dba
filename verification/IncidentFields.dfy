/**
 * Every field of a stored incident, read off the history of its run alone: off the labels of
 * its first alert, the first and the last submission it received, and the moves since.
 */
module IncidentFields {
  import opened Wrappers
  import opened Collections
  import opened Domain
  import opened Correlation
  import opened LabelReading
  import opened MemoryStore
  import opened Runs
  import Lexicographic

  // ---- The history of an incident ----

  predicate SubmitsTo(e: Event, id: string) {
    e.Submit? && id == if e.found.Some? then e.found.value else e.id
  }

  /** The submission that opened the incident. */
  function FirstTo(es: seq<Event>, id: string): (r: Option<Event>)
    ensures r.Some? ==> r.value.Submit?
  {
    if es == [] then None
    else if FirstTo(Init(es), id).Some? then FirstTo(Init(es), id)
    else if SubmitsTo(Last(es), id) then Some(Last(es)) else None
  }

  /** The latest submission to the incident. */
  function LastTo(es: seq<Event>, id: string): (r: Option<Event>)
    ensures r.Some? ==> r.value.Submit?
    ensures r.Some? <==> FirstTo(es, id).Some?
  {
    if es == [] then None else if SubmitsTo(Last(es), id) then Some(Last(es)) else LastTo(Init(es), id)
  }

  function SentTo(es: seq<Event>, id: string): seq<Alert> {
    if es == [] then [] else SentTo(Init(es), id) + if SubmitsTo(Last(es), id) then [Last(es).alert] else []
  }

  /** The state the environment has last moved it to; an incident is opened as open. */
  function StateOf(es: seq<Event>, id: string): IncidentState {
    if es == [] then Open
    else if Last(es).SetState? && Last(es).id == id && FirstTo(Init(es), id).Some? then Last(es).state
    else StateOf(Init(es), id)
  }

  // ---- What the history says ----

  /** What the opening submission fixes. */
  ghost predicate OpenedBy(inc: Incident, first: Event)
    requires first.Submit?
  {
    && inc.id == first.id
    && IsServiceOf(first.alert.labels, inc.service)
    && Reads(first.alert.labels, "cluster", inc.cluster)
    && Reads(first.alert.labels, "environment", inc.environment)
    && IsKeyOf(first.alert.labels, inc.key)
    && inc.createdAt == first.t1
    && inc.firstAlertAt == first.alert.startsAt
    && inc.topology == first.topology
  }

  /** The severity is one that an alert carries, and no alert carries a greater one. */
  ghost predicate IsGreatestSeverity(severity: string, alerts: seq<Alert>) {
    && (exists a :: a in alerts && IsSeverityOf(a.labels, severity))
    && (forall a, s | a in alerts && IsSeverityOf(a.labels, s) :: !Lexicographic.Less(severity, s))
  }

  /** What the submissions and moves so far make of the rest. */
  ghost predicate MovedTo(inc: Incident, sent: seq<Alert>, last: Event, state: IncidentState)
    requires last.Submit?
  {
    && inc.alerts == sent
    && inc.version == |sent|
    && inc.lastAlertAt == last.t1
    && inc.updatedAt == last.t1
    && inc.state == state
  }

  lemma OpenedReads(e: Event)
    requires e.Submit?
    ensures OpenedBy(Opened(e.id, e.alert, e.t1, e.topology), e)
    ensures MovedTo(Opened(e.id, e.alert, e.t1, e.topology), [e.alert], e, Open)
  {
    var inc := Opened(e.id, e.alert, e.t1, e.topology);
    ServiceIsRead(e.alert.labels, inc.service);
    KeyIsRead(e.alert, inc.key);
  }

  lemma ExtendedReads(inc: Incident, first: Event, sent: seq<Alert>, last: Event, state: IncidentState, e: Event)
    requires first.Submit? && last.Submit? && e.Submit?
    requires OpenedBy(inc, first) && MovedTo(inc, sent, last, state)
    ensures OpenedBy(Extended(inc, e.alert, e.t1), first)
    ensures MovedTo(Extended(inc, e.alert, e.t1), sent + [e.alert], e, state)
  {
  }

  ghost predicate Described(es: seq<Event>, id: string) {
    if FirstTo(es, id).None? then id !in Store(es) && SentTo(es, id) == [] && StateOf(es, id) == Open else
    && id in Store(es)
    && OpenedBy(Store(es)[id], FirstTo(es, id).value)
    && MovedTo(Store(es)[id], SentTo(es, id), LastTo(es, id).value, StateOf(es, id))
  }

  lemma SubmitDescribed(es: seq<Event>, window: Time, id: string)
    requires es != [] && Valid(es, window) && Last(es).Submit? && Described(Init(es), id)
    ensures Described(es, id)
  {
    var m, e := Store(Init(es)), Last(es);
    StoreIndexed(Init(es));
    if SubmitsTo(e, id) {
      if e.found.None? {
        OpenedReads(e);
      } else {
        ExtendedReads(m[id], FirstTo(Init(es), id).value, SentTo(Init(es), id), LastTo(Init(es), id).value,
                      StateOf(Init(es), id), e);
      }
    }
  }

  lemma MoveDescribed(es: seq<Event>, id: string)
    requires es != [] && Last(es).SetState? && Described(Init(es), id)
    ensures Described(es, id)
  {
  }

  lemma {:induction false} AlwaysDescribed(es: seq<Event>, window: Time, id: string)
    requires Valid(es, window)
    ensures Described(es, id)
  {
    if es != [] {
      AlwaysDescribed(Init(es), window, id);
      if Last(es).Submit? {
        SubmitDescribed(es, window, id);
      } else {
        MoveDescribed(es, id);
      }
    }
  }

  lemma GreatestIsRead(alerts: seq<Alert>, severity: string)
    requires alerts != [] && severity == Lexicographic.MaxOf(Severities(alerts))
    ensures IsGreatestSeverity(severity, alerts)
  {
    var ss := Severities(alerts);
    Lexicographic.MaxOfIsMaximum(ss);
    var i :| 0 <= i < |ss| && ss[i] == severity;
    SeverityIsRead(alerts[i], severity);
    assert alerts[i] in alerts;
    forall a, s | a in alerts && IsSeverityOf(a.labels, s) ensures !Lexicographic.Less(severity, s) {
      SeverityIsRead(a, s);
      var j :| 0 <= j < |alerts| && alerts[j] == a;
      assert ss[j] == s;
    }
  }

  /**
   * Every field of every stored incident, in every run: service, cluster, environment and key
   * are read from the labels of the alert that opened it; topology, creation and first alert
   * time are those of that submission; the alerts are its submissions in order, the version
   * their number, the severity the greatest they carry; the last alert and update times are
   * recorded by the last submission; and the state is the one it was last moved to.
   */
  lemma FieldsAreRead(es: seq<Event>, window: Time, id: string)
    requires Valid(es, window)
    ensures id in Store(es) <==> FirstTo(es, id).Some?
    ensures id in Store(es) ==>
              && OpenedBy(Store(es)[id], FirstTo(es, id).value)
              && MovedTo(Store(es)[id], SentTo(es, id), LastTo(es, id).value, StateOf(es, id))
              && IsGreatestSeverity(Store(es)[id].severity, SentTo(es, id))
              && SentTo(es, id)[0] == FirstTo(es, id).value.alert
  {
    AlwaysDescribed(es, window, id);
    if id in Store(es) {
      StoreRecords(es, window);
      assert RecordsItsAlerts(Store(es)[id]);
      GreatestIsRead(SentTo(es, id), Store(es)[id].severity);
      FirstSent(es, id);
    }
  }

  lemma {:induction false} FirstSent(es: seq<Event>, id: string)
    requires FirstTo(es, id).Some?
    ensures SentTo(es, id) != [] && SentTo(es, id)[0] == FirstTo(es, id).value.alert
  {
    if FirstTo(Init(es), id).Some? {
      FirstSent(Init(es), id);
    } else {
      NoneSent(Init(es), id);
    }
  }

  lemma {:induction false} NoneSent(es: seq<Event>, id: string)
    requires FirstTo(es, id).None?
    ensures SentTo(es, id) == []
  {
    if es != [] {
      NoneSent(Init(es), id);
    }
  }
}
