/**
 * The columns a save must not touch: the remediation attempts, the pull request and the root
 * cause summary are written by statements of their own, and outlive any number of saves.
 */
module SideColumns {
  import opened Wrappers
  import opened Collections
  import opened Domain
  import opened PgTables

  datatype Op =
    | Save(inc: Incident, at: Time)
    | Increment(id: string, at: Time)
    | SetPR(id: string, url: Option<string>, at: Time)
    | SetRCA(id: string, rca: Option<string>, at: Time)
    | SetIncidentState(id: string, state: IncidentState, at: Time)

  /** A statement that fails changes nothing. */
  function Effect(t: Tables, op: Op): Tables {
    var r := match op
      case Save(inc, at) => Some(SaveTables(t, inc, at))
      case Increment(id, at) => IncrementAttempts(t, id, at)
      case SetPR(id, url, at) => UpdatePR(t, id, url, at)
      case SetRCA(id, rca, at) => UpdateRCA(t, id, rca, at)
      case SetIncidentState(id, state, at) => UpdateState(t, id, state, at);
    if r.Some? then r.value else t
  }

  function Result(ops: seq<Op>): Tables {
    if ops == [] then EMPTY else Effect(Result(Init(ops)), Last(ops))
  }

  // ---- What the history says, without tables ----

  predicate Created(ops: seq<Op>, id: string) {
    exists i :: 0 <= i < |ops| && ops[i].Save? && ops[i].inc.id == id
  }

  function Increments(ops: seq<Op>, id: string): nat {
    if ops == [] then 0 else
    Increments(Init(ops), id) + if Last(ops).Increment? && Last(ops).id == id && Created(Init(ops), id) then 1 else 0
  }

  function LatestPR(ops: seq<Op>, id: string): Option<string> {
    if ops == [] then None
    else if Last(ops).SetPR? && Last(ops).id == id && Created(Init(ops), id) then Last(ops).url
    else LatestPR(Init(ops), id)
  }

  function LatestRCA(ops: seq<Op>, id: string): Option<string> {
    if ops == [] then None
    else if Last(ops).SetRCA? && Last(ops).id == id && Created(Init(ops), id) then Last(ops).rca
    else LatestRCA(Init(ops), id)
  }

  /** The creation time an incident had when it was first saved. */
  function FirstCreatedAt(ops: seq<Op>, id: string): Time {
    if ops == [] then 0
    else if Last(ops).Save? && Last(ops).inc.id == id && !Created(Init(ops), id) then Last(ops).inc.createdAt
    else FirstCreatedAt(Init(ops), id)
  }

  lemma CreatedGrows(ops: seq<Op>, id: string)
    requires ops != []
    ensures Created(ops, id) <==> Created(Init(ops), id) || (Last(ops).Save? && Last(ops).inc.id == id)
  {
    if Created(Init(ops), id) {
      var i :| 0 <= i < |Init(ops)| && Init(ops)[i].Save? && Init(ops)[i].inc.id == id;
      assert ops[i].Save? && ops[i].inc.id == id;
    }
    if Created(ops, id) && !(Last(ops).Save? && Last(ops).inc.id == id) {
      var i :| 0 <= i < |ops| && ops[i].Save? && ops[i].inc.id == id;
      assert Init(ops)[i].Save?;
    }
    if Last(ops).Save? && Last(ops).inc.id == id {
      assert ops[|ops| - 1].Save? && ops[|ops| - 1].inc.id == id;
    }
  }

  lemma {:induction false} NothingBeforeCreation(ops: seq<Op>, id: string)
    requires !Created(ops, id)
    ensures Increments(ops, id) == 0 && LatestPR(ops, id) == None && LatestRCA(ops, id) == None
  {
    if ops != [] {
      CreatedGrows(ops, id);
      NothingBeforeCreation(Init(ops), id);
    }
  }

  ghost predicate Remembers(row: IncidentRow, ops: seq<Op>, id: string) {
    && row.attempts == (if Increments(ops, id) <= MAX_INT32 then Increments(ops, id) else MAX_INT32)
    && row.prUrl == LatestPR(ops, id)
    && row.rca == LatestRCA(ops, id)
    && row.createdAt == FirstCreatedAt(ops, id)
  }

  lemma StepSurvives(ops: seq<Op>, id: string)
    requires ops != [] && (id in Result(Init(ops)).incidents <==> Created(Init(ops), id))
    requires id in Result(Init(ops)).incidents ==> Remembers(Result(Init(ops)).incidents[id], Init(ops), id)
    ensures id in Result(ops).incidents <==> Created(ops, id)
    ensures id in Result(ops).incidents ==> Remembers(Result(ops).incidents[id], ops, id)
  {
    CreatedGrows(ops, id);
    if Last(ops).Save? {
      SaveSurvives(ops, id);
    } else {
      StatementSurvives(ops, id);
    }
  }

  lemma SaveSurvives(ops: seq<Op>, id: string)
    requires ops != [] && Last(ops).Save? && (id in Result(Init(ops)).incidents <==> Created(Init(ops), id))
    requires id in Result(Init(ops)).incidents ==> Remembers(Result(Init(ops)).incidents[id], Init(ops), id)
    ensures id in Result(ops).incidents <==> id in Result(Init(ops)).incidents || Last(ops).inc.id == id
    ensures id in Result(ops).incidents ==> Remembers(Result(ops).incidents[id], ops, id)
  {
    if !Created(Init(ops), id) {
      NothingBeforeCreation(Init(ops), id);
    }
  }

  lemma IncrementSurvives(ops: seq<Op>, id: string)
    requires ops != [] && Last(ops).Increment? && (id in Result(Init(ops)).incidents <==> Created(Init(ops), id))
    requires id in Result(Init(ops)).incidents ==> Remembers(Result(Init(ops)).incidents[id], Init(ops), id)
    ensures id in Result(ops).incidents <==> id in Result(Init(ops)).incidents
    ensures id in Result(ops).incidents ==> Remembers(Result(ops).incidents[id], ops, id)
  {
  }

  lemma SetPRSurvives(ops: seq<Op>, id: string)
    requires ops != [] && Last(ops).SetPR? && (id in Result(Init(ops)).incidents <==> Created(Init(ops), id))
    requires id in Result(Init(ops)).incidents ==> Remembers(Result(Init(ops)).incidents[id], Init(ops), id)
    ensures id in Result(ops).incidents <==> id in Result(Init(ops)).incidents
    ensures id in Result(ops).incidents ==> Remembers(Result(ops).incidents[id], ops, id)
  {
  }

  lemma SetRCASurvives(ops: seq<Op>, id: string)
    requires ops != [] && Last(ops).SetRCA? && (id in Result(Init(ops)).incidents <==> Created(Init(ops), id))
    requires id in Result(Init(ops)).incidents ==> Remembers(Result(Init(ops)).incidents[id], Init(ops), id)
    ensures id in Result(ops).incidents <==> id in Result(Init(ops)).incidents
    ensures id in Result(ops).incidents ==> Remembers(Result(ops).incidents[id], ops, id)
  {
  }

  lemma SetStateSurvives(ops: seq<Op>, id: string)
    requires ops != [] && Last(ops).SetIncidentState? && (id in Result(Init(ops)).incidents <==> Created(Init(ops), id))
    requires id in Result(Init(ops)).incidents ==> Remembers(Result(Init(ops)).incidents[id], Init(ops), id)
    ensures id in Result(ops).incidents <==> id in Result(Init(ops)).incidents
    ensures id in Result(ops).incidents ==> Remembers(Result(ops).incidents[id], ops, id)
  {
  }

  lemma StatementSurvives(ops: seq<Op>, id: string)
    requires ops != [] && !Last(ops).Save? && (id in Result(Init(ops)).incidents <==> Created(Init(ops), id))
    requires id in Result(Init(ops)).incidents ==> Remembers(Result(Init(ops)).incidents[id], Init(ops), id)
    ensures id in Result(ops).incidents <==> id in Result(Init(ops)).incidents
    ensures id in Result(ops).incidents ==> Remembers(Result(ops).incidents[id], ops, id)
  {
    match Last(ops)
    case Increment(_, _) => IncrementSurvives(ops, id);
    case SetPR(_, _, _) => SetPRSurvives(ops, id);
    case SetRCA(_, _, _) => SetRCASurvives(ops, id);
    case SetIncidentState(_, _, _) => SetStateSurvives(ops, id);
  }

  /**
   * Whatever saves come in between: the attempts are the increments since creation, up to the
   * largest number the column can hold; the pull request and the summary are the last ones
   * written; and the creation time is that of the first save.
   */
  lemma {:induction false} SideColumnsSurvive(ops: seq<Op>, id: string)
    ensures id in Result(ops).incidents <==> Created(ops, id)
    ensures id in Result(ops).incidents ==> Remembers(Result(ops).incidents[id], ops, id)
  {
    if ops != [] {
      SideColumnsSurvive(Init(ops), id);
      StepSurvives(ops, id);
    }
  }

  // ---- The columns that only saves and moves write ----

  function LastSave(ops: seq<Op>, id: string): (r: Option<Op>)
    ensures r.Some? ==> r.value.Save? && r.value.inc.id == id
  {
    if ops == [] then None
    else if Last(ops).Save? && Last(ops).inc.id == id then Some(Last(ops)) else LastSave(Init(ops), id)
  }

  /** The state last saved, or moved to since. */
  function LatestState(ops: seq<Op>, id: string): IncidentState {
    if ops == [] then Open
    else if Last(ops).Save? && Last(ops).inc.id == id then Last(ops).inc.state
    else if Last(ops).SetIncidentState? && Last(ops).id == id && Created(Init(ops), id) then Last(ops).state
    else LatestState(Init(ops), id)
  }

  /** The statement writes the row of an incident that exists; an increment does so below the maximum. */
  predicate Writes(ops: seq<Op>, op: Op, id: string) {
    !op.Save? && op.id == id && Created(ops, id) && (op.Increment? ==> Increments(ops, id) < MAX_INT32)
  }

  /** The time of the latest statement that wrote the row. */
  function LatestTime(ops: seq<Op>, id: string): Time {
    if ops == [] then 0
    else if Last(ops).Save? && Last(ops).inc.id == id then
      (if Created(Init(ops), id) then Last(ops).at else Last(ops).inc.updatedAt)
    else if Writes(Init(ops), Last(ops), id) then Last(ops).at
    else LatestTime(Init(ops), id)
  }

  /** The columns that are as the last save left them. */
  ghost predicate AsSaved(row: IncidentRow, inc: Incident) {
    && row.id == inc.id && row.service == inc.service && row.cluster == inc.cluster
    && row.environment == inc.environment && row.severity == inc.severity && row.key == inc.key
    && row.version == Int32(inc.version) && row.firstAlertAt == inc.firstAlertAt
    && row.lastAlertAt == inc.lastAlertAt && row.topology == inc.topology
  }

  ghost predicate Rests(ops: seq<Op>, id: string) {
    id in Result(ops).incidents ==>
      && LastSave(ops, id).Some? && AsSaved(Result(ops).incidents[id], LastSave(ops, id).value.inc)
      && Result(ops).incidents[id].state == LatestState(ops, id)
      && Result(ops).incidents[id].updatedAt == LatestTime(ops, id)
  }

  lemma SaveRests(ops: seq<Op>, id: string)
    requires ops != [] && Last(ops).Save? && (id in Result(Init(ops)).incidents <==> Created(Init(ops), id))
    requires Rests(Init(ops), id)
    ensures Rests(ops, id)
  {
  }

  /** A statement on a side column or the state changes that column and the update time of its row, and nothing else. */
  lemma StatementChanges(t: Tables, op: Op, id: string)
    requires !op.Save? && id in t.incidents
    ensures Effect(t, op).alerts == t.alerts && id in Effect(t, op).incidents
    ensures op.id != id ==> Effect(t, op).incidents[id] == t.incidents[id]
    ensures var row, row' := t.incidents[id], Effect(t, op).incidents[id];
            && row'.id == row.id && row'.service == row.service && row'.cluster == row.cluster
            && row'.environment == row.environment && row'.severity == row.severity && row'.key == row.key
            && row'.version == row.version && row'.createdAt == row.createdAt && row'.topology == row.topology
            && row'.firstAlertAt == row.firstAlertAt && row'.lastAlertAt == row.lastAlertAt
            && (!op.SetIncidentState? ==> row'.state == row.state) && (!op.Increment? ==> row'.attempts == row.attempts)
            && (!op.SetPR? ==> row'.prUrl == row.prUrl) && (!op.SetRCA? ==> row'.rca == row.rca)
    ensures op.id == id ==>
              var row, row' := t.incidents[id], Effect(t, op).incidents[id];
              && (op.SetIncidentState? ==> row'.state == op.state && row'.updatedAt == op.at)
              && (op.SetPR? ==> row'.prUrl == op.url && row'.updatedAt == op.at)
              && (op.SetRCA? ==> row'.rca == op.rca && row'.updatedAt == op.at)
              && (op.Increment? && row.attempts < MAX_INT32 ==>
                    row'.attempts == row.attempts + 1 && row'.updatedAt == op.at)
              && (op.Increment? && row.attempts >= MAX_INT32 ==> row' == row)
  {
  }

  lemma StatementRests(ops: seq<Op>, id: string)
    requires ops != [] && !Last(ops).Save? && (id in Result(Init(ops)).incidents <==> Created(Init(ops), id))
    requires id in Result(Init(ops)).incidents ==> Remembers(Result(Init(ops)).incidents[id], Init(ops), id)
    requires Rests(Init(ops), id)
    ensures Rests(ops, id)
  {
    if id in Result(Init(ops)).incidents {
      StatementChanges(Result(Init(ops)), Last(ops), id);
    }
  }

  /**
   * After any sequence of whole calls, each row has the columns of the last save of its incident,
   * the state last saved or moved to, and the time of the latest statement that wrote it.
   */
  lemma {:induction false} OtherColumnsRest(ops: seq<Op>, id: string)
    ensures id in Result(ops).incidents ==>
              && LastSave(ops, id).Some? && AsSaved(Result(ops).incidents[id], LastSave(ops, id).value.inc)
              && Result(ops).incidents[id].state == LatestState(ops, id)
              && Result(ops).incidents[id].updatedAt == LatestTime(ops, id)
  {
    if ops != [] {
      OtherColumnsRest(Init(ops), id);
      SideColumnsSurvive(Init(ops), id);
      if Last(ops).Save? {
        SaveRests(ops, id);
      } else {
        StatementRests(ops, id);
      }
    }
  }
}
