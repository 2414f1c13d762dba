/**
 * The existence check of a save and its update are two statements of one transaction. The
 * update writes back the side columns that the check has read, so what other statements
 * commit in between is lost. This module says exactly when they are kept.
 */
module SideColumnRaces {
  import opened Wrappers
  import opened Collections
  import opened Domain
  import opened PgTables
  import SideColumns

  /** What the check of a transaction has read. */
  datatype Checked = Checked(id: string, existing: Option<IncidentRow>)

  datatype State = State(tables: Tables, open: map<nat, Checked>)

  const INITIAL := State(EMPTY, map[])

  /** A transaction checks for its incident, and later writes and commits; other statements are whole. */
  datatype Step =
    | Check(t: nat, id: string)
    | Write(t: nat, inc: Incident, at: Time)
    | Statement(op: SideColumns.Op)

  predicate Enabled(s: State, step: Step) {
    match step
    case Check(t, _) => t !in s.open
    case Write(t, inc, _) => t in s.open && s.open[t].id == inc.id
    case Statement(op) => !op.Save?
  }

  /** Without a row at the check the incident is created, an error if it is there by now; else it is updated. */
  function Written(t: Tables, existing: Option<IncidentRow>, inc: Incident, now: Time): Tables {
    if existing.None? then
      if inc.id in t.incidents then t else SaveTables(t, inc, now)
    else
      var was := existing.value;
      var row := SavedRow(t, inc, now).(attempts := was.attempts, prUrl := was.prUrl, rca := was.rca);
      Tables(t.incidents[inc.id := row], UpsertAll(t.alerts, inc.id, inc.alerts))
  }

  function Row(t: Tables, id: string): Option<IncidentRow> {
    if id in t.incidents then Some(t.incidents[id]) else None
  }

  /** A save whose check and write have nothing in between is the save of whole calls. */
  lemma UndisturbedIsSave(t: Tables, inc: Incident, now: Time)
    ensures Written(t, Row(t, inc.id), inc, now) == SaveTables(t, inc, now)
  {
  }

  /**
   * What a write does, column by column: a create is an error when the incident is there by
   * now; an update keeps the creation time of the row, and takes the side columns from the check.
   */
  lemma WriteChanges(t: Tables, existing: Option<IncidentRow>, inc: Incident, now: Time)
    ensures existing.None? && inc.id in t.incidents ==> Written(t, existing, inc, now) == t
    ensures existing.Some? || inc.id !in t.incidents ==>
              var t' := Written(t, existing, inc, now);
              && inc.id in t'.incidents && SideColumns.AsSaved(t'.incidents[inc.id], inc)
              && t'.incidents[inc.id].state == inc.state
              && t'.alerts == UpsertAll(t.alerts, inc.id, inc.alerts)
              && forall id | id in t.incidents && id != inc.id ::
                   id in t'.incidents && t'.incidents[id] == t.incidents[id]
    ensures existing.Some? && inc.id in t.incidents ==>
              var row, was := Written(t, existing, inc, now).incidents[inc.id], existing.value;
              && row.createdAt == t.incidents[inc.id].createdAt && row.updatedAt == now
              && row.attempts == was.attempts && row.prUrl == was.prUrl && row.rca == was.rca
  {
  }

  function Next(s: State, step: Step): State
    requires Enabled(s, step)
  {
    match step
    case Check(t, id) => s.(open := s.open[t := Checked(id, Row(s.tables, id))])
    case Write(t, inc, at) => State(Written(s.tables, s.open[t].existing, inc, at), s.open - {t})
    case Statement(op) => s.(tables := SideColumns.Effect(s.tables, op))
  }

  ghost predicate Possible(steps: seq<Step>)
    decreases |steps|, 0
  {
    steps != [] ==> Possible(Init(steps)) && Enabled(After(Init(steps)), Last(steps))
  }

  ghost function After(steps: seq<Step>): State
    requires Possible(steps)
    decreases |steps|, 1
  {
    if steps == [] then INITIAL else Next(After(Init(steps)), Last(steps))
  }

  // ---- What the side columns should hold ----

  datatype Side = Side(attempts: int, prUrl: Option<string>, rca: Option<string>)

  datatype Column = Attempts | PullRequest | Summary

  datatype Value = Number(n: int) | Text(t: Option<string>)

  function Get(side: Side, column: Column): Value {
    match column
    case Attempts => Number(side.attempts)
    case PullRequest => Text(side.prUrl)
    case Summary => Text(side.rca)
  }

  function SideOf(row: IncidentRow): Side {
    Side(row.attempts, row.prUrl, row.rca)
  }

  /** What a statement means for the side columns of an incident. */
  function Meant(side: Side, op: SideColumns.Op, id: string): Side {
    match op
    case Increment(of, _) =>
      if of == id && side.attempts < MAX_INT32 then side.(attempts := side.attempts + 1) else side
    case SetPR(of, url, _) => if of == id then side.(prUrl := url) else side
    case SetRCA(of, rca, _) => if of == id then side.(rca := rca) else side
    case _ => side
  }

  /** All statements since the creation of the incident, as if no save wrote these columns. */
  ghost function Expected(steps: seq<Step>, id: string): Side
    requires Possible(steps)
  {
    if steps == [] then Side(0, None, None) else
    var before := Expected(Init(steps), id);
    if Last(steps).Statement? && id in After(Init(steps)).tables.incidents then Meant(before, Last(steps).op, id)
    else before
  }

  /** What was expected when the transaction made its check. */
  ghost function ExpectedAtCheck(steps: seq<Step>, t: nat, id: string): Side
    requires Possible(steps)
  {
    if steps == [] || (Last(steps).Check? && Last(steps).t == t) then Expected(steps, id)
    else ExpectedAtCheck(Init(steps), t, id)
  }

  ghost predicate Exact(steps: seq<Step>, id: string, column: Column)
    requires Possible(steps)
  {
    id in After(steps).tables.incidents ==>
      Get(SideOf(After(steps).tables.incidents[id]), column) == Get(Expected(steps, id), column)
  }

  ghost predicate AlwaysExact(steps: seq<Step>, id: string, column: Column)
    requires Possible(steps)
  {
    Exact(steps, id, column) && (steps != [] ==> AlwaysExact(Init(steps), id, column))
  }

  /** The step is the update of this incident by a save that found it at its check. */
  predicate Updates(s: State, step: Step, id: string) {
    step.Write? && step.inc.id == id && step.t in s.open && s.open[step.t].existing.Some?
  }

  /** At each update the column is expected to be what it was at the check. */
  ghost predicate NothingBetween(steps: seq<Step>, id: string, column: Column)
    requires Possible(steps)
  {
    steps != [] ==>
      && NothingBetween(Init(steps), id, column)
      && (Updates(After(Init(steps)), Last(steps), id) ==>
            Get(ExpectedAtCheck(Init(steps), Last(steps).t, id), column) == Get(Expected(Init(steps), id), column))
  }

  // ---- Exactly when the columns hold it ----

  /** Rows stay, and an open transaction that read a row has read one of its own incident. */
  ghost predicate Sound(s: State) {
    && (forall id | id in s.tables.incidents :: s.tables.incidents[id].id == id)
    && (forall t | t in s.open && s.open[t].existing.Some? :: s.open[t].id in s.tables.incidents)
  }

  lemma NextSound(s: State, step: Step)
    requires Sound(s) && Enabled(s, step)
    ensures Sound(Next(s, step))
  {
  }

  lemma {:induction false} AlwaysSound(steps: seq<Step>)
    requires Possible(steps)
    ensures Sound(After(steps))
  {
    if steps != [] {
      AlwaysSound(Init(steps));
      NextSound(After(Init(steps)), Last(steps));
    }
  }

  /** While the column has always been exact, the checks have read what was expected. */
  lemma {:induction false} ReadExact(steps: seq<Step>, id: string, column: Column, t: nat)
    requires Possible(steps) && AlwaysExact(steps, id, column)
    requires t in After(steps).open && After(steps).open[t].id == id && After(steps).open[t].existing.Some?
    ensures Get(SideOf(After(steps).open[t].existing.value), column) == Get(ExpectedAtCheck(steps, t, id), column)
  {
    if steps != [] && !(Last(steps).Check? && Last(steps).t == t) {
      ReadExact(Init(steps), id, column, t);
    } else {
      assert Exact(Init(steps), id, column);
    }
  }

  lemma {:induction false} NothingBeforeCreation(steps: seq<Step>, id: string)
    requires Possible(steps) && id !in After(steps).tables.incidents
    ensures Expected(steps, id) == Side(0, None, None)
  {
    if steps != [] {
      NothingBeforeCreation(Init(steps), id);
    }
  }

  lemma StatementMeans(t: Tables, op: SideColumns.Op, id: string, side: Side, column: Column)
    requires !op.Save? && id in t.incidents && Get(SideOf(t.incidents[id]), column) == Get(side, column)
    ensures var t' := SideColumns.Effect(t, op);
            id in t'.incidents && Get(SideOf(t'.incidents[id]), column) == Get(Meant(side, op, id), column)
  {
    match op
    case Increment(_, _) =>
    case SetPR(_, _, _) =>
    case SetRCA(_, _, _) =>
    case SetIncidentState(_, _, _) =>
  }

  lemma StepExactIff(steps: seq<Step>, id: string, column: Column)
    requires steps != [] && Possible(steps) && AlwaysExact(Init(steps), id, column)
    ensures Exact(steps, id, column) <==>
            (Updates(After(Init(steps)), Last(steps), id) ==>
               Get(ExpectedAtCheck(Init(steps), Last(steps).t, id), column) == Get(Expected(Init(steps), id), column))
  {
    var s := After(Init(steps));
    AlwaysSound(Init(steps));
    match Last(steps)
    case Check(_, _) =>
    case Statement(op) =>
      if id in s.tables.incidents {
        StatementMeans(s.tables, op, id, Expected(Init(steps), id), column);
      }
    case Write(t, inc, at) =>
      if Updates(s, Last(steps), id) {
        ReadExact(Init(steps), id, column, t);
      } else if id !in s.tables.incidents {
        NothingBeforeCreation(Init(steps), id);
      }
  }

  /**
   * All along a run a side column holds what the statements that commit make of it, if and
   * only if at each update by a save it is expected to be what it was at the save's check.
   */
  lemma {:induction false} ColumnKeptIff(steps: seq<Step>, id: string, column: Column)
    requires Possible(steps)
    ensures AlwaysExact(steps, id, column) <==> NothingBetween(steps, id, column)
  {
    if steps != [] {
      ColumnKeptIff(Init(steps), id, column);
      if AlwaysExact(Init(steps), id, column) {
        StepExactIff(steps, id, column);
      }
    }
  }

  // ---- The attempts ----

  /** The step increments the attempts of the incident, and does not fail. */
  ghost predicate Increments(steps: seq<Step>, id: string)
    requires steps != [] && Possible(steps)
  {
    Expected(steps, id).attempts != Expected(Init(steps), id).attempts
  }

  ghost function IncrementsSinceCheck(steps: seq<Step>, t: nat, id: string): nat
    requires Possible(steps)
  {
    if steps == [] || (Last(steps).Check? && Last(steps).t == t) then 0 else
    IncrementsSinceCheck(Init(steps), t, id) + if Increments(steps, id) then 1 else 0
  }

  lemma {:induction false} AttemptsSinceCheck(steps: seq<Step>, t: nat, id: string)
    requires Possible(steps)
    ensures Expected(steps, id).attempts == ExpectedAtCheck(steps, t, id).attempts + IncrementsSinceCheck(steps, t, id)
  {
    if steps != [] && !(Last(steps).Check? && Last(steps).t == t) {
      AttemptsSinceCheck(Init(steps), t, id);
    }
  }

  /** No increment commits between the check and the update of a save of the incident. */
  ghost predicate NoIncrementBetween(steps: seq<Step>, id: string)
    requires Possible(steps)
  {
    steps != [] ==>
      && NoIncrementBetween(Init(steps), id)
      && (Updates(After(Init(steps)), Last(steps), id) ==> IncrementsSinceCheck(Init(steps), Last(steps).t, id) == 0)
  }

  /**
   * All along a run the attempts of an incident are its increments since it was created, if
   * and only if none of them commits between the check and the update of a save.
   */
  lemma {:induction false} AttemptsCountIff(steps: seq<Step>, id: string)
    requires Possible(steps)
    ensures AlwaysExact(steps, id, Attempts) <==> NoIncrementBetween(steps, id)
  {
    ColumnKeptIff(steps, id, Attempts);
    if steps != [] {
      AttemptsCountIff(Init(steps), id);
      ColumnKeptIff(Init(steps), id, Attempts);
      if Updates(After(Init(steps)), Last(steps), id) {
        AttemptsSinceCheck(Init(steps), Last(steps).t, id);
      }
    }
  }

  lemma OneMoreStep(steps: seq<Step>, step: Step)
    requires Possible(steps) && Enabled(After(steps), step)
    ensures Possible(steps + [step]) && After(steps + [step]) == Next(After(steps), step)
  {
    assert Init(steps + [step]) == steps && Last(steps + [step]) == step;
  }

  lemma CreatedOnce(inc: Incident, at: Time) returns (steps: seq<Step>)
    ensures Possible(steps) && After(steps).open == map[] && inc.id in After(steps).tables.incidents
    ensures After(steps).tables.incidents[inc.id].attempts == 0
  {
    OneMoreStep([], Check(0, inc.id));
    OneMoreStep([] + [Check(0, inc.id)], Write(0, inc, at));
    steps := [] + [Check(0, inc.id)] + [Write(0, inc, at)];
  }

  /** Such runs exist: an increment commits inside a save, and the attempts are 0 again. */
  lemma AnIncrementCanBeLost(inc: Incident, at: Time) returns (before: State, steps: seq<Step>)
    ensures Possible(steps) && steps != [] && After(Init(steps)) == before && Last(steps).Write?
    ensures inc.id in before.tables.incidents && before.tables.incidents[inc.id].attempts == 1
    ensures inc.id in After(steps).tables.incidents && After(steps).tables.incidents[inc.id].attempts == 0
  {
    var created := CreatedOnce(inc, at);
    var checked := created + [Check(1, inc.id)];
    OneMoreStep(created, Check(1, inc.id));
    var counted := checked + [Statement(SideColumns.Increment(inc.id, at))];
    OneMoreStep(checked, Statement(SideColumns.Increment(inc.id, at)));
    OneMoreStep(counted, Write(1, inc, at));
    steps := counted + [Write(1, inc, at)];
    assert Init(steps) == counted;
    before := After(counted);
  }
}
