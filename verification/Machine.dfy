/**
 * Concurrent calls over the in-memory store, one lock-protected step at a time, with the
 * alerts of an incident as a Go slice: a view of a backing array that copies of the
 * incident share. Every read of the clock, lookup, append and save of every call may
 * interleave with those of the others.
 */
module Machine {
  import opened Wrappers
  import opened Collections
  import opened Domain
  import opened Correlation
  import opened MemoryStore
  import opened Runs

  // ---- Slices ----

  /** An alert together with the call that submitted it. */
  datatype Submission = Submission(call: nat, alert: Alert)

  type Heap = seq<seq<Option<Submission>>>

  /** The first `len` cells of a backing array; its capacity is the array's length. */
  datatype Slice = Slice(arr: nat, len: nat)

  predicate InHeap(h: Heap, s: Slice) {
    && s.arr < |h| && s.len <= |h[s.arr]|
    && forall i | 0 <= i < s.len :: h[s.arr][i].Some?
  }

  function View(h: Heap, s: Slice): seq<Submission>
    requires InHeap(h, s)
  {
    seq(s.len, i requires 0 <= i < s.len => h[s.arr][i].value)
  }

  /** Appending writes in place when there is room, and else copies to an array with some spare room. */
  function Append(h: Heap, s: Slice, x: Submission, spare: nat): (Heap, Slice)
    requires InHeap(h, s)
  {
    if s.len < |h[s.arr]| then
      (h[s.arr := h[s.arr][s.len := Some(x)]], Slice(s.arr, s.len + 1))
    else
      (h + [h[s.arr][..s.len] + [Some(x)] + seq(spare, _ => None)], Slice(|h|, s.len + 1))
  }

  lemma AppendAppends(h: Heap, s: Slice, x: Submission, spare: nat)
    requires InHeap(h, s)
    ensures var (h', s') := Append(h, s, x, spare); InHeap(h', s') && View(h', s') == View(h, s) + [x]
  {
  }

  /**
   * Exactly which views an append leaves alone: those of other arrays, those that end before
   * the cell it writes, and those that show the written element there already.
   */
  lemma AppendKeeps(h: Heap, s: Slice, x: Submission, spare: nat, t: Slice)
    requires InHeap(h, s) && InHeap(h, t)
    ensures var (h', s') := Append(h, s, x, spare);
            && InHeap(h', t)
            && (View(h', t) == View(h, t) <==> t.arr != s.arr || t.len <= s.len || h[s.arr][s.len] == Some(x))
  {
    var h' := Append(h, s, x, spare).0;
    if t.arr == s.arr && t.len > s.len {
      assert View(h', t)[s.len] == x && View(h, t)[s.len] == h[s.arr][s.len].value;
    }
  }

  // ---- Incidents whose alerts are slices ----

  /** A copy of an incident: the other fields by value, the alerts as a slice. */
  datatype Held = Held(meta: Incident, slice: Slice)

  function Meta(inc: Incident): Incident {
    inc.(alerts := [])
  }

  function Alerts(v: seq<Submission>): seq<Alert> {
    seq(|v|, i requires 0 <= i < |v| => v[i].alert)
  }

  /** The incident a copy stands for at this moment. */
  function Denote(h: Heap, x: Held): Incident
    requires InHeap(h, x.slice)
  {
    x.meta.(alerts := Alerts(View(h, x.slice)))
  }

  // ---- The machine ----

  /** How far a call has come. */
  datatype Frame =
    | Started(alert: Alert, t1: Time)
    | Looked(alert: Alert, t1: Time, t2: Time, found: Option<Held>)
    | Built(e: Event, held: Held)
    | Done(e: Event)
  {
    predicate Submitting() {
      (Built? || Done?) && e.Submit?
    }

    function Key(): string {
      if Started? || Looked? then KeyOf(alert) else if e.Submit? then KeyOf(e.alert) else ""
    }
  }

  datatype Owner = Owner(id: string, key: string)

  /**
   * `owners` records for which incident each array was made, `seen` the copies handed to
   * readers, and `log` the calls in the order they saved.
   */
  datatype State = State(
    now: Time,
    heap: Heap,
    owners: seq<Owner>,
    store: map<string, Held>,
    calls: map<nat, Frame>,
    seen: set<Held>,
    log: seq<Event>)

  const INITIAL := State(0, [], [], map[], map[], {}, [])

  datatype Step =
    | Begin(c: nat, alert: Alert, t1: Time)
    | Lookup(c: nat, t2: Time, answer: Option<string>)
    | Build(c: nat, id: string, topology: Option<TopologySlice>, spare: nat)
    | Finish(c: nat)
    | Read(id: string)
    | Move(id: string, state: IncidentState)

  function Metas(store: map<string, Held>): Incidents {
    map id | id in store :: store[id].meta
  }

  ghost predicate Enabled(s: State, step: Step, window: Time) {
    match step
    case Begin(c, _, t1) => c !in s.calls && s.now <= t1
    case Lookup(c, t2, answer) =>
      && c in s.calls && s.calls[c].Started? && s.now <= t2
      && IsLookup(Metas(s.store), s.calls[c].Key(), t2, window, answer)
    case Build(c, id, _, _) =>
      && c in s.calls && s.calls[c].Looked?
      && id !in s.store && (forall o | o in s.owners :: o.id != id)
    case Finish(c) => c in s.calls && s.calls[c].Built?
    case Read(id) => id in s.store
    case Move(id, _) => id in s.store
  }

  function BeginStep(s: State, c: nat, alert: Alert, t1: Time): State {
    s.(now := t1, calls := s.calls[c := Started(alert, t1)])
  }

  function LookupStep(s: State, c: nat, t2: Time, answer: Option<string>): State
    requires c in s.calls && s.calls[c].Started?
    requires answer.Some? ==> answer.value in s.store
  {
    var f := s.calls[c];
    var found := if answer.Some? then Some(s.store[answer.value]) else None;
    s.(now := t2,
       calls := s.calls[c := Looked(f.alert, f.t1, t2, found)],
       seen := if found.Some? then s.seen + {found.value} else s.seen)
  }

  /** The incident is made, or the copy that was found gets the alert appended. */
  function BuildStep(s: State, c: nat, id: string, topology: Option<TopologySlice>, spare: nat): State
    requires c in s.calls && s.calls[c].Looked?
    requires s.calls[c].found.Some? ==> InHeap(s.heap, s.calls[c].found.value.slice)
  {
    var f := s.calls[c];
    var x := Submission(c, f.alert);
    match f.found
    case None =>
      var held := Held(Meta(Opened(id, f.alert, f.t1, topology)), Slice(|s.heap|, 1));
      s.(heap := s.heap + [[Some(x)]],
         owners := s.owners + [Owner(id, KeyOf(f.alert))],
         calls := s.calls[c := Built(Submit(f.alert, f.t1, f.t2, id, topology, None), held)])
    case Some(b) =>
      var (h, slice) := Append(s.heap, b.slice, x, spare);
      var held := Held(Meta(Extended(b.meta, f.alert, f.t1)), slice);
      s.(heap := h,
         owners := if |h| > |s.heap| then s.owners + [Owner(b.meta.id, b.meta.key)] else s.owners,
         calls := s.calls[c := Built(Submit(f.alert, f.t1, f.t2, id, topology, Some(b.meta.id)), held)])
  }

  function FinishStep(s: State, c: nat): State
    requires c in s.calls && s.calls[c].Built?
  {
    var f := s.calls[c];
    s.(store := s.store[f.held.meta.id := f.held], calls := s.calls[c := Done(f.e)], log := s.log + [f.e])
  }

  function ReadStep(s: State, id: string): State
    requires id in s.store
  {
    s.(seen := s.seen + {s.store[id]})
  }

  function MoveStep(s: State, id: string, state: IncidentState): State
    requires id in s.store
  {
    var x := s.store[id];
    s.(store := s.store[id := x.(meta := x.meta.(state := state))], log := s.log + [SetState(id, state)])
  }

  function Next(s: State, step: Step, window: Time): State
    requires Enabled(s, step, window) && Safe(s)
  {
    match step
    case Begin(c, alert, t1) => BeginStep(s, c, alert, t1)
    case Lookup(c, t2, answer) => LookupStep(s, c, t2, answer)
    case Build(c, id, topology, spare) => BuildStep(s, c, id, topology, spare)
    case Finish(c) => FinishStep(s, c)
    case Read(id) => ReadStep(s, id)
    case Move(id, state) => MoveStep(s, id, state)
  }

  // ---- Safety under every interleaving ----

  /** A copy is consistent with its slice, and its array was made for its incident. */
  ghost predicate Sound(s: State, x: Held) {
    && InHeap(s.heap, x.slice) && x.slice.len >= 1
    && x.slice.arr < |s.owners| && s.owners[x.slice.arr] == Owner(x.meta.id, x.meta.key)
    && x.meta.version == x.slice.len
    && x.meta.alerts == []
  }

  ghost predicate FrameOk(s: State, f: Frame) {
    match f
    case Started(_, _) => true
    case Looked(alert, _, _, found) => found.Some? ==> Sound(s, found.value) && found.value.meta.key == KeyOf(alert)
    case Built(e, held) => e.Submit? && Sound(s, held) && held.meta.id == e.Home() && held.meta.key == KeyOf(e.alert)
    case Done(e) => e.Submit?
  }

  /** A cell holds the alert of a call that writes to the incident the array was made for. */
  ghost predicate CellOk(s: State, o: Owner, x: Submission) {
    && x.call in s.calls && s.calls[x.call].Submitting()
    && s.calls[x.call].e.alert == x.alert && s.calls[x.call].e.Home() == o.id
    && KeyOf(x.alert) == o.key
  }

  ghost predicate CellsOk(s: State) {
    && |s.owners| == |s.heap|
    && (forall a, i | 0 <= a < |s.heap| && 0 <= i < |s.heap[a]| && s.heap[a][i].Some? ::
          CellOk(s, s.owners[a], s.heap[a][i].value))
    && (forall a, i, j | 0 <= a < |s.heap| && 0 <= i < j < |s.heap[a]| && s.heap[a][i].Some? && s.heap[a][j].Some? ::
          s.heap[a][i].value.call != s.heap[a][j].value.call)
  }

  ghost predicate Safe(s: State) {
    && CellsOk(s)
    && (forall id | id in s.store :: Sound(s, s.store[id]) && s.store[id].meta.id == id)
    && (forall c | c in s.calls :: FrameOk(s, s.calls[c]))
    && (forall x | x in s.seen :: Sound(s, x))
  }

  lemma BeginSafe(s: State, c: nat, alert: Alert, t1: Time)
    requires Safe(s) && c !in s.calls
    ensures Safe(BeginStep(s, c, alert, t1))
  {
    var s' := BeginStep(s, c, alert, t1);
    forall d | d in s'.calls ensures FrameOk(s', s'.calls[d]) {
      assert d != c ==> FrameOk(s, s.calls[d]);
    }
    forall x: Held | Sound(s, x) ensures Sound(s', x) {}
  }

  lemma LookupSafe(s: State, c: nat, t2: Time, answer: Option<string>)
    requires Safe(s) && c in s.calls && s.calls[c].Started?
    requires answer.Some? ==> answer.value in s.store && s.store[answer.value].meta.key == s.calls[c].Key()
    ensures Safe(LookupStep(s, c, t2, answer))
  {
    var s' := LookupStep(s, c, t2, answer);
    forall x: Held | Sound(s, x) ensures Sound(s', x) {}
    forall d | d in s'.calls ensures FrameOk(s', s'.calls[d]) {
      assert d != c ==> FrameOk(s, s.calls[d]);
    }
  }

  lemma FinishSafe(s: State, c: nat)
    requires Safe(s) && c in s.calls && s.calls[c].Built?
    ensures Safe(FinishStep(s, c))
  {
    var s' := FinishStep(s, c);
    forall x: Held | Sound(s, x) ensures Sound(s', x) {}
    assert FrameOk(s, s.calls[c]);
    forall d | d in s'.calls ensures FrameOk(s', s'.calls[d]) {
      assert FrameOk(s, s.calls[d]);
    }
  }

  lemma ReadAndMoveSafe(s: State, id: string, state: IncidentState)
    requires Safe(s) && id in s.store
    ensures Safe(ReadStep(s, id)) && Safe(MoveStep(s, id, state))
  {
    forall s' | s' == ReadStep(s, id) || s' == MoveStep(s, id, state) ensures Safe(s') {
      forall x: Held | Sound(s, x) ensures Sound(s', x) {}
      forall d | d in s'.calls ensures FrameOk(s', s'.calls[d]) {
        assert FrameOk(s, s.calls[d]);
      }
    }
  }

  /** A call that has not built yet has written no cell. */
  lemma NotWritten(s: State, c: nat, a: nat, i: nat)
    requires Safe(s) && c in s.calls && !s.calls[c].Submitting()
    requires a < |s.heap| && i < |s.heap[a]| && s.heap[a][i].Some?
    ensures s.heap[a][i].value.call != c
  {
    assert CellOk(s, s.owners[a], s.heap[a][i].value);
  }

  /** Copies stay sound when arrays are only added, or only have cells filled. */
  lemma SoundStays(s: State, s': State, x: Held)
    requires Sound(s, x) && |s.owners| == |s.heap|
    requires |s.heap| <= |s'.heap| && |s.owners| <= |s'.owners|
    requires forall a | 0 <= a < |s.heap| :: |s'.heap[a]| == |s.heap[a]| && s'.owners[a] == s.owners[a]
    requires forall a, i | 0 <= a < |s.heap| && 0 <= i < |s.heap[a]| && s.heap[a][i].Some? :: s'.heap[a][i].Some?
    ensures Sound(s', x)
  {
  }

  lemma BuildNewSafe(s: State, c: nat, id: string, topology: Option<TopologySlice>, spare: nat)
    requires Safe(s) && c in s.calls && s.calls[c].Looked? && s.calls[c].found.None?
    ensures Safe(BuildStep(s, c, id, topology, spare))
  {
    var s' := BuildStep(s, c, id, topology, spare);
    forall x: Held | Sound(s, x) ensures Sound(s', x) {
      SoundStays(s, s', x);
    }
    forall d | d in s'.calls ensures FrameOk(s', s'.calls[d]) {
      assert d != c ==> FrameOk(s, s.calls[d]);
    }
    forall a, i | 0 <= a < |s'.heap| && 0 <= i < |s'.heap[a]| && s'.heap[a][i].Some?
      ensures CellOk(s', s'.owners[a], s'.heap[a][i].value)
    {
      if a < |s.heap| {
        assert CellOk(s, s.owners[a], s.heap[a][i].value);
      }
    }
  }

  /** After an append every full cell is the one written, or an old one in its place. */
  ghost predicate CameFrom(h: Heap, h': Heap, b: Slice, x: Submission, a: nat, i: nat)
    requires InHeap(h, b) && a < |h'| && i < |h'[a]| && h'[a][i].Some?
  {
    var from := if a < |h| then a else b.arr;
    || (h'[a][i] == Some(x) && i == b.len && (a == b.arr || a == |h|))
    || (i < |h[from]| && h[from][i] == h'[a][i] && (a < |h| || i < b.len))
  }

  lemma AppendComesFrom(h: Heap, b: Slice, x: Submission, spare: nat, a: nat, i: nat)
    requires InHeap(h, b) && a < |Append(h, b, x, spare).0| && i < |Append(h, b, x, spare).0[a]|
    requires Append(h, b, x, spare).0[a][i].Some?
    ensures CameFrom(h, Append(h, b, x, spare).0, b, x, a, i)
  {
  }

  /** The conditions under which a call writes its alert behind the view `b`. */
  ghost predicate Writing(s: State, s': State, c: nat, b: Held, x: Submission, spare: nat) {
    && Safe(s) && Sound(s, b) && b.meta.key == KeyOf(x.alert)
    && c in s.calls && !s.calls[c].Submitting() && x.call == c
    && s'.heap == Append(s.heap, b.slice, x, spare).0
    && s'.owners == (if |s'.heap| > |s.heap| then s.owners + [Owner(b.meta.id, b.meta.key)] else s.owners)
    && s'.calls.Keys == s.calls.Keys && (forall d | d in s.calls && d != c :: s'.calls[d] == s.calls[d])
    && s'.calls[c].Submitting() && s'.calls[c].e.alert == x.alert && s'.calls[c].e.Home() == b.meta.id
  }

  lemma WrittenCellOk(s: State, s': State, c: nat, b: Held, x: Submission, spare: nat, a: nat, i: nat)
    requires Writing(s, s', c, b, x, spare)
    requires a < |s'.heap| && i < |s'.heap[a]| && s'.heap[a][i].Some?
    ensures a < |s'.owners| && CellOk(s', s'.owners[a], s'.heap[a][i].value)
  {
    AppendComesFrom(s.heap, b.slice, x, spare, a, i);
    if s'.heap[a][i] != Some(x) {
      var from := if a < |s.heap| then a else b.slice.arr;
      NotWritten(s, c, from, i);
      assert CellOk(s, s.owners[from], s.heap[from][i].value);
    }
  }

  lemma WrittenCellsDiffer(s: State, s': State, c: nat, b: Held, x: Submission, spare: nat, a: nat, i: nat, j: nat)
    requires Writing(s, s', c, b, x, spare)
    requires a < |s'.heap| && i < j < |s'.heap[a]| && s'.heap[a][i].Some? && s'.heap[a][j].Some?
    ensures s'.heap[a][i].value.call != s'.heap[a][j].value.call
  {
    AppendComesFrom(s.heap, b.slice, x, spare, a, i);
    AppendComesFrom(s.heap, b.slice, x, spare, a, j);
    var from := if a < |s.heap| then a else b.slice.arr;
    if i < |s.heap[from]| && s.heap[from][i] == s'.heap[a][i] {
      NotWritten(s, c, from, i);
    }
    if j < |s.heap[from]| && s.heap[from][j] == s'.heap[a][j] {
      NotWritten(s, c, from, j);
    }
  }

  lemma WrittenCells(s: State, s': State, c: nat, b: Held, x: Submission, spare: nat)
    requires Writing(s, s', c, b, x, spare)
    ensures CellsOk(s')
  {
    forall a, i | 0 <= a < |s'.heap| && 0 <= i < |s'.heap[a]| && s'.heap[a][i].Some?
      ensures CellOk(s', s'.owners[a], s'.heap[a][i].value)
    {
      WrittenCellOk(s, s', c, b, x, spare, a, i);
    }
    forall a, i, j | 0 <= a < |s'.heap| && 0 <= i < j < |s'.heap[a]| && s'.heap[a][i].Some? && s'.heap[a][j].Some?
      ensures s'.heap[a][i].value.call != s'.heap[a][j].value.call
    {
      WrittenCellsDiffer(s, s', c, b, x, spare, a, i, j);
    }
  }

  lemma BuildOnSafe(s: State, c: nat, id: string, topology: Option<TopologySlice>, spare: nat)
    requires Safe(s) && c in s.calls && s.calls[c].Looked? && s.calls[c].found.Some?
    requires InHeap(s.heap, s.calls[c].found.value.slice)
    ensures Safe(BuildStep(s, c, id, topology, spare))
  {
    var f, s' := s.calls[c], BuildStep(s, c, id, topology, spare);
    var b, x := f.found.value, Submission(c, f.alert);
    assert FrameOk(s, f);
    AppendAppends(s.heap, b.slice, x, spare);
    WrittenCells(s, s', c, b, x, spare);
    forall y: Held | Sound(s, y) ensures Sound(s', y) {
      SoundStays(s, s', y);
    }
    forall d | d in s'.calls ensures FrameOk(s', s'.calls[d]) {
      assert d != c ==> FrameOk(s, s.calls[d]);
    }
  }

  lemma NextSafe(s: State, step: Step, window: Time)
    requires Safe(s) && Enabled(s, step, window)
    ensures Safe(Next(s, step, window))
  {
    match step
    case Begin(c, alert, t1) => BeginSafe(s, c, alert, t1);
    case Lookup(c, t2, answer) => LookupSafe(s, c, t2, answer);
    case Build(c, id, topology, spare) =>
      if s.calls[c].found.None? {
        BuildNewSafe(s, c, id, topology, spare);
      } else {
        assert FrameOk(s, s.calls[c]);
        BuildOnSafe(s, c, id, topology, spare);
      }
    case Finish(c) => FinishSafe(s, c);
    case Read(id) => ReadAndMoveSafe(s, id, Open);
    case Move(id, state) => ReadAndMoveSafe(s, id, state);
  }

  // ---- Runs of the machine ----

  ghost predicate Possible(steps: seq<Step>, window: Time)
    decreases |steps|, 0
  {
    steps != [] ==> Possible(Init(steps), window) && Enabled(After(Init(steps), window), Last(steps), window)
  }

  /** The state after a run. Every state a run can reach is safe. */
  ghost function After(steps: seq<Step>, window: Time): (s: State)
    requires Possible(steps, window)
    ensures Safe(s)
    decreases |steps|, 1
  {
    if steps == [] then INITIAL else
    NextSafe(After(Init(steps), window), Last(steps), window);
    Next(After(Init(steps), window), Last(steps), window)
  }

  lemma {:induction false} PrefixOfRun(steps: seq<Step>, window: Time, n: nat)
    requires Possible(steps, window) && n <= |steps|
    ensures Possible(steps[..n], window)
    decreases |steps|
  {
    if n == |steps| {
      assert steps[..n] == steps;
    } else {
      PrefixOfRun(Init(steps), window, n);
      assert Init(steps)[..n] == steps[..n];
    }
  }

  ghost predicate Reached(s: State, window: Time) {
    exists steps :: Possible(steps, window) && After(steps, window) == s
  }

  /** A set of states that no step leaves. */
  ghost predicate Closed(reach: State -> bool, window: Time) {
    forall s: State, step: Step :: reach(s) && Enabled(s, step, window) ==>
      Safe(s) && reach(Next(s, step, window))
  }

  /** A run can be extended by any enabled step. */
  lemma ReachedIsClosed(window: Time)
    ensures Reached(INITIAL, window) && Closed(s => Reached(s, window), window)
  {
    assert Possible([], window) && After([], window) == INITIAL;
    forall s: State, step: Step | Reached(s, window) && Enabled(s, step, window)
      ensures Safe(s) && Reached(Next(s, step, window), window)
    {
      var p :| Possible(p, window) && After(p, window) == s;
      assert Init(p + [step]) == p && Last(p + [step]) == step;
      assert Possible(p + [step], window);
    }
  }

  /**
   * Whatever the interleaving: an incident's version is its number of alerts and at least 1;
   * every alert it holds was submitted, with its key; and no submission is held twice, in
   * one incident or in two. Distinct incidents never share a backing array.
   */
  lemma SafetyUnderEveryInterleaving(steps: seq<Step>, window: Time, id: string, other: string, i: nat, j: nat)
    requires Possible(steps, window)
    requires id in After(steps, window).store && other in After(steps, window).store
    requires i < After(steps, window).store[id].slice.len && j < After(steps, window).store[other].slice.len
    ensures var s := After(steps, window);
            && InHeap(s.heap, s.store[id].slice) && InHeap(s.heap, s.store[other].slice)
            && var v, w := View(s.heap, s.store[id].slice), View(s.heap, s.store[other].slice);
               && s.store[id].meta.version == |v| >= 1
               && v[i].call in s.calls && s.calls[v[i].call].Submitting() && s.calls[v[i].call].e.alert == v[i].alert
               && KeyOf(v[i].alert) == s.store[id].meta.key
               && (v[i].call == w[j].call ==> id == other && i == j)
               && (s.store[id].slice.arr == s.store[other].slice.arr ==> id == other)
  {
    var s := After(steps, window);
    var x, y := s.store[id], s.store[other];
    assert Sound(s, x) && Sound(s, y);
    assert CellOk(s, s.owners[x.slice.arr], s.heap[x.slice.arr][i].value);
    assert CellOk(s, s.owners[y.slice.arr], s.heap[y.slice.arr][j].value);
  }
}
