/**
 * Runs in which overlapping calls lose an alert, or change an incident that nobody saves. The
 * states are built up step by step inside any set of states that no step leaves.
 */
module OverlapRuns {
  import opened Wrappers
  import opened Collections
  import opened Domain
  import opened Correlation
  import opened MemoryStore
  import opened Runs
  import opened Machine
  import opened TwoCalls
  import opened Overlap
  import Lexicographic

  // ---- Reachable states ----

  lemma Take(reach: State -> bool, s: State, step: Step, window: Time)
    requires Closed(reach, window) && reach(s) && Machine.Enabled(s, step, window)
    ensures Safe(s) && reach(Next(s, step, window))
  {
  }

  lemma TakeBegin(reach: State -> bool, s: State, c: nat, alert: Alert, t1: Time, window: Time)
    requires Closed(reach, window) && reach(s) && c !in s.calls && s.now <= t1
    ensures reach(BeginStep(s, c, alert, t1))
  {
    Take(reach, s, Begin(c, alert, t1), window);
  }

  lemma TakeBuild(reach: State -> bool, s: State, c: nat, id: string, spare: nat, window: Time)
    requires Closed(reach, window) && reach(s) && c in s.calls && s.calls[c].Looked?
    requires id !in s.store && forall o | o in s.owners :: o.id != id
    requires s.calls[c].found.Some? ==> InHeap(s.heap, s.calls[c].found.value.slice)
    ensures reach(BuildStep(s, c, id, None, spare))
  {
    Take(reach, s, Build(c, id, None, spare), window);
  }

  lemma TakeFinish(reach: State -> bool, s: State, c: nat, window: Time)
    requires Closed(reach, window) && reach(s) && c in s.calls && s.calls[c].Built?
    ensures reach(FinishStep(s, c))
  {
    Take(reach, s, Finish(c), window);
  }

  lemma TakeLookup(reach: State -> bool, s: State, c: nat, window: Time, held: Held)
    requires Closed(reach, window) && reach(s) && window >= 0 && s.now == 0
    requires s.store == map["i" := held] && c in s.calls && s.calls[c].Started?
    requires held.meta.key == s.calls[c].Key() && held.meta.state == Open && held.meta.lastAlertAt == 0
    ensures reach(LookupStep(s, c, 0, Some("i")))
  {
    assert Metas(s.store) == map["i" := held.meta];
    assert IsLookup(Metas(s.store), s.calls[c].Key(), 0, window, Some("i"));
    Take(reach, s, Lookup(c, 0, Some("i")), window);
  }

  predicate AtZero(h: Held, key: string) {
    h.meta.id == "i" && h.meta.key == key && h.meta.state == Open && h.meta.lastAlertAt == 0
  }

  /** One incident is stored, and all of it happened at time 0. */
  ghost predicate HasOne(s: State, held: Held, key: string) {
    && s.now == 0 && s.store == map["i" := held] && (forall o | o in s.owners :: o.id == "i")
    && AtZero(held, key)
  }

  ghost predicate AllDone(s: State) {
    forall c | c in s.calls :: s.calls[c].Done?
  }

  lemma FirstLooked(reach: State -> bool, a: Alert, window: Time)
    requires Closed(reach, window) && reach(INITIAL)
    ensures reach(State(0, [], [], map[], map[0 := Looked(a, 0, 0, None)], {}, []))
  {
    TakeBegin(reach, INITIAL, 0, a, 0, window);
    var s := BeginStep(INITIAL, 0, a, 0);
    Take(reach, s, Lookup(0, 0, None), window);
    assert LookupStep(s, 0, 0, None).calls == map[0 := Looked(a, 0, 0, None)];
  }

  lemma FirstOpened(reach: State -> bool, a: Alert, window: Time) returns (s: State)
    requires Closed(reach, window) && reach(INITIAL)
    ensures reach(s) && AllDone(s) && s.calls.Keys == {0} && s.heap == [[Some(Submission(0, a))]]
    ensures "i" in s.store && HasOne(s, s.store["i"], KeyOf(a))
    ensures s.store["i"].slice == Slice(0, 1) && s.store["i"].meta.severity == SeverityOf(a)
  {
    var s0 := State(0, [], [], map[], map[0 := Looked(a, 0, 0, None)], {}, []);
    FirstLooked(reach, a, window);
    TakeBuild(reach, s0, 0, "i", 0, window);
    var s1 := BuildStep(s0, 0, "i", None, 0);
    TakeFinish(reach, s1, 0, window);
    s := FinishStep(s1, 0);
  }

  /** One more call has begun and has found the stored incident. */
  function Finding(s: State, c: nat, a: Alert): State
    requires "i" in s.store
  {
    LookupStep(BeginStep(s, c, a, 0), c, 0, Some("i"))
  }

  lemma TakeFinding(reach: State -> bool, s: State, c: nat, a: Alert, window: Time, held: Held, key: string)
    requires Closed(reach, window) && reach(s) && window >= 0 && HasOne(s, held, key)
    requires key == KeyOf(a) && c !in s.calls
    ensures reach(Finding(s, c, a))
  {
    TakeBegin(reach, s, c, a, 0, window);
    TakeLookup(reach, BeginStep(s, c, a, 0), c, window, held);
  }

  lemma FindingLeaves(s: State, c: nat, a: Alert, held: Held, key: string)
    requires HasOne(s, held, key) && c !in s.calls
    ensures HasOne(Finding(s, c, a), held, key) && Finding(s, c, a).heap == s.heap
    ensures Finding(s, c, a).calls == s.calls[c := Looked(a, 0, 0, Some(held))]
  {
  }

  lemma OneFinds(reach: State -> bool, s: State, c: nat, a: Alert, window: Time, held: Held, key: string)
    returns (s': State)
    requires Closed(reach, window) && reach(s) && window >= 0 && HasOne(s, held, key)
    requires key == KeyOf(a) && c !in s.calls
    ensures reach(s') && HasOne(s', held, key) && s'.heap == s.heap
    ensures s'.calls == s.calls[c := Looked(a, 0, 0, Some(held))]
  {
    TakeFinding(reach, s, c, a, window, held, key);
    FindingLeaves(s, c, a, held, key);
    s' := Finding(s, c, a);
  }

  ghost predicate HasFoundIt(s: State, c: nat, a: Alert, held: Held) {
    c in s.calls && s.calls[c] == Looked(a, 0, 0, Some(held)) && InHeap(s.heap, held.slice)
  }

  /** A call appends to what it has found; `h` is its new copy. */
  lemma OneBuilds(reach: State -> bool, s: State, c: nat, a: Alert, spare: nat, window: Time, held: Held, key: string,
                  base: Held)
    returns (s': State, e: Event, h: Held)
    requires Closed(reach, window) && reach(s) && HasOne(s, held, key) && HasFoundIt(s, c, a, base)
    requires base.meta.id == "i"
    ensures reach(s') && HasOne(s', held, key)
    ensures h == Held(Meta(Extended(base.meta, a, 0)), Append(s.heap, base.slice, Submission(c, a), spare).1)
    ensures s'.calls == s.calls[c := Built(e, h)] && s'.heap == Append(s.heap, base.slice, Submission(c, a), spare).0
  {
    TakeBuild(reach, s, c, "j", spare, window);
    s' := BuildStep(s, c, "j", None, spare);
    e, h := s'.calls[c].e, s'.calls[c].held;
  }

  lemma OneSaves(reach: State -> bool, s: State, c: nat, e: Event, h: Held, window: Time, held: Held, key: string)
    returns (s': State)
    requires Closed(reach, window) && reach(s) && HasOne(s, held, key) && c in s.calls && s.calls[c] == Built(e, h)
    requires AtZero(h, key)
    ensures reach(s') && HasOne(s', h, key) && s'.heap == s.heap && s'.calls == s.calls[c := Done(e)]
    ensures s' == FinishStep(s, c)
  {
    TakeFinish(reach, s, c, window);
    s' := FinishStep(s, c);
  }

  /** Two calls find the one stored incident. */
  lemma TwoFind(reach: State -> bool, s: State, c: nat, d: nat, a: Alert, b: Alert, window: Time, held: Held,
                key: string)
    returns (s': State)
    requires Closed(reach, window) && reach(s) && window >= 0 && HasOne(s, held, key) && key == KeyOf(a) == KeyOf(b)
    requires c !in s.calls && d !in s.calls && c != d && InHeap(s.heap, held.slice)
    ensures reach(s') && HasOne(s', held, key) && s'.heap == s.heap
    ensures s'.calls == s.calls[c := Looked(a, 0, 0, Some(held))][d := Looked(b, 0, 0, Some(held))]
    ensures HasFoundIt(s', c, a, held) && HasFoundIt(s', d, b, held)
  {
    s' := OneFinds(reach, s, c, a, window, held, key);
    s' := OneFinds(reach, s', d, b, window, held, key);
  }

  /** Both then append, and `g` and `h` are their new copies. */
  lemma TwoBuild(reach: State -> bool, s: State, c: nat, d: nat, a: Alert, b: Alert, window: Time, held: Held,
                 key: string)
    returns (s': State, e: Event, f: Event, g: Held, h: Held)
    requires Closed(reach, window) && reach(s) && HasOne(s, held, key) && c != d
    requires HasFoundIt(s, c, a, held) && HasFoundIt(s, d, b, held)
    ensures reach(s') && HasOne(s', held, key)
    ensures s'.calls == s.calls[c := Built(e, g)][d := Built(f, h)]
    ensures g.meta == Meta(Extended(held.meta, a, 0)) && h.meta == Meta(Extended(held.meta, b, 0))
    ensures var h1 := Append(s.heap, held.slice, Submission(c, a), 0);
            && g.slice == h1.1 && InHeap(h1.0, held.slice)
            && h.slice == Append(h1.0, held.slice, Submission(d, b), 0).1
            && s'.heap == Append(h1.0, held.slice, Submission(d, b), 0).0
  {
    AppendKeeps(s.heap, held.slice, Submission(c, a), 0, held.slice);
    s', e, g := OneBuilds(reach, s, c, a, 0, window, held, key, held);
    s', f, h := OneBuilds(reach, s', d, b, 0, window, held, key, held);
  }

  /** The second append, behind the same slice, shows its own alert last. */
  lemma SecondAppendShows(h: Heap, l: Slice, x: Submission, y: Submission)
    requires InHeap(h, l)
    ensures var (h1, _) := Append(h, l, x, 0);
            InHeap(h1, l) && var (h2, m) := Append(h1, l, y, 0); InHeap(h2, m) && View(h2, m) == View(h, l) + [y]
  {
    AppendKeeps(h, l, x, 0, l);
    AppendAppends(Append(h, l, x, 0).0, l, y, 0);
  }

  /** In a shared array the first append then shows the alert of the second. */
  lemma FirstAppendShows(h: Heap, l: Slice, x: Submission, y: Submission)
    requires InHeap(h, l) && l.len < |h[l.arr]|
    ensures var (h1, m) := Append(h, l, x, 0);
            InHeap(h1, l) && var h2 := Append(h1, l, y, 0).0; InHeap(h2, m) && View(h2, m) == View(h, l) + [y]
  {
    AppendKeeps(h, l, x, 0, l);
    AppendAppends(Append(h, l, x, 0).0, l, y, 0);
  }

  /** From a quiet state two calls look up, then append, `c` before `d`. */
  lemma TwoOverlap(reach: State -> bool, s: State, c: nat, d: nat, a: Alert, b: Alert, window: Time, held: Held,
                   key: string)
    returns (s': State, e: Event, f: Event, g: Held, h: Held)
    requires Closed(reach, window) && reach(s) && window >= 0 && HasOne(s, held, key) && key == KeyOf(a) == KeyOf(b)
    requires c !in s.calls && d !in s.calls && c != d && InHeap(s.heap, held.slice)
    ensures reach(s') && HasOne(s', held, key) && AtZero(g, key) && AtZero(h, key)
    ensures s'.calls == s.calls[c := Built(e, g)][d := Built(f, h)]
    ensures g.meta.severity == Lexicographic.Max(held.meta.severity, SeverityOf(a))
    ensures InHeap(s'.heap, h.slice) && View(s'.heap, h.slice) == View(s.heap, held.slice) + [Submission(d, b)]
    ensures held.slice.len < |s.heap[held.slice.arr]| ==>
              InHeap(s'.heap, g.slice) && View(s'.heap, g.slice) == View(s.heap, held.slice) + [Submission(d, b)]
  {
    SecondAppendShows(s.heap, held.slice, Submission(c, a), Submission(d, b));
    if held.slice.len < |s.heap[held.slice.arr]| {
      FirstAppendShows(s.heap, held.slice, Submission(c, a), Submission(d, b));
    }
    s' := TwoFind(reach, s, c, d, a, b, window, held, key);
    s', e, f, g, h := TwoBuild(reach, s', c, d, a, b, window, held, key);
  }

  /** The calls save, `d` last; and then all is quiet again. */
  lemma TwoSave(reach: State -> bool, s: State, c: nat, d: nat, e: Event, f: Event, g: Held, h: Held, window: Time,
                held: Held, key: string, calls: map<nat, Frame>)
    returns (before: State, s': State)
    requires Closed(reach, window) && reach(s) && HasOne(s, held, key) && c != d && AtZero(g, key) && AtZero(h, key)
    requires s.calls.Keys == calls.Keys + {c, d} && s.calls[c] == Built(e, g) && s.calls[d] == Built(f, h)
    requires forall n | n in calls && n != c && n != d :: s.calls[n].Done?
    ensures reach(s') && HasOne(s', h, key) && AllDone(s') && s'.heap == s.heap
    ensures s'.calls.Keys == calls.Keys + {c, d}
    ensures d in before.calls && before.calls[d].Built? && s' == FinishStep(before, d)
  {
    before := OneSaves(reach, s, c, e, g, window, held, key);
    s' := OneSaves(reach, before, d, f, h, window, g, key);
  }

  /** All calls have finished, and the one incident holds these submissions. */
  ghost predicate AllHeld(s: State, calls: set<nat>, v: seq<Submission>) {
    && AllDone(s) && s.calls.Keys == calls
    && s.store.Keys == {"i"} && InHeap(s.heap, s.store["i"].slice) && View(s.heap, s.store["i"].slice) == v
  }

  lemma FirstSaverLoses(reach: State -> bool, a: Alert, b: Alert, c: Alert, window: Time) returns (s: State)
    requires Closed(reach, window) && reach(INITIAL) && KeyOf(a) == KeyOf(b) == KeyOf(c) && window >= 0
    ensures reach(s) && AllHeld(s, {0, 1, 2}, [Submission(0, a), Submission(2, c)])
  {
    var e, f, g, h, before, held;
    var s0 := FirstOpened(reach, a, window);
    held := s0.store["i"];
    assert InHeap(s0.heap, held.slice) && View(s0.heap, held.slice) == [Submission(0, a)];
    s, e, f, g, h := TwoOverlap(reach, s0, 1, 2, b, c, window, held, KeyOf(a));
    before, s := TwoSave(reach, s, 1, 2, e, f, g, h, window, held, KeyOf(a), s0.calls);
  }

  /**
   * Conservation fails under overlap: for any three alerts of one key there is a run in which
   * all three calls finish and the second alert is in no incident.
   */
  lemma ConservationFailsUnderOverlap(a: Alert, b: Alert, c: Alert, window: Time) returns (s: State)
    requires KeyOf(a) == KeyOf(b) == KeyOf(c) && window >= 0
    ensures Reached(s, window) && AllHeld(s, {0, 1, 2}, [Submission(0, a), Submission(2, c)])
  {
    ReachedIsClosed(window);
    s := FirstSaverLoses(s => Reached(s, window), a, b, c, window);
  }

  /** Two alerts in one incident, with a free cell behind them. */
  lemma TwoOpened(reach: State -> bool, a: Alert, b: Alert, window: Time) returns (s: State, held: Held)
    requires Closed(reach, window) && reach(INITIAL) && KeyOf(a) == KeyOf(b) && window >= 0
    ensures reach(s) && AllDone(s) && s.calls.Keys == {0, 1} && HasOne(s, held, KeyOf(a))
    ensures held.slice == Slice(1, 2) && InHeap(s.heap, held.slice) && |s.heap[1]| == 3
    ensures View(s.heap, held.slice) == [Submission(0, a), Submission(1, b)]
    ensures held.meta.severity == Lexicographic.Max(SeverityOf(a), SeverityOf(b))
  {
    s := FirstOpened(reach, a, window);
    var held0, key := s.store["i"], KeyOf(a);
    assert InHeap(s.heap, held0.slice) && View(s.heap, held0.slice) == [Submission(0, a)];
    AppendAppends(s.heap, held0.slice, Submission(1, b), 1);
    s := OneFinds(reach, s, 1, b, window, held0, key);
    var e;
    s, e, held := OneBuilds(reach, s, 1, b, 1, window, held0, key, held0);
    s := OneSaves(reach, s, 1, e, held, window, held0, key);
  }

  lemma LastSaverLoses(reach: State -> bool, a: Alert, b: Alert, c: Alert, d: Alert, window: Time)
    returns (before: State, s: State)
    requires Closed(reach, window) && reach(INITIAL) && KeyOf(a) == KeyOf(b) == KeyOf(c) == KeyOf(d) && window >= 0
    ensures reach(s) && AllHeld(s, {0, 1, 2, 3}, [Submission(0, a), Submission(1, b), Submission(3, d)])
    ensures 2 in before.calls && before.calls[2].Built? && s == FinishStep(before, 2)
    ensures s.store["i"].meta.severity
            == Lexicographic.Max(Lexicographic.Max(SeverityOf(a), SeverityOf(b)), SeverityOf(c))
  {
    var e, f, g, h;
    var s0, held := TwoOpened(reach, a, b, window);
    s, e, f, g, h := TwoOverlap(reach, s0, 2, 3, c, d, window, held, KeyOf(a));
    before, s := TwoSave(reach, s, 3, 2, f, e, h, g, window, held, KeyOf(a), s0.calls);
  }

  /**
   * Of two calls that append into one free cell, the one that saves last can be the one whose
   * alert is lost, while its severity is the one that is kept.
   */
  lemma LastSaverCanLose(a: Alert, b: Alert, c: Alert, d: Alert, window: Time) returns (before: State, s: State)
    requires KeyOf(a) == KeyOf(b) == KeyOf(c) == KeyOf(d) && window >= 0
    ensures Reached(s, window) && AllHeld(s, {0, 1, 2, 3}, [Submission(0, a), Submission(1, b), Submission(3, d)])
    ensures 2 in before.calls && before.calls[2].Built? && s == FinishStep(before, 2)
    ensures s.store["i"].meta.severity
            == Lexicographic.Max(Lexicographic.Max(SeverityOf(a), SeverityOf(b)), SeverityOf(c))
  {
    ReachedIsClosed(window);
    before, s := LastSaverLoses(s => Reached(s, window), a, b, c, d, window);
  }

  lemma StoredChanges(reach: State -> bool, a: Alert, b: Alert, c: Alert, d: Alert, window: Time)
    returns (before: State, s: State)
    requires Closed(reach, window) && reach(INITIAL) && KeyOf(a) == KeyOf(b) == KeyOf(c) == KeyOf(d) && window >= 0
    ensures reach(before) && reach(s) && BuildChanges(before, s, 3)
    ensures View(before.heap, s.store["i"].slice) == [Submission(0, a), Submission(1, b), Submission(2, c)]
    ensures View(s.heap, s.store["i"].slice) == [Submission(0, a), Submission(1, b), Submission(3, d)]
  {
    var e, g, held;
    s, held := TwoOpened(reach, a, b, window);
    AppendAppends(s.heap, held.slice, Submission(2, c), 0);
    AppendKeeps(s.heap, held.slice, Submission(2, c), 0, held.slice);
    FirstAppendShows(s.heap, held.slice, Submission(2, c), Submission(3, d));
    s := TwoFind(reach, s, 2, 3, c, d, window, held, KeyOf(a));
    s, e, g := OneBuilds(reach, s, 2, c, 0, window, held, KeyOf(a), held);
    before := OneSaves(reach, s, 2, e, g, window, held, KeyOf(a));
    TakeBuild(reach, before, 3, "j", 0, window);
    s := BuildStep(before, 3, "j", None, 0);
  }

  /** One step, the append of call `c`, leads from `before` to `s`, and the store is the same. */
  ghost predicate BuildChanges(before: State, s: State, c: nat) {
    && c in before.calls && before.calls[c].Looked? && before.calls[c].found.Some?
    && InHeap(before.heap, before.calls[c].found.value.slice) && s == BuildStep(before, c, "j", None, 0)
    && s.store == before.store && "i" in s.store
    && InHeap(before.heap, s.store["i"].slice) && InHeap(s.heap, s.store["i"].slice)
  }

  /**
   * Snapshots are not stable under overlap: with one append and no save, the stored incident
   * shows another last alert than before.
   */
  lemma StoredIncidentCanChange(a: Alert, b: Alert, c: Alert, d: Alert, window: Time) returns (before: State, s: State)
    requires KeyOf(a) == KeyOf(b) == KeyOf(c) == KeyOf(d) && window >= 0
    ensures Reached(before, window) && Reached(s, window) && BuildChanges(before, s, 3)
    ensures View(before.heap, s.store["i"].slice) == [Submission(0, a), Submission(1, b), Submission(2, c)]
    ensures View(s.heap, s.store["i"].slice) == [Submission(0, a), Submission(1, b), Submission(3, d)]
  {
    ReachedIsClosed(window);
    before, s := StoredChanges(s => Reached(s, window), a, b, c, d, window);
  }

  // ---- Two incidents for one key ----

  /** A call that has begun while nothing is stored finds nothing. */
  lemma NothingFound(reach: State -> bool, s: State, c: nat, a: Alert, window: Time) returns (s': State)
    requires Closed(reach, window) && reach(s) && s.now == 0 && s.store == map[] && c !in s.calls
    ensures reach(s') && s' == s.(calls := s.calls[c := Looked(a, 0, 0, None)])
  {
    TakeBegin(reach, s, c, a, 0, window);
    var s1 := BeginStep(s, c, a, 0);
    Take(reach, s1, Lookup(c, 0, None), window);
    s' := LookupStep(s1, c, 0, None);
    assert s'.calls == s.calls[c := Looked(a, 0, 0, None)];
  }

  /** The call opens the incident, and saves it. */
  lemma Opens(reach: State -> bool, s: State, c: nat, a: Alert, id: string, window: Time) returns (s': State)
    requires Closed(reach, window) && reach(s) && c in s.calls && s.calls[c] == Looked(a, 0, 0, None)
    requires id !in s.store && forall o | o in s.owners :: o.id != id
    ensures reach(s') && s'.now == s.now && s'.owners == s.owners + [Owner(id, KeyOf(a))]
    ensures s'.store.Keys == s.store.Keys + {id} && (forall x | x in s.store :: s'.store[x] == s.store[x])
    ensures s'.store[id].meta.key == KeyOf(a) && s'.store[id].meta.state == Open && s'.store[id].meta.lastAlertAt == 0
    ensures s'.calls.Keys == s.calls.Keys && (forall d | d in s.calls && d != c :: s'.calls[d] == s.calls[d])
    ensures s'.calls[c].Done? && s.heap <= s'.heap
  {
    TakeBuild(reach, s, c, id, 0, window);
    var s1 := BuildStep(s, c, id, None, 0);
    TakeFinish(reach, s1, c, window);
    s' := FinishStep(s1, c);
  }

  lemma BothOpen(reach: State -> bool, a: Alert, b: Alert, window: Time) returns (s: State)
    requires Closed(reach, window) && reach(INITIAL) && KeyOf(a) == KeyOf(b) && window >= 0
    ensures reach(s) && AllDone(s) && s.calls.Keys == {0, 1} && s.store.Keys == {"i", "j"} && s.now == 0
    ensures forall id | id in s.store ::
              s.store[id].meta.key == KeyOf(a) && s.store[id].meta.state == Open && s.store[id].meta.lastAlertAt == 0
  {
    s := NothingFound(reach, INITIAL, 0, a, window);
    s := NothingFound(reach, s, 1, b, window);
    s := Opens(reach, s, 0, a, "i", window);
    s := Opens(reach, s, 1, b, "j", window);
  }

  lemma BothLive(s: State, key: string, window: Time)
    requires "i" in s.store && "j" in s.store && window >= 0
    requires Live(s.store["i"].meta, key, s.now, window) && Live(s.store["j"].meta, key, s.now, window)
    ensures !AtMostOneLive(Metas(s.store), key, s.now, window)
  {
    assert "i" in Metas(s.store) && "j" in Metas(s.store) && "i" != "j";
  }

  /**
   * Two calls that both look up before either has saved each open an incident: for any two
   * alerts of a key there is a run after which two incidents of the key are live.
   */
  lemma TwoCanBeLive(a: Alert, b: Alert, window: Time) returns (s: State)
    requires KeyOf(a) == KeyOf(b) && window >= 0
    ensures Reached(s, window) && AllDone(s) && s.calls.Keys == {0, 1} && s.store.Keys == {"i", "j"}
    ensures forall id | id in s.store :: Live(s.store[id].meta, KeyOf(a), s.now, window)
    ensures !AtMostOneLive(Metas(s.store), KeyOf(a), s.now, window)
  {
    ReachedIsClosed(window);
    s := BothOpen(s => Reached(s, window), a, b, window);
    BothLive(s, KeyOf(a), window);
  }

  /** A resolved incident is not found. */
  lemma ResolvedNotFound(reach: State -> bool, s: State, d: nat, c: Alert, window: Time, h: Held) returns (s': State)
    requires Closed(reach, window) && reach(s) && d !in s.calls && s.now == 0
    requires s.store == map["i" := h] && h.meta.state == Resolved
    ensures reach(s') && s' == s.(calls := s.calls[d := Looked(c, 0, 0, None)])
  {
    TakeBegin(reach, s, d, c, 0, window);
    var s1 := BeginStep(s, d, c, 0);
    assert IsLookup(Metas(s1.store), KeyOf(c), 0, window, None);
    Take(reach, s1, Lookup(d, 0, None), window);
    s' := LookupStep(s1, d, 0, None);
    assert s'.calls == s.calls[d := Looked(c, 0, 0, None)];
  }

  /** The stored incident is resolved after a call has found it. */
  lemma Resolve(reach: State -> bool, s: State, window: Time, held: Held, key: string) returns (s': State)
    requires Closed(reach, window) && reach(s) && HasOne(s, held, key)
    ensures reach(s') && s'.now == 0 && s'.heap == s.heap && s'.owners == s.owners && s'.calls == s.calls
    ensures s'.store == map["i" := held.(meta := held.meta.(state := Resolved))]
  {
    Take(reach, s, Move("i", Resolved), window);
    s' := MoveStep(s, "i", Resolved);
  }

  /** A stale save of what the call found; the copy is open, whatever has become of the incident. */
  lemma SavesStale(reach: State -> bool, s: State, c: nat, b: Alert, held: Held, key: string, window: Time)
    returns (s': State)
    requires Closed(reach, window) && reach(s) && HasFoundIt(s, c, b, held) && AtZero(held, key)
    requires "k" !in s.store && forall o | o in s.owners :: o.id != "k"
    ensures reach(s') && s'.now == s.now && s'.store.Keys == s.store.Keys + {"i"}
    ensures AtZero(s'.store["i"], key) && forall x | x in s.store && x != "i" :: s'.store[x] == s.store[x]
  {
    TakeBuild(reach, s, c, "k", 0, window);
    var s1 := BuildStep(s, c, "k", None, 0);
    TakeFinish(reach, s1, c, window);
    s' := FinishStep(s1, c);
  }

  /** The first incident was resolved, and has been saved open; so both are live. */
  ghost predicate Revived(before: State, s: State, key: string, window: Time) {
    && before.store.Keys == s.store.Keys == {"i", "j"} && s.store["j"] == before.store["j"]
    && before.store["i"].meta.state == Resolved && s.store["i"].meta.state == Open
    && !AtMostOneLive(Metas(s.store), key, s.now, window)
  }

  lemma Revives(reach: State -> bool, a: Alert, b: Alert, c: Alert, window: Time) returns (before: State, s: State)
    requires Closed(reach, window) && reach(INITIAL) && KeyOf(a) == KeyOf(b) == KeyOf(c) && window >= 0
    ensures reach(before) && reach(s) && Revived(before, s, KeyOf(a), window)
  {
    s := FirstOpened(reach, a, window);
    var held, key := s.store["i"], KeyOf(a);
    assert InHeap(s.heap, held.slice);
    s := OneFinds(reach, s, 1, b, window, held, key);
    s := Resolve(reach, s, window, held, key);
    s := ResolvedNotFound(reach, s, 2, c, window, s.store["i"]);
    before := Opens(reach, s, 2, c, "j", window);
    s := SavesStale(reach, before, 1, b, held, key, window);
    BothLive(s, key, window);
  }

  /**
   * A stale save undoes a resolution. So two incidents of a key can also become live when the
   * second was opened, without overlap, after the first had been resolved.
   */
  lemma StaleSaveRevives(a: Alert, b: Alert, c: Alert, window: Time) returns (before: State, s: State)
    requires KeyOf(a) == KeyOf(b) == KeyOf(c) && window >= 0
    ensures Reached(before, window) && Reached(s, window) && Revived(before, s, KeyOf(a), window)
  {
    ReachedIsClosed(window);
    before, s := Revives(s => Reached(s, window), a, b, c, window);
  }

  // ---- The theorems about two calls apply to such runs ----

  /** Runs that go on from one of `runs` with steps that touch no incident but for the calls `c` and `d`. */
  ghost predicate GoesOn(runs: (seq<Step>, State) -> bool, c: nat, d: nat, window: Time) {
    forall steps: seq<Step>, s: State, step: Step ::
      runs(steps, s) && Machine.Enabled(s, step, window) && (step.Build? || step.Finish? ==> Of(step, c, d)) ==>
        Safe(s) && runs(steps + [step], Next(s, step, window))
  }

  lemma GoBegin(runs: (seq<Step>, State) -> bool, steps: seq<Step>, s: State, c: nat, d: nat, e: nat, a: Alert,
                window: Time)
    requires GoesOn(runs, c, d, window) && runs(steps, s) && e !in s.calls && s.now == 0
    ensures runs(steps + [Begin(e, a, 0)], BeginStep(s, e, a, 0))
  {
    assert Machine.Enabled(s, Begin(e, a, 0), window);
  }

  lemma GoLookup(runs: (seq<Step>, State) -> bool, steps: seq<Step>, s: State, c: nat, d: nat, e: nat, held: Held,
                 key: string, window: Time)
    requires GoesOn(runs, c, d, window) && runs(steps, s) && window >= 0 && HasOne(s, held, key)
    requires e in s.calls && s.calls[e].Started? && s.calls[e].Key() == key
    ensures runs(steps + [Lookup(e, 0, Some("i"))], LookupStep(s, e, 0, Some("i")))
  {
    assert Metas(s.store) == map["i" := held.meta];
    assert Machine.Enabled(s, Lookup(e, 0, Some("i")), window);
  }

  lemma GoBuild(runs: (seq<Step>, State) -> bool, steps: seq<Step>, s: State, c: nat, d: nat, e: nat, held: Held,
                key: string, window: Time)
    requires GoesOn(runs, c, d, window) && runs(steps, s) && HasOne(s, held, key)
    requires (e == c || e == d) && e in s.calls && s.calls[e].Looked?
    requires s.calls[e].found.Some? && InHeap(s.heap, s.calls[e].found.value.slice)
    ensures runs(steps + [Build(e, "j", None, 0)], BuildStep(s, e, "j", None, 0))
  {
    assert Machine.Enabled(s, Build(e, "j", None, 0), window);
  }

  lemma GoFinish(runs: (seq<Step>, State) -> bool, steps: seq<Step>, s: State, c: nat, d: nat, e: nat, window: Time)
    requires GoesOn(runs, c, d, window) && runs(steps, s) && (e == c || e == d) && e in s.calls && s.calls[e].Built?
    ensures runs(steps + [Finish(e)], FinishStep(s, e))
  {
    assert Machine.Enabled(s, Finish(e), window);
  }

  lemma GoFinding(runs: (seq<Step>, State) -> bool, steps: seq<Step>, s: State, c: nat, d: nat, e: nat, a: Alert,
                  held: Held, key: string, window: Time)
    requires GoesOn(runs, c, d, window) && runs(steps, s) && window >= 0 && HasOne(s, held, key)
    requires key == KeyOf(a) && e !in s.calls
    ensures runs(steps + [Begin(e, a, 0), Lookup(e, 0, Some("i"))], Finding(s, e, a))
  {
    GoBegin(runs, steps, s, c, d, e, a, window);
    GoLookup(runs, steps + [Begin(e, a, 0)], BeginStep(s, e, a, 0), c, d, e, held, key, window);
    assert steps + [Begin(e, a, 0)] + [Lookup(e, 0, Some("i"))] == steps + [Begin(e, a, 0), Lookup(e, 0, Some("i"))];
  }

  lemma GoBuilds(runs: (seq<Step>, State) -> bool, steps: seq<Step>, s: State, c: nat, d: nat, a: Alert, b: Alert,
                 held: Held, key: string, window: Time) returns (s': State)
    requires GoesOn(runs, c, d, window) && runs(steps, s) && HasOne(s, held, key) && c != d
    requires HasFoundIt(s, c, a, held) && HasFoundIt(s, d, b, held)
    ensures runs(steps + [Build(c, "j", None, 0), Build(d, "j", None, 0)], s')
    ensures c in s'.calls && s'.calls[c].Built? && Carries(s'.calls[c], a)
    ensures d in s'.calls && s'.calls[d].Built? && Carries(s'.calls[d], b)
  {
    AppendKeeps(s.heap, held.slice, Submission(c, a), 0, held.slice);
    GoBuild(runs, steps, s, c, d, c, held, key, window);
    var s1 := BuildStep(s, c, "j", None, 0);
    GoBuild(runs, steps + [Build(c, "j", None, 0)], s1, c, d, d, held, key, window);
    s' := BuildStep(s1, d, "j", None, 0);
    assert steps + [Build(c, "j", None, 0)] + [Build(d, "j", None, 0)]
        == steps + [Build(c, "j", None, 0), Build(d, "j", None, 0)];
  }

  lemma GoFinishes(runs: (seq<Step>, State) -> bool, steps: seq<Step>, s: State, c: nat, d: nat, a: Alert, b: Alert,
                   window: Time) returns (s': State)
    requires GoesOn(runs, c, d, window) && runs(steps, s) && c != d
    requires c in s.calls && s.calls[c].Built? && Carries(s.calls[c], a)
    requires d in s.calls && s.calls[d].Built? && Carries(s.calls[d], b)
    ensures runs(steps + [Finish(d), Finish(c)], s') && Named(s', Submission(c, a)) && Named(s', Submission(d, b))
  {
    GoFinish(runs, steps, s, c, d, d, window);
    GoFinish(runs, steps + [Finish(d)], FinishStep(s, d), c, d, c, window);
    s' := FinishStep(FinishStep(s, d), c);
    assert steps + [Finish(d)] + [Finish(c)] == steps + [Finish(d), Finish(c)];
  }

  /** The steps of two calls that look up together; `c` appends first and saves last. */
  function Together(c: nat, d: nat, a: Alert, b: Alert): seq<Step> {
    [Begin(c, a, 0), Lookup(c, 0, Some("i")), Begin(d, b, 0), Lookup(d, 0, Some("i")),
     Build(c, "j", None, 0), Build(d, "j", None, 0), Finish(d), Finish(c)]
  }

  lemma GoTogether(runs: (seq<Step>, State) -> bool, steps: seq<Step>, s: State, c: nat, d: nat, a: Alert, b: Alert,
                   held: Held, key: string, window: Time) returns (s': State)
    requires GoesOn(runs, c, d, window) && runs(steps, s) && window >= 0 && HasOne(s, held, key) && c != d
    requires key == KeyOf(a) == KeyOf(b) && c !in s.calls && d !in s.calls && InHeap(s.heap, held.slice)
    ensures runs(steps + Together(c, d, a, b), s') && Named(s', Submission(c, a)) && Named(s', Submission(d, b))
  {
    var found := [Begin(c, a, 0), Lookup(c, 0, Some("i"))] + [Begin(d, b, 0), Lookup(d, 0, Some("i"))];
    GoFinding(runs, steps, s, c, d, c, a, held, key, window);
    FindingLeaves(s, c, a, held, key);
    var s1 := Finding(s, c, a);
    GoFinding(runs, steps + found[..2], s1, c, d, d, b, held, key, window);
    FindingLeaves(s1, d, b, held, key);
    assert steps + found[..2] + found[2..] == steps + found;
    s' := GoBuilds(runs, steps + found, Finding(s1, d, b), c, d, a, b, held, key, window);
    var built := found + [Build(c, "j", None, 0), Build(d, "j", None, 0)];
    assert steps + found + [Build(c, "j", None, 0), Build(d, "j", None, 0)] == steps + built;
    s' := GoFinishes(runs, steps + built, s', c, d, a, b, window);
    assert steps + built + [Finish(d), Finish(c)] == steps + Together(c, d, a, b);
  }

  /** The run has got as far as this state, and since step `n` only `c` and `d` have touched the incident. */
  ghost predicate RunTo(steps: seq<Step>, s: State, n: nat, c: nat, d: nat, window: Time) {
    n <= |steps| && Possible(steps, window) && After(steps, window) == s && OnlyTheyTouch(steps, n, c, d, "i", window)
  }

  lemma RunsGoOn(n: nat, c: nat, d: nat, window: Time)
    ensures GoesOn((steps, s) => RunTo(steps, s, n, d, c, window), c, d, window)
  {
    forall steps: seq<Step>, s: State, step: Step
      | RunTo(steps, s, n, d, c, window) && Machine.Enabled(s, step, window)
        && (step.Build? || step.Finish? ==> Of(step, c, d))
      ensures Safe(s) && RunTo(steps + [step], Next(s, step, window), n, d, c, window)
    {
      assert Init(steps + [step]) == steps && Last(steps + [step]) == step;
    }
  }

  lemma TogetherFollows(steps: seq<Step>, c: nat, d: nat, a: Alert, b: Alert)
    requires c != d
    ensures var n := |steps|;
            && Follows(steps + Together(c, d, a, b), n, d, Order(n + 3, n + 5, n + 6), "i")
            && Follows(steps + Together(c, d, a, b), n, c, Order(n + 1, n + 4, n + 7), "i")
  {
    var all, n := steps + Together(c, d, a, b), |steps|;
    forall i | n <= i < |all| ensures all[i] == Together(c, d, a, b)[i - n] {}
  }

  lemma OneRunGoesOn(steps: seq<Step>, s: State, c: nat, d: nat, a: Alert, b: Alert, held: Held, window: Time)
    requires Possible(steps, window) && After(steps, window) == s && window >= 0 && HasOne(s, held, KeyOf(a)) && c != d
    requires KeyOf(a) == KeyOf(b) && c !in s.calls && d !in s.calls && InHeap(s.heap, held.slice)
    ensures var n := |steps|;
            TwoCallRun(steps + Together(c, d, a, b), window, n, Submission(d, b), Submission(c, a),
                       Order(n + 3, n + 5, n + 6), Order(n + 1, n + 4, n + 7), "i")
  {
    RunsGoOn(|steps|, c, d, window);
    var s' := GoTogether((q, s) => RunTo(q, s, |steps|, d, c, window), steps, s, c, d, a, b, held, KeyOf(a), window);
    TogetherFollows(steps, c, d, a, b);
  }

  lemma RunToTwo(a: Alert, b: Alert, window: Time) returns (steps: seq<Step>, held: Held)
    requires KeyOf(a) == KeyOf(b) && window >= 0
    ensures Possible(steps, window) && After(steps, window).calls.Keys == {0, 1}
    ensures HasOne(After(steps, window), held, KeyOf(a)) && InHeap(After(steps, window).heap, held.slice)
    ensures Roomy(After(steps, window), "i")
  {
    ReachedIsClosed(window);
    var s;
    s, held := TwoOpened(s => Reached(s, window), a, b, window);
    steps :| Possible(steps, window) && After(steps, window) == s;
  }

  /**
   * There are such runs in which the calls overlap, the array has a free cell, and the second
   * to save has appended first; so by `FirstSurvivesIff` its alert is the one that is lost.
   */
  lemma SecondSaverLosesInARun(a: Alert, b: Alert, c: Alert, d: Alert, window: Time)
    returns (steps: seq<Step>, n: nat, o: Order, p: Order)
    requires KeyOf(a) == KeyOf(b) == KeyOf(c) == KeyOf(d) && window >= 0
    ensures TwoCallRun(steps, window, n, Submission(3, d), Submission(2, c), o, p, "i")
    ensures p.look < o.finish < p.finish < |steps| && p.build < o.build
    ensures Possible(steps[..n], window) && "i" in After(steps[..n], window).store
    ensures Roomy(After(steps[..n], window), "i")
  {
    var before, held := RunToTwo(a, b, window);
    OneRunGoesOn(before, After(before, window), 2, 3, c, d, held, window);
    n := |before|;
    steps, o, p := before + Together(2, 3, c, d), Order(n + 3, n + 5, n + 6), Order(n + 1, n + 4, n + 7);
    assert steps[..n] == before;
  }
}
