/**
 * Runs of the machine in which calls on the same key do not overlap. Such a run is a
 * sequential run in the order of the saves, and every copy ever handed out keeps its
 * meaning, although later appends may write into the array behind it.
 */
module QuietRuns {
  import opened Wrappers
  import opened Collections
  import opened Domain
  import opened Correlation
  import opened MemoryStore
  import opened Runs
  import opened Machine
  import Sessions

  /** No call on this key is under way. */
  ghost predicate Idle(s: State, key: string) {
    forall c | c in s.calls && !s.calls[c].Done? :: s.calls[c].Key() != key
  }

  /**
   * A call begins, or the environment moves an incident, only when no call on that key is
   * under way; and a resolved incident stays resolved.
   */
  ghost predicate Quiet(s: State, step: Step) {
    match step
    case Begin(_, alert, _) => Idle(s, KeyOf(alert))
    case Move(id, state) =>
      id in s.store ==> Idle(s, s.store[id].meta.key) && (s.store[id].meta.state == Resolved ==> state == Resolved)
    case _ => true
  }

  ghost predicate QuietRun(steps: seq<Step>, window: Time)
    requires Possible(steps, window)
  {
    steps != [] ==> QuietRun(Init(steps), window) && Quiet(After(Init(steps), window), Last(steps))
  }

  // ---- The invariant of quiet runs ----

  /** What the store stands for. */
  ghost function Denoted(s: State): Incidents
    requires Safe(s)
  {
    map id | id in s.store :: Denote(s.heap, s.store[id])
  }

  function IdOf(found: Option<Held>): Option<string> {
    if found.Some? then Some(found.value.meta.id) else None
  }

  ghost predicate OneCallPerKey(s: State) {
    forall c, d | c in s.calls && d in s.calls && !s.calls[c].Done? && !s.calls[d].Done? ::
      s.calls[c].Key() == s.calls[d].Key() ==> c == d
  }

  ghost predicate OwnersAgree(s: State) {
    forall o, p | o in s.owners && p in s.owners && o.id == p.id :: o.key == p.key
  }

  /** What a call is about to save, and what it found, still fit the store. */
  ghost predicate BuildFits(s: State, e: Event, held: Held)
    requires Safe(s) && e.Submit? && InHeap(s.heap, held.slice)
  {
    if e.found.None? then
      e.id !in s.store && Denote(s.heap, held) == Saved(None, e)
    else
      && e.found.value in s.store
      && Denote(s.heap, held) == Saved(Some(Denoted(s)[e.found.value]), e)
      && (s.store[e.found.value].slice.arr == held.slice.arr ==> s.store[e.found.value].slice.len < held.slice.len)
  }

  ghost predicate InTime(s: State, key: string, t1: Time, t2: Time) {
    t1 <= t2 <= s.now && ClockGoesOn(s.log, key, t1)
  }

  ghost predicate LookedCurrent(s: State, f: Frame, window: Time)
    requires Safe(s) && f.Looked?
  {
    && InTime(s, KeyOf(f.alert), f.t1, f.t2)
    && IsLookup(Metas(s.store), KeyOf(f.alert), f.t2, window, IdOf(f.found))
    && (f.found.Some? ==> f.found.value.meta.id in s.store && s.store[f.found.value.meta.id] == f.found.value)
  }

  ghost predicate BuiltCurrent(s: State, f: Frame, window: Time)
    requires Safe(s) && f.Built?
  {
    && f.e.Submit? && InHeap(s.heap, f.held.slice)
    && InTime(s, KeyOf(f.e.alert), f.e.t1, f.e.t2)
    && IsLookup(Metas(s.store), KeyOf(f.e.alert), f.e.t2, window, f.e.found)
    && BuildFits(s, f.e, f.held)
  }

  ghost predicate Current(s: State, f: Frame, window: Time)
    requires Safe(s)
  {
    match f
    case Started(alert, t1) => InTime(s, KeyOf(alert), t1, t1)
    case Looked(_, _, _, _) => LookedCurrent(s, f, window)
    case Built(_, _) => BuiltCurrent(s, f, window)
    case Done(_) => true
  }

  /** No copy reaches past the slice its incident now has, if they share an array. */
  ghost predicate BelowWater(s: State, x: Held) {
    && x.meta.id in s.store
    && (s.store[x.meta.id].slice.arr == x.slice.arr ==> x.slice.len <= s.store[x.meta.id].slice.len)
    && (forall c | c in s.calls && s.calls[c].Built? && s.calls[c].held.slice.arr == x.slice.arr ::
          x.slice.len <= s.calls[c].held.slice.len)
  }

  ghost predicate LogFits(s: State, window: Time)
    requires Safe(s)
  {
    && Runs.Valid(s.log, window) && Store(s.log) == Denoted(s)
    && forall i | 0 <= i < |s.log| && s.log[i].Submit? :: s.log[i].t2 <= s.now
  }

  ghost predicate AllCurrent(s: State, window: Time)
    requires Safe(s)
  {
    forall c | c in s.calls :: Current(s, s.calls[c], window)
  }

  ghost predicate Calm(s: State, window: Time) {
    && Safe(s)
    && OneCallPerKey(s)
    && OwnersAgree(s)
    && LogFits(s, window)
    && AllCurrent(s, window)
    && forall x | x in s.seen :: BelowWater(s, x)
  }

  /** Every copy handed out so far keeps its meaning. */
  ghost predicate Stable(s: State, s': State)
    requires Safe(s) && Safe(s')
  {
    forall x | x in s.seen :: x in s'.seen && Denote(s'.heap, x) == Denote(s.heap, x)
  }

  // ---- Lookups see keys, states and times only ----

  lemma LookupIgnoresTheRest(m: Incidents, n: Incidents, key: string, now: Time, window: Time, found: Option<string>)
    requires m.Keys == n.Keys
    requires forall id | id in m ::
               m[id].key == n[id].key && m[id].state == n[id].state && m[id].lastAlertAt == n[id].lastAlertAt
    ensures IsLookup(m, key, now, window, found) == IsLookup(n, key, now, window, found)
  {
    assert forall id | id in m :: Live(m[id], key, now, window) == Live(n[id], key, now, window);
  }

  lemma LookupIgnoresOtherKeys(m: Incidents, id: string, inc: Incident, key: string, now: Time, window: Time,
                               found: Option<string>)
    requires inc.key != key && (id in m ==> m[id].key != key)
    ensures IsLookup(m[id := inc], key, now, window, found) == IsLookup(m, key, now, window, found)
  {
    var n := m[id := inc];
    if IsLookup(n, key, now, window, found) {
      forall x | x in m && Live(m[x], key, now, window) ensures x in n && n[x] == m[x] {}
    }
  }

  lemma LookupOfDenoted(s: State, key: string, now: Time, window: Time, found: Option<string>)
    requires Safe(s)
    ensures IsLookup(Metas(s.store), key, now, window, found) == IsLookup(Denoted(s), key, now, window, found)
  {
    LookupIgnoresTheRest(Metas(s.store), Denoted(s), key, now, window, found);
  }

  // ---- Each step keeps the invariant ----

  /** Steps that leave the heap, the store and the log as they are. */
  ghost predicate SameStore(s: State, s': State) {
    && Safe(s) && Safe(s')
    && s'.heap == s.heap && s'.owners == s.owners && s'.store == s.store && s'.log == s.log && s.now <= s'.now
  }

  lemma SameStoreCurrent(s: State, s': State, f: Frame, window: Time)
    requires SameStore(s, s') && Current(s, f, window)
    ensures Current(s', f, window)
  {
    match f
    case Started(_, _) =>
    case Looked(_, _, _, _) => assert LookedCurrent(s', f, window);
    case Built(_, _) => SameStoreFits(s, s', f.e, f.held);
    case Done(_) =>
  }

  lemma SameStoreFits(s: State, s': State, e: Event, held: Held)
    requires SameStore(s, s') && e.Submit? && InHeap(s.heap, held.slice) && BuildFits(s, e, held)
    ensures BuildFits(s', e, held)
  {
    assert Denoted(s') == Denoted(s);
  }

  lemma SameStoreLogFits(s: State, s': State, window: Time)
    requires SameStore(s, s') && LogFits(s, window)
    ensures LogFits(s', window) && (s.seen <= s'.seen ==> Stable(s, s'))
  {
    assert Denoted(s') == Denoted(s);
    forall x | x in s.seen && x in s'.seen ensures Denote(s'.heap, x) == Denote(s.heap, x) {
      assert Sound(s, x);
    }
  }

  /** `BelowWater` only reads the store and the calls that have built. */
  lemma SameStoreBelowWater(s: State, s': State, x: Held)
    requires SameStore(s, s') && BelowWater(s, x)
    requires forall c | c in s'.calls && s'.calls[c].Built? :: c in s.calls && s.calls[c] == s'.calls[c]
    ensures BelowWater(s', x)
  {
  }

  lemma BeginCalm(s: State, c: nat, alert: Alert, t1: Time, window: Time)
    requires Calm(s, window) && c !in s.calls && s.now <= t1 && Idle(s, KeyOf(alert))
    requires Safe(BeginStep(s, c, alert, t1))
    ensures Calm(BeginStep(s, c, alert, t1), window) && Stable(s, BeginStep(s, c, alert, t1))
  {
    var s' := BeginStep(s, c, alert, t1);
    SameStoreLogFits(s, s', window);
    forall d | d in s'.calls ensures Current(s', s'.calls[d], window) {
      if d != c {
        SameStoreCurrent(s, s', s.calls[d], window);
      }
    }
    forall x | x in s'.seen ensures BelowWater(s', x) {
      SameStoreBelowWater(s, s', x);
    }
  }

  /** The copy a lookup or a read hands out is the incident as it stands. */
  lemma StoredBelowWater(s: State, id: string, window: Time)
    requires Calm(s, window) && id in s.store
    ensures BelowWater(s, s.store[id])
  {
    var x := s.store[id];
    assert Sound(s, x);
    forall c | c in s.calls && s.calls[c].Built? && s.calls[c].held.slice.arr == x.slice.arr
      ensures x.slice.len <= s.calls[c].held.slice.len
    {
      assert FrameOk(s, s.calls[c]);
      assert Current(s, s.calls[c], window);
    }
  }

  lemma LookedUp(s: State, c: nat, t2: Time, answer: Option<string>, window: Time)
    requires Safe(s) && c in s.calls && s.calls[c].Started? && s.now <= t2 && Current(s, s.calls[c], window)
    requires IsLookup(Metas(s.store), s.calls[c].Key(), t2, window, answer)
    requires Safe(LookupStep(s, c, t2, answer))
    ensures LookedCurrent(LookupStep(s, c, t2, answer), LookupStep(s, c, t2, answer).calls[c], window)
  {
    assert answer.Some? ==> s.store[answer.value].meta.id == answer.value;
  }

  lemma LookupBelowWater(s: State, c: nat, t2: Time, answer: Option<string>, window: Time, x: Held)
    requires Calm(s, window) && c in s.calls && s.calls[c].Started? && s.now <= t2
    requires answer.Some? ==> answer.value in s.store
    requires Safe(LookupStep(s, c, t2, answer)) && x in LookupStep(s, c, t2, answer).seen
    ensures BelowWater(LookupStep(s, c, t2, answer), x)
  {
    if x !in s.seen {
      StoredBelowWater(s, answer.value, window);
    }
    SameStoreBelowWater(s, LookupStep(s, c, t2, answer), x);
  }

  lemma LookupAllCurrent(s: State, c: nat, t2: Time, answer: Option<string>, window: Time)
    requires Safe(s) && AllCurrent(s, window) && c in s.calls && s.calls[c].Started? && s.now <= t2
    requires IsLookup(Metas(s.store), s.calls[c].Key(), t2, window, answer)
    requires Safe(LookupStep(s, c, t2, answer))
    ensures AllCurrent(LookupStep(s, c, t2, answer), window)
  {
    var s' := LookupStep(s, c, t2, answer);
    LookedUp(s, c, t2, answer, window);
    forall d | d in s'.calls && d != c ensures Current(s', s'.calls[d], window) {
      SameStoreCurrent(s, s', s.calls[d], window);
    }
  }

  lemma LookupOneCallPerKey(s: State, c: nat, t2: Time, answer: Option<string>)
    requires OneCallPerKey(s) && c in s.calls && s.calls[c].Started? && (answer.Some? ==> answer.value in s.store)
    ensures OneCallPerKey(LookupStep(s, c, t2, answer))
  {
    var s' := LookupStep(s, c, t2, answer);
    assert forall d | d in s'.calls :: s'.calls[d].Done? == s.calls[d].Done? && s'.calls[d].Key() == s.calls[d].Key();
  }

  lemma LookupCalm(s: State, c: nat, t2: Time, answer: Option<string>, window: Time)
    requires Calm(s, window) && c in s.calls && s.calls[c].Started? && s.now <= t2
    requires IsLookup(Metas(s.store), s.calls[c].Key(), t2, window, answer)
    requires Safe(LookupStep(s, c, t2, answer))
    ensures Calm(LookupStep(s, c, t2, answer), window) && Stable(s, LookupStep(s, c, t2, answer))
  {
    var s' := LookupStep(s, c, t2, answer);
    SameStoreLogFits(s, s', window);
    LookupAllCurrent(s, c, t2, answer, window);
    LookupOneCallPerKey(s, c, t2, answer);
    forall x | x in s'.seen ensures BelowWater(s', x) {
      LookupBelowWater(s, c, t2, answer, window, x);
    }
  }

  lemma ReadCalm(s: State, id: string, window: Time)
    requires Calm(s, window) && id in s.store
    requires Safe(ReadStep(s, id))
    ensures Calm(ReadStep(s, id), window) && Stable(s, ReadStep(s, id))
  {
    var s' := ReadStep(s, id);
    SameStoreLogFits(s, s', window);
    StoredBelowWater(s, id, window);
    forall d | d in s'.calls ensures Current(s', s'.calls[d], window) {
      SameStoreCurrent(s, s', s.calls[d], window);
    }
    forall x | x in s'.seen ensures BelowWater(s', x) {
      SameStoreBelowWater(s, s', x);
    }
  }

  /** The state after a change to one stored incident, as the calls on other keys see it. */
  ghost predicate Rewritten(s: State, s': State, id: string, x: Held, key: string) {
    && Safe(s) && Safe(s')
    && s'.heap == s.heap && s'.now == s.now && s'.store == s.store[id := x]
    && x.meta.key != key && (id in s.store ==> s.store[id].meta.key != key)
    && forall now | ClockGoesOn(s.log, key, now) :: ClockGoesOn(s'.log, key, now)
  }

  lemma RewrittenLookup(s: State, s': State, id: string, x: Held, key: string, now: Time, window: Time,
                        found: Option<string>)
    requires Rewritten(s, s', id, x, key)
    ensures IsLookup(Metas(s.store), key, now, window, found) == IsLookup(Metas(s'.store), key, now, window, found)
  {
    assert Metas(s'.store) == Metas(s.store)[id := x.meta];
    LookupIgnoresOtherKeys(Metas(s.store), id, x.meta, key, now, window, found);
  }

  lemma OtherLookedCurrent(s: State, s': State, id: string, x: Held, f: Frame, window: Time)
    requires f.Looked? && Rewritten(s, s', id, x, f.Key()) && LookedCurrent(s, f, window)
    ensures LookedCurrent(s', f, window)
  {
    RewrittenLookup(s, s', id, x, KeyOf(f.alert), f.t2, window, IdOf(f.found));
  }

  lemma OtherBuiltCurrent(s: State, s': State, id: string, x: Held, f: Frame, window: Time)
    requires f.Built? && Rewritten(s, s', id, x, f.Key()) && BuiltCurrent(s, f, window)
    requires f.e.found.None? ==> f.e.id != id
    ensures BuiltCurrent(s', f, window)
  {
    RewrittenLookup(s, s', id, x, KeyOf(f.e.alert), f.e.t2, window, f.e.found);
  }

  /** Changing an incident of a key leaves calls on other keys current. */
  lemma OtherCurrent(s: State, s': State, id: string, x: Held, f: Frame, window: Time)
    requires Rewritten(s, s', id, x, f.Key()) && Current(s, f, window)
    requires f.Built? && f.e.Submit? && f.e.found.None? ==> f.e.id != id
    ensures Current(s', f, window)
  {
    match f
    case Started(_, _) =>
    case Looked(_, _, _, _) => OtherLookedCurrent(s, s', id, x, f, window);
    case Built(_, _) => OtherBuiltCurrent(s, s', id, x, f, window);
    case Done(_) =>
  }

  lemma LogGrows(log: seq<Event>, e: Event, key: string, now: Time)
    requires ClockGoesOn(log, key, now) && !e.Submits(key)
    ensures ClockGoesOn(log + [e], key, now)
  {
  }

  lemma MoveCurrent(s: State, id: string, state: IncidentState, window: Time)
    requires Calm(s, window) && id in s.store && Quiet(s, Move(id, state))
    requires Safe(MoveStep(s, id, state))
    ensures AllCurrent(MoveStep(s, id, state), window)
  {
    var s' := MoveStep(s, id, state);
    forall d | d in s'.calls ensures Current(s', s'.calls[d], window) {
      assert Current(s, s.calls[d], window);
      if !s.calls[d].Done? {
        forall now | ClockGoesOn(s.log, s.calls[d].Key(), now) ensures ClockGoesOn(s'.log, s.calls[d].Key(), now) {
          LogGrows(s.log, SetState(id, state), s.calls[d].Key(), now);
        }
        OtherCurrent(s, s', id, s'.store[id], s.calls[d], window);
      }
    }
  }

  lemma MoveFitsLog(s: State, id: string, state: IncidentState, window: Time)
    requires Safe(s) && LogFits(s, window) && id in s.store
    requires s.store[id].meta.state == Resolved ==> state == Resolved
    requires Safe(MoveStep(s, id, state))
    ensures LogFits(MoveStep(s, id, state), window) && Stable(s, MoveStep(s, id, state))
  {
    var s' := MoveStep(s, id, state);
    var e := SetState(id, state);
    assert Init(s'.log) == s.log && Last(s'.log) == e;
    assert Denoted(s)[id].state == s.store[id].meta.state;
    MoveDenoted(s, id, state);
    assert Runs.Valid(s'.log, window);
    assert Store(s'.log) == Apply(Store(s.log), e);
  }

  lemma MoveDenoted(s: State, id: string, state: IncidentState)
    requires Safe(s) && id in s.store && Safe(MoveStep(s, id, state))
    ensures Denoted(MoveStep(s, id, state)) == Apply(Denoted(s), SetState(id, state))
  {
  }

  lemma MoveBelowWater(s: State, id: string, state: IncidentState, x: Held)
    requires Safe(s) && id in s.store && BelowWater(s, x)
    ensures BelowWater(MoveStep(s, id, state), x)
  {
  }

  lemma MoveCalm(s: State, id: string, state: IncidentState, window: Time)
    requires Calm(s, window) && id in s.store && Quiet(s, Move(id, state))
    requires Safe(MoveStep(s, id, state))
    ensures Calm(MoveStep(s, id, state), window) && Stable(s, MoveStep(s, id, state))
  {
    MoveCurrent(s, id, state, window);
    MoveFitsLog(s, id, state, window);
    forall x | x in s.seen ensures BelowWater(MoveStep(s, id, state), x) {
      MoveBelowWater(s, id, state, x);
    }
  }

  // ---- Saving ----

  lemma FinishFitsLog(s: State, c: nat, window: Time)
    requires Safe(s) && LogFits(s, window) && c in s.calls && s.calls[c].Built? && Current(s, s.calls[c], window)
    requires Safe(FinishStep(s, c))
    ensures LogFits(FinishStep(s, c), window) && Stable(s, FinishStep(s, c))
  {
    var f, s' := s.calls[c], FinishStep(s, c);
    assert FrameOk(s, f) && BuiltCurrent(s, f, window);
    assert Init(s'.log) == s.log && Last(s'.log) == f.e;
    LookupOfDenoted(s, KeyOf(f.e.alert), f.e.t2, window, f.e.found);
    assert Runs.Valid(s'.log, window);
    FinishDenoted(s, c);
  }

  lemma FinishDenoted(s: State, c: nat)
    requires Safe(s) && c in s.calls && s.calls[c].Built? && Safe(FinishStep(s, c))
    requires s.calls[c].e.Submit? && InHeap(s.heap, s.calls[c].held.slice)
    requires BuildFits(s, s.calls[c].e, s.calls[c].held)
    ensures Denoted(FinishStep(s, c)) == Apply(Denoted(s), s.calls[c].e)
  {
    var f := s.calls[c];
    assert FrameOk(s, f);
    StoredDenoted(s, FinishStep(s, c), f.held);
    SavedIs(s, f.e, f.held);
  }

  lemma StoredDenoted(s: State, s': State, held: Held)
    requires Safe(s) && Safe(s') && s'.heap == s.heap && s'.store == s.store[held.meta.id := held]
    ensures InHeap(s.heap, held.slice) && Denoted(s') == Denoted(s)[held.meta.id := Denote(s.heap, held)]
  {
    assert Sound(s', s'.store[held.meta.id]);
  }

  lemma SavedIs(s: State, e: Event, held: Held)
    requires Safe(s) && e.Submit? && InHeap(s.heap, held.slice) && held.meta.id == e.Home() && BuildFits(s, e, held)
    ensures Apply(Denoted(s), e) == Denoted(s)[held.meta.id := Denote(s.heap, held)]
  {
    assert Denote(s.heap, held) == Saved(Base(Denoted(s), e.found), e);
    assert Denote(s.heap, held).id == held.meta.id;
  }

  /** The incident a call saves has the key of that call, before and after. */
  lemma HomeHasKey(s: State, c: nat, window: Time)
    requires Safe(s) && c in s.calls && s.calls[c].Built? && Current(s, s.calls[c], window)
    ensures var held := s.calls[c].held;
            && held.meta.key == s.calls[c].Key()
            && (held.meta.id in s.store ==> s.store[held.meta.id].meta.key == s.calls[c].Key())
  {
    assert FrameOk(s, s.calls[c]);
  }

  /** Two calls that have built for one incident are on one key. */
  lemma HomesDiffer(s: State, c: nat, d: nat)
    requires Safe(s) && OwnersAgree(s)
    requires c in s.calls && s.calls[c].Built? && d in s.calls && s.calls[d].Built?
    requires s.calls[c].Key() != s.calls[d].Key()
    ensures s.calls[c].held.meta.id != s.calls[d].held.meta.id
  {
    assert FrameOk(s, s.calls[c]) && FrameOk(s, s.calls[d]);
    assert s.owners[s.calls[c].held.slice.arr] in s.owners && s.owners[s.calls[d].held.slice.arr] in s.owners;
  }

  lemma FinishOtherCurrent(s: State, c: nat, d: nat, window: Time)
    requires Calm(s, window) && c in s.calls && s.calls[c].Built? && d in s.calls && d != c && !s.calls[d].Done?
    requires Safe(FinishStep(s, c))
    ensures Current(FinishStep(s, c), s.calls[d], window)
  {
    var f, g, s' := s.calls[c], s.calls[d], FinishStep(s, c);
    assert Current(s, f, window) && Current(s, g, window) && FrameOk(s, f) && FrameOk(s, g);
    HomeHasKey(s, c, window);
    if g.Built? {
      HomesDiffer(s, c, d);
    }
    forall now | ClockGoesOn(s.log, g.Key(), now) ensures ClockGoesOn(s'.log, g.Key(), now) {
      LogGrows(s.log, f.e, g.Key(), now);
    }
    OtherCurrent(s, s', f.held.meta.id, f.held, g, window);
  }

  lemma FinishBelowWater(s: State, c: nat, x: Held)
    requires Safe(s) && c in s.calls && s.calls[c].Built? && BelowWater(s, x)
    ensures BelowWater(FinishStep(s, c), x)
  {
  }

  lemma FinishAllCurrent(s: State, c: nat, window: Time)
    requires Calm(s, window) && c in s.calls && s.calls[c].Built? && Safe(FinishStep(s, c))
    ensures AllCurrent(FinishStep(s, c), window)
  {
    var s' := FinishStep(s, c);
    forall d | d in s'.calls && d != c && !s.calls[d].Done? ensures Current(s', s'.calls[d], window) {
      FinishOtherCurrent(s, c, d, window);
    }
  }

  lemma FinishOneCallPerKey(s: State, c: nat)
    requires OneCallPerKey(s) && c in s.calls && s.calls[c].Built?
    ensures OneCallPerKey(FinishStep(s, c))
  {
  }

  lemma FinishCalm(s: State, c: nat, window: Time)
    requires Calm(s, window) && c in s.calls && s.calls[c].Built? && Safe(FinishStep(s, c))
    ensures Calm(FinishStep(s, c), window) && Stable(s, FinishStep(s, c))
  {
    assert Current(s, s.calls[c], window);
    FinishFitsLog(s, c, window);
    FinishAllCurrent(s, c, window);
    FinishOneCallPerKey(s, c);
    forall x | x in s.seen ensures BelowWater(FinishStep(s, c), x) {
      FinishBelowWater(s, c, x);
    }
  }

  // ---- Building ----

  /** The view behind a copy is the same in both states. */
  ghost predicate Undisturbed(s: State, s': State, x: Held) {
    InHeap(s.heap, x.slice) && InHeap(s'.heap, x.slice) && View(s'.heap, x.slice) == View(s.heap, x.slice)
  }

  /** One call writes its alert; the rest of the state stays. */
  ghost predicate Writes(s: State, s': State, c: nat) {
    && Safe(s) && Safe(s') && c in s.calls && s.calls[c].Looked?
    && s'.store == s.store && s'.log == s.log && s'.now == s.now && s'.seen == s.seen
    && (forall id | id in s.store :: Undisturbed(s, s', s.store[id]))
    && s'.calls.Keys == s.calls.Keys && s'.calls[c].Built? && s'.calls[c].Key() == s.calls[c].Key()
    && forall d | d in s.calls && d != c :: s'.calls[d] == s.calls[d]
  }

  lemma WritesDenoted(s: State, s': State, c: nat)
    requires Writes(s, s', c)
    ensures Denoted(s') == Denoted(s)
  {
    SameDenoted(s, s');
  }

  lemma SameDenoted(s: State, s': State)
    requires Safe(s) && Safe(s') && s'.store == s.store
    requires forall id | id in s.store :: Undisturbed(s, s', s.store[id])
    ensures Denoted(s') == Denoted(s)
  {
    forall id | id in s.store ensures Denote(s'.heap, s.store[id]) == Denote(s.heap, s.store[id]) {
      assert Undisturbed(s, s', s.store[id]);
    }
  }

  lemma WritesOtherCurrent(s: State, s': State, c: nat, f: Frame, window: Time)
    requires Writes(s, s', c) && Current(s, f, window)
    requires f.Built? ==> Undisturbed(s, s', f.held)
    ensures Current(s', f, window)
  {
    WritesDenoted(s, s', c);
    match f
    case Started(_, _) =>
    case Looked(_, _, _, _) => assert LookedCurrent(s', f, window);
    case Built(_, _) => assert BuiltCurrent(s', f, window);
    case Done(_) =>
  }

  /** No copy that was handed out, and no built one, is disturbed or reaches past the new one. */
  ghost predicate Spares(s: State, s': State, c: nat, x: Held)
    requires c in s'.calls && s'.calls[c].Built?
  {
    Undisturbed(s, s', x) && (x.slice.arr == s'.calls[c].held.slice.arr ==> x.slice.len <= s'.calls[c].held.slice.len)
  }

  lemma WritesAllCurrent(s: State, s': State, c: nat, window: Time)
    requires Writes(s, s', c) && AllCurrent(s, window) && Current(s', s'.calls[c], window)
    requires forall d | d in s.calls && s.calls[d].Built? :: Undisturbed(s, s', s.calls[d].held)
    ensures AllCurrent(s', window)
  {
    forall d | d in s'.calls && d != c ensures Current(s', s'.calls[d], window) {
      WritesOtherCurrent(s, s', c, s.calls[d], window);
    }
  }

  lemma WritesBelowWater(s: State, s': State, c: nat, x: Held)
    requires Writes(s, s', c) && BelowWater(s, x) && Spares(s, s', c, x)
    ensures BelowWater(s', x)
  {
  }

  lemma WritesLogFits(s: State, s': State, c: nat, window: Time)
    requires Writes(s, s', c) && LogFits(s, window)
    ensures LogFits(s', window)
  {
    WritesDenoted(s, s', c);
  }

  lemma WritesCalm(s: State, s': State, c: nat, window: Time)
    requires Calm(s, window) && Writes(s, s', c) && OwnersAgree(s')
    requires Current(s', s'.calls[c], window)
    requires forall d | d in s.calls && s.calls[d].Built? :: Undisturbed(s, s', s.calls[d].held)
    requires forall x | x in s.seen :: Spares(s, s', c, x)
    ensures Calm(s', window) && Stable(s, s')
  {
    WritesLogFits(s, s', c, window);
    WritesOneCallPerKey(s, s', c);
    WritesAllCurrent(s, s', c, window);
    forall x | x in s'.seen ensures BelowWater(s', x) {
      WritesBelowWater(s, s', c, x);
    }
    forall x | x in s.seen ensures Denote(s'.heap, x) == Denote(s.heap, x) {
      assert Spares(s, s', c, x);
    }
  }

  lemma WritesOneCallPerKey(s: State, s': State, c: nat)
    requires OneCallPerKey(s) && Writes(s, s', c)
    ensures OneCallPerKey(s')
  {
    assert forall d | d in s'.calls :: s'.calls[d].Done? == s.calls[d].Done? && s'.calls[d].Key() == s.calls[d].Key();
  }

  lemma BuildNewCalm(s: State, c: nat, id: string, topology: Option<TopologySlice>, spare: nat, window: Time)
    requires Calm(s, window) && c in s.calls && s.calls[c].Looked? && s.calls[c].found.None?
    requires id !in s.store && forall o | o in s.owners :: o.id != id
    requires Safe(BuildStep(s, c, id, topology, spare))
    ensures Calm(BuildStep(s, c, id, topology, spare), window) && Stable(s, BuildStep(s, c, id, topology, spare))
  {
    var f, s' := s.calls[c], BuildStep(s, c, id, topology, spare);
    forall x: Held | Sound(s, x) ensures Undisturbed(s, s', x) && x.slice.arr < |s.heap| {}
    forall d | d in s.calls && s.calls[d].Built? ensures Undisturbed(s, s', s.calls[d].held) {
      assert FrameOk(s, s.calls[d]);
    }
    var g := s'.calls[c];
    assert Current(s, f, window) && LookedCurrent(s, f, window);
    assert Alerts(View(s'.heap, g.held.slice)) == [f.alert];
    assert BuiltCurrent(s', g, window);
    WritesCalm(s, s', c, window);
  }

  /** The copies that matter: stored, handed out, or about to be saved. */
  ghost predicate Known(s: State, x: Held) {
    || (x.meta.id in s.store && s.store[x.meta.id] == x)
    || x in s.seen
    || exists d :: d in s.calls && s.calls[d].Built? && s.calls[d].held == x
  }

  /** No copy that matters reaches past the copy of the stored incident. */
  lemma NoneReachesPast(s: State, c: nat, window: Time, x: Held)
    requires Calm(s, window) && c in s.calls && s.calls[c].Looked? && s.calls[c].found.Some?
    requires InHeap(s.heap, s.calls[c].found.value.slice) && Sound(s, x)
    requires Known(s, x)
    ensures x.slice.arr == s.calls[c].found.value.slice.arr ==> x.slice.len <= s.calls[c].found.value.slice.len
  {
    var f := s.calls[c];
    var b := f.found.value;
    assert Current(s, f, window) && LookedCurrent(s, f, window) && FrameOk(s, f);
    if x in s.seen {
      assert BelowWater(s, x);
    } else if !(x.meta.id in s.store && s.store[x.meta.id] == x) {
      var d :| d in s.calls && s.calls[d].Built? && s.calls[d].held == x;
      assert FrameOk(s, s.calls[d]);
      assert c != d && s.calls[d].Key() != f.Key();
    }
  }

  lemma BuildOnFits(s: State, c: nat, id: string, topology: Option<TopologySlice>, spare: nat, window: Time)
    requires Calm(s, window) && c in s.calls && s.calls[c].Looked? && s.calls[c].found.Some?
    requires InHeap(s.heap, s.calls[c].found.value.slice)
    requires Writes(s, BuildStep(s, c, id, topology, spare), c)
    ensures BuiltCurrent(BuildStep(s, c, id, topology, spare), BuildStep(s, c, id, topology, spare).calls[c], window)
  {
    var f, s' := s.calls[c], BuildStep(s, c, id, topology, spare);
    var b, g, x := f.found.value, s'.calls[c], Submission(c, f.alert);
    assert Current(s, f, window) && LookedCurrent(s, f, window) && FrameOk(s, f) && FrameOk(s', g);
    WritesDenoted(s, s', c);
    ExtendsDenoted(s.heap, b, x, spare, f.t1);
    assert Denoted(s')[b.meta.id] == Denote(s.heap, b);
  }

  /** Extending a copy and its slice extends the incident it stands for. */
  lemma ExtendsDenoted(h: Heap, b: Held, x: Submission, spare: nat, now: Time)
    requires InHeap(h, b.slice)
    ensures var (h', slice) := Append(h, b.slice, x, spare);
            && InHeap(h', slice)
            && Denote(h', Held(Meta(Extended(b.meta, x.alert, now)), slice)) == Extended(Denote(h, b), x.alert, now)
  {
    var (h', slice) := Append(h, b.slice, x, spare);
    AppendAppends(h, b.slice, x, spare);
    assert Alerts(View(h', slice)) == Alerts(View(h, b.slice)) + [x.alert];
  }

  lemma BuildOnSpares(s: State, c: nat, id: string, topology: Option<TopologySlice>, spare: nat, window: Time, x: Held)
    requires Calm(s, window) && c in s.calls && s.calls[c].Looked? && s.calls[c].found.Some?
    requires InHeap(s.heap, s.calls[c].found.value.slice) && Sound(s, x)
    requires Known(s, x)
    ensures Spares(s, BuildStep(s, c, id, topology, spare), c, x)
  {
    AppendKeeps(s.heap, s.calls[c].found.value.slice, Submission(c, s.calls[c].alert), spare, x.slice);
    NoneReachesPast(s, c, window, x);
  }

  lemma BuildOnWrites(s: State, c: nat, id: string, topology: Option<TopologySlice>, spare: nat, window: Time)
    requires Calm(s, window) && c in s.calls && s.calls[c].Looked? && s.calls[c].found.Some?
    requires InHeap(s.heap, s.calls[c].found.value.slice)
    requires Safe(BuildStep(s, c, id, topology, spare))
    ensures Writes(s, BuildStep(s, c, id, topology, spare), c)
  {
    AllStoredSpared(s, c, id, topology, spare, window);
    BuildOnKeeps(s, c, id, topology, spare);
  }

  lemma BuildOnKeeps(s: State, c: nat, id: string, topology: Option<TopologySlice>, spare: nat)
    requires c in s.calls && s.calls[c].Looked? && s.calls[c].found.Some?
    requires InHeap(s.heap, s.calls[c].found.value.slice)
    requires Safe(s) && Safe(BuildStep(s, c, id, topology, spare))
    requires forall x | x in s.store :: Undisturbed(s, BuildStep(s, c, id, topology, spare), s.store[x])
    ensures Writes(s, BuildStep(s, c, id, topology, spare), c)
  {
  }

  lemma AllStoredSpared(s: State, c: nat, id: string, topology: Option<TopologySlice>, spare: nat, window: Time)
    requires Calm(s, window) && c in s.calls && s.calls[c].Looked? && s.calls[c].found.Some?
    requires InHeap(s.heap, s.calls[c].found.value.slice)
    ensures forall x | x in s.store :: Undisturbed(s, BuildStep(s, c, id, topology, spare), s.store[x])
  {
    forall x | x in s.store ensures Undisturbed(s, BuildStep(s, c, id, topology, spare), s.store[x]) {
      StoredSpared(s, c, id, topology, spare, window, x);
    }
  }

  lemma StoredSpared(s: State, c: nat, id: string, topology: Option<TopologySlice>, spare: nat, window: Time, x: string)
    requires Calm(s, window) && c in s.calls && s.calls[c].Looked? && s.calls[c].found.Some?
    requires InHeap(s.heap, s.calls[c].found.value.slice) && x in s.store
    ensures Undisturbed(s, BuildStep(s, c, id, topology, spare), s.store[x])
  {
    assert Sound(s, s.store[x]) && Known(s, s.store[x]);
    BuildOnSpares(s, c, id, topology, spare, window, s.store[x]);
  }

  lemma BuildOnCalm(s: State, c: nat, id: string, topology: Option<TopologySlice>, spare: nat, window: Time)
    requires Calm(s, window) && c in s.calls && s.calls[c].Looked? && s.calls[c].found.Some?
    requires InHeap(s.heap, s.calls[c].found.value.slice)
    requires Safe(BuildStep(s, c, id, topology, spare))
    ensures Calm(BuildStep(s, c, id, topology, spare), window) && Stable(s, BuildStep(s, c, id, topology, spare))
  {
    var s' := BuildStep(s, c, id, topology, spare);
    BuildOnWrites(s, c, id, topology, spare, window);
    BuildOnFits(s, c, id, topology, spare, window);
    BuildOnOwners(s, c, id, topology, spare);
    forall d | d in s.calls && s.calls[d].Built? ensures Undisturbed(s, s', s.calls[d].held) {
      assert FrameOk(s, s.calls[d]);
      BuildOnSpares(s, c, id, topology, spare, window, s.calls[d].held);
    }
    forall x | x in s.seen ensures Spares(s, s', c, x) {
      BuildOnSpares(s, c, id, topology, spare, window, x);
    }
    WritesCalm(s, s', c, window);
  }

  lemma BuildOnOwners(s: State, c: nat, id: string, topology: Option<TopologySlice>, spare: nat)
    requires Safe(s) && OwnersAgree(s) && c in s.calls && s.calls[c].Looked? && s.calls[c].found.Some?
    requires InHeap(s.heap, s.calls[c].found.value.slice)
    ensures OwnersAgree(BuildStep(s, c, id, topology, spare))
  {
    assert FrameOk(s, s.calls[c]);
    assert Owner(s.calls[c].found.value.meta.id, s.calls[c].found.value.meta.key) in s.owners;
  }

  // ---- The theorems ----

  lemma NextCalm(s: State, step: Step, window: Time)
    requires Calm(s, window) && Machine.Enabled(s, step, window) && Quiet(s, step)
    ensures Safe(Next(s, step, window))
    ensures Calm(Next(s, step, window), window) && Stable(s, Next(s, step, window))
  {
    NextSafe(s, step, window);
    match step
    case Begin(c, alert, t1) => BeginCalm(s, c, alert, t1, window);
    case Lookup(c, t2, answer) => LookupCalm(s, c, t2, answer, window);
    case Build(c, id, topology, spare) =>
      if s.calls[c].found.None? {
        BuildNewCalm(s, c, id, topology, spare, window);
      } else {
        assert FrameOk(s, s.calls[c]);
        BuildOnCalm(s, c, id, topology, spare, window);
      }
    case Finish(c) => FinishCalm(s, c, window);
    case Read(id) => ReadCalm(s, id, window);
    case Move(id, state) => MoveCalm(s, id, state, window);
  }

  lemma {:induction false} QuietRunsAreCalm(steps: seq<Step>, window: Time)
    requires Possible(steps, window) && QuietRun(steps, window)
    ensures Calm(After(steps, window), window)
  {
    if steps != [] {
      QuietRunsAreCalm(Init(steps), window);
      NextCalm(After(Init(steps), window), Last(steps), window);
    }
  }

  /**
   * Reduction: when calls on the same key do not overlap, any interleaving of clock readings,
   * lookups, appends and saves leaves the store of a sequential run, the calls taken in the
   * order in which they saved. Every theorem about sequential runs carries over.
   */
  lemma Reduction(steps: seq<Step>, window: Time)
    requires Possible(steps, window) && QuietRun(steps, window)
    ensures Runs.Valid(After(steps, window).log, window)
    ensures Denoted(After(steps, window)) == Store(After(steps, window).log)
  {
    QuietRunsAreCalm(steps, window);
  }

  /** What a lookup finds and what a read returns is what is stored, and is remembered as handed out. */
  lemma HandedOutIsSeen(s: State, step: Step, window: Time)
    requires Safe(s) && Machine.Enabled(s, step, window)
    ensures s.seen <= Next(s, step, window).seen
    ensures step.Read? ==> s.store[step.id] in Next(s, step, window).seen
    ensures step.Lookup? && step.answer.Some? ==>
              var s' := Next(s, step, window);
              s'.calls[step.c].found == Some(s.store[step.answer.value]) && s.store[step.answer.value] in s'.seen
  {
  }

  /**
   * Snapshot stability: a copy handed out by a lookup or a read denotes the same incident,
   * the same sequence of alerts included, in every later state.
   */
  lemma {:induction false} SnapshotsKeepTheirMeaning(steps: seq<Step>, window: Time, n: nat, x: Held)
    requires Possible(steps, window) && QuietRun(steps, window) && n <= |steps|
    requires Possible(steps[..n], window) && x in After(steps[..n], window).seen
    ensures x in After(steps, window).seen
    ensures Denote(After(steps, window).heap, x) == Denote(After(steps[..n], window).heap, x)
    decreases |steps|
  {
    if n == |steps| {
      assert steps[..n] == steps;
    } else {
      assert Init(steps)[..n] == steps[..n];
      SnapshotsKeepTheirMeaning(Init(steps), window, n, x);
      QuietRunsAreCalm(Init(steps), window);
      NextCalm(After(Init(steps), window), Last(steps), window);
    }
  }

  lemma NextLogs(s: State, step: Step, window: Time, c: nat)
    requires Safe(s) && Machine.Enabled(s, step, window)
    requires c in Next(s, step, window).calls && Next(s, step, window).calls[c].Done?
    ensures var s' := Next(s, step, window);
            || (c in s.calls && s.calls[c] == s'.calls[c] && s.log <= s'.log)
            || (s'.log != [] && Last(s'.log) == s'.calls[c].e)
  {
  }

  lemma {:induction false} FinishedIsLogged(steps: seq<Step>, window: Time, c: nat)
    requires Possible(steps, window)
    requires c in After(steps, window).calls && After(steps, window).calls[c].Done?
    ensures After(steps, window).calls[c].e in After(steps, window).log
  {
    var s, s' := After(Init(steps), window), After(steps, window);
    NextLogs(s, Last(steps), window, c);
    if c in s.calls && s.calls[c] == s'.calls[c] && s.log <= s'.log {
      FinishedIsLogged(Init(steps), window, c);
      LoggedStays(s.log, s'.log, s'.calls[c].e);
    }
  }

  lemma LoggedStays(log: seq<Event>, log': seq<Event>, e: Event)
    requires log <= log' && e in log
    ensures e in log'
  {
    var i :| 0 <= i < |log| && log[i] == e;
    assert log'[i] == e;
  }

  /**
   * Conservation: when calls on the same key do not overlap, the alert of every call that has
   * finished is held by the incident the call wrote, and the incidents of a key, in the order
   * they were opened, hold exactly the alerts of that key in the order of the saves.
   */
  lemma QuietRunsConserve(steps: seq<Step>, window: Time, c: nat, key: string)
    requires Possible(steps, window) && QuietRun(steps, window)
    ensures var s := After(steps, window);
            && (forall id | id in Sessions.OpenedIds(s.log, key) :: id in Denoted(s))
            && Sessions.AlertsOfAll(Denoted(s), Sessions.OpenedIds(s.log, key)) == Sessions.Submitted(s.log, key)
    ensures var s := After(steps, window);
            c in s.calls && s.calls[c].Done? ==>
              && s.calls[c].e.Submit?
              && s.calls[c].e.Home() in Denoted(s)
              && s.calls[c].e.alert in Denoted(s)[s.calls[c].e.Home()].alerts
  {
    var s := After(steps, window);
    Reduction(steps, window);
    Sessions.IncidentsHoldTheSubmissions(s.log, key, window);
    if c in s.calls && s.calls[c].Done? {
      assert FrameOk(s, s.calls[c]);
      FinishedIsLogged(steps, window, c);
      var i :| 0 <= i < |s.log| && s.log[i] == s.calls[c].e;
      SubmissionsAreHeld(s.log, window, i);
    }
  }
}
