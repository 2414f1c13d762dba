/**
 * When do the incidents hold every alert, for any number of calls in any interleaving? The
 * answer is in the history of lookups and saves alone: when no save is stale.
 */
module Conservation {
  import opened Wrappers
  import opened Collections
  import opened Domain
  import opened Correlation
  import opened MemoryStore
  import opened Runs
  import opened Machine

  // ---- The history of saves ----

  /** The step saves such a copy. */
  predicate Saves(s: State, step: Step, of: Held -> bool) {
    step.Finish? && step.c in s.calls && s.calls[step.c].Built? && of(s.calls[step.c].held)
  }

  function OfIncident(id: string): Held -> bool {
    (x: Held) => x.meta.id == id
  }

  ghost function SaveCount(steps: seq<Step>, of: Held -> bool, window: Time): nat
    requires Possible(steps, window)
  {
    if steps == [] then 0 else
    SaveCount(Init(steps), of, window) + if Saves(After(Init(steps), window), Last(steps), of) then 1 else 0
  }

  /** How many such saves there have been since the call looked up. */
  ghost function SinceLookup(steps: seq<Step>, c: nat, of: Held -> bool, window: Time): (n: nat)
    requires Possible(steps, window)
    ensures n <= SaveCount(steps, of, window)
  {
    if steps == [] || (Last(steps).Lookup? && Last(steps).c == c) then 0 else
    SinceLookup(Init(steps), c, of, window) + if Saves(After(Init(steps), window), Last(steps), of) then 1 else 0
  }

  /** Every such save comes from a call since whose lookup there has been no other. */
  ghost predicate NoStaleSave(steps: seq<Step>, of: Held -> bool, window: Time)
    requires Possible(steps, window)
  {
    steps != [] ==>
      && NoStaleSave(Init(steps), of, window)
      && (Saves(After(Init(steps), window), Last(steps), of) ==>
            SinceLookup(Init(steps), Last(steps).c, of, window) == 0)
  }

  // ---- Versions count saves ----

  /** The version of the stored incident; 0 before it is stored. */
  function Version(s: State, id: string): int {
    if id in s.store then s.store[id].meta.version else 0
  }

  /** The version a call started from, given how often the incident has been saved, and since its lookup. */
  predicate Fits(version: int, base: int, saves: nat, since: nat) {
    base + since <= saves && (since == 0 ==> version == base)
  }

  predicate Based(s: State, id: string, f: Frame, saves: nat, since: nat) {
    match f
    case Looked(_, _, _, Some(b)) => b.meta.id == id ==> Fits(Version(s, id), b.meta.version, saves, since)
    case Built(_, held) => held.meta.id == id ==> Fits(Version(s, id), held.meta.version - 1, saves, since)
    case _ => true
  }

  ghost predicate Counted(s: State, id: string, saves: nat, since: nat -> nat) {
    && Version(s, id) <= saves
    && forall c | c in s.calls :: Based(s, id, s.calls[c], saves, since(c)) && since(c) <= saves
  }

  /** How the counts change with a step. */
  ghost predicate Counts(s: State, step: Step, id: string, saves: nat, since: nat -> nat,
                         saves': nat, since': nat -> nat)
  {
    && saves' == saves + (if Saves(s, step, OfIncident(id)) then 1 else 0)
    && forall c: nat ::
         since'(c) == if step.Lookup? && step.c == c then 0
                      else since(c) + if Saves(s, step, OfIncident(id)) then 1 else 0
  }

  /** A step that is no save leaves the versions in the store, and the frames of the other calls. */
  lemma VersionsStay(s: State, step: Step, window: Time, id: string)
    requires Safe(s) && Machine.Enabled(s, step, window) && !Saves(s, step, OfIncident(id))
    ensures Version(Next(s, step, window), id) == Version(s, id)
  {
    if step.Finish? {
      assert FrameOk(s, s.calls[step.c]);
    }
  }

  lemma FramesStay(s: State, step: Step, window: Time, c: nat)
    requires Safe(s) && Machine.Enabled(s, step, window) && c in Next(s, step, window).calls
    requires !((step.Begin? || step.Lookup? || step.Build? || step.Finish?) && step.c == c)
    ensures c in s.calls && Next(s, step, window).calls[c] == s.calls[c]
  {
  }

  lemma OwnFrame(s: State, step: Step, window: Time, id: string, saves: nat, since: nat)
    requires Safe(s) && Machine.Enabled(s, step, window) && (step.Begin? || step.Lookup? || step.Build? || step.Finish?)
    requires Version(s, id) <= saves && since <= saves
    requires step.c in s.calls ==> Based(s, id, s.calls[step.c], saves, since)
    ensures var s' := Next(s, step, window);
            && step.c in s'.calls
            && (!step.Finish? ==>
                  && Version(s', id) == Version(s, id)
                  && Based(s', id, s'.calls[step.c], saves, if step.Lookup? then 0 else since))
            && (step.Finish? ==> s'.calls[step.c].Done?)
  {
    if step.Build? {
      assert FrameOk(s, s.calls[step.c]);
    } else if step.Lookup? && step.answer.Some? {
      assert Sound(s, s.store[step.answer.value]);
    }
  }

  lemma StepCounted(s: State, step: Step, window: Time, id: string, saves: nat, since: nat -> nat,
                    saves': nat, since': nat -> nat)
    requires Safe(s) && Machine.Enabled(s, step, window) && Counted(s, id, saves, since)
    requires Counts(s, step, id, saves, since, saves', since')
    requires forall c: nat :: since(c) <= saves
    ensures Counted(Next(s, step, window), id, saves', since')
  {
    var s' := Next(s, step, window);
    if Saves(s, step, OfIncident(id)) {
      assert Based(s, id, s.calls[step.c], saves, since(step.c));
    } else {
      VersionsStay(s, step, window, id);
    }
    forall c | c in s'.calls ensures Based(s', id, s'.calls[c], saves', since'(c)) && since'(c) <= saves' {
      if (step.Begin? || step.Lookup? || step.Build? || step.Finish?) && step.c == c {
        OwnFrame(s, step, window, id, saves, since(c));
      } else {
        FramesStay(s, step, window, c);
      }
    }
  }

  lemma {:induction false} RunCounted(steps: seq<Step>, window: Time, id: string)
    requires Possible(steps, window)
    ensures var of := OfIncident(id);
            Counted(After(steps, window), id, SaveCount(steps, of, window), c => SinceLookup(steps, c, of, window))
  {
    if steps != [] {
      var of, init := OfIncident(id), Init(steps);
      RunCounted(init, window, id);
      StepCounted(After(init, window), Last(steps), window, id,
                  SaveCount(init, of, window), c => SinceLookup(init, c, of, window),
                  SaveCount(steps, of, window), c => SinceLookup(steps, c, of, window));
    }
  }

  /** A save makes the version one more than what its call has found. */
  lemma SavedVersion(s: State, step: Step, window: Time, id: string, saves: nat, since: nat)
    requires Safe(s) && Machine.Enabled(s, step, window) && Saves(s, step, OfIncident(id))
    requires Version(s, id) <= saves && Based(s, id, s.calls[step.c], saves, since)
    ensures Version(Next(s, step, window), id) == saves + 1 <==> since == 0 && Version(s, id) == saves
  {
  }

  /**
   * The version of an incident, which is its number of alerts, is never more than the number
   * of times it was saved; and it is as many if and only if no save was stale.
   */
  lemma {:induction false} VersionCountsSavesIff(steps: seq<Step>, window: Time, id: string)
    requires Possible(steps, window)
    ensures Version(After(steps, window), id) <= SaveCount(steps, OfIncident(id), window)
    ensures Version(After(steps, window), id) == SaveCount(steps, OfIncident(id), window) <==>
            NoStaleSave(steps, OfIncident(id), window)
  {
    RunCounted(steps, window, id);
    if steps != [] {
      var of, init, last := OfIncident(id), Init(steps), Last(steps);
      var s := After(init, window);
      VersionCountsSavesIff(init, window, id);
      RunCounted(init, window, id);
      if Saves(s, last, of) {
        SavedVersion(s, last, window, id, SaveCount(init, of, window), SinceLookup(init, last.c, of, window));
      } else {
        VersionsStay(s, last, window, id);
      }
    }
  }

  // ---- Which calls an incident holds ----

  predicate HasSaved(s: State, c: nat, id: string) {
    c in s.calls && s.calls[c].Done? && s.calls[c].e.Submit? && s.calls[c].e.Home() == id
  }

  /** The calls that have saved the incident. */
  ghost function Savers(s: State, id: string): set<nat> {
    set c | c in s.calls && HasSaved(s, c, id)
  }

  lemma StepSaves(s: State, step: Step, window: Time, id: string, c: nat)
    requires Safe(s) && Machine.Enabled(s, step, window)
    ensures HasSaved(Next(s, step, window), c, id) <==>
            HasSaved(s, c, id) || (Saves(s, step, OfIncident(id)) && step.c == c)
    ensures Saves(s, step, OfIncident(id)) && step.c == c ==> !HasSaved(s, c, id)
  {
    if c in s.calls {
      assert FrameOk(s, s.calls[c]);
    }
  }

  lemma StepSavers(s: State, step: Step, window: Time, id: string)
    requires Safe(s) && Machine.Enabled(s, step, window)
    ensures Savers(Next(s, step, window), id)
            == Savers(s, id) + if Saves(s, step, OfIncident(id)) then {step.c} else {}
    ensures Saves(s, step, OfIncident(id)) ==> step.c !in Savers(s, id)
  {
    forall c: nat
      ensures HasSaved(Next(s, step, window), c, id) <==>
              HasSaved(s, c, id) || (Saves(s, step, OfIncident(id)) && step.c == c)
      ensures Saves(s, step, OfIncident(id)) && step.c == c ==> !HasSaved(s, c, id)
    {
      StepSaves(s, step, window, id, c);
    }
  }

  lemma {:induction false} SaversCounted(steps: seq<Step>, window: Time, id: string)
    requires Possible(steps, window)
    ensures |Savers(After(steps, window), id)| == SaveCount(steps, OfIncident(id), window)
  {
    if steps != [] {
      SaversCounted(Init(steps), window, id);
      StepSavers(After(Init(steps), window), Last(steps), window, id);
    }
  }

  /** The calls whose alerts the stored incident shows. */
  ghost function HeldCalls(s: State, id: string): set<nat>
    requires Safe(s) && id in s.store
  {
    var v := View(s.heap, s.store[id].slice);
    set i | 0 <= i < |v| :: v[i].call
  }

  lemma {:induction false} DistinctCalls(v: seq<Submission>)
    requires forall i, j | 0 <= i < j < |v| :: v[i].call != v[j].call
    ensures |(set i | 0 <= i < |v| :: v[i].call)| == |v|
  {
    if v != [] {
      var init, calls := Init(v), set i | 0 <= i < |v| :: v[i].call;
      DistinctCalls(init);
      var before := set i | 0 <= i < |init| :: init[i].call;
      assert calls == before + {Last(v).call} by {
        forall c | c in calls ensures c in before + {Last(v).call} {
          var i :| 0 <= i < |v| && v[i].call == c;
          assert i < |init| ==> init[i].call == c;
        }
        forall c | c in before ensures c in calls {
          var i :| 0 <= i < |init| && init[i].call == c;
          assert v[i].call == c;
        }
        assert v[|v| - 1].call in calls;
      }
      assert Last(v).call !in before;
    }
  }

  lemma HeldCounted(s: State, id: string)
    requires Safe(s) && id in s.store
    ensures |HeldCalls(s, id)| == Version(s, id)
  {
    assert Sound(s, s.store[id]);
    DistinctCalls(View(s.heap, s.store[id].slice));
  }

  /** No call has appended to the incident and has yet to save it. */
  ghost predicate NonePending(s: State, id: string) {
    forall c | c in s.calls && s.calls[c].Built? :: s.calls[c].held.meta.id != id
  }

  lemma HeldHaveSaved(s: State, id: string)
    requires Safe(s) && id in s.store && NonePending(s, id)
    ensures HeldCalls(s, id) <= Savers(s, id)
  {
    var b := s.store[id].slice;
    assert Sound(s, s.store[id]);
    forall c | c in HeldCalls(s, id) ensures c in Savers(s, id) {
      var i :| 0 <= i < b.len && View(s.heap, b)[i].call == c;
      assert CellOk(s, s.owners[b.arr], s.heap[b.arr][i].value);
      assert FrameOk(s, s.calls[c]);
    }
  }

  lemma SubsetOfSize<T>(a: set<T>, b: set<T>)
    requires a <= b
    ensures a == b <==> |a| == |b|
  {
    assert b == a + (b - a);
  }

  /**
   * Once no append to an incident is waiting to be saved, the calls whose alerts it holds are
   * among those that saved it; and they are all of them if and only if no save was stale.
   */
  lemma HoldsItsSaversIff(steps: seq<Step>, window: Time, id: string)
    requires Possible(steps, window) && id in After(steps, window).store && NonePending(After(steps, window), id)
    ensures HeldCalls(After(steps, window), id) <= Savers(After(steps, window), id)
    ensures HeldCalls(After(steps, window), id) == Savers(After(steps, window), id) <==>
            NoStaleSave(steps, OfIncident(id), window)
  {
    var s := After(steps, window);
    HeldHaveSaved(s, id);
    HeldCounted(s, id);
    SaversCounted(steps, window, id);
    VersionCountsSavesIff(steps, window, id);
    SubsetOfSize(HeldCalls(s, id), Savers(s, id));
  }

  // ---- Conservation ----

  lemma {:induction false} SavedIsStored(steps: seq<Step>, window: Time, c: nat, id: string)
    requires Possible(steps, window) && HasSaved(After(steps, window), c, id)
    ensures id in After(steps, window).store
  {
    if steps != [] {
      StepSaves(After(Init(steps), window), Last(steps), window, id, c);
      if HasSaved(After(Init(steps), window), c, id) {
        SavedIsStored(Init(steps), window, c, id);
      }
    }
  }

  /** The alert of a call that has finished is in the incident the call wrote. */
  ghost predicate IsHeld(s: State, c: nat)
    requires Safe(s) && c in s.calls && s.calls[c].Done?
  {
    var e := s.calls[c].e;
    && e.Submit? && e.Home() in s.store
    && InHeap(s.heap, s.store[e.Home()].slice) && Submission(c, e.alert) in View(s.heap, s.store[e.Home()].slice)
  }

  lemma HeldByCall(s: State, c: nat)
    requires Safe(s) && c in s.calls && s.calls[c].Done? && s.calls[c].e.Submit? && s.calls[c].e.Home() in s.store
    ensures IsHeld(s, c) <==> c in HeldCalls(s, s.calls[c].e.Home())
  {
    var e := s.calls[c].e;
    var b := s.store[e.Home()].slice;
    assert Sound(s, s.store[e.Home()]);
    var v := View(s.heap, b);
    if IsHeld(s, c) {
      var i :| 0 <= i < |v| && v[i] == Submission(c, e.alert);
      assert v[i].call in HeldCalls(s, e.Home());
    }
    if c in HeldCalls(s, e.Home()) {
      var i :| 0 <= i < |v| && v[i].call == c;
      assert CellOk(s, s.owners[b.arr], s.heap[b.arr][i].value);
      assert v[i] == Submission(c, e.alert);
    }
  }

  lemma SaversAreHeldIff(steps: seq<Step>, window: Time, id: string)
    requires Possible(steps, window) && id in After(steps, window).store && NonePending(After(steps, window), id)
    ensures (forall c | c in Savers(After(steps, window), id) :: IsHeld(After(steps, window), c)) <==>
            NoStaleSave(steps, OfIncident(id), window)
  {
    var s := After(steps, window);
    HoldsItsSaversIff(steps, window, id);
    forall c | c in Savers(s, id) ensures IsHeld(s, c) <==> c in HeldCalls(s, id) {
      HeldByCall(s, c);
    }
  }

  /**
   * Conservation, for any number of calls in any interleaving: when no append is waiting to be
   * saved, the alerts of all finished calls are held by the incidents they were written to, if
   * and only if each save came from a call since whose lookup that incident was not saved.
   */
  lemma ConservationIff(steps: seq<Step>, window: Time)
    requires Possible(steps, window)
    requires forall c | c in After(steps, window).calls :: !After(steps, window).calls[c].Built?
    ensures (forall c | c in After(steps, window).calls && After(steps, window).calls[c].Done? ::
               IsHeld(After(steps, window), c)) <==>
            forall id | id in After(steps, window).store :: NoStaleSave(steps, OfIncident(id), window)
  {
    var s := After(steps, window);
    forall id | id in s.store
      ensures (forall c | c in Savers(s, id) :: IsHeld(s, c)) <==> NoStaleSave(steps, OfIncident(id), window)
    {
      SaversAreHeldIff(steps, window, id);
    }
    forall c | c in s.calls && s.calls[c].Done?
      ensures s.calls[c].e.Submit? && s.calls[c].e.Home() in s.store && c in Savers(s, s.calls[c].e.Home())
    {
      assert FrameOk(s, s.calls[c]);
      SavedIsStored(steps, window, c, s.calls[c].e.Home());
    }
  }

  // ---- At most one live incident of a key ----

  function OfKey(key: string): Held -> bool {
    (x: Held) => x.meta.key == key
  }

  /** The environment does not reopen an incident that is resolved in the store. */
  ghost predicate NoReopening(steps: seq<Step>, window: Time)
    requires Possible(steps, window)
  {
    steps != [] ==> NoReopening(Init(steps), window) && KeepsResolved(After(Init(steps), window), Last(steps))
  }

  predicate KeepsResolved(s: State, step: Step) {
    step.Move? && step.id in s.store && s.store[step.id].meta.state == Resolved ==> step.state == Resolved
  }

  predicate IsLive(s: State, id: string, key: string, window: Time) {
    id in s.store && Live(s.store[id].meta, key, s.now, window)
  }

  /** The incident a call has found, by its identifier. */
  function FoundBy(f: Frame): Option<string>
    requires f.Looked? || (f.Built? && f.e.Submit?)
  {
    if f.Built? then f.e.found else if f.found.Some? then Some(f.found.value.meta.id) else None
  }

  /** No incident of the key is live but the one the call has found. */
  ghost predicate SeesAllLive(s: State, f: Frame, key: string, window: Time) {
    (f.Looked? || (f.Built? && f.e.Submit?)) && f.Key() == key ==>
      forall id | IsLive(s, id, key, window) :: FoundBy(f) == Some(id)
  }

  ghost predicate Lone(s: State, key: string, window: Time, since: nat -> nat) {
    && (forall a, b | IsLive(s, a, key, window) && IsLive(s, b, key, window) :: a == b)
    && (forall c | c in s.calls && since(c) == 0 :: SeesAllLive(s, s.calls[c], key, window))
  }

  /** No step but a save on the key, and a reopening, makes an incident live. */
  lemma LiveBefore(s: State, step: Step, window: Time, key: string, id: string)
    requires Safe(s) && Machine.Enabled(s, step, window) && KeepsResolved(s, step) && !Saves(s, step, OfKey(key))
    requires IsLive(Next(s, step, window), id, key, window)
    ensures IsLive(s, id, key, window)
  {
  }

  lemma LookupSeesAll(s: State, c: nat, t2: Time, answer: Option<string>, window: Time, key: string, since: nat -> nat)
    requires Safe(s) && Machine.Enabled(s, Lookup(c, t2, answer), window) && Lone(s, key, window, since)
    ensures var s' := LookupStep(s, c, t2, answer); SeesAllLive(s', s'.calls[c], key, window)
  {
    var s' := LookupStep(s, c, t2, answer);
    forall id | IsLive(s', id, key, window) && s'.calls[c].Key() == key ensures FoundBy(s'.calls[c]) == Some(id) {
      assert IsLive(s, id, key, window) && Live(Metas(s.store)[id], key, t2, window);
      assert answer.Some? && IsLive(s, answer.value, key, window);
    }
  }

  /** What a call has found stays all there is to see, until the next save on the key. */
  lemma SeesAllStill(s: State, step: Step, window: Time, key: string, c: nat)
    requires Safe(s) && Machine.Enabled(s, step, window) && KeepsResolved(s, step) && !Saves(s, step, OfKey(key))
    requires c in s.calls && SeesAllLive(s, s.calls[c], key, window) && !(step.Lookup? && step.c == c)
    ensures var s' := Next(s, step, window); SeesAllLive(s', s'.calls[c], key, window)
  {
    var s' := Next(s, step, window);
    forall id | IsLive(s', id, key, window) ensures IsLive(s, id, key, window) {
      LiveBefore(s, step, window, key, id);
    }
  }

  /** After a fresh save on the key, only the incident it has saved can be live. */
  lemma SaveIsLone(s: State, step: Step, window: Time, key: string, a: string)
    requires Safe(s) && Machine.Enabled(s, step, window) && Saves(s, step, OfKey(key))
    requires SeesAllLive(s, s.calls[step.c], key, window) && IsLive(Next(s, step, window), a, key, window)
    ensures a == s.calls[step.c].held.meta.id
  {
    assert FrameOk(s, s.calls[step.c]);
    if a != s.calls[step.c].held.meta.id {
      assert IsLive(s, a, key, window);
    }
  }

  lemma StepLone(s: State, step: Step, window: Time, key: string, since: nat -> nat, since': nat -> nat)
    requires Safe(s) && Machine.Enabled(s, step, window) && KeepsResolved(s, step) && Lone(s, key, window, since)
    requires Saves(s, step, OfKey(key)) ==> since(step.c) == 0
    requires forall c: nat ::
               since'(c) == if step.Lookup? && step.c == c then 0
                            else since(c) + if Saves(s, step, OfKey(key)) then 1 else 0
    ensures Lone(Next(s, step, window), key, window, since')
  {
    var s' := Next(s, step, window);
    forall a, b | IsLive(s', a, key, window) && IsLive(s', b, key, window) ensures a == b {
      if Saves(s, step, OfKey(key)) {
        SaveIsLone(s, step, window, key, a);
        SaveIsLone(s, step, window, key, b);
      } else {
        LiveBefore(s, step, window, key, a);
        LiveBefore(s, step, window, key, b);
      }
    }
    forall c | c in s'.calls && since'(c) == 0 ensures SeesAllLive(s', s'.calls[c], key, window) {
      if step.Lookup? && step.c == c {
        LookupSeesAll(s, c, step.t2, step.answer, window, key, since);
      } else if c in s.calls {
        SeesAllStill(s, step, window, key, c);
      }
    }
  }

  lemma {:induction false} RunLone(steps: seq<Step>, window: Time, key: string)
    requires Possible(steps, window) && NoReopening(steps, window) && NoStaleSave(steps, OfKey(key), window)
    ensures Lone(After(steps, window), key, window, c => SinceLookup(steps, c, OfKey(key), window))
  {
    if steps != [] {
      RunLone(Init(steps), window, key);
      StepLone(After(Init(steps), window), Last(steps), window, key,
               c => SinceLookup(Init(steps), c, OfKey(key), window), c => SinceLookup(steps, c, OfKey(key), window));
    }
  }

  /**
   * In every interleaving in which no resolved incident is reopened, at most one incident of a
   * key is live, now and later, as long as no save on the key is stale. So a second incident
   * becomes live only through a save since whose lookup the key has been saved to.
   */
  lemma AtMostOneLiveWithoutStaleSave(steps: seq<Step>, window: Time, key: string, now: Time)
    requires Possible(steps, window) && NoReopening(steps, window) && NoStaleSave(steps, OfKey(key), window)
    requires After(steps, window).now <= now
    ensures AtMostOneLive(Metas(After(steps, window).store), key, now, window)
  {
    RunLone(steps, window, key);
    var s := After(steps, window);
    forall a | a in s.store && Live(Metas(s.store)[a], key, now, window) ensures IsLive(s, a, key, window) {}
  }
}
