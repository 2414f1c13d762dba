/**
 * Two calls that write to one incident, their lookups, appends and saves in any order, among
 * the steps of any other calls that leave the incident alone. What the incident holds in the
 * end depends only on where these six steps stand and on the room in the incident's array.
 */
module TwoCalls {
  import opened Wrappers
  import opened Collections
  import opened Domain
  import opened Correlation
  import opened Runs
  import opened Machine
  import Lexicographic

  /** Where the lookup, the append and the save of a call stand in a run. */
  datatype Order = Order(look: nat, build: nat, finish: nat)

  ghost predicate StepFits(step: Step, i: nat, c: nat, o: Order, id: string) {
    && (step.Lookup? && step.c == c <==> i == o.look)
    && (i == o.look ==> step.answer == Some(id))
    && (step.Build? && step.c == c <==> i == o.build)
    && (step.Finish? && step.c == c <==> i == o.finish)
  }

  /** From step `n` on, the call `c` finds the incident, builds and saves at these places. */
  ghost predicate Follows(steps: seq<Step>, n: nat, c: nat, o: Order, id: string) {
    n <= o.look < o.build < o.finish && forall i | n <= i < |steps| :: StepFits(steps[i], i, c, o, id)
  }

  /** The step appends to a copy of the incident, or saves one. */
  predicate Touches(s: State, step: Step, id: string) {
    match step
    case Build(c, _, _, _) =>
      c in s.calls && s.calls[c].Looked? && s.calls[c].found.Some? && s.calls[c].found.value.meta.id == id
    case Finish(c) => c in s.calls && s.calls[c].Built? && s.calls[c].held.meta.id == id
    case _ => false
  }

  predicate Of(step: Step, c: nat, d: nat) {
    (step.Build? || step.Finish?) && (step.c == c || step.c == d)
  }

  /** From step `n` on, no call but `c` and `d` appends to the incident or saves it. */
  ghost predicate OnlyTheyTouch(steps: seq<Step>, n: nat, c: nat, d: nat, id: string, window: Time)
    requires Possible(steps, window)
  {
    |steps| > n ==>
      && OnlyTheyTouch(Init(steps), n, c, d, id, window)
      && (Of(Last(steps), c, d) || !Touches(After(Init(steps), window), Last(steps), id))
  }

  // ---- Prefixes of a run ----

  lemma NextSubmitting(s: State, step: Step, window: Time, c: nat)
    requires Safe(s) && Machine.Enabled(s, step, window) && c in s.calls && s.calls[c].Submitting()
    ensures var s' := Next(s, step, window); c in s'.calls && s'.calls[c].Submitting()
  {
    assert FrameOk(s, s.calls[c]);
  }

  lemma {:induction false} SubmittingStays(steps: seq<Step>, window: Time, n: nat, c: nat)
    requires Possible(steps, window) && n <= |steps| && Possible(steps[..n], window)
    requires c in After(steps[..n], window).calls && After(steps[..n], window).calls[c].Submitting()
    ensures c in After(steps, window).calls && After(steps, window).calls[c].Submitting()
    decreases |steps|
  {
    if n == |steps| {
      assert steps[..n] == steps;
    } else {
      assert Init(steps)[..n] == steps[..n];
      SubmittingStays(Init(steps), window, n, c);
      NextSubmitting(After(Init(steps), window), Last(steps), window, c);
    }
  }

  lemma StartedAtLookup(steps: seq<Step>, window: Time, look: nat)
    requires Possible(steps, window) && look < |steps| && steps[look].Lookup?
    ensures Possible(steps[..look], window)
    ensures var s := After(steps[..look], window); steps[look].c in s.calls && s.calls[steps[look].c].Started?
  {
    var upto := steps[..look + 1];
    PrefixOfRun(steps, window, look + 1);
    assert Init(upto) == steps[..look] && Last(upto) == steps[look];
  }

  /** A call that has yet to look up has written nothing. */
  lemma NotSubmittingYet(steps: seq<Step>, window: Time, n: nat, c: nat, look: nat)
    requires Possible(steps, window) && n <= look < |steps| && Possible(steps[..n], window)
    requires steps[look].Lookup? && steps[look].c == c
    ensures c in After(steps[..n], window).calls ==> !After(steps[..n], window).calls[c].Submitting()
  {
    StartedAtLookup(steps, window, look);
    assert steps[..look][..n] == steps[..n];
    if c in After(steps[..n], window).calls && After(steps[..n], window).calls[c].Submitting() {
      SubmittingStays(steps[..look], window, n, c);
    }
  }

  // ---- The alert of a call ----

  predicate Carries(f: Frame, alert: Alert) {
    if f.Started? || f.Looked? then f.alert == alert else f.e.Submit? && f.e.alert == alert
  }

  /** The submission is that of its call, if that has begun. */
  ghost predicate Named(s: State, x: Submission) {
    x.call in s.calls ==> Carries(s.calls[x.call], x.alert)
  }

  lemma NamedBefore(s: State, step: Step, window: Time, x: Submission)
    requires Safe(s) && Machine.Enabled(s, step, window) && Named(Next(s, step, window), x)
    ensures Named(s, x)
  {
    if x.call in s.calls {
      assert FrameOk(s, s.calls[x.call]);
    }
  }

  // ---- What steps leave alone ----

  /** The arrays made for the incident are as they were. */
  ghost predicate HeapKept(s: State, s': State, id: string) {
    && |s.heap| <= |s'.heap| && |s.owners| <= |s'.owners|
    && forall a | 0 <= a < |s.heap| && a < |s.owners| && s.owners[a].id == id ::
         s'.heap[a] == s.heap[a] && s'.owners[a] == s.owners[a]
  }

  ghost predicate StoreKept(s: State, s': State, id: string) {
    id in s.store ==>
      && id in s'.store && s'.store[id].slice == s.store[id].slice
      && s'.store[id].meta.id == s.store[id].meta.id && s'.store[id].meta.severity == s.store[id].meta.severity
  }

  lemma HeapElsewhere(s: State, step: Step, window: Time, id: string)
    requires Safe(s) && Machine.Enabled(s, step, window) && (step.Build? ==> !Touches(s, step, id))
    ensures HeapKept(s, Next(s, step, window), id)
  {
    if step.Build? {
      assert FrameOk(s, s.calls[step.c]);
    }
  }

  lemma StoreElsewhere(s: State, step: Step, window: Time, id: string)
    requires Safe(s) && Machine.Enabled(s, step, window) && (step.Finish? ==> !Touches(s, step, id))
    ensures StoreKept(s, Next(s, step, window), id)
  {
  }

  lemma FrameElsewhere(s: State, step: Step, window: Time, c: nat)
    requires Safe(s) && Machine.Enabled(s, step, window) && c in s.calls
    requires !((step.Lookup? || step.Build? || step.Finish?) && step.c == c)
    ensures var s' := Next(s, step, window); c in s'.calls && s'.calls[c] == s.calls[c]
  {
  }

  // ---- Copies of the incident ----

  /** A copy of the incident that shows these submissions and this severity. */
  ghost predicate Shows(s: State, x: Held, id: string, w: seq<Submission>, severity: string) {
    && InHeap(s.heap, x.slice) && View(s.heap, x.slice) == w
    && x.slice.arr < |s.owners| && s.owners[x.slice.arr].id == id
    && x.meta.id == id && x.meta.severity == severity
  }

  ghost predicate Stored(s: State, id: string, w: seq<Submission>, severity: string) {
    id in s.store && Shows(s, s.store[id], id, w, severity)
  }

  ghost predicate Found(s: State, c: nat, id: string, w: seq<Submission>, severity: string) {
    c in s.calls && s.calls[c].Looked? && s.calls[c].found.Some? && Shows(s, s.calls[c].found.value, id, w, severity)
  }

  ghost predicate Made(s: State, c: nat, id: string, w: seq<Submission>, severity: string) {
    c in s.calls && s.calls[c].Built? && Shows(s, s.calls[c].held, id, w, severity)
  }

  lemma ShowsStill(s: State, s': State, x: Held, id: string, w: seq<Submission>, severity: string)
    requires HeapKept(s, s', id) && Shows(s, x, id, w, severity)
    ensures Shows(s', x, id, w, severity)
  {
  }

  lemma LookupFinds(s: State, c: nat, t2: Time, id: string, w: seq<Submission>, severity: string)
    requires c in s.calls && s.calls[c].Started? && Stored(s, id, w, severity)
    ensures Found(LookupStep(s, c, t2, Some(id)), c, id, w, severity)
  {
  }

  lemma FinishStores(s: State, c: nat, id: string, w: seq<Submission>, severity: string)
    requires Made(s, c, id, w, severity)
    ensures Stored(FinishStep(s, c), id, w, severity)
  {
  }

  lemma BuildMakes(s: State, c: nat, drawn: string, topology: Option<TopologySlice>, spare: nat, id: string,
                   w: seq<Submission>, severity: string)
    requires Safe(s) && Found(s, c, id, w, severity)
    ensures var x := Submission(c, s.calls[c].alert);
            var severity' := Lexicographic.Max(severity, SeverityOf(x.alert));
            Made(BuildStep(s, c, drawn, topology, spare), c, id, w + [x], severity')
  {
    AppendAppends(s.heap, s.calls[c].found.value.slice, Submission(c, s.calls[c].alert), spare);
  }

  // ---- The second call looks the incident up after the first has saved ----

  /**
   * After `k` steps, one copy carries what has been written so far: the stored one, then the
   * one the call has found, then the one it has made, then the stored one again.
   */
  ghost predicate Leg(s: State, k: nat, x: Submission, o: Order, id: string, v: seq<Submission>, g: string) {
    var g' := Lexicographic.Max(g, SeverityOf(x.alert));
    && (k <= o.look ==> Stored(s, id, v, g))
    && (o.look < k <= o.build ==> Found(s, x.call, id, v, g))
    && (o.build < k <= o.finish ==> Made(s, x.call, id, v + [x], g'))
    && (o.finish < k ==> Stored(s, id, v + [x], g'))
  }

  /** The next step fits the order of the two calls, and no other call touches the incident. */
  ghost predicate Goes(s: State, step: Step, window: Time, k: nat, x: Submission, y: Submission, o: Order, p: Order,
                       id: string)
  {
    && Safe(s) && Machine.Enabled(s, step, window) && Named(s, x) && Named(s, y) && x.call != y.call
    && o.look < o.build < o.finish && p.look < p.build < p.finish
    && StepFits(step, k, x.call, o, id) && StepFits(step, k, y.call, p, id)
    && (Of(step, x.call, y.call) || !Touches(s, step, id))
  }

  ghost predicate TwoCallRun(steps: seq<Step>, window: Time, n: nat, x: Submission, y: Submission, o: Order, p: Order,
                             id: string)
  {
    && Possible(steps, window) && n <= |steps| && x.call != y.call
    && Named(After(steps, window), x) && Named(After(steps, window), y)
    && Follows(steps, n, x.call, o, id) && Follows(steps, n, y.call, p, id)
    && OnlyTheyTouch(steps, n, x.call, y.call, id, window)
  }

  lemma FollowsBefore(steps: seq<Step>, n: nat, c: nat, o: Order, id: string)
    requires Follows(steps, n, c, o, id) && n < |steps|
    ensures Follows(Init(steps), n, c, o, id) && StepFits(Last(steps), |steps| - 1, c, o, id)
  {
    assert forall i | n <= i < |steps| - 1 :: Init(steps)[i] == steps[i];
    assert StepFits(steps[|steps| - 1], |steps| - 1, c, o, id);
  }

  lemma RunBefore(steps: seq<Step>, window: Time, n: nat, x: Submission, y: Submission, o: Order, p: Order, id: string)
    requires TwoCallRun(steps, window, n, x, y, o, p, id) && n < |steps|
    ensures TwoCallRun(Init(steps), window, n, x, y, o, p, id)
  {
    var s := After(Init(steps), window);
    NamedBefore(s, Last(steps), window, x);
    NamedBefore(s, Last(steps), window, y);
    FollowsBefore(steps, n, x.call, o, id);
    FollowsBefore(steps, n, y.call, p, id);
  }

  lemma RunGoes(steps: seq<Step>, window: Time, n: nat, x: Submission, y: Submission, o: Order, p: Order, id: string)
    requires TwoCallRun(steps, window, n, x, y, o, p, id) && n < |steps|
    ensures Goes(After(Init(steps), window), Last(steps), window, |steps| - 1, x, y, o, p, id)
  {
    var s := After(Init(steps), window);
    NamedBefore(s, Last(steps), window, x);
    NamedBefore(s, Last(steps), window, y);
    FollowsBefore(steps, n, x.call, o, id);
    FollowsBefore(steps, n, y.call, p, id);
  }

  ghost predicate KeptBySteps(inv: (State, nat) -> bool, window: Time, x: Submission, y: Submission, o: Order, p: Order,
                              id: string)
  {
    forall s: State, step: Step, k: nat | Goes(s, step, window, k, x, y, o, p, id) && inv(s, k) ::
      inv(Next(s, step, window), k + 1)
  }

  /** Step `k` of such a run goes as the order says, from the state that the steps before it leave. */
  ghost predicate GoesAt(steps: seq<Step>, window: Time, x: Submission, y: Submission, o: Order, p: Order, id: string,
                         k: nat)
  {
    && k < |steps| && Possible(steps[..k], window) && Possible(steps[..k + 1], window)
    && Goes(After(steps[..k], window), steps[k], window, k, x, y, o, p, id)
    && After(steps[..k + 1], window) == Next(After(steps[..k], window), steps[k], window)
  }

  lemma LastGoes(steps: seq<Step>, window: Time, n: nat, x: Submission, y: Submission, o: Order, p: Order, id: string)
    requires TwoCallRun(steps, window, n, x, y, o, p, id) && n < |steps|
    ensures GoesAt(steps, window, x, y, o, p, id, |steps| - 1)
  {
    RunGoes(steps, window, n, x, y, o, p, id);
    assert steps[..|steps| - 1] == Init(steps) && steps[..|steps| - 1 + 1] == steps;
  }

  lemma GoesAtBefore(steps: seq<Step>, window: Time, x: Submission, y: Submission, o: Order, p: Order, id: string,
                     k: nat)
    requires steps != [] && k < |steps| - 1 && GoesAt(Init(steps), window, x, y, o, p, id, k)
    ensures GoesAt(steps, window, x, y, o, p, id, k)
  {
    assert Init(steps)[..k] == steps[..k] && Init(steps)[..k + 1] == steps[..k + 1];
  }

  lemma {:induction false} EachGoes(steps: seq<Step>, window: Time, n: nat, x: Submission, y: Submission, o: Order,
                                    p: Order, id: string, k: nat)
    requires TwoCallRun(steps, window, n, x, y, o, p, id) && n <= k < |steps|
    ensures GoesAt(steps, window, x, y, o, p, id, k)
    decreases |steps|
  {
    if k == |steps| - 1 {
      LastGoes(steps, window, n, x, y, o, p, id);
    } else {
      RunBefore(steps, window, n, x, y, o, p, id);
      EachGoes(Init(steps), window, n, x, y, o, p, id, k);
      GoesAtBefore(steps, window, x, y, o, p, id, k);
    }
  }

  ghost predicate HoldsAt(steps: seq<Step>, window: Time, inv: (State, nat) -> bool, k: nat) {
    k <= |steps| && Possible(steps[..k], window) && inv(After(steps[..k], window), k)
  }

  lemma StepHolds(steps: seq<Step>, window: Time, x: Submission, y: Submission, o: Order, p: Order, id: string,
                  inv: (State, nat) -> bool, k: nat)
    requires KeptBySteps(inv, window, x, y, o, p, id) && HoldsAt(steps, window, inv, k)
    requires GoesAt(steps, window, x, y, o, p, id, k)
    ensures HoldsAt(steps, window, inv, k + 1)
  {
  }

  /** What each step that fits keeps holds all along. */
  lemma {:induction false} KeptUpTo(steps: seq<Step>, window: Time, n: nat, x: Submission, y: Submission, o: Order,
                                    p: Order, id: string, inv: (State, nat) -> bool, k: nat)
    requires KeptBySteps(inv, window, x, y, o, p, id) && HoldsAt(steps, window, inv, n) && n <= k <= |steps|
    requires forall i: nat | n <= i < |steps| :: GoesAt(steps, window, x, y, o, p, id, i)
    ensures HoldsAt(steps, window, inv, k)
  {
    if n < k {
      KeptUpTo(steps, window, n, x, y, o, p, id, inv, k - 1);
      assert GoesAt(steps, window, x, y, o, p, id, k - 1);
      StepHolds(steps, window, x, y, o, p, id, inv, k - 1);
    }
  }

  lemma RunKeeps(steps: seq<Step>, window: Time, n: nat, x: Submission, y: Submission, o: Order, p: Order, id: string,
                 inv: (State, nat) -> bool)
    requires TwoCallRun(steps, window, n, x, y, o, p, id) && Possible(steps[..n], window)
    requires inv(After(steps[..n], window), n) && KeptBySteps(inv, window, x, y, o, p, id)
    ensures inv(After(steps, window), |steps|)
  {
    forall i: nat | n <= i < |steps| ensures GoesAt(steps, window, x, y, o, p, id, i) {
      EachGoes(steps, window, n, x, y, o, p, id, i);
    }
    KeptUpTo(steps, window, n, x, y, o, p, id, inv, |steps|);
    assert steps[..|steps|] == steps;
  }

  lemma StoredStays(s: State, step: Step, window: Time, id: string, w: seq<Submission>, g: string)
    requires Safe(s) && Machine.Enabled(s, step, window) && !Touches(s, step, id) && Stored(s, id, w, g)
    ensures Stored(Next(s, step, window), id, w, g)
  {
    HeapElsewhere(s, step, window, id);
    StoreElsewhere(s, step, window, id);
  }

  lemma FoundStays(s: State, step: Step, window: Time, c: nat, id: string, w: seq<Submission>, g: string)
    requires Safe(s) && Machine.Enabled(s, step, window) && (step.Build? ==> !Touches(s, step, id))
    requires Found(s, c, id, w, g)
    requires !(step.Build? && step.c == c)
    ensures Found(Next(s, step, window), c, id, w, g)
  {
    HeapElsewhere(s, step, window, id);
    FrameElsewhere(s, step, window, c);
    ShowsStill(s, Next(s, step, window), s.calls[c].found.value, id, w, g);
  }

  lemma MadeStays(s: State, step: Step, window: Time, c: nat, id: string, w: seq<Submission>, g: string)
    requires Safe(s) && Machine.Enabled(s, step, window) && (step.Build? ==> !Touches(s, step, id))
    requires Made(s, c, id, w, g)
    requires !(step.Finish? && step.c == c)
    ensures Made(Next(s, step, window), c, id, w, g)
  {
    HeapElsewhere(s, step, window, id);
    FrameElsewhere(s, step, window, c);
    ShowsStill(s, Next(s, step, window), s.calls[c].held, id, w, g);
  }

  lemma LegStep(s: State, step: Step, window: Time, k: nat, x: Submission, o: Order, id: string, v: seq<Submission>,
                g: string)
    requires Safe(s) && Machine.Enabled(s, step, window) && Named(s, x) && o.look < o.build < o.finish
    requires StepFits(step, k, x.call, o, id) && (Of(step, x.call, x.call) || !Touches(s, step, id))
    requires Leg(s, k, x, o, id, v, g)
    ensures Leg(Next(s, step, window), k + 1, x, o, id, v, g)
  {
    var g' := Lexicographic.Max(g, SeverityOf(x.alert));
    if k == o.look {
      LookupFinds(s, x.call, step.t2, id, v, g);
    } else if k == o.build {
      BuildMakes(s, x.call, step.id, step.topology, step.spare, id, v, g);
    } else if k == o.finish {
      FinishStores(s, x.call, id, v + [x], g');
    } else if k < o.look {
      StoredStays(s, step, window, id, v, g);
    } else if k < o.build {
      FoundStays(s, step, window, x.call, id, v, g);
    } else if k < o.finish {
      MadeStays(s, step, window, x.call, id, v + [x], g');
    } else {
      StoredStays(s, step, window, id, v + [x], g');
    }
  }

  /** What is carried on when the second call looks up after the first has saved. */
  ghost predicate Chained(s: State, k: nat, x: Submission, y: Submission, o: Order, p: Order, id: string,
                          v: seq<Submission>, g: string) {
    if k <= o.finish then Leg(s, k, x, o, id, v, g)
    else Leg(s, k, y, p, id, v + [x], Lexicographic.Max(g, SeverityOf(x.alert)))
  }

  lemma ChainedStep(s: State, step: Step, window: Time, k: nat, x: Submission, y: Submission, o: Order, p: Order,
                    id: string, v: seq<Submission>, g: string)
    requires Goes(s, step, window, k, x, y, o, p, id) && Chained(s, k, x, y, o, p, id, v, g) && o.finish < p.look
    ensures Chained(Next(s, step, window), k + 1, x, y, o, p, id, v, g)
  {
    if k <= o.finish {
      LegStep(s, step, window, k, x, o, id, v, g);
    } else {
      LegStep(s, step, window, k, y, p, id, v + [x], Lexicographic.Max(g, SeverityOf(x.alert)));
    }
  }

  lemma ChainStartsAndEnds(s: State, k: nat, x: Submission, y: Submission, o: Order, p: Order, id: string,
                           v: seq<Submission>, g: string)
    requires o.look < o.build < o.finish < p.look < p.build < p.finish
    ensures k <= o.look && Stored(s, id, v, g) ==> Chained(s, k, x, y, o, p, id, v, g)
    ensures p.finish < k && Chained(s, k, x, y, o, p, id, v, g) ==>
              var g' := Lexicographic.Max(Lexicographic.Max(g, SeverityOf(x.alert)), SeverityOf(y.alert));
              Stored(s, id, v + ([x] + [y]), g')
  {
    assert v + [x] + [y] == v + ([x] + [y]);
  }

  lemma ChainGoesOn(window: Time, x: Submission, y: Submission, o: Order, p: Order, id: string, v: seq<Submission>,
                    g: string)
    requires o.finish < p.look
    ensures forall s: State, step: Step, k: nat
              | Goes(s, step, window, k, x, y, o, p, id) && Chained(s, k, x, y, o, p, id, v, g) ::
              Chained(Next(s, step, window), k + 1, x, y, o, p, id, v, g)
  {
    forall s: State, step: Step, k: nat
      | Goes(s, step, window, k, x, y, o, p, id) && Chained(s, k, x, y, o, p, id, v, g)
      ensures Chained(Next(s, step, window), k + 1, x, y, o, p, id, v, g)
    {
      ChainedStep(s, step, window, k, x, y, o, p, id, v, g);
    }
  }

  lemma OneAfterTheOther(steps: seq<Step>, window: Time, n: nat, x: Submission, y: Submission, o: Order, p: Order,
                         id: string, v: seq<Submission>, g: string)
    requires TwoCallRun(steps, window, n, x, y, o, p, id) && Possible(steps[..n], window) && o.finish < p.look
    requires Chained(After(steps[..n], window), n, x, y, o, p, id, v, g)
    ensures Chained(After(steps, window), |steps|, x, y, o, p, id, v, g)
  {
    var inv := (s: State, k: nat) => Chained(s, k, x, y, o, p, id, v, g);
    ChainGoesOn(window, x, y, o, p, id, v, g);
    RunKeeps(steps, window, n, x, y, o, p, id, inv);
  }

  // ---- Both calls look the incident up before either has saved ----

  /** The slice that both find, and whether its array has a free cell behind it. */
  ghost predicate Intact(s: State, id: string, l: Slice, roomy: bool, v: seq<Submission>) {
    && InHeap(s.heap, l) && View(s.heap, l) == v && (l.len < |s.heap[l.arr]| <==> roomy)
    && l.arr < |s.owners| && s.owners[l.arr].id == id
  }

  ghost predicate Sees(x: Held, id: string, l: Slice, g: string) {
    x.slice == l && x.meta.id == id && x.meta.severity == g
  }

  ghost predicate HasFound(s: State, c: nat, id: string, l: Slice, g: string) {
    c in s.calls && s.calls[c].Looked? && s.calls[c].found.Some? && Sees(s.calls[c].found.value, id, l, g)
  }

  /** What the second saver has made: in a shared array its cell holds what was written last. */
  ghost predicate Wins(s: State, h: Held, id: string, l: Slice, roomy: bool, w: seq<Submission>, g: string) {
    Shows(s, h, id, w, g) && (roomy ==> h.slice == Slice(l.arr, l.len + 1))
  }

  /** `x` saves before `y`. */
  ghost predicate Racing(s: State, k: nat, x: Submission, y: Submission, o: Order, p: Order, id: string,
                         l: Slice, roomy: bool, v: seq<Submission>, g: string) {
    var w := v + [if roomy && p.build < o.build < k then x else y];
    var g' := Lexicographic.Max(g, SeverityOf(y.alert));
    && Intact(s, id, l, roomy, v)
    && (k <= o.look || k <= p.look ==> id in s.store && Sees(s.store[id], id, l, g))
    && (o.look < k <= o.build ==> HasFound(s, x.call, id, l, g))
    && (p.look < k <= p.build ==> HasFound(s, y.call, id, l, g))
    && (p.build < k <= p.finish ==>
          y.call in s.calls && s.calls[y.call].Built? && Wins(s, s.calls[y.call].held, id, l, roomy, w, g'))
    && (p.finish < k ==> id in s.store && Wins(s, s.store[id], id, l, roomy, w, g'))
  }

  lemma BuildKeepsIntact(s: State, c: nat, drawn: string, topology: Option<TopologySlice>, spare: nat, id: string,
                         l: Slice, roomy: bool, v: seq<Submission>, g: string)
    requires Safe(s) && HasFound(s, c, id, l, g) && Intact(s, id, l, roomy, v)
    ensures Intact(BuildStep(s, c, drawn, topology, spare), id, l, roomy, v)
  {
    AppendKeeps(s.heap, l, Submission(c, s.calls[c].alert), spare, l);
  }

  lemma BuildWins(s: State, c: nat, drawn: string, topology: Option<TopologySlice>, spare: nat, id: string,
                  l: Slice, roomy: bool, v: seq<Submission>, g: string)
    requires Safe(s) && HasFound(s, c, id, l, g) && Intact(s, id, l, roomy, v)
    ensures var x, s' := Submission(c, s.calls[c].alert), BuildStep(s, c, drawn, topology, spare);
            && c in s'.calls && s'.calls[c].Built?
            && Wins(s', s'.calls[c].held, id, l, roomy, v + [x], Lexicographic.Max(g, SeverityOf(x.alert)))
  {
    AppendAppends(s.heap, l, Submission(c, s.calls[c].alert), spare);
  }

  /** An append behind the same slice overwrites what another one wrote, if the array is shared. */
  lemma BuildOverwrites(s: State, c: nat, drawn: string, topology: Option<TopologySlice>, spare: nat, id: string,
                        l: Slice, roomy: bool, v: seq<Submission>, g: string, h: Held, z: Submission, g': string)
    requires Safe(s) && HasFound(s, c, id, l, g) && Intact(s, id, l, roomy, v)
    requires Wins(s, h, id, l, roomy, v + [z], g')
    ensures var x := Submission(c, s.calls[c].alert);
            Wins(BuildStep(s, c, drawn, topology, spare), h, id, l, roomy, v + [if roomy then x else z], g')
  {
    var x := Submission(c, s.calls[c].alert);
    AppendKeeps(s.heap, l, x, spare, h.slice);
    if roomy {
      AppendAppends(s.heap, l, x, spare);
    }
  }

  lemma IntactStays(s: State, step: Step, window: Time, id: string, l: Slice, roomy: bool, v: seq<Submission>)
    requires Safe(s) && Machine.Enabled(s, step, window) && (step.Build? ==> !Touches(s, step, id))
    requires Intact(s, id, l, roomy, v)
    ensures Intact(Next(s, step, window), id, l, roomy, v)
  {
    HeapElsewhere(s, step, window, id);
  }

  lemma WinsStays(s: State, step: Step, window: Time, id: string, l: Slice, roomy: bool, h: Held, w: seq<Submission>,
                  g: string)
    requires Safe(s) && Machine.Enabled(s, step, window) && (step.Build? ==> !Touches(s, step, id))
    requires Wins(s, h, id, l, roomy, w, g)
    ensures Wins(Next(s, step, window), h, id, l, roomy, w, g)
  {
    HeapElsewhere(s, step, window, id);
    ShowsStill(s, Next(s, step, window), h, id, w, g);
  }

  /** A step of neither call. */
  lemma RacingAside(s: State, step: Step, window: Time, k: nat, x: Submission, y: Submission, o: Order, p: Order,
                    id: string, l: Slice, roomy: bool, v: seq<Submission>, g: string)
    requires Goes(s, step, window, k, x, y, o, p, id) && Racing(s, k, x, y, o, p, id, l, roomy, v, g)
    requires k != o.look && k != o.build && k != o.finish && k != p.look && k != p.build && k != p.finish
    ensures Racing(Next(s, step, window), k + 1, x, y, o, p, id, l, roomy, v, g)
  {
    var w := v + [if roomy && p.build < o.build < k then x else y];
    var g' := Lexicographic.Max(g, SeverityOf(y.alert));
    IntactStays(s, step, window, id, l, roomy, v);
    StoreElsewhere(s, step, window, id);
    if o.look < k <= o.build {
      FrameElsewhere(s, step, window, x.call);
    }
    if p.look < k <= p.finish {
      FrameElsewhere(s, step, window, y.call);
    }
    if p.build < k <= p.finish {
      WinsStays(s, step, window, id, l, roomy, s.calls[y.call].held, w, g');
    } else if p.finish < k {
      WinsStays(s, step, window, id, l, roomy, s.store[id], w, g');
    }
  }

  lemma RacingLook(s: State, step: Step, window: Time, k: nat, x: Submission, y: Submission, o: Order, p: Order,
                   id: string, l: Slice, roomy: bool, v: seq<Submission>, g: string)
    requires Goes(s, step, window, k, x, y, o, p, id) && Racing(s, k, x, y, o, p, id, l, roomy, v, g)
    requires p.look < o.finish < p.finish && (k == o.look || k == p.look)
    ensures Racing(Next(s, step, window), k + 1, x, y, o, p, id, l, roomy, v, g)
  {
    var w := v + [if roomy && p.build < o.build < k then x else y];
    var g' := Lexicographic.Max(g, SeverityOf(y.alert));
    IntactStays(s, step, window, id, l, roomy, v);
    if k == o.look && p.look < k <= p.finish {
      FrameElsewhere(s, step, window, y.call);
    }
    if k == p.look && o.look < k <= o.build {
      FrameElsewhere(s, step, window, x.call);
    }
    if p.build < k <= p.finish {
      WinsStays(s, step, window, id, l, roomy, s.calls[y.call].held, w, g');
    }
  }

  lemma RacingFirstBuild(s: State, step: Step, window: Time, k: nat, x: Submission, y: Submission, o: Order, p: Order,
                         id: string, l: Slice, roomy: bool, v: seq<Submission>, g: string)
    requires Goes(s, step, window, k, x, y, o, p, id) && Racing(s, k, x, y, o, p, id, l, roomy, v, g)
    requires p.look < o.finish < p.finish && k == o.build
    ensures Racing(Next(s, step, window), k + 1, x, y, o, p, id, l, roomy, v, g)
  {
    var w := v + [if roomy && p.build < o.build < k then x else y];
    var g' := Lexicographic.Max(g, SeverityOf(y.alert));
    BuildKeepsIntact(s, x.call, step.id, step.topology, step.spare, id, l, roomy, v, g);
    StoreElsewhere(s, step, window, id);
    if p.look < k <= p.finish {
      FrameElsewhere(s, step, window, y.call);
    }
    if p.build < k {
      BuildOverwrites(s, x.call, step.id, step.topology, step.spare, id, l, roomy, v, g, s.calls[y.call].held, y, g');
    }
  }

  lemma RacingSecondBuild(s: State, step: Step, window: Time, k: nat, x: Submission, y: Submission, o: Order,
                          p: Order, id: string, l: Slice, roomy: bool, v: seq<Submission>, g: string)
    requires Goes(s, step, window, k, x, y, o, p, id) && Racing(s, k, x, y, o, p, id, l, roomy, v, g)
    requires p.look < o.finish < p.finish && k == p.build
    ensures Racing(Next(s, step, window), k + 1, x, y, o, p, id, l, roomy, v, g)
  {
    BuildKeepsIntact(s, y.call, step.id, step.topology, step.spare, id, l, roomy, v, g);
    BuildWins(s, y.call, step.id, step.topology, step.spare, id, l, roomy, v, g);
    StoreElsewhere(s, step, window, id);
    if o.look < k <= o.build {
      FrameElsewhere(s, step, window, x.call);
    }
  }

  lemma RacingFirstFinish(s: State, step: Step, window: Time, k: nat, x: Submission, y: Submission, o: Order,
                          p: Order, id: string, l: Slice, roomy: bool, v: seq<Submission>, g: string)
    requires Goes(s, step, window, k, x, y, o, p, id) && Racing(s, k, x, y, o, p, id, l, roomy, v, g)
    requires p.look < o.finish < p.finish && k == o.finish
    ensures Racing(Next(s, step, window), k + 1, x, y, o, p, id, l, roomy, v, g)
  {
    var w := v + [if roomy && p.build < o.build < k then x else y];
    var g' := Lexicographic.Max(g, SeverityOf(y.alert));
    IntactStays(s, step, window, id, l, roomy, v);
    FrameElsewhere(s, step, window, y.call);
    if p.build < k {
      WinsStays(s, step, window, id, l, roomy, s.calls[y.call].held, w, g');
    }
  }

  lemma RacingSecondFinish(s: State, step: Step, window: Time, k: nat, x: Submission, y: Submission, o: Order,
                           p: Order, id: string, l: Slice, roomy: bool, v: seq<Submission>, g: string)
    requires Goes(s, step, window, k, x, y, o, p, id) && Racing(s, k, x, y, o, p, id, l, roomy, v, g)
    requires p.look < o.finish < p.finish && k == p.finish
    ensures Racing(Next(s, step, window), k + 1, x, y, o, p, id, l, roomy, v, g)
  {
    var w := v + [if roomy && p.build < o.build < k then x else y];
    var g' := Lexicographic.Max(g, SeverityOf(y.alert));
    IntactStays(s, step, window, id, l, roomy, v);
    WinsStays(s, step, window, id, l, roomy, s.calls[y.call].held, w, g');
  }

  lemma RacingStep(s: State, step: Step, window: Time, k: nat, x: Submission, y: Submission, o: Order, p: Order,
                   id: string, l: Slice, roomy: bool, v: seq<Submission>, g: string)
    requires Goes(s, step, window, k, x, y, o, p, id) && Racing(s, k, x, y, o, p, id, l, roomy, v, g)
    requires p.look < o.finish < p.finish
    ensures Racing(Next(s, step, window), k + 1, x, y, o, p, id, l, roomy, v, g)
  {
    if k == o.look || k == p.look {
      RacingLook(s, step, window, k, x, y, o, p, id, l, roomy, v, g);
    } else if k == o.build {
      RacingFirstBuild(s, step, window, k, x, y, o, p, id, l, roomy, v, g);
    } else if k == p.build {
      RacingSecondBuild(s, step, window, k, x, y, o, p, id, l, roomy, v, g);
    } else if k == o.finish {
      RacingFirstFinish(s, step, window, k, x, y, o, p, id, l, roomy, v, g);
    } else if k == p.finish {
      RacingSecondFinish(s, step, window, k, x, y, o, p, id, l, roomy, v, g);
    } else {
      RacingAside(s, step, window, k, x, y, o, p, id, l, roomy, v, g);
    }
  }

  lemma RaceGoesOn(window: Time, x: Submission, y: Submission, o: Order, p: Order, id: string,
                   l: Slice, roomy: bool, v: seq<Submission>, g: string)
    requires p.look < o.finish < p.finish
    ensures forall s: State, step: Step, k: nat
              | Goes(s, step, window, k, x, y, o, p, id) && Racing(s, k, x, y, o, p, id, l, roomy, v, g) ::
              Racing(Next(s, step, window), k + 1, x, y, o, p, id, l, roomy, v, g)
  {
    forall s: State, step: Step, k: nat
      | Goes(s, step, window, k, x, y, o, p, id) && Racing(s, k, x, y, o, p, id, l, roomy, v, g)
      ensures Racing(Next(s, step, window), k + 1, x, y, o, p, id, l, roomy, v, g)
    {
      RacingStep(s, step, window, k, x, y, o, p, id, l, roomy, v, g);
    }
  }

  lemma BothAtOnce(steps: seq<Step>, window: Time, n: nat, x: Submission, y: Submission, o: Order, p: Order, id: string,
                   l: Slice, roomy: bool, v: seq<Submission>, g: string)
    requires TwoCallRun(steps, window, n, x, y, o, p, id) && Possible(steps[..n], window)
    requires p.look < o.finish < p.finish
    requires Racing(After(steps[..n], window), n, x, y, o, p, id, l, roomy, v, g)
    ensures Racing(After(steps, window), |steps|, x, y, o, p, id, l, roomy, v, g)
  {
    var inv := (s: State, k: nat) => Racing(s, k, x, y, o, p, id, l, roomy, v, g);
    RaceGoesOn(window, x, y, o, p, id, l, roomy, v, g);
    RunKeeps(steps, window, n, x, y, o, p, id, inv);
  }
}
