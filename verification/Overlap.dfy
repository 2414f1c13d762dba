/**
 * What breaks when two calls on one incident overlap, and exactly when. Nothing below is about
 * quiet runs: it is why they are needed.
 */
module Overlap {
  import opened Wrappers
  import opened Domain
  import opened Correlation
  import opened Machine
  import opened TwoCalls
  import Lexicographic

  // ---- What two calls leave, in every order of their steps ----

  /** The array behind the stored incident has a free cell. */
  predicate Roomy(s: State, id: string)
    requires id in s.store
  {
    var b := s.store[id].slice;
    b.arr < |s.heap| && b.len < |s.heap[b.arr]|
  }

  lemma StartsStored(s: State, id: string)
    requires Safe(s) && id in s.store
    ensures var b := s.store[id];
            InHeap(s.heap, b.slice) && Stored(s, id, View(s.heap, b.slice), b.meta.severity)
            && Intact(s, id, b.slice, Roomy(s, id), View(s.heap, b.slice))
  {
    assert Sound(s, s.store[id]);
  }

  lemma ChainLeaves(steps: seq<Step>, window: Time, n: nat, x: Submission, y: Submission, o: Order, p: Order,
                    id: string, v: seq<Submission>, g: string)
    requires TwoCallRun(steps, window, n, x, y, o, p, id) && o.finish < p.look && p.finish < |steps|
    requires Possible(steps[..n], window) && Stored(After(steps[..n], window), id, v, g)
    ensures var g' := Lexicographic.Max(Lexicographic.Max(g, SeverityOf(x.alert)), SeverityOf(y.alert));
            Stored(After(steps, window), id, v + ([x] + [y]), g')
  {
    ChainStartsAndEnds(After(steps[..n], window), n, x, y, o, p, id, v, g);
    OneAfterTheOther(steps, window, n, x, y, o, p, id, v, g);
    ChainStartsAndEnds(After(steps, window), |steps|, x, y, o, p, id, v, g);
  }

  lemma RaceLeaves(steps: seq<Step>, window: Time, n: nat, x: Submission, y: Submission, o: Order, p: Order, id: string,
                   l: Slice, roomy: bool, v: seq<Submission>, g: string)
    requires TwoCallRun(steps, window, n, x, y, o, p, id) && p.look < o.finish < p.finish < |steps|
    requires Possible(steps[..n], window)
    requires var s := After(steps[..n], window);
             id in s.store && Sees(s.store[id], id, l, g) && Intact(s, id, l, roomy, v)
    ensures var w := v + [if roomy && p.build < o.build then x else y];
            Stored(After(steps, window), id, w, Lexicographic.Max(g, SeverityOf(y.alert)))
  {
    assert Racing(After(steps[..n], window), n, x, y, o, p, id, l, roomy, v, g);
    BothAtOnce(steps, window, n, x, y, o, p, id, l, roomy, v, g);
  }

  /** In a run of two calls, the second looks up before or after the first saves, not then. */
  lemma LookIsNotFinish(steps: seq<Step>, window: Time, n: nat, x: Submission, y: Submission, o: Order, p: Order,
                        id: string)
    requires TwoCallRun(steps, window, n, x, y, o, p, id) && o.finish < |steps|
    ensures p.look != o.finish
  {
    assert StepFits(steps[o.finish], o.finish, y.call, p, id) && StepFits(steps[o.finish], o.finish, x.call, o, id);
  }

  /**
   * What the incident holds when `x` and then `y` have saved, in whatever order they have
   * looked up and appended before. If `y` looked up only after that first save, both alerts.
   * Otherwise one alert: that of `y`; but if the array had a free cell, both appends went to
   * that cell, and it holds the alert of the call that appended last. The severity is always
   * that of `y`'s copy.
   */
  lemma TwoSavesLeave(steps: seq<Step>, window: Time, n: nat, x: Submission, y: Submission, o: Order, p: Order,
                      id: string)
    requires TwoCallRun(steps, window, n, x, y, o, p, id) && o.finish < p.finish < |steps|
    requires Possible(steps[..n], window) && id in After(steps[..n], window).store
    ensures var s, s' := After(steps[..n], window), After(steps, window);
            var b := s.store[id];
            && InHeap(s.heap, b.slice) && id in s'.store && InHeap(s'.heap, s'.store[id].slice)
            && View(s'.heap, s'.store[id].slice)
               == View(s.heap, b.slice) + (if o.finish < p.look then [x] + [y]
                                           else if Roomy(s, id) && p.build < o.build then [x] else [y])
            && s'.store[id].meta.severity
               == Lexicographic.Max(if o.finish < p.look then Lexicographic.Max(b.meta.severity, SeverityOf(x.alert))
                                    else b.meta.severity, SeverityOf(y.alert))
  {
    var s := After(steps[..n], window);
    var b := s.store[id];
    StartsStored(s, id);
    var v, g := View(s.heap, b.slice), b.meta.severity;
    LookIsNotFinish(steps, window, n, x, y, o, p, id);
    if o.finish < p.look {
      ChainLeaves(steps, window, n, x, y, o, p, id, v, g);
    } else {
      RaceLeaves(steps, window, n, x, y, o, p, id, b.slice, Roomy(s, id), v, g);
    }
  }

  lemma NothingWritten(s: State, c: nat, id: string)
    requires Safe(s) && id in s.store && (c in s.calls ==> !s.calls[c].Submitting())
    ensures InHeap(s.heap, s.store[id].slice) && forall z | z in View(s.heap, s.store[id].slice) :: z.call != c
  {
    var b := s.store[id].slice;
    assert Sound(s, s.store[id]);
    forall z | z in View(s.heap, b) ensures z.call != c {
      var i :| 0 <= i < b.len && View(s.heap, b)[i] == z;
      assert CellOk(s, s.owners[b.arr], s.heap[b.arr][i].value);
    }
  }

  lemma NotHeldYet(steps: seq<Step>, window: Time, n: nat, c: nat, look: nat, id: string)
    requires Possible(steps, window) && n <= look < |steps| && Possible(steps[..n], window)
    requires steps[look].Lookup? && steps[look].c == c && id in After(steps[..n], window).store
    ensures var s := After(steps[..n], window);
            InHeap(s.heap, s.store[id].slice) && forall z | z in View(s.heap, s.store[id].slice) :: z.call != c
  {
    NotSubmittingYet(steps, window, n, c, look);
    NothingWritten(After(steps[..n], window), c, id);
  }

  /**
   * The alert of the first to save is held in the end if and only if the second looked the
   * incident up after that save, or both appended into a free cell and the first to save
   * appended last. In this latter case, and in no other, the alert of the second is lost.
   */
  lemma FirstSurvivesIff(steps: seq<Step>, window: Time, n: nat, x: Submission, y: Submission, o: Order, p: Order,
                         id: string)
    requires TwoCallRun(steps, window, n, x, y, o, p, id) && o.finish < p.finish < |steps|
    requires Possible(steps[..n], window) && id in After(steps[..n], window).store
    ensures var s, s' := After(steps[..n], window), After(steps, window);
            && id in s'.store && InHeap(s'.heap, s'.store[id].slice)
            && var v := View(s'.heap, s'.store[id].slice);
               && (x in v <==> o.finish < p.look || (Roomy(s, id) && p.build < o.build))
               && (y in v <==> o.finish < p.look || !(Roomy(s, id) && p.build < o.build))
  {
    var s := After(steps[..n], window);
    TwoSavesLeave(steps, window, n, x, y, o, p, id);
    assert StepFits(steps[o.look], o.look, x.call, o, id) && StepFits(steps[p.look], p.look, y.call, p, id);
    NotHeldYet(steps, window, n, x.call, o.look, id);
    NotHeldYet(steps, window, n, y.call, p.look, id);
    InLast(View(s.heap, s.store[id].slice), x, y);
  }

  lemma InLast(v: seq<Submission>, x: Submission, y: Submission)
    requires x !in v && y !in v && x != y
    ensures x in v + ([x] + [y]) && y in v + ([x] + [y]) && x in v + [x] && y in v + [y]
    ensures x !in v + [y] && y !in v + [x]
  {
    assert (v + ([x] + [y]))[|v|] == x && (v + ([x] + [y]))[|v| + 1] == y && (v + [x])[|v|] == x && (v + [y])[|v|] == y;
  }

  /**
   * Both alerts are held if and only if the calls did not overlap; if they did, exactly one
   * is, and the severity of the first to save is not counted.
   */
  lemma OverlapLosesAnAlert(steps: seq<Step>, window: Time, n: nat, x: Submission, y: Submission, o: Order, p: Order,
                            id: string)
    requires TwoCallRun(steps, window, n, x, y, o, p, id) && o.finish < p.finish < |steps|
    requires Possible(steps[..n], window) && id in After(steps[..n], window).store
    ensures var s, s' := After(steps[..n], window), After(steps, window);
            && id in s'.store && InHeap(s'.heap, s'.store[id].slice)
            && var v := View(s'.heap, s'.store[id].slice);
               && (x in v && y in v <==> o.finish < p.look)
               && (p.look < o.finish ==>
                     && (x in v <==> y !in v)
                     && s'.store[id].meta.severity == Lexicographic.Max(s.store[id].meta.severity, SeverityOf(y.alert)))
  {
    TwoSavesLeave(steps, window, n, x, y, o, p, id);
    FirstSurvivesIff(steps, window, n, x, y, o, p, id);
    LookIsNotFinish(steps, window, n, x, y, o, p, id);
  }

  // ---- Copies that change without a save ----

  /**
   * An append changes what a copy shows if and only if the copy shares the array and reaches
   * past the slice appended to: then its cell there is overwritten, although nothing is saved.
   */
  lemma CopySurvivesBuildIff(s: State, d: nat, drawn: string, topology: Option<TopologySlice>, spare: nat, copy: Held)
    requires Safe(s) && Sound(s, copy) && d in s.calls && s.calls[d].Looked? && s.calls[d].found.Some?
    ensures InHeap(s.heap, s.calls[d].found.value.slice)
    ensures var b, s' := s.calls[d].found.value.slice, BuildStep(s, d, drawn, topology, spare);
            && s'.store == s.store && InHeap(s'.heap, copy.slice)
            && (View(s'.heap, copy.slice) == View(s.heap, copy.slice) <==>
                copy.slice.arr != b.arr || copy.slice.len <= b.len)
  {
    assert FrameOk(s, s.calls[d]);
    var b, x := s.calls[d].found.value.slice, Submission(d, s.calls[d].alert);
    AppendKeeps(s.heap, b, x, spare, copy.slice);
    if copy.slice.arr == b.arr && copy.slice.len > b.len {
      NotWritten(s, d, b.arr, b.len);
    }
  }
}
