/// What a collection frees, in the runs of WholeRuns: other threads take, hand on and drop references
/// while the collector visits one node after the other and then frees one after the other.
///
/// `CollectionFrees`: what is left at the end of a sweep is reached from nodes whose count was not
/// zero at some time during the collection, and includes what is reached from those whose count was
/// never zero. `CollectorFinishes`: from any state in which it gets in, a collector left alone
/// finishes, leaving exactly what nodes with non-zero count reach.

module Collections {
  import opened Counting
  import opened Nodes
  import opened Diagrams
  import opened WholeRuns
  import L = RwLock
  import opened Operations

  /// Thread t holds the write guard throughout.
  ghost predicate Collecting(s: State, actions: seq<Action>, t: Tid)
    requires CanRun(s, actions)
    decreases |actions|
  {
    Writing(s, t) && (actions != [] ==> Collecting(Step(s, actions[0]), actions[1..], t))
  }

  /// The count of `p` is not zero in some state of the run.
  ghost predicate EverCounted(s: State, actions: seq<Action>, p: Ptr)
    requires CanRun(s, actions)
    decreases |actions|
  {
    || (p in s.counts && s.counts[p] != 0)
    || (actions != [] && EverCounted(Step(s, actions[0]), actions[1..], p))
  }

  /// The count of `p` is not zero in any state of the run in which `p` has one.
  ghost predicate NeverZero(s: State, actions: seq<Action>, p: Ptr)
    requires CanRun(s, actions)
    decreases |actions|
  {
    && (p in s.counts ==> s.counts[p] != 0)
    && (actions != [] ==> NeverZero(Step(s, actions[0]), actions[1..], p))
  }

  ghost function Sometime(s: State, actions: seq<Action>): set<Ptr>
    requires CanRun(s, actions)
  {
    set p | p in s.d.g.Keys && EverCounted(s, actions, p)
  }

  ghost function Throughout(s: State, actions: seq<Action>): set<Ptr>
    requires CanRun(s, actions)
  {
    set p | p in s.d.g.Keys && NeverZero(s, actions, p)
  }

  /// What the collector has marked.
  function Marks(s: State): set<Ptr> {
    if s.phase.Marking? || s.phase.Sweeping? then s.phase.marked else {}
  }

  // ---------- What a step does to a collection ----------

  /// The mark a visit leaves.
  ghost predicate Visited(s: State, s': State, p: Ptr) {
    && s.phase.Marking? && s'.phase.Marking? && s.d.Ok() && p in s.d.g && p in s.counts
    && s'.phase.todo == s.phase.todo - {p}
    && s'.phase.marked ==
       if s.counts[p] != 0 && p !in s.phase.marked then s.phase.marked + Reach(s.d, p) else s.phase.marked
  }

  /// While a collector marks, the table stays; the marks change only by visits.
  ghost predicate MarkingGoesOn(s: State, s': State) {
    && s'.d == s.d
    && (|| s'.phase == s.phase
        || (exists p :: Visited(s, s', p))
        || (s.phase.Marking? && s.phase.todo == {} && s'.phase == Sweeping(s.d, s.phase.marked))
        || s'.phase.Clearing?)
  }

  /// While it sweeps, only unmarked nodes go.
  ghost predicate SweepingGoesOn(s: State, s': State) {
    && s.phase.Sweeping? && (s'.phase == s.phase || s'.phase.Clearing?)
    && s'.d.g.Keys <= s.d.g.Keys && (forall p :: p in s'.d.g ==> s'.d.g[p] == s.d.g[p])
    && (forall p :: p in s.phase.marked && p in s.d.g ==> p in s'.d.g)
  }

  /// Under a write guard that is held before and after the step.
  lemma CollectorStep(s: State, a: Action, t: Tid)
    requires Inv(s) && Enabled(s, a) && Writing(s, t) && Writing(Step(s, a), t)
    ensures s.phase.Marking? ==> MarkingGoesOn(s, Step(s, a))
    ensures s.phase.Sweeping? ==> SweepingGoesOn(s, Step(s, a))
    ensures s.phase.Clearing? ==> Step(s, a).phase.Clearing?
  {
    if a.Visit? || a.StartSweep? || a.StartGrow? || a.Free? || a.StartClear? {
      OwnStepGoesOn(s, a);
    } else {
      OtherStepGoesOn(s, a, t);
      hide Inv, Enabled, Step, Writing;
    }
  }

  /// A step of the collection itself.
  lemma OwnStepGoesOn(s: State, a: Action)
    requires Enabled(s, a) && (a.Visit? || a.StartSweep? || a.StartGrow? || a.Free? || a.StartClear?)
    ensures s.phase.Marking? ==> MarkingGoesOn(s, Step(s, a))
    ensures s.phase.Sweeping? ==> SweepingGoesOn(s, Step(s, a))
    ensures s.phase.Clearing? ==> Step(s, a).phase.Clearing?
  {
    hide Reach, Computes, L.Enabled, L.Step;
    if a.Visit? && s.phase.Marking? { assert Visited(s, Step(s, a), a.p); }
  }

  /// Any other step leaves table and phase alone.
  lemma OtherStepGoesOn(s: State, a: Action, t: Tid)
    requires Inv(s) && Enabled(s, a) && Writing(s, t) && Writing(Step(s, a), t)
    requires !(a.Visit? || a.StartSweep? || a.StartGrow? || a.Free? || a.StartClear?)
    ensures Step(s, a).phase == s.phase && Step(s, a).d == s.d
  {
    WriterIsIn(s, t);
    hide Inv, Reach, Computes;
    if !a.Forget? { NoReaders(s, t, a.t); }
    if a.Lock? && a.t != t { LockedOut(s, t, a.t); }
  }

  lemma WriterIsIn(s: State, t: Tid)
    requires Inv(s) && Writing(s, t)
    ensures LocksOk(s) && !s.phase.Idle?
  {
  }

  /// Nobody else gets in, or leaves.
  lemma LockedOut(s: State, t: Tid, u: Tid)
    requires LocksOk(s) && CanLock(s, u) && Writing(s, t) && u != t
    ensures LockStep(s, u).phase == s.phase && LockStep(s, u).d == s.d
  {
    hide L.Inv;
    L.GuardsExclude(s.lock, t, u);
  }

  // ---------- Runs under the write guard ----------

  lemma {:induction false} ClearingStays(s: State, actions: seq<Action>, t: Tid)
    requires Inv(s) && CanRun(s, actions) && Collecting(s, actions, t) && s.phase.Clearing?
    ensures Run(s, actions).phase.Clearing?
    decreases |actions|
  {
    hide Inv, Enabled, Step, Writing;
    if actions != [] {
      StepKeepsInv(s, actions[0]);
      CollectorStep(s, actions[0], t);
      ClearingStays(Step(s, actions[0]), actions[1..], t);
    }
  }

  /// From `s` to `e` a sweep went on.
  ghost predicate SweptOn(s: State, e: State) {
    && s.phase.Sweeping? && e.phase == s.phase
    && e.d.g.Keys <= s.d.g.Keys && (forall p :: p in e.d.g ==> e.d.g[p] == s.d.g[p])
  }

  lemma {:induction false} SweepRun(s: State, actions: seq<Action>, t: Tid)
    requires Inv(s) && CanRun(s, actions) && Collecting(s, actions, t) && s.phase.Sweeping?
    ensures var e := Run(s, actions); e.phase.Clearing? || SweptOn(s, e)
    decreases |actions|
  {
    hide Inv, Enabled, Step, Writing;
    if actions != [] {
      var s' := Step(s, actions[0]);
      StepKeepsInv(s, actions[0]);
      CollectorStep(s, actions[0], t);
      if s'.phase.Sweeping? { SweepRun(s', actions[1..], t); } else { ClearingStays(s', actions[1..], t); }
    }
  }

  /// Where a run has got that began while marking: still marking, on the same table, or sweeping
  /// what is left of it.
  ghost predicate CollectedOn(s: State, e: State) {
    || (e.phase.Marking? && e.d == s.d)
    || (e.phase.Sweeping? && e.phase.whole == s.d && e.d.g.Keys <= s.d.g.Keys
        && forall p :: p in e.d.g ==> e.d.g[p] == s.d.g[p])
  }

  /// What is marked is reached from something counted sometime.
  ghost predicate MarksReached(s: State, actions: seq<Action>)
    requires CanRun(s, actions) && s.d.Ok()
  {
    forall q :: q in Marks(Run(s, actions)) ==> q in Marks(s) || q in ReachAll(s.d, Sometime(s, actions))
  }

  /// What is counted throughout is waiting to be visited, or marked.
  ghost predicate Attended(s: State, p: Ptr) {
    (s.phase.Marking? && p in s.phase.todo) || p in Marks(s)
  }

  lemma MarkingStepReaches(s: State, a: Action, rest: seq<Action>, t: Tid)
    requires Inv(s) && Enabled(s, a) && s.phase.Marking? && s.d.Ok() && CanRun(Step(s, a), rest)
    requires MarkingGoesOn(s, Step(s, a)) && MarksReached(Step(s, a), rest)
    requires CanRun(s, [a] + rest) && Run(s, [a] + rest) == Run(Step(s, a), rest)
    requires ([a] + rest)[1..] == rest
    ensures MarksReached(s, [a] + rest)
  {
    hide Inv, Enabled, Step;
    var s', actions := Step(s, a), [a] + rest;
    forall p | p in Sometime(s', rest) ensures p in Sometime(s, actions) { assert EverCounted(s', actions[1..], p); }
    ReachAllMonotone(s.d, Sometime(s', rest), Sometime(s, actions));
    forall q | q in Marks(s') && q !in Marks(s) ensures q in ReachAll(s.d, Sometime(s, actions)) {
      var p :| Visited(s, s', p);
      assert EverCounted(s, actions, p) && q in Reach(s.d, p);
      ReachFacts(s.d, p);
    }
  }

  lemma MarkingStepAttends(s: State, s': State, p: Ptr)
    requires s.phase.Marking? && MarkingGoesOn(s, s') && !s'.phase.Clearing? && Attended(s, p)
    requires p in s.d.g && (p in s.counts ==> s.counts[p] != 0)
    ensures Attended(s', p)
  {
    if s'.phase != s.phase && s'.phase.Marking? {
      var v :| Visited(s, s', v);
      if v == p { ReachFacts(s.d, p); }
    }
  }

  lemma {:induction false} MarkRun(s: State, actions: seq<Action>, t: Tid)
    requires Inv(s) && CanRun(s, actions) && Collecting(s, actions, t) && s.phase.Marking? && s.d.Ok()
    ensures var e := Run(s, actions);
      e.phase.Clearing? ||
      (&& CollectedOn(s, e) && MarksReached(s, actions)
       && forall p :: p in Throughout(s, actions) && Attended(s, p) ==> Attended(e, p))
    decreases |actions|
  {
    hide Inv, Enabled, Step, Writing, Attended, MarkingGoesOn, MarksReached, Reach;
    if actions == [] {
      NothingMarked(s);
    } else {
      var a, rest, s' := actions[0], actions[1..], Step(s, actions[0]);
      assert actions == [a] + rest;
      StepKeepsInv(s, a);
      CollectorStep(s, a, t);
      GoesOnCases(s, s');
      if s'.phase.Clearing? {
        ClearingStays(s', rest, t);
      } else {
        if s'.phase.Marking? {
          MarkRun(s', rest, t);
        } else {
          SweepRun(s', rest, t);
          if !Run(s', rest).phase.Clearing? { SweepReaches(s', rest); }
        }
        if !Run(s, actions).phase.Clearing? {
          MarkingStepReaches(s, a, rest, t);
          forall p | p in Throughout(s, actions) && Attended(s, p) ensures Attended(Run(s, actions), p) {
            MarkingStepAttends(s, s', p);
            assert NeverZero(s', actions[1..], p);
            if s'.phase.Sweeping? { SweepAttends(s', Run(s, actions), p); }
          }
        }
      }
    }
  }

  lemma NothingMarked(s: State)
    requires s.d.Ok()
    ensures MarksReached(s, [])
  {
  }

  lemma GoesOnCases(s: State, s': State)
    requires s.phase.Marking? && MarkingGoesOn(s, s')
    ensures s'.d == s.d
    ensures s'.phase.Marking? || s'.phase.Clearing? || (s'.phase.Sweeping? && s'.phase.whole == s.d)
  {
  }

  lemma SweepReaches(s: State, actions: seq<Action>)
    requires CanRun(s, actions) && s.d.Ok() && SweptOn(s, Run(s, actions))
    ensures MarksReached(s, actions)
  {
  }

  lemma SweepAttends(s: State, e: State, p: Ptr)
    requires SweptOn(s, e) && Attended(s, p)
    ensures Attended(e, p)
  {
  }

  // ---------- What goes and what stays ----------

  /// From the step in which a collector gets in to the end of its sweep: every node still in the
  /// table is reached from one whose count was not zero at some time meanwhile; what is reached from
  /// nodes whose count never was zero is all there, as it was.
  lemma CollectionFrees(s: State, t: Tid, actions: seq<Action>)
    requires Inv(s) && Enabled(s, Lock(t)) && !Writing(s, t) && Writing(Step(s, Lock(t)), t)
    requires CanRun(Step(s, Lock(t)), actions) && Collecting(Step(s, Lock(t)), actions, t)
    requires Enabled(Run(Step(s, Lock(t)), actions), StartClear(t))
    ensures s.d.Ok()
    ensures var b := Step(s, Lock(t)); var e := Run(b, actions);
      && e.d.g.Keys <= ReachAll(s.d, Sometime(b, actions))
      && ReachAll(s.d, Throughout(b, actions)) <= e.d.g.Keys
      && forall p :: p in e.d.g ==> p in s.d.g && e.d.g[p] == s.d.g[p]
  {
    hide Inv, Step, Enabled, LockStep, CollectedOn, MarksReached, Attended, Reach, Throughout;
    var b := Step(s, Lock(t));
    CollectorEnters(s, t);
    MarkRun(b, actions, t);
    RunKeepsInv(b, actions);
    ClearingMeansSwept(Run(b, actions), t);
    SweepEnds(b, actions);
  }

  lemma ClearingMeansSwept(e: State, t: Tid)
    requires Enabled(e, StartClear(t))
    ensures e.phase.Sweeping? && e.d.g.Keys <= e.phase.marked
  {
    hide L.Enabled, Reach, Computes;
  }

  lemma SweepEnds(b: State, actions: seq<Action>)
    requires b.phase == Marking(b.d.g.Keys, {}) && b.d.Ok() && CanRun(b, actions)
    requires var e := Run(b, actions); Inv(e) && e.phase.Sweeping? && e.d.g.Keys <= e.phase.marked
    requires CollectedOn(b, Run(b, actions)) && MarksReached(b, actions)
    requires forall p :: p in Throughout(b, actions) && Attended(b, p) ==> Attended(Run(b, actions), p)
    ensures var e := Run(b, actions);
      && e.d.g.Keys <= ReachAll(b.d, Sometime(b, actions))
      && ReachAll(b.d, Throughout(b, actions)) <= e.d.g.Keys
      && forall p :: p in e.d.g ==> p in b.d.g && e.d.g[p] == b.d.g[p]
  {
    var e := Run(b, actions);
    MarkedStay(e);
    hide Inv, Reach, Throughout, Sometime;
    forall q | q in ReachAll(b.d, Throughout(b, actions)) ensures q in e.d.g {
      var p :| p in Throughout(b, actions) && p in b.d.g && q in Reach(b.d, p);
      assert Attended(b, p) && Attended(e, p);
    }
  }

  lemma CollectorEnters(s: State, t: Tid)
    requires Inv(s) && Enabled(s, Lock(t)) && !Writing(s, t) && Writing(Step(s, Lock(t)), t)
    ensures var b := Step(s, Lock(t));
      Inv(b) && b.phase == Marking(s.d.g.Keys, {}) && b.d == s.d && b.counts == s.counts && b.d.Ok()
  {
    hide Inv, Enabled, Step, LockStep;
    LockMeans(s, t);
    LockKeepsInv(s, t);
    EnteringMarks(s, t);
    MarkingIsOk(LockStep(s, t));
  }

  lemma EnteringMarks(s: State, t: Tid)
    requires CanLock(s, t) && !Writing(s, t) && Writing(LockStep(s, t), t)
    ensures LockStep(s, t) == s.(lock := L.Step(s.lock, L.Advance(t)), phase := Marking(s.d.g.Keys, {}))
  {
  }

  lemma LockMeans(s: State, t: Tid)
    requires Enabled(s, Lock(t))
    ensures CanLock(s, t) && Step(s, Lock(t)) == LockStep(s, t)
  {
    hide CanLock, LockStep;
  }

  lemma MarkingIsOk(s: State)
    requires Inv(s) && s.phase.Marking?
    ensures s.d.Ok()
  {
  }

  /// At the end of a sweep, what is marked is exactly what is there, closed under children.
  lemma MarkedStay(e: State)
    requires Inv(e) && e.phase.Sweeping?
    ensures e.phase.whole.Ok() && (forall p :: p in e.phase.marked ==> p in e.d.g)
    ensures forall p :: p in e.phase.marked && p in e.phase.whole.g ==> Reach(e.phase.whole, p) <= e.phase.marked
  {
  }

  // ---------- A collector left alone ----------

  /// The nodes with non-zero count.
  ghost function Counted(s: State): set<Ptr> {
    set p | p in s.d.g.Keys && p in s.counts && s.counts[p] != 0
  }

  /// Nobody but the collector acts.
  ghost predicate Quiet(actions: seq<Action>) {
    forall i :: 0 <= i < |actions| ==> IsCollectors(actions[i])
  }

  predicate IsCollectors(a: Action) {
    a.Visit? || a.StartSweep? || a.Free? || a.Forget?
  }

  lemma {:induction false} QuietCounts(s: State, actions: seq<Action>, p: Ptr)
    requires CanRun(s, actions) && Quiet(actions)
    ensures EverCounted(s, actions, p) ==> p in s.counts && s.counts[p] != 0
    ensures p in s.counts && s.counts[p] != 0 ==> NeverZero(s, actions, p)
    decreases |actions|
  {
    if actions != [] {
      var s' := Step(s, actions[0]);
      assert IsCollectors(actions[0]);
      assert forall i :: 0 <= i < |actions[1..]| ==> actions[1..][i] == actions[i + 1];
      assert p in s'.counts ==> p in s.counts && s'.counts[p] == s.counts[p];
      hide Enabled, Step;
      if p in s'.counts || p !in s.counts || s.counts[p] == 0 {
        QuietCounts(s', actions[1..], p);
      } else {
        GoneStaysGone(s', actions[1..], p);
      }
    }
  }

  /// A count that is gone does not come back while only the collector acts.
  lemma {:induction false} GoneStaysGone(s: State, actions: seq<Action>, p: Ptr)
    requires CanRun(s, actions) && Quiet(actions) && p !in s.counts
    ensures NeverZero(s, actions, p) && !EverCounted(s, actions, p)
    decreases |actions|
  {
    if actions != [] {
      assert IsCollectors(actions[0]);
      assert forall i :: 0 <= i < |actions[1..]| ==> actions[1..][i] == actions[i + 1];
      GoneStaysGone(Step(s, actions[0]), actions[1..], p);
    }
  }

  /// Then the table is exactly what nodes with non-zero count reach.
  lemma QuietCollectionIsExact(s: State, t: Tid, actions: seq<Action>)
    requires Inv(s) && Enabled(s, Lock(t)) && !Writing(s, t) && Writing(Step(s, Lock(t)), t)
    requires CanRun(Step(s, Lock(t)), actions) && Collecting(Step(s, Lock(t)), actions, t) && Quiet(actions)
    requires Enabled(Run(Step(s, Lock(t)), actions), StartClear(t))
    ensures s.d.Ok() && Run(Step(s, Lock(t)), actions).d.g.Keys == ReachAll(s.d, Counted(s))
  {
    hide Inv, Enabled, Step, LockStep, Quiet, ReachAll, Counted, Sometime, Throughout;
    var b := Step(s, Lock(t));
    CollectionFrees(s, t, actions);
    CollectorEnters(s, t);
    SameCounted(s, b);
    QuietRoots(b, actions);
    RootsReach(s.d, Counted(s), Throughout(b, actions));
    RootsReach(s.d, Sometime(b, actions), Counted(s));
  }

  lemma SameCounted(s: State, b: State)
    requires b.d == s.d && b.counts == s.counts
    ensures Counted(b) == Counted(s)
  {
  }

  lemma QuietRoots(s: State, actions: seq<Action>)
    requires CanRun(s, actions) && Quiet(actions)
    ensures Sometime(s, actions) <= Counted(s) <= Throughout(s, actions)
  {
    hide CanRun, EverCounted, NeverZero, Quiet;
    forall p | p in Counted(s) ensures p in Throughout(s, actions) { QuietCounts(s, actions, p); }
    forall p | p in Sometime(s, actions) ensures p in Counted(s) { QuietCounts(s, actions, p); }
  }

  lemma RootsReach(d: Diagram, roots: set<Ptr>, more: set<Ptr>)
    requires d.Ok() && roots <= more
    ensures ReachAll(d, roots) <= ReachAll(d, more)
  {
  }

  // ---------- A collector left alone finishes ----------

  /// How many steps it has still to take before it clears the caches.
  ghost function ToDo(s: State): nat {
    if s.phase.Marking? then |s.phase.todo| + 1 + |s.d.g.Keys|
    else if s.phase.Sweeping? then |s.d.g.Keys - s.phase.marked|
    else 0
  }

  lemma CanVisit(s: State, t: Tid, p: Ptr)
    requires Inv(s) && Writing(s, t) && s.phase.Marking? && p in s.phase.todo
    ensures Enabled(s, Visit(t, p))
    ensures var s' := Step(s, Visit(t, p));
      Writing(s', t) && s'.phase.Marking? && s'.phase.todo == s.phase.todo - {p} && s'.d == s.d
  {
    assert CountOk(s, p);
    hide Inv, Reach, Computes, L.Enabled, L.Step, HeldBy;
  }

  lemma CanStartSweep(s: State, t: Tid)
    requires Writing(s, t) && s.phase.Marking? && s.phase.todo == {}
    ensures Enabled(s, StartSweep(t))
    ensures var s' := Step(s, StartSweep(t));
      Writing(s', t) && s'.phase == Sweeping(s.d, s.phase.marked) && s'.d == s.d
  {
    hide Reach, Computes, L.Enabled, L.Step, HeldBy;
  }

  lemma CanFree(s: State, t: Tid, p: Ptr)
    requires Writing(s, t) && s.phase.Sweeping? && p in s.d.g && p !in s.phase.marked
    ensures Enabled(s, Free(t, p))
    ensures var s' := Step(s, Free(t, p));
      Writing(s', t) && s'.phase == s.phase && s'.d.g.Keys == s.d.g.Keys - {p}
  {
    hide Reach, Computes, L.Enabled, L.Step, HeldBy;
  }

  /// Its next step, if it has one.
  lemma NextStep(s: State, t: Tid) returns (a: Action)
    requires Inv(s) && Writing(s, t) && (s.phase.Marking? || s.phase.Sweeping?)
    requires s.phase.Sweeping? ==> !(s.d.g.Keys <= s.phase.marked)
    ensures Enabled(s, a) && IsCollectors(a) && !a.Forget?
    ensures var s' := Step(s, a);
      Writing(s', t) && (s'.phase.Marking? || s'.phase.Sweeping?) && ToDo(s') < ToDo(s)
  {
    hide Inv, Enabled, Step, Writing;
    if s.phase.Sweeping? {
      var p :| p in s.d.g.Keys && p !in s.phase.marked;
      a := Free(t, p);
      CanFree(s, t, p);
      assert Step(s, a).d.g.Keys - s.phase.marked == s.d.g.Keys - s.phase.marked - {p};
    } else if p :| p in s.phase.todo {
      a := Visit(t, p);
      CanVisit(s, t, p);
    } else {
      a := StartSweep(t);
      CanStartSweep(s, t);
      Sizes(s.d.g.Keys, s.phase.marked);
    }
  }

  lemma Sizes(a: set<Ptr>, b: set<Ptr>)
    ensures |a - b| <= |a|
  {
    SubsetIsSmaller(a - b, a);
  }

  lemma RunOne(s: State, a: Action, rest: seq<Action>)
    requires Enabled(s, a) && CanRun(Step(s, a), rest)
    ensures CanRun(s, [a] + rest) && Run(s, [a] + rest) == Run(Step(s, a), rest)
    ensures Quiet(rest) && IsCollectors(a) ==> Quiet([a] + rest)
    ensures forall t :: Writing(s, t) && Collecting(Step(s, a), rest, t) ==> Collecting(s, [a] + rest, t)
  {
    ThenRun(s, a, rest);
    hide Enabled, Step;
    assert ([a] + rest)[1..] == rest;
  }

  lemma {:induction false} SweepCanEnd(s: State, t: Tid) returns (actions: seq<Action>)
    requires Inv(s) && Writing(s, t) && (s.phase.Marking? || s.phase.Sweeping?)
    ensures CanRun(s, actions) && Quiet(actions) && Collecting(s, actions, t) && |actions| <= ToDo(s)
    ensures Enabled(Run(s, actions), StartClear(t))
    decreases ToDo(s)
  {
    hide Inv, Step, ToDo;
    if s.phase.Sweeping? && s.d.g.Keys <= s.phase.marked {
      actions := [];
    } else {
      var a := NextStep(s, t);
      StepKeepsInv(s, a);
      hide Enabled;
      var rest := SweepCanEnd(Step(s, a), t);
      RunOne(s, a, rest);
      actions := [a] + rest;
    }
  }

  lemma CanForget(s: State, t: Tid, c: Entry)
    requires Writing(s, t) && s.phase.Clearing? && c in s.cache
    ensures Enabled(s, Forget(c)) && Step(s, Forget(c)) == s.(cache := s.cache - {c})
  {
    hide Reach, Computes, L.Enabled, L.Step, HeldBy;
  }

  lemma CanLeave(s: State, t: Tid)
    requires Writing(s, t) && s.phase.Clearing? && s.cache == {}
    ensures Enabled(s, Lock(t))
    ensures var e := Step(s, Lock(t)); e.phase.Idle? && e.cache == {} && t !in e.lock.pcs && e.d == s.d
  {
    hide Reach, Computes, HeldBy;
  }

  /// The caches cleared, the collector leaves.
  lemma {:induction false} CollectorCanLeave(s: State, t: Tid) returns (actions: seq<Action>)
    requires Inv(s) && Writing(s, t) && s.phase.Clearing?
    ensures CanRun(s, actions)
    ensures var e := Run(s, actions); Inv(e) && e.phase.Idle? && e.cache == {} && t !in e.lock.pcs && e.d == s.d
    decreases |s.cache|
  {
    hide Inv, Enabled, Step, Quiet;
    if c :| c in s.cache {
      CanForget(s, t, c);
      StepKeepsInv(s, Forget(c));
      var rest := CollectorCanLeave(Step(s, Forget(c)), t);
      RunOne(s, Forget(c), rest);
      actions := [Forget(c)] + rest;
    } else {
      CanLeave(s, t);
      StepKeepsInv(s, Lock(t));
      RunOne(s, Lock(t), []);
      actions := [Lock(t)];
    }
  }

  /// A collector that gets in and is left alone ends its sweep, after at most two steps for each node
  /// and one, with exactly what nodes with non-zero count reach; and can then leave an idle manager.
  lemma CollectorFinishes(s: State, t: Tid) returns (collecting: seq<Action>, leaving: seq<Action>)
    requires Inv(s) && Enabled(s, Lock(t)) && !Writing(s, t) && Writing(Step(s, Lock(t)), t)
    ensures s.d.Ok() && CanRun(Step(s, Lock(t)), collecting) && |collecting| <= 2 * |s.d.g.Keys| + 1
    ensures Enabled(Run(Step(s, Lock(t)), collecting), StartClear(t))
    ensures CanRun(Step(Run(Step(s, Lock(t)), collecting), StartClear(t)), leaving)
    ensures var e := Run(Step(Run(Step(s, Lock(t)), collecting), StartClear(t)), leaving);
      && Inv(e) && e.phase.Idle? && e.cache == {} && t !in e.lock.pcs
      && e.d.g.Keys == ReachAll(s.d, Counted(s))
  {
    hide Inv, Enabled, Step, LockStep, ReachAll, Counted, Quiet;
    var b := Step(s, Lock(t));
    CollectorEnters(s, t);
    collecting := SweepCanEnd(b, t);
    QuietCollectionIsExact(s, t, collecting);
    var e := Run(b, collecting);
    RunKeepsInv(b, collecting);
    StepKeepsInv(e, StartClear(t));
    StartingToClear(e, t);
    leaving := CollectorCanLeave(Step(e, StartClear(t)), t);
  }

  lemma StartingToClear(e: State, t: Tid)
    requires Enabled(e, StartClear(t))
    ensures var c := Step(e, StartClear(t)); Writing(c, t) && c.phase.Clearing? && c.d == e.d
  {
    hide L.Enabled, L.Step, Reach, Computes;
  }
}
