/// What a thread may rely on the others to do, derived from the step machines. The objects run one
/// thread's code against `LockFreeSet.Interfere`, `Manager.Others` and `Manager.Meanwhile`; the lemmas
/// here prove of every run of other threads what those three promise.

module Rely {
  import opened Counting
  import opened Nodes
  import opened Chains
  import opened Diagrams
  import opened UniqueTable
  import opened Operations
  import opened BddManager
  import S = SetProtocol
  import W = WholeRuns

  // ---------- LockFreeSet.Interfere ----------

  ghost function IndexOf(s: S.State): Index
    requires |s.table.heads| > 0
  {
    IndexFor(s.hash, |s.table.heads|)
  }

  /// The protocol's invariant, with the index the table uses.
  ghost predicate Running(s: S.State) {
    |s.table.heads| > 0 && S.Inv(s, IndexOf(s))
  }

  /// `mine` is a node that thread t has to itself, if it has one: offered by t, or kept for its next
  /// call.
  ghost predicate Private(s: S.State, t: S.Tid, mine: Ptr) {
    mine != NULL ==>
      && mine in s.table.heap && mine !in s.table.nodes
      && forall u :: S.Offers(s, u) && u != t ==> s.calls[u].pc.node != mine
  }

  /// A step of another thread, on a node of its own.
  predicate ByOther(a: S.Action, t: S.Tid, mine: Ptr) {
    a.t != t && (a.Begin? ==> a.node != mine)
  }

  lemma RunningIsReady(s: S.State)
    requires Running(s)
    ensures TableReady(s.table, s.hash)
  {
    forall p ensures CleanAt(s.table, p) {}
  }

  /// The private node a step works on, if any.
  ghost function OwnNode(s: S.State, a: S.Action): Ptr {
    if a.Begin? then a.node else if a.Advance? && S.Offers(s, a.t) then s.calls[a.t].pc.node else NULL
  }

  /// What a call's step may do to memory: write its own private node, publish it, and rewrite `next`
  /// fields.
  ghost predicate Effect(s: S.State, s': S.State, own: Ptr) {
    && s'.hash == s.hash && |s'.table.heads| == |s.table.heads|
    && s.table.nodes <= s'.table.nodes <= s.table.nodes + {own} && own !in s.table.nodes
    && (own in s'.table.nodes ==> own in s'.table.heap && s'.table.heap[own].refCnt >= 0)
    && (forall p :: p in s.table.nodes ==>
          && p in s.table.heap && p in s'.table.heap
          && s'.table.heap[p].(next := NULL) == s.table.heap[p].(next := NULL))
    && (forall p :: p in s.table.heap && p !in s.table.nodes && p != own ==>
          p in s'.table.heap && s'.table.heap[p] == s.table.heap[p])
  }

  lemma BeginHasEffect(s: S.State, index: Index, a: S.Action)
    requires S.Inv(s, index) && S.Enabled(s, a) && a.Begin?
    ensures Effect(s, S.Step(s, index, a), a.node)
  {
  }

  lemma AdvanceHasEffect(s: S.State, index: Index, a: S.Action)
    requires S.Inv(s, index) && S.Enabled(s, a) && a.Advance?
    ensures Effect(s, S.Step(s, index, a), OwnNode(s, a))
  {
    assert S.CallOk(s, index, a.t);
  }

  lemma StepHasEffect(s: S.State, index: Index, a: S.Action)
    requires S.Inv(s, index) && S.Enabled(s, a) && !a.Refer?
    ensures Effect(s, S.Step(s, index, a), OwnNode(s, a))
  {
    hide S.Inv, S.Step, S.Enabled, Effect;
    if a.Advance? {
      AdvanceHasEffect(s, index, a);
    } else {
      BeginHasEffect(s, index, a);
    }
  }

  // The references of the other threads, and how they stay apart from this one's.

  /// `refs` are references on published nodes, and the counts cover them, unless exempt.
  ghost predicate Covers(t: Table, exempt: set<Ptr>, refs: multiset<Ptr>) {
    && (forall p :: p in refs ==> p in t.nodes)
    && (forall p :: p in t.nodes && p !in exempt ==> CoveredAt(t, refs, p))
  }

  /// Other threads hold `theirs`. They drop no other references, except on what is exempt.
  predicate DropsItsOwn(a: S.Action, exempt: set<Ptr>, theirs: multiset<Ptr>) {
    a.Refer? && a.delta < 0 ==> a.p in exempt || a.p in theirs
  }

  function TheirsAfter(a: S.Action, theirs: multiset<Ptr>): multiset<Ptr> {
    if !a.Refer? then theirs else if a.delta > 0 then theirs + multiset{a.p} else theirs - multiset{a.p}
  }

  /// A step's effect on a published node, as far as keys go; and on other private nodes.
  ghost predicate Keeps(s: S.State, s': S.State, own: Ptr) {
    && s'.hash == s.hash && |s'.table.heads| == |s.table.heads|
    && (forall p :: KeyKept(s.table, s'.table, p))
    && (forall p :: p in s.table.heap && p !in s.table.nodes && p != own ==>
          p in s'.table.heap && p !in s'.table.nodes && s'.table.heap[p] == s.table.heap[p])
  }

  lemma EffectKeeps(s: S.State, s': S.State, own: Ptr, exempt: set<Ptr>, refs: multiset<Ptr>)
    requires Effect(s, s', own) && Covers(s.table, exempt, refs)
    ensures Keeps(s, s', own) && Covers(s'.table, exempt, refs)
  {
    forall p | p in s.table.nodes
      ensures KeyKept(s.table, s'.table, p) && s'.table.heap[p].refCnt == s.table.heap[p].refCnt
    {
      assert s'.table.heap[p].(next := NULL) == s.table.heap[p].(next := NULL);
    }
    forall p | p in s'.table.nodes && p !in exempt ensures CoveredAt(s'.table, refs, p) {
      if p in s.table.nodes { assert CoveredAt(s.table, refs, p); }
    }
  }

  lemma ReferKeeps(s: S.State, index: Index, a: S.Action, exempt: set<Ptr>, pinned: multiset<Ptr>,
      theirs: multiset<Ptr>)
    requires S.Inv(s, index) && S.Enabled(s, a) && a.Refer? && DropsItsOwn(a, exempt, theirs)
    requires Covers(s.table, exempt, pinned + theirs)
    ensures var s' := S.Step(s, index, a);
      Keeps(s, s', NULL) && Covers(s'.table, exempt, pinned + TheirsAfter(a, theirs))
  {
    var s', later := S.Step(s, index, a), pinned + TheirsAfter(a, theirs);
    forall p | p in s'.table.nodes && p !in exempt ensures CoveredAt(s'.table, later, p) {
      assert CoveredAt(s.table, pinned + theirs, p);
    }
  }

  lemma StepKeeps(s: S.State, a: S.Action, exempt: set<Ptr>, pinned: multiset<Ptr>, theirs: multiset<Ptr>)
    requires Running(s) && S.Enabled(s, a) && DropsItsOwn(a, exempt, theirs)
    requires Covers(s.table, exempt, pinned + theirs)
    ensures var s' := S.Step(s, IndexOf(s), a);
      Keeps(s, s', OwnNode(s, a)) && Covers(s'.table, exempt, pinned + TheirsAfter(a, theirs))
  {
    hide S.Inv, S.Step, S.Enabled, WellFormed, Keeps, Covers;
    if a.Refer? {
      ReferKeeps(s, IndexOf(s), a, exempt, pinned, theirs);
    } else {
      StepHasEffect(s, IndexOf(s), a);
      EffectKeeps(s, S.Step(s, IndexOf(s), a), OwnNode(s, a), exempt, pinned + theirs);
    }
  }

  /// What is covered in full is covered in part.
  lemma KeepsEvolves(s: S.State, s': S.State, own: Ptr, exempt: set<Ptr>, pinned: multiset<Ptr>, theirs: multiset<Ptr>)
    requires Keeps(s, s', own) && Covers(s'.table, exempt, pinned + theirs)
    ensures Evolves(s.table, s'.table, exempt, pinned)
  {
    forall p ensures CoverKept(s.table, s'.table, exempt, pinned, p) {
      if p in s'.table.nodes && p !in exempt { assert CoveredAt(s'.table, pinned + theirs, p); }
    }
  }

  /// Another thread's node is not `mine`, before and after its step.
  lemma OtherStepKeepsPrivate(s: S.State, index: Index, a: S.Action, t: S.Tid, mine: Ptr)
    requires S.Inv(s, index) && S.Enabled(s, a) && ByOther(a, t, mine) && Private(s, t, mine)
    ensures OwnNode(s, a) == mine ==> mine == NULL
    ensures mine != NULL ==> forall u ::
        S.Offers(S.Step(s, index, a), u) && u != t ==> S.Step(s, index, a).calls[u].pc.node != mine
  {
    if a.Advance? { assert S.CallOk(s, index, a.t); }
  }

  /// What one step of another thread does to the table, as `Interfere` promises it.
  lemma OtherStepEvolves(s: S.State, a: S.Action, t: S.Tid, mine: Ptr, exempt: set<Ptr>, pinned: multiset<Ptr>,
      theirs: multiset<Ptr>)
    requires Running(s) && S.Enabled(s, a) && ByOther(a, t, mine) && Private(s, t, mine)
    requires DropsItsOwn(a, exempt, theirs) && Covers(s.table, exempt, pinned + theirs)
    ensures var s' := S.Step(s, IndexOf(s), a);
      && Running(s') && TableReady(s'.table, s'.hash) && s'.hash == s.hash
      && Evolves(s.table, s'.table, exempt, pinned)
      && Covers(s'.table, exempt, pinned + TheirsAfter(a, theirs))
      && Private(s', t, mine) && (mine != NULL ==> s'.table.heap[mine] == s.table.heap[mine])
  {
    hide S.Inv, S.Step, S.Enabled, WellFormed, TableReady, Covers, Evolves;
    var s' := S.Step(s, IndexOf(s), a);
    S.StepKeepsInv(s, IndexOf(s), a);
    StepKeeps(s, a, exempt, pinned, theirs);
    KeepsEvolves(s, s', OwnNode(s, a), exempt, pinned, TheirsAfter(a, theirs));
    OtherStepKeepsPrivate(s, IndexOf(s), a, t, mine);
    RunningIsReady(s');
  }

  /// The step's thread offers a key that fits the diagram, if it offers one.
  ghost predicate OffersFitting(s: S.State, a: S.Action, d: Diagram) {
    a.Advance? && S.Offers(s, a.t) && s.calls[a.t].pc.node in s.table.heap ==> d.KeyFits(S.CallKey(s, a.t))
  }

  lemma StepGrowsDiagram(s: S.State, a: S.Action, d: Diagram)
    requires Running(s) && S.Enabled(s, a) && OffersFitting(s, a, d) && d.Ok() && d.g == View(s.table)
    ensures var s' := S.Step(s, IndexOf(s), a);
      && (forall p :: p in s'.table.nodes ==> p in s'.table.heap)
      && var d' := d.(g := View(s'.table)); d'.Ok() && Grows(d, d')
  {
    var s' := S.Step(s, IndexOf(s), a);
    S.StepIsAtomic(s, IndexOf(s), a);
    if View(s'.table) != View(s.table) {
      var r := s'.results[|s.results|];
      hide S.Inv, S.Step, S.Enabled, WellFormed, View;
      AddingKeepsOk(d, r.ptr, r.key);
    }
  }

  /// A run of other threads' steps: calls, each on a node of its own and offering keys that fit, and
  /// references taken and dropped, out of `theirs`.
  ghost predicate OthersRun(s: S.State, actions: seq<S.Action>, t: S.Tid, mine: Ptr, d: Diagram, theirs: multiset<Ptr>)
    decreases |actions|
  {
    && Running(s)
    && (actions != [] ==>
          && S.Enabled(s, actions[0]) && ByOther(actions[0], t, mine) && OffersFitting(s, actions[0], d)
          && DropsItsOwn(actions[0], d.Exempt(), theirs)
          && var s' := S.Step(s, IndexOf(s), actions[0]);
             && (forall p :: p in s'.table.nodes ==> p in s'.table.heap)
             && OthersRun(s', actions[1..], t, mine, d.(g := View(s'.table)), TheirsAfter(actions[0], theirs)))
  }

  ghost function After(s: S.State, actions: seq<S.Action>, t: S.Tid, mine: Ptr, d: Diagram, theirs: multiset<Ptr>)
    : S.State
    requires OthersRun(s, actions, t, mine, d, theirs)
    decreases |actions|
  {
    if actions == [] then s else
      var s' := S.Step(s, IndexOf(s), actions[0]);
      After(s', actions[1..], t, mine, d.(g := View(s'.table)), TheirsAfter(actions[0], theirs))
  }

  /// All that `LockFreeSet.Interfere` promises holds of every such run, if at its start the counts
  /// cover this thread's references and the others' together (`WholeRuns.CountOk`).
  lemma {:induction false} InterfereIsJustified(s: S.State, actions: seq<S.Action>, t: S.Tid, mine: Ptr, d: Diagram,
      pinned: multiset<Ptr>, theirs: multiset<Ptr>)
    requires OthersRun(s, actions, t, mine, d, theirs) && Private(s, t, mine)
    requires d.Ok() && (forall p :: p in s.table.nodes ==> p in s.table.heap) && d.g == View(s.table)
    requires Covers(s.table, d.Exempt(), pinned + theirs)
    ensures var e := After(s, actions, t, mine, d, theirs);
      && TableReady(e.table, e.hash) && e.hash == s.hash
      && Evolves(s.table, e.table, d.Exempt(), pinned)
      && Private(e, t, mine) && (mine != NULL ==> e.table.heap[mine] == s.table.heap[mine])
      && (forall p :: p in e.table.nodes ==> p in e.table.heap)
      && (actions == [] ==> e == s)
      && var d' := d.(g := View(e.table)); d'.Ok() && Grows(d, d')
    decreases |actions|
  {
    hide S.Inv, S.Step, S.Enabled, WellFormed, TableReady, View, Covers, Evolves;
    RunningIsReady(s);
    if actions != [] {
      var s', theirs' := S.Step(s, IndexOf(s), actions[0]), TheirsAfter(actions[0], theirs);
      OtherStepEvolves(s, actions[0], t, mine, d.Exempt(), pinned, theirs);
      StepGrowsDiagram(s, actions[0], d);
      InterfereIsJustified(s', actions[1..], t, mine, d.(g := View(s'.table)), pinned, theirs');
      EvolvesTransitively(s.table, s'.table, After(s, actions, t, mine, d, theirs).table, d.Exempt(), pinned);
    } else {
      NothingEvolves(s.table, d.Exempt(), pinned, theirs);
    }
  }

  lemma NothingEvolves(t: Table, exempt: set<Ptr>, pinned: multiset<Ptr>, theirs: multiset<Ptr>)
    requires (forall p :: p in t.nodes ==> p in t.heap) && Covers(t, exempt, pinned + theirs)
    ensures Evolves(t, t, exempt, pinned)
  {
  }

  // ---------- From the table to whole runs ----------

  /// A call offers its thread's spare node.
  ghost predicate OffersSpare(s: S.State, w: W.State, t: S.Tid) {
    S.Offers(s, t) ==> t in w.spares && w.spares[t] == s.calls[t].pc.node
  }

  /// The answer a call settles on is one step of WholeRuns, which treats the table as a set: finding
  /// the node when it was there, making it out of the spare when it was not; and it leaves the same
  /// set.
  lemma AnswerIsFindOrMake(s: S.State, a: S.Action, w: W.State, r: S.Result)
    requires Running(s) && S.Enabled(s, a) && S.Step(s, IndexOf(s), a).results == s.results + [r]
    requires (forall p :: p in s.table.nodes ==> p in s.table.heap) && w.d.g == View(s.table)
    requires OffersSpare(s, w, a.t)
    requires W.Touches(w, r.tid, r.key.low) && W.Touches(w, r.tid, r.key.high) && w.d.KeyFits(r.key)
    ensures var s' := S.Step(s, IndexOf(s), a);
            var step := if r.inserted then W.Make(r.tid, r.ptr, r.key) else W.Find(r.tid, r.ptr, r.key);
      && (forall p :: p in s'.table.nodes ==> p in s'.table.heap)
      && W.Enabled(w, step) && W.Step(w, step).d.g == View(s'.table)
      && W.Touches(W.Step(w, step), r.tid, r.ptr)
  {
    hide S.Inv, S.Step, S.Enabled, WellFormed, View;
    AnswerIsAtomic(s, a, r);
    AtomicIsFindOrMake(View(s.table), View(S.Step(s, IndexOf(s), a).table), w, r);
  }

  lemma AnswerIsAtomic(s: S.State, a: S.Action, r: S.Result)
    requires Running(s) && S.Enabled(s, a) && S.Step(s, IndexOf(s), a).results == s.results + [r]
    ensures S.Offers(s, a.t) && r.tid == a.t && (r.inserted ==> r.ptr == s.calls[a.t].pc.node)
    ensures var s' := S.Step(s, IndexOf(s), a);
      && (forall p :: p in s.table.nodes ==> p in s.table.heap)
      && (forall p :: p in s'.table.nodes ==> p in s'.table.heap)
      && S.Atomic(View(s.table), r, View(s'.table))
  {
    S.StepIsAtomic(s, IndexOf(s), a);
  }

  lemma AtomicIsFindOrMake(g: map<Ptr, Key>, g': map<Ptr, Key>, w: W.State, r: S.Result)
    requires S.Atomic(g, r, g') && w.d.g == g
    requires r.inserted ==> r.tid in w.spares && w.spares[r.tid] == r.ptr
    requires W.Touches(w, r.tid, r.key.low) && W.Touches(w, r.tid, r.key.high) && w.d.KeyFits(r.key)
    ensures var step := if r.inserted then W.Make(r.tid, r.ptr, r.key) else W.Find(r.tid, r.ptr, r.key);
      W.Enabled(w, step) && W.Step(w, step).d.g == g'
  {
  }

  // ---------- Manager.Others and Manager.Meanwhile ----------

  /// Thread t answers for `pinned`: for each, it or the manager holds as many references.
  ghost predicate AnswersFor(w: W.State, t: W.Tid, pinned: multiset<Ptr>) {
    forall p :: p in pinned ==> pinned[p] <= |W.MineOn(w, t, p)|
  }

  /// What is not exempt has a count that covers what t answers for.
  ghost predicate Counted(w: W.State, pinned: multiset<Ptr>) {
    forall p :: p in w.d.g && !W.Exempt(w.d, p) ==> p in w.counts && pinned[p] <= w.counts[p]
  }

  /// The node t has allocated is still t's, and still not in the table.
  ghost predicate SpareStays(w: W.State, e: W.State, t: W.Tid) {
    t in w.spares ==> t in e.spares && e.spares[t] == w.spares[t] && w.spares[t] !in e.d.g
  }

  lemma OthersKeepBooks(w: W.State, actions: seq<W.Action>, t: W.Tid, pinned: multiset<Ptr>)
    requires W.Inv(w) && W.CanRun(w, actions) && W.ByOthers(actions, t) && AnswersFor(w, t, pinned)
    ensures var e := W.Run(w, actions);
      W.Inv(e) && AnswersFor(e, t, pinned) && Counted(e, pinned) && SpareStays(w, e, t)
  {
    hide W.Inv, W.MineOn, W.Exempt;
    var e := W.Run(w, actions);
    W.RunKeepsInv(w, actions);
    W.RunKeepsTerminals(w, actions);
    if t in w.spares { W.OthersKeepSpare(w, actions, t); }
    forall p ensures p in pinned ==> pinned[p] <= |W.MineOn(e, t, p)| {
      W.MineStaysCounted(w, actions, t, p);
      SubsetIsSmaller(W.MineOn(w, t, p), W.MineOn(e, t, p));
    }
    forall p | p in e.d.g && !W.Exempt(e.d, p) ensures p in e.counts && pinned[p] <= e.counts[p] {
      SameExempt(w.d, e.d, p);
      W.MineStaysCounted(w, actions, t, p);
    }
  }

  lemma SameExempt(d: Diagram, e: Diagram, p: Ptr)
    requires d.f == e.f && d.t == e.t && d.n == e.n
    ensures W.Exempt(d, p) <==> W.Exempt(e, p)
  {
  }

  /// What `Manager.Others` promises of other threads while t holds its read guard: the diagram only
  /// grows, every cached answer is right, the references t answers for stay its own and counted, and
  /// its spare node stays private.
  lemma OthersIsJustified(w: W.State, actions: seq<W.Action>, t: W.Tid, pinned: multiset<Ptr>)
    requires W.Inv(w) && W.CanRun(w, actions) && W.ByOthers(actions, t) && W.StaysIn(w, actions, t)
    requires AnswersFor(w, t, pinned)
    ensures var e := W.Run(w, actions);
      && e.d.Ok() && Grows(w.d, e.d)
      && (forall c :: c in e.cache ==> Computes(e.d, c.op, c.x, c.y, c.r))
      && AnswersFor(e, t, pinned) && Counted(e, pinned) && SpareStays(w, e, t)
  {
    hide W.Inv, AnswersFor, Counted, SpareStays;
    W.GuardedTableOnlyGrows(w, actions, t);
    OthersKeepBooks(w, actions, t, pinned);
  }

  /// What `Manager.Meanwhile` promises while t holds no guard, collections included: whatever t
  /// answers for keeps its meaning, stays its own and counted; its spare node stays private; and
  /// whenever no collection is going on, as when t is let in, the table is a whole diagram and every
  /// cached answer is right.
  lemma MeanwhileIsJustified(w: W.State, actions: seq<W.Action>, t: W.Tid, pinned: multiset<Ptr>)
    requires W.Inv(w) && W.CanRun(w, actions) && W.ByOthers(actions, t)
    requires AnswersFor(w, t, pinned)
    ensures var e := W.Run(w, actions);
      && KeepsMeaning(W.Core(w), W.Core(e), pinned)
      && AnswersFor(e, t, pinned) && Counted(e, pinned) && SpareStays(w, e, t)
      && (e.phase.Idle? ==>
            e.d == W.Core(e) && e.d.Ok() && forall c :: c in e.cache ==> Computes(e.d, c.op, c.x, c.y, c.r))
  {
    hide W.Core, AnswersFor, Counted, SpareStays;
    OthersKeepBooks(w, actions, t, pinned);
    CoresAreOk(w, W.Run(w, actions));
    hide W.Inv;
    forall p | p in pinned
      ensures p in W.Core(w).g && p in W.Core(W.Run(w, actions)).g
      ensures Denotes(W.Core(W.Run(w, actions)), p) == Denotes(W.Core(w), p)
    {
      AnsweredIsHeld(w, t, pinned, p);
      W.MineSurvives(w, actions, t, p);
    }
    if W.Run(w, actions).phase.Idle? { W.IdleIsWhole(W.Run(w, actions)); }
  }

  lemma CoresAreOk(w: W.State, e: W.State)
    requires W.Inv(w) && W.Inv(e)
    ensures W.Core(w).Ok() && W.Core(e).Ok()
  {
  }

  lemma AnsweredIsHeld(w: W.State, t: W.Tid, pinned: multiset<Ptr>, p: Ptr)
    requires AnswersFor(w, t, pinned) && p in pinned
    ensures W.HeldBy(w, t, p)
  {
    assert W.MineOn(w, t, p) != {};
    var id :| id in W.MineOn(w, t, p);
  }
}
