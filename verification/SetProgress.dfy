/// Progress of `get_or_insert` in the step machine of SetProtocol. A call's own steps are counted
/// against the chain it scans: each one takes it past another node of its bucket, or on to the
/// compare-and-swap, and only a failed compare-and-swap sends it back.
///
/// `StepsAreBounded`: whatever the others do, a call that has not settled has taken no more than
/// (retries + 1) * (nodes in its bucket + 4) steps. `SoloSettles`: left alone, it settles within
/// twice that of one retry, from any state.

module SetProgress {
  import opened Counting
  import opened Nodes
  import opened Chains
  import opened SetProtocol

  // ---------- How far a call has come ----------

  /// The published nodes of bucket `b`.
  ghost function InBucket(t: Table, index: Index, b: nat): set<Ptr>
    requires NodesOk(t, index)
  {
    set p | p in t.nodes && Bucket(t, index, p) == b
  }

  /// Those that are not after cell `c`.
  ghost function PassedBy(t: Table, index: Index, c: Cell): (ps: set<Ptr>)
    requires NodesOk(t, index) && CellOk(t, c)
    ensures |ps| <= |InBucket(t, index, CellBucket(t, index, c))|
  {
    var ps := set p | p in t.nodes && Bucket(t, index, p) == CellBucket(t, index, c) && !Before(t, c, KeyAt(t, p));
    SubsetIsSmaller(ps, InBucket(t, index, CellBucket(t, index, c)));
    ps
  }

  /// How many nodes there are in the bucket of t's call.
  ghost function ChainLength(s: State, index: Index, t: Tid): nat
    requires NodesOk(s.table, index) && Offers(s, t) && s.calls[t].pc.node in s.table.heap
  {
    |InBucket(s.table, index, index(CallKey(s, t)))|
  }

  /// The steps of the current attempt.
  ghost function Done(s: State, index: Index, t: Tid): (n: nat)
    requires NodesOk(s.table, index) && Offers(s, t) && CallOk(s, index, t)
    ensures n <= ChainLength(s, index, t) + 3
  {
    var pc := s.calls[t].pc;
    if pc.LoadHead? then 0
    else if pc.Compare? then
      assert CellBucket(s.table, index, pc.prev) == index(CallKey(s, t));
      1 + |PassedBy(s.table, index, pc.prev)|
    else if pc.StoreNext? then ChainLength(s, index, t) + 2
    else ChainLength(s, index, t) + 3
  }

  /// The steps of a call, had every failed attempt gone through the whole chain.
  ghost function Work(s: State, index: Index, t: Tid): nat
    requires NodesOk(s.table, index) && Offers(s, t) && CallOk(s, index, t)
  {
    |s.calls[t].blames| * (ChainLength(s, index, t) + 4) + Done(s, index, t)
  }

  lemma Offering(s: State, index: Index, t: Tid)
    requires Inv(s, index) && Offers(s, t)
    ensures NodesOk(s.table, index) && CallOk(s, index, t) && s.calls[t].pc.node in s.table.heap
  {
    assert CallOk(s, index, t);
  }

  // ---------- Its own steps ----------

  /// Going on from `curr` to its `next` field passes `curr`.
  lemma MovingPasses(t: Table, index: Index, prev: Cell, curr: Ptr)
    requires WellFormed(t, index) && CellOk(t, prev) && curr in t.nodes
    requires Bucket(t, index, curr) == CellBucket(t, index, prev) && Before(t, prev, KeyAt(t, curr))
    ensures |PassedBy(t, index, Next(curr))| > |PassedBy(t, index, prev)|
  {
    var ps, qs := PassedBy(t, index, prev), PassedBy(t, index, Next(curr));
    assert ps <= qs && curr in qs && curr !in ps;
    SubsetIsSmaller(ps, qs - {curr});
  }

  lemma CompareGoesOn(s: State, index: Index, t: Tid)
    requires Inv(s, index) && Offers(s, t) && s.calls[t].pc.Compare?
    requires var s' := Step(s, index, Advance(t)); Offers(s', t) && CallOk(s', index, t) && NodesOk(s'.table, index)
    ensures CallOk(s, index, t) && Done(Step(s, index, Advance(t)), index, t) > Done(s, index, t)
  {
    hide PublicationsOk, HashesOk, Uncounted;
    Offering(s, index, t);
    var Compare(node, prev, curr) := s.calls[t].pc;
    if curr != NULL && Less(KeyAt(s.table, curr), KeyAt(s.table, node)) {
      MovingPasses(s.table, index, prev, curr);
    }
  }

  /// A step goes on within the attempt, or is the failed compare-and-swap at its end.
  lemma OwnStepGoesOn(s: State, index: Index, t: Tid)
    requires Inv(s, index) && Offers(s, t) && Offers(Step(s, index, Advance(t)), t)
    requires Inv(Step(s, index, Advance(t)), index)
    requires CallOk(s, index, t) && CallOk(Step(s, index, Advance(t)), index, t)
    requires ChainLength(Step(s, index, Advance(t)), index, t) == ChainLength(s, index, t)
    ensures var s' := Step(s, index, Advance(t)); var before, after := s.calls[t], s'.calls[t];
      if before.pc.TryCas? then
        |after.blames| == |before.blames| + 1 && after.pc.LoadHead?
      else
        |after.blames| == |before.blames| && Done(s', index, t) > Done(s, index, t)
  {
    if s.calls[t].pc.Compare? { CompareGoesOn(s, index, t); }
  }

  /// Each step of a call that goes on is work.
  lemma OwnStepWorks(s: State, index: Index, t: Tid)
    requires Inv(s, index) && Offers(s, t) && Offers(Step(s, index, Advance(t)), t)
    ensures var s' := Step(s, index, Advance(t));
      && Inv(s', index) && CallOk(s, index, t) && CallOk(s', index, t)
      && ChainLength(s', index, t) == ChainLength(s, index, t)
      && Work(s', index, t) > Work(s, index, t)
  {
    var s' := Step(s, index, Advance(t));
    hide Inv, Step, CallOk, ChainLength;
    StepKeepsInv(s, index, Advance(t));
    Offering(s, index, t);
    Offering(s', index, t);
    SameChain(s, index, t);
    OwnStepGoesOn(s, index, t);
    OneMoreRound(|s.calls[t].blames|, ChainLength(s, index, t) + 4);
  }

  lemma OneMoreRound(b: nat, n: nat)
    ensures (b + 1) * n == b * n + n
  {
  }

  /// A step after which a call is still unsettled publishes nothing.
  lemma StepOffers(s: State, index: Index, t: Tid)
    requires Inv(s, index) && Offers(s, t) && CallOk(s, index, t) && Offers(Step(s, index, Advance(t)), t)
    ensures var s' := Step(s, index, Advance(t));
      && s'.table.nodes == s.table.nodes && CallKey(s', t) == CallKey(s, t)
      && forall p :: p in s.table.heap ==> p in s'.table.heap && KeyAt(s'.table, p) == KeyAt(s.table, p)
  {
  }

  lemma SameChain(s: State, index: Index, t: Tid)
    requires Inv(s, index) && Offers(s, t) && CallOk(s, index, t)
    requires var s' := Step(s, index, Advance(t)); Offers(s', t) && Inv(s', index) && CallOk(s', index, t)
    ensures ChainLength(Step(s, index, Advance(t)), index, t) == ChainLength(s, index, t)
  {
    var s' := Step(s, index, Advance(t));
    StepOffers(s, index, t);
    assert forall p :: p in s.table.nodes ==> p in s.table.heap;
    hide Inv, Step, CallOk, CallKey, KeyAt;
    assert InBucket(s'.table, index, index(CallKey(s, t))) == InBucket(s.table, index, index(CallKey(s, t)));
  }

  // ---------- The others' steps ----------

  /// What others do takes nothing back: chains only get longer.
  lemma ChainsGrow(s: State, s': State, index: Index, t: Tid)
    requires NodesOk(s.table, index) && NodesOk(s'.table, index) && SameCall(s, s', t)
    requires CallOk(s, index, t) && CallOk(s', index, t)
    ensures ChainLength(s', index, t) >= ChainLength(s, index, t) && Done(s', index, t) >= Done(s, index, t)
  {
    hide BlamesOk;
    var b := index(CallKey(s, t));
    assert InBucket(s.table, index, b) <= InBucket(s'.table, index, b);
    SubsetIsSmaller(InBucket(s.table, index, b), InBucket(s'.table, index, b));
    if s.calls[t].pc.Compare? {
      var prev := s.calls[t].pc.prev;
      assert PassedBy(s.table, index, prev) <= PassedBy(s'.table, index, prev);
      SubsetIsSmaller(PassedBy(s.table, index, prev), PassedBy(s'.table, index, prev));
    }
  }

  lemma SameCallWorks(s: State, s': State, index: Index, t: Tid)
    requires NodesOk(s.table, index) && NodesOk(s'.table, index) && SameCall(s, s', t)
    requires CallOk(s, index, t) && CallOk(s', index, t)
    ensures Work(s', index, t) >= Work(s, index, t)
  {
    hide CallOk, ChainLength, Done;
    ChainsGrow(s, s', index, t);
    LongerRounds(|s.calls[t].blames|, ChainLength(s, index, t) + 4, ChainLength(s', index, t) + 4);
  }

  lemma OtherStepKeepsWork(s: State, index: Index, a: Action, t: Tid)
    requires Inv(s, index) && Enabled(s, a) && a.t != t && Offers(s, t)
    ensures var s' := Step(s, index, a);
      && Inv(s', index) && Offers(s', t) && CallOk(s, index, t) && CallOk(s', index, t)
      && Work(s', index, t) >= Work(s, index, t)
  {
    var s' := Step(s, index, a);
    hide Inv, Step, Enabled, CallOk, Work;
    StepKeepsInv(s, index, a);
    Offering(s, index, t);
    OtherStepKeepsCall(s, index, a, t);
    Offering(s', index, t);
    SameCallWorks(s, s', index, t);
  }

  /// t's call is where it was, and so is every published node.
  ghost predicate SameCall(s: State, s': State, t: Tid) {
    && Offers(s, t) && Offers(s', t) && s'.calls[t] == s.calls[t]
    && s.calls[t].pc.node in s.table.heap && s.calls[t].pc.node in s'.table.heap && CallKey(s', t) == CallKey(s, t)
    && s.table.nodes <= s'.table.nodes
    && (forall p :: p in s.table.nodes ==>
          p in s.table.heap && p in s'.table.heap && KeyAt(s'.table, p) == KeyAt(s.table, p))
  }

  lemma LongerRounds(b: nat, n: nat, m: nat)
    requires n <= m
    ensures b * n <= b * m
  {
  }

  lemma OtherStepKeepsCall(s: State, index: Index, a: Action, t: Tid)
    requires Inv(s, index) && Enabled(s, a) && a.t != t && Offers(s, t) && CallOk(s, index, t)
    ensures SameCall(s, Step(s, index, a), t)
  {
    if a.Advance? { assert CallOk(s, index, a.t); }
  }

  // ---------- Whole runs ----------

  /// Thread t's call has not settled in any state of the run.
  ghost predicate Unsettled(s: State, index: Index, actions: seq<Action>, t: Tid)
    requires Inv(s, index) && CanRun(s, index, actions)
    decreases |actions|
  {
    && Offers(s, t)
    && (actions != [] ==>
          (StepKeepsInv(s, index, actions[0]); Unsettled(Step(s, index, actions[0]), index, actions[1..], t)))
  }

  /// How many steps of the run are t's.
  function Own(actions: seq<Action>, t: Tid): nat {
    if actions == [] then 0 else One(actions[0].t == t) + Own(actions[1..], t)
  }

  lemma {:induction false} WorkIsDone(s: State, index: Index, actions: seq<Action>, t: Tid)
    requires Inv(s, index) && CanRun(s, index, actions) && Unsettled(s, index, actions, t)
    ensures var e := Run(s, index, actions);
      && Inv(e, index) && Offers(e, t) && CallOk(s, index, t) && CallOk(e, index, t)
      && Own(actions, t) + Work(s, index, t) <= Work(e, index, t)
    decreases |actions|
  {
    hide Inv, CallOk, Step, Enabled, Work;
    Offering(s, index, t);
    if actions != [] {
      var a := actions[0];
      StepKeepsInv(s, index, a);
      if a.t == t {
        CallingMeansAdvance(s, a, t);
        OwnStepWorks(s, index, t);
      } else {
        OtherStepKeepsWork(s, index, a, t);
      }
      WorkIsDone(Step(s, index, a), index, actions[1..], t);
    }
  }

  lemma CallingMeansAdvance(s: State, a: Action, t: Tid)
    requires Enabled(s, a) && a.t == t && Offers(s, t)
    ensures a == Advance(t)
  {
  }

  /// Whatever the others do: a call that has not settled has taken no more of its own steps than the
  /// chain it scans is long, and four, for each attempt; and its failed attempts are no more than
  /// other threads' insertions into its bucket since it began.
  lemma StepsAreBounded(s: State, index: Index, actions: seq<Action>, t: Tid)
    requires Inv(s, index) && CanRun(s, index, actions) && Unsettled(s, index, actions, t)
    ensures var e := Run(s, index, actions);
      && Inv(e, index) && Offers(e, t) && CallOk(e, index, t)
      && Own(actions, t) < (|e.calls[t].blames| + 1) * (ChainLength(e, index, t) + 4)
      && |e.calls[t].blames| <= |Rivals(e, index, t)|
  {
    hide Inv, CanRun, Unsettled, CallOk, ChainLength;
    WorkIsDone(s, index, actions, t);
    var e := Run(s, index, actions);
    Offering(e, index, t);
    RetriesAreBounded(e, index, t);
    OneMoreRound(|e.calls[t].blames|, ChainLength(e, index, t) + 4);
  }

  // ---------- Alone ----------

  /// The cell still holds what the call read from it.
  ghost predicate Fresh(s: State, t: Tid)
    requires Offers(s, t)
  {
    var pc := s.calls[t].pc;
    pc.LoadHead? || (CellOk(s.table, pc.prev) && Load(s.table, pc.prev) == pc.curr)
  }

  /// A bound on the steps a call has still to take if nobody else takes any.
  ghost function Left(s: State, index: Index, t: Tid): nat
    requires NodesOk(s.table, index) && Offers(s, t) && CallOk(s, index, t)
  {
    var n := ChainLength(s, index, t) + 4;
    n - Done(s, index, t) + if Fresh(s, t) then 0 else n
  }

  /// What one reads alone stays as read, so only a stale compare-and-swap fails.
  lemma FreshStays(s: State, index: Index, t: Tid)
    requires Inv(s, index) && Offers(s, t) && Offers(Step(s, index, Advance(t)), t)
    ensures Fresh(s, t) ==> Fresh(Step(s, index, Advance(t)), t) && !s.calls[t].pc.TryCas?
    ensures s.calls[t].pc.TryCas? ==> Fresh(Step(s, index, Advance(t)), t)
  {
    Offering(s, index, t);
  }

  lemma SoloStep(s: State, index: Index, t: Tid)
    requires Inv(s, index) && Offers(s, t) && CallOk(s, index, t) && Offers(Step(s, index, Advance(t)), t)
    ensures var s' := Step(s, index, Advance(t));
      && Inv(s', index) && CallOk(s', index, t) && ChainLength(s', index, t) == ChainLength(s, index, t)
      && Left(s', index, t) < Left(s, index, t)
  {
    var s' := Step(s, index, Advance(t));
    hide Inv, Step, CallOk, ChainLength, Fresh;
    OwnStepWorks(s, index, t);
    FreshStays(s, index, t);
    OwnStepGoesOn(s, index, t);
  }

  function Times(n: nat, t: Tid): seq<Action> {
    seq(n, i => Advance(t))
  }

  /// Left alone, a call settles: within 2 * (nodes in its bucket) + 8 steps, with one answer, for
  /// its own key.
  lemma {:induction false} SoloSettles(s: State, index: Index, t: Tid) returns (n: nat)
    requires Inv(s, index) && Offers(s, t)
    ensures CallOk(s, index, t) && n <= Left(s, index, t) <= 2 * ChainLength(s, index, t) + 8
    ensures CanRun(s, index, Times(n, t)) && !Offers(Run(s, index, Times(n, t)), t)
    ensures AnsweredOnce(Run(s, index, Times(n, t)).results, |s.results|, t, CallKey(s, t))
    decreases if CallOk(s, index, t) then Left(s, index, t) else 0
  {
    hide Inv, Step, AnsweredOnce;
    Offering(s, index, t);
    var a, s' := Advance(t), Step(s, index, Advance(t));
    StepKeepsInv(s, index, a);
    n := 1;
    if Offers(s', t) {
      SoloStep(s, index, t);
      n := SoloSettles(s', index, t);
      n := n + 1;
    }
    assert Times(n, t)[0] == a && Times(n, t)[1..] == Times(n - 1, t);
    CallAnswersOnce(s, index, Times(n, t), t);
  }
}
