/// Whole runs of the manager: any number of threads applying operations, referencing results,
/// handing references on, dropping them and collecting, in any interleaving. The lock is the state machine of
/// RwLock; the table is the atomic set that SetProtocol proves it to be; operations touch nodes one
/// at a time; a collector visits, frees and clears one item at a time, while other threads go on
/// dropping references.
///
/// `LiveNodesAreThere`: no node an operation can touch is freed, and no cached answer it can see
/// mentions a freed or reused address. `ReferencedNodesSurvive`: what is referenced keeps its meaning
/// until its reference is dropped.

module WholeRuns {
  import opened Counting
  import opened Nodes
  import opened Diagrams
  import opened Operations
  import L = RwLock

  type Tid = nat

  /// The manager's own references, on terminals and variables, belong to nobody who could drop them.
  datatype Owner = Manager | Client(t: Tid)

  /// One outstanding reference.
  datatype Token = Token(owner: Owner, node: Ptr)

  datatype Entry = Entry(op: Op, x: Ptr, y: Ptr, r: Ptr)

  /// The collector's progress. `whole` is the diagram before the sweep.
  datatype Phase =
    | Idle
    | Marking(todo: set<Ptr>, marked: set<Ptr>)
    | Sweeping(whole: Diagram, marked: set<Ptr>)
    | Clearing

  /// `works` has, for every thread in an operation, the addresses the operation may touch; `spares`,
  /// the address of the node a thread has allocated for its next `make_node`.
  datatype State = State(
    lock: L.State,
    d: Diagram,
    counts: map<Ptr, int>,
    tokens: map<nat, Token>,
    cache: set<Entry>,
    works: map<Tid, set<Ptr>>,
    spares: map<Tid, Ptr>,
    phase: Phase)

  datatype Action =
    // the lock: waiting for a guard, getting it, dropping it
    | BeginOp(t: Tid, operands: set<Ptr>)
    | BeginCollection(t: Tid)
    | Lock(t: Tid)
    | Spurious(t: Tid)
    // an operation under its read guard
    | Descend(t: Tid, p: Ptr, on: bool)
    | Find(t: Tid, p: Ptr, k: Key)
    | Allocate(t: Tid, p: Ptr)
    | Make(t: Tid, p: Ptr, k: Key)
    | Recall(t: Tid, e: Entry)
    | Remember(t: Tid, e: Entry)
    | Reference(t: Tid, r: Ptr, id: nat)
    | DropTerminal(t: Tid, p: Ptr)
    // any time
    | Forget(e: Entry)
    | Duplicate(t: Tid, p: Ptr, id: nat)
    | Give(t: Tid, to: Tid, id: nat)
    | Deref(t: Tid, id: nat)
    // a collector under its write guard
    | Visit(t: Tid, p: Ptr)
    | StartSweep(t: Tid)
    | StartGrow(t: Tid)
    | Free(t: Tid, p: Ptr)
    | StartClear(t: Tid)

  predicate Reading(s: State, t: Tid) {
    t in s.lock.pcs && s.lock.pcs[t].Reading? && t in s.works
  }

  predicate Writing(s: State, t: Tid) {
    t in s.lock.pcs && s.lock.pcs[t].Writing?
  }

  predicate Touches(s: State, t: Tid, p: Ptr) {
    Reading(s, t) && p in s.works[t]
  }

  /// Thread t may pass `p` to an operation: it, or the manager, holds a reference on it.
  predicate HeldBy(s: State, t: Tid, p: Ptr) {
    exists id ::
      && id in s.tokens && s.tokens[id].node == p
      && (s.tokens[id].owner == Manager || s.tokens[id].owner == Client(t))
  }

  predicate Exempt(d: Diagram, p: Ptr) {
    p in d.Exempt()
  }

  /// A thread drops and duplicates references between operations, or under a read guard, as
  /// `deserialize` does; not while it waits for one.
  predicate NotWaiting(s: State, t: Tid) {
    t !in s.works || Reading(s, t)
  }

  /// A collector leaves when the caches are clear.
  predicate CanLock(s: State, t: Tid) {
    L.Enabled(s.lock, L.Advance(t)) && (Writing(s, t) ==> s.phase.Clearing? && s.cache == {})
  }

  ghost predicate Enabled(s: State, a: Action) {
    match a
    case BeginOp(t, operands) => t !in s.lock.pcs && forall p :: p in operands ==> HeldBy(s, t, p)
    case BeginCollection(t) => t !in s.lock.pcs
    case Lock(t) => CanLock(s, t)
    case Spurious(t) => L.Enabled(s.lock, L.Spurious(t))
    case Descend(t, p, on) => Touches(s, t, p) && p in s.d.g && !s.d.Terminal(p)
    case Find(t, p, k) => Touches(s, t, k.low) && Touches(s, t, k.high) && p in s.d.g && s.d.g[p] == k
    case Make(t, p, k) =>
      && Touches(s, t, k.low) && Touches(s, t, k.high) && s.d.KeyFits(k) && k !in s.d.g.Values
      && t in s.spares && s.spares[t] == p
    case Allocate(t, p) =>
      // any address not in use, freed ones included
      Reading(s, t) && t !in s.spares && p != NULL && p !in s.d.g && p !in s.spares.Values
    case Recall(t, e) => e in s.cache && Touches(s, t, e.x) && Touches(s, t, e.y)
    case Remember(t, e) =>
      Touches(s, t, e.x) && Touches(s, t, e.y) && Touches(s, t, e.r) && Computes(s.d, e.op, e.x, e.y, e.r)
    case Reference(t, r, id) => Touches(s, t, r) && r in s.counts && id !in s.tokens
    // a reference nobody took: `deserialize` drops one on each terminal
    case DropTerminal(t, p) => Reading(s, t) && Exempt(s.d, p) && p in s.counts
    case Forget(e) => true
    case Duplicate(t, p, id) => NotWaiting(s, t) && HeldBy(s, t, p) && p in s.counts && id !in s.tokens
    case Give(t, to, id) => NotWaiting(s, t) && id in s.tokens && s.tokens[id].owner == Client(t)
    case Deref(t, id) =>
      && NotWaiting(s, t) && id in s.tokens
      && s.tokens[id].owner == Client(t) && s.tokens[id].node in s.counts
    case Visit(t, p) =>
      Writing(s, t) && s.phase.Marking? && p in s.phase.todo && p in s.counts && p in s.d.g && s.d.Ok()
    case StartSweep(t) => Writing(s, t) && s.phase.Marking? && s.phase.todo == {}
    case StartGrow(t) => Writing(s, t) && s.phase.Marking? && s.phase.todo == {}
    case Free(t, p) => Writing(s, t) && s.phase.Sweeping? && p in s.d.g && p !in s.phase.marked
    case StartClear(t) => Writing(s, t) && s.phase.Sweeping? && s.d.g.Keys <= s.phase.marked
  }

  function Touch(s: State, t: Tid, p: Ptr): State
    requires t in s.works
  {
    s.(works := s.works[t := s.works[t] + {p}])
  }

  function LockStep(s: State, t: Tid): State
    requires L.Enabled(s.lock, L.Advance(t))
  {
    var l := L.Step(s.lock, L.Advance(t));
    if s.lock.pcs[t].Reading? then s.(lock := l, works := s.works - {t})
    else if s.lock.pcs[t].Writing? then s.(lock := l, phase := Idle)
    else if t in l.pcs && l.pcs[t].Writing? then s.(lock := l, phase := Marking(s.d.g.Keys, {}))
    else s.(lock := l)
  }

  /// The state with one more reference by client `t`.
  function WithToken(s: State, t: Tid, r: Ptr, id: nat): State
    requires r in s.counts
  {
    s.(counts := s.counts[r := s.counts[r] + 1], tokens := s.tokens[id := Token(Client(t), r)])
  }

  /// The state with one reference in other hands.
  function Given(s: State, to: Tid, id: nat): State
    requires id in s.tokens
  {
    s.(tokens := s.tokens[id := s.tokens[id].(owner := Client(to))])
  }

  /// The state with one reference less.
  function WithoutToken(s: State, id: nat): State
    requires id in s.tokens && s.tokens[id].node in s.counts
  {
    var p := s.tokens[id].node;
    s.(counts := s.counts[p := s.counts[p] - 1], tokens := s.tokens - {id})
  }

  ghost function Step(s: State, a: Action): State
    requires Enabled(s, a)
  {
    match a
    case BeginOp(t, operands) => s.(lock := L.Step(s.lock, L.BeginRead(t)), works := s.works[t := operands])
    case BeginCollection(t) => s.(lock := L.Step(s.lock, L.BeginWrite(t)))
    case Lock(t) => LockStep(s, t)
    case Spurious(t) => s.(lock := L.Step(s.lock, L.Spurious(t)))
    case Descend(t, p, on) => Touch(s, t, if on then s.d.High(p) else s.d.Low(p))
    case Find(t, p, k) => Touch(s, t, p)
    case Allocate(t, p) => s.(spares := s.spares[t := p])
    case Make(t, p, k) =>
      Touch(s, t, p).(d := s.d.(g := s.d.g[p := k]), counts := s.counts[p := 0], spares := s.spares - {t})
    case Recall(t, e) => Touch(s, t, e.r)
    case Remember(t, e) => s.(cache := s.cache + {e})
    case Duplicate(t, p, id) => WithToken(s, t, p, id)
    case DropTerminal(t, p) => s.(counts := s.counts[p := s.counts[p] - 1])
    case Reference(t, r, id) => WithToken(s, t, r, id)
    case Forget(e) => s.(cache := s.cache - {e})
    case Give(t, to, id) => Given(s, to, id)
    case Deref(t, id) => WithoutToken(s, id)
    case Visit(t, p) =>
      var Marking(todo, marked) := s.phase;
      s.(phase := Marking(todo - {p}, if s.counts[p] != 0 && p !in marked then marked + Reach(s.d, p) else marked))
    case StartSweep(t) => s.(phase := Sweeping(s.d, s.phase.marked))
    case StartGrow(t) => s.(phase := Clearing)
    case Free(t, p) => s.(d := s.d.(g := s.d.g - {p}), counts := s.counts - {p})
    case StartClear(t) => s.(phase := Clearing)
  }

  // ---------- The invariant ----------

  /// The nodes that will be left when the collection in progress is over.
  ghost function Core(s: State): Diagram {
    if s.phase.Sweeping? then Restrict(s.phase.whole, s.phase.marked) else s.d
  }

  predicate IsReader(pc: L.PC) {
    pc.ReadLoad? || pc.ReadCas? || pc.Reading?
  }

  /// Operations are the readers; a collection is in progress exactly while a writer is in.
  ghost predicate LocksOk(s: State) {
    && L.Inv(s.lock)
    && (forall t :: t in s.works <==> t in s.lock.pcs && IsReader(s.lock.pcs[t]))
    && (s.phase.Idle? <==> forall t :: !Writing(s, t))
  }

  ghost function On(tokens: map<nat, Token>, p: Ptr): set<nat> {
    set id | id in tokens && tokens[id].node == p
  }

  /// Every node's count is the number of references on it, unless the node is exempt.
  ghost predicate CountOk(s: State, p: Ptr) {
    p in s.d.g ==> p in s.counts && (!Exempt(s.d, p) ==> s.counts[p] == |On(s.tokens, p)|)
  }

  ghost predicate TokenOk(s: State, id: nat) {
    id in s.tokens ==> s.tokens[id].node in Core(s).g && s.tokens[id].node in s.d.g
  }

  /// A waiting operation knows only its operands, which its thread cannot drop meanwhile.
  ghost predicate WorkOk(s: State, t: Tid) {
    t in s.works ==>
      && (forall p :: p in s.works[t] ==> p in Core(s).g)
      && (!Reading(s, t) ==> forall p :: p in s.works[t] ==> HeldBy(s, t, p))
  }

  /// Allocated nodes are their threads' alone, and not in the table.
  ghost predicate SparesOk(s: State) {
    && (forall t :: t in s.spares ==> s.spares[t] != NULL && s.spares[t] !in s.d.g)
    && (forall t, u :: t in s.spares && u in s.spares && t != u ==> s.spares[t] != s.spares[u])
  }

  ghost predicate EntryOk(d: Diagram, e: Entry) {
    Computes(d, e.op, e.x, e.y, e.r)
  }

  predicate MarkedOrExempt(d: Diagram, p: Ptr, marked: set<Ptr>) {
    p in marked || Exempt(d, p)
  }

  ghost predicate MarksClosed(d: Diagram, marked: set<Ptr>)
    requires d.Ok()
  {
    forall q :: q in marked ==> q in d.g && Reach(d, q) <= marked
  }

  /// While marking, a referenced node that has been visited is marked, and everything below marked
  /// nodes is. While sweeping, everything referenced is marked, and only unmarked nodes have gone.
  ghost predicate PhaseOk(s: State) {
    match s.phase
    case Marking(todo, marked) =>
      && s.d.Ok() && (forall q :: q in todo ==> q in s.d.g) && MarksClosed(s.d, marked)
      && (forall id :: id in s.tokens ==> s.tokens[id].node in todo || MarkedOrExempt(s.d, s.tokens[id].node, marked))
    case Sweeping(whole, marked) =>
      && whole.Ok() && Closed(whole, marked) && (whole.f, whole.t, whole.n) == (s.d.f, s.d.t, s.d.n)
      && (forall p :: p in s.d.g ==> p in whole.g && whole.g[p] == s.d.g[p])
      && (forall p :: p in marked ==> p in s.d.g)
    case _ => true
  }

  ghost predicate Based(s: State, p: Ptr) {
    exists id :: id in s.tokens && s.tokens[id] == Token(Manager, p)
  }

  /// The manager holds a variable, hence both terminals as its children.
  ghost predicate VariableHeld(s: State) {
    s.d.n > 0 ==> exists id :: id in s.tokens && IsVariable(s, id)
  }

  ghost predicate IsVariable(s: State, id: nat)
    requires id in s.tokens
  {
    && s.tokens[id].owner == Manager && s.tokens[id].node in Core(s).g
    && Core(s).g[s.tokens[id].node] == Key(0, s.d.f, s.d.t)
  }

  ghost predicate Inv(s: State) {
    && LocksOk(s)
    && Core(s).Ok()
    && PhaseOk(s)
    && (forall p :: CountOk(s, p))
    && (forall id :: TokenOk(s, id))
    && Based(s, s.d.f) && Based(s, s.d.t) && VariableHeld(s)
    && (forall t :: WorkOk(s, t))
    && SparesOk(s)
    && (s.phase.Idle? ==> forall e :: e in s.cache ==> EntryOk(s.d, e))
  }

  // ---------- Locking ----------

  /// While an operation is in, no collection is.
  lemma ReaderMeansIdle(s: State, t: Tid)
    requires LocksOk(s) && Reading(s, t)
    ensures s.phase.Idle?
  {
    if !s.phase.Idle? {
      var u :| Writing(s, u);
      L.GuardsExclude(s.lock, u, t);
    }
  }

  /// At most one collector is in.
  lemma OneWriter(s: State, t: Tid, u: Tid)
    requires LocksOk(s) && Writing(s, t) && Writing(s, u)
    ensures t == u
  {
    if t != u { L.GuardsExclude(s.lock, t, u); }
  }

  /// What a step of one thread leaves alone in the lock.
  lemma OthersStay(s: L.State, a: L.Action, u: Tid)
    requires L.Enabled(s, a) && u != a.t
    ensures u in L.Step(s, a).pcs <==> u in s.pcs
    ensures u in s.pcs ==> L.Step(s, a).pcs[u] == s.pcs[u]
  {
  }

  lemma LockKeepsReaders(s: State, t: Tid, u: Tid)
    requires CanLock(s, t) && (u in s.works <==> u in s.lock.pcs && IsReader(s.lock.pcs[u]))
    ensures var s' := LockStep(s, t); u in s'.works <==> u in s'.lock.pcs && IsReader(s'.lock.pcs[u])
  {
    if u != t { OthersStay(s.lock, L.Advance(t), u); }
  }

  lemma LockKeepsLocksOk(s: State, t: Tid)
    requires LocksOk(s) && CanLock(s, t)
    ensures LocksOk(LockStep(s, t))
  {
    hide L.Inv, IsReader;
    var s', a := LockStep(s, t), L.Advance(t);
    L.StepKeepsInv(s.lock, a);
    forall u ensures u in s'.works <==> u in s'.lock.pcs && IsReader(s'.lock.pcs[u]) { LockKeepsReaders(s, t, u); }
    forall u | u != t ensures Writing(s', u) <==> Writing(s, u) { OthersStay(s.lock, a, u); }
    if Writing(s, t) {
      forall u ensures !Writing(s', u) { if Writing(s, u) { OneWriter(s, t, u); } }
    } else if !Writing(s', t) {
      assert s'.phase == s.phase;
      assert forall u :: Writing(s', u) <==> Writing(s, u);
    }
  }

  lemma WaitingKeepsLocksOk(s: State, a: Action)
    requires LocksOk(s) && Enabled(s, a) && Waits(a)
    ensures LocksOk(Step(s, a))
  {
    var s' := Step(s, a);
    var la :=
      if a.BeginOp? then L.BeginRead(a.t)
      else if a.BeginCollection? then L.BeginWrite(a.t)
      else L.Spurious(a.t);
    L.StepKeepsInv(s.lock, la);
    forall u ensures u in s'.works <==> u in s'.lock.pcs && IsReader(s'.lock.pcs[u]) {
      if u != a.t { OthersStay(s.lock, la, u); }
    }
    forall u ensures Writing(s', u) <==> Writing(s, u) {
      if u != a.t { OthersStay(s.lock, la, u); }
    }
  }

  /// A held node is in the core.
  lemma HeldIsInCore(s: State, t: Tid, p: Ptr)
    requires Inv(s) && HeldBy(s, t, p)
    ensures p in Core(s).g && p in s.d.g
  {
    var id :| id in s.tokens && s.tokens[id].node == p;
    assert TokenOk(s, id);
  }

  /// A collector enters when no other is in.
  lemma EnteringMeansIdle(s: State, t: Tid)
    requires LocksOk(s) && CanLock(s, t) && !Writing(s, t) && Writing(LockStep(s, t), t)
    ensures s.phase.Idle?
  {
    hide L.Inv;
    L.StepKeepsInv(s.lock, L.Advance(t));
    forall u ensures !Writing(s, u) {
      if u != t {
        OthersStay(s.lock, L.Advance(t), u);
        if Writing(s, u) { L.GuardsExclude(LockStep(s, t).lock, t, u); }
      }
    }
  }

  /// A collector enters with everything to visit, and leaves nothing behind.
  lemma LockKeepsPhase(s: State, t: Tid)
    requires Inv(s) && CanLock(s, t)
    ensures PhaseOk(LockStep(s, t)) && Core(LockStep(s, t)) == Core(s)
  {
    hide L.Inv, LocksOk, SparesOk, Closed, Eval;
    var s' := LockStep(s, t);
    if !Writing(s, t) && Writing(s', t) {
      EnteringMeansIdle(s, t);
      forall id | id in s.tokens ensures s.tokens[id].node in s.d.g { assert TokenOk(s, id); }
    }
  }

  lemma LockKeepsWorks(s: State, t: Tid, u: Tid)
    requires WorkOk(s, u) && CanLock(s, t) && Core(LockStep(s, t)) == Core(s)
    ensures WorkOk(LockStep(s, t), u)
  {
    hide Core;
    if u != t { OthersStay(s.lock, L.Advance(t), u); }
  }

  lemma LockKeepsInv(s: State, t: Tid)
    requires Inv(s) && CanLock(s, t)
    ensures Inv(LockStep(s, t)) && Core(LockStep(s, t)) == Core(s)
  {
    hide L.Inv, LocksOk, SparesOk, PhaseOk, Core, WorkOk;
    var s' := LockStep(s, t);
    LockKeepsLocksOk(s, t);
    LockKeepsPhase(s, t);
    SameSpares(s, s');
    if !Writing(s, t) && Writing(s', t) { EnteringMeansIdle(s, t); }
    forall p ensures CountOk(s', p) { assert CountOk(s, p); }
    forall id ensures TokenOk(s', id) { assert TokenOk(s, id); }
    forall u ensures WorkOk(s', u) { LockKeepsWorks(s, t, u); }
  }

  ghost predicate Waits(a: Action) {
    a.BeginOp? || a.BeginCollection? || a.Spurious?
  }

  lemma WaitingKeepsWorks(s: State, a: Action, u: Tid)
    requires Inv(s) && Enabled(s, a) && Waits(a) && Core(Step(s, a)) == Core(s)
    ensures WorkOk(Step(s, a), u)
  {
    hide L.Inv, LocksOk, SparesOk, Core, PhaseOk, CountOk, TokenOk;
    var s' := Step(s, a);
    assert WorkOk(s, u);
    if a.BeginOp? {
      forall p | p in a.operands ensures p in Core(s').g { HeldIsInCore(s, a.t, p); }
    }
    var la :=
      if a.BeginOp? then L.BeginRead(a.t)
      else if a.BeginCollection? then L.BeginWrite(a.t)
      else L.Spurious(a.t);
    if u != a.t { OthersStay(s.lock, la, u); }
  }

  lemma WaitingKeepsInv(s: State, a: Action)
    requires Inv(s) && Enabled(s, a) && Waits(a)
    ensures Inv(Step(s, a)) && Core(Step(s, a)) == Core(s)
  {
    hide L.Inv, LocksOk, SparesOk, Restrict, WorkOk;
    var s' := Step(s, a);
    WaitingKeepsLocksOk(s, a);
    SameSpares(s, s');
    forall p ensures CountOk(s', p) { assert CountOk(s, p); }
    forall id ensures TokenOk(s', id) { assert TokenOk(s, id); }
    forall u ensures WorkOk(s', u) { WaitingKeepsWorks(s, a, u); }
  }

  /// Steps that leave the lock alone.
  lemma SameLocks(s: State, s': State)
    requires LocksOk(s) && s'.lock == s.lock && s'.works.Keys == s.works.Keys && (s'.phase.Idle? <==> s.phase.Idle?)
    ensures LocksOk(s')
  {
    forall u ensures Writing(s', u) <==> Writing(s, u) {}
    forall u ensures u in s'.works <==> u in s.works { assert u in s'.works.Keys <==> u in s.works.Keys; }
  }

  /// Steps that allocate nothing, and add nothing to the table.
  lemma SameSpares(s: State, s': State)
    requires SparesOk(s) && s'.spares == s.spares && s'.d.g.Keys <= s.d.g.Keys
    ensures SparesOk(s')
  {
    assert forall p :: p in s'.d.g ==> p in s.d.g.Keys;
  }

  // ---------- Operations ----------

  /// Steps of an operation that only learn an address, or change the cache.
  lemma TouchKeepsInv(s: State, t: Tid, p: Ptr)
    requires Inv(s) && Reading(s, t) && p in s.d.g
    ensures Inv(Touch(s, t, p)) && Core(Touch(s, t, p)) == Core(s)
  {
    hide L.Inv, LocksOk, SparesOk;
    var s' := Touch(s, t, p);
    ReaderMeansIdle(s, t);
    SameLocks(s, s');
    SameSpares(s, s');
    forall q ensures CountOk(s', q) { assert CountOk(s, q); }
    forall id ensures TokenOk(s', id) { assert TokenOk(s, id); }
    forall u ensures WorkOk(s', u) { assert WorkOk(s, u); }
  }

  lemma CacheKeepsInv(s: State, cache: set<Entry>)
    requires Inv(s) && (s.phase.Idle? ==> forall e :: e in cache ==> EntryOk(s.d, e))
    ensures Inv(s.(cache := cache)) && Core(s.(cache := cache)) == Core(s)
  {
    hide L.Inv, LocksOk, SparesOk;
    var s' := s.(cache := cache);
    SameLocks(s, s');
    SameSpares(s, s');
    forall q ensures CountOk(s', q) { assert CountOk(s, q); }
    forall id ensures TokenOk(s', id) { assert TokenOk(s, id); }
    forall u ensures WorkOk(s', u) { assert WorkOk(s, u); }
  }

  lemma SpareIsFree(s: State, t: Tid)
    requires SparesOk(s) && t in s.spares
    ensures s.spares[t] != NULL && s.spares[t] !in s.d.g
  {
  }

  lemma MakingKeepsSpares(s: State, t: Tid, p: Ptr, k: Key)
    requires SparesOk(s) && Enabled(s, Make(t, p, k))
    ensures SparesOk(Step(s, Make(t, p, k)))
  {
  }

  lemma AllocateKeepsInv(s: State, t: Tid, p: Ptr)
    requires Inv(s) && Enabled(s, Allocate(t, p))
    ensures Inv(Step(s, Allocate(t, p))) && Core(Step(s, Allocate(t, p))) == Core(s)
  {
    hide L.Inv, LocksOk;
    var s' := Step(s, Allocate(t, p));
    SameLocks(s, s');
    forall q ensures CountOk(s', q) { assert CountOk(s, q); }
    forall id ensures TokenOk(s', id) { assert TokenOk(s, id); }
    forall u ensures WorkOk(s', u) { assert WorkOk(s, u); }
  }

  lemma MakeKeepsInv(s: State, t: Tid, p: Ptr, k: Key)
    requires Inv(s) && Enabled(s, Make(t, p, k))
    ensures Inv(Step(s, Make(t, p, k))) && Grows(Core(s), Core(Step(s, Make(t, p, k))))
  {
    hide L.Inv, LocksOk, SparesOk;
    var s' := Step(s, Make(t, p, k));
    ReaderMeansIdle(s, t);
    SpareIsFree(s, t);
    AddingKeepsOk(s.d, p, k);
    SameLocks(s, s');
    MakingKeepsSpares(s, t, p, k);
    forall q ensures CountOk(s', q) {
      assert CountOk(s, q);
      if q == p {
        assert On(s.tokens, p) == {} by { forall id ensures id !in On(s.tokens, p) { assert TokenOk(s, id); } }
      }
    }
    forall id ensures TokenOk(s', id) { assert TokenOk(s, id); }
    forall u ensures WorkOk(s', u) { assert WorkOk(s, u); }
    forall e | e in s'.cache ensures EntryOk(s'.d, e) { ComputesSurvives(s.d, s'.d, e.op, e.x, e.y, e.r); }
  }

  lemma CountsAfterToken(tokens: map<nat, Token>, id: nat, token: Token, p: Ptr)
    requires id !in tokens
    ensures On(tokens[id := token], p) == if token.node == p then On(tokens, p) + {id} else On(tokens, p)
    ensures id !in On(tokens, p)
  {
  }

  lemma TokenIsCounted(s: State, t: Tid, r: Ptr, id: nat, q: Ptr)
    requires CountOk(s, q) && r in s.counts && id !in s.tokens
    ensures CountOk(WithToken(s, t, r, id), q)
  {
    CountsAfterToken(s.tokens, id, Token(Client(t), r), q);
  }

  lemma TokenKeepsWorks(s: State, t: Tid, r: Ptr, id: nat, u: Tid)
    requires WorkOk(s, u) && r in s.counts && id !in s.tokens
    ensures WorkOk(WithToken(s, t, r, id), u)
  {
    var s' := WithToken(s, t, r, id);
    assert forall i :: i in s.tokens ==> i in s'.tokens && s'.tokens[i] == s.tokens[i];
    forall p | HeldBy(s, u, p) ensures HeldBy(s', u, p) {}
  }

  /// One more reference on a node that is held already, or known to an operation.
  lemma TokenKeepsInv(s: State, t: Tid, r: Ptr, id: nat)
    requires Inv(s) && r in s.counts && id !in s.tokens
    requires Touches(s, t, r) || HeldBy(s, t, r)
    ensures Inv(WithToken(s, t, r, id)) && Core(WithToken(s, t, r, id)) == Core(s)
  {
    hide L.Inv, LocksOk, SparesOk, Reach, CountOk, WorkOk;
    var s' := WithToken(s, t, r, id);
    if HeldBy(s, t, r) { HeldIsInCore(s, t, r); } else { TouchedIsInCore(s, t, r); }
    SameLocks(s, s');
    SameSpares(s, s');
    forall q ensures CountOk(s', q) { TokenIsCounted(s, t, r, id, q); }
    forall u ensures WorkOk(s', u) { TokenKeepsWorks(s, t, r, id, u); }
    forall i ensures TokenOk(s', i) { assert TokenOk(s, i); }
    assert forall i :: i in s.tokens ==> i in s'.tokens && s'.tokens[i] == s.tokens[i];
    if i :| i in s.tokens && IsVariable(s, i) { assert IsVariable(s', i); }
  }

  lemma TouchedIsInCore(s: State, t: Tid, r: Ptr)
    requires Inv(s) && Touches(s, t, r)
    ensures s.phase.Idle? && r in Core(s).g
  {
    ReaderMeansIdle(s, t);
    assert WorkOk(s, t);
  }

  lemma DropTerminalKeepsInv(s: State, t: Tid, p: Ptr)
    requires Inv(s) && Enabled(s, DropTerminal(t, p))
    ensures Inv(Step(s, DropTerminal(t, p))) && Core(Step(s, DropTerminal(t, p))) == Core(s)
  {
    hide L.Inv, LocksOk, SparesOk, Reach;
    var s' := Step(s, DropTerminal(t, p));
    SameLocks(s, s');
    SameSpares(s, s');
    forall q ensures CountOk(s', q) { assert CountOk(s, q); }
    forall i ensures TokenOk(s', i) { assert TokenOk(s, i); }
    if i :| i in s.tokens && IsVariable(s, i) { assert IsVariable(s', i); }
    forall u ensures WorkOk(s', u) { assert WorkOk(s, u); }
  }

  lemma DropIsCounted(s: State, id: nat, q: Ptr)
    requires CountOk(s, q) && id in s.tokens && s.tokens[id].node in s.counts
    ensures CountOk(WithoutToken(s, id), q)
  {
    var tokens := WithoutToken(s, id).tokens;
    CountsAfterToken(tokens, id, s.tokens[id], q);
    assert tokens[id := s.tokens[id]] == s.tokens;
  }

  /// Another thread's operands stay held when a client's reference goes.
  lemma DropKeepsWorks(s: State, t: Tid, id: nat, u: Tid)
    requires WorkOk(s, u) && id in s.tokens && s.tokens[id].owner == Client(t) && s.tokens[id].node in s.counts
    requires u == t ==> NotWaiting(s, t)
    ensures WorkOk(WithoutToken(s, id), u)
  {
    var s' := WithoutToken(s, id);
    assert forall i :: i in s.tokens && i != id ==> i in s'.tokens && s'.tokens[i] == s.tokens[i];
    if u != t { forall p | HeldBy(s, u, p) ensures HeldBy(s', u, p) {} }
  }

  lemma DerefKeepsInv(s: State, t: Tid, id: nat)
    requires Inv(s) && Enabled(s, Deref(t, id))
    ensures Inv(Step(s, Deref(t, id))) && Core(Step(s, Deref(t, id))) == Core(s)
  {
    hide L.Inv, LocksOk, SparesOk, Restrict, Reach, CountOk, WorkOk;
    var s' := WithoutToken(s, id);
    SameLocks(s, s');
    SameSpares(s, s');
    forall q ensures CountOk(s', q) { DropIsCounted(s, id, q); }
    forall i ensures TokenOk(s', i) { assert TokenOk(s, i); }
    assert forall i :: i in s.tokens && i != id ==> i in s'.tokens && s'.tokens[i] == s.tokens[i];
    forall u ensures WorkOk(s', u) { DropKeepsWorks(s, t, id, u); }
  }

  lemma GivingKeepsWorks(s: State, t: Tid, to: Tid, id: nat, u: Tid)
    requires WorkOk(s, u) && id in s.tokens && s.tokens[id].owner == Client(t)
    requires u == t ==> NotWaiting(s, t)
    ensures WorkOk(Given(s, to, id), u)
  {
    var s' := Given(s, to, id);
    assert forall i :: i in s.tokens && i != id ==> i in s'.tokens && s'.tokens[i] == s.tokens[i];
    if u != t { forall p | HeldBy(s, u, p) ensures HeldBy(s', u, p) {} }
  }

  lemma GiveKeepsInv(s: State, t: Tid, to: Tid, id: nat)
    requires Inv(s) && Enabled(s, Give(t, to, id))
    ensures Inv(Step(s, Give(t, to, id))) && Core(Step(s, Give(t, to, id))) == Core(s)
  {
    hide L.Inv, LocksOk, SparesOk, Restrict, Reach, WorkOk;
    var s' := Given(s, to, id);
    SameLocks(s, s');
    SameSpares(s, s');
    forall q ensures CountOk(s', q) {
      assert CountOk(s, q);
      assert On(s'.tokens, q) == On(s.tokens, q);
    }
    forall i ensures TokenOk(s', i) { assert TokenOk(s, i); }
    assert forall i :: i in s.tokens && i != id ==> i in s'.tokens && s'.tokens[i] == s.tokens[i];
    forall u ensures WorkOk(s', u) { GivingKeepsWorks(s, t, to, id, u); }
  }

  // ---------- Collection ----------

  lemma NoReaders(s: State, t: Tid, u: Tid)
    requires LocksOk(s) && Writing(s, t)
    ensures !Reading(s, u)
  {
    if Reading(s, u) { ReaderMeansIdle(s, u); }
  }

  lemma MarksStayClosed(d: Diagram, marked: set<Ptr>, p: Ptr)
    requires d.Ok() && p in d.g && MarksClosed(d, marked)
    ensures MarksClosed(d, marked + Reach(d, p)) && p in Reach(d, p)
    ensures p in marked ==> marked + Reach(d, p) == marked
  {
    ReachFacts(d, p);
    hide Diagram.Ok, Reach;
  }

  /// A node that counts no reference has none, unless it is exempt.
  lemma CountedTokens(s: State, p: Ptr, marked: set<Ptr>)
    requires CountOk(s, p) && p in s.d.g && (s.counts[p] != 0 ==> p in marked)
    ensures MarkedOrExempt(s.d, p, marked) || forall id :: id in s.tokens ==> s.tokens[id].node != p
  {
    if !MarkedOrExempt(s.d, p, marked) {
      forall id | id in s.tokens ensures s.tokens[id].node != p { assert id !in On(s.tokens, p); }
    }
  }

  /// Marking one more root leaves the marks closed, and its references accounted for.
  lemma VisitMarks(s: State, t: Tid, p: Ptr)
    requires Inv(s) && Enabled(s, Visit(t, p))
    ensures PhaseOk(Step(s, Visit(t, p)))
    ensures Step(s, Visit(t, p)).phase.marked == s.phase.marked + if s.counts[p] != 0 then Reach(s.d, p) else {}
  {
    var marked := Step(s, Visit(t, p)).phase.marked;
    assert CountOk(s, p);
    MarksStayClosed(s.d, s.phase.marked, p);
    hide L.Inv, LocksOk, SparesOk, WorkOk, TokenOk, Diagram.Ok, Exempt, Reach, MarksClosed;
    CountedTokens(s, p, marked);
    hide CountOk;
    forall id | id in s.tokens
      ensures s.tokens[id].node in s.phase.todo - {p} || MarkedOrExempt(s.d, s.tokens[id].node, marked)
    {
      assert MarkedOrExempt(s.d, s.tokens[id].node, s.phase.marked) ==> MarkedOrExempt(s.d, s.tokens[id].node, marked);
    }
  }

  /// Between two states of one marking all but what is marked is the same.
  lemma MarkingKeepsInv(s: State, s': State)
    requires Inv(s) && s.phase.Marking? && s' == s.(phase := s'.phase) && s'.phase.Marking? && PhaseOk(s')
    ensures Inv(s') && Core(s') == Core(s)
  {
    SameLocks(s, s');
    SameSpares(s, s');
    hide L.Inv, LocksOk, SparesOk, PhaseOk, Reach, Diagram.Ok;
    forall q ensures CountOk(s', q) { assert CountOk(s, q); }
    forall id ensures TokenOk(s', id) { assert TokenOk(s, id); }
    forall u ensures WorkOk(s', u) { assert WorkOk(s, u); }
  }

  lemma VisitKeepsInv(s: State, t: Tid, p: Ptr)
    requires Inv(s) && Enabled(s, Visit(t, p))
    ensures Inv(Step(s, Visit(t, p))) && Core(Step(s, Visit(t, p))) == Core(s)
    ensures Step(s, Visit(t, p)).phase.marked == s.phase.marked + if s.counts[p] != 0 then Reach(s.d, p) else {}
  {
    VisitMarks(s, t, p);
    hide Inv, PhaseOk, Reach, Core, Diagram.Ok;
    MarkingKeepsInv(s, Step(s, Visit(t, p)));
  }

  /// Everything visited: all that is referenced is marked, the terminals through a variable.
  lemma MarkingIsDone(s: State)
    requires Inv(s) && s.phase.Marking? && s.phase.todo == {}
    ensures Closed(s.d, s.phase.marked)
    ensures forall id :: id in s.tokens ==> s.tokens[id].node in s.phase.marked
  {
    hide L.Inv, LocksOk, SparesOk;
    if s.d.n > 0 {
      var v :| v in s.tokens && IsVariable(s, v);
      var p := s.tokens[v].node;
      assert s.d.NodeFits(p) && !s.d.Terminal(p);
      ReachFacts(s.d, p);
      ReachFacts(s.d, s.d.f);
      ReachFacts(s.d, s.d.t);
    }
  }

  lemma StartSweepKeepsInv(s: State, t: Tid)
    requires Inv(s) && Enabled(s, StartSweep(t))
    ensures Inv(Step(s, StartSweep(t))) && Closed(s.d, s.phase.marked)
    ensures Core(Step(s, StartSweep(t))) == Restrict(s.d, s.phase.marked)
  {
    hide L.Inv, LocksOk, SparesOk, Reach;
    var s' := Step(s, StartSweep(t));
    MarkingIsDone(s);
    SameLocks(s, s');
    SameSpares(s, s');
    RestrictKeepsMeaning(s.d, s.phase.marked);
    forall q ensures CountOk(s', q) { assert CountOk(s, q); }
    forall id ensures TokenOk(s', id) { assert TokenOk(s, id); }
    if i :| i in s.tokens && IsVariable(s, i) { assert IsVariable(s', i); }
    forall u ensures WorkOk(s', u) {
      assert WorkOk(s, u);
      NoReaders(s, t, u);
    }
  }

  lemma StartGrowKeepsInv(s: State, t: Tid)
    requires Inv(s) && Enabled(s, StartGrow(t))
    ensures Inv(Step(s, StartGrow(t))) && Core(Step(s, StartGrow(t))) == Core(s)
  {
    hide L.Inv, LocksOk, SparesOk;
    var s' := Step(s, StartGrow(t));
    SameLocks(s, s');
    SameSpares(s, s');
    forall q ensures CountOk(s', q) { assert CountOk(s, q); }
    forall id ensures TokenOk(s', id) { assert TokenOk(s, id); }
    forall u ensures WorkOk(s', u) { assert WorkOk(s, u); }
  }

  lemma FreedIsNotCounted(s: State, p: Ptr, q: Ptr)
    requires CountOk(s, q)
    ensures CountOk(s.(d := s.d.(g := s.d.g - {p}), counts := s.counts - {p}), q)
  {
  }

  lemma FreeKeepsInv(s: State, t: Tid, p: Ptr)
    requires Inv(s) && Enabled(s, Free(t, p))
    ensures Inv(Step(s, Free(t, p))) && Core(Step(s, Free(t, p))) == Core(s)
  {
    hide L.Inv, LocksOk, SparesOk, CountOk, Reach;
    var s' := Step(s, Free(t, p));
    assert s.phase.Sweeping? && p !in s.phase.marked;
    assert s' == s.(d := s.d.(g := s.d.g - {p}), counts := s.counts - {p});
    hide Step, Enabled;
    SameLocks(s, s');
    SameSpares(s, s');
    forall q ensures CountOk(s', q) { FreedIsNotCounted(s, p, q); }
    forall id ensures TokenOk(s', id) { assert TokenOk(s, id); }
    forall u ensures WorkOk(s', u) { assert WorkOk(s, u); }
  }

  lemma StartClearKeepsInv(s: State, t: Tid)
    requires Inv(s) && Enabled(s, StartClear(t))
    ensures Inv(Step(s, StartClear(t))) && Core(Step(s, StartClear(t))) == Core(s)
  {
    hide L.Inv, LocksOk, SparesOk;
    var s' := Step(s, StartClear(t));
    assert s.d.g == Core(s).g;
    SameLocks(s, s');
    SameSpares(s, s');
    forall q ensures CountOk(s', q) { assert CountOk(s, q); }
    forall id ensures TokenOk(s', id) { assert TokenOk(s, id); }
    forall u ensures WorkOk(s', u) { assert WorkOk(s, u); }
  }

  // ---------- Every step ----------

  lemma OperationKeepsInv(s: State, a: Action)
    requires Inv(s) && Enabled(s, a)
    requires a.Descend? || a.Find? || a.Recall? || a.Remember? || a.Forget?
    ensures Inv(Step(s, a)) && Core(Step(s, a)) == Core(s)
  {
    hide L.Inv, LocksOk;
    match a
    case Descend(t, p, on) =>
      assert s.d.NodeFits(p) by { assert WorkOk(s, t); ReaderMeansIdle(s, t); }
      TouchKeepsInv(s, t, if on then s.d.High(p) else s.d.Low(p));
    case Find(t, p, k) => TouchKeepsInv(s, t, p);
    case Recall(t, e) =>
      ReaderMeansIdle(s, t);
      assert EntryOk(s.d, e);
      TouchKeepsInv(s, t, e.r);
    case Remember(t, e) => CacheKeepsInv(s, s.cache + {e});
    case Forget(e) => CacheKeepsInv(s, s.cache - {e});
    case _ =>
  }

  ghost predicate CoreIsCut(s: State, s': State) {
    && s.d == Core(s) && s.phase.Marking? && s.d.Ok()
    && Closed(s.d, s.phase.marked) && Core(s') == Restrict(s.d, s.phase.marked)
  }

  /// The core after a step: the same, grown by a node, or cut down to what was marked.
  ghost predicate CoreFollows(s: State, s': State) {
    || Core(s') == Core(s)
    || Grows(Core(s), Core(s'))
    || CoreIsCut(s, s')
  }

  lemma RefStepKeepsInv(s: State, a: Action)
    requires Inv(s) && Enabled(s, a) && (a.Reference? || a.Duplicate?)
    ensures Inv(Step(s, a)) && Core(Step(s, a)) == Core(s)
  {
    hide Inv;
    TokenKeepsInv(s, a.t, if a.Reference? then a.r else a.p, a.id);
  }

  lemma LockIsStep(s: State, t: Tid)
    requires Inv(s) && Enabled(s, Lock(t))
    ensures Inv(Step(s, Lock(t))) && Core(Step(s, Lock(t))) == Core(s)
  {
    hide Inv, LocksOk, Core, LockStep;
    LockKeepsInv(s, t);
  }

  lemma StepKeepsInv(s: State, a: Action)
    requires Inv(s) && Enabled(s, a)
    ensures Inv(Step(s, a)) && CoreFollows(s, Step(s, a))
  {
    hide Inv, Enabled, LocksOk, Restrict;
    match a
    case BeginOp(_, _) => WaitingKeepsInv(s, a);
    case BeginCollection(_) => WaitingKeepsInv(s, a);
    case Spurious(_) => WaitingKeepsInv(s, a);
    case Lock(t) => LockIsStep(s, t);
    case Allocate(t, p) => AllocateKeepsInv(s, t, p);
    case Make(t, p, k) => MakeKeepsInv(s, t, p, k);
    case Reference(t, r, id) => RefStepKeepsInv(s, a);
    case Duplicate(t, p, id) => RefStepKeepsInv(s, a);
    case DropTerminal(t, p) => DropTerminalKeepsInv(s, t, p);
    case Give(t, to, id) => GiveKeepsInv(s, t, to, id);
    case Deref(t, id) => DerefKeepsInv(s, t, id);
    case Visit(t, p) => VisitKeepsInv(s, t, p);
    case StartSweep(t) => StartSweepIs(s, t);
    case StartGrow(t) => StartGrowKeepsInv(s, t);
    case Free(t, p) => FreeKeepsInv(s, t, p);
    case StartClear(t) => StartClearKeepsInv(s, t);
    case _ => OperationKeepsInv(s, a);
  }

  lemma StartSweepIs(s: State, t: Tid)
    requires Inv(s) && Enabled(s, StartSweep(t))
    ensures Inv(Step(s, StartSweep(t))) && CoreFollows(s, Step(s, StartSweep(t)))
  {
    hide LocksOk, L.Inv;
    StartSweepKeepsInv(s, t);
  }

  /// What is in the core before and after a step denotes the same.
  lemma StepKeepsMeaning(s: State, a: Action, p: Ptr)
    requires Inv(s) && Enabled(s, a) && Inv(Step(s, a)) && p in Core(s).g && p in Core(Step(s, a)).g
    ensures Core(Step(s, a)).g[p] == Core(s).g[p] && Denotes(Core(Step(s, a)), p) == Denotes(Core(s), p)
  {
    StepKeepsInv(s, a);
    hide LocksOk, Enabled, Step;
    var s' := Step(s, a);
    if Grows(Core(s), Core(s')) {
      GrowthKeepsMeaning(Core(s), Core(s'));
    } else if Core(s') != Core(s) {
      RestrictKeepsMeaning(s.d, s.phase.marked);
    }
  }

  // ---------- Runs ----------

  ghost predicate CanRun(s: State, actions: seq<Action>)
    decreases |actions|
  {
    actions != [] ==> Enabled(s, actions[0]) && CanRun(Step(s, actions[0]), actions[1..])
  }

  ghost function Run(s: State, actions: seq<Action>): State
    requires CanRun(s, actions)
    decreases |actions|
  {
    if actions == [] then s else Run(Step(s, actions[0]), actions[1..])
  }

  lemma {:induction false} RunKeepsInv(s: State, actions: seq<Action>)
    requires Inv(s) && CanRun(s, actions)
    ensures Inv(Run(s, actions))
    decreases |actions|
  {
    if actions != [] {
      StepKeepsInv(s, actions[0]);
      RunKeepsInv(Step(s, actions[0]), actions[1..]);
    }
  }

  /// A manager as `init` leaves it, with any diagram: nobody is in, the caches are empty, and only
  /// the manager holds references.
  ghost predicate Init(s: State) {
    && s.d.Ok() && s.lock == L.State(0, map[]) && s.cache == {} && s.works == map[] && s.spares == map[]
    && s.phase.Idle?
    && (forall id :: id in s.tokens ==> s.tokens[id].owner == Manager && s.tokens[id].node in s.d.g)
    && (forall p :: CountOk(s, p))
    && Based(s, s.d.f) && Based(s, s.d.t) && VariableHeld(s)
  }

  lemma InitHasInv(s: State)
    requires Init(s)
    ensures Inv(s)
  {
    L.InitHasInv();
  }

  /// Whatever the interleaving: an operation under its guard finds every node it can touch in the
  /// table, with its children; and every cached answer is about nodes that are there, and right.
  lemma LiveNodesAreThere(s: State, actions: seq<Action>, t: Tid)
    requires Init(s) && CanRun(s, actions) && Reading(Run(s, actions), t)
    ensures var e := Run(s, actions);
      && e.d.Ok()
      && (forall p :: p in e.works[t] ==>
          p in e.d.g && (e.d.Terminal(p) || (e.d.Low(p) in e.d.g && e.d.High(p) in e.d.g)))
      && (forall c :: c in e.cache ==> Computes(e.d, c.op, c.x, c.y, c.r))
  {
    InitHasInv(s);
    RunKeepsInv(s, actions);
    var e := Run(s, actions);
    ReaderMeansIdle(e, t);
    assert WorkOk(e, t);
    forall p | p in e.works[t]
      ensures p in e.d.g && (e.d.Terminal(p) || (e.d.Low(p) in e.d.g && e.d.High(p) in e.d.g))
    {
      assert e.d.NodeFits(p);
    }
    forall c | c in e.cache ensures Computes(e.d, c.op, c.x, c.y, c.r) { assert EntryOk(e.d, c); }
  }

  lemma GuardedStepOnlyGrows(s: State, a: Action, t: Tid)
    requires Inv(s) && Enabled(s, a) && Reading(s, t) && Reading(Step(s, a), t)
    ensures Grows(s.d, Step(s, a).d)
  {
    hide Inv, Enabled, Step, CoreFollows, Grows;
    StepKeepsInv(s, a);
    ReaderIsIdle(s, t);
    ReaderIsIdle(Step(s, a), t);
    IdleFollows(s, Step(s, a));
  }

  lemma ReaderSeesRight(s: State, t: Tid)
    requires Inv(s) && Reading(s, t)
    ensures s.d.Ok() && forall c :: c in s.cache ==> Computes(s.d, c.op, c.x, c.y, c.r)
  {
    ReaderMeansIdle(s, t);
    forall c | c in s.cache ensures Computes(s.d, c.op, c.x, c.y, c.r) { assert EntryOk(s.d, c); }
  }

  lemma ReaderIsIdle(s: State, t: Tid)
    requires Inv(s) && Reading(s, t)
    ensures s.phase.Idle? && s.d.Ok()
  {
    ReaderMeansIdle(s, t);
  }

  lemma IdleFollows(s: State, s': State)
    requires CoreFollows(s, s') && s.phase.Idle? && s'.phase.Idle? && s.d.Ok()
    ensures Grows(s.d, s'.d)
  {
  }

  /// Thread t holds its read guard throughout the run.
  ghost predicate StaysIn(s: State, actions: seq<Action>, t: Tid)
    requires CanRun(s, actions)
    decreases |actions|
  {
    Reading(s, t) && (actions != [] ==> StaysIn(Step(s, actions[0]), actions[1..], t))
  }

  /// For as long as an operation holds its read guard, whatever the others do, the table only grows,
  /// and every cached answer is right.
  lemma {:induction false} GuardedTableOnlyGrows(s: State, actions: seq<Action>, t: Tid)
    requires Inv(s) && CanRun(s, actions) && StaysIn(s, actions, t)
    ensures var e := Run(s, actions);
      Inv(e) && e.d.Ok() && Grows(s.d, e.d) && forall c :: c in e.cache ==> Computes(e.d, c.op, c.x, c.y, c.r)
    decreases |actions|
  {
    hide Inv, Enabled, Step, Computes;
    if actions == [] {
      ReaderSeesRight(s, t);
    } else {
      StepKeepsInv(s, actions[0]);
      GuardedStepOnlyGrows(s, actions[0], t);
      GuardedTableOnlyGrows(Step(s, actions[0]), actions[1..], t);
    }
  }

  ghost predicate NeverDropped(actions: seq<Action>, id: nat) {
    forall i :: 0 <= i < |actions| ==> !(actions[i].Deref? && actions[i].id == id)
  }

  /// A step keeps a reference it does not drop, and in the same hands if it does not give it away.
  lemma StepKeepsToken(s: State, a: Action, id: nat)
    requires Inv(s) && Enabled(s, a) && id in s.tokens && !(a.Deref? && a.id == id)
    ensures id in Step(s, a).tokens && Step(s, a).tokens[id].node == s.tokens[id].node
    ensures !(a.Give? && a.id == id) ==> Step(s, a).tokens[id] == s.tokens[id]
  {
    hide Inv, L.Inv, L.Step, L.Enabled, Computes, Restrict, Reach;
  }

  /// Whatever the interleaving: a referenced node is in the table, with the same key and the same
  /// meaning, until its reference is dropped, through whatever hands it passes.
  lemma {:induction false} ReferencedNodesSurvive(s: State, actions: seq<Action>, id: nat)
    requires Inv(s) && CanRun(s, actions) && id in s.tokens && NeverDropped(actions, id)
    ensures var e := Run(s, actions); var p := s.tokens[id].node;
      && Inv(e) && id in e.tokens && e.tokens[id].node == p
      && p in s.d.g && p in e.d.g && e.d.g[p] == s.d.g[p]
      && p in Core(s).g && p in Core(e).g && Denotes(Core(e), p) == Denotes(Core(s), p)
    decreases |actions|
  {
    hide LocksOk, Enabled, Step, PhaseOk, WorkOk, CountOk, Based;
    assert TokenOk(s, id);
    if actions != [] {
      var a := actions[0];
      var s' := Step(s, a);
      StepKeepsInv(s, a);
      assert !(a.Deref? && a.id == id);
      StepKeepsToken(s, a, id);
      assert TokenOk(s', id);
      StepKeepsMeaning(s, a, s.tokens[id].node);
      CoreIsInTable(s', s.tokens[id].node);
      assert NeverDropped(actions[1..], id);
      ReferencedNodesSurvive(s', actions[1..], id);
    }
    CoreIsInTable(s, s.tokens[id].node);
  }

  lemma CoreIsInTable(s: State, p: Ptr)
    requires Inv(s) && p in Core(s).g
    ensures p in s.d.g && s.d.g[p] == Core(s).g[p]
  {
    hide LocksOk;
  }

  // ---------- What a thread can rely on ----------

  /// None of the steps is thread t's.
  ghost predicate ByOthers(actions: seq<Action>, t: Tid) {
    forall i :: 0 <= i < |actions| ==> actions[i].Forget? || actions[i].t != t
  }

  /// A reference that t answers for: its own, or one of the manager's.
  predicate Mine(s: State, t: Tid, id: nat) {
    id in s.tokens && (s.tokens[id].owner == Manager || s.tokens[id].owner == Client(t))
  }

  lemma OthersStepIsNotMine(s: State, a: Action, t: Tid, id: nat)
    requires Inv(s) && Enabled(s, a) && (a.Forget? || a.t != t) && Mine(s, t, id)
    ensures !((a.Deref? || a.Give?) && a.id == id) && Mine(Step(s, a), t, id)
  {
    StepKeepsToken(s, a, id);
    hide Inv, Step;
  }

  /// Others cannot drop it, nor give it away.
  lemma {:induction false} OthersNeverDrop(s: State, actions: seq<Action>, t: Tid, id: nat)
    requires Inv(s) && CanRun(s, actions) && ByOthers(actions, t) && Mine(s, t, id)
    ensures NeverDropped(actions, id) && Mine(Run(s, actions), t, id)
    decreases |actions|
  {
    hide Inv, Enabled, Step, Mine;
    if actions != [] {
      var a := actions[0];
      assert a.Forget? || a.t != t;
      StepKeepsInv(s, a);
      OthersStepIsNotMine(s, a, t, id);
      assert forall i :: 0 <= i < |actions| - 1 ==> actions[1..][i] == actions[i + 1];
      OthersNeverDrop(Step(s, a), actions[1..], t, id);
      forall i | 0 <= i < |actions| ensures !(actions[i].Deref? && actions[i].id == id) {
        if i > 0 { assert actions[1..][i - 1] == actions[i]; }
      }
    }
  }

  /// So whatever the others do, what t holds stays, with key and meaning.
  lemma MineSurvives(s: State, actions: seq<Action>, t: Tid, p: Ptr)
    requires Inv(s) && CanRun(s, actions) && ByOthers(actions, t) && HeldBy(s, t, p)
    ensures var e := Run(s, actions);
      && Inv(e) && HeldBy(e, t, p) && p in Core(s).g && p in Core(e).g
      && Denotes(Core(e), p) == Denotes(Core(s), p)
  {
    hide Inv;
    var id :|
      && id in s.tokens && s.tokens[id].node == p
      && (s.tokens[id].owner == Manager || s.tokens[id].owner == Client(t));
    OthersNeverDrop(s, actions, t, id);
    ReferencedNodesSurvive(s, actions, id);
  }

  /// Nor do others touch the node t has allocated.
  lemma {:induction false} OthersKeepSpare(s: State, actions: seq<Action>, t: Tid)
    requires Inv(s) && CanRun(s, actions) && ByOthers(actions, t) && t in s.spares
    ensures var e := Run(s, actions); t in e.spares && e.spares[t] == s.spares[t] && s.spares[t] !in e.d.g
    decreases |actions|
  {
    hide Inv, Enabled, Step;
    if actions != [] {
      var a := actions[0];
      assert a.Forget? || a.t != t;
      StepKeepsInv(s, a);
      StepKeepsSpare(s, a, t);
      assert forall i :: 0 <= i < |actions| - 1 ==> actions[1..][i] == actions[i + 1];
      OthersKeepSpare(Step(s, a), actions[1..], t);
    } else {
      SpareIsOut(s, t);
    }
  }

  lemma StepKeepsSpare(s: State, a: Action, t: Tid)
    requires Enabled(s, a) && (a.Forget? || a.t != t) && t in s.spares
    ensures t in Step(s, a).spares && Step(s, a).spares[t] == s.spares[t]
  {
    hide L.Step, L.Enabled, Computes, Restrict, Reach, HeldBy, Exempt;
  }

  lemma SpareIsOut(s: State, t: Tid)
    requires Inv(s) && t in s.spares
    ensures s.spares[t] !in s.d.g
  {
    SpareIsFree(s, t);
  }

  /// The references on `p` that t answers for.
  ghost function MineOn(s: State, t: Tid, p: Ptr): set<nat> {
    set id | id in s.tokens && Mine(s, t, id) && s.tokens[id].node == p
  }

  lemma StepKeepsTerminals(s: State, a: Action)
    requires Enabled(s, a)
    ensures var d := Step(s, a).d; d.f == s.d.f && d.t == s.d.t && d.n == s.d.n
  {
    hide L.Step, L.Enabled, Computes, Restrict, Reach, HeldBy, Exempt;
  }

  lemma {:induction false} RunKeepsTerminals(s: State, actions: seq<Action>)
    requires CanRun(s, actions)
    ensures var d := Run(s, actions).d; d.f == s.d.f && d.t == s.d.t && d.n == s.d.n
    decreases |actions|
  {
    hide Enabled, Step;
    if actions != [] {
      StepKeepsTerminals(s, actions[0]);
      RunKeepsTerminals(Step(s, actions[0]), actions[1..]);
    }
  }

  /// They stay its own, and covered by the count.
  lemma MineStaysCounted(s: State, actions: seq<Action>, t: Tid, p: Ptr)
    requires Inv(s) && CanRun(s, actions) && ByOthers(actions, t)
    ensures var e := Run(s, actions);
      && MineOn(s, t, p) <= MineOn(e, t, p)
      && (p in e.d.g && !Exempt(s.d, p) ==> p in e.counts && |MineOn(s, t, p)| <= e.counts[p])
  {
    hide Inv;
    var e := Run(s, actions);
    forall id | id in MineOn(s, t, p) ensures id in MineOn(e, t, p) {
      OthersNeverDrop(s, actions, t, id);
      ReferencedNodesSurvive(s, actions, id);
    }
    RunKeepsInv(s, actions);
    RunKeepsTerminals(s, actions);
    if p in e.d.g && !Exempt(s.d, p) {
      CountIsExact(e, p);
      SubsetIsSmaller(MineOn(s, t, p), On(e.tokens, p));
    }
  }

  lemma CountIsExact(s: State, p: Ptr)
    requires Inv(s) && p in s.d.g && !Exempt(s.d, p)
    ensures p in s.counts && s.counts[p] == |On(s.tokens, p)|
  {
    assert CountOk(s, p);
  }

  /// Between collections the table is whole, and every cached answer is right.
  lemma IdleIsWhole(s: State)
    requires Inv(s) && s.phase.Idle?
    ensures s.d == Core(s) && s.d.Ok() && forall c :: c in s.cache ==> Computes(s.d, c.op, c.x, c.y, c.r)
  {
    hide LocksOk;
    forall c | c in s.cache ensures Computes(s.d, c.op, c.x, c.y, c.r) { assert EntryOk(s.d, c); }
  }

  // ---------- What an operation can do ----------

  lemma ThenRun(s: State, a: Action, rest: seq<Action>)
    requires Enabled(s, a) && CanRun(Step(s, a), rest)
    ensures CanRun(s, [a] + rest) && Run(s, [a] + rest) == Run(Step(s, a), rest)
  {
    hide Enabled, Step;
    assert ([a] + rest)[1..] == rest;
  }

  lemma CanDescend(s: State, t: Tid, p: Ptr, on: bool)
    requires Inv(s) && Touches(s, t, p) && p in s.d.g && !s.d.Terminal(p)
    ensures Enabled(s, Descend(t, p, on))
    ensures Step(s, Descend(t, p, on)) == Touch(s, t, if on then s.d.High(p) else s.d.Low(p))
  {
    hide Inv;
  }

  /// From a node it may touch, an operation gets to every node below, step by step, and changes
  /// nothing but what it knows.
  lemma {:induction false} OperationCanDescend(s: State, t: Tid, p: Ptr, q: Ptr) returns (actions: seq<Action>)
    requires Inv(s) && Touches(s, t, p) && p in s.d.g && s.d.Ok() && q in Reach(s.d, p)
    ensures CanRun(s, actions) && Touches(Run(s, actions), t, q)
    ensures Run(s, actions) == s.(works := Run(s, actions).works)
    decreases s.d.n - s.d.Top(p)
  {
    actions := [];
    if q != p {
      assert s.d.NodeFits(p);
      var on := q in Reach(s.d, s.d.High(p));
      var child := if on then s.d.High(p) else s.d.Low(p);
      assert q in Reach(s.d, child);
      hide Inv, Reach, Enabled, Step, Diagram.Ok;
      CanDescend(s, t, p, on);
      StepKeepsInv(s, Descend(t, p, on));
      var rest := OperationCanDescend(Touch(s, t, child), t, child, q);
      ThenRun(s, Descend(t, p, on), rest);
      actions := [Descend(t, p, on)] + rest;
    }
  }

  /// From two nodes it may touch, an operation gets the node over them that is in the table, or makes
  /// it: at most one allocation, at any free address, and one step more.
  lemma OperationCanMake(s: State, t: Tid, k: Key, p: Ptr) returns (actions: seq<Action>, q: Ptr)
    requires Touches(s, t, k.low) && Touches(s, t, k.high) && s.d.KeyFits(k)
    requires p != NULL && p !in s.d.g && p !in s.spares.Values
    ensures CanRun(s, actions) && |actions| <= 2 && Touches(Run(s, actions), t, q)
    ensures q in Run(s, actions).d.g && Run(s, actions).d.g[q] == k
    ensures Run(s, actions).d == s.d.(g := if k in s.d.g.Values then s.d.g else s.d.g[q := k])
  {
    hide Diagram.KeyFits;
    if k in s.d.g.Values {
      q :| q in s.d.g && s.d.g[q] == k;
      ThenRunNothing(s, Find(t, q, k));
      actions := [Find(t, q, k)];
    } else if t in s.spares {
      q := s.spares[t];
      ThenRunNothing(s, Make(t, q, k));
      actions := [Make(t, q, k)];
    } else {
      q := p;
      var u := Step(s, Allocate(t, p));
      assert u.d == s.d;
      ThenRunNothing(u, Make(t, p, k));
      ThenRun(s, Allocate(t, p), [Make(t, p, k)]);
      actions := [Allocate(t, p)] + [Make(t, p, k)];
    }
  }

  lemma ThenRunNothing(s: State, a: Action)
    requires Enabled(s, a)
    ensures CanRun(s, [a]) && Run(s, [a]) == Step(s, a)
  {
    hide Enabled, Step;
    assert CanRun(Step(s, a), []);
    ThenRun(s, a, []);
  }

  /// What one operation stores in the cache, another that has the same operands can find there.
  lemma AnswersAreShared(s: State, t: Tid, u: Tid, e: Entry)
    requires Enabled(s, Remember(t, e)) && Touches(s, u, e.x) && Touches(s, u, e.y)
    ensures CanRun(s, [Remember(t, e), Recall(u, e)]) && Touches(Run(s, [Remember(t, e), Recall(u, e)]), u, e.r)
  {
    hide Computes;
    ThenRunNothing(Step(s, Remember(t, e)), Recall(u, e));
    ThenRun(s, Remember(t, e), [Recall(u, e)]);
    assert [Remember(t, e)] + [Recall(u, e)] == [Remember(t, e), Recall(u, e)];
  }
}
