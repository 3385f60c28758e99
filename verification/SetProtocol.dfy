/// `LockFreeSet::get_or_insert` (src/set.rs) as a step machine: any number of threads, each step
/// one atomic access to memory, in any interleaving. No collection or growth runs meanwhile (the
/// manager's read guard excludes both).
///
/// `Linearizable` is the main theorem: the results any run hands out are those of an atomic
/// get-or-insert on a set, in the order of each call's own linearization step.
/// `RetriesAreBounded` is lock-free progress.

module SetProtocol {
  import opened Nodes
  import opened Chains

  type Tid = nat

  /// Where a thread is in the retry loop. `node` is the node it offers, `prev` and `curr` are the
  /// loop's local variables.
  datatype PC =
    | LoadHead(node: Ptr)
    | Compare(node: Ptr, prev: Cell, curr: Ptr)
    | StoreNext(node: Ptr, prev: Cell, curr: Ptr)
    | TryCas(node: Ptr, prev: Cell, curr: Ptr)
    | FetchAdd(node: Ptr)

  /// A successful CAS, and the answer a call has settled on.
  datatype Publication = Publication(tid: Tid, cell: Cell, node: Ptr)
  datatype Result = Result(tid: Tid, key: Key, ptr: Ptr, inserted: bool)

  /// A call in progress. The last three fields are history: how many publications there were when
  /// the call began and when it last loaded `prev`, and for each failed CAS the publication that
  /// made it fail.
  datatype Call = Call(pc: PC, began: nat, loaded: nat, blames: seq<int>)

  /// Threads without an entry in `calls` are outside the function. `hash` never changes.
  datatype State = State(
    hash: Key -> nat,
    table: Table,
    numEntry: nat,
    calls: map<Tid, Call>,
    publications: seq<Publication>,
    results: seq<Result>)

  /// Between its calls a thread takes and drops references on published nodes: `Refer`.
  datatype Action =
    | Begin(t: Tid, node: Ptr, content: Node)
    | Advance(t: Tid)
    | Refer(t: Tid, p: Ptr, delta: int)

  /// The last publication that went into cell `c`, or -1.
  function LastInto(ps: seq<Publication>, c: Cell): (k: int)
    ensures -1 <= k < |ps|
    ensures k >= 0 ==> ps[k].cell == c
  {
    if ps == [] then -1
    else if ps[|ps| - 1].cell == c then |ps| - 1
    else LastInto(ps[..|ps| - 1], c)
  }

  // ---------- The machine ----------

  predicate Offers(s: State, t: Tid) {
    t in s.calls && !s.calls[t].pc.FetchAdd?
  }

  /// A call begins with a node its thread has prepared (`make_node` writes level, children and
  /// hash): allocated or about to be, unmarked, unpublished, and no other call's.
  predicate CanBegin(s: State, t: Tid, node: Ptr, content: Node) {
    && t !in s.calls
    && node != NULL && node !in s.table.nodes
    && !content.Marked() && content.hash == s.hash(content.RawKey()) && content.refCnt >= 0
    && forall u :: u in s.calls ==> Offers(s, u) ==> s.calls[u].pc.node != node
  }

  ghost predicate Enabled(s: State, a: Action) {
    match a
    case Begin(t, node, content) => CanBegin(s, t, node, content)
    case Advance(t) => t in s.calls
    case Refer(t, p, delta) => t !in s.calls && p in s.table.nodes && (delta == 1 || delta == -1)
  }

  function Goto(s: State, t: Tid, pc: PC): State
    requires t in s.calls
  {
    s.(calls := s.calls[t := s.calls[t].(pc := pc)])
  }

  /// `prev.load()`, remembered as the value to compare with.
  function LoadCell(s: State, t: Tid, c: Cell): State
    requires t in s.calls && CellOk(s.table, c)
  {
    var call := s.calls[t];
    s.(calls := s.calls[t := call.(pc := Compare(call.pc.node, c, Load(s.table, c)), loaded := |s.publications|)])
  }

  function Answer(s: State, t: Tid, r: Result): State {
    s.(calls := s.calls - {t}, results := s.results + [r])
  }

  function CasStep(s: State, t: Tid): State
    requires t in s.calls && s.calls[t].pc.TryCas?
    requires CellOk(s.table, s.calls[t].pc.prev) && s.calls[t].pc.node in s.table.heap
  {
    var call := s.calls[t];
    var TryCas(node, prev, curr) := call.pc;
    if Load(s.table, prev) == curr then
      s.(table := Linked(s.table, prev, node),
         calls := s.calls[t := call.(pc := FetchAdd(node))],
         publications := s.publications + [Publication(t, prev, node)],
         results := s.results + [Result(t, s.table.heap[node].RawKey(), node, true)])
    else
      s.(calls := s.calls[t := call.(pc := LoadHead(node), blames := call.blames + [LastInto(s.publications, prev)])])
  }

  function CompareStep(s: State, t: Tid): State
    requires t in s.calls && s.calls[t].pc.Compare?
    requires s.calls[t].pc.node in s.table.heap
    requires var c := s.calls[t].pc.curr; c == NULL || (c in s.table.nodes && c in s.table.heap)
  {
    var Compare(node, prev, curr) := s.calls[t].pc;
    if curr == NULL then Goto(s, t, StoreNext(node, prev, curr))
    else
      var here, wanted := s.table.heap[curr].RawKey(), s.table.heap[node].RawKey();
      if here == wanted then Answer(s, t, Result(t, wanted, curr, false))
      else if Less(wanted, here) then Goto(s, t, StoreNext(node, prev, curr))
      else LoadCell(s, t, Next(curr))
  }

  function Step(s: State, index: Index, a: Action): State
    requires Inv(s, index) && Enabled(s, a)
  {
    match a
    case Begin(t, node, content) =>
      s.(table := s.table.(heap := s.table.heap[node := content]),
         calls := s.calls[t := Call(LoadHead(node), |s.publications|, |s.publications|, [])])
    case Refer(_, p, delta) =>
      var node := s.table.heap[p];
      s.(table := s.table.(heap := s.table.heap[p := node.(refCnt := node.refCnt + delta)]))
    case Advance(t) =>
      assert CallOk(s, index, t);
      match s.calls[t].pc
      case LoadHead(node) => LoadCell(s, t, Head(s.table.heap[node].hash % |s.table.heads|))
      case Compare(_, _, _) => CompareStep(s, t)
      case StoreNext(node, prev, curr) =>
        var heap := s.table.heap[node := s.table.heap[node].(next := curr)];
        Goto(s.(table := s.table.(heap := heap)), t, TryCas(node, prev, curr))
      case TryCas(_, _, _) => CasStep(s, t)
      case FetchAdd(_) => s.(numEntry := s.numEntry + 1, calls := s.calls - {t})
  }

  // ---------- The invariant ----------

  /// Calls that have published but not yet counted.
  ghost function Uncounted(s: State): set<Tid> {
    set t | t in s.calls && s.calls[t].pc.FetchAdd?
  }

  ghost predicate NodeOffered(s: State, p: Ptr) {
    && p != NULL && p in s.table.heap && p !in s.table.nodes && !s.table.heap[p].Marked()
    && s.table.heap[p].hash == s.hash(s.table.heap[p].RawKey()) && s.table.heap[p].refCnt >= 0
  }

  ghost predicate BlamesOk(s: State, index: Index, t: Tid)
    requires Offers(s, t) && NodeOffered(s, s.calls[t].pc.node) && NodesOk(s.table, index)
  {
    var call := s.calls[t];
    && call.began <= call.loaded <= |s.publications|
    && (forall i, j :: 0 <= i < j < |call.blames| ==> call.blames[i] < call.blames[j])
    && (forall i :: 0 <= i < |call.blames| ==> Rival(s, index, t, call.blames[i]))
    && (forall i :: 0 <= i < |call.blames| && !call.pc.LoadHead? ==> call.blames[i] < call.loaded)
  }

  /// Publication `k` is another thread's, made during t's call, in t's bucket.
  ghost predicate Rival(s: State, index: Index, t: Tid, k: int)
    requires Offers(s, t) && s.calls[t].pc.node in s.table.heap && NodesOk(s.table, index)
  {
    && s.calls[t].began <= k < |s.publications|
    && s.publications[k].tid != t
    && s.publications[k].node in s.table.nodes
    && Bucket(s.table, index, s.publications[k].node) == Bucket(s.table, index, s.calls[t].pc.node)
  }

  ghost predicate PositionOk(s: State, index: Index, t: Tid)
    requires Offers(s, t) && NodeOffered(s, s.calls[t].pc.node) && NodesOk(s.table, index)
  {
    var call := s.calls[t];
    var pc := call.pc;
    var k := KeyAt(s.table, pc.node);
    pc.LoadHead? ||
    (&& CellOk(s.table, pc.prev) && CellBucket(s.table, index, pc.prev) == index(k) && Before(s.table, pc.prev, k)
     && (pc.curr == NULL || (pc.curr in s.table.nodes && Bucket(s.table, index, pc.curr) == index(k)
                             && Before(s.table, pc.prev, KeyAt(s.table, pc.curr))))
     // either the cell still holds what was read, or someone has published into it since
     && (Load(s.table, pc.prev) == pc.curr || call.loaded <= LastInto(s.publications, pc.prev))
     && (pc.Compare? || pc.curr == NULL || Less(k, KeyAt(s.table, pc.curr)))
     && (pc.TryCas? ==> s.table.heap[pc.node].next == pc.curr))
  }

  ghost predicate CallOk(s: State, index: Index, t: Tid)
    requires NodesOk(s.table, index)
  {
    Offers(s, t) ==>
      && NodeOffered(s, s.calls[t].pc.node)
      && PositionOk(s, index, t)
      && BlamesOk(s, index, t)
      && (forall k :: s.calls[t].began <= k < |s.publications| ==> s.publications[k].tid != t)
  }

  ghost predicate PublicationsOk(s: State, index: Index)
    requires NodesOk(s.table, index)
  {
    forall k :: 0 <= k < |s.publications| ==>
      var e := s.publications[k];
      && e.node in s.table.nodes && CellOk(s.table, e.cell)
      && CellBucket(s.table, index, e.cell) == Bucket(s.table, index, e.node)
  }

  /// No two calls offer the same node.
  ghost predicate NodesApart(s: State) {
    forall t, u :: Offers(s, t) && Offers(s, u) && t != u ==> s.calls[t].pc.node != s.calls[u].pc.node
  }

  /// A key's bucket is its hash, cut down to the table's size; published nodes are unmarked and
  /// carry their key's hash.
  ghost predicate HashesOk(s: State, index: Index)
    requires NodesOk(s.table, index)
  {
    && |s.table.heads| > 0 && NULL !in s.table.heap
    && (forall k :: index(k) == s.hash(k) % |s.table.heads|)
    && (forall p :: p in s.table.nodes ==> !s.table.heap[p].Marked())
    && (forall p :: p in s.table.nodes ==> s.table.heap[p].hash == s.hash(KeyAt(s.table, p)))
  }

  ghost predicate Inv(s: State, index: Index) {
    && WellFormed(s.table, index)
    && HashesOk(s, index)
    && (forall t :: CallOk(s, index, t))
    && NodesApart(s)
    && PublicationsOk(s, index)
    && s.numEntry + |Uncounted(s)| == |s.table.nodes|
  }

  ghost predicate Init(s: State, index: Index)
    ensures Init(s, index) ==> Inv(s, index)
  {
    assert s.calls == map[] ==> Uncounted(s) == {};
    && WellFormed(s.table, index)
    && HashesOk(s, index)
    && s.calls == map[] && s.publications == [] && s.results == []
    && s.numEntry == |s.table.nodes|
  }

  /// What a step may do to memory, as seen from the other threads: publish nodes, rewrite `next`
  /// fields, and write nodes that are not theirs.
  ghost predicate Extends(s: State, s': State) {
    && |s.table.heads| == |s'.table.heads| && s'.hash == s.hash
    && s.table.nodes <= s'.table.nodes
    && s.publications <= s'.publications
    && (forall p :: p in s.table.nodes ==>
        p in s.table.heap && p in s'.table.heap && KeyAt(s.table, p) == KeyAt(s'.table, p))
  }

  /// A cell whose content changed was published into.
  ghost predicate ChangesAreLogged(s: State, s': State)
    requires Extends(s, s')
  {
    forall c :: CellOk(s.table, c) ==>
      CellOk(s'.table, c) && (Load(s'.table, c) == Load(s.table, c) || |s.publications| <= LastInto(s'.publications, c))
  }

  lemma {:induction false} LastIntoGrows(ps: seq<Publication>, qs: seq<Publication>, c: Cell)
    requires ps <= qs
    ensures LastInto(ps, c) <= LastInto(qs, c)
  {
    if |ps| < |qs| && qs[|qs| - 1].cell != c { LastIntoGrows(ps, qs[..|qs| - 1], c); }
    else if |ps| == |qs| { assert ps == qs; }
  }

  /// What a call knows stays true while other threads act.
  lemma OthersKeepCallOk(s: State, s': State, index: Index, u: Tid)
    requires NodesOk(s.table, index) && NodesOk(s'.table, index) && Extends(s, s') && ChangesAreLogged(s, s')
    requires CallOk(s, index, u) && Offers(s, u) && u in s'.calls && s'.calls[u] == s.calls[u]
    requires var p := s.calls[u].pc.node;
      p in s'.table.heap && s'.table.heap[p] == s.table.heap[p] && p !in s'.table.nodes
    requires forall k :: |s.publications| <= k < |s'.publications| ==> s'.publications[k].tid != u
    ensures CallOk(s', index, u)
  {
    var pc := s.calls[u].pc;
    if !pc.LoadHead? { LastIntoGrows(s.publications, s'.publications, pc.prev); }
  }

  // ---------- Every step keeps the invariant ----------

  lemma BeginKeepsInv(s: State, index: Index, t: Tid, node: Ptr, content: Node)
    requires Inv(s, index) && CanBegin(s, t, node, content)
    ensures Inv(Step(s, index, Begin(t, node, content)), index)
  {
    var s' := Step(s, index, Begin(t, node, content));
    ShapeDecides(s.table, s'.table, index);
    forall u ensures CallOk(s', index, u) {
      assert CallOk(s, index, u);
      if u != t && Offers(s, u) { OthersKeepCallOk(s, s', index, u); }
    }
    assert Uncounted(s') == Uncounted(s);
  }

  /// A step that only moves thread t along: memory and history stay as they are.
  lemma MoveKeepsInv(s: State, index: Index, t: Tid, s': State)
    requires Inv(s, index) && Offers(s, t)
    requires s'.hash == s.hash && s'.table == s.table && s'.numEntry == s.numEntry && s'.publications == s.publications
    requires s'.calls == s.calls - {t} || (t in s'.calls && s'.calls == s.calls[t := s'.calls[t]])
    requires Offers(s', t) ==> s'.calls[t].pc.node == s.calls[t].pc.node && CallOk(s', index, t)
    requires t in s'.calls ==> Offers(s', t)
    ensures Inv(s', index)
  {
    forall u ensures CallOk(s', index, u) {
      assert CallOk(s, index, u);
      if u != t && Offers(s', u) { OthersKeepCallOk(s, s', index, u); }
    }
    assert Uncounted(s') == Uncounted(s);
  }

  /// The loop moves on: `curr` is in the same bucket as the cell it was read from.
  lemma CompareMovesOn(s: State, index: Index, t: Tid)
    requires Inv(s, index) && t in s.calls && s.calls[t].pc.Compare?
    requires CallOk(s, index, t) && s.calls[t].pc.curr != NULL
    requires Less(KeyAt(s.table, s.calls[t].pc.curr), KeyAt(s.table, s.calls[t].pc.node))
    ensures CallOk(Step(s, index, Advance(t)), index, t)
  {
    hide PublicationsOk, Uncounted, NodesApart;
    var s', curr := Step(s, index, Advance(t)), s.calls[t].pc.curr;
    assert s'.calls[t].pc == Compare(s.calls[t].pc.node, Next(curr), Load(s.table, Next(curr)));
    SameBucketAsCell(s, index, t);
    assert NextFits(s.table, index, curr);
  }

  lemma CompareKeepsInv(s: State, index: Index, t: Tid)
    requires Inv(s, index) && t in s.calls && s.calls[t].pc.Compare?
    ensures Inv(Step(s, index, Advance(t)), index)
  {
    var s', curr := Step(s, index, Advance(t)), s.calls[t].pc.curr;
    assert CallOk(s, index, t);
    if curr != NULL && Less(KeyAt(s.table, curr), KeyAt(s.table, s.calls[t].pc.node)) {
      CompareMovesOn(s, index, t);
    }
    hide PublicationsOk, Uncounted;
    MoveKeepsInv(s, index, t, s');
  }

  /// What was read from a cell stays in that cell's bucket, even after the cell has moved on.
  lemma SameBucketAsCell(s: State, index: Index, t: Tid)
    requires Inv(s, index) && Offers(s, t) && !s.calls[t].pc.LoadHead? && s.calls[t].pc.curr != NULL
    ensures CallOk(s, index, t)
    ensures Bucket(s.table, index, s.calls[t].pc.curr) == index(KeyAt(s.table, s.calls[t].pc.node))
  {
    assert CallOk(s, index, t);
  }

  lemma StoreNextKeepsCallOk(s: State, index: Index, t: Tid, u: Tid, s': State)
    requires Inv(s, index) && t in s.calls && s.calls[t].pc.StoreNext? && s' == Step(s, index, Advance(t))
    requires WellFormed(s'.table, index)
    ensures CallOk(s', index, u)
  {
    hide HashesOk, PublicationsOk, Uncounted;
    assert CallOk(s, index, t) && CallOk(s, index, u);
    if u != t && Offers(s, u) { OthersKeepCallOk(s, s', index, u); }
  }

  lemma StoreNextKeepsInv(s: State, index: Index, t: Tid)
    requires Inv(s, index) && t in s.calls && s.calls[t].pc.StoreNext?
    ensures Inv(Step(s, index, Advance(t)), index)
  {
    var s' := Step(s, index, Advance(t));
    assert CallOk(s, index, t);
    ShapeDecides(s.table, s'.table, index);
    forall u ensures CallOk(s', index, u) { StoreNextKeepsCallOk(s, index, t, u, s'); }
    assert Uncounted(s') == Uncounted(s);
  }

  /// A CAS that fails can name the publication that made it fail.
  lemma CasFailureKeepsInv(s: State, index: Index, t: Tid)
    requires Inv(s, index) && t in s.calls && s.calls[t].pc.TryCas?
    requires CallOk(s, index, t) && Load(s.table, s.calls[t].pc.prev) != s.calls[t].pc.curr
    ensures Inv(Step(s, index, Advance(t)), index)
  {
    var s' := Step(s, index, Advance(t));
    var prev := s.calls[t].pc.prev;
    var k := LastInto(s.publications, prev);
    assert Rival(s, index, t, k) by { assert s.publications[k].cell == prev; }
    assert CallOk(s', index, t);
    MoveKeepsInv(s, index, t, s');
  }

  lemma LoadHeadKeepsInv(s: State, index: Index, t: Tid)
    requires Inv(s, index) && t in s.calls && s.calls[t].pc.LoadHead? && CallOk(s, index, t)
    ensures Inv(Step(s, index, Advance(t)), index)
  {
    var s' := Step(s, index, Advance(t));
    assert HeadFits(s.table, index, s'.calls[t].pc.prev.i);
    assert CallOk(s', index, t);
    MoveKeepsInv(s, index, t, s');
  }

  /// A successful CAS changes one cell, and logs it.
  lemma PublishingIsLogged(s: State, s': State, index: Index, c: Cell, p: Ptr, t: Tid)
    requires NodesOk(s.table, index) && CellOk(s.table, c) && p in s.table.heap && p !in s.table.nodes
    requires s'.table == Linked(s.table, c, p) && s'.hash == s.hash
    requires s'.publications == s.publications + [Publication(t, c, p)]
    ensures Extends(s, s') && ChangesAreLogged(s, s')
  {
    forall d | CellOk(s.table, d)
      ensures CellOk(s'.table, d)
      ensures (Load(s'.table, d) == Load(s.table, d) || |s.publications| <= LastInto(s'.publications, d))
    {
      if d == c { assert s'.publications[|s.publications|].cell == c; }
    }
  }

  lemma PublishingKeepsPublicationsOk(s: State, s': State, index: Index, c: Cell, p: Ptr, t: Tid)
    requires NodesOk(s.table, index) && NodesOk(s'.table, index) && PublicationsOk(s, index)
    requires CellOk(s.table, c) && p in s.table.heap && p !in s.table.nodes
    requires CellBucket(s.table, index, c) == Bucket(s.table, index, p)
    requires s'.table == Linked(s.table, c, p) && s'.publications == s.publications + [Publication(t, c, p)]
    ensures PublicationsOk(s', index)
  {
    forall k | 0 <= k < |s'.publications|
      ensures var e := s'.publications[k];
        && e.node in s'.table.nodes && CellOk(s'.table, e.cell)
        && CellBucket(s'.table, index, e.cell) == Bucket(s'.table, index, e.node)
    {
      if k < |s.publications| { assert s'.publications[k] == s.publications[k]; }
    }
  }

  lemma CasSuccessKeepsInv(s: State, index: Index, t: Tid)
    requires Inv(s, index) && t in s.calls && s.calls[t].pc.TryCas?
    requires CallOk(s, index, t) && Load(s.table, s.calls[t].pc.prev) == s.calls[t].pc.curr
    ensures Inv(Step(s, index, Advance(t)), index)
  {
    var s' := Step(s, index, Advance(t));
    var TryCas(node, prev, curr) := s.calls[t].pc;
    assert Gap(s.table, index, prev, KeyAt(s.table, node));
    LinkKeepsWellFormed(s.table, index, prev, node);
    PublishingIsLogged(s, s', index, prev, node, t);
    PublishingKeepsPublicationsOk(s, s', index, prev, node, t);
    forall u ensures CallOk(s', index, u) {
      CasSuccessKeepsCallOk(s, index, t, u, s');
    }
    CasSuccessCounts(s, t, s');
  }

  lemma CasSuccessCounts(s: State, t: Tid, s': State)
    requires t in s.calls && s.calls[t].pc.TryCas? && s.calls[t].pc.node in s.table.heap
    requires s.calls[t].pc.node !in s.table.nodes
    requires CellOk(s.table, s.calls[t].pc.prev) && Load(s.table, s.calls[t].pc.prev) == s.calls[t].pc.curr
    requires s' == CasStep(s, t) && NodesApart(s) && s.numEntry + |Uncounted(s)| == |s.table.nodes|
    ensures NodesApart(s') && s'.numEntry + |Uncounted(s')| == |s'.table.nodes|
  {
    assert forall u :: Offers(s', u) ==> Offers(s, u) && s'.calls[u] == s.calls[u];
    assert Uncounted(s') == Uncounted(s) + {t};
  }

  lemma CasSuccessKeepsCallOk(s: State, index: Index, t: Tid, u: Tid, s': State)
    requires Inv(s, index) && t in s.calls && s.calls[t].pc.TryCas?
    requires CallOk(s, index, t) && Load(s.table, s.calls[t].pc.prev) == s.calls[t].pc.curr
    requires s' == CasStep(s, t) && NodesOk(s'.table, index)
    ensures CallOk(s', index, u)
  {
    var TryCas(node, prev, curr) := s.calls[t].pc;
    assert CallOk(s, index, u);
    if u != t && Offers(s, u) {
      PublishingIsLogged(s, s', index, prev, node, t);
      OthersKeepCallOk(s, s', index, u);
    }
  }

  lemma FetchAddKeepsInv(s: State, index: Index, t: Tid)
    requires Inv(s, index) && t in s.calls && s.calls[t].pc.FetchAdd?
    ensures Inv(Step(s, index, Advance(t)), index)
  {
    var s' := Step(s, index, Advance(t));
    forall u ensures CallOk(s', index, u) {
      assert CallOk(s, index, u);
      if u != t && Offers(s, u) { OthersKeepCallOk(s, s', index, u); }
    }
    assert Uncounted(s') == Uncounted(s) - {t};
  }

  /// A reference count is nobody's key, hash or link.
  lemma ReferKeepsInv(s: State, index: Index, a: Action)
    requires Inv(s, index) && Enabled(s, a) && a.Refer?
    ensures Inv(Step(s, index, a), index)
  {
    var s' := Step(s, index, a);
    ShapeDecides(s.table, s'.table, index);
    forall u ensures CallOk(s', index, u) {
      assert CallOk(s, index, u);
      if Offers(s, u) { OthersKeepCallOk(s, s', index, u); }
    }
    assert Uncounted(s') == Uncounted(s);
  }

  lemma StepKeepsInv(s: State, index: Index, a: Action)
    requires Inv(s, index) && Enabled(s, a)
    ensures Inv(Step(s, index, a), index)
  {
    match a
    case Begin(t, node, content) => BeginKeepsInv(s, index, t, node, content);
    case Refer(_, _, _) => ReferKeepsInv(s, index, a);
    case Advance(t) =>
      assert CallOk(s, index, t);
      match s.calls[t].pc
      case LoadHead(_) => LoadHeadKeepsInv(s, index, t);
      case Compare(_, _, _) => CompareKeepsInv(s, index, t);
      case StoreNext(_, _, _) => StoreNextKeepsInv(s, index, t);
      case TryCas(_, prev, curr) =>
        if Load(s.table, prev) == curr { CasSuccessKeepsInv(s, index, t); } else { CasFailureKeepsInv(s, index, t); }
      case FetchAdd(_) => FetchAddKeepsInv(s, index, t);
  }

  // ---------- Linearizability ----------

  /// An atomic get-or-insert on a set of keyed nodes: `m` becomes `m'` and the answer is `r`.
  ghost predicate Atomic(m: map<Ptr, Key>, r: Result, m': map<Ptr, Key>) {
    if r.inserted then r.key !in m.Values && r.ptr !in m && m' == m[r.ptr := r.key]
    else r.ptr in m && m[r.ptr] == r.key && m' == m
  }

  /// The set after a sequence of answers.
  ghost function Replay(m: map<Ptr, Key>, rs: seq<Result>): map<Ptr, Key> {
    if rs == [] then m else
      var before := Replay(m, rs[..|rs| - 1]);
      var r := rs[|rs| - 1];
      if r.inserted then before[r.ptr := r.key] else before
  }

  ghost predicate AtomicAt(m: map<Ptr, Key>, rs: seq<Result>, i: int) {
    0 <= i < |rs| ==> Atomic(Replay(m, rs[..i]), rs[i], Replay(m, rs[..i + 1]))
  }

  /// Each answer is the atomic operation's, given the answers before it.
  ghost predicate Sequential(m: map<Ptr, Key>, rs: seq<Result>) {
    forall i :: AtomicAt(m, rs, i)
  }

  /// Thread t, whose call offers a node with key `r.key`, settles on answer `r`.
  ghost predicate Settles(s: State, s': State, index: Index, t: Tid)
    requires NodesOk(s.table, index) && NodesOk(s'.table, index)
  {
    && Offers(s, t) && s.calls[t].pc.node in s.table.heap
    && |s'.results| == |s.results| + 1 && s.results <= s'.results
    && var r := s'.results[|s.results|];
       && r.tid == t && r.key == s.table.heap[s.calls[t].pc.node].RawKey()
       && (r.inserted ==> r.ptr == s.calls[t].pc.node)
       && Atomic(View(s.table), r, View(s'.table))
  }

  lemma CasSettles(s: State, index: Index, t: Tid)
    requires Inv(s, index) && t in s.calls && s.calls[t].pc.TryCas? && CallOk(s, index, t)
    requires Load(s.table, s.calls[t].pc.prev) == s.calls[t].pc.curr && NodesOk(CasStep(s, t).table, index)
    ensures Settles(s, CasStep(s, t), index, t)
  {
    var TryCas(node, prev, curr) := s.calls[t].pc;
    GapMeansAbsent(s.table, index, prev, KeyAt(s.table, node));
    assert View(Linked(s.table, prev, node)) == View(s.table)[node := KeyAt(s.table, node)];
  }

  lemma CompareSettles(s: State, index: Index, t: Tid)
    requires Inv(s, index) && t in s.calls && s.calls[t].pc.Compare? && CallOk(s, index, t)
    ensures var s' := CompareStep(s, t);
      s'.table == s.table && (s'.results == s.results || Settles(s, s', index, t))
  {
  }

  /// What happens outside the calls, and the first and last steps of a call, nobody sees.
  lemma QuietStep(s: State, index: Index, a: Action)
    requires Inv(s, index) && Enabled(s, a)
    requires a.Advance? ==> var pc := s.calls[a.t].pc; pc.LoadHead? || pc.StoreNext? || pc.FetchAdd?
    ensures var s' := Step(s, index, a);
      && s'.results == s.results && (forall p :: p in s'.table.nodes ==> p in s'.table.heap)
      && View(s'.table) == View(s.table)
  {
    if a.Advance? { assert CallOk(s, index, a.t); }
  }

  /// A step is invisible, or it is the atomic operation of the call that makes it, on the key that
  /// call was made with; an insertion hands back the very node the call offered.
  lemma StepIsAtomic(s: State, index: Index, a: Action)
    requires Inv(s, index) && Enabled(s, a)
    ensures Inv(Step(s, index, a), index)
    ensures var s' := Step(s, index, a);
      || (s'.results == s.results && View(s'.table) == View(s.table))
      || (a.Advance? && Settles(s, s', index, a.t))
  {
    hide Settles, View;
    StepKeepsInv(s, index, a);
    if a.Advance? {
      assert CallOk(s, index, a.t);
      match s.calls[a.t].pc
      case Compare(_, _, _) => CompareSettles(s, index, a.t);
      case TryCas(_, prev, curr) => if Load(s.table, prev) == curr { CasSettles(s, index, a.t); }
      case _ => QuietStep(s, index, a);
    } else {
      QuietStep(s, index, a);
    }
  }

  ghost predicate CanRun(s: State, index: Index, actions: seq<Action>)
    requires Inv(s, index)
    decreases |actions|
  {
    actions != [] ==>
      && Enabled(s, actions[0])
      && (StepKeepsInv(s, index, actions[0]); CanRun(Step(s, index, actions[0]), index, actions[1..]))
  }

  ghost function Run(s: State, index: Index, actions: seq<Action>): State
    requires Inv(s, index) && CanRun(s, index, actions)
    decreases |actions|
  {
    if actions == [] then s else
      StepKeepsInv(s, index, actions[0]);
      Run(Step(s, index, actions[0]), index, actions[1..])
  }

  lemma OneMoreAnswer(m: map<Ptr, Key>, rs: seq<Result>, r: Result, now: map<Ptr, Key>)
    requires Sequential(m, rs) && Atomic(Replay(m, rs), r, now)
    ensures Sequential(m, rs + [r]) && Replay(m, rs + [r]) == now
  {
    var more := rs + [r];
    assert more[..|rs|] == rs && more[..|more|] == more;
    forall i ensures AtomicAt(m, more, i) {
      if 0 <= i < |rs| {
        assert AtomicAt(m, rs, i);
        assert more[..i] == rs[..i] && more[..i + 1] == rs[..i + 1];
      }
    }
  }

  lemma {:induction false} RunIsSequential(s: State, index: Index, actions: seq<Action>, m: map<Ptr, Key>)
    requires Inv(s, index) && CanRun(s, index, actions)
    requires Sequential(m, s.results) && Replay(m, s.results) == View(s.table)
    ensures var e := Run(s, index, actions);
      Inv(e, index) && Sequential(m, e.results) && Replay(m, e.results) == View(e.table)
    decreases |actions|
  {
    if actions != [] {
      StepIsAtomic(s, index, actions[0]);
      var s' := Step(s, index, actions[0]);
      if s'.results != s.results {
        var r := s'.results[|s.results|];
        assert s'.results == s.results + [r];
        OneMoreAnswer(m, s.results, r, View(s'.table));
      }
      RunIsSequential(s', index, actions[1..], m);
    }
  }

  /// Linearizability. Whatever the interleaving, the table stays well formed, the answers are
  /// those of atomic get-or-inserts on a set, one after the other, and that set is the table.
  lemma Linearizable(s: State, index: Index, actions: seq<Action>)
    requires Init(s, index) && CanRun(s, index, actions)
    ensures var e := Run(s, index, actions);
      && Inv(e, index)
      && Sequential(View(s.table), e.results)
      && Replay(View(s.table), e.results) == View(e.table)
  {
    RunIsSequential(s, index, actions, View(s.table));
  }

  ghost predicate UniqueKeys(m: map<Ptr, Key>) {
    forall p, q :: p in m && q in m && m[p] == m[q] ==> p == q
  }

  lemma {:induction false} ReplayKeeps(m: map<Ptr, Key>, rs: seq<Result>)
    requires UniqueKeys(m) && Sequential(m, rs)
    ensures UniqueKeys(Replay(m, rs))
    ensures forall p :: p in m ==> p in Replay(m, rs) && Replay(m, rs)[p] == m[p]
    ensures forall i :: 0 <= i < |rs| ==> rs[i].ptr in Replay(m, rs) && Replay(m, rs)[rs[i].ptr] == rs[i].key
  {
    if rs != [] {
      PrefixIsSequential(m, rs);
      ReplayKeeps(m, rs[..|rs| - 1]);
      assert AtomicAt(m, rs, |rs| - 1) && rs[..|rs|] == rs;
    }
  }

  /// What was not there at first was inserted by one of the answers, and by one only.
  lemma {:induction false} ReplayInserts(m: map<Ptr, Key>, rs: seq<Result>)
    requires UniqueKeys(m) && Sequential(m, rs)
    ensures forall i :: 0 <= i < |rs| && rs[i].inserted ==> rs[i].ptr !in m
    ensures forall i, j :: 0 <= i < j < |rs| && rs[j].inserted ==> rs[i].ptr != rs[j].ptr
    ensures forall p :: p in Replay(m, rs) && p !in m ==> exists i :: 0 <= i < |rs| && rs[i].inserted && rs[i].ptr == p
  {
    if rs != [] {
      var init, r := rs[..|rs| - 1], rs[|rs| - 1];
      PrefixIsSequential(m, rs);
      ReplayKeeps(m, init);
      ReplayInserts(m, init);
      assert AtomicAt(m, rs, |rs| - 1) && rs[..|rs|] == rs;
      assert forall i :: 0 <= i < |init| ==> rs[i] == init[i];
      forall p | p in Replay(m, rs) && p !in m
        ensures exists i :: 0 <= i < |rs| && rs[i].inserted && rs[i].ptr == p
      {
        if p in Replay(m, init) {
          var i :| 0 <= i < |init| && init[i].inserted && init[i].ptr == p;
          assert rs[i] == init[i];
        } else {
          assert rs[|rs| - 1].inserted && rs[|rs| - 1].ptr == p;
        }
      }
    }
  }

  lemma PrefixIsSequential(m: map<Ptr, Key>, rs: seq<Result>)
    requires Sequential(m, rs) && rs != []
    ensures Sequential(m, rs[..|rs| - 1])
  {
    var init := rs[..|rs| - 1];
    forall i ensures AtomicAt(m, init, i) {
      if 0 <= i < |init| {
        assert AtomicAt(m, rs, i);
        assert init[..i] == rs[..i] && init[..i + 1] == rs[..i + 1];
      }
    }
  }

  /// Calls with equal keys get the same node; at most one of them reports an insertion, and one
  /// does exactly when the key was not there to begin with.
  lemma EqualKeysAgree(m: map<Ptr, Key>, rs: seq<Result>, i: nat)
    requires UniqueKeys(m) && Sequential(m, rs) && i < |rs|
    ensures forall j :: 0 <= j < |rs| && rs[j].key == rs[i].key ==> rs[j].ptr == rs[i].ptr
    ensures forall j, k :: 0 <= j < k < |rs| && rs[j].key == rs[k].key == rs[i].key ==>
        !rs[k].inserted || !rs[j].inserted
    ensures (exists j :: 0 <= j < |rs| && rs[j].key == rs[i].key && rs[j].inserted) <==> rs[i].key !in m.Values
  {
    ReplayKeeps(m, rs);
    ReplayInserts(m, rs);
    if rs[i].key in m.Values {
      var p :| p in m && m[p] == rs[i].key;
      assert Replay(m, rs)[p] == Replay(m, rs)[rs[i].ptr];
    } else {
      assert rs[i].ptr !in m;
    }
  }

  /// The two combined: in any run from a quiet table, all calls with one key get one node; at most
  /// one of them reports an insertion, and one does exactly when the key was not there at the start.
  lemma ConcurrentCallsAgree(s: State, index: Index, actions: seq<Action>, i: nat)
    requires Init(s, index) && CanRun(s, index, actions) && i < |Run(s, index, actions).results|
    ensures var rs := Run(s, index, actions).results;
      && (forall j :: 0 <= j < |rs| && rs[j].key == rs[i].key ==> rs[j].ptr == rs[i].ptr)
      && (forall j, k :: 0 <= j < k < |rs| && rs[j].key == rs[k].key == rs[i].key ==>
            !rs[k].inserted || !rs[j].inserted)
      && ((exists j :: 0 <= j < |rs| && rs[j].key == rs[i].key && rs[j].inserted)
          <==> rs[i].key !in View(s.table).Values)
  {
    Linearizable(s, index, actions);
    forall p, q | p in View(s.table) && q in View(s.table) && View(s.table)[p] == View(s.table)[q] ensures p == q {
      assert KeysDiffer(s.table, p, q);
    }
    EqualKeysAgree(View(s.table), Run(s, index, actions).results, i);
  }

  // ---------- Real time ----------

  /// Thread t makes no new call.
  ghost predicate NoBegin(actions: seq<Action>, t: Tid) {
    forall i :: 0 <= i < |actions| ==> !(actions[i].Begin? && actions[i].t == t)
  }

  /// The key that t's running call was made with.
  ghost function CallKey(s: State, t: Tid): Key
    requires Offers(s, t) && s.calls[t].pc.node in s.table.heap
  {
    s.table.heap[s.calls[t].pc.node].RawKey()
  }

  /// From `n` on, none of the answers is t's.
  ghost predicate Silent(rs: seq<Result>, n: nat, t: Tid) {
    forall j :: n <= j < |rs| ==> rs[j].tid != t
  }

  /// From `n` on, one of the answers is t's, and it is for key `k`.
  ghost predicate AnsweredOnce(rs: seq<Result>, n: nat, t: Tid, k: Key) {
    exists i ::
      && n <= i < |rs| && rs[i].tid == t && rs[i].key == k
      && forall j :: n <= j < |rs| && j != i ==> rs[j].tid != t
  }

  /// What one step does to t's call: it goes on with the same node, or it settles.
  ghost predicate CallGoesOn(s: State, s': State, t: Tid)
    requires Offers(s, t) && s.calls[t].pc.node in s.table.heap
  {
    && s.results <= s'.results
    && if Offers(s', t) then
         && s'.calls[t].pc.node in s'.table.heap && CallKey(s', t) == CallKey(s, t)
         && Silent(s'.results, |s.results|, t)
       else AnsweredOnce(s'.results, |s.results|, t, CallKey(s, t))
  }

  lemma CallAdvances(s: State, index: Index, a: Action, t: Tid)
    requires Inv(s, index) && Enabled(s, a) && !(a.Begin? && a.t == t) && Offers(s, t)
    ensures CallOk(s, index, t) && CallGoesOn(s, Step(s, index, a), t)
  {
    var s' := Step(s, index, a);
    assert CallOk(s, index, t);
    if a.Advance? { assert CallOk(s, index, a.t); }
    if !Offers(s', t) {
      assert s'.results[|s.results|].tid == t;
    }
  }

  lemma IdleStaysSilent(s: State, index: Index, a: Action, t: Tid)
    requires Inv(s, index) && Enabled(s, a) && !(a.Begin? && a.t == t) && !Offers(s, t)
    ensures var s' := Step(s, index, a);
      !Offers(s', t) && s.results <= s'.results && Silent(s'.results, |s.results|, t)
  {
    if a.Advance? { assert CallOk(s, index, a.t); }
  }

  lemma {:induction false} IdleAnswersNothing(s: State, index: Index, actions: seq<Action>, t: Tid)
    requires Inv(s, index) && CanRun(s, index, actions) && NoBegin(actions, t) && !Offers(s, t)
    ensures var e := Run(s, index, actions);
      !Offers(e, t) && s.results <= e.results && Silent(e.results, |s.results|, t)
    decreases |actions|
  {
    if actions != [] {
      StepKeepsInv(s, index, actions[0]);
      IdleStaysSilent(s, index, actions[0], t);
      IdleAnswersNothing(Step(s, index, actions[0]), index, actions[1..], t);
    }
  }

  /// From its begin until it has settled a call gives no answer, and by the time it returns it has
  /// given exactly one, for the key it was made with. So the order of the answers respects real
  /// time: a call that returns before another begins is answered before it.
  lemma {:induction false} CallAnswersOnce(s: State, index: Index, actions: seq<Action>, t: Tid)
    requires Inv(s, index) && CanRun(s, index, actions) && NoBegin(actions, t) && Offers(s, t)
    ensures CallOk(s, index, t) && CallGoesOn(s, Run(s, index, actions), t)
    decreases |actions|
  {
    assert CallOk(s, index, t);
    if actions != [] {
      var s' := Step(s, index, actions[0]);
      StepKeepsInv(s, index, actions[0]);
      CallAdvances(s, index, actions[0], t);
      var e := Run(s, index, actions);
      if Offers(s', t) {
        CallAnswersOnce(s', index, actions[1..], t);
      } else {
        IdleAnswersNothing(s', index, actions[1..], t);
      }
      CallsCompose(s, s', e, t);
    }
  }

  lemma CallsCompose(s: State, s': State, e: State, t: Tid)
    requires Offers(s, t) && s.calls[t].pc.node in s.table.heap && CallGoesOn(s, s', t)
    requires if Offers(s', t) then CallGoesOn(s', e, t)
             else !Offers(e, t) && s'.results <= e.results && Silent(e.results, |s'.results|, t)
    ensures CallGoesOn(s, e, t)
  {
    var n, k := |s.results|, CallKey(s, t);
    assert forall j :: 0 <= j < |s'.results| ==> e.results[j] == s'.results[j];
    if !Offers(s', t) {
      var i :| n <= i < |s'.results| && s'.results[i].tid == t && s'.results[i].key == k
               && forall j :: n <= j < |s'.results| && j != i ==> s'.results[j].tid != t;
      assert e.results[i].tid == t;
    } else if !Offers(e, t) {
      var i :| |s'.results| <= i < |e.results| && e.results[i].tid == t && e.results[i].key == k
               && forall j :: |s'.results| <= j < |e.results| && j != i ==> e.results[j].tid != t;
      assert e.results[i].tid == t;
    }
  }

  /// A run can be cut anywhere.
  lemma {:induction false} RunJoins(s: State, index: Index, first: seq<Action>, second: seq<Action>)
    requires Inv(s, index) && CanRun(s, index, first)
    ensures Inv(Run(s, index, first), index)
    ensures CanRun(Run(s, index, first), index, second) ==>
        CanRun(s, index, first + second) && Run(s, index, first + second) == Run(Run(s, index, first), index, second)
    decreases |first|
  {
    hide Inv, Step, Enabled;
    if first == [] {
      assert first + second == second;
    } else {
      StepKeepsInv(s, index, first[0]);
      RunJoins(Step(s, index, first[0]), index, first[1..], second);
      assert (first + second)[1..] == first[1..] + second;
    }
  }

  /// Entry `i` of the answers is the only one of thread t's from `n` to `m`, and it is for key `k`.
  ghost predicate AnsweredAt(rs: seq<Result>, n: nat, m: nat, t: Tid, k: Key, i: int) {
    && n <= i < m <= |rs| && rs[i].tid == t && rs[i].key == k
    && forall j :: n <= j < m && j != i ==> rs[j].tid != t
  }

  /// Real time: t's call settles before u's begins, and is answered before it, each of them once.
  lemma RealTimeOrder(s: State, index: Index, first: seq<Action>, second: seq<Action>, t: Tid, u: Tid)
    requires Inv(s, index) && CanRun(s, index, first) && NoBegin(first, t) && Offers(s, t)
    requires !Offers(Run(s, index, first), t) && Inv(Run(s, index, first), index)
    requires CanRun(Run(s, index, first), index, second)
    requires second != [] && second[0].Begin? && second[0].t == u && NoBegin(second[1..], u)
    requires !Offers(Run(Run(s, index, first), index, second), u)
    ensures s.calls[t].pc.node in s.table.heap
    ensures CanRun(s, index, first + second) && s.results <= Run(s, index, first).results
    ensures var n, m, rs := |s.results|, |Run(s, index, first).results|, Run(s, index, first + second).results;
      && (exists i :: AnsweredAt(rs, n, m, t, CallKey(s, t), i))
      && (exists j :: AnsweredAt(rs, m, |rs|, u, second[0].content.RawKey(), j))
  {
    hide Inv, Step, Enabled, AnsweredAt, AnsweredOnce, PositionOk, BlamesOk;
    var mid := Run(s, index, first);
    var begun := Step(mid, index, second[0]);
    var rs := Run(mid, index, second).results;
    RunJoins(s, index, first, second);
    CallAnswersOnce(s, index, first, t);
    StepKeepsInv(mid, index, second[0]);
    CallBegins(mid, index, second[0]);
    CallAnswersOnce(begun, index, second[1..], u);
    var i := SingleAnswer(mid.results, |s.results|, t, CallKey(s, t));
    var j := SingleAnswer(rs, |mid.results|, u, second[0].content.RawKey());
    AnswerStays(mid.results, rs, |s.results|, t, CallKey(s, t), i);
  }

  lemma CallBegins(s: State, index: Index, a: Action)
    requires Inv(s, index) && Enabled(s, a) && a.Begin?
    ensures var s' := Step(s, index, a);
      && Offers(s', a.t) && s'.calls[a.t].pc.node in s'.table.heap
      && CallKey(s', a.t) == a.content.RawKey() && s'.results == s.results
  {
  }

  lemma AnswerStays(rs: seq<Result>, more: seq<Result>, n: nat, t: Tid, k: Key, i: int)
    requires AnsweredAt(rs, n, |rs|, t, k, i) && rs <= more
    ensures AnsweredAt(more, n, |rs|, t, k, i)
  {
    assert forall j :: 0 <= j < |rs| ==> more[j] == rs[j];
  }

  lemma SingleAnswer(rs: seq<Result>, n: nat, t: Tid, k: Key) returns (i: int)
    requires AnsweredOnce(rs, n, t, k)
    ensures AnsweredAt(rs, n, |rs|, t, k, i)
  {
    i :| && n <= i < |rs| && rs[i].tid == t && rs[i].key == k
         && forall j :: n <= j < |rs| && j != i ==> rs[j].tid != t;
  }

  // ---------- Progress ----------

  /// The publications other threads have made in t's bucket since t's call began.
  ghost function Rivals(s: State, index: Index, t: Tid): set<int>
    requires Offers(s, t) && s.calls[t].pc.node in s.table.heap && NodesOk(s.table, index)
  {
    set k | s.calls[t].began <= k < |s.publications| && Rival(s, index, t, k)
  }

  lemma {:induction false} AscendingFits(b: seq<int>, r: set<int>)
    requires forall i, j :: 0 <= i < j < |b| ==> b[i] < b[j]
    requires forall i :: 0 <= i < |b| ==> b[i] in r
    ensures |b| <= |r|
  {
    if b != [] { AscendingFits(b[..|b| - 1], r - {b[|b| - 1]}); }
  }

  /// Lock freedom: a call has failed no more often than other threads have inserted into its
  /// bucket while it ran, because each failed CAS is charged to a different one of those.
  lemma RetriesAreBounded(s: State, index: Index, t: Tid)
    requires Inv(s, index) && Offers(s, t)
    ensures CallOk(s, index, t) && |s.calls[t].blames| <= |Rivals(s, index, t)|
  {
    assert CallOk(s, index, t);
    AscendingFits(s.calls[t].blames, Rivals(s, index, t));
  }
}
