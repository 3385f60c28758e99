/// The BDD manager of src/tobdd.rs: `init`, the memoized recursions, reference counts, collection
/// and growth. The recursions insert into the shared table and caches as they go; between any two
/// accesses other threads may do the same (`Others`), and outside a guard they may do anything that
/// keeps the referenced nodes (`Meanwhile`).

module BddManager {
  import opened Counting
  import opened Nodes
  import opened Chains
  import opened Diagrams
  import opened UniqueTable
  import opened OperationCache
  import opened Operations

  // ---------- References ----------

  /// The vectors of variables and negated variables hold what they should.
  ghost predicate VarsOk(d: Diagram, vars: seq<Ptr>, nvars: seq<Ptr>) {
    && |vars| == |nvars| == d.n
    && (forall i :: 0 <= i < d.n ==> vars[i] in d.g && d.g[vars[i]] == Key(i, d.f, d.t))
    && (forall i :: 0 <= i < d.n ==> nvars[i] in d.g && d.g[nvars[i]] == Key(i, d.t, d.f))
  }

  /// A reference count covers the references answered for. Some nodes are exempt: `deserialize`
  /// drops references on the terminals that it never took.
  ghost predicate CoverOk(t: Table, exempt: set<Ptr>, pinned: multiset<Ptr>, p: Ptr) {
    p in t.nodes && p !in exempt ==> CoveredAt(t, pinned, p)
  }

  ghost predicate Covered(t: Table, exempt: set<Ptr>, pinned: multiset<Ptr>) {
    forall p :: CoverOk(t, exempt, pinned, p)
  }

  /// A reference count is exactly the number of references answered for.
  ghost predicate Balanced(t: Table, exempt: set<Ptr>, pinned: multiset<Ptr>, p: Ptr) {
    p in t.nodes && p !in exempt ==> p in t.heap && t.heap[p].refCnt == pinned[p]
  }

  /// All counts are exact.
  ghost predicate Exactly(t: Table, exempt: set<Ptr>, pinned: multiset<Ptr>) {
    forall p :: Balanced(t, exempt, pinned, p)
  }

  lemma CoverSurvives(t: Table, u: Table, exempt: set<Ptr>, pinned: multiset<Ptr>)
    requires Covered(t, exempt, pinned) && Evolves(t, u, exempt, pinned)
    ensures Covered(u, exempt, pinned)
  {
    forall p ensures CoverOk(u, exempt, pinned, p) {
      assert CoverOk(t, exempt, pinned, p) && CoverKept(t, u, exempt, pinned, p);
    }
  }

  /// Counts survive a lookup or an insertion that nobody interfered with.
  lemma BalanceSurvives(t: Table, u: Table, exempt: set<Ptr>, pinned: multiset<Ptr>, p: Ptr, k: Key, inserted: bool)
    requires Exactly(t, exempt, pinned)
    requires if inserted then SoloInsert(t, u, p, k) else SoloLookup(t, u)
    requires p !in t.nodes && p !in pinned && p in t.heap && t.heap[p].refCnt == 0
    ensures Exactly(u, exempt, pinned)
    ensures |u.nodes| == |t.nodes| + if inserted then 1 else 0
  {
    assert u.nodes == View(u).Keys && t.nodes == View(t).Keys;
    assert inserted ==> u.nodes == t.nodes + {p};
    forall q ensures Balanced(u, exempt, pinned, q) {
      assert Balanced(t, exempt, pinned, q);
      assert q in u.heap ==> t.heap[q].(next := NULL) == u.heap[q].(next := NULL);
    }
  }

  /// Taking or dropping one reference, in the count and, if `mine`, in the books.
  lemma CountOne(t: Table, exempt: set<Ptr>, pinned: multiset<Ptr>, p: Ptr, more: multiset<Ptr>, delta: int, mine: bool)
    requires p in t.nodes && p in t.heap && forall q :: q != p ==> more[q] == pinned[q]
    requires if mine then more[p] == pinned[p] + delta else more[p] == pinned[p] && p in exempt
    ensures var u := t.(heap := t.heap[p := t.heap[p].(refCnt := t.heap[p].refCnt + delta)]);
      && (Covered(t, exempt, pinned) ==> Covered(u, exempt, more))
      && (Exactly(t, exempt, pinned) ==> Exactly(u, exempt, more))
  {
    var u := t.(heap := t.heap[p := t.heap[p].(refCnt := t.heap[p].refCnt + delta)]);
    if Covered(t, exempt, pinned) {
      forall q ensures CoverOk(u, exempt, more, q) { assert CoverOk(t, exempt, pinned, q); }
    }
    if Exactly(t, exempt, pinned) {
      forall q ensures Balanced(u, exempt, more, q) { assert Balanced(t, exempt, pinned, q); }
    }
  }

  /// Memory nobody else knows does not count.
  lemma PrivateKeepsRefs(t: Table, u: Table, exempt: set<Ptr>, pinned: multiset<Ptr>)
    requires PrivateChange(t, u)
    ensures Covered(t, exempt, pinned) ==> Covered(u, exempt, pinned)
    ensures Exactly(t, exempt, pinned) ==> Exactly(u, exempt, pinned)
  {
    if Covered(t, exempt, pinned) {
      forall q ensures CoverOk(u, exempt, pinned, q) { assert CoverOk(t, exempt, pinned, q); }
    }
    if Exactly(t, exempt, pinned) {
      forall q ensures Balanced(u, exempt, pinned, q) { assert Balanced(t, exempt, pinned, q); }
    }
  }

  /// Published nodes stay published, with the counts they had.
  ghost predicate CountsStay(t: Table, u: Table) {
    forall p :: p in t.nodes ==> p in u.nodes && p in t.heap && p in u.heap && u.heap[p].refCnt == t.heap[p].refCnt
  }

  lemma SoloKeepsCounts(t: Table, u: Table, p: Ptr, k: Key, inserted: bool)
    requires if inserted then SoloInsert(t, u, p, k) else SoloLookup(t, u)
    ensures CountsStay(t, u)
  {
    forall q | q in t.nodes ensures q in u.nodes && u.heap[q].refCnt == t.heap[q].refCnt {
      assert q in View(t) && q in View(u);
      assert t.heap[q].(next := NULL) == u.heap[q].(next := NULL);
    }
  }

  /// `make_node`'s spare node is private and unreferenced.
  ghost predicate SpareOk(t: Table, spare: Ptr) {
    spare == NULL || (spare in t.heap && spare !in t.nodes && t.heap[spare].refCnt == 0)
  }

  // ---------- Collection ----------

  /// Whatever is answered for is reached from a referenced node: directly, or, for a terminal,
  /// through a variable.
  lemma PinnedAreReached(t: Table, d: Diagram, vars: seq<Ptr>, nvars: seq<Ptr>, exempt: set<Ptr>, pinned: multiset<Ptr>)
    requires d.Ok() && d.g.Keys == t.nodes && VarsOk(d, vars, nvars) && Covered(t, exempt, pinned)
    requires forall p :: p in pinned ==> p in t.nodes
    requires forall v :: v in vars ==> v in pinned
    requires exempt == if d.n == 0 then {} else {d.f, d.t}
    requires d.f in pinned && d.t in pinned
    ensures forall p :: p in pinned ==> p in ReachAll(d, Referenced(t))
    ensures Closed(d, ReachAll(d, Referenced(t)))
  {
    forall p | p in pinned && p !in exempt ensures p in ReachAll(d, Referenced(t)) {
      assert CoverOk(t, exempt, pinned, p);
      ReachFacts(d, p);
    }
    if d.n > 0 {
      var v := vars[0];
      assert v in vars && !d.Terminal(v) && d.NodeFits(v);
      ReachAllClosed(d, Referenced(t), v);
      ReachFacts(d, d.f);
      ReachFacts(d, d.t);
    }
    forall p | p in ReachAll(d, Referenced(t)) ensures p in d.g && Reach(d, p) <= ReachAll(d, Referenced(t)) {
      ReachAllClosed(d, Referenced(t), p);
    }
  }

  ghost function Support(pinned: multiset<Ptr>): set<Ptr> {
    set p | p in pinned
  }

  /// With exact counts, what collection keeps is what the references answered for reach.
  lemma LiveIsHeld(t: Table, d: Diagram, exempt: set<Ptr>, pinned: multiset<Ptr>)
    requires d.Ok() && d.g.Keys == t.nodes && Exactly(t, exempt, pinned)
    requires forall p :: p in pinned ==> p in ReachAll(d, Referenced(t))
    requires forall p :: p in exempt ==> p in pinned
    ensures ReachAll(d, Referenced(t)) == ReachAll(d, Support(pinned))
  {
    hide ReachAll;
    forall p | p in Referenced(t) ensures p in ReachAll(d, Support(pinned)) {
      assert Balanced(t, exempt, pinned, p);
      RootsReachThemselves(d, Support(pinned), p);
    }
    ReachAllMonotone(d, Referenced(t), Support(pinned));
    ReachAllMonotone(d, Support(pinned), Referenced(t));
  }

  /// What a collection makes of a table: exactly the nodes in `keep` are left, each as it was, and
  /// exactly the others are freed.
  ghost predicate Collected(t: Table, u: Table, keep: set<Ptr>) {
    && u.nodes == keep <= t.nodes
    && u.heap.Keys == t.heap.Keys - (t.nodes - keep)
    && (forall p :: p in keep ==> p in t.heap && p in u.heap && u.heap[p].(next := NULL) == t.heap[p].(next := NULL))
    && (forall p :: p in u.heap ==> u.heap[p].refCnt == t.heap[p].refCnt)
  }

  lemma MarkSweepUnmarkCollects(t0: Table, t1: Table, t2: Table, t3: Table, hash: Key -> nat, keep: set<Ptr>)
    requires TableReady(t0, hash) && Remarked(t0, t1, hash, keep) && Swept(t1, t2, hash) && t2.nodes == keep
    requires Remarked(t2, t3, hash, {}) && TableReady(t3, hash)
    ensures Collected(t0, t3, keep)
  {
    hide WellFormed, TableValid, MarkedIn;
    forall p | p in t3.heap ensures Unmark(t3.heap[p]).(next := NULL) == Unmark(t0.heap[p]).(next := NULL) {
      assert t2.heap[p].(next := NULL) == t1.heap[p].(next := NULL);
      assert Unmark(t2.heap[p]).(next := NULL) == Unmark(t1.heap[p]).(next := NULL);
    }
    forall p | p in keep
      ensures p in t0.heap && p in t3.heap && t3.heap[p].(next := NULL) == t0.heap[p].(next := NULL)
    {
      assert CleanAt(t0, p) && CleanAt(t3, p);
    }
  }

  lemma SweptView(t1: Table, t2: Table, hash: Key -> nat, d: Diagram)
    requires TableValid(t1, hash) && Swept(t1, t2, hash) && d.g == View(t1)
    ensures View(t2) == Restrict(d, t2.nodes).g
  {
    assert forall p :: p in t2.nodes ==> KeyAt(t2, p) == KeyAt(t1, p);
  }

  /// From `t` to `u` nodes were taken out at most, and whatever is left has the count it had.
  ghost predicate CountsKept(t: Table, u: Table) {
    && u.nodes <= t.nodes
    && (forall p :: p in t.heap && (p in t.nodes ==> p in u.nodes) ==>
        p in u.heap && u.heap[p].refCnt == t.heap[p].refCnt)
  }

  lemma KeptCountsKeepRefs(t: Table, u: Table, exempt: set<Ptr>, pinned: multiset<Ptr>, spare: Ptr)
    requires CountsKept(t, u)
    ensures Covered(t, exempt, pinned) ==> Covered(u, exempt, pinned)
    ensures Exactly(t, exempt, pinned) ==> Exactly(u, exempt, pinned)
    ensures SpareOk(t, spare) ==> SpareOk(u, spare)
  {
    if Covered(t, exempt, pinned) {
      forall q ensures CoverOk(u, exempt, pinned, q) { assert CoverOk(t, exempt, pinned, q); }
    }
    if Exactly(t, exempt, pinned) {
      forall q ensures Balanced(u, exempt, pinned, q) { assert Balanced(t, exempt, pinned, q); }
    }
  }

  lemma CollectingKeepsCounts(t: Table, u: Table, keep: set<Ptr>)
    requires Collected(t, u, keep)
    ensures CountsKept(t, u)
  {
  }

  lemma GrowingKeepsCounts(t: Table, u: Table, v: Table, hash: Key -> nat, m: set<Ptr>)
    requires Remarked(t, u, hash, m) && u.nodes == v.nodes && NextsOnly(u.heap, v.heap)
    ensures CountsKept(t, v)
  {
    forall p | p in t.heap ensures p in v.heap && v.heap[p].refCnt == t.heap[p].refCnt {
      assert Unmark(t.heap[p]) == Unmark(u.heap[p]) && u.heap[p].(next := NULL) == v.heap[p].(next := NULL);
    }
  }

  /// Every node in `pinned` is there before and after, and denotes the same function.
  ghost predicate KeepsMeaning(d: Diagram, e: Diagram, pinned: multiset<Ptr>)
  {
    && d.Ok() && e.Ok()
    && forall p :: p in pinned ==> p in d.g && p in e.g && Denotes(e, p) == Denotes(d, p)
  }

  lemma KeepsMeaningTransitively(d: Diagram, e: Diagram, e': Diagram, pinned: multiset<Ptr>)
    requires KeepsMeaning(d, e, pinned) && KeepsMeaning(e, e', pinned)
    ensures KeepsMeaning(d, e', pinned)
  {
  }

  lemma NothingKeepsMeaning(d: Diagram, pinned: multiset<Ptr>)
    requires d.Ok() && forall p :: p in pinned ==> p in d.g
    ensures KeepsMeaning(d, d, pinned)
  {
  }

  lemma GrowingKeepsMeaning(d: Diagram, e: Diagram, e': Diagram, pinned: multiset<Ptr>)
    requires KeepsMeaning(d, e, pinned) && e'.Ok() && Grows(e, e')
    ensures KeepsMeaning(d, e', pinned)
  {
    GrowthKeepsMeaning(e, e');
  }

  lemma CollectingKeepsMeaning(d: Diagram, keep: set<Ptr>, vars: seq<Ptr>, nvars: seq<Ptr>, pinned: multiset<Ptr>)
    requires d.Ok() && Closed(d, keep) && forall p :: p in pinned ==> p in keep
    requires VarsOk(d, vars, nvars) && forall v :: v in vars || v in nvars ==> v in keep
    ensures KeepsMeaning(d, Restrict(d, keep), pinned) && VarsOk(Restrict(d, keep), vars, nvars)
  {
    RestrictKeepsMeaning(d, keep);
    assert forall i :: 0 <= i < d.n ==> vars[i] in vars && nvars[i] in nvars;
  }

  /// An operation's outcome: the old nodes' meaning is kept, and `r` denotes what it should.
  ghost predicate Done(op: Op, d: Diagram, e: Diagram, pinned: multiset<Ptr>, x: Ptr, y: Ptr, r: Ptr) {
    && KeepsMeaning(d, e, pinned) && x in d.g && y in d.g && r in e.g
    && Denotes(e, r) == Apply(op, Denotes(d, x), Denotes(d, y))
  }

  lemma OperationDone(op: Op, d: Diagram, e: Diagram, e': Diagram, pinned: multiset<Ptr>, x: Ptr, y: Ptr, r: Ptr)
    requires KeepsMeaning(d, e, pinned) && x in pinned && y in pinned
    requires e'.Ok() && Grows(e, e') && Computes(e', op, x, y, r)
    ensures Done(op, d, e', pinned, x, y, r)
  {
    GrowthKeepsMeaning(e, e');
    ComputesMeans(e', op, x, y, r);
  }

  // ---------- init ----------

  /// A lookup cannot have found a key that was not there.
  lemma AbsentKeyIsInserted(t: Table, u: Table, p: Ptr, k: Key)
    requires SoloLookup(t, u) && Absent(View(t), k) && p in u.nodes
    ensures KeyAt(u, p) != k
  {
    assert p in View(t) && View(t)[p] == KeyAt(u, p);
  }

  ghost predicate Absent(g: map<Ptr, Key>, k: Key) {
    forall p :: p in g ==> g[p] != k
  }

  /// A table nobody else uses yet, all counts exact.
  ghost predicate Stocked(table: LockFreeSet)
    reads table
    ensures Stocked(table) ==> table.Ready()
  {
    table.Ready() && table.rivals == 0 && table.numEntry == |table.nodes| && Exactly(table.T(), {}, table.pinned)
  }

  /// A new node goes into a table that does not have its key.
  method Put(table: LockFreeSet, k: Key) returns (p: Ptr)
    requires Stocked(table) && Absent(table.Keys(), k) && k.level < MARK
    modifies table
    ensures Stocked(table) && p !in old(table.Keys()) && p != NULL && p in table.nodes
    ensures table.Keys() == old(table.Keys())[p := k] && table.pinned == old(table.pinned)
    ensures |table.buckets| == |old(table.buckets)|
  {
    hide WellFormed;
    ghost var t0 := table.T();
    p := table.New(NewNode(k, table.hash));
    ghost var t := table.T();
    PrivateKeepsRefs(t0, t, {}, table.pinned);
    var q, inserted := table.GetOrInsert(p, Diagram(map[], NULL, NULL, 0));
    if !inserted { AbsentKeyIsInserted(t, table.T(), q, k); }
    BalanceSurvives(t, table.T(), {}, table.pinned, p, k, true);
  }

  /// `init`'s step: put the node there, and count one reference.
  method Install(table: LockFreeSet, k: Key) returns (p: Ptr)
    requires Stocked(table) && Absent(table.Keys(), k) && k.level < MARK
    modifies table
    ensures Stocked(table) && p !in old(table.Keys()) && p != NULL
    ensures table.Keys() == old(table.Keys())[p := k] && table.pinned == old(table.pinned) + multiset{p}
    ensures |table.buckets| == |old(table.buckets)|
  {
    hide WellFormed, View, TableReady, Balanced, Absent;
    p := Put(table, k);
    CountOne(table.T(), {}, table.pinned, p, table.pinned + multiset{p}, 1, true);
    table.AddRef(p);
  }

  /// The diagram after `i` variables: valid, and with no other node.
  ghost predicate Built(d: Diagram, vars: seq<Ptr>, nvars: seq<Ptr>, i: nat) {
    && d.Ok() && |vars| == |nvars| == i <= d.n
    && (forall j :: 0 <= j < i ==> vars[j] in d.g && d.g[vars[j]] == Key(j, d.f, d.t))
    && (forall j :: 0 <= j < i ==> nvars[j] in d.g && d.g[nvars[j]] == Key(j, d.t, d.f))
    && (forall p :: p in d.g && !d.Terminal(p) ==> d.g[p].level < i)
  }

  /// One reference each on the terminals and on what the vectors hold.
  function RefsOnAll(f: Ptr, t: Ptr, vars: seq<Ptr>, nvars: seq<Ptr>): multiset<Ptr> {
    multiset{f, t} + multiset(vars) + multiset(nvars)
  }

  lemma RefsOnMore(f: Ptr, t: Ptr, vars: seq<Ptr>, nvars: seq<Ptr>, v: Ptr, w: Ptr)
    ensures RefsOnAll(f, t, [], []) == multiset{f, t}
    ensures RefsOnAll(f, t, vars + [v], nvars + [w]) == RefsOnAll(f, t, vars, nvars) + multiset{v, w}
  {
    assert multiset(vars + [v]) == multiset(vars) + multiset{v};
    assert multiset(nvars + [w]) == multiset(nvars) + multiset{w};
  }

  lemma TwoTerminals(f: Ptr, t: Ptr, n: nat)
    requires f != t && f != NULL && t != NULL
    ensures Built(Diagram(map[t := Key(1, NULL, NULL), f := Key(0, NULL, NULL)], f, t, n), [], [], 0)
  {
  }

  lemma OneMoreVariable(d: Diagram, vars: seq<Ptr>, nvars: seq<Ptr>, i: nat, v: Ptr, w: Ptr)
    requires Built(d, vars, nvars, i) && i < d.n && v != NULL && w != NULL && v != w && v !in d.g && w !in d.g
    ensures Built(d.(g := d.g[v := Key(i, d.f, d.t)][w := Key(i, d.t, d.f)]), vars + [v], nvars + [w], i + 1)
  {
    var k, l := Key(i, d.f, d.t), Key(i, d.t, d.f);
    AddingKeepsOk(d, v, k);
    AddingKeepsOk(d.(g := d.g[v := k]), w, l);
  }

  lemma NewKeysAreAbsent(d: Diagram, vars: seq<Ptr>, nvars: seq<Ptr>, i: nat, v: Ptr)
    requires Built(d, vars, nvars, i) && i < d.n
    ensures Absent(d.g, Key(i, d.f, d.t)) && Absent(d.g[v := Key(i, d.f, d.t)], Key(i, d.t, d.f))
  {
  }

  method Terminals(tableSize: nat, hash: Key -> nat) returns (table: LockFreeSet, t: Ptr, f: Ptr)
    requires tableSize > 0
    ensures fresh(table) && Stocked(table) && table.hash == hash && table.pinned == multiset{f, t}
    ensures tableSize < |table.buckets| <= 2 * tableSize
    ensures f != t && f != NULL && t != NULL && table.Keys() == map[t := Key(1, NULL, NULL), f := Key(0, NULL, NULL)]
  {
    table := new LockFreeSet.WithCapacity(tableSize, hash);
    t := Install(table, Key(1, NULL, NULL));
    f := Install(table, Key(0, NULL, NULL));
  }

  method AddVariable(table: LockFreeSet, f: Ptr, t: Ptr, n: nat, vars: seq<Ptr>, nvars: seq<Ptr>, i: nat)
    returns (v: Ptr, w: Ptr)
    requires Stocked(table) && i < n <= MARK && Built(Diagram(table.Keys(), f, t, n), vars, nvars, i)
    modifies table
    ensures Stocked(table) && Built(Diagram(table.Keys(), f, t, n), vars + [v], nvars + [w], i + 1)
    ensures table.pinned == old(table.pinned) + multiset{v, w} && |table.buckets| == |old(table.buckets)|
  {
    hide Stocked, Built, View, TableReady;
    ghost var d := Diagram(table.Keys(), f, t, n);
    NewKeysAreAbsent(d, vars, nvars, i, NULL);
    v := Install(table, Key(i, f, t));
    NewKeysAreAbsent(d, vars, nvars, i, v);
    w := Install(table, Key(i, t, f));
    OneMoreVariable(d, vars, nvars, i, v, w);
  }

  /// The table part of `init`: the terminals, then the variables and their negations.
  method InitTable(tableSize: nat, varNum: nat, hash: Key -> nat)
    returns (table: LockFreeSet, t: Ptr, f: Ptr, vars: seq<Ptr>, nvars: seq<Ptr>)
    requires tableSize > 0 && varNum <= MARK
    ensures fresh(table) && Stocked(table) && table.hash == hash && tableSize < |table.buckets| <= 2 * tableSize
    ensures Built(Diagram(table.Keys(), f, t, varNum), vars, nvars, varNum)
    ensures table.pinned == RefsOnAll(f, t, vars, nvars)
  {
    hide Stocked, Built, View, TableReady, RefsOnAll;
    table, t, f := Terminals(tableSize, hash);
    TwoTerminals(f, t, varNum);
    RefsOnMore(f, t, [], [], NULL, NULL);
    vars, nvars := [], [];
    for i := 0 to varNum
      invariant fresh(table) && Stocked(table) && table.hash == hash && tableSize < |table.buckets| <= 2 * tableSize
      invariant Built(Diagram(table.Keys(), f, t, varNum), vars, nvars, i)
      invariant table.pinned == RefsOnAll(f, t, vars, nvars)
    {
      var v, w := AddVariable(table, f, t, varNum, vars, nvars, i);
      RefsOnMore(f, t, vars, nvars, v, w);
      vars, nvars := vars + [v], nvars + [w];
    }
  }

  lemma InitialRefs(t: Table, d: Diagram, vars: seq<Ptr>, nvars: seq<Ptr>, exempt: set<Ptr>, pinned: multiset<Ptr>)
    requires Built(d, vars, nvars, d.n) && Exactly(t, {}, pinned)
    ensures d.Ok() && VarsOk(d, vars, nvars) && Covered(t, exempt, pinned) && Exactly(t, exempt, pinned)
  {
    forall p ensures CoverOk(t, exempt, pinned, p) && Balanced(t, exempt, pinned, p) {
      assert Balanced(t, {}, pinned, p);
    }
  }

  /// Machine words have 64 bits.
  const WORD: nat := 0x1_0000_0000_0000_0000

  /// `a - b` on machine words.
  function WrappingSub(a: nat, b: nat): nat {
    if b <= a then a - b else (a - b) % WORD
  }

  /// The clean-up to choose when `live` of `entryNum` nodes would survive a collection: grow if fewer
  /// than a quarter of the buckets' number would go. `entryNum` may be stale; if there are more nodes
  /// alive by now, collect (all numbers fitting into words).
  ghost predicate Selects(grow: bool, entryNum: nat, bucketSize: nat, live: nat) {
    && (live <= entryNum ==> (grow <==> entryNum - live < bucketSize / 4))
    && (live > entryNum && live + bucketSize < WORD ==> !grow)
  }

  lemma SubSelects(entryNum: nat, bucketSize: nat, live: nat)
    ensures Selects(WrappingSub(entryNum, live) < bucketSize / 4, entryNum, bucketSize, live)
  {
    if entryNum < live && live + bucketSize < WORD { ModUp(entryNum - live); }
  }

  lemma ModUp(x: int)
    requires x < 0 < x + WORD
    ensures x % WORD == x + WORD
  {
  }

  /// What is left of a collected table.
  lemma CollectedNodes(t: Table, u: Table, d: Diagram)
    requires (forall p :: p in t.nodes ==> p in t.heap) && d.Ok() && d.g == View(t)
    ensures Collected(t, u, ReachAll(d, Referenced(t))) ==> u.nodes == ReachAll(d, Referenced(t))
  {
  }

  /// What `enter_op` did: nothing, or a clean-up of the table as it stood under the write guard.
  datatype Entered = Passed | Enlarged(at: Table) | Cleaned(at: Table)

  /// The diagram a clean-up leaves of the table it found.
  ghost function LeftOf(e: Entered, d: Diagram): Diagram
    requires !e.Passed? && d.Ok()
  {
    if e.Enlarged? then d else Restrict(d, ReachAll(d, Referenced(e.at)))
  }

  /// A clean-up happens only if `entryNum` had reached `bucketSize` when they were read, and it is
  /// the one that they select for the nodes alive in the table it found; from `before` to what it
  /// found, and from what it left to `now`, references keep their meaning.
  ghost predicate Selected(e: Entered, entryNum: nat, bucketSize: nat, before: Diagram, now: Diagram,
      pinned: multiset<Ptr>)
  {
    !e.Passed? ==>
      && entryNum >= bucketSize
      && (forall p :: p in e.at.nodes ==> p in e.at.heap)
      && var d := before.(g := View(e.at));
         && d.Ok() && KeepsMeaning(before, d, pinned) && KeepsMeaning(LeftOf(e, d), now, pinned)
         && Selects(e.Enlarged?, entryNum, bucketSize, |ReachAll(d, Referenced(e.at))|)
  }

  lemma IsSelected(e: Entered, entryNum: nat, bucketSize: nat, before: Diagram, d: Diagram, now: Diagram,
      pinned: multiset<Ptr>)
    requires !e.Passed? ==>
      && entryNum >= bucketSize && (forall p :: p in e.at.nodes ==> p in e.at.heap)
      && d == before.(g := View(e.at)) && d.Ok() && KeepsMeaning(before, d, pinned)
      && now == LeftOf(e, d) && KeepsMeaning(now, now, pinned)
      && Selects(e.Enlarged?, entryNum, bucketSize, |ReachAll(d, Referenced(e.at))|)
    ensures Selected(e, entryNum, bucketSize, before, now, pinned)
  {
  }

  /// The counts up to date, what goes is what a collection frees.
  lemma SelectedGrows(e: Entered, t: Table, entryNum: nat, bucketSize: nat, before: Diagram, now: Diagram,
      pinned: multiset<Ptr>)
    requires Selected(e, entryNum, bucketSize, before, now, pinned)
    requires before.Ok() && (forall p :: p in t.nodes ==> p in t.heap) && before.g == View(t)
    requires !e.Passed? ==> e.at == t
    requires |ReachAll(before, Referenced(t))| <= entryNum
    ensures !e.Passed? ==> (e.Enlarged? <==> entryNum - |ReachAll(before, Referenced(t))| < bucketSize / 4)
  {
  }

  lemma SelectedLater(e: Entered, entryNum: nat, bucketSize: nat, before: Diagram, now: Diagram, later: Diagram,
      pinned: multiset<Ptr>)
    requires Selected(e, entryNum, bucketSize, before, now, pinned) && KeepsMeaning(now, later, pinned)
    ensures Selected(e, entryNum, bucketSize, before, later, pinned)
  {
    if !e.Passed? {
      KeepsMeaningTransitively(LeftOf(e, before.(g := View(e.at))), now, later, pinned);
    }
  }

  /// What an operation started from: diagram, references, threads, whether the books balance, and
  /// how many buckets there are.
  datatype Moment = Moment(d: Diagram, pinned: multiset<Ptr>, rivals: nat, exact: bool, buckets: nat)

  /// This thread's guard on the manager's lock.
  datatype Guard = NoGuard | ReadHeld | WriteHeld

  /// An attempt to collect: whether the write guard was refused, and the table found.
  datatype Attempt = Attempt(refused: bool, at: Table)

  class Manager {
    const table: LockFreeSet
    const notCache: LockFreeCache<Ptr, Ptr>
    const andCache: LockFreeCache<(Ptr, Ptr), Ptr>
    const orCache: LockFreeCache<(Ptr, Ptr), Ptr>
    const compCache: LockFreeCache<(Ptr, Ptr), Ptr>
    const numVars: nat
    const trueId: Ptr
    const falseId: Ptr
    const vars: seq<Ptr>
    const nvars: seq<Ptr>
    const hash1: Ptr -> nat
    const hash2: (Ptr, Ptr) -> nat

    /// This thread's `FREE_ID`, and its guard.
    var spare: Ptr
    ghost var guard: Guard

    ghost function D(): Diagram
      requires table.Valid()
      reads table
    {
      Diagram(table.Keys(), falseId, trueId, numVars)
    }

    /// The references the manager itself holds.
    ghost function Base(): multiset<Ptr> {
      RefsOnAll(falseId, trueId, vars, nvars)
    }

    ghost function Exempt(): set<Ptr> {
      Diagram(map[], falseId, trueId, numVars).Exempt()
    }

    ghost predicate NotSound(d: Diagram)
      reads notCache
    {
      && notCache.Valid() && notCache.noKey == NULL && notCache.noValue == NULL
      && forall e :: e in notCache.Content() ==> e in NotAnswers(d)
    }

    ghost predicate Sound(c: LockFreeCache<(Ptr, Ptr), Ptr>, d: Diagram, op: Op)
      reads c
    {
      && c.Valid() && c.noKey == (NULL, NULL) && c.noValue == NULL
      && forall e :: e in c.Content() ==> e in Answers(d, op)
    }

    /// Every cached answer is right.
    ghost predicate CachesSound(d: Diagram)
      reads notCache, andCache, orCache, compCache
    {
      && NotSound(d)
      && Sound(andCache, d, Conjunction) && Sound(orCache, d, Disjunction) && Sound(compCache, d, Difference)
    }

    lemma CachesStaySound(d: Diagram, e: Diagram)
      requires CachesSound(d) && d.Ok() && e.Ok() && Grows(d, e)
      ensures CachesSound(e)
    {
      hide NotAnswers, Answers;
      AnswersSurvive(d, e);
    }

    ghost predicate CachesApart() {
      && andCache != orCache && andCache != compCache && orCache != compCache
      && (notCache as object) != andCache && (notCache as object) != orCache && (notCache as object) != compCache
    }

    /// The manager's nodes are there, and every reference answered for is counted.
    ghost predicate RefsOk()
      requires table.Valid()
      reads this`spare, table
    {
      && VarsOk(D(), vars, nvars) && Base() <= table.pinned
      && Covered(table.T(), Exempt(), table.pinned) && SpareOk(table.T(), spare)
    }

    /// Guard or no guard: the table is a diagram, the books are in order, the caches right.
    ghost predicate Consistent()
      reads this`spare, table, notCache, andCache, orCache, compCache
      ensures Consistent() ==> table.Ready() && D().Ok() && numVars <= MARK
    {
      && CachesApart() && numVars <= MARK
      && table.Ready() && D().Ok() && RefsOk() && CachesSound(D())
    }

    /// Between operations this thread holds no guard.
    ghost predicate Valid()
      reads this, table, notCache, andCache, orCache, compCache
    {
      Consistent() && guard.NoGuard?
    }

    /// No other thread, every count exact.
    ghost predicate Exact()
      requires table.Valid()
      reads table
    {
      table.rivals == 0 && table.numEntry == |table.nodes| && Exactly(table.T(), Exempt(), table.pinned)
    }

    ghost function Now(): Moment
      requires table.Valid()
      reads table
    {
      Moment(D(), table.pinned, table.rivals, Exact(), |table.buckets|)
    }

    /// Under this thread's read guard, since `o`: the table has only grown, in as many buckets, and
    /// references are as they were.
    ghost predicate Since(o: Moment)
      reads this, table, notCache, andCache, orCache, compCache
      ensures Since(o) ==> table.Ready() && D().Ok() && numVars <= MARK
    {
      && guard.ReadHeld? && Consistent() && Grows(o.d, D()) && table.pinned == o.pinned
      && table.rivals <= o.rivals && (o.exact ==> Exact()) && |table.buckets| == o.buckets
    }

    /// `init`: a fresh manager, with one reference each on the terminals, variables and negations.
    constructor Init(tableSize: nat, cacheSize: nat, varNum: nat, hash: Key -> nat, hash1: Ptr -> nat,
        hash2: (Ptr, Ptr) -> nat)
      requires tableSize > 0 && cacheSize > 0 && varNum <= MARK
      ensures Valid() && Exact() && numVars == varNum && table.pinned == Base()
      ensures fresh(table) && fresh(notCache) && fresh(andCache) && fresh(orCache) && fresh(compCache)
      ensures tableSize < |table.buckets| <= 2 * tableSize
      ensures cacheSize < |notCache.entries| <= 2 * cacheSize && cacheSize < |andCache.entries| <= 2 * cacheSize
      ensures cacheSize < |orCache.entries| <= 2 * cacheSize && cacheSize < |compCache.entries| <= 2 * cacheSize
    {
      hide Built, VarsOk, Covered, View, TableReady, WellFormed, TableValid, Exactly;
      var table, t, f, vars, nvars := InitTable(tableSize, varNum, hash);
      this.table, trueId, falseId, this.vars, this.nvars, numVars := table, t, f, vars, nvars, varNum;
      notCache := new LockFreeCache.WithCapacity(cacheSize, NULL, NULL);
      andCache := new LockFreeCache.WithCapacity(cacheSize, (NULL, NULL), NULL);
      orCache := new LockFreeCache.WithCapacity(cacheSize, (NULL, NULL), NULL);
      compCache := new LockFreeCache.WithCapacity(cacheSize, (NULL, NULL), NULL);
      this.hash1, this.hash2, spare, guard := hash1, hash2, NULL, NoGuard;
      new;
      InitialRefs(this.table.T(), D(), this.vars, this.nvars, Exempt(), this.table.pinned);
    }

    method OthersInNotCache(ghost o: Moment)
      requires Since(o)
      modifies notCache
      ensures Since(o) && (table.rivals == 0 ==> notCache.entries == old(notCache.entries))
    {
      hide NotAnswers, Answers, RefsOk, Exact, TableReady, Diagram.Ok, Grows, View;
      notCache.Interfere(NotAnswers(D()), table.rivals == 0);
    }

    method OthersInPairCache(c: LockFreeCache<(Ptr, Ptr), Ptr>, ghost op: Op, ghost o: Moment)
      requires Since(o)
      requires (c, op) in {(andCache, Conjunction), (orCache, Disjunction), (compCache, Difference)}
      modifies c
      ensures Since(o) && (table.rivals == 0 ==> c.entries == old(c.entries))
    {
      hide NotAnswers, Answers, RefsOk, Exact, TableReady, Diagram.Ok, Grows, View;
      c.Interfere(Answers(D(), op), table.rivals == 0);
    }

    /// Other threads' operations, between two accesses of this one under its read guard.
    method Others(ghost o: Moment)
      requires Since(o)
      modifies table, notCache, andCache, orCache, compCache
      ensures Since(o) && Grows(old(D()), D()) && table.rivals <= old(table.rivals)
      ensures old(table.rivals) == 0 ==> Cached() == old(Cached())
    {
      hide CachesSound, RefsOk, Exact, TableReady, Diagram.Ok, View;
      OthersInTable(o);
      OthersInNotCache(o);
      OthersInPairCache(andCache, Conjunction, o);
      OthersInPairCache(orCache, Disjunction, o);
      OthersInPairCache(compCache, Difference, o);
    }

    method OthersInTable(ghost o: Moment)
      requires Since(o)
      modifies table
      ensures Since(o) && Grows(old(D()), D()) && table.rivals <= old(table.rivals)
    {
      hide CachesSound, WellFormed, View, TableReady, TableValid, Covered, Evolves;
      ghost var t, d := table.T(), D();
      table.Interfere(d, spare);
      CoverSurvives(t, table.T(), Exempt(), table.pinned);
      CachesStaySound(d, D());
    }

    // ---------- make_node ----------

    /// `cell.set(Box::into_raw(Box::new(Node::new(0))))`.
    method NewSpare(ghost o: Moment)
      requires Since(o)
      modifies table`heap, this`spare
      ensures Since(o) && D() == old(D()) && spare != NULL && CountsStay(old(table.T()), table.T())
    {
      hide WellFormed, View, CachesSound, TableReady, Balanced, Covered, VarsOk, TableValid;
      ghost var t := table.T();
      spare := table.New(NewNode(Key(0, NULL, NULL), table.hash));
      PrivateKeepsRefs(t, table.T(), Exempt(), table.pinned);
    }

    /// Write a key into the spare node.
    method FillSpare(k: Key, ghost o: Moment)
      requires Since(o) && k.level < MARK && spare != NULL
      modifies table`heap
      ensures Since(o) && D() == old(D()) && CountsStay(old(table.T()), table.T())
      ensures Offerable(table.T(), table.hash, spare) && table.heap[spare].RawKey() == k
    {
      hide WellFormed, View, CachesSound, TableReady, Balanced, Covered, VarsOk, TableValid, Diagram.Ok, Exempt, Base,
           CachesApart, Exactly;
      ghost var t := table.T();
      table.Prepare(spare, k);
      PrivateKeepsRefs(t, table.T(), Exempt(), table.pinned);
    }

    /// The same, after allocating it on first use.
    method PrepareSpare(k: Key, ghost o: Moment)
      requires Since(o) && k.level < MARK
      modifies table`heap, this`spare
      ensures Since(o) && D() == old(D()) && spare != NULL && CountsStay(old(table.T()), table.T())
      ensures Offerable(table.T(), table.hash, spare) && table.heap[spare].RawKey() == k
    {
      hide Since, Offerable, View, TableReady, WellFormed, Diagram.Ok;
      if spare == NULL {
        NewSpare(o);
      }
      FillSpare(k, o);
    }

    /// `make_node`: the node with this level and these children, which must be below it.
    method MakeNode(level: nat, low: Ptr, high: Ptr, ghost o: Moment) returns (r: Ptr)
      requires Since(o) && low in D().g && high in D().g
      requires level < numVars && level < D().Top(low) && level < D().Top(high)
      modifies table, this`spare
      ensures Since(o) && Grows(old(D()), D()) && Made(D(), r, level, low, high)
      ensures old(table.rivals) == 0 ==> CountsStay(old(table.T()), table.T())
    {
      hide RefsOk, CachesSound, View, TableReady;
      if low == high {
        return low;
      }
      PrepareSpare(Key(level, low, high), o);
      var inserted;
      r, inserted := OfferSpare(Key(level, low, high), o);
      if inserted {
        NewSpare(o);
      }
    }

    /// Offer the spare node to the table: what happens to the table.
    method Offer(ghost k: Key) returns (r: Ptr, inserted: bool)
      requires table.Ready() && D().Ok() && Covered(table.T(), Exempt(), table.pinned)
      requires spare != NULL && SpareOk(table.T(), spare) && D().KeyFits(k)
      requires Offerable(table.T(), table.hash, spare) && table.heap[spare].RawKey() == k
      modifies table
      ensures table.Ready() && D().Ok() && Grows(old(D()), D()) && r in D().g && D().g[r] == k
      ensures Covered(table.T(), Exempt(), table.pinned) && (!inserted ==> SpareOk(table.T(), spare))
      ensures table.pinned == old(table.pinned) && table.rivals <= old(table.rivals) && (old(Exact()) ==> Exact())
      ensures |table.buckets| == |old(table.buckets)|
      ensures old(table.rivals) == 0 ==> CountsStay(old(table.T()), table.T())
    {
      hide WellFormed;
      ghost var t, d := table.T(), D();
      ghost var exact, alone := Exact(), table.rivals == 0;
      r, inserted := table.GetOrInsert(spare, d);
      CoverSurvives(t, table.T(), Exempt(), table.pinned);
      if alone { SoloKeepsCounts(t, table.T(), spare, k, inserted); }
      if exact { BalanceSurvives(t, table.T(), Exempt(), table.pinned, spare, k, inserted); }
    }

    /// Offer the spare node; afterwards it is spare no more if it was taken.
    method OfferSpare(ghost k: Key, ghost o: Moment) returns (r: Ptr, inserted: bool)
      requires Since(o) && spare != NULL && D().KeyFits(k)
      requires Offerable(table.T(), table.hash, spare) && table.heap[spare].RawKey() == k
      modifies table, this`spare
      ensures Since(o) && Grows(old(D()), D()) && r in D().g && D().g[r] == k
      ensures old(table.rivals) == 0 ==> CountsStay(old(table.T()), table.T())
    {
      hide TableReady, TableValid, WellFormed, CleanAt, View, Covered, Balanced, CachesSound;
      ghost var d := D();
      r, inserted := Offer(k);
      if inserted { spare := NULL; }
      CachesStaySound(d, D());
    }

    // ---------- The operation caches ----------

    function CacheOf(op: Op): LockFreeCache<(Ptr, Ptr), Ptr>
      requires !op.Negation?
    {
      match op
      case Conjunction => andCache
      case Disjunction => orCache
      case Difference => compCache
    }

    /// What the entry for these operands holds.
    ghost predicate MemoNot(bdd: Ptr, r: Ptr)
      reads notCache
    {
      var n := |notCache.entries|; n > 0 && notCache.entries[hash1(bdd) % n] == (bdd, r)
    }

    ghost predicate Memo(op: Op, x: Ptr, y: Ptr, r: Ptr)
      requires !op.Negation?
      reads CacheOf(op)
    {
      var c := CacheOf(op); var n := |c.entries|; n > 0 && c.entries[hash2(x, y) % n] == ((x, y), r)
    }

    /// A thread alone recalls what is in the entry; in company, some right answer or none.
    method RecallNot(bdd: Ptr, ghost o: Moment) returns (v: Ptr)
      requires Since(o) && bdd in D().g
      modifies table, notCache, andCache, orCache, compCache
      ensures Since(o) && Grows(old(D()), D()) && (v != NULL ==> Computes(D(), Negation, bdd, bdd, v))
      ensures o.rivals == 0 ==> Cached() == old(Cached())
      ensures o.rivals == 0 ==>
        if v != NULL then MemoNot(bdd, v) else forall r :: r != NULL ==> !MemoNot(bdd, r)
    {
      hide TableReady, TableValid, WellFormed, View, RefsOk, Computes;
      Others(o);
      v := notCache.Get(hash1(bdd), bdd);
    }

    method Recall(op: Op, lhs: Ptr, rhs: Ptr, ghost o: Moment) returns (v: Ptr)
      requires Since(o) && lhs in D().g && rhs in D().g && !op.Negation?
      modifies table, notCache, andCache, orCache, compCache
      ensures Since(o) && Grows(old(D()), D()) && (v != NULL ==> Computes(D(), op, lhs, rhs, v))
      ensures o.rivals == 0 ==> Cached() == old(Cached())
      ensures o.rivals == 0 ==>
        if v != NULL then Memo(op, lhs, rhs, v) else forall r :: r != NULL ==> !Memo(op, lhs, rhs, r)
    {
      hide TableReady, TableValid, WellFormed, View, RefsOk, Computes;
      Others(o);
      v := CacheOf(op).Get(hash2(lhs, rhs), (lhs, rhs));
    }

    /// Whether another thread is using the entry.
    method Contended() returns (c: bool)
      ensures table.rivals == 0 ==> !c
    {
      c := false;
    }

    /// The insertion is lost if another thread is using the entry; a thread alone finds it there.
    method RememberNot(bdd: Ptr, res: Ptr, ghost o: Moment)
      requires Since(o) && Computes(D(), Negation, bdd, bdd, res)
      modifies notCache
      ensures Since(o) && D() == old(D()) && (o.rivals == 0 ==> MemoNot(bdd, res))
    {
      hide RefsOk, TableReady, TableValid, View, WellFormed;
      var contended := Contended();
      var written := notCache.Insert(hash1(bdd), bdd, res, contended);
    }

    method Remember(op: Op, lhs: Ptr, rhs: Ptr, res: Ptr, ghost o: Moment)
      requires Since(o) && Computes(D(), op, lhs, rhs, res) && !op.Negation?
      modifies andCache, orCache, compCache
      ensures Since(o) && D() == old(D()) && (o.rivals == 0 ==> Memo(op, lhs, rhs, res))
    {
      hide RefsOk, TableReady, TableValid, View, WellFormed;
      var contended := Contended();
      var written := CacheOf(op).Insert(hash2(lhs, rhs), (lhs, rhs), res, contended);
    }

    // ---------- The recursions ----------

    /// `*bdd.level()`, `*bdd.low()`, `*bdd.high()`.
    function NodeKey(bdd: Ptr): (k: Key)
      requires table.Ready() && bdd in D().g
      reads this, table
      ensures k == D().g[bdd]
    {
      table.Fields(bdd)
    }

    /// `_not_rec`. Like each recursion, a thread alone leaves its answer in the cache.
    method NotRec(bdd: Ptr, ghost o: Moment) returns (res: Ptr)
      requires Since(o) && bdd in D().g
      modifies table, notCache, andCache, orCache, compCache, this`spare
      ensures Since(o) && Grows(old(D()), D()) && Computes(D(), Negation, bdd, bdd, res)
      ensures o.rivals == 0 && !D().Terminal(bdd) ==> MemoNot(bdd, res)
      decreases Rank(D(), bdd), 1
    {
      hide Since, TableReady, Consistent, View, TableValid, Computes, MemoNot;
      NotRules(D());
      if bdd == trueId {
        return falseId;
      }
      if bdd == falseId {
        return trueId;
      }
      var cached := RecallNot(bdd, o);
      if cached != NULL {
        return cached;
      }
      res := NotStep(bdd, o);
      RememberNot(bdd, res, o);
    }

    method NotStep(bdd: Ptr, ghost o: Moment) returns (res: Ptr)
      requires Since(o) && bdd in D().g && !D().Terminal(bdd)
      modifies table, notCache, andCache, orCache, compCache, this`spare
      ensures Since(o) && Grows(old(D()), D()) && Computes(D(), Negation, bdd, bdd, res)
      decreases Rank(D(), bdd), 0
    {
      hide Since, TableReady, Consistent, View, TableValid, Computes;
      ghost var d, k := D(), NodeKey(bdd);
      assert d.NodeFits(bdd);
      CofactorsRankLower(d, d, bdd, bdd, k.level, false);
      var fLow := NotRec(NodeKey(bdd).low, o);
      ghost var e := D();
      CofactorsRankLower(d, e, bdd, bdd, k.level, true);
      var fHigh := NotRec(NodeKey(bdd).high, o);
      ghost var e' := D();
      AnswersAreBelow(d, e, e', Negation, bdd, bdd, k.level, fLow, fHigh);
      res := MakeNode(NodeKey(bdd).level, fLow, fHigh, o);
      StepAnswer(d, e, e', D(), Negation, bdd, bdd, k.level, fLow, fHigh, res);
    }

    /// The comparison of levels that the binary recursions share: the variable to split on, and the
    /// cofactors of both operands.
    method Split(lhs: Ptr, rhs: Ptr) returns (level: nat, l0: Ptr, r0: Ptr, l1: Ptr, r1: Ptr)
      requires table.Ready() && D().Ok() && lhs in D().g && rhs in D().g && !D().Terminal(lhs) && !D().Terminal(rhs)
      ensures level < numVars && level <= D().Top(lhs) && level <= D().Top(rhs)
      ensures (level == D().Top(lhs) || level == D().Top(rhs))
      ensures l0 == Cofactor(D(), lhs, level, false) && r0 == Cofactor(D(), rhs, level, false)
      ensures l1 == Cofactor(D(), lhs, level, true) && r1 == Cofactor(D(), rhs, level, true)
    {
      hide TableReady, View, TableValid;
      assert D().NodeFits(lhs) && D().NodeFits(rhs);
      if NodeKey(lhs).level < NodeKey(rhs).level {
        return NodeKey(lhs).level, NodeKey(lhs).low, rhs, NodeKey(lhs).high, rhs;
      } else if NodeKey(lhs).level > NodeKey(rhs).level {
        return NodeKey(rhs).level, lhs, NodeKey(rhs).low, lhs, NodeKey(rhs).high;
      } else {
        return NodeKey(lhs).level, NodeKey(lhs).low, NodeKey(rhs).low, NodeKey(lhs).high, NodeKey(rhs).high;
      }
    }

    /// `_and_rec`
    method AndRec(x: Ptr, y: Ptr, ghost o: Moment) returns (res: Ptr)
      requires Since(o) && x in D().g && y in D().g
      modifies table, notCache, andCache, orCache, compCache, this`spare
      ensures Since(o) && Grows(old(D()), D()) && Computes(D(), Conjunction, x, y, res)
      ensures o.rivals == 0 && x != y && !D().Terminal(x) && !D().Terminal(y) ==>
        Memo(Conjunction, if x < y then x else y, if x < y then y else x, res)
      decreases Rank(D(), x) + Rank(D(), y), 1
    {
      hide Since, TableReady, Consistent, View, TableValid, Computes, Memo;
      // sort the operands
      var lhs, rhs := if x >= y then y else x, if x < y then y else x;
      AndRules(D(), lhs, rhs);
      Commutes(D(), Conjunction, lhs, rhs);
      if lhs == rhs || rhs == trueId {
        return lhs;
      }
      if lhs == falseId || rhs == falseId {
        return falseId;
      }
      if lhs == trueId {
        return rhs;
      }
      var cached := Recall(Conjunction, lhs, rhs, o);
      if cached == NULL {
        res := AndStep(lhs, rhs, o);
        Remember(Conjunction, lhs, rhs, res, o);
      } else {
        res := cached;
      }
      Commutes(D(), Conjunction, lhs, rhs);
    }

    /// The rest of `_and_rec`: both cofactors, and the node on top.
    method AndStep(lhs: Ptr, rhs: Ptr, ghost o: Moment) returns (res: Ptr)
      requires Since(o) && lhs in D().g && rhs in D().g && !D().Terminal(lhs) && !D().Terminal(rhs)
      modifies table, notCache, andCache, orCache, compCache, this`spare
      ensures Since(o) && Grows(old(D()), D()) && Computes(D(), Conjunction, lhs, rhs, res)
      decreases Rank(D(), lhs) + Rank(D(), rhs), 0
    {
      hide Since, TableReady, Consistent, View, TableValid, Computes;
      ghost var d := D();
      var level, l0, r0, l1, r1 := Split(lhs, rhs);
      CofactorsRankLower(d, d, lhs, rhs, level, false);
      var fLow := AndRec(l0, r0, o);
      ghost var e := D();
      CofactorsRankLower(d, e, lhs, rhs, level, true);
      var fHigh := AndRec(l1, r1, o);
      ghost var e' := D();
      AnswersAreBelow(d, e, e', Conjunction, lhs, rhs, level, fLow, fHigh);
      res := MakeNode(level, fLow, fHigh, o);
      StepAnswer(d, e, e', D(), Conjunction, lhs, rhs, level, fLow, fHigh, res);
    }

    /// `_or_rec`
    method OrRec(x: Ptr, y: Ptr, ghost o: Moment) returns (res: Ptr)
      requires Since(o) && x in D().g && y in D().g
      modifies table, notCache, andCache, orCache, compCache, this`spare
      ensures Since(o) && Grows(old(D()), D()) && Computes(D(), Disjunction, x, y, res)
      ensures o.rivals == 0 && x != y && !D().Terminal(x) && !D().Terminal(y) ==>
        Memo(Disjunction, if x < y then x else y, if x < y then y else x, res)
      decreases Rank(D(), x) + Rank(D(), y), 1
    {
      hide Since, TableReady, Consistent, View, TableValid, Computes, Memo;
      // sort the operands
      var lhs, rhs := if x >= y then y else x, if x < y then y else x;
      OrRules(D(), lhs, rhs);
      Commutes(D(), Disjunction, lhs, rhs);
      if lhs == rhs || rhs == falseId {
        return lhs;
      }
      if lhs == trueId || rhs == trueId {
        return trueId;
      }
      if lhs == falseId {
        return rhs;
      }
      var cached := Recall(Disjunction, lhs, rhs, o);
      if cached == NULL {
        res := OrStep(lhs, rhs, o);
        Remember(Disjunction, lhs, rhs, res, o);
      } else {
        res := cached;
      }
      Commutes(D(), Disjunction, lhs, rhs);
    }

    /// The rest of `_or_rec`: both cofactors, and the node on top.
    method OrStep(lhs: Ptr, rhs: Ptr, ghost o: Moment) returns (res: Ptr)
      requires Since(o) && lhs in D().g && rhs in D().g && !D().Terminal(lhs) && !D().Terminal(rhs)
      modifies table, notCache, andCache, orCache, compCache, this`spare
      ensures Since(o) && Grows(old(D()), D()) && Computes(D(), Disjunction, lhs, rhs, res)
      decreases Rank(D(), lhs) + Rank(D(), rhs), 0
    {
      hide Since, TableReady, Consistent, View, TableValid, Computes;
      ghost var d := D();
      var level, l0, r0, l1, r1 := Split(lhs, rhs);
      CofactorsRankLower(d, d, lhs, rhs, level, false);
      var fLow := OrRec(l0, r0, o);
      ghost var e := D();
      CofactorsRankLower(d, e, lhs, rhs, level, true);
      var fHigh := OrRec(l1, r1, o);
      ghost var e' := D();
      AnswersAreBelow(d, e, e', Disjunction, lhs, rhs, level, fLow, fHigh);
      res := MakeNode(level, fLow, fHigh, o);
      StepAnswer(d, e, e', D(), Disjunction, lhs, rhs, level, fLow, fHigh, res);
    }

    /// `_comp_rec`
    method CompRec(lhs: Ptr, rhs: Ptr, ghost o: Moment) returns (res: Ptr)
      requires Since(o) && lhs in D().g && rhs in D().g
      modifies table, notCache, andCache, orCache, compCache, this`spare
      ensures Since(o) && Grows(old(D()), D()) && Computes(D(), Difference, lhs, rhs, res)
      ensures o.rivals == 0 && lhs != rhs && !D().Terminal(lhs) && !D().Terminal(rhs) ==>
        Memo(Difference, lhs, rhs, res)
      decreases Rank(D(), lhs) + Rank(D(), rhs), 1
    {
      hide Since, TableReady, Consistent, View, TableValid, Computes, Memo;
      CompRules(D(), lhs, rhs);
      if lhs == rhs || lhs == falseId || rhs == trueId {
        return falseId;
      }
      if rhs == falseId {
        return lhs;
      }
      if lhs == trueId {
        res := NotRec(rhs, o);
        CompOfTrue(D(), rhs, res);
        return;
      }
      var cached := Recall(Difference, lhs, rhs, o);
      if cached == NULL {
        res := CompStep(lhs, rhs, o);
        Remember(Difference, lhs, rhs, res, o);
      } else {
        res := cached;
      }
    }

    /// The rest of `_comp_rec`: both cofactors, and the node on top.
    method CompStep(lhs: Ptr, rhs: Ptr, ghost o: Moment) returns (res: Ptr)
      requires Since(o) && lhs in D().g && rhs in D().g && !D().Terminal(lhs) && !D().Terminal(rhs)
      modifies table, notCache, andCache, orCache, compCache, this`spare
      ensures Since(o) && Grows(old(D()), D()) && Computes(D(), Difference, lhs, rhs, res)
      decreases Rank(D(), lhs) + Rank(D(), rhs), 0
    {
      hide Since, TableReady, Consistent, View, TableValid, Computes;
      ghost var d := D();
      var level, l0, r0, l1, r1 := Split(lhs, rhs);
      CofactorsRankLower(d, d, lhs, rhs, level, false);
      var fLow := CompRec(l0, r0, o);
      ghost var e := D();
      CofactorsRankLower(d, e, lhs, rhs, level, true);
      var fHigh := CompRec(l1, r1, o);
      ghost var e' := D();
      AnswersAreBelow(d, e, e', Difference, lhs, rhs, level, fLow, fHigh);
      res := MakeNode(level, fLow, fHigh, o);
      StepAnswer(d, e, e', D(), Difference, lhs, rhs, level, fLow, fHigh, res);
    }

    // ---------- References ----------

    /// `ref_bdd`.
    method RefBdd(bdd: Ptr)
      requires Consistent() && bdd in D().g
      modifies table`heap, table`pinned
      ensures Consistent() && D() == old(D()) && (old(Exact()) ==> Exact())
      ensures table.pinned == old(table.pinned) + multiset{bdd}
      ensures table.heap == old(table.heap)[bdd := old(table.heap)[bdd].(refCnt := old(table.heap)[bdd].refCnt + 1)]
    {
      hide WellFormed, CachesSound, VarsOk, Covered, Exactly, View, TableReady, TableValid;
      table.InTable(bdd);
      CountOne(table.T(), Exempt(), table.pinned, bdd, table.pinned + multiset{bdd}, 1, true);
      table.AddRef(bdd);
    }

    /// `deref_bdd`: the caller holds the reference it drops, except that `deserialize` drops one on
    /// each terminal that nobody has taken.
    method DerefBdd(bdd: Ptr, ghost mine: bool)
      requires Consistent() && bdd in D().g && if mine then table.pinned[bdd] > Base()[bdd] else bdd in Exempt()
      modifies table`heap, table`pinned
      ensures Consistent() && D() == old(D()) && (old(Exact()) ==> Exact())
      ensures table.pinned == if mine then old(table.pinned) - multiset{bdd} else old(table.pinned)
      ensures table.heap == old(table.heap)[bdd := old(table.heap)[bdd].(refCnt := old(table.heap)[bdd].refCnt - 1)]
    {
      hide WellFormed, CachesSound, VarsOk, Covered, Exactly, View, TableReady, TableValid, Diagram.Ok, Base, Exempt;
      table.InTable(bdd);
      CountOne(table.T(), Exempt(), table.pinned, bdd,
               if mine then table.pinned - multiset{bdd} else table.pinned, -1, mine);
      table.DropRef(bdd, mine);
    }

    /// For a thread alone, the terminals' reference counts are these.
    ghost predicate Tallied(alone: bool, f: int, t: int)
      reads table
    {
      alone ==>
        && table.rivals == 0 && falseId in table.heap && trueId in table.heap
        && table.heap[falseId].refCnt == f && table.heap[trueId].refCnt == t
    }

    // ---------- Collection and growth, under the write guard ----------

    /// What survives a collection now.
    ghost function Live(): set<Ptr>
      requires table.Valid() && D().Ok()
      reads table
    {
      ReachAll(D(), Referenced(table.T()))
    }

    lemma LiveFits()
      requires table.Valid() && D().Ok()
      ensures |Live()| <= |table.nodes|
    {
      table.KeysAreNodes();
      SubsetIsSmaller(Live(), table.nodes);
    }

    /// After the marking pass: what is reached from referenced nodes is marked and counted, and
    /// nothing else has changed since `t0`.
    ghost predicate Marked(t0: Table, d: Diagram)
      reads table
    {
      && table.Valid() && TableReady(t0, table.hash) && d.Ok() && d.g == View(t0) == table.Keys() && d.n <= MARK
      && Remarked(t0, table.T(), table.hash, ReachAll(d, Referenced(t0)))
      && table.numMarks == |MarkedIn(table.T())|
    }

    ghost predicate CachesEmpty()
      reads notCache, andCache, orCache, compCache
    {
      && notCache.Content() == {} && andCache.Content() == {}
      && orCache.Content() == {} && compCache.Content() == {}
    }

    method InvalidateCaches()
      requires CachesApart() && notCache.Valid() && andCache.Valid() && orCache.Valid() && compCache.Valid()
      modifies notCache, andCache, orCache, compCache
      ensures notCache.Valid() && andCache.Valid() && orCache.Valid() && compCache.Valid()
      ensures CachesEmpty() && CacheSizes() == old(CacheSizes())
    {
      andCache.InvalidateAll();
      orCache.InvalidateAll();
      compCache.InvalidateAll();
      notCache.InvalidateAll();
    }

    method GrowCaches()
      requires CachesApart() && notCache.Valid() && andCache.Valid() && orCache.Valid() && compCache.Valid()
      modifies notCache, andCache, orCache, compCache
      ensures notCache.Valid() && andCache.Valid() && orCache.Valid() && compCache.Valid()
      ensures CachesEmpty() && CacheSizes() == Doubled(old(CacheSizes()))
    {
      andCache.Grow();
      orCache.Grow();
      compCache.Grow();
      notCache.Grow();
    }

    /// The marking pass.
    method Mark() returns (marked: nat)
      requires table.Ready() && D().Ok() && numVars <= MARK && guard.WriteHeld?
      modifies table`heap, table`numMarks
      ensures Marked(old(table.T()), old(D())) && marked == table.numMarks == |old(Live())|
    {
      hide WellFormed, View;
      marked := table.MarkNodes(D());
    }

    /// `gc_unmarked` and `unmark_nodes`.
    method Sweep(ghost t0: Table, ghost d: Diagram)
      requires guard.WriteHeld? && Marked(t0, d) && d == D()
      requires forall p :: p in table.pinned ==> p in ReachAll(d, Referenced(t0))
      requires Closed(d, ReachAll(d, Referenced(t0)))
      modifies table`heap, table`buckets, table`nodes, table`numEntry
      ensures table.Ready() && Collected(t0, table.T(), ReachAll(d, Referenced(t0)))
      ensures D() == Restrict(d, ReachAll(d, Referenced(t0))) && table.numEntry == |table.nodes|
      ensures |table.buckets| == |old(table.buckets)|
    {
      hide WellFormed, View, ReachAll, Referenced;
      ghost var t1, keep := table.T(), ReachAll(d, Referenced(t0));
      table.GcUnmarked();
      ghost var t2 := table.T();
      SweptView(t1, t2, table.hash, d);
      RestrictKeepsMeaning(d, keep);
      table.UnmarkNodes(D());
      MarkSweepUnmarkCollects(t0, t1, t2, table.T(), table.hash, keep);
    }

    /// Between marking and the decision what to do: the books are as at `t0`.
    ghost predicate Midway(t0: Table, d: Diagram)
      reads this, table, notCache, andCache, orCache, compCache
    {
      && guard.WriteHeld? && Marked(t0, d) && d == D() && CachesApart() && CachesSound(d)
      && VarsOk(d, vars, nvars) && Base() <= table.pinned
      && Covered(t0, Exempt(), table.pinned) && SpareOk(t0, spare)
    }

    lemma PinnedSurvive(t0: Table, d: Diagram)
      requires Midway(t0, d)
      ensures forall p :: p in table.pinned ==> p in ReachAll(d, Referenced(t0))
      ensures forall v :: v in vars || v in nvars ==> v in table.pinned
      ensures Closed(d, ReachAll(d, Referenced(t0)))
    {
      hide WellFormed, CachesSound;
      assert falseId in Base() && trueId in Base();
      forall v | v in vars || v in nvars ensures v in table.pinned { assert v in Base(); }
      PinnedAreReached(t0, d, vars, nvars, Exempt(), table.pinned);
    }

    /// The table part of a collection.
    method SweepAndKeep(ghost t0: Table, ghost d: Diagram)
      requires Midway(t0, d)
      modifies table`heap, table`buckets, table`nodes, table`numEntry
      ensures table.Ready() && Collected(t0, table.T(), ReachAll(d, Referenced(t0))) && table.numEntry == |table.nodes|
      ensures D() == Restrict(d, ReachAll(d, Referenced(t0))) && KeepsMeaning(d, D(), table.pinned) && RefsOk()
      ensures Exactly(t0, Exempt(), table.pinned) ==> Exactly(table.T(), Exempt(), table.pinned)
      ensures |table.buckets| == |old(table.buckets)|
    {
      hide WellFormed, View, TableReady, TableValid, Covered, Exactly, CachesSound;
      PinnedSurvive(t0, d);
      Sweep(t0, d);
      CollectingKeepsCounts(t0, table.T(), ReachAll(d, Referenced(t0)));
      KeptCountsKeepRefs(t0, table.T(), Exempt(), table.pinned, spare);
      CollectingKeepsMeaning(d, ReachAll(d, Referenced(t0)), vars, nvars, table.pinned);
    }

    /// Sweep and invalidate.
    method Collect(ghost t0: Table, ghost d: Diagram)
      requires Midway(t0, d)
      modifies table`heap, table`buckets, table`nodes, table`numEntry, notCache, andCache, orCache, compCache
      ensures CachesEmpty() && CacheSizes() == old(CacheSizes())
      ensures Consistent() && Collected(t0, table.T(), ReachAll(d, Referenced(t0))) && table.numEntry == |table.nodes|
      ensures D() == Restrict(d, ReachAll(d, Referenced(t0))) && KeepsMeaning(d, D(), table.pinned)
      ensures Exactly(t0, Exempt(), table.pinned) ==> Exactly(table.T(), Exempt(), table.pinned)
      ensures |table.buckets| == |old(table.buckets)|
    {
      hide RefsOk, Collected, Restrict, TableReady, TableValid, View, Exactly, ReachAll, Diagram.Ok, Covered, VarsOk,
           WellFormed, Remarked, Referenced, NotAnswers, Answers, Denotes;
      SweepAndKeep(t0, d);
      InvalidateCaches();
    }

    /// The table part of growing.
    method UnmarkAndGrow(ghost t0: Table, ghost d: Diagram)
      requires Midway(t0, d)
      modifies table`heap, table`buckets, table`sizeExp
      ensures table.Ready() && D() == d && RefsOk() && |table.buckets| == 2 * |old(table.buckets)|
      ensures Exactly(t0, Exempt(), table.pinned) ==> Exactly(table.T(), Exempt(), table.pinned)
    {
      hide WellFormed, View, Covered, Exactly, CachesSound, TableReady, TableValid;
      ghost var t1 := table.T();
      table.UnmarkNodes(D());
      ghost var t2 := table.T();
      RemarkedTwice(t0, t1, t2, table.hash, ReachAll(d, Referenced(t0)), {});
      table.Grow();
      GrowingKeepsCounts(t0, t2, table.T(), table.hash, {});
      KeptCountsKeepRefs(t0, table.T(), Exempt(), table.pinned, spare);
    }

    /// Unmark, and grow the table and the caches.
    method Enlarge(ghost t0: Table, ghost d: Diagram)
      requires Midway(t0, d)
      modifies table`heap, table`buckets, table`sizeExp, notCache, andCache, orCache, compCache
      ensures CachesEmpty() && CacheSizes() == Doubled(old(CacheSizes()))
      ensures Consistent() && D() == d && |table.buckets| == 2 * |old(table.buckets)|
      ensures Exactly(t0, Exempt(), table.pinned) ==> Exactly(table.T(), Exempt(), table.pinned)
    {
      hide RefsOk, TableReady, TableValid, View, Exactly, ReachAll;
      UnmarkAndGrow(t0, d);
      GrowCaches();
    }

    // The lock, of which only the contracts count here; RwLock has the steps. A thread alone always
    // gets the write guard (`RwLock.TryWriteAloneSucceeds`).

    /// `try_write`
    method TryWrite() returns (ok: bool)
      requires guard.NoGuard?
      modifies this`guard
      ensures guard == if ok then WriteHeld else NoGuard
      ensures table.rivals == 0 ==> ok
    {
      guard := WriteHeld;
      ok := true;
    }

    /// `read`
    method Read()
      requires guard.NoGuard?
      modifies this`guard
      ensures guard.ReadHeld?
    {
      guard := ReadHeld;
    }

    /// The end of a guard's scope.
    method DropGuard()
      requires !guard.NoGuard?
      modifies this`guard
      ensures guard.NoGuard?
    {
      guard := NoGuard;
    }

    /// What is in the caches, entry by entry.
    ghost function Cached(): (seq<(Ptr, Ptr)>, seq<((Ptr, Ptr), Ptr)>, seq<((Ptr, Ptr), Ptr)>, seq<((Ptr, Ptr), Ptr)>)
      reads notCache, andCache, orCache, compCache
    {
      (notCache.entries, andCache.entries, orCache.entries, compCache.entries)
    }

    /// How many entries they have.
    ghost function CacheSizes(): (nat, nat, nat, nat)
      reads notCache, andCache, orCache, compCache
    {
      (|notCache.entries|, |andCache.entries|, |orCache.entries|, |compCache.entries|)
    }

    ghost function Doubled(n: (nat, nat, nat, nat)): (nat, nat, nat, nat) {
      (2 * n.0, 2 * n.1, 2 * n.2, 2 * n.3)
    }

    /// Other threads' operations and collections while this thread holds no guard: what it answers
    /// for keeps its meaning, and to a thread alone nothing happens.
    method Meanwhile()
      requires Valid()
      modifies table, notCache, andCache, orCache, compCache
      ensures Valid() && table.pinned == old(table.pinned) && table.rivals <= old(table.rivals)
      ensures KeepsMeaning(old(D()), D(), table.pinned)
      ensures old(table.rivals) == 0 ==> table.T() == old(table.T()) && table.numEntry == old(table.numEntry)
      ensures old(table.rivals) == 0 ==> Cached() == old(Cached())
      ensures old(Exact()) ==> Exact()
    {
    }

    /// The marking pass, as part of a collection or of `enter_op`.
    method MarkMidway() returns (marked: nat)
      requires Consistent() && guard.WriteHeld?
      modifies table`heap, table`numMarks
      ensures Midway(old(table.T()), old(D())) && marked == table.numMarks == |old(Live())|
    {
      hide WellFormed, View, TableReady, TableValid, CachesSound, Covered, VarsOk, Exactly, ReachAll, Remarked;
      marked := Mark();
    }

    lemma LiveIsPinned()
      requires Consistent() && Exact()
      ensures Live() == ReachAll(D(), Support(table.pinned))
    {
      hide WellFormed, CachesSound, TableReady, View;
      table.KeysAreNodes();
      assert falseId in Base() && trueId in Base();
      forall v | v in vars ensures v in table.pinned { assert v in Base(); }
      PinnedAreReached(table.T(), D(), vars, nvars, Exempt(), table.pinned);
      LiveIsHeld(table.T(), D(), Exempt(), table.pinned);
    }

    /// The body of `gc`, under the write guard.
    method GcGuarded() returns (marked: nat)
      requires Consistent() && guard.WriteHeld?
      modifies table, notCache, andCache, orCache, compCache
      ensures CachesEmpty() && CacheSizes() == old(CacheSizes())
      ensures Consistent() && table.pinned == old(table.pinned) && table.rivals == old(table.rivals)
      ensures KeepsMeaning(old(D()), D(), table.pinned) && marked == table.numEntry == |table.nodes|
      ensures D() == old(Restrict(D(), Live())) && Collected(old(table.T()), table.T(), old(Live()))
      ensures old(Exact()) ==> Exact() && old(Live() == ReachAll(D(), Support(table.pinned)))
    {
      hide RefsOk, CachesSound, TableReady, TableValid, View, Exactly, ReachAll, Restrict, WellFormed, KeepsMeaning,
           Midway;
      ghost var t0, d := table.T(), D();
      table.KeysAreNodes();
      if Exact() { LiveIsPinned(); }
      marked := MarkMidway();
      Collect(t0, d);
    }

    /// `gc` from its `try_write` on. Refused, it returns 0 and touches nothing; let in, it collects
    /// the table as it is then, and clears the caches.
    method TryCollect() returns (marked: nat, refused: bool)
      requires Valid()
      modifies table, notCache, andCache, orCache, compCache, this`guard
      ensures Valid() && table.pinned == old(table.pinned) && table.rivals == old(table.rivals)
      ensures old(table.rivals) == 0 ==> !refused
      ensures refused ==> marked == 0 && table.T() == old(table.T()) && table.numEntry == old(table.numEntry)
      ensures refused ==> Cached() == old(Cached())
      ensures !refused ==> marked == table.numEntry == |table.nodes| && CachesEmpty()
      ensures !refused ==> D() == old(Restrict(D(), Live())) && Collected(old(table.T()), table.T(), old(Live()))
      ensures KeepsMeaning(old(D()), D(), table.pinned)
      ensures old(Exact()) ==> Exact() && old(Live() == ReachAll(D(), Support(table.pinned)))
    {
      hide RefsOk, CachesSound, TableReady, TableValid, View, Exactly, ReachAll, Restrict, WellFormed, KeepsMeaning,
           Collected;
      var ok := TryWrite();
      if !ok {
        StayAsTheyAre();
        return 0, true;
      }
      marked := GcGuarded();
      DropGuard();
      refused := false;
    }

    /// `gc`: 0 and nothing done if somebody else is collecting. Otherwise what is left of the table
    /// found is what nodes with non-zero count reach in it; with exact counts, what the references
    /// answered for reach, no more and no less.
    method Gc() returns (marked: nat, ghost a: Attempt)
      requires Valid()
      modifies table, notCache, andCache, orCache, compCache, this`guard
      ensures Valid() && table.pinned == old(table.pinned) && KeepsMeaning(old(D()), D(), table.pinned)
      ensures (forall p :: p in a.at.nodes ==> p in a.at.heap) && D().(g := View(a.at)).Ok()
      ensures KeepsMeaning(old(D()), D().(g := View(a.at)), table.pinned)
      ensures a.refused ==> marked == 0 && table.T() == a.at
      ensures !a.refused ==>
        var found := D().(g := View(a.at)); var live := ReachAll(found, Referenced(a.at));
        && D() == Restrict(found, live) && Collected(a.at, table.T(), live)
        && marked == table.numEntry == |table.nodes| && CachesEmpty()
      ensures old(table.rivals) == 0 ==> !a.refused && a.at == old(table.T())
      ensures old(Exact()) ==> Exact() && table.nodes == old(ReachAll(D(), Support(table.pinned)))
    {
      hide RefsOk, CachesSound, TableReady, TableValid, View, Exactly, ReachAll, Restrict, WellFormed, KeepsMeaning,
           Collected;
      ghost var d := D();
      Meanwhile();
      StayAsTheyAre();
      ghost var e, t := D(), table.T();
      var refused;
      marked, refused := TryCollect();
      a := Attempt(refused, t);
      KeepsMeaningTransitively(d, e, D(), table.pinned);
      if d.Ok() && a.at == old(table.T()) { CollectedNodes(t, table.T(), e); }
    }

    /// `enter_op`'s clean-up, under the write guard: collect if that frees at least a quarter of
    /// the buckets' number, else grow. `entryNum` and `bucketSize` were read before.
    method CleanUp(entryNum: nat, bucketSize: nat) returns (marked: nat)
      requires Consistent() && guard.WriteHeld?
      modifies table, notCache, andCache, orCache, compCache
      ensures CachesEmpty()
      ensures Consistent() && table.pinned == old(table.pinned) && table.rivals == old(table.rivals)
      ensures KeepsMeaning(old(D()), D(), table.pinned) && marked == |old(Live())|
      ensures Selects(|table.buckets| == 2 * |old(table.buckets)|, entryNum, bucketSize, marked)
      ensures if |table.buckets| == 2 * |old(table.buckets)|
              then D() == old(D()) && CacheSizes() == Doubled(old(CacheSizes()))
              else D() == old(Restrict(D(), Live())) && |table.buckets| == |old(table.buckets)|
                   && CacheSizes() == old(CacheSizes())
      ensures old(Exact()) ==> Exact() && marked <= old(table.numEntry)
    {
      hide RefsOk, CachesSound, TableReady, TableValid, View, Exactly, ReachAll, Restrict, WellFormed, KeepsMeaning,
           Collected, Midway, Selects;
      ghost var t0, d := table.T(), D();
      LiveFits();
      marked := MarkMidway();
      SubSelects(entryNum, bucketSize, marked);
      if WrappingSub(entryNum, marked) < bucketSize / 4 {
        Enlarge(t0, d);
        table.KeysAreNodes();
        NothingKeepsMeaning(d, table.pinned);
      } else {
        Collect(t0, d);
      }
    }

    lemma StayAsTheyAre()
      requires Consistent()
      ensures KeepsMeaning(D(), D(), table.pinned) && forall p :: p in table.nodes ==> p in table.heap
    {
      hide WellFormed;
      PinnedAreThere();
      NothingKeepsMeaning(D(), table.pinned);
      forall p | p in table.nodes ensures p in table.heap { table.InTable(p); }
    }

    /// The part of `enter_op` between reading the counts and taking the read guard.
    method CleanUpIfFull(entryNum: nat, bucketSize: nat, ghost d: Diagram) returns (ghost e: Entered)
      requires Valid() && KeepsMeaning(d, D(), table.pinned) && d == D().(g := d.g)
      modifies table, notCache, andCache, orCache, compCache, this`guard
      ensures Valid() && table.pinned == old(table.pinned) && table.rivals == old(table.rivals)
      ensures KeepsMeaning(old(D()), D(), table.pinned) && (old(Exact()) ==> Exact())
      ensures Selected(e, entryNum, bucketSize, d, D(), table.pinned)
      ensures old(table.rivals) == 0 ==> (e.Passed? <==> entryNum < bucketSize)
      ensures
        match e
        case Passed => table.T() == old(table.T()) && Cached() == old(Cached())
        case Enlarged(at) =>
          && at == old(table.T()) && D() == old(D()) && |table.buckets| == 2 * |old(table.buckets)|
          && CacheSizes() == Doubled(old(CacheSizes()))
        case Cleaned(at) =>
          && at == old(table.T()) && D() == old(Restrict(D(), Live())) && |table.buckets| == |old(table.buckets)|
          && CacheSizes() == old(CacheSizes())
    {
      hide RefsOk, CachesSound, TableReady, TableValid, View, Exactly, ReachAll, Restrict, WellFormed, KeepsMeaning,
           Collected, Midway, Selected, Selects;
      ghost var t, now := table.T(), D();
      ghost var buckets := |table.buckets|;
      StayAsTheyAre();
      e := Passed;
      if entryNum >= bucketSize {
        var ok := TryWrite();
        if ok {
          var marked := CleanUp(entryNum, bucketSize);
          e := if |table.buckets| == 2 * buckets then Enlarged(t) else Cleaned(t);
          StayAsTheyAre();
          DropGuard();
        }
      }
      IsSelected(e, entryNum, bucketSize, d, now, D(), table.pinned);
    }

    /// The table is full, and collecting it would free fewer nodes than a quarter of its buckets.
    ghost predicate MustGrow()
      requires table.Valid() && D().Ok()
      reads table
    {
      table.numEntry >= |table.buckets| && |table.nodes| - |Live()| < |table.buckets| / 4
    }

    /// `enter_op`: what it leaves is this thread's read guard. Below the load threshold nothing
    /// happens. Above it, if the write guard is to be had, the table is grown or collected, depending
    /// on how many nodes are alive by then; a thread alone always gets the guard and finds the table
    /// as it left it.
    method EnterOp() returns (ghost e: Entered)
      requires Valid()
      modifies table, notCache, andCache, orCache, compCache, this`guard
      ensures Consistent() && guard.ReadHeld?
      ensures table.pinned == old(table.pinned) && KeepsMeaning(old(D()), D(), table.pinned)
      ensures Selected(e, old(table.numEntry), |old(table.buckets)|, old(D()), D(), table.pinned)
      ensures old(Exact()) ==> Exact() && (e.Passed? <==> old(table.numEntry < |table.buckets|))
      ensures old(Exact()) ==> (e.Enlarged? <==> old(MustGrow()))
      ensures old(Exact()) ==>
        match e
        case Passed => table.T() == old(table.T()) && Cached() == old(Cached())
        case Enlarged(at) =>
          && at == old(table.T()) && D() == old(D()) && |table.buckets| == 2 * |old(table.buckets)|
          && CacheSizes() == Doubled(old(CacheSizes()))
        case Cleaned(at) =>
          && at == old(table.T()) && D() == old(Restrict(D(), Live())) && |table.buckets| == |old(table.buckets)|
          && CacheSizes() == old(CacheSizes())
    {
      hide RefsOk, CachesSound, TableReady, TableValid, View, Exactly, ReachAll, Restrict, WellFormed, KeepsMeaning,
           Collected, Midway, Selected, Selects;
      ghost var d, t, exact := D(), table.T(), Exact();
      var entryNum, bucketSize := table.numEntry, |table.buckets|;
      LiveFits();
      StayAsTheyAre();
      Meanwhile();
      ghost var at := D();
      e := CleanUpIfFull(entryNum, bucketSize, d);
      ghost var now := D();
      if exact { SelectedGrows(e, t, entryNum, bucketSize, d, now, table.pinned); }
      Meanwhile();
      KeepsMeaningTransitively(d, at, now, table.pinned);
      KeepsMeaningTransitively(d, now, D(), table.pinned);
      SelectedLater(e, entryNum, bucketSize, d, now, D(), table.pinned);
      Read();
    }

    // ---------- The public operations ----------

    lemma BaseIsPinned()
      requires Consistent()
      ensures Base() <= table.pinned
    {
    }

    lemma TerminalsAreThere()
      requires Consistent()
      ensures falseId in table.nodes && trueId in table.nodes && falseId in table.heap && trueId in table.heap
    {
      assert falseId in D().g && trueId in D().g;
    }

    lemma PinnedAreThere()
      requires Consistent()
      ensures forall p :: p in table.pinned ==> p in D().g
    {
    }

    lemma PinnedIsThere(p: Ptr)
      requires Consistent() && p in table.pinned
      ensures p in D().g
    {
      hide WellFormed, CachesSound;
    }

    /// How many buckets a thread alone finds once it is let in.
    ghost function BucketsAfter(): nat
      requires table.Valid() && D().Ok()
      reads table
    {
      if MustGrow() then 2 * |table.buckets| else |table.buckets|
    }

    /// `enter_op`, as the operations use it.
    method Begin() returns (ghost o: Moment)
      requires Valid()
      modifies table, notCache, andCache, orCache, compCache, this`guard
      ensures Since(o) && o.d == D() && o.pinned == old(table.pinned) && forall p :: p in o.pinned ==> p in D().g
      ensures KeepsMeaning(old(D()), o.d, o.pinned) && (old(Exact()) ==> o.exact && o.buckets == old(BucketsAfter()))
    {
      hide RefsOk, CachesSound, TableReady, TableValid, View, Exact, KeepsMeaning, WellFormed, Diagram.Ok, Selected,
           MustGrow;
      ghost var e := EnterOp();
      PinnedAreThere();
      o := Now();
    }

    /// One reference on the result for the caller, and the end of the read guard's scope.
    method Conclude(ret: Ptr, ghost o: Moment)
      requires Since(o) && ret in D().g
      modifies table`heap, table`pinned, this`guard
      ensures Valid() && D() == old(D()) && table.pinned == o.pinned + multiset{ret}
      ensures (o.exact ==> Exact()) && |table.buckets| == o.buckets
    {
      hide Consistent, TableReady, TableValid, View, Exact, WellFormed, Diagram.Ok;
      RefBdd(ret);
      DropGuard();
    }

    /// Each returns a node that denotes the right function, with one reference on it for the
    /// caller. Operands must be referenced; everything referenced keeps its meaning, whether
    /// `enter_op` collected, grew, or did nothing; and to a thread alone it has done what the counts
    /// ask for.
    method Not(bdd: Ptr) returns (ret: Ptr)
      requires Valid() && bdd in table.pinned
      modifies table, notCache, andCache, orCache, compCache, this`spare, this`guard
      ensures Valid() && table.pinned == old(table.pinned) + multiset{ret} && (old(Exact()) ==> Exact())
      ensures old(Exact()) ==> |table.buckets| == old(BucketsAfter())
      ensures Done(Negation, old(D()), D(), old(table.pinned), bdd, bdd, ret)
    {
      hide Consistent, Since, TableReady, TableValid, View, Exact, KeepsMeaning, Computes, Done, WellFormed, Diagram.Ok,
           MustGrow, Memo, MemoNot, Grows;
      ghost var d := D();
      ghost var o := Begin();
      ret := NotRec(bdd, o);
      OperationDone(Negation, d, o.d, D(), o.pinned, bdd, bdd, ret);
      Conclude(ret, o);
    }

    method And(lhs: Ptr, rhs: Ptr) returns (ret: Ptr)
      requires Valid() && lhs in table.pinned && rhs in table.pinned
      modifies table, notCache, andCache, orCache, compCache, this`spare, this`guard
      ensures Valid() && table.pinned == old(table.pinned) + multiset{ret} && (old(Exact()) ==> Exact())
      ensures old(Exact()) ==> |table.buckets| == old(BucketsAfter())
      ensures Done(Conjunction, old(D()), D(), old(table.pinned), lhs, rhs, ret)
    {
      hide Consistent, Since, TableReady, TableValid, View, Exact, KeepsMeaning, Computes, Done, WellFormed, Diagram.Ok,
           MustGrow, Memo, MemoNot, Grows;
      ghost var d := D();
      ghost var o := Begin();
      ret := AndRec(lhs, rhs, o);
      OperationDone(Conjunction, d, o.d, D(), o.pinned, lhs, rhs, ret);
      Conclude(ret, o);
    }

    method Or(lhs: Ptr, rhs: Ptr) returns (ret: Ptr)
      requires Valid() && lhs in table.pinned && rhs in table.pinned
      modifies table, notCache, andCache, orCache, compCache, this`spare, this`guard
      ensures Valid() && table.pinned == old(table.pinned) + multiset{ret} && (old(Exact()) ==> Exact())
      ensures old(Exact()) ==> |table.buckets| == old(BucketsAfter())
      ensures Done(Disjunction, old(D()), D(), old(table.pinned), lhs, rhs, ret)
    {
      hide Consistent, Since, TableReady, TableValid, View, Exact, KeepsMeaning, Computes, Done, WellFormed, Diagram.Ok,
           MustGrow, Memo, MemoNot, Grows;
      ghost var d := D();
      ghost var o := Begin();
      ret := OrRec(lhs, rhs, o);
      OperationDone(Disjunction, d, o.d, D(), o.pinned, lhs, rhs, ret);
      Conclude(ret, o);
    }

    method Comp(lhs: Ptr, rhs: Ptr) returns (ret: Ptr)
      requires Valid() && lhs in table.pinned && rhs in table.pinned
      modifies table, notCache, andCache, orCache, compCache, this`spare, this`guard
      ensures Valid() && table.pinned == old(table.pinned) + multiset{ret} && (old(Exact()) ==> Exact())
      ensures old(Exact()) ==> |table.buckets| == old(BucketsAfter())
      ensures Done(Difference, old(D()), D(), old(table.pinned), lhs, rhs, ret)
    {
      hide Consistent, Since, TableReady, TableValid, View, Exact, KeepsMeaning, Computes, Done, WellFormed, Diagram.Ok,
           MustGrow, Memo, MemoNot, Grows;
      ghost var d := D();
      ghost var o := Begin();
      ret := CompRec(lhs, rhs, o);
      OperationDone(Difference, d, o.d, D(), o.pinned, lhs, rhs, ret);
      Conclude(ret, o);
    }

    // ---------- Variables, constants, tests ----------

    method GetVar(i: nat) returns (ret: Ptr)
      requires Consistent() && i < numVars
      ensures ret in Base() && ret in table.pinned && ret in D().g && Denotes(D(), ret) == Variable(i, true)
    {
      assert vars[i] in Base();
      VariableMeans(D(), vars[i], i, true);
      ret := vars[i];
    }

    method GetNvar(i: nat) returns (ret: Ptr)
      requires Consistent() && i < numVars
      ensures ret in Base() && ret in table.pinned && ret in D().g && Denotes(D(), ret) == Variable(i, false)
    {
      assert nvars[i] in Base();
      VariableMeans(D(), nvars[i], i, false);
      ret := nvars[i];
    }

    method GetTrue() returns (ret: Ptr)
      requires Consistent()
      ensures ret in Base() && ret in table.pinned && ret in D().g && Denotes(D(), ret) == Always()
    {
      assert trueId in Base();
      TerminalsDecide(D(), trueId);
      ret := trueId;
    }

    method GetFalse() returns (ret: Ptr)
      requires Consistent()
      ensures ret in Base() && ret in table.pinned && ret in D().g && Denotes(D(), ret) == iset{}
    {
      assert falseId in Base();
      TerminalsDecide(D(), falseId);
      ret := falseId;
    }

    /// `is_true` decides validity.
    method IsTrue(bdd: Ptr) returns (yes: bool)
      requires Consistent() && bdd in D().g
      ensures yes <==> Denotes(D(), bdd) == Always()
    {
      TerminalsDecide(D(), bdd);
      yes := bdd == trueId;
    }

    /// `is_false` decides unsatisfiability.
    method IsFalse(bdd: Ptr) returns (yes: bool)
      requires Consistent() && bdd in D().g
      ensures yes <==> Denotes(D(), bdd) == iset{}
    {
      TerminalsDecide(D(), bdd);
      yes := bdd == falseId;
    }
  }
}
