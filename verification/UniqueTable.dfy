/// The unique table of src/set.rs as an object: `get_or_insert` with its retry loop, run against
/// whatever other threads do in between, and the passes that run alone under the write guard
/// (mark, sweep, unmark, grow), all updating `next` fields in place.

module UniqueTable {
  import opened Powers
  import opened Nodes
  import opened Chains
  import opened Diagrams

  /// `hash & (size - 1)`, for a size that is a power of two.
  ghost function IndexFor(hash: Key -> nat, size: nat): Index
    requires size > 0
  {
    (k: Key) => hash(k) % size
  }

  /// Everything about a node except its mark bit.
  function Unmark(n: Node): Node {
    n.(level := n.BaseKey().level)
  }

  /// Two memories that differ in mark bits only.
  ghost predicate MarksOnly(h: Heap, h': Heap) {
    h.Keys == h'.Keys && forall p :: p in h ==> Unmark(h[p]) == Unmark(h'[p])
  }

  /// Two memories that differ in `next` fields only.
  ghost predicate NextsOnly(h: Heap, h': Heap) {
    h.Keys == h'.Keys && forall p :: p in h ==> h[p].(next := NULL) == h'[p].(next := NULL)
  }

  ghost predicate TableValid(t: Table, hash: Key -> nat) {
    && |t.heads| > 0
    && WellFormed(t, IndexFor(hash, |t.heads|))
    && NULL !in t.heap
    && (forall p :: p in t.nodes ==> p in t.heap)
    && (forall p :: p in t.nodes ==> t.heap[p].hash == hash(KeyAt(t, p)))
  }

  /// A published node without its mark: the state between collections.
  ghost predicate CleanAt(t: Table, p: Ptr) {
    p in t.nodes ==> p in t.heap && !t.heap[p].Marked()
  }

  ghost predicate TableReady(t: Table, hash: Key -> nat) {
    TableValid(t, hash) && forall p :: CleanAt(t, p)
  }

  /// The reference count of `p` covers the references in `pinned`.
  ghost predicate CoveredAt(t: Table, pinned: multiset<Ptr>, p: Ptr) {
    p in t.nodes && p in t.heap && t.heap[p].refCnt >= pinned[p]
  }

  /// A node ready to be offered: private, unmarked, its hash up to date.
  ghost predicate Offerable(t: Table, hash: Key -> nat, p: Ptr) {
    && p in t.heap && p !in t.nodes && !t.heap[p].Marked()
    && t.heap[p].hash == hash(t.heap[p].RawKey()) && t.heap[p].refCnt >= 0
  }

  // ---------- What other threads may do ----------

  ghost predicate KeyKept(t: Table, u: Table, p: Ptr) {
    p in t.nodes ==> p in u.nodes && p in t.heap && p in u.heap && u.heap[p].BaseKey() == t.heap[p].BaseKey()
  }

  ghost predicate CoverKept(t: Table, u: Table, exempt: set<Ptr>, pinned: multiset<Ptr>, p: Ptr) {
    p in u.nodes && p !in exempt && (p in t.nodes ==> CoveredAt(t, pinned, p)) ==> CoveredAt(u, pinned, p)
  }

  /// From `t` to `u` nodes were published; published nodes kept their keys and, unless exempt, the
  /// references that `pinned` accounts for; the number of buckets is the same.
  ghost predicate Evolves(t: Table, u: Table, exempt: set<Ptr>, pinned: multiset<Ptr>) {
    && |t.heads| == |u.heads|
    && (forall p :: KeyKept(t, u, p))
    && (forall p :: CoverKept(t, u, exempt, pinned, p))
  }

  ghost predicate Untouched(t: Table, u: Table, p: Ptr) {
    p in t.heap && p in u.heap && p !in u.nodes && t.heap[p].(next := NULL) == u.heap[p].(next := NULL)
  }

  lemma EvolvesTransitively(t: Table, u: Table, v: Table, exempt: set<Ptr>, pinned: multiset<Ptr>)
    requires Evolves(t, u, exempt, pinned) && Evolves(u, v, exempt, pinned)
    ensures Evolves(t, v, exempt, pinned)
  {
    forall p ensures KeyKept(t, v, p) { assert KeyKept(t, u, p) && KeyKept(u, v, p); }
    forall p ensures CoverKept(t, v, exempt, pinned, p) {
      assert CoverKept(t, u, exempt, pinned, p) && CoverKept(u, v, exempt, pinned, p) && KeyKept(t, u, p);
    }
  }

  /// From `t` to `u` only memory outside the published nodes has changed.
  ghost predicate PrivateChange(t: Table, u: Table) {
    && t.heads == u.heads && t.nodes == u.nodes && NULL !in u.heap
    && (forall p :: p in t.nodes ==> p in t.heap && p in u.heap && u.heap[p] == t.heap[p])
  }

  /// That is nobody else's business.
  lemma PrivateChangeIsQuiet(t: Table, u: Table, hash: Key -> nat, exempt: set<Ptr>, pinned: multiset<Ptr>)
    requires TableReady(t, hash) && PrivateChange(t, u)
    ensures TableReady(u, hash) && Evolves(t, u, exempt, pinned) && View(u) == View(t)
  {
    ShapeDecides(t, u, IndexFor(hash, |t.heads|));
    forall q ensures CleanAt(u, q) { assert CleanAt(t, q); }
  }

  /// Counting a reference up or down changes nothing but the count.
  lemma CountingIsQuiet(t: Table, hash: Key -> nat, p: Ptr, count: int)
    requires TableReady(t, hash) && p in t.nodes && p in t.heap
    ensures var u := t.(heap := t.heap[p := t.heap[p].(refCnt := count)]); TableReady(u, hash) && View(u) == View(t)
  {
    var u := t.(heap := t.heap[p := t.heap[p].(refCnt := count)]);
    ShapeDecides(t, u, IndexFor(hash, |t.heads|));
    forall q ensures CleanAt(u, q) { assert CleanAt(t, q); }
  }

  /// Publishing an offerable node at its gap.
  lemma PublishedIsReady(t: Table, hash: Key -> nat, exempt: set<Ptr>, pinned: multiset<Ptr>, c: Cell, p: Ptr)
    requires TableReady(t, hash) && Offerable(t, hash, p) && p !in pinned
    requires CellOk(t, c) && Gap(t, IndexFor(hash, |t.heads|), c, t.heap[p].RawKey()) && t.heap[p].next == Load(t, c)
    ensures var u := Linked(t, c, p); var k := t.heap[p].RawKey();
      TableReady(u, hash) && Evolves(t, u, exempt, pinned) && k !in View(t).Values && View(u) == View(t)[p := k]
  {
    var u, ix := Linked(t, c, p), IndexFor(hash, |t.heads|);
    GapMeansAbsent(t, ix, c, KeyAt(t, p));
    LinkKeepsWellFormed(t, ix, c, p);
    forall q ensures CleanAt(u, q) { assert CleanAt(t, q); }
    assert forall q :: q in t.heap ==> q in u.heap && KeyAt(u, q) == KeyAt(t, q) && u.heap[q].hash == t.heap[q].hash;
  }

  // ---------- Where a walk is ----------

  /// The walk for key `k` is at cell `prev`, from which it read `curr`.
  ghost predicate WalkAt(t: Table, hash: Key -> nat, k: Key, prev: Cell, curr: Ptr)
    requires |t.heads| > 0
  {
    var ix := IndexFor(hash, |t.heads|);
    && CellOk(t, prev) && CellBucket(t, ix, prev) == ix(k) && Before(t, prev, k)
    && (curr == NULL || (curr in t.nodes && curr in t.heap && Bucket(t, ix, curr) == ix(k)))
  }

  lemma WalkSurvives(t: Table, u: Table, hash: Key -> nat, exempt: set<Ptr>, pinned: multiset<Ptr>, k: Key,
      prev: Cell, curr: Ptr)
    requires |t.heads| > 0 && WalkAt(t, hash, k, prev, curr) && Evolves(t, u, exempt, pinned)
    ensures WalkAt(u, hash, k, prev, curr)
  {
    assert prev.Next? ==> KeyKept(t, u, prev.p);
    assert curr != NULL ==> KeyKept(t, u, curr);
  }

  lemma WalkLoaded(t: Table, hash: Key -> nat, k: Key, prev: Cell, curr: Ptr)
    requires TableValid(t, hash) && WalkAt(t, hash, k, prev, curr)
    ensures WalkAt(t, hash, k, prev, Load(t, prev))
  {
    if Load(t, prev) != NULL { CellFits(t, IndexFor(hash, |t.heads|), prev); }
  }

  /// The table and diagram a call started on, whether its key fits the diagram, and whether the
  /// thread is alone.
  datatype Origin = Origin(t: Table, d: Diagram, fits: bool, solo: bool, count: nat)

  /// What a lookup does to the table when nobody interferes: nothing but `next` fields of private nodes.
  ghost predicate SoloLookup(t: Table, u: Table) {
    && (forall p :: p in t.nodes ==> p in t.heap) && (forall p :: p in u.nodes ==> p in u.heap)
    && View(u) == View(t) && NextsOnly(t.heap, u.heap)
  }

  /// And what an insertion does: one more entry, under a key that was not there.
  ghost predicate SoloInsert(t: Table, u: Table, p: Ptr, k: Key) {
    && (forall q :: q in t.nodes ==> q in t.heap) && (forall q :: q in u.nodes ==> q in u.heap)
    && k !in View(t).Values && View(u) == View(t)[p := k] && NextsOnly(t.heap, u.heap)
  }

  lemma PublishingIsInsertion(t0: Table, t: Table, c: Cell, p: Ptr)
    requires SoloLookup(t0, t) && CellOk(t, c) && p in t.heap
    requires t.heap[p].RawKey() !in View(t).Values
    requires forall q :: q in Linked(t, c, p).nodes ==> q in Linked(t, c, p).heap
    requires View(Linked(t, c, p)) == View(t)[p := t.heap[p].RawKey()]
    ensures SoloInsert(t0, Linked(t, c, p), p, t.heap[p].RawKey())
  {
  }

  /// Everything a call promises at the moment its node is published.
  lemma PublishedSince(o: Origin, t: Table, hash: Key -> nat, pinned: multiset<Ptr>, c: Cell, p: Ptr)
    requires TableReady(t, hash) && Offerable(t, hash, p) && p !in pinned
    requires CellOk(t, c) && Gap(t, IndexFor(hash, |t.heads|), c, t.heap[p].RawKey()) && t.heap[p].next == Load(t, c)
    requires Evolves(o.t, t, o.d.Exempt(), pinned) && (o.solo ==> SoloLookup(o.t, t))
    requires o.fits ==>
        var d := o.d.(g := View(t));
        d.Ok() && d.KeyFits(t.heap[p].RawKey()) && Grows(o.d, d)
    ensures var u := Linked(t, c, p);
      && TableReady(u, hash) && Evolves(o.t, u, o.d.Exempt(), pinned)
      && p in u.heap && u.heap[p].RawKey() == t.heap[p].RawKey()
      && (o.fits ==> o.d.(g := View(u)).Ok() && Grows(o.d, o.d.(g := View(u))))
      && (o.solo ==> SoloInsert(o.t, u, p, t.heap[p].RawKey()))
  {
    hide WellFormed;
    var k := t.heap[p].RawKey();
    PublishedIsReady(t, hash, o.d.Exempt(), pinned, c, p);
    EvolvesTransitively(o.t, t, Linked(t, c, p), o.d.Exempt(), pinned);
    if o.fits { AddingKeepsOk(o.d.(g := View(t)), p, k); }
    if o.solo { PublishingIsInsertion(o.t, t, c, p); }
  }

  // ---------- Collection ----------

  ghost function MarkedIn(t: Table): set<Ptr> {
    set p | p in t.nodes && p in t.heap && t.heap[p].Marked()
  }

  ghost function Referenced(t: Table): set<Ptr> {
    set p | p in t.nodes && p in t.heap && t.heap[p].refCnt != 0
  }

  /// The nodes in bucket `i` and after.
  ghost function FromBucket(t: Table, index: Index, i: nat): set<Ptr>
  {
    set q | q in t.nodes && q in t.heap && i <= Bucket(t, index, q)
  }

  /// The table's structure does not depend on marks.
  lemma MarksDecideNothing(t: Table, u: Table, hash: Key -> nat)
    requires TableValid(t, hash) && t.heads == u.heads && t.nodes == u.nodes && MarksOnly(t.heap, u.heap)
    ensures TableValid(u, hash) && View(u) == View(t)
  {
    assert forall p :: p in t.heap ==>
        Unmark(t.heap[p]) == Unmark(u.heap[p]) && t.heap[p].BaseKey() == u.heap[p].BaseKey();
    ShapeDecides(t, u, IndexFor(hash, |t.heads|));
  }

  /// `level |= MARK`.
  function SetMark(n: Node): Node {
    if n.Marked() then n else n.(level := n.level + MARK)
  }

  lemma RemarkedTwice(t: Table, u: Table, v: Table, hash: Key -> nat, m: set<Ptr>, m': set<Ptr>)
    requires Remarked(t, u, hash, m) && Remarked(u, v, hash, m')
    ensures Remarked(t, v, hash, m')
  {
  }

  lemma MarkingOne(t: Table, hash: Key -> nat, d: Diagram, p: Ptr)
    requires TableValid(t, hash) && d.Ok() && d.g == View(t) && d.n <= MARK && p in t.nodes
    ensures Remarked(t, t.(heap := t.heap[p := SetMark(t.heap[p])]), hash, MarkedIn(t) + {p})
    ensures !t.heap[p].Marked() ==> |MarkedIn(t) + {p}| == |MarkedIn(t)| + 1
  {
    var u := t.(heap := t.heap[p := SetMark(t.heap[p])]);
    assert d.NodeFits(p) && View(t)[p] == t.heap[p].BaseKey();
    MarksDecideNothing(t, u, hash);
  }

  /// What marking from a child pointer adds.
  ghost function ReachOf(d: Diagram, child: Ptr): set<Ptr>
    requires d.Ok()
  {
    if child in d.g then Reach(d, child) else {}
  }

  /// The walk may go down to `child`.
  ghost predicate MayDescend(d: Diagram, root: Ptr, child: Ptr, m: set<Ptr>)
    requires d.Ok() && root in d.g
  {
    if child == NULL then child !in d.g
    else child in d.g && d.Top(root) < d.Top(child) && ClosedBelow(d, child, m)
  }

  /// What is marked at a child already has everything below it marked, because neither `root` nor
  /// anything above it is below itself.
  lemma MarkingGoesDown(d: Diagram, root: Ptr, m: set<Ptr>)
    requires d.Ok() && root in d.g && ClosedBelow(d, root, m)
    ensures MayDescend(d, root, d.Low(root), m + {root})
    ensures MayDescend(d, root, d.High(root), m + {root} + ReachOf(d, d.Low(root)))
    ensures m + {root} + ReachOf(d, d.Low(root)) + ReachOf(d, d.High(root)) == m + Reach(d, root)
  {
    ReachFacts(d, root);
    assert d.NodeFits(root);
    if !d.Terminal(root) {
      ReachFacts(d, d.Low(root));
      ReachFacts(d, d.High(root));
    }
  }

  /// Whatever is marked at or below `p` has everything below it marked as well.
  ghost predicate ClosedBelow(d: Diagram, p: Ptr, m: set<Ptr>)
    requires d.Ok() && p in d.g
  {
    forall q :: q in Reach(d, p) && q in m ==> q in d.g && Reach(d, q) <= m
  }

  /// From `t` to `u` only marks have changed, and `m` is what is marked now.
  ghost predicate Remarked(t: Table, u: Table, hash: Key -> nat, m: set<Ptr>) {
    && t.heads == u.heads && t.nodes == u.nodes && MarksOnly(t.heap, u.heap)
    && TableValid(t, hash) && TableValid(u, hash) && View(u) == View(t)
    && MarkedIn(u) == m
  }

  /// Marking from one more root: when to walk, and what it adds.
  lemma MarkingRoot(d: Diagram, seen: set<Ptr>, p: Ptr)
    requires d.Ok() && p in d.g
    ensures forall q :: q in ReachAll(d, seen) ==> q in d.g && Reach(d, q) <= ReachAll(d, seen)
    ensures ReachAll(d, seen + {p}) == ReachAll(d, seen) + Reach(d, p)
    ensures p in ReachAll(d, seen) ==> ReachAll(d, seen + {p}) == ReachAll(d, seen)
  {
    forall q | q in ReachAll(d, seen) ensures q in d.g && Reach(d, q) <= ReachAll(d, seen) {
      ReachAllClosed(d, seen, q);
    }
    ReachAllAdd(d, seen, p);
  }

  /// The walk through the table is at `curr` in bucket `i`.
  ghost predicate OnWalk(t: Table, hash: Key -> nat, i: nat, curr: Ptr)
    requires |t.heads| > 0
  {
    curr in t.nodes && curr in t.heap && Bucket(t, IndexFor(hash, |t.heads|), curr) == i
  }

  /// The referenced nodes the walk has passed.
  ghost function Seen(t: Table, hash: Key -> nat, i: nat, curr: Ptr): set<Ptr>
    requires TableValid(t, hash) && (curr == NULL || curr in t.nodes)
  {
    Referenced(t) - Ahead(t, IndexFor(hash, |t.heads|), i, curr)
  }

  /// The same, when the walk is about to enter bucket `i`.
  ghost function SeenBefore(t: Table, hash: Key -> nat, i: nat): set<Ptr>
    requires TableValid(t, hash)
  {
    Referenced(t) - FromBucket(t, IndexFor(hash, |t.heads|), i)
  }

  /// Entering a bucket, moving along it, and leaving it.
  lemma WalkFacts(t: Table, hash: Key -> nat, i: nat, curr: Ptr)
    requires TableValid(t, hash) && i < |t.heads| && (curr == NULL || OnWalk(t, hash, i, curr))
    ensures t.heads[i] == NULL || OnWalk(t, hash, i, t.heads[i])
    ensures Seen(t, hash, i, t.heads[i]) == SeenBefore(t, hash, i)
    ensures Seen(t, hash, i, NULL) == SeenBefore(t, hash, i + 1)
    ensures curr != NULL ==>
      var n := t.heap[curr].next;
      && (n == NULL || OnWalk(t, hash, i, n))
      && Ahead(t, IndexFor(hash, |t.heads|), i, n) < Ahead(t, IndexFor(hash, |t.heads|), i, curr)
      && Seen(t, hash, i, n) ==
         if curr in Referenced(t) then Seen(t, hash, i, curr) + {curr} else Seen(t, hash, i, curr)
  {
    var ix := IndexFor(hash, |t.heads|);
    AheadAtHead(t, ix, i);
    if curr != NULL { AheadNext(t, ix, i, curr); }
  }

  lemma AllSeen(t: Table, hash: Key -> nat)
    requires TableValid(t, hash)
    ensures SeenBefore(t, hash, 0) == {} && SeenBefore(t, hash, |t.heads|) == Referenced(t)
  {
    AheadAtHead(t, IndexFor(hash, |t.heads|), 0);
    AheadAtHead(t, IndexFor(hash, |t.heads|), |t.heads|);
  }

  lemma NothingMarked(t: Table, hash: Key -> nat, d: Diagram)
    requires TableReady(t, hash) && d.Ok()
    ensures MarkedIn(t) == {} && Remarked(t, t, hash, ReachAll(d, SeenBefore(t, hash, 0)))
  {
    AllSeen(t, hash);
    assert forall p :: CleanAt(t, p);
    assert ReachAll(d, {}) == {};
    assert forall p :: p in MarkedIn(t) ==> CleanAt(t, p);
  }

  // ---------- Sweeping ----------

  /// `t` is `t0` without some of its unmarked nodes, whose memory has been given back.
  ghost predicate Swept(t0: Table, t: Table, hash: Key -> nat) {
    && TableValid(t, hash) && |t.heads| == |t0.heads|
    && t.nodes <= t0.nodes && MarkedIn(t) == MarkedIn(t0)
    && t.heap.Keys == t0.heap.Keys - (t0.nodes - t.nodes)
    && (forall p :: p in t.heap ==> t.heap[p].(next := NULL) == t0.heap[p].(next := NULL))
  }

  /// The sweep holds `curr`, which is in cell `prev` of bucket `i`; behind it only marked nodes are left.
  ghost predicate Sweeping(t0: Table, t: Table, hash: Key -> nat, i: nat, prev: Cell, curr: Ptr) {
    && Swept(t0, t, hash)
    && CellOk(t, prev) && CellBucket(t, IndexFor(hash, |t.heads|), prev) == i && Load(t, prev) == curr
    && (curr == NULL || OnWalk(t, hash, i, curr))
    && t.nodes - Ahead(t, IndexFor(hash, |t.heads|), i, curr) <= MarkedIn(t)
  }

  /// Bypass the node in cell `c` and free it.
  ghost function Freed(t: Table, c: Cell): Table
    requires CellOk(t, c) && Load(t, c) in t.heap
  {
    var u := Unlinked(t, c);
    u.(heap := u.heap - {Load(t, c)})
  }

  /// Freeing leaves the other nodes as unlinking left them.
  lemma FreedFields(t: Table, c: Cell)
    requires CellOk(t, c) && Load(t, c) in t.nodes && Load(t, c) in t.heap && c != Next(Load(t, c))
    requires forall p :: p in t.nodes ==> p in t.heap
    ensures var u, v := Unlinked(t, c), Freed(t, c);
      && (forall p :: p in v.heap ==> p in u.heap && v.heap[p] == u.heap[p])
      && (forall p :: p in v.heap ==> p in t.heap && v.heap[p].(next := NULL) == t.heap[p].(next := NULL))
      && (forall p :: p in v.nodes ==> p in v.heap && p in t.nodes && KeyAt(v, p) == KeyAt(t, p))
      && Load(v, c) == Load(u, c) && v.heads == u.heads && v.nodes == u.nodes
  {
  }

  lemma FreeingKeepsSwept(t0: Table, t: Table, hash: Key -> nat, c: Cell)
    requires Swept(t0, t, hash) && CellOk(t, c) && Load(t, c) in t.nodes && !t.heap[Load(t, c)].Marked()
    requires c != Next(Load(t, c))
    ensures Swept(t0, Freed(t, c), hash) && MarkedIn(Freed(t, c)) == MarkedIn(t)
    ensures SameShape(Unlinked(t, c), Freed(t, c)) && Load(Freed(t, c), c) == Load(Unlinked(t, c), c)
  {
    var ix, u, v := IndexFor(hash, |t.heads|), Unlinked(t, c), Freed(t, c);
    UnlinkKeepsWellFormed(t, ix, c);
    FreedFields(t, c);
    hide Unlinked;
    ShapeDecides(u, v, ix);
    assert MarkedIn(v) == MarkedIn(t);
  }

  lemma SweepDrops(t0: Table, t: Table, hash: Key -> nat, i: nat, prev: Cell, curr: Ptr)
    requires Sweeping(t0, t, hash, i, prev, curr) && curr != NULL && !t.heap[curr].Marked() && prev != Next(curr)
    ensures Sweeping(t0, Freed(t, prev), hash, i, prev, t.heap[curr].next)
    ensures Freed(t, prev).nodes < t.nodes
  {
    hide WellFormed, Swept;
    assert curr in t.nodes && TableValid(t, hash) by { SweptMeans(t0, t, hash); }
    var ix, u, v, n := IndexFor(hash, |t.heads|), Unlinked(t, prev), Freed(t, prev), t.heap[curr].next;
    AheadUnlinked(t, ix, i, prev);
    FreeingKeepsSwept(t0, t, hash, prev);
    SweptMeans(t0, v, hash);
    if n != NULL { CellFits(v, ix, prev); }
    assert Ahead(v, ix, i, n) == Ahead(u, ix, i, n);
  }

  lemma SweptMeans(t0: Table, t: Table, hash: Key -> nat)
    requires Swept(t0, t, hash)
    ensures TableValid(t, hash) && |t.heads| == |t0.heads| && t.nodes <= t0.nodes && MarkedIn(t) == MarkedIn(t0)
  {
  }

  lemma SweepKeeps(t0: Table, t: Table, hash: Key -> nat, i: nat, prev: Cell, curr: Ptr)
    requires Sweeping(t0, t, hash, i, prev, curr) && curr != NULL && t.heap[curr].Marked()
    ensures Sweeping(t0, t, hash, i, Next(curr), t.heap[curr].next)
    ensures Ahead(t, IndexFor(hash, |t.heads|), i, t.heap[curr].next) < Ahead(t, IndexFor(hash, |t.heads|), i, curr)
  {
    AheadNext(t, IndexFor(hash, |t.heads|), i, curr);
  }

  /// A cell never holds the node it belongs to.
  lemma CellIsNotItsOwn(t: Table, hash: Key -> nat, prev: Cell, curr: Ptr)
    requires TableValid(t, hash) && CellOk(t, prev) && Load(t, prev) == curr != NULL
    ensures prev != Next(curr)
  {
    CellFits(t, IndexFor(hash, |t.heads|), prev);
  }

  lemma SweepEnters(t0: Table, t: Table, hash: Key -> nat, i: nat)
    requires Swept(t0, t, hash) && i < |t.heads| && t.nodes - FromBucket(t, IndexFor(hash, |t.heads|), i) <= MarkedIn(t)
    ensures Sweeping(t0, t, hash, i, Head(i), t.heads[i])
  {
    AheadAtHead(t, IndexFor(hash, |t.heads|), i);
  }

  lemma SweepLeaves(t0: Table, t: Table, hash: Key -> nat, i: nat, prev: Cell)
    requires Sweeping(t0, t, hash, i, prev, NULL) && i < |t.heads|
    ensures t.nodes - FromBucket(t, IndexFor(hash, |t.heads|), i + 1) <= MarkedIn(t)
  {
    AheadAtHead(t, IndexFor(hash, |t.heads|), i);
  }

  lemma SweepStarts(t: Table, hash: Key -> nat)
    requires TableValid(t, hash)
    ensures Swept(t, t, hash) && t.nodes - FromBucket(t, IndexFor(hash, |t.heads|), 0) == {}
  {
    AheadAtHead(t, IndexFor(hash, |t.heads|), 0);
  }

  lemma SweepEnds(t0: Table, t: Table, hash: Key -> nat)
    requires Swept(t0, t, hash) && t.nodes - FromBucket(t, IndexFor(hash, |t.heads|), |t.heads|) <= MarkedIn(t)
    ensures t.nodes == MarkedIn(t0)
  {
    AheadAtHead(t, IndexFor(hash, |t.heads|), |t.heads|);
  }

  // ---------- Unmarking ----------

  /// The marked nodes an unmarking walk has still to visit.
  ghost function ToUnmark(t: Table, hash: Key -> nat, i: nat, curr: Ptr): set<Ptr>
    requires TableValid(t, hash) && (curr == NULL || curr in t.nodes)
  {
    MarkedIn(t) * Ahead(t, IndexFor(hash, |t.heads|), i, curr)
  }

  ghost function ToUnmarkFrom(t: Table, hash: Key -> nat, i: nat): set<Ptr>
    requires TableValid(t, hash)
  {
    MarkedIn(t) * FromBucket(t, IndexFor(hash, |t.heads|), i)
  }

  lemma UnmarkFacts(t: Table, hash: Key -> nat, i: nat, curr: Ptr)
    requires TableValid(t, hash) && i < |t.heads| && (curr == NULL || OnWalk(t, hash, i, curr))
    ensures t.heads[i] == NULL || OnWalk(t, hash, i, t.heads[i])
    ensures ToUnmark(t, hash, i, t.heads[i]) == ToUnmarkFrom(t, hash, i)
    ensures ToUnmark(t, hash, i, NULL) == ToUnmarkFrom(t, hash, i + 1)
    ensures curr != NULL ==>
      var n := t.heap[curr].next;
      && (n == NULL || OnWalk(t, hash, i, n))
      && Ahead(t, IndexFor(hash, |t.heads|), i, n) < Ahead(t, IndexFor(hash, |t.heads|), i, curr)
      && ToUnmark(t, hash, i, n) == ToUnmark(t, hash, i, curr) - {curr}
  {
    var ix := IndexFor(hash, |t.heads|);
    AheadAtHead(t, ix, i);
    if curr != NULL { AheadNext(t, ix, i, curr); }
  }

  lemma UnmarkEnds(t: Table, hash: Key -> nat)
    requires TableValid(t, hash)
    ensures Remarked(t, t, hash, ToUnmarkFrom(t, hash, 0)) && ToUnmarkFrom(t, hash, |t.heads|) == {}
  {
    AheadAtHead(t, IndexFor(hash, |t.heads|), 0);
    AheadAtHead(t, IndexFor(hash, |t.heads|), |t.heads|);
  }

  lemma UnmarkingOne(t: Table, hash: Key -> nat, d: Diagram, p: Ptr)
    requires TableValid(t, hash) && d.Ok() && d.g == View(t) && d.n <= MARK && p in t.nodes
    ensures Remarked(t, t.(heap := t.heap[p := Unmark(t.heap[p])]), hash, MarkedIn(t) - {p})
  {
    var u := t.(heap := t.heap[p := Unmark(t.heap[p])]);
    assert d.NodeFits(p) && View(t)[p] == t.heap[p].BaseKey();
    MarksDecideNothing(t, u, hash);
  }

  lemma UnmarkedIsReady(t: Table, hash: Key -> nat)
    requires TableValid(t, hash) && MarkedIn(t) == {}
    ensures TableReady(t, hash)
  {
    forall p ensures CleanAt(t, p) { assert p !in MarkedIn(t); }
  }

  // ---------- Growing ----------

  /// Halfway through `grow`: the nodes in `rest` still hang off the old heads `vh`, the others off
  /// the new heads `nb`, twice as many; only `next` fields differ from the table at the start.
  ghost predicate Growing(t0: Table, hash: Key -> nat, h: Heap, vh: seq<Ptr>, rest: set<Ptr>, nb: seq<Ptr>) {
    && TableReady(t0, hash)
    && |vh| == |t0.heads| && |nb| == 2 * |vh| && rest <= t0.nodes
    && NextsOnly(t0.heap, h)
    && WellFormed(Table(h, vh, rest), IndexFor(hash, |vh|))
    && WellFormed(Table(h, nb, t0.nodes - rest), IndexFor(hash, |nb|))
  }

  lemma GrowStarts(t: Table, hash: Key -> nat, nb: seq<Ptr>)
    requires TableReady(t, hash) && nb == seq(2 * |t.heads|, i => NULL)
    ensures Growing(t, hash, t.heap, t.heads, t.nodes, nb)
  {
    var e, ix := Table(t.heap, nb, t.nodes - t.nodes), IndexFor(hash, |nb|);
    assert SameShape(t, Table(t.heap, t.heads, t.nodes));
    ShapeDecides(t, Table(t.heap, t.heads, t.nodes), IndexFor(hash, |t.heads|));
    forall i ensures HeadFits(e, ix, i) {}
    forall q ensures HeadReaches(e, ix, q) {}
    forall p ensures NextFits(e, ix, p) {}
    forall p, q ensures NextReaches(e, ix, p, q) {}
  }

  lemma EmptyHeadsEmptyTable(t: Table, index: Index)
    requires WellFormed(t, index) && forall j :: 0 <= j < |t.heads| ==> t.heads[j] == NULL
    ensures t.nodes == {}
  {
    forall q ensures q !in t.nodes { assert HeadReaches(t, index, q); }
  }

  lemma GrowEnds(t0: Table, hash: Key -> nat, h: Heap, vh: seq<Ptr>, rest: set<Ptr>, nb: seq<Ptr>)
    requires Growing(t0, hash, h, vh, rest, nb) && forall j :: 0 <= j < |vh| ==> vh[j] == NULL
    ensures var u := Table(h, nb, t0.nodes); TableReady(u, hash) && View(u) == View(t0)
  {
    EmptyHeadsEmptyTable(Table(h, vh, rest), IndexFor(hash, |vh|));
    assert t0.nodes - rest == t0.nodes;
    SameBesidesNext(t0, hash, h);
    var u := Table(h, nb, t0.nodes);
    forall p ensures CleanAt(u, p) { assert CleanAt(t0, p); }
  }

  lemma SameBesidesNext(t0: Table, hash: Key -> nat, h: Heap)
    requires TableReady(t0, hash) && NextsOnly(t0.heap, h)
    ensures forall p :: p in h ==>
        && p in t0.heap && h[p].BaseKey() == t0.heap[p].BaseKey() && h[p].hash == t0.heap[p].hash
        && h[p].level == t0.heap[p].level
  {
    forall p | p in h
      ensures p in t0.heap && h[p].BaseKey() == t0.heap[p].BaseKey()
      ensures h[p].hash == t0.heap[p].hash && h[p].level == t0.heap[p].level
    {
      assert t0.heap[p].(next := NULL) == h[p].(next := NULL);
    }
  }

  /// The first node of an old chain: it is one of the nodes left, and no moved node has its key.
  lemma FirstIsLeft(t0: Table, hash: Key -> nat, h: Heap, vh: seq<Ptr>, rest: set<Ptr>, nb: seq<Ptr>, i: nat)
    requires Growing(t0, hash, h, vh, rest, nb) && i < |vh| && vh[i] != NULL
    ensures vh[i] in rest && vh[i] in h && !h[vh[i]].Marked() && h[vh[i]].hash == hash(h[vh[i]].RawKey())
    ensures forall p :: p in t0.nodes - rest ==> p in h && !h[p].Marked() && h[p].RawKey() != h[vh[i]].RawKey()
  {
    var curr := vh[i];
    assert HeadFits(Table(h, vh, rest), IndexFor(hash, |vh|), i);
    SameBesidesNext(t0, hash, h);
    assert CleanAt(t0, curr);
    forall p | p in t0.nodes - rest ensures p in h && !h[p].Marked() && h[p].RawKey() != h[curr].RawKey() {
      assert CleanAt(t0, p) && KeysDiffer(t0, p, curr);
    }
  }

  /// Memory after `curr` has been linked into cell `c` of the new table.
  ghost function Relinked(h: Heap, nb: seq<Ptr>, moved: set<Ptr>, c: Cell, curr: Ptr): Table
    requires curr in h && CellOk(Table(h, nb, moved), c)
  {
    var t := Table(h[curr := h[curr].(next := Load(Table(h, nb, moved), c))], nb, moved);
    Linked(t, c, curr)
  }

  /// Taking the first node off an old chain.
  lemma LeavesOldChain(hash: Key -> nat, h: Heap, vh: seq<Ptr>, rest: set<Ptr>, nb: seq<Ptr>, moved: set<Ptr>,
      i: nat, c: Cell)
    requires i < |vh| && WellFormed(Table(h, vh, rest), IndexFor(hash, |vh|)) && vh[i] in rest && vh[i] in h
    requires rest !! moved && CellOk(Table(h, nb, moved), c)
    ensures var u := Relinked(h, nb, moved, c, vh[i]);
      WellFormed(Table(u.heap, vh[i := h[vh[i]].next], rest - {vh[i]}), IndexFor(hash, |vh|))
  {
    var curr, u := vh[i], Relinked(h, nb, moved, c, vh[i]);
    UnlinkKeepsWellFormed(Table(h, vh, rest), IndexFor(hash, |vh|), Head(i));
    var after := Table(u.heap, vh[i := h[curr].next], rest - {curr});
    assert forall p :: p in rest && p != curr ==> p in h && p in u.heap && u.heap[p] == h[p];
    ShapeDecides(Unlinked(Table(h, vh, rest), Head(i)), after, IndexFor(hash, |vh|));
  }

  /// Moving the first node of an old chain to its place in the new table.
  lemma MovesOne(t0: Table, hash: Key -> nat, h: Heap, vh: seq<Ptr>, rest: set<Ptr>, nb: seq<Ptr>, i: nat, c: Cell)
    requires Growing(t0, hash, h, vh, rest, nb) && i < |vh| && vh[i] != NULL
    requires vh[i] in rest && vh[i] in h && CellOk(Table(h, nb, t0.nodes - rest), c)
    requires Gap(Table(h, nb, t0.nodes - rest), IndexFor(hash, |nb|), c, h[vh[i]].BaseKey())
    ensures var u := Relinked(h, nb, t0.nodes - rest, c, vh[i]);
      Growing(t0, hash, u.heap, vh[i := h[vh[i]].next], rest - {vh[i]}, u.heads)
  {
    hide WellFormed, Gap;
    var curr, c0 := vh[i], t0.nodes - rest;
    var u := Relinked(h, nb, c0, c, curr);
    LeavesOldChain(hash, h, vh, rest, nb, c0, i, c);
    RelinkingKeepsWellFormed(hash, h, nb, c0, c, curr);
    assert c0 + {curr} == t0.nodes - (rest - {curr});
    assert NextsOnly(h, u.heap);
  }

  lemma RelinkingKeepsWellFormed(hash: Key -> nat, h: Heap, nb: seq<Ptr>, moved: set<Ptr>, c: Cell, curr: Ptr)
    requires |nb| > 0 && WellFormed(Table(h, nb, moved), IndexFor(hash, |nb|)) && CellOk(Table(h, nb, moved), c)
    requires curr in h && curr !in moved && curr != NULL
    requires Gap(Table(h, nb, moved), IndexFor(hash, |nb|), c, h[curr].BaseKey())
    ensures var u := Relinked(h, nb, moved, c, curr);
      WellFormed(u, IndexFor(hash, |nb|)) && |u.heads| == |nb| && u.nodes == moved + {curr}
  {
    var t := Table(h, nb, moved);
    var t' := Table(h[curr := h[curr].(next := Load(t, c))], nb, moved);
    assert SameShape(t, t');
    ShapeDecides(t, t', IndexFor(hash, |nb|));
    LinkKeepsWellFormed(t', IndexFor(hash, |nb|), c, curr);
  }

  class LockFreeSet {
    const hash: Key -> nat
    var heap: Heap
    var buckets: seq<Ptr>
    var sizeExp: nat
    var numMarks: nat
    var numEntry: nat

    /// The published nodes.
    ghost var nodes: set<Ptr>
    /// How many more steps other threads take on this table; 0 is a single-threaded program.
    ghost var rivals: nat
    /// The references this thread and the manager itself answer for.
    ghost var pinned: multiset<Ptr>

    ghost function T(): Table
      reads this
    {
      Table(heap, buckets, nodes)
    }

    ghost predicate Valid()
      reads this
    {
      && |buckets| == Pow2(sizeExp)
      && TableValid(T(), hash)
      && (forall p :: p in pinned ==> p in nodes)
    }

    ghost predicate Ready()
      reads this
    {
      Valid() && TableReady(T(), hash)
    }

    ghost function Keys(): map<Ptr, Key>
      requires Valid()
      reads this
    {
      View(T())
    }

    lemma InTable(p: Ptr)
      requires Valid()
      ensures p in Keys() <==> p in nodes
      ensures p in nodes ==> p in heap
    {
    }

    lemma KeysAreNodes()
      requires Valid()
      ensures Keys().Keys == nodes
    {
    }

    /// The diagram `d` is the one in the table, and `k` fits it.
    ghost predicate Tracks(d: Diagram, k: Key)
      requires Valid()
      reads this
    {
      d.Ok() && d.g == Keys() && d.KeyFits(k)
    }

    /// Room for more buckets than `cap`, all empty.
    constructor WithCapacity(cap: nat, hash: Key -> nat)
      requires cap > 0
      ensures Ready() && nodes == {} && heap == map[] && numEntry == 0 && pinned == multiset{} && rivals == 0
      ensures cap < |buckets| <= 2 * cap && this.hash == hash
    {
      this.hash := hash;
      heap := map[];
      sizeExp := HighestBit(cap) + 1;
      buckets := seq(Pow2(HighestBit(cap) + 1), i => NULL);
      numMarks := 0;
      numEntry := 0;
      nodes := {};
      rivals := 0;
      pinned := multiset{};
      new;
      ghost var t, ix := T(), IndexFor(hash, |buckets|);
      forall i ensures HeadFits(t, ix, i) {}
      forall q ensures HeadReaches(t, ix, q) {}
      forall p ensures NextFits(t, ix, p) {}
      forall p, q ensures NextReaches(t, ix, p, q) {}
    }

    /// Other threads take some steps while this one holds a read guard. They publish nodes that
    /// fit the diagram and take and drop references of their own, and on terminals also references
    /// nobody took; published nodes keep their keys, and this thread's private node is not touched.
    /// Each step uses up one of `rivals`.
    method Interfere(ghost d: Diagram, ghost mine: Ptr)
      requires Ready() && (mine == NULL || (mine in heap && mine !in nodes))
      requires rivals > 0 ==> d.Ok() && d.g == Keys()
      modifies this`heap, this`buckets, this`numEntry, this`nodes, this`rivals
      ensures Ready() && rivals <= old(rivals)
      ensures (rivals == old(rivals) ==> T() == old(T()) && numEntry == old(numEntry))
      ensures Evolves(old(T()), T(), d.Exempt(), pinned)
      ensures mine != NULL ==> mine in heap && mine !in nodes && heap[mine] == old(heap)[mine]
      ensures old(d.Ok() && d.g == Keys()) ==> d.(g := Keys()).Ok() && Grows(d, d.(g := Keys()))
    {
    }

    /// `prev.load()`.
    function Read(c: Cell): (v: Ptr)
      requires CellOk(T(), c)
      reads this
      ensures v == Load(T(), c)
    {
      match c
      case Head(i) => buckets[i]
      case Next(p) => heap[p].next
    }

    /// `prev.store(v)`.
    method Write(c: Cell, v: Ptr)
      requires CellOk(T(), c)
      modifies this`heap, this`buckets
      ensures T() == Store(old(T()), c, v)
    {
      match c
      case Head(i) => buckets := buckets[i := v];
      case Next(p) => heap := heap[p := heap[p].(next := v)];
    }

    /// `Box::into_raw(Box::new(..))`: a node nobody else knows.
    method New(content: Node) returns (p: Ptr)
      requires Ready()
      modifies this`heap
      ensures Ready() && p != NULL && p !in old(heap) && p !in nodes && heap == old(heap)[p := content]
      ensures Keys() == old(Keys()) && PrivateChange(old(T()), T())
    {
      FreeAddressExists(heap);
      ghost var t := T();
      p :| p != NULL && p !in heap;
      heap := heap[p := content];
      PrivateChangeIsQuiet(t, T(), hash, {}, pinned);
    }

    /// Write level, children and hash of a private node.
    method Prepare(p: Ptr, k: Key)
      requires Ready() && p in heap && p !in nodes && k.level < MARK && heap[p].refCnt >= 0
      modifies this`heap
      ensures Ready() && Offerable(T(), hash, p) && heap[p].RawKey() == k && heap[p].refCnt == old(heap)[p].refCnt
      ensures heap.Keys == old(heap).Keys && Keys() == old(Keys()) && PrivateChange(old(T()), T())
    {
      ghost var t := T();
      heap := heap[p := heap[p].(level := k.level, low := k.low, high := k.high, hash := hash(k))];
      PrivateChangeIsQuiet(t, T(), hash, {}, pinned);
    }

    /// `ref_cnt().fetch_add(1)`.
    method AddRef(p: Ptr)
      requires Ready() && p in nodes
      modifies this`heap, this`pinned
      ensures Ready() && heap == old(heap)[p := old(heap)[p].(refCnt := old(heap)[p].refCnt + 1)]
      ensures Keys() == old(Keys()) && pinned == old(pinned) + multiset{p}
    {
      hide WellFormed, View, TableValid;
      InTable(p);
      CountingIsQuiet(T(), hash, p, heap[p].refCnt + 1);
      heap := heap[p := heap[p].(refCnt := heap[p].refCnt + 1)];
      pinned := pinned + multiset{p};
    }

    /// `ref_cnt().fetch_sub(1)`; `mine` says whether this thread answers for the reference dropped.
    method DropRef(p: Ptr, ghost mine: bool)
      requires Ready() && p in nodes
      modifies this`heap, this`pinned
      ensures Ready() && heap == old(heap)[p := old(heap)[p].(refCnt := old(heap)[p].refCnt - 1)]
      ensures Keys() == old(Keys()) && pinned == if mine then old(pinned) - multiset{p} else old(pinned)
    {
      hide WellFormed, View, TableValid;
      InTable(p);
      CountingIsQuiet(T(), hash, p, heap[p].refCnt - 1);
      heap := heap[p := heap[p].(refCnt := heap[p].refCnt - 1)];
      if mine { pinned := pinned - multiset{p}; }
    }

    /// A published node's fields, which never change.
    function Fields(p: Ptr): (k: Key)
      requires Ready() && p in nodes
      reads this
      ensures k == Keys()[p]
    {
      assert CleanAt(T(), p);
      heap[p].RawKey()
    }

    /// From call to call of `Interfere` and back: what a call knows about the table it started on.
    ghost predicate Since(o: Origin, newPtr: Ptr)
      requires Valid()
      reads this
    {
      && Ready() && Offerable(T(), hash, newPtr)
      && Evolves(o.t, T(), o.d.Exempt(), pinned) && Untouched(o.t, T(), newPtr)
      && (o.fits ==> Tracks(o.d.(g := Keys()), heap[newPtr].RawKey()) && Grows(o.d, o.d.(g := Keys())))
      && (o.solo ==> rivals == 0 && SoloLookup(o.t, T()) && numEntry == o.count)
    }

    /// `Interfere` in the middle of a call.
    method Step(newPtr: Ptr, ghost o: Origin)
      requires Valid() && Since(o, newPtr) && (rivals > 0 ==> o.fits)
      modifies this`heap, this`buckets, this`numEntry, this`nodes, this`rivals
      ensures Valid() && Since(o, newPtr) && heap[newPtr] == old(heap[newPtr])
      ensures Evolves(old(T()), T(), o.d.Exempt(), pinned)
      ensures rivals <= old(rivals) && (rivals == old(rivals) ==> T() == old(T()) && numEntry == old(numEntry))
    {
      ghost var t := T();
      Interfere(o.d.(g := Keys()), newPtr);
      EvolvesTransitively(o.t, t, T(), o.d.Exempt(), pinned);
    }

    /// `prev.load()`, after whatever the other threads have done in the meantime.
    method LoadCell(newPtr: Ptr, prev: Cell, ghost o: Origin) returns (curr: Ptr)
      requires Valid() && Since(o, newPtr) && (rivals > 0 ==> o.fits)
      requires WalkAt(T(), hash, heap[newPtr].RawKey(), prev, NULL)
      modifies this`heap, this`buckets, this`numEntry, this`nodes, this`rivals
      ensures Valid() && Since(o, newPtr) && heap[newPtr] == old(heap[newPtr])
      ensures rivals <= old(rivals) && (rivals == old(rivals) ==> T() == old(T()) && numEntry == old(numEntry))
      ensures WalkAt(T(), hash, heap[newPtr].RawKey(), prev, curr) && Load(T(), prev) == curr
      ensures curr != NULL && prev.Next? ==> AtOrAfter(T(), curr) < AtOrAfter(T(), prev.p)
    {
      ghost var t, k := T(), heap[newPtr].RawKey();
      Step(newPtr, o);
      WalkSurvives(t, T(), hash, o.d.Exempt(), pinned, k, prev, NULL);
      WalkLoaded(T(), hash, k, prev, NULL);
      curr := Read(prev);
      if curr != NULL && prev.Next? { NextShrinks(T(), IndexFor(hash, |buckets|), prev.p); }
    }

    /// The inner loop: walk down the bucket to newPtr's key, or to the place for it.
    method Walk(newPtr: Ptr, ghost o: Origin) returns (prev: Cell, curr: Ptr, found: bool)
      requires Valid() && Since(o, newPtr) && (rivals > 0 ==> o.fits)
      modifies this`heap, this`buckets, this`numEntry, this`nodes, this`rivals
      ensures Valid() && Since(o, newPtr) && heap[newPtr] == old(heap[newPtr]) && rivals <= old(rivals)
      ensures WalkAt(T(), hash, heap[newPtr].RawKey(), prev, curr) && Load(T(), prev) == curr
      ensures found ==> curr != NULL && heap[curr].RawKey() == heap[newPtr].RawKey()
      ensures !found && curr != NULL ==> Less(heap[newPtr].RawKey(), heap[curr].RawKey())
    {
      hide WellFormed, View, SoloLookup, Evolves, Grows;
      var k := heap[newPtr].RawKey();
      prev := Head(heap[newPtr].hash % |buckets|);
      curr := LoadCell(newPtr, prev, o);
      while curr != NULL
        invariant Valid() && Since(o, newPtr) && heap[newPtr] == old(heap[newPtr]) && rivals <= old(rivals)
        invariant WalkAt(T(), hash, k, prev, curr) && Load(T(), prev) == curr
        decreases rivals, if curr == NULL then {} else AtOrAfter(T(), curr)
      {
        assert CleanAt(T(), curr);
        if heap[curr].RawKey() == k {
          return prev, curr, true;
        }
        if Less(k, heap[curr].RawKey()) {
          return prev, curr, false;
        }
        prev := Next(curr);
        curr := LoadCell(newPtr, prev, o);
      }
      found := false;
    }

    /// The new node's `next` is set before anyone else can see it.
    method StoreNext(newPtr: Ptr, prev: Cell, curr: Ptr, ghost o: Origin)
      requires Valid() && Since(o, newPtr)
      requires WalkAt(T(), hash, heap[newPtr].RawKey(), prev, curr) && Load(T(), prev) == curr
      modifies this`heap
      ensures Valid() && Since(o, newPtr)
      ensures heap[newPtr].RawKey() == old(heap[newPtr].RawKey()) && heap[newPtr].next == curr
      ensures curr != NULL ==> heap[curr] == old(heap)[curr]
      ensures WalkAt(T(), hash, heap[newPtr].RawKey(), prev, curr) && Load(T(), prev) == curr
    {
      hide WellFormed;
      ghost var t := T();
      heap := heap[newPtr := heap[newPtr].(next := curr)];
      PrivateChangeIsQuiet(t, T(), hash, o.d.Exempt(), pinned);
      EvolvesTransitively(o.t, t, T(), o.d.Exempt(), pinned);
      WalkSurvives(t, T(), hash, o.d.Exempt(), pinned, heap[newPtr].RawKey(), prev, curr);
    }

    /// A successful compare-and-swap, and the count that follows it.
    method Publish(newPtr: Ptr, prev: Cell, ghost o: Origin)
      requires Valid() && Since(o, newPtr)
      requires CellOk(T(), prev) && Gap(T(), IndexFor(hash, |buckets|), prev, heap[newPtr].RawKey())
      requires heap[newPtr].next == Load(T(), prev)
      modifies this`heap, this`buckets, this`numEntry, this`nodes
      ensures Ready() && Evolves(o.t, T(), o.d.Exempt(), pinned) && newPtr in nodes
      ensures heap[newPtr].RawKey() == old(heap[newPtr].RawKey())
      ensures o.fits ==> o.d.(g := Keys()).Ok() && Grows(o.d, o.d.(g := Keys()))
      ensures o.solo ==> SoloInsert(o.t, T(), newPtr, heap[newPtr].RawKey()) && numEntry == o.count + 1
    {
      hide WellFormed, Gap, TableValid, Evolves, SoloInsert, SoloLookup, View, Grows, Diagram.Ok, CleanAt;
      ghost var t := T();
      PublishedSince(o, t, hash, pinned, prev, newPtr);
      Write(prev, newPtr);
      nodes := nodes + {newPtr};
      numEntry := numEntry + 1;
    }

    /// `prev.compare_exchange(curr, newPtr)`, and on success the count. It fails only if somebody
    /// has acted since `curr` was read.
    method CompareExchange(newPtr: Ptr, prev: Cell, curr: Ptr, ghost o: Origin) returns (ok: bool)
      requires Valid() && Since(o, newPtr) && (rivals > 0 ==> o.fits)
      requires WalkAt(T(), hash, heap[newPtr].RawKey(), prev, curr) && Load(T(), prev) == curr == heap[newPtr].next
      requires curr != NULL ==> Less(heap[newPtr].RawKey(), heap[curr].RawKey())
      modifies this`heap, this`buckets, this`numEntry, this`nodes, this`rivals
      ensures Ready() && rivals <= old(rivals)
      ensures !ok ==> Since(o, newPtr) && rivals < old(rivals)
      ensures ok ==>
        && Evolves(o.t, T(), o.d.Exempt(), pinned) && newPtr in nodes
        && heap[newPtr].RawKey() == old(heap[newPtr].RawKey())
        && (o.fits ==> o.d.(g := Keys()).Ok() && Grows(o.d, o.d.(g := Keys())))
        && (o.solo ==> SoloInsert(o.t, T(), newPtr, heap[newPtr].RawKey()) && numEntry == o.count + 1)
    {
      hide WellFormed, View;
      ghost var t, k := T(), heap[newPtr].RawKey();
      assert curr != NULL ==> CleanAt(t, curr);
      Step(newPtr, o);
      WalkSurvives(t, T(), hash, o.d.Exempt(), pinned, k, prev, curr);
      assert curr != NULL ==> KeyKept(t, T(), curr);
      ok := Read(prev) == curr;
      if ok {
        Publish(newPtr, prev, o);
      }
    }

    /// What `get_or_insert` hands back: a published node with newPtr's key, which is newPtr itself
    /// if it was inserted; otherwise newPtr is still private. Meanwhile the table has only grown,
    /// and if the thread was alone, by exactly what the answer says.
    ghost predicate Outcome(o: Origin, newPtr: Ptr, ptr: Ptr, inserted: bool)
      requires Valid()
      reads this
    {
      && Ready() && newPtr in o.t.heap && Evolves(o.t, T(), o.d.Exempt(), pinned)
      && ptr in nodes && heap[ptr].RawKey() == o.t.heap[newPtr].RawKey()
      && (if inserted then ptr == newPtr else Untouched(o.t, T(), newPtr))
      && (o.fits ==> o.d.(g := Keys()).Ok() && Grows(o.d, o.d.(g := Keys())))
      && (o.solo ==>
            && (if inserted then SoloInsert(o.t, T(), newPtr, o.t.heap[newPtr].RawKey()) else SoloLookup(o.t, T()))
            && numEntry == o.count + (if inserted then 1 else 0))
    }

    /// One turn of the retry loop.
    method Attempt(newPtr: Ptr, ghost o: Origin) returns (done: bool, ptr: Ptr, inserted: bool)
      requires Valid() && Since(o, newPtr) && (rivals > 0 ==> o.fits)
      modifies this`heap, this`buckets, this`numEntry, this`nodes, this`rivals
      ensures Valid() && rivals <= old(rivals)
      ensures if done then Outcome(o, newPtr, ptr, inserted) else Since(o, newPtr) && rivals < old(rivals)
    {
      hide WellFormed, View, TableValid, SoloLookup, SoloInsert, Evolves, Gap;
      var prev, curr, found := Walk(newPtr, o);
      if found {
        assert CleanAt(T(), curr);
        return true, curr, false;
      }
      StoreNext(newPtr, prev, curr, o);
      var ok := CompareExchange(newPtr, prev, curr, o);
      return ok, newPtr, ok;
    }

    /// `get_or_insert`: find the node with newPtr's key, or publish newPtr under it. The retry loop
    /// ends because a failed compare-and-swap means that another thread took a step.
    method GetOrInsert(newPtr: Ptr, ghost d: Diagram) returns (ptr: Ptr, inserted: bool)
      requires Ready() && Offerable(T(), hash, newPtr)
      requires rivals > 0 ==> Tracks(d, heap[newPtr].RawKey())
      modifies this`heap, this`buckets, this`numEntry, this`nodes, this`rivals
      ensures Valid() && rivals <= old(rivals)
      ensures
        Outcome(old(Origin(T(), d, Tracks(d, heap[newPtr].RawKey()), rivals == 0, numEntry)), newPtr, ptr, inserted)
    {
      ghost var o := Origin(T(), d, Tracks(d, heap[newPtr].RawKey()), rivals == 0, numEntry);
      var done := false;
      ptr, inserted := NULL, false;
      while !done
        invariant Valid() && rivals <= old(rivals)
        invariant if done then Outcome(o, newPtr, ptr, inserted) else Since(o, newPtr)
        decreases !done, rivals
      {
        done, ptr, inserted := Attempt(newPtr, o);
      }
    }

    // ---------- Mark, sweep, unmark: alone, under the write guard ----------

    /// `mark_rec`: mark what `root` reaches. Stopping at a marked node is right because whatever is
    /// marked below `root` has everything below it marked as well: the nodes whose marking is in
    /// progress are all above.
    method MarkRec(root: Ptr, counter: nat, ghost d: Diagram) returns (count: nat)
      requires Valid() && Diagrammed(d) && root in d.g && ClosedBelow(d, root, MarkedIn(T()))
      requires counter == |MarkedIn(T())|
      modifies this`heap
      ensures Valid() && Diagrammed(d) && Remarked(old(T()), T(), hash, old(MarkedIn(T())) + Reach(d, root))
      ensures count == |MarkedIn(T())|
      decreases d.n - d.Top(root), 2
    {
      if heap[root].Marked() {
        ReachFacts(d, root);
        count := counter;
      } else {
        count := MarkFresh(root, counter, d);
      }
    }

    /// The rest of `mark_rec`: mark the node itself and go down to its children.
    method MarkFresh(root: Ptr, counter: nat, ghost d: Diagram) returns (count: nat)
      requires Valid() && Diagrammed(d) && root in d.g && ClosedBelow(d, root, MarkedIn(T()))
      requires counter == |MarkedIn(T())| && !heap[root].Marked()
      modifies this`heap
      ensures Valid() && Diagrammed(d) && Remarked(old(T()), T(), hash, old(MarkedIn(T())) + Reach(d, root))
      ensures count == |MarkedIn(T())|
      decreases d.n - d.Top(root), 1
    {
      hide WellFormed;
      ghost var t, m := T(), MarkedIn(T());
      MarkingGoesDown(d, root, m);
      assert d.NodeFits(root) && d.g[root] == heap[root].BaseKey();
      var low, high := heap[root].low, heap[root].high;
      MarkingOne(t, hash, d, root);
      heap := heap[root := SetMark(heap[root])];
      ghost var u := T();
      count := MarkChild(root, low, counter + 1, d);
      ghost var v := T();
      RemarkedTwice(t, u, v, hash, m + {root}, m + {root} + ReachOf(d, low));
      count := MarkChild(root, high, count, d);
      RemarkedTwice(t, v, T(), hash, m + {root} + ReachOf(d, low), m + Reach(d, root));
    }

    /// `if !child.is_null() { self.mark_rec(child, counter) }`.
    method MarkChild(ghost root: Ptr, child: Ptr, counter: nat, ghost d: Diagram) returns (count: nat)
      requires Valid() && Diagrammed(d) && root in d.g && MayDescend(d, root, child, MarkedIn(T()))
      requires counter == |MarkedIn(T())|
      modifies this`heap
      ensures Valid() && Diagrammed(d) && Remarked(old(T()), T(), hash, old(MarkedIn(T())) + ReachOf(d, child))
      ensures count == |MarkedIn(T())|
      decreases d.n - d.Top(root), 0
    {
      count := counter;
      if child != NULL {
        TopBounded(d, child);
        count := MarkRec(child, counter, d);
      }
    }

    ghost predicate Diagrammed(d: Diagram)
      requires Valid()
      reads this
    {
      d.Ok() && d.g == Keys() && d.n <= MARK
    }

    /// The loop body of `mark_nodes`: mark from `curr` if it is referenced and not marked yet.
    method MarkIfRoot(curr: Ptr, counter: nat, ghost d: Diagram, ghost t0: Table, ghost seen: set<Ptr>)
      returns (count: nat)
      requires Valid() && Diagrammed(d) && curr in d.g && counter == |MarkedIn(T())|
      requires Remarked(t0, T(), hash, ReachAll(d, seen))
      modifies this`heap
      ensures Valid() && Diagrammed(d) && count == |MarkedIn(T())| && MarksOnly(old(heap), heap)
      ensures Remarked(t0, T(), hash, ReachAll(d, if curr in Referenced(t0) then seen + {curr} else seen))
    {
      MarkingRoot(d, seen, curr);
      assert curr in Referenced(t0) <==> heap[curr].refCnt != 0 by {
        assert Unmark(heap[curr]) == Unmark(t0.heap[curr]);
      }
      count := counter;
      if heap[curr].refCnt != 0 && !heap[curr].Marked() {
        ghost var t := T();
        count := MarkRec(curr, counter, d);
        RemarkedTwice(t0, t, T(), hash, ReachAll(d, seen), ReachAll(d, seen + {curr}));
      }
    }

    /// The inner loop of `mark_nodes`: one bucket.
    method MarkBucket(i: nat, counter: nat, ghost d: Diagram, ghost t0: Table) returns (count: nat)
      requires Valid() && Diagrammed(d) && i < |buckets| && counter == |MarkedIn(T())|
      requires TableValid(t0, hash)
      requires Remarked(t0, T(), hash, ReachAll(d, SeenBefore(t0, hash, i)))
      modifies this`heap
      ensures Valid() && Diagrammed(d) && count == |MarkedIn(T())|
      ensures Remarked(t0, T(), hash, ReachAll(d, SeenBefore(t0, hash, i + 1)))
    {
      WalkFacts(t0, hash, i, NULL);
      count := counter;
      var curr := buckets[i];
      while curr != NULL
        invariant Valid() && Diagrammed(d) && count == |MarkedIn(T())|
        invariant curr == NULL || OnWalk(t0, hash, i, curr)
        invariant Remarked(t0, T(), hash, ReachAll(d, Seen(t0, hash, i, curr)))
        decreases Ahead(t0, IndexFor(hash, |t0.heads|), i, curr)
      {
        WalkFacts(t0, hash, i, curr);
        assert Unmark(heap[curr]) == Unmark(t0.heap[curr]);
        count := MarkIfRoot(curr, count, d, t0, Seen(t0, hash, i, curr));
        assert Unmark(heap[curr]) == Unmark(t0.heap[curr]);
        curr := heap[curr].next;
      }
    }

    /// `mark_nodes`: mark what the referenced nodes reach, and count it.
    method MarkNodes(ghost d: Diagram) returns (counter: nat)
      requires Ready() && Diagrammed(d)
      modifies this`heap, this`numMarks
      ensures Valid() && Diagrammed(d)
      ensures Remarked(old(T()), T(), hash, ReachAll(d, old(Referenced(T()))))
      ensures counter == numMarks == |MarkedIn(T())|
    {
      counter := MarkBuckets(d);
      numMarks := counter;
    }

    /// The outer loop of `mark_nodes`.
    method MarkBuckets(ghost d: Diagram) returns (counter: nat)
      requires Ready() && Diagrammed(d)
      modifies this`heap
      ensures Valid() && Diagrammed(d)
      ensures Remarked(old(T()), T(), hash, ReachAll(d, old(Referenced(T()))))
      ensures counter == |MarkedIn(T())|
    {
      hide Remarked, WellFormed, ReachAll, SeenBefore;
      counter := 0;
      ghost var t0 := T();
      NothingMarked(t0, hash, d);
      AllSeen(t0, hash);
      for i := 0 to |buckets|
        invariant Valid() && Diagrammed(d) && counter == |MarkedIn(T())|
        invariant Remarked(t0, T(), hash, ReachAll(d, SeenBefore(t0, hash, i)))
      {
        counter := MarkBucket(i, counter, d, t0);
      }
    }

    /// The inner loop of `gc_unmarked`: one bucket.
    method SweepBucket(i: nat, ghost t0: Table)
      requires i < |buckets| && Swept(t0, T(), hash)
      requires nodes - FromBucket(T(), IndexFor(hash, |buckets|), i) <= MarkedIn(T())
      modifies this`heap, this`buckets, this`nodes
      ensures Swept(t0, T(), hash)
      ensures nodes - FromBucket(T(), IndexFor(hash, |buckets|), i + 1) <= MarkedIn(T())
    {
      hide WellFormed, MarkedIn, Ahead;
      SweepEnters(t0, T(), hash, i);
      var prev := Head(i);
      var curr := buckets[i];
      while curr != NULL
        invariant i < |buckets| && Sweeping(t0, T(), hash, i, prev, curr)
        decreases |nodes|, Ahead(T(), IndexFor(hash, |buckets|), i, curr)
      {
        ghost var t := T();
        var next := heap[curr].next;
        if !heap[curr].Marked() {
          CellIsNotItsOwn(t, hash, prev, curr);
          SweepDrops(t0, t, hash, i, prev, curr);
          Write(prev, next);
          nodes := nodes - {curr};
          heap := heap - {curr};
          assert T() == Freed(t, prev);
        } else {
          SweepKeeps(t0, t, hash, i, prev, curr);
          prev := Next(curr);
        }
        curr := next;
      }
      SweepLeaves(t0, T(), hash, i, prev);
    }

    /// `gc_unmarked`: take out and free every node without a mark.
    method GcUnmarked()
      requires Valid() && forall p :: p in pinned ==> p in MarkedIn(T())
      modifies this`heap, this`buckets, this`nodes, this`numEntry
      ensures Valid() && Swept(old(T()), T(), hash) && nodes == old(MarkedIn(T())) && numEntry == numMarks
    {
      ghost var t0 := T();
      SweepStarts(t0, hash);
      for i := 0 to |buckets|
        invariant |buckets| == |t0.heads| && Swept(t0, T(), hash)
        invariant nodes - FromBucket(T(), IndexFor(hash, |buckets|), i) <= MarkedIn(T())
      {
        SweepBucket(i, t0);
      }
      SweepEnds(t0, T(), hash);
      numEntry := numMarks;
    }

    /// The inner loop of `unmark_nodes`: one bucket.
    method UnmarkBucket(i: nat, ghost d: Diagram, ghost t0: Table)
      requires Valid() && Diagrammed(d) && i < |buckets| && TableValid(t0, hash)
      requires Remarked(t0, T(), hash, ToUnmarkFrom(t0, hash, i))
      modifies this`heap
      ensures Valid() && Diagrammed(d) && Remarked(t0, T(), hash, ToUnmarkFrom(t0, hash, i + 1))
    {
      hide WellFormed, View, TableValid;
      UnmarkFacts(t0, hash, i, NULL);
      var curr := buckets[i];
      while curr != NULL
        invariant Valid() && Diagrammed(d)
        invariant curr == NULL || OnWalk(t0, hash, i, curr)
        invariant Remarked(t0, T(), hash, ToUnmark(t0, hash, i, curr))
        decreases Ahead(t0, IndexFor(hash, |t0.heads|), i, curr)
      {
        UnmarkFacts(t0, hash, i, curr);
        assert Unmark(heap[curr]) == Unmark(t0.heap[curr]);
        ghost var t := T();
        if heap[curr].Marked() {
          UnmarkingOne(t, hash, d, curr);
          heap := heap[curr := Unmark(heap[curr])];
        }
        RemarkedTwice(t0, t, T(), hash, ToUnmark(t0, hash, i, curr), ToUnmark(t0, hash, i, t0.heap[curr].next));
        curr := heap[curr].next;
      }
    }

    /// `unmark_nodes`: clear every mark.
    method UnmarkNodes(ghost d: Diagram)
      requires Valid() && Diagrammed(d)
      modifies this`heap
      ensures Ready() && Diagrammed(d) && Remarked(old(T()), T(), hash, {})
    {
      ghost var t0 := T();
      UnmarkEnds(t0, hash);
      for i := 0 to |buckets|
        invariant Valid() && Diagrammed(d)
        invariant Remarked(t0, T(), hash, ToUnmarkFrom(t0, hash, i))
      {
        UnmarkBucket(i, d, t0);
      }
      UnmarkedIsReady(T(), hash);
    }

    /// The scan in `grow`: the place in the new table for a node that is not there yet.
    method FindPlace(nb: seq<Ptr>, curr: Ptr, ghost moved: set<Ptr>) returns (prev: Cell, scan: Ptr)
      requires |nb| > 0 && WellFormed(Table(heap, nb, moved), IndexFor(hash, |nb|))
      requires curr in heap && !heap[curr].Marked() && heap[curr].hash == hash(heap[curr].RawKey())
      requires forall p :: p in moved ==> p in heap && !heap[p].Marked() && heap[p].RawKey() != heap[curr].RawKey()
      ensures CellOk(Table(heap, nb, moved), prev) && Load(Table(heap, nb, moved), prev) == scan
      ensures Gap(Table(heap, nb, moved), IndexFor(hash, |nb|), prev, heap[curr].RawKey())
    {
      ghost var t, ix, k := Table(heap, nb, moved), IndexFor(hash, |nb|), heap[curr].RawKey();
      prev := Head(heap[curr].hash % |nb|);
      scan := nb[prev.i];
      if scan != NULL { CellFits(t, ix, prev); }
      while scan != NULL
        invariant CellOk(t, prev) && Load(t, prev) == scan && CellBucket(t, ix, prev) == ix(k) && Before(t, prev, k)
        invariant scan == NULL || (scan in moved && Bucket(t, ix, scan) == ix(k))
        decreases if scan == NULL then {} else AtOrAfter(t, scan)
      {
        if Less(heap[curr].RawKey(), heap[scan].RawKey()) {
          return;
        }
        if heap[scan].next != NULL { NextShrinks(t, ix, scan); }
        prev := Next(scan);
        scan := heap[scan].next;
        if scan != NULL { CellFits(t, ix, prev); }
      }
    }

    /// The middle loop of `grow`: move one old chain, first node first.
    method GrowBucket(i: nat, nb: seq<Ptr>, ghost t0: Table, ghost vh: seq<Ptr>, ghost rest: set<Ptr>)
      returns (nb': seq<Ptr>, ghost vh': seq<Ptr>, ghost rest': set<Ptr>)
      requires Growing(t0, hash, heap, vh, rest, nb) && i < |buckets| == |vh| && vh[i] == buckets[i]
      modifies this`heap
      ensures Growing(t0, hash, heap, vh', rest', nb')
      ensures |vh'| == |vh| && vh'[i] == NULL && forall j :: 0 <= j < |vh| && j != i ==> vh'[j] == vh[j]
    {
      hide WellFormed, NextsOnly;
      nb', vh', rest' := nb, vh, rest;
      var curr := buckets[i];
      while curr != NULL
        invariant Growing(t0, hash, heap, vh', rest', nb')
        invariant |vh'| == |vh| && vh'[i] == curr && forall j :: 0 <= j < |vh| && j != i ==> vh'[j] == vh[j]
        decreases rest'
      {
        FirstIsLeft(t0, hash, heap, vh', rest', nb', i);
        var next := heap[curr].next;
        var prev, scan := FindPlace(nb', curr, t0.nodes - rest');
        ghost var h, nb0 := heap, nb';
        MovesOne(t0, hash, h, vh', rest', nb', i, prev);
        heap := heap[curr := heap[curr].(next := scan)];
        match prev {
          case Head(j) => nb' := nb'[j := curr];
          case Next(p) => heap := heap[p := heap[p].(next := curr)];
        }
        assert Relinked(h, nb0, t0.nodes - rest', prev, curr) == Table(heap, nb', t0.nodes - rest' + {curr});
        vh', rest' := vh'[i := next], rest' - {curr};
        curr := next;
      }
    }

    /// `grow`: twice as many buckets, every node relinked in place.
    method Grow()
      requires Ready()
      modifies this`heap, this`buckets, this`sizeExp
      ensures Ready() && |buckets| == 2 * |old(buckets)| && sizeExp == old(sizeExp) + 1
      ensures Keys() == old(Keys()) && NextsOnly(old(heap), heap)
    {
      var newBuckets: seq<Ptr> := seq(2 * |buckets|, i => NULL);
      ghost var t0, vh, rest := T(), buckets, nodes;
      GrowStarts(t0, hash, newBuckets);
      for i := 0 to |buckets|
        invariant Growing(t0, hash, heap, vh, rest, newBuckets) && |vh| == |buckets|
        invariant buckets == old(buckets) && sizeExp == old(sizeExp)
        invariant (forall j :: 0 <= j < i ==> vh[j] == NULL) && (forall j :: i <= j < |vh| ==> vh[j] == buckets[j])
      {
        newBuckets, vh, rest := GrowBucket(i, newBuckets, t0, vh, rest);
      }
      GrowEnds(t0, hash, heap, vh, rest, newBuckets);
      buckets := newBuckets;
      sizeExp := sizeExp + 1;
    }
  }
}
