/// The bucket chains of the unique table (src/set.rs), described cell by cell.
///
/// A cell is one of the atomic pointers the table is made of: a bucket head or the `next` field
/// of a node. The invariant `WellFormed` speaks about one cell and at most one further node at a
/// time, so every update of a single cell keeps it by a local argument. `ChainIsSortedBucket`
/// recovers the global picture: following `next` from a head visits exactly the nodes of that
/// bucket, once each, in strictly ascending order of keys.

module Chains {
  import opened Nodes

  datatype Cell = Head(i: nat) | Next(p: Ptr)

  /// Memory, the bucket heads, and the set of published nodes.
  datatype Table = Table(heap: Heap, heads: seq<Ptr>, nodes: set<Ptr>)

  /// `index` says which bucket a key belongs to; the table size is inside it.
  type Index = Key -> nat

  function KeyAt(t: Table, p: Ptr): Key
    requires p in t.heap
  {
    t.heap[p].BaseKey()
  }

  function Bucket(t: Table, index: Index, p: Ptr): nat
    requires p in t.heap
  {
    index(KeyAt(t, p))
  }

  /// No two published nodes have the same key.
  ghost predicate KeysDiffer(t: Table, p: Ptr, q: Ptr) {
    p in t.nodes && q in t.nodes && p in t.heap && q in t.heap && KeyAt(t, p) == KeyAt(t, q) ==> p == q
  }

  ghost predicate NodesOk(t: Table, index: Index) {
    && NULL !in t.nodes
    && (forall p :: p in t.nodes ==> p in t.heap)
    && (forall p :: p in t.nodes ==> Bucket(t, index, p) < |t.heads|)
    && (forall p, q :: KeysDiffer(t, p, q))
  }

  /// What the table means to its users: which addresses are published, under which keys.
  ghost function View(t: Table): map<Ptr, Key>
    requires forall p :: p in t.nodes ==> p in t.heap
  {
    map p | p in t.nodes :: KeyAt(t, p)
  }

  /// A head is null or points at a node of its own bucket.
  ghost predicate HeadFits(t: Table, index: Index, i: nat) {
    i < |t.heads| && t.heads[i] != NULL ==>
      t.heads[i] in t.nodes && t.heads[i] in t.heap && Bucket(t, index, t.heads[i]) == i
  }

  /// The head of q's bucket does not skip q.
  ghost predicate HeadReaches(t: Table, index: Index, q: Ptr) {
    q in t.nodes && q in t.heap && Bucket(t, index, q) < |t.heads| ==>
      var first := t.heads[Bucket(t, index, q)];
      first in t.nodes && first in t.heap && !Less(KeyAt(t, q), KeyAt(t, first))
  }

  /// A `next` field is null or points to a larger node of the same bucket.
  ghost predicate NextFits(t: Table, index: Index, p: Ptr) {
    p in t.nodes && p in t.heap && t.heap[p].next != NULL ==>
      var n := t.heap[p].next;
      n in t.nodes && n in t.heap && Bucket(t, index, n) == Bucket(t, index, p) && Less(KeyAt(t, p), KeyAt(t, n))
  }

  /// The `next` field of p does not skip a larger node q of its bucket.
  ghost predicate NextReaches(t: Table, index: Index, p: Ptr, q: Ptr) {
    && p in t.nodes && q in t.nodes && p in t.heap && q in t.heap
    && Bucket(t, index, p) == Bucket(t, index, q) && Less(KeyAt(t, p), KeyAt(t, q))
    ==>
      var n := t.heap[p].next;
      n in t.nodes && n in t.heap && !Less(KeyAt(t, q), KeyAt(t, n))
  }

  ghost predicate WellFormed(t: Table, index: Index) {
    && NodesOk(t, index)
    && (forall i :: HeadFits(t, index, i))
    && (forall q :: HeadReaches(t, index, q))
    && (forall p :: NextFits(t, index, p))
    && (forall p, q :: NextReaches(t, index, p, q))
  }

  // ---------- Cells ----------

  predicate CellOk(t: Table, c: Cell) {
    match c
    case Head(i) => i < |t.heads|
    case Next(p) => p in t.nodes && p in t.heap
  }

  function CellBucket(t: Table, index: Index, c: Cell): nat
    requires CellOk(t, c)
  {
    match c
    case Head(i) => i
    case Next(p) => Bucket(t, index, p)
  }

  function Load(t: Table, c: Cell): Ptr
    requires CellOk(t, c)
  {
    match c
    case Head(i) => t.heads[i]
    case Next(p) => t.heap[p].next
  }

  function Store(t: Table, c: Cell, v: Ptr): Table
    requires CellOk(t, c)
  {
    match c
    case Head(i) => t.(heads := t.heads[i := v])
    case Next(p) => t.(heap := t.heap[p := t.heap[p].(next := v)])
  }

  /// The cell comes before every node with key `k` on the way down the chain.
  predicate Before(t: Table, c: Cell, k: Key)
    requires CellOk(t, c)
  {
    match c
    case Head(i) => true
    case Next(p) => Less(KeyAt(t, p), k)
  }

  /// `c` is the place for key `k`: every smaller node is before it, every larger one after.
  ghost predicate Gap(t: Table, index: Index, c: Cell, k: Key)
    requires CellOk(t, c)
  {
    && CellBucket(t, index, c) == index(k)
    && Before(t, c, k)
    && (Load(t, c) == NULL || (Load(t, c) in t.heap && Less(k, KeyAt(t, Load(t, c)))))
  }

  /// A cell holds null or a larger node of its bucket.
  lemma CellFits(t: Table, index: Index, c: Cell)
    requires WellFormed(t, index) && CellOk(t, c) && Load(t, c) != NULL
    ensures Load(t, c) in t.nodes && Bucket(t, index, Load(t, c)) == CellBucket(t, index, c)
    ensures Before(t, c, KeyAt(t, Load(t, c)))
  {
    match c
    case Head(i) => assert HeadFits(t, index, i);
    case Next(p) => assert NextFits(t, index, p);
  }

  /// A cell does not skip a node of its bucket that is after it.
  lemma CellReaches(t: Table, index: Index, c: Cell, q: Ptr)
    requires WellFormed(t, index) && CellOk(t, c) && q in t.nodes
    requires CellBucket(t, index, c) == Bucket(t, index, q) && Before(t, c, KeyAt(t, q))
    ensures Load(t, c) in t.nodes && !Less(KeyAt(t, q), KeyAt(t, Load(t, c)))
  {
    match c
    case Head(i) => assert HeadReaches(t, index, q);
    case Next(p) => assert NextReaches(t, index, p, q);
  }

  /// No two cells hold the same node.
  lemma OneCellEach(t: Table, index: Index, c: Cell, d: Cell)
    requires WellFormed(t, index) && CellOk(t, c) && CellOk(t, d) && Load(t, c) == Load(t, d) != NULL
    ensures c == d
  {
    CellFits(t, index, c);
    CellFits(t, index, d);
    assert c.Next? && d.Next? ==> KeysDiffer(t, c.p, d.p);
    if c.Next? && Before(t, d, KeyAt(t, c.p)) { CellReaches(t, index, d, c.p); }
    if d.Next? && Before(t, c, KeyAt(t, d.p)) { CellReaches(t, index, c, d.p); }
  }

  /// Nothing in the table has the key that a gap is a gap for.
  lemma GapMeansAbsent(t: Table, index: Index, c: Cell, k: Key)
    requires WellFormed(t, index) && CellOk(t, c) && Gap(t, index, c, k)
    ensures forall q :: q in t.nodes ==> KeyAt(t, q) != k
  {
    forall q | q in t.nodes ensures KeyAt(t, q) != k {
      if KeyAt(t, q) == k { CellReaches(t, index, c, q); }
    }
  }

  /// `WellFormed` in terms of cells: the two facts every cell obeys.
  lemma WellFormedByCells(t: Table, index: Index)
    requires NodesOk(t, index)
    requires forall c :: CellOk(t, c) && Load(t, c) != NULL ==>
               && Load(t, c) in t.nodes && Bucket(t, index, Load(t, c)) == CellBucket(t, index, c)
                && Before(t, c, KeyAt(t, Load(t, c)))
    requires forall c, q ::
                CellOk(t, c) && q in t.nodes && CellBucket(t, index, c) == Bucket(t, index, q)
                && Before(t, c, KeyAt(t, q)) ==>
               Load(t, c) in t.nodes && !Less(KeyAt(t, q), KeyAt(t, Load(t, c)))
    ensures WellFormed(t, index)
  {
    forall i: nat ensures HeadFits(t, index, i) {
      if i < |t.heads| { assert CellOk(t, Head(i)) && Load(t, Head(i)) == t.heads[i]; }
    }
    forall p ensures NextFits(t, index, p) {
      if p in t.nodes { assert CellOk(t, Next(p)) && Load(t, Next(p)) == t.heap[p].next; }
    }
    forall q ensures HeadReaches(t, index, q) {
      if q in t.nodes { var c := Head(Bucket(t, index, q)); assert CellOk(t, c) && Before(t, c, KeyAt(t, q)); }
    }
    forall p, q ensures NextReaches(t, index, p, q) {
      if p in t.nodes && q in t.nodes { assert CellOk(t, Next(p)); }
    }
  }

  /// What linking does to memory: `c` now holds `p`, and `p` is published.
  function Linked(t: Table, c: Cell, p: Ptr): Table
    requires CellOk(t, c)
  {
    Store(t, c, p).(nodes := t.nodes + {p})
  }

  /// Linking a node into its gap keeps the table well formed and adds exactly that node.
  lemma LinkKeepsWellFormed(t: Table, index: Index, c: Cell, p: Ptr)
    requires WellFormed(t, index) && CellOk(t, c)
    requires p != NULL && p in t.heap && p !in t.nodes && Bucket(t, index, p) < |t.heads|
    requires Gap(t, index, c, KeyAt(t, p)) && t.heap[p].next == Load(t, c)
    ensures WellFormed(Linked(t, c, p), index)
  {
    GapMeansAbsent(t, index, c, KeyAt(t, p));
    var u := Linked(t, c, p);
    assert forall q :: q in t.heap ==> q in u.heap && KeyAt(u, q) == KeyAt(t, q);
    forall q, r ensures KeysDiffer(u, q, r) { assert KeysDiffer(t, q, r); }
    forall d | CellOk(u, d) && Load(u, d) != NULL
      ensures Load(u, d) in u.nodes && Bucket(u, index, Load(u, d)) == CellBucket(u, index, d)
      ensures Before(u, d, KeyAt(u, Load(u, d)))
    {
      if d == Next(p) {
        CellFits(t, index, c);
      } else if d != c {
        assert CellOk(t, d) && Load(t, d) == Load(u, d);
        CellFits(t, index, d);
      }
    }
    forall d, q |
      CellOk(u, d) && q in u.nodes && CellBucket(u, index, d) == Bucket(u, index, q) && Before(u, d, KeyAt(u, q))
      ensures Load(u, d) in u.nodes && !Less(KeyAt(u, q), KeyAt(u, Load(u, d)))
    {
      LinkReaches(t, index, c, p, d, q);
    }
    WellFormedByCells(u, index);
  }

  lemma LinkReaches(t: Table, index: Index, c: Cell, p: Ptr, d: Cell, q: Ptr)
    requires WellFormed(t, index) && CellOk(t, c) && p != NULL && p in t.heap && p !in t.nodes
    requires Gap(t, index, c, KeyAt(t, p)) && t.heap[p].next == Load(t, c)
    requires d == Next(p) || CellOk(t, d)
    requires q == p || q in t.nodes
    requires var u := Linked(t, c, p); CellBucket(u, index, d) == Bucket(u, index, q) && Before(u, d, KeyAt(u, q))
    ensures var u := Linked(t, c, p); Load(u, d) in u.nodes && !Less(KeyAt(u, q), KeyAt(u, Load(u, d)))
  {
    if d == Next(p) {
      CellReaches(t, index, c, q);
    } else if d == c {
      if q != p { CellReaches(t, index, c, q); }
    } else if q != p {
      CellReaches(t, index, d, q);
    } else if c.Next? && Before(t, d, KeyAt(t, c.p)) {
      CellReaches(t, index, d, c.p);
    } else {
      // d is beyond c, hence beyond the gap
      assert d.Next?;
      assert Before(t, c, KeyAt(t, d.p)) by {
        if c.Next? { assert KeysDiffer(t, c.p, d.p); }
      }
      CellReaches(t, index, c, d.p);
    }
  }

  /// What bypassing does to memory: `c` holds what its node's `next` held.
  function Unlinked(t: Table, c: Cell): Table
    requires CellOk(t, c) && Load(t, c) in t.heap
  {
    Store(t, c, t.heap[Load(t, c)].next).(nodes := t.nodes - {Load(t, c)})
  }

  /// Bypassing a node keeps the table well formed and removes exactly that node.
  lemma UnlinkKeepsWellFormed(t: Table, index: Index, c: Cell)
    requires WellFormed(t, index) && CellOk(t, c) && Load(t, c) in t.nodes
    ensures WellFormed(Unlinked(t, c), index)
  {
    var p := Load(t, c);
    var u := Unlinked(t, c);
    assert forall q :: q in t.heap ==> q in u.heap && KeyAt(u, q) == KeyAt(t, q);
    forall q, r ensures KeysDiffer(u, q, r) { assert KeysDiffer(t, q, r); }
    CellFits(t, index, c);
    forall d | CellOk(u, d)
      ensures Load(u, d) != NULL ==>
        && Load(u, d) in u.nodes && Bucket(u, index, Load(u, d)) == CellBucket(u, index, d)
        && Before(u, d, KeyAt(u, Load(u, d)))
    {
      assert CellOk(t, d);
      if Load(u, d) != NULL {
        if Load(t, d) == p { OneCellEach(t, index, c, d); CellFits(t, index, Next(p)); } else { CellFits(t, index, d); }
      }
    }
    forall d, q |
      CellOk(u, d) && q in u.nodes && CellBucket(u, index, d) == Bucket(u, index, q) && Before(u, d, KeyAt(u, q))
      ensures Load(u, d) in u.nodes && !Less(KeyAt(u, q), KeyAt(u, Load(u, d)))
    {
      CellReaches(t, index, d, q);
      if Load(t, d) == p {
        OneCellEach(t, index, c, d);
        assert KeysDiffer(t, p, q);
        CellReaches(t, index, Next(p), q);
        CellFits(t, index, Next(p));
      }
    }
    WellFormedByCells(u, index);
  }

  /// The invariant reads nothing but the published nodes' keys and `next` fields.
  ghost predicate SameShape(t: Table, u: Table) {
    && t.heads == u.heads && t.nodes == u.nodes
    && (forall p :: p in t.nodes ==>
          && p in t.heap && p in u.heap
          && KeyAt(t, p) == KeyAt(u, p) && t.heap[p].next == u.heap[p].next)
  }

  lemma ShapeDecides(t: Table, u: Table, index: Index)
    requires WellFormed(t, index) && SameShape(t, u)
    ensures WellFormed(u, index)
  {
    forall p, q ensures KeysDiffer(u, p, q) { assert KeysDiffer(t, p, q); }
    forall i ensures HeadFits(u, index, i) { assert HeadFits(t, index, i); }
    forall q ensures HeadReaches(u, index, q) { assert HeadReaches(t, index, q); }
    forall p ensures NextFits(u, index, p) { assert NextFits(t, index, p); }
    forall p, q ensures NextReaches(u, index, p, q) { assert NextReaches(t, index, p, q); }
  }

  // ---------- The chain of a bucket ----------

  /// The published nodes at or after node `p`; shrinks along a chain.
  ghost function AtOrAfter(t: Table, p: Ptr): set<Ptr>
    requires p in t.heap
  {
    set q | q in t.nodes && q in t.heap && !Less(KeyAt(t, q), KeyAt(t, p))
  }

  lemma NextShrinks(t: Table, index: Index, p: Ptr)
    requires WellFormed(t, index) && p in t.nodes && t.heap[p].next != NULL
    ensures t.heap[p].next in t.nodes
    ensures AtOrAfter(t, t.heap[p].next) < AtOrAfter(t, p)
  {
    assert NextFits(t, index, p);
    assert p in AtOrAfter(t, p) && p !in AtOrAfter(t, t.heap[p].next);
  }

  /// What following `next` from `p` visits.
  ghost function Chain(t: Table, index: Index, p: Ptr): seq<Ptr>
    requires WellFormed(t, index) && (p == NULL || p in t.nodes)
    decreases if p == NULL then {} else AtOrAfter(t, p)
  {
    if p == NULL then []
    else if t.heap[p].next == NULL then [p]
    else
      NextShrinks(t, index, p);
      [p] + Chain(t, index, t.heap[p].next)
  }

  ghost predicate Ascending(t: Table, s: seq<Ptr>) {
    && (forall p :: p in s ==> p in t.heap)
    && (forall i, j :: 0 <= i < j < |s| ==> Less(KeyAt(t, s[i]), KeyAt(t, s[j])))
  }

  lemma {:induction false} ChainFrom(t: Table, index: Index, p: Ptr)
    requires WellFormed(t, index) && p in t.nodes
    ensures forall q :: q in Chain(t, index, p) <==> q in AtOrAfter(t, p) && Bucket(t, index, q) == Bucket(t, index, p)
    ensures Ascending(t, Chain(t, index, p))
    decreases AtOrAfter(t, p)
  {
    var n := t.heap[p].next;
    var s := Chain(t, index, p);
    assert NextFits(t, index, p);
    forall q | q in AtOrAfter(t, p) && Bucket(t, index, q) == Bucket(t, index, p) && q != p
      ensures n in t.nodes && q in AtOrAfter(t, n)
    {
      assert KeysDiffer(t, p, q) && NextReaches(t, index, p, q);
    }
    if n != NULL {
      NextShrinks(t, index, p);
      ChainFrom(t, index, n);
      var rest := Chain(t, index, n);
      assert s == [p] + rest;
      forall i, j | 0 <= i < j < |s| ensures Less(KeyAt(t, s[i]), KeyAt(t, s[j])) {
        assert s[j] == rest[j - 1] && rest[j - 1] in rest;
        if i > 0 { assert s[i] == rest[i - 1]; }
      }
    }
  }

  /// Following a bucket head visits exactly the nodes that hash there, in strictly ascending
  /// order (hence without repetition), and ends.
  lemma ChainIsSortedBucket(t: Table, index: Index, i: nat)
    requires WellFormed(t, index) && i < |t.heads|
    ensures HeadFits(t, index, i) && Ascending(t, Chain(t, index, t.heads[i]))
    ensures forall q :: q in Chain(t, index, t.heads[i]) <==> q in t.nodes && Bucket(t, index, q) == i
  {
    assert HeadFits(t, index, i);
    if t.heads[i] != NULL { ChainFrom(t, index, t.heads[i]); }
    forall q | q in t.nodes && Bucket(t, index, q) == i ensures q in Chain(t, index, t.heads[i]) {
      assert HeadReaches(t, index, q);
    }
  }

  // ---------- Walking the whole table ----------

  /// The nodes a walk through all buckets has still to visit when it is at `curr` in bucket `i`.
  ghost function Ahead(t: Table, index: Index, i: nat, curr: Ptr): set<Ptr>
    requires curr == NULL || curr in t.heap
  {
    set q | q in t.nodes && q in t.heap
      && (i < Bucket(t, index, q) || (Bucket(t, index, q) == i && curr != NULL && !Less(KeyAt(t, q), KeyAt(t, curr))))
  }

  /// Entering a bucket, everything in it is still to be visited; past the last one, nothing is.
  lemma AheadAtHead(t: Table, index: Index, i: nat)
    requires WellFormed(t, index) && i <= |t.heads|
    ensures i < |t.heads| ==> HeadFits(t, index, i) && (t.heads[i] == NULL || t.heads[i] in t.nodes)
    ensures i < |t.heads| ==> Ahead(t, index, i, t.heads[i]) == set q | q in t.nodes && i <= Bucket(t, index, q)
    ensures i < |t.heads| ==> Ahead(t, index, i, NULL) == set q | q in t.nodes && i + 1 <= Bucket(t, index, q)
    ensures i == |t.heads| ==> (set q | q in t.nodes && i <= Bucket(t, index, q)) == {}
    ensures i == 0 ==> (set q | q in t.nodes && i <= Bucket(t, index, q)) == t.nodes
  {
    if i < |t.heads| {
      assert HeadFits(t, index, i);
      forall q | q in t.nodes && Bucket(t, index, q) == i ensures q in Ahead(t, index, i, t.heads[i]) {
        assert HeadReaches(t, index, q);
      }
    }
  }

  /// Following `next` visits one node.
  lemma AheadNext(t: Table, index: Index, i: nat, curr: Ptr)
    requires WellFormed(t, index) && curr in t.nodes && Bucket(t, index, curr) == i
    ensures NextFits(t, index, curr)
    ensures curr in Ahead(t, index, i, curr)
    ensures Ahead(t, index, i, t.heap[curr].next) == Ahead(t, index, i, curr) - {curr}
  {
    assert NextFits(t, index, curr);
    forall q | q in Ahead(t, index, i, curr) && q != curr ensures q in Ahead(t, index, i, t.heap[curr].next) {
      if Bucket(t, index, q) == i { assert KeysDiffer(t, q, curr) && NextReaches(t, index, curr, q); }
    }
  }

  /// So does bypassing the node that a cell of the bucket holds.
  lemma AheadUnlinked(t: Table, index: Index, i: nat, c: Cell)
    requires WellFormed(t, index) && CellOk(t, c) && Load(t, c) in t.nodes && CellBucket(t, index, c) == i
    ensures var curr := Load(t, c); var u := Unlinked(t, c);
      && Bucket(t, index, curr) == i && curr in Ahead(t, index, i, curr)
      && WellFormed(u, index) && CellOk(u, c) && CellBucket(u, index, c) == i
      && Load(u, c) == t.heap[curr].next && (Load(u, c) == NULL || Load(u, c) in u.nodes)
      && Ahead(u, index, i, Load(u, c)) == Ahead(t, index, i, curr) - {curr}
  {
    var curr, u := Load(t, c), Unlinked(t, c);
    UnlinkKeepsWellFormed(t, index, c);
    CellFits(t, index, c);
    AheadNext(t, index, i, curr);
    assert forall q :: q in t.heap ==> q in u.heap && KeyAt(u, q) == KeyAt(t, q);
  }
}
