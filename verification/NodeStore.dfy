/// The segmented node allocator of src/.store.rs, single-threaded: indices are located in segments
/// that double in size, and free indices hang off one list through `links`.
///
/// `LocateBijective`: every 32-bit index has its own place. `Alloc` and `Free` keep every index
/// below the capacity allocated or on the free list, exactly once, across growth.

module NodeStore {
  import opened Counting
  import opened Options
  import opened Powers

  const SEGMENT_BASE_SIZE: nat := 65536
  const MAX_GROWS: nat := 16
  const MAX_SEGMENTS: nat := 17
  const IDX_LIMIT: nat := 0x1_0000_0000
  const NIL: nat := 0xFFFF_FFFF

  /// The capacity after the last growth.
  const MAX_CAPACITY: nat := 0x8000_0000

  function SatSub1(k: nat): nat {
    if k == 0 then 0 else k - 1
  }

  /// `SEGMENT_BASE_SIZE << seg.saturating_sub(1)`
  function SegmentSize(seg: nat): nat {
    SEGMENT_BASE_SIZE * Pow2(SatSub1(seg))
  }

  /// `SEGMENT_BASE_SIZE << num_grows`
  function CapacityFor(numGrows: nat): nat {
    SEGMENT_BASE_SIZE * Pow2(numGrows)
  }

  /// Growth stops at half of the 2^32 indices.
  lemma FullCapacity()
    ensures CapacityFor(MAX_GROWS - 1) == MAX_CAPACITY
    ensures MAX_CAPACITY < NIL && MAX_CAPACITY + CapacityFor(MAX_GROWS - 1) == IDX_LIMIT
  {
    assert Pow2(5) == 32;
    assert Pow2(10) == 1024;
    assert Pow2(15) == 32768;
  }

  /// The segment comes from the highest bit of the index's upper half; the offset is what is below
  /// the segment's first index, cut out by a mask.
  function Locate(idx: nat): (nat, nat) {
    var hi := idx / SEGMENT_BASE_SIZE;
    var seg := if hi == 0 then 0 else HighestBit(hi) + 1;
    (seg, idx % (SEGMENT_BASE_SIZE * Pow2(SatSub1(seg))))
  }

  /// The first index of a segment.
  function Start(seg: nat): nat {
    if seg == 0 then 0 else CapacityFor(seg - 1)
  }

  lemma {:induction false} Pow2Monotone(a: nat, b: nat)
    requires a <= b
    ensures Pow2(a) <= Pow2(b)
  {
    if a < b { Pow2Monotone(a, b - 1); }
  }

  /// The highest bit is the only exponent that fits.
  lemma HighestBitUnique(n: nat, e: nat)
    requires Pow2(e) <= n < Pow2(e + 1)
    ensures HighestBit(n) == e
  {
    var h := HighestBit(n);
    if h < e { Pow2Monotone(h + 1, e); }
    if e < h { Pow2Monotone(e + 1, h); }
  }

  lemma Pow2Of16()
    ensures Pow2(15) == 0x8000 && Pow2(16) == 0x1_0000
  {
    assert Pow2(4) == 16 && Pow2(8) == 256 && Pow2(12) == 4096;
  }

  lemma LocateSplits(idx: nat)
    requires idx < IDX_LIMIT
    ensures var (seg, off) := Locate(idx); seg < MAX_SEGMENTS && off < SegmentSize(seg) && Start(seg) + off == idx
  {
    var hi := idx / SEGMENT_BASE_SIZE;
    Pow2Of16();
    if hi != 0 {
      var b := HighestBit(hi);
      if b > 15 { Pow2Monotone(16, b); }
      assert idx - CapacityFor(b) < CapacityFor(b);
      ModOnce(idx, CapacityFor(b));
    }
  }

  lemma ModOnce(x: nat, m: nat)
    requires m > 0 && m <= x < 2 * m
    ensures x % m == x - m
  {
  }

  /// The upper half of an index in the segment that starts at `a` segments of base size.
  lemma UpperHalf(a: nat, off: nat)
    requires off < SEGMENT_BASE_SIZE * a
    ensures a <= (SEGMENT_BASE_SIZE * a + off) / SEGMENT_BASE_SIZE < 2 * a
  {
  }

  lemma LocateIs(idx: nat, e: nat)
    requires Pow2(e) <= idx / SEGMENT_BASE_SIZE < Pow2(e + 1)
    requires CapacityFor(e) <= idx < 2 * CapacityFor(e)
    ensures Locate(idx) == (e + 1, idx - CapacityFor(e))
  {
    hide Pow2;
    HighestBitUnique(idx / SEGMENT_BASE_SIZE, e);
    ModOnce(idx, CapacityFor(e));
  }

  lemma Pow2Step(e: nat)
    ensures Pow2(e + 1) == 2 * Pow2(e)
  {
  }

  lemma LaterSegment(e: nat, off: nat)
    requires off < CapacityFor(e) && Pow2(e) <= 0x8000
    ensures CapacityFor(e) + off < IDX_LIMIT && Locate(CapacityFor(e) + off) == (e + 1, off)
  {
    hide Pow2, Locate, HighestBit;
    Pow2Step(e);
    UpperHalf(Pow2(e), off);
    LocateIs(CapacityFor(e) + off, e);
  }

  lemma LocateJoins(seg: nat, off: nat)
    requires seg < MAX_SEGMENTS && off < SegmentSize(seg)
    ensures Start(seg) + off < IDX_LIMIT && Locate(Start(seg) + off) == (seg, off)
  {
    if seg > 0 {
      Pow2Of16();
      Pow2Monotone(seg - 1, 15);
      hide Pow2, Locate;
      LaterSegment(seg - 1, off);
    } else {
      assert Pow2(0) == 1;
    }
  }

  /// `locate` is a bijection between the 32-bit indices and the places (segment, offset).
  lemma LocateBijective(idx: nat, seg: nat, off: nat)
    requires idx < IDX_LIMIT && seg < MAX_SEGMENTS && off < SegmentSize(seg)
    ensures Locate(idx) == (seg, off) <==> idx == Start(seg) + off
  {
    LocateSplits(idx);
    LocateJoins(seg, off);
  }

  // ---------- The allocator ----------

  datatype Node = Node(refCnt: nat, level: nat, low: nat, high: nat)

  /// A two-level array: `segs[Locate(idx).0][Locate(idx).1]` is the element at `idx`.
  ghost predicate Shaped<T>(segs: seq<seq<T>>, numGrows: nat) {
    && |segs| == numGrows + 1 <= MAX_GROWS
    && forall s :: 0 <= s < |segs| ==> |segs[s]| == SegmentSize(s)
  }

  lemma InShape<T>(segs: seq<seq<T>>, numGrows: nat, idx: nat)
    requires Shaped(segs, numGrows) && idx < CapacityFor(numGrows)
    ensures idx < IDX_LIMIT && idx != NIL && Locate(idx).0 < |segs| && Locate(idx).1 < |segs[Locate(idx).0]|
  {
    Pow2Of16();
    Pow2Monotone(numGrows, 15);
    LocateSplits(idx);
    var seg := Locate(idx).0;
    if seg > numGrows { Pow2Monotone(numGrows, seg - 1); }
  }

  function Get<T>(segs: seq<seq<T>>, idx: nat): T
    requires Locate(idx).0 < |segs| && Locate(idx).1 < |segs[Locate(idx).0]|
  {
    segs[Locate(idx).0][Locate(idx).1]
  }

  function Put<T>(segs: seq<seq<T>>, idx: nat, v: T): seq<seq<T>>
    requires Locate(idx).0 < |segs| && Locate(idx).1 < |segs[Locate(idx).0]|
  {
    var (s, o) := Locate(idx);
    segs[s := segs[s][o := v]]
  }

  /// Different indices, different places.
  lemma PutGets<T>(segs: seq<seq<T>>, numGrows: nat, idx: nat, v: T)
    requires Shaped(segs, numGrows) && idx < CapacityFor(numGrows)
    ensures Locate(idx).0 < |segs| && Locate(idx).1 < |segs[Locate(idx).0]| && Shaped(Put(segs, idx, v), numGrows)
    ensures forall k: nat :: k < CapacityFor(numGrows) ==>
        && HasPlace(segs, k) && HasPlace(Put(segs, idx, v), k)
        && Get(Put(segs, idx, v), k) == if k == idx then v else Get(segs, k)
  {
    InShape(segs, numGrows, idx);
    LocateSplits(idx);
    forall k: nat | k < CapacityFor(numGrows)
      ensures HasPlace(segs, k) && HasPlace(Put(segs, idx, v), k)
      ensures Get(Put(segs, idx, v), k) == if k == idx then v else Get(segs, k)
    {
      InShape(segs, numGrows, k);
      LocateSplits(k);
    }
  }

  predicate HasPlace<T>(segs: seq<seq<T>>, idx: nat) {
    Locate(idx).0 < |segs| && Locate(idx).1 < |segs[Locate(idx).0]|
  }

  /// The link of the i-th free index leads to the next one, the last one's to NIL.
  ghost predicate LinkOk(links: seq<seq<nat>>, numGrows: nat, free: seq<nat>, i: nat) {
    i < |free| ==>
      && free[i] < CapacityFor(numGrows) && HasPlace(links, free[i])
      && Get(links, free[i]) == if i + 1 < |free| then free[i + 1] else NIL
  }

  ghost predicate NoIndexTwice(free: seq<nat>) {
    forall i, j :: 0 <= i < j < |free| ==> free[i] != free[j]
  }

  /// `free` is what hangs off `head`, in order, without repetition, down to NIL.
  ghost predicate ListOk(links: seq<seq<nat>>, numGrows: nat, head: nat, free: seq<nat>) {
    && (forall i :: LinkOk(links, numGrows, free, i)) && NoIndexTwice(free)
    && head == (if free == [] then NIL else free[0])
  }

  lemma ListPops(links: seq<seq<nat>>, numGrows: nat, head: nat, free: seq<nat>)
    requires ListOk(links, numGrows, head, free) && free != []
    ensures HasPlace(links, head) && ListOk(links, numGrows, Get(links, head), free[1..])
  {
    assert LinkOk(links, numGrows, free, 0);
    forall i: nat ensures LinkOk(links, numGrows, free[1..], i) { assert LinkOk(links, numGrows, free, i + 1); }
  }

  lemma ListPushes(links: seq<seq<nat>>, numGrows: nat, head: nat, free: seq<nat>, idx: nat)
    requires Shaped(links, numGrows) && ListOk(links, numGrows, head, free) && idx < CapacityFor(numGrows)
    requires idx !in free
    ensures HasPlace(links, idx) && ListOk(Put(links, idx, head), numGrows, idx, [idx] + free)
  {
    PutGets(links, numGrows, idx, head);
    var more := [idx] + free;
    forall i: nat ensures LinkOk(Put(links, idx, head), numGrows, more, i) {
      if 0 < i < |more| {
        assert LinkOk(links, numGrows, free, i - 1) && more[i] == free[i - 1] && free[i - 1] in free;
      }
    }
  }

  // ---------- Growing ----------

  /// A new segment's links: each to the next index, the last to the old head.
  ghost predicate Chained(seg: seq<nat>, start: nat, last: nat) {
    forall i :: 0 <= i < |seg| ==> seg[i] == if i + 1 < |seg| then start + i + 1 else last
  }

  /// The new segment in front of the (empty) free list.
  ghost function Range(start: nat, size: nat): seq<nat> {
    seq(size, i requires 0 <= i < size => start + i)
  }

  lemma NewSegmentFits<T>(segs: seq<seq<T>>, numGrows: nat, seg: seq<T>)
    requires Shaped(segs, numGrows) && numGrows + 1 < MAX_GROWS && |seg| == CapacityFor(numGrows)
    ensures Shaped(segs + [seg], numGrows + 1) && CapacityFor(numGrows + 1) == 2 * CapacityFor(numGrows)
  {
  }

  /// Old indices stay where they were.
  lemma OldPlace<T>(segs: seq<seq<T>>, numGrows: nat, seg: seq<T>, k: nat)
    requires Shaped(segs, numGrows) && k < CapacityFor(numGrows)
    ensures HasPlace(segs, k) && HasPlace(segs + [seg], k) && Get(segs + [seg], k) == Get(segs, k)
  {
    InShape(segs, numGrows, k);
  }

  /// The next ones are in the new segment.
  lemma NewPlace<T>(segs: seq<seq<T>>, numGrows: nat, seg: seq<T>, i: nat)
    requires Shaped(segs, numGrows) && numGrows + 1 < MAX_GROWS && i < |seg| == CapacityFor(numGrows)
    ensures HasPlace(segs + [seg], |seg| + i) && Get(segs + [seg], |seg| + i) == seg[i]
  {
    hide Locate, Pow2;
    LocateJoins(numGrows + 1, i);
  }

  lemma GrownList(links: seq<seq<nat>>, numGrows: nat, seg: seq<nat>)
    requires Shaped(links, numGrows) && numGrows + 1 < MAX_GROWS && |seg| == CapacityFor(numGrows)
    requires Chained(seg, |seg|, NIL)
    ensures ListOk(links + [seg], numGrows + 1, |seg|, Range(|seg|, |seg|))
  {
    hide Locate, Shaped;
    NewSegmentFits(links, numGrows, seg);
    var free, more, n := Range(|seg|, |seg|), links + [seg], numGrows + 1;
    forall i: nat ensures LinkOk(more, n, free, i) {
      if i < |free| { NewPlace(links, numGrows, seg, i); }
    }
  }

  ghost function Below(cap: nat): (s: set<nat>)
    ensures |s| == cap && forall k: nat :: k in s <==> k < cap
  {
    if cap == 0 then {} else Below(cap - 1) + {cap - 1}
  }

  /// Every index below the capacity is used or free, not both.
  ghost predicate Partition(used: set<nat>, free: seq<nat>, cap: nat) {
    forall k: nat :: (k in used <==> k < cap && k !in free) && (k in free ==> k < cap)
  }

  lemma PartitionPops(used: set<nat>, free: seq<nat>, cap: nat)
    requires Partition(used, free, cap) && NoIndexTwice(free) && free != []
    ensures free[0] !in used && free[0] < cap && Partition(used + {free[0]}, free[1..], cap)
  {
    assert free[0] in free;
    forall k: nat ensures (k in free[1..] <==> k in free && k != free[0]) {
      if k in free && k != free[0] {
        var i :| 0 <= i < |free| && free[i] == k;
        assert free[1..][i - 1] == k;
      }
    }
  }

  lemma PartitionPushes(used: set<nat>, free: seq<nat>, cap: nat, idx: nat)
    requires Partition(used, free, cap) && idx in used
    ensures idx < cap && idx !in free && Partition(used - {idx}, [idx] + free, cap)
  {
  }

  /// Everything is used exactly when nothing is free.
  lemma UsedUp(used: set<nat>, free: seq<nat>, cap: nat)
    requires Partition(used, free, cap)
    ensures |used| <= cap && (|used| == cap <==> free == [])
  {
    var all := Below(cap);
    if free == [] {
      assert used == all;
    } else {
      assert free[0] in free;
      assert used <= all - {free[0]};
      SubsetIsSmaller(used, all - {free[0]});
    }
  }

  lemma GrownPartition(used: set<nat>, cap: nat)
    requires Partition(used, [], cap)
    ensures Partition(used, Range(cap, cap), 2 * cap)
  {
    forall k: nat
      ensures (k in used <==> k < 2 * cap && k !in Range(cap, cap)) && (k in Range(cap, cap) ==> k < 2 * cap)
    {
      if cap <= k < 2 * cap { assert Range(cap, cap)[k - cap] == k; }
    }
  }

  class Store {
    /// The two layers: segments of nodes, segments of links.
    var nodes: seq<seq<Node>>
    var links: seq<seq<nat>>
    var head: nat
    var usedCnt: nat
    var numGrows: nat

    ghost var free: seq<nat>
    ghost var used: set<nat>

    ghost predicate Valid()
      reads this
    {
      && Shaped(nodes, numGrows) && Shaped(links, numGrows)
      && ListOk(links, numGrows, head, free)
      && Partition(used, free, CapacityFor(numGrows))
      && usedCnt == |used|
    }

    /// The chain of a new segment, one link at a time.
    static method ChainSegment(size: nat, start: nat, last: nat) returns (seg: seq<nat>)
      requires size > 0
      ensures |seg| == size && Chained(seg, start, last)
    {
      seg := seq(size, i => NIL);
      for i := 0 to size - 1
        invariant |seg| == size && forall j :: 0 <= j < i ==> seg[j] == start + j + 1
      {
        seg := seg[i := start + i + 1];
      }
      seg := seg[size - 1 := last];
    }

    /// `default`: one segment, all of it free.
    constructor Default()
      ensures Valid() && used == {} && numGrows == 0
    {
      var seg := ChainSegment(SEGMENT_BASE_SIZE, 0, NIL);
      nodes := [seq(SEGMENT_BASE_SIZE, i => Node(0, 0, 0, 0))];
      links := [seg];
      head := 0;
      usedCnt := 0;
      numGrows := 0;
      free := Range(0, SEGMENT_BASE_SIZE);
      used := {};
      new;
      forall k: nat | k < SEGMENT_BASE_SIZE
        ensures Locate(k) == (0, k) && HasPlace(links, k) && Get(links, k) == seg[k]
      {
      }
      forall i: nat ensures LinkOk(links, 0, free, i) {}
      forall k: nat ensures (k in free <==> k < SEGMENT_BASE_SIZE) { if k < SEGMENT_BASE_SIZE { assert free[k] == k; } }
    }

    /// `grow_if_needed`: another segment as large as all before it, unless there are enough free
    /// indices or the last growth has happened.
    method GrowIfNeeded()
      requires Valid()
      modifies this
      ensures Valid() && used == old(used) && usedCnt == old(usedCnt)
      ensures if old(usedCnt) < CapacityFor(old(numGrows)) || old(numGrows) + 1 >= MAX_GROWS
              then numGrows == old(numGrows) && free == old(free)
              else numGrows == old(numGrows) + 1 && free == Range(old(usedCnt), old(usedCnt))
      ensures forall k: nat :: k in used ==>
          HasPlace(old(nodes), k) && HasPlace(nodes, k) && Get(nodes, k) == Get(old(nodes), k)
    {
      hide Locate, Pow2, LinkOk;
      UsedArePlaced();
      var capacity := CapacityFor(numGrows);
      if usedCnt < capacity || numGrows + 1 >= MAX_GROWS {
        return;
      }
      NothingFree();
      var seg := ChainSegment(capacity, capacity, head);
      GrownList(links, numGrows, seg);
      GrownPartition(used, capacity);
      var more := seq(capacity, i => Node(0, 0, 0, 0));
      NewSegmentFits(nodes, numGrows, more);
      NewSegmentFits(links, numGrows, seg);
      forall k: nat | k in used ensures HasPlace(nodes + [more], k) && Get(nodes + [more], k) == Get(nodes, k) {
        OldPlace(nodes, numGrows, more, k);
      }
      nodes := nodes + [more];
      links := links + [seg];
      head := capacity;
      numGrows := numGrows + 1;
      free := Range(capacity, capacity);
    }

    /// When everything is used, the free list is empty.
    lemma NothingFree()
      requires Valid() && usedCnt >= CapacityFor(numGrows)
      ensures free == [] && head == NIL && usedCnt == CapacityFor(numGrows)
    {
      UsedUp(used, free, CapacityFor(numGrows));
    }

    /// The head says whether anything is free, and the count whether everything is used.
    lemma HeadTells()
      requires Valid()
      ensures head == NIL <==> usedCnt == CapacityFor(numGrows)
      ensures usedCnt <= CapacityFor(numGrows) <= CapacityFor(MAX_GROWS - 1)
      ensures numGrows < MAX_GROWS - 1 ==> CapacityFor(numGrows) < CapacityFor(MAX_GROWS - 1)
    {
      hide Locate;
      UsedUp(used, free, CapacityFor(numGrows));
      if free != [] {
        assert LinkOk(links, numGrows, free, 0);
        InShape(links, numGrows, free[0]);
      }
      Pow2Monotone(numGrows, MAX_GROWS - 1);
      if numGrows < MAX_GROWS - 1 { Pow2Monotone(numGrows + 1, MAX_GROWS - 1); }
    }

    lemma AtMostFull()
      requires Valid()
      ensures usedCnt == |used| <= MAX_CAPACITY
    {
      HeadTells();
      FullCapacity();
    }

    lemma UsedArePlaced()
      requires Valid()
      ensures forall k: nat :: k in used ==> HasPlace(nodes, k)
    {
      forall k: nat | k in used ensures HasPlace(nodes, k) { InShape(nodes, numGrows, k); }
    }

    /// The part of `alloc` that handles an empty free list.
    method EnsureFree() returns (ok: bool)
      requires Valid()
      modifies this
      ensures Valid() && used == old(used) && (ok <==> head != NIL)
      ensures (ok <==> old(usedCnt) != CapacityFor(MAX_GROWS - 1))
      ensures forall k: nat :: k in used ==>
          HasPlace(old(nodes), k) && HasPlace(nodes, k) && Get(nodes, k) == Get(old(nodes), k)
    {
      hide Locate, ListOk;
      HeadTells();
      UsedArePlaced();
      if head == NIL {
        GrowIfNeeded();
        HeadTells();
      }
      ok := head != NIL;
    }

    /// `alloc`: take the head of the free list, growing when it is empty. `None` is the panic of a
    /// store that is full and cannot grow.
    method Alloc(level: nat, low: nat, high: nat) returns (idx: Option<nat>)
      requires Valid()
      modifies this
      ensures Valid()
      ensures idx.None? <==> old(usedCnt) == MAX_CAPACITY
      ensures idx.None? ==> used == old(used)
      ensures idx.Some? ==>
          idx.value !in old(used) && used == old(used) + {idx.value} && idx.value < CapacityFor(numGrows)
      ensures idx.Some? ==> HasPlace(nodes, idx.value) && Get(nodes, idx.value) == Node(0, level, low, high)
      ensures forall k: nat :: k in old(used) ==>
          HasPlace(old(nodes), k) && HasPlace(nodes, k) && Get(nodes, k) == Get(old(nodes), k)
    {
      hide Locate, ListOk;
      FullCapacity();
      var ok := EnsureFree();
      if !ok {
        return None;
      }
      var i := Pop();
      PutGets(nodes, numGrows, i, Node(0, level, low, high));
      nodes := Put(nodes, i, Node(0, level, low, high));
      idx := Some(i);
    }

    /// The successful compare-and-swap of `head`, and the count.
    method Pop() returns (idx: nat)
      requires Valid() && head != NIL
      modifies this`head, this`usedCnt, this`free, this`used
      ensures Valid() && idx !in old(used) && used == old(used) + {idx} && idx < CapacityFor(numGrows)
    {
      hide Locate, Partition, LinkOk, Pow2;
      ListPops(links, numGrows, head, free);
      PartitionPops(used, free, CapacityFor(numGrows));
      idx := head;
      head := Get(links, idx);
      usedCnt := usedCnt + 1;
      used := used + {idx};
      free := free[1..];
    }

    /// `free`: put an allocated index back in front of the free list.
    method Free(idx: nat)
      requires Valid() && idx in used
      modifies this`links, this`head, this`usedCnt, this`free, this`used
      ensures Valid() && used == old(used) - {idx} && free == [idx] + old(free)
    {
      hide Locate, Partition, LinkOk, Pow2, ListOk;
      PartitionPushes(used, free, CapacityFor(numGrows), idx);
      ListPushes(links, numGrows, head, free, idx);
      PutGets(links, numGrows, idx, head);
      links := Put(links, idx, head);
      head := idx;
      usedCnt := usedCnt - 1;
      used := used - {idx};
      free := [idx] + free;
    }
  }

  /// A client that allocates until it is refused: the store is then full, with half the indices
  /// that its documentation promises.
  method RunOut(level: nat, low: nat, high: nat) returns (s: Store)
    ensures fresh(s) && s.Valid() && |s.used| == s.usedCnt == MAX_CAPACITY
  {
    s := new Store.Default();
    var idx := s.Alloc(level, low, high);
    s.AtMostFull();
    while idx.Some?
      invariant fresh(s) && s.Valid() && s.usedCnt == |s.used| <= MAX_CAPACITY
      invariant idx.None? ==> s.usedCnt == MAX_CAPACITY
      decreases MAX_CAPACITY - s.usedCnt, if idx.Some? then 1 else 0
    {
      idx := s.Alloc(level, low, high);
      s.AtMostFull();
    }
  }
}
