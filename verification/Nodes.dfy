/// Decision-diagram nodes as they sit in memory (src/node.rs).
///
/// An address is a natural number and 0 is the null pointer; memory is a map from addresses to
/// records, so reading a freed node is a domain error that Dafny has to rule out.

module Nodes {
  type Ptr = nat

  const NULL: Ptr := 0

  /// The top bit of a 64-bit `level`; the collector uses it as the mark.
  const MARK: nat := 0x8000_0000_0000_0000

  /// What identifies a node: its level and its two children, compared in this order.
  datatype Key = Key(level: nat, low: Ptr, high: Ptr)

  predicate Less(a: Key, b: Key) {
    || a.level < b.level
    || (a.level == b.level && (a.low < b.low || (a.low == b.low && a.high < b.high)))
  }

  /// `refCnt` is an unbounded integer: the machine word wraps, and is zero exactly when this
  /// integer is, as long as fewer than 2^64 references are outstanding.
  datatype Node = Node(refCnt: int, level: nat, low: Ptr, high: Ptr, next: Ptr, hash: nat) {
    predicate Marked() {
      level >= MARK
    }

    /// The key as the table compares it, mark bit included.
    function RawKey(): Key {
      Key(level, low, high)
    }

    /// The key with the mark bit masked out.
    function BaseKey(): Key {
      Key(if Marked() then level - MARK else level, low, high)
    }
  }

  type Heap = map<Ptr, Node>

  /// A node as `Node::from` builds it, hash included.
  function NewNode(k: Key, hash: Key -> nat): Node {
    Node(0, k.level, k.low, k.high, NULL, hash(k))
  }

  /// `Box::into_raw(Box::new(..))` hands out some address that is not in use; freed addresses
  /// may come back.
  lemma FreeAddressExists(h: Heap)
    ensures exists p: Ptr :: p != NULL && p !in h
  {
    var bound := UpperBound(h.Keys);
    assert bound + 1 !in h;
  }

  lemma {:induction false} UpperBound(s: set<Ptr>) returns (b: Ptr)
    ensures forall p :: p in s ==> p <= b
  {
    if s == {} {
      b := 0;
    } else {
      var x :| x in s;
      var c := UpperBound(s - {x});
      b := if c < x then x else c;
      assert forall p :: p in s ==> p == x || p in s - {x};
    }
  }
}
