/// The direct-mapped lossy operation cache of src/cache.rs. Here an entry is read and written
/// whole; that the per-entry lock makes it so is what module EntryProtocol proves.

module OperationCache {
  import opened Powers

  class LockFreeCache<K(==), V(==)> {
    /// `Default::default()` of the key and value types; a lookup never asks for `noKey`.
    const noKey: K
    const noValue: V
    var entries: seq<(K, V)>
    var sizeExp: nat

    ghost predicate Valid()
      reads this
    {
      |entries| == Pow2(sizeExp)
    }

    /// The associations a lookup can answer from.
    ghost function Content(): set<(K, V)>
      reads this
    {
      set e | e in entries && e.0 != noKey
    }

    constructor WithCapacity(cap: nat, noKey: K, noValue: V)
      requires cap > 0
      ensures Valid() && Content() == {} && cap < |entries| <= 2 * cap
      ensures this.noKey == noKey && this.noValue == noValue
    {
      this.noKey := noKey;
      this.noValue := noValue;
      sizeExp := HighestBit(cap) + 1;
      entries := seq(Pow2(HighestBit(cap) + 1), i => (noKey, noValue));
    }

    /// What other threads may do to the cache meanwhile: leave in it any associations they could
    /// have written.
    method Interfere(ghost sound: iset<(K, V)>, ghost alone: bool)
      requires Valid() && forall e :: e in Content() ==> e in sound
      modifies this`entries
      ensures Valid() && (forall e :: e in Content() ==> e in sound) && (alone ==> entries == old(entries))
    {
    }

    /// The value stored with exactly this key, or the default.
    method Get(hash: nat, q: K) returns (v: V)
      requires Valid() && q != noKey
      ensures v != noValue ==> (q, v) in Content()
      ensures if entries[hash % |entries|].0 == q then entries[hash % |entries|] == (q, v) else v == noValue
    {
      var i := hash % |entries|;
      if entries[i].0 == q {
        assert entries[i] in entries;
        return entries[i].1;
      }
      return noValue;
    }

    /// Overwrite the key's slot, unless somebody is using it (`contended`).
    method Insert(hash: nat, key: K, value: V, contended: bool) returns (written: bool)
      requires Valid() && key != noKey
      modifies this`entries
      ensures Valid() && written == !contended
      ensures Content() <= old(Content()) + {(key, value)}
      ensures written ==> (key, value) in Content() && entries[hash % |entries|] == (key, value)
      ensures |entries| == |old(entries)|
      ensures forall i :: 0 <= i < |entries| && (!written || i != hash % |entries|) ==> entries[i] == old(entries)[i]
    {
      if contended {
        return false;
      }
      var i := hash % |entries|;
      entries := entries[i := (key, value)];
      assert entries[i] in entries;
      return true;
    }

    /// Under the manager's write guard every entry is free, so every entry is cleared.
    method InvalidateAll()
      requires Valid()
      modifies this`entries
      ensures Valid() && Content() == {} && |entries| == |old(entries)|
    {
      for i := 0 to |entries|
        invariant |entries| == |old(entries)|
        invariant forall j :: 0 <= j < i ==> entries[j] == (noKey, noValue)
      {
        entries := entries[i := (noKey, noValue)];
      }
    }

    /// Twice the entries, all empty.
    method Grow()
      requires Valid()
      modifies this
      ensures Valid() && Content() == {} && |entries| == 2 * |old(entries)|
    {
      sizeExp := sizeExp + 1;
      entries := seq(Pow2(sizeExp), i => (noKey, noValue));
    }
  }
}
