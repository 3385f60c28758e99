/// Powers of two, as table, cache and segment sizes use them.

module Powers {
  function Pow2(e: nat): (r: nat)
    ensures r > 0
  {
    if e == 0 then 1 else 2 * Pow2(e - 1)
  }

  /// `cap.isolate_highest_one().trailing_zeros()`: the position of the highest bit.
  function HighestBit(cap: nat): (e: nat)
    requires cap > 0
    ensures Pow2(e) <= cap < Pow2(e + 1)
  {
    if cap == 1 then 0 else 1 + HighestBit(cap / 2)
  }
}
