/// Facts about the sizes of finite sets.

module Counting {
  function One(b: bool): nat {
    if b then 1 else 0
  }

  /// Two sets that differ in `t` at most.
  lemma Except<T>(a: set<T>, b: set<T>, t: T)
    requires forall v :: v != t ==> (v in a <==> v in b)
    ensures |a| - One(t in a) == |b| - One(t in b)
    ensures t in a ==> |a| >= 1
  {
    assert a - {t} == b - {t};
    assert |a - {t}| == |a| - One(t in a) && |b - {t}| == |b| - One(t in b);
  }

  lemma {:induction false} SubsetIsSmaller<T>(a: set<T>, b: set<T>)
    requires a <= b
    ensures |a| <= |b|
  {
    if a != {} {
      var x :| x in a;
      SubsetIsSmaller(a - {x}, b - {x});
    }
  }
}
