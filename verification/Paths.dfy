/// Paths through a diagram, as the branches taken from a node on.

module Paths {
  import opened Nodes
  import opened Diagrams

  function Child(d: Diagram, p: Ptr, on: bool): Ptr
    requires p in d.g
  {
    if on then d.High(p) else d.Low(p)
  }

  /// From `p`, the branches of `path` lead to `q`.
  ghost predicate Leads(d: Diagram, p: Ptr, path: seq<bool>, q: Ptr)
    requires d.Ok() && p in d.g
    decreases |path|
  {
    if path == [] then p == q else
      !d.Terminal(p) && d.NodeFits(p) && Leads(d, Child(d, p, path[0]), path[1..], q)
  }

  lemma LeadsOn(d: Diagram, p: Ptr, on: bool, path: seq<bool>, q: Ptr)
    requires d.Ok() && p in d.g && !d.Terminal(p) && d.NodeFits(p) && Leads(d, Child(d, p, on), path, q)
    ensures Leads(d, p, [on] + path, q)
  {
    assert ([on] + path)[1..] == path;
  }

  lemma {:induction false} LeadsInto(d: Diagram, p: Ptr, path: seq<bool>, q: Ptr)
    requires d.Ok() && p in d.g && Leads(d, p, path, q)
    ensures q in d.g && |path| <= d.n - d.Top(p)
    decreases |path|
  {
    assert d.NodeFits(p);
    TopBounded(d, p);
    if path != [] { LeadsInto(d, Child(d, p, path[0]), path[1..], q); }
  }

  lemma {:induction false} LeadsOnce(d: Diagram, p: Ptr, path: seq<bool>, q: Ptr, r: Ptr)
    requires d.Ok() && p in d.g && Leads(d, p, path, q) && Leads(d, p, path, r)
    ensures q == r
    decreases |path|
  {
    if path != [] { LeadsOnce(d, Child(d, p, path[0]), path[1..], q, r); }
  }

  lemma PrefixesAgree<T>(x: seq<T>, y: seq<T>, k: nat, l: nat)
    requires k < |x| && k < |y| && l <= |x| && l <= |y| && x[..l] == y[..l]
    ensures k < l ==> x[k] == y[k]
  {
    assert k < l ==> x[..l][k] == x[k] && y[..l][k] == y[k];
  }
}
