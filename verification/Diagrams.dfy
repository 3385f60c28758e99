/// Reduced ordered binary decision diagrams as a graph of keyed nodes, and the Boolean functions
/// they denote. Nothing here knows about memory cells, chains or threads: the unique table enters
/// as its view, a map from addresses to keys.

module Diagrams {
  import opened Nodes

  /// The set of variables that are true.
  type Assignment = set<nat>

  /// A table's view, the two terminals, and the number of variables.
  datatype Diagram = Diagram(g: map<Ptr, Key>, f: Ptr, t: Ptr, n: nat) {
    predicate Terminal(p: Ptr) {
      p == f || p == t
    }

    /// With variables, the terminals are children of referenced nodes and need no count of their own.
    function Exempt(): set<Ptr> {
      if n == 0 then {} else {f, t}
    }

    /// The level of a node's variable. Terminals are table nodes with levels 0 and 1, but they
    /// stand below every variable.
    function Top(p: Ptr): nat
      requires p in g
    {
      if Terminal(p) then n else g[p].level
    }

    function Low(p: Ptr): Ptr
      requires p in g
    {
      g[p].low
    }

    function High(p: Ptr): Ptr
      requires p in g
    {
      g[p].high
    }

    /// A key that may be added: ordered and reduced.
    predicate KeyFits(k: Key) {
      && k.level < n
      && k.low in g && k.high in g && k.low != k.high
      && k.level < Top(k.low) && k.level < Top(k.high)
    }

    predicate NodeFits(p: Ptr) {
      p in g ==> Terminal(p) || KeyFits(g[p])
    }

    predicate Apart(p: Ptr, q: Ptr) {
      p in g && q in g && g[p] == g[q] ==> p == q
    }

    /// Reduced, ordered, closed under children, and no two nodes with the same key.
    ghost predicate Ok() {
      && f != t && f in g && t in g && g[f] == Key(0, NULL, NULL) && g[t] == Key(1, NULL, NULL)
      && NULL !in g
      && (forall p {:trigger NodeFits(p)} :: NodeFits(p))
      && (forall p, q {:trigger Apart(p, q)} :: Apart(p, q))
    }
  }

  /// The Boolean function a node denotes, one assignment at a time.
  ghost predicate Eval(d: Diagram, p: Ptr, a: Assignment)
    requires d.Ok() && p in d.g
    decreases d.n - d.Top(p)
  {
    if d.Terminal(p) then p == d.t else
      assert d.NodeFits(p);
      if d.g[p].level in a then Eval(d, d.High(p), a) else Eval(d, d.Low(p), a)
  }

  /// The same, as the set of satisfying assignments.
  ghost function Denotes(d: Diagram, p: Ptr): iset<Assignment>
    requires d.Ok() && p in d.g
  {
    iset a | Eval(d, p, a)
  }

  lemma TopBounded(d: Diagram, p: Ptr)
    requires d.Ok() && p in d.g
    ensures d.Top(p) <= d.n && (d.Top(p) == d.n <==> d.Terminal(p))
  {
    assert d.NodeFits(p);
  }

  // ---------- Canonicity ----------

  ghost predicate AgreeFrom(a: Assignment, b: Assignment, k: nat) {
    forall v: nat :: k <= v ==> (v in a <==> v in b)
  }

  /// A node looks at no variable above its own.
  lemma {:induction false} EvalLooksBelow(d: Diagram, p: Ptr, a: Assignment, b: Assignment)
    requires d.Ok() && p in d.g && AgreeFrom(a, b, d.Top(p))
    ensures Eval(d, p, a) == Eval(d, p, b)
    decreases d.n - d.Top(p)
  {
    assert d.NodeFits(p);
    if !d.Terminal(p) {
      assert d.g[p].level in a <==> d.g[p].level in b;
      EvalLooksBelow(d, d.Low(p), a, b);
      EvalLooksBelow(d, d.High(p), a, b);
    }
  }

  /// `a` with variable `v` set to `on`.
  function With(a: Assignment, v: nat, on: bool): Assignment {
    if on then a + {v} else a - {v}
  }

  /// If a child of p can be told from q, and q starts below p, then p can be told from q.
  lemma TellApartThroughChild(d: Diagram, p: Ptr, q: Ptr, on: bool, a: Assignment) returns (b: Assignment)
    requires d.Ok() && p in d.g && q in d.g && !d.Terminal(p) && d.Top(p) < d.Top(q)
    requires d.KeyFits(d.g[p])
    requires Eval(d, if on then d.High(p) else d.Low(p), a) != Eval(d, q, a)
    ensures Eval(d, p, b) != Eval(d, q, b)
  {
    b := With(a, d.Top(p), on);
    EvalLooksBelow(d, if on then d.High(p) else d.Low(p), a, b);
    EvalLooksBelow(d, q, a, b);
  }

  /// Different nodes are told apart by some assignment.
  lemma {:induction false} TellApart(d: Diagram, p: Ptr, q: Ptr) returns (a: Assignment)
    requires d.Ok() && p in d.g && q in d.g && p != q
    ensures Eval(d, p, a) != Eval(d, q, a)
    decreases d.n - d.Top(p) + d.n - d.Top(q)
  {
    assert d.NodeFits(p) && d.NodeFits(q);
    if d.Terminal(p) && d.Terminal(q) {
      a := {};
    } else if d.Top(p) < d.Top(q) {
      var on := d.Low(p) == q;
      var c := TellApart(d, if on then d.High(p) else d.Low(p), q);
      a := TellApartThroughChild(d, p, q, on, c);
    } else if d.Top(q) < d.Top(p) {
      var on := d.Low(q) == p;
      var c := TellApart(d, if on then d.High(q) else d.Low(q), p);
      a := TellApartThroughChild(d, q, p, on, c);
    } else {
      // same variable: the keys differ, so the low or the high children do
      assert d.Apart(p, q);
      var on := d.Low(p) == d.Low(q);
      var p', q' := if on then d.High(p) else d.Low(p), if on then d.High(q) else d.Low(q);
      var c := TellApart(d, p', q');
      a := With(c, d.Top(p), on);
      EvalLooksBelow(d, p', c, a);
      EvalLooksBelow(d, q', c, a);
    }
  }

  /// Canonicity: equal addresses and equal functions are the same thing.
  lemma Canonical(d: Diagram, p: Ptr, q: Ptr)
    requires d.Ok() && p in d.g && q in d.g
    ensures Denotes(d, p) == Denotes(d, q) <==> p == q
  {
    if p != q {
      var a := TellApart(d, p, q);
      assert a in Denotes(d, p) <==> a !in Denotes(d, q);
    }
  }

  /// The function that is true everywhere, and the one that is variable `i`, or its negation.
  ghost function Always(): iset<Assignment> {
    iset a: Assignment | |a| >= 0
  }

  ghost function Variable(i: nat, on: bool): iset<Assignment> {
    iset a: Assignment | (i in a) == on
  }

  /// So comparing with a terminal decides validity and unsatisfiability.
  lemma TerminalsDecide(d: Diagram, p: Ptr)
    requires d.Ok() && p in d.g
    ensures p == d.t <==> Denotes(d, p) == Always()
    ensures p == d.f <==> Denotes(d, p) == iset{}
  {
    assert Denotes(d, d.t) == Always();
    assert Denotes(d, d.f) == iset{};
    Canonical(d, p, d.t);
    Canonical(d, p, d.f);
  }

  lemma VariableMeans(d: Diagram, p: Ptr, i: nat, on: bool)
    requires d.Ok() && p in d.g && d.g[p] == if on then Key(i, d.f, d.t) else Key(i, d.t, d.f)
    ensures Denotes(d, p) == Variable(i, on)
  {
    assert d.NodeFits(p);
    forall a: Assignment ensures Eval(d, p, a) == ((i in a) == on) {}
  }

  // ---------- Adding nodes ----------

  /// `e` is a larger valid diagram over the same terminals and variables.
  ghost predicate Grows(d: Diagram, e: Diagram) {
    && d.f == e.f && d.t == e.t && d.n == e.n
    && (forall p :: p in d.g ==> p in e.g && e.g[p] == d.g[p])
  }

  lemma {:induction false} GrowthKeepsEval(d: Diagram, e: Diagram, p: Ptr, a: Assignment)
    requires d.Ok() && e.Ok() && Grows(d, e) && p in d.g
    ensures Eval(e, p, a) == Eval(d, p, a)
    decreases d.n - d.Top(p)
  {
    assert d.NodeFits(p);
    if !d.Terminal(p) {
      GrowthKeepsEval(d, e, d.Low(p), a);
      GrowthKeepsEval(d, e, d.High(p), a);
    }
  }

  lemma GrowthKeepsMeaning(d: Diagram, e: Diagram)
    requires d.Ok() && e.Ok() && Grows(d, e)
    ensures forall p :: p in d.g ==> Denotes(e, p) == Denotes(d, p) && e.Top(p) == d.Top(p)
  {
    forall p | p in d.g ensures Denotes(e, p) == Denotes(d, p) {
      forall a: Assignment ensures Eval(e, p, a) == Eval(d, p, a) { GrowthKeepsEval(d, e, p, a); }
    }
  }

  lemma AddingKeepsOk(d: Diagram, p: Ptr, k: Key)
    requires d.Ok() && p != NULL && p !in d.g && d.KeyFits(k) && k !in d.g.Values
    ensures d.(g := d.g[p := k]).Ok()
  {
    var e := d.(g := d.g[p := k]);
    forall q ensures e.NodeFits(q) {
      assert d.NodeFits(q);
    }
    forall q, r ensures e.Apart(q, r) {
      assert d.Apart(q, r);
      assert q in d.g ==> d.g[q] in d.g.Values;
      assert r in d.g ==> d.g[r] in d.g.Values;
    }
  }

  // ---------- Reachability ----------

  ghost function Reach(d: Diagram, p: Ptr): set<Ptr>
    requires d.Ok() && p in d.g
    decreases d.n - d.Top(p)
  {
    if d.Terminal(p) then {p} else
      assert d.NodeFits(p);
      {p} + Reach(d, d.Low(p)) + Reach(d, d.High(p))
  }

  lemma {:induction false} ReachFacts(d: Diagram, p: Ptr)
    requires d.Ok() && p in d.g
    ensures p in Reach(d, p)
    ensures forall q :: q in Reach(d, p) ==> q in d.g && (q == p || d.Top(p) < d.Top(q))
    ensures forall q :: q in Reach(d, p) ==> Reach(d, q) <= Reach(d, p)
    decreases d.n - d.Top(p)
  {
    assert d.NodeFits(p);
    if !d.Terminal(p) {
      ReachFacts(d, d.Low(p));
      ReachFacts(d, d.High(p));
    }
  }

  ghost function ReachAll(d: Diagram, roots: set<Ptr>): set<Ptr>
    requires d.Ok()
  {
    set q | q in d.g.Keys && exists p :: p in roots && p in d.g && q in Reach(d, p)
  }

  lemma ReachAllClosed(d: Diagram, roots: set<Ptr>, q: Ptr)
    requires d.Ok() && q in ReachAll(d, roots)
    ensures q in d.g && Reach(d, q) <= ReachAll(d, roots)
  {
    var p :| p in roots && p in d.g && q in Reach(d, p);
    ReachFacts(d, p);
  }

  /// Roots among what other roots reach add nothing.
  lemma ReachAllMonotone(d: Diagram, roots: set<Ptr>, more: set<Ptr>)
    requires d.Ok() && roots <= ReachAll(d, more)
    ensures ReachAll(d, roots) <= ReachAll(d, more)
  {
    forall q | q in ReachAll(d, roots) ensures q in ReachAll(d, more) {
      var p :| p in roots && p in d.g && q in Reach(d, p);
      ReachAllClosed(d, more, p);
    }
  }

  lemma RootsReachThemselves(d: Diagram, roots: set<Ptr>, p: Ptr)
    requires d.Ok() && p in roots && p in d.g
    ensures p in ReachAll(d, roots)
  {
    ReachFacts(d, p);
  }

  lemma ReachAllAdd(d: Diagram, roots: set<Ptr>, p: Ptr)
    requires d.Ok() && p in d.g
    ensures ReachAll(d, roots + {p}) == ReachAll(d, roots) + Reach(d, p)
  {
    ReachFacts(d, p);
  }

  /// The part of a diagram that collection keeps.
  ghost function Restrict(d: Diagram, keep: set<Ptr>): Diagram {
    d.(g := map p | p in d.g && p in keep :: d.g[p])
  }

  /// `keep` contains the terminals and the children of its nodes.
  ghost predicate Closed(d: Diagram, keep: set<Ptr>)
    requires d.Ok()
  {
    && d.f in keep && d.t in keep
    && forall p :: p in keep ==> p in d.g && Reach(d, p) <= keep
  }

  lemma {:induction false} RestrictKeepsEval(d: Diagram, keep: set<Ptr>, p: Ptr, a: Assignment)
    requires d.Ok() && Closed(d, keep) && p in keep && Restrict(d, keep).Ok()
    ensures Eval(Restrict(d, keep), p, a) == Eval(d, p, a)
    decreases d.n - d.Top(p)
  {
    assert d.NodeFits(p);
    ReachFacts(d, p);
    if !d.Terminal(p) {
      ReachFacts(d, d.Low(p));
      ReachFacts(d, d.High(p));
      RestrictKeepsEval(d, keep, d.Low(p), a);
      RestrictKeepsEval(d, keep, d.High(p), a);
    }
  }

  /// Restricting to a closed set gives a valid diagram, in which every kept node denotes what it
  /// denoted before.
  lemma RestrictKeepsMeaning(d: Diagram, keep: set<Ptr>)
    requires d.Ok() && Closed(d, keep)
    ensures Restrict(d, keep).Ok()
    ensures forall p :: p in keep ==>
        p in d.g && p in Restrict(d, keep).g && Denotes(Restrict(d, keep), p) == Denotes(d, p)
  {
    var e := Restrict(d, keep);
    forall p ensures e.NodeFits(p) {
      assert d.NodeFits(p);
      if p in e.g && !d.Terminal(p) {
        ReachFacts(d, d.Low(p));
        ReachFacts(d, d.High(p));
      }
    }
    forall p, q ensures e.Apart(p, q) { assert d.Apart(p, q); }
    forall p | p in keep ensures p in e.g && Denotes(e, p) == Denotes(d, p) {
      forall a: Assignment ensures Eval(e, p, a) == Eval(d, p, a) { RestrictKeepsEval(d, keep, p, a); }
    }
  }
}
