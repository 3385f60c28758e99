/// What the recursive operations of src/tobdd.rs compute, step by step: terminal cases, the split
/// on the topmost variable, the node put on top. Facts about diagrams only; the manager's methods
/// use them.

module Operations {
  import opened Nodes
  import opened Diagrams

  datatype Op = Negation | Conjunction | Disjunction | Difference

  predicate Holds(op: Op, x: bool, y: bool) {
    match op
    case Negation => !x
    case Conjunction => x && y
    case Disjunction => x || y
    case Difference => x && !y
  }

  /// The same on Boolean functions; `Negation` ignores its second operand.
  ghost function Apply(op: Op, x: iset<Assignment>, y: iset<Assignment>): iset<Assignment> {
    iset a: Assignment | Holds(op, a in x, a in y)
  }

  /// `r` is a right answer for `op` on `x` and `y`, and does not stand above both.
  ghost predicate Computes(d: Diagram, op: Op, x: Ptr, y: Ptr, r: Ptr)
    ensures Computes(d, op, x, y, r) ==> d.Ok() && x in d.g && y in d.g && r in d.g
  {
    && d.Ok() && x in d.g && y in d.g && r in d.g
    && (d.Top(x) <= d.Top(r) || d.Top(y) <= d.Top(r))
    && forall a: Assignment :: Eval(d, r, a) == Holds(op, Eval(d, x, a), Eval(d, y, a))
  }

  lemma ComputesMeans(d: Diagram, op: Op, x: Ptr, y: Ptr, r: Ptr)
    requires Computes(d, op, x, y, r)
    ensures Denotes(d, r) == Apply(op, Denotes(d, x), Denotes(d, y))
  {
    forall a: Assignment ensures a in Denotes(d, r) <==> a in Apply(op, Denotes(d, x), Denotes(d, y)) {
      assert Eval(d, r, a) == Holds(op, Eval(d, x, a), Eval(d, y, a));
    }
  }

  lemma ComputesSurvives(d: Diagram, e: Diagram, op: Op, x: Ptr, y: Ptr, r: Ptr)
    requires Computes(d, op, x, y, r) && e.Ok() && Grows(d, e)
    ensures Computes(e, op, x, y, r)
  {
    GrowthKeepsMeaning(d, e);
    forall a: Assignment ensures Eval(e, r, a) == Holds(op, Eval(e, x, a), Eval(e, y, a)) {
      GrowthKeepsEval(d, e, r, a);
      GrowthKeepsEval(d, e, x, a);
      GrowthKeepsEval(d, e, y, a);
      assert Eval(d, r, a) == Holds(op, Eval(d, x, a), Eval(d, y, a));
    }
  }

  // ---------- Terminal cases ----------

  lemma NotRules(d: Diagram)
    requires d.Ok()
    ensures Computes(d, Negation, d.t, d.t, d.f) && Computes(d, Negation, d.f, d.f, d.t)
  {
  }

  lemma AndRules(d: Diagram, x: Ptr, y: Ptr)
    requires d.Ok() && x in d.g && y in d.g
    ensures x == y || y == d.t ==> Computes(d, Conjunction, x, y, x)
    ensures x == d.f || y == d.f ==> Computes(d, Conjunction, x, y, d.f)
    ensures x == d.t ==> Computes(d, Conjunction, x, y, y)
  {
    TopBounded(d, x);
    TopBounded(d, y);
  }

  lemma OrRules(d: Diagram, x: Ptr, y: Ptr)
    requires d.Ok() && x in d.g && y in d.g
    ensures x == y || y == d.f ==> Computes(d, Disjunction, x, y, x)
    ensures x == d.t || y == d.t ==> Computes(d, Disjunction, x, y, d.t)
    ensures x == d.f ==> Computes(d, Disjunction, x, y, y)
  {
    TopBounded(d, x);
    TopBounded(d, y);
  }

  lemma CompRules(d: Diagram, x: Ptr, y: Ptr)
    requires d.Ok() && x in d.g && y in d.g
    ensures x == y || x == d.f || y == d.t ==> Computes(d, Difference, x, y, d.f)
    ensures y == d.f ==> Computes(d, Difference, x, y, x)
  {
    TopBounded(d, x);
    TopBounded(d, y);
  }

  lemma CompOfTrue(d: Diagram, y: Ptr, r: Ptr)
    requires Computes(d, Negation, y, y, r)
    ensures Computes(d, Difference, d.t, y, r)
  {
    forall a: Assignment ensures Eval(d, r, a) == Holds(Difference, Eval(d, d.t, a), Eval(d, y, a)) {
      assert Eval(d, r, a) == Holds(Negation, Eval(d, y, a), Eval(d, y, a));
    }
  }

  /// Sorting the operands of a symmetric operation changes nothing.
  lemma Commutes(d: Diagram, op: Op, x: Ptr, y: Ptr)
    requires op.Conjunction? || op.Disjunction?
    ensures forall r :: Computes(d, op, x, y, r) ==> Computes(d, op, y, x, r)
  {
    forall r | Computes(d, op, x, y, r) ensures Computes(d, op, y, x, r) {
      forall a: Assignment ensures Eval(d, r, a) == Holds(op, Eval(d, y, a), Eval(d, x, a)) {
        assert Eval(d, r, a) == Holds(op, Eval(d, x, a), Eval(d, y, a));
      }
    }
  }

  // ---------- The step case ----------

  /// The child to follow for variable `v`, or the node itself if it does not look at `v`.
  function Cofactor(d: Diagram, p: Ptr, v: nat, on: bool): Ptr
    requires p in d.g
  {
    if d.Terminal(p) || d.g[p].level != v then p else if on then d.g[p].high else d.g[p].low
  }

  lemma CofactorFacts(d: Diagram, p: Ptr, v: nat, on: bool)
    requires d.Ok() && p in d.g && v < d.n && v <= d.Top(p)
    ensures Cofactor(d, p, v, on) in d.g && v < d.Top(Cofactor(d, p, v, on))
    ensures d.Top(p) <= d.Top(Cofactor(d, p, v, on))
    ensures forall a: Assignment :: (v in a) == on ==> Eval(d, p, a) == Eval(d, Cofactor(d, p, v, on), a)
  {
    assert d.NodeFits(p);
  }

  /// What `make_node` returns for level `v` and children `low` and `high`.
  ghost predicate Made(d: Diagram, r: Ptr, v: nat, low: Ptr, high: Ptr) {
    && r in d.g
    && if low == high then r == low else d.g[r] == Key(v, low, high)
  }

  /// The node made from the answers for the two cofactors is the answer.
  lemma Shannon(d: Diagram, op: Op, x: Ptr, y: Ptr, v: nat, low: Ptr, high: Ptr, r: Ptr)
    requires d.Ok() && x in d.g && y in d.g && v < d.n
    requires v <= d.Top(x) && v <= d.Top(y) && (v == d.Top(x) || v == d.Top(y))
    requires Computes(d, op, Cofactor(d, x, v, false), Cofactor(d, y, v, false), low)
    requires Computes(d, op, Cofactor(d, x, v, true), Cofactor(d, y, v, true), high)
    requires Made(d, r, v, low, high)
    ensures Computes(d, op, x, y, r)
  {
    CofactorFacts(d, x, v, false);
    CofactorFacts(d, x, v, true);
    CofactorFacts(d, y, v, false);
    CofactorFacts(d, y, v, true);
    assert d.NodeFits(r);
    forall a: Assignment ensures Eval(d, r, a) == Holds(op, Eval(d, x, a), Eval(d, y, a)) {
      var on := v in a;
      var c := if on then high else low;
      assert Eval(d, r, a) == Eval(d, c, a);
      assert Eval(d, c, a) == Holds(op, Eval(d, Cofactor(d, x, v, on), a), Eval(d, Cofactor(d, y, v, on), a));
    }
  }

  /// The answers for the cofactors stand below the variable split on.
  lemma AnswersAreBelow(d: Diagram, e: Diagram, e': Diagram, op: Op, x: Ptr, y: Ptr, v: nat, low: Ptr, high: Ptr)
    requires d.Ok() && x in d.g && y in d.g && v < d.n && v <= d.Top(x) && v <= d.Top(y)
    requires Grows(d, e) && Grows(e, e')
    requires Computes(e, op, Cofactor(d, x, v, false), Cofactor(d, y, v, false), low)
    requires Computes(e', op, Cofactor(d, x, v, true), Cofactor(d, y, v, true), high)
    ensures v < e'.Top(low) && v < e'.Top(high)
  {
    CofactorFacts(d, x, v, false);
    CofactorFacts(d, y, v, false);
    CofactorFacts(d, x, v, true);
    CofactorFacts(d, y, v, true);
  }

  /// The step case with the table growing in between.
  lemma StepAnswer(d: Diagram, e: Diagram, e': Diagram, e'': Diagram, op: Op, x: Ptr, y: Ptr, v: nat, low: Ptr,
      high: Ptr, r: Ptr)
    requires d.Ok() && e''.Ok() && Grows(d, e) && Grows(e, e') && Grows(e', e'')
    requires x in d.g && y in d.g && v < d.n
    requires v <= d.Top(x) && v <= d.Top(y) && (v == d.Top(x) || v == d.Top(y))
    requires Computes(e, op, Cofactor(d, x, v, false), Cofactor(d, y, v, false), low)
    requires Computes(e', op, Cofactor(d, x, v, true), Cofactor(d, y, v, true), high)
    requires Made(e'', r, v, low, high)
    ensures Computes(e'', op, x, y, r)
  {
    ComputesSurvives(e, e'', op, Cofactor(d, x, v, false), Cofactor(d, y, v, false), low);
    ComputesSurvives(e', e'', op, Cofactor(d, x, v, true), Cofactor(d, y, v, true), high);
    Shannon(e'', op, x, y, v, low, high, r);
  }

  /// The termination measure of the recursions.
  ghost function Rank(d: Diagram, p: Ptr): nat
    requires d.Ok() && p in d.g
  {
    TopBounded(d, p);
    d.n - d.Top(p)
  }

  lemma CofactorsRankLower(d: Diagram, e: Diagram, x: Ptr, y: Ptr, v: nat, on: bool)
    requires d.Ok() && e.Ok() && Grows(d, e) && x in d.g && y in d.g && v < d.n
    requires v <= d.Top(x) && v <= d.Top(y) && (v == d.Top(x) || v == d.Top(y))
    ensures var x', y' := Cofactor(d, x, v, on), Cofactor(d, y, v, on);
      x' in e.g && y' in e.g && Rank(e, x') + Rank(e, y') < Rank(d, x) + Rank(d, y)
  {
    CofactorFacts(d, x, v, on);
    CofactorFacts(d, y, v, on);
  }

  // ---------- Caches ----------

  /// The right answers a cache may hold.
  ghost function NotAnswers(d: Diagram): iset<(Ptr, Ptr)> {
    iset e: (Ptr, Ptr) | Computes(d, Negation, e.0, e.0, e.1)
  }

  ghost function Answers(d: Diagram, op: Op): iset<((Ptr, Ptr), Ptr)> {
    iset e: ((Ptr, Ptr), Ptr) | Computes(d, op, e.0.0, e.0.1, e.1)
  }

  /// They stay right when the table grows.
  lemma AnswersSurvive(d: Diagram, e: Diagram)
    requires d.Ok() && e.Ok() && Grows(d, e)
    ensures NotAnswers(d) <= NotAnswers(e)
    ensures forall op :: Answers(d, op) <= Answers(e, op)
  {
    forall c | c in NotAnswers(d) ensures c in NotAnswers(e) { ComputesSurvives(d, e, Negation, c.0, c.0, c.1); }
    forall op, c | c in Answers(d, op) ensures c in Answers(e, op) { ComputesSurvives(d, e, op, c.0.0, c.0.1, c.1); }
  }
}
