/// The n-queens client of benches/benches/n_queens_bdd.rs, against the manager's contracts.
///
/// `BuildNQueens` is the encoding theorem: for every board, the diagram denotes exactly the
/// placements of one queen per row with no two on a common line; and when it is done, the only
/// reference the client has left is the root's.

module NQueens {
  import opened Nodes
  import opened Chains
  import opened Diagrams
  import opened UniqueTable
  import opened Operations
  import opened BddManager

  // ---------- Boards ----------

  function VarIndex(n: nat, row: nat, col: nat): nat {
    row * n + col
  }

  /// The variables number the cells row by row, and from the left within a row.
  lemma VarsAreRowMajor(n: nat, r: nat, c: nat, r': nat, c': nat)
    requires c < n && c' < n
    ensures VarIndex(n, r, c) < VarIndex(n, r', c') <==> r < r' || (r == r' && c < c')
  {
    RowsAreApart(n, r, c, r', c');
    RowsAreApart(n, r', c', r, c);
  }

  /// Every variable is a cell's.
  lemma VarsAreCells(n: nat, v: nat) returns (r: nat, c: nat)
    requires v < n * n
    ensures r < n && c < n && VarIndex(n, r, c) == v
  {
    r, c := v / n, v % n;
    if r >= n { RowsAreApart(n, n - 1, n - 1, r, c); }
  }

  /// Cells have different variables.
  lemma VarIndexInjective(n: nat, r: nat, c: nat, r': nat, c': nat)
    requires c < n && c' < n && VarIndex(n, r, c) == VarIndex(n, r', c')
    ensures r == r' && c == c'
  {
    RowsAreApart(n, r, c, r', c');
    RowsAreApart(n, r', c', r, c);
  }

  lemma RowsAreApart(n: nat, r: nat, c: nat, r': nat, c': nat)
    requires c < n
    ensures r < r' ==> VarIndex(n, r, c) < VarIndex(n, r', c')
  {
    if r < r' {
      var k := r' - r - 1;
      assert r' * n == r * n + n + k * n by { assert r' == r + 1 + k; }
      assert k * n >= 0;
    }
  }

  lemma VarIndexFits(n: nat, r: nat, c: nat)
    requires r < n && c < n
    ensures VarIndex(n, r, c) < n * n
  {
    RowsAreApart(n, r, c, n, 0);
  }

  datatype Line = Row(r: nat) | Col(c: nat) | Diag(d: int) | Anti(s: nat)

  predicate On(line: Line, row: nat, col: nat) {
    match line
    case Row(r) => row == r
    case Col(c) => col == c
    case Diag(d) => row - col == d
    case Anti(s) => row + col == s
  }

  predicate Cell(n: nat, line: Line, row: nat, col: nat) {
    row < n && col < n && On(line, row, col)
  }

  predicate Queen(n: nat, a: Assignment, row: nat, col: nat) {
    VarIndex(n, row, col) in a
  }

  /// `v` is the variable of a cell of the line, in a row below `upTo`.
  ghost predicate VarOf(n: nat, line: Line, upTo: nat, v: nat) {
    exists row: nat, col: nat :: Cell(n, line, row, col) && row < upTo && v == VarIndex(n, row, col)
  }

  /// `vars` has the variables of the line's cells in those rows, each once.
  ghost predicate ListsBelow(n: nat, line: Line, vars: seq<nat>, upTo: nat) {
    && (forall i, j :: 0 <= i < j < |vars| ==> vars[i] != vars[j])
    && (forall v :: v in vars <==> VarOf(n, line, upTo, v))
  }

  ghost predicate Lists(n: nat, line: Line, vars: seq<nat>) {
    ListsBelow(n, line, vars, n)
  }

  /// The next row has one cell of the line.
  lemma ListsOneMore(n: nat, line: Line, vars: seq<nat>, row: nat, col: nat)
    requires ListsBelow(n, line, vars, row) && Cell(n, line, row, col)
    requires forall c: nat :: Cell(n, line, row, c) ==> c == col
    ensures ListsBelow(n, line, vars + [VarIndex(n, row, col)], row + 1)
  {
    var v, more := VarIndex(n, row, col), vars + [VarIndex(n, row, col)];
    if VarOf(n, line, row, v) {
      var r: nat, c: nat :| Cell(n, line, r, c) && r < row && v == VarIndex(n, r, c);
      VarIndexInjective(n, r, c, row, col);
    }
    assert v !in vars;
    forall w ensures w in more <==> VarOf(n, line, row + 1, w) {
      hide VarIndex;
      if w == v {
        assert Cell(n, line, row, col) && row < row + 1 && w == VarIndex(n, row, col);
        assert more[|vars|] == w;
      } else if w in vars {
        var r: nat, c: nat :| Cell(n, line, r, c) && r < row && w == VarIndex(n, r, c);
        assert Cell(n, line, r, c) && r < row + 1 && w == VarIndex(n, r, c);
      }
    }
  }

  /// Or none.
  lemma ListsNoMore(n: nat, line: Line, vars: seq<nat>, row: nat)
    requires ListsBelow(n, line, vars, row) && forall c: nat :: !Cell(n, line, row, c)
    ensures ListsBelow(n, line, vars, row + 1)
  {
    hide VarIndex;
    forall w ensures w in vars <==> VarOf(n, line, row + 1, w) {
      if w in vars {
        var r: nat, c: nat :| Cell(n, line, r, c) && r < row && w == VarIndex(n, r, c);
        assert Cell(n, line, r, c) && r < row + 1 && w == VarIndex(n, r, c);
      }
    }
  }

  lemma NoRows(n: nat, line: Line)
    ensures ListsBelow(n, line, [], 0)
  {
  }

  method ColVars(n: nat, col: nat) returns (vars: seq<nat>)
    requires col < n
    ensures Lists(n, Col(col), vars)
  {
    hide VarIndex, VarOf;
    vars := [];
    NoRows(n, Col(col));
    for row := 0 to n
      invariant ListsBelow(n, Col(col), vars, row)
    {
      ListsOneMore(n, Col(col), vars, row, col);
      vars := vars + [VarIndex(n, row, col)];
    }
  }

  method DiagVars(n: nat, diag: int) returns (vars: seq<nat>)
    ensures Lists(n, Diag(diag), vars)
  {
    hide VarIndex, VarOf;
    vars := [];
    NoRows(n, Diag(diag));
    for row := 0 to n
      invariant ListsBelow(n, Diag(diag), vars, row)
    {
      var col := row - diag;
      if col >= 0 && col < n {
        ListsOneMore(n, Diag(diag), vars, row, col);
        vars := vars + [VarIndex(n, row, col)];
      } else {
        ListsNoMore(n, Diag(diag), vars, row);
      }
    }
  }

  method AntiDiagVars(n: nat, sum: nat) returns (vars: seq<nat>)
    ensures Lists(n, Anti(sum), vars)
  {
    hide VarIndex, VarOf;
    vars := [];
    NoRows(n, Anti(sum));
    for row := 0 to n
      invariant ListsBelow(n, Anti(sum), vars, row)
    {
      if sum >= row && sum - row < n {
        ListsOneMore(n, Anti(sum), vars, row, sum - row);
        vars := vars + [VarIndex(n, row, sum - row)];
      } else {
        ListsNoMore(n, Anti(sum), vars, row);
      }
    }
  }

  method RowVars(n: nat, row: nat) returns (vars: seq<nat>)
    requires row < n
    ensures Lists(n, Row(row), vars) && |vars| == n
  {
    vars := [];
    for col := 0 to n
      invariant |vars| == col && forall i :: 0 <= i < col ==> vars[i] == VarIndex(n, row, i)
    {
      vars := vars + [VarIndex(n, row, col)];
    }
    RowIsListed(n, row, vars);
  }

  lemma RowIsListed(n: nat, row: nat, vars: seq<nat>)
    requires row < n && |vars| == n && forall i :: 0 <= i < n ==> vars[i] == VarIndex(n, row, i)
    ensures Lists(n, Row(row), vars)
  {
    forall v ensures v in vars <==> VarOf(n, Row(row), n, v) {
      if v in vars {
        var i :| 0 <= i < n && vars[i] == v;
        assert Cell(n, Row(row), row, i) && row < n && v == VarIndex(n, row, i);
      }
      if VarOf(n, Row(row), n, v) {
        var r: nat, c: nat :| Cell(n, Row(row), r, c) && r < n && v == VarIndex(n, r, c);
        assert vars[c] == v;
      }
    }
  }

  // ---------- Constraints on variables ----------

  predicate Fit(vars: seq<nat>, numVars: nat) {
    forall i :: 0 <= i < |vars| ==> vars[i] < numVars
  }

  ghost predicate AtMost(vars: seq<nat>, a: Assignment) {
    forall i, j :: 0 <= i < j < |vars| ==> !(vars[i] in a && vars[j] in a)
  }

  ghost predicate AtLeast(vars: seq<nat>, a: Assignment) {
    exists i :: 0 <= i < |vars| && vars[i] in a
  }

  /// The pairs that the two nested loops of `at_most_one` have been through.
  ghost predicate AtMostUpTo(vars: seq<nat>, a: Assignment, i: nat, j: nat) {
    forall x, y :: 0 <= x < y < |vars| && (x < i || (x == i && y < j)) ==> !(vars[x] in a && vars[y] in a)
  }

  ghost function AtMostFn(vars: seq<nat>): iset<Assignment> {
    iset a: Assignment | AtMost(vars, a)
  }

  ghost function AtLeastFn(vars: seq<nat>): iset<Assignment> {
    iset a: Assignment | AtLeast(vars, a)
  }

  ghost function AtMostUpToFn(vars: seq<nat>, i: nat, j: nat): iset<Assignment> {
    iset a: Assignment | AtMostUpTo(vars, a, i, j)
  }

  lemma AtMostEnds(vars: seq<nat>)
    ensures |vars| < 2 ==> AtMostFn(vars) == Always()
    ensures AtMostUpToFn(vars, 0, 1) == Always()
    ensures |vars| >= 2 ==> AtMostUpToFn(vars, |vars| - 1, |vars|) == AtMostFn(vars)
    ensures forall i: nat :: AtMostUpToFn(vars, i, |vars|) == AtMostUpToFn(vars, i + 1, i + 2)
  {
    forall i: nat ensures AtMostUpToFn(vars, i, |vars|) == AtMostUpToFn(vars, i + 1, i + 2) {
      forall a: Assignment ensures AtMostUpTo(vars, a, i, |vars|) <==> AtMostUpTo(vars, a, i + 1, i + 2) {}
    }
    if |vars| >= 2 {
      forall a: Assignment ensures AtMostUpTo(vars, a, |vars| - 1, |vars|) <==> AtMost(vars, a) {}
    }
  }

  lemma AtMostStep(vars: seq<nat>, i: nat, j: nat)
    requires i < j < |vars|
    ensures
      Apply(Conjunction, AtMostUpToFn(vars, i, j),
            Apply(Disjunction, Variable(vars[i], false), Variable(vars[j], false)))
         == AtMostUpToFn(vars, i, j + 1)
  {
  }

  // ---------- The client's references ----------

  /// A node and whether the client holds a reference on it.
  datatype BddRef = BddRef(id: Ptr, refed: bool)

  function Refs(b: BddRef): multiset<Ptr> {
    if b.refed then multiset{b.id} else multiset{}
  }

  /// `b` denotes `f` and is protected: by the client's reference or by the manager's.
  ghost predicate Good(d: Diagram, base: multiset<Ptr>, b: BddRef, f: iset<Assignment>) {
    d.Ok() && b.id in d.g && Denotes(d, b.id) == f && (b.refed || b.id in base)
  }

  lemma GoodSurvives(d: Diagram, e: Diagram, base: multiset<Ptr>, pinned: multiset<Ptr>, b: BddRef, f: iset<Assignment>)
    requires Good(d, base, b, f) && KeepsMeaning(d, e, pinned) && base <= pinned && Refs(b) <= pinned
    ensures Good(e, base, b, f) && b.id in pinned
  {
    assert b.id in base + Refs(b);
  }

  lemma KeepsLess(d: Diagram, e: Diagram, e': Diagram, pinned: multiset<Ptr>, more: multiset<Ptr>)
    requires KeepsMeaning(d, e, pinned) && KeepsMeaning(e, e', more) && pinned <= more
    ensures KeepsMeaning(d, e', pinned)
  {
  }

  /// The outcome of every client method: the books are the ones it started with, plus the result's
  /// reference, and everything referenced at the start means what it meant.
  ghost predicate Outcome(m: Manager, d: Diagram, start: multiset<Ptr>, b: BddRef, f: iset<Assignment>)
    reads m, m.table, m.notCache, m.andCache, m.orCache, m.compCache
    ensures Outcome(m, d, start, b, f) ==> m.Valid()
  {
    && m.Valid() && m.Base() <= start && m.table.pinned == start + Refs(b)
    && Good(m.D(), m.Base(), b, f) && KeepsMeaning(d, m.D(), start)
  }

  /// `if b.refed { manager.deref_bdd(b.id) }`
  method Drop(m: Manager, b: BddRef, ghost rest: multiset<Ptr>)
    requires m.Valid() && m.Base() <= rest && m.table.pinned == rest + Refs(b) && b.id in m.D().g
    modifies m.table`heap, m.table`pinned
    ensures m.Valid() && m.D() == old(m.D()) && m.table.pinned == rest && (old(m.Exact()) ==> m.Exact())
  {
    hide Manager.Consistent, Manager.Exact, TableReady, TableValid, View, WellFormed;
    if b.refed {
      m.DerefBdd(b.id, true);
    }
  }

  /// The conjunction, operands still held.
  method Conjoin(m: Manager, lhs: BddRef, rhs: BddRef, ghost d: Diagram, ghost start: multiset<Ptr>,
      ghost f: iset<Assignment>, ghost g: iset<Assignment>)
    returns (tmp: Ptr)
    requires m.Valid() && start + Refs(lhs) + Refs(rhs) <= m.table.pinned
    requires Good(m.D(), m.Base(), lhs, f) && Good(m.D(), m.Base(), rhs, g) && KeepsMeaning(d, m.D(), start)
    modifies m.table, m.notCache, m.andCache, m.orCache, m.compCache, m`spare, m`guard
    ensures m.Valid() && m.table.pinned == old(m.table.pinned) + multiset{tmp} && (old(m.Exact()) ==> m.Exact())
    ensures KeepsMeaning(d, m.D(), start) && lhs.id in m.D().g && rhs.id in m.D().g
    ensures Good(m.D(), m.Base(), BddRef(tmp, true), Apply(Conjunction, f, g))
  {
    hide Manager.Consistent, Manager.Exact, TableReady, TableValid, View, WellFormed, KeepsMeaning, Denotes, Apply;
    ghost var e, pinned := m.D(), m.table.pinned;
    Protected(m, lhs, f);
    Protected(m, rhs, g);
    tmp := m.And(lhs.id, rhs.id);
    KeepsLess(d, e, m.D(), start, pinned);
    GoodSurvives(e, m.D(), m.Base(), pinned, lhs, f);
    GoodSurvives(e, m.D(), m.Base(), pinned, rhs, g);
  }

  /// `and_inplace`: both operands are used up.
  method AndInplace(m: Manager, lhs: BddRef, rhs: BddRef, ghost d: Diagram, ghost start: multiset<Ptr>,
      ghost f: iset<Assignment>, ghost g: iset<Assignment>)
    returns (r: BddRef)
    requires m.Valid() && m.Base() <= start && m.table.pinned == start + Refs(lhs) + Refs(rhs)
    requires Good(m.D(), m.Base(), lhs, f) && Good(m.D(), m.Base(), rhs, g) && KeepsMeaning(d, m.D(), start)
    modifies m.table, m.notCache, m.andCache, m.orCache, m.compCache, m`spare, m`guard
    ensures Outcome(m, d, start, r, Apply(Conjunction, f, g)) && r.refed && (old(m.Exact()) ==> m.Exact())
  {
    hide Manager.Consistent, Manager.Exact, TableReady, TableValid, View, WellFormed, KeepsMeaning, Denotes, Apply,
         Refs;
    var tmp := Conjoin(m, lhs, rhs, d, start, f, g);
    ghost var last := Refs(BddRef(tmp, true));
    assert last == multiset{tmp} by { OneRef(tmp); }
    assert m.table.pinned == (start + Refs(rhs) + last) + Refs(lhs);
    Drop(m, lhs, start + Refs(rhs) + last);
    assert m.table.pinned == (start + last) + Refs(rhs);
    Drop(m, rhs, start + last);
    r := BddRef(tmp, true);
  }

  lemma OneRef(p: Ptr)
    ensures Refs(BddRef(p, true)) == multiset{p} && Refs(BddRef(p, false)) == multiset{}
  {
  }

  lemma Protected(m: Manager, b: BddRef, f: iset<Assignment>)
    requires m.Valid() && Good(m.D(), m.Base(), b, f) && Refs(b) <= m.table.pinned
    ensures b.id in m.table.pinned && m.Base() <= m.table.pinned
  {
    m.BaseIsPinned();
    assert b.id in m.Base() + Refs(b);
  }

  /// At the start nothing has happened.
  lemma OutcomeStarts(m: Manager, p: Ptr, f: iset<Assignment>)
    requires m.Valid() && p in m.Base() && p in m.D().g && Denotes(m.D(), p) == f
    ensures Outcome(m, m.D(), m.table.pinned, BddRef(p, false), f)
  {
    hide TableReady, TableValid, WellFormed;
    m.BaseIsPinned();
    m.PinnedAreThere();
    NothingKeepsMeaning(m.D(), m.table.pinned);
  }

  /// What a protected node meant at the start it means now, and the other way round.
  lemma GoodThroughout(m: Manager, d: Diagram, start: multiset<Ptr>, acc: BddRef, f: iset<Assignment>, p: Ptr,
      g: iset<Assignment>)
    requires Outcome(m, d, start, acc, f) && p in m.Base()
    ensures Good(d, m.Base(), BddRef(p, false), g) <==> Good(m.D(), m.Base(), BddRef(p, false), g)
  {
    hide Manager.Consistent;
    assert p in start;
  }

  /// `manager.or(ni, nj)`, conjoined to the accumulator.
  method AddClause(m: Manager, acc: BddRef, ni: Ptr, nj: Ptr, ghost d: Diagram, ghost start: multiset<Ptr>,
      ghost f: iset<Assignment>, ghost g: iset<Assignment>, ghost h: iset<Assignment>)
    returns (r: BddRef)
    requires Outcome(m, d, start, acc, f) && Good(m.D(), m.Base(), BddRef(ni, false), g)
    requires Good(m.D(), m.Base(), BddRef(nj, false), h)
    modifies m.table, m.notCache, m.andCache, m.orCache, m.compCache, m`spare, m`guard
    ensures Outcome(m, d, start, r, Apply(Conjunction, f, Apply(Disjunction, g, h))) && (old(m.Exact()) ==> m.Exact())
  {
    hide Manager.Consistent, Manager.Exact, TableReady, TableValid, View, WellFormed, KeepsMeaning, Denotes, Apply;
    ghost var e, pinned := m.D(), m.table.pinned;
    Protected(m, BddRef(ni, false), g);
    Protected(m, BddRef(nj, false), h);
    Protected(m, acc, f);
    var clause := m.Or(ni, nj);
    KeepsLess(d, e, m.D(), start, pinned);
    GoodSurvives(e, m.D(), m.Base(), pinned, acc, f);
    r := AndInplace(m, acc, BddRef(clause, true), d, start, f, Apply(Disjunction, g, h));
  }

  /// `at_most_one`
  method AtMostOne(m: Manager, vars: seq<nat>) returns (acc: BddRef)
    requires m.Valid() && Fit(vars, m.numVars)
    modifies m.table, m.notCache, m.andCache, m.orCache, m.compCache, m`spare, m`guard
    ensures Outcome(m, old(m.D()), old(m.table.pinned), acc, AtMostFn(vars)) && (old(m.Exact()) ==> m.Exact())
  {
    hide Manager.Consistent, Manager.Exact, TableReady, TableValid, View, WellFormed, Outcome, Good, Denotes, AtMostFn,
         AtMostUpToFn, Apply;
    ghost var d, start := m.D(), m.table.pinned;
    AtMostEnds(vars);
    var t := m.GetTrue();
    OutcomeStarts(m, t, Always());
    acc := BddRef(t, false);
    if |vars| < 2 {
      return;
    }
    for i := 0 to |vars| - 1
      invariant Outcome(m, d, start, acc, AtMostUpToFn(vars, i, i + 1)) && (old(m.Exact()) ==> m.Exact())
    {
      acc := AddClauses(m, vars, i, acc, d, start);
    }
  }

  /// The inner loop of `at_most_one`.
  method AddClauses(m: Manager, vars: seq<nat>, i: nat, before: BddRef, ghost d: Diagram, ghost start: multiset<Ptr>)
    returns (acc: BddRef)
    requires Outcome(m, d, start, before, AtMostUpToFn(vars, i, i + 1)) && i < |vars| && Fit(vars, m.numVars)
    modifies m.table, m.notCache, m.andCache, m.orCache, m.compCache, m`spare, m`guard
    ensures Outcome(m, d, start, acc, AtMostUpToFn(vars, i + 1, i + 2)) && (old(m.Exact()) ==> m.Exact())
  {
    hide Manager.Consistent, Manager.Exact, TableReady, TableValid, View, WellFormed, Denotes, AtMostFn, AtMostUpToFn,
         Apply, KeepsMeaning, Outcome;
    AtMostEnds(vars);
    acc := before;
    ghost var f := Variable(vars[i], false);
    var ni := m.GetNvar(vars[i]);
    GoodThroughout(m, d, start, acc, AtMostUpToFn(vars, i, i + 1), ni, f);
    for j := i + 1 to |vars|
      invariant Outcome(m, d, start, acc, AtMostUpToFn(vars, i, j)) && Good(d, m.Base(), BddRef(ni, false), f)
      invariant old(m.Exact()) ==> m.Exact()
    {
      GoodThroughout(m, d, start, acc, AtMostUpToFn(vars, i, j), ni, f);
      var nj := m.GetNvar(vars[j]);
      AtMostStep(vars, i, j);
      acc := AddClause(m, acc, ni, nj, d, start, AtMostUpToFn(vars, i, j), f, Variable(vars[j], false));
    }
  }

  lemma AtLeastStep(vars: seq<nat>, k: nat)
    requires k < |vars|
    ensures Apply(Disjunction, AtLeastFn(vars[..k]), Variable(vars[k], true)) == AtLeastFn(vars[..k + 1])
    ensures k == 0 ==> Variable(vars[0], true) == AtLeastFn(vars[..1])
  {
    forall a: Assignment ensures (AtLeast(vars[..k], a) || vars[k] in a) <==> AtLeast(vars[..k + 1], a) {
      if AtLeast(vars[..k], a) {
        var i :| 0 <= i < k && vars[..k][i] in a;
        assert vars[..k + 1][i] in a;
      }
      if vars[k] in a { assert vars[..k + 1][k] in a; }
      if AtLeast(vars[..k + 1], a) {
        var i :| 0 <= i < k + 1 && vars[..k + 1][i] in a;
        assert i < k ==> vars[..k][i] in a;
      }
    }
  }

  /// The disjunction, the accumulator still held.
  method Disjoin(m: Manager, acc: BddRef, p: Ptr, ghost d: Diagram, ghost start: multiset<Ptr>,
      ghost f: iset<Assignment>, ghost g: iset<Assignment>)
    returns (tmp: Ptr)
    requires Outcome(m, d, start, acc, f) && Good(m.D(), m.Base(), BddRef(p, false), g)
    modifies m.table, m.notCache, m.andCache, m.orCache, m.compCache, m`spare, m`guard
    ensures m.Valid() && m.table.pinned == old(m.table.pinned) + multiset{tmp} && (old(m.Exact()) ==> m.Exact())
    ensures KeepsMeaning(d, m.D(), start) && acc.id in m.D().g
    ensures Good(m.D(), m.Base(), BddRef(tmp, true), Apply(Disjunction, f, g))
  {
    hide Manager.Consistent, Manager.Exact, TableReady, TableValid, View, WellFormed, KeepsMeaning, Denotes, Apply;
    ghost var e, pinned := m.D(), m.table.pinned;
    Protected(m, acc, f);
    Protected(m, BddRef(p, false), g);
    tmp := m.Or(acc.id, p);
    KeepsLess(d, e, m.D(), start, pinned);
    GoodSurvives(e, m.D(), m.Base(), pinned, acc, f);
  }

  /// The loop body of `or_vars`.
  method OrInto(m: Manager, acc: BddRef, v: nat, ghost d: Diagram, ghost start: multiset<Ptr>,
      ghost f: iset<Assignment>) returns (r: BddRef)
    requires Outcome(m, d, start, acc, f) && v < m.numVars
    modifies m.table, m.notCache, m.andCache, m.orCache, m.compCache, m`spare, m`guard
    ensures Outcome(m, d, start, r, Apply(Disjunction, f, Variable(v, true))) && (old(m.Exact()) ==> m.Exact())
  {
    hide Manager.Consistent, Manager.Exact, TableReady, TableValid, View, WellFormed, KeepsMeaning, Denotes, Apply,
         Refs, Variable;
    var p := m.GetVar(v);
    var tmp := Disjoin(m, acc, p, d, start, f, Variable(v, true));
    ghost var last := Refs(BddRef(tmp, true));
    assert last == multiset{tmp} by { OneRef(tmp); }
    assert m.table.pinned == (start + last) + Refs(acc);
    Drop(m, acc, start + last);
    r := BddRef(tmp, true);
  }

  /// `or_vars`, which indexes the first variable.
  method OrVars(m: Manager, vars: seq<nat>) returns (acc: BddRef)
    requires m.Valid() && vars != [] && Fit(vars, m.numVars)
    modifies m.table, m.notCache, m.andCache, m.orCache, m.compCache, m`spare, m`guard
    ensures Outcome(m, old(m.D()), old(m.table.pinned), acc, AtLeastFn(vars)) && (old(m.Exact()) ==> m.Exact())
  {
    hide Manager.Consistent, Manager.Exact, TableReady, TableValid, View, WellFormed, Outcome, Good, Denotes, AtLeastFn,
         Apply;
    ghost var d, start := m.D(), m.table.pinned;
    var p := m.GetVar(vars[0]);
    OutcomeStarts(m, p, Variable(vars[0], true));
    AtLeastStep(vars, 0);
    acc := BddRef(p, false);
    for k := 1 to |vars|
      invariant Outcome(m, d, start, acc, AtLeastFn(vars[..k])) && (old(m.Exact()) ==> m.Exact())
    {
      AtLeastStep(vars, k);
      acc := OrInto(m, acc, vars[k], d, start, AtLeastFn(vars[..k]));
    }
    assert vars[..|vars|] == vars;
  }

  /// `exactly_one`
  method ExactlyOne(m: Manager, vars: seq<nat>) returns (r: BddRef)
    requires m.Valid() && vars != [] && Fit(vars, m.numVars)
    modifies m.table, m.notCache, m.andCache, m.orCache, m.compCache, m`spare, m`guard
    ensures Outcome(m, old(m.D()), old(m.table.pinned), r, Apply(Conjunction, AtLeastFn(vars), AtMostFn(vars)))
    ensures (old(m.Exact()) ==> m.Exact())
  {
    hide Manager.Consistent, Manager.Exact, TableReady, TableValid, View, WellFormed, KeepsMeaning, Denotes, AtLeastFn,
         AtMostFn, Apply;
    ghost var d, start := m.D(), m.table.pinned;
    var atLeast := OrVars(m, vars);
    ghost var e, pinned := m.D(), m.table.pinned;
    var atMost := AtMostOne(m, vars);
    KeepsLess(d, e, m.D(), start, pinned);
    GoodSurvives(e, m.D(), m.Base(), pinned, atLeast, AtLeastFn(vars));
    r := AndInplace(m, atLeast, atMost, d, start, AtLeastFn(vars), AtMostFn(vars));
  }

  // ---------- The encoding ----------

  ghost predicate SomeQueen(n: nat, line: Line, a: Assignment) {
    exists row: nat, col: nat :: Cell(n, line, row, col) && Queen(n, a, row, col)
  }

  ghost predicate NoTwoQueens(n: nat, line: Line, a: Assignment) {
    forall r: nat, c: nat, r': nat, c': nat ::
      Cell(n, line, r, c) && Cell(n, line, r', c') && Queen(n, a, r, c) && Queen(n, a, r', c') ==> r == r' && c == c'
  }

  ghost predicate Meets(n: nat, line: Line, a: Assignment) {
    NoTwoQueens(n, line, a) && (line.Row? ==> SomeQueen(n, line, a))
  }

  ghost predicate RowTaken(n: nat, a: Assignment, r: nat) {
    exists c: nat :: c < n && Queen(n, a, r, c)
  }

  /// One queen in every row, and no two in the same row, column, diagonal or anti-diagonal.
  ghost predicate Placement(n: nat, a: Assignment) {
    && (forall r: nat :: r < n ==> RowTaken(n, a, r))
    && (forall r: nat, c: nat, r': nat, c': nat ::
          r < n && c < n && r' < n && c' < n && Queen(n, a, r, c) && Queen(n, a, r', c') && (r != r' || c != c') ==>
            r != r' && c != c' && r - c != r' - c' && r + c != r' + c')
  }

  ghost function LineFn(n: nat, line: Line): iset<Assignment> {
    iset a: Assignment | Meets(n, line, a)
  }

  ghost predicate MeetsAll(n: nat, lines: seq<Line>, a: Assignment) {
    forall i :: 0 <= i < |lines| ==> Meets(n, lines[i], a)
  }

  ghost function AllFn(n: nat, lines: seq<Line>): iset<Assignment> {
    iset a: Assignment | MeetsAll(n, lines, a)
  }

  lemma ListedAtMost(n: nat, line: Line, vars: seq<nat>, a: Assignment)
    requires Lists(n, line, vars)
    ensures AtMost(vars, a) <==> NoTwoQueens(n, line, a)
  {
    if AtMost(vars, a) {
      forall r: nat, c: nat, r': nat, c': nat |
        Cell(n, line, r, c) && Cell(n, line, r', c') && Queen(n, a, r, c) && Queen(n, a, r', c')
        ensures r == r' && c == c'
      {
        assert VarOf(n, line, n, VarIndex(n, r, c)) && VarOf(n, line, n, VarIndex(n, r', c'));
        var i :| 0 <= i < |vars| && vars[i] == VarIndex(n, r, c);
        var j :| 0 <= j < |vars| && vars[j] == VarIndex(n, r', c');
        assert i == j;
        VarIndexInjective(n, r, c, r', c');
      }
    }
    if NoTwoQueens(n, line, a) {
      forall i, j | 0 <= i < j < |vars| ensures !(vars[i] in a && vars[j] in a) {
        assert VarOf(n, line, n, vars[i]) && VarOf(n, line, n, vars[j]);
        var r: nat, c: nat :| Cell(n, line, r, c) && r < n && vars[i] == VarIndex(n, r, c);
        var r': nat, c': nat :| Cell(n, line, r', c') && r' < n && vars[j] == VarIndex(n, r', c');
        assert vars[i] in a && vars[j] in a ==> Queen(n, a, r, c) && Queen(n, a, r', c');
      }
    }
  }

  lemma ListedAtLeast(n: nat, line: Line, vars: seq<nat>, a: Assignment)
    requires Lists(n, line, vars)
    ensures AtLeast(vars, a) <==> SomeQueen(n, line, a)
  {
    hide VarIndex;
    if AtLeast(vars, a) {
      var i :| 0 <= i < |vars| && vars[i] in a;
      assert VarOf(n, line, n, vars[i]);
      var r: nat, c: nat :| Cell(n, line, r, c) && r < n && vars[i] == VarIndex(n, r, c);
      assert Cell(n, line, r, c) && Queen(n, a, r, c);
    }
    if SomeQueen(n, line, a) {
      var r: nat, c: nat :| Cell(n, line, r, c) && Queen(n, a, r, c);
      assert VarOf(n, line, n, VarIndex(n, r, c));
      var i :| 0 <= i < |vars| && vars[i] == VarIndex(n, r, c);
      assert vars[i] in a;
    }
  }

  /// What the client builds for a line is the line's constraint.
  lemma LineIsBuilt(n: nat, line: Line, vars: seq<nat>)
    requires Lists(n, line, vars)
    ensures line.Row? ==> Apply(Conjunction, AtLeastFn(vars), AtMostFn(vars)) == LineFn(n, line)
    ensures !line.Row? ==> AtMostFn(vars) == LineFn(n, line)
  {
    hide Lists, NoTwoQueens, SomeQueen, AtMost, AtLeast;
    forall a: Assignment
      ensures (AtMost(vars, a) <==> NoTwoQueens(n, line, a)) && (AtLeast(vars, a) <==> SomeQueen(n, line, a))
    {
      ListedAtMost(n, line, vars, a);
      ListedAtLeast(n, line, vars, a);
    }
  }

  lemma OneMoreLine(n: nat, lines: seq<Line>, line: Line)
    ensures Apply(Conjunction, AllFn(n, lines), LineFn(n, line)) == AllFn(n, lines + [line])
    ensures LineFn(n, line) == Always() ==> AllFn(n, lines) == AllFn(n, lines + [line])
  {
    hide Meets;
    var more := lines + [line];
    forall a: Assignment ensures a in AllFn(n, more) <==> a in AllFn(n, lines) && a in LineFn(n, line) {
      if a in AllFn(n, more) {
        forall i | 0 <= i < |lines| ensures Meets(n, lines[i], a) { assert more[i] == lines[i]; }
        assert more[|lines|] == line;
      }
    }
    if LineFn(n, line) == Always() {
      forall a: Assignment ensures a in LineFn(n, line) { assert a in Always(); }
    }
  }

  /// All rows, columns, diagonals and anti-diagonals of the board.
  ghost predicate Complete(n: nat, lines: seq<Line>) {
    && (forall r: nat :: r < n ==> Row(r) in lines)
    && (forall c: nat :: c < n ==> Col(c) in lines)
    && (forall d: int :: d < n && -d < n ==> Diag(d) in lines)
    && (forall s: nat :: s < 2 * n - 1 ==> Anti(s) in lines)
  }

  ghost predicate RowsExist(n: nat, lines: seq<Line>) {
    forall i :: 0 <= i < |lines| && lines[i].Row? ==> lines[i].r < n
  }

  lemma PlacementMeets(n: nat, line: Line, a: Assignment)
    requires Placement(n, a) && (line.Row? ==> line.r < n)
    ensures Meets(n, line, a)
  {
    hide VarIndex;
    if line.Row? {
      assert RowTaken(n, a, line.r);
      var c: nat :| c < n && Queen(n, a, line.r, c);
      assert Cell(n, line, line.r, c);
    }
  }

  lemma OneQueenOnLine(n: nat, line: Line, a: Assignment, r: nat, c: nat, r': nat, c': nat)
    requires Meets(n, line, a) && Cell(n, line, r, c) && Cell(n, line, r', c')
    requires Queen(n, a, r, c) && Queen(n, a, r', c')
    ensures r == r' && c == c'
  {
  }

  lemma MeetingIsPlacement(n: nat, lines: seq<Line>, a: Assignment)
    requires Complete(n, lines) && MeetsAll(n, lines, a)
    ensures Placement(n, a)
  {
    hide VarIndex;
    assert forall line :: line in lines ==> Meets(n, line, a);
    forall r: nat | r < n ensures RowTaken(n, a, r) {
      assert Meets(n, Row(r), a);
      var r': nat, c: nat :| Cell(n, Row(r), r', c) && Queen(n, a, r', c);
      assert c < n && Queen(n, a, r, c);
    }
    forall r: nat, c: nat, r': nat, c': nat |
      && r < n && c < n && r' < n && c' < n && Queen(n, a, r, c) && Queen(n, a, r', c')
      && (r != r' || c != c')
      ensures r != r' && c != c' && r - c != r' - c' && r + c != r' + c'
    {
      if r == r' { OneQueenOnLine(n, Row(r), a, r, c, r', c'); }
      if c == c' { OneQueenOnLine(n, Col(c), a, r, c, r', c'); }
      if r - c == r' - c' { OneQueenOnLine(n, Diag(r - c), a, r, c, r', c'); }
      if r + c == r' + c' { OneQueenOnLine(n, Anti(r + c), a, r, c, r', c'); }
    }
  }

  ghost function QueensFn(n: nat): iset<Assignment> {
    iset a: Assignment | Placement(n, a)
  }

  lemma CompleteIsQueens(n: nat, lines: seq<Line>)
    requires Complete(n, lines) && RowsExist(n, lines)
    ensures AllFn(n, lines) == QueensFn(n)
  {
    hide Placement, Meets, Complete;
    forall a: Assignment ensures a in AllFn(n, lines) <==> a in QueensFn(n) {
      if a in AllFn(n, lines) { MeetingIsPlacement(n, lines, a); }
      if Placement(n, a) {
        forall i | 0 <= i < |lines| ensures Meets(n, lines[i], a) { PlacementMeets(n, lines[i], a); }
      }
    }
  }

  // ---------- The client ----------

  lemma LinesFit(n: nat, line: Line, vars: seq<nat>)
    requires Lists(n, line, vars)
    ensures Fit(vars, n * n)
  {
    forall i | 0 <= i < |vars| ensures vars[i] < n * n {
      assert VarOf(n, line, n, vars[i]);
      var r: nat, c: nat :| Cell(n, line, r, c) && r < n && vars[i] == VarIndex(n, r, c);
      VarIndexFits(n, r, c);
    }
  }

  /// A constraint built while the accumulator is held, and conjoined to it.
  method AddLine(m: Manager, acc: BddRef, vars: seq<nat>, n: nat, line: Line, ghost d: Diagram,
      ghost start: multiset<Ptr>, ghost lines: seq<Line>) returns (r: BddRef)
    requires Outcome(m, d, start, acc, AllFn(n, lines)) && Lists(n, line, vars) && m.numVars >= n * n
    requires (line.Row? ==> vars != [])
    modifies m.table, m.notCache, m.andCache, m.orCache, m.compCache, m`spare, m`guard
    ensures Outcome(m, d, start, r, AllFn(n, lines + [line])) && r.refed && (old(m.Exact()) ==> m.Exact())
  {
    hide Manager.Consistent, Manager.Exact, TableReady, TableValid, View, WellFormed, KeepsMeaning, Denotes, AtLeastFn,
         AtMostFn, AllFn, LineFn, Apply, Lists;
    LinesFit(n, line, vars);
    LineIsBuilt(n, line, vars);
    OneMoreLine(n, lines, line);
    ghost var e, pinned := m.D(), m.table.pinned;
    var constraint;
    if line.Row? {
      constraint := ExactlyOne(m, vars);
    } else {
      constraint := AtMostOne(m, vars);
    }
    KeepsLess(d, e, m.D(), start, pinned);
    GoodSurvives(e, m.D(), m.Base(), pinned, acc, AllFn(n, lines));
    r := AndInplace(m, acc, constraint, d, start, AllFn(n, lines), LineFn(n, line));
  }

  /// A line of fewer than two cells constrains nothing, and is skipped.
  lemma ShortLine(n: nat, line: Line, vars: seq<nat>, lines: seq<Line>)
    requires Lists(n, line, vars) && |vars| < 2 && !line.Row?
    ensures AllFn(n, lines) == AllFn(n, lines + [line])
  {
    LineIsBuilt(n, line, vars);
    AtMostEnds(vars);
    OneMoreLine(n, lines, line);
  }

  method AddRows(m: Manager, n: nat, before: BddRef, ghost d: Diagram, ghost start: multiset<Ptr>,
      ghost given: seq<Line>) returns (acc: BddRef, ghost lines: seq<Line>)
    requires Outcome(m, d, start, before, AllFn(n, given)) && m.numVars >= n * n && n >= 1 && RowsExist(n, given)
    modifies m.table, m.notCache, m.andCache, m.orCache, m.compCache, m`spare, m`guard
    ensures Outcome(m, d, start, acc, AllFn(n, lines)) && acc.refed && (old(m.Exact()) ==> m.Exact())
    ensures RowsExist(n, lines) && given <= lines && forall r: nat :: r < n ==> Row(r) in lines
  {
    hide Manager.Consistent, Manager.Exact, TableReady, TableValid, View, WellFormed, Outcome, AllFn, Lists;
    acc, lines := before, given;
    for row := 0 to n
      invariant Outcome(m, d, start, acc, AllFn(n, lines)) && (old(m.Exact()) ==> m.Exact())
      invariant RowsExist(n, lines) && given <= lines && (row > 0 ==> acc.refed)
      invariant forall r: nat :: r < row ==> Row(r) in lines
    {
      var vars := RowVars(n, row);
      acc := AddLine(m, acc, vars, n, Row(row), d, start, lines);
      lines := lines + [Row(row)];
    }
  }

  method AddCols(m: Manager, n: nat, before: BddRef, ghost d: Diagram, ghost start: multiset<Ptr>,
      ghost given: seq<Line>) returns (acc: BddRef, ghost lines: seq<Line>)
    requires Outcome(m, d, start, before, AllFn(n, given)) && m.numVars >= n * n && n >= 1 && RowsExist(n, given)
    requires before.refed
    modifies m.table, m.notCache, m.andCache, m.orCache, m.compCache, m`spare, m`guard
    ensures Outcome(m, d, start, acc, AllFn(n, lines)) && acc.refed && (old(m.Exact()) ==> m.Exact())
    ensures RowsExist(n, lines) && given <= lines && forall c: nat :: c < n ==> Col(c) in lines
  {
    hide Manager.Consistent, Manager.Exact, TableReady, TableValid, View, WellFormed, Outcome, AllFn, Lists;
    acc, lines := before, given;
    for col := 0 to n
      invariant Outcome(m, d, start, acc, AllFn(n, lines)) && (old(m.Exact()) ==> m.Exact())
      invariant RowsExist(n, lines) && given <= lines && acc.refed && forall c: nat :: c < col ==> Col(c) in lines
    {
      var vars := ColVars(n, col);
      acc := AddLine(m, acc, vars, n, Col(col), d, start, lines);
      lines := lines + [Col(col)];
    }
  }

  method AddDiags(m: Manager, n: nat, before: BddRef, ghost d: Diagram, ghost start: multiset<Ptr>,
      ghost given: seq<Line>) returns (acc: BddRef, ghost lines: seq<Line>)
    requires Outcome(m, d, start, before, AllFn(n, given)) && m.numVars >= n * n && n >= 1 && RowsExist(n, given)
    requires before.refed
    modifies m.table, m.notCache, m.andCache, m.orCache, m.compCache, m`spare, m`guard
    ensures Outcome(m, d, start, acc, AllFn(n, lines)) && acc.refed && (old(m.Exact()) ==> m.Exact())
    ensures RowsExist(n, lines) && given <= lines && forall k: int :: k < n && -k < n ==> Diag(k) in lines
  {
    hide Manager.Consistent, Manager.Exact, TableReady, TableValid, View, WellFormed, Outcome, AllFn, Lists;
    acc, lines := before, given;
    for diag := 1 - n to n
      invariant Outcome(m, d, start, acc, AllFn(n, lines)) && (old(m.Exact()) ==> m.Exact())
      invariant RowsExist(n, lines) && given <= lines && acc.refed
      invariant forall k: int :: k < diag && -k < n ==> Diag(k) in lines
    {
      var vars := DiagVars(n, diag);
      if |vars| >= 2 {
        acc := AddLine(m, acc, vars, n, Diag(diag), d, start, lines);
      } else {
        ShortLine(n, Diag(diag), vars, lines);
      }
      lines := lines + [Diag(diag)];
    }
  }

  method AddAntiDiags(m: Manager, n: nat, before: BddRef, ghost d: Diagram, ghost start: multiset<Ptr>,
      ghost given: seq<Line>) returns (acc: BddRef, ghost lines: seq<Line>)
    requires Outcome(m, d, start, before, AllFn(n, given)) && m.numVars >= n * n && n >= 1 && RowsExist(n, given)
    requires before.refed
    modifies m.table, m.notCache, m.andCache, m.orCache, m.compCache, m`spare, m`guard
    ensures Outcome(m, d, start, acc, AllFn(n, lines)) && acc.refed && (old(m.Exact()) ==> m.Exact())
    ensures RowsExist(n, lines) && given <= lines && forall s: nat :: s < 2 * n - 1 ==> Anti(s) in lines
  {
    hide Manager.Consistent, Manager.Exact, TableReady, TableValid, View, WellFormed, Outcome, AllFn, Lists;
    acc, lines := before, given;
    for sum := 0 to 2 * n - 1
      invariant Outcome(m, d, start, acc, AllFn(n, lines)) && (old(m.Exact()) ==> m.Exact())
      invariant RowsExist(n, lines) && given <= lines && acc.refed && forall s: nat :: s < sum ==> Anti(s) in lines
    {
      var vars := AntiDiagVars(n, sum);
      if |vars| >= 2 {
        acc := AddLine(m, acc, vars, n, Anti(sum), d, start, lines);
      } else {
        ShortLine(n, Anti(sum), vars, lines);
      }
      lines := lines + [Anti(sum)];
    }
  }

  lemma NoLines(n: nat)
    ensures AllFn(n, []) == Always()
  {
    forall a: Assignment ensures a in AllFn(n, []) {}
  }

  lemma NothingIsLost(n: nat, rows: seq<Line>, cols: seq<Line>, diags: seq<Line>, all: seq<Line>)
    requires rows <= cols && cols <= diags && diags <= all
    requires (forall r: nat :: r < n ==> Row(r) in rows) && (forall c: nat :: c < n ==> Col(c) in cols)
    requires (forall k: int :: k < n && -k < n ==> Diag(k) in diags)
    requires (forall s: nat :: s < 2 * n - 1 ==> Anti(s) in all)
    ensures Complete(n, all)
  {
  }

  /// The four loops, one after the other.
  method AddAllLines(m: Manager, n: nat, before: BddRef, ghost d: Diagram, ghost start: multiset<Ptr>)
    returns (root: BddRef, ghost all: seq<Line>)
    requires Outcome(m, d, start, before, AllFn(n, [])) && m.numVars >= n * n && n >= 1
    modifies m.table, m.notCache, m.andCache, m.orCache, m.compCache, m`spare, m`guard
    ensures Outcome(m, d, start, root, AllFn(n, all)) && root.refed && (old(m.Exact()) ==> m.Exact())
    ensures RowsExist(n, all) && Complete(n, all)
  {
    hide Manager.Consistent, Manager.Exact, TableReady, TableValid, View, WellFormed, Outcome, AllFn, RowsExist,
         Complete;
    assert RowsExist(n, []) by { NoRowsYet(n); }
    ghost var rows, cols, diags;
    root, rows := AddRows(m, n, before, d, start, []);
    root, cols := AddCols(m, n, root, d, start, rows);
    root, diags := AddDiags(m, n, root, d, start, cols);
    root, all := AddAntiDiags(m, n, root, d, start, diags);
    NothingIsLost(n, rows, cols, diags, all);
  }

  lemma NoRowsYet(n: nat)
    ensures RowsExist(n, [])
  {
  }

  /// `build_n_queens`: the root denotes exactly the solutions, carries the one reference the client
  /// has added, and everything that was referenced before means what it meant.
  method BuildNQueens(m: Manager, n: nat) returns (root: BddRef)
    requires m.Valid() && n >= 1 && m.numVars >= n * n
    modifies m.table, m.notCache, m.andCache, m.orCache, m.compCache, m`spare, m`guard
    ensures m.Valid() && root.refed && root.id in m.D().g && Denotes(m.D(), root.id) == QueensFn(n)
    ensures m.table.pinned == old(m.table.pinned) + multiset{root.id}
    ensures KeepsMeaning(old(m.D()), m.D(), old(m.table.pinned))
    ensures old(m.Exact()) ==> m.Exact()
  {
    hide Manager.Consistent, Manager.Exact, TableReady, TableValid, View, WellFormed, AllFn, QueensFn, Denotes,
         KeepsMeaning, RowsExist, Complete;
    ghost var d, start := m.D(), m.table.pinned;
    var t := m.GetTrue();
    OutcomeStarts(m, t, Always());
    NoLines(n);
    ghost var all;
    root, all := AddAllLines(m, n, BddRef(t, false), d, start);
    CompleteIsQueens(n, all);
  }
}
