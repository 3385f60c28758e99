/// A client's whole session with a manager, against a machine that has no nodes, tables, caches or
/// collections: its handles hold Boolean functions outright.
///
/// `Run` is the refinement theorem: for any command list the client may issue, any table and cache
/// sizes, any hash functions, and whatever other threads do, the answers are the abstract
/// machine's, every live handle denotes the abstract machine's function, and the manager answers
/// for exactly the references the client holds.

module Session {
  import opened Nodes
  import opened Diagrams
  import opened Operations
  import opened BddManager

  /// Handles are numbered in the order they are obtained. `Ref` gives a second, owned handle on a node.
  datatype Command =
    | GetTrue | GetFalse | GetVar(i: nat) | GetNvar(i: nat)
    | Operate(op: Op, x: nat, y: nat)
    | Ref(x: nat) | Deref(x: nat)
    | Gc
    | IsTrue(x: nat) | IsFalse(x: nat) | Same(x: nat, y: nat)

  // ---------- The abstract machine ----------

  /// `owned`: the handle came from an operation, so it carries a reference.
  datatype Meaning = Gone | Known(f: iset<Assignment>, owned: bool)

  datatype Spec = Spec(handles: seq<Meaning>, answers: seq<bool>)

  ghost predicate Usable(s: Spec, x: nat) {
    x < |s.handles| && s.handles[x].Known?
  }

  /// Operands are live, variables exist, and only owned handles are dereferenced.
  ghost predicate Legal(n: nat, s: Spec, c: Command) {
    match c
    case GetVar(i) => i < n
    case GetNvar(i) => i < n
    case Operate(op, x, y) => Usable(s, x) && Usable(s, y)
    case Ref(x) => Usable(s, x)
    case Deref(x) => Usable(s, x) && s.handles[x].owned
    case IsTrue(x) => Usable(s, x)
    case IsFalse(x) => Usable(s, x)
    case Same(x, y) => Usable(s, x) && Usable(s, y)
    case _ => true
  }

  ghost function SpecStep(n: nat, s: Spec, c: Command): Spec
    requires Legal(n, s, c)
  {
    match c
    case GetTrue => s.(handles := s.handles + [Known(Always(), false)])
    case GetFalse => s.(handles := s.handles + [Known(iset{}, false)])
    case GetVar(i) => s.(handles := s.handles + [Known(Variable(i, true), false)])
    case GetNvar(i) => s.(handles := s.handles + [Known(Variable(i, false), false)])
    case Operate(op, x, y) => s.(handles := s.handles + [Known(Apply(op, s.handles[x].f, s.handles[y].f), true)])
    case Ref(x) => s.(handles := s.handles + [Known(s.handles[x].f, true)])
    case Deref(x) => s.(handles := s.handles[x := Gone])
    case Gc => s
    case IsTrue(x) => s.(answers := s.answers + [s.handles[x].f == Always()])
    case IsFalse(x) => s.(answers := s.answers + [s.handles[x].f == iset{}])
    case Same(x, y) => s.(answers := s.answers + [s.handles[x].f == s.handles[y].f])
  }

  ghost predicate LegalRun(n: nat, s: Spec, cs: seq<Command>)
    decreases |cs|
  {
    cs != [] ==> Legal(n, s, cs[0]) && LegalRun(n, SpecStep(n, s, cs[0]), cs[1..])
  }

  ghost function SpecRun(n: nat, s: Spec, cs: seq<Command>): Spec
    requires LegalRun(n, s, cs)
    decreases |cs|
  {
    if cs == [] then s else SpecRun(n, SpecStep(n, s, cs[0]), cs[1..])
  }

  // ---------- The client's side ----------

  datatype Slot = Free | Held(ptr: Ptr, owned: bool)

  /// The reference that goes with a slot.
  function RefOf(slot: Slot): multiset<Ptr> {
    if slot.Held? && slot.owned then multiset{slot.ptr} else multiset{}
  }

  /// The references a client with these slots holds.
  function Refs(slots: seq<Slot>): multiset<Ptr> {
    if slots == [] then multiset{} else Refs(slots[..|slots| - 1]) + RefOf(slots[|slots| - 1])
  }

  lemma RefsUnfold(slots: seq<Slot>)
    requires slots != []
    ensures Refs(slots) == Refs(slots[..|slots| - 1]) + RefOf(slots[|slots| - 1])
  {
  }

  lemma OneLessFirst(refs: multiset<Ptr>, last: multiset<Ptr>, p: Ptr)
    requires p in refs
    ensures refs + last - multiset{p} == refs - multiset{p} + last && p in refs + last
  {
  }

  lemma OneLessLast(refs: multiset<Ptr>, p: Ptr)
    ensures refs + multiset{p} - multiset{p} == refs + multiset{} == refs && p in refs + multiset{p}
  {
  }

  lemma {:induction false} RefsOfFreed(slots: seq<Slot>, x: nat)
    requires x < |slots| && slots[x].Held? && slots[x].owned
    ensures slots[x].ptr in Refs(slots)
    ensures Refs(slots[x := Free]) == Refs(slots) - multiset{slots[x].ptr}
  {
    hide Refs;
    var n := |slots| - 1;
    RefsUnfold(slots);
    RefsUnfold(slots[x := Free]);
    if x < n {
      RefsOfFreed(slots[..n], x);
      assert slots[x := Free][..n] == slots[..n][x := Free];
      OneLessFirst(Refs(slots[..n]), RefOf(slots[n]), slots[x].ptr);
    } else {
      assert slots[x := Free][..n] == slots[..n];
      OneLessLast(Refs(slots[..n]), slots[x].ptr);
    }
  }

  ghost predicate SlotOk(d: Diagram, base: multiset<Ptr>, slot: Slot, a: Meaning)
    requires d.Ok()
  {
    match slot
    case Free => a.Gone?
    case Held(p, owned) => a.Known? && p in d.g && Denotes(d, p) == a.f && owned == a.owned && (owned || p in base)
  }

  /// Slot by slot the concrete and the abstract handles agree.
  ghost predicate SlotsOk(d: Diagram, base: multiset<Ptr>, slots: seq<Slot>, handles: seq<Meaning>) {
    && d.Ok() && |slots| == |handles|
    && forall i :: 0 <= i < |slots| ==> SlotOk(d, base, slots[i], handles[i])
  }

  lemma HeldIsPinned(d: Diagram, base: multiset<Ptr>, slots: seq<Slot>, handles: seq<Meaning>, x: nat)
    requires SlotsOk(d, base, slots, handles) && x < |handles| && handles[x].Known?
    ensures x < |slots| && slots[x].Held? && slots[x].ptr in base + Refs(slots) && slots[x].ptr in d.g
    ensures Denotes(d, slots[x].ptr) == handles[x].f && slots[x].owned == handles[x].owned
  {
    assert SlotOk(d, base, slots[x], handles[x]);
    if slots[x].owned { RefsOfFreed(slots, x); }
  }

  lemma SlotsSurvive(d: Diagram, e: Diagram, base: multiset<Ptr>, slots: seq<Slot>, handles: seq<Meaning>)
    requires SlotsOk(d, base, slots, handles) && KeepsMeaning(d, e, base + Refs(slots))
    ensures SlotsOk(e, base, slots, handles)
  {
    forall i | 0 <= i < |slots| ensures SlotOk(e, base, slots[i], handles[i]) {
      assert SlotOk(d, base, slots[i], handles[i]);
      if slots[i].Held? { HeldIsPinned(d, base, slots, handles, i); }
    }
  }

  lemma SlotAdded(d: Diagram, base: multiset<Ptr>, slots: seq<Slot>, handles: seq<Meaning>, p: Ptr, owned: bool)
    requires SlotsOk(d, base, slots, handles) && p in d.g && (owned || p in base)
    ensures SlotsOk(d, base, slots + [Held(p, owned)], handles + [Known(Denotes(d, p), owned)])
    ensures Refs(slots + [Held(p, owned)]) == Refs(slots) + if owned then multiset{p} else multiset{}
  {
    assert (slots + [Held(p, owned)])[..|slots|] == slots;
  }

  lemma OneLessOver(base: multiset<Ptr>, refs: multiset<Ptr>, p: Ptr)
    requires p in refs
    ensures (base + refs)[p] > base[p] && base + refs - multiset{p} == base + (refs - multiset{p})
  {
  }

  lemma SlotFreed(d: Diagram, base: multiset<Ptr>, slots: seq<Slot>, handles: seq<Meaning>, x: nat)
    requires SlotsOk(d, base, slots, handles) && x < |handles| && slots[x].Held? && slots[x].owned
    ensures SlotsOk(d, base, slots[x := Free], handles[x := Gone])
    ensures var p := slots[x].ptr; var all := base + Refs(slots);
      all[p] > base[p] && all - multiset{p} == base + Refs(slots[x := Free])
  {
    hide Refs, SlotOk;
    RefsOfFreed(slots, x);
    OneLessOver(base, Refs(slots), slots[x].ptr);
    FreeIsGone(d, base);
  }

  lemma FreeIsGone(d: Diagram, base: multiset<Ptr>)
    requires d.Ok()
    ensures SlotOk(d, base, Free, Gone)
  {
  }

  /// The refinement relation.
  ghost predicate Refines(m: Manager, slots: seq<Slot>, answers: seq<bool>, s: Spec)
    reads m, m.table, m.notCache, m.andCache, m.orCache, m.compCache
  {
    && m.Valid() && m.table.pinned == m.Base() + Refs(slots)
    && SlotsOk(m.D(), m.Base(), slots, s.handles) && answers == s.answers
  }

  /// Terminals and variables: the manager holds a node for each.
  method Lookup(m: Manager, c: Command, ghost s: Spec) returns (p: Ptr)
    requires m.Valid() && Legal(m.numVars, s, c) && (c.GetTrue? || c.GetFalse? || c.GetVar? || c.GetNvar?)
    ensures p in m.Base() && p in m.D().g
    ensures SpecStep(m.numVars, s, c) == s.(handles := s.handles + [Known(Denotes(m.D(), p), false)])
  {
    hide Manager.Consistent;
    match c {
      case GetTrue => p := m.GetTrue();
      case GetFalse => p := m.GetFalse();
      case GetVar(i) => p := m.GetVar(i);
      case GetNvar(i) => p := m.GetNvar(i);
    }
  }

  method Obtain(m: Manager, c: Command, slots: seq<Slot>, answers: seq<bool>, ghost s: Spec) returns (slots': seq<Slot>)
    requires Refines(m, slots, answers, s) && Legal(m.numVars, s, c)
    requires c.GetTrue? || c.GetFalse? || c.GetVar? || c.GetNvar?
    ensures Refines(m, slots', answers, SpecStep(m.numVars, s, c))
  {
    hide Manager.Consistent, SlotsOk, Refs, SpecStep, Legal;
    var p := Lookup(m, c, s);
    SlotAdded(m.D(), m.Base(), slots, s.handles, p, false);
    slots' := slots + [Held(p, false)];
  }

  /// The four operations.
  method Perform(m: Manager, op: Op, x: Ptr, y: Ptr) returns (r: Ptr)
    requires m.Valid() && x in m.table.pinned && y in m.table.pinned
    modifies m.table, m.notCache, m.andCache, m.orCache, m.compCache, m`spare, m`guard
    ensures m.Valid() && m.table.pinned == old(m.table.pinned) + multiset{r} && (old(m.Exact()) ==> m.Exact())
    ensures Done(op, old(m.D()), m.D(), old(m.table.pinned), x, y, r)
  {
    match op {
      case Negation => r := m.Not(x); NotIgnoresRight(old(m.D()), m.D(), old(m.table.pinned), x, y, r);
      case Conjunction => r := m.And(x, y);
      case Disjunction => r := m.Or(x, y);
      case Difference => r := m.Comp(x, y);
    }
  }

  lemma NotIgnoresRight(d: Diagram, e: Diagram, pinned: multiset<Ptr>, x: Ptr, y: Ptr, r: Ptr)
    requires Done(Negation, d, e, pinned, x, x, r) && y in pinned
    ensures Done(Negation, d, e, pinned, x, y, r)
  {
  }

  method OperateOn(m: Manager, op: Op, x: nat, y: nat, slots: seq<Slot>, answers: seq<bool>, ghost s: Spec)
    returns (slots': seq<Slot>)
    requires Refines(m, slots, answers, s) && Legal(m.numVars, s, Operate(op, x, y))
    modifies m.table, m.notCache, m.andCache, m.orCache, m.compCache, m`spare, m`guard
    ensures Refines(m, slots', answers, SpecStep(m.numVars, s, Operate(op, x, y))) && (old(m.Exact()) ==> m.Exact())
  {
    hide Manager.Consistent, Manager.Exact, KeepsMeaning, SlotsOk, Refs;
    ghost var d, base := m.D(), m.Base();
    HeldIsPinned(d, base, slots, s.handles, x);
    HeldIsPinned(d, base, slots, s.handles, y);
    var r := Perform(m, op, slots[x].ptr, slots[y].ptr);
    SlotsSurvive(d, m.D(), base, slots, s.handles);
    SlotAdded(m.D(), base, slots, s.handles, r, true);
    slots' := slots + [Held(r, true)];
  }

  /// `ref_bdd`
  method Duplicate(m: Manager, x: nat, slots: seq<Slot>, answers: seq<bool>, ghost s: Spec) returns (slots': seq<Slot>)
    requires Refines(m, slots, answers, s) && Legal(m.numVars, s, Ref(x))
    modifies m.table`heap, m.table`pinned
    ensures Refines(m, slots', answers, SpecStep(m.numVars, s, Ref(x))) && (old(m.Exact()) ==> m.Exact())
  {
    hide Manager.Consistent, Manager.Exact, Refs, SlotsOk;
    HeldIsPinned(m.D(), m.Base(), slots, s.handles, x);
    SlotAdded(m.D(), m.Base(), slots, s.handles, slots[x].ptr, true);
    m.RefBdd(slots[x].ptr);
    slots' := slots + [Held(slots[x].ptr, true)];
  }

  method Release(m: Manager, x: nat, slots: seq<Slot>, answers: seq<bool>, ghost s: Spec) returns (slots': seq<Slot>)
    requires Refines(m, slots, answers, s) && Legal(m.numVars, s, Deref(x))
    modifies m.table`heap, m.table`pinned
    ensures Refines(m, slots', answers, SpecStep(m.numVars, s, Deref(x))) && (old(m.Exact()) ==> m.Exact())
  {
    hide Manager.Consistent, Manager.Exact, Refs, SlotsOk;
    HeldIsPinned(m.D(), m.Base(), slots, s.handles, x);
    SlotFreed(m.D(), m.Base(), slots, s.handles, x);
    m.DerefBdd(slots[x].ptr, true);
    slots' := slots[x := Free];
  }

  method Collect(m: Manager, slots: seq<Slot>, answers: seq<bool>, ghost s: Spec)
    requires Refines(m, slots, answers, s)
    modifies m.table, m.notCache, m.andCache, m.orCache, m.compCache, m`guard
    ensures Refines(m, slots, answers, s) && (old(m.Exact()) ==> m.Exact())
  {
    hide Manager.Consistent, Manager.Exact, Refs, SlotsOk, KeepsMeaning;
    ghost var d := m.D();
    var marked;
    ghost var a;
    marked, a := m.Gc();
    SlotsSurvive(d, m.D(), m.Base(), slots, s.handles);
  }

  /// Testing for a constant, and comparing two handles as pointers.
  method Ask(m: Manager, c: Command, slots: seq<Slot>, answers: seq<bool>, ghost s: Spec) returns (answers': seq<bool>)
    requires Refines(m, slots, answers, s) && Legal(m.numVars, s, c) && (c.IsTrue? || c.IsFalse? || c.Same?)
    ensures Refines(m, slots, answers', SpecStep(m.numVars, s, c))
  {
    hide Manager.Consistent, SlotsOk, Refs;
    HeldIsPinned(m.D(), m.Base(), slots, s.handles, c.x);
    var yes;
    match c {
      case IsTrue(x) => yes := m.IsTrue(slots[x].ptr);
      case IsFalse(x) => yes := m.IsFalse(slots[x].ptr);
      case Same(x, y) =>
        HeldIsPinned(m.D(), m.Base(), slots, s.handles, y);
        Canonical(m.D(), slots[x].ptr, slots[y].ptr);
        yes := slots[x].ptr == slots[y].ptr;
    }
    answers' := answers + [yes];
  }

  method Execute(m: Manager, c: Command, slots: seq<Slot>, answers: seq<bool>, ghost s: Spec)
    returns (slots': seq<Slot>, answers': seq<bool>)
    requires Refines(m, slots, answers, s) && Legal(m.numVars, s, c)
    modifies m.table, m.notCache, m.andCache, m.orCache, m.compCache, m`spare, m`guard
    ensures Refines(m, slots', answers', SpecStep(m.numVars, s, c)) && (old(m.Exact()) ==> m.Exact())
  {
    hide Refines, Manager.Exact;
    slots', answers' := slots, answers;
    match c {
      case Operate(op, x, y) => slots' := OperateOn(m, op, x, y, slots, answers, s);
      case Ref(x) => slots' := Duplicate(m, x, slots, answers, s);
      case Deref(x) => slots' := Release(m, x, slots, answers, s);
      case Gc => Collect(m, slots, answers, s);
      case GetTrue => slots' := Obtain(m, c, slots, answers, s);
      case GetFalse => slots' := Obtain(m, c, slots, answers, s);
      case GetVar(_) => slots' := Obtain(m, c, slots, answers, s);
      case GetNvar(_) => slots' := Obtain(m, c, slots, answers, s);
      case _ => answers' := Ask(m, c, slots, answers, s);
    }
  }

  /// A run of any length refines the abstract machine's run, and keeps the counts exact.
  method Run(m: Manager, cs: seq<Command>, slots: seq<Slot>, answers: seq<bool>, ghost s: Spec)
    returns (slots': seq<Slot>, answers': seq<bool>)
    requires Refines(m, slots, answers, s) && LegalRun(m.numVars, s, cs)
    modifies m.table, m.notCache, m.andCache, m.orCache, m.compCache, m`spare, m`guard
    ensures Refines(m, slots', answers', SpecRun(m.numVars, s, cs)) && (old(m.Exact()) ==> m.Exact())
    decreases |cs|
  {
    hide Refines, Manager.Exact, Legal, SpecStep;
    slots', answers' := slots, answers;
    if cs != [] {
      slots', answers' := Execute(m, cs[0], slots, answers, s);
      slots', answers' := Run(m, cs[1..], slots', answers', SpecStep(m.numVars, s, cs[0]));
    }
  }

  /// From `init` on: the answers depend on nothing but the commands.
  method Answers(tableSize: nat, cacheSize: nat, varNum: nat, hash: Key -> nat, hash1: Ptr -> nat,
      hash2: (Ptr, Ptr) -> nat, cs: seq<Command>)
    returns (answers: seq<bool>)
    requires tableSize > 0 && cacheSize > 0 && varNum <= MARK && LegalRun(varNum, Spec([], []), cs)
    ensures answers == SpecRun(varNum, Spec([], []), cs).answers
  {
    hide Manager.Consistent, Manager.Exact, LegalRun, SpecRun, Refs;
    var m := new Manager.Init(tableSize, cacheSize, varNum, hash, hash1, hash2);
    NoRefs();
    var slots;
    slots, answers := Run(m, cs, [], [], Spec([], []));
  }

  lemma NoRefs()
    ensures Refs([]) == multiset{}
  {
  }
}
