/// `serialize` and `deserialize` of src/tobdd.rs on streams of records: two terminal identities,
/// then one record per node visited, children before parents, shared nodes as often as they are
/// reached. Byte encoding and compression are left out.

module Streams {
  import opened Nodes
  import opened Options
  import opened Paths
  import opened Diagrams
  import opened Operations
  import opened Chains
  import opened UniqueTable
  import opened BddManager

  datatype Record = Record(id: Ptr, level: nat, low: Ptr, high: Ptr)

  datatype Stream = Stream(falseId: Ptr, trueId: Ptr, records: seq<Record>)

  // ---------- What is written ----------

  ghost function Records(d: Diagram, p: Ptr): seq<Record>
    requires d.Ok() && p in d.g
    decreases d.n - d.Top(p)
  {
    if d.Terminal(p) then [] else
      assert d.NodeFits(p);
      Records(d, d.Low(p)) + Records(d, d.High(p)) + [Record(p, d.g[p].level, d.Low(p), d.High(p))]
  }

  /// The inner nodes of a diagram rooted at `p`.
  ghost function Inner(d: Diagram, p: Ptr): set<Ptr>
    requires d.Ok() && p in d.g
  {
    set q | q in Reach(d, p) && !d.Terminal(q)
  }

  /// A reader that has seen the first `i` records knows `c`.
  ghost predicate Known(d: Diagram, rs: seq<Record>, i: nat, c: Ptr) {
    d.Terminal(c) || exists j :: 0 <= j < i && j < |rs| && rs[j].id == c
  }

  ghost predicate RecordOk(d: Diagram, rs: seq<Record>, i: nat) {
    i < |rs| ==>
      && rs[i].id in d.g && !d.Terminal(rs[i].id) && d.g[rs[i].id] == Key(rs[i].level, rs[i].low, rs[i].high)
      && Known(d, rs, i, rs[i].low) && Known(d, rs, i, rs[i].high)
  }

  lemma KnownLater(d: Diagram, xs: seq<Record>, ys: seq<Record>, zs: seq<Record>, i: nat, c: Ptr)
    requires Known(d, ys, i, c) && i <= |ys|
    ensures Known(d, xs + ys + zs, |xs| + i, c)
  {
    if !d.Terminal(c) {
      var j :| 0 <= j < i && j < |ys| && ys[j].id == c;
      assert (xs + ys + zs)[|xs| + j] == ys[j];
    }
  }

  /// What is listed are the inner nodes.
  lemma {:induction false} RecordsAreInner(d: Diagram, p: Ptr)
    requires d.Ok() && p in d.g
    ensures forall r :: r in Records(d, p) ==> r.id in Inner(d, p)
    ensures forall q :: q in Inner(d, p) ==> Known(d, Records(d, p), |Records(d, p)|, q)
    decreases d.n - d.Top(p)
  {
    assert d.NodeFits(p);
    if !d.Terminal(p) {
      RecordsAreInner(d, d.Low(p));
      RecordsAreInner(d, d.High(p));
      var xs, ys, r := Records(d, d.Low(p)), Records(d, d.High(p)), Record(p, d.g[p].level, d.Low(p), d.High(p));
      var rs := Records(d, p);
      assert rs == xs + ys + [r] == [] + xs + (ys + [r]);
      forall q | q in Inner(d, p) ensures Known(d, rs, |rs|, q) {
        if q == p {
          assert rs[|rs| - 1].id == p;
        } else if q in Inner(d, d.Low(p)) {
          KnownLater(d, [], xs, ys + [r], |xs|, q);
        } else {
          KnownLater(d, xs, ys, [r], |ys|, q);
        }
      }
    }
  }

  /// The root comes last, and once.
  lemma RootIsLast(d: Diagram, p: Ptr)
    requires d.Ok() && p in d.g && !d.Terminal(p)
    ensures Records(d, p) != [] && Records(d, p)[|Records(d, p)| - 1].id == p
    ensures forall i :: 0 <= i < |Records(d, p)| - 1 ==> Records(d, p)[i].id != p
  {
    assert d.NodeFits(p);
    var xs, ys, rs := Records(d, d.Low(p)), Records(d, d.High(p)), Records(d, p);
    RecordsAreInner(d, d.Low(p));
    RecordsAreInner(d, d.High(p));
    ReachFacts(d, d.Low(p));
    ReachFacts(d, d.High(p));
    forall i | 0 <= i < |rs| - 1 ensures rs[i].id != p {
      if i < |xs| { assert rs[i] == xs[i] && xs[i] in xs; } else { assert rs[i] == ys[i - |xs|] && ys[i - |xs|] in ys; }
    }
  }

  lemma JoinedRecordsOk(d: Diagram, xs: seq<Record>, ys: seq<Record>, r: Record, i: nat)
    requires RecordOk(d, xs, i) && (i >= |xs| ==> RecordOk(d, ys, i - |xs|))
    requires RecordOk(d, xs + ys + [r], |xs| + |ys|)
    ensures RecordOk(d, xs + ys + [r], i)
  {
    if i < |xs| {
      RecordOkLater(d, [], xs, ys + [r], i);
      assert [] + xs + (ys + [r]) == xs + ys + [r];
    } else if i < |xs| + |ys| {
      RecordOkLater(d, xs, ys, [r], i - |xs|);
    }
  }

  /// Children come first, so the reader's lookups never fail.
  lemma {:induction false} ChildrenComeFirst(d: Diagram, p: Ptr)
    requires d.Ok() && p in d.g
    ensures forall i :: RecordOk(d, Records(d, p), i)
    decreases d.n - d.Top(p)
  {
    assert d.NodeFits(p);
    if !d.Terminal(p) {
      ChildrenComeFirst(d, d.Low(p));
      ChildrenComeFirst(d, d.High(p));
      if !d.Terminal(d.Low(p)) { RootIsLast(d, d.Low(p)); }
      if !d.Terminal(d.High(p)) { RootIsLast(d, d.High(p)); }
      var xs, ys, r := Records(d, d.Low(p)), Records(d, d.High(p)), Record(p, d.g[p].level, d.Low(p), d.High(p));
      RootsKnown(d, p, xs, ys, r);
      assert Records(d, p) == xs + ys + [r];
      assert RecordOk(d, xs + ys + [r], |xs| + |ys|);
      hide RecordOk;
      forall i: nat ensures RecordOk(d, xs + ys + [r], i) { JoinedRecordsOk(d, xs, ys, r, i); }
    }
  }

  lemma RecordOkLater(d: Diagram, xs: seq<Record>, ys: seq<Record>, zs: seq<Record>, i: nat)
    requires RecordOk(d, ys, i) && i < |ys|
    ensures RecordOk(d, xs + ys + zs, |xs| + i)
  {
    assert (xs + ys + zs)[|xs| + i] == ys[i];
    KnownLater(d, xs, ys, zs, i, ys[i].low);
    KnownLater(d, xs, ys, zs, i, ys[i].high);
  }

  lemma RootsKnown(d: Diagram, p: Ptr, xs: seq<Record>, ys: seq<Record>, r: Record)
    requires d.Ok() && p in d.g && !d.Terminal(p) && d.NodeFits(p)
    requires xs == Records(d, d.Low(p)) && ys == Records(d, d.High(p))
    requires !d.Terminal(d.Low(p)) ==> xs != [] && xs[|xs| - 1].id == d.Low(p)
    requires !d.Terminal(d.High(p)) ==> ys != [] && ys[|ys| - 1].id == d.High(p)
    ensures Known(d, xs + ys + [r], |xs| + |ys|, d.Low(p)) && Known(d, xs + ys + [r], |xs| + |ys|, d.High(p))
  {
    var rs := xs + ys + [r];
    if !d.Terminal(d.Low(p)) { assert rs[|xs| - 1] == xs[|xs| - 1]; }
    if !d.Terminal(d.High(p)) { assert rs[|xs| + |ys| - 1] == ys[|ys| - 1]; }
  }

  // ---------- In which order ----------

  /// Depth first, the low branch before the high one, a node after what is below it.
  ghost predicate VisitedBefore(x: seq<bool>, y: seq<bool>) {
    || y < x
    || exists k :: 0 <= k < |x| && k < |y| && x[..k] == y[..k] && !x[k] && y[k]
  }

  /// Record by record, the nodes that the paths in `ps` lead to.
  ghost predicate RecordsOf(d: Diagram, p: Ptr, rs: seq<Record>, ps: seq<seq<bool>>)
    requires d.Ok() && p in d.g
  {
    && |rs| == |ps|
    && forall i :: 0 <= i < |rs| ==>
         var q := rs[i].id;
         && Leads(d, p, ps[i], q) && q in d.g && !d.Terminal(q)
         && rs[i] == Record(q, d.g[q].level, d.Low(q), d.High(q))
  }

  ghost predicate InOrder(ps: seq<seq<bool>>) {
    forall i, j :: 0 <= i < j < |ps| ==> VisitedBefore(ps[i], ps[j])
  }

  /// The records are those of all paths from the root to inner nodes, in post-order.
  ghost predicate PostOrder(d: Diagram, p: Ptr, rs: seq<Record>, ps: seq<seq<bool>>)
    requires d.Ok() && p in d.g
  {
    && RecordsOf(d, p, rs, ps) && InOrder(ps)
    && forall path, q :: Leads(d, p, path, q) && !d.Terminal(q) ==> path in ps
  }

  ghost function Prefixed(on: bool, ps: seq<seq<bool>>): seq<seq<bool>> {
    seq(|ps|, i requires 0 <= i < |ps| => [on] + ps[i])
  }

  /// The paths to inner nodes, in the order of the records.
  ghost function Tours(d: Diagram, p: Ptr): seq<seq<bool>>
    requires d.Ok() && p in d.g
    decreases d.n - d.Top(p)
  {
    if d.Terminal(p) then [] else
      assert d.NodeFits(p);
      Prefixed(false, Tours(d, d.Low(p))) + Prefixed(true, Tours(d, d.High(p))) + [[]]
  }

  lemma PrefixedBefore(on: bool, x: seq<bool>, y: seq<bool>)
    requires VisitedBefore(x, y)
    ensures VisitedBefore([on] + x, [on] + y)
  {
    if y < x {
      assert [on] + y < [on] + x;
    } else {
      var k :| 0 <= k < |x| && k < |y| && x[..k] == y[..k] && !x[k] && y[k];
      var x', y' := [on] + x, [on] + y;
      assert x'[..k + 1] == [on] + x[..k] && y'[..k + 1] == [on] + y[..k];
      assert x'[k + 1] == x[k] && y'[k + 1] == y[k];
    }
  }

  lemma PrefixedInOrder(on: bool, ps: seq<seq<bool>>)
    requires InOrder(ps)
    ensures InOrder(Prefixed(on, ps))
  {
    forall i, j | 0 <= i < j < |ps| ensures VisitedBefore(Prefixed(on, ps)[i], Prefixed(on, ps)[j]) {
      PrefixedBefore(on, ps[i], ps[j]);
    }
  }

  lemma JoinedInOrder(xs: seq<seq<bool>>, ys: seq<seq<bool>>)
    requires InOrder(xs) && InOrder(ys)
    ensures InOrder(Prefixed(false, xs) + Prefixed(true, ys) + [[]])
  {
    PrefixedInOrder(false, xs);
    PrefixedInOrder(true, ys);
    var fs, ts := Prefixed(false, xs), Prefixed(true, ys);
    var ps := fs + ts + [[]];
    forall i, j | 0 <= i < j < |ps| ensures VisitedBefore(ps[i], ps[j]) {
      if j == |ps| - 1 {
        assert ps[j] < ps[i];
      } else if i < |fs| <= j {
        assert ps[i] == [false] + xs[i] && ps[j] == [true] + ys[j - |fs|];
        assert ps[i][..0] == ps[j][..0];
      }
    }
  }

  lemma ChildRecords(d: Diagram, p: Ptr, on: bool, rs: seq<Record>, ps: seq<seq<bool>>)
    requires d.Ok() && p in d.g && !d.Terminal(p) && d.NodeFits(p) && RecordsOf(d, Child(d, p, on), rs, ps)
    ensures RecordsOf(d, p, rs, Prefixed(on, ps))
  {
    forall i | 0 <= i < |rs| ensures Leads(d, p, Prefixed(on, ps)[i], rs[i].id) {
      LeadsOn(d, p, on, ps[i], rs[i].id);
    }
  }

  lemma JoinedRecords(d: Diagram, p: Ptr, xs: seq<Record>, ps: seq<seq<bool>>, ys: seq<Record>, qs: seq<seq<bool>>)
    requires d.Ok() && p in d.g && RecordsOf(d, p, xs, ps) && RecordsOf(d, p, ys, qs)
    ensures RecordsOf(d, p, xs + ys, ps + qs)
  {
  }

  lemma {:induction false} ToursAreRecorded(d: Diagram, p: Ptr)
    requires d.Ok() && p in d.g
    ensures RecordsOf(d, p, Records(d, p), Tours(d, p)) && InOrder(Tours(d, p))
    decreases d.n - d.Top(p)
  {
    assert d.NodeFits(p);
    if !d.Terminal(p) {
      var low, high := d.Low(p), d.High(p);
      ToursAreRecorded(d, low);
      ToursAreRecorded(d, high);
      ChildRecords(d, p, false, Records(d, low), Tours(d, low));
      ChildRecords(d, p, true, Records(d, high), Tours(d, high));
      JoinedInOrder(Tours(d, low), Tours(d, high));
      var fs, ts := Prefixed(false, Tours(d, low)), Prefixed(true, Tours(d, high));
      var r := Record(p, d.g[p].level, low, high);
      assert RecordsOf(d, p, [r], [[]]);
      JoinedRecords(d, p, Records(d, low), fs, Records(d, high), ts);
      JoinedRecords(d, p, Records(d, low) + Records(d, high), fs + ts, [r], [[]]);
    }
  }

  lemma {:induction false} ToursAreAll(d: Diagram, p: Ptr, path: seq<bool>, q: Ptr)
    requires d.Ok() && p in d.g && Leads(d, p, path, q) && !d.Terminal(q)
    ensures path in Tours(d, p)
    decreases |path|
  {
    assert d.NodeFits(p);
    if path == [] {
      assert Tours(d, p)[|Tours(d, p)| - 1] == [];
    } else {
      var child, rest := Child(d, p, path[0]), path[1..];
      ToursAreAll(d, child, rest, q);
      var i :| 0 <= i < |Tours(d, child)| && Tours(d, child)[i] == rest;
      assert Prefixed(path[0], Tours(d, child))[i] == path;
    }
  }

  /// What is written: one record for each path to an inner node, in post-order.
  lemma RecordsInPostOrder(d: Diagram, p: Ptr)
    requires d.Ok() && p in d.g
    ensures PostOrder(d, p, Records(d, p), Tours(d, p))
  {
    ToursAreRecorded(d, p);
    hide Records, Tours, RecordsOf, InOrder;
    forall path, q | Leads(d, p, path, q) && !d.Terminal(q) ensures path in Tours(d, p) {
      ToursAreAll(d, p, path, q);
    }
  }

  lemma BeforeIsStrict(x: seq<bool>, y: seq<bool>)
    requires VisitedBefore(x, y)
    ensures x != y && !VisitedBefore(y, x)
  {
    if y < x {
      assert forall k :: 0 <= k < |y| ==> y[k] == x[k];
    } else {
      var k :| 0 <= k < |x| && k < |y| && x[..k] == y[..k] && !x[k] && y[k];
      assert !(x < y);
      forall l | 0 <= l < |y| && l < |x| && y[..l] == x[..l] ensures !(!y[l] && x[l]) {
        PrefixesAgree(x, y, k, l);
        PrefixesAgree(x, y, l, k);
      }
    }
  }

  /// That leaves no choice either.
  lemma {:induction false} OrderIsUnique(ps: seq<seq<bool>>, qs: seq<seq<bool>>)
    requires InOrder(ps) && InOrder(qs) && forall x :: x in ps <==> x in qs
    ensures ps == qs
  {
    assert qs != [] ==> qs[0] in ps;
    if ps != [] {
      assert ps[0] in qs && qs != [];
      var j :| 0 <= j < |qs| && qs[j] == ps[0];
      var i :| 0 <= i < |ps| && ps[i] == qs[0];
      if ps[0] != qs[0] { BeforeIsStrict(ps[0], ps[i]); }
      RestsMatch(ps, qs);
      OrderIsUnique(ps[1..], qs[1..]);
    }
  }

  lemma RestsMatch(ps: seq<seq<bool>>, qs: seq<seq<bool>>)
    requires InOrder(ps) && InOrder(qs) && ps != [] && qs != [] && ps[0] == qs[0]
    requires forall x :: x in ps <==> x in qs
    ensures InOrder(ps[1..]) && InOrder(qs[1..]) && forall x :: x in ps[1..] <==> x in qs[1..]
  {
    forall x | x in ps[1..] ensures x in qs[1..] {
      var i :| 0 < i < |ps| && ps[i] == x;
      BeforeIsStrict(ps[0], ps[i]);
      assert x in qs;
    }
    forall x | x in qs[1..] ensures x in ps[1..] {
      var i :| 0 < i < |qs| && qs[i] == x;
      BeforeIsStrict(qs[0], qs[i]);
      assert x in ps;
    }
  }

  lemma PostOrderUnique(d: Diagram, p: Ptr, rs: seq<Record>, ps: seq<seq<bool>>, ts: seq<Record>, qs: seq<seq<bool>>)
    requires d.Ok() && p in d.g && PostOrder(d, p, rs, ps) && PostOrder(d, p, ts, qs)
    ensures rs == ts
  {
    forall x ensures x in ps <==> x in qs {
      if x in ps {
        var i :| 0 <= i < |ps| && ps[i] == x;
        assert Leads(d, p, x, rs[i].id);
      }
      if x in qs {
        var i :| 0 <= i < |qs| && qs[i] == x;
        assert Leads(d, p, x, ts[i].id);
      }
    }
    OrderIsUnique(ps, qs);
    forall i | 0 <= i < |rs| ensures rs[i] == ts[i] { LeadsOnce(d, p, ps[i], rs[i].id, ts[i].id); }
  }

  /// `serialize`'s recursion.
  method WriteRec(m: Manager, bdd: Ptr) returns (out: seq<Record>)
    requires m.Valid() && bdd in m.D().g
    ensures out == Records(m.D(), bdd)
    decreases Rank(m.D(), bdd)
  {
    hide Manager.Consistent;
    if bdd == m.trueId || bdd == m.falseId {
      return [];
    }
    assert m.D().NodeFits(bdd);
    var first := WriteRec(m, m.NodeKey(bdd).low);
    var second := WriteRec(m, m.NodeKey(bdd).high);
    out := first + second + [Record(bdd, m.NodeKey(bdd).level, m.NodeKey(bdd).low, m.NodeKey(bdd).high)];
  }

  method Serialize(m: Manager, bdd: Ptr) returns (s: Stream)
    requires m.Valid() && bdd in m.D().g
    ensures s == Stream(m.falseId, m.trueId, Records(m.D(), bdd))
    ensures exists ps :: PostOrder(m.D(), bdd, s.records, ps)
  {
    hide Records, Manager.Consistent;
    var records := WriteRec(m, bdd);
    RecordsInPostOrder(m.D(), bdd);
    s := Stream(m.falseId, m.trueId, records);
  }

  // ---------- What is read ----------

  /// `r` in `e` stands for `q` in `d`: the same function, on the same level.
  ghost predicate Same(d: Diagram, q: Ptr, e: Diagram, r: Ptr) {
    && d.Ok() && e.Ok() && q in d.g && r in e.g
    && (d.Terminal(q) <==> e.Terminal(r)) && (!d.Terminal(q) ==> d.Top(q) == e.Top(r))
    && forall a: Assignment :: Eval(e, r, a) == Eval(d, q, a)
  }

  /// What the reader's map says: terminals to terminals, and every entry stands for its key.
  ghost predicate MapOk(d: Diagram, e: Diagram, ids: map<Ptr, Ptr>) {
    && d.Ok() && e.Ok()
    && d.f in ids && ids[d.f] == e.f && d.t in ids && ids[d.t] == e.t
    && forall q :: q in ids ==> Same(d, q, e, ids[q])
  }

  lemma StartMap(d: Diagram, e: Diagram)
    requires d.Ok() && e.Ok()
    ensures MapOk(d, e, map[d.f := e.f, d.t := e.t])
  {
  }

  lemma MapSurvives(d: Diagram, e: Diagram, e': Diagram, ids: map<Ptr, Ptr>)
    requires MapOk(d, e, ids) && e'.Ok() && Grows(e, e')
    ensures MapOk(d, e', ids)
  {
    forall q | q in ids ensures Same(d, q, e', ids[q]) {
      assert Same(d, q, e, ids[q]);
      forall a: Assignment ensures Eval(e', ids[q], a) == Eval(d, q, a) { GrowthKeepsEval(e, e', ids[q], a); }
    }
  }

  lemma SameMeans(d: Diagram, q: Ptr, e: Diagram, r: Ptr)
    requires Same(d, q, e, r)
    ensures Denotes(e, r) == Denotes(d, q)
  {
    assert forall a: Assignment :: Eval(e, r, a) == Eval(d, q, a);
  }

  /// Different nodes stand for different functions.
  lemma SameIsInjective(d: Diagram, e: Diagram, x: Ptr, y: Ptr, r: Ptr)
    requires Same(d, x, e, r) && Same(d, y, e, r)
    ensures x == y
  {
    SameMeans(d, x, e, r);
    SameMeans(d, y, e, r);
    Canonical(d, x, y);
  }

  /// In one diagram, what stands for the same node is the same node.
  lemma SameIsUnique(d: Diagram, e: Diagram, q: Ptr, r: Ptr, r': Ptr)
    requires Same(d, q, e, r) && Same(d, q, e, r')
    ensures r == r'
  {
    SameMeans(d, q, e, r);
    SameMeans(d, q, e, r');
    Canonical(e, r, r');
  }

  /// A record's level is above its children's in the reader's diagram too.
  lemma RecordFits(d: Diagram, e: Diagram, q: Ptr, low: Ptr, high: Ptr)
    requires d.Ok() && q in d.g && !d.Terminal(q) && d.n <= e.n
    requires Same(d, d.Low(q), e, low) && Same(d, d.High(q), e, high)
    ensures d.g[q].level < e.n && d.g[q].level < e.Top(low) && d.g[q].level < e.Top(high)
  {
    assert d.NodeFits(q);
  }

  /// The node made from a record stands for the record's node.
  lemma RecordMeans(d: Diagram, e: Diagram, q: Ptr, low: Ptr, high: Ptr, r: Ptr)
    requires d.Ok() && q in d.g && !d.Terminal(q)
    requires Same(d, d.Low(q), e, low) && Same(d, d.High(q), e, high)
    requires Made(e, r, d.g[q].level, low, high)
    ensures Same(d, q, e, r)
  {
    assert d.NodeFits(q) && e.NodeFits(r);
    if low == high { SameIsInjective(d, e, d.Low(q), d.High(q), low); }
    forall a: Assignment ensures Eval(e, r, a) == Eval(d, q, a) {
      assert Eval(e, low, a) == Eval(d, d.Low(q), a);
      assert Eval(e, high, a) == Eval(d, d.High(q), a);
    }
  }

  /// The terminals' reference counts, followed through the loops of a thread alone.
  datatype Tally = Tally(alone: bool, f: int, t: int)

  /// The reader holds the manager's read guard throughout.
  ghost predicate Reading(m: Manager)
    reads m, m.table, m.notCache, m.andCache, m.orCache, m.compCache
  {
    m.Consistent() && m.guard.ReadHeld?
  }

  /// Reading one record: look up the children, make the node, reference it, remember it.
  method ReadRecord(m: Manager, rec: Record, ids: map<Ptr, Ptr>, ghost d: Diagram, ghost c: Tally) returns (ret: Ptr)
    requires Reading(m) && MapOk(d, m.D(), ids) && d.n <= m.numVars
    requires rec.id in d.g && !d.Terminal(rec.id) && d.g[rec.id] == Key(rec.level, rec.low, rec.high)
    requires rec.low in ids && rec.high in ids
    requires m.Tallied(c.alone, c.f, c.t)
    modifies m.table, m`spare
    ensures m.Tallied(c.alone, c.f, c.t)
    ensures Reading(m) && Grows(old(m.D()), m.D()) && MapOk(d, m.D(), ids) && Same(d, rec.id, m.D(), ret)
    ensures m.table.pinned == old(m.table.pinned) + multiset{ret} && (old(m.Exact()) ==> m.Exact())
  {
    hide Manager.Consistent, Manager.Exact, MapOk, Same, TableReady, TableValid, View, WellFormed;
    ghost var e, o := m.D(), m.Now();
    EntriesStand(d, e, ids, rec.low);
    EntriesStand(d, e, ids, rec.high);
    RecordFits(d, e, rec.id, ids[rec.low], ids[rec.high]);
    m.TerminalsAreThere();
    ret := m.MakeNode(rec.level, ids[rec.low], ids[rec.high], o);
    MapSurvives(d, e, m.D(), ids);
    EntriesStand(d, m.D(), ids, rec.low);
    EntriesStand(d, m.D(), ids, rec.high);
    RecordMeans(d, m.D(), rec.id, ids[rec.low], ids[rec.high], ret);
    RecordIsInner(d, m.D(), rec.id, ret);
    m.RefBdd(ret);
  }

  lemma RecordIsInner(d: Diagram, e: Diagram, q: Ptr, r: Ptr)
    requires Same(d, q, e, r) && !d.Terminal(q)
    ensures r in e.g && r != e.f && r != e.t
  {
  }

  lemma EntriesStand(d: Diagram, e: Diagram, ids: map<Ptr, Ptr>, q: Ptr)
    requires MapOk(d, e, ids) && q in ids
    ensures Same(d, q, e, ids[q]) && q in d.g && ids[q] in e.g
  {
  }

  /// The reader after `i` records: the map has exactly the terminals and what was listed, and every
  /// node handed back is the entry of its record.
  ghost predicate HasRead(d: Diagram, e: Diagram, rs: seq<Record>, i: nat, ids: map<Ptr, Ptr>, rets: seq<Ptr>) {
    && MapOk(d, e, ids) && i <= |rs| && |rets| == i
    && (forall q :: q in ids ==> Known(d, rs, i, q))
    && (forall j :: 0 <= j < i ==> rs[j].id in ids && rets[j] == ids[rs[j].id])
  }

  lemma NothingRead(d: Diagram, e: Diagram, rs: seq<Record>)
    requires d.Ok() && e.Ok()
    ensures HasRead(d, e, rs, 0, map[d.f := e.f, d.t := e.t], [])
  {
    StartMap(d, e);
  }

  lemma ChildrenAreKnown(d: Diagram, e: Diagram, rs: seq<Record>, i: nat, ids: map<Ptr, Ptr>, rets: seq<Ptr>)
    requires HasRead(d, e, rs, i, ids, rets) && i < |rs| && RecordOk(d, rs, i)
    ensures rs[i].low in ids && rs[i].high in ids
  {
  }

  /// One more record. A repeated record finds the node it found before.
  lemma OneMoreRead(d: Diagram, e: Diagram, e': Diagram, rs: seq<Record>, i: nat, ids: map<Ptr, Ptr>, rets: seq<Ptr>,
      ret: Ptr)
    requires HasRead(d, e, rs, i, ids, rets) && i < |rs| && MapOk(d, e', ids) && Same(d, rs[i].id, e', ret)
    requires RecordOk(d, rs, i)
    ensures HasRead(d, e', rs, i + 1, ids[rs[i].id := ret], rets + [ret])
  {
    hide Same;
    var id := rs[i].id;
    if id in ids {
      EntriesStand(d, e', ids, id);
      SameIsUnique(d, e', id, ids[id], ret);
    }
    var more := ids[id := ret];
    forall q | q in more ensures Known(d, rs, i + 1, q) {
      if q != id { assert Known(d, rs, i, q); }
    }
  }

  lemma AllRead(d: Diagram, e: Diagram, p: Ptr, ids: map<Ptr, Ptr>, rets: seq<Ptr>)
    requires d.Ok() && p in d.g && HasRead(d, e, Records(d, p), |Records(d, p)|, ids, rets)
    ensures ids.Keys == {d.f, d.t} + Inner(d, p)
  {
    RecordsAreInner(d, p);
    hide Records, Inner, Same;
    var rs := Records(d, p);
    forall q | q in ids ensures q in {d.f, d.t} + Inner(d, p) {
      assert Known(d, rs, |rs|, q);
      if !d.Terminal(q) {
        var j :| 0 <= j < |rs| && rs[j].id == q;
        assert rs[j] in rs;
      }
    }
    forall q | q in Inner(d, p) ensures q in ids {
      assert Known(d, rs, |rs|, q);
      if !d.Terminal(q) { var j :| 0 <= j < |rs| && rs[j].id == q; }
    }
  }

  /// One turn of `deserialize`'s loop.
  method ReadNext(m: Manager, rs: seq<Record>, i: nat, ids: map<Ptr, Ptr>, ghost d: Diagram, ghost rets: seq<Ptr>,
      ghost c: Tally)
    returns (ids': map<Ptr, Ptr>, ret: Ptr)
    requires Reading(m) && d.n <= m.numVars && HasRead(d, m.D(), rs, i, ids, rets) && i < |rs| && RecordOk(d, rs, i)
    requires m.Tallied(c.alone, c.f, c.t)
    modifies m.table, m`spare
    ensures m.Tallied(c.alone, c.f, c.t)
    ensures Reading(m) && Grows(old(m.D()), m.D()) && HasRead(d, m.D(), rs, i + 1, ids', rets + [ret])
    ensures m.table.pinned == old(m.table.pinned) + multiset{ret} && (old(m.Exact()) ==> m.Exact())
  {
    hide Manager.Consistent, Manager.Exact, Manager.Tallied, HasRead, RecordOk, MapOk, Same, TableReady, TableValid,
         View, WellFormed;
    ghost var e := m.D();
    ChildrenAreKnown(d, e, rs, i, ids, rets);
    ReadFits(d, e, rs, i, ids, rets);
    ret := ReadRecord(m, rs[i], ids, d, c);
    OneMoreRead(d, e, m.D(), rs, i, ids, rets, ret);
    ids' := ids[rs[i].id := ret];
  }

  /// `deserialize`'s loop over the records.
  method ReadAll(m: Manager, s: Stream, ghost d: Diagram, ghost p: Ptr, ghost c: Tally)
    returns (ids: map<Ptr, Ptr>, ret: Ptr, ghost rets: seq<Ptr>)
    requires Reading(m) && d.Ok() && p in d.g && !d.Terminal(p) && d.n <= m.numVars
    requires s == Stream(d.f, d.t, Records(d, p))
    requires m.Tallied(c.alone, c.f, c.t)
    modifies m.table, m`spare
    ensures m.Tallied(c.alone, c.f, c.t)
    ensures Reading(m) && Grows(old(m.D()), m.D()) && HasRead(d, m.D(), Records(d, p), |Records(d, p)|, ids, rets)
    ensures rets != [] && ret == rets[|rets| - 1]
    ensures m.table.pinned == old(m.table.pinned) + multiset(rets) && (old(m.Exact()) ==> m.Exact())
  {
    hide Manager.Consistent, Manager.Exact, Manager.Tallied, HasRead, RecordOk, Records, MapOk, Same, TableReady,
         TableValid, View, WellFormed;
    ChildrenComeFirst(d, p);
    RootIsLast(d, p);
    ret := NULL;
    rets := [];
    ids := map[s.falseId := m.falseId, s.trueId := m.trueId];
    NothingRead(d, m.D(), s.records);
    for i := 0 to |s.records|
      invariant Reading(m) && Grows(old(m.D()), m.D()) && HasRead(d, m.D(), s.records, i, ids, rets)
      invariant m.Tallied(c.alone, c.f, c.t)
      invariant i == |rets| && (i > 0 ==> ret == rets[i - 1])
      invariant m.table.pinned == old(m.table.pinned) + multiset(rets) && (old(m.Exact()) ==> m.Exact())
    {
      assert RecordOk(d, s.records, i);
      ids, ret := ReadNext(m, s.records, i, ids, d, rets, c);
      rets := rets + [ret];
    }
  }

  lemma ReadFits(d: Diagram, e: Diagram, rs: seq<Record>, i: nat, ids: map<Ptr, Ptr>, rets: seq<Ptr>)
    requires HasRead(d, e, rs, i, ids, rets) && i < |rs| && RecordOk(d, rs, i)
    ensures MapOk(d, e, ids) && rs[i].id in d.g && !d.Terminal(rs[i].id)
    ensures d.g[rs[i].id] == Key(rs[i].level, rs[i].low, rs[i].high)
  {
  }

  /// Which references are still to be dropped when the entries in `todo` are: one for each, out of
  /// one for each record.
  ghost predicate Owed(d: Diagram, p: Ptr, ids: map<Ptr, Ptr>, todo: set<Ptr>, left: multiset<Ptr>)
    requires d.Ok() && p in d.g
  {
    OwedFor(Inner(d, p), |Records(d, p)| - |Inner(d, p)|, p, ids, todo, left)
  }

  /// `surplus` more than one for each inner node in `todo`, of which the root's is the only one.
  ghost predicate OwedFor(inner: set<Ptr>, surplus: int, root: Ptr, ids: map<Ptr, Ptr>, todo: set<Ptr>,
      left: multiset<Ptr>)
  {
    && (forall q :: q in todo && q in inner ==> q in ids && ids[q] in left)
    && |left| == surplus + |todo * inner|
    && root in ids && left[ids[root]] == if root in todo then 1 else 0
  }

  lemma NotOwed(inner: set<Ptr>, surplus: int, root: Ptr, ids: map<Ptr, Ptr>, todo: set<Ptr>, left: multiset<Ptr>,
      q: Ptr)
    requires OwedFor(inner, surplus, root, ids, todo, left) && q !in inner && root != q
    ensures OwedFor(inner, surplus, root, ids, todo - {q}, left)
  {
    assert (todo - {q}) * inner == todo * inner;
  }

  lemma OneLessFor(inner: set<Ptr>, surplus: int, root: Ptr, ids: map<Ptr, Ptr>, todo: set<Ptr>, left: multiset<Ptr>,
      q: Ptr)
    requires OwedFor(inner, surplus, root, ids, todo, left) && q in todo && q in inner && todo <= ids.Keys
    requires forall r :: r in ids && r != q ==> ids[r] != ids[q]
    ensures ids[q] in left && OwedFor(inner, surplus, root, ids, todo - {q}, left - multiset{ids[q]})
  {
    assert (todo - {q}) * inner == todo * inner - {q};
  }

  lemma {:induction false} CountOfLast<T>(s: seq<T>, x: T)
    requires s != [] && s[|s| - 1] == x && forall i :: 0 <= i < |s| - 1 ==> s[i] != x
    ensures multiset(s)[x] == 1
  {
    assert s == s[..|s| - 1] + [x];
    assert x !in s[..|s| - 1];
  }

  /// The root's node was handed back once.
  lemma RootCountsOnce(d: Diagram, e: Diagram, p: Ptr, ids: map<Ptr, Ptr>, rets: seq<Ptr>)
    requires d.Ok() && p in d.g && !d.Terminal(p) && HasRead(d, e, Records(d, p), |Records(d, p)|, ids, rets)
    ensures p in ids && rets != [] && rets[|rets| - 1] == ids[p] && multiset(rets)[ids[p]] == 1
  {
    hide Same, Known;
    var rs := Records(d, p);
    RootIsLast(d, p);
    assert rs[|rs| - 1].id in ids;
    forall i | 0 <= i < |rets| - 1 ensures rets[i] != ids[p] {
      EntriesStand(d, e, ids, rs[i].id);
      EntriesStand(d, e, ids, p);
      if rets[i] == ids[p] { SameIsInjective(d, e, rs[i].id, p, ids[p]); }
    }
    CountOfLast(rets, ids[p]);
  }

  lemma AllOwed(d: Diagram, e: Diagram, p: Ptr, ids: map<Ptr, Ptr>, rets: seq<Ptr>)
    requires d.Ok() && p in d.g && !d.Terminal(p) && HasRead(d, e, Records(d, p), |Records(d, p)|, ids, rets)
    ensures rets != []
    ensures Owed(d, p, ids, ids.Keys, multiset(rets)) && p in ids && rets[|rets| - 1] == ids[p]
  {
    hide MapOk, Same, Inner, Records, Diagram.Ok;
    var rs := Records(d, p);
    AllRead(d, e, p, ids, rets);
    RootCountsOnce(d, e, p, ids, rets);
    InnerIsInner(d, p);
    assert ids.Keys * Inner(d, p) == Inner(d, p);
    forall q | q in ids.Keys && q in Inner(d, p) ensures ids[q] in multiset(rets) {
      assert Known(d, rs, |rs|, q);
      var j :| 0 <= j < |rs| && rs[j].id == q;
      assert rets[j] in rets;
    }
  }

  /// Different entries stand for different nodes.
  lemma EntriesApart(d: Diagram, e: Diagram, ids: map<Ptr, Ptr>, x: Ptr, y: Ptr)
    requires MapOk(d, e, ids) && x in ids && y in ids && x != y
    ensures ids[x] != ids[y]
  {
    EntriesStand(d, e, ids, x);
    EntriesStand(d, e, ids, y);
    if ids[x] == ids[y] { SameIsInjective(d, e, x, y, ids[x]); }
  }

  /// Dropping one.
  lemma OneLessOwed(d: Diagram, e: Diagram, p: Ptr, ids: map<Ptr, Ptr>, todo: set<Ptr>, left: multiset<Ptr>, q: Ptr)
    requires d.Ok() && p in d.g && !d.Terminal(p) && MapOk(d, e, ids) && ids.Keys == {d.f, d.t} + Inner(d, p)
    requires Owed(d, p, ids, todo, left) && q in todo && todo <= ids.Keys
    ensures d.Terminal(q) ==> Owed(d, p, ids, todo - {q}, left)
    ensures !d.Terminal(q) ==> ids[q] in left && Owed(d, p, ids, todo - {q}, left - multiset{ids[q]})
  {
    InnerIsInner(d, p);
    var surplus := |Records(d, p)| - |Inner(d, p)|;
    hide MapOk, Inner, Diagram.Ok, Records, OwedFor;
    if d.Terminal(q) {
      NotOwed(Inner(d, p), surplus, p, ids, todo, left, q);
    } else {
      forall r | r in ids && r != q ensures ids[r] != ids[q] { EntriesApart(d, e, ids, r, q); }
      OneLessFor(Inner(d, p), surplus, p, ids, todo, left, q);
    }
  }

  lemma InnerIsInner(d: Diagram, p: Ptr)
    requires d.Ok() && p in d.g
    ensures forall q :: q in Inner(d, p) ==> !d.Terminal(q)
  {
  }

  /// The tally after the terminals outside `todo` have lost one each.
  ghost function Dropped(c: Tally, d: Diagram, todo: set<Ptr>): Tally {
    Tally(c.alone, c.f - if d.f in todo then 0 else 1, c.t - if d.t in todo then 0 else 1)
  }

  /// Dropping one entry's reference; the terminals' were never taken.
  method DropOne(m: Manager, q: Ptr, ids: map<Ptr, Ptr>, ghost d: Diagram, ghost todo: set<Ptr>,
      ghost start: multiset<Ptr>, ghost left: multiset<Ptr>, ghost c: Tally)
    returns (ghost left': multiset<Ptr>)
    requires Reading(m) && MapOk(d, m.D(), ids) && q in ids && (d.Terminal(q) || ids[q] in left)
    requires m.table.pinned == start + left && m.Base() <= start && m.numVars > 0
    requires q in todo && m.Tallied(c.alone, Dropped(c, d, todo).f, Dropped(c, d, todo).t)
    modifies m.table`heap, m.table`pinned
    ensures Reading(m) && m.D() == old(m.D()) && (old(m.Exact()) ==> m.Exact())
    ensures m.table.pinned == start + left' && left' == if d.Terminal(q) then left else left - multiset{ids[q]}
    ensures m.Tallied(c.alone, Dropped(c, d, todo - {q}).f, Dropped(c, d, todo - {q}).t)
  {
    hide Manager.Consistent, Manager.Exact, TableReady, TableValid, View, WellFormed, Same, MapOk;
    EntriesStand(d, m.D(), ids, q);
    TerminalEntries(d, m.D(), ids, q);
    OneLess(start, left, ids[q]);
    m.DerefBdd(ids[q], !d.Terminal(q));
    left' := if d.Terminal(q) then left else left - multiset{ids[q]};
  }

  lemma OneLess(start: multiset<Ptr>, left: multiset<Ptr>, r: Ptr)
    ensures r in left ==> (start + left)[r] > start[r] && start + left - multiset{r} == start + (left - multiset{r})
  {
  }

  lemma TerminalEntries(d: Diagram, e: Diagram, ids: map<Ptr, Ptr>, q: Ptr)
    requires MapOk(d, e, ids) && q in ids
    ensures d.f != d.t && e.f != e.t
    ensures (ids[q] == e.f <==> q == d.f) && (ids[q] == e.t <==> q == d.t)
  {
    EntriesStand(d, e, ids, q);
  }

  /// The loop over the map's values.
  method DropAll(m: Manager, ids: map<Ptr, Ptr>, ghost d: Diagram, ghost p: Ptr, ghost start: multiset<Ptr>,
      ghost rets: multiset<Ptr>, ghost c: Tally)
    returns (ghost left: multiset<Ptr>)
    requires Reading(m) && d.Ok() && p in d.g && !d.Terminal(p) && m.numVars > 0
    requires MapOk(d, m.D(), ids) && ids.Keys == {d.f, d.t} + Inner(d, p) && Owed(d, p, ids, ids.Keys, rets)
    requires m.table.pinned == start + rets && m.Base() <= start && m.Tallied(c.alone, c.f, c.t)
    modifies m.table`heap, m.table`pinned
    ensures Reading(m) && m.D() == old(m.D()) && (old(m.Exact()) ==> m.Exact())
    ensures m.table.pinned == start + left && Owed(d, p, ids, {}, left)
    ensures m.Tallied(c.alone, c.f - 1, c.t - 1)
  {
    hide Manager.Consistent, Manager.Exact, Manager.Tallied, Owed, Inner, TableReady, TableValid, View, WellFormed,
         MapOk;
    left := rets;
    var todo := ids.Keys;
    while todo != {}
      invariant Reading(m) && m.D() == old(m.D()) && (old(m.Exact()) ==> m.Exact())
      invariant m.table.pinned == start + left && Owed(d, p, ids, todo, left) && todo <= ids.Keys
      invariant m.Tallied(c.alone, Dropped(c, d, todo).f, Dropped(c, d, todo).t)
      decreases todo
    {
      var q :| q in todo;
      OneLessOwed(d, m.D(), p, ids, todo, left, q);
      left := DropOne(m, q, ids, d, todo, start, left, c);
      todo := todo - {q};
    }
  }

  /// `deserialize`, once it has its read guard.
  method DeserializeGuarded(m: Manager, s: Stream, ghost d: Diagram, ghost p: Ptr, ghost c: Tally)
    returns (ret: Ptr, ghost leaked: multiset<Ptr>)
    requires Reading(m) && d.Ok() && p in d.g && !d.Terminal(p) && d.n <= m.numVars
    requires s == Stream(d.f, d.t, Records(d, p)) && m.Tallied(c.alone, c.f, c.t)
    modifies m.table, m`spare
    ensures Reading(m) && Grows(old(m.D()), m.D()) && ret in m.D().g && Denotes(m.D(), ret) == Denotes(d, p)
    ensures m.table.pinned == old(m.table.pinned) + leaked + multiset{ret} && ret !in leaked
    ensures |leaked| == |Records(d, p)| - |Inner(d, p)| && (old(m.Exact()) ==> m.Exact())
    ensures m.Tallied(c.alone, c.f - 1, c.t - 1)
  {
    hide Manager.Consistent, Manager.Exact, Owed, Inner, TableReady, TableValid, View, WellFormed, Same, HasRead,
         Records, Denotes, MapOk;
    ghost var start := m.table.pinned;
    assert d.NodeFits(p);
    m.BaseIsPinned();
    var ids;
    ghost var rets;
    ids, ret, rets := ReadAll(m, s, d, p, c);
    ReadMeans(d, m.D(), p, ids, rets);
    RootIsInner(d, m.D(), p, ids);
    leaked := DropAll(m, ids, d, p, start, multiset(rets), c);
    NothingOwed(d, p, ids, leaked);
    m.RefBdd(ret);
  }

  lemma RootIsInner(d: Diagram, e: Diagram, p: Ptr, ids: map<Ptr, Ptr>)
    requires MapOk(d, e, ids) && p in ids && !d.Terminal(p)
    ensures ids[p] != e.f && ids[p] != e.t
  {
    EntriesStand(d, e, ids, p);
  }

  /// No node is recorded twice: what a caller can see on the stream.
  ghost predicate NoRepeats(rs: seq<Record>) {
    forall i, j :: 0 <= i < j < |rs| ==> rs[i].id != rs[j].id
  }

  /// Reading a stream that `serialize` wrote in this or another manager: the result denotes what was
  /// written, in any manager with enough variables, and is the very node written if that is still
  /// there. One reference is added on it. `leaked` are references nobody will drop, one for each
  /// time a record was repeated, so there are none exactly when none was. And each terminal loses a
  /// reference nobody had taken.
  method DeserializeInner(m: Manager, s: Stream, ghost d: Diagram, ghost p: Ptr)
    returns (ret: Ptr, ghost leaked: multiset<Ptr>)
    requires m.Valid() && d.Ok() && p in d.g && !d.Terminal(p) && d.n <= m.numVars
    requires s == Stream(d.f, d.t, Records(d, p))
    modifies m.table, m.notCache, m.andCache, m.orCache, m.compCache, m`spare, m`guard
    ensures m.Valid() && Reread(d, p, m.D(), ret)
    ensures KeepsMeaning(old(m.D()), m.D(), old(m.table.pinned))
    ensures m.table.pinned == old(m.table.pinned) + leaked + multiset{ret} && ret !in leaked
    ensures |leaked| == |Records(d, p)| - |Inner(d, p)| && (leaked == multiset{} <==> NoRepeats(s.records))
    ensures old(m.Exact()) ==> m.Exact()
    ensures forall f, t :: old(m.Tallied(true, f, t)) ==> m.Tallied(true, f - 1, t - 1)
  {
    hide Manager.Consistent, Manager.Exact, Inner, TableReady, TableValid, View, WellFormed, Records, KeepsMeaning,
         Denotes, NoRepeats;
    ghost var d0, start := m.D(), m.table.pinned;
    ghost var c := TallyOf(m);
    m.Meanwhile();
    ghost var d1 := m.D();
    m.Read();
    ret, leaked := DeserializeGuarded(m, s, d, p, c);
    m.DropGuard();
    GrowingKeepsMeaning(d0, d1, m.D(), start);
    SurplusIsRepeats(d, p);
    if p in m.D().g { Canonical(m.D(), ret, p); }
  }

  /// What was read back denotes what was written, and is the node written if that is still there.
  ghost predicate Reread(d: Diagram, p: Ptr, e: Diagram, r: Ptr) {
    && d.Ok() && e.Ok() && p in d.g && r in e.g && Denotes(e, r) == Denotes(d, p)
    && (p in e.g && Denotes(e, p) == Denotes(d, p) ==> r == p)
  }

  /// `deserialize`. A terminal's stream has no record, so the source takes its last reference through
  /// the null pointer it started with: `None`. Otherwise, what `DeserializeInner` says.
  method Deserialize(m: Manager, s: Stream, ghost d: Diagram, ghost p: Ptr)
    returns (ret: Option<Ptr>, ghost leaked: multiset<Ptr>)
    requires m.Valid() && d.Ok() && p in d.g && d.n <= m.numVars
    requires s == Stream(d.f, d.t, Records(d, p))
    modifies m.table, m.notCache, m.andCache, m.orCache, m.compCache, m`spare, m`guard
    ensures m.Valid() && (ret.None? <==> d.Terminal(p)) && (ret.None? <==> s.records == [])
    ensures ret.Some? ==>
      && Reread(d, p, m.D(), ret.value)
      && KeepsMeaning(old(m.D()), m.D(), old(m.table.pinned))
      && m.table.pinned == old(m.table.pinned) + leaked + multiset{ret.value} && ret.value !in leaked
      && |leaked| == |Records(d, p)| - |Inner(d, p)| && (leaked == multiset{} <==> NoRepeats(s.records))
      && (old(m.Exact()) ==> m.Exact())
      && forall f, t :: old(m.Tallied(true, f, t)) ==> m.Tallied(true, f - 1, t - 1)
  {
    hide Manager.Consistent, Manager.Exact, Inner, TableReady, TableValid, View, WellFormed, KeepsMeaning, Denotes,
         NoRepeats, Reread;
    if |s.records| == 0 {
      return None, multiset{};
    }
    var node;
    node, leaked := DeserializeInner(m, s, d, p);
    ret := Some(node);
  }

  ghost function TallyOf(m: Manager): (c: Tally)
    reads m, m.table
    ensures m.Tallied(c.alone, c.f, c.t)
    ensures forall f, t :: m.Tallied(true, f, t) ==> c == Tally(true, f, t)
  {
    if m.table.rivals == 0 && m.falseId in m.table.heap && m.trueId in m.table.heap
    then Tally(true, m.table.heap[m.falseId].refCnt, m.table.heap[m.trueId].refCnt)
    else Tally(false, 0, 0)
  }

  // ---------- The surplus ----------

  ghost function Ids(rs: seq<Record>): set<Ptr> {
    set i | 0 <= i < |rs| :: rs[i].id
  }

  lemma {:induction false} RepeatsCost(rs: seq<Record>)
    ensures |Ids(rs)| <= |rs| && (|Ids(rs)| == |rs| <==> NoRepeats(rs))
  {
    if rs == [] {
      assert Ids(rs) == {};
    } else {
      var init, x := rs[..|rs| - 1], rs[|rs| - 1].id;
      RepeatsCost(init);
      assert forall i :: 0 <= i < |init| ==> init[i] == rs[i];
      assert Ids(rs) == Ids(init) + {x};
    }
  }

  /// The surplus of references is zero exactly when no record is repeated.
  lemma SurplusIsRepeats(d: Diagram, p: Ptr)
    requires d.Ok() && p in d.g
    ensures |Records(d, p)| >= |Inner(d, p)|
    ensures |Records(d, p)| == |Inner(d, p)| <==> NoRepeats(Records(d, p))
  {
    var rs := Records(d, p);
    RecordsAreInner(d, p);
    RepeatsCost(rs);
    assert Ids(rs) == Inner(d, p) by {
      forall q ensures q in Ids(rs) <==> q in Inner(d, p) {
        if q in Ids(rs) {
          var i :| 0 <= i < |rs| && rs[i].id == q;
          assert rs[i] in rs;
        }
        if q in Inner(d, p) { assert Known(d, rs, |rs|, q); }
      }
    }
  }

  /// A diagram over three variables in which a node is shared: reading it back leaves a reference.
  function SharedDiagram(): Diagram {
    Diagram(map[
      1 := Key(0, NULL, NULL), 2 := Key(1, NULL, NULL),
      3 := Key(2, 1, 2), 4 := Key(1, 1, 3), 5 := Key(1, 3, 2), 6 := Key(0, 4, 5)], 1, 2, 3)
  }

  lemma SharedIsOk()
    ensures SharedDiagram().Ok()
  {
  }

  lemma SharedRecords()
    requires SharedDiagram().Ok()
    ensures |Records(SharedDiagram(), 6)| == 5
  {
    var d := SharedDiagram();
    assert Records(d, 3) == [Record(3, 2, 1, 2)];
    assert Records(d, 4) == Records(d, 1) + Records(d, 3) + [Record(4, 1, 1, 3)];
    assert Records(d, 5) == Records(d, 3) + Records(d, 2) + [Record(5, 1, 3, 2)];
    assert Records(d, 6) == Records(d, 4) + Records(d, 5) + [Record(6, 0, 4, 5)];
  }

  lemma SharedInner()
    requires SharedDiagram().Ok()
    ensures Inner(SharedDiagram(), 6) == {3, 4, 5, 6}
  {
    hide Diagram.Ok;
    var d := SharedDiagram();
    assert Reach(d, 3) == {3, 1, 2};
    assert Reach(d, 4) == {4, 1, 3, 2} && Reach(d, 5) == {5, 3, 1, 2};
    assert Reach(d, 6) == {6} + Reach(d, 4) + Reach(d, 5);
  }

  lemma SharingLeaks()
    ensures SharedDiagram().Ok()
    ensures |Records(SharedDiagram(), 6)| == 5 && |Inner(SharedDiagram(), 6)| == 4
    ensures !NoRepeats(Records(SharedDiagram(), 6))
  {
    hide Records, Inner, NoRepeats, Diagram.Ok;
    SharedIsOk();
    SharedRecords();
    SharedInner();
    SurplusIsRepeats(SharedDiagram(), 6);
  }

  /// The last node read stands for the root.
  lemma ReadMeans(d: Diagram, e: Diagram, p: Ptr, ids: map<Ptr, Ptr>, rets: seq<Ptr>)
    requires d.Ok() && p in d.g && !d.Terminal(p) && HasRead(d, e, Records(d, p), |Records(d, p)|, ids, rets)
    requires rets != []
    ensures MapOk(d, e, ids) && ids.Keys == {d.f, d.t} + Inner(d, p) && Owed(d, p, ids, ids.Keys, multiset(rets))
    ensures p in ids && rets[|rets| - 1] == ids[p] && ids[p] in e.g && Denotes(e, ids[p]) == Denotes(d, p)
  {
    AllRead(d, e, p, ids, rets);
    AllOwed(d, e, p, ids, rets);
    EntriesStand(d, e, ids, p);
    SameMeans(d, p, e, ids[p]);
  }

  lemma NothingOwed(d: Diagram, p: Ptr, ids: map<Ptr, Ptr>, left: multiset<Ptr>)
    requires d.Ok() && p in d.g && Owed(d, p, ids, {}, left)
    ensures p in ids && ids[p] !in left && |left| == |Records(d, p)| - |Inner(d, p)|
  {
    assert {} * Inner(d, p) == {};
  }

  /// Within one manager, writing and reading back gives the very same node, unless it is a terminal.
  method RoundTrip(m: Manager, bdd: Ptr) returns (ret: Option<Ptr>)
    requires m.Valid() && bdd in m.table.pinned
    modifies m.table, m.notCache, m.andCache, m.orCache, m.compCache, m`spare, m`guard
    ensures m.Valid() && ret == if bdd == m.trueId || bdd == m.falseId then None else Some(bdd)
  {
    hide Manager.Consistent, TableReady, TableValid, View, WellFormed;
    m.PinnedIsThere(bdd);
    ghost var d := m.D();
    var s := Serialize(m, bdd);
    ghost var leaked;
    ret, leaked := Deserialize(m, s, d, bdd);
  }
}
