/// `print` of src/tobdd.rs: a diagram as lines of '0', '1' and '*', one character per variable.
/// `LinesAreDisjointCover`: the lines are pairwise disjoint cubes, and their union is exactly the
/// function the diagram denotes.

module Printing {
  import opened Nodes
  import opened Chains
  import opened Diagrams
  import opened Paths
  import opened UniqueTable
  import opened BddManager

  /// What is printed below node `p` for the variables from `curr` on, after `prefix`.
  ghost function Lines(d: Diagram, p: Ptr, curr: nat, prefix: string): seq<string>
    requires d.Ok() && p in d.g && p != d.f && curr <= d.Top(p) && |prefix| == curr
    decreases d.n - curr
  {
    TopBounded(d, p);
    if curr == d.n then [prefix]
    else if p == d.t || d.g[p].level > curr then Lines(d, p, curr + 1, prefix + "*")
    else
      assert d.NodeFits(p);
      (if d.Low(p) != d.f then Lines(d, d.Low(p), curr + 1, prefix + "0") else [])
      + (if d.High(p) != d.f then Lines(d, d.High(p), curr + 1, prefix + "1") else [])
  }

  /// The characters of `line` agree with `a`; '*' agrees with anything.
  predicate Agrees(line: string, a: Assignment) {
    forall i: nat :: i < |line| ==> (line[i] == '*' || (line[i] == '1' && i in a) || (line[i] == '0' && i !in a))
  }

  /// How many lines agree with `a`.
  function Agreeing(lines: seq<string>, a: Assignment): nat {
    if lines == [] then 0 else (if Agrees(lines[0], a) then 1 else 0) + Agreeing(lines[1..], a)
  }

  lemma {:induction false} AgreeingAdds(xs: seq<string>, ys: seq<string>, a: Assignment)
    ensures Agreeing(xs + ys, a) == Agreeing(xs, a) + Agreeing(ys, a)
  {
    if xs == [] {
      assert xs + ys == ys;
    } else {
      assert (xs + ys)[1..] == xs[1..] + ys;
      AgreeingAdds(xs[1..], ys, a);
    }
  }

  lemma {:induction false} AgreeingFinds(lines: seq<string>, a: Assignment)
    ensures Agreeing(lines, a) > 0 <==> exists i :: 0 <= i < |lines| && Agrees(lines[i], a)
    ensures Agreeing(lines, a) <= 1 ==> forall i, j :: 0 <= i < j < |lines| ==>
        !(Agrees(lines[i], a) && Agrees(lines[j], a))
  {
    if lines != [] {
      var rest := lines[1..];
      AgreeingFinds(rest, a);
      assert forall i :: 0 < i < |lines| ==> lines[i] == rest[i - 1];
      if Agreeing(rest, a) > 0 {
        var i :| 0 <= i < |rest| && Agrees(rest[i], a);
        assert lines[i + 1] == rest[i];
      }
    }
  }

  lemma AgreesWithOneMore(prefix: string, c: char, a: Assignment)
    ensures Agrees(prefix + [c], a) <==>
        Agrees(prefix, a) && (c == '*' || (c == '1' && |prefix| in a) || (c == '0' && |prefix| !in a))
  {
    var line := prefix + [c];
    assert line[|prefix|] == c;
    assert forall i :: 0 <= i < |prefix| ==> line[i] == prefix[i];
  }

  /// Under a prefix, an assignment is printed once if it agrees with the prefix and satisfies the
  /// node, and not at all otherwise.
  lemma {:induction false} LinesCount(d: Diagram, p: Ptr, curr: nat, prefix: string, a: Assignment)
    requires d.Ok() && p in d.g && p != d.f && curr <= d.Top(p) && |prefix| == curr
    ensures Agreeing(Lines(d, p, curr, prefix), a) == if Agrees(prefix, a) && Eval(d, p, a) then 1 else 0
    decreases d.n - curr
  {
    TopBounded(d, p);
    if curr == d.n {
      assert Agreeing([prefix], a) == (if Agrees(prefix, a) then 1 else 0) + Agreeing([], a);
    } else if p == d.t || d.g[p].level > curr {
      AgreesWithOneMore(prefix, '*', a);
      LinesCount(d, p, curr + 1, prefix + "*", a);
    } else {
      assert d.NodeFits(p);
      AgreesWithOneMore(prefix, '0', a);
      AgreesWithOneMore(prefix, '1', a);
      var xs := if d.Low(p) != d.f then Lines(d, d.Low(p), curr + 1, prefix + "0") else [];
      var ys := if d.High(p) != d.f then Lines(d, d.High(p), curr + 1, prefix + "1") else [];
      if d.Low(p) != d.f { LinesCount(d, d.Low(p), curr + 1, prefix + "0", a); }
      if d.High(p) != d.f { LinesCount(d, d.High(p), curr + 1, prefix + "1", a); }
      AgreeingAdds(xs, ys, a);
    }
  }

  predicate Symbol(c: char) {
    c == '0' || c == '1' || c == '*'
  }

  predicate Cube(n: nat, line: string) {
    |line| == n && forall i :: 0 <= i < n ==> Symbol(line[i])
  }

  lemma {:induction false} LinesAreCubes(d: Diagram, p: Ptr, curr: nat, prefix: string)
    requires d.Ok() && p in d.g && p != d.f && curr <= d.Top(p) && |prefix| == curr
    requires Cube(curr, prefix)
    ensures forall i :: 0 <= i < |Lines(d, p, curr, prefix)| ==> Cube(d.n, Lines(d, p, curr, prefix)[i])
    decreases d.n - curr
  {
    TopBounded(d, p);
    if curr == d.n {
    } else if p == d.t || d.g[p].level > curr {
      LinesAreCubes(d, p, curr + 1, prefix + "*");
    } else {
      assert d.NodeFits(p);
      if d.Low(p) != d.f { LinesAreCubes(d, d.Low(p), curr + 1, prefix + "0"); }
      if d.High(p) != d.f { LinesAreCubes(d, d.High(p), curr + 1, prefix + "1"); }
    }
  }

  /// What is printed for an inner node: cubes of one symbol per variable, no two with an assignment
  /// in common, and together exactly the function denoted.
  lemma LinesAreDisjointCover(d: Diagram, p: Ptr, a: Assignment)
    requires d.Ok() && p in d.g && p != d.f
    ensures forall i :: 0 <= i < |Lines(d, p, 0, "")| ==> Cube(d.n, Lines(d, p, 0, "")[i])
    ensures a in Denotes(d, p) <==> exists i :: 0 <= i < |Lines(d, p, 0, "")| && Agrees(Lines(d, p, 0, "")[i], a)
    ensures forall i, j :: 0 <= i < j < |Lines(d, p, 0, "")| ==>
        !(Agrees(Lines(d, p, 0, "")[i], a) && Agrees(Lines(d, p, 0, "")[j], a))
  {
    LinesAreCubes(d, p, 0, "");
    LinesCount(d, p, 0, "", a);
    AgreeingFinds(Lines(d, p, 0, ""), a);
  }

  // ---------- Lines are paths ----------

  /// What a path to the true terminal says of variable `i`: the branch it takes there, or '*' if it
  /// does not test it.
  ghost function MarkAt(d: Diagram, p: Ptr, path: seq<bool>, i: nat): char
    requires d.Ok() && p in d.g && Leads(d, p, path, d.t)
    decreases |path|
  {
    if path == [] then '*'
    else if d.Top(p) == i then (if path[0] then '1' else '0')
    else MarkAt(d, Child(d, p, path[0]), path[1..], i)
  }

  /// The line of a path, from variable `curr` on.
  ghost function LineFrom(d: Diagram, p: Ptr, path: seq<bool>, curr: nat): string
    requires d.Ok() && p in d.g && Leads(d, p, path, d.t) && curr <= d.n
    decreases d.n - curr
  {
    if curr == d.n then "" else [MarkAt(d, p, path, curr)] + LineFrom(d, p, path, curr + 1)
  }

  lemma {:induction false} LineSays(d: Diagram, p: Ptr, path: seq<bool>, curr: nat, i: nat)
    requires d.Ok() && p in d.g && Leads(d, p, path, d.t) && curr <= i < d.n
    ensures |LineFrom(d, p, path, curr)| == d.n - curr && LineFrom(d, p, path, curr)[i - curr] == MarkAt(d, p, path, i)
    decreases d.n - curr
  {
    hide MarkAt, Leads;
    if curr < i {
      LineSays(d, p, path, curr + 1, i);
    } else if curr + 1 < d.n {
      LineSays(d, p, path, curr + 1, curr + 1);
    }
  }

  /// `x` comes before `y`: where they first differ, `x` has '0' and `y` has '1'.
  ghost predicate Earlier(x: string, y: string) {
    exists k :: 0 <= k < |x| && k < |y| && x[..k] == y[..k] && x[k] == '0' && y[k] == '1'
  }

  ghost predicate Ascending(ls: seq<string>) {
    forall i, j :: 0 <= i < j < |ls| ==> Earlier(ls[i], ls[j])
  }

  ghost predicate IsLine(d: Diagram, p: Ptr, line: string)
    requires d.Ok() && p in d.g
  {
    exists path :: Leads(d, p, path, d.t) && line == LineFrom(d, p, path, 0)
  }

  /// The lines of the paths from `p` to the true terminal, all of them, in ascending order.
  ghost predicate PathLines(d: Diagram, p: Ptr, ls: seq<string>)
    requires d.Ok() && p in d.g
  {
    && Ascending(ls)
    && (forall l :: l in ls ==> IsLine(d, p, l))
    && (forall path :: Leads(d, p, path, d.t) ==> LineFrom(d, p, path, 0) in ls)
  }

  lemma {:induction false} MarkAbove(d: Diagram, p: Ptr, path: seq<bool>, i: nat)
    requires d.Ok() && p in d.g && Leads(d, p, path, d.t) && i < d.Top(p)
    ensures MarkAt(d, p, path, i) == '*'
    decreases |path|
  {
    assert d.NodeFits(p);
    if path != [] { MarkAbove(d, Child(d, p, path[0]), path[1..], i); }
  }

  lemma SkipsVariable(d: Diagram, p: Ptr, path: seq<bool>, curr: nat)
    requires d.Ok() && p in d.g && Leads(d, p, path, d.t) && curr < d.Top(p) && curr < d.n
    ensures LineFrom(d, p, path, curr) == "*" + LineFrom(d, p, path, curr + 1)
  {
    MarkAbove(d, p, path, curr);
  }

  lemma MarkOfTest(d: Diagram, p: Ptr, on: bool, path: seq<bool>, i: nat)
    requires d.Ok() && p in d.g && !d.Terminal(p) && d.NodeFits(p) && Leads(d, Child(d, p, on), path, d.t)
    ensures Leads(d, p, [on] + path, d.t)
    ensures MarkAt(d, p, [on] + path, i) ==
      if i == d.Top(p) then (if on then '1' else '0') else MarkAt(d, Child(d, p, on), path, i)
  {
    LeadsOn(d, p, on, path, d.t);
    assert ([on] + path)[1..] == path;
  }

  lemma TestsVariable(d: Diagram, p: Ptr, on: bool, path: seq<bool>)
    requires d.Ok() && p in d.g && !d.Terminal(p) && d.NodeFits(p) && Leads(d, Child(d, p, on), path, d.t)
    ensures Leads(d, p, [on] + path, d.t) && d.Top(p) < d.n
    ensures LineFrom(d, p, [on] + path, d.Top(p)) ==
      [if on then '1' else '0'] + LineFrom(d, Child(d, p, on), path, d.Top(p) + 1)
  {
    MarkOfTest(d, p, on, path, d.Top(p));
    SameBeyond(d, p, on, path, d.Top(p) + 1);
  }

  lemma {:induction false} SameBeyond(d: Diagram, p: Ptr, on: bool, path: seq<bool>, curr: nat)
    requires d.Ok() && p in d.g && !d.Terminal(p) && d.NodeFits(p) && Leads(d, Child(d, p, on), path, d.t)
    requires d.Top(p) < curr <= d.n && Leads(d, p, [on] + path, d.t)
    ensures LineFrom(d, p, [on] + path, curr) == LineFrom(d, Child(d, p, on), path, curr)
    decreases d.n - curr
  {
    hide MarkAt, Leads;
    if curr < d.n {
      MarkOfTest(d, p, on, path, curr);
      SameBeyond(d, p, on, path, curr + 1);
    }
  }

  /// Below a prefix, every line is the prefix and a path's line.
  ghost predicate Continues(d: Diagram, p: Ptr, curr: nat, prefix: string, line: string)
    requires d.Ok() && p in d.g && curr <= d.n
  {
    exists path :: Leads(d, p, path, d.t) && line == prefix + LineFrom(d, p, path, curr)
  }

  lemma SkipContinues(d: Diagram, p: Ptr, curr: nat, prefix: string, line: string)
    requires d.Ok() && p in d.g && curr < d.Top(p) && curr < d.n && Continues(d, p, curr + 1, prefix + "*", line)
    ensures Continues(d, p, curr, prefix, line)
  {
    var path :| Leads(d, p, path, d.t) && line == prefix + "*" + LineFrom(d, p, path, curr + 1);
    SkipsVariable(d, p, path, curr);
    hide Diagram.Ok, LineFrom, Leads;
    assert line == prefix + LineFrom(d, p, path, curr);
  }

  lemma TestContinues(d: Diagram, p: Ptr, on: bool, prefix: string, line: string)
    requires d.Ok() && p in d.g && !d.Terminal(p) && d.NodeFits(p) && d.Top(p) < d.n
    requires Continues(d, Child(d, p, on), d.Top(p) + 1, prefix + [if on then '1' else '0'], line)
    ensures Continues(d, p, d.Top(p), prefix, line)
  {
    var c, child := [if on then '1' else '0'], Child(d, p, on);
    var path :| Leads(d, child, path, d.t) && line == prefix + c + LineFrom(d, child, path, d.Top(p) + 1);
    TestsVariable(d, p, on, path);
    hide Diagram.Ok, LineFrom, Leads;
    assert line == prefix + LineFrom(d, p, [on] + path, d.Top(p));
  }

  lemma {:induction false} LinesContinue(d: Diagram, p: Ptr, curr: nat, prefix: string, line: string)
    requires d.Ok() && p in d.g && p != d.f && curr <= d.Top(p) && |prefix| == curr
    requires line in Lines(d, p, curr, prefix)
    ensures curr <= d.n && Continues(d, p, curr, prefix, line)
    decreases d.n - curr
  {
    TopBounded(d, p);
    if curr == d.n {
      assert Leads(d, p, [], d.t) && line == prefix + LineFrom(d, p, [], curr);
    } else if p == d.t || d.g[p].level > curr {
      hide LineFrom, Leads, Continues;
      LinesContinue(d, p, curr + 1, prefix + "*", line);
      SkipContinues(d, p, curr, prefix, line);
    } else {
      assert d.NodeFits(p);
      hide LineFrom, Leads, Continues, Diagram.Ok;
      var on := !(d.Low(p) != d.f && line in Lines(d, d.Low(p), curr + 1, prefix + "0"));
      LinesContinue(d, Child(d, p, on), curr + 1, prefix + [if on then '1' else '0'], line);
      TestContinues(d, p, on, prefix, line);
    }
  }

  lemma {:induction false} PathsArePrinted(d: Diagram, p: Ptr, curr: nat, prefix: string, path: seq<bool>)
    requires d.Ok() && p in d.g && p != d.f && curr <= d.Top(p) && |prefix| == curr && Leads(d, p, path, d.t)
    ensures curr <= d.n && prefix + LineFrom(d, p, path, curr) in Lines(d, p, curr, prefix)
    decreases d.n - curr
  {
    TopBounded(d, p);
    if curr == d.n {
      assert prefix + LineFrom(d, p, path, curr) == prefix;
    } else if p == d.t || d.g[p].level > curr {
      SkipsVariable(d, p, path, curr);
      PathsArePrinted(d, p, curr + 1, prefix + "*", path);
      assert prefix + "*" + LineFrom(d, p, path, curr + 1) == prefix + LineFrom(d, p, path, curr);
    } else {
      assert d.NodeFits(p);
      var on, rest := path[0], path[1..];
      var c, child := [if on then '1' else '0'], Child(d, p, on);
      assert path == [on] + rest;
      LeadsElsewhere(d, child, rest);
      TestsVariable(d, p, on, rest);
      PathsArePrinted(d, child, curr + 1, prefix + c, rest);
      assert prefix + c + LineFrom(d, child, rest, curr + 1) == prefix + LineFrom(d, p, path, curr);
    }
  }

  lemma LeadsElsewhere(d: Diagram, p: Ptr, path: seq<bool>)
    requires d.Ok() && p in d.g && Leads(d, p, path, d.t)
    ensures p != d.f
  {
  }

  lemma StartsWith(d: Diagram, p: Ptr, curr: nat, prefix: string, line: string)
    requires d.Ok() && p in d.g && p != d.f && curr <= d.Top(p) && |prefix| == curr
    requires line in Lines(d, p, curr, prefix)
    ensures |line| >= curr && line[..curr] == prefix
  {
    LinesContinue(d, p, curr, prefix, line);
  }

  lemma {:induction false} LinesAscend(d: Diagram, p: Ptr, curr: nat, prefix: string)
    requires d.Ok() && p in d.g && p != d.f && curr <= d.Top(p) && |prefix| == curr
    ensures Ascending(Lines(d, p, curr, prefix))
    decreases d.n - curr
  {
    TopBounded(d, p);
    if curr == d.n {
    } else if p == d.t || d.g[p].level > curr {
      LinesAscend(d, p, curr + 1, prefix + "*");
    } else {
      assert d.NodeFits(p);
      var xs := if d.Low(p) != d.f then Lines(d, d.Low(p), curr + 1, prefix + "0") else [];
      var ys := if d.High(p) != d.f then Lines(d, d.High(p), curr + 1, prefix + "1") else [];
      if d.Low(p) != d.f { LinesAscend(d, d.Low(p), curr + 1, prefix + "0"); }
      if d.High(p) != d.f { LinesAscend(d, d.High(p), curr + 1, prefix + "1"); }
      forall x, y | x in xs && y in ys ensures Earlier(x, y) {
        StartsWith(d, d.Low(p), curr + 1, prefix + "0", x);
        StartsWith(d, d.High(p), curr + 1, prefix + "1", y);
        BranchesDiffer(x, y, prefix);
      }
      hide Lines;
      AscendingJoins(xs, ys);
    }
  }

  lemma BranchesDiffer(x: string, y: string, prefix: string)
    requires |x| > |prefix| && |y| > |prefix|
    requires x[..|prefix| + 1] == prefix + "0" && y[..|prefix| + 1] == prefix + "1"
    ensures Earlier(x, y)
  {
    var k := |prefix|;
    assert x[..k] == x[..k + 1][..k] && y[..k] == y[..k + 1][..k];
    assert x[k] == x[..k + 1][k] && y[k] == y[..k + 1][k];
  }

  lemma AscendingJoins(xs: seq<string>, ys: seq<string>)
    requires Ascending(xs) && Ascending(ys) && forall x, y :: x in xs && y in ys ==> Earlier(x, y)
    ensures Ascending(xs + ys)
  {
    var zs := xs + ys;
    forall i, j | 0 <= i < j < |zs| ensures Earlier(zs[i], zs[j]) {
      if i < |xs| <= j { assert zs[i] in xs && zs[j] in ys; }
    }
  }

  /// What is printed is one line for each path to the true terminal, in ascending order.
  lemma LinesArePaths(d: Diagram, p: Ptr)
    requires d.Ok() && p in d.g && p != d.f
    ensures PathLines(d, p, Lines(d, p, 0, ""))
  {
    hide Lines, LineFrom, Leads;
    LinesAscend(d, p, 0, "");
    forall l | l in Lines(d, p, 0, "") ensures IsLine(d, p, l) {
      LinesContinue(d, p, 0, "", l);
      var path :| Leads(d, p, path, d.t) && l == "" + LineFrom(d, p, path, 0);
      assert l == LineFrom(d, p, path, 0);
    }
    forall path | Leads(d, p, path, d.t) ensures LineFrom(d, p, path, 0) in Lines(d, p, 0, "") {
      PathsArePrinted(d, p, 0, "", path);
      assert "" + LineFrom(d, p, path, 0) == LineFrom(d, p, path, 0);
    }
  }

  lemma EarlierIsStrict(x: string, y: string)
    requires Earlier(x, y)
    ensures x != y && !Earlier(y, x)
  {
    var k :| 0 <= k < |x| && k < |y| && x[..k] == y[..k] && x[k] == '0' && y[k] == '1';
    if Earlier(y, x) {
      var l :| 0 <= l < |y| && l < |x| && y[..l] == x[..l] && y[l] == '0' && x[l] == '1';
      PrefixesAgree(x, y, k, l);
      PrefixesAgree(x, y, l, k);
    }
  }

  /// That leaves no choice: ascending lists of the same lines are the same.
  lemma {:induction false} AscendingIsUnique(ls: seq<string>, ms: seq<string>)
    requires Ascending(ls) && Ascending(ms) && forall l :: l in ls <==> l in ms
    ensures ls == ms
  {
    assert ms != [] ==> ms[0] in ls;
    if ls != [] {
      assert ls[0] in ms && ms != [];
      var j :| 0 <= j < |ms| && ms[j] == ls[0];
      var i :| 0 <= i < |ls| && ls[i] == ms[0];
      if ls[0] != ms[0] { EarlierIsStrict(ls[0], ls[i]); }
      TailsMatch(ls, ms);
      AscendingIsUnique(ls[1..], ms[1..]);
    }
  }

  lemma TailsMatch(ls: seq<string>, ms: seq<string>)
    requires Ascending(ls) && Ascending(ms) && ls != [] && ms != [] && ls[0] == ms[0]
    requires forall l :: l in ls <==> l in ms
    ensures Ascending(ls[1..]) && Ascending(ms[1..]) && forall l :: l in ls[1..] <==> l in ms[1..]
  {
    forall l | l in ls[1..] ensures l in ms[1..] {
      var i :| 0 < i < |ls| && ls[i] == l;
      EarlierIsStrict(ls[0], ls[i]);
      assert l in ms;
    }
    forall l | l in ms[1..] ensures l in ls[1..] {
      var i :| 0 < i < |ms| && ms[i] == l;
      EarlierIsStrict(ms[0], ms[i]);
      assert l in ls;
    }
  }

  lemma PathLinesUnique(d: Diagram, p: Ptr, ls: seq<string>, ms: seq<string>)
    requires d.Ok() && p in d.g && PathLines(d, p, ls) && PathLines(d, p, ms)
    ensures ls == ms
  {
    hide LineFrom, Leads;
    AscendingIsUnique(ls, ms);
  }

  /// Different paths have different lines.
  lemma {:induction false} PathsDiffer(d: Diagram, p: Ptr, x: seq<bool>, y: seq<bool>)
    requires d.Ok() && p in d.g && Leads(d, p, x, d.t) && Leads(d, p, y, d.t)
    requires forall i: nat :: i < d.n ==> MarkAt(d, p, x, i) == MarkAt(d, p, y, i)
    ensures x == y
    decreases |x|
  {
    if x == [] || y == [] {
    } else {
      assert d.NodeFits(p);
      var top, child := d.Top(p), Child(d, p, x[0]);
      assert MarkAt(d, p, x, top) == MarkAt(d, p, y, top);
      forall i: nat | i < d.n ensures MarkAt(d, child, x[1..], i) == MarkAt(d, child, y[1..], i) {
        if i <= top {
          MarkAbove(d, child, x[1..], i);
          MarkAbove(d, child, y[1..], i);
        } else {
          assert MarkAt(d, p, x, i) == MarkAt(d, p, y, i);
        }
      }
      PathsDiffer(d, child, x[1..], y[1..]);
      assert x == [x[0]] + x[1..] && y == [y[0]] + y[1..];
    }
  }

  /// Each line ends with a newline.
  function Text(lines: seq<string>): string {
    if lines == [] then "" else lines[0] + "\n" + Text(lines[1..])
  }

  lemma {:induction false} TextAdds(xs: seq<string>, ys: seq<string>)
    ensures Text(xs + ys) == Text(xs) + Text(ys)
  {
    if xs == [] {
      assert xs + ys == ys;
    } else {
      assert (xs + ys)[1..] == xs[1..] + ys;
      TextAdds(xs[1..], ys);
    }
  }

  /// `fmt_rec`: the character array is filled in place on the way down.
  method FmtRec(m: Manager, chars: array<char>, bdd: Ptr, curr: nat) returns (out: string)
    requires m.Valid() && bdd in m.D().g && bdd != m.falseId && curr <= m.D().Top(bdd)
    requires curr <= chars.Length == m.numVars
    modifies chars
    ensures m.Valid() && m.D() == old(m.D()) && chars[..curr] == old(chars[..curr])
    ensures out == Text(Lines(m.D(), bdd, curr, chars[..curr]))
    decreases m.numVars - curr, 1
  {
    hide Manager.Consistent, TableReady, TableValid, View, WellFormed;
    TopBounded(m.D(), bdd);
    if curr == m.numVars {
      assert chars[..] == chars[..curr];
      out := chars[..] + "\n";
      assert Text([chars[..]]) == out + Text([]);
    } else if m.NodeKey(bdd).level > curr || bdd == m.trueId {
      out := FmtChild(m, chars, bdd, curr, '*');
    } else {
      assert m.D().NodeFits(bdd);
      var low, high := m.NodeKey(bdd).low, m.NodeKey(bdd).high;
      var first, second := "", "";
      if low != m.falseId {
        first := FmtChild(m, chars, low, curr, '0');
      }
      if high != m.falseId {
        second := FmtChild(m, chars, high, curr, '1');
      }
      out := first + second;
      TextOfNode(m.D(), bdd, curr, chars[..curr]);
    }
  }

  method FmtChild(m: Manager, chars: array<char>, child: Ptr, curr: nat, c: char) returns (out: string)
    requires m.Valid() && child in m.D().g && child != m.falseId && curr < m.D().Top(child)
    requires curr < chars.Length == m.numVars
    modifies chars
    ensures m.Valid() && m.D() == old(m.D()) && chars[..curr] == old(chars[..curr])
    ensures out == Text(Lines(m.D(), child, curr + 1, chars[..curr] + [c]))
    decreases m.numVars - curr, 0
  {
    hide Manager.Consistent, TableReady, TableValid, View, WellFormed, Lines, Text;
    ghost var prefix := chars[..curr];
    chars[curr] := c;
    assert chars[..curr + 1] == prefix + [c];
    out := FmtRec(m, chars, child, curr + 1);
    assert chars[..curr] == chars[..curr + 1][..curr];
  }

  lemma TextOfNode(d: Diagram, p: Ptr, curr: nat, prefix: string)
    requires d.Ok() && p in d.g && !d.Terminal(p) && curr == d.Top(p) && |prefix| == curr && d.NodeFits(p)
    ensures Text(Lines(d, p, curr, prefix)) ==
      (if d.Low(p) != d.f then Text(Lines(d, d.Low(p), curr + 1, prefix + "0")) else "")
      + (if d.High(p) != d.f then Text(Lines(d, d.High(p), curr + 1, prefix + "1")) else "")
  {
    TextAdds(if d.Low(p) != d.f then Lines(d, d.Low(p), curr + 1, prefix + "0") else [],
             if d.High(p) != d.f then Lines(d, d.High(p), curr + 1, prefix + "1") else []);
  }

  method Print(m: Manager, bdd: Ptr) returns (out: string)
    requires m.Valid() && bdd in m.D().g
    ensures bdd == m.falseId ==> out == "FALSE\n"
    ensures bdd == m.trueId ==> out == "TRUE\n"
    ensures !m.D().Terminal(bdd) ==> exists ls :: PathLines(m.D(), bdd, ls) && out == Text(ls)
  {
    hide Manager.Consistent, TableReady, TableValid, View, WellFormed, Lines, Text;
    if bdd == m.falseId {
      out := "FALSE\n";
    } else if bdd == m.trueId {
      out := "TRUE\n";
    } else {
      var chars := new char[m.numVars](_ => '-');
      assert chars[..0] == "";
      out := FmtRec(m, chars, bdd, 0);
      LinesArePaths(m.D(), bdd);
    }
  }
}
