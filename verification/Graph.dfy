/**
  Depth-first search over a dependency graph, as the module planner and the startup
  ordering both do it, with what it decides stated in terms of paths.
 */
module Graph {
  import opened Wrappers
  import opened Sequences

  type Name = string

  /** The successors of every node that can be built, in the order they are visited. */
  type Graph = map<Name, seq<Name>>

  function Elements(s: seq<Name>): set<Name> { set n | n in s }

  predicate Edge(g: Graph, n: Name, d: Name) { n in g && d in g[n] }

  ghost predicate IsPath(g: Graph, p: seq<Name>) {
    forall i :: 0 <= i < |p| - 1 ==> Edge(g, p[i], p[i + 1])
  }

  /** Every path from `root` stays among the nodes of `g` and visits none twice. */
  ghost predicate Safe(g: Graph, root: Name) {
    forall p :: IsPath(g, p) && p != [] && p[0] == root ==> Distinct(p) && p[|p| - 1] in g
  }

  /** Fewer nodes are left when one more is on the stack. */
  lemma PushShrinks(nodes: set<Name>, stack: seq<Name>, n: Name)
    requires n in nodes && n !in stack
    ensures nodes - Elements(stack + [n]) < nodes - Elements(stack)
  {
    assert Elements(stack + [n]) == Elements(stack) + {n};
    assert n in nodes - Elements(stack);
  }

  /**
    Visits `n`: its successors first, then itself.  `stack` is the path being explored and
    `order` what is finished; None is a cycle or a node that is not in the graph.
   */
  function Visit(g: Graph, stack: seq<Name>, order: seq<Name>, n: Name): Option<seq<Name>>
    requires n in g && n !in stack
    decreases g.Keys - Elements(stack), 0
  {
    PushShrinks(g.Keys, stack, n);
    match VisitAll(g, stack + [n], order, g[n])
    case None => None
    case Some(done) => Some(done + [n])
  }

  /** Visits whatever of `todo` is not finished yet. */
  function VisitAll(g: Graph, stack: seq<Name>, order: seq<Name>, todo: seq<Name>): Option<seq<Name>>
    decreases g.Keys - Elements(stack), 1 + |todo|
  {
    if todo == [] then Some(order)
    else if todo[0] in order then VisitAll(g, stack, order, todo[1..])
    else if todo[0] !in g || todo[0] in stack then None
    else
      match Visit(g, stack, order, todo[0])
      case None => None
      case Some(done) => VisitAll(g, stack, done, todo[1..])
  }

  /** `order` lists each node once, after all of its successors. */
  ghost predicate Topological(g: Graph, order: seq<Name>) {
    && Distinct(order)
    && forall k :: 0 <= k < |order| ==>
         order[k] in g && forall d :: d in g[order[k]] ==> d in order[..k]
  }

  lemma TopologicalAppend(g: Graph, order: seq<Name>, n: Name)
    requires Topological(g, order) && n in g && n !in order
    requires forall d :: d in g[n] ==> d in order
    ensures Topological(g, order + [n])
  {
    var o := order + [n];
    forall k | 0 <= k < |o| ensures o[k] in g && forall d :: d in g[o[k]] ==> d in o[..k] {
      if k < |order| {
        assert o[..k] == order[..k];
      } else {
        assert o[..k] == order;
      }
    }
  }

  /** A finished visit: `order` extended in topological order by nodes off the stack. */
  ghost predicate Extends(g: Graph, stack: seq<Name>, order: seq<Name>, done: seq<Name>) {
    && order <= done && Topological(g, done)
    && forall m :: m in done && m in stack ==> m in order
  }

  lemma {:induction false} VisitSound(g: Graph, stack: seq<Name>, order: seq<Name>, n: Name)
    requires n in g && n !in stack && n !in order && Topological(g, order)
    requires Visit(g, stack, order, n).Some?
    ensures var done := Visit(g, stack, order, n).value;
      Extends(g, stack, order, done) && done[|done| - 1] == n
    decreases g.Keys - Elements(stack), 0
  {
    PushShrinks(g.Keys, stack, n);
    VisitAllSound(g, stack + [n], order, g[n]);
    var done := VisitAll(g, stack + [n], order, g[n]).value;
    assert n in stack + [n];
    TopologicalAppend(g, done, n);
  }

  lemma {:induction false} VisitAllSound(g: Graph, stack: seq<Name>, order: seq<Name>, todo: seq<Name>)
    requires Topological(g, order)
    requires VisitAll(g, stack, order, todo).Some?
    ensures var done := VisitAll(g, stack, order, todo).value;
      Extends(g, stack, order, done) && forall d :: d in todo ==> d in done
    decreases g.Keys - Elements(stack), 1 + |todo|
  {
    if todo != [] {
      if todo[0] in order {
        VisitAllSound(g, stack, order, todo[1..]);
      } else {
        VisitSound(g, stack, order, todo[0]);
        var mid := Visit(g, stack, order, todo[0]).value;
        VisitAllSound(g, stack, mid, todo[1..]);
        assert todo[0] in mid;
      }
    }
  }

  /** In a topological order paths only go backwards. */
  lemma {:induction false} PathsGoBack(g: Graph, order: seq<Name>, p: seq<Name>, k: nat)
    requires Topological(g, order) && IsPath(g, p) && p != []
    requires k < |order| && p[0] == order[k]
    ensures Distinct(p) && forall m :: m in p ==> m in order[..k + 1]
    decreases |p|
  {
    if |p| > 1 {
      assert Edge(g, p[0], p[1]);
      assert p[1] in order[..k];
      var j :| 0 <= j < k && order[j] == p[1];
      forall i | 0 <= i < |p| - 2 ensures Edge(g, p[1..][i], p[1..][i + 1]) {
        assert Edge(g, p[i + 1], p[i + 2]);
      }
      PathsGoBack(g, order, p[1..], j);
      forall m | m in p[1..] ensures m in order[..k + 1] && m != p[0] {
        assert m in order[..j + 1];
      }
      assert p == [p[0]] + p[1..];
      forall i, l | 0 <= i < l < |p| ensures p[i] != p[l] {
        assert p[l] == p[1..][l - 1] && p[l] in p[1..];
        if i > 0 { assert p[i] == p[1..][i - 1]; }
      }
    }
  }

  /** A failed visit has met a path that leaves the graph or closes on itself. */
  lemma {:induction false} VisitFails(g: Graph, stack: seq<Name>, order: seq<Name>, n: Name) returns (p: seq<Name>)
    requires n in g && n !in stack && Topological(g, order)
    requires IsPath(g, stack + [n])
    requires Visit(g, stack, order, n).None?
    ensures IsPath(g, p) && stack + [n] <= p && (!Distinct(p) || p[|p| - 1] !in g)
    decreases g.Keys - Elements(stack), 0
  {
    PushShrinks(g.Keys, stack, n);
    p := VisitAllFails(g, stack + [n], order, n, g[n]);
  }

  lemma {:induction false} VisitAllFails(g: Graph, stack: seq<Name>, order: seq<Name>, n: Name, todo: seq<Name>)
    returns (p: seq<Name>)
    requires n in g && n in stack && stack[|stack| - 1] == n && Topological(g, order)
    requires IsPath(g, stack) && forall d :: d in todo ==> d in g[n]
    requires VisitAll(g, stack, order, todo).None?
    ensures IsPath(g, p) && stack <= p && (!Distinct(p) || p[|p| - 1] !in g)
    decreases g.Keys - Elements(stack), 1 + |todo|
  {
    var d := todo[0];
    var q := stack + [d];
    assert IsPath(g, q) by {
      forall i | 0 <= i < |q| - 1 ensures Edge(g, q[i], q[i + 1]) {
        if i < |stack| - 1 { assert Edge(g, stack[i], stack[i + 1]); }
      }
    }
    if d in order {
      p := VisitAllFails(g, stack, order, n, todo[1..]);
    } else if d !in g {
      p := q;
    } else if d in stack {
      var i :| 0 <= i < |stack| && stack[i] == d;
      assert q[i] == q[|stack|];
      p := q;
    } else if Visit(g, stack, order, d).None? {
      p := VisitFails(g, stack, order, d);
    } else {
      VisitSound(g, stack, order, d);
      p := VisitAllFails(g, stack, Visit(g, stack, order, d).value, n, todo[1..]);
    }
  }

  lemma {:induction false} RootsFail(g: Graph, order: seq<Name>, roots: seq<Name>) returns (p: seq<Name>)
    requires Topological(g, order) && VisitAll(g, [], order, roots).None?
    ensures IsPath(g, p) && p != [] && p[0] in roots && (!Distinct(p) || p[|p| - 1] !in g)
    decreases |roots|
  {
    var r := roots[0];
    if r in order {
      p := RootsFail(g, order, roots[1..]);
    } else if r !in g {
      p := [r];
    } else if Visit(g, [], order, r).None? {
      assert IsPath(g, [] + [r]);
      p := VisitFails(g, [], order, r);
      assert p[0] == ([] + [r])[0];
    } else {
      VisitSound(g, [], order, r);
      p := RootsFail(g, Visit(g, [], order, r).value, roots[1..]);
    }
  }

  /** Visiting some roots from nothing succeeds exactly when every path from them stays in
      the graph and repeats no node. */
  lemma VisitAllDecides(g: Graph, roots: seq<Name>)
    ensures VisitAll(g, [], [], roots).Some? <==> forall r :: r in roots ==> Safe(g, r)
  {
    if VisitAll(g, [], [], roots).Some? {
      VisitAllSound(g, [], [], roots);
      var order := VisitAll(g, [], [], roots).value;
      forall r, p | r in roots && IsPath(g, p) && p != [] && p[0] == r
        ensures Distinct(p) && p[|p| - 1] in g
      {
        PathEndsIn(g, order, p);
      }
    } else {
      var p := RootsFail(g, [], roots);
      assert !Safe(g, p[0]);
    }
  }

  lemma PathEndsIn(g: Graph, order: seq<Name>, p: seq<Name>)
    requires Topological(g, order) && IsPath(g, p) && p != [] && p[0] in order
    ensures Distinct(p) && p[|p| - 1] in order && p[|p| - 1] in g
  {
    var k :| 0 <= k < |order| && order[k] == p[0];
    PathsGoBack(g, order, p, k);
    assert p[|p| - 1] in p;
    var l :| 0 <= l < |order| && order[l] == p[|p| - 1];
  }

  /** Some path leads to `n` from one of `starts`. */
  ghost predicate ReachedFrom(g: Graph, starts: seq<Name>, n: Name) {
    exists p :: IsPath(g, p) && p != [] && p[0] in starts && p[|p| - 1] == n
  }

  lemma ReachedThrough(g: Graph, n: Name, d: Name, m: Name)
    requires Edge(g, n, d) && ReachedFrom(g, [d], m)
    ensures ReachedFrom(g, [n], m)
  {
    var p :| IsPath(g, p) && p != [] && p[0] in [d] && p[|p| - 1] == m;
    var q := [n] + p;
    forall i | 0 <= i < |q| - 1 ensures Edge(g, q[i], q[i + 1]) {
      if i > 0 { assert Edge(g, p[i - 1], p[i]); }
    }
    assert IsPath(g, q) && q[0] in [n] && q[|q| - 1] == m;
  }

  lemma {:induction false} VisitReaches(g: Graph, stack: seq<Name>, order: seq<Name>, n: Name, m: Name)
    requires n in g && n !in stack && Visit(g, stack, order, n).Some?
    requires m in Visit(g, stack, order, n).value && m !in order
    ensures ReachedFrom(g, [n], m)
    decreases g.Keys - Elements(stack), 0
  {
    if m == n {
      assert IsPath(g, [n]) && [n][0] in [n] && [n][|[n]| - 1] == m;
    } else {
      PushShrinks(g.Keys, stack, n);
      VisitAllReaches(g, stack + [n], order, g[n], m);
      var p :| IsPath(g, p) && p != [] && p[0] in g[n] && p[|p| - 1] == m;
      assert ReachedFrom(g, [p[0]], m);
      ReachedThrough(g, n, p[0], m);
    }
  }

  lemma {:induction false} VisitAllReaches(g: Graph, stack: seq<Name>, order: seq<Name>, todo: seq<Name>, m: Name)
    requires VisitAll(g, stack, order, todo).Some?
    requires m in VisitAll(g, stack, order, todo).value && m !in order
    ensures ReachedFrom(g, todo, m)
    decreases g.Keys - Elements(stack), 1 + |todo|
  {
    var d := todo[0];
    if d in order {
      VisitAllReaches(g, stack, order, todo[1..], m);
    } else if m in Visit(g, stack, order, d).value {
      VisitReaches(g, stack, order, d, m);
    } else {
      VisitAllReaches(g, stack, Visit(g, stack, order, d).value, todo[1..], m);
    }
  }

  /** A successful visit of some roots lists exactly what paths from them reach. */
  lemma VisitAllLists(g: Graph, roots: seq<Name>, m: Name)
    requires VisitAll(g, [], [], roots).Some?
    ensures m in VisitAll(g, [], [], roots).value <==> ReachedFrom(g, roots, m)
  {
    var order := VisitAll(g, [], [], roots).value;
    VisitAllSound(g, [], [], roots);
    if m in order {
      VisitAllReaches(g, [], [], roots, m);
    }
    if ReachedFrom(g, roots, m) {
      var p :| IsPath(g, p) && p != [] && p[0] in roots && p[|p| - 1] == m;
      PathEndsIn(g, order, p);
    }
  }
}
