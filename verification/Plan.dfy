/**
  What mounting a module amounts to, as a function: which modules get mounted, in which
  order, and whether the capabilities line up.  The preflight planner and `Kit.Mount` are
  both proved against it, and it is proved against paths in the dependency graph.
 */
module Plan {
  import opened Wrappers
  import opened Graph

  datatype Direction = Provided | Required | Optional

  datatype Capability = Capability(name: string, direction: Direction)

  /** A module manifest, as far as mounting is concerned. */
  datatype Descriptor = Descriptor(name: Name, deps: seq<Name>, capabilities: seq<Capability>)

  type Manifests = map<Name, Descriptor>

  /** Every descriptor is registered under its own, non-empty name. */
  ghost predicate Keyed(reg: Manifests) {
    forall n :: n in reg ==> reg[n].name == n && n != ""
  }

  /** The kit a plan starts from: mounted modules, and capabilities mounted or core. */
  datatype Base = Base(mounted: set<Name>, caps: set<string>)

  function Provides(desc: Descriptor): set<string> {
    set c | c in desc.capabilities && c.direction.Provided? && c.name != "" :: c.name
  }

  function Requires(desc: Descriptor): set<string> {
    set c | c in desc.capabilities && c.direction.Required? && c.name != "" :: c.name
  }

  /** Only named capabilities count, and among the required ones no optional ones. */
  lemma CapabilitiesAre(desc: Descriptor, c: string)
    ensures c in Provides(desc) <==> c != "" && Capability(c, Provided) in desc.capabilities
    ensures c in Requires(desc) <==> c != "" && Capability(c, Required) in desc.capabilities
  {
  }

  function ProvidesOf(g: Manifests, n: Name): set<string> {
    if n in g then Provides(g[n]) else {}
  }

  /** What the modules of `order` provide together. */
  function ProvidedBy(g: Manifests, order: seq<Name>): set<string> {
    if order == [] then {}
    else ProvidedBy(g, order[..|order| - 1]) + ProvidesOf(g, order[|order| - 1])
  }

  /** Plans `n` after `order`; `stack` is the chain of modules that wait for it. */
  function PlanOne(g: Manifests, base: Base, stack: seq<Name>, order: seq<Name>, n: Name): Option<seq<Name>>
    requires n in g && n !in stack
    decreases g.Keys - Elements(stack), 0
  {
    PushShrinks(g.Keys, stack, n);
    match PlanAll(g, base, stack + [n], order, n, g[n].deps)
    case None => None
    case Some(done) =>
      if Requires(g[n]) <= base.caps + ProvidedBy(g, done) then Some(done + [n]) else None
  }

  /** Plans the dependencies `todo` of `n`. */
  function PlanAll(g: Manifests, base: Base, stack: seq<Name>, order: seq<Name>, n: Name, todo: seq<Name>)
    : Option<seq<Name>>
    decreases g.Keys - Elements(stack), 1 + |todo|
  {
    if todo == [] then Some(order)
    else if Settled(base, order, n, todo[0]) then PlanAll(g, base, stack, order, n, todo[1..])
    else if todo[0] !in g || todo[0] in stack then None
    else
      match PlanOne(g, base, stack, order, todo[0])
      case None => None
      case Some(done) => PlanAll(g, base, stack, done, n, todo[1..])
  }

  /** Dependency `d` of `n` needs no planning. */
  predicate Settled(base: Base, order: seq<Name>, n: Name, d: Name) {
    d == "" || (d != n && d in base.mounted) || d in order
  }

  // ----- the plan in terms of paths -----

  /** The dependencies that have to be mounted first. */
  function Unmet(base: Base, n: Name, deps: seq<Name>): seq<Name> {
    if deps == [] then []
    else if deps[0] == "" || (deps[0] != n && deps[0] in base.mounted) then Unmet(base, n, deps[1..])
    else [deps[0]] + Unmet(base, n, deps[1..])
  }

  lemma UnmetIs(base: Base, n: Name, deps: seq<Name>, d: Name)
    ensures d in Unmet(base, n, deps) <==> d in deps && d != "" && (d == n || d !in base.mounted)
  {
  }

  function UnmetGraph(g: Manifests, base: Base): Graph {
    map n | n in g :: Unmet(base, n, g[n].deps)
  }

  /** Each module finds the capabilities it requires in the kit or among its predecessors. */
  ghost predicate CapsInOrder(g: Manifests, base: Base, order: seq<Name>) {
    forall k :: 0 <= k < |order| ==>
      order[k] in g && Requires(g[order[k]]) <= base.caps + ProvidedBy(g, order[..k])
  }

  lemma CapsInPrefix(g: Manifests, base: Base, order: seq<Name>, longer: seq<Name>)
    requires order <= longer && CapsInOrder(g, base, longer)
    ensures CapsInOrder(g, base, order)
  {
    forall k | 0 <= k < |order|
      ensures order[k] in g && Requires(g[order[k]]) <= base.caps + ProvidedBy(g, order[..k])
    {
      assert order[..k] == longer[..k] && longer[k] == order[k];
    }
  }

  lemma CapsAppend(g: Manifests, base: Base, order: seq<Name>, n: Name)
    requires CapsInOrder(g, base, order) && n in g
    ensures CapsInOrder(g, base, order + [n]) <==> Requires(g[n]) <= base.caps + ProvidedBy(g, order)
  {
    var o := order + [n];
    assert o[..|order|] == order && o[|order|] == n;
    forall k | 0 <= k < |order| ensures o[..k] == order[..k] {}
  }

  lemma {:induction false} VisitGrows(g: Graph, stack: seq<Name>, order: seq<Name>, n: Name)
    requires n in g && n !in stack && Visit(g, stack, order, n).Some?
    ensures order < Visit(g, stack, order, n).value
    decreases g.Keys - Elements(stack), 0
  {
    PushShrinks(g.Keys, stack, n);
    VisitAllGrows(g, stack + [n], order, g[n]);
  }

  lemma {:induction false} VisitAllGrows(g: Graph, stack: seq<Name>, order: seq<Name>, todo: seq<Name>)
    requires VisitAll(g, stack, order, todo).Some?
    ensures order <= VisitAll(g, stack, order, todo).value
    decreases g.Keys - Elements(stack), 1 + |todo|
  {
    if todo != [] {
      if todo[0] in order {
        VisitAllGrows(g, stack, order, todo[1..]);
      } else {
        VisitGrows(g, stack, order, todo[0]);
        VisitAllGrows(g, stack, Visit(g, stack, order, todo[0]).value, todo[1..]);
      }
    }
  }

  /** The planned order when a visit succeeds with the capabilities in order; None otherwise. */
  ghost function Filtered(g: Manifests, base: Base, visited: Option<seq<Name>>): Option<seq<Name>> {
    if visited.Some? && CapsInOrder(g, base, visited.value) then visited else None
  }

  /** A plan is a depth-first visit whose order has the capabilities each module requires. */
  lemma {:induction false} PlanIsVisit(g: Manifests, base: Base, stack: seq<Name>, order: seq<Name>, n: Name)
    requires n in g && n !in stack && CapsInOrder(g, base, order)
    ensures PlanOne(g, base, stack, order, n)
         == Filtered(g, base, Visit(UnmetGraph(g, base), stack, order, n))
    decreases g.Keys - Elements(stack), 0
  {
    PushShrinks(g.Keys, stack, n);
    var u := UnmetGraph(g, base);
    PlanAllIsVisitAll(g, base, stack + [n], order, n, g[n].deps);
    var done := VisitAll(u, stack + [n], order, u[n]);
    if done.Some? {
      if CapsInOrder(g, base, done.value) {
        CapsAppend(g, base, done.value, n);
      } else if CapsInOrder(g, base, done.value + [n]) {
        CapsInPrefix(g, base, done.value, done.value + [n]);
      }
    }
  }

  lemma {:induction false} PlanAllIsVisitAll(
    g: Manifests, base: Base, stack: seq<Name>, order: seq<Name>, n: Name, todo: seq<Name>)
    requires n in stack && CapsInOrder(g, base, order)
    ensures PlanAll(g, base, stack, order, n, todo)
         == Filtered(g, base, VisitAll(UnmetGraph(g, base), stack, order, Unmet(base, n, todo)))
    decreases g.Keys - Elements(stack), 1 + |todo|
  {
    if todo != [] {
      var d, u := todo[0], UnmetGraph(g, base);
      var rest := Unmet(base, n, todo[1..]);
      if Settled(base, order, n, d) {
        PlanAllIsVisitAll(g, base, stack, order, n, todo[1..]);
        assert d in order ==> ([d] + rest)[1..] == rest;
      } else {
        assert Unmet(base, n, todo) == [d] + rest && ([d] + rest)[1..] == rest;
        if d in g && d !in stack {
          PlanIsVisit(g, base, stack, order, d);
          var mid := Visit(u, stack, order, d);
          if mid.Some? {
            if CapsInOrder(g, base, mid.value) {
              PlanAllIsVisitAll(g, base, stack, mid.value, n, todo[1..]);
            } else if VisitAll(u, stack, mid.value, rest).Some? {
              VisitAllGrows(u, stack, mid.value, rest);
              var end := VisitAll(u, stack, mid.value, rest).value;
              if CapsInOrder(g, base, end) {
                CapsInPrefix(g, base, mid.value, end);
              }
            }
          }
        }
      }
    }
  }

  /** Planning a module from nothing succeeds exactly when no path of unmet dependencies
      meets itself or leaves the registered modules, and each module on the way finds its
      required capabilities in the kit or among those finished before it. */
  lemma PlanDecides(g: Manifests, base: Base, root: Name)
    requires root in g
    ensures var u := UnmetGraph(g, base);
      && (PlanOne(g, base, [], [], root).Some? <==>
            Safe(u, root) && Visit(u, [], [], root).Some?
            && CapsInOrder(g, base, Visit(u, [], [], root).value))
      && (PlanOne(g, base, [], [], root).Some? ==>
            var order := PlanOne(g, base, [], [], root).value;
            && Topological(u, order) && order != [] && order[|order| - 1] == root
            && forall m :: m in order <==> ReachedFrom(u, [root], m))
  {
    var u := UnmetGraph(g, base);
    PlanIsVisit(g, base, [], [], root);
    assert VisitAll(u, [], [], [root]) == Visit(u, [], [], root);
    VisitAllDecides(u, [root]);
    if PlanOne(g, base, [], [], root).Some? {
      VisitSound(u, [], [], root);
      forall m ensures m in Visit(u, [], [], root).value <==> ReachedFrom(u, [root], m) {
        VisitAllLists(u, [root], m);
      }
    }
  }

  // ----- planning in a kit that has caught up with part of the plan -----

  lemma {:induction false} ProvidedByConcat(g: Manifests, a: seq<Name>, b: seq<Name>)
    ensures ProvidedBy(g, a + b) == ProvidedBy(g, a) + ProvidedBy(g, b)
    decreases |b|
  {
    if b == [] {
      assert a + b == a;
    } else {
      var front := b[..|b| - 1];
      ProvidedByConcat(g, a, front);
      assert (a + b)[..|a + b| - 1] == a + front;
    }
  }

  /** The kit after the modules of `order` have been mounted. */
  function CaughtUp(g: Manifests, base: Base, order: seq<Name>): Base {
    Base(base.mounted + Elements(order), base.caps + ProvidedBy(g, order))
  }

  /** The same plan, minus what is already mounted. */
  ghost predicate Continues(full: Option<seq<Name>>, before: seq<Name>, rest: Option<seq<Name>>) {
    full.Some? ==> rest.Some? && full.value == before + rest.value
  }

  ghost predicate Apart(order: seq<Name>, stack: seq<Name>) {
    forall m :: m in order ==> m !in stack
  }

  /** Two sets of manifests that differ at most on the modules of `stack`. */
  ghost predicate Agree(g: Manifests, g': Manifests, stack: seq<Name>) {
    forall m :: m !in stack ==> (m in g <==> m in g') && (m in g ==> g[m] == g'[m])
  }

  lemma {:induction false} ProvidedByAgree(g: Manifests, g': Manifests, stack: seq<Name>, order: seq<Name>)
    requires Agree(g, g', stack) && Apart(order, stack)
    ensures ProvidedBy(g, order) == ProvidedBy(g', order)
  {
    if order != [] {
      ProvidedByAgree(g, g', stack, order[..|order| - 1]);
      assert order[|order| - 1] in order;
    }
  }

  /** If planning `n` after `before + since` succeeds, then in a kit that has mounted
      `before` it succeeds after `since`, with the same remaining order. */
  lemma {:induction false} PlanContinues(
    g: Manifests, g': Manifests, base: Base, stack: seq<Name>, stack': seq<Name>,
    before: seq<Name>, since: seq<Name>, n: Name)
    requires n in g && n !in stack && n !in before + since && Elements(stack') <= Elements(stack)
    requires Apart(before, stack) && Apart(since, stack) && Agree(g, g', stack)
    ensures n in g' && n !in stack'
    ensures var full := PlanOne(g, base, stack, before + since, n);
      var rest := PlanOne(g', CaughtUp(g, base, before), stack', since, n);
      Continues(full, before, rest) && (full.Some? ==> Apart(rest.value, stack))
    decreases g.Keys - Elements(stack), 0
  {
    assert n in stack' ==> n in Elements(stack');
    PushShrinks(g.Keys, stack, n);
    assert Elements(stack' + [n]) == Elements(stack') + {n};
    assert Elements(stack + [n]) == Elements(stack) + {n};
    var full := PlanAll(g, base, stack + [n], before + since, n, g[n].deps);
    if full.Some? {
      PlanAllContinues(g, g', base, stack + [n], stack' + [n], before, since, n, g[n].deps);
      var rest := PlanAll(g', CaughtUp(g, base, before), stack' + [n], since, n, g[n].deps).value;
      ProvidedByConcat(g, before, rest);
      ProvidedByAgree(g, g', stack, rest);
      assert before + rest + [n] == before + (rest + [n]);
    }
  }

  lemma {:induction false} PlanAllContinues(
    g: Manifests, g': Manifests, base: Base, stack: seq<Name>, stack': seq<Name>,
    before: seq<Name>, since: seq<Name>, n: Name, todo: seq<Name>)
    requires n in stack && n !in before && Elements(stack') <= Elements(stack)
    requires Apart(before, stack) && Apart(since, stack) && Agree(g, g', stack)
    ensures var full := PlanAll(g, base, stack, before + since, n, todo);
      var rest := PlanAll(g', CaughtUp(g, base, before), stack', since, n, todo);
      Continues(full, before, rest) && (full.Some? ==> Apart(rest.value, stack))
    decreases g.Keys - Elements(stack), 1 + |todo|
  {
    if todo != [] && PlanAll(g, base, stack, before + since, n, todo).Some? {
      var d := todo[0];
      assert d in Elements(before) <==> d in before;
      if Settled(base, before + since, n, d) {
        PlanAllContinues(g, g', base, stack, stack', before, since, n, todo[1..]);
      } else {
        PlanContinues(g, g', base, stack, stack', before, since, d);
        assert d in stack' ==> d in Elements(stack');
        var mid := PlanOne(g', CaughtUp(g, base, before), stack', since, d).value;
        PlanAllContinues(g, g', base, stack, stack', before, mid, n, todo[1..]);
      }
    }
  }

  /** A plan in which no module depends on itself. */
  lemma PlannedHasNoSelf(g: Manifests, base: Base, n: Name)
    requires n in g && PlanOne(g, base, [], [], n).Some?
    ensures forall d :: d in g[n].deps && d != "" ==> d != n
  {
    PlanDecides(g, base, n);
    UnmetIs(base, n, g[n].deps, n);
    SelfIsUnsafe(UnmetGraph(g, base), n);
  }

  lemma SelfIsUnsafe(u: Graph, n: Name)
    ensures Edge(u, n, n) ==> !Safe(u, n)
  {
    if Edge(u, n, n) {
      var p := [n, n];
      assert IsPath(u, p) && p[0] == n && p[0] == p[1];
    }
  }

  /** The dependencies of a planned module are planned first, and cover what it requires. */
  lemma PlanSplits(g: Manifests, base: Base, n: Name, plan: seq<Name>)
    requires n in g && PlanOne(g, base, [], [], n) == Some(plan + [n])
    ensures PlanAll(g, base, [n], [], n, g[n].deps) == Some(plan)
    ensures Requires(g[n]) <= base.caps + ProvidedBy(g, plan)
    ensures ProvidedBy(g, plan + [n]) == ProvidedBy(g, plan) + Provides(g[n])
  {
    assert [] + [n] == [n];
    var done := PlanAll(g, base, [n], [], n, g[n].deps).value;
    assert (done + [n])[..|done|] == done && (plan + [n])[..|plan|] == plan;
  }

  /** With every dependency mounted there is nothing left to plan. */
  lemma {:induction false} AllMet(g: Manifests, base: Base, n: Name, todo: seq<Name>)
    requires forall d :: d in todo && d != "" ==> d != n && d in base.mounted
    ensures PlanAll(g, base, [n], [], n, todo) == Some([])
  {
    if todo != [] {
      assert todo[0] in todo && forall d :: d in todo[1..] ==> d in todo;
      AllMet(g, base, n, todo[1..]);
    }
  }

  /** A plan depends on the manifests, not on modules that are mounted meanwhile. */
  lemma PathShrinks(g: Manifests, base: Base, later: Base, p: seq<Name>)
    requires base.mounted <= later.mounted && IsPath(UnmetGraph(g, later), p)
    ensures IsPath(UnmetGraph(g, base), p)
  {
    var u, u' := UnmetGraph(g, base), UnmetGraph(g, later);
    forall i | 0 <= i < |p| - 1 ensures Edge(u, p[i], p[i + 1]) {
      assert Edge(u', p[i], p[i + 1]);
      UnmetIs(base, p[i], g[p[i]].deps, p[i + 1]);
      UnmetIs(later, p[i], g[p[i]].deps, p[i + 1]);
    }
  }

  /** The modules of `order` provide nothing that `caps` or a predecessor provides. */
  ghost predicate NoClash(g: Manifests, caps: set<string>, order: seq<Name>) {
    forall k :: 0 <= k < |order| ==> ProvidesOf(g, order[k]) !! caps + ProvidedBy(g, order[..k])
  }

  lemma NoClashLater(
    g: Manifests, g': Manifests, stack: seq<Name>, caps: set<string>, before: seq<Name>, rest: seq<Name>, all: seq<Name>)
    requires before + rest <= all && NoClash(g, caps, all)
    requires Agree(g, g', stack) && Apart(rest, stack)
    ensures NoClash(g', caps + ProvidedBy(g, before), rest)
  {
    forall k | 0 <= k < |rest|
      ensures ProvidesOf(g', rest[k]) !! caps + ProvidedBy(g, before) + ProvidedBy(g', rest[..k])
    {
      assert all[|before| + k] == rest[k] && rest[k] in rest;
      assert all[..|before| + k] == before + rest[..k];
      ProvidedByConcat(g, before, rest[..k]);
      ProvidedByAgree(g, g', stack, rest[..k]);
    }
  }

  /** One unmet dependency of a planned module: it can be planned on its own in the kit that
      has caught up, and the rest of the plan goes on from there. */
  lemma PlanDependency(
    reg: Manifests, g: Manifests, base: Base, n: Name, before: seq<Name>, todo: seq<Name>, goal: seq<Name>)
    requires n !in before && Agree(g, reg, [n]) && todo != [] && !Settled(base, before, n, todo[0])
    requires PlanAll(g, base, [n], before, n, todo) == Some(goal)
    ensures todo[0] != n && todo[0] in reg
    ensures var rest := PlanOne(reg, CaughtUp(g, base, before), [], [], todo[0]);
      && rest.Some? && Apart(rest.value, [n])
      && before + rest.value <= goal
      && PlanAll(g, base, [n], before + rest.value, n, todo[1..]) == Some(goal)
  {
    var d := todo[0];
    assert before + [] == before;
    PlanContinues(g, reg, base, [n], [], before, [], d);
    var mid := PlanOne(g, base, [n], before, d).value;
    assert mid + [] == mid;
    PlanAllContinues(g, g, base, [n], [n], mid, [], n, todo[1..]);
  }
}
