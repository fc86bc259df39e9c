/**
  `orderModulesForStartup` of `kit.go`: a depth-first topological sort of the configured
  modules and the registered modules they depend on.
 */
module Startup {
  import opened Wrappers
  import opened Sequences
  import opened Graph

  /** A module as the ordering sees it: its id and its sorted descriptor dependencies. */
  datatype Module = Module(id: Name, deps: seq<Name>)

  datatype Failure = MissingID | NotBuildable(id: Name) | Cycle(id: Name)

  datatype Result = Ordered(mods: seq<Module>) | Refused(why: Failure)

  function Ids(mods: seq<Module>): (ids: seq<Name>)
    ensures |ids| == |mods| && forall i :: 0 <= i < |ids| ==> ids[i] == mods[i].id
  {
    seq(|mods|, i requires 0 <= i < |mods| => mods[i].id)
  }

  /** The dependencies that are visited: the empty name and the module itself are skipped. */
  function Wanted(id: Name, deps: seq<Name>): seq<Name> {
    if deps == [] then []
    else if deps[0] == "" || deps[0] == id then Wanted(id, deps[1..])
    else [deps[0]] + Wanted(id, deps[1..])
  }

  lemma WantedIs(id: Name, deps: seq<Name>, d: Name)
    ensures d in Wanted(id, deps) <==> d in deps && d != "" && d != id
  {
  }

  /** What can be built: an explicit module first, else the registered factory's. */
  function Source(explicit: map<Name, Module>, registry: map<Name, Module>): map<Name, Module> {
    registry + explicit
  }

  function DependencyGraph(source: map<Name, Module>): Graph {
    map n | n in source :: Wanted(n, source[n].deps)
  }

  /** A module is filed under its own id. */
  ghost predicate Keyed(source: map<Name, Module>) {
    forall n :: n in source ==> source[n].id == n
  }

  /** Grey nodes are the ones on the stack, black nodes the ones in `out`. */
  ghost predicate Painted(source: map<Name, Module>, state: map<Name, int>, out: seq<Module>, stack: seq<Name>) {
    && Keyed(source)
    && (forall n :: n in state ==> state[n] == 1 || state[n] == 2)
    && (forall n :: n in stack <==> n in state && state[n] == 1)
    && (forall n :: n in Ids(out) <==> n in state && state[n] == 2)
    && (forall i :: 0 <= i < |out| ==> out[i].id in source && out[i] == source[out[i].id])
  }

  lemma ColourOf(source: map<Name, Module>, state: map<Name, int>, out: seq<Module>, stack: seq<Name>, id: Name)
    requires Painted(source, state, out, stack)
    ensures id in Ids(out) <==> id in state && state[id] == 2
    ensures id in stack <==> id in state && state[id] == 1
    ensures id !in state ==> id !in Ids(out) && id !in stack
    ensures id in state ==> state[id] == 1 || state[id] == 2
  {
  }

  lemma PaintGrey(source: map<Name, Module>, state: map<Name, int>, out: seq<Module>, stack: seq<Name>, id: Name)
    requires Painted(source, state, out, stack) && id !in state
    ensures Painted(source, state[id := 1], out, stack + [id])
  {
  }

  lemma PaintBlack(source: map<Name, Module>, state: map<Name, int>, out: seq<Module>, stack: seq<Name>, id: Name)
    requires Painted(source, state, out, stack + [id]) && id in source && id !in stack
    ensures Painted(source, state[id := 2], out + [source[id]], stack)
    ensures Ids(out + [source[id]]) == Ids(out) + [id]
  {
    assert Ids(out + [source[id]]) == Ids(out) + [id];
    assert id in stack + [id];
  }

  /** A refusal names what is wrong among what `roots` lead to: a module that cannot be built, or
      one on a cycle. */
  ghost predicate Blames(source: map<Name, Module>, roots: seq<Name>, f: Failure) {
    var g := DependencyGraph(source);
    match f
    case MissingID => false
    case NotBuildable(n) => n !in source && ReachedFrom(g, roots, n)
    case Cycle(n) => OnCycle(g, n) && ReachedFrom(g, roots, n)
  }

  lemma LeadsToItself(g: Graph, id: Name)
    ensures ReachedFrom(g, [id], id)
  {
    var p := [id];
    assert IsPath(g, p) && p[0] in [id];
  }

  lemma BlamesThrough(source: map<Name, Module>, id: Name, dep: Name, f: Failure)
    requires Edge(DependencyGraph(source), id, dep) && Blames(source, [dep], f)
    ensures Blames(source, [id], f)
  {
    hide DependencyGraph, ReachedFrom;
    ReachedThrough(DependencyGraph(source), id, dep, f.id);
  }

  lemma BlamesFrom(source: map<Name, Module>, roots: seq<Name>, r: Name, f: Failure)
    requires r in roots && Blames(source, [r], f)
    ensures Blames(source, roots, f)
  {
    hide DependencyGraph;
    var g := DependencyGraph(source);
    var p :| IsPath(g, p) && p != [] && p[0] in [r] && p[|p| - 1] == f.id;
    assert p[0] in roots;
  }

  ghost predicate OnCycle(g: Graph, n: Name) {
    exists p :: IsPath(g, p) && |p| >= 2 && p[0] == n && p[|p| - 1] == n
  }

  lemma ClosesCycle(g: Graph, stack: seq<Name>, id: Name)
    requires IsPath(g, stack + [id]) && id in stack
    ensures OnCycle(g, id)
  {
    var k :| 0 <= k < |stack| && stack[k] == id;
    var p := (stack + [id])[k..];
    assert IsPath(g, p) && p[0] == id && p[|p| - 1] == id;
  }

  /** The mutable variables the recursive `visit` closure works on. */
  class Sorter {
    const source: map<Name, Module>
    var state: map<Name, int>
    var out: seq<Module>

    constructor (source: map<Name, Module>)
      ensures this.source == source && state == map[] && out == []
    {
      this.source := source;
      state, out := map[], [];
    }

    function Graph(): Graph { DependencyGraph(source) }

    ghost predicate Coloured(stack: seq<Name>)
      reads this
    {
      Painted(source, state, out, stack)
    }

    method Visit(id: Name, ghost stack: seq<Name>) returns (failure: Option<Failure>)
      requires Coloured(stack) && IsPath(Graph(), stack + [id])
      modifies this
      ensures failure.None? <==> VisitAll(Graph(), stack, old(Ids(out)), [id]).Some?
      ensures failure.None? ==>
        Coloured(stack) && VisitAll(Graph(), stack, old(Ids(out)), [id]) == Some(Ids(out))
      ensures failure.Some? ==> Blames(source, [id], failure.value)
      decreases Graph().Keys - Elements(stack), 0
    {
      hide Painted, Keyed, VisitAll, Ids, ReachedFrom;
      LeadsToItself(Graph(), id);
      ghost var g, order, within := Graph(), Ids(out), stack + [id];
      VisitSingle(g, stack, order, id);
      ColourOf(source, state, out, stack, id);
      if id in state && state[id] == 2 {
        return None;
      }
      if id in state && state[id] == 1 {
        ClosesCycle(g, stack, id);
        return Some(Cycle(id));
      }
      PaintGrey(source, state, out, stack, id);
      state := state[id := 1];
      if id !in source {
        return Some(NotBuildable(id));
      }
      var mod := source[id];
      ghost var goal := VisitAll(g, within, order, g[id]);
      PushShrinks(g.Keys, stack, id);
      var i := 0;
      while i < |mod.deps|
        invariant 0 <= i <= |mod.deps|
        invariant Coloured(within)
        invariant VisitAll(g, within, Ids(out), Wanted(id, mod.deps[i..])) == goal
      {
        var dep := mod.deps[i];
        assert mod.deps[i..][1..] == mod.deps[i + 1..];
        if dep != "" && dep != id {
          VisitFirst(g, within, Ids(out), dep, Wanted(id, mod.deps[i + 1..]));
          WantedIs(id, mod.deps, dep);
          assert IsPath(g, within + [dep]);
          failure := Visit(dep, within);
          if failure.Some? {
            BlamesThrough(source, id, dep, failure.value);
            return;
          }
        }
        i := i + 1;
      }
      assert mod.deps[i..] == [];
      VisitNothing(g, within, Ids(out));
      PaintBlack(source, state, out, stack, id);
      out := out + [mod];
      state := state[id := 2];
      return None;
    }
  }

  lemma VisitSingle(g: Graph, stack: seq<Name>, order: seq<Name>, id: Name)
    ensures VisitAll(g, stack, order, [id]) ==
      if id in order then Some(order)
      else if id !in g || id in stack then None
      else
        match VisitAll(g, stack + [id], order, g[id])
        case None => None
        case Some(done) => Some(done + [id])
  {
  }

  /** Visiting a list is visiting its head and then the rest. */
  lemma VisitFirst(g: Graph, stack: seq<Name>, order: seq<Name>, d: Name, rest: seq<Name>)
    ensures VisitAll(g, stack, order, [d] + rest) ==
      match VisitAll(g, stack, order, [d])
      case None => None
      case Some(mid) => VisitAll(g, stack, mid, rest)
  {
    assert ([d] + rest)[1..] == rest;
  }

  /** The distinct ids of the configured modules, in the order of their first appearance. */
  function Roots(mods: seq<Option<Module>>): seq<Name> {
    if mods == [] then []
    else
      var rest := Roots(mods[..|mods| - 1]);
      match mods[|mods| - 1]
      case None => rest
      case Some(m) => if m.id in rest then rest else rest + [m.id]
  }

  /** The first module configured under each id. */
  function Explicit(mods: seq<Option<Module>>): (e: map<Name, Module>)
    ensures Keyed(e) && e.Keys == Elements(Roots(mods))
  {
    if mods == [] then map[]
    else
      var rest := Explicit(mods[..|mods| - 1]);
      match mods[|mods| - 1]
      case None => rest
      case Some(m) => if m.id in rest then rest else rest[m.id := m]
  }

  /** The `k`th entry is a module, and the first one configured under its id. */
  ghost predicate FirstConfigured(mods: seq<Option<Module>>, k: int) {
    && 0 <= k < |mods| && mods[k].Some?
    && forall j :: 0 <= j < k && mods[j].Some? ==> mods[j].value.id != mods[k].value.id
  }

  ghost predicate Configured(mods: seq<Option<Module>>, n: Name) {
    exists k :: 0 <= k < |mods| && mods[k].Some? && mods[k].value.id == n
  }

  /** `m` is what gets started as `n`: the first module configured under that id, and without
      one what the registered factory builds. */
  ghost predicate Stands(mods: seq<Option<Module>>, registry: map<Name, Module>, n: Name, m: Module) {
    if Configured(mods, n) then exists k :: FirstConfigured(mods, k) && mods[k].value.id == n && mods[k].value == m
    else n in registry && registry[n] == m
  }

  lemma {:induction false} ExplicitIs(mods: seq<Option<Module>>, n: Name)
    ensures n in Explicit(mods) <==> Configured(mods, n)
    ensures n in Explicit(mods) ==>
      exists k :: FirstConfigured(mods, k) && mods[k].value.id == n && mods[k].value == Explicit(mods)[n]
  {
    if mods != [] {
      var rest, last := mods[..|mods| - 1], mods[|mods| - 1];
      ExplicitIs(rest, n);
      ConfiguredGrows(mods, n);
      if n in Explicit(rest) {
        var k :| FirstConfigured(rest, k) && rest[k].value.id == n && rest[k].value == Explicit(rest)[n];
        FirstStays(mods, k);
      } else if last.Some? && last.value.id == n {
        NewlyConfigured(mods);
      }
    }
  }

  lemma ConfiguredGrows(mods: seq<Option<Module>>, n: Name)
    requires mods != []
    ensures var last := mods[|mods| - 1];
      Configured(mods, n) <==> Configured(mods[..|mods| - 1], n) || (last.Some? && last.value.id == n)
  {
    var rest := mods[..|mods| - 1];
    forall k | 0 <= k < |rest| ensures rest[k] == mods[k] {}
    if Configured(rest, n) {
      var k :| 0 <= k < |rest| && rest[k].Some? && rest[k].value.id == n;
      assert mods[k].value.id == n;
    }
    if Configured(mods, n) {
      var k :| 0 <= k < |mods| && mods[k].Some? && mods[k].value.id == n;
      assert k < |rest| ==> rest[k].value.id == n;
    }
  }

  lemma FirstStays(mods: seq<Option<Module>>, k: int)
    requires mods != [] && FirstConfigured(mods[..|mods| - 1], k)
    ensures FirstConfigured(mods, k) && mods[k] == mods[..|mods| - 1][k]
  {
    forall j | 0 <= j < |mods| - 1 ensures mods[..|mods| - 1][j] == mods[j] {}
  }

  lemma NewlyConfigured(mods: seq<Option<Module>>)
    requires mods != [] && mods[|mods| - 1].Some?
    requires !Configured(mods[..|mods| - 1], mods[|mods| - 1].value.id)
    ensures FirstConfigured(mods, |mods| - 1)
  {
    forall j | 0 <= j < |mods| - 1 ensures mods[..|mods| - 1][j] == mods[j] {}
  }

  /** What the ordering builds from is exactly what stands for each id. */
  lemma SourceIs(mods: seq<Option<Module>>, registry: map<Name, Module>, n: Name, m: Module)
    ensures Stands(mods, registry, n, m) <==>
              n in Source(Explicit(mods), registry) && Source(Explicit(mods), registry)[n] == m
  {
    hide Explicit;
    ExplicitIs(mods, n);
    if Configured(mods, n) {
      var k :| FirstConfigured(mods, k) && mods[k].value.id == n && mods[k].value == Explicit(mods)[n];
      forall j | FirstConfigured(mods, j) && mods[j].value.id == n ensures j == k {}
    }
  }

  /** One module is visited from another exactly when what stands for the other names it among its
      dependencies. */
  lemma EdgeIs(mods: seq<Option<Module>>, registry: map<Name, Module>, n: Name, d: Name)
    ensures Edge(DependencyGraph(Source(Explicit(mods), registry)), n, d) <==>
              exists m :: Stands(mods, registry, n, m) && d in m.deps && d != "" && d != n
  {
    var source := Source(Explicit(mods), registry);
    if n in source {
      WantedIs(n, source[n].deps, d);
      SourceIs(mods, registry, n, source[n]);
    }
    forall m ensures Stands(mods, registry, n, m) <==> n in source && source[n] == m {
      SourceIs(mods, registry, n, m);
    }
  }

  ghost predicate NoMissingID(mods: seq<Option<Module>>) {
    forall i :: 0 <= i < |mods| ==> mods[i].None? || mods[i].value.id != ""
  }

  /** The first loop: the configured modules by id, and the order they came in. */
  method CollectConfigured(mods: seq<Option<Module>>)
    returns (complete: bool, explicit: map<Name, Module>, order: seq<Name>)
    ensures complete <==> NoMissingID(mods)
    ensures complete ==> explicit == Explicit(mods) && order == Roots(mods)
  {
    complete, explicit, order := true, map[], [];
    for i := 0 to |mods|
      invariant NoMissingID(mods[..i])
      invariant explicit == Explicit(mods[..i]) && order == Roots(mods[..i])
    {
      assert mods[..i + 1][..i] == mods[..i];
      if mods[i].Some? {
        if mods[i].value.id == "" {
          complete := false;
          return;
        }
        if mods[i].value.id !in explicit {
          explicit := explicit[mods[i].value.id := mods[i].value];
          order := order + [mods[i].value.id];
        }
      }
    }
    assert mods[..|mods|] == mods;
  }

  /** The second loop: visits the configured modules in that order. */
  method SortFrom(order: seq<Name>, source: map<Name, Module>) returns (r: Result)
    requires Keyed(source)
    ensures r.Ordered? <==> VisitAll(DependencyGraph(source), [], [], order).Some?
    ensures r.Ordered? ==> VisitAll(DependencyGraph(source), [], [], order) == Some(Ids(r.mods))
    ensures r.Ordered? ==> forall i :: 0 <= i < |r.mods| ==> r.mods[i].id in source && r.mods[i] == source[r.mods[i].id]
    ensures r.Refused? ==> Blames(source, order, r.why)
  {
    hide Keyed, Painted, Wanted, DependencyGraph, VisitAll;
    var sorter := new Sorter(source);
    NothingPainted(source);
    assert Ids(sorter.out) == [] && order[0..] == order;
    var i := 0;
    while i < |order|
      invariant 0 <= i <= |order| && sorter.Coloured([]) && sorter.source == source
      invariant VisitAll(DependencyGraph(source), [], Ids(sorter.out), order[i..])
             == VisitAll(DependencyGraph(source), [], [], order)
    {
      assert order[i..] == [order[i]] + order[i + 1..];
      VisitFirst(DependencyGraph(source), [], Ids(sorter.out), order[i], order[i + 1..]);
      var failure := sorter.Visit(order[i], []);
      if failure.Some? {
        BlamesFrom(source, order, order[i], failure.value);
        return Refused(failure.value);
      }
      i := i + 1;
    }
    assert order[i..] == [];
    VisitNothing(DependencyGraph(source), [], Ids(sorter.out));
    AllFromSource(source, sorter.state, sorter.out);
    return Ordered(sorter.out);
  }

  lemma NothingPainted(source: map<Name, Module>)
    requires Keyed(source)
    ensures Painted(source, map[], [], [])
  {
  }

  lemma VisitNothing(g: Graph, stack: seq<Name>, order: seq<Name>)
    ensures VisitAll(g, stack, order, []) == Some(order)
  {
  }

  lemma AllFromSource(source: map<Name, Module>, state: map<Name, int>, out: seq<Module>)
    requires Painted(source, state, out, [])
    ensures forall i :: 0 <= i < |out| ==> out[i].id in source && out[i] == source[out[i].id]
  {
  }

  method OrderModulesForStartup(mods: seq<Option<Module>>, registry: map<Name, Module>) returns (r: Result)
    requires Keyed(registry)
    ensures !NoMissingID(mods) ==> r == Refused(MissingID)
    ensures NoMissingID(mods) ==>
      var g := DependencyGraph(Source(Explicit(mods), registry));
      && (r.Ordered? <==> VisitAll(g, [], [], Roots(mods)).Some?)
      && (r.Ordered? ==> VisitAll(g, [], [], Roots(mods)) == Some(Ids(r.mods)))
    ensures r.Ordered? ==>
      var source := Source(Explicit(mods), registry);
      forall i :: 0 <= i < |r.mods| ==> r.mods[i].id in source && r.mods[i] == source[r.mods[i].id]
    ensures NoMissingID(mods) && r.Refused? ==> Blames(Source(Explicit(mods), registry), Roots(mods), r.why)
    // the configured modules themselves are listed
    ensures r.Ordered? ==> forall k :: FirstConfigured(mods, k) ==> mods[k].value in r.mods
    // any other listed module is what its factory builds, and a later one depends on it
    ensures r.Ordered? ==> forall i :: 0 <= i < |r.mods| && !Configured(mods, r.mods[i].id) ==>
              r.mods[i].id in registry && r.mods[i] == registry[r.mods[i].id] && NeededLater(r.mods, i)
    // no id is listed twice, and every module comes after what it depends on
    ensures r.Ordered? ==> Distinct(Ids(r.mods))
    ensures r.Ordered? ==> forall i, d :: 0 <= i < |r.mods| && d in r.mods[i].deps && d != "" && d != r.mods[i].id ==>
              exists j :: 0 <= j < i && r.mods[j].id == d
  {
    hide DependencyGraph, VisitAll, Explicit, Roots, Blames;
    var complete, explicit, order := CollectConfigured(mods);
    if !complete {
      return Refused(MissingID);
    }
    r := SortFrom(order, Source(explicit, registry));
    if r.Ordered? {
      OrderedAre(mods, registry, r.mods);
    }
  }

  /** A module listed later depends on the `i`th one. */
  ghost predicate NeededLater(mods: seq<Module>, i: nat)
    requires i < |mods|
  {
    exists j :: i < j < |mods| && mods[i].id in mods[j].deps
  }

  lemma {:induction false} RootsAre(mods: seq<Option<Module>>, n: Name)
    ensures n in Roots(mods) <==> Configured(mods, n)
  {
    ExplicitIs(mods, n);
    assert n in Elements(Roots(mods)) <==> n in Roots(mods);
  }

  /** The listed modules in terms of the configured and the registered ones. */
  lemma OrderedAre(mods: seq<Option<Module>>, registry: map<Name, Module>, listed: seq<Module>)
    requires Keyed(registry)
    requires VisitAll(DependencyGraph(Source(Explicit(mods), registry)), [], [], Roots(mods)) == Some(Ids(listed))
    requires var source := Source(Explicit(mods), registry);
      forall i :: 0 <= i < |listed| ==> listed[i].id in source && listed[i] == source[listed[i].id]
    ensures forall k :: FirstConfigured(mods, k) ==> mods[k].value in listed
    ensures forall i :: 0 <= i < |listed| && !Configured(mods, listed[i].id) ==>
              listed[i].id in registry && listed[i] == registry[listed[i].id] && NeededLater(listed, i)
    ensures Distinct(Ids(listed))
    ensures forall i, d :: 0 <= i < |listed| && d in listed[i].deps && d != "" && d != listed[i].id ==>
              exists j :: 0 <= j < i && listed[j].id == d
  {
    hide VisitAll, DependencyGraph, Explicit, Roots, Stands, Source;
    var g := DependencyGraph(Source(Explicit(mods), registry));
    StartupOrder(mods, registry);
    forall k | FirstConfigured(mods, k) ensures mods[k].value in listed {
      RootListed(mods, registry, listed, k);
    }
    forall i | 0 <= i < |listed| && !Configured(mods, listed[i].id)
      ensures listed[i].id in registry && listed[i] == registry[listed[i].id] && NeededLater(listed, i)
    {
      BuiltFromRegistry(mods, registry, listed[i].id);
      OthersNeeded(mods, registry, listed, i);
    }
    forall i, d | 0 <= i < |listed| && d in listed[i].deps && d != "" && d != listed[i].id
      ensures exists j :: 0 <= j < i && listed[j].id == d
    {
      AfterItsOwn(mods, registry, listed, i, d);
    }
  }

  lemma BuiltFromRegistry(mods: seq<Option<Module>>, registry: map<Name, Module>, n: Name)
    requires !Configured(mods, n) && n in Source(Explicit(mods), registry)
    ensures n in registry && Source(Explicit(mods), registry)[n] == registry[n]
  {
    SourceIs(mods, registry, n, Source(Explicit(mods), registry)[n]);
  }

  lemma RootListed(mods: seq<Option<Module>>, registry: map<Name, Module>, listed: seq<Module>, k: nat)
    requires FirstConfigured(mods, k) && forall r :: r in Roots(mods) ==> r in Ids(listed)
    requires var source := Source(Explicit(mods), registry);
      forall i :: 0 <= i < |listed| ==> listed[i].id in source && listed[i] == source[listed[i].id]
    ensures mods[k].value in listed
  {
    hide Explicit, Roots, Source;
    var m := mods[k].value;
    assert Configured(mods, m.id);
    RootsAre(mods, m.id);
    SourceIs(mods, registry, m.id, m);
    var i :| 0 <= i < |listed| && Ids(listed)[i] == m.id;
    assert listed[i] == m;
  }

  lemma AfterItsOwn(mods: seq<Option<Module>>, registry: map<Name, Module>, listed: seq<Module>, i: nat, d: Name)
    requires Topological(DependencyGraph(Source(Explicit(mods), registry)), Ids(listed))
    requires i < |listed| && listed[i].id in Source(Explicit(mods), registry)
    requires listed[i] == Source(Explicit(mods), registry)[listed[i].id]
    requires d in listed[i].deps && d != "" && d != listed[i].id
    ensures exists j :: 0 <= j < i && listed[j].id == d
  {
    hide Explicit, Source;
    var g := DependencyGraph(Source(Explicit(mods), registry));
    WantedIs(listed[i].id, listed[i].deps, d);
    assert Ids(listed)[i] in g && d in g[Ids(listed)[i]];
    assert d in Ids(listed)[..i];
    var j :| 0 <= j < i && Ids(listed)[..i][j] == d;
    assert listed[j].id == d;
  }

  /** A listed module that was not configured is there because a later one depends on it. */
  lemma OthersNeeded(mods: seq<Option<Module>>, registry: map<Name, Module>, listed: seq<Module>, i: nat)
    requires var g := DependencyGraph(Source(Explicit(mods), registry));
      Topological(g, Ids(listed)) && forall n :: n in Ids(listed) <==> ReachedFrom(g, Roots(mods), n)
    requires var source := Source(Explicit(mods), registry);
      forall j :: 0 <= j < |listed| ==> listed[j].id in source && listed[j] == source[listed[j].id]
    requires i < |listed| && !Configured(mods, listed[i].id)
    ensures NeededLater(listed, i)
  {
    hide Explicit, Roots, Source, Configured, Topological;
    var source := Source(Explicit(mods), registry);
    var g, ids, n := DependencyGraph(source), Ids(listed), listed[i].id;
    assert ids[i] == n && n in ids;
    var p :| IsPath(g, p) && p != [] && p[0] in Roots(mods) && p[|p| - 1] == n;
    RootsAre(mods, p[0]);
    var q := p[|p| - 2];
    assert Edge(g, p[|p| - 2], p[|p| - 2 + 1]);
    WantedIs(q, source[q].deps, n);
    ReachedBefore(g, Roots(mods), p);
    var j :| 0 <= j < |ids| && ids[j] == q;
    assert listed[j].id == q;
    EarlierOnly(g, ids, i, j);
  }

  lemma ReachedBefore(g: Graph, roots: seq<Name>, p: seq<Name>)
    requires IsPath(g, p) && |p| >= 2 && p[0] in roots
    ensures ReachedFrom(g, roots, p[|p| - 2])
  {
    var q := p[..|p| - 1];
    forall k | 0 <= k < |q| - 1 ensures Edge(g, q[k], q[k + 1]) {
      assert Edge(g, p[k], p[k + 1]);
    }
    assert IsPath(g, q) && q[0] in roots && q[|q| - 1] == p[|p| - 2];
  }

  lemma EarlierOnly(g: Graph, order: seq<Name>, i: nat, j: nat)
    requires Topological(g, order) && i < |order| && j < |order| && Edge(g, order[j], order[i])
    ensures i < j
  {
    assert order[i] in order[..j];
  }

  /** The ordering succeeds exactly when everything the configured modules lead to is
      explicit or buildable and no dependency path from them meets itself; then each module
      they lead to is listed once, after all its dependencies, and nothing else is. */
  lemma StartupOrder(mods: seq<Option<Module>>, registry: map<Name, Module>)
    ensures var g := DependencyGraph(Source(Explicit(mods), registry));
      var outcome := VisitAll(g, [], [], Roots(mods));
      && (outcome.Some? <==> forall r :: r in Roots(mods) ==> Safe(g, r))
      && (outcome.Some? ==>
            && Topological(g, outcome.value)
            && (forall n :: n in outcome.value <==> ReachedFrom(g, Roots(mods), n))
            && (forall r :: r in Roots(mods) ==> r in outcome.value))
  {
    var g := DependencyGraph(Source(Explicit(mods), registry));
    VisitAllDecides(g, Roots(mods));
    if VisitAll(g, [], [], Roots(mods)).Some? {
      VisitAllSound(g, [], [], Roots(mods));
      forall n ensures n in VisitAll(g, [], [], Roots(mods)).value <==> ReachedFrom(g, Roots(mods), n) {
        VisitAllLists(g, Roots(mods), n);
      }
    }
  }
}
