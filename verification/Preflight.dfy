/**
  `modulePreflightPlanner` of `module_preflight.go`: predicts, without mounting anything,
  whether a module can be mounted.
 */
module Preflight {
  import opened Wrappers
  import opened Sequences
  import opened Graph
  import opened Plan

  /** Entries of the planner's error set. */
  datatype PlanError = CyclicDependency(cycle: seq<Name>) | RequiresItself(id: Name)

  function IdOf(desc: Descriptor): Name {
    if desc.name == "" then "unknown" else desc.name
  }

  /** The registered manifests, with the root's own manifest in place of a registered one. */
  function WithRoot(reg: Manifests, desc: Descriptor): Manifests {
    reg[IdOf(desc) := desc]
  }

  /** `n` requires another module `d` that is not mounted. */
  ghost predicate CallsFor(g: Manifests, base: Base, n: Name, d: Name) {
    n in g && d in g[n].deps && d != "" && d != n && d !in base.mounted
  }

  /** Each name calls for the next one. */
  ghost predicate Chain(g: Manifests, base: Base, s: seq<Name>) {
    forall i :: 0 <= i < |s| - 1 ==> CallsFor(g, base, s[i], s[i + 1])
  }

  /** Registered modules that call for each other in a circle. */
  ghost predicate Circle(reg: Manifests, g: Manifests, base: Base, cycle: seq<Name>) {
    && |cycle| >= 2 && cycle[0] == cycle[|cycle| - 1] && Chain(g, base, cycle)
    && forall i :: 0 <= i < |cycle| ==> cycle[i] in reg
  }

  /** A reported error names a module that requires itself, or a closed chain of requirements. */
  ghost predicate Real(reg: Manifests, g: Manifests, base: Base, e: PlanError) {
    match e
    case RequiresItself(id) => id in g && id != "" && id in g[id].deps
    case CyclicDependency(cycle) => Circle(reg, g, base, cycle)
  }

  /** The module an error is about. */
  function Culprit(e: PlanError): Name {
    match e
    case RequiresItself(id) => id
    case CyclicDependency(cycle) => if cycle == [] then "" else cycle[0]
  }

  /** A chain of unmet requirements leads from the root to `n`. */
  ghost predicate Leads(g: Manifests, base: Base, root: Name, n: Name) {
    ReachedFrom(UnmetGraph(g, base), [root], n)
  }

  /** Some other module that the root leads to requires `m`. */
  ghost predicate Called(g: Manifests, base: Base, root: Name, m: Name) {
    exists n :: n != m && n in g && m in g[n].deps && Leads(g, base, root, n)
  }

  lemma LeadsToRoot(g: Manifests, base: Base, root: Name)
    ensures Leads(g, base, root, root)
  {
    var p := [root];
    assert IsPath(UnmetGraph(g, base), p) && p[0] in [root];
  }

  lemma LeadsOn(g: Manifests, base: Base, root: Name, n: Name, d: Name)
    requires CallsFor(g, base, n, d) && Leads(g, base, root, n)
    ensures Leads(g, base, root, d)
  {
    var u := UnmetGraph(g, base);
    UnmetIs(base, n, g[n].deps, d);
    var p :| IsPath(u, p) && p != [] && p[0] in [root] && p[|p| - 1] == n;
    var q := p + [d];
    forall i | 0 <= i < |q| - 1 ensures Edge(u, q[i], q[i + 1]) {
      if i < |p| - 1 { assert Edge(u, p[i], p[i + 1]); }
    }
    assert IsPath(u, q) && q[0] in [root] && q[|q| - 1] == d;
  }

  /** `cycleLabel`: the stack from the first occurrence of `id`, closed with `id`. */
  method CycleLabel(stack: seq<Name>, id: Name) returns (cycle: seq<Name>)
    requires id in stack
    ensures |cycle| >= 2 && cycle[0] == id && cycle[|cycle| - 1] == id
    ensures exists start :: 0 <= start < |stack| && id !in stack[..start] && cycle == stack[start..] + [id]
  {
    var start, i := 0, 0;
    while i < |stack| && stack[i] != id
      invariant 0 <= i <= |stack| && id !in stack[..i]
    {
      i := i + 1;
    }
    start := i;
    cycle := stack[start..] + [id];
  }

  lemma LabelIsChain(g: Manifests, base: Base, stack: seq<Name>, id: Name, start: nat)
    requires Chain(g, base, stack) && start < |stack|
    requires CallsFor(g, base, stack[|stack| - 1], id)
    ensures Chain(g, base, stack[start..] + [id])
  {
  }

  lemma PopOne(g: Manifests, base: Base, stack: seq<Name>, id: Name)
    requires Chain(g, base, stack) && stack != [] && stack[|stack| - 1] == id && id !in stack[..|stack| - 1]
    ensures var rest := stack[..|stack| - 1];
      Chain(g, base, rest) && Elements(rest) == Elements(stack) - {id} && (rest != [] ==> rest[0] == stack[0])
  {
    assert stack == stack[..|stack| - 1] + [id];
  }

  lemma PushOne(g: Manifests, order: seq<Name>, id: Name)
    requires id in g
    ensures Elements(order + [id]) == Elements(order) + {id}
    ensures ProvidedBy(g, order + [id]) == ProvidedBy(g, order) + Provides(g[id])
  {
    assert (order + [id])[..|order|] == order;
  }

  // ----- what a finished search has found -----

  /** What the planner has found: the modules in the order their check was finished, the verdict
      on each, and what it reports. */
  datatype Findings = Findings(finish: seq<Name>, ready: map<Name, bool>, missingModules: set<Name>,
                               missingCaps: set<(Name, string)>, errors: set<PlanError>)

  /** Nothing found is taken back. */
  ghost predicate Grows(f: Findings, f': Findings) {
    && f.finish <= f'.finish
    && f.missingModules <= f'.missingModules && f.errors <= f'.errors
    && (forall n :: n in f.ready ==> n in f'.ready && f'.ready[n] == f.ready[n])
    && (forall n, c :: n in f.ready ==> ((n, c) in f.missingCaps <==> (n, c) in f'.missingCaps))
  }

  ghost predicate CycleSeen(f: Findings) {
    exists e :: e in f.errors && e.CyclicDependency?
  }

  /** Requirement `d` of `n` was dealt with before the `k`th check was finished: it was checked
      itself, or reported, or needed nothing. */
  ghost predicate Followed(reg: Manifests, base: Base, f: Findings, visiting: set<Name>, n: Name, d: Name, k: nat)
    requires k <= |f.finish|
  {
    d != "" ==>
      if d == n then RequiresItself(n) in f.errors
      else if d in base.mounted then true
      else if d !in reg then d in f.missingModules
      else d in f.finish[..k] || (CycleSeen(f) && d in f.ready.Keys + visiting)
  }

  /** Every requirement of every finished module was dealt with. */
  ghost predicate Explored(reg: Manifests, g: Manifests, base: Base, f: Findings, visiting: set<Name>) {
    && Distinct(f.finish) && f.ready.Keys == Elements(f.finish) && f.ready.Keys <= g.Keys
    && forall k, d :: 0 <= k < |f.finish| && d in g[f.finish[k]].deps ==>
         Followed(reg, base, f, visiting, f.finish[k], d, k)
  }

  /** A module found ready before the `k`th check was finished provides `c`. */
  ghost predicate PlannedBefore(g: Manifests, f: Findings, k: int, c: string) {
    exists j :: 0 <= j < k && j < |f.finish| && f.finish[j] in f.ready && f.ready[f.finish[j]]
                && f.finish[j] in g && c in Provides(g[f.finish[j]])
  }

  /** Requirement `d` of `n` is met: `d` is mounted, or was found ready before. */
  ghost predicate Usable(reg: Manifests, base: Base, f: Findings, n: Name, d: Name, k: nat)
    requires k <= |f.finish|
  {
    d == "" || (d != n && (d in base.mounted || (d in reg && d in f.finish[..k] && d in f.ready && f.ready[d])))
  }

  /** The capabilities reported missing of a finished module are those it requires that are neither
      in the kit nor provided by a module found ready before it. */
  ghost predicate CapsFiled(g: Manifests, base: Base, f: Findings, k: nat)
    requires k < |f.finish| && f.finish[k] in g
  {
    forall c :: (f.finish[k], c) in f.missingCaps <==>
                  c in Requires(g[f.finish[k]]) && c !in base.caps && !PlannedBefore(g, f, k, c)
  }

  ghost predicate DepsUsable(reg: Manifests, g: Manifests, base: Base, f: Findings, n: Name, k: nat)
    requires k <= |f.finish| && n in g
  {
    forall d :: d in g[n].deps ==> Usable(reg, base, f, n, d, k)
  }

  /** A finished module is ready exactly when its requirements are met and no capability is missing. */
  ghost predicate Graded(reg: Manifests, g: Manifests, base: Base, f: Findings, k: nat)
    requires k < |f.finish| && f.finish[k] in g && f.finish[k] in f.ready
  {
    var n := f.finish[k];
    f.ready[n] <==> DepsUsable(reg, g, base, f, n, k) && forall c :: (n, c) !in f.missingCaps
  }

  ghost predicate AllGraded(reg: Manifests, g: Manifests, base: Base, f: Findings) {
    forall k :: 0 <= k < |f.finish| ==>
      f.finish[k] in g && f.finish[k] in f.ready && CapsFiled(g, base, f, k) && Graded(reg, g, base, f, k)
  }

  lemma GrowsOn(f: Findings, g: Findings, h: Findings)
    requires Grows(f, g) && Grows(g, h)
    ensures Grows(f, h)
  {
  }

  lemma FollowedLater(reg: Manifests, base: Base, f: Findings, f': Findings, visiting: set<Name>,
                      visiting': set<Name>, n: Name, d: Name, k: nat, k': nat)
    requires Grows(f, f') && k <= |f.finish| && k <= k' <= |f'.finish|
    requires visiting <= visiting' + f'.ready.Keys
    requires Followed(reg, base, f, visiting, n, d, k)
    ensures Followed(reg, base, f', visiting', n, d, k')
  {
    assert f.finish[..k] == f'.finish[..k] <= f'.finish[..k'];
    if CycleSeen(f) {
      var e :| e in f.errors && e.CyclicDependency?;
      assert e in f'.errors;
    }
  }

  /** More reports leave what was dealt with dealt with. */
  lemma ExploredKept(reg: Manifests, g: Manifests, base: Base, f: Findings, f': Findings,
                     visiting: set<Name>, visiting': set<Name>)
    requires Explored(reg, g, base, f, visiting) && Grows(f, f') && visiting <= visiting'
    requires f'.finish == f.finish && f'.ready == f.ready
    ensures Explored(reg, g, base, f', visiting')
  {
    hide Followed, Grows;
    forall k, d | 0 <= k < |f.finish| && d in g[f.finish[k]].deps
      ensures Followed(reg, base, f', visiting', f.finish[k], d, k)
    {
      FollowedLater(reg, base, f, f', visiting, visiting', f.finish[k], d, k, k);
    }
  }

  /** One more module is finished. */
  lemma ExploredAppend(reg: Manifests, g: Manifests, base: Base, f: Findings, visiting: set<Name>, n: Name, ok: bool)
    requires Explored(reg, g, base, f, visiting) && n in g && n in visiting && n !in f.ready
    requires forall d :: d in g[n].deps ==> Followed(reg, base, f, visiting, n, d, |f.finish|)
    ensures var f' := f.(finish := f.finish + [n], ready := f.ready[n := ok]);
      Explored(reg, g, base, f', visiting - {n})
  {
    hide Followed;
    var f' := f.(finish := f.finish + [n], ready := f.ready[n := ok]);
    assert Grows(f, f');
    assert Elements(f'.finish) == Elements(f.finish) + {n};
    assert n !in f.finish by { assert n in f.finish <==> n in Elements(f.finish); }
    forall k, d | 0 <= k < |f'.finish| && d in g[f'.finish[k]].deps
      ensures Followed(reg, base, f', visiting - {n}, f'.finish[k], d, k)
    {
      assert k < |f.finish| ==> f'.finish[k] == f.finish[k];
      FollowedLater(reg, base, f, f', visiting, visiting - {n}, f'.finish[k], d, k, k);
    }
  }

  /** Whether a requirement is met does not change once it was dealt with. */
  lemma UsableLater(reg: Manifests, g: Manifests, base: Base, f: Findings, f': Findings, visiting: set<Name>,
                    n: Name, d: Name)
    requires Grows(f, f') && f.ready.Keys == Elements(f.finish) && f'.ready.Keys == Elements(f'.finish)
    requires visiting !! f'.ready.Keys && Followed(reg, base, f, visiting, n, d, |f.finish|)
    ensures Usable(reg, base, f, n, d, |f.finish|) <==> Usable(reg, base, f', n, d, |f'.finish|)
  {
    assert f.finish[..|f.finish|] == f.finish && f'.finish[..|f'.finish|] == f'.finish;
    assert d in f.finish <==> d in Elements(f.finish);
    assert d in f'.finish <==> d in Elements(f'.finish);
  }

  lemma SameRequirements(reg: Manifests, g: Manifests, base: Base, f: Findings, f': Findings, visiting: set<Name>, n: Name)
    requires f'.finish == f.finish && f'.ready == f.ready && Grows(f, f') && n in g
    requires forall d :: d in g[n].deps ==> Followed(reg, base, f, visiting, n, d, |f.finish|)
    ensures forall d :: d in g[n].deps ==> Followed(reg, base, f', visiting, n, d, |f'.finish|)
    ensures DepsUsable(reg, g, base, f, n, |f.finish|) <==> DepsUsable(reg, g, base, f', n, |f'.finish|)
  {
    hide Followed;
    forall d | d in g[n].deps ensures Followed(reg, base, f', visiting, n, d, |f'.finish|) {
      FollowedLater(reg, base, f, f', visiting, visiting, n, d, |f.finish|, |f'.finish|);
    }
    forall d | d in g[n].deps
      ensures Usable(reg, base, f, n, d, |f.finish|) <==> Usable(reg, base, f', n, d, |f'.finish|)
    {
    }
  }

  lemma PlannedBeforeKept(g: Manifests, f: Findings, f': Findings, k: int, c: string)
    requires Grows(f, f') && k <= |f.finish| && forall n :: n in f.finish ==> n in f.ready
    ensures PlannedBefore(g, f, k, c) <==> PlannedBefore(g, f', k, c)
  {
    forall j | 0 <= j < k ensures f.finish[j] == f'.finish[j] && f.finish[j] in f.finish {}
    if PlannedBefore(g, f, k, c) {
      var j :| 0 <= j < k && f.finish[j] in f.ready && f.ready[f.finish[j]]
               && f.finish[j] in g && c in Provides(g[f.finish[j]]);
      assert f'.finish[j] in g && c in Provides(g[f'.finish[j]]);
    }
    if PlannedBefore(g, f', k, c) {
      var j :| 0 <= j < k && f'.finish[j] in f'.ready && f'.ready[f'.finish[j]]
               && f'.finish[j] in g && c in Provides(g[f'.finish[j]]);
      assert f.finish[j] in g && c in Provides(g[f.finish[j]]);
    }
  }

  lemma GradedKept(reg: Manifests, g: Manifests, base: Base, f: Findings, f': Findings, k: nat)
    requires Grows(f, f') && k < |f.finish| && (forall n :: n in f.finish ==> n in f.ready)
    requires f.finish[k] in g && CapsFiled(g, base, f, k) && Graded(reg, g, base, f, k)
    ensures f'.finish[k] == f.finish[k] && CapsFiled(g, base, f', k) && Graded(reg, g, base, f', k)
  {
    hide PlannedBefore;
    var n := f.finish[k];
    assert n in f.finish && f'.finish[k] == n && f.finish[..k] == f'.finish[..k];
    forall d | d in g[n].deps ensures Usable(reg, base, f, n, d, k) <==> Usable(reg, base, f', n, d, k) {
      assert d in f.finish[..k] ==> d in f.finish;
    }
    forall c ensures PlannedBefore(g, f, k, c) <==> PlannedBefore(g, f', k, c) {
      PlannedBeforeKept(g, f, f', k, c);
    }
  }

  /** The verdicts stand when more is reported. */
  lemma AllGradedKept(reg: Manifests, g: Manifests, base: Base, f: Findings, f': Findings)
    requires Grows(f, f') && f'.finish == f.finish && AllGraded(reg, g, base, f)
    ensures AllGraded(reg, g, base, f')
  {
    hide CapsFiled, Graded;
    forall k | 0 <= k < |f'.finish|
      ensures f'.finish[k] in g && f'.finish[k] in f'.ready && CapsFiled(g, base, f', k) && Graded(reg, g, base, f', k)
    {
      GradedKept(reg, g, base, f, f', k);
    }
  }

  lemma AllGradedAppend(reg: Manifests, g: Manifests, base: Base, f: Findings, n: Name, ok: bool)
    requires AllGraded(reg, g, base, f) && n in g && n !in f.ready
    requires forall c :: (n, c) in f.missingCaps <==>
                           c in Requires(g[n]) && c !in base.caps && !PlannedBefore(g, f, |f.finish|, c)
    requires ok <==> DepsUsable(reg, g, base, f, n, |f.finish|) && forall c :: (n, c) !in f.missingCaps
    ensures AllGraded(reg, g, base, f.(finish := f.finish + [n], ready := f.ready[n := ok]))
  {
    var f' := f.(finish := f.finish + [n], ready := f.ready[n := ok]);
    var k := |f.finish|;
    assert Grows(f, f') && f'.finish[..k] == f.finish == f.finish[..k];
    assert AllGraded(reg, g, base, f') by {
      hide CapsFiled, Graded;
      assert CapsFiled(g, base, f', k) && Graded(reg, g, base, f', k) by {
        LastGraded(reg, g, base, f, n, ok);
      }
      forall j | 0 <= j < |f'.finish|
        ensures f'.finish[j] in g && f'.finish[j] in f'.ready && CapsFiled(g, base, f', j) && Graded(reg, g, base, f', j)
      {
        if j < k {
          GradedKept(reg, g, base, f, f', j);
        }
      }
    }
  }

  lemma LastGraded(reg: Manifests, g: Manifests, base: Base, f: Findings, n: Name, ok: bool)
    requires n in g && n !in f.ready && forall m :: m in f.finish ==> m in f.ready
    requires forall c :: (n, c) in f.missingCaps <==>
                           c in Requires(g[n]) && c !in base.caps && !PlannedBefore(g, f, |f.finish|, c)
    requires ok <==> DepsUsable(reg, g, base, f, n, |f.finish|) && forall c :: (n, c) !in f.missingCaps
    ensures var f' := f.(finish := f.finish + [n], ready := f.ready[n := ok]);
      CapsFiled(g, base, f', |f.finish|) && Graded(reg, g, base, f', |f.finish|)
  {
    hide PlannedBefore, Requires;
    var f' := f.(finish := f.finish + [n], ready := f.ready[n := ok]);
    var k := |f.finish|;
    assert Grows(f, f') && f'.finish[..k] == f.finish == f.finish[..k];
    forall c ensures PlannedBefore(g, f, k, c) <==> PlannedBefore(g, f', k, c) {
      PlannedBeforeKept(g, f, f', k, c);
    }
    forall d | d in g[n].deps ensures Usable(reg, base, f, n, d, k) <==> Usable(reg, base, f', n, d, k) {
    }
  }

  lemma PlannedAppend(g: Manifests, f: Findings, n: Name, ok: bool, c: string)
    requires n in g && n !in f.ready && forall m :: m in f.finish ==> m in f.ready
    ensures var f' := f.(finish := f.finish + [n], ready := f.ready[n := ok]);
      PlannedBefore(g, f', |f'.finish|, c) <==> PlannedBefore(g, f, |f.finish|, c) || (ok && c in Provides(g[n]))
  {
    hide Provides;
    var f' := f.(finish := f.finish + [n], ready := f.ready[n := ok]);
    var k := |f.finish|;
    assert Grows(f, f') && f'.finish[k] == n;
    PlannedBeforeKept(g, f, f', k, c);
    if PlannedBefore(g, f', |f'.finish|, c) && !PlannedBefore(g, f', k, c) {
      var j :| 0 <= j < |f'.finish| && f'.finish[j] in f'.ready && f'.ready[f'.finish[j]]
               && f'.finish[j] in g && c in Provides(g[f'.finish[j]]);
      assert j == k;
    }
  }

  /** The findings once the module on top of the stack is finished. */
  lemma OneMoreFinished(reg: Manifests, g: Manifests, base: Base, f: Findings, visiting: set<Name>,
                        planned: set<string>, n: Name, ok: bool)
    requires Explored(reg, g, base, f, visiting) && AllGraded(reg, g, base, f)
    requires forall c :: c in planned <==> PlannedBefore(g, f, |f.finish|, c)
    requires n in g && n in visiting && n !in f.ready
    requires forall d :: d in g[n].deps ==> Followed(reg, base, f, visiting, n, d, |f.finish|)
    requires forall c :: (n, c) in f.missingCaps <==> c in Requires(g[n]) && c !in base.caps && c !in planned
    requires ok <==> DepsUsable(reg, g, base, f, n, |f.finish|) && forall c :: (n, c) !in f.missingCaps
    ensures var f' := f.(finish := f.finish + [n], ready := f.ready[n := ok]);
      && Explored(reg, g, base, f', visiting - {n}) && AllGraded(reg, g, base, f') && Grows(f, f')
      && forall c :: PlannedBefore(g, f', |f'.finish|, c) <==> c in planned || (ok && c in Provides(g[n]))
  {
    hide Followed, DepsUsable, PlannedBefore, Requires, Provides;
    var f' := f.(finish := f.finish + [n], ready := f.ready[n := ok]);
    assert forall m :: m in f.finish ==> m in f.ready;
    ExploredAppend(reg, g, base, f, visiting, n, ok);
    AllGradedAppend(reg, g, base, f, n, ok);
    forall c ensures PlannedBefore(g, f', |f'.finish|, c) <==> c in planned || (ok && c in Provides(g[n])) {
      PlannedAppend(g, f, n, ok, c);
    }
  }

  // ----- what a search that left nothing out has found, in terms of paths -----

  lemma Dealt(reg: Manifests, g: Manifests, base: Base, f: Findings, n: Name, d: Name)
    requires Explored(reg, g, base, f, {}) && n in f.ready && n in g && d in g[n].deps && d != ""
    ensures d == n ==> RequiresItself(n) in f.errors
    ensures d != n && d !in base.mounted && d !in reg ==> d in f.missingModules
    ensures d != n && d !in base.mounted && d in reg ==> d in f.ready
  {
    assert n in Elements(f.finish);
    var k :| 0 <= k < |f.finish| && f.finish[k] == n;
    assert Followed(reg, base, f, {}, f.finish[k], d, k);
    assert d in f.finish[..k] ==> d in f.finish;
  }

  /** Every module of `g` that a path leads to was checked. */
  lemma {:induction false} AllChecked(reg: Manifests, g: Manifests, base: Base, root: Name, f: Findings, p: seq<Name>)
    requires Explored(reg, g, base, f, {}) && root in f.ready && root in g && g == reg[root := g[root]]
    requires IsPath(UnmetGraph(g, base), p) && p != [] && p[0] == root && p[|p| - 1] in g
    ensures p[|p| - 1] in f.ready
    decreases |p|
  {
    if |p| > 1 {
      var front, n, d := p[..|p| - 1], p[|p| - 2], p[|p| - 1];
      assert Edge(UnmetGraph(g, base), n, d);
      assert IsPath(UnmetGraph(g, base), front) by {
        forall i | 0 <= i < |front| - 1 ensures Edge(UnmetGraph(g, base), front[i], front[i + 1]) {
          assert Edge(UnmetGraph(g, base), p[i], p[i + 1]);
        }
      }
      AllChecked(reg, g, base, root, f, front);
      UnmetIs(base, n, g[n].deps, d);
      Dealt(reg, g, base, f, n, d);
    }
  }

  lemma LedIsChecked(reg: Manifests, g: Manifests, base: Base, root: Name, f: Findings, n: Name)
    requires Explored(reg, g, base, f, {}) && root in f.ready && root in g && g == reg[root := g[root]]
    requires n in g && Leads(g, base, root, n)
    ensures n in f.ready
  {
    var p :| IsPath(UnmetGraph(g, base), p) && p != [] && p[0] in [root] && p[|p| - 1] == n;
    AllChecked(reg, g, base, root, f, p);
  }

  /** Around a circle each check would have to be finished before the one that asks for it. */
  lemma {:induction false} EverEarlier(
    reg: Manifests, g: Manifests, base: Base, f: Findings, cycle: seq<Name>, i: nat, first: nat) returns (k: nat)
    requires Explored(reg, g, base, f, {}) && Circle(reg, g, base, cycle) && !CycleSeen(f)
    requires i < |cycle| && first < |f.finish| && f.finish[first] == cycle[0]
    ensures k + i <= first && f.finish[k] == cycle[i]
    decreases i
  {
    if i == 0 {
      k := first;
    } else {
      var j := EverEarlier(reg, g, base, f, cycle, i - 1, first);
      assert CallsFor(g, base, cycle[i - 1], cycle[i - 1 + 1]);
      assert Followed(reg, base, f, {}, f.finish[j], cycle[i], j);
      k :| 0 <= k < j && f.finish[..j][k] == cycle[i];
    }
  }

  /** A circle of registered modules on the way does not go unreported. */
  lemma CircleIsSeen(reg: Manifests, g: Manifests, base: Base, root: Name, f: Findings, cycle: seq<Name>)
    requires Explored(reg, g, base, f, {}) && root in f.ready && root in g && g == reg[root := g[root]]
    requires Circle(reg, g, base, cycle) && Leads(g, base, root, cycle[0])
    ensures CycleSeen(f)
  {
    if !CycleSeen(f) {
      LedIsChecked(reg, g, base, root, f, cycle[0]);
      assert cycle[0] in Elements(f.finish);
      var first :| 0 <= first < |f.finish| && f.finish[first] == cycle[0];
      var k := EverEarlier(reg, g, base, f, cycle, |cycle| - 1, first);
    }
  }

  /** A module that the root leads to provides `c`. */
  ghost predicate Offered(g: Manifests, base: Base, root: Name, c: string) {
    exists n :: n in g && Leads(g, base, root, n) && c in Provides(g[n])
  }

  lemma LackIsSeen(reg: Manifests, g: Manifests, base: Base, root: Name, f: Findings, n: Name, c: string)
    requires Explored(reg, g, base, f, {}) && AllGraded(reg, g, base, f)
    requires root in f.ready && root in g && g == reg[root := g[root]]
    requires forall m :: m in f.ready ==> Leads(g, base, root, m)
    requires n in g && Leads(g, base, root, n) && c in Requires(g[n]) && c !in base.caps && !Offered(g, base, root, c)
    ensures (n, c) in f.missingCaps
  {
    hide Graded, Provides, Requires, Leads, Explored;
    LedIsChecked(reg, g, base, root, f, n);
    InFinish(reg, g, base, f, n);
    var k :| 0 <= k < |f.finish| && f.finish[k] == n;
    assert CapsFiled(g, base, f, k);
  }

  lemma InFinish(reg: Manifests, g: Manifests, base: Base, f: Findings, n: Name)
    requires Explored(reg, g, base, f, {}) && n in f.ready
    ensures exists k :: 0 <= k < |f.finish| && f.finish[k] == n
  {
    assert n in Elements(f.finish);
  }

  /** The reports are exact: nothing that the root's requirements lead to goes unreported. */
  lemma NothingLeftOut(reg: Manifests, g: Manifests, base: Base, root: Name, f: Findings)
    requires Explored(reg, g, base, f, {}) && AllGraded(reg, g, base, f)
    requires root in f.ready && root in g && g == reg[root := g[root]]
    requires forall n :: n in f.ready ==> n in g && Leads(g, base, root, n)
    ensures forall n :: n in f.ready <==> n in g && Leads(g, base, root, n)
    ensures forall m :: m != "" && m !in reg && m !in base.mounted && Called(g, base, root, m) ==>
              m in f.missingModules
    ensures forall n :: n in g && n != "" && n in g[n].deps && Leads(g, base, root, n) ==> RequiresItself(n) in f.errors
    ensures (exists cycle :: Circle(reg, g, base, cycle) && Leads(g, base, root, cycle[0])) ==> CycleSeen(f)
    ensures forall n, c :: n in g && Leads(g, base, root, n) && c in Requires(g[n]) ==>
              c in base.caps || Offered(g, base, root, c) || (n, c) in f.missingCaps
  {
    hide Explored, AllGraded, Leads, Circle, Requires, Offered, CycleSeen;
    forall n | n in g && Leads(g, base, root, n) ensures n in f.ready {
      LedIsChecked(reg, g, base, root, f, n);
    }
    forall m | m != "" && m !in reg && m !in base.mounted && Called(g, base, root, m)
      ensures m in f.missingModules
    {
      var n :| n != m && n in g && m in g[n].deps && Leads(g, base, root, n);
      Dealt(reg, g, base, f, n, m);
    }
    forall n | n in g && n != "" && n in g[n].deps && Leads(g, base, root, n) ensures RequiresItself(n) in f.errors {
      Dealt(reg, g, base, f, n, n);
    }
    CirclesAreSeen(reg, g, base, root, f);
    forall n, c | n in g && Leads(g, base, root, n) && c in Requires(g[n]) && c !in base.caps
                  && !Offered(g, base, root, c)
      ensures (n, c) in f.missingCaps
    {
      LackIsSeen(reg, g, base, root, f, n, c);
    }
  }

  lemma CirclesAreSeen(reg: Manifests, g: Manifests, base: Base, root: Name, f: Findings)
    requires Explored(reg, g, base, f, {}) && root in f.ready && root in g && g == reg[root := g[root]]
    ensures (exists cycle :: Circle(reg, g, base, cycle) && Leads(g, base, root, cycle[0])) ==> CycleSeen(f)
  {
    if cycle :| Circle(reg, g, base, cycle) && Leads(g, base, root, cycle[0]) {
      CircleIsSeen(reg, g, base, root, f, cycle);
    }
  }

  // ----- the planner -----

  /** The stack of modules being visited, and the set of them. */
  ghost predicate Shaped(reg: Manifests, base: Base, g: Manifests, root: Name, stack: seq<Name>,
                         visiting: set<Name>, visited: set<Name>)
  {
    && Keyed(reg) && root in g && g == reg[root := g[root]]
    && (stack != [] ==> stack[0] == root)
    && visiting == Elements(stack) && visiting <= g.Keys
    && Chain(g, base, stack) && (forall i :: 1 <= i < |stack| ==> stack[i] in reg)
    && visiting !! visited && visited <= g.Keys
    && (forall n :: n in stack || n in visited ==> Leads(g, base, root, n))
  }

  /** As long as there is nothing to report, every finished module is ready. */
  ghost predicate Tidy(g: Manifests, order: seq<Name>, visited: map<Name, bool>, planned: set<string>) {
    && (forall n :: n in visited ==> visited[n])
    && visited.Keys == Elements(order)
    && planned == ProvidedBy(g, order)
  }

  lemma ShapePushed(reg: Manifests, base: Base, g: Manifests, root: Name, stack: seq<Name>,
                    visiting: set<Name>, visited: set<Name>, n: Name)
    requires Shaped(reg, base, g, root, stack, visiting, visited)
    requires n in g && n !in visited && Leads(g, base, root, n)
    requires if stack == [] then n == root else CallsFor(g, base, stack[|stack| - 1], n) && n in reg
    ensures Shaped(reg, base, g, root, stack + [n], visiting + {n}, visited)
  {
    hide Leads, Keyed, CallsFor;
    assert Elements(stack + [n]) == Elements(stack) + {n};
  }

  lemma ShapePopped(reg: Manifests, base: Base, g: Manifests, root: Name, stack: seq<Name>,
                    visiting: set<Name>, visited: set<Name>, n: Name)
    requires Shaped(reg, base, g, root, stack, visiting, visited)
    requires stack != [] && stack[|stack| - 1] == n && n !in stack[..|stack| - 1]
    ensures n in visiting && n !in visited
    ensures Shaped(reg, base, g, root, stack[..|stack| - 1], visiting - {n}, visited + {n})
  {
    hide Leads, Keyed, Chain;
    PopOne(g, base, stack, n);
    assert n in stack;
  }

  lemma TidyPushed(g: Manifests, order: seq<Name>, visited: map<Name, bool>, planned: set<string>, n: Name)
    requires Tidy(g, order, visited, planned) && n in g
    ensures Tidy(g, order + [n], visited[n := true], planned + Provides(g[n]))
  {
    hide Provides, ProvidedBy;
    PushOne(g, order, n);
  }

  class Planner {
    const reg: Manifests
    const base: Base
    var planned: map<string, Name>
    var visiting: set<Name>
    var stack: seq<Name>
    var visited: map<Name, bool>
    var missingModules: set<Name>
    var missingCaps: set<(Name, string)>
    var errors: set<PlanError>
    /** The modules found ready so far, in the order they were finished. */
    ghost var order: seq<Name>
    /** The modules whose check is over, in the order they were finished. */
    ghost var finish: seq<Name>

    constructor (reg: Manifests, base: Base)
      ensures this.reg == reg && this.base == base
      ensures planned == map[] && visiting == {} && stack == [] && visited == map[] && order == [] && finish == []
      ensures missingModules == {} && missingCaps == {} && errors == {}
    {
      this.reg, this.base := reg, base;
      planned, visiting, stack, visited, order, finish := map[], {}, [], map[], [], [];
      missingModules, missingCaps, errors := {}, {}, {};
    }

    /** Nothing to report; `result` calls this Ready. */
    predicate Clean()
      reads `errors, `missingModules, `missingCaps
    {
      missingModules == {} && missingCaps == {} && errors == {}
    }

    ghost function Found(): Findings
      reads `finish, `visited, `errors, `missingModules, `missingCaps
    {
      Findings(finish, visited, missingModules, missingCaps, errors)
    }

    /** What is planned is what the modules found ready provide. */
    ghost predicate PlannedAre(g: Manifests)
      reads `planned, `finish, `visited, `errors, `missingModules, `missingCaps
    {
      forall c :: c in planned <==> PlannedBefore(g, Found(), |finish|, c)
    }

    /** Missing capabilities are those of finished modules. */
    ghost predicate CapsOwned()
      reads `visited, `missingCaps
    {
      forall n, c :: (n, c) in missingCaps ==> n in visited
    }

    /** The search so far left nothing out. */
    ghost predicate Thorough(g: Manifests)
      reads this
    {
      Explored(reg, g, base, Found(), visiting) && AllGraded(reg, g, base, Found()) && PlannedAre(g)
    }

    /** A module that is reported missing is neither mounted nor registered, and required by a
        module that the root leads to. */
    ghost predicate Absent(g: Manifests, root: Name, m: Name) {
      m != "" && m !in reg && m !in base.mounted && Called(g, base, root, m)
    }

    /** A capability that is reported missing is required by that module, which the root leads to,
        and not in the kit. */
    ghost predicate Lacking(g: Manifests, root: Name, n: Name, c: string) {
      n in g && c in Requires(g[n]) && c !in base.caps && Leads(g, base, root, n)
    }

    /** Every report is genuine. */
    ghost predicate Honest(g: Manifests, root: Name)
      reads `errors, `missingModules, `missingCaps
    {
      && (forall e :: e in errors ==> Real(reg, g, base, e) && Leads(g, base, root, Culprit(e)))
      && (forall m :: m in missingModules ==> Absent(g, root, m))
      && (forall n, c :: (n, c) in missingCaps ==> Lacking(g, root, n, c))
    }

    ghost predicate Valid(g: Manifests, root: Name)
      reads this
    {
      Coherent(g, root) && Honest(g, root) && Thorough(g)
    }

    ghost predicate Coherent(g: Manifests, root: Name)
      reads this
    {
      && Shaped(reg, base, g, root, stack, visiting, visited.Keys)
      && (Clean() ==> Tidy(g, order, visited, planned.Keys))
    }

    lemma Begins(g: Manifests, root: Name)
      requires Keyed(reg) && root in g && g == reg[root := g[root]]
      requires planned == map[] && visiting == {} && stack == [] && visited == map[] && order == [] && finish == []
      requires Clean()
      ensures Valid(g, root) && CapsOwned()
    {
    }

    /** What the finished search comes to. */
    lemma Ends(g: Manifests, root: Name)
      requires Valid(g, root) && stack == [] && (root in visited || root in visiting) && root != ""
      ensures AllGraded(reg, g, base, Found()) && Distinct(finish)
      ensures forall n :: n in finish <==> n in g && Leads(g, base, root, n)
      ensures forall m :: m in missingModules <==>
                m != "" && m !in reg && m !in base.mounted && Called(g, base, root, m)
      ensures forall n :: RequiresItself(n) in errors <==>
                n in g && n != "" && n in g[n].deps && Leads(g, base, root, n)
      ensures forall cycle :: CyclicDependency(cycle) in errors ==>
                Circle(reg, g, base, cycle) && Leads(g, base, root, cycle[0])
      ensures (exists cycle :: CyclicDependency(cycle) in errors) <==>
              exists cycle :: Circle(reg, g, base, cycle) && Leads(g, base, root, cycle[0])
      ensures forall n, c :: n in g && Leads(g, base, root, n) && c in Requires(g[n]) ==>
                c in base.caps || Offered(g, base, root, c) || (n, c) in missingCaps
    {
      hide Leads, AllGraded, Requires, Offered, Called, Chain, Followed;
      assert visiting == {};
      NothingLeftOut(reg, g, base, root, Found());
      assert Explored(reg, g, base, Found(), {}) && forall n :: n in finish <==> n in Elements(finish);
      assert forall n :: RequiresItself(n) in errors ==> Real(reg, g, base, RequiresItself(n));
      assert forall cycle :: CyclicDependency(cycle) in errors ==>
          Real(reg, g, base, CyclicDependency(cycle)) && Leads(g, base, root, Culprit(CyclicDependency(cycle)));
      if CycleSeen(Found()) {
        var e :| e in errors && e.CyclicDependency?;
        assert CyclicDependency(e.cycle) in errors;
      }
    }

    /** What `check` comes to on a module that is not finished and not being visited. */
    ghost function Planned(g: Manifests, id: Name, order: seq<Name>): Option<seq<Name>>
      reads this
    {
      if id in order then Some(order)
      else if id in stack || id !in g then None
      else PlanOne(g, base, stack, order, id)
    }

    method Check(desc: Descriptor, ghost g: Manifests, ghost root: Name) returns (ready: bool)
      requires Valid(g, root)
      requires IdOf(desc) in g && (IdOf(desc) !in stack ==> g[IdOf(desc)] == desc)
      requires (stack == [] ==> IdOf(desc) == root) && Leads(g, base, root, IdOf(desc))
      requires stack != [] ==> CallsFor(g, base, stack[|stack| - 1], IdOf(desc)) && IdOf(desc) in reg
      requires CapsOwned()
      modifies this
      ensures Valid(g, root) && stack == old(stack)
      ensures CapsOwned() && Grows(old(Found()), Found())
      ensures IdOf(desc) in visited || (IdOf(desc) in visiting && CycleSeen(Found()))
      ensures ready <==> IdOf(desc) in visited && visited[IdOf(desc)]
      ensures old(Clean()) && ready ==> Clean() && Planned(g, IdOf(desc), old(order)) == Some(order)
      ensures old(Clean()) && !ready ==> !Clean() && Planned(g, IdOf(desc), old(order)).None?
      ensures !old(Clean()) ==> !Clean()
      decreases g.Keys - Elements(stack), 0
    {
      hide Clean, PlanAll, PlanOne, Chain, Keyed, ProvidedBy, Requires, Leads, Thorough;
      var id := IdOf(desc);
      WhereIs(id, g, root);
      if id in visited {
        return visited[id];
      }
      if id in visiting {
        ReportCycle(id, g, root);
        return false;
      }
      PushShrinks(g.Keys, stack, id);
      ready := CheckNew(desc, id, g, root);
    }

    /** A module is finished, being visited, or new. */
    lemma WhereIs(id: Name, g: Manifests, root: Name)
      requires Valid(g, root)
      ensures Clean() ==> (id in visited <==> id in order) && (id in visited ==> visited[id])
      ensures id in visiting <==> id in stack
      ensures id in visited ==> id !in visiting
      ensures id in visited && !visited[id] ==> !Clean()
    {
      assert id in Elements(order) <==> id in order;
    }

    /** The body of `check` for a module seen for the first time. */
    method CheckNew(desc: Descriptor, id: Name, ghost g: Manifests, ghost root: Name) returns (ready: bool)
      requires Valid(g, root) && id in g && g[id] == desc && id !in visited && id !in visiting && id !in stack
      requires Leads(g, base, root, id)
      requires if stack == [] then id == root else CallsFor(g, base, stack[|stack| - 1], id) && id in reg
      requires CapsOwned()
      modifies this
      ensures Valid(g, root) && stack == old(stack)
      ensures CapsOwned() && Grows(old(Found()), Found()) && id in visited && ready == visited[id]
      ensures old(Clean()) && ready ==> Clean() && PlanOne(g, base, stack, old(order), id) == Some(order)
      ensures old(Clean()) && !ready ==> !Clean() && PlanOne(g, base, stack, old(order), id).None?
      ensures !old(Clean()) ==> !Clean()
      decreases g.Keys - Elements(stack + [id]), 2 + |desc.deps|
    {
      hide PlanAll, Valid, Coherent, Honest, Thorough, Shaped, ProvidedBy, Requires, Provides, Leads, CallsFor, MayLeave,
        Grows, DepsUsable, Followed, Unavailable, CycleSeen, Planned, Keyed, Settled, PlanOne, CapsChecked, Covered,
        Distinct, AllFollowed;
      ghost var before, planBefore := Found(), order;
      Enter(id, g, root);
      ready := CheckDependencies(desc, id, g, root);
      ghost var f := Found();
      BeingVisited(id, g, root);
      PlanJoins(g, old(stack), planBefore, desc, id, root);
      var met := CheckCapabilities(desc, id, g, root);
      NothingToAdd(f, desc, id, ready, met, g);
      ghost var f' := Found();
      GrowsOn(before, f, f');
      ready := ready && met;
      Leave(desc, id, ready, g, root);
      GrowsOn(before, f', Found());
    }

    /** The required capabilities are in the kit or planned. */
    predicate Covered(desc: Descriptor)
      reads this`planned
    {
      Requires(desc) <= base.caps + planned.Keys
    }

    /** A module is planned by planning its requirements and then checking its capabilities. */
    lemma PlanJoins(g: Manifests, stack': seq<Name>, before: seq<Name>, desc: Descriptor, id: Name, root: Name)
      requires Valid(g, root) && id in g && id !in stack' && g[id] == desc
      ensures var all, one := PlanAll(g, base, stack' + [id], before, id, desc.deps), PlanOne(g, base, stack', before, id);
        && (all.None? ==> one.None?)
        && (Clean() && all == Some(order) && Covered(desc) ==> one == Some(order + [id]))
        && (Clean() && all == Some(order) && !Covered(desc) ==> one.None?)
    {
      hide PlanAll, Shaped, Honest, Thorough, Requires, ProvidedBy;
    }

    lemma BeingVisited(id: Name, g: Manifests, root: Name)
      requires Valid(g, root) && id in stack
      ensures id !in visited
    {
      assert id in visiting;
    }

    /** The outcome of the loop over the capabilities, from the findings before it. */
    ghost predicate CapsChecked(f: Findings, desc: Descriptor, id: Name, met: bool)
      reads this
    {
      && f.finish == finish && f.ready == visited && Grows(f, Found())
      && missingCaps == f.missingCaps + Unavailable(desc, id) && (met <==> Covered(desc))
    }

    /** All requirements of `id` were looked at, and `ready` is the verdict. */
    ghost predicate MayLeave(desc: Descriptor, id: Name, ready: bool, g: Manifests)
      requires id in g
      reads this
    {
      && (forall d :: d in desc.deps ==> Followed(reg, base, Found(), visiting, id, d, |finish|))
      && (forall c :: (id, c) in missingCaps <==> c in Requires(desc) && c !in base.caps && c !in planned)
      && (forall n, c :: (n, c) in missingCaps ==> n in visited || n == id)
      && (ready <==> DepsUsable(reg, g, base, Found(), id, |finish|) && forall c :: (id, c) !in missingCaps)
    }

    lemma NothingToAdd(f: Findings, desc: Descriptor, id: Name, ready: bool, met: bool, g: Manifests)
      requires CapsChecked(f, desc, id, met) && id in g && g[id] == desc
      requires id !in visited && forall n, c :: (n, c) in f.missingCaps ==> n in f.ready
      requires forall d :: d in desc.deps ==> Followed(reg, base, f, visiting, id, d, |f.finish|)
      requires ready <==> DepsUsable(reg, g, base, f, id, |f.finish|)
      ensures MayLeave(desc, id, ready && met, g) && Grows(f, Found())
    {
      hide Followed, DepsUsable, Requires, Grows;
      SameRequirements(reg, g, base, f, Found(), visiting, id);
      assert met <==> forall c :: (id, c) !in missingCaps by {
        if c :| c in Requires(desc) && c !in base.caps && c !in planned {
          assert (id, c) in missingCaps;
        }
      }
    }

    method ReportCycle(id: Name, ghost g: Manifests, ghost root: Name)
      requires Valid(g, root) && id in stack && CallsFor(g, base, stack[|stack| - 1], id) && id in reg
      modifies this`errors
      ensures Valid(g, root) && !Clean() && Grows(old(Found()), Found()) && CycleSeen(Found())
    {
      hide Leads, Absent, Lacking, Explored, AllGraded, CallsFor, PlannedBefore, Tidy, Keyed, Grows;
      ghost var f := Found();
      var cycle := CycleLabel(stack, id);
      ghost var start :| 0 <= start < |stack| && cycle == stack[start..] + [id];
      LabelIsChain(g, base, stack, id, start);
      var e := CyclicDependency(cycle);
      errors := errors + {e};
      assert e in Found().errors && Real(reg, g, base, e);
      Reported(f, g, root);
    }

    /** One more error or missing module leaves the rest in order. */
    lemma Reported(f: Findings, g: Manifests, root: Name)
      requires Shaped(reg, base, g, root, stack, visiting, visited.Keys) && Honest(g, root) && !Clean()
      requires Explored(reg, g, base, f, visiting) && AllGraded(reg, g, base, f)
      requires forall c :: c in planned <==> PlannedBefore(g, f, |finish|, c)
      requires f.finish == finish && f.ready == visited && f.missingCaps == missingCaps
      requires f.errors <= errors && f.missingModules <= missingModules
      ensures Valid(g, root) && Grows(f, Found())
    {
      hide Shaped, Honest, Explored, AllGraded, PlannedBefore, Tidy;
      ReportKept(f, g);
    }

    /** One more report changes nothing else. */
    lemma ReportKept(f: Findings, g: Manifests)
      requires f.finish == finish && f.ready == visited && Grows(f, Found())
      requires Explored(reg, g, base, f, visiting) && AllGraded(reg, g, base, f)
      requires forall c :: c in planned <==> PlannedBefore(g, f, |finish|, c)
      ensures Thorough(g)
    {
      hide PlannedBefore;
      ExploredKept(reg, g, base, f, Found(), visiting, visiting);
      AllGradedKept(reg, g, base, f, Found());
      forall c ensures c in planned <==> PlannedBefore(g, Found(), |finish|, c) {
        PlannedBeforeKept(g, f, Found(), |finish|, c);
      }
    }

    /** Marks a module as being visited. */
    method Enter(id: Name, ghost g: Manifests, ghost root: Name)
      requires Valid(g, root) && id in g && id !in visited && id !in visiting && Leads(g, base, root, id)
      requires if stack == [] then id == root else CallsFor(g, base, stack[|stack| - 1], id) && id in reg
      modifies this`visiting, this`stack
      ensures Valid(g, root) && stack == old(stack) + [id]
    {
      hide Shaped, Tidy, Leads, Explored, AllGraded, PlannedBefore, CallsFor;
      ShapePushed(reg, base, g, root, stack, visiting, visited.Keys, id);
      ExploredKept(reg, g, base, Found(), Found(), visiting, visiting + {id});
      visiting := visiting + {id};
      stack := stack + [id];
    }

    /** Files the verdict on the module on top of the stack. */
    method Leave(desc: Descriptor, id: Name, ready: bool, ghost g: Manifests, ghost root: Name)
      requires Valid(g, root) && stack != [] && stack[|stack| - 1] == id && id !in stack[..|stack| - 1]
      requires id in g && g[id] == desc && (Clean() ==> ready) && MayLeave(desc, id, ready, g)
      modifies this`planned, this`order, this`finish, this`visiting, this`stack, this`visited
      ensures Valid(g, root) && stack == old(stack)[..|old(stack)| - 1]
      ensures order == if ready then old(order) + [id] else old(order)
      ensures CapsOwned() && Grows(old(Found()), Found()) && id in visited && visited[id] == ready
    {
      hide Shaped, Tidy, Explored, AllGraded, PlannedBefore, Honest, Provides, Requires, Followed, DepsUsable;
      ghost var f, f' := Found(), Found().(finish := finish + [id], ready := visited[id := ready]);
      ShapePopped(reg, base, g, root, stack, visiting, visited.Keys, id);
      assert Grows(f, f');
      OneMoreFinished(reg, g, base, f, visiting, planned.Keys, id, ready);
      if Clean() {
        TidyPushed(g, order, visited, planned.Keys, id);
      }
      if ready {
        Announce(desc, id);
      }
      finish := finish + [id];
      visiting := visiting - {id};
      stack := stack[..|stack| - 1];
      visited := visited[id := ready];
      assert visited.Keys == old(visited.Keys) + {id};
      assert Found() == f';
    }

    /** The loop over the required modules. */
    method CheckDependencies(desc: Descriptor, id: Name, ghost g: Manifests, ghost root: Name) returns (ready: bool)
      requires Valid(g, root) && stack != [] && stack[|stack| - 1] == id
      requires id in g && g[id] == desc && CapsOwned()
      modifies this
      ensures Valid(g, root) && stack == old(stack)
      ensures CapsOwned() && Grows(old(Found()), Found())
      ensures forall d :: d in desc.deps ==> Followed(reg, base, Found(), visiting, id, d, |finish|)
      ensures ready <==> DepsUsable(reg, g, base, Found(), id, |finish|)
      ensures old(Clean()) && ready ==>
        Clean() && PlanAll(g, base, stack, old(order), id, desc.deps) == Some(order)
      ensures old(Clean()) && !ready ==>
        !Clean() && PlanAll(g, base, stack, old(order), id, desc.deps).None?
      ensures !old(Clean()) ==> !Clean()
      decreases g.Keys - Elements(stack), 1 + |desc.deps|
    {
      ready := true;
      ghost var goal, clean := PlanAll(g, base, stack, order, id, desc.deps), Clean();
      var i := 0;
      while i < |desc.deps|
        invariant 0 <= i <= |desc.deps|
        invariant Valid(g, root) && stack == old(stack)
        invariant clean && ready ==> Clean() && PlanAll(g, base, stack, order, id, desc.deps[i..]) == goal
        invariant clean && !ready ==> !Clean() && goal.None?
        invariant !clean ==> !Clean()
        invariant CapsOwned() && Grows(old(Found()), Found())
        invariant AllFollowed(desc.deps[..i], id) && (ready <==> AllUsable(desc.deps[..i], id))
      {
        assert desc.deps[i..][1..] == desc.deps[i + 1..];
        ghost var f, v := Found(), visiting;
        var met := CheckDependency(desc.deps[i], id, g, root, desc.deps[i..]);
        GrowsOn(old(Found()), f, Found());
        OneMoreFollowed(f, desc.deps, i, id, g, root);
        ready := ready && met;
        i := i + 1;
      }
      assert desc.deps[..i] == desc.deps;
    }

    /** The requirements of `id` among `deps` were dealt with. */
    ghost predicate AllFollowed(deps: seq<Name>, id: Name)
      reads this
    {
      forall d :: d in deps ==> Followed(reg, base, Found(), visiting, id, d, |finish|)
    }

    ghost predicate AllUsable(deps: seq<Name>, id: Name)
      reads this
    {
      forall d :: d in deps ==> Usable(reg, base, Found(), id, d, |finish|)
    }

    lemma OneMoreFollowed(f: Findings, deps: seq<Name>, i: nat, id: Name, g: Manifests, root: Name)
      requires Grows(f, Found()) && f.ready.Keys == Elements(f.finish) && visited.Keys == Elements(finish)
      requires visiting !! visited.Keys && i < |deps|
      requires forall d :: d in deps[..i] ==> Followed(reg, base, f, visiting, id, d, |f.finish|)
      requires Followed(reg, base, Found(), visiting, id, deps[i], |finish|)
      ensures AllFollowed(deps[..i + 1], id)
      ensures AllUsable(deps[..i + 1], id) <==>
        (forall d :: d in deps[..i] ==> Usable(reg, base, f, id, d, |f.finish|))
        && Usable(reg, base, Found(), id, deps[i], |finish|)
    {
      hide Followed, Usable;
      assert deps[..i + 1] == deps[..i] + [deps[i]];
      forall d | d in deps[..i]
        ensures Followed(reg, base, Found(), visiting, id, d, |finish|)
        ensures Usable(reg, base, f, id, d, |f.finish|) <==> Usable(reg, base, Found(), id, d, |finish|)
      {
        FollowedLater(reg, base, f, Found(), visiting, visiting, id, d, |f.finish|, |finish|);
        UsableLater(reg, g, base, f, Found(), visiting, id, d);
      }
    }

    /** One turn of that loop. */
    method CheckDependency(dep: Name, id: Name, ghost g: Manifests, ghost root: Name, ghost todo: seq<Name>)
      returns (met: bool)
      requires Valid(g, root) && stack != [] && stack[|stack| - 1] == id
      requires todo != [] && todo[0] == dep && id in g && dep in g[id].deps && CapsOwned()
      modifies this
      ensures Valid(g, root) && stack == old(stack)
      ensures CapsOwned() && Grows(old(Found()), Found())
      ensures Followed(reg, base, Found(), visiting, id, dep, |finish|)
      ensures met <==> Usable(reg, base, Found(), id, dep, |finish|)
      ensures old(Clean()) && met ==>
        Clean() && PlanAll(g, base, stack, old(order), id, todo) == PlanAll(g, base, stack, order, id, todo[1..])
      ensures old(Clean()) && !met ==> !Clean() && PlanAll(g, base, stack, old(order), id, todo).None?
      ensures !old(Clean()) ==> !Clean()
      decreases g.Keys - Elements(stack), |todo|
    {
      hide Leads, Chain, ProvidedBy, Lacking;
      assert id in Elements(stack) && root in Elements(stack);
      assert dep in order <==> dep in Elements(order);
      if dep == "" {
        return true;
      }
      ghost var f := Found();
      if dep == id {
        errors := errors + {RequiresItself(id)};
        Reported(f, g, root);
        return false;
      }
      if dep in base.mounted {
        return true;
      }
      LeadsOn(g, base, root, id, dep);
      if dep !in reg {
        missingModules := missingModules + {dep};
        Reported(f, g, root);
        return false;
      }
      met := Check(reg[dep], g, root);
      assert dep in finish <==> dep in Elements(finish);
      assert finish[..|finish|] == finish;
    }

    /** The loop over the declared capabilities: required ones have to be available. */
    method CheckCapabilities(desc: Descriptor, id: Name, ghost g: Manifests, ghost root: Name) returns (met: bool)
      requires Valid(g, root) && id in g && g[id] == desc && id in stack
      modifies this`missingCaps
      ensures Valid(g, root) && CapsChecked(old(Found()), desc, id, met)
      ensures met <==> Covered(desc)
      ensures met ==> missingCaps == old(missingCaps)
      ensures !met ==> missingCaps != {}
      ensures old(missingCaps) <= missingCaps
    {
      hide Shaped, Tidy, Explored, AllGraded, PlannedBefore, Requires, Grows, MissingAmong, Unavailable, Real, Leads,
        Absent, Lacking;
      ghost var f, clean := Found(), Clean();
      BeingVisited(id, g, root);
      NoneMissing(id);
      assert desc.capabilities[..0] == [];
      met := true;
      for i := 0 to |desc.capabilities|
        invariant met <==> forall j :: 0 <= j < i ==> Available(desc.capabilities[j])
        invariant missingCaps == old(missingCaps) + MissingAmong(desc.capabilities[..i], id)
      {
        var cap := desc.capabilities[i];
        OneMoreMissing(desc.capabilities, i, id);
        if cap.name != "" && cap.direction.Required? && cap.name !in planned && cap.name !in base.caps {
          missingCaps := missingCaps + {(id, cap.name)};
          met := false;
        }
      }
      assert desc.capabilities[..|desc.capabilities|] == desc.capabilities;
      MissingAre(desc, id);
      MissingReported(f, desc, id, g, root);
    }

    lemma NoneMissing(id: Name)
      ensures MissingAmong([], id) == {}
    {
    }

    lemma OneMoreMissing(caps: seq<Capability>, i: nat, id: Name)
      requires i < |caps|
      ensures MissingAmong(caps[..i + 1], id)
           == MissingAmong(caps[..i], id) + if Available(caps[i]) then {} else {(id, caps[i].name)}
    {
      hide Available;
      assert caps[..i + 1] == caps[..i] + [caps[i]];
    }

    /** The missing capabilities of `id` in terms of what it requires. */
    lemma MissingAre(desc: Descriptor, id: Name)
      ensures MissingAmong(desc.capabilities, id) == Unavailable(desc, id)
      ensures (forall j :: 0 <= j < |desc.capabilities| ==> Available(desc.capabilities[j])) <==>
        Requires(desc) <= base.caps + planned.Keys
      ensures MissingAmong(desc.capabilities, id) == {} <==> Requires(desc) <= base.caps + planned.Keys
    {
      var lacking := Unavailable(desc, id);
      forall c | c in Requires(desc) ensures exists a :: a in desc.capabilities && a.direction.Required? && a.name == c {}
      forall m | m in MissingAmong(desc.capabilities, id) ensures m in lacking {
        var c :| c in desc.capabilities && !Available(c) && m == (id, c.name);
        assert c.name in Requires(desc);
      }
      forall m | m in lacking ensures m in MissingAmong(desc.capabilities, id) {
        var a :| a in desc.capabilities && a.direction.Required? && a.name == m.1;
        assert !Available(a);
      }
      if !(Requires(desc) <= base.caps + planned.Keys) {
        var c :| c in Requires(desc) && c !in base.caps && c !in planned;
        assert (id, c) in lacking;
        var a :| a in desc.capabilities && a.direction.Required? && a.name == c;
        var j :| 0 <= j < |desc.capabilities| && desc.capabilities[j] == a;
        assert !Available(desc.capabilities[j]);
      }
      forall j | 0 <= j < |desc.capabilities| && !Available(desc.capabilities[j])
        ensures !(Requires(desc) <= base.caps + planned.Keys)
      {
        assert desc.capabilities[j].name in Requires(desc);
      }
    }

    /** Reporting them leaves the rest in order. */
    lemma MissingReported(f: Findings, desc: Descriptor, id: Name, g: Manifests, root: Name)
      requires Shaped(reg, base, g, root, stack, visiting, visited.Keys)
      requires Clean() ==> Tidy(g, order, visited, planned.Keys)
      requires Explored(reg, g, base, f, visiting) && AllGraded(reg, g, base, f)
      requires forall c :: c in planned <==> PlannedBefore(g, f, |finish|, c)
      requires f.finish == finish && f.ready == visited && f.errors == errors && f.missingModules == missingModules
      requires forall n, c :: (n, c) in f.missingCaps ==> Lacking(g, root, n, c)
      requires forall e :: e in errors ==> Real(reg, g, base, e) && Leads(g, base, root, Culprit(e))
      requires forall m :: m in missingModules ==> Absent(g, root, m)
      requires id in stack && id in g && g[id] == desc && missingCaps == f.missingCaps + Unavailable(desc, id)
      ensures Valid(g, root) && Grows(f, Found())
    {
      hide Tidy, Requires, Leads, Explored, AllGraded, PlannedBefore, Chain, Keyed, Real, Absent;
      assert id in visiting;
      ReportKept(f, g);
    }

    /** The capabilities that `id` requires and that are neither in the kit nor planned. */
    function Unavailable(desc: Descriptor, id: Name): set<(Name, string)>
      reads this`planned
    {
      set c | c in Requires(desc) && c !in base.caps && c !in planned :: (id, c)
    }

    /** The required ones among `caps` that are not available, as reported of `id`. */
    function MissingAmong(caps: seq<Capability>, id: Name): set<(Name, string)>
      reads this`planned
    {
      set c | c in caps && !Available(c) :: (id, c.name)
    }

    predicate Available(cap: Capability)
      reads this`planned
    {
      cap.name != "" && cap.direction.Required? ==> cap.name in planned || cap.name in base.caps
    }

    /** Records what a ready module will provide. */
    method Announce(desc: Descriptor, id: Name)
      modifies this`planned, this`order
      ensures planned.Keys == old(planned.Keys) + Provides(desc)
      ensures order == old(order) + [id]
    {
      for i := 0 to |desc.capabilities|
        invariant planned.Keys == old(planned.Keys)
          + (set c | c in desc.capabilities[..i] && c.direction.Provided? && c.name != "" :: c.name)
        invariant order == old(order)
      {
        var cap := desc.capabilities[i];
        assert desc.capabilities[..i + 1] == desc.capabilities[..i] + [cap];
        if cap.name != "" && cap.direction.Provided? {
          planned := planned[cap.name := id];
        }
      }
      assert desc.capabilities[..|desc.capabilities|] == desc.capabilities;
      order := order + [id];
    }
  }

  /** The preflight of a module: whether the planner has nothing to report about it. */
  method PreflightDescriptor(reg: Manifests, base: Base, desc: Descriptor) returns (ready: bool, planner: Planner)
    requires Keyed(reg)
    ensures fresh(planner) && ready == planner.Clean()
    ensures ready <==> PlanOne(WithRoot(reg, desc), base, [], [], IdOf(desc)).Some?
    ensures ready ==> PlanOne(WithRoot(reg, desc), base, [], [], IdOf(desc)) == Some(planner.order)
    ensures var g, root := WithRoot(reg, desc), IdOf(desc);
      && (forall m :: m in planner.missingModules <==>
            m != "" && m !in reg && m !in base.mounted && Called(g, base, root, m))
      && (forall n :: RequiresItself(n) in planner.errors <==>
            n in g && n != "" && n in g[n].deps && Leads(g, base, root, n))
      && (forall cycle :: CyclicDependency(cycle) in planner.errors ==>
            Circle(reg, g, base, cycle) && Leads(g, base, root, cycle[0]))
      && ((exists cycle :: CyclicDependency(cycle) in planner.errors) <==>
          exists cycle :: Circle(reg, g, base, cycle) && Leads(g, base, root, cycle[0]))
      && (forall n, c :: (n, c) in planner.missingCaps ==>
            n in g && c in Requires(g[n]) && c !in base.caps && Leads(g, base, root, n))
      && (forall n, c :: n in g && Leads(g, base, root, n) && c in Requires(g[n]) ==>
            c in base.caps || Offered(g, base, root, c) || (n, c) in planner.missingCaps)
    // every module led to is checked once, and judged by what was found before it
    ensures var g, root := WithRoot(reg, desc), IdOf(desc);
      && Distinct(planner.finish)
      && (forall n :: n in planner.finish <==> n in g && Leads(g, base, root, n))
      && AllGraded(reg, g, base, planner.Found())
  {
    hide Leads, Shaped, AllGraded, Explored, PlanOne, Circle, Requires, Offered, Called;
    planner := new Planner(reg, base);
    ghost var g, root := WithRoot(reg, desc), IdOf(desc);
    LeadsToRoot(g, base, root);
    planner.Begins(g, root);
    var checked := planner.Check(desc, g, root);
    ready := planner.missingModules == {} && planner.missingCaps == {} && planner.errors == {};
    assert ready == checked;
    planner.Ends(g, root);
  }

  /** An unregistered module that requires nothing but itself is reported as such, and not as missing. */
  lemma SelfIsNotMissing(base: Base)
    requires base == Base({}, {})
    ensures var g := WithRoot(map[], Descriptor("r", ["r"], []));
      && "r" in g && "r" in g["r"].deps && Leads(g, base, "r", "r")
      && !Called(g, base, "r", "r")
  {
    LeadsToRoot(WithRoot(map[], Descriptor("r", ["r"], [])), base, "r");
  }

  /** Preflight is exact: a module is ready exactly when no path of unmet dependencies from
      it meets itself or leaves the registered modules, and every module on the way finds
      its required capabilities in the kit or among the modules finished before it. */
  lemma PreflightIsExact(reg: Manifests, base: Base, desc: Descriptor)
    ensures var g, root := WithRoot(reg, desc), IdOf(desc);
      var u := UnmetGraph(g, base);
      && (PlanOne(g, base, [], [], root).Some? <==>
            Safe(u, root) && CapsInOrder(g, base, Visited(u, root)))
      && (PlanOne(g, base, [], [], root).Some? ==>
            && PlanOne(g, base, [], [], root).value == Visited(u, root)
            && Topological(u, Visited(u, root))
            && forall m :: m in Visited(u, root) <==> ReachedFrom(u, [root], m))
  {
    var g, root := WithRoot(reg, desc), IdOf(desc);
    PlanDecides(g, base, root);
    PlanIsVisit(g, base, [], [], root);
    var u := UnmetGraph(g, base);
    assert VisitAll(u, [], [], [root]) == Visit(u, [], [], root);
    VisitAllDecides(u, [root]);
  }

  /** The order a depth-first search from `root` finishes the modules in. */
  function Visited(u: Graph, root: Name): seq<Name> {
    if root in u && Visit(u, [], [], root).Some? then Visit(u, [], [], root).value else []
  }
}
