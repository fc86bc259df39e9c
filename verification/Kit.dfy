/**
  `Kit.Mount`, `Unmount` and `closeMounted` of `module_mount.go`, run one call at a time.
  What the modules themselves do (build, mount, provide capabilities, close) is decided by
  an oracle that may answer differently every time it is asked.
 */
module Kit {
  import opened Wrappers
  import opened Sequences
  import opened Graph
  import opened Plan
  import opened Preflight

  /** What user code answers when it is asked for the `nat`-th time. */
  datatype Oracle = Oracle(
    buildOk: (Name, nat) -> bool,
    mountOk: (Name, nat) -> bool,
    attempts: (Name, nat) -> seq<string>,   // capability names the Mount callback provides
    strict: (Name, nat) -> bool,            // whether it fails when one of them is refused
    closeOk: (Name, nat) -> bool)

  datatype Failure =
    | MissingID | AlreadyMounted | NotReady | NotBuildable | MountFailed
    | HasDependents | NotMounted | CloseFailed

  /** What remains of a sequence of distinct names without one of them. */
  function Without(s: seq<Name>, n: Name): seq<Name> {
    if s == [] then []
    else if s[0] == n then s[1..]
    else [s[0]] + Without(s[1..], n)
  }

  lemma {:induction false} WithoutIs(s: seq<Name>, n: Name)
    requires Distinct(s)
    ensures Distinct(Without(s, n))
    ensures Elements(Without(s, n)) == Elements(s) - {n}
    ensures n !in s ==> Without(s, n) == s
  {
    if s != [] {
      var rest := s[1..];
      assert s == [s[0]] + rest;
      assert forall i :: 0 <= i < |rest| ==> rest[i] == s[i + 1];
      WithoutIs(rest, n);
      assert s[0] !in rest && Elements(s) == {s[0]} + Elements(rest);
      if s[0] != n {
        assert Elements(Without(s, n)) == {s[0]} + Elements(Without(rest, n));
        assert s[0] !in Elements(Without(rest, n));
      }
    }
  }

  lemma WithoutBegins(s: seq<Name>, n: Name)
    ensures Without(s, n) == s[..0] + Without(s[0..], n)
  {
    assert s[0..] == s;
  }

  /** One turn of a search for `n`. */
  lemma WithoutStep(s: seq<Name>, i: nat, n: Name)
    requires i < |s| && Without(s, n) == s[..i] + Without(s[i..], n)
    ensures Without(s, n) == if s[i] == n then s[..i] + s[i + 1..] else s[..i + 1] + Without(s[i + 1..], n)
  {
    var rest := s[i..];
    assert rest[0] == s[i] && rest[1..] == s[i + 1..];
    if s[i] != n {
      assert s[..i] + ([s[i]] + Without(s[i + 1..], n)) == s[..i + 1] + Without(s[i + 1..], n);
    }
  }

  lemma WithoutEnds(s: seq<Name>, i: nat, n: Name)
    requires i == |s| && Without(s, n) == s[..i] + Without(s[i..], n)
    ensures Without(s, n) == s
  {
  }

  /** Every dependency of a mounted module is mounted, earlier in the order. */
  ghost predicate DepsFirst(descs: Manifests, order: seq<Name>) {
    forall k :: 0 <= k < |order| ==>
      order[k] in descs && forall d :: d in descs[order[k]].deps && d != "" ==> d in order[..k]
  }

  lemma DepsFirstAppend(descs: Manifests, order: seq<Name>, desc: Descriptor)
    requires DepsFirst(descs, order) && desc.name !in order
    requires forall d :: d in desc.deps && d != "" ==> d in order
    ensures DepsFirst(descs[desc.name := desc], order + [desc.name])
  {
    var o, ds := order + [desc.name], descs[desc.name := desc];
    forall k | 0 <= k < |o|
      ensures o[k] in ds && forall d :: d in ds[o[k]].deps && d != "" ==> d in o[..k]
    {
      if k < |order| {
        assert o[k] == order[k] && order[k] in order && o[..k] == order[..k];
      } else {
        assert o[..k] == order;
      }
    }
  }

  /** Taking out a module that no other requires. */
  lemma DepsFirstWithout(descs: Manifests, order: seq<Name>, id: Name)
    requires DepsFirst(descs, order) && Distinct(order) && id in order
    requires forall n :: n in descs && n != id ==> id !in descs[n].deps || id == ""
    ensures DepsFirst(descs - {id}, Without(order, id))
  {
    var k := WithoutAt(order, id);
    var o, ds := Without(order, id), descs - {id};
    forall j | 0 <= j < |o| ensures o[j] in ds && forall d :: d in ds[o[j]].deps && d != "" ==> d in o[..j] {
      var i := if j < k then j else j + 1;
      assert o[j] == order[i] && order[i] != id;
      PrefixWithout(order, k, j);
    }
  }

  lemma PrefixWithout(s: seq<Name>, k: nat, j: nat)
    requires k < |s| && j < |s| - 1
    ensures var o := s[..k] + s[k + 1..];
      forall d :: d in s[..(if j < k then j else j + 1)] && d != s[k] ==> d in o[..j]
  {
    var o := s[..k] + s[k + 1..];
    if j < k {
      assert o[..j] == s[..j];
    } else {
      assert o[..j] == s[..k] + s[k + 1..j + 1];
      assert s[..j + 1] == s[..k] + [s[k]] + s[k + 1..j + 1];
    }
  }

  lemma {:induction false} WithoutAt(s: seq<Name>, n: Name) returns (k: nat)
    requires Distinct(s) && n in s
    ensures k < |s| && s[k] == n && Without(s, n) == s[..k] + s[k + 1..]
  {
    if s[0] == n {
      k := 0;
    } else {
      assert forall i :: 0 <= i < |s[1..]| ==> s[1..][i] == s[i + 1];
      assert n in s[1..];
      k := WithoutAt(s[1..], n);
      k := k + 1;
    }
  }

  /** Names held by the open scopes. */
  function Held(mounted: map<Name, set<string>>): set<string> {
    set n, c | n in mounted && c in mounted[n] :: c
  }

  /** The registry of provided capabilities is what the scopes hold, each name held once. */
  ghost predicate Owned(mounted: map<Name, set<string>>, caps: set<string>) {
    && caps == Held(mounted)
    && forall n, m :: n in mounted && m in mounted && n != m ==> mounted[n] !! mounted[m]
  }

  lemma OwnedOpen(mounted: map<Name, set<string>>, caps: set<string>, n: Name, held: set<string>)
    requires Owned(mounted, caps) && n !in mounted && held !! caps
    ensures Owned(mounted[n := held], caps + held)
  {
    var m' := mounted[n := held];
    forall c ensures c in Held(m') <==> c in caps + held {
      if c in held { assert n in m' && c in m'[n]; }
      if c in caps {
        var m :| m in mounted && c in mounted[m];
        assert m in m' && c in m'[m];
      }
    }
  }

  lemma OwnedClose(mounted: map<Name, set<string>>, caps: set<string>, n: Name)
    requires Owned(mounted, caps) && n in mounted
    ensures Owned(mounted[n := {}], caps - mounted[n])
    ensures Owned(mounted - {n}, caps - mounted[n])
  {
    var emptied, gone := mounted[n := {}], mounted - {n};
    forall c ensures (c in Held(emptied) <==> c in caps - mounted[n]) && (c in Held(gone) <==> c in caps - mounted[n]) {
      if c in caps - mounted[n] {
        var m :| m in mounted && c in mounted[m];
        assert m in emptied && c in emptied[m] && m in gone && c in gone[m];
      }
    }
  }

  /** The modules that `closeMounted` leaves behind, in mount order.  It closes from the end,
      so the first module is asked last. */
  function Survivors(oracle: Oracle, order: seq<Name>, clock: nat): seq<Name> {
    if order == [] then []
    else
      (if oracle.closeOk(order[0], clock + |order| - 1) then [] else [order[0]])
      + Survivors(oracle, order[1..], clock)
  }

  lemma {:induction false} SurvivorsAre(oracle: Oracle, order: seq<Name>, clock: nat, closed: set<Name>)
    requires forall k :: 0 <= k < |order| ==>
      (order[k] in closed <==> oracle.closeOk(order[k], clock + |order| - 1 - k))
    ensures Drop(order, closed) == Survivors(oracle, order, clock)
  {
    if order != [] {
      assert forall k :: 0 <= k < |order[1..]| ==> order[1..][k] == order[k + 1];
      SurvivorsAre(oracle, order[1..], clock, closed);
    }
  }

  /** The scopes that close when they are asked one after the other. */
  function Closed(oracle: Oracle, scopes: seq<Name>, clock: nat): seq<Name> {
    if scopes == [] then []
    else
      var k := |scopes| - 1;
      Closed(oracle, scopes[..k], clock) + (if oracle.closeOk(scopes[k], clock + k) then [scopes[k]] else [])
  }

  lemma {:induction false} ClosedAre(oracle: Oracle, scopes: seq<Name>, clock: nat)
    requires Distinct(scopes)
    ensures var closed := Closed(oracle, scopes, clock);
      && Distinct(closed) && (forall n :: n in closed ==> n in scopes)
      && (forall k :: 0 <= k < |scopes| ==> (scopes[k] in closed <==> oracle.closeOk(scopes[k], clock + k)))
  {
    if scopes != [] {
      var k := |scopes| - 1;
      var rest := scopes[..k];
      ClosedAre(oracle, rest, clock);
      DistinctAt(scopes, k);
      assert forall j :: 0 <= j < k ==> scopes[j] == rest[j] && scopes[j] in rest;
    }
  }

  lemma ClosedNone(oracle: Oracle, scopes: seq<Name>, clock: nat)
    ensures Closed(oracle, scopes[..0], clock) == []
  {
  }

  lemma ClosedStep(oracle: Oracle, scopes: seq<Name>, i: nat, clock: nat)
    requires i < |scopes|
    ensures Closed(oracle, scopes[..i + 1], clock)
         == Closed(oracle, scopes[..i], clock) + (if oracle.closeOk(scopes[i], clock + i) then [scopes[i]] else [])
    ensures scopes[i] in Elements(scopes)
  {
    assert scopes[..i + 1][..i] == scopes[..i];
  }

  ghost predicate AllClose(oracle: Oracle, scopes: seq<Name>, clock: nat) {
    forall k :: 0 <= k < |scopes| ==> oracle.closeOk(scopes[k], clock + k)
  }

  /** The same seen from the mount order. */
  lemma ClosedOfReversed(oracle: Oracle, order: seq<Name>, clock: nat)
    requires Distinct(order)
    ensures var closed := Closed(oracle, Reversed(order), clock);
      && Distinct(closed) && (forall n :: n in closed ==> n in order)
      && Drop(order, Elements(closed)) == Survivors(oracle, order, clock)
      && (AllClose(oracle, Reversed(order), clock) <==> Survivors(oracle, order, clock) == [])
  {
    hide Distinct;
    DistinctReversed(order);
    var r, closed := Reversed(order), Closed(oracle, Reversed(order), clock);
    ClosedAre(oracle, r, clock);
    forall k | 0 <= k < |order|
      ensures order[k] in Elements(closed) <==> oracle.closeOk(order[k], clock + |order| - 1 - k)
    {
      assert r[|order| - 1 - k] == order[k];
    }
    SurvivorsAre(oracle, order, clock, Elements(closed));
    NoneDropped(order, Elements(closed));
    forall n ensures n in order <==> n in r {
      if n in order {
        var k :| 0 <= k < |order| && order[k] == n;
        assert r[|order| - 1 - k] == n;
      }
    }
    assert AllClose(oracle, r, clock) <==> forall k :: 0 <= k < |r| ==> r[k] in closed;
  }

  /** Closing in reverse mount order closes each module before anything it requires. */
  lemma DependentsCloseFirst(descs: Manifests, order: seq<Name>, i: nat, d: Name)
    requires DepsFirst(descs, order) && i < |order|
    requires Reversed(order)[i] in descs && d in descs[Reversed(order)[i]].deps && d != ""
    ensures exists j :: i < j < |order| && Reversed(order)[j] == d
  {
    var k := |order| - 1 - i;
    var l :| 0 <= l < k && order[l] == d;
    assert Reversed(order)[|order| - 1 - l] == d;
  }

  /** The names of `s` that are not in `dropped`, in order. */
  function Drop(s: seq<Name>, dropped: set<Name>): seq<Name> {
    if s == [] then []
    else (if s[0] in dropped then [] else [s[0]]) + Drop(s[1..], dropped)
  }

  lemma {:induction false} DropMore(s: seq<Name>, dropped: set<Name>, n: Name)
    requires Distinct(s) && n !in dropped
    ensures Without(Drop(s, dropped), n) == Drop(s, dropped + {n})
  {
    if s != [] {
      assert forall i :: 0 <= i < |s[1..]| ==> s[1..][i] == s[i + 1];
      DropMore(s[1..], dropped, n);
      if s[0] == n {
        assert n !in s[1..];
        DropAbsent(s[1..], dropped, n);
      }
      var d, rest := Drop(s, dropped), Drop(s[1..], dropped);
      assert if s[0] in dropped then d == rest else d == [s[0]] + rest && d[1..] == rest;
      assert [] + Drop(s[1..], dropped + {n}) == Drop(s[1..], dropped + {n});
    }
  }

  lemma {:induction false} DropAbsent(s: seq<Name>, dropped: set<Name>, n: Name)
    requires n !in s
    ensures Drop(s, dropped + {n}) == Drop(s, dropped)
    ensures n !in Drop(s, dropped)
  {
    if s != [] {
      assert s[0] in s && forall m :: m in s[1..] ==> m in s;
      DropAbsent(s[1..], dropped, n);
    }
  }

  /** The oracle lets this module build and mount, and provide exactly what it declares. */
  ghost predicate Fair(oracle: Oracle, desc: Descriptor) {
    forall t: nat ::
      && oracle.buildOk(desc.name, t) && oracle.mountOk(desc.name, t)
      && Distinct(oracle.attempts(desc.name, t)) && "" !in oracle.attempts(desc.name, t)
      && Elements(oracle.attempts(desc.name, t)) == Provides(desc)
  }

  ghost predicate AllFair(oracle: Oracle, g: Manifests, order: seq<Name>) {
    forall n :: n in order && n in g ==> Fair(oracle, g[n])
  }

  /** No chain of requirements that starts with `chain` meets itself. */
  ghost predicate ChainSafe(u: Graph, chain: seq<Name>) {
    && IsPath(u, chain) && Distinct(chain)
    && forall p :: IsPath(u, p) && chain <= p ==> Distinct(p)
  }

  lemma ChainExtends(g: Manifests, base: Base, later: Base, chain: seq<Name>, d: Name)
    requires ChainSafe(UnmetGraph(g, base), chain) && chain != [] && base.mounted <= later.mounted
    requires forall n :: n in chain ==> n in g && n !in later.mounted
    requires d in g[chain[|chain| - 1]].deps && d != "" && d !in later.mounted
    ensures d !in chain && ChainSafe(UnmetGraph(g, later), chain + [d])
  {
    var u, u', longer := UnmetGraph(g, base), UnmetGraph(g, later), chain + [d];
    forall i | 0 <= i < |longer| - 1 ensures Edge(u', longer[i], longer[i + 1]) {
      assert longer[i] == chain[i] && chain[i] in chain;
      if i + 1 < |chain| {
        assert Edge(u, chain[i], chain[i + 1]) && chain[i + 1] in chain;
        UnmetIs(base, chain[i], g[chain[i]].deps, chain[i + 1]);
      }
      UnmetIs(later, longer[i], g[longer[i]].deps, longer[i + 1]);
    }
    forall p | IsPath(u', p) && longer <= p ensures Distinct(p) {
      PathShrinks(g, base, later, p);
      assert chain <= p;
    }
    assert Distinct(longer);
    assert forall i :: 0 <= i < |chain| ==> longer[i] == chain[i] && chain[i] != longer[|chain|];
  }

  /** A planned module starts a safe chain. */
  lemma ChainStarts(g: Manifests, base: Base, n: Name)
    requires n in g && PlanOne(g, base, [], [], n).Some?
    ensures ChainSafe(UnmetGraph(g, base), [n])
  {
    PlanDecides(g, base, n);
    var u := UnmetGraph(g, base);
    assert IsPath(u, [n]);
    forall p | IsPath(u, p) && [n] <= p ensures Distinct(p) {
      assert p[0] == n;
    }
  }

  /** A plan is the plan of the dependencies, then the module, which is none of its own
      dependencies and finds what it requires. */
  lemma PlanEnds(w: Manifests, base: Base, id: Name) returns (plan: seq<Name>)
    requires id in w && PlanOne(w, base, [], [], id).Some?
    ensures PlanOne(w, base, [], [], id) == Some(plan + [id])
    ensures forall d :: d in w[id].deps && d != "" ==> d != id
    ensures Requires(w[id]) <= base.caps + ProvidedBy(w, plan)
    ensures ProvidedBy(w, plan + [id]) == ProvidedBy(w, plan) + Provides(w[id])
  {
    PlanDecides(w, base, id);
    var all := PlanOne(w, base, [], [], id).value;
    plan := all[..|all| - 1];
    assert all == plan + [id];
    PlanSplits(w, base, id, plan);
    PlannedHasNoSelf(w, base, id);
  }

  lemma LastOfPlan(oracle: Oracle, w: Manifests, caps0: set<string>, plan: seq<Name>, id: Name)
    requires id in w && AllFair(oracle, w, plan + [id]) && NoClash(w, caps0, plan + [id])
    ensures Fair(oracle, w[id]) && Provides(w[id]) !! caps0 + ProvidedBy(w, plan)
  {
    var all := plan + [id];
    assert all[|plan|] == id && all[..|plan|] == plan;
    assert id in all;
  }

  /** `chain` ends with `desc`, and `g` has the registered manifest of whatever is not on it. */
  ghost predicate Linked(desc: Descriptor, reg: Manifests, g: Manifests, chain: seq<Name>) {
    && desc.name in g && g[desc.name] == desc
    && (forall n :: n in reg ==> n in g && (n !in chain ==> g[n] == reg[n]))
    && chain != [] && chain[|chain| - 1] == desc.name
    && (forall n :: n in chain ==> n in g)
  }

  lemma DistinctAt(s: seq<Name>, i: nat)
    requires Distinct(s) && i < |s|
    ensures s[i] !in s[..i] && s[i] !in s[i + 1..]
  {
  }

  lemma DistinctReversed(s: seq<Name>)
    requires Distinct(s)
    ensures Distinct(Reversed(s))
  {
  }

  lemma LastIsNew(s: seq<Name>)
    requires Distinct(s) && s != []
    ensures s[|s| - 1] !in s[..|s| - 1]
  {
  }

  lemma LinkedEnds(desc: Descriptor, reg: Manifests, g: Manifests, chain: seq<Name>)
    requires Linked(desc, reg, g, chain)
    ensures chain != [] && chain == chain[..|chain| - 1] + [desc.name]
    ensures desc.name in chain && forall n :: n in chain[..|chain| - 1] ==> n in chain
  {
    assert chain == chain[..|chain| - 1] + [desc.name];
  }

  /** A favourable plan for `desc` from `base`, of which `progress` is done and the
      dependencies `todo` lead to the rest. */
  ghost predicate Course(
    oracle: Oracle, core: set<string>, reg: Manifests, desc: Descriptor, base: Base, caps0: set<string>,
    order0: seq<Name>, progress: seq<Name>, todo: seq<Name>, plan: seq<Name>)
  {
    var w, id := WithRoot(reg, desc), desc.name;
    && base.mounted == Elements(order0) && base.caps == caps0 + core && id !in progress
    && AllFair(oracle, w, plan + [id]) && NoClash(w, caps0, plan + [id])
    && PlanAll(w, base, [id], progress, id, todo) == Some(plan)
  }

  lemma PlanIncludes(g: Manifests, base: Base, n: Name)
    requires n in g && PlanOne(g, base, [], [], n).Some?
    ensures n in PlanOne(g, base, [], [], n).value
  {
    PlanDecides(g, base, n);
    var rest := PlanOne(g, base, [], [], n).value;
    assert rest[|rest| - 1] == n;
  }

  /** What is favourable for a plan is favourable for a stretch of it, in the kit that has mounted
      what comes before. */
  lemma RestIsFavourable(
    oracle: Oracle, reg: Manifests, w: Manifests, id: Name, caps0: set<string>, before: seq<Name>, rest: seq<Name>,
    plan: seq<Name>, d: Name)
    requires Agree(w, reg, [id]) && Apart(rest, [id]) && before + rest <= plan && d in rest && d in reg && reg[d].name == d
    requires AllFair(oracle, w, plan + [id]) && NoClash(w, caps0, plan + [id])
    ensures AllFair(oracle, reg, rest) && NoClash(reg, caps0 + ProvidedBy(w, before), rest)
    ensures forall t: nat :: oracle.buildOk(d, t)
  {
    hide NoClash, ProvidedBy;
    assert before + rest <= plan + [id];
    NoClashLater(w, reg, [id], caps0, before, rest, plan + [id]);
    forall n | n in rest ensures n in plan + [id] && n != id {
      assert n in before + rest;
    }
    assert Fair(oracle, reg[d]);
  }

  /** A capability name the registry turns down: empty, taken, or provided twice. */
  ghost predicate Refused(attempts: seq<string>, caps: set<string>) {
    exists i :: 0 <= i < |attempts| && (attempts[i] == "" || attempts[i] in caps || attempts[i] in attempts[..i])
  }

  /** Whether the Mount callback of `n`, asked at time `t`, reports success. */
  ghost predicate CallbackOk(oracle: Oracle, n: Name, t: nat, caps: set<string>) {
    oracle.mountOk(n, t) && !(oracle.strict(n, t) && Refused(oracle.attempts(n, t), caps))
  }

  /** What is mounted at one time. */
  datatype Snapshot = Snapshot(modules: set<Name>, descs: Manifests, mounted: map<Name, set<string>>, clock: nat)

  /** The callback of `n` succeeded at that time, and what it holds is among the names it attempted;
      where refusals count, it holds them all. */
  ghost predicate Accepted(oracle: Oracle, n: Name, held: set<string>, t: nat) {
    && oracle.mountOk(n, t) && held <= Elements(oracle.attempts(n, t)) - {""}
    && (oracle.strict(n, t) ==> held == Elements(oracle.attempts(n, t)))
  }

  ghost predicate CalledBack(oracle: Oracle, n: Name, held: set<string>, from: nat, until: nat) {
    exists t: nat :: from <= t < until && Accepted(oracle, n, held, t)
  }

  ghost predicate Built(oracle: Oracle, n: Name, from: nat, until: nat) {
    exists t: nat :: from <= t < until && oracle.buildOk(n, t)
  }

  /** Every module mounted between `a` and `b` has earned it: its callback was asked in that time,
      succeeded and provided what the module holds; and unless it is `root` it was built in that
      time, and is filed with its registered manifest. */
  ghost predicate Earned(oracle: Oracle, reg: Manifests, root: Name, a: Snapshot, b: Snapshot) {
    && a.clock <= b.clock
    && forall n :: n in b.modules && n !in a.modules ==>
         && n in b.descs && n in b.mounted && CalledBack(oracle, n, b.mounted[n], a.clock, b.clock)
         && (n != root ==> n in reg && b.descs[n] == reg[n] && Built(oracle, n, a.clock, b.clock))
  }

  /** Nothing mounted at `a` is touched until `b`. */
  ghost predicate Untouched(a: Snapshot, b: Snapshot) {
    && a.modules <= b.modules
    && (forall n :: n in a.descs ==> n in b.descs && b.descs[n] == a.descs[n])
    && (forall n :: n in a.mounted ==> n in b.mounted && b.mounted[n] == a.mounted[n])
  }

  lemma UntouchedSame(a: Snapshot, b: Snapshot)
    requires b.modules == a.modules && b.descs == a.descs && b.mounted == a.mounted
    ensures Untouched(a, b)
  {
  }

  lemma UntouchedBeside(a: Snapshot, b: Snapshot, n: Name, desc: Descriptor, held: set<string>)
    requires n !in a.descs && n !in a.mounted && b.modules == a.modules + {n}
    requires b.descs == a.descs[n := desc] && b.mounted == a.mounted[n := held]
    ensures Untouched(a, b)
  {
  }

  lemma UntouchedTwice(a: Snapshot, b: Snapshot, c: Snapshot)
    requires Untouched(a, b) && Untouched(b, c)
    ensures Untouched(a, c)
  {
  }

  lemma EarnedTwice(oracle: Oracle, reg: Manifests, root: Name, a: Snapshot, b: Snapshot, c: Snapshot)
    requires Earned(oracle, reg, root, a, b) && Earned(oracle, reg, root, b, c) && Untouched(b, c)
    ensures Earned(oracle, reg, root, a, c)
  {
    hide CalledBack, Built;
    forall n | n in c.modules && n !in a.modules
      ensures n in c.descs && n in c.mounted && CalledBack(oracle, n, c.mounted[n], a.clock, c.clock)
      ensures n != root ==> n in reg && c.descs[n] == reg[n] && Built(oracle, n, a.clock, c.clock)
    {
      if n in b.modules {
        AskedWithin(oracle, n, b.mounted[n], a.clock, b.clock, a.clock, c.clock);
      } else {
        AskedWithin(oracle, n, c.mounted[n], b.clock, c.clock, a.clock, c.clock);
      }
    }
  }

  lemma NobodyBlamed(oracle: Oracle, reg: Manifests, from: nat, until: nat)
    ensures Blamed(oracle, reg, None, from, until)
  {
  }

  /** One module mounted right at `a`. */
  lemma EarnedAlone(oracle: Oracle, reg: Manifests, root: Name, a: Snapshot, b: Snapshot)
    requires b.modules == a.modules + {root} && b.clock == a.clock + 1 && root in b.descs && root in b.mounted
    requires Accepted(oracle, root, b.mounted[root], a.clock)
    ensures Earned(oracle, reg, root, a, b)
  {
    hide Accepted;
  }

  lemma NobodyNew(oracle: Oracle, reg: Manifests, root: Name, a: Snapshot, b: Snapshot)
    requires b.modules == a.modules && a.clock <= b.clock
    ensures Earned(oracle, reg, root, a, b)
  {
  }

  lemma HoldsAll(oracle: Oracle, n: Name, held: set<string>, t: nat, caps: set<string>)
    requires CallbackOk(oracle, n, t, caps) && held == Elements(oracle.attempts(n, t)) - caps - {""}
    ensures Accepted(oracle, n, held, t)
  {
    var attempts := oracle.attempts(n, t);
    if oracle.strict(n, t) {
      forall name | name in Elements(attempts) ensures name in held {
        var i :| 0 <= i < |attempts| && attempts[i] == name;
      }
    }
  }

  lemma NothingEarned(oracle: Oracle, reg: Manifests, root: Name, a: Snapshot)
    ensures Earned(oracle, reg, root, a, a)
  {
  }

  lemma AskedWithin(oracle: Oracle, n: Name, held: set<string>, from: nat, until: nat, from': nat, until': nat)
    requires from' <= from && until <= until'
    ensures CalledBack(oracle, n, held, from, until) ==> CalledBack(oracle, n, held, from', until')
    ensures Built(oracle, n, from, until) ==> Built(oracle, n, from', until')
  {
  }

  /** A dependency that has just been built is mounted on behalf of another module. */
  lemma EarnedAsDependency(oracle: Oracle, reg: Manifests, dep: Name, root: Name, a: Snapshot, b: Snapshot)
    requires Earned(oracle, reg, dep, a.(clock := a.clock + 1), b) && oracle.buildOk(dep, a.clock) && dep in reg
    requires dep in b.modules && dep !in a.modules ==> dep in b.descs && b.descs[dep] == reg[dep]
    ensures Earned(oracle, reg, root, a, b)
  {
    hide CalledBack, Built;
    BuiltAt(oracle, dep, a.clock, b.clock);
    forall n | n in b.modules && n !in a.modules
      ensures n in b.descs && n in b.mounted && CalledBack(oracle, n, b.mounted[n], a.clock, b.clock)
      ensures n in reg && b.descs[n] == reg[n] && Built(oracle, n, a.clock, b.clock)
    {
      AskedWithin(oracle, n, b.mounted[n], a.clock + 1, b.clock, a.clock, b.clock);
    }
  }

  lemma BuiltAt(oracle: Oracle, n: Name, from: nat, until: nat)
    requires from < until && oracle.buildOk(n, from)
    ensures Built(oracle, n, from, until)
  {
  }

  ghost predicate Balked(oracle: Oracle, n: Name, t: nat) { !oracle.mountOk(n, t) || oracle.strict(n, t) }

  ghost predicate NotBuilt(oracle: Oracle, reg: Manifests, n: Name, t: nat) { n !in reg || !oracle.buildOk(n, t) }

  /** A failure that is not a refusal has a reason in what user code answered. */
  ghost predicate Blamed(oracle: Oracle, reg: Manifests, f: Option<Failure>, from: nat, until: nat) {
    && (f == Some(MountFailed) ==> exists n, t: nat :: from <= t < until && Balked(oracle, n, t))
    && (f == Some(NotBuildable) ==> exists n, t: nat :: from <= t <= until && NotBuilt(oracle, reg, n, t))
  }

  lemma BlamedOn(oracle: Oracle, reg: Manifests, n: Name, from: nat, until: nat)
    requires from <= until && NotBuilt(oracle, reg, n, from)
    ensures Blamed(oracle, reg, Some(NotBuildable), from, until)
  {
  }

  lemma BlamedWithin(oracle: Oracle, reg: Manifests, f: Option<Failure>, from: nat, until: nat, from': nat)
    requires Blamed(oracle, reg, f, from, until) && from' <= from
    ensures Blamed(oracle, reg, f, from', until)
  {
  }

  lemma RefusedNext(attempts: seq<string>, i: nat, caps: set<string>)
    requires i < |attempts|
    ensures Refused(attempts[..i + 1], caps)
      <==> Refused(attempts[..i], caps) || attempts[i] == "" || attempts[i] in caps || attempts[i] in Elements(attempts[..i])
  {
    var a, b := attempts[..i], attempts[..i + 1];
    assert forall j :: 0 <= j < i ==> a[j] == b[j] && a[..j] == b[..j];
    assert b[i] == attempts[i] && b[..i] == a;
  }

  lemma FairIsNotRefused(attempts: seq<string>, caps: set<string>)
    ensures Distinct(attempts) && "" !in attempts && Elements(attempts) !! caps ==> !Refused(attempts, caps)
  {
    if Distinct(attempts) && "" !in attempts && Elements(attempts) !! caps {
      forall i | 0 <= i < |attempts|
        ensures attempts[i] != "" && attempts[i] !in caps && attempts[i] !in attempts[..i]
      {
        assert attempts[i] in Elements(attempts);
      }
    }
  }

  class Kit {
    const reg: Manifests
    const core: set<string>
    const oracle: Oracle
    var mounted: map<Name, set<string>>   // the scope of each module: the capabilities it holds
    var modules: set<Name>
    var descs: Manifests
    var mountOrder: seq<Name>
    var caps: set<string>
    var clock: nat

    constructor (reg: Manifests, core: set<string>, oracle: Oracle)
      requires Keyed(reg)
      ensures Valid() && DepsFirst(descs, mountOrder)
      ensures this.reg == reg && this.core == core && this.oracle == oracle && mountOrder == []
    {
      this.reg, this.core, this.oracle := reg, core, oracle;
      mounted, modules, descs, mountOrder, caps, clock := map[], {}, map[], [], {}, 0;
    }

    /** The four views of what is mounted agree, and every capability has one owner. */
    ghost predicate Valid()
      reads `mounted, `modules, `descs, `mountOrder, `caps
    {
      && Keyed(reg)
      && mounted.Keys == modules && descs.Keys == modules && Elements(mountOrder) == modules
      && Distinct(mountOrder)
      && Owned(mounted, caps)
    }

    function Now(): Base
      reads `modules, `caps
    {
      Base(modules, caps + core)
    }

    /** What mounting `desc` comes to from here, according to the planner. */
    ghost function PlanFor(desc: Descriptor): Option<seq<Name>>
      reads `modules, `caps
    {
      PlanOne(WithRoot(reg, desc), Now(), [], [], IdOf(desc))
    }

    ghost function Snap(): Snapshot
      reads `modules, `descs, `mounted, `clock
    {
      Snapshot(modules, descs, mounted, clock)
    }

    /** Nothing mounted so far is touched. */
    twostate predicate Preserves()
      reads `mounted, `modules, `descs, `mountOrder, `clock
    {
      old(mountOrder) <= mountOrder && Untouched(old(Snap()), Snap())
    }

    /** The module's Mount callback on its scope: it provides capabilities one by one, a name
        that is empty or taken being refused, and then reports success or failure. */
    method RunCallback(id: Name) returns (ok: bool)
      requires id in mounted && mounted[id] == {} && Owned(mounted, caps)
      modifies this`mounted, this`caps, this`clock
      ensures Owned(mounted, caps)
      ensures id in mounted && mounted == old(mounted)[id := mounted[id]]
      ensures mounted[id] !! old(caps) && caps == old(caps) + mounted[id]
      ensures ok <==> CallbackOk(oracle, id, old(clock), old(caps))
      ensures mounted[id] == Elements(oracle.attempts(id, old(clock))) - old(caps) - {""} && clock == old(clock) + 1
      ensures ok ==> Accepted(oracle, id, mounted[id], old(clock))
      ensures forall desc: Descriptor :: desc.name == id && Fair(oracle, desc) && Provides(desc) !! old(caps) ==>
        ok && mounted[id] == Provides(desc)
    {
      var attempts := oracle.attempts(id, clock);
      ghost var before := old(mounted);
      OwnedClose(before, caps, id);
      var refused := false;
      for i := 0 to |attempts|
        invariant clock == old(clock)
        invariant id in mounted && mounted == before[id := mounted[id]]
        invariant mounted[id] !! old(caps) && caps == old(caps) + mounted[id]
        invariant mounted[id] == Elements(attempts[..i]) - old(caps) - {""}
        invariant refused <==> Refused(attempts[..i], old(caps))
      {
        var name := attempts[i];
        assert Elements(attempts[..i + 1]) == Elements(attempts[..i]) + {name};
        RefusedNext(attempts, i, old(caps));
        if name == "" || name in caps {
          refused := true;
        } else {
          caps := caps + {name};
          mounted := mounted[id := mounted[id] + {name}];
        }
      }
      assert attempts[..|attempts|] == attempts;
      FairIsNotRefused(attempts, old(caps));
      OwnedOpen(before - {id}, old(caps), id, mounted[id]);
      assert (before - {id})[id := mounted[id]] == mounted;
      ok := oracle.mountOk(id, clock) && !(refused && oracle.strict(id, clock));
      if ok {
        HoldsAll(oracle, id, mounted[id], clock, old(caps));
      }
      clock := clock + 1;
    }

    /** Opens a scope, runs the callback, and files the module or takes everything back. */
    method OpenAndMount(desc: Descriptor) returns (failure: Option<Failure>)
      requires Valid() && desc.name !in modules
      modifies this
      ensures Valid() && Preserves()
      ensures failure.Some? ==>
        mountOrder == old(mountOrder) && modules == old(modules) && caps == old(caps) && mounted == old(mounted)
      ensures failure.None? ==>
        && mountOrder == old(mountOrder) + [desc.name] && modules == old(modules) + {desc.name}
        && descs == old(descs)[desc.name := desc]
      ensures failure.Some? ==> descs == old(descs)
      ensures failure == if CallbackOk(oracle, desc.name, old(clock), old(caps)) then None else Some(MountFailed)
      ensures clock == old(clock) + 1 && Earned(oracle, reg, desc.name, old(Snap()), Snap())
      ensures Fair(oracle, desc) && Provides(desc) !! old(caps) ==>
        failure.None? && caps == old(caps) + Provides(desc)
    {
      hide Distinct, Keyed, Fair, Owned, Held, Elements, Provides, Refused, CallbackOk, Earned, Accepted;
      hide Untouched;
      var id := desc.name;
      OwnedOpen(mounted, caps, id, {});
      assert caps + {} == caps;
      mounted := mounted[id := {}];
      var ok := RunCallback(id);
      if !ok {
        // scope.Close: the capability handles always release
        caps := caps - mounted[id];
        mounted := mounted - {id};
        assert caps == old(caps);
        assert mounted == old(mounted);
        NobodyNew(oracle, reg, id, old(Snap()), Snap());
        UntouchedSame(old(Snap()), Snap());
        return Some(MountFailed);
      }
      File(desc);
      EarnedAlone(oracle, reg, id, old(Snap()), Snap());
      UntouchedBeside(old(Snap()), Snap(), id, desc, mounted[id]);
      return None;
    }

    method File(desc: Descriptor)
      requires Keyed(reg) && Owned(mounted, caps) && desc.name !in modules && mounted.Keys == modules + {desc.name}
      requires descs.Keys == modules && Elements(mountOrder) == modules && Distinct(mountOrder)
      modifies this`modules, this`descs, this`mountOrder
      ensures Valid()
      ensures mountOrder == old(mountOrder) + [desc.name] && modules == old(modules) + {desc.name}
      ensures descs == old(descs)[desc.name := desc]
    {
      assert desc.name !in Elements(mountOrder);
      assert Elements(mountOrder + [desc.name]) == Elements(mountOrder) + {desc.name};
      modules := modules + {desc.name};
      descs := descs[desc.name := desc];
      mountOrder := mountOrder + [desc.name];
    }

    /** `chain` is the modules whose Mount is in progress, `desc` being the last of them, and
        `g` the manifests the outermost of them is planned with. */
    ghost predicate InProgress(desc: Descriptor, g: Manifests, chain: seq<Name>)
      reads `modules
    {
      Linked(desc, reg, g, chain) && Unmounted(chain[..|chain| - 1])
    }

    ghost predicate Unmounted(names: seq<Name>)
      reads `modules
    {
      forall n :: n in names ==> n !in modules
    }

    /** The oracle and the capabilities in the registry are on the side of a plan. */
    ghost predicate Favourable(desc: Descriptor, plan: Option<seq<Name>>)
      reads `caps
    {
      var w := WithRoot(reg, desc);
      plan.Some? && AllFair(oracle, w, plan.value) && NoClash(w, caps, plan.value)
    }

    /** The kit is part of the way through a favourable plan for `desc`: it has mounted
        exactly `progress` since it was at `base`. */
    ghost predicate OnCourse(
      desc: Descriptor, base: Base, caps0: set<string>, order0: seq<Name>, progress: seq<Name>,
      todo: seq<Name>, plan: seq<Name>)
      reads `mountOrder, `caps
    {
      && Course(oracle, core, reg, desc, base, caps0, order0, progress, todo, plan)
      && mountOrder == order0 + progress && caps == caps0 + ProvidedBy(WithRoot(reg, desc), progress)
    }

    /** On course, the next unmet dependency has a favourable plan of its own, and the rest
        of the plan goes on after it. */
    lemma NextDependency(
      desc: Descriptor, base: Base, caps0: set<string>, order0: seq<Name>, progress: seq<Name>,
      todo: seq<Name>, plan: seq<Name>)
      requires Valid() && desc.name != "" && OnCourse(desc, base, caps0, order0, progress, todo, plan)
      requires todo != [] && todo[0] != "" && todo[0] != desc.name && todo[0] !in modules
      ensures var d := todo[0];
        && d in reg && oracle.buildOk(d, clock) && PlanFor(reg[d]).Some?
        && Favourable(reg[d], PlanFor(reg[d]))
      ensures var w, d := WithRoot(reg, desc), todo[0];
        var rest := PlanFor(reg[d]).value;
        && ProvidedBy(w, progress + rest) == ProvidedBy(w, progress) + ProvidedBy(WithRoot(reg, reg[d]), rest)
        && Course(oracle, core, reg, desc, base, caps0, order0, progress + rest, todo[1..], plan)
    {
      hide Owned, Distinct, NoClash, AllFair, Fair, PlanOne, PlanAll, ProvidedBy, Provides;
      var w, d, id := WithRoot(reg, desc), todo[0], desc.name;
      assert Elements(mountOrder) == Elements(order0) + Elements(progress);
      assert d in progress ==> d in Elements(progress);
      PlanDependency(reg, w, base, id, progress, todo, plan);
      assert WithRoot(reg, reg[d]) == reg;
      assert Now() == CaughtUp(w, base, progress);
      var rest := PlanFor(reg[d]).value;
      PlanIncludes(reg, Now(), d);
      RestIsFavourable(oracle, reg, w, id, caps0, progress, rest, plan, d);
      ProvidedByConcat(w, progress, rest);
      ProvidedByAgree(w, reg, [id], rest);
      assert id !in rest;
    }

    /** Builds and mounts one unmounted dependency of `desc`. */
    method MountDependency(
      dep: Name, desc: Descriptor, ghost g: Manifests, ghost chain: seq<Name>, ghost base: Base,
      ghost caps0: set<string>, ghost order0: seq<Name>, ghost progress: seq<Name>, ghost todo: seq<Name>,
      ghost plan: seq<Name>)
      returns (failure: Option<Failure>, ghost rest: seq<Name>)
      requires Valid() && desc.name != "" && InProgress(desc, g, chain) && Unmounted(chain)
      requires ChainSafe(UnmetGraph(g, base), chain) && base.mounted <= modules
      requires dep in desc.deps && dep != "" && dep != desc.name && dep !in modules
      requires todo != [] && todo[0] == dep
      modifies this
      ensures Valid() && Preserves() && Unmounted(chain)
      ensures old(DepsFirst(descs, mountOrder)) ==> DepsFirst(descs, mountOrder)
      ensures failure.None? ==> dep in modules
      ensures Earned(oracle, reg, desc.name, old(Snap()), Snap()) && Blamed(oracle, reg, failure, old(clock), clock)
      ensures old(clock) <= clock
      ensures old(OnCourse(desc, base, caps0, order0, progress, todo, plan)) ==>
        failure.None? && OnCourse(desc, base, caps0, order0, progress + rest, todo[1..], plan)
      decreases g.Keys - Elements(chain), 0
    {
      hide Valid, InProgress, Unmounted, OnCourse, Favourable, PlanFor, Now;
      hide Course, ChainSafe, UnmetGraph, DepsFirst, ProvidedBy;
      hide Earned, Blamed, Untouched;
      rest := [];
      ghost var good, w := OnCourse(desc, base, caps0, order0, progress, todo, plan), WithRoot(reg, desc);
      if good {
        NextDependency(desc, base, caps0, order0, progress, todo, plan);
        CourseNow(desc, base, caps0, order0, progress, todo, plan);
      }
      var built := dep in reg && oracle.buildOk(dep, clock);
      clock := clock + 1;
      UntouchedSame(old(Snap()), Snap());
      if !built {
        NobodyNew(oracle, reg, desc.name, old(Snap()), Snap());
        BlamedOn(oracle, reg, dep, old(clock), clock);
        return Some(NotBuildable), [];
      }
      ghost var longer, planned := chain + [dep], PlanFor(reg[dep]);
      Descend(desc, g, chain, base, dep);
      ghost var started, now, asked := old(Snap()), clock, Snap();
      failure := MountWithin(reg[dep], g, longer);
      UntouchedTwice(started, asked, Snap());
      EarnedAsDependency(oracle, reg, dep, desc.name, started, Snap());
      BlamedWithin(oracle, reg, failure, now, clock, old(clock));
      assert longer[..|longer| - 1] == chain;
      if failure.Some? && dep !in modules {
        return;
      }
      if good {
        rest := planned.value;
        assert order0 + progress + rest == order0 + (progress + rest);
        CourseReached(desc, base, caps0, order0, progress + rest, todo[1..], plan);
      }
    }

    lemma CourseNow(
      desc: Descriptor, base: Base, caps0: set<string>, order0: seq<Name>, progress: seq<Name>,
      todo: seq<Name>, plan: seq<Name>)
      requires OnCourse(desc, base, caps0, order0, progress, todo, plan)
      ensures mountOrder == order0 + progress && caps == caps0 + ProvidedBy(WithRoot(reg, desc), progress)
    {
    }

    lemma CourseReached(
      desc: Descriptor, base: Base, caps0: set<string>, order0: seq<Name>, progress: seq<Name>,
      todo: seq<Name>, plan: seq<Name>)
      requires Course(oracle, core, reg, desc, base, caps0, order0, progress, todo, plan)
      requires mountOrder == order0 + progress && caps == caps0 + ProvidedBy(WithRoot(reg, desc), progress)
      ensures OnCourse(desc, base, caps0, order0, progress, todo, plan)
    {
    }

    /** An unmet dependency can join the modules whose Mount is in progress. */
    lemma Descend(desc: Descriptor, g: Manifests, chain: seq<Name>, base: Base, dep: Name)
      requires Valid() && InProgress(desc, g, chain) && Unmounted(chain)
      requires ChainSafe(UnmetGraph(g, base), chain) && base.mounted <= modules
      requires dep in desc.deps && dep != "" && dep !in modules && dep in reg
      ensures var longer := chain + [dep];
        && |longer| > 1 && InProgress(reg[dep], g, longer) && ChainSafe(UnmetGraph(g, Now()), longer)
        && g.Keys - Elements(longer) < g.Keys - Elements(chain)
        && reg[dep].name == dep
    {
      hide ChainSafe, Owned, Distinct;
      ChainExtends(g, base, Now(), chain, dep);
      PushShrinks(g.Keys, chain, dep);
      var longer := chain + [dep];
      assert longer[..|longer| - 1] == chain;
    }

    /** Mounts the dependencies of a module that is about to be mounted, in order. */
    method MountDependencies(desc: Descriptor, ghost g: Manifests, ghost chain: seq<Name>, ghost plan: seq<Name>)
      returns (failure: Option<Failure>)
      requires Valid() && desc.name != "" && InProgress(desc, g, chain) && Unmounted(chain)
      requires ChainSafe(UnmetGraph(g, Now()), chain)
      requires PlanFor(desc) == Some(plan + [desc.name])
      modifies this
      ensures Valid() && Preserves() && Unmounted(chain)
      ensures old(DepsFirst(descs, mountOrder)) ==> DepsFirst(descs, mountOrder)
      ensures failure.None? ==> forall d :: d in desc.deps && d != "" && d != desc.name ==> d in modules
      ensures Earned(oracle, reg, desc.name, old(Snap()), Snap()) && Blamed(oracle, reg, failure, old(clock), clock)
      ensures old(clock) <= clock
      ensures old(Favourable(desc, PlanFor(desc))) ==>
        failure.None? && mountOrder == old(mountOrder) + plan
        && caps == old(caps) + ProvidedBy(WithRoot(reg, desc), plan)
      decreases g.Keys - Elements(chain), 1
    {
      hide Valid, Linked, OnCourse, Favourable, PlanFor, Course, ChainSafe, UnmetGraph, DepsFirst, ProvidedBy;
      NothingEarned(oracle, reg, desc.name, Snap());
      hide Earned, Blamed;
      failure := None;
      var id := desc.name;
      ghost var w, base, caps0, order0 := WithRoot(reg, desc), Now(), caps, mountOrder;
      ghost var good := Favourable(desc, PlanFor(desc));
      ghost var progress: seq<Name> := [];
      if good {
        CourseStarts(desc, plan);
      }
      assert desc.deps[0..] == desc.deps;
      var i := 0;
      while i < |desc.deps|
        invariant 0 <= i <= |desc.deps|
        invariant Valid() && Preserves() && Unmounted(chain) && failure.None?
        invariant Earned(oracle, reg, id, old(Snap()), Snap()) && old(clock) <= clock
        invariant old(DepsFirst(descs, mountOrder)) ==> DepsFirst(descs, mountOrder)
        invariant forall j :: 0 <= j < i && desc.deps[j] != "" && desc.deps[j] != id ==> desc.deps[j] in modules
        invariant good ==> OnCourse(desc, base, caps0, order0, progress, desc.deps[i..], plan)
      {
        var dep := desc.deps[i];
        ghost var todo := desc.deps[i..];
        assert todo[0] == dep && todo[1..] == desc.deps[i + 1..] && dep in desc.deps;
        if dep != "" && dep != id && dep !in modules {
          ghost var rest;
          ghost var before := Snap();
          failure, rest := MountDependency(dep, desc, g, chain, base, caps0, order0, progress, todo, plan);
          EarnedTwice(oracle, reg, id, old(Snap()), before, Snap());
          BlamedWithin(oracle, reg, failure, before.clock, clock, old(clock));
          if failure.Some? {
            return;
          }
          progress := progress + rest;
        } else if good {
          StillOnCourse(desc, base, caps0, order0, progress, todo, plan);
        }
        i := i + 1;
      }
      assert desc.deps[i..] == [];
      NobodyBlamed(oracle, reg, old(clock), clock);
      if good {
        CourseEnds(desc, base, caps0, order0, progress, plan);
      }
    }

    lemma CourseStarts(desc: Descriptor, plan: seq<Name>)
      requires Valid() && desc.name != "" && PlanFor(desc) == Some(plan + [desc.name])
      requires Favourable(desc, PlanFor(desc))
      ensures OnCourse(desc, Now(), caps, mountOrder, [], desc.deps, plan)
    {
      PlanSplits(WithRoot(reg, desc), Now(), desc.name, plan);
      assert mountOrder + [] == mountOrder && caps + {} == caps;
    }

    lemma CourseEnds(
      desc: Descriptor, base: Base, caps0: set<string>, order0: seq<Name>, progress: seq<Name>, plan: seq<Name>)
      requires OnCourse(desc, base, caps0, order0, progress, [], plan)
      ensures mountOrder == order0 + plan && caps == caps0 + ProvidedBy(WithRoot(reg, desc), plan)
    {
      assert progress == plan;
    }

    /** A dependency that needs no mounting leaves the course as it is. */
    lemma StillOnCourse(
      desc: Descriptor, base: Base, caps0: set<string>, order0: seq<Name>, progress: seq<Name>,
      todo: seq<Name>, plan: seq<Name>)
      requires Valid() && OnCourse(desc, base, caps0, order0, progress, todo, plan)
      requires todo != [] && (todo[0] == "" || todo[0] == desc.name || todo[0] in modules)
      ensures OnCourse(desc, base, caps0, order0, progress, todo[1..], plan)
    {
      assert Elements(mountOrder) == Elements(order0) + Elements(progress);
      assert todo[0] in progress <==> todo[0] in Elements(progress);
    }

    /** The second preflight and the mount proper, with the dependencies in place. */
    method MountAlone(desc: Descriptor) returns (failure: Option<Failure>)
      requires Valid() && desc.name != "" && desc.name !in modules
      requires forall d :: d in desc.deps && d != "" ==> d != desc.name && d in modules
      modifies this
      ensures Valid() && Preserves()
      ensures old(DepsFirst(descs, mountOrder)) ==> DepsFirst(descs, mountOrder)
      ensures if failure.Some? then modules == old(modules)
              else modules == old(modules) + {desc.name} && mountOrder == old(mountOrder) + [desc.name]
                   && descs == old(descs)[desc.name := desc]
      ensures failure ==
        if !(Requires(desc) <= old(caps) + core) then Some(NotReady)
        else if CallbackOk(oracle, desc.name, old(clock), old(caps)) then None
        else Some(MountFailed)
      ensures Earned(oracle, reg, desc.name, old(Snap()), Snap()) && Blamed(oracle, reg, failure, old(clock), clock)
      ensures old(clock) <= clock
      ensures Fair(oracle, desc) && Provides(desc) !! old(caps) && Requires(desc) <= old(caps) + core ==>
        failure.None? && caps == old(caps) + Provides(desc)
    {
      AllMet(WithRoot(reg, desc), Now(), desc.name, desc.deps);
      assert [] + [desc.name] == [desc.name];
      var ready := PreflightModuleMount(desc);
      if !ready {
        return Some(NotReady);
      }
      if DepsFirst(descs, mountOrder) {
        assert Elements(mountOrder) == modules;
        DepsFirstAppend(descs, mountOrder, desc);
      }
      failure := OpenAndMount(desc);
      assert failure.Some? ==> Balked(oracle, desc.name, old(clock));
    }

    lemma Views()
      requires Valid()
      ensures mounted.Keys == modules && descs.Keys == modules && Elements(mountOrder) == modules
      ensures Distinct(mountOrder)
    {
    }

    /** `preflightModuleMount`. */
    method PreflightModuleMount(desc: Descriptor) returns (ready: bool)
      requires Valid()
      ensures ready <==> PlanFor(desc).Some?
    {
      var planner;
      ready, planner := PreflightDescriptor(reg, Now(), desc);
    }

    /** What a successful preflight says before the first dependency is mounted. */
    lemma Prepare(desc: Descriptor, g: Manifests, chain: seq<Name>) returns (plan: seq<Name>)
      requires Valid() && InProgress(desc, g, chain) && desc.name != "" && desc.name !in modules
      requires if |chain| > 1 then ChainSafe(UnmetGraph(g, Now()), chain) else g == reg[desc.name := desc]
      requires PlanFor(desc).Some?
      ensures PlanFor(desc) == Some(plan + [desc.name])
      ensures Unmounted(chain) && ChainSafe(UnmetGraph(g, Now()), chain)
      ensures desc.name !in chain[..|chain| - 1]
      ensures forall d :: d in desc.deps && d != "" ==> d != desc.name
      ensures var w := WithRoot(reg, desc);
        && Requires(desc) <= caps + ProvidedBy(w, plan) + core
        && caps + ProvidedBy(w, plan + [desc.name]) == caps + ProvidedBy(w, plan) + Provides(desc)
        && (Favourable(desc, PlanFor(desc)) ==>
              Fair(oracle, desc) && Provides(desc) !! caps + ProvidedBy(w, plan))
    {
      hide Distinct, Owned, NoClash, AllFair, Fair, IsPath, PlanOne, UnmetGraph, ProvidedBy, Provides, Requires;
      var w, base, id := WithRoot(reg, desc), Now(), desc.name;
      plan := PlanEnds(w, base, id);
      LinkedEnds(desc, reg, g, chain);
      if |chain| > 1 {
        assert Distinct(chain);
        LastIsNew(chain);
      }
      if |chain| == 1 {
        ChainStarts(w, base, id);
        assert chain == [id];
      }
      if Favourable(desc, PlanFor(desc)) {
        LastOfPlan(oracle, w, caps, plan, id);
      }
    }

    /** The rest of `Mount` after the first preflight. */
    method MountPlanned(desc: Descriptor, ghost g: Manifests, ghost chain: seq<Name>) returns (failure: Option<Failure>)
      requires Valid() && InProgress(desc, g, chain) && desc.name != "" && desc.name !in modules
      requires if |chain| > 1 then ChainSafe(UnmetGraph(g, Now()), chain) else g == reg[desc.name := desc]
      requires PlanFor(desc).Some?
      modifies this
      ensures Valid() && Preserves() && Unmounted(chain[..|chain| - 1])
      ensures old(DepsFirst(descs, mountOrder)) ==> DepsFirst(descs, mountOrder)
      ensures if failure.Some? then desc.name !in modules
              else mountOrder != [] && mountOrder[|mountOrder| - 1] == desc.name
                   && desc.name in descs && descs[desc.name] == desc
      ensures Earned(oracle, reg, desc.name, old(Snap()), Snap()) && Blamed(oracle, reg, failure, old(clock), clock)
      ensures old(clock) <= clock
      ensures old(Favourable(desc, PlanFor(desc))) ==>
        && failure.None? && mountOrder == old(mountOrder) + old(PlanFor(desc)).value
        && caps == old(caps) + ProvidedBy(WithRoot(reg, desc), old(PlanFor(desc)).value)
      decreases g.Keys - Elements(chain), 2
    {
      hide Valid, Linked, Favourable, PlanFor, ChainSafe, UnmetGraph, DepsFirst, ProvidedBy, Fair, Provides, Requires;
      hide Earned, Blamed, CallbackOk, PlanOne, PlanAll, AllFair, NoClash, Owned, Distinct, Keyed, WithRoot, Untouched;
      ghost var plan := Prepare(desc, g, chain);
      LinkedEnds(desc, reg, g, chain);
      ghost var waiting := chain[..|chain| - 1];
      assert forall n :: n in waiting ==> n in chain && n != desc.name;
      failure := MountDependencies(desc, g, chain, plan);
      assert Unmounted(waiting);
      if failure.Some? {
        return;
      }
      // The extra mount of "jsruntime" for modules that require it never happens: it is one
      // of the dependencies just mounted.
      ghost var before := Snap();
      failure := MountAlone(desc);
      UntouchedTwice(old(Snap()), before, Snap());
      EarnedTwice(oracle, reg, desc.name, old(Snap()), before, Snap());
      BlamedWithin(oracle, reg, failure, before.clock, clock, old(clock));
      Views();
      assert old(mountOrder) + plan + [desc.name] == old(mountOrder) + (plan + [desc.name]);
    }

    /** Why `Mount` refuses a module before it does anything. */
    ghost function Refusal(desc: Descriptor): Option<Failure>
      reads `modules, `caps
    {
      if desc.name == "" then Some(MissingID)
      else if desc.name in modules then Some(AlreadyMounted)
      else if PlanFor(desc).None? then Some(NotReady)
      else None
    }

    /** `Mount`, called for a module or, from within, for the dependencies of one. */
    method MountWithin(desc: Descriptor, ghost g: Manifests, ghost chain: seq<Name>) returns (failure: Option<Failure>)
      requires Valid() && InProgress(desc, g, chain)
      requires if |chain| > 1 then ChainSafe(UnmetGraph(g, Now()), chain) else g == reg[desc.name := desc]
      modifies this
      ensures Valid() && Preserves() && Unmounted(chain[..|chain| - 1])
      ensures old(DepsFirst(descs, mountOrder)) ==> DepsFirst(descs, mountOrder)
      ensures failure.None? ==>
        desc.name !in old(modules) && mountOrder != [] && mountOrder[|mountOrder| - 1] == desc.name
        && desc.name in modules && desc.name in descs && descs[desc.name] == desc
      ensures failure.Some? ==> (desc.name in modules <==> desc.name in old(modules))
      ensures old(Refusal(desc)).Some? ==> failure == old(Refusal(desc)) && unchanged(this)
      ensures Earned(oracle, reg, desc.name, old(Snap()), Snap()) && Blamed(oracle, reg, failure, old(clock), clock)
      ensures old(clock) <= clock
      ensures desc.name != "" && desc.name !in old(modules) && old(Favourable(desc, PlanFor(desc))) ==>
        && failure.None? && mountOrder == old(mountOrder) + old(PlanFor(desc)).value
        && caps == old(caps) + ProvidedBy(WithRoot(reg, desc), old(PlanFor(desc)).value)
      decreases g.Keys - Elements(chain), 3
    {
      hide Linked, PlanOne, ChainSafe, UnmetGraph, DepsFirst, ProvidedBy, AllFair, NoClash, Owned, Distinct, Keyed;
      if desc.name == "" {
        return Some(MissingID);
      }
      if desc.name in mounted {
        return Some(AlreadyMounted);
      }
      var ready := PreflightModuleMount(desc);
      if !ready {
        return Some(NotReady);
      }
      failure := MountPlanned(desc, g, chain);
    }

    /**
      Mounts a module, its unmounted dependencies first.  However the modules behave, what
      is mounted stays consistent.  A module that is not ready is refused before anything has
      happened; and if preflight says ready, and the modules of the plan
      build, mount and provide exactly what they declare without clashes, the mount succeeds
      and appends exactly the planner's order.
     */
    method Mount(desc: Descriptor) returns (failure: Option<Failure>)
      requires Valid()
      modifies this
      ensures Valid() && Preserves()
      ensures old(DepsFirst(descs, mountOrder)) ==> DepsFirst(descs, mountOrder)
      ensures failure.None? ==>
        desc.name !in old(modules) && mountOrder != [] && mountOrder[|mountOrder| - 1] == desc.name
        && desc.name in modules && desc.name in descs && descs[desc.name] == desc
      ensures failure.Some? ==> (desc.name in modules <==> desc.name in old(modules))
      ensures old(Refusal(desc)).Some? ==> failure == old(Refusal(desc)) && unchanged(this)
      ensures Earned(oracle, reg, desc.name, old(Snap()), Snap()) && Blamed(oracle, reg, failure, old(clock), clock)
      ensures old(clock) <= clock
      ensures desc.name != "" && desc.name !in old(modules) && old(Favourable(desc, PlanFor(desc))) ==>
        && failure.None? && mountOrder == old(mountOrder) + old(PlanFor(desc)).value
        && caps == old(caps) + ProvidedBy(WithRoot(reg, desc), old(PlanFor(desc)).value)
    {
      failure := MountWithin(desc, reg[desc.name := desc], [desc.name]);
    }

    /** The mounted modules that require `id`. */
    function MountedDependents(id: Name): (dependents: set<Name>)
      reads this
      ensures forall n :: n in dependents <==> n in descs && n != id && id in descs[n].deps
    {
      set n | n in descs && n != id && id in descs[n].deps
    }

    /** `removeMountOrderLocked`. */
    method RemoveMountOrder(id: Name)
      modifies this`mountOrder
      ensures mountOrder == Without(old(mountOrder), id)
    {
      hide Without;
      var i := 0;
      WithoutBegins(mountOrder, id);
      while i < |mountOrder|
        invariant 0 <= i <= |mountOrder| && mountOrder == old(mountOrder)
        invariant Without(mountOrder, id) == mountOrder[..i] + Without(mountOrder[i..], id)
      {
        WithoutStep(mountOrder, i, id);
        if mountOrder[i] == id {
          mountOrder := mountOrder[..i] + mountOrder[i + 1..];
          return;
        }
        i := i + 1;
      }
      WithoutEnds(mountOrder, i, id);
    }

    /** Deletes a module whose scope has closed from all four structures. */
    method Forget(id: Name)
      requires Valid() && id in modules && mounted[id] == {}
      modifies this`mounted, this`modules, this`descs, this`mountOrder
      ensures Valid()
      ensures mountOrder == Without(old(mountOrder), id) && mounted == old(mounted) - {id}
      ensures modules == old(modules) - {id} && descs == old(descs) - {id}
      ensures old(DepsFirst(descs, mountOrder)) && old(MountedDependents(id)) == {} ==>
        DepsFirst(descs, mountOrder)
    {
      OwnedClose(mounted, caps, id);
      assert caps - mounted[id] == caps;
      WithoutIs(mountOrder, id);
      if DepsFirst(descs, mountOrder) && MountedDependents(id) == {} {
        assert forall n :: n in descs && n != id && id in descs[n].deps ==> n in MountedDependents(id);
        assert id in Elements(mountOrder);
        DepsFirstWithout(descs, mountOrder, id);
      }
      mounted := mounted - {id};
      modules := modules - {id};
      descs := descs - {id};
      RemoveMountOrder(id);
    }

    /** `scope.Close` on a mounted module: the capabilities it holds are always released. */
    method CloseScope(id: Name) returns (ok: bool)
      requires Valid() && id in modules
      modifies this`mounted, this`caps, this`clock
      ensures Valid() && mounted == old(mounted)[id := {}] && caps == old(caps) - old(mounted)[id]
      ensures clock == old(clock) + 1 && ok == oracle.closeOk(id, old(clock))
    {
      OwnedClose(mounted, caps, id);
      caps := caps - mounted[id];
      mounted := mounted[id := {}];
      ok := oracle.closeOk(id, clock);
      clock := clock + 1;
    }

    /** Refuses while a mounted module requires `id`; keeps the module when its scope fails
        to close; otherwise removes it and nothing else. */
    method Unmount(id: Name) returns (failure: Option<Failure>)
      requires Valid()
      modifies this
      ensures Valid()
      ensures old(DepsFirst(descs, mountOrder)) ==> DepsFirst(descs, mountOrder)
      ensures failure == Some(HasDependents) <==> old(MountedDependents(id)) != {}
      ensures failure == Some(NotMounted) <==> old(MountedDependents(id)) == {} && id !in old(modules)
      ensures failure == Some(CloseFailed) <==>
        old(MountedDependents(id)) == {} && id in old(modules) && !oracle.closeOk(id, old(clock))
      ensures failure.None? ==>
        && mountOrder == Without(old(mountOrder), id) && mounted == old(mounted) - {id}
        && descs == old(descs) - {id} && caps == old(caps) - old(mounted)[id]
      ensures failure.Some? ==> mountOrder == old(mountOrder) && descs == old(descs)
      ensures failure == Some(CloseFailed) ==>
        mounted == old(mounted)[id := {}] && caps == old(caps) - old(mounted)[id]
      ensures failure == Some(HasDependents) || failure == Some(NotMounted) ==> unchanged(this)
    {
      hide Distinct, Owned, Keyed, DepsFirst;
      if MountedDependents(id) != {} {
        return Some(HasDependents);
      }
      if id !in mounted {
        return Some(NotMounted);
      }
      var ok := CloseScope(id);
      if !ok {
        return Some(CloseFailed);
      }
      Forget(id);
      assert mounted == old(mounted) - {id};
      return None;
    }

    /**
      Closes every mounted scope in reverse mount order, carrying on past failures, and then
      forgets the modules whose scope closed.
     */
    method CloseMounted() returns (ok: bool, attempts: seq<Name>)
      requires Valid()
      modifies this
      ensures Valid()
      ensures attempts == Reversed(old(mountOrder))
      ensures mountOrder == Survivors(oracle, old(mountOrder), old(clock))
      ensures ok <==> mountOrder == []
      ensures caps == {}
      ensures forall n :: n in modules ==> n in old(descs) && descs[n] == old(descs)[n]
    {
      hide Valid, Distinct;
      Views();
      attempts := ScopesToClose();
      var closed;
      ok, closed := CloseAll(attempts);
      Views();
      NothingHeld();
      ClosedOfReversed(oracle, mountOrder, old(clock));
      assert forall n :: n in closed ==> n in Elements(mountOrder);
      ForgetAll(closed);
    }

    lemma NothingHeld()
      requires Valid() && forall n :: n in mounted ==> mounted[n] == {}
      ensures caps == {}
    {
    }

    /** The mounted modules from the last to the first.  All of them are in the mount order,
        so there are none to add in alphabetical order. */
    method ScopesToClose() returns (scopes: seq<Name>)
      requires Valid()
      ensures scopes == Reversed(mountOrder) && Elements(scopes) == modules
    {
      scopes := [];
      var i := |mountOrder|;
      while i > 0
        invariant 0 <= i <= |mountOrder|
        invariant |scopes| == |mountOrder| - i
        invariant forall j :: 0 <= j < |scopes| ==> scopes[j] == mountOrder[|mountOrder| - 1 - j]
      {
        i := i - 1;
        assert mountOrder[i] in Elements(mountOrder);
        if mountOrder[i] in mounted {
          scopes := scopes + [mountOrder[i]];
        }
      }
      assert mounted.Keys - Elements(mountOrder) == {};
      forall n ensures n in mountOrder <==> n in scopes {
        if n in mountOrder {
          var k :| 0 <= k < |mountOrder| && mountOrder[k] == n;
          assert scopes[|mountOrder| - 1 - k] == n;
        }
      }
    }

    /** Attempts every close; `closed` are the modules whose scope closed, in that order. */
    method CloseAll(scopes: seq<Name>) returns (ok: bool, closed: seq<Name>)
      requires Valid() && Elements(scopes) == modules
      modifies this`mounted, this`caps, this`clock
      ensures Valid()
      ensures forall n :: n in mounted ==> mounted[n] == {}
      ensures closed == Closed(oracle, scopes, old(clock))
      ensures ok <==> AllClose(oracle, scopes, old(clock))
    {
      hide Valid, Distinct, Closed, Elements;
      Views();
      ok, closed := true, [];
      ClosedNone(oracle, scopes, clock);
      ghost var held := modules;
      var i := 0;
      while i < |scopes|
        invariant 0 <= i <= |scopes| && clock == old(clock) + i
        invariant Valid() && mounted.Keys == held
        invariant closed == Closed(oracle, scopes[..i], old(clock))
        invariant forall j :: 0 <= j < i ==> scopes[j] in mounted && mounted[scopes[j]] == {}
        invariant ok <==> forall j :: 0 <= j < i ==> oracle.closeOk(scopes[j], old(clock) + j)
      {
        ClosedStep(oracle, scopes, i, old(clock));
        var done := CloseScope(scopes[i]);
        if done {
          closed := closed + [scopes[i]];
        } else {
          ok := false;
        }
        i := i + 1;
      }
      assert scopes[..i] == scopes;
      AllEmptied(scopes);
    }

    lemma AllEmptied(scopes: seq<Name>)
      requires mounted.Keys == Elements(scopes)
      requires forall j :: 0 <= j < |scopes| ==> scopes[j] in mounted && mounted[scopes[j]] == {}
      ensures forall n :: n in mounted ==> mounted[n] == {}
    {
      forall n | n in mounted ensures mounted[n] == {} {
        assert n in Elements(scopes);
      }
    }

    method ForgetAll(closed: seq<Name>)
      requires Valid() && Distinct(closed)
      requires forall n :: n in closed ==> n in modules && mounted[n] == {}
      modifies this`mounted, this`modules, this`descs, this`mountOrder
      ensures Valid() && mountOrder == Drop(old(mountOrder), Elements(closed))
      ensures forall n :: n in modules ==> n in old(descs) && descs[n] == old(descs)[n]
    {
      hide Valid, Distinct, Drop, Owned, Keyed, DepsFirst;
      Views();
      DropNothing(mountOrder);
      assert closed[0..] == closed && Elements(closed[..0]) == {};
      hide Elements;
      var i := 0;
      while i < |closed|
        invariant 0 <= i <= |closed| && Valid() && mounted.Keys == modules && descs.Keys == modules
        invariant mountOrder == Drop(old(mountOrder), Elements(closed[..i]))
        invariant forall n :: n in closed[i..] ==> n in modules && mounted[n] == {}
        invariant forall n :: n in modules ==> n in old(descs) && descs[n] == old(descs)[n]
      {
        assert closed[i..] == [closed[i]] + closed[i + 1..];
        ElementsNext(closed, i);
        DistinctAt(closed, i);
        DropMore(old(mountOrder), Elements(closed[..i]), closed[i]);
        Forget(closed[i]);
        i := i + 1;
      }
      assert closed[..i] == closed;
    }
  }

  /** A request to a running kit. */
  datatype Request = ToMount(desc: Descriptor) | ToUnmount(id: Name)

  /** What the kit holds between two requests. */
  datatype Holding = Holding(mounted: set<Name>, modules: set<Name>, descs: Manifests, order: seq<Name>)

  /** The four views agree, and whatever a mounted module requires is mounted before it. */
  ghost predicate Consistent(h: Holding) {
    && Distinct(h.order) && Elements(h.order) == h.mounted == h.modules == h.descs.Keys
    && DepsFirst(h.descs, h.order)
  }

  function HoldingOf(kit: Kit): Holding
    reads kit
  {
    Holding(kit.mounted.Keys, kit.modules, kit.descs, kit.mountOrder)
  }

  /** One request. */
  method Handle(kit: Kit, request: Request)
    requires kit.Valid() && Consistent(HoldingOf(kit))
    modifies kit
    ensures kit.Valid() && Consistent(HoldingOf(kit))
    ensures Follows(old(HoldingOf(kit)), request, HoldingOf(kit))
  {
    hide DepsFirst, Owned, Distinct;
    match request {
      case ToMount(desc) => var failure := kit.Mount(desc);
      case ToUnmount(id) => var failure := kit.Unmount(id);
    }
  }

  /** Any sequence of requests to a new kit, whatever the modules do and however often they fail:
      the kit is consistent after each of them. */
  method Serve(reg: Manifests, core: set<string>, oracle: Oracle, requests: seq<Request>)
    returns (kit: Kit, history: seq<Holding>)
    requires Keyed(reg)
    ensures fresh(kit) && kit.Valid() && |history| == |requests| + 1
    ensures history[0] == Holding({}, {}, map[], []) && history[|requests|] == HoldingOf(kit)
    ensures forall k :: 0 <= k < |history| ==> Consistent(history[k])
    ensures forall k :: 0 <= k < |requests| ==> Follows(history[k], requests[k], history[k + 1])
  {
    kit := new Kit(reg, core, oracle);
    history := [HoldingOf(kit)];
    assert Consistent(history[0]);
    hide Consistent, Follows;
    for i := 0 to |requests|
      invariant fresh(kit) && kit.Valid() && |history| == i + 1
      invariant history[0] == Holding({}, {}, map[], []) && history[i] == HoldingOf(kit)
      invariant forall k :: 0 <= k < |history| ==> Consistent(history[k])
      invariant forall k :: 0 <= k < i ==> Follows(history[k], requests[k], history[k + 1])
    {
      Handle(kit, requests[i]);
      history := history + [HoldingOf(kit)];
    }
  }

  /** A mount only adds at the end; an unmount changes nothing or takes out its module alone, which
      nothing mounted requires. */
  ghost predicate Follows(h: Holding, r: Request, h': Holding) {
    match r
    case ToMount(_) => h.order <= h'.order
    case ToUnmount(id) =>
      h' == h || (&& h'.order == Without(h.order, id)
                  && forall n :: n in h'.descs ==> id !in h'.descs[n].deps || id == "")
  }

  lemma ElementsNext(s: seq<Name>, i: nat)
    requires i < |s|
    ensures Elements(s[..i + 1]) == Elements(s[..i]) + {s[i]}
    ensures s[i] in s[..i] <==> s[i] in Elements(s[..i])
  {
  }

  lemma {:induction false} DropNothing(s: seq<Name>)
    ensures Drop(s, {}) == s
  {
    if s != [] {
      DropNothing(s[1..]);
    }
  }

  lemma {:induction false} NoneDropped(s: seq<Name>, dropped: set<Name>)
    ensures Drop(s, dropped) == [] <==> forall n :: n in s ==> n in dropped
  {
    if s != [] {
      NoneDropped(s[1..], dropped);
      assert forall n :: n in s <==> n == s[0] || n in s[1..];
    }
  }
}
