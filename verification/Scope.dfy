/**
  The cleanup tree of `module/scope.go`.  Scopes refer to each other through cleanups, so
  they live in one store and are named by their position in it; a child is always younger
  than its parent.
 */
module Scope {
  import opened Sequences

  /** A registered cleanup: a function, or the Close of a child scope. */
  datatype Entry = Func(token: nat) | Sub(child: nat)

  /** A scope.  `accepted` is everything ever registered on it; no operation reads it. */
  datatype Node = Node(named: bool, parent: int, closed: bool, cleanups: seq<Entry>, accepted: seq<Entry>)

  /** One call of a cleanup function. */
  datatype Attempt = Attempt(token: nat, ok: bool)

  /** All scopes, the scope each function was registered on, and the calls made so far. */
  datatype Store = Store(nodes: seq<Node>, owners: seq<nat>, log: seq<Attempt>)

  /** Whether a function succeeds when it is the `nat`-th to be called. */
  type Oracle = (nat, nat) -> bool

  const NO_PARENT := -1

  ghost predicate EntryFits(s: Store, p: nat, e: Entry) {
    match e
    case Func(t) => t < |s.owners| && s.owners[t] == p
    case Sub(c) => p < c < |s.nodes| && s.nodes[c].parent == p
  }

  /** Children are younger than their parent and registered with it alone. */
  ghost predicate Shaped(s: Store) {
    && (forall n :: 0 <= n < |s.nodes| ==> NO_PARENT <= s.nodes[n].parent < n)
    && (forall p, e :: 0 <= p < |s.nodes| && e in s.nodes[p].cleanups ==> EntryFits(s, p, e))
  }

  predicate Settled(n: Node) { n.closed && n.cleanups == [] }

  ghost predicate AllFit(s: Store, p: nat, todo: seq<Entry>) {
    forall e :: e in todo ==> EntryFits(s, p, e)
  }

  /** What running cleanups can change: scopes younger than `id` get fewer cleanups, and the
      log grows. */
  ghost predicate Runs(s: Store, s': Store, id: int) {
    && |s'.nodes| == |s.nodes| && s'.owners == s.owners && s.log <= s'.log
    && forall n :: 0 <= n < |s.nodes| ==>
         && s'.nodes[n].parent == s.nodes[n].parent && s'.nodes[n].named == s.nodes[n].named
         && s'.nodes[n].accepted == s.nodes[n].accepted
         && (s.nodes[n].closed ==> s'.nodes[n].closed)
         && (Settled(s.nodes[n]) ==> s'.nodes[n] == s.nodes[n])
         && (n <= id ==> s'.nodes[n] == s.nodes[n])
  }

  lemma FitsLater(s: Store, s': Store, p: nat, todo: seq<Entry>, k: nat)
    requires AllFit(s, p, todo) && Runs(s, s', p) && k <= |todo|
    ensures AllFit(s', p, todo[..k])
  {
    forall e | e in todo[..k] ensures EntryFits(s', p, e) {
      assert e in todo;
    }
  }

  function RunOne(s: Store, oracle: Oracle, p: nat, e: Entry): (r: (Store, bool))
    requires Shaped(s) && EntryFits(s, p, e)
    ensures Shaped(r.0) && Runs(s, r.0, p)
    decreases |s.nodes| - p, 0
  {
    match e
    case Func(t) =>
      var ok := oracle(t, |s.log|);
      (s.(log := s.log + [Attempt(t, ok)]), ok)
    case Sub(c) => CloseScope(s, oracle, c)
  }

  /** Runs `todo` from the last entry to the first; what failed comes back in order. */
  function RunAll(s: Store, oracle: Oracle, p: nat, todo: seq<Entry>): (r: (Store, seq<Entry>))
    requires Shaped(s) && p < |s.nodes| && AllFit(s, p, todo)
    ensures Shaped(r.0) && Runs(s, r.0, p) && forall e :: e in r.1 ==> e in todo
    decreases |s.nodes| - p, 1 + |todo|
  {
    if todo == [] then (s, [])
    else
      var last := todo[|todo| - 1];
      var (mid, ok) := RunOne(s, oracle, p, last);
      FitsLater(s, mid, p, todo, |todo| - 1);
      var (end, failed) := RunAll(mid, oracle, p, todo[..|todo| - 1]);
      (end, failed + (if ok then [] else [last]))
  }

  /** `Close`: the store afterwards, and whether it returned nil. */
  function CloseScope(s: Store, oracle: Oracle, id: nat): (r: (Store, bool))
    requires Shaped(s) && id < |s.nodes|
    ensures Shaped(r.0) && Runs(s, r.0, id - 1)
    decreases |s.nodes| - id, 1 + |s.nodes[id].cleanups| + 1
  {
    var n := s.nodes[id];
    if Settled(n) then (s, true)
    else
      var (end, failed) := RunAll(Taken(s, id), oracle, id, n.cleanups);
      if failed != [] && n.named
      then (end.(nodes := end.nodes[id := end.nodes[id].(cleanups := end.nodes[id].cleanups + failed)]), false)
      else (end, failed == [])
  }

  /** The store once `Close` has taken the cleanups of `id` out. */
  function Taken(s: Store, id: nat): (s': Store)
    requires Shaped(s) && id < |s.nodes|
    ensures Shaped(s') && AllFit(s', id, s.nodes[id].cleanups) && Runs(s, s', id - 1)
  {
    s.(nodes := s.nodes[id := s.nodes[id].(closed := true, cleanups := [])])
  }

  // ----- what one close can touch -----

  /** `n` is `a` or below it. */
  ghost predicate Under(s: Store, n: int, a: int)
    requires Shaped(s) && n < |s.nodes|
    decreases n
  {
    n == a || (n >= 0 && Under(s, s.nodes[n].parent, a))
  }

  lemma {:induction false} UnderIsYounger(s: Store, n: int, a: nat)
    requires Shaped(s) && n < |s.nodes| && Under(s, n, a)
    ensures a <= n
    decreases n
  {
    if n != a {
      UnderIsYounger(s, s.nodes[n].parent, a);
    }
  }

  lemma {:induction false} UnderOneSibling(s: Store, n: int, a: nat, b: nat)
    requires Shaped(s) && n < |s.nodes| && a < |s.nodes| && b < |s.nodes|
    requires Under(s, n, a) && Under(s, n, b) && s.nodes[a].parent == s.nodes[b].parent
    ensures a == b
    decreases n
  {
    UnderIsYounger(s, n, a);
    UnderIsYounger(s, n, b);
    if n == a && n != b {
      UnderIsYounger(s, s.nodes[n].parent, b);
    } else if n == b && n != a {
      UnderIsYounger(s, s.nodes[n].parent, a);
    } else if n != a {
      UnderOneSibling(s, s.nodes[n].parent, a, b);
    }
  }

  lemma {:induction false} UnderChild(s: Store, n: int, c: nat)
    requires Shaped(s) && n < |s.nodes| && c < |s.nodes| && Under(s, n, c) && s.nodes[c].parent >= 0
    ensures Under(s, n, s.nodes[c].parent)
    decreases n
  {
    if n != c {
      UnderChild(s, s.nodes[n].parent, c);
    } else {
      assert Under(s, s.nodes[c].parent, s.nodes[c].parent);
    }
  }

  lemma {:induction false} UnderLater(s: Store, s': Store, id: int, n: int, a: int)
    requires Shaped(s) && Shaped(s') && Runs(s, s', id) && n < |s.nodes|
    ensures Under(s', n, a) == Under(s, n, a)
    decreases n
  {
    if n != a && n >= 0 {
      UnderLater(s, s', id, s.nodes[n].parent, a);
    }
  }

  /** The scopes and functions that running `e` for scope `p` concerns. */
  ghost predicate Concerns(s: Store, e: Entry, n: nat)
    requires Shaped(s) && n < |s.nodes|
  {
    e.Sub? && Under(s, n, e.child)
  }

  ghost predicate ConcernsAny(s: Store, todo: seq<Entry>, n: nat)
    requires Shaped(s) && n < |s.nodes|
  {
    exists e :: e in todo && Concerns(s, e, n)
  }

  /** From `s` to `s'` only what `todo` concerns has changed or been called. */
  ghost predicate Confined(s: Store, s': Store, p: int, todo: seq<Entry>)
    requires Shaped(s)
  {
    && Runs(s, s', p)
    && (forall n :: 0 <= n < |s.nodes| && !ConcernsAny(s, todo, n) ==> s'.nodes[n] == s.nodes[n])
    && (forall k :: |s.log| <= k < |s'.log| ==> CalledFor(s, todo, s'.log[k].token))
  }

  /** Function `t` belongs to `todo` or to a scope that `todo` concerns. */
  ghost predicate CalledFor(s: Store, todo: seq<Entry>, t: nat)
    requires Shaped(s)
  {
    Func(t) in todo || (t < |s.owners| && s.owners[t] < |s.nodes| && ConcernsAny(s, todo, s.owners[t]))
  }

  lemma ConcernsLater(s: Store, s': Store, id: int, todo: seq<Entry>, n: nat)
    requires Shaped(s) && Shaped(s') && Runs(s, s', id) && n < |s.nodes|
    ensures ConcernsAny(s', todo, n) == ConcernsAny(s, todo, n)
  {
    forall e | e in todo ensures Concerns(s', e, n) == Concerns(s, e, n) {
      if e.Sub? { UnderLater(s, s', id, n, e.child); }
    }
  }

  lemma ConfinedTwice(s: Store, s1: Store, s2: Store, p: int, a: seq<Entry>, b: seq<Entry>, todo: seq<Entry>)
    requires Shaped(s) && Shaped(s1) && Confined(s, s1, p, a) && Confined(s1, s2, p, b)
    requires forall e :: e in a || e in b ==> e in todo
    ensures Confined(s, s2, p, todo)
  {
    forall n | 0 <= n < |s.nodes| && !ConcernsAny(s, todo, n) ensures s2.nodes[n] == s.nodes[n] {
      ConcernsLater(s, s1, p, b, n);
    }
    forall k | |s.log| <= k < |s2.log| ensures CalledFor(s, todo, s2.log[k].token) {
      var t := s2.log[k].token;
      if k < |s1.log| {
        assert s2.log[k] == s1.log[k];
      } else if Func(t) !in b {
        ConcernsLater(s, s1, p, b, s.owners[t]);
      }
    }
  }

  lemma {:induction false} RunOneConfined(s: Store, oracle: Oracle, p: nat, e: Entry)
    requires Shaped(s) && p < |s.nodes| && EntryFits(s, p, e)
    ensures Confined(s, RunOne(s, oracle, p, e).0, p, [e])
    decreases |s.nodes| - p, 0
  {
    if e.Sub? {
      CloseConfined(s, oracle, e.child);
    }
  }

  lemma {:induction false} RunAllConfined(s: Store, oracle: Oracle, p: nat, todo: seq<Entry>)
    requires Shaped(s) && p < |s.nodes| && AllFit(s, p, todo)
    ensures Confined(s, RunAll(s, oracle, p, todo).0, p, todo)
    decreases |s.nodes| - p, 1 + |todo|
  {
    if todo != [] {
      var k := |todo| - 1;
      var mid := RunOne(s, oracle, p, todo[k]).0;
      RunOneConfined(s, oracle, p, todo[k]);
      FitsLater(s, mid, p, todo, k);
      RunAllConfined(mid, oracle, p, todo[..k]);
      ConfinedTwice(s, mid, RunAll(mid, oracle, p, todo[..k]).0, p, [todo[k]], todo[..k], todo);
    }
  }

  lemma {:induction false} CloseConfined(s: Store, oracle: Oracle, id: nat)
    requires Shaped(s) && id < |s.nodes|
    ensures Confined(s, CloseScope(s, oracle, id).0, id - 1, [Sub(id)])
    decreases |s.nodes| - id, 1 + |s.nodes[id].cleanups| + 1
  {
    if !Settled(s.nodes[id]) {
      var taken, todo := Taken(s, id), s.nodes[id].cleanups;
      RunAllConfined(taken, oracle, id, todo);
      var end, final := RunAll(taken, oracle, id, todo).0, CloseScope(s, oracle, id).0;
      forall n | 0 <= n < |s.nodes| && ConcernsAny(taken, todo, n) ensures Concerns(s, Sub(id), n) {
        var e :| e in todo && Concerns(taken, e, n);
        UnderLater(s, taken, id - 1, n, e.child);
        UnderChild(s, n, e.child);
      }
      forall n | 0 <= n < |s.nodes| && !ConcernsAny(s, [Sub(id)], n) ensures final.nodes[n] == s.nodes[n] {
        assert Sub(id) in [Sub(id)];
        assert n != id;
      }
      forall k | |s.log| <= k < |final.log| ensures CalledFor(s, [Sub(id)], final.log[k].token) {
        var t := final.log[k].token;
        assert CalledFor(taken, todo, t) && Sub(id) in [Sub(id)];
        if Func(t) in todo {
          assert Concerns(s, Sub(id), s.owners[t]);
        }
      }
    }
  }

  /** Nothing under `c` changes and no function there is called. */
  ghost predicate Quiet(s: Store, s': Store, c: nat)
    requires Shaped(s)
  {
    && |s'.nodes| == |s.nodes| && s'.owners == s.owners && s.log <= s'.log
    && (forall n :: 0 <= n < |s.nodes| ==> s'.nodes[n].parent == s.nodes[n].parent)
    && (forall n :: 0 <= n < |s.nodes| && Under(s, n, c) ==> s'.nodes[n] == s.nodes[n])
    && (forall k :: |s.log| <= k < |s'.log| ==>
          var t := s'.log[k].token;
          t < |s.owners| && (s.owners[t] < |s.nodes| ==> !Under(s, s.owners[t], c)))
  }

  /** Running other entries of the same scope leaves a child in peace. */
  lemma SiblingsAreQuiet(s: Store, s': Store, p: nat, todo: seq<Entry>, c: nat)
    requires Shaped(s) && p < |s.nodes| && AllFit(s, p, todo) && Confined(s, s', p, todo)
    requires EntryFits(s, p, Sub(c)) && Sub(c) !in todo
    ensures Quiet(s, s', c)
  {
    forall n | 0 <= n < |s.nodes| && Under(s, n, c) ensures !ConcernsAny(s, todo, n) {
      if ConcernsAny(s, todo, n) {
        var e :| e in todo && Concerns(s, e, n);
        assert EntryFits(s, p, e);
        UnderOneSibling(s, n, e.child, c);
      }
    }
    forall k | |s.log| <= k < |s'.log|
      ensures var t := s'.log[k].token;
        t < |s.owners| && (s.owners[t] < |s.nodes| ==> !Under(s, s.owners[t], c))
    {
      var t := s'.log[k].token;
      assert CalledFor(s, todo, t);
      if Func(t) in todo {
        assert EntryFits(s, p, Func(t));
        if Under(s, p, c) { UnderIsYounger(s, p, c); }
      }
    }
  }

  /** Running other entries of the same scope does not call a function of it. */
  lemma SiblingsDoNotCall(s: Store, s': Store, p: nat, todo: seq<Entry>, t: nat)
    requires Shaped(s) && p < |s.nodes| && AllFit(s, p, todo) && Confined(s, s', p, todo)
    requires EntryFits(s, p, Func(t)) && Func(t) !in todo
    ensures forall k :: |s.log| <= k < |s'.log| ==> s'.log[k].token != t
  {
    forall k | |s.log| <= k < |s'.log| ensures s'.log[k].token != t {
      assert CalledFor(s, todo, s'.log[k].token);
      if s'.log[k].token == t {
        var e :| e in todo && Concerns(s, e, p);
        assert EntryFits(s, p, e);
        UnderIsYounger(s, p, e.child);
      }
    }
  }

  // ----- the order of the calls -----

  function Tokens(log: seq<Attempt>): (ts: seq<nat>)
    ensures |ts| == |log| && forall i :: 0 <= i < |ts| ==> ts[i] == log[i].token
  {
    seq(|log|, i requires 0 <= i < |log| => log[i].token)
  }

  /** The functions left under a scope, youngest registration first. */
  function RunOrder(s: Store, id: nat): seq<nat>
    requires Shaped(s) && id < |s.nodes|
    decreases |s.nodes| - id, 1 + |s.nodes[id].cleanups| + 1
  {
    OrderOf(s, id, s.nodes[id].cleanups)
  }

  function OrderOfOne(s: Store, p: nat, e: Entry): seq<nat>
    requires Shaped(s) && p < |s.nodes| && EntryFits(s, p, e)
    decreases |s.nodes| - p, 0
  {
    match e case Func(t) => [t] case Sub(c) => RunOrder(s, c)
  }

  function OrderOf(s: Store, p: nat, todo: seq<Entry>): seq<nat>
    requires Shaped(s) && p < |s.nodes| && AllFit(s, p, todo)
    decreases |s.nodes| - p, 1 + |todo|
  {
    if todo == [] then []
    else
      var last := todo[|todo| - 1];
      assert last in todo && EntryFits(s, p, last);
      FitsSame(s, p, todo, |todo| - 1);
      OrderOfOne(s, p, last) + OrderOf(s, p, todo[..|todo| - 1])
  }

  lemma FitsSame(s: Store, p: nat, todo: seq<Entry>, k: nat)
    requires AllFit(s, p, todo) && k <= |todo|
    ensures AllFit(s, p, todo[..k])
  {
    forall e | e in todo[..k] ensures EntryFits(s, p, e) {
      assert e in todo;
    }
  }

  lemma QuietBelow(s: Store, s': Store, c: nat, d: nat)
    requires Shaped(s) && c < |s.nodes| && d < |s.nodes| && Quiet(s, s', c) && s.nodes[d].parent == c
    ensures Quiet(s, s', d)
  {
    forall n | 0 <= n < |s.nodes| && Under(s, n, d) ensures Under(s, n, c) {
      UnderChild(s, n, d);
    }
  }

  lemma {:induction false} OrderQuiet(s: Store, s': Store, c: nat)
    requires Shaped(s) && Shaped(s') && c < |s.nodes| && Quiet(s, s', c)
    ensures RunOrder(s', c) == RunOrder(s, c)
    decreases |s.nodes| - c, 1 + |s.nodes[c].cleanups| + 1
  {
    assert Under(s, c, c);
    forall d: nat | Sub(d) in s.nodes[c].cleanups ensures d < |s.nodes| && Quiet(s, s', d) {
      assert EntryFits(s, c, Sub(d));
      QuietBelow(s, s', c, d);
    }
    OrderOfQuiet(s, s', c, s.nodes[c].cleanups);
  }

  lemma {:induction false} OrderOfQuiet(s: Store, s': Store, p: nat, todo: seq<Entry>)
    requires Shaped(s) && Shaped(s') && p < |s.nodes| && |s'.nodes| == |s.nodes|
    requires AllFit(s, p, todo) && AllFit(s', p, todo)
    requires forall d: nat :: Sub(d) in todo ==> d < |s.nodes| && Quiet(s, s', d)
    ensures OrderOf(s', p, todo) == OrderOf(s, p, todo)
    decreases |s.nodes| - p, 1 + |todo|
  {
    if todo != [] {
      var k := |todo| - 1;
      assert todo[k] in todo && EntryFits(s, p, todo[k]);
      FitsSame(s, p, todo, k);
      FitsSame(s', p, todo, k);
      assert forall e :: e in todo[..k] ==> e in todo;
      if todo[k].Sub? { OrderQuiet(s, s', todo[k].child); }
      OrderOfQuiet(s, s', p, todo[..k]);
    }
  }

  /** No scope has the same cleanup twice. */
  ghost predicate Neat(s: Store, from: int) {
    forall n :: from <= n < |s.nodes| && 0 <= n ==> Distinct(s.nodes[n].cleanups)
  }

  lemma DistinctFront(todo: seq<Entry>, k: nat)
    requires Distinct(todo) && k == |todo| - 1
    ensures Distinct(todo[..k]) && todo[k] !in todo[..k]
  {
  }

  lemma {:induction false} RunAllNeat(s: Store, oracle: Oracle, p: nat, todo: seq<Entry>)
    requires Shaped(s) && p < |s.nodes| && AllFit(s, p, todo) && Neat(s, p + 1) && Distinct(todo)
    ensures Neat(RunAll(s, oracle, p, todo).0, p + 1) && Distinct(RunAll(s, oracle, p, todo).1)
    decreases |s.nodes| - p, 1 + |todo|
  {
    if todo != [] {
      var k := |todo| - 1;
      DistinctFront(todo, k);
      assert EntryFits(s, p, todo[k]);
      var mid := RunOne(s, oracle, p, todo[k]).0;
      NeatAfterOne(s, oracle, p, todo[k]);
      FitsLater(s, mid, p, todo, k);
      RunAllNeat(mid, oracle, p, todo[..k]);
    }
  }

  lemma {:induction false} NeatAfterOne(s: Store, oracle: Oracle, p: nat, e: Entry)
    requires Shaped(s) && p < |s.nodes| && EntryFits(s, p, e) && Neat(s, p + 1)
    ensures Neat(RunOne(s, oracle, p, e).0, p + 1)
    decreases |s.nodes| - p, 0
  {
    if e.Sub? {
      var mid := RunOne(s, oracle, p, e).0;
      CloseNeat(s, oracle, e.child);
      forall n | p + 1 <= n < |s.nodes| ensures Distinct(mid.nodes[n].cleanups) {
        if n < e.child { assert mid.nodes[n] == s.nodes[n]; }
      }
    }
  }

  lemma {:induction false} CloseNeat(s: Store, oracle: Oracle, id: nat)
    requires Shaped(s) && id < |s.nodes| && Neat(s, id)
    ensures Neat(CloseScope(s, oracle, id).0, id)
    decreases |s.nodes| - id, 1 + |s.nodes[id].cleanups| + 1
  {
    if !Settled(s.nodes[id]) {
      RunAllNeat(Taken(s, id), oracle, id, s.nodes[id].cleanups);
    }
  }

  /** Running one entry leaves the order of the other entries as it was. */
  lemma OrderAfterOne(s: Store, oracle: Oracle, p: nat, e: Entry, others: seq<Entry>)
    requires Shaped(s) && p < |s.nodes| && EntryFits(s, p, e) && AllFit(s, p, others) && e !in others
    ensures var mid := RunOne(s, oracle, p, e).0;
      AllFit(mid, p, others) && OrderOf(mid, p, others) == OrderOf(s, p, others)
  {
    hide Confined, Quiet;
    var mid := RunOne(s, oracle, p, e).0;
    RunOneConfined(s, oracle, p, e);
    FitsLater(s, mid, p, others, |others|);
    assert others[..|others|] == others && AllFit(s, p, [e]);
    forall d: nat | Sub(d) in others ensures d < |s.nodes| && Quiet(s, mid, d) {
      assert EntryFits(s, p, Sub(d));
      SiblingsAreQuiet(s, mid, p, [e], d);
    }
    OrderOfQuiet(s, mid, p, others);
  }

  lemma {:induction false} RunOneOrder(s: Store, oracle: Oracle, p: nat, e: Entry)
    requires Shaped(s) && p < |s.nodes| && EntryFits(s, p, e) && Neat(s, p + 1)
    ensures Tokens(RunOne(s, oracle, p, e).0.log) == Tokens(s.log) + OrderOfOne(s, p, e)
    decreases |s.nodes| - p, 0
  {
    if e.Sub? { CloseOrder(s, oracle, e.child); }
  }

  lemma {:induction false} RunAllOrder(s: Store, oracle: Oracle, p: nat, todo: seq<Entry>)
    requires Shaped(s) && p < |s.nodes| && AllFit(s, p, todo) && Neat(s, p + 1) && Distinct(todo)
    ensures Tokens(RunAll(s, oracle, p, todo).0.log) == Tokens(s.log) + OrderOf(s, p, todo)
    decreases |s.nodes| - p, 1 + |todo|
  {
    hide RunOne, CloseScope, Neat, RunOrder;
    if todo != [] {
      var k := |todo| - 1;
      var last, front := todo[k], todo[..k];
      DistinctFront(todo, k);
      assert EntryFits(s, p, last);
      FitsSame(s, p, todo, k);
      var mid := RunOne(s, oracle, p, last).0;
      OrderAfterOne(s, oracle, p, last, front);
      NeatAfterOne(s, oracle, p, last);
      RunOneOrder(s, oracle, p, last);
      RunAllOrder(mid, oracle, p, front);
    }
  }

  /** `Close` calls exactly the functions left under the scope, each once, in reverse
      registration order, a child's in the place where the child was registered. */
  lemma {:induction false} CloseOrder(s: Store, oracle: Oracle, id: nat)
    requires Shaped(s) && id < |s.nodes| && Neat(s, id)
    ensures Tokens(CloseScope(s, oracle, id).0.log) == Tokens(s.log) + RunOrder(s, id)
    decreases |s.nodes| - id, 1 + |s.nodes[id].cleanups| + 1
  {
    if !Settled(s.nodes[id]) {
      var taken, todo := Taken(s, id), s.nodes[id].cleanups;
      RunAllOrder(taken, oracle, id, todo);
      forall d: nat | Sub(d) in todo ensures d < |s.nodes| && Quiet(s, taken, d) {
        assert EntryFits(s, id, Sub(d));
        if Under(s, id, d) { UnderIsYounger(s, id, d); }
      }
      OrderOfQuiet(s, taken, id, todo);
    }
  }

  /** `t` is called, by the entry that registered it. */
  ghost predicate Calls(s: Store, p: nat, e: Entry, t: nat)
    requires Shaped(s) && p < |s.nodes| && EntryFits(s, p, e)
  {
    t in OrderOfOne(s, p, e)
  }

  /** What a later entry calls is called before what an earlier entry calls. */
  lemma {:induction false} YoungestFirst(s: Store, p: nat, todo: seq<Entry>, i: nat, j: nat, t: nat, u: nat)
    returns (k: nat, l: nat)
    requires Shaped(s) && p < |s.nodes| && AllFit(s, p, todo) && i < j < |todo|
    requires EntryFits(s, p, todo[i]) && Calls(s, p, todo[i], t) && EntryFits(s, p, todo[j]) && Calls(s, p, todo[j], u)
    ensures k < l < |OrderOf(s, p, todo)| && OrderOf(s, p, todo)[k] == u && OrderOf(s, p, todo)[l] == t
    decreases |todo|
  {
    var n := |todo| - 1;
    assert todo[n] in todo && EntryFits(s, p, todo[n]);
    FitsSame(s, p, todo, n);
    var front, first := todo[..n], OrderOfOne(s, p, todo[n]);
    if j == n {
      k :| 0 <= k < |first| && first[k] == u;
      var m := Called(s, p, front, i, t);
      l := |first| + m;
    } else {
      var k', l' := YoungestFirst(s, p, front, i, j, t, u);
      k, l := |first| + k', |first| + l';
    }
  }

  lemma {:induction false} Called(s: Store, p: nat, todo: seq<Entry>, i: nat, t: nat) returns (k: nat)
    requires Shaped(s) && p < |s.nodes| && AllFit(s, p, todo) && i < |todo|
    requires EntryFits(s, p, todo[i]) && Calls(s, p, todo[i], t)
    ensures k < |OrderOf(s, p, todo)| && OrderOf(s, p, todo)[k] == t
    decreases |todo|
  {
    var n := |todo| - 1;
    assert todo[n] in todo && EntryFits(s, p, todo[n]);
    FitsSame(s, p, todo, n);
    var first := OrderOfOne(s, p, todo[n]);
    if i == n {
      k :| 0 <= k < |first| && first[k] == t;
    } else {
      var m := Called(s, p, todo[..n], i, t);
      k := |first| + m;
    }
  }

  // ----- what the calls answered -----

  /** From entry `from` on, the log holds what each function answered when it was called. */
  ghost predicate Answers(oracle: Oracle, log: seq<Attempt>, from: nat) {
    forall k :: from <= k < |log| ==> log[k].ok == oracle(log[k].token, k)
  }

  ghost predicate AllOk(log: seq<Attempt>, from: nat) {
    forall k :: from <= k < |log| ==> log[k].ok
  }

  lemma AnswersTwice(oracle: Oracle, a: seq<Attempt>, b: seq<Attempt>, from: nat)
    requires from <= |a| && a <= b && Answers(oracle, a, from) && Answers(oracle, b, |a|)
    ensures Answers(oracle, b, from)
    ensures AllOk(b, from) <==> AllOk(a, from) && AllOk(b, |a|)
  {
    forall k | from <= k < |a| ensures b[k] == a[k] {}
  }

  lemma {:induction false} RunOneAnswers(s: Store, oracle: Oracle, p: nat, e: Entry)
    requires Shaped(s) && p < |s.nodes| && EntryFits(s, p, e)
    ensures var (mid, ok) := RunOne(s, oracle, p, e);
      Answers(oracle, mid.log, |s.log|) && (ok <==> AllOk(mid.log, |s.log|)) && (e.Sub? ==> mid.nodes[e.child].closed)
    decreases |s.nodes| - p, 0
  {
    match e
    case Func(t) =>
      var mid := RunOne(s, oracle, p, e).0;
      assert mid.log[|s.log|] == Attempt(t, oracle(t, |s.log|));
    case Sub(c) => CloseAnswers(s, oracle, c);
  }

  lemma {:induction false} RunAllAnswers(s: Store, oracle: Oracle, p: nat, todo: seq<Entry>)
    requires Shaped(s) && p < |s.nodes| && AllFit(s, p, todo)
    ensures var (end, failed) := RunAll(s, oracle, p, todo);
      && Answers(oracle, end.log, |s.log|) && (failed == [] <==> AllOk(end.log, |s.log|))
      && forall c: nat :: Sub(c) in todo ==> c < |s.nodes| && end.nodes[c].closed
    decreases |s.nodes| - p, 1 + |todo|
  {
    hide RunOne, CloseScope;
    if todo != [] {
      var k := |todo| - 1;
      var last, front := todo[k], todo[..k];
      assert last in todo && EntryFits(s, p, last);
      var mid := RunOne(s, oracle, p, last).0;
      FitsLater(s, mid, p, todo, k);
      RunOneAnswers(s, oracle, p, last);
      RunAllAnswers(mid, oracle, p, front);
      var end := RunAll(mid, oracle, p, front).0;
      AnswersTwice(oracle, mid.log, end.log, |s.log|);
      forall c: nat | Sub(c) in todo ensures c < |s.nodes| && end.nodes[c].closed {
        assert EntryFits(s, p, Sub(c)) && (Sub(c) == last || Sub(c) in front);
      }
    }
  }

  /** What `Close` logs is what the functions answered, it returns nil exactly when all of them
      succeeded, and afterwards the scope and the scopes it held are closed. */
  lemma {:induction false} CloseAnswers(s: Store, oracle: Oracle, id: nat)
    requires Shaped(s) && id < |s.nodes|
    ensures var (end, ok) := CloseScope(s, oracle, id);
      && Answers(oracle, end.log, |s.log|) && (ok <==> AllOk(end.log, |s.log|)) && end.nodes[id].closed
      && forall c: nat :: Sub(c) in s.nodes[id].cleanups ==> c < |s.nodes| && end.nodes[c].closed
    decreases |s.nodes| - id, 1 + |s.nodes[id].cleanups| + 1
  {
    if !Settled(s.nodes[id]) {
      RunAllAnswers(Taken(s, id), oracle, id, s.nodes[id].cleanups);
      forall c: nat | Sub(c) in s.nodes[id].cleanups ensures c > id {
        assert EntryFits(s, id, Sub(c));
      }
    }
  }

  // ----- what is left, and what has been done -----

  predicate Succeeded(log: seq<Attempt>, t: nat) { Attempt(t, true) in log }

  /** No function is called again after it has succeeded. */
  ghost predicate OnceOnly(log: seq<Attempt>) {
    forall i, j :: 0 <= i < j < |log| && log[i].ok ==> log[j].token != log[i].token
  }

  /** `a` is `b` with some entries left out. */
  ghost predicate Sublist(a: seq<Entry>, b: seq<Entry>) {
    if a == [] then true
    else if b == [] then false
    else if a[|a| - 1] == b[|b| - 1] then Sublist(a[..|a| - 1], b[..|b| - 1])
    else Sublist(a, b[..|b| - 1])
  }

  lemma {:induction false} SublistShorter(a: seq<Entry>, b: seq<Entry>)
    requires a != [] && Sublist(a, b)
    ensures Sublist(a[..|a| - 1], b)
    decreases |b|
  {
    var c := a[..|a| - 1];
    if a[|a| - 1] == b[|b| - 1] {
      if c != [] && c[|c| - 1] == b[|b| - 1] { SublistShorter(c, b[..|b| - 1]); }
    } else {
      SublistShorter(a, b[..|b| - 1]);
      if c != [] && c[|c| - 1] == b[|b| - 1] { SublistShorter(c, b[..|b| - 1]); }
    }
  }

  lemma SublistPush(a: seq<Entry>, b: seq<Entry>, e: Entry)
    requires Sublist(a, b)
    ensures Sublist(a + [e], b + [e]) && Sublist(a, b + [e])
  {
    assert (a + [e])[..|a|] == a && (b + [e])[..|b|] == b;
    if a != [] && a[|a| - 1] == e { SublistShorter(a, b); }
  }

  lemma {:induction false} SublistOfSublist(a: seq<Entry>, b: seq<Entry>, c: seq<Entry>)
    requires Sublist(a, b) && Sublist(b, c)
    ensures Sublist(a, c)
    decreases |c|
  {
    if a != [] {
      var d := c[..|c| - 1];
      if b[|b| - 1] == c[|c| - 1] {
        if a[|a| - 1] == b[|b| - 1] {
          SublistOfSublist(a[..|a| - 1], b[..|b| - 1], d);
        } else {
          SublistOfSublist(a, b[..|b| - 1], d);
        }
      } else {
        SublistOfSublist(a, b, d);
        if a[|a| - 1] == c[|c| - 1] { SublistShorter(a, d); }
      }
    }
  }

  lemma {:induction false} SublistMembers(a: seq<Entry>, b: seq<Entry>)
    requires Sublist(a, b)
    ensures forall e :: e in a ==> e in b
    ensures Distinct(b) ==> Distinct(a)
    decreases |b|
  {
    if a != [] {
      var k, d := |a| - 1, b[..|b| - 1];
      assert forall e :: e in d ==> e in b;
      if a[k] == b[|b| - 1] {
        SublistMembers(a[..k], d);
        assert a == a[..k] + [a[k]];
        if Distinct(b) {
          assert Distinct(d) && b[|b| - 1] !in d;
        }
      } else {
        SublistMembers(a, d);
        if Distinct(b) { assert Distinct(d); }
      }
    }
  }

  lemma {:induction false} SublistSelf(a: seq<Entry>)
    ensures Sublist(a, a)
  {
    if a != [] { SublistSelf(a[..|a| - 1]); }
  }

  /** A cleanup that is off the list of its scope has done its work. */
  ghost predicate Done(s: Store, e: Entry) {
    match e
    case Func(t) => Succeeded(s.log, t)
    case Sub(c) => c < |s.nodes| && Settled(s.nodes[c])
  }

  ghost predicate NodeOk(s: Store, n: nat)
    requires n < |s.nodes|
  {
    var x := s.nodes[n];
    && Distinct(x.accepted) && AllFit(s, n, x.accepted)
    && Sublist(x.cleanups, x.accepted)
    && (!x.closed ==> x.cleanups == x.accepted)
    && (forall t: nat :: Func(t) in x.cleanups ==> !Succeeded(s.log, t))
    && (x.named ==> forall e :: e in x.accepted && e !in x.cleanups ==> Done(s, e))
  }

  ghost predicate NodesFrom(s: Store, from: int) {
    forall n :: from <= n < |s.nodes| && 0 <= n ==> NodeOk(s, n)
  }

  lemma NodesAreNeat(s: Store, from: int)
    requires NodesFrom(s, from)
    ensures Neat(s, from)
  {
    forall n | from <= n < |s.nodes| && 0 <= n ensures Distinct(s.nodes[n].cleanups) {
      assert NodeOk(s, n);
      SublistMembers(s.nodes[n].cleanups, s.nodes[n].accepted);
    }
  }

  lemma DoneLater(s: Store, s': Store, id: int, e: Entry)
    requires Runs(s, s', id) && Done(s, e)
    ensures Done(s', e)
  {
  }

  /** A scope that is left alone, its functions not called, stays in order. */
  lemma NodeLater(s: Store, s': Store, id: int, n: nat)
    requires n < |s.nodes| && NodeOk(s, n) && Runs(s, s', id) && s'.nodes[n] == s.nodes[n]
    requires forall k :: |s.log| <= k < |s'.log| ==> s'.log[k].token < |s.owners| && s.owners[s'.log[k].token] != n
    ensures NodeOk(s', n)
  {
    var x := s.nodes[n];
    forall e | e in x.accepted ensures EntryFits(s', n, e) {
      assert EntryFits(s, n, e);
    }
    forall t: nat | Func(t) in x.cleanups ensures !Succeeded(s'.log, t) {
      SublistMembers(x.cleanups, x.accepted);
      assert EntryFits(s, n, Func(t));
      NotCalledNotSucceeded(s.log, s'.log, t);
    }
    if x.named {
      forall e | e in x.accepted && e !in x.cleanups ensures Done(s', e) {
        DoneLater(s, s', id, e);
      }
    }
  }

  ghost predicate NoneSucceeded(log: seq<Attempt>, todo: seq<Entry>) {
    forall t: nat :: Func(t) in todo ==> !Succeeded(log, t)
  }

  ghost predicate AllDone(s: Store, todo: seq<Entry>, failed: seq<Entry>) {
    forall e :: e in todo && e !in failed ==> Done(s, e)
  }

  /** Running one entry of `p` leaves the younger scopes in order. */
  lemma {:induction false} RunOneKeeps(s: Store, oracle: Oracle, p: nat, e: Entry)
    requires Shaped(s) && p < |s.nodes| && EntryFits(s, p, e) && NodesFrom(s, p + 1) && OnceOnly(s.log)
    requires NoneSucceeded(s.log, [e])
    ensures var (mid, ok) := RunOne(s, oracle, p, e);
      && NodesFrom(mid, p + 1) && OnceOnly(mid.log)
      && (if ok then Done(mid, e) else NoneSucceeded(mid.log, [e]))
    decreases |s.nodes| - p, 0
  {
    var (mid, ok) := RunOne(s, oracle, p, e);
    match e
    case Func(t) =>
      assert Func(t) in [e];
      forall n | p + 1 <= n < |s.nodes| ensures NodeOk(mid, n) {
        NodeLater(s, mid, p, n);
      }
    case Sub(c) =>
      CloseKeeps(s, oracle, c);
      CloseConfined(s, oracle, c);
      forall n | p + 1 <= n < c ensures NodeOk(mid, n) {
        ElsewhereNotCalled(s, mid, c, n);
        NodeLater(s, mid, c - 1, n);
      }
  }

  /** Closing `c` calls no function of an older scope. */
  lemma ElsewhereNotCalled(s: Store, s': Store, c: nat, n: nat)
    requires Shaped(s) && c < |s.nodes| && n < c && Confined(s, s', c - 1, [Sub(c)])
    ensures forall k :: |s.log| <= k < |s'.log| ==> s'.log[k].token < |s.owners| && s.owners[s'.log[k].token] != n
  {
    forall k | |s.log| <= k < |s'.log|
      ensures s'.log[k].token < |s.owners| && s.owners[s'.log[k].token] != n
    {
      var t := s'.log[k].token;
      assert CalledFor(s, [Sub(c)], t);
      var e :| e in [Sub(c)] && Concerns(s, e, s.owners[t]);
      UnderIsYounger(s, s.owners[t], c);
    }
  }

  /** Running an entry calls no other function of the same scope. */
  lemma OthersUntouched(s: Store, oracle: Oracle, p: nat, e: Entry, others: seq<Entry>)
    requires Shaped(s) && p < |s.nodes| && EntryFits(s, p, e) && AllFit(s, p, others) && e !in others
    requires NoneSucceeded(s.log, others)
    ensures NoneSucceeded(RunOne(s, oracle, p, e).0.log, others)
  {
    var mid := RunOne(s, oracle, p, e).0;
    RunOneConfined(s, oracle, p, e);
    assert AllFit(s, p, [e]);
    forall t: nat | Func(t) in others ensures !Succeeded(mid.log, t) {
      assert EntryFits(s, p, Func(t));
      SiblingsDoNotCall(s, mid, p, [e], t);
      NotCalledNotSucceeded(s.log, mid.log, t);
    }
  }

  lemma NotCalledNotSucceeded(log: seq<Attempt>, later: seq<Attempt>, t: nat)
    requires log <= later && !Succeeded(log, t)
    requires forall k :: |log| <= k < |later| ==> later[k].token != t
    ensures !Succeeded(later, t)
  {
    forall k | 0 <= k < |later| ensures later[k] != Attempt(t, true) {
      if k < |log| { assert later[k] == log[k] && log[k] in log; }
    }
  }

  lemma FailedStaysFailed(s: Store, oracle: Oracle, p: nat, todo: seq<Entry>, e: Entry)
    requires Shaped(s) && p < |s.nodes| && AllFit(s, p, todo) && EntryFits(s, p, e) && e !in todo
    requires NoneSucceeded(s.log, [e])
    ensures NoneSucceeded(RunAll(s, oracle, p, todo).0.log, [e])
  {
    if e.Func? {
      var end := RunAll(s, oracle, p, todo).0;
      RunAllConfined(s, oracle, p, todo);
      SiblingsDoNotCall(s, end, p, todo, e.token);
      assert e in [e];
      NotCalledNotSucceeded(s.log, end.log, e.token);
    }
  }

  lemma {:induction false} RunAllKeeps(s: Store, oracle: Oracle, p: nat, todo: seq<Entry>)
    requires Shaped(s) && p < |s.nodes| && AllFit(s, p, todo) && NodesFrom(s, p + 1) && OnceOnly(s.log)
    requires Distinct(todo) && NoneSucceeded(s.log, todo)
    ensures var (end, failed) := RunAll(s, oracle, p, todo);
      && NodesFrom(end, p + 1) && OnceOnly(end.log)
      && Sublist(failed, todo) && NoneSucceeded(end.log, failed) && AllDone(end, todo, failed)
    decreases |s.nodes| - p, 1 + |todo|
  {
    hide RunOne, CloseScope, Confined, NodesFrom, OnceOnly, NoneSucceeded, AllDone, Done, Sublist;
    SublistSelf([]);
    if todo == [] {
      NoneLeft(s);
    } else {
      var k := |todo| - 1;
      var last, front := todo[k], todo[..k];
      DistinctFront(todo, k);
      assert last in todo && todo == front + [last];
      assert EntryFits(s, p, last);
      FitsSame(s, p, todo, k);
      var (mid, ok) := RunOne(s, oracle, p, last);
      AllToFront(s, todo, front, last);
      RunOneKeeps(s, oracle, p, last);
      FitsLater(s, mid, p, todo, k);
      FitsLater(s, mid, p, todo, k + 1);
      assert todo[..k + 1] == todo;
      OthersUntouched(s, oracle, p, last, front);
      RunAllKeeps(mid, oracle, p, front);
      var (end, failed) := RunAll(mid, oracle, p, front);
      SublistPush(failed, front, last);
      assert failed + [] == failed;
      if ok {
        DoneLater(mid, end, p, last);
      } else {
        SingleFits(mid, p, last);
        FailedStaysFailed(mid, oracle, p, front, last);
      }
      Combine(end, front, failed, last, ok);
    }
  }

  lemma AllToFront(s: Store, todo: seq<Entry>, front: seq<Entry>, last: Entry)
    requires todo == front + [last] && NoneSucceeded(s.log, todo)
    ensures NoneSucceeded(s.log, front) && NoneSucceeded(s.log, [last])
  {
    assert forall e :: e in front || e in [last] ==> e in todo;
  }

  lemma NoneLeft(s: Store)
    ensures NoneSucceeded(s.log, []) && AllDone(s, [], [])
  {
  }

  lemma SingleFits(s: Store, p: nat, e: Entry)
    requires AllFit(s, p, [e]) || EntryFits(s, p, e)
    ensures EntryFits(s, p, e)
  {
    assert e in [e];
  }

  lemma Combine(s: Store, front: seq<Entry>, failed: seq<Entry>, last: Entry, ok: bool)
    requires NoneSucceeded(s.log, failed) && AllDone(s, front, failed)
    requires if ok then Done(s, last) else NoneSucceeded(s.log, [last])
    ensures var left := failed + (if ok then [] else [last]);
      NoneSucceeded(s.log, left) && AllDone(s, front + [last], left)
  {
    assert last in [last];
  }

  /** `Close` keeps every scope from `id` on in order, and settles `id` when it returns nil. */
  lemma {:induction false} CloseKeeps(s: Store, oracle: Oracle, id: nat)
    requires Shaped(s) && id < |s.nodes| && NodesFrom(s, id) && OnceOnly(s.log)
    ensures var (end, ok) := CloseScope(s, oracle, id);
      && NodesFrom(end, id) && OnceOnly(end.log)
      && Sublist(end.nodes[id].cleanups, s.nodes[id].cleanups)
      && (ok ==> Settled(end.nodes[id]))
      && (!ok && s.nodes[id].named ==> end.nodes[id].cleanups != [])
    decreases |s.nodes| - id, 1 + |s.nodes[id].cleanups| + 1
  {
    hide RunAll;
    var x := s.nodes[id];
    assert NodeOk(s, id);
    SublistMembers(x.cleanups, x.accepted);
    SublistSelf(x.cleanups);
    if !Settled(x) {
      hide CloseScope;
      var taken := Taken(s, id);
      forall n | id + 1 <= n < |s.nodes| ensures NodeOk(taken, n) {
        NodeLater(s, taken, id - 1, n);
      }
      RunAllKeeps(taken, oracle, id, x.cleanups);
      CloseSettles(s, oracle, id);
    }
  }

  /** A named scope is left with exactly the functions that have not succeeded. */
  lemma FailedRemain(s: Store, oracle: Oracle, id: nat)
    requires Shaped(s) && id < |s.nodes| && NodesFrom(s, id) && OnceOnly(s.log) && s.nodes[id].named
    ensures var end := CloseScope(s, oracle, id).0;
      && (forall t: nat :: Func(t) in s.nodes[id].cleanups ==>
            (Func(t) in end.nodes[id].cleanups <==> !Succeeded(end.log, t)))
      && (forall c: nat :: Sub(c) in s.nodes[id].cleanups && Sub(c) !in end.nodes[id].cleanups ==>
            c < |end.nodes| && Settled(end.nodes[c]))
  {
    hide CloseScope, Sublist;
    CloseKeeps(s, oracle, id);
    CloseConfined(s, oracle, id);
    var x, y := s.nodes[id], CloseScope(s, oracle, id).0.nodes[id];
    assert NodeOk(s, id) && NodeOk(CloseScope(s, oracle, id).0, id);
    SublistMembers(x.cleanups, x.accepted);
    assert y.accepted == x.accepted && y.named;
  }

  /** The scope itself after its cleanups have run. */
  lemma CloseSettles(s: Store, oracle: Oracle, id: nat)
    requires Shaped(s) && id < |s.nodes| && NodeOk(s, id) && !Settled(s.nodes[id])
    requires var x := s.nodes[id];
      var (end, failed) := RunAll(Taken(s, id), oracle, id, x.cleanups);
      && NodesFrom(end, id + 1) && Sublist(failed, x.cleanups)
      && NoneSucceeded(end.log, failed) && AllDone(end, x.cleanups, failed)
    ensures var (end, ok) := CloseScope(s, oracle, id);
      && NodesFrom(end, id) && Sublist(end.nodes[id].cleanups, s.nodes[id].cleanups)
      && end.log == RunAll(Taken(s, id), oracle, id, s.nodes[id].cleanups).0.log
      && (ok ==> Settled(end.nodes[id]))
      && (!ok && s.nodes[id].named ==> end.nodes[id].cleanups != [])
  {
    hide RunAll, Shaped, NodeOk, NoneSucceeded, AllDone, Sublist;
    var x, final := s.nodes[id], CloseScope(s, oracle, id).0;
    var (end, failed) := RunAll(Taken(s, id), oracle, id, x.cleanups);
    assert [] + failed == failed;
    NothingIsSublist(x.cleanups);
    SelfSettles(s, end, final, id, failed);
    forall n | id + 1 <= n < |s.nodes| ensures NodeOk(final, n) {
      NodeAside(end, final, id, n);
    }
  }

  lemma NothingIsSublist(a: seq<Entry>)
    ensures Sublist([], a)
  {
  }

  /** The scope itself is in order once what failed is back on its list. */
  lemma SelfSettles(s: Store, end: Store, final: Store, id: nat, failed: seq<Entry>)
    requires id < |s.nodes| && NodeOk(s, id) && Runs(s, end, id - 1)
    requires var x := s.nodes[id];
      && |final.nodes| == |s.nodes| && final.log == end.log && final.owners == s.owners
      && (forall n :: 0 <= n < |s.nodes| && n != id ==> final.nodes[n] == end.nodes[n])
      && final.nodes[id] == x.(closed := true, cleanups := if x.named then failed else [])
      && Sublist(failed, x.cleanups) && NoneSucceeded(end.log, failed) && AllDone(end, x.cleanups, failed)
    ensures NodeOk(final, id)
  {
    hide Sublist, Distinct;
    var x := s.nodes[id];
    SublistOfSublist(failed, x.cleanups, x.accepted);
    NothingIsSublist(x.accepted);
    forall e | e in x.accepted ensures EntryFits(final, id, e) {
      assert EntryFits(s, id, e);
    }
    if x.named {
      forall e | e in x.accepted && e !in failed ensures Done(final, e) {
        assert EntryFits(s, id, e);
        if e !in x.cleanups { DoneLater(s, end, id - 1, e); }
        assert Done(end, e);
      }
    }
  }

  /** Scope `n` does not notice that the cleanups of an older scope are put back. */
  lemma NodeAside(s: Store, s': Store, id: nat, n: nat)
    requires id < n < |s.nodes| && NodeOk(s, n) && |s'.nodes| == |s.nodes| && s'.owners == s.owners && s'.log == s.log
    requires forall m :: 0 <= m < |s.nodes| && m != id ==> s'.nodes[m] == s.nodes[m]
    requires s'.nodes[id].parent == s.nodes[id].parent
    ensures NodeOk(s', n)
  {
    var x := s.nodes[n];
    forall e | e in x.accepted ensures EntryFits(s', n, e) && (Done(s, e) ==> Done(s', e)) {
      assert EntryFits(s, n, e);
    }
  }

  // ----- what nil means -----

  /** Everything ever accepted at `n` or below has succeeded. */
  ghost predicate SubtreeDone(s: Store, n: nat)
    requires n < |s.nodes|
    decreases |s.nodes| - n
  {
    forall e :: e in s.nodes[n].accepted ==>
      match e
      case Func(t) => Succeeded(s.log, t)
      case Sub(c) => n < c < |s.nodes| ==> SubtreeDone(s, c)
  }

  ghost predicate EntryDone(s: Store, e: Entry) {
    match e
    case Func(t) => Succeeded(s.log, t)
    case Sub(c) => c < |s.nodes| ==> SubtreeDone(s, c)
  }

  /** Everything accepted at `n` or below is done already or will still be run: no scope there has
      forgotten a cleanup that failed. */
  ghost predicate Kept(s: Store, n: nat)
    requires n < |s.nodes|
    decreases |s.nodes| - n
  {
    forall e :: e in s.nodes[n].accepted ==>
      EntryDone(s, e) || (e in s.nodes[n].cleanups && (e.Sub? && n < e.child < |s.nodes| ==> Kept(s, e.child)))
  }

  ghost predicate EntryKept(s: Store, e: Entry) { e.Sub? && e.child < |s.nodes| ==> Kept(s, e.child) }

  /** The scope `n` and all scopes below it have non-empty ids. */
  ghost predicate NamedBelow(s: Store, n: nat)
    requires n < |s.nodes|
    decreases |s.nodes| - n
  {
    && s.nodes[n].named
    && forall e :: e in s.nodes[n].accepted && e.Sub? && n < e.child < |s.nodes| ==> NamedBelow(s, e.child)
  }

  lemma SettledIsDoneOrNot(s: Store, n: nat)
    requires n < |s.nodes| && NodeOk(s, n) && s.nodes[n].cleanups == []
    ensures SubtreeDone(s, n) <==> Kept(s, n)
  {
    forall e | e in s.nodes[n].accepted ensures EntryFits(s, n, e) {}
  }

  lemma DoneIsKept(s: Store, n: nat)
    requires n < |s.nodes| && NodeOk(s, n) && SubtreeDone(s, n)
    ensures Kept(s, n)
  {
    forall e | e in s.nodes[n].accepted ensures EntryDone(s, e) {
      assert EntryFits(s, n, e);
    }
  }

  /** A scope that is left in peace is done later exactly if it was done before. */
  lemma {:induction false} DoneQuiet(s: Store, s': Store, c: nat)
    requires Shaped(s) && c < |s.nodes| && NodesFrom(s, c) && Quiet(s, s', c)
    ensures SubtreeDone(s', c) <==> SubtreeDone(s, c)
    decreases |s.nodes| - c
  {
    assert NodeOk(s, c) && Under(s, c, c);
    forall e | e in s.nodes[c].accepted ensures EntryDone(s', e) <==> EntryDone(s, e) {
      EntryQuiet(s, s', c, e);
    }
    forall e | e in s.nodes[c].accepted && e.Sub? ensures c < e.child < |s.nodes| {
      assert EntryFits(s, c, e);
    }
  }

  lemma {:induction false} EntryQuiet(s: Store, s': Store, c: nat, e: Entry)
    requires Shaped(s) && c < |s.nodes| && NodesFrom(s, c) && Quiet(s, s', c) && e in s.nodes[c].accepted
    ensures EntryDone(s', e) <==> EntryDone(s, e)
    ensures EntryFits(s, c, e) && (e.Sub? ==> Quiet(s, s', e.child))
    decreases |s.nodes| - c, 0
  {
    hide Kept;
    assert NodeOk(s, c) && Under(s, c, c) && EntryFits(s, c, e);
    match e
    case Func(t) =>
      if !Succeeded(s.log, t) { NotCalledNotSucceeded(s.log, s'.log, t); }
    case Sub(d) =>
      QuietBelow(s, s', c, d);
      ChildFrom(s, c - 1, d);
      DoneQuiet(s, s', d);
  }

  lemma {:induction false} KeptQuiet(s: Store, s': Store, c: nat)
    requires Shaped(s) && c < |s.nodes| && NodesFrom(s, c) && Quiet(s, s', c)
    ensures Kept(s', c) <==> Kept(s, c)
    decreases |s.nodes| - c
  {
    assert NodeOk(s, c) && Under(s, c, c);
    forall e | e in s.nodes[c].accepted
      ensures EntryDone(s', e) <==> EntryDone(s, e)
      ensures e.Sub? ==> c < e.child < |s.nodes| && (Kept(s', e.child) <==> Kept(s, e.child))
    {
      EntryQuiet(s, s', c, e);
      if e.Sub? {
        ChildFrom(s, c - 1, e.child);
        KeptQuiet(s, s', e.child);
      }
    }
  }

  /** Below an older scope nothing notices that its cleanups are put back. */
  lemma {:induction false} DoneAside(s: Store, s': Store, id: nat, n: nat)
    requires id < n < |s.nodes| && |s'.nodes| == |s.nodes| && s'.log == s.log
    requires forall m :: id < m < |s.nodes| ==> s'.nodes[m] == s.nodes[m]
    ensures SubtreeDone(s', n) <==> SubtreeDone(s, n)
    decreases |s.nodes| - n
  {
    forall e | e in s.nodes[n].accepted && e.Sub? && n < e.child < |s.nodes|
      ensures SubtreeDone(s', e.child) <==> SubtreeDone(s, e.child)
    {
      DoneAside(s, s', id, e.child);
    }
  }

  /** Running other entries of the same scope settles nothing about `e`. */
  lemma AsideOfOthers(s: Store, s': Store, p: nat, todo: seq<Entry>, e: Entry)
    requires Shaped(s) && p < |s.nodes| && AllFit(s, p, todo) && Confined(s, s', p, todo) && NodesFrom(s, p + 1)
    requires EntryFits(s, p, e) && e !in todo
    ensures EntryDone(s', e) <==> EntryDone(s, e)
    ensures EntryKept(s', e) <==> EntryKept(s, e)
  {
    hide Confined, Quiet, Kept, SubtreeDone;
    match e
    case Func(t) =>
      SiblingsDoNotCall(s, s', p, todo, t);
      RunsOf(s, s', p, todo);
      if !Succeeded(s.log, t) { NotCalledNotSucceeded(s.log, s'.log, t); }
    case Sub(c) =>
      RunsOf(s, s', p, todo);
      SiblingsAreQuiet(s, s', p, todo, c);
      ChildFrom(s, p, c);
      DoneQuiet(s, s', c);
      KeptQuiet(s, s', c);
  }

  lemma RunsOf(s: Store, s': Store, p: int, todo: seq<Entry>)
    requires Shaped(s) && Confined(s, s', p, todo)
    ensures |s'.nodes| == |s.nodes| && s.log <= s'.log
  {
  }

  lemma {:induction false} RunOneExact(s: Store, oracle: Oracle, p: nat, e: Entry)
    requires Shaped(s) && p < |s.nodes| && EntryFits(s, p, e) && NodesFrom(s, p + 1) && OnceOnly(s.log)
    requires NoneSucceeded(s.log, [e])
    ensures EntryDone(RunOne(s, oracle, p, e).0, e) <==> RunOne(s, oracle, p, e).1 && EntryKept(s, e)
    decreases |s.nodes| - p, 0
  {
    hide Kept, SubtreeDone, NodesFrom, OnceOnly;
    match e
    case Func(t) =>
      assert Func(t) in [e];
    case Sub(c) =>
      ChildFrom(s, p, c);
      CloseExact(s, oracle, c);
  }

  /** An entry that has been run is done exactly if it did not fail and nothing below it had been
      forgotten before. */
  lemma {:induction false} RunAllExact(s: Store, oracle: Oracle, p: nat, todo: seq<Entry>, e: Entry)
    requires Shaped(s) && p < |s.nodes| && AllFit(s, p, todo) && NodesFrom(s, p + 1) && OnceOnly(s.log)
    requires Distinct(todo) && NoneSucceeded(s.log, todo) && e in todo
    ensures EntryDone(RunAll(s, oracle, p, todo).0, e) <==> e !in RunAll(s, oracle, p, todo).1 && EntryKept(s, e)
    decreases |s.nodes| - p, 1 + |todo|, 0
  {
    hide NodesFrom, OnceOnly, Quiet, CloseScope, SubtreeDone, Confined, Kept, EntryDone, EntryKept, RunOne;
    var k := |todo| - 1;
    var last, front := todo[k], todo[..k];
    DistinctFront(todo, k);
    assert last in todo && todo == front + [last] && EntryFits(s, p, last);
    FitsSame(s, p, todo, k);
    var (mid, ok) := RunOne(s, oracle, p, last);
    AllToFront(s, todo, front, last);
    RunOneKeeps(s, oracle, p, last);
    FitsLater(s, mid, p, todo, k);
    OthersUntouched(s, oracle, p, last, front);
    if e == last {
      RunOneExact(s, oracle, p, last);
      RunAllConfined(mid, oracle, p, front);
      AsideOfOthers(mid, RunAll(mid, oracle, p, front).0, p, front, last);
    } else {
      RunAllExact(mid, oracle, p, front, e);
      RunOneConfined(s, oracle, p, last);
      assert AllFit(s, p, [last]);
      AsideOfOthers(s, mid, p, [last], e);
    }
  }

  lemma ChildFrom(s: Store, p: int, c: nat)
    requires p < c && NodesFrom(s, p + 1)
    ensures NodesFrom(s, c)
  {
  }

  /** What taking the cleanups out leaves alone. */
  lemma TakenAside(s: Store, id: nat, e: Entry)
    requires Shaped(s) && id < |s.nodes| && NodesFrom(s, id) && EntryFits(s, id, e)
    ensures EntryDone(Taken(s, id), e) <==> EntryDone(s, e)
    ensures EntryKept(Taken(s, id), e) <==> EntryKept(s, e)
  {
    hide Kept, SubtreeDone;
    if e.Sub? {
      var taken, c := Taken(s, id), e.child;
      if Under(s, id, c) { UnderIsYounger(s, id, c); }
      ChildFrom(s, id - 1, c);
      DoneQuiet(s, taken, c);
      KeptQuiet(s, taken, c);
    }
  }

  /** One accepted entry of the scope that is closed. */
  lemma {:induction false} CloseExactFor(s: Store, oracle: Oracle, id: nat, e: Entry)
    requires Shaped(s) && id < |s.nodes| && NodesFrom(s, id) && OnceOnly(s.log) && !Settled(s.nodes[id])
    requires e in s.nodes[id].accepted
    ensures var x := s.nodes[id];
      var (end, failed) := RunAll(Taken(s, id), oracle, id, x.cleanups);
      EntryDone(end, e) <==> if e in x.cleanups then e !in failed && EntryKept(s, e) else EntryDone(s, e)
    decreases |s.nodes| - id, 1 + |s.nodes[id].cleanups|, 1
  {
    hide RunAll, Kept, SubtreeDone, EntryDone, EntryKept, Confined;
    var x, taken := s.nodes[id], Taken(s, id);
    assert NodeOk(s, id) && EntryFits(s, id, e);
    SublistMembers(x.cleanups, x.accepted);
    forall n | id + 1 <= n < |s.nodes| ensures NodeOk(taken, n) {
      NodeLater(s, taken, id - 1, n);
    }
    hide NodeOk;
    TakenAside(s, id, e);
    if e in x.cleanups {
      RunAllExact(taken, oracle, id, x.cleanups, e);
    } else {
      RunAllConfined(taken, oracle, id, x.cleanups);
      AsideOfOthers(taken, RunAll(taken, oracle, id, x.cleanups).0, id, x.cleanups, e);
    }
  }

  lemma {:induction false} CloseExact(s: Store, oracle: Oracle, id: nat)
    requires Shaped(s) && id < |s.nodes| && NodesFrom(s, id) && OnceOnly(s.log)
    ensures var (end, ok) := CloseScope(s, oracle, id);
      SubtreeDone(end, id) <==> ok && Kept(s, id)
    decreases |s.nodes| - id, 1 + |s.nodes[id].cleanups| + 1
  {
    hide RunAll;
    var x, final := s.nodes[id], CloseScope(s, oracle, id).0;
    assert NodeOk(s, id);
    if Settled(x) {
      SettledIsDoneOrNot(s, id);
    } else {
      var (end, failed) := RunAll(Taken(s, id), oracle, id, x.cleanups);
      SublistMembers(x.cleanups, x.accepted);
      forall e | e in x.accepted
        ensures EntryFits(s, id, e)
        ensures EntryDone(final, e) <==> if e in x.cleanups then e !in failed && EntryKept(s, e) else EntryDone(s, e)
        ensures EntryDone(s, e) ==> EntryKept(s, e)
      {
        CloseExactFor(s, oracle, id, e);
        assert EntryFits(s, id, e);
        if e.Sub? {
          DoneAside(end, final, id, e.child);
          assert NodeOk(s, e.child);
          if EntryDone(s, e) { DoneIsKept(s, e.child); }
        }
      }
      ExactlyAll(s, final, id, failed);
    }
  }

  /** From the entries to the scope. */
  lemma ExactlyAll(s: Store, final: Store, id: nat, failed: seq<Entry>)
    requires id < |s.nodes| && |final.nodes| == |s.nodes| && final.nodes[id].accepted == s.nodes[id].accepted
    requires forall e :: e in s.nodes[id].cleanups ==> e in s.nodes[id].accepted
    requires forall e :: e in failed ==> e in s.nodes[id].cleanups
    requires forall e :: e in s.nodes[id].accepted ==>
      && EntryFits(s, id, e) && (EntryDone(s, e) ==> EntryKept(s, e))
      && (EntryDone(final, e) <==>
            if e in s.nodes[id].cleanups then e !in failed && EntryKept(s, e) else EntryDone(s, e))
    ensures SubtreeDone(final, id) <==> failed == [] && Kept(s, id)
  {
    var x := s.nodes[id];
    assert SubtreeDone(final, id) <==> forall e :: e in x.accepted ==> EntryDone(final, e);
    assert Kept(s, id) <==> forall e :: e in x.accepted ==> EntryDone(s, e) || (e in x.cleanups && EntryKept(s, e));
    if failed != [] {
      assert failed[0] in failed && !EntryDone(final, failed[0]);
    }
  }

  /** What nil means, for every tree: everything accepted at the scope or below it has succeeded
      exactly when `Close` returns nil and nothing there had been forgotten before. */
  lemma NilMeansDone(s: Store, oracle: Oracle, id: nat)
    requires Sound(s) && id < |s.nodes|
    ensures var (end, ok) := CloseScope(s, oracle, id);
      && (SubtreeDone(end, id) <==> ok && Kept(s, id))
      && ((ok <==> SubtreeDone(end, id)) <==> (!ok || Kept(s, id)))
      && (NamedBelow(s, id) ==> (ok <==> SubtreeDone(end, id)))
  {
    hide CloseScope, Kept, SubtreeDone, NamedBelow;
    ChildFrom(s, -1, id);
    CloseExact(s, oracle, id);
    if NamedBelow(s, id) { NamedForgetNothing(s, id); }
  }

  /** Scopes with ids forget nothing. */
  lemma {:induction false} NamedForgetNothing(s: Store, n: nat)
    requires n < |s.nodes| && NodesFrom(s, n) && NamedBelow(s, n)
    ensures Kept(s, n)
    ensures Settled(s.nodes[n]) ==> SubtreeDone(s, n)
    decreases |s.nodes| - n
  {
    assert NodeOk(s, n);
    forall e | e in s.nodes[n].accepted
      ensures EntryFits(s, n, e) && EntryKept(s, e) && (Done(s, e) ==> EntryDone(s, e))
    {
      assert EntryFits(s, n, e);
      if e.Sub? { NamedForgetNothing(s, e.child); }
    }
  }

  /** A scope with an empty id forgets what failed: whenever its `Close` returns an error, the
      next `Close` returns nil although something accepted has not succeeded. */
  lemma UnnamedForgets(s: Store, oracle: Oracle, id: nat)
    requires Sound(s) && id < |s.nodes| && !s.nodes[id].named
    requires !CloseScope(s, oracle, id).1
    ensures var end := CloseScope(s, oracle, id).0;
      CloseScope(end, oracle, id) == (end, true) && !SubtreeDone(end, id) && !Kept(end, id)
  {
    CloseSound(s, oracle, id);
    var end := CloseScope(s, oracle, id).0;
    NilMeansDone(s, oracle, id);
    NilMeansDone(end, oracle, id);
  }

  lemma RunSingle(s: Store, oracle: Oracle, p: nat, e: Entry)
    requires Shaped(s) && p < |s.nodes| && AllFit(s, p, [e])
    ensures EntryFits(s, p, e)
    ensures var (mid, ok) := RunOne(s, oracle, p, e);
      RunAll(s, oracle, p, [e]) == (mid, if ok then [] else [e])
  {
    hide RunOne;
    assert e in [e];
    var todo := [e];
    RunAllStep(s, oracle, p, todo, []);
    assert todo[..|todo| - 1] == [];
    NothingToRun(RunOne(s, oracle, p, e).0, oracle, p, [], if RunOne(s, oracle, p, e).1 then [] else [e]);
    assert [e] + [] == [e];
    assert RunAll(s, oracle, p, todo).1 + [] == RunAll(s, oracle, p, todo).1;
  }

  /** The two attempts on a named root over an unnamed child with one function. */
  lemma SecondCloseIsNil(s: Store, oracle: Oracle)
    requires Sound(s) && !oracle(0, 0) && s.log == [] && |s.nodes| == 2
    requires s.nodes[0] == Node(true, NO_PARENT, false, [Sub(1)], [Sub(1)])
    requires s.nodes[1] == Node(false, 0, false, [Func(0)], [Func(0)])
    ensures NilIsWrong(s, oracle, 0)
  {
    hide NodesFrom, RunAll;
    // the child forgets its function
    var t := Taken(s, 0);
    RunSingle(t, oracle, 0, Sub(1));
    RunSingle(Taken(t, 1), oracle, 1, Func(0));
    var child := CloseScope(t, oracle, 1);
    assert child.0.log == [Attempt(0, false)] && !child.1 && Settled(child.0.nodes[1]);
    // the root keeps the child's Close, which then returns nil
    var first := CloseScope(s, oracle, 0);
    assert [] + [Sub(1)] == [Sub(1)];
    assert !first.1 && first.0.nodes[0].cleanups == [Sub(1)] && first.0.nodes[1] == child.0.nodes[1];
    RunSingle(Taken(first.0, 0), oracle, 0, Sub(1));
    var second := CloseScope(first.0, oracle, 0);
    assert second.1 && second.0.log == [Attempt(0, false)];
    assert Sub(1) in second.0.nodes[0].accepted && Func(0) in second.0.nodes[1].accepted;
    assert !Succeeded(second.0.log, 0) && !SubtreeDone(second.0, 1);
  }

  /** An id of its own does not help a scope: with an unnamed child whose one function fails, it
      returns nil the second time. */
  lemma NamedRootForgets(oracle: Oracle)
    requires !oracle(0, 0)
    ensures exists s, id: nat :: Sound(s) && id < |s.nodes| && s.nodes[id].named && NilIsWrong(s, oracle, id)
  {
    var empty := Store([], [], []);
    var root := Opened(empty, Node(true, NO_PARENT, false, [], []));
    OpenedSound(empty, Node(true, NO_PARENT, false, [], []));
    var two := Opened(root, Node(false, 0, false, [], []));
    OpenedSound(root, Node(false, 0, false, [], []));
    var tree := Registered(two, 0, Sub(1));
    RegisteredSound(two, 0, Sub(1));
    OwnersGrow(tree, 1);
    assert tree.owners + [1] == [1];
    var s := Registered(tree.(owners := [1]), 1, Func(0));
    RegisteredSound(tree.(owners := [1]), 1, Func(0));
    SecondCloseIsNil(s, oracle);
    assert NilIsWrong(s, oracle, 0);
  }

  /** The first `Close` fails, the second returns nil, and not everything has succeeded. */
  ghost predicate NilIsWrong(s: Store, oracle: Oracle, id: nat)
    requires Shaped(s) && id < |s.nodes|
  {
    var (first, ok) := CloseScope(s, oracle, id);
    var (second, ok') := CloseScope(first, oracle, id);
    !ok && ok' && !SubtreeDone(second, id)
  }

  // ----- the tree as the program keeps it -----

  ghost predicate TokensKnown(s: Store) {
    forall k :: 0 <= k < |s.log| ==> s.log[k].token < |s.owners|
  }

  /** What holds between any two operations. */
  ghost predicate Sound(s: Store) {
    Shaped(s) && NodesFrom(s, 0) && OnceOnly(s.log) && TokensKnown(s)
  }

  /** Closing a scope leaves every scope in order, older ones included. */
  lemma CloseSound(s: Store, oracle: Oracle, id: nat)
    requires Sound(s) && id < |s.nodes|
    ensures Sound(CloseScope(s, oracle, id).0)
  {
    hide CloseScope;
    var end := CloseScope(s, oracle, id).0;
    ChildFrom(s, -1, id);
    CloseKeeps(s, oracle, id);
    CloseConfined(s, oracle, id);
    forall n | 0 <= n < |s.nodes| ensures NodeOk(end, n) {
      if n < id {
        ElsewhereNotCalled(s, end, id, n);
        NodeLater(s, end, id - 1, n);
      }
    }
    forall k | 0 <= k < |end.log| ensures end.log[k].token < |s.owners| {
      if k >= |s.log| {
        assert CalledFor(s, [Sub(id)], end.log[k].token);
      }
    }
  }

  function Opened(s: Store, n: Node): Store { s.(nodes := s.nodes + [n]) }

  function Registered(s: Store, p: nat, e: Entry): Store
    requires p < |s.nodes|
  {
    var n := s.nodes[p];
    s.(nodes := s.nodes[p := n.(cleanups := n.cleanups + [e], accepted := n.accepted + [e])])
  }

  /** A scope stays in order when functions and scopes are added elsewhere. */
  lemma NodeGrows(s: Store, s': Store, n: nat)
    requires n < |s.nodes| <= |s'.nodes| && NodeOk(s, n) && s'.nodes[n] == s.nodes[n]
    requires s.owners <= s'.owners && s'.log == s.log
    requires forall m :: 0 <= m < |s.nodes| ==> s'.nodes[m].parent == s.nodes[m].parent
    requires forall m :: 0 <= m < |s.nodes| && Settled(s.nodes[m]) ==> Settled(s'.nodes[m])
    ensures NodeOk(s', n)
  {
    var x := s.nodes[n];
    forall e | e in x.accepted ensures EntryFits(s', n, e) && (Done(s, e) ==> Done(s', e)) {
      assert EntryFits(s, n, e);
    }
  }

  lemma OpenedSound(s: Store, n: Node)
    requires Sound(s) && NO_PARENT <= n.parent < |s.nodes| && !n.closed && n.cleanups == n.accepted == []
    ensures Sound(Opened(s, n))
  {
    var s' := Opened(s, n);
    forall p, e | 0 <= p < |s'.nodes| && e in s'.nodes[p].cleanups ensures EntryFits(s', p, e) {
      assert EntryFits(s, p, e);
    }
    forall m | 0 <= m < |s'.nodes| ensures NodeOk(s', m) {
      if m < |s.nodes| { NodeGrows(s, s', m); }
    }
  }

  /** Registering a cleanup that nobody knows yet on an open scope. */
  lemma RegisteredSound(s: Store, p: nat, e: Entry)
    requires Sound(s) && p < |s.nodes| && !s.nodes[p].closed && EntryFits(s, p, e)
    requires e !in s.nodes[p].accepted && (e.Func? ==> !Succeeded(s.log, e.token))
    ensures Sound(Registered(s, p, e))
  {
    hide NodeOk;
    var s' := Registered(s, p, e);
    RegisteredNode(s, p, e);
    forall q, f | 0 <= q < |s'.nodes| && f in s'.nodes[q].cleanups ensures EntryFits(s', q, f) {
      if q != p || f != e { assert EntryFits(s, q, f); }
    }
    forall n | 0 <= n < |s'.nodes| ensures NodeOk(s', n) {
      if n != p { NodeGrows(s, s', n); }
    }
  }

  lemma RegisteredNode(s: Store, p: nat, e: Entry)
    requires Sound(s) && p < |s.nodes| && !s.nodes[p].closed && EntryFits(s, p, e)
    requires e !in s.nodes[p].accepted && (e.Func? ==> !Succeeded(s.log, e.token))
    ensures NodeOk(Registered(s, p, e), p)
  {
    hide Shaped, OnceOnly, TokensKnown, Sublist;
    var s', x := Registered(s, p, e), s.nodes[p];
    assert NodeOk(s, p) && x.cleanups == x.accepted;
    SublistSelf(x.cleanups + [e]);
    forall f | f in x.accepted + [e] ensures EntryFits(s', p, f) {
      if f != e { assert EntryFits(s, p, f); }
    }
  }

  lemma ReversedPush(s: seq<Entry>, e: Entry)
    ensures Reversed(s + [e]) == [e] + Reversed(s)
  {
  }

  ghost function AndThen(r: (Store, seq<Entry>), more: seq<Entry>): (Store, seq<Entry>) { (r.0, r.1 + more) }

  lemma RunAllStep(s: Store, oracle: Oracle, p: nat, todo: seq<Entry>, later: seq<Entry>)
    requires Shaped(s) && p < |s.nodes| && AllFit(s, p, todo) && todo != []
    ensures var k := |todo| - 1;
      && EntryFits(s, p, todo[k])
      && var (mid, ok) := RunOne(s, oracle, p, todo[k]);
      && AllFit(mid, p, todo[..k])
      && AndThen(RunAll(s, oracle, p, todo), later)
      == AndThen(RunAll(mid, oracle, p, todo[..k]), if ok then later else [todo[k]] + later)
  {
    hide RunOne;
    var k := |todo| - 1;
    assert todo[k] in todo;
    var (mid, ok) := RunOne(s, oracle, p, todo[k]);
    FitsLater(s, mid, p, todo, k);
    var failed := RunAll(mid, oracle, p, todo[..k]).1;
    assert failed + [] + later == failed + later;
    assert failed + [todo[k]] + later == failed + ([todo[k]] + later);
  }

  lemma NothingToRun(s: Store, oracle: Oracle, p: nat, todo: seq<Entry>, later: seq<Entry>)
    requires Shaped(s) && p < |s.nodes| && todo == []
    ensures AndThen(RunAll(s, oracle, p, todo), later) == (s, later)
  {
    assert [] + later == later;
  }

  /** The scopes of one program, updated in place. */
  class ScopeTree {
    var nodes: seq<Node>
    var owners: seq<nat>
    var log: seq<Attempt>
    const oracle: Oracle

    function State(): Store
      reads this
    {
      Store(nodes, owners, log)
    }

    ghost predicate Valid()
      reads this
    {
      Sound(State())
    }

    constructor (oracle: Oracle)
      ensures Valid() && State() == Store([], [], []) && this.oracle == oracle
    {
      nodes, owners, log := [], [], [];
      this.oracle := oracle;
    }

    method NewScope(named: bool) returns (id: nat)
      requires Valid()
      modifies this
      ensures Valid() && id == |old(nodes)|
      ensures State() == Opened(old(State()), Node(named, NO_PARENT, false, [], []))
      ensures nodes == old(nodes) + [Node(named, -1, false, [], [])] && owners == old(owners) && log == old(log)
    {
      id := |nodes|;
      OpenedSound(State(), Node(named, NO_PARENT, false, [], []));
      nodes := nodes + [Node(named, NO_PARENT, false, [], [])];
    }

    /** A child of a closed scope is made but belongs to nobody. */
    method Child(p: nat, named: bool) returns (id: nat)
      requires Valid() && p < |nodes|
      modifies this
      ensures Valid() && id == |old(nodes)|
      ensures old(nodes[p].closed) ==> State() == Opened(old(State()), Node(named, NO_PARENT, false, [], []))
      ensures !old(nodes[p].closed) ==>
        State() == Registered(Opened(old(State()), Node(named, p, false, [], [])), p, Sub(id))
      ensures nodes[p].cleanups == old(nodes[p].cleanups) + if old(nodes[p].closed) then [] else [Sub(id)]
      ensures nodes[id] == Node(named, if old(nodes[p].closed) then -1 else p, false, [], [])
      ensures forall n :: 0 <= n < id && n != p ==> nodes[n] == old(nodes[n])
    {
      id := |nodes|;
      ghost var s := State();
      if nodes[p].closed {
        OpenedSound(s, Node(named, NO_PARENT, false, [], []));
        nodes := nodes + [Node(named, NO_PARENT, false, [], [])];
      } else {
        OpenedSound(s, Node(named, p, false, [], []));
        nodes := nodes + [Node(named, p, false, [], [])];
        NotThereYet(s, p, Sub(id));
        RegisteredSound(State(), p, Sub(id));
        nodes := nodes[p := nodes[p].(cleanups := nodes[p].cleanups + [Sub(id)],
                                      accepted := nodes[p].accepted + [Sub(id)])];
      }
    }

    method Defer(p: nat)
      requires Valid() && p < |nodes|
      modifies this
      ensures Valid()
      ensures old(nodes[p].closed) ==> State() == old(State())
      ensures !old(nodes[p].closed) ==>
        State() == Registered(old(State()).(owners := old(owners) + [p]), p, Func(|old(owners)|))
      ensures nodes[p].cleanups == old(nodes[p].cleanups) + if old(nodes[p].closed) then [] else [Func(|old(owners)|)]
      ensures forall n :: 0 <= n < |nodes| && n != p ==> nodes[n] == old(nodes[n])
    {
      if nodes[p].closed { return; }
      var e := Func(|owners|);
      ghost var s := State();
      NotThereYet(s, p, e);
      owners := owners + [p];
      OwnersGrow(s, p);
      RegisteredSound(State(), p, e);
      nodes := nodes[p := nodes[p].(cleanups := nodes[p].cleanups + [e], accepted := nodes[p].accepted + [e])];
    }

    /** One call of Close: every function left under the scope is called once, youngest
        registration first; what remains is a sublist of what was registered; and nil means that
        everything accepted below has succeeded, unless something had been forgotten before. */
    method Close(id: nat) returns (ok: bool)
      requires Valid() && id < |nodes|
      modifies this
      ensures Valid() && (State(), ok) == CloseScope(old(State()), oracle, id)
      ensures Tokens(log) == Tokens(old(log)) + RunOrder(old(State()), id)
      ensures Sublist(nodes[id].cleanups, old(nodes[id].cleanups))
      ensures SubtreeDone(State(), id) <==> ok && Kept(old(State()), id)
      ensures NamedBelow(old(State()), id) ==> (ok <==> SubtreeDone(State(), id))
      ensures Answers(oracle, log, |old(log)|) && (ok <==> AllOk(log, |old(log)|)) && nodes[id].closed
      ensures !nodes[id].named ==> nodes[id].cleanups == []
      ensures nodes[id].named ==> forall t: nat :: Func(t) in old(nodes[id].cleanups) ==>
                (Func(t) in nodes[id].cleanups <==> !Succeeded(log, t))
      ensures nodes[id].named ==> forall c: nat :: Sub(c) in old(nodes[id].cleanups) && Sub(c) !in nodes[id].cleanups ==>
                c < |nodes| && Settled(nodes[c])
    {
      ghost var s := State();
      CloseSound(s, oracle, id);
      ChildFrom(s, -1, id);
      NodesAreNeat(s, id);
      CloseOrder(s, oracle, id);
      CloseKeeps(s, oracle, id);
      NilMeansDone(s, oracle, id);
      CloseAnswers(s, oracle, id);
      if nodes[id].named {
        FailedRemain(s, oracle, id);
      }
      ok := RunCleanups(id);
    }

    method RunCleanups(id: nat) returns (ok: bool)
      requires Shaped(State()) && id < |nodes|
      modifies this
      ensures (State(), ok) == CloseScope(old(State()), oracle, id)
      decreases |nodes| - id, 2
    {
      hide RunAll, Shaped;
      if nodes[id].closed && nodes[id].cleanups == [] { return true; }
      ghost var before := State();
      var cleanups := nodes[id].cleanups;
      nodes := nodes[id := nodes[id].(closed := true, cleanups := [])];
      assert State() == Taken(before, id);
      var failed := RunBackwards(id, cleanups);
      if failed != [] && nodes[id].named {
        PutBack(id, failed);
        return false;
      }
      return failed == [];
    }

    /** Runs the cleanups from the last to the first; what failed comes back last first. */
    method RunBackwards(id: nat, cleanups: seq<Entry>) returns (failed: seq<Entry>)
      requires Shaped(State()) && id < |nodes| && AllFit(State(), id, cleanups)
      modifies this
      ensures |nodes| == |old(nodes)|
      ensures (State(), Reversed(failed)) == RunAll(old(State()), oracle, id, cleanups)
      decreases |nodes| - id, 1
    {
      hide RunAll, RunOne, Shaped;
      failed := [];
      var i := |cleanups|;
      assert cleanups[..i] == cleanups;
      assert RunAll(State(), oracle, id, cleanups).1 + [] == RunAll(State(), oracle, id, cleanups).1;
      while i > 0
        invariant 0 <= i <= |cleanups| && |nodes| == |old(nodes)|
        invariant Shaped(State()) && AllFit(State(), id, cleanups[..i])
        invariant RunAll(old(State()), oracle, id, cleanups)
               == AndThen(RunAll(State(), oracle, id, cleanups[..i]), Reversed(failed))
      {
        i := i - 1;
        ghost var s, later := State(), Reversed(failed);
        assert cleanups[..i + 1][..i] == cleanups[..i] && cleanups[..i + 1][i] == cleanups[i];
        RunAllStep(s, oracle, id, cleanups[..i + 1], later);
        var done := RunCleanup(id, cleanups[i]);
        if !done {
          ReversedPush(failed, cleanups[i]);
          failed := failed + [cleanups[i]];
        }
      }
      NothingToRun(State(), oracle, id, cleanups[..0], Reversed(failed));
    }

    /** The cleanups that failed return to the scope in the order of their registration. */
    method PutBack(id: nat, failed: seq<Entry>)
      requires id < |nodes|
      modifies this`nodes
      ensures nodes == old(nodes)[id := old(nodes)[id].(cleanups := old(nodes)[id].cleanups + Reversed(failed))]
    {
      ghost var kept := nodes[id].cleanups;
      var j := |failed|;
      assert kept + Reversed(failed[j..]) == kept;
      while j > 0
        invariant 0 <= j <= |failed| && |nodes| == |old(nodes)|
        invariant nodes == old(nodes)[id := old(nodes)[id].(cleanups := kept + Reversed(failed[j..]))]
      {
        j := j - 1;
        assert Reversed(failed[j..]) == Reversed(failed[j + 1..]) + [failed[j]];
        assert kept + Reversed(failed[j..]) == (kept + Reversed(failed[j + 1..])) + [failed[j]];
        nodes := nodes[id := nodes[id].(cleanups := nodes[id].cleanups + [failed[j]])];
      }
      assert failed[0..] == failed;
    }

    method RunCleanup(id: nat, e: Entry) returns (ok: bool)
      requires Shaped(State()) && id < |nodes| && EntryFits(State(), id, e)
      modifies this
      ensures (State(), ok) == RunOne(old(State()), oracle, id, e)
      decreases |nodes| - id, 0
    {
      match e
      case Func(t) =>
        ok := oracle(t, |log|);
        log := log + [Attempt(t, ok)];
      case Sub(c) =>
        ok := RunCleanups(c);
    }
  }

  /** A child just made or a function just named is not on any list. */
  lemma NotThereYet(s: Store, p: nat, e: Entry)
    requires Sound(s) && p < |s.nodes| && (e == Sub(|s.nodes|) || e == Func(|s.owners|))
    ensures e !in s.nodes[p].accepted && (e.Func? ==> !Succeeded(s.log, e.token))
  {
    assert NodeOk(s, p);
    forall f | f in s.nodes[p].accepted ensures f != e {
      assert EntryFits(s, p, f);
    }
  }

  lemma OwnersGrow(s: Store, p: nat)
    requires Sound(s)
    ensures Sound(s.(owners := s.owners + [p]))
  {
    var s' := s.(owners := s.owners + [p]);
    forall q, f | 0 <= q < |s'.nodes| && f in s'.nodes[q].cleanups ensures EntryFits(s', q, f) {
      assert EntryFits(s, q, f);
    }
    forall n | 0 <= n < |s'.nodes| ensures NodeOk(s', n) {
      NodeGrows(s, s', n);
    }
  }
}
