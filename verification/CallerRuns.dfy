/**
  The invariant of the whole router, and what it says about every run.
 */
module CallerRuns {
  import opened Wrappers
  import opened Caller
  import opened CallerInvariants

  // ----- sums over calls -----

  function Total(calls: seq<Call>): Counters {
    if calls == [] then ZERO else Total(calls[..|calls| - 1]).Plus(calls[|calls| - 1].tally)
  }

  lemma {:induction false} TotalUpdate(calls: seq<Call>, i: nat, c: Call, d: Counters)
    requires i < |calls| && c.tally == calls[i].tally.Plus(d)
    ensures Total(calls[i := c]) == Total(calls).Plus(d)
  {
    var n := |calls| - 1;
    if i == n {
      assert calls[i := c][..n] == calls[..n];
    } else {
      TotalUpdate(calls[..n], i, c, d);
      assert calls[i := c][..n] == calls[..n][i := c];
    }
  }

  lemma TotalAppend(calls: seq<Call>, c: Call)
    ensures Total(calls + [c]) == Total(calls).Plus(c.tally)
  {
    assert (calls + [c])[..|calls|] == calls;
  }

  // ----- the invariant -----

  function SeenBy(s: Router): Seen { Seen(s.inbox, s.failures, s.closed) }

  ghost predicate EachCall(s: Router) {
    forall i :: 0 <= i < |s.calls| ==> CallInv(SeenBy(s), i, s.calls[i])
  }

  ghost predicate AllFired(s: Router, ids: set<nat>) {
    forall i :: i in ids ==> i < |s.calls| && s.calls[i].once.Fired?
  }

  ghost predicate Registered(s: Router) {
    forall i :: i in s.pending ==> i < |s.calls| && !s.calls[i].pc.Deregistered? && !s.calls[i].pc.Gone?
  }

  ghost predicate CloserOk(s: Router) {
    && (s.closer.Ranging? ==> s.closed && AllFired(s, s.closer.visited))
    && (s.closer.Visiting? ==>
          s.closed && s.closer.id < |s.calls| && AllFired(s, s.closer.visited - {s.closer.id}))
    && (s.closeWaiters > 0 || s.closeReturnedNil ==> s.closeLeft)
    && (s.closeLeft ==> s.closed && AllFired(s, s.pending))
    && (s.closeReturnedNil ==> s.metrics.drainGroup == 0)
  }

  ghost predicate Inv(s: Router) {
    EachCall(s) && s.metrics == Total(s.calls) && Registered(s) && CloserOk(s)
  }

  // ----- the invariant is inductive -----

  /** One call changes, everything the router has seen stays or grows. */
  lemma EachCallUpdate(s: Router, s': Router, id: nat)
    requires EachCall(s) && id < |s.calls| && SeenBy(s).Within(SeenBy(s'))
    requires |s'.calls| == |s.calls| && CallInv(SeenBy(s'), id, s'.calls[id])
    requires forall i :: 0 <= i < |s.calls| && i != id ==> s'.calls[i] == s.calls[i]
    ensures EachCall(s')
  {
    forall i | 0 <= i < |s'.calls| ensures CallInv(SeenBy(s'), i, s'.calls[i]) {
      if i != id {
        CallInvLater(SeenBy(s), SeenBy(s'), i, s.calls[i]);
      }
    }
  }

  lemma EachCallLater(s: Router, s': Router)
    requires EachCall(s) && SeenBy(s).Within(SeenBy(s')) && s'.calls == s.calls
    ensures EachCall(s')
  {
    forall i | 0 <= i < |s'.calls| ensures CallInv(SeenBy(s'), i, s'.calls[i]) {
      CallInvLater(SeenBy(s), SeenBy(s'), i, s.calls[i]);
    }
  }

  lemma EachCallOnInbox(s: Router, msg: Message)
    requires EachCall(s)
    ensures EachCall(Apply(s, Inbox(msg)))
  {
    var s' := Apply(s, Inbox(msg));
    if Lookup(s, msg).None? {
      EachCallLater(s, s');
    } else {
      var id := Lookup(s, msg).value;
      CallInvLater(SeenBy(s), SeenBy(s'), id, s.calls[id]);
      CallInvOfDelivery(SeenBy(s'), id, s.calls[id], msg);
      EachCallUpdate(s, s', id);
    }
  }

  lemma EachCallOnFailure(s: Router, msg: Message)
    requires EachCall(s)
    ensures EachCall(Apply(s, Failure(msg)))
  {
    var s' := Apply(s, Failure(msg));
    if Lookup(s, msg).None? {
      EachCallLater(s, s');
    } else {
      var id := Lookup(s, msg).value;
      CallInvLater(SeenBy(s), SeenBy(s'), id, s.calls[id]);
      CallInvOfRequest(SeenBy(s'), id, s.calls[id], HandlerExhausted(msg));
      EachCallUpdate(s, s', id);
    }
  }

  lemma EachCallOnStep(s: Router, id: nat, t: Step)
    requires EachCall(s) && Enabled(s, Local(id, t))
    ensures EachCall(Apply(s, Local(id, t)))
  {
    CallInvKept(SeenBy(s), id, s.calls[id], t);
    EachCallUpdate(s, Apply(s, Local(id, t)), id);
  }

  lemma EachCallKept(s: Router, a: Action)
    requires EachCall(s) && Enabled(s, a) && (s.closer.Ranging? ==> s.closed)
    ensures EachCall(Apply(s, a))
  {
    match a
    case Inbox(msg) => EachCallOnInbox(s, msg);
    case Failure(msg) => EachCallOnFailure(s, msg);
    case Local(id, t) => EachCallOnStep(s, id, t);
    case Register(policy, streaming, bufferSize, ctx) =>
      if !s.closed {
        CallInvOfNew(SeenBy(s), |s.calls|, policy, streaming, bufferSize, ctx);
      }
    case Deregister(id) =>
      CallInvOfDeregistration(SeenBy(s), id, s.calls[id]);
      EachCallUpdate(s, Apply(s, a), id);
    case CloseVisits(id) =>
      CallInvOfRequest(SeenBy(s), id, s.calls[id], CallerClosed);
      EachCallUpdate(s, Apply(s, a), id);
    case _ => EachCallLater(s, Apply(s, a));
  }

  lemma MetricsOnStep(s: Router, id: nat, t: Step)
    requires Enabled(s, Local(id, t)) && s.metrics == Total(s.calls)
    ensures Apply(s, Local(id, t)).metrics == Total(Apply(s, Local(id, t)).calls)
  {
    TotalUpdate(s.calls, id, After(s.calls[id], t), Bump(s.calls[id], t));
  }

  lemma MetricsOnMessage(s: Router, a: Action)
    requires s.metrics == Total(s.calls) && (a.Inbox? || a.Failure?) && Lookup(s, a.msg).Some?
    ensures Apply(s, a).metrics == Total(Apply(s, a).calls)
  {
    var id := Lookup(s, a.msg).value;
    TotalUpdate(s.calls, id, Apply(s, a).calls[id],
                if a.Failure? || a.msg.done || s.calls[id].streaming then ZERO else ZERO.(dropped := 1));
  }

  lemma MetricsKept(s: Router, a: Action)
    requires Enabled(s, a) && s.metrics == Total(s.calls)
    ensures Apply(s, a).metrics == Total(Apply(s, a).calls)
  {
    var s' := Apply(s, a);
    match a
    case Register(policy, streaming, bufferSize, ctx) =>
      TotalAppend(s.calls, NewCall(policy, streaming, bufferSize, ctx));
    case Inbox(msg) => if Lookup(s, msg).Some? { MetricsOnMessage(s, a); }
    case Failure(msg) => if Lookup(s, msg).Some? { MetricsOnMessage(s, a); }
    case Local(id, t) => MetricsOnStep(s, id, t);
    case Deregister(id) => TotalUpdate(s.calls, id, s'.calls[id], ZERO);
    case CloseVisits(id) => TotalUpdate(s.calls, id, s'.calls[id], ZERO);
    case _ =>
  }

  predicate InTable(c: Call) { !c.pc.Deregistered? && !c.pc.Gone? }

  lemma StaysInTable(c: Call, t: Step)
    requires Can(c, t)
    ensures InTable(c) ==> InTable(After(c, t))
  {
    hide Can, Next, Bump, After;
    if OfCaller(t) {
      StaysInTableByCaller(c, t);
    } else if OfSender(t) {
      FrameOfSender(c, t);
    } else if OfOnce(t) {
      FrameOfOnce(c, t);
    } else {
      FrameOfDrain(c, t);
    }
  }

  lemma StaysInTableByCaller(c: Call, t: Step)
    requires Can(c, t) && OfCaller(t)
    ensures InTable(c) ==> InTable(After(c, t))
  {
    hide Bump, NextOfSender, NextOfOnce, NextOfDrain, WrapsHandlerFailed, OutcomeOf;
    var d := NextOfCaller(c, t);
    assert After(c, t).pc == d.pc;
    hide After, Next;
    assert d.pc == c.pc || d.pc.Returned? || d.pc.Waiting? || d.pc.Aborting? || d.pc.Settling? || d.pc.Expiring?
      || c.pc.Deregistered?;
  }

  /** Inside `doneOnce` nothing is left to do once it has fired. */
  lemma NothingAfterFired(c: Call, t: Step)
    requires Can(c, t) && OfOnce(t)
    ensures !c.once.Fired?
  {
  }

  lemma StaysFired(c: Call, t: Step)
    requires Can(c, t)
    ensures c.once.Fired? ==> After(c, t).once.Fired?
  {
    hide Can, Next, Bump, After;
    if OfCaller(t) {
      FrameOfCaller(c, t);
    } else if OfSender(t) {
      FrameOfSender(c, t);
    } else if OfOnce(t) {
      NothingAfterFired(c, t);
    } else {
      FrameOfDrain(c, t);
    }
  }

  lemma RegisteredKept(s: Router, a: Action)
    requires Enabled(s, a) && Registered(s)
    ensures Registered(Apply(s, a))
  {
    var s' := Apply(s, a);
    if a.Local? {
      StaysInTable(s.calls[a.id], a.step);
      var c' := After(s.calls[a.id], a.step);
      assert s'.calls == s.calls[a.id := c'];
    }
    forall i | i in s'.pending ensures i < |s'.calls| && InTable(s'.calls[i]) {
      if i < |s.calls| { assert i in s.pending; }
    }
  }

  /** Calls are never forgotten, and a fired `doneOnce` stays fired. */
  ghost predicate FiredWithin(s: Router, s': Router) {
    && |s.calls| <= |s'.calls|
    && forall i :: 0 <= i < |s.calls| && s.calls[i].once.Fired? ==> s'.calls[i].once.Fired?
  }

  lemma FiredKept(s: Router, a: Action)
    requires Enabled(s, a)
    ensures FiredWithin(s, Apply(s, a))
  {
    if a.Local? {
      StaysFired(s.calls[a.id], a.step);
    }
  }

  /** With an empty wait group no drain is left to leave it. */
  lemma {:induction false} DrainGroupOf(calls: seq<Call>)
    requires forall c :: c in calls ==> Accounting(c)
    ensures Total(calls).drainGroup >= 0
    ensures Total(calls).drainGroup == 0 ==> forall c :: c in calls ==> c.tally.drainGroup == 0
    ensures Total(calls).drainGroup == 0 ==> Total(calls).activeDrains == 0
  {
    if calls != [] {
      var rest := calls[..|calls| - 1];
      assert calls == rest + [calls[|calls| - 1]];
      DrainGroupOf(rest);
      assert Accounting(calls[|calls| - 1]);
    }
  }

  lemma BumpOfGroup(c: Call, t: Step)
    requires Can(c, t) && Accounting(c) && Lifecycle(c) && c.tally.drainGroup == 0
    ensures Bump(c, t).drainGroup == 0
  {
  }

  lemma EmptyGroupKept(s: Router, a: Action)
    requires Enabled(s, a) && EachCall(s) && s.metrics == Total(s.calls)
    requires s.closed && s.metrics.drainGroup == 0
    ensures Apply(s, a).metrics.drainGroup == 0
  {
    forall c | c in s.calls ensures Accounting(c) && Lifecycle(c) {
      var i :| 0 <= i < |s.calls| && s.calls[i] == c;
      assert CallInv(SeenBy(s), i, s.calls[i]);
    }
    DrainGroupOf(s.calls);
    if a.Local? {
      BumpOfGroup(s.calls[a.id], a.step);
    }
  }

  lemma CloserKept(s: Router, a: Action)
    requires Enabled(s, a) && CloserOk(s) && FiredWithin(s, Apply(s, a))
    requires s.closeReturnedNil ==> Apply(s, a).metrics.drainGroup == 0
    ensures CloserOk(Apply(s, a))
  {
    var s' := Apply(s, a);
    if a.CloseVisited? {
      assert s.closer.visited <= s.closer.visited - {s.closer.id} + {s.closer.id};
    }
  }

  lemma InvKept(s: Router, a: Action)
    requires Inv(s) && Enabled(s, a)
    ensures Inv(Apply(s, a))
  {
    EachCallKept(s, a);
    MetricsKept(s, a);
    RegisteredKept(s, a);
    FiredKept(s, a);
    if s.closeReturnedNil {
      EmptyGroupKept(s, a);
    }
    CloserKept(s, a);
  }

  lemma {:induction false} InvAlways(states: seq<Router>, actions: seq<Action>, k: nat)
    requires IsRun(states, actions) && k < |states|
    ensures Inv(states[k])
    decreases k
  {
    if k > 0 {
      InvAlways(states, actions, k - 1);
      InvKept(states[k - 1], actions[k - 1]);
    }
  }
}
