/**
  The state of the router in terms of the actions that led to it: which calls are registered, which
  results their parties ask for, which of those is the first, and what `Caller.Call` returns.
 */
module CallerHistory {
  import opened Wrappers
  import opened Caller
  import opened CallerInvariants
  import opened CallerRuns
  import opened CallerTheorems

  /** A message that selects the entry of call `id`, which is in the table. */
  predicate Selects(s: Router, msg: Message, id: nat) { msg.cid == Some(id) && id in s.pending }

  /** What one action makes of one call. */
  function CallAfter(s: Router, a: Action, id: nat): Call
    requires Enabled(s, a) && id < |s.calls|
  {
    var c := s.calls[id];
    if a.Local? && a.id == id then After(c, a.step)
    else if a.Inbox? && Selects(s, a.msg, id) then Deliver(c, a.msg)
    else if a.Failure? && Selects(s, a.msg, id) then c.(requests := c.requests + {HandlerExhausted(a.msg)})
    else if a == Deregister(id) then c.(pc := Deregistered(c.pc.outcome))
    else if a == CloseVisits(id) then c.(requests := c.requests + {CallerClosed})
    else c
  }

  lemma CallAfterIs(s: Router, a: Action, id: nat)
    requires Enabled(s, a) && id < |s.calls| && Registered(s)
    ensures id < |Apply(s, a).calls| && Apply(s, a).calls[id] == CallAfter(s, a, id)
  {
    hide Apply, CallAfter, After, Can;
    match a
    case Inbox(_) => CallAfterMessage(s, a, id);
    case Failure(_) => CallAfterMessage(s, a, id);
    case Local(_, _) => CallAfterLocal(s, a, id);
    case Deregister(_) => CallAfterLocal(s, a, id);
    case _ => CallAfterOther(s, a, id);
  }

  lemma CallAfterMessage(s: Router, a: Action, id: nat)
    requires Enabled(s, a) && id < |s.calls| && Registered(s) && (a.Inbox? || a.Failure?)
    ensures id < |Apply(s, a).calls| && Apply(s, a).calls[id] == CallAfter(s, a, id)
  {
    hide After, Deliver, NewCall, Opening, Bump, Can;
  }

  lemma CallAfterLocal(s: Router, a: Action, id: nat)
    requires Enabled(s, a) && id < |s.calls| && (a.Local? || a.Deregister?)
    ensures id < |Apply(s, a).calls| && Apply(s, a).calls[id] == CallAfter(s, a, id)
  {
    hide After, Deliver, NewCall, Opening, Bump, Can, Lookup, Selects;
  }

  lemma CallAfterOther(s: Router, a: Action, id: nat)
    requires Enabled(s, a) && id < |s.calls| && !a.Inbox? && !a.Failure? && !a.Local? && !a.Deregister?
    ensures id < |Apply(s, a).calls| && Apply(s, a).calls[id] == CallAfter(s, a, id)
  {
    hide After, Deliver, NewCall, Opening, Bump, Can, Lookup, Selects;
  }

  /** What a delivery leaves alone, and what it adds. */
  lemma DeliveryFrame(c: Call, m: Message)
    ensures var d := Deliver(c, m);
      && d == c.(envelope := d.envelope, requests := d.requests, matched := d.matched, waiting := d.waiting,
                 tally := d.tally)
      && d.requests == c.requests + (if m.done then {Reply(m)} else {})
      && d.envelope == (c.envelope || (m.done && m.envelope))
      && d.waiting == c.waiting + (if !m.done && c.streaming then [m] else [])
      && d.matched == c.matched + (if m.done then 0 else 1) && (m.done ==> d.tally == c.tally)
  {
    assert c.waiting + [] == c.waiting;
  }

  // ----- registration -----

  ghost predicate CloseBegan(actions: seq<Action>, k: nat)
    requires k <= |actions|
  {
    exists j :: 0 <= j < k && actions[j].CloseBegins?
  }

  lemma {:induction false} ClosedIs(states: seq<Router>, actions: seq<Action>, k: nat)
    requires IsRun(states, actions) && k < |states|
    ensures states[k].closed <==> CloseBegan(actions, k)
    decreases k
  {
    if k > 0 {
      ClosedIs(states, actions, k - 1);
      ClosedStep(states[k - 1], actions[k - 1]);
      if actions[k - 1].CloseBegins? { assert 0 <= k - 1 < k; }
    }
  }

  lemma ClosedStep(s: Router, a: Action)
    requires Enabled(s, a)
    ensures Apply(s, a).closed <==> s.closed || a.CloseBegins?
  {
    hide After, Deliver, NewCall, Opening, Bump, Can;
  }

  /** Registration: once a close has begun nothing happens, and before that exactly one call is added,
      with the settings it was given, and is in the table. */
  lemma RegisterExact(states: seq<Router>, actions: seq<Action>, k: nat)
    requires IsRun(states, actions) && k < |actions| && actions[k].Register?
    ensures CloseBegan(actions, k) ==> states[k + 1] == states[k]
    ensures !CloseBegan(actions, k) ==>
      var s, s', a := states[k], states[k + 1], actions[k];
      var id := |s.calls|;
      && |s'.calls| == id + 1 && (forall i :: 0 <= i < id ==> s'.calls[i] == s.calls[i])
      && id in s'.pending && id !in s.pending && (forall i :: i in s.pending ==> i in s'.pending)
      && s'.metrics.inflight == s.metrics.inflight + 1
      && s'.metrics.activeDrains == s.metrics.activeDrains + (if a.streaming then 1 else 0)
      && s'.metrics.drainGroup == s.metrics.drainGroup + (if a.streaming then 1 else 0)
      && s'.unmatched == s.unmatched
      && var c := s'.calls[id];
      && c.policy == a.policy && c.streaming == a.streaming && c.ctx == a.ctx
      && c.cap == (if a.bufferSize <= 0 then 64 else a.bufferSize)
      && c.pc.Publishing? && c.once.Idle? && c.done.None? && c.requests == {} && !c.envelope
      && (a.streaming <==> c.drain.Receiving?)
  {
    ClosedIs(states, actions, k);
    InvAlways(states, actions, k);
    assert |states[k].calls| !in states[k].pending;
  }

  lemma {:induction false} SettingsOf(states: seq<Router>, actions: seq<Action>, k: nat, id: nat) returns (j: nat)
    requires IsRun(states, actions) && k < |states| && id < |states[k].calls|
    ensures j < k && actions[j].Register? && !CloseBegan(actions, j) && |states[j].calls| == id
    ensures var a, c := actions[j], states[k].calls[id];
      c.policy == a.policy && c.streaming == a.streaming && c.cap == if a.bufferSize <= 0 then 64 else a.bufferSize
    decreases k
  {
    hide Apply, Enabled;
    if k == 0 {
      NobodyAtFirst();
      assert false;
    } else if id < |states[k - 1].calls| {
      j := SettingsOf(states, actions, k - 1, id);
      InvAlways(states, actions, k - 1);
      SettingsStay(states[k - 1], actions[k - 1], id);
    } else {
      OnlyRegisterAdds(states[k - 1], actions[k - 1]);
      j := k - 1;
      ClosedIs(states, actions, j);
    }
  }

  lemma OnlyRegisterAdds(s: Router, a: Action)
    requires Enabled(s, a)
    ensures |Apply(s, a).calls| == |s.calls| + if a.Register? && !s.closed then 1 else 0
    ensures a.Register? && !s.closed ==>
      var c := Apply(s, a).calls[|s.calls|];
      && c.policy == a.policy && c.streaming == a.streaming && c.cap == (if a.bufferSize <= 0 then 64 else a.bufferSize)
      && c.requests == {} && !c.envelope && c.once.Idle? && c.pc.Publishing? && c.done.None?
      && c.waiting == [] && c.arrived == []
  {
    hide After, Deliver, Opening, Bump, Can;
  }

  lemma SettingsStay(s: Router, a: Action, id: nat)
    requires Enabled(s, a) && id < |s.calls| && Registered(s)
    ensures id < |Apply(s, a).calls|
    ensures var c, d := s.calls[id], Apply(s, a).calls[id];
      d.policy == c.policy && d.streaming == c.streaming && d.cap == c.cap
  {
    hide Apply, After, Can, Bump, Deliver;
    CallAfterIs(s, a, id);
    if a.Local? && a.id == id {
      SettingsStayByStep(s.calls[id], a.step);
    } else if a.Inbox? {
      DeliveryFrame(s.calls[id], a.msg);
    }
  }

  lemma SettingsStayByStep(c: Call, t: Step)
    requires Can(c, t)
    ensures var d := After(c, t); d.policy == c.policy && d.streaming == c.streaming && d.cap == c.cap
    ensures After(c, t).envelope == c.envelope
  {
    hide Can, Next, Bump, After;
    if OfCaller(t) {
      FrameOfCaller(c, t);
    } else if OfSender(t) {
      FrameOfSender(c, t);
    } else if OfOnce(t) {
      FrameOfOnce(c, t);
    } else {
      FrameOfDrain(c, t);
    }
  }

  // ----- the table -----

  /** A failure event for call `id` after its registration. */
  ghost predicate FailedIn(states: seq<Router>, actions: seq<Action>, k: nat, id: nat)
    requires k <= |actions| && |states| == |actions| + 1
  {
    exists j :: 0 <= j < k && id < |states[j].calls| && actions[j].Failure? && actions[j].msg.cid == Some(id)
  }

  ghost predicate DeregisteredIn(actions: seq<Action>, k: nat, id: nat)
    requires k <= |actions|
  {
    exists j :: 0 <= j < k && actions[j] == Deregister(id)
  }

  lemma PendingStep(s: Router, a: Action, id: nat)
    requires Enabled(s, a) && Registered(s)
    ensures id in Apply(s, a).pending <==>
      || (id in s.pending && a != Deregister(id) && !(a.Failure? && a.msg.cid == Some(id)))
      || (a.Register? && !s.closed && id == |s.calls|)
  {
    hide After, Deliver, NewCall, Opening, Bump, Can;
  }

  /** A call is in the table from its registration until it is deregistered or a failure event carries
      its id. */
  lemma {:induction false} PendingExact(states: seq<Router>, actions: seq<Action>, k: nat, id: nat)
    requires IsRun(states, actions) && k < |states|
    ensures id in states[k].pending <==>
      id < |states[k].calls| && !DeregisteredIn(actions, k, id) && !FailedIn(states, actions, k, id)
    decreases k
  {
    hide Apply, Enabled;
    if k > 0 {
      var s, a := states[k - 1], actions[k - 1];
      PendingExact(states, actions, k - 1, id);
      InvAlways(states, actions, k - 1);
      PendingStep(s, a, id);
      OnlyRegisterAdds(s, a);
      if a == Deregister(id) { assert 0 <= k - 1 < k; }
      if id >= |s.calls| {
        NotYetKnown(states, actions, k - 1, id);
      } else if a.Failure? && a.msg.cid == Some(id) {
        assert 0 <= k - 1 < k;
      }
    } else {
      NobodyAtFirst();
    }
  }

  lemma NotYetKnown(states: seq<Router>, actions: seq<Action>, k: nat, id: nat)
    requires IsRun(states, actions) && k < |actions| && id >= |states[k].calls|
    ensures !DeregisteredIn(actions, k + 1, id) && !FailedIn(states, actions, k + 1, id)
  {
    forall j | 0 <= j < k + 1 ensures id >= |states[j].calls| {
      RunsGoOnward(states, actions, j, k);
    }
  }

  // ----- what the parties ask for -----

  /** The action makes some party pass `r` to `finalize` of call `id`. */
  predicate Asks(s: Router, a: Action, id: nat, r: Result) {
    match r
    case Reply(m) => a == Inbox(m) && m.done && Selects(s, m, id)
    case HandlerExhausted(m) => a == Failure(m) && Selects(s, m, id)
    case StreamHandlerFailed(wraps) => a == Local(id, HandlerFails(wraps))
    case Overflowed => false
    case ContextEnded(why) => a == Local(id, NoticeExpiry) && id < |s.calls| && s.calls[id].ctx == Expired(why)
    case PublishFailed => a == Local(id, PublishFails)
    case CallerClosed => a == CloseVisits(id)
  }

  ghost predicate AskedIn(states: seq<Router>, actions: seq<Action>, k: nat, id: nat, r: Result)
    requires k <= |actions| && |states| == |actions| + 1
  {
    exists j :: 0 <= j < k && id < |states[j].calls| && Asks(states[j], actions[j], id, r)
  }

  lemma RequestsByCaller(c: Call, t: Step)
    requires Can(c, t) && OfCaller(t)
    ensures After(c, t).requests == c.requests
      + (if t.PublishFails? then {PublishFailed} else if t.NoticeExpiry? then {ContextEnded(c.ctx.why)} else {})
  {
    hide Bump, NextOfSender, NextOfOnce, NextOfDrain, OutcomeOf, WrapsHandlerFailed;
  }

  lemma RequestsByDrain(c: Call, t: Step)
    requires Can(c, t) && OfDrain(t)
    ensures After(c, t).requests == c.requests
      + (if t.HandlerFails? then {StreamHandlerFailed(t.wrapsHandlerFailed)} else {})
  {
    hide Bump, NextOfCaller, NextOfSender, NextOfOnce;
  }

  lemma RequestsByStep(c: Call, t: Step)
    requires Can(c, t)
    ensures After(c, t).requests == c.requests
      + (if t.PublishFails? then {PublishFailed}
         else if t.NoticeExpiry? && c.ctx.Expired? then {ContextEnded(c.ctx.why)}
         else if t.HandlerFails? then {StreamHandlerFailed(t.wrapsHandlerFailed)} else {})
  {
    hide Next, Bump, After;
    if OfCaller(t) {
      RequestsByCaller(c, t);
    } else if OfSender(t) {
      FrameOfSender(c, t);
    } else if OfOnce(t) {
      FrameOfOnce(c, t);
    } else {
      RequestsByDrain(c, t);
    }
  }

  lemma RequestStep(s: Router, a: Action, id: nat, r: Result)
    requires Enabled(s, a) && id < |s.calls| && Registered(s)
    ensures id < |Apply(s, a).calls|
    ensures r in Apply(s, a).calls[id].requests <==> r in s.calls[id].requests || Asks(s, a, id, r)
  {
    hide Apply, After, Deliver;
    CallAfterIs(s, a, id);
    if a.Local? && a.id == id {
      RequestsByStep(s.calls[id], a.step);
    } else if a.Inbox? {
      DeliveryFrame(s.calls[id], a.msg);
    }
  }

  /** The results that parties are passing to `finalize` are exactly those that something in the run
      made them pass: each terminal message and each failure event that met the call in the table, a
      failing handler or publish, the end of the context when it was noticed, and a close. */
  lemma {:induction false} RequestsExact(states: seq<Router>, actions: seq<Action>, k: nat, id: nat, r: Result)
    requires IsRun(states, actions) && k < |states| && id < |states[k].calls|
    ensures r in states[k].calls[id].requests <==> AskedIn(states, actions, k, id, r)
    decreases k
  {
    hide Apply, Enabled, Asks;
    if k == 0 {
      NobodyAtFirst();
    } else {
      var s, a := states[k - 1], actions[k - 1];
      InvAlways(states, actions, k - 1);
      if id < |s.calls| {
        RequestsExact(states, actions, k - 1, id, r);
        RequestStep(s, a, id, r);
        if Asks(s, a, id, r) { assert 0 <= k - 1 < k; }
      } else {
        OnlyRegisterAdds(s, a);
        NobodyBefore(states, actions, k - 1, id);
      }
    }
  }

  /** Before its registration nothing concerns a call. */
  lemma NobodyBefore(states: seq<Router>, actions: seq<Action>, k: nat, id: nat)
    requires IsRun(states, actions) && k < |actions| && id >= |states[k].calls|
    ensures forall j :: 0 <= j < k + 1 ==> id >= |states[j].calls|
  {
    forall j | 0 <= j < k + 1 ensures id >= |states[j].calls| {
      RunsGoOnward(states, actions, j, k);
    }
  }

  // ----- envelopes -----

  /** A terminal message marked as an envelope met the call in the table. */
  ghost predicate EnvelopedIn(states: seq<Router>, actions: seq<Action>, k: nat, id: nat)
    requires k <= |actions| && |states| == |actions| + 1
  {
    exists j :: 0 <= j < k && id < |states[j].calls| && Envelopes(states[j], actions[j], id)
  }

  predicate Envelopes(s: Router, a: Action, id: nat) {
    a.Inbox? && a.msg.done && a.msg.envelope && Selects(s, a.msg, id)
  }

  lemma EnvelopeStep(s: Router, a: Action, id: nat)
    requires Enabled(s, a) && id < |s.calls| && Registered(s)
    ensures id < |Apply(s, a).calls|
    ensures Apply(s, a).calls[id].envelope <==> s.calls[id].envelope || Envelopes(s, a, id)
  {
    hide Apply, After, Can, Deliver;
    CallAfterIs(s, a, id);
    if a.Local? && a.id == id {
      SettingsStayByStep(s.calls[id], a.step);
    } else if a.Inbox? {
      DeliveryFrame(s.calls[id], a.msg);
    }
  }

  lemma {:induction false} EnvelopeExact(states: seq<Router>, actions: seq<Action>, k: nat, id: nat)
    requires IsRun(states, actions) && k < |states| && id < |states[k].calls|
    ensures states[k].calls[id].envelope <==> EnvelopedIn(states, actions, k, id)
    decreases k
  {
    hide Apply, Enabled, Envelopes;
    if k == 0 {
      NobodyAtFirst();
    } else {
      var s, a := states[k - 1], actions[k - 1];
      InvAlways(states, actions, k - 1);
      if id < |s.calls| {
        EnvelopeExact(states, actions, k - 1, id);
        EnvelopeStep(s, a, id);
        if Envelopes(s, a, id) { assert 0 <= k - 1 < k; }
      } else {
        OnlyRegisterAdds(s, a);
        NobodyBefore(states, actions, k - 1, id);
      }
    }
  }

  // ----- the first result wins -----

  /** The result with which the action enters `doneOnce` of call `id`, if it does. */
  function ClaimOf(a: Action, id: nat): Option<Result> {
    if !a.Local? || a.id != id then None
    else if a.step.Claim? then Some(a.step.r)
    else if a.step.OverflowFinalizes? then Some(Overflowed)
    else None
  }

  /** The first such result among the first `k` actions. */
  function FirstClaim(actions: seq<Action>, k: nat, id: nat): Option<Result>
    requires k <= |actions|
  {
    if k == 0 then None
    else if FirstClaim(actions, k - 1, id).Some? then FirstClaim(actions, k - 1, id)
    else ClaimOf(actions[k - 1], id)
  }

  /** If anything about the call shows a result, it is `r`: `doneOnce`, the slot of `done`, and what
      `Caller.Call` received from it. */
  ghost predicate Carries(c: Call, r: Result) {
    && !c.once.Idle?
    && (c.once.Claimed? || c.once.Closing? ==> c.once.r == r)
    && (c.done.Some? ==> c.done.value == r)
    && (c.pc.Settling? ==> r == Reply(c.pc.msg))
    && (c.pc.HasOutcome() ==>
          match c.pc.outcome
          case Completed(m) => r == Reply(m)
          case Undecodable(m) => r == Reply(m)
          case ErrorEnvelope(m) => r == Reply(m)
          case Failed(q) => r == q
          case _ => true)
  }

  /** Nothing shows a result yet. */
  predicate Untouched(c: Call) {
    c.once.Idle? && c.done.None? && !c.pc.Settling? && !c.pc.HasOutcome()
  }

  lemma CarriesByCaller(c: Call, t: Step, r: Result)
    requires Can(c, t) && OfCaller(t) && Lifecycle(c)
    ensures Carries(c, r) ==> Carries(After(c, t), r)
    ensures Untouched(c) ==> Untouched(After(c, t))
  {
    hide Bump, NextOfSender, NextOfOnce, NextOfDrain, WrapsHandlerFailed;
  }

  lemma CarriesByOnce(id: nat, c: Call, t: Step, r: Result)
    requires Can(c, t) && OfOnce(t) && Lifecycle(c)
    ensures Carries(c, r) ==> Carries(After(c, t), r) && ClaimOf(Local(id, t), id).None?
    ensures Untouched(c) ==> ClaimOf(Local(id, t), id).Some? && Carries(After(c, t), ClaimOf(Local(id, t), id).value)
  {
    hide Bump, NextOfCaller, NextOfSender, NextOfDrain;
  }

  lemma CarriesByOthers(c: Call, t: Step, r: Result)
    requires Can(c, t) && (OfSender(t) || OfDrain(t))
    ensures Carries(c, r) ==> Carries(After(c, t), r)
    ensures Untouched(c) ==> Untouched(After(c, t))
  {
    hide Can, Next, Bump, After;
    if OfSender(t) { FrameOfSender(c, t); } else { FrameOfDrain(c, t); }
  }

  lemma CarriesStep(s: Router, a: Action, id: nat, r: Result)
    requires Enabled(s, a) && id < |s.calls| && Registered(s) && Lifecycle(s.calls[id])
    ensures id < |Apply(s, a).calls|
    ensures var c, d, first := s.calls[id], Apply(s, a).calls[id], ClaimOf(a, id);
      && (Carries(c, r) ==> Carries(d, r) && first.None?)
      && (Untouched(c) ==> if first.None? then Untouched(d) else Carries(d, first.value))
  {
    hide Apply, Enabled, After, Lifecycle, Carries, Untouched, Deliver;
    CallAfterIs(s, a, id);
    var c := s.calls[id];
    if a.Local? && a.id == id {
      CarriesLocally(s, id, a.step, r);
    } else {
      CarriesElsewhere(s, a, id, r);
    }
  }

  lemma CarriesLocally(s: Router, id: nat, t: Step, r: Result)
    requires Enabled(s, Local(id, t)) && Lifecycle(s.calls[id])
    ensures var c, d, first := s.calls[id], After(s.calls[id], t), ClaimOf(Local(id, t), id);
      && (Carries(c, r) ==> Carries(d, r) && first.None?)
      && (Untouched(c) ==> if first.None? then Untouched(d) else Carries(d, first.value))
  {
    hide After, Can, Lifecycle, Carries, Untouched;
    var c := s.calls[id];
    if OfCaller(t) {
      CarriesByCaller(c, t, r);
    } else if OfOnce(t) {
      CarriesByOnce(id, c, t, r);
    } else {
      CarriesByOthers(c, t, r);
    }
  }

  lemma CarriesElsewhere(s: Router, a: Action, id: nat, r: Result)
    requires Enabled(s, a) && id < |s.calls| && !(a.Local? && a.id == id)
    ensures Carries(s.calls[id], r) ==> Carries(CallAfter(s, a, id), r)
    ensures Untouched(s.calls[id]) ==> Untouched(CallAfter(s, a, id)) || a == Deregister(id)
    ensures Untouched(s.calls[id]) ==> a != Deregister(id)
  {
    hide After, Can, Deliver;
    if a.Inbox? {
      CarriesDelivery(s.calls[id], a.msg, r);
    }
  }

  lemma CarriesDelivery(c: Call, m: Message, r: Result)
    ensures Carries(c, r) ==> Carries(Deliver(c, m), r)
    ensures Untouched(c) ==> Untouched(Deliver(c, m))
  {
    hide Deliver;
    DeliveryFrame(c, m);
  }

  /** A call has a result exactly when one of its parties has entered `doneOnce`.  It is the result of
      the first one that did, whatever the others are passing, and no other ever enters. */
  lemma {:induction false} FirstResultWins(states: seq<Router>, actions: seq<Action>, k: nat, id: nat)
    requires IsRun(states, actions) && k < |states| && id < |states[k].calls|
    ensures var c, first := states[k].calls[id], FirstClaim(actions, k, id);
      && (first.None? ==> Untouched(c))
      && (first.Some? ==> Carries(c, first.value))
      && (first.Some? && k < |actions| ==> ClaimOf(actions[k], id).None?)
    decreases k
  {
    hide Apply, Enabled, Carries, Untouched, ClaimOf;
    if k == 0 {
      NobodyAtFirst();
    } else {
      var s, a := states[k - 1], actions[k - 1];
      InvAlways(states, actions, k - 1);
      if id < |s.calls| {
        FirstResultWins(states, actions, k - 1, id);
        var first := FirstClaim(actions, k - 1, id);
        CarriesStep(s, a, id, if first.Some? then first.value else Overflowed);
      } else {
        NobodyBefore(states, actions, k - 1, id);
        NoClaimBefore(states, actions, k, id);
        NewIsUntouched(s, a);
      }
      if k < |actions| && FirstClaim(actions, k, id).Some? {
        InvAlways(states, actions, k);
        CarriesStep(states[k], actions[k], id, FirstClaim(actions, k, id).value);
      }
    }
  }

  lemma NewIsUntouched(s: Router, a: Action)
    requires Enabled(s, a) && |Apply(s, a).calls| > |s.calls|
    ensures |Apply(s, a).calls| == |s.calls| + 1 && Untouched(Apply(s, a).calls[|s.calls|])
  {
    OnlyRegisterAdds(s, a);
  }

  lemma {:induction false} NoClaimBefore(states: seq<Router>, actions: seq<Action>, k: nat, id: nat)
    requires IsRun(states, actions) && k <= |actions| && forall j :: 0 <= j < k ==> id >= |states[j].calls|
    ensures FirstClaim(actions, k, id).None?
  {
    hide Apply, Can;
    if k > 0 {
      NoClaimBefore(states, actions, k - 1, id);
      assert Enabled(states[k - 1], actions[k - 1]);
    }
  }

  /** Every result that enters is one that some party was passing, except that the overflowing sender
      enters at once. */
  lemma {:induction false} WinnerWasAsked(states: seq<Router>, actions: seq<Action>, k: nat, id: nat)
    requires IsRun(states, actions) && k < |states| && id < |states[k].calls| && FirstClaim(actions, k, id).Some?
    ensures var r := FirstClaim(actions, k, id).value;
      || AskedIn(states, actions, k, id, r)
      || (r.Overflowed? && exists j :: 0 <= j < k && actions[j] == Local(id, OverflowFinalizes))
    decreases k
  {
    hide Apply, AskedIn;
    if FirstClaim(actions, k - 1, id).Some? {
      KnownWhenClaimed(states, actions, k - 1, id);
      WinnerWasAsked(states, actions, k - 1, id);
      AskedLater(states, actions, k - 1, id, FirstClaim(actions, k, id).value);
    } else {
      assert Enabled(states[k - 1], actions[k - 1]);
      if actions[k - 1].step.Claim? {
        var r := actions[k - 1].step.r;
        RequestsExact(states, actions, k - 1, id, r);
        AskedLater(states, actions, k - 1, id, r);
      } else {
        assert actions[k - 1] == Local(id, OverflowFinalizes);
      }
    }
  }

  lemma AskedLater(states: seq<Router>, actions: seq<Action>, k: nat, id: nat, r: Result)
    requires k < |actions| && |states| == |actions| + 1
    ensures AskedIn(states, actions, k, id, r) ==> AskedIn(states, actions, k + 1, id, r)
  {
    hide Asks;
  }

  lemma KnownWhenClaimed(states: seq<Router>, actions: seq<Action>, k: nat, id: nat)
    requires IsRun(states, actions) && k < |states| && FirstClaim(actions, k, id).Some?
    ensures id < |states[k].calls|
  {
    hide Apply;
    if id >= |states[k].calls| {
      forall j | 0 <= j < k ensures id >= |states[j].calls| {
        RunsGoOnward(states, actions, j, k);
      }
      NoClaimBefore(states, actions, k, id);
    }
  }

  // ----- what Caller.Call returns -----

  /** Action `j` makes the call return `o`. */
  ghost predicate Decides(states: seq<Router>, actions: seq<Action>, j: nat, id: nat, o: Outcome)
    requires j < |actions| && |states| == |actions| + 1
  {
    var a, first := actions[j], FirstClaim(actions, j, id);
    match o
    case Completed(m) =>
      && first == Some(Reply(m)) && a.Local? && a.id == id && a.step.Settle?
      && (a.step.view.Ok? || !EnvelopedIn(states, actions, j, id))
    case Undecodable(m) =>
      first == Some(Reply(m)) && a == Local(id, Settle(Malformed)) && EnvelopedIn(states, actions, j, id)
    case ErrorEnvelope(m) =>
      first == Some(Reply(m)) && a == Local(id, Settle(NotOk)) && EnvelopedIn(states, actions, j, id)
    case Failed(r) => first == Some(r) && !r.Reply? && a == Local(id, Receive)
    case ContextOver(why) =>
      id < |states[j].calls| && states[j].calls[id].ctx == Expired(why) && a == Local(id, ExpiryReturns)
    case NotPublished => a == Local(id, AbortReturns)
  }

  ghost predicate DecidedIn(states: seq<Router>, actions: seq<Action>, k: nat, id: nat, o: Outcome)
    requires k <= |actions| && |states| == |actions| + 1
  {
    exists j :: 0 <= j < k && Decides(states, actions, j, id, o)
  }

  predicate Returns(c: Call, o: Outcome) { c.pc.HasOutcome() && c.pc.outcome == o }

  lemma SettleReturns(c: Call, view: EnvelopeView)
    requires Can(c, Settle(view))
    ensures After(c, Settle(view)).pc == Returned(
      if view.Ok? || !c.envelope then Completed(c.pc.msg)
      else if view.Malformed? then Undecodable(c.pc.msg) else ErrorEnvelope(c.pc.msg))
  {
    hide Bump, NextOfSender, NextOfOnce, NextOfDrain;
  }

  lemma ReceiveReturns(c: Call)
    requires Can(c, Receive)
    ensures var r := c.done.value;
      After(c, Receive).pc == if r.Reply? then Settling(r.msg) else Returned(Failed(r))
  {
    hide Bump, NextOfSender, NextOfOnce, NextOfDrain;
  }

  lemma OtherReturns(c: Call, t: Step)
    requires Can(c, t) && OfCaller(t) && !t.Settle? && !t.Receive?
    ensures t.AbortReturns? ==> After(c, t).pc == Returned(NotPublished)
    ensures t.ExpiryReturns? ==> After(c, t).pc == Returned(ContextOver(c.pc.why))
    ensures t.PublishSucceeds? ==> After(c, t).pc.Waiting?
    ensures !t.AbortReturns? && !t.ExpiryReturns? ==> forall o :: Returns(After(c, t), o) <==> Returns(c, o)
    ensures t.AbortReturns? || t.ExpiryReturns? ==> !c.pc.HasOutcome()
  {
    hide Bump, NextOfSender, NextOfOnce, NextOfDrain, OutcomeOf, WrapsHandlerFailed;
  }

  lemma PcElsewhere(s: Router, a: Action, id: nat)
    requires Enabled(s, a) && id < |s.calls| && Registered(s)
    requires !(a.Local? && a.id == id && OfCaller(a.step))
    ensures id < |Apply(s, a).calls| && forall o :: Returns(Apply(s, a).calls[id], o) <==> Returns(s.calls[id], o)
  {
    hide Apply, Can, Bump, Next, After, Deliver;
    CallAfterIs(s, a, id);
    if a.Inbox? {
      DeliveryFrame(s.calls[id], a.msg);
    }
    if a.Local? && a.id == id {
      if OfSender(a.step) {
        FrameOfSender(s.calls[id], a.step);
      } else if OfOnce(a.step) {
        FrameOfOnce(s.calls[id], a.step);
      } else {
        FrameOfDrain(s.calls[id], a.step);
      }
    }
  }

  lemma OutcomeOnSettle(states: seq<Router>, actions: seq<Action>, k: nat, id: nat, view: EnvelopeView, o: Outcome)
    requires IsRun(states, actions) && k < |actions| && actions[k] == Local(id, Settle(view))
    ensures id < |states[k].calls| && id < |states[k + 1].calls| && !states[k].calls[id].pc.HasOutcome()
    ensures Returns(states[k + 1].calls[id], o) <==> Decides(states, actions, k, id, o)
  {
    hide Apply, EnvelopedIn, FirstClaim;
    InvAlways(states, actions, k);
    CallAfterIs(states[k], actions[k], id);
    hide Registered, EachCall;
    SettleReturns(states[k].calls[id], view);
    FirstResultWins(states, actions, k, id);
    EnvelopeExact(states, actions, k, id);
    hide CallAfter, After;
  }

  lemma OutcomeOnReceive(states: seq<Router>, actions: seq<Action>, k: nat, id: nat, o: Outcome)
    requires IsRun(states, actions) && k < |actions| && actions[k] == Local(id, Receive)
    ensures id < |states[k].calls| && id < |states[k + 1].calls| && !states[k].calls[id].pc.HasOutcome()
    ensures Returns(states[k + 1].calls[id], o) <==> Decides(states, actions, k, id, o)
  {
    hide Apply, EnvelopedIn, FirstClaim;
    InvAlways(states, actions, k);
    CallAfterIs(states[k], actions[k], id);
    hide Registered, EachCall;
    ReceiveReturns(states[k].calls[id]);
    FirstResultWins(states, actions, k, id);
    hide CallAfter, After;
  }

  lemma OutcomeOnOther(states: seq<Router>, actions: seq<Action>, k: nat, id: nat, t: Step, o: Outcome)
    requires IsRun(states, actions) && k < |actions| && actions[k] == Local(id, t)
    requires OfCaller(t) && !t.Settle? && !t.Receive?
    ensures id < |states[k].calls| && id < |states[k + 1].calls|
    ensures Returns(states[k + 1].calls[id], o) <==> Returns(states[k].calls[id], o) || Decides(states, actions, k, id, o)
  {
    hide Apply, EnvelopedIn, FirstClaim;
    CallAlways(states, actions, k, id);
    InvAlways(states, actions, k);
    CallAfterIs(states[k], actions[k], id);
    hide Registered, EachCall;
    OtherReturns(states[k].calls[id], t);
    hide CallAfter, After;
  }

  lemma OutcomeStep(states: seq<Router>, actions: seq<Action>, k: nat, id: nat, o: Outcome)
    requires IsRun(states, actions) && k < |actions| && id < |states[k].calls|
    ensures id < |states[k + 1].calls|
    ensures Returns(states[k + 1].calls[id], o) <==> Returns(states[k].calls[id], o) || Decides(states, actions, k, id, o)
  {
    hide Apply, Enabled, Returns;
    var a := actions[k];
    if a.Local? && a.id == id && OfCaller(a.step) {
      if a.step.Settle? {
        OutcomeOnSettle(states, actions, k, id, a.step.view, o);
        NoOutcome(states[k].calls[id], o);
      } else if a.step.Receive? {
        OutcomeOnReceive(states, actions, k, id, o);
        NoOutcome(states[k].calls[id], o);
      } else {
        OutcomeOnOther(states, actions, k, id, a.step, o);
      }
    } else {
      InvAlways(states, actions, k);
      PcElsewhere(states[k], a, id);
    }
  }

  lemma NoOutcome(c: Call, o: Outcome)
    requires !c.pc.HasOutcome()
    ensures !Returns(c, o)
  {
  }

  /** What a call has returned, exactly: after the first result was a reply, that reply unless one of the
      terminal messages that met the call was an envelope and this one does not decode or says it is not
      ok; any other first result as an error; the end of its context; or its failed publish. */
  lemma {:induction false} OutcomeExact(states: seq<Router>, actions: seq<Action>, k: nat, id: nat, o: Outcome)
    requires IsRun(states, actions) && k < |states| && id < |states[k].calls|
    ensures Returns(states[k].calls[id], o) <==> DecidedIn(states, actions, k, id, o)
    decreases k
  {
    hide Apply, Enabled, Decides, Returns;
    if k == 0 {
      NobodyAtFirst();
    } else if id < |states[k - 1].calls| {
      OutcomeExact(states, actions, k - 1, id, o);
      OutcomeStep(states, actions, k - 1, id, o);
      if Decides(states, actions, k - 1, id, o) { assert 0 <= k - 1 < k; }
    } else {
      NewIsUntouched(states[k - 1], actions[k - 1]);
      NoOutcome(states[k].calls[id], o);
      NobodyBefore(states, actions, k - 1, id);
      UndecidedBefore(states, actions, k, id, o);
    }
  }

  lemma UndecidedBefore(states: seq<Router>, actions: seq<Action>, k: nat, id: nat, o: Outcome)
    requires IsRun(states, actions) && k <= |actions| && forall j :: 0 <= j < k ==> id >= |states[j].calls|
    ensures !DecidedIn(states, actions, k, id, o)
  {
    hide Apply, Can, EnvelopedIn, FirstClaim;
    forall j | 0 <= j < k ensures !Decides(states, actions, j, id, o) {
      assert Enabled(states[j], actions[j]);
    }
  }

  /** What `Settle` returns, on its own. */
  lemma SettleExact(states: seq<Router>, actions: seq<Action>, k: nat, id: nat, view: EnvelopeView, m: Message)
    requires IsRun(states, actions) && k < |actions| && actions[k] == Local(id, Settle(view))
    requires FirstClaim(actions, k, id) == Some(Reply(m))
    ensures id < |states[k + 1].calls|
    ensures var c := states[k + 1].calls[id];
      && (Returns(c, Completed(m)) <==> !EnvelopedIn(states, actions, k, id) || view.Ok?)
      && (Returns(c, Undecodable(m)) <==> EnvelopedIn(states, actions, k, id) && view.Malformed?)
      && (Returns(c, ErrorEnvelope(m)) <==> EnvelopedIn(states, actions, k, id) && view.NotOk?)
      && (Returns(c, Completed(m)) || Returns(c, Undecodable(m)) || Returns(c, ErrorEnvelope(m)))
  {
    hide Apply, Enabled, Returns, EnvelopedIn, FirstClaim;
    OutcomeOnSettle(states, actions, k, id, view, Completed(m));
    OutcomeOnSettle(states, actions, k, id, view, Undecodable(m));
    OutcomeOnSettle(states, actions, k, id, view, ErrorEnvelope(m));
  }

  // ----- deliveries -----

  lemma InboxDoes(s: Router, id: nat, m: Message)
    requires Registered(s) && id < |s.calls|
    ensures var s' := Apply(s, Inbox(m));
      && |s'.calls| == |s.calls| && s'.pending == s.pending
      && s'.calls[id] == (if Selects(s, m, id) then Deliver(s.calls[id], m) else s.calls[id])
      && s'.unmatched == s.unmatched + (if m.cid.Some? && m.cid.value in s.pending then 0 else 1)
      && (Selects(s, m, id) ==>
            s'.metrics == if m.done || s.calls[id].streaming then s.metrics
                          else s.metrics.(dropped := s.metrics.dropped + 1))
  {
    hide Deliver, After, Can, NewCall, Opening, Bump;
  }

  /** What a message does when it meets its call in the table, and when it does not.  Nothing else of the
      router changes, and no other call. */
  lemma DeliveryExact(states: seq<Router>, actions: seq<Action>, k: nat, id: nat, m: Message)
    requires IsRun(states, actions) && k < |actions| && actions[k] == Inbox(m) && id < |states[k].calls|
    ensures var s, s' := states[k], states[k + 1];
      && |s'.calls| == |s.calls| && s'.pending == s.pending
      && var c, d := s.calls[id], s'.calls[id];
      if m.cid == Some(id) && id in s.pending then
        && s'.unmatched == s.unmatched
        && (m.done ==>
              && d == c.(requests := c.requests + {Reply(m)}, envelope := c.envelope || m.envelope)
              && s'.metrics == s.metrics)
        && (!m.done && c.streaming ==> d.waiting == c.waiting + [m] && s'.metrics == s.metrics)
        && (!m.done && !c.streaming ==>
              d.waiting == c.waiting && s'.metrics == s.metrics.(dropped := s.metrics.dropped + 1))
        && (!m.done ==> d.requests == c.requests && d.envelope == c.envelope && d.matched == c.matched + 1)
      else
        d == c
    ensures states[k + 1].unmatched == states[k].unmatched
      + if m.cid.Some? && m.cid.value in states[k].pending then 0 else 1
  {
    hide Apply, Deliver;
    InvAlways(states, actions, k);
    InboxDoes(states[k], id, m);
    DeliveryFrame(states[k].calls[id], m);
    hide Inv, EachCall, Registered, CloserOk;
    assert !m.done ==> states[k].calls[id].requests + {} == states[k].calls[id].requests;
    assert states[k].calls[id].waiting + [] == states[k].calls[id].waiting;
  }

  /** A failure event takes its call out of the table and gives it a result to return. */
  lemma FailureExact(states: seq<Router>, actions: seq<Action>, k: nat, id: nat, m: Message)
    requires IsRun(states, actions) && k < |actions| && actions[k] == Failure(m) && id < |states[k].calls|
    ensures var s, s' := states[k], states[k + 1];
      && |s'.calls| == |s.calls| && s'.metrics == s.metrics && s'.unmatched == s.unmatched
      && var c, d := s.calls[id], s'.calls[id];
      if m.cid == Some(id) && id in s.pending then
        s'.pending == s.pending - {id} && d == c.(requests := c.requests + {HandlerExhausted(m)})
      else
        d == c && (id in s.pending ==> id in s'.pending)
  {
    hide CallInv, Total, CloserOk, After, Can, NewCall, Opening;
    InvAlways(states, actions, k);
    CallAfterMessage(states[k], actions[k], id);
  }

  // ----- a result gets through -----

  /** The steps can be taken one after the other. */
  predicate CanAll(c: Call, ts: seq<Step>)
    decreases |ts|
  {
    ts == [] || (Can(c, ts[0]) && CanAll(After(c, ts[0]), ts[1..]))
  }

  function AfterAll(c: Call, ts: seq<Step>): Call
    requires CanAll(c, ts)
    decreases |ts|
  {
    if ts == [] then c else AfterAll(After(c, ts[0]), ts[1..])
  }

  lemma TakeFirst(c: Call, t: Step, ts: seq<Step>)
    requires Can(c, t) && CanAll(After(c, t), ts)
    ensures CanAll(c, [t] + ts) && AfterAll(c, [t] + ts) == AfterAll(After(c, t), ts)
  {
    hide Can, After;
    assert ([t] + ts)[1..] == ts;
  }

  function LocalsOf(id: nat, ts: seq<Step>): seq<Action> { seq(|ts|, i requires 0 <= i < |ts| => Local(id, ts[i])) }

  /** A run goes on by any steps that one of its calls can take. */
  lemma {:induction false} RunGoesOn(states: seq<Router>, actions: seq<Action>, id: nat, ts: seq<Step>)
    returns (later: seq<Router>)
    requires IsRun(states, actions) && id < |states[|actions|].calls| && CanAll(states[|actions|].calls[id], ts)
    ensures IsRun(states + later, actions + LocalsOf(id, ts))
    ensures var s := (states + later)[|actions| + |ts|];
      id < |s.calls| && s.calls[id] == AfterAll(states[|actions|].calls[id], ts)
    decreases |ts|
  {
    hide IsRun, Can, After;
    RunIsLong(states, actions);
    if ts == [] {
      later := [];
      assert states + later == states && actions + LocalsOf(id, ts) == actions;
    } else {
      var s := OneMoreStep(states, actions, id, ts[0]);
      assert (states + [s])[|actions + [Local(id, ts[0])]|] == s;
      var rest := RunGoesOn(states + [s], actions + [Local(id, ts[0])], id, ts[1..]);
      later := [s] + rest;
      assert states + [s] + rest == states + later;
      assert LocalsOf(id, ts) == [Local(id, ts[0])] + LocalsOf(id, ts[1..]);
      assert actions + [Local(id, ts[0])] + LocalsOf(id, ts[1..]) == actions + LocalsOf(id, ts);
    }
  }

  lemma RunIsLong(states: seq<Router>, actions: seq<Action>)
    requires IsRun(states, actions)
    ensures |states| == |actions| + 1
  {
    hide Apply, Enabled;
  }

  /** A run goes on by any enabled step of a call. */
  lemma OneMoreStep(states: seq<Router>, actions: seq<Action>, id: nat, t: Step) returns (s': Router)
    requires IsRun(states, actions)
    requires var s := states[|actions|]; id < |s.calls| && Can(s.calls[id], t)
    ensures IsRun(states + [s'], actions + [Local(id, t)])
    ensures id < |s'.calls| && s'.calls[id] == After(states[|actions|].calls[id], t)
  {
    hide Can, After, Bump;
    var s, a := states[|actions|], Local(id, t);
    assert Enabled(s, a);
    s' := Apply(s, a);
    RunGrows(states, actions, a);
  }

  lemma RunGrows(states: seq<Router>, actions: seq<Action>, a: Action)
    requires IsRun(states, actions) && Enabled(states[|actions|], a)
    ensures IsRun(states + [Apply(states[|actions|], a)], actions + [a])
  {
    hide Apply, Enabled;
    var more, longer := states + [Apply(states[|actions|], a)], actions + [a];
    forall k | 0 <= k < |longer| ensures Enabled(more[k], longer[k]) && more[k + 1] == Apply(more[k], longer[k]) {
      if k < |actions| { assert longer[k] == actions[k] && more[k] == states[k]; }
    }
  }

  /** The call waits on `done`, nobody has claimed it and nobody holds `sendMu`, and its drain, if it
      has one, is in its loop. */
  ghost predicate Awaiting(c: Call) {
    && c.pc.Waiting? && c.once.Idle? && c.done.None? && c.sender.Unlocked? && !c.streamClosed && !c.finalized
    && (if c.streaming then c.drain.Receiving? || c.drain.Handling? else c.drain.NoDrain?)
  }

  /** What the steps on the way to `Caller.Call` leave alone. */
  ghost predicate OnTheWay(c: Call, d: Call) {
    && d.sender == c.sender && d.streaming == c.streaming && d.envelope == c.envelope && d.drain == c.drain
    && d.buf == c.buf
  }

  lemma ClaimDoes(c: Call, r: Result)
    requires Awaiting(c) && r in c.requests
    ensures Can(c, Claim(r))
    ensures var d := After(c, Claim(r)); d.once == Claimed(r) && d.done.None? && d.pc == c.pc && OnTheWay(c, d)
  {
    hide Bump, NextOfCaller, NextOfSender, NextOfDrain;
  }

  lemma CloseDoes(c: Call, r: Result)
    requires c.once == Claimed(r) && c.sender.Unlocked?
    ensures Can(c, CloseStream)
    ensures var d := After(c, CloseStream);
      d.once == Closing(r) && d.done == c.done && d.pc == c.pc && d.streamClosed == c.streaming && OnTheWay(c, d)
  {
    hide Bump, NextOfCaller, NextOfSender, NextOfDrain;
  }

  lemma FireDoes(c: Call, r: Result)
    requires c.once == Closing(r) && c.done.None?
    ensures Can(c, Fire)
    ensures var d := After(c, Fire);
      d.done == Some(r) && d.pc == c.pc && d.streamClosed == c.streamClosed && OnTheWay(c, d)
  {
    hide Bump, NextOfCaller, NextOfSender, NextOfDrain;
  }

  lemma ReceiveDoes(c: Call)
    requires c.pc.Waiting? && c.done.Some?
    ensures Can(c, Receive)
    ensures var r, d := c.done.value, After(c, Receive);
      && d.pc == (if r.Reply? then Settling(r.msg) else Returned(Failed(r)))
      && d.streamClosed == c.streamClosed && OnTheWay(c, d)
  {
    assert Can(c, Receive) && OfCaller(Receive);
    hide Can, After;
    ReceiveReturns(c);
    FrameOfCaller(c, Receive);
  }

  /** The drain handles a chunk, or goes back to its loop. */
  lemma DrainDoes(c: Call, t: Step)
    requires (c.drain.Receiving? && c.buf != [] && t.Take?) || (c.drain.Handling? && t.HandlerSucceeds?)
    ensures Can(c, t)
    ensures var d := After(c, t);
      && d.pc == c.pc && d.streaming == c.streaming && d.envelope == c.envelope && d.streamClosed == c.streamClosed
      && d.drain == (if t.Take? then Handling else Receiving) && d.buf == (if t.Take? then c.buf[1..] else c.buf)
  {
    hide Bump, NextOfCaller, NextOfSender, NextOfOnce;
  }

  lemma LeaveDoes(c: Call, t: Step)
    requires
      || (t.LeaveLoop? && c.drain.Receiving? && c.buf == [] && c.streamClosed)
      || (t.LeaveActive? && c.drain.Exiting?)
      || (t.LeaveGroup? && c.drain.LeftActive?)
      || (t.SignalDrained? && c.drain.LeftGroup?)
    ensures Can(c, t)
    ensures var d := After(c, t);
      && d.pc == c.pc && d.streaming == c.streaming && d.envelope == c.envelope
      && d.drain == (if t.LeaveLoop? then Exiting else if t.LeaveActive? then LeftActive
                     else if t.LeaveGroup? then LeftGroup else Ended)
  {
    assert Can(c, t) && OfDrain(t);
    FrameOfDrain(c, t);
    DrainMoves(c, t);
    hide Bump, Next, NextOfCaller, NextOfSender, NextOfOnce, NextOfDrain, Can;
  }

  lemma DrainMoves(c: Call, t: Step)
    requires Can(c, t) && (t.LeaveLoop? || t.LeaveActive? || t.LeaveGroup? || t.SignalDrained?)
    ensures After(c, t).drain == (if t.LeaveLoop? then Exiting else if t.LeaveActive? then LeftActive
                                  else if t.LeaveGroup? then LeftGroup else Ended)
  {
    hide Bump, NextOfCaller, NextOfSender, NextOfOnce;
    var d := NextOfDrain(c, t);
    assert After(c, t).drain == d.drain;
    hide After, Next, Can;
  }

  lemma CanSettle(c: Call, view: EnvelopeView)
    requires c.pc.Settling? && (c.streaming ==> c.drain.Ended?)
    ensures Can(c, Settle(view))
  {
  }

  /** What `Settle` returns for `m`. */
  function Settled(c: Call, m: Message, view: EnvelopeView): Outcome {
    if view.Ok? || !c.envelope then Completed(m) else if view.Malformed? then Undecodable(m) else ErrorEnvelope(m)
  }

  /** With the stream closed, the drain can handle what is buffered and end, and then the reply is
      returned. */
  lemma {:induction false} DrainsAndSettles(c: Call, view: EnvelopeView) returns (ts: seq<Step>)
    requires c.pc.Settling? && c.streaming && c.streamClosed && (c.drain.Receiving? || c.drain.Handling?)
    ensures CanAll(c, ts) && AfterAll(c, ts).pc == Returned(Settled(c, c.pc.msg, view))
    decreases |c.buf|, if c.drain.Handling? then 1 else 0
  {
    hide Can, After;
    if c.drain.Handling? {
      DrainDoes(c, HandlerSucceeds);
      var rest := DrainsAndSettles(After(c, HandlerSucceeds), view);
      TakeFirst(c, HandlerSucceeds, rest);
      ts := [HandlerSucceeds] + rest;
    } else if c.buf != [] {
      DrainDoes(c, Take);
      var rest := DrainsAndSettles(After(c, Take), view);
      TakeFirst(c, Take, rest);
      ts := [Take] + rest;
    } else {
      LeaveDoes(c, LeaveLoop);
      var c1 := After(c, LeaveLoop);
      LeaveDoes(c1, LeaveActive);
      var c2 := After(c1, LeaveActive);
      LeaveDoes(c2, LeaveGroup);
      var c3 := After(c2, LeaveGroup);
      LeaveDoes(c3, SignalDrained);
      var c4 := After(c3, SignalDrained);
      JustSettles(c4, view);
      TakeFirst(c3, SignalDrained, [Settle(view)]);
      TakeFirst(c2, LeaveGroup, [SignalDrained] + [Settle(view)]);
      TakeFirst(c1, LeaveActive, [LeaveGroup] + ([SignalDrained] + [Settle(view)]));
      TakeFirst(c, LeaveLoop, [LeaveActive] + ([LeaveGroup] + ([SignalDrained] + [Settle(view)])));
      ts := [LeaveLoop] + ([LeaveActive] + ([LeaveGroup] + ([SignalDrained] + [Settle(view)])));
    }
  }

  lemma JustSettles(c: Call, view: EnvelopeView)
    requires c.pc.Settling? && (c.streaming ==> c.drain.Ended?)
    ensures CanAll(c, [Settle(view)]) && AfterAll(c, [Settle(view)]).pc == Returned(Settled(c, c.pc.msg, view))
  {
    hide Can, After;
    CanSettle(c, view);
    SettleReturns(c, view);
    assert [Settle(view)][1..] == [] && CanAll(After(c, Settle(view)), []);
  }

  /** Any result that some party is passing can be the one that the call returns. */
  lemma ResultGetsThrough(c: Call, r: Result, view: EnvelopeView) returns (ts: seq<Step>)
    requires Awaiting(c) && r in c.requests
    ensures CanAll(c, ts)
    ensures AfterAll(c, ts).pc == Returned(if r.Reply? then Settled(c, r.msg, view) else Failed(r))
  {
    hide Can, After;
    ClaimDoes(c, r);
    var claimed := After(c, Claim(r));
    CloseDoes(claimed, r);
    var closed := After(claimed, CloseStream);
    FireDoes(closed, r);
    var fired := After(closed, Fire);
    ReceiveDoes(fired);
    var received := After(fired, Receive);
    var rest: seq<Step> := [];
    if r.Reply? {
      if c.streaming {
        rest := DrainsAndSettles(received, view);
      } else {
        rest := [Settle(view)];
        JustSettles(received, view);
      }
    }
    TakeFirst(fired, Receive, rest);
    TakeFirst(closed, Fire, [Receive] + rest);
    TakeFirst(claimed, CloseStream, [Fire] + ([Receive] + rest));
    TakeFirst(c, Claim(r), [CloseStream] + ([Fire] + ([Receive] + rest)));
    ts := [Claim(r)] + ([CloseStream] + ([Fire] + ([Receive] + rest)));
  }

  /** From any reachable state in which a call in the table waits and nothing has claimed it, a terminal
      message with its id can arrive and be what it returns, after its drain has handled every chunk that
      is buffered. */
  lemma ReplyGetsThrough(states: seq<Router>, actions: seq<Action>, id: nat, m: Message, view: EnvelopeView)
    returns (ts: seq<Step>, later: seq<Router>)
    requires IsRun(states, actions) && id in states[|actions|].pending && id < |states[|actions|].calls|
    requires Awaiting(states[|actions|].calls[id]) && m.done && m.cid == Some(id)
    ensures IsRun(states + later, actions + [Inbox(m)] + LocalsOf(id, ts))
    ensures var s := (states + later)[|actions| + 1 + |ts|];
      && id < |s.calls|
      && s.calls[id].pc == Returned(
           if view.Ok? || !(states[|actions|].calls[id].envelope || m.envelope) then Completed(m)
           else if view.Malformed? then Undecodable(m) else ErrorEnvelope(m))
  {
    hide Apply, Enabled, IsRun, Awaiting, AfterAll, CanAll;
    RunIsLong(states, actions);
    var s := ReplyArrives(states, actions, id, m);
    ts := ResultGetsThrough(s.calls[id], Reply(m), view);
    assert (states + [s])[|actions + [Inbox(m)]|] == s;
    var rest := RunGoesOn(states + [s], actions + [Inbox(m)], id, ts);
    later := [s] + rest;
    assert states + [s] + rest == states + later;
  }

  lemma ReplyArrives(states: seq<Router>, actions: seq<Action>, id: nat, m: Message) returns (s': Router)
    requires IsRun(states, actions) && id in states[|actions|].pending && id < |states[|actions|].calls|
    requires Awaiting(states[|actions|].calls[id]) && m.done && m.cid == Some(id)
    ensures IsRun(states + [s'], actions + [Inbox(m)])
    ensures id < |s'.calls| && Awaiting(s'.calls[id]) && Reply(m) in s'.calls[id].requests
    ensures s'.calls[id].envelope == (states[|actions|].calls[id].envelope || m.envelope)
  {
    hide Deliver, CallInv, Total, CloserOk;
    var s := states[|actions|];
    InvAlways(states, actions, |actions|);
    assert Enabled(s, Inbox(m));
    s' := Apply(s, Inbox(m));
    CallAfterIs(s, Inbox(m), id);
    DeliveryFrame(s.calls[id], m);
    RunGrows(states, actions, Inbox(m));
  }

  // ----- arrivals -----

  /** The chunk that the action brings to streaming call `id`. */
  function ChunkOf(s: Router, a: Action, id: nat): seq<Message> {
    if a.Inbox? && !a.msg.done && Selects(s, a.msg, id) && id < |s.calls| && s.calls[id].streaming then [a.msg] else []
  }

  /** The chunks that met streaming call `id` in the table, in the order in which they came. */
  ghost function ChunksFor(states: seq<Router>, actions: seq<Action>, k: nat, id: nat): seq<Message>
    requires k <= |actions| && |states| == |actions| + 1
  {
    if k == 0 then []
    else ChunksFor(states, actions, k - 1, id) + ChunkOf(states[k - 1], actions[k - 1], id)
  }

  lemma OthersWait(c: Call, t: Step)
    requires Can(c, t) && !t.Lock?
    ensures After(c, t).waiting == c.waiting && After(c, t).arrived == c.arrived && After(c, t).matched == c.matched
  {
    hide Can, Next, Bump, After;
    if OfCaller(t) {
      FrameOfCaller(c, t);
    } else if OfSender(t) {
      OtherSendersWait(c, t);
    } else if OfOnce(t) {
      FrameOfOnce(c, t);
    } else {
      FrameOfDrain(c, t);
    }
  }

  lemma OtherSendersWait(c: Call, t: Step)
    requires Can(c, t) && OfSender(t) && !t.Lock?
    ensures After(c, t).waiting == c.waiting && After(c, t).arrived == c.arrived && After(c, t).matched == c.matched
  {
    FrameOfSender(c, t);
    hide Bump, NextOfCaller, NextOfOnce, NextOfDrain, NextOfSender, Can;
    WaitsInNext(c, t);
  }

  lemma WaitsInNext(c: Call, t: Step)
    requires Can(c, t) && OfSender(t) && !t.Lock?
    ensures NextOfSender(c, t).waiting == c.waiting && NextOfSender(c, t).arrived == c.arrived
  {
    match t
    case Push => assert Can(c, Push);
    case Evict =>
    case GiveUp =>
    case DropIncoming =>
    case FindFull =>
    case Overflow =>
    case OverflowReturns =>
  }

  lemma LockTakesOne(c: Call, k: nat)
    requires Can(c, Lock(k))
    ensures var d := After(c, Lock(k));
      && multiset(d.waiting) + multiset{c.waiting[k]} == multiset(c.waiting) && d.matched == c.matched
      && d.arrived == if c.finalized then c.arrived else c.arrived + [c.waiting[k]]
  {
    hide Bump, NextOfCaller, NextOfOnce, NextOfDrain;
    assert c.waiting == c.waiting[..k] + [c.waiting[k]] + c.waiting[k + 1..];
  }

  /** Every chunk that met the call is one of those still waiting for `sendMu`, one of those that got it
      in time, or came too late; and no other is. */
  ghost predicate AllArrive(c: Call, chunks: seq<Message>) {
    && multiset(c.waiting) + multiset(c.arrived) <= multiset(chunks)
    && |c.waiting| + |c.arrived| <= |chunks|
    && (!c.finalized ==> |c.waiting| + |c.arrived| == |chunks|)
  }

  lemma ArriveByStep(c: Call, t: Step, chunks: seq<Message>)
    requires Can(c, t) && AllArrive(c, chunks)
    ensures AllArrive(After(c, t), chunks)
  {
    hide Can, Next, Bump, After;
    StaysFinalized(c, t);
    if t.Lock? {
      LockCan(c, t.k);
      LockTakesOne(c, t.k);
      assert |After(c, t).waiting| == |multiset(After(c, t).waiting)| && |c.waiting| == |multiset(c.waiting)|;
    } else {
      OthersWait(c, t);
    }
  }

  lemma LockCan(c: Call, k: nat)
    requires Can(c, Lock(k))
    ensures k < |c.waiting|
  {
  }

  lemma StaysFinalized(c: Call, t: Step)
    requires Can(c, t)
    ensures c.finalized ==> After(c, t).finalized
  {
    hide Next, Bump, After;
    if OfCaller(t) {
      FrameOfCaller(c, t);
    } else if OfSender(t) {
      FrameOfSender(c, t);
    } else if OfOnce(t) {
      StaysFinalizedByOnce(c, t);
    } else {
      FrameOfDrain(c, t);
    }
  }

  lemma StaysFinalizedByOnce(c: Call, t: Step)
    requires Can(c, t) && OfOnce(t)
    ensures c.finalized ==> After(c, t).finalized
  {
    hide Bump, NextOfCaller, NextOfSender, NextOfDrain;
    var d := NextOfOnce(c, t);
    assert After(c, t).finalized == d.finalized;
    hide After, Next, Can;
  }

  lemma ArriveElsewhere(s: Router, a: Action, id: nat, chunks: seq<Message>)
    requires Enabled(s, a) && id < |s.calls| && !(a.Local? && a.id == id) && AllArrive(s.calls[id], chunks)
    ensures AllArrive(CallAfter(s, a, id), chunks + ChunkOf(s, a, id))
  {
    hide Can, After, Deliver;
    var c := s.calls[id];
    if a.Inbox? { DeliveryFrame(c, a.msg); }
    if a.Inbox? && !a.msg.done && Selects(s, a.msg, id) && c.streaming {
      assert multiset(c.waiting + [a.msg]) == multiset(c.waiting) + multiset{a.msg};
      assert multiset(chunks + [a.msg]) == multiset(chunks) + multiset{a.msg};
    } else {
      assert chunks + [] == chunks;
    }
  }

  /** What gets into `enqueue` are exactly the chunks that met the call, each once: all of them as long
      as the call is not finalized, and after that without those that came too late. */
  lemma {:induction false} ArrivalsExact(states: seq<Router>, actions: seq<Action>, k: nat, id: nat)
    requires IsRun(states, actions) && k < |states| && id < |states[k].calls|
    ensures AllArrive(states[k].calls[id], ChunksFor(states, actions, k, id))
    decreases k
  {
    hide Apply, Enabled, AllArrive, ChunkOf;
    if k == 0 {
      NobodyAtFirst();
    } else {
      var s, a := states[k - 1], actions[k - 1];
      InvAlways(states, actions, k - 1);
      if id < |s.calls| {
        ArrivalsExact(states, actions, k - 1, id);
        ArriveStep(s, a, id, ChunksFor(states, actions, k - 1, id));
      } else {
        NobodyBefore(states, actions, k - 1, id);
        NoChunksBefore(states, actions, k, id);
        NewHasNoChunks(s, a);
      }
    }
  }

  lemma ArriveStep(s: Router, a: Action, id: nat, chunks: seq<Message>)
    requires Enabled(s, a) && Registered(s) && id < |s.calls| && AllArrive(s.calls[id], chunks)
    ensures id < |Apply(s, a).calls| && AllArrive(Apply(s, a).calls[id], chunks + ChunkOf(s, a, id))
  {
    hide Apply, Enabled, AllArrive, Can, After;
    CallAfterIs(s, a, id);
    if a.Local? && a.id == id {
      StepIsEnabled(s, id, a.step);
      ArriveByStep(s.calls[id], a.step, chunks);
      assert chunks + [] == chunks;
    } else {
      ArriveElsewhere(s, a, id, chunks);
    }
  }

  lemma StepIsEnabled(s: Router, id: nat, t: Step)
    requires Enabled(s, Local(id, t))
    ensures id < |s.calls| && Can(s.calls[id], t)
  {
  }

  lemma NewHasNoChunks(s: Router, a: Action)
    requires Enabled(s, a) && |Apply(s, a).calls| > |s.calls|
    ensures |Apply(s, a).calls| == |s.calls| + 1 && AllArrive(Apply(s, a).calls[|s.calls|], [])
  {
    OnlyRegisterAdds(s, a);
  }

  lemma {:induction false} NoChunksBefore(states: seq<Router>, actions: seq<Action>, k: nat, id: nat)
    requires |states| == |actions| + 1 && k <= |actions| && forall j :: 0 <= j < k ==> id >= |states[j].calls|
    ensures ChunksFor(states, actions, k, id) == []
  {
    if k > 0 { NoChunksBefore(states, actions, k - 1, id); }
  }

  // ----- the outcome counters -----

  function Late(c: Call): int {
    One(c.pc == Expiring(Deadline) || (c.pc.HasOutcome() && c.pc.outcome == ContextOver(Deadline)))
  }
  function CalledOff(c: Call): int {
    One(c.pc == Expiring(Cancel) || (c.pc.HasOutcome() && c.pc.outcome == ContextOver(Cancel)))
  }
  function Garbled(c: Call): int { One(c.pc.HasOutcome() && c.pc.outcome.Undecodable?) }
  function FailedByHandler(c: Call): int {
    One(c.pc.HasOutcome() && c.pc.outcome.Failed?
        && (c.pc.outcome.r.HandlerExhausted?
            || (c.pc.outcome.r.StreamHandlerFailed? && c.pc.outcome.r.wrapsHandlerFailed)))
  }
  function HoldsDrain(c: Call): int { One(c.streaming && !c.drain.LeftGroup? && !c.drain.Ended?) }

  lemma {:induction false} CountersOver(calls: seq<Call>)
    requires forall c :: c in calls ==> Accounting(c)
    ensures var t := Total(calls);
      && t.timedOut == Sum(calls, Late) && t.cancelled == Sum(calls, CalledOff) && t.decodeErrs == Sum(calls, Garbled)
      && t.failedFast == Sum(calls, FailedByHandler) && t.drainGroup == Sum(calls, HoldsDrain)
  {
    if calls != [] {
      var rest, c := calls[..|calls| - 1], calls[|calls| - 1];
      assert calls == rest + [c];
      CountersOver(rest);
      assert Accounting(c);
    }
  }

  /** Each outcome counter is the number of calls with that outcome: `TimedOut` and `Cancelled` from the
      moment the end of the context was noticed, `FailedFast` for failure events and handler errors that
      wrap one, `DecodeErrs` for malformed envelopes. */
  lemma CountersExact(states: seq<Router>, actions: seq<Action>, k: nat)
    requires IsRun(states, actions) && k < |states|
    ensures var s := states[k];
      && s.metrics.timedOut == Sum(s.calls, Late) && s.metrics.cancelled == Sum(s.calls, CalledOff)
      && s.metrics.decodeErrs == Sum(s.calls, Garbled) && s.metrics.failedFast == Sum(s.calls, FailedByHandler)
      && s.metrics.drainGroup == Sum(s.calls, HoldsDrain)
  {
    InvAlways(states, actions, k);
    EachInv(states[k]);
    CountersOver(states[k].calls);
  }
}
