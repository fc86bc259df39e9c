/**
  What holds in every run of the router, under every interleaving.
 */
module CallerTheorems {
  import opened Wrappers
  import opened Caller
  import opened CallerInvariants
  import opened CallerRuns

  lemma CallAlways(states: seq<Router>, actions: seq<Action>, k: nat, id: nat)
    requires IsRun(states, actions) && k < |states| && id < |states[k].calls|
    ensures CallInv(SeenBy(states[k]), id, states[k].calls[id])
  {
    InvAlways(states, actions, k);
  }

  // ----- channels -----

  /** No stream channel is closed twice or sent on after its close; `done` is sent on at
      most once and that send finds the slot free; no call returns unfinalized. */
  lemma ChannelSafety(states: seq<Router>, actions: seq<Action>, k: nat, id: nat)
    requires IsRun(states, actions) && k < |states| && id < |states[k].calls|
    ensures var c := states[k].calls[id];
      && !c.panicked
      && c.doneSends <= 1
      && (c.once.Closing? ==> Can(c, Fire) && c.doneSends == 0)
      && (c.sender.InFlight() ==> !c.streamClosed)
      && (c.pc.HasOutcome() ==> c.finalized && c.once.Fired? && (c.streaming ==> c.streamClosed))
  {
    CallAlways(states, actions, k, id);
  }

  // ----- stream content -----

  /** The first `n` arrivals as chunks. */
  function Tagged(arrived: seq<Message>, n: nat): (r: seq<Chunk>)
    requires n <= |arrived|
    ensures |r| == n && forall i :: 0 <= i < n ==> r[i] == Chunk(i, arrived[i])
  {
    seq(n, i requires 0 <= i < n => Chunk(i, arrived[i]))
  }

  /** The chunks the stream handler was called with. */
  function Handed(c: Call): seq<Chunk> {
    if c.failedAt.Some? && 0 <= c.failedAt.value < |c.taken| then c.taken[..c.failedAt.value + 1] else c.taken
  }

  lemma {:induction false} SerialsSpread(s: seq<Chunk>, i: nat, n: int)
    requires Increasing(s) && i < |s| && s[|s| - 1].serial < n
    ensures i <= s[i].serial <= n - |s| + i
    decreases |s|
  {
    if |s| > 1 {
      var front := s[..|s| - 1];
      if i < |s| - 1 {
        SerialsSpread(front, i, s[|s| - 1].serial);
      } else {
        SerialsSpread(front, i - 1, s[|s| - 1].serial);
      }
    }
  }

  lemma GaplessIsTagged(c: Call, n: nat)
    requires Increasing(Passed(c)) && Genuine(Passed(c), c) && n == Admitted(c) && n <= |c.arrived|
    ensures |Passed(c)| == n <==> Passed(c) == Tagged(c.arrived, n)
  {
    var s := Passed(c);
    if |s| == n {
      forall i | 0 <= i < n ensures s[i] == Tagged(c.arrived, n)[i] {
        SerialsSpread(s, i, n);
      }
    }
  }

  /** In every run: what the drain took and then what the channel holds is an in-order,
      repeat-free part of the arrivals, and all of the admitted ones exactly when this call
      lost none.  BufferBlock loses none while its context lives, BufferError none before
      the overflow that ends the call, and under BufferDropOldest the channel is always the
      latest admitted arrivals. */
  lemma StreamContent(states: seq<Router>, actions: seq<Action>, k: nat, id: nat)
    requires IsRun(states, actions) && k < |states| && id < |states[k].calls|
    ensures var c := states[k].calls[id];
      && 0 <= Admitted(c) <= |c.arrived|
      && Increasing(Passed(c)) && Genuine(Passed(c), c)
      && Handed(c) <= c.taken
      && (Passed(c) == Tagged(c.arrived, Admitted(c)) <==> c.lost == 0)
      && (c.policy.Block? && c.ctx.Live? ==> c.lost == 0)
      && (c.policy.Error? && c.tally.overflows == 0 ==> c.lost == 0)
      && (c.policy.Error? && c.tally.overflows != 0 ==> c.lost == 1 && (c.sender.Overflowing? || c.finalized))
      && (c.policy.DropOldest? ==>
            |c.buf| <= Admitted(c) && c.buf == Tagged(c.arrived, Admitted(c))[Admitted(c) - |c.buf|..])
      && |c.buf| <= c.cap
  {
    CallAlways(states, actions, k, id);
    var c := states[k].calls[id];
    GaplessIsTagged(c, Admitted(c));
    if c.policy.DropOldest? {
      SuffixOfTagged(c);
    }
  }

  /** From `c` to `d` a chunk is lost only for the reason its policy gives: BufferBlock because
      the context is over, BufferDropNewest and BufferError because the buffer is full, and
      BufferDropOldest the oldest one, by a sender that has found the buffer full. */
  ghost predicate LossExplained(c: Call, d: Call) {
    && c.lost <= d.lost <= c.lost + 1
    && (d.lost > c.lost ==>
          match c.policy
          case Block => c.ctx.Expired? && d.buf == c.buf
          case DropNewest => |c.buf| >= c.cap && d.buf == c.buf
          case Error => |c.buf| >= c.cap && d.buf == c.buf
          case DropOldest => c.sender.Evicting? && c.buf != [] && d.buf == c.buf[1..])
    && (d.sender.Evicting? && !c.sender.Evicting? ==> |c.buf| >= c.cap)
  }

  lemma LossOnStep(c: Call, t: Step)
    requires Lifecycle(c) && Can(c, t)
    ensures LossExplained(c, After(c, t))
  {
    hide Can, Next, Bump, After, Lifecycle;
    if OfSender(t) {
      LossOnSend(c, t);
    } else if OfCaller(t) {
      FrameOfCaller(c, t);
    } else if OfOnce(t) {
      FrameOfOnce(c, t);
    } else {
      FrameOfDrain(c, t);
    }
  }

  lemma LossOnSend(c: Call, t: Step)
    requires Lifecycle(c) && Can(c, t) && OfSender(t)
    ensures LossExplained(c, After(c, t))
  {
    hide Bump, NextOfCaller, NextOfOnce, NextOfDrain;
  }

  lemma StreamKeptElsewhere(s: Router, a: Action, id: nat)
    requires Enabled(s, a) && id < |s.calls| && !(a.Local? && a.id == id)
    ensures id < |Apply(s, a).calls|
    ensures var c, d := s.calls[id], Apply(s, a).calls[id];
      d.lost == c.lost && d.sender == c.sender
  {
    hide Next, Bump, Can, After, Deliver, NewCall, Lookup, Opening;
    match a
    case Inbox(msg) =>
      DeliveryLosesNothing(s.calls[id], msg);
      assert Apply(s, a).calls[id] == s.calls[id] || Apply(s, a).calls[id] == Deliver(s.calls[id], msg);
    case _ =>
  }

  lemma DeliveryLosesNothing(c: Call, m: Message)
    ensures Deliver(c, m).lost == c.lost && Deliver(c, m).sender == c.sender
  {
  }

  /** In every run, every chunk that is lost is lost for a reason. */
  lemma LossHasCause(states: seq<Router>, actions: seq<Action>, k: nat, id: nat)
    requires IsRun(states, actions) && k < |actions| && id < |states[k].calls|
    ensures id < |states[k + 1].calls| && LossExplained(states[k].calls[id], states[k + 1].calls[id])
  {
    hide Next, Bump, Can, After;
    CallAlways(states, actions, k, id);
    var s, a := states[k], actions[k];
    if a.Local? && a.id == id {
      LossOnStep(s.calls[id], a.step);
    } else {
      StreamKeptElsewhere(s, a, id);
    }
  }

  lemma SuffixOfTagged(c: Call)
    requires Ordering(c) && Suffix(c) && c.lost >= 0
    ensures 0 <= Admitted(c) <= |c.arrived| && |c.buf| <= Admitted(c)
    ensures c.buf == Tagged(c.arrived, Admitted(c))[Admitted(c) - |c.buf|..]
  {
    forall j | 0 <= j < |c.buf| ensures c.buf[j].msg == c.arrived[c.buf[j].serial] {
      assert c.buf[j] == Passed(c)[|c.taken| + j];
    }
  }

  /** A streaming call that returns success has seen its drain end with an empty channel:
      the handler got every admitted chunk that was not evicted, in order, or it failed at
      one chunk and exactly the later ones were discarded. */
  lemma SuccessMeansDrained(states: seq<Router>, actions: seq<Action>, k: nat, id: nat)
    requires IsRun(states, actions) && k < |states| && id < |states[k].calls|
    requires var c := states[k].calls[id];
      c.streaming && c.pc.HasOutcome() && c.pc.outcome.Completed?
    ensures var c := states[k].calls[id];
      && c.drain.Ended? && c.buf == [] && !c.sender.InFlight()
      && Increasing(c.taken) && Genuine(c.taken, c)
      && |c.taken| == |c.arrived| - c.lost
      && (c.failedAt.None? ==> Handed(c) == c.taken && c.tally.delivered == |c.taken|)
      && (c.failedAt.Some? ==>
            && 0 <= c.failedAt.value < |c.taken|
            && |Handed(c)| == c.failedAt.value + 1 && c.tally.delivered == c.failedAt.value)
  {
    CallAlways(states, actions, k, id);
    var c := states[k].calls[id];
    assert Passed(c) == c.taken;
  }

  // ----- conservation -----

  function Sum(calls: seq<Call>, f: Call -> int): int {
    if calls == [] then 0 else Sum(calls[..|calls| - 1], f) + f(calls[|calls| - 1])
  }

  function Matched(c: Call): int { c.matched }
  function InEnqueue(c: Call): int { |c.waiting| + One(c.sender.InFlight()) }
  function Buffered(c: Call): int { |c.buf| }
  function InHandler(c: Call): int { One(c.drain.Handling?) }

  /** Chunks a drain threw away after a handler error, the failing chunk included. */
  function Thrown(c: Call): int {
    if c.failedAt.Some? then |c.taken| - c.failedAt.value else 0
  }

  lemma {:induction false} ConservationOver(calls: seq<Call>)
    requires forall c :: c in calls ==> Lifecycle(c) && Counting(c)
    ensures Sum(calls, Matched) ==
      Total(calls).delivered + Total(calls).dropped + Total(calls).overflows
      + Sum(calls, InEnqueue) + Sum(calls, Buffered) + Sum(calls, InHandler) + Sum(calls, Thrown)
  {
    if calls != [] {
      var rest, c := calls[..|calls| - 1], calls[|calls| - 1];
      assert calls == rest + [c];
      ConservationOver(rest);
      assert Lifecycle(c) && Counting(c);
    }
  }

  lemma EachInv(s: Router)
    requires EachCall(s)
    ensures forall c :: c in s.calls ==> Lifecycle(c) && Counting(c) && Accounting(c)
  {
    forall c | c in s.calls ensures Lifecycle(c) && Counting(c) && Accounting(c) {
      var i :| 0 <= i < |s.calls| && s.calls[i] == c;
      assert CallInv(SeenBy(s), i, s.calls[i]);
    }
  }

  /** Non-terminal messages that `onInbox` matched to a call in the first `k` actions. */
  ghost function MatchedIn(states: seq<Router>, actions: seq<Action>, k: nat): nat
    requires k <= |actions| && |states| == |actions| + 1
  {
    if k == 0 then 0
    else
      var a := actions[k - 1];
      MatchedIn(states, actions, k - 1)
      + (if a.Inbox? && !a.msg.done && Lookup(states[k - 1], a.msg).Some? then 1 else 0)
  }

  lemma {:induction false} SumUpdate(calls: seq<Call>, i: nat, c: Call, f: Call -> int)
    requires i < |calls|
    ensures Sum(calls[i := c], f) == Sum(calls, f) - f(calls[i]) + f(c)
  {
    var n := |calls| - 1;
    if i == n {
      assert calls[i := c][..n] == calls[..n];
    } else {
      SumUpdate(calls[..n], i, c, f);
      assert calls[i := c][..n] == calls[..n][i := c];
    }
  }

  lemma MatchedOnStep(c: Call, t: Step)
    requires Can(c, t)
    ensures After(c, t).matched == c.matched
  {
    hide Can, Next, Bump, After;
    if OfCaller(t) {
      FrameOfCaller(c, t);
    } else if OfSender(t) {
      FrameOfSender(c, t);
    } else if OfOnce(t) {
      FrameOfOnce(c, t);
    } else {
      FrameOfDrain(c, t);
    }
  }

  lemma MatchedGrows(s: Router, a: Action)
    requires Enabled(s, a)
    ensures Sum(Apply(s, a).calls, Matched) == Sum(s.calls, Matched)
      + (if a.Inbox? && !a.msg.done && Lookup(s, a.msg).Some? then 1 else 0)
  {
    var s' := Apply(s, a);
    match a
    case Register(policy, streaming, bufferSize, ctx) =>
      if !s.closed {
        assert s'.calls[..|s.calls|] == s.calls;
      }
    case Inbox(msg) =>
      if Lookup(s, msg).Some? {
        SumUpdate(s.calls, Lookup(s, msg).value, s'.calls[Lookup(s, msg).value], Matched);
      }
    case Failure(msg) =>
      if Lookup(s, msg).Some? {
        SumUpdate(s.calls, Lookup(s, msg).value, s'.calls[Lookup(s, msg).value], Matched);
      }
    case Local(id, t) =>
      MatchedOnStep(s.calls[id], t);
      SumUpdate(s.calls, id, After(s.calls[id], t), Matched);
    case Deregister(id) => SumUpdate(s.calls, id, s'.calls[id], Matched);
    case CloseVisits(id) => SumUpdate(s.calls, id, s'.calls[id], Matched);
    case _ =>
  }

  lemma {:induction false} MatchedIsCounted(states: seq<Router>, actions: seq<Action>, k: nat)
    requires IsRun(states, actions) && k < |states|
    ensures Sum(states[k].calls, Matched) == MatchedIn(states, actions, k)
    decreases k
  {
    if k > 0 {
      MatchedIsCounted(states, actions, k - 1);
      MatchedGrows(states[k - 1], actions[k - 1]);
    }
  }

  /** Chunk conservation: in every reachable state each matched non-terminal message is
      delivered, dropped, the cause of an overflow, on its way through `enqueue`, buffered,
      inside a handler, or was thrown away after a handler error. */
  lemma ChunkConservation(states: seq<Router>, actions: seq<Action>, k: nat)
    requires IsRun(states, actions) && k < |states|
    ensures var s := states[k];
      MatchedIn(states, actions, k) ==
        s.metrics.delivered + s.metrics.dropped + s.metrics.overflows
        + Sum(s.calls, InEnqueue) + Sum(s.calls, Buffered) + Sum(s.calls, InHandler) + Sum(s.calls, Thrown)
  {
    InvAlways(states, actions, k);
    EachInv(states[k]);
    ConservationOver(states[k].calls);
    MatchedIsCounted(states, actions, k);
  }

  // ----- shutdown -----

  /** What stays true from one state of a run to any later one. */
  ghost predicate Onward(s: Router, s': Router) {
    && FiredWithin(s, s')
    && (s.closed ==> s'.closed && |s'.calls| == |s.calls| && s'.pending <= s.pending)
    && (s.closeLeft ==> s'.closeLeft)
    && (s.closeReturnedNil ==> s'.closeReturnedNil)
    && (forall id :: id in s'.pending && id < |s.calls| ==> id in s.pending)
  }

  lemma StepGoesOnward(s: Router, a: Action)
    requires Enabled(s, a) && FiredWithin(s, Apply(s, a))
    ensures Onward(s, Apply(s, a))
  {
  }

  lemma OnwardSelf(s: Router)
    ensures Onward(s, s)
  {
  }

  lemma OnwardTwice(s: Router, s1: Router, s2: Router)
    requires Onward(s, s1) && Onward(s1, s2)
    ensures Onward(s, s2)
  {
  }

  lemma {:induction false} RunsGoOnward(states: seq<Router>, actions: seq<Action>, i: nat, j: nat)
    requires IsRun(states, actions) && i <= j < |states|
    ensures Onward(states[i], states[j])
    decreases j
  {
    hide Onward, Apply, Enabled;
    if i == j {
      OnwardSelf(states[i]);
    } else {
      RunsGoOnward(states, actions, i, j - 1);
      StepFiredOnward(states[j - 1], actions[j - 1]);
      OnwardTwice(states[i], states[j - 1], states[j]);
    }
  }

  lemma StepFiredOnward(s: Router, a: Action)
    requires Enabled(s, a)
    ensures Onward(s, Apply(s, a))
  {
    FiredKept(s, a);
    StepGoesOnward(s, a);
  }

  /** Once some `CloseContext` has left its critical section, no entry and no drain is ever
      created again and every entry still in the table is finalized; once one has returned
      nil, no stream drain is active, then or later. */
  lemma Shutdown(states: seq<Router>, actions: seq<Action>, i: nat, j: nat)
    requires IsRun(states, actions) && i <= j < |states| && states[i].closeLeft
    ensures |states[j].calls| == |states[i].calls| && states[j].pending <= states[i].pending
    ensures forall id :: id in states[i].pending ==>
      id < |states[j].calls| && states[j].calls[id].finalized && states[j].calls[id].once.Fired?
    ensures states[i].closeReturnedNil ==> states[j].metrics.activeDrains == 0
  {
    InvAlways(states, actions, i);
    InvAlways(states, actions, j);
    RunsGoOnward(states, actions, i, j);
    EachInv(states[j]);
    forall id | id in states[i].pending
      ensures id < |states[j].calls| && states[j].calls[id].finalized && states[j].calls[id].once.Fired?
    {
      assert states[j].calls[id] in states[j].calls;
    }
    if states[i].closeReturnedNil {
      DrainGroupOf(states[j].calls);
    }
  }

  // ----- isolation -----

  lemma {:induction false} SeenIsHistory(states: seq<Router>, actions: seq<Action>, k: nat, m: Message)
    requires IsRun(states, actions) && k < |states|
    ensures m in states[k].inbox <==> exists j :: 0 <= j < k && actions[j] == Inbox(m)
    ensures m in states[k].failures <==> exists j :: 0 <= j < k && actions[j] == Failure(m)
    decreases k
  {
    if k > 0 {
      SeenIsHistory(states, actions, k - 1, m);
      SeenAfter(states[k - 1], actions[k - 1]);
      if actions[k - 1] == Inbox(m) || actions[k - 1] == Failure(m) {
        assert 0 <= k - 1 < k;
      }
    }
  }

  lemma SeenAfter(s: Router, a: Action)
    requires Enabled(s, a)
    ensures Apply(s, a).inbox == s.inbox + (if a.Inbox? then {a.msg} else {})
    ensures Apply(s, a).failures == s.failures + (if a.Failure? then {a.msg} else {})
  {
  }

  /** A call on its way out because its publish failed. */
  predicate PublishHasFailed(c: Call) {
    c.pc.Aborting? || (c.pc.HasOutcome() && c.pc.outcome.NotPublished?)
  }

  lemma {:induction false} PublishFailedInRun(states: seq<Router>, actions: seq<Action>, k: nat, id: nat)
    requires IsRun(states, actions) && k < |states| && id < |states[k].calls| && PublishHasFailed(states[k].calls[id])
    ensures exists j :: 0 <= j < k && actions[j] == Local(id, PublishFails)
    decreases k
  {
    hide Apply, Enabled, PublishHasFailed;
    if k == 0 {
      NobodyAtFirst();
    } else {
      PublishFailsOnce(states[k - 1], actions[k - 1], id);
      if actions[k - 1] != Local(id, PublishFails) {
        PublishFailedInRun(states, actions, k - 1, id);
      }
    }
  }

  lemma NobodyAtFirst()
    ensures INITIAL.calls == []
  {
  }

  /** Only a failing publish puts a call on that way. */
  lemma PublishFailsOnce(s: Router, a: Action, id: nat)
    requires Enabled(s, a) && id < |Apply(s, a).calls| && PublishHasFailed(Apply(s, a).calls[id])
    ensures a == Local(id, PublishFails) || (id < |s.calls| && PublishHasFailed(s.calls[id]))
  {
    hide Next, Bump, Can, After, Deliver, Lookup, Opening;
    match a
    case Local(i, t) => if i == id { PublishFailsByStep(s.calls[id], t); }
    case Inbox(msg) => if id < |s.calls| { DeliveryKeepsPc(s.calls[id], msg); }
    case _ =>
  }

  lemma PublishFailsByStep(c: Call, t: Step)
    requires Can(c, t) && PublishHasFailed(After(c, t))
    ensures t.PublishFails? || PublishHasFailed(c)
  {
    hide Can, Next, Bump, After;
    if OfCaller(t) {
      PublishFailsByCaller(c, t);
    } else if OfSender(t) {
      FrameOfSender(c, t);
    } else if OfOnce(t) {
      FrameOfOnce(c, t);
    } else {
      FrameOfDrain(c, t);
    }
  }

  lemma PublishFailsByCaller(c: Call, t: Step)
    requires Can(c, t) && OfCaller(t) && PublishHasFailed(After(c, t))
    ensures t.PublishFails? || PublishHasFailed(c)
  {
    hide Bump, NextOfSender, NextOfOnce, NextOfDrain, WrapsHandlerFailed;
  }

  lemma DeliveryKeepsPc(c: Call, m: Message)
    ensures Deliver(c, m).pc == c.pc
  {
  }

  /** A terminal message with this id that has been delivered. */
  ghost predicate OwnReply(actions: seq<Action>, k: nat, id: nat, m: Message)
    requires k <= |actions|
  {
    m.done && m.cid == Some(id) && exists j :: 0 <= j < k && actions[j] == Inbox(m)
  }

  /** The outcome of a call comes from a message delivered under its own id, from its own
      context, handler, buffer or publish, or from the router's close. */
  lemma OutcomeIsOwn(states: seq<Router>, actions: seq<Action>, k: nat, id: nat)
    requires IsRun(states, actions) && k < |states| && id < |states[k].calls|
    requires states[k].calls[id].pc.HasOutcome()
    ensures var c := states[k].calls[id];
      match c.pc.outcome
      case Completed(m) => OwnReply(actions, k, id, m)
      case Undecodable(m) => OwnReply(actions, k, id, m)
      case ErrorEnvelope(m) => OwnReply(actions, k, id, m)
      case ContextOver(why) => c.ctx == Expired(why)
      case NotPublished => exists j :: 0 <= j < k && actions[j] == Local(id, PublishFails)
      case Failed(Reply(_)) => false
      case Failed(HandlerExhausted(m)) => m.cid == Some(id) && exists j :: 0 <= j < k && actions[j] == Failure(m)
      case Failed(StreamHandlerFailed(_)) => c.failedAt.Some?
      case Failed(Overflowed) => c.policy.Error? && c.tally.overflows == 1
      case Failed(ContextEnded(why)) => c.ctx == Expired(why)
      case Failed(PublishFailed) => false
      case Failed(CallerClosed) => states[k].closed
  {
    CallAlways(states, actions, k, id);
    var c := states[k].calls[id];
    match c.pc.outcome
    case Completed(m) => SeenIsHistory(states, actions, k, m);
    case Undecodable(m) => SeenIsHistory(states, actions, k, m);
    case ErrorEnvelope(m) => SeenIsHistory(states, actions, k, m);
    case NotPublished => PublishFailedInRun(states, actions, k, id);
    case Failed(HandlerExhausted(m)) => SeenIsHistory(states, actions, k, m);
    case _ =>
  }

  /** A message for a call that has left the table, however long ago, changes nothing but
      `Unmatched`; a failure event for it changes nothing. */
  lemma LateMessagesAreInert(states: seq<Router>, actions: seq<Action>, i: nat, j: nat, id: nat, m: Message)
    requires IsRun(states, actions) && i <= j < |actions|
    requires id < |states[i].calls| && id !in states[i].pending && m.cid == Some(id)
    ensures actions[j] == Inbox(m) ==>
      states[j + 1] == states[j].(unmatched := states[j].unmatched + 1, inbox := states[j].inbox + {m})
    ensures actions[j] == Failure(m) ==>
      states[j + 1] == states[j].(failures := states[j].failures + {m})
  {
    RunsGoOnward(states, actions, i, j);
    assert id !in states[j].pending;
  }

  // ----- outcome accounting -----

  function NotGone(c: Call): int { One(!c.pc.Gone?) }
  function Succeeded(c: Call): int { One(c.pc.HasOutcome() && c.pc.outcome.Completed?) }

  lemma {:induction false} AccountingOver(calls: seq<Call>)
    requires forall c :: c in calls ==> Accounting(c)
    ensures Total(calls).inflight == Sum(calls, NotGone)
    ensures Total(calls).completed == Sum(calls, Succeeded)
  {
    if calls != [] {
      var rest, c := calls[..|calls| - 1], calls[|calls| - 1];
      assert calls == rest + [c];
      AccountingOver(rest);
      assert Accounting(c);
    }
  }

  /** `Inflight` is the number of calls not yet past their deferred decrement, the table
      holds only such calls, `Completed` is the number of calls that returned a nil error,
      and no call bumps two outcome counters or one of them twice. */
  lemma OutcomeAccounting(states: seq<Router>, actions: seq<Action>, k: nat)
    requires IsRun(states, actions) && k < |states|
    ensures var s := states[k];
      && s.metrics == Total(s.calls)
      && s.metrics.inflight == Sum(s.calls, NotGone)
      && s.metrics.completed == Sum(s.calls, Succeeded)
      && (forall id :: id in s.pending ==> id < |s.calls| && NotGone(s.calls[id]) == 1)
      && (forall c :: c in s.calls ==>
            && c.tally.completed + c.tally.timedOut + c.tally.cancelled + c.tally.failedFast + c.tally.decodeErrs <= 1
            && c.tally.completed >= 0 && c.tally.timedOut >= 0 && c.tally.cancelled >= 0
            && c.tally.failedFast >= 0 && c.tally.decodeErrs >= 0)
  {
    InvAlways(states, actions, k);
    EachInv(states[k]);
    AccountingOver(states[k].calls);
    forall c | c in states[k].calls
      ensures c.tally.completed + c.tally.timedOut + c.tally.cancelled + c.tally.failedFast + c.tally.decodeErrs <= 1
    {
      assert Accounting(c);
    }
  }
}
