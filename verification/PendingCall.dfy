/**
  The methods of `pendingCall` as the program writes them, each run without interruption, and
  shown to be a sequence of the router's steps: whatever holds in every run of the router holds
  of them.
 */
module PendingCalls {
  import opened Wrappers
  import opened Caller
  import opened CallerInvariants

  /** What happens to a call: one of its goroutines takes a step, a chunk is handed to it, or a
      party asks for its end. */
  datatype Event = Stepped(step: Step) | Arrived(msg: Message) | Asked(r: Result)

  /** The call after `events`, if each of them is possible when its turn comes. */
  function Replay(c: Call, events: seq<Event>): Option<Call> {
    if events == [] then Some(c)
    else
      var k := |events| - 1;
      match Replay(c, events[..k])
      case None => None
      case Some(d) =>
        match events[k]
        case Stepped(t) => if Can(d, t) then Some(After(d, t)) else None
        case Arrived(msg) => Some(Deliver(d, msg))
        case Asked(r) => Some(d.(requests := d.requests + {r}))
  }

  ghost predicate Good(c: Call) { Lifecycle(c) && Ordering(c) && Counting(c) }

  lemma NewIsGood(policy: BufferPolicy, streaming: bool, bufferSize: int, ctx: Context)
    ensures var c := NewCall(policy, streaming, bufferSize, ctx);
      && Good(c) && Replay(c, []) == Some(c)
      && c.policy == policy && c.streaming == streaming
      && c.cap == (if bufferSize <= 0 then DEFAULT_BUFFER_SIZE else bufferSize)
      && c.ctx == ctx && c.buf == [] && !c.streamClosed && !c.finalized && c.done.None? && c.once.Idle?
      && c.sender.Unlocked? && c.waiting == [] && (streaming ==> c.drain.Receiving?)
      && c.tally.delivered == c.tally.dropped == c.tally.overflows == 0
  {
  }

  lemma GoodAfter(c: Call, t: Step)
    requires Good(c) && Can(c, t)
    ensures Good(After(c, t))
  {
    LifecycleKept(c, t);
    OrderingKept(c, t);
    CountingKept(c, t);
  }

  lemma GoodAsked(c: Call, r: Result)
    requires Good(c)
    ensures Good(c.(requests := c.requests + {r}))
  {
    OrderingSame(c, c.(requests := c.requests + {r}));
  }

  lemma GoodArrived(c: Call, m: Message)
    requires Good(c) && !m.done
    ensures Good(Deliver(c, m))
  {
    OrderingSame(c, Deliver(c, m));
  }

  lemma ReplayNext(c: Call, events: seq<Event>, e: Event)
    ensures Replay(c, events + [e]) ==
      match Replay(c, events)
      case None => None
      case Some(d) =>
        match e
        case Stepped(t) => if Can(d, t) then Some(After(d, t)) else None
        case Arrived(msg) => Some(Deliver(d, msg))
        case Asked(r) => Some(d.(requests := d.requests + {r}))
  {
    assert (events + [e])[..|events|] == events;
  }

  function Messages(chunks: seq<Chunk>): (ms: seq<Message>)
    ensures |ms| == |chunks| && forall i :: 0 <= i < |ms| ==> ms[i] == chunks[i].msg
  {
    seq(|chunks|, i requires 0 <= i < |chunks| => chunks[i].msg)
  }

  // ----- the steps, one by one -----

  lemma OnArrival(c: Call, m: Message)
    requires c.streaming && !m.done
    ensures Deliver(c, m) == c.(matched := c.matched + 1, waiting := c.waiting + [m])
  {
  }

  lemma OnLock(c: Call, m: Message)
    requires c.sender.Unlocked? && c.waiting == [m]
    ensures Can(c, Lock(0))
    ensures After(c, Lock(0)) ==
      if c.finalized then c.(waiting := [], tally := c.tally.(dropped := c.tally.dropped + 1))
      else c.(waiting := [], sender := Sending(Chunk(|c.arrived|, m)), arrived := c.arrived + [m])
  {
    assert c.waiting[..0] + c.waiting[1..] == [];
  }

  lemma OnPush(c: Call)
    requires c.sender.Sending? && |c.buf| < c.cap && !c.streamClosed
    ensures Can(c, Push) && After(c, Push) == c.(buf := c.buf + [c.sender.chunk], sender := Unlocked)
  {
  }

  lemma OnLoss(c: Call, t: Step)
    requires c.sender.Sending? && (t.GiveUp? || t.DropIncoming?)
    requires if t.GiveUp? then c.policy.Block? && c.ctx.Expired? else c.policy.DropNewest? && |c.buf| >= c.cap
    ensures Can(c, t)
    ensures After(c, t) == c.(sender := Unlocked, lost := c.lost + 1, tally := c.tally.(dropped := c.tally.dropped + 1))
  {
  }

  lemma OnFindFull(c: Call)
    requires c.sender.Sending? && c.policy.DropOldest? && |c.buf| >= c.cap
    ensures Can(c, FindFull) && After(c, FindFull) == c.(sender := Evicting(c.sender.chunk))
  {
  }

  lemma OnEvict(c: Call)
    requires c.sender.Evicting? && c.buf != []
    ensures Can(c, Evict)
    ensures After(c, Evict) == c.(sender := Sending(c.sender.chunk), buf := c.buf[1..], lost := c.lost + 1,
                                  tally := c.tally.(dropped := c.tally.dropped + 1))
  {
  }

  lemma OnOverflow(c: Call)
    requires c.sender.Sending? && c.policy.Error? && |c.buf| >= c.cap
    ensures Can(c, Overflow)
    ensures After(c, Overflow) == c.(sender := Overflowing, lost := c.lost + 1,
                                     tally := c.tally.(overflows := c.tally.overflows + 1))
  {
  }

  lemma OnFinalizing(c: Call, r: Result, t: Step)
    requires (t == OverflowFinalizes && c.sender.Overflowing? && c.once.Idle? && r == Overflowed)
      || (t == CloseStream && c.once == Claimed(r) && c.sender.Unlocked?)
    requires !c.streamClosed && !c.panicked
    ensures Can(c, t) && After(c, t) == c.(finalized := true, once := Closing(r), streamClosed := c.streaming)
  {
  }

  lemma OnClaim(c: Call, r: Result)
    requires c.once.Idle? && r in c.requests
    ensures Can(c, Claim(r)) && After(c, Claim(r)) == c.(once := Claimed(r))
  {
  }

  lemma OnFire(c: Call, r: Result)
    requires c.once == Closing(r) && c.done.None?
    ensures Can(c, Fire) && After(c, Fire) == c.(done := Some(r), once := Fired, doneSends := c.doneSends + 1)
  {
  }

  lemma OnOverflowReturns(c: Call)
    requires c.sender.Overflowing? && c.once.Fired?
    ensures Can(c, OverflowReturns) && After(c, OverflowReturns) == c.(sender := Unlocked)
  {
  }

  lemma OnTake(c: Call)
    requires c.drain.Receiving? && c.buf != []
    ensures Can(c, Take)
    ensures After(c, Take) == c.(buf := c.buf[1..], taken := c.taken + [c.buf[0]], drain := Handling)
  {
  }

  lemma OnHandled(c: Call)
    requires c.drain.Handling?
    ensures Can(c, HandlerSucceeds)
    ensures After(c, HandlerSucceeds) == c.(drain := Receiving, tally := c.tally.(delivered := c.tally.delivered + 1))
  {
  }

  lemma OnHandlerError(c: Call, wraps: bool)
    requires c.drain.Handling?
    ensures Can(c, HandlerFails(wraps))
    ensures After(c, HandlerFails(wraps)) ==
      c.(drain := Failing, failedAt := Some(|c.taken| - 1), requests := c.requests + {StreamHandlerFailed(wraps)})
  {
  }

  lemma OnFailureFinalized(c: Call)
    requires c.drain.Failing? && c.once.Fired?
    ensures Can(c, FailureFinalized) && After(c, FailureFinalized) == c.(drain := Discarding)
  {
  }

  lemma OnDiscard(c: Call)
    requires c.drain.Discarding? && c.buf != []
    ensures Can(c, Discard) && After(c, Discard) == c.(buf := c.buf[1..], taken := c.taken + [c.buf[0]])
  {
  }

  lemma OnLeaving(c: Call)
    requires c.streamClosed && c.buf == [] && (c.drain.Receiving? || c.drain.Discarding?)
    ensures Can(c, LeaveLoop) && After(c, LeaveLoop) == c.(drain := Exiting)
  {
  }

  lemma OnLeaveActive(c: Call)
    requires c.drain.Exiting?
    ensures Can(c, LeaveActive)
    ensures After(c, LeaveActive) == c.(drain := LeftActive, tally := c.tally.(activeDrains := c.tally.activeDrains - 1))
  {
  }

  lemma OnLeaveGroup(c: Call)
    requires c.drain.LeftActive?
    ensures Can(c, LeaveGroup)
    ensures After(c, LeaveGroup) == c.(drain := LeftGroup, tally := c.tally.(drainGroup := c.tally.drainGroup - 1))
  {
  }

  lemma OnSignal(c: Call)
    requires c.drain.LeftGroup?
    ensures Can(c, SignalDrained) && After(c, SignalDrained) == c.(drain := Ended)
  {
  }

  lemma SliceNext(s: seq<Message>, n: nat)
    requires n < |s|
    ensures s[n..][0] == s[n] && s[n..][1..] == s[n + 1..] && s[..n + 1] == s[..n] + [s[n]]
  {
  }

  class PendingCall {
    const policy: BufferPolicy
    const streaming: bool
    const cap: nat
    var ctx: Context
    var stream: seq<Message>
    var streamClosed: bool
    var finalized: bool
    var fired: bool            // doneOnce
    var done: Option<Result>
    var drainDone: bool
    var delivered: int
    var dropped: int
    var overflows: int
    ghost var handed: seq<Message>
    ghost var origin: Call
    ghost var events: seq<Event>
    ghost var call: Call

    /** The call that the events so far have made of the one it began as. */
    ghost predicate Traced()
      reads `origin, `events, `call
    {
      Replay(origin, events) == Some(call) && Good(call)
    }

    /** The fields show that call. */
    ghost predicate Shown()
      reads this
    {
      && Traced()
      && call.policy == policy && call.streaming == streaming && call.cap == cap
      && call.ctx == ctx && Messages(call.buf) == stream && call.streamClosed == streamClosed
      && call.finalized == finalized && call.done == done
      && call.once == (if fired then Fired else Idle)
      && call.waiting == []
      && call.tally.delivered == delivered && call.tally.dropped == dropped && call.tally.overflows == overflows
      && (drainDone ==> streaming && call.drain.Ended?)
    }

    /** At rest between two methods. */
    ghost predicate Valid()
      reads this
    {
      && Shown() && call.sender.Unlocked?
      && (streaming && !drainDone ==> call.drain.Receiving?)
    }

    constructor (policy: BufferPolicy, streaming: bool, bufferSize: int, ctx: Context)
      ensures Valid() && origin == NewCall(policy, streaming, bufferSize, ctx)
      ensures stream == [] && !finalized && done.None? && !drainDone && handed == []
    {
      hide Good, Replay, NewCall;
      NewIsGood(policy, streaming, bufferSize, ctx);
      this.policy, this.streaming, this.ctx := policy, streaming, ctx;
      cap := if bufferSize <= 0 then DEFAULT_BUFFER_SIZE else bufferSize;
      stream, streamClosed, finalized, fired, done := [], false, false, false, None;
      drainDone, delivered, dropped, overflows := false, 0, 0, 0;
      handed, events := [], [];
      origin, call := NewCall(policy, streaming, bufferSize, ctx), NewCall(policy, streaming, bufferSize, ctx);
    }

    ghost method Do(t: Step)
      requires Traced() && Can(call, t)
      modifies `call, `events
      ensures Traced() && call == After(old(call), t) && old(events) <= events
    {
      GoodAfter(call, t);
      ReplayNext(origin, events, Stepped(t));
      call, events := After(call, t), events + [Stepped(t)];
    }

    ghost method Ask(r: Result)
      requires Traced()
      modifies `call, `events
      ensures Traced() && call == old(call).(requests := old(call).requests + {r}) && old(events) <= events
    {
      GoodAsked(call, r);
      ReplayNext(origin, events, Asked(r));
      call, events := call.(requests := call.requests + {r}), events + [Asked(r)];
    }

    ghost method Arrive(m: Message)
      requires Traced() && !m.done
      modifies `call, `events
      ensures Traced() && call == Deliver(old(call), m) && old(events) <= events
    {
      GoodArrived(call, m);
      ReplayNext(origin, events, Arrived(m));
      call, events := Deliver(call, m), events + [Arrived(m)];
    }

    /** `finalize`: the first result wins, the stream is closed before it is sent. */
    method Finalize(r: Result)
      requires Valid()
      modifies `finalized, `streamClosed, `fired, `done, `call, `events
      ensures Valid() && fired && finalized && (streaming ==> streamClosed) && old(events) <= events
      ensures done == if old(fired) then old(done) else Some(r)
    {
      hide Good, Replay;
      GoodIs(call);
      Ask(r);
      if !fired {
        CloseAndSend(r);
      }
    }

    /** What `doneOnce` runs. */
    method CloseAndSend(r: Result)
      requires Shown() && !fired && r in call.requests && call.sender.Unlocked?
      modifies `finalized, `streamClosed, `fired, `done, `call, `events
      ensures Shown() && call.drain == old(call.drain) && call.sender.Unlocked? && old(events) <= events
      ensures fired && finalized && (streaming ==> streamClosed) && done == Some(r)
    {
      hide Good, Replay;
      GoodIs(call);
      ClaimCloseFire(r);
      finalized := true;
      if streaming {
        streamClosed := true;
      }
      done := Some(r);
      fired := true;
    }

    ghost method ClaimCloseFire(r: Result)
      requires Traced() && call.once.Idle? && call.done.None? && r in call.requests && call.sender.Unlocked?
      modifies `call, `events
      ensures Traced() && old(events) <= events
      ensures call == old(call).(once := Fired, finalized := true, streamClosed := old(call).streaming,
                                 done := Some(r), doneSends := old(call).doneSends + 1)
    {
      hide Good, Replay, Can, After;
      GoodIs(call);
      OnClaim(call, r);
      Do(Claim(r));
      OnFinalizing(call, r, CloseStream);
      Do(CloseStream);
      OnFire(call, r);
      Do(Fire);
    }

    /** `enqueue` for a call that streams.  `send` is what `select` picks when both the buffer has
        room and the context is over.  A send that blocks keeps `sendMu` and waits in the middle of
        its `select`. */
    method Enqueue(msg: Message, send: bool) returns (blocked: bool)
      requires Valid() && streaming && !msg.done
      modifies this
      ensures Shown() && origin == old(origin) && old(events) <= events
      ensures drainDone == old(drainDone) && handed == old(handed) && ctx == old(ctx)
      ensures blocked <==> old(!finalized && policy.Block? && |stream| >= cap && ctx.Live?)
      ensures blocked ==>
        && call.sender.Sending? && call.sender.chunk.msg == msg && stream == old(stream) && dropped == old(dropped)
        && finalized == old(finalized) && done == old(done) && overflows == old(overflows)
      ensures !blocked ==> Valid()
      ensures old(finalized) ==>
        stream == old(stream) && dropped == old(dropped) + 1 && done == old(done) && overflows == old(overflows)
      ensures !old(finalized) && !blocked ==>
        var room := |old(stream)| < cap;
        match policy
        case Block =>
          && finalized == old(finalized) && done == old(done) && overflows == old(overflows)
          && (if room && (send || ctx.Live?)
              then stream == old(stream) + [msg] && dropped == old(dropped)
              else stream == old(stream) && dropped == old(dropped) + 1)
        case DropNewest =>
          && finalized == old(finalized) && done == old(done) && overflows == old(overflows)
          && stream == (if room then old(stream) + [msg] else old(stream))
          && dropped == old(dropped) + (if room then 0 else 1)
        case DropOldest =>
          && finalized == old(finalized) && done == old(done) && overflows == old(overflows)
          && |old(stream)| <= cap && cap > 0
          && stream == (if room then old(stream) else old(stream)[1..]) + [msg]
          && dropped == old(dropped) + (if room then 0 else 1)
        case Error =>
          && dropped == old(dropped)
          && stream == (if room then old(stream) + [msg] else old(stream))
          && overflows == old(overflows) + (if room then 0 else 1)
          && finalized == !room && (!room ==> streamClosed && done == Some(Overflowed))
    {
      hide Good, Replay;
      TakeLock(msg);
      if finalized { return false; }
      if policy.Block? && |stream| >= cap && ctx.Live? { return true; }
      blocked := false;
      match policy {
        case Block => SendOrGiveUp(msg, send);
        case DropNewest => SendOrDrop(msg);
        case DropOldest => PushOverOldest(msg);
        case Error => SendOrFinalize(msg);
      }
    }

    /** The head of `enqueue`: `sendMu` is taken and a finalized call refuses the chunk. */
    method TakeLock(msg: Message)
      requires Valid() && streaming && !msg.done
      modifies `dropped, `call, `events
      ensures Shown() && call.drain == old(call.drain) && old(events) <= events
      ensures finalized ==> call.sender.Unlocked? && dropped == old(dropped) + 1
      ensures !finalized ==> call.sender.Sending? && call.sender.chunk.msg == msg && dropped == old(dropped)
    {
      hide Good, Replay, Can, After, Deliver;
      OnArrival(call, msg);
      Arrive(msg);
      OnLock(call, msg);
      Do(Lock(0));
      if finalized {
        dropped := dropped + 1;
      }
    }

    /** A blocked send goes on once the drain has made room or the context is over. */
    method SendOrGiveUp(msg: Message, send: bool)
      requires Shown() && call.sender.Sending? && call.sender.chunk.msg == msg && policy.Block? && !finalized
      requires |stream| >= cap ==> ctx.Expired?
      modifies `stream, `dropped, `call, `events
      ensures Shown() && call.sender.Unlocked? && call.drain == old(call.drain) && old(events) <= events
      ensures if |old(stream)| < cap && (send || ctx.Live?)
        then stream == old(stream) + [msg] && dropped == old(dropped)
        else stream == old(stream) && dropped == old(dropped) + 1
    {
      hide Good, Replay, Can, After;
      if |stream| < cap && (send || ctx.Live?) {
        PushNow(msg);
      } else {
        dropped := dropped + 1;
        OnLoss(call, GiveUp);
        Do(GiveUp);
      }
    }

    method SendOrDrop(msg: Message)
      requires Shown() && call.sender.Sending? && call.sender.chunk.msg == msg && policy.DropNewest? && !finalized
      modifies `stream, `dropped, `call, `events
      ensures Shown() && call.sender.Unlocked? && call.drain == old(call.drain) && old(events) <= events
      ensures if |old(stream)| < cap
        then stream == old(stream) + [msg] && dropped == old(dropped)
        else stream == old(stream) && dropped == old(dropped) + 1
    {
      hide Good, Replay, Can, After;
      if |stream| < cap {
        PushNow(msg);
      } else {
        dropped := dropped + 1;
        OnLoss(call, DropIncoming);
        Do(DropIncoming);
      }
    }

    method SendOrFinalize(msg: Message)
      requires Shown() && call.sender.Sending? && call.sender.chunk.msg == msg && policy.Error? && !finalized && streaming
      modifies `stream, `overflows, `finalized, `streamClosed, `fired, `done, `call, `events
      ensures Shown() && call.sender.Unlocked? && call.drain == old(call.drain) && old(events) <= events
      ensures if |old(stream)| < cap
        then stream == old(stream) + [msg] && overflows == old(overflows) && !finalized
        else (stream == old(stream) && overflows == old(overflows) + 1
              && finalized && streamClosed && done == Some(Overflowed))
    {
      hide Good, Replay, Can, After;
      if |stream| < cap {
        PushNow(msg);
      } else {
        overflows := overflows + 1;
        OnOverflow(call);
        Do(Overflow);
        FinalizeLocked();
      }
    }

    /** The loop for DropOldest: it makes room and tries again. */
    method PushOverOldest(msg: Message)
      requires Shown() && call.sender.Sending? && call.sender.chunk.msg == msg
      requires policy.DropOldest? && streaming && !finalized
      modifies `stream, `dropped, `call, `events
      ensures Shown() && call.sender.Unlocked? && call.drain == old(call.drain) && old(events) <= events
      ensures |old(stream)| <= cap && cap > 0
      ensures stream == (if |old(stream)| < cap then old(stream) else old(stream)[1..]) + [msg]
      ensures dropped == old(dropped) + (if |old(stream)| < cap then 0 else 1)
    {
      hide Good, Replay, Can, After, Deliver;
      GoodIs(call);
      while |stream| >= cap
        invariant Shown() && call.sender.Sending? && call.sender.chunk.msg == msg && call.drain == old(call.drain)
        invariant old(events) <= events
        invariant if |stream| < cap && |old(stream)| >= cap
          then stream == old(stream)[1..] && dropped == old(dropped) + 1
          else stream == old(stream) && dropped == old(dropped)
        decreases |stream|
      {
        OnFindFull(call);
        Do(FindFull);
        assert Messages(call.buf[1..]) == stream[1..];
        stream := stream[1..];
        dropped := dropped + 1;
        OnEvict(call);
        Do(Evict);
      }
      PushNow(msg);
    }

    /** The send that finds room. */
    method PushNow(msg: Message)
      requires Shown() && call.sender.Sending? && call.sender.chunk.msg == msg && |stream| < cap && !finalized
      modifies `stream, `call, `events
      ensures Shown() && call.sender.Unlocked? && call.drain == old(call.drain) && old(events) <= events
      ensures stream == old(stream) + [msg]
    {
      hide Good, Replay, Can, After, Deliver;
      GoodIs(call);
      assert Messages(call.buf + [call.sender.chunk]) == stream + [msg];
      stream := stream + [msg];
      OnPush(call);
      Do(Push);
    }

    /** `finalizeLocked` on an overflow, with `sendMu` held. */
    method FinalizeLocked()
      requires Shown() && call.sender.Overflowing? && !finalized && streaming
      modifies `finalized, `streamClosed, `fired, `done, `call, `events
      ensures Shown() && call.sender.Unlocked? && call.drain == old(call.drain) && old(events) <= events
      ensures fired && finalized && streamClosed && done == Some(Overflowed)
    {
      hide Good, Replay;
      GoodIs(call);
      if !fired {
        OverflowAndFire();
        finalized, streamClosed := true, true;
        done := Some(Overflowed);
        fired := true;
      }
    }

    ghost method OverflowAndFire()
      requires Traced() && call.once.Idle? && call.done.None? && call.sender.Overflowing?
      modifies `call, `events
      ensures Traced() && old(events) <= events
      ensures call == old(call).(once := Fired, finalized := true, streamClosed := old(call).streaming,
                                 done := Some(Overflowed), doneSends := old(call).doneSends + 1, sender := Unlocked)
    {
      hide Good, Replay, Can, After;
      GoodIs(call);
      OnFinalizing(call, Overflowed, OverflowFinalizes);
      Do(OverflowFinalizes);
      OnFire(call, Overflowed);
      Do(Fire);
      OnOverflowReturns(call);
      Do(OverflowReturns);
    }

    /** `drain`, as far as it gets without a sender beside it: `fails` says at which chunk the
        handler returns an error.  It ends when the stream is closed, and after an error the stream
        always is. */
    method Drain(fails: nat -> bool, wraps: bool) returns (failedAt: Option<nat>)
      requires Valid() && streaming && !drainDone
      modifies this
      ensures Valid() && origin == old(origin) && old(events) <= events && stream == [] && ctx == old(ctx)
      ensures dropped == old(dropped) && overflows == old(overflows)
      ensures match failedAt
        case None =>
          && (forall i: nat :: i < |old(stream)| ==> !fails(i))
          && handed == old(handed) + old(stream) && delivered == old(delivered) + |old(stream)|
          && done == old(done) && finalized == old(finalized) && drainDone == old(streamClosed)
        case Some(k) =>
          && k < |old(stream)| && fails(k) && (forall i: nat :: i < k ==> !fails(i))
          && handed == old(handed) + old(stream)[..k + 1] && delivered == old(delivered) + k
          && finalized && drainDone
          && done == (if old(fired) then old(done) else Some(StreamHandlerFailed(wraps)))
    {
      hide Traced, Shown, Valid;
      var n: nat := 0;
      ghost var all, before := stream, handed;
      assert all[0..] == all && handed + all[..0] == handed;
      while stream != []
        invariant Valid() && !drainDone && origin == old(origin) && old(events) <= events
        invariant n <= |all| && stream == all[n..] && handed == before + all[..n] && delivered == old(delivered) + n
        invariant dropped == old(dropped) && overflows == old(overflows) && ctx == old(ctx)
        invariant done == old(done) && finalized == old(finalized)
        invariant streamClosed == old(streamClosed) && fired == old(fired)
        invariant forall i: nat :: i < n ==> !fails(i)
        decreases |stream|
      {
        SliceNext(all, n);
        assert before + all[..n] + [all[n]] == before + all[..n + 1];
        var stopped := HandleNext(fails(n), wraps);
        if stopped {
          return Some(n);
        }
        n := n + 1;
      }
      assert all[..n] == all;
      if streamClosed {
        AtRest();
        LeaveDrain();
      }
      return None;
    }

    lemma AtRest()
      requires Valid()
      ensures Shown() && call.sender.Unlocked? && (streaming && !drainDone ==> call.drain.Receiving?)
    {
    }

    /** One turn of the loop: the next chunk is handed over and the handler's answer acted on. */
    method HandleNext(failing: bool, wraps: bool) returns (stopped: bool)
      requires Valid() && streaming && !drainDone && stream != []
      modifies `stream, `handed, `delivered, `finalized, `streamClosed, `fired, `done, `drainDone, `call, `events
      ensures Valid() && old(events) <= events && stopped == failing
      ensures handed == old(handed) + [old(stream)[0]]
      ensures !failing ==>
        && !drainDone && stream == old(stream)[1..] && delivered == old(delivered) + 1 && done == old(done)
        && finalized == old(finalized) && streamClosed == old(streamClosed) && fired == old(fired)
      ensures failing ==>
        && drainDone && stream == [] && delivered == old(delivered) && finalized
        && done == (if old(fired) then old(done) else Some(StreamHandlerFailed(wraps)))
    {
      hide Traced, Shown, Valid;
      AtRest();
      ReceiveChunk();
      if failing {
        StopDraining(wraps);
        return true;
      }
      CountDelivered();
      return false;
    }

    method CountDelivered()
      requires Shown() && call.sender.Unlocked? && call.drain.Handling? && !drainDone
      modifies `delivered, `call, `events
      ensures Valid() && old(events) <= events && delivered == old(delivered) + 1
    {
      hide Good, Replay, Can, After;
      delivered := delivered + 1;
      OnHandled(call);
      Do(HandlerSucceeds);
    }

    method ReceiveChunk()
      requires Shown() && call.sender.Unlocked? && call.drain.Receiving? && stream != []
      modifies `stream, `handed, `call, `events
      ensures Shown() && call.sender.Unlocked? && call.drain.Handling? && old(events) <= events
      ensures stream == old(stream)[1..] && handed == old(handed) + [old(stream)[0]]
    {
      hide Good, Replay, Can, After;
      assert Messages(call.buf[1..]) == stream[1..];
      handed := handed + [stream[0]];
      stream := stream[1..];
      OnTake(call);
      Do(Take);
    }

    /** The error path: the call is finalized and the rest of the stream thrown away. */
    method StopDraining(wraps: bool)
      requires Shown() && call.sender.Unlocked? && call.drain.Handling? && streaming && !drainDone
      modifies `stream, `finalized, `streamClosed, `fired, `done, `drainDone, `call, `events
      ensures Valid() && old(events) <= events && drainDone && stream == [] && finalized
      ensures done == if old(fired) then old(done) else Some(StreamHandlerFailed(wraps))
    {
      hide Traced, Shown;
      ReportError(wraps);
      DiscardRest();
      LeaveDrain();
    }

    method ReportError(wraps: bool)
      requires Shown() && call.sender.Unlocked? && call.drain.Handling? && streaming && !drainDone
      modifies `finalized, `streamClosed, `fired, `done, `call, `events
      ensures Shown() && call.sender.Unlocked? && call.drain.Discarding? && old(events) <= events
      ensures fired && finalized && streamClosed
      ensures done == if old(fired) then old(done) else Some(StreamHandlerFailed(wraps))
    {
      hide Good, Replay, Can, After;
      GoodIs(call);
      OnHandlerError(call, wraps);
      Do(HandlerFails(wraps));
      if !fired {
        CloseAndSend(StreamHandlerFailed(wraps));
      }
      OnFailureFinalized(call);
      Do(FailureFinalized);
    }

    method DiscardRest()
      requires Shown() && call.sender.Unlocked? && call.drain.Discarding? && !drainDone
      modifies `stream, `call, `events
      ensures Shown() && call.sender.Unlocked? && call.drain.Discarding? && old(events) <= events && stream == []
    {
      hide Good, Replay, Can, After;
      while stream != []
        invariant Shown() && call.sender.Unlocked? && call.drain.Discarding? && old(events) <= events
        decreases |stream|
      {
        assert Messages(call.buf[1..]) == stream[1..];
        stream := stream[1..];
        OnDiscard(call);
        Do(Discard);
      }
    }

    /** The deferred function of the drain. */
    method LeaveDrain()
      requires Shown() && call.sender.Unlocked? && streamClosed && stream == [] && streaming && !drainDone
      requires call.drain.Receiving? || call.drain.Discarding?
      modifies `drainDone, `call, `events
      ensures Valid() && old(events) <= events && drainDone
    {
      hide Good, Replay, Can, After;
      OnLeaving(call);
      Do(LeaveLoop);
      OnLeaveActive(call);
      Do(LeaveActive);
      OnLeaveGroup(call);
      Do(LeaveGroup);
      OnSignal(call);
      drainDone := true;
      Do(SignalDrained);
    }

    lemma GoodIs(c: Call)
      requires Good(c)
      ensures c.cap >= 1 && |c.buf| <= c.cap && !c.panicked
      ensures (c.finalized <==> c.once.Closing? || c.once.Fired?) && (c.streamClosed <==> c.finalized && c.streaming)
      ensures c.done.Some? ==> c.once.Fired?
    {
    }
  }
}
