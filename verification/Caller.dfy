/**
  The shared-inbox request/reply router of `sdk/caller.go` as a step system.

  Every goroutine that touches a pending call is broken at its lock and channel
  operations: transport callbacks waiting for `sendMu`, the sender inside `enqueue`, the
  drain goroutine, the goroutine inside `doneOnce.Do`, the goroutine inside `Caller.Call`
  and the one inside `CloseContext`.  A step is one such operation; any enabled step of
  any goroutine may come next.

  Calls are kept in registration order and the correlation id of a call is its index, so
  ids are distinct by construction.
 */
module Caller {
  import opened Wrappers

  datatype BufferPolicy = Block | DropNewest | DropOldest | Error

  const DEFAULT_BUFFER_SIZE := 64

  /** A bus message: the metadata the router reads, and the payload. */
  datatype Message = Message(cid: Option<nat>, done: bool, envelope: bool, payload: string)

  /** A stream chunk, tagged with its position among the arrivals of its call. */
  datatype Chunk = Chunk(serial: nat, msg: Message)

  datatype Expiry = Deadline | Cancel

  datatype Context = Live | Expired(why: Expiry)

  /** What a party passes to `finalize`. */
  datatype Result =
    | Reply(msg: Message)
    | HandlerExhausted(msg: Message)
    | StreamHandlerFailed(wrapsHandlerFailed: bool)
    | Overflowed
    | ContextEnded(why: Expiry)
    | PublishFailed
    | CallerClosed

  /** `doneOnce`: untouched, entered and waiting for `sendMu`, past `sendMu` and about to
      send on `done`, or finished. */
  datatype Once = Idle | Claimed(r: Result) | Closing(r: Result) | Fired

  /** Who holds `sendMu` inside `enqueue`, and where. */
  datatype Sender = Unlocked | Sending(chunk: Chunk) | Evicting(chunk: Chunk) | Overflowing {
    predicate InFlight() { Sending? || Evicting? }
  }

  /** The drain goroutine.  The last four values are its deferred function. */
  datatype Drain =
    | NoDrain | Receiving | Handling | Failing | Discarding
    | Exiting | LeftActive | LeftGroup | Ended
  {
    predicate OutOfLoop() { Exiting? || LeftActive? || LeftGroup? || Ended? }
  }

  /** What `Caller.Call` returned. */
  datatype Outcome =
    | Completed(msg: Message)
    | Undecodable(msg: Message)
    | ErrorEnvelope(msg: Message)
    | Failed(r: Result)
    | ContextOver(why: Expiry)
    | NotPublished

  /** The goroutine inside `Caller.Call`; the last two values are its deferred function. */
  datatype CallPc =
    | Publishing | Aborting | Waiting | Settling(msg: Message) | Expiring(why: Expiry)
    | Returned(outcome: Outcome) | Deregistered(outcome: Outcome) | Gone(outcome: Outcome)
  {
    predicate HasOutcome() { Returned? || Deregistered? || Gone? }
  }

  /** The counters of `Metrics` (except Unmatched), `activeStreamDrains` and `streamDrainWG`. */
  datatype Counters = Counters(
    inflight: int, completed: int, timedOut: int, cancelled: int, decodeErrs: int, failedFast: int,
    overflows: int, delivered: int, dropped: int, activeDrains: int, drainGroup: int)
  {
    function Plus(o: Counters): Counters {
      Counters(inflight + o.inflight, completed + o.completed, timedOut + o.timedOut,
               cancelled + o.cancelled, decodeErrs + o.decodeErrs, failedFast + o.failedFast,
               overflows + o.overflows, delivered + o.delivered, dropped + o.dropped,
               activeDrains + o.activeDrains, drainGroup + o.drainGroup)
    }
  }

  const ZERO := Counters(0, 0, 0, 0, 0, 0, 0, 0, 0, 0, 0)

  /** A `pendingCall` with the goroutines that work on it.  The fields from `matched` on are
      history that no step reads. */
  datatype Call = Call(
    policy: BufferPolicy, streaming: bool, cap: nat,
    ctx: Context, envelope: bool, pc: CallPc,
    waiting: seq<Message>,     // matched chunks whose callback has not yet got sendMu
    sender: Sender, buf: seq<Chunk>, streamClosed: bool, panicked: bool,
    requests: set<Result>,     // results some party is passing to finalize
    once: Once, finalized: bool, done: Option<Result>, drain: Drain,
    matched: nat, arrived: seq<Message>, taken: seq<Chunk>, failedAt: Option<int>,
    lost: nat, doneSends: nat, tally: Counters)

  /** How the envelope in a reply decodes. */
  datatype EnvelopeView = Malformed | NotOk | Ok

  /** One step of a goroutine working on one call. */
  datatype Step =
    // the caller's context, and the goroutine inside Caller.Call
    | ContextExpires(why: Expiry)
    | PublishSucceeds | PublishFails | AbortReturns
    | Receive | Settle(view: EnvelopeView) | NoticeExpiry | ExpiryReturns | Decrement
    // enqueue
    | Lock(k: nat) | Push | GiveUp | DropIncoming | FindFull | Evict | Overflow
    | OverflowFinalizes | OverflowReturns
    // doneOnce
    | Claim(r: Result) | CloseStream | Fire
    // drain
    | Take | HandlerSucceeds | HandlerFails(wrapsHandlerFailed: bool) | FailureFinalized
    | Discard | LeaveLoop | LeaveActive | LeaveGroup | SignalDrained

  predicate WrapsHandlerFailed(r: Result) {
    r.HandlerExhausted? || (r.StreamHandlerFailed? && r.wrapsHandlerFailed)
  }

  /** Whether the goroutine in question is at that operation and the operation can go ahead. */
  predicate Can(c: Call, t: Step) {
    match t
    case ContextExpires(_) => c.ctx.Live?
    case PublishSucceeds => c.pc.Publishing?
    case PublishFails => c.pc.Publishing?
    case AbortReturns => c.pc.Aborting? && c.once.Fired? && (c.streaming ==> c.drain.Ended?)
    case Receive => c.pc.Waiting? && c.done.Some?
    case Settle(_) => c.pc.Settling? && (c.streaming ==> c.drain.Ended?)
    case NoticeExpiry => c.pc.Waiting? && c.ctx.Expired?
    case ExpiryReturns => c.pc.Expiring? && c.once.Fired?
    case Decrement => c.pc.Deregistered?
    case Lock(k) => c.sender.Unlocked? && k < |c.waiting|
    case Push => c.sender.Sending? && |c.buf| < c.cap
    case GiveUp => c.sender.Sending? && c.policy.Block? && c.ctx.Expired?
    case DropIncoming => c.sender.Sending? && c.policy.DropNewest? && |c.buf| >= c.cap
    case FindFull => c.sender.Sending? && c.policy.DropOldest? && |c.buf| >= c.cap
    case Evict => c.sender.Evicting?
    case Overflow => c.sender.Sending? && c.policy.Error? && |c.buf| >= c.cap
    case OverflowFinalizes => c.sender.Overflowing? && c.once.Idle?
    case OverflowReturns => c.sender.Overflowing? && c.once.Fired?
    case Claim(r) => c.once.Idle? && r in c.requests
    case CloseStream => c.once.Claimed? && c.sender.Unlocked?
    case Fire => c.once.Closing? && c.done.None?
    case Take => c.drain.Receiving? && c.buf != []
    case HandlerSucceeds => c.drain.Handling?
    case HandlerFails(_) => c.drain.Handling?
    case FailureFinalized => c.drain.Failing? && c.once.Fired?
    case Discard => c.drain.Discarding? && c.buf != []
    case LeaveLoop => (c.drain.Receiving? || c.drain.Discarding?) && c.buf == [] && c.streamClosed
    case LeaveActive => c.drain.Exiting?
    case LeaveGroup => c.drain.LeftActive?
    case SignalDrained => c.drain.LeftGroup?
  }

  /** `finalized.Store(true)` and `close(stream)`; closing a closed channel panics. */
  function Finalized(c: Call, r: Result): Call {
    c.(finalized := true, once := Closing(r),
       streamClosed := c.streaming, panicked := c.panicked || (c.streaming && c.streamClosed))
  }

  /** The outcome of `Caller.Call` for a reply, once the drain is over. */
  function OutcomeOf(c: Call, msg: Message, view: EnvelopeView): Outcome {
    if !c.envelope then Completed(msg)
    else match view
      case Malformed => Undecodable(msg)
      case NotOk => ErrorEnvelope(msg)
      case Ok => Completed(msg)
  }

  predicate OfCaller(t: Step) {
    t.ContextExpires? || t.PublishSucceeds? || t.PublishFails? || t.AbortReturns? || t.Receive?
    || t.Settle? || t.NoticeExpiry? || t.ExpiryReturns? || t.Decrement?
  }

  predicate OfSender(t: Step) {
    t.Lock? || t.Push? || t.GiveUp? || t.DropIncoming? || t.FindFull? || t.Evict? || t.Overflow?
    || t.OverflowReturns?
  }

  predicate OfOnce(t: Step) {
    t.OverflowFinalizes? || t.Claim? || t.CloseStream? || t.Fire?
  }

  predicate OfDrain(t: Step) { !OfCaller(t) && !OfSender(t) && !OfOnce(t) }

  /** Steps of the goroutine inside `Caller.Call`, and its context. */
  function NextOfCaller(c: Call, t: Step): (d: Call)
    requires Can(c, t) && OfCaller(t)
    ensures d == c.(ctx := d.ctx, pc := d.pc, done := d.done, requests := d.requests)
  {
    match t
    case ContextExpires(why) => c.(ctx := Expired(why))
    case PublishSucceeds => c.(pc := Waiting)
    case PublishFails => c.(pc := Aborting, requests := c.requests + {PublishFailed})
    case AbortReturns => c.(pc := Returned(NotPublished))
    case Receive =>
      var r := c.done.value;
      c.(done := None, pc := if r.Reply? then Settling(r.msg) else Returned(Failed(r)))
    case Settle(view) => c.(pc := Returned(OutcomeOf(c, c.pc.msg, view)))
    case NoticeExpiry => c.(pc := Expiring(c.ctx.why), requests := c.requests + {ContextEnded(c.ctx.why)})
    case ExpiryReturns => c.(pc := Returned(ContextOver(c.pc.why)))
    case Decrement => c.(pc := Gone(c.pc.outcome))
  }

  /** Steps of a goroutine inside `enqueue`. */
  function NextOfSender(c: Call, t: Step): (d: Call)
    requires Can(c, t) && OfSender(t)
    ensures d == c.(waiting := d.waiting, sender := d.sender, buf := d.buf, panicked := d.panicked,
                    arrived := d.arrived, lost := d.lost)
  {
    match t
    case Lock(k) =>
      var d := c.(waiting := c.waiting[..k] + c.waiting[k + 1..]);
      if c.finalized then d
      else d.(sender := Sending(Chunk(|c.arrived|, c.waiting[k])), arrived := c.arrived + [c.waiting[k]])
    case Push =>
      // sending on a closed channel panics
      if c.streamClosed then c.(panicked := true, sender := Unlocked)
      else c.(buf := c.buf + [c.sender.chunk], sender := Unlocked)
    case GiveUp => c.(sender := Unlocked, lost := c.lost + 1)
    case DropIncoming => c.(sender := Unlocked, lost := c.lost + 1)
    case FindFull => c.(sender := Evicting(c.sender.chunk))
    case Evict =>
      if c.buf == [] then c.(sender := Sending(c.sender.chunk))
      else c.(sender := Sending(c.sender.chunk), buf := c.buf[1..], lost := c.lost + 1)
    case Overflow => c.(sender := Overflowing, lost := c.lost + 1)
    case OverflowReturns => c.(sender := Unlocked)
  }

  /** Steps of the goroutine inside `doneOnce`. */
  function NextOfOnce(c: Call, t: Step): (d: Call)
    requires Can(c, t) && OfOnce(t)
    ensures d == c.(once := d.once, finalized := d.finalized, streamClosed := d.streamClosed,
                    panicked := d.panicked, done := d.done, doneSends := d.doneSends)
  {
    match t
    case OverflowFinalizes => Finalized(c, Overflowed)
    case Claim(r) => c.(once := Claimed(r))
    case CloseStream => Finalized(c, c.once.r)
    case Fire => c.(done := Some(c.once.r), once := Fired, doneSends := c.doneSends + 1)
  }

  /** Steps of the drain. */
  function NextOfDrain(c: Call, t: Step): (d: Call)
    requires Can(c, t) && OfDrain(t)
    ensures d == c.(buf := d.buf, taken := d.taken, drain := d.drain, failedAt := d.failedAt, requests := d.requests)
  {
    match t
    case Take => c.(buf := c.buf[1..], taken := c.taken + [c.buf[0]], drain := Handling)
    case HandlerSucceeds => c.(drain := Receiving)
    case HandlerFails(w) =>
      c.(drain := Failing, failedAt := Some(|c.taken| - 1),
         requests := c.requests + {StreamHandlerFailed(w)})
    case FailureFinalized => c.(drain := Discarding)
    case Discard => c.(buf := c.buf[1..], taken := c.taken + [c.buf[0]])
    case LeaveLoop => c.(drain := Exiting)
    case LeaveActive => c.(drain := LeftActive)
    case LeaveGroup => c.(drain := LeftGroup)
    case SignalDrained => c.(drain := Ended)
  }

  function Next(c: Call, t: Step): Call
    requires Can(c, t)
  {
    if OfCaller(t) then NextOfCaller(c, t)
    else if OfSender(t) then NextOfSender(c, t)
    else if OfOnce(t) then NextOfOnce(c, t)
    else NextOfDrain(c, t)
  }

  /** The counters a step adds to. */
  function Bump(c: Call, t: Step): (b: Counters)
    requires Can(c, t)
    ensures OfSender(t) ==> b == ZERO.(dropped := b.dropped, overflows := b.overflows)
    ensures OfOnce(t) ==> b == ZERO
    ensures OfDrain(t) ==> b == ZERO.(delivered := b.delivered, activeDrains := b.activeDrains, drainGroup := b.drainGroup)
    ensures OfCaller(t) ==>
      b == ZERO.(inflight := b.inflight, completed := b.completed, timedOut := b.timedOut, cancelled := b.cancelled,
                 decodeErrs := b.decodeErrs, failedFast := b.failedFast)
  {
    match t
    case Receive => if WrapsHandlerFailed(c.done.value) then ZERO.(failedFast := 1) else ZERO
    case Settle(view) =>
      (match OutcomeOf(c, c.pc.msg, view)
       case Completed(_) => ZERO.(completed := 1)
       case Undecodable(_) => ZERO.(decodeErrs := 1)
       case _ => ZERO)
    case NoticeExpiry => if c.ctx.why.Deadline? then ZERO.(timedOut := 1) else ZERO.(cancelled := 1)
    case Decrement => ZERO.(inflight := -1)
    case Lock(_) => if c.finalized then ZERO.(dropped := 1) else ZERO
    case GiveUp => ZERO.(dropped := 1)
    case DropIncoming => ZERO.(dropped := 1)
    case Evict => if c.buf == [] then ZERO else ZERO.(dropped := 1)
    case Overflow => ZERO.(overflows := 1)
    case HandlerSucceeds => ZERO.(delivered := 1)
    case LeaveActive => ZERO.(activeDrains := -1)
    case LeaveGroup => ZERO.(drainGroup := -1)
    case _ => ZERO
  }

  /** The call after a step, its own tally of counters included. */
  function After(c: Call, t: Step): Call
    requires Can(c, t)
  {
    Next(c, t).(tally := c.tally.Plus(Bump(c, t)))
  }

  /** The goroutine inside the critical section of `CloseContext`, if any.  `table` is what the
      table held when it began to range; an entry that is deleted meanwhile may still be visited. */
  datatype Closer =
    | NotClosing
    | Ranging(table: set<nat>, visited: set<nat>)
    | Visiting(id: nat, table: set<nat>, visited: set<nat>)

  /** The whole router.  `inbox` and `failures` are the messages handed to `onInbox` and
      `onFailure` so far. */
  datatype Router = Router(
    calls: seq<Call>, pending: set<nat>, closed: bool, metrics: Counters, unmatched: nat,
    closer: Closer, closeWaiters: nat, closeLeft: bool, closeReturnedNil: bool,
    inbox: set<Message>, failures: set<Message>)

  const INITIAL := Router([], {}, false, ZERO, 0, NotClosing, 0, false, false, {}, {})

  datatype Action =
    | Register(policy: BufferPolicy, streaming: bool, bufferSize: int, ctx: Context)
    | Inbox(msg: Message)
    | Failure(msg: Message)
    | Local(id: nat, step: Step)
    | Deregister(id: nat)
    | CloseBegins | CloseVisits(id: nat) | CloseVisited | CloseLeaves
    | CloseReturns(isNil: bool)

  predicate Enabled(s: Router, a: Action) {
    match a
    case Register(_, _, _, _) => s.closer.NotClosing?
    case Inbox(_) => true
    case Failure(_) => true
    case Local(id, t) => id < |s.calls| && Can(s.calls[id], t)
    case Deregister(id) => id < |s.calls| && s.calls[id].pc.Returned?
    case CloseBegins => s.closer.NotClosing?
    case CloseVisits(id) => s.closer.Ranging? && id in s.closer.table - s.closer.visited && id < |s.calls|
    case CloseVisited => s.closer.Visiting? && s.closer.id < |s.calls| && s.calls[s.closer.id].once.Fired?
    case CloseLeaves => s.closer.Ranging? && s.pending <= s.closer.visited
    case CloseReturns(isNil) => s.closeWaiters > 0 && (isNil ==> s.metrics.drainGroup == 0)
  }

  /** The `pendingCall` that `Caller.Call` builds. */
  function NewCall(policy: BufferPolicy, streaming: bool, bufferSize: int, ctx: Context): Call {
    Call(policy, streaming, if bufferSize <= 0 then DEFAULT_BUFFER_SIZE else bufferSize,
         ctx, false, Publishing, [], Unlocked, [], false, false, {}, Idle, false, None,
         if streaming then Receiving else NoDrain,
         0, [], [], None, 0, 0, Opening(streaming))
  }

  function Opening(streaming: bool): Counters {
    if streaming then ZERO.(inflight := 1, activeDrains := 1, drainGroup := 1) else ZERO.(inflight := 1)
  }

  /** The entry of `pending` that the metadata of a message selects. */
  function Lookup(s: Router, msg: Message): (id: Option<nat>)
    ensures id.Some? ==> id.value in s.pending && id.value < |s.calls| && msg.cid == id
  {
    if msg.cid.Some? && msg.cid.value in s.pending && msg.cid.value < |s.calls| then msg.cid else None
  }

  /** `onInbox` on a registered call. */
  function Deliver(c: Call, msg: Message): Call {
    if msg.done then c.(envelope := c.envelope || msg.envelope, requests := c.requests + {Reply(msg)})
    else if !c.streaming then c.(matched := c.matched + 1, tally := c.tally.Plus(ZERO.(dropped := 1)))
    else c.(matched := c.matched + 1, waiting := c.waiting + [msg])
  }

  function Apply(s: Router, a: Action): Router
    requires Enabled(s, a)
  {
    match a
    case Register(policy, streaming, bufferSize, ctx) =>
      if s.closed then s
      else s.(calls := s.calls + [NewCall(policy, streaming, bufferSize, ctx)],
              pending := s.pending + {|s.calls|},
              metrics := s.metrics.Plus(Opening(streaming)))
    case Inbox(msg) =>
      var seen := s.(inbox := s.inbox + {msg});
      (match Lookup(s, msg)
       case None => seen.(unmatched := s.unmatched + 1)
       case Some(id) =>
         var c := s.calls[id];
         seen.(calls := s.calls[id := Deliver(c, msg)],
               metrics := if msg.done || c.streaming then s.metrics
                          else s.metrics.Plus(ZERO.(dropped := 1))))
    case Failure(msg) =>
      var seen := s.(failures := s.failures + {msg});
      (match Lookup(s, msg)
       case None => seen
       case Some(id) =>
         var c := s.calls[id];
         seen.(pending := s.pending - {id},
               calls := s.calls[id := c.(requests := c.requests + {HandlerExhausted(msg)})]))
    case Local(id, t) =>
      var c := s.calls[id];
      s.(calls := s.calls[id := After(c, t)], metrics := s.metrics.Plus(Bump(c, t)))
    case Deregister(id) =>
      var c := s.calls[id];
      s.(pending := s.pending - {id}, calls := s.calls[id := c.(pc := Deregistered(c.pc.outcome))])
    case CloseBegins => s.(closed := true, closer := Ranging(s.pending, {}))
    case CloseVisits(id) =>
      var c := s.calls[id];
      s.(closer := Visiting(id, s.closer.table, s.closer.visited + {id}),
         calls := s.calls[id := c.(requests := c.requests + {CallerClosed})])
    case CloseVisited => s.(closer := Ranging(s.closer.table, s.closer.visited))
    case CloseLeaves => s.(closer := NotClosing, closeLeft := true, closeWaiters := s.closeWaiters + 1)
    case CloseReturns(isNil) =>
      s.(closeWaiters := s.closeWaiters - 1, closeReturnedNil := s.closeReturnedNil || isNil)
  }

  /** `states` is what the router goes through when `actions` happen in that order. */
  ghost predicate IsRun(states: seq<Router>, actions: seq<Action>) {
    && |states| == |actions| + 1
    && states[0] == INITIAL
    && forall k :: 0 <= k < |actions| ==>
         Enabled(states[k], actions[k]) && states[k + 1] == Apply(states[k], actions[k])
  }
}
