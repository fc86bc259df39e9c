/**
  What every step of the router keeps, call by call.  Each predicate is inductive on its
  own or with the ones its lemma requires, so each lemma stays small.
 */
module CallerInvariants {
  import opened Wrappers
  import opened Caller

  /** `doneOnce`, `finalized`, the stream channel and `done` move together; nobody panics. */
  ghost predicate Lifecycle(c: Call) {
    && !c.panicked
    && c.cap >= 1
    && (c.streaming <==> !c.drain.NoDrain?)
    && (c.finalized <==> c.once.Closing? || c.once.Fired?)
    && (c.streamClosed <==> c.finalized && c.streaming)
    && c.doneSends == (if c.once.Fired? then 1 else 0)
    && (c.done.Some? ==> c.once.Fired?)
    && (c.sender.InFlight() ==> c.streaming && !c.finalized)
    && (c.sender.Evicting? ==> c.policy.DropOldest?)
    && (c.sender.Overflowing? ==> c.streaming && c.policy.Error?)
    && (c.waiting != [] ==> c.streaming)
    && (c.pc.Settling? || c.pc.HasOutcome() ==> c.once.Fired?)
    && (c.drain.Discarding? ==> c.once.Fired?)
    && (c.drain.OutOfLoop() ==> c.streamClosed && c.buf == [])
    && (c.pc.HasOutcome() && c.pc.outcome.Completed? && c.streaming ==> c.drain.Ended?)
  }

  // ----- what the steps of each goroutine leave alone -----

  lemma FrameOfCaller(c: Call, t: Step)
    requires Can(c, t) && OfCaller(t)
    ensures var d := After(c, t);
      d == c.(ctx := d.ctx, pc := d.pc, done := d.done, requests := d.requests, tally := d.tally)
  {
    hide Can, Bump, NextOfCaller, NextOfSender, NextOfOnce, NextOfDrain;
    var n := NextOfCaller(c, t);
    assert Next(c, t) == n;
    hide Next;
  }

  lemma FrameOfSender(c: Call, t: Step)
    requires Can(c, t) && OfSender(t)
    ensures var d := After(c, t);
      d == c.(waiting := d.waiting, sender := d.sender, buf := d.buf, panicked := d.panicked,
                    arrived := d.arrived, lost := d.lost, tally := d.tally)
  {
    hide Can, Bump, NextOfCaller, NextOfSender, NextOfOnce, NextOfDrain;
    var n := NextOfSender(c, t);
    assert Next(c, t) == n;
    hide Next;
  }

  lemma FrameOfOnce(c: Call, t: Step)
    requires Can(c, t) && OfOnce(t)
    ensures var d := After(c, t);
      d == c.(once := d.once, finalized := d.finalized, streamClosed := d.streamClosed, panicked := d.panicked,
                    done := d.done, doneSends := d.doneSends, tally := d.tally)
  {
    hide Can, Bump, NextOfCaller, NextOfSender, NextOfOnce, NextOfDrain;
    var n := NextOfOnce(c, t);
    assert Next(c, t) == n;
    hide Next;
  }

  lemma FrameOfDrain(c: Call, t: Step)
    requires Can(c, t) && OfDrain(t)
    ensures var d := After(c, t);
      d == c.(buf := d.buf, taken := d.taken, drain := d.drain, failedAt := d.failedAt,
                    requests := d.requests, tally := d.tally)
  {
    hide Can, Bump, NextOfCaller, NextOfSender, NextOfOnce, NextOfDrain;
    var n := NextOfDrain(c, t);
    assert Next(c, t) == n;
    hide Next;
  }

  lemma LifecycleKeptByCaller(c: Call, t: Step)
    requires Can(c, t) && Lifecycle(c) && OfCaller(t)
    ensures Lifecycle(After(c, t))
  {
    hide Bump, NextOfSender, NextOfOnce, NextOfDrain;
  }

  lemma LifecycleKeptBySender(c: Call, t: Step)
    requires Can(c, t) && Lifecycle(c) && OfSender(t)
    ensures Lifecycle(After(c, t))
  {
    hide Bump, NextOfCaller, NextOfOnce, NextOfDrain;
  }

  lemma LifecycleKeptByOnce(c: Call, t: Step)
    requires Can(c, t) && Lifecycle(c) && OfOnce(t)
    ensures Lifecycle(After(c, t))
  {
    hide Bump, NextOfCaller, NextOfSender, NextOfDrain;
  }

  lemma LifecycleKeptByDrain(c: Call, t: Step)
    requires Can(c, t) && Lifecycle(c) && !OfCaller(t) && !OfSender(t) && !OfOnce(t)
    ensures Lifecycle(After(c, t))
  {
    hide Bump, NextOfCaller, NextOfSender, NextOfOnce;
  }

  lemma LifecycleKept(c: Call, t: Step)
    requires Can(c, t) && Lifecycle(c)
    ensures Lifecycle(After(c, t))
  {
    if OfCaller(t) {
      LifecycleKeptByCaller(c, t);
    } else if OfSender(t) {
      LifecycleKeptBySender(c, t);
    } else if OfOnce(t) {
      LifecycleKeptByOnce(c, t);
    } else {
      LifecycleKeptByDrain(c, t);
    }
  }

  /** Arrivals that have left `enqueue`. */
  function Admitted(c: Call): int {
    |c.arrived| - (if c.sender.InFlight() then 1 else 0)
  }

  /** Chunks that left the channel through the drain, then chunks still in it. */
  function Passed(c: Call): seq<Chunk> {
    c.taken + c.buf
  }

  ghost predicate Increasing(s: seq<Chunk>) {
    forall i, j :: 0 <= i < j < |s| ==> s[i].serial < s[j].serial
  }

  /** Every chunk is the arrival its serial number names, and that arrival has been admitted. */
  ghost predicate Genuine(s: seq<Chunk>, c: Call) {
    forall i :: 0 <= i < |s| ==> s[i].serial < Admitted(c) && s[i].msg == c.arrived[s[i].serial]
  }

  /** Under DropOldest the channel holds the latest admitted arrivals, without a gap. */
  ghost predicate Suffix(c: Call) {
    forall j :: 0 <= j < |c.buf| ==> c.buf[j].serial == Admitted(c) - |c.buf| + j
  }

  ghost predicate Ordering(c: Call) {
    && (c.sender.InFlight() ==>
          |c.arrived| > 0 && c.sender.chunk == Chunk(|c.arrived| - 1, c.arrived[|c.arrived| - 1]))
    && Increasing(Passed(c))
    && Genuine(Passed(c), c)
    && |c.buf| <= c.cap
    && Admitted(c) == |c.taken| + |c.buf| + c.lost
    && (c.policy.DropOldest? ==> Suffix(c))
  }

  /** Dropping the head of the channel, with or without recording it as taken. */
  lemma PassedAfterTake(c: Call)
    requires c.buf != []
    ensures c.taken + [c.buf[0]] + c.buf[1..] == Passed(c)
  {
    assert c.buf == [c.buf[0]] + c.buf[1..];
  }

  lemma IncreasingWithout(s: seq<Chunk>, k: nat, c: Call)
    requires k < |s| && Increasing(s) && Genuine(s, c)
    ensures Increasing(s[..k] + s[k + 1..]) && Genuine(s[..k] + s[k + 1..], c)
  {
    var r := s[..k] + s[k + 1..];
    assert forall i :: 0 <= i < |r| ==> r[i] == s[if i < k then i else i + 1];
  }

  lemma OrderingOnTake(c: Call, t: Step)
    requires Can(c, t) && Lifecycle(c) && Ordering(c) && (t.Take? || t.Discard?)
    ensures Ordering(After(c, t))
  {
    hide Bump, NextOfCaller, NextOfSender, NextOfOnce, Ordering;
    OrderingMovesOn(c, After(c, t));
  }

  /** The head of the buffer becomes the last chunk taken. */
  lemma OrderingMovesOn(c: Call, d: Call)
    requires Ordering(c) && c.buf != [] && d.buf == c.buf[1..] && d.taken == c.taken + [c.buf[0]]
    requires d.arrived == c.arrived && d.cap == c.cap && d.policy == c.policy && d.lost == c.lost && d.sender == c.sender
    ensures Ordering(d)
  {
    PassedAfterTake(c);
    assert Passed(d) == Passed(c);
  }

  lemma OrderingOnEvict(c: Call)
    requires Can(c, Evict) && Lifecycle(c) && Ordering(c)
    ensures Ordering(After(c, Evict))
  {
    hide Bump, NextOfCaller, NextOfOnce, NextOfDrain, Ordering;
    var d := After(c, Evict);
    assert d.sender == Sending(c.sender.chunk) && SameBesides(c, d);
    if c.buf == [] {
      OrderingSame(c, d);
    } else {
      OrderingWithoutOldest(c, d);
    }
  }

  /** `d` differs from `c` at most in the buffer and in what is lost, as far as `Ordering` goes. */
  ghost predicate SameBesides(c: Call, d: Call) {
    && d.arrived == c.arrived && d.taken == c.taken && d.cap == c.cap && d.policy == c.policy
    && d.sender.InFlight() == c.sender.InFlight() && (c.sender.InFlight() ==> d.sender.chunk == c.sender.chunk)
  }

  lemma OrderingWithoutOldest(c: Call, d: Call)
    requires Ordering(c) && SameBesides(c, d) && c.buf != [] && d.buf == c.buf[1..] && d.lost == c.lost + 1
    ensures Ordering(d)
  {
    IncreasingWithout(Passed(c), |c.taken|, c);
    assert Passed(d) == Passed(c)[..|c.taken|] + Passed(c)[|c.taken| + 1..];
  }

  lemma OrderingOnPush(c: Call)
    requires Can(c, Push) && Lifecycle(c) && Ordering(c)
    ensures Ordering(After(c, Push))
  {
    hide Bump, NextOfCaller, NextOfOnce, NextOfDrain;
    var d := After(c, Push);
    assert Passed(d) == Passed(c) + [c.sender.chunk];
  }

  lemma OrderingOnLock(c: Call, k: nat)
    requires Can(c, Lock(k)) && Lifecycle(c) && Ordering(c)
    ensures Ordering(After(c, Lock(k)))
  {
    hide Bump, NextOfCaller, NextOfOnce, NextOfDrain;
    var d := After(c, Lock(k));
    assert Passed(d) == Passed(c) && Admitted(d) == Admitted(c);
    assert Genuine(Passed(d), d);
  }

  lemma OrderingOnLoss(c: Call, t: Step)
    requires Can(c, t) && Lifecycle(c) && Ordering(c)
    requires t.GiveUp? || t.DropIncoming? || t.Overflow?
    ensures Ordering(After(c, t))
  {
    hide Bump, NextOfCaller, NextOfOnce, NextOfDrain;
    var d := After(c, t);
    assert Passed(d) == Passed(c) && Admitted(d) == Admitted(c) + 1;
    if c.policy.DropOldest? { assert false; }
  }

  /** `d` differs from `c` in nothing that `Ordering` reads. */
  ghost predicate SameStream(c: Call, d: Call) {
    SameBesides(c, d) && d.buf == c.buf && d.lost == c.lost
  }

  lemma OrderingSame(c: Call, d: Call)
    requires Ordering(c) && SameStream(c, d)
    ensures Ordering(d)
  {
    assert Passed(d) == Passed(c) && Admitted(d) == Admitted(c);
  }

  predicate MovesChunks(t: Step) {
    t.Take? || t.Discard? || t.Evict? || t.Push? || t.Lock? || t.GiveUp? || t.DropIncoming? || t.Overflow?
  }

  lemma StreamUntouched(c: Call, t: Step)
    requires Can(c, t) && !MovesChunks(t)
    ensures SameStream(c, After(c, t))
  {
    hide Can, Next, Bump, After;
    if OfCaller(t) {
      FrameOfCaller(c, t);
    } else if OfOnce(t) {
      FrameOfOnce(c, t);
    } else if OfSender(t) {
      StreamUntouchedBySender(c, t);
    } else {
      StreamUntouchedByDrain(c, t);
    }
  }

  lemma StreamUntouchedBySender(c: Call, t: Step)
    requires Can(c, t) && !MovesChunks(t) && OfSender(t)
    ensures SameStream(c, After(c, t))
  {
    hide Bump, NextOfCaller, NextOfOnce, NextOfDrain;
  }

  lemma StreamUntouchedByDrain(c: Call, t: Step)
    requires Can(c, t) && !MovesChunks(t) && OfDrain(t)
    ensures SameStream(c, After(c, t))
  {
    hide Bump, NextOfCaller, NextOfSender, NextOfOnce;
  }

  lemma OrderingKept(c: Call, t: Step)
    requires Can(c, t) && Lifecycle(c) && Ordering(c)
    ensures Ordering(After(c, t))
  {
    if !MovesChunks(t) {
      StreamUntouched(c, t);
      OrderingSame(c, After(c, t));
    } else {
      match t
      case Evict => OrderingOnEvict(c);
      case Push => OrderingOnPush(c);
      case Lock(k) => OrderingOnLock(c, k);
      case GiveUp => OrderingOnLoss(c, t);
      case DropIncoming => OrderingOnLoss(c, t);
      case Overflow => OrderingOnLoss(c, t);
      case _ => OrderingOnTake(c, t);
    }
  }

  function One(b: bool): int { if b then 1 else 0 }

  /** Where every matched chunk is, and what the drain did with those it took. */
  ghost predicate Counting(c: Call) {
    && c.matched == |c.waiting| + One(c.sender.InFlight()) + |c.buf| + |c.taken|
                    + c.tally.dropped + c.tally.overflows
    && (c.failedAt.None? ==>
          |c.taken| == c.tally.delivered + One(c.drain.Handling?) && !c.drain.Failing? && !c.drain.Discarding?)
    && (c.failedAt.Some? ==>
          && c.failedAt.value == c.tally.delivered
          && 0 <= c.failedAt.value < |c.taken|
          && (c.drain.Failing? || c.drain.Discarding? || c.drain.OutOfLoop())
          && (c.drain.Failing? ==> |c.taken| == c.failedAt.value + 1))
    // who may lose chunks
    && c.tally.overflows <= 1
    && (c.tally.overflows == 1 ==> c.sender.Overflowing? || c.finalized)
    && (c.policy.Block? && c.lost > 0 ==> c.ctx.Expired?)
    && (c.policy.Error? ==> c.lost == c.tally.overflows)
    && (!c.policy.Error? ==> c.tally.overflows == 0)
    && c.tally.dropped >= 0 && c.tally.delivered >= 0 && c.tally.overflows >= 0
  }

  lemma CountingKeptByLock(c: Call, k: nat)
    requires Can(c, Lock(k)) && Lifecycle(c) && Counting(c)
    ensures Counting(After(c, Lock(k)))
  {
    hide NextOfCaller, NextOfOnce, NextOfDrain;
  }

  lemma CountingKeptBySender(c: Call, t: Step)
    requires Can(c, t) && Lifecycle(c) && Counting(c) && OfSender(t) && !t.Lock?
    ensures Counting(After(c, t))
  {
    hide NextOfCaller, NextOfOnce, NextOfDrain;
  }

  lemma CountingKeptByDrain(c: Call, t: Step)
    requires Can(c, t) && Lifecycle(c) && Counting(c) && OfDrain(t)
    ensures Counting(After(c, t))
  {
    hide NextOfCaller, NextOfSender, NextOfOnce;
  }

  lemma CountingKeptByCaller(c: Call, t: Step)
    requires Can(c, t) && Counting(c) && OfCaller(t)
    ensures Counting(After(c, t))
  {
    hide Can, Next;
    FrameOfCaller(c, t);
    ContextOnlyExpires(c, t);
  }

  lemma ContextOnlyExpires(c: Call, t: Step)
    requires Can(c, t) && OfCaller(t)
    ensures c.ctx.Expired? ==> After(c, t).ctx.Expired?
  {
    hide Bump, NextOfSender, NextOfOnce, NextOfDrain, WrapsHandlerFailed, OutcomeOf;
  }

  lemma CountingKeptByOnce(c: Call, t: Step)
    requires Can(c, t) && Counting(c) && OfOnce(t)
    ensures Counting(After(c, t))
  {
    hide Can, Next;
    FrameOfOnce(c, t);
    OnlyFinalizes(c, t);
  }

  lemma OnlyFinalizes(c: Call, t: Step)
    requires Can(c, t) && OfOnce(t)
    ensures c.finalized ==> After(c, t).finalized
  {
    hide Bump, NextOfCaller, NextOfSender, NextOfDrain;
  }

  lemma CountingKept(c: Call, t: Step)
    requires Can(c, t) && Lifecycle(c) && Counting(c)
    ensures Counting(After(c, t))
  {
    hide Counting, Lifecycle, Can, After;
    match t
    case Lock(k) => CountingKeptByLock(c, k);
    case _ =>
      if OfSender(t) {
        CountingKeptBySender(c, t);
      } else if OfDrain(t) {
        CountingKeptByDrain(c, t);
      } else if OfCaller(t) {
        CountingKeptByCaller(c, t);
      } else {
        CountingKeptByOnce(c, t);
      }
  }

  /** The counters a call has bumped are a function of where its goroutines are. */
  ghost predicate Accounting(c: Call) {
    && c.tally.inflight == One(!c.pc.Gone?)
    && c.tally.completed == One(c.pc.HasOutcome() && c.pc.outcome.Completed?)
    && c.tally.decodeErrs == One(c.pc.HasOutcome() && c.pc.outcome.Undecodable?)
    && c.tally.failedFast ==
         One(c.pc.HasOutcome() && c.pc.outcome.Failed? && WrapsHandlerFailed(c.pc.outcome.r))
    && c.tally.timedOut ==
         One(c.pc == Expiring(Deadline) || (c.pc.HasOutcome() && c.pc.outcome == ContextOver(Deadline)))
    && c.tally.cancelled ==
         One(c.pc == Expiring(Cancel) || (c.pc.HasOutcome() && c.pc.outcome == ContextOver(Cancel)))
    && c.tally.activeDrains == One(c.streaming && !c.drain.LeftActive? && !c.drain.LeftGroup? && !c.drain.Ended?)
    && c.tally.drainGroup == One(c.streaming && !c.drain.LeftGroup? && !c.drain.Ended?)
  }

  lemma AccountingKeptByReply(c: Call, t: Step)
    requires Can(c, t) && Lifecycle(c) && Accounting(c) && (t.Receive? || t.Settle?)
    ensures Accounting(After(c, t))
  {
    hide NextOfSender, NextOfOnce, NextOfDrain;
  }

  lemma AccountingKeptByCaller(c: Call, t: Step)
    requires Can(c, t) && Lifecycle(c) && Accounting(c) && OfCaller(t) && !t.Receive? && !t.Settle?
    ensures Accounting(After(c, t))
  {
    hide NextOfSender, NextOfOnce, NextOfDrain;
  }

  lemma AccountingKeptByDrain(c: Call, t: Step)
    requires Can(c, t) && Lifecycle(c) && Accounting(c) && OfDrain(t)
    ensures Accounting(After(c, t))
  {
    hide NextOfCaller, NextOfSender, NextOfOnce;
  }

  lemma AccountingKeptElsewhere(c: Call, t: Step)
    requires Can(c, t) && Accounting(c) && (OfSender(t) || OfOnce(t))
    ensures Accounting(After(c, t))
  {
    hide Can, Next;
    if OfSender(t) { FrameOfSender(c, t); } else { FrameOfOnce(c, t); }
  }

  lemma AccountingKept(c: Call, t: Step)
    requires Can(c, t) && Lifecycle(c) && Accounting(c)
    ensures Accounting(After(c, t))
  {
    hide Accounting, Lifecycle, Can, After;
    if t.Receive? || t.Settle? {
      AccountingKeptByReply(c, t);
    } else if OfCaller(t) {
      AccountingKeptByCaller(c, t);
    } else if OfDrain(t) {
      AccountingKeptByDrain(c, t);
    } else {
      AccountingKeptElsewhere(c, t);
    }
  }

  /** What the whole router has seen so far, as far as the origin of results is concerned. */
  datatype Seen = Seen(inbox: set<Message>, failures: set<Message>, closed: bool) {
    ghost predicate Within(later: Seen) {
      inbox <= later.inbox && failures <= later.failures && (closed ==> later.closed)
    }
  }

  /** Result `r` of call `id` has a cause of its own: a message with that id, or something
      that happened to this call or to the router. */
  ghost predicate Caused(w: Seen, id: nat, c: Call, r: Result) {
    match r
    case Reply(m) => m in w.inbox && m.done && m.cid == Some(id)
    case HandlerExhausted(m) => m in w.failures && m.cid == Some(id)
    case StreamHandlerFailed(_) => c.failedAt.Some?
    case Overflowed => c.policy.Error? && c.tally.overflows == 1
    case ContextEnded(why) => c.ctx == Expired(why)
    case PublishFailed => c.pc.Aborting? || (c.pc.HasOutcome() && c.pc.outcome.NotPublished?)
    case CallerClosed => w.closed
  }

  ghost predicate Provenance(w: Seen, id: nat, c: Call) {
    && (forall r :: r in c.requests ==> Caused(w, id, c, r))
    && (c.sender.Overflowing? ==> c.policy.Error? && c.tally.overflows == 1)
    && (c.once.Claimed? || c.once.Closing? ==> Caused(w, id, c, c.once.r))
    && (c.done.Some? ==> Caused(w, id, c, c.done.value))
    && (c.pc.Settling? ==> Caused(w, id, c, Reply(c.pc.msg)))
    && (c.pc.Expiring? ==> c.ctx == Expired(c.pc.why))
    && (c.pc.HasOutcome() ==>
          match c.pc.outcome
          case Completed(m) => Caused(w, id, c, Reply(m))
          case Undecodable(m) => Caused(w, id, c, Reply(m))
          case ErrorEnvelope(m) => Caused(w, id, c, Reply(m))
          case Failed(r) => Caused(w, id, c, r) && !r.Reply?
          case ContextOver(why) => c.ctx == Expired(why)
          case _ => true)
  }

  /** A cause stays a cause. */
  lemma CauseKept(w: Seen, id: nat, c: Call, t: Step, r: Result)
    requires Can(c, t) && Lifecycle(c) && Counting(c) && Caused(w, id, c, r)
    ensures Caused(w, id, After(c, t), r)
  {
    hide Can, Next, Bump, After, Counting, Lifecycle;
    CausesStay(c, t);
    if c.policy.Error? && c.tally.overflows == 1 { OverflowsStay(c, t); }
  }

  /** The fields that causes are read from only gain. */
  ghost predicate OnlyGains(c: Call, d: Call) {
    && d.policy == c.policy && (c.failedAt.Some? ==> d.failedAt.Some?)
    && (c.ctx.Expired? ==> d.ctx == c.ctx)
    && (c.pc.Aborting? || (c.pc.HasOutcome() && c.pc.outcome.NotPublished?) ==>
          d.pc.Aborting? || (d.pc.HasOutcome() && d.pc.outcome.NotPublished?))
  }

  lemma CausesStay(c: Call, t: Step)
    requires Can(c, t)
    ensures OnlyGains(c, After(c, t))
  {
    hide Can, Next, Bump, After, OnlyGains;
    if OfCaller(t) {
      CausesStayByCaller(c, t);
    } else if OfSender(t) {
      CausesStayBySender(c, t);
    } else if OfOnce(t) {
      CausesStayByOnce(c, t);
    } else {
      CausesStayByDrain(c, t);
    }
  }

  lemma CausesStayByCaller(c: Call, t: Step)
    requires Can(c, t) && OfCaller(t)
    ensures OnlyGains(c, After(c, t))
  {
    hide Bump, NextOfSender, NextOfOnce, NextOfDrain;
  }

  lemma CausesStayBySender(c: Call, t: Step)
    requires Can(c, t) && OfSender(t)
    ensures OnlyGains(c, After(c, t))
  {
    hide Can, Next, Bump, After;
    FrameOfSender(c, t);
  }

  lemma CausesStayByOnce(c: Call, t: Step)
    requires Can(c, t) && OfOnce(t)
    ensures OnlyGains(c, After(c, t))
  {
    hide Can, Next, Bump, After;
    FrameOfOnce(c, t);
  }

  lemma CausesStayByDrain(c: Call, t: Step)
    requires Can(c, t) && OfDrain(t)
    ensures OnlyGains(c, After(c, t))
  {
    hide Bump, NextOfCaller, NextOfSender, NextOfOnce;
  }

  lemma OverflowsStay(c: Call, t: Step)
    requires Can(c, t) && Lifecycle(c) && Counting(c) && c.policy.Error? && c.tally.overflows == 1
    ensures After(c, t).tally.overflows == 1
  {
    hide NextOfCaller, NextOfSender, NextOfOnce, NextOfDrain;
  }

  /** Every cause of before is one after the step. */
  ghost predicate CausesStand(w: Seen, id: nat, c: Call, d: Call) {
    forall r :: Caused(w, id, c, r) ==> Caused(w, id, d, r)
  }

  lemma CausesKept(w: Seen, id: nat, c: Call, t: Step)
    requires Can(c, t) && Lifecycle(c) && Counting(c)
    ensures CausesStand(w, id, c, After(c, t))
  {
    hide Can, After, Lifecycle, Counting, Caused;
    forall r | Caused(w, id, c, r) ensures Caused(w, id, After(c, t), r) {
      CauseKept(w, id, c, t, r);
    }
  }

  lemma ProvenanceKeptByReply(w: Seen, id: nat, c: Call, t: Step)
    requires Can(c, t) && Provenance(w, id, c) && CausesStand(w, id, c, After(c, t)) && (t.Receive? || t.Settle?)
    ensures Provenance(w, id, After(c, t))
  {
    hide Bump, NextOfSender, NextOfOnce, NextOfDrain, Caused, WrapsHandlerFailed;
  }

  lemma ProvenanceKeptByPublish(w: Seen, id: nat, c: Call, t: Step)
    requires Can(c, t) && Provenance(w, id, c) && CausesStand(w, id, c, After(c, t))
    requires t.PublishSucceeds? || t.PublishFails? || t.AbortReturns?
    ensures Provenance(w, id, After(c, t))
  {
    hide Bump, NextOfSender, NextOfOnce, NextOfDrain, OutcomeOf, WrapsHandlerFailed;
  }

  lemma ProvenanceKeptByExpiry(w: Seen, id: nat, c: Call, t: Step)
    requires Can(c, t) && Provenance(w, id, c) && CausesStand(w, id, c, After(c, t))
    requires t.ContextExpires? || t.NoticeExpiry? || t.ExpiryReturns? || t.Decrement?
    ensures Provenance(w, id, After(c, t))
  {
    hide Bump, NextOfSender, NextOfOnce, NextOfDrain, OutcomeOf, WrapsHandlerFailed;
  }

  lemma ProvenanceKeptBySender(w: Seen, id: nat, c: Call, t: Step)
    requires Can(c, t) && Lifecycle(c) && Counting(c)
    requires Provenance(w, id, c) && CausesStand(w, id, c, After(c, t)) && OfSender(t)
    ensures Provenance(w, id, After(c, t))
  {
    hide NextOfCaller, NextOfOnce, NextOfDrain, Caused;
  }

  lemma ProvenanceKeptByOnce(w: Seen, id: nat, c: Call, t: Step)
    requires Can(c, t) && Provenance(w, id, c) && CausesStand(w, id, c, After(c, t)) && OfOnce(t)
    ensures Provenance(w, id, After(c, t))
  {
    hide Bump, NextOfCaller, NextOfSender, NextOfDrain;
  }

  lemma ProvenanceKeptByDrain(w: Seen, id: nat, c: Call, t: Step)
    requires Can(c, t) && Provenance(w, id, c) && CausesStand(w, id, c, After(c, t)) && OfDrain(t)
    ensures Provenance(w, id, After(c, t))
  {
    hide NextOfCaller, NextOfSender, NextOfOnce;
  }

  lemma ProvenanceKept(w: Seen, id: nat, c: Call, t: Step)
    requires Can(c, t) && Lifecycle(c) && Counting(c) && Provenance(w, id, c)
    ensures Provenance(w, id, After(c, t))
  {
    hide Can, After, Lifecycle, Counting, Provenance, CausesStand;
    CausesKept(w, id, c, t);
    if t.Receive? || t.Settle? {
      ProvenanceKeptByReply(w, id, c, t);
    } else if t.PublishSucceeds? || t.PublishFails? || t.AbortReturns? {
      ProvenanceKeptByPublish(w, id, c, t);
    } else if OfCaller(t) {
      ProvenanceKeptByExpiry(w, id, c, t);
    } else if OfSender(t) {
      ProvenanceKeptBySender(w, id, c, t);
    } else if OfOnce(t) {
      ProvenanceKeptByOnce(w, id, c, t);
    } else {
      ProvenanceKeptByDrain(w, id, c, t);
    }
  }

  /** Everything known about one call. */
  ghost predicate CallInv(w: Seen, id: nat, c: Call) {
    Lifecycle(c) && Ordering(c) && Counting(c) && Accounting(c) && Provenance(w, id, c)
  }

  lemma CallInvKept(w: Seen, id: nat, c: Call, t: Step)
    requires Can(c, t) && CallInv(w, id, c)
    ensures CallInv(w, id, After(c, t))
  {
    LifecycleKept(c, t);
    OrderingKept(c, t);
    CountingKept(c, t);
    AccountingKept(c, t);
    ProvenanceKept(w, id, c, t);
  }

  lemma CallInvLater(w: Seen, later: Seen, id: nat, c: Call)
    requires CallInv(w, id, c) && w.Within(later)
    ensures CallInv(later, id, c)
  {
    forall r | Caused(w, id, c, r) ensures Caused(later, id, c, r) {}
  }

  lemma CallInvOfNew(w: Seen, id: nat, policy: BufferPolicy, streaming: bool, bufferSize: int, ctx: Context)
    ensures CallInv(w, id, NewCall(policy, streaming, bufferSize, ctx))
  {
    var c := NewCall(policy, streaming, bufferSize, ctx);
    hide NewCall;
    StartsOut(policy, streaming, bufferSize, ctx);
    assert Passed(c) == [] && Admitted(c) == 0;
  }

  /** What the invariant reads of a new call. */
  lemma StartsOut(policy: BufferPolicy, streaming: bool, bufferSize: int, ctx: Context)
    ensures var c := NewCall(policy, streaming, bufferSize, ctx);
      && c.streaming == streaming && c.cap >= 1 && c.pc.Publishing? && c.waiting == [] && c.sender.Unlocked?
      && c.buf == [] && !c.streamClosed && !c.panicked && c.requests == {} && c.once.Idle? && !c.finalized
      && c.done.None? && c.drain == (if streaming then Receiving else NoDrain) && c.matched == 0
      && c.arrived == [] && c.taken == [] && c.failedAt.None? && c.lost == 0 && c.doneSends == 0
      && c.tally == Opening(streaming)
  {
  }

  /** A party asks for a finalization, for a reason that is already on record. */
  lemma CallInvOfRequest(w: Seen, id: nat, c: Call, r: Result)
    requires CallInv(w, id, c) && Caused(w, id, c, r)
    ensures CallInv(w, id, c.(requests := c.requests + {r}))
  {
    var d := c.(requests := c.requests + {r});
    OrderingSame(c, d);
    forall q | Caused(w, id, c, q) ensures Caused(w, id, d, q) {}
  }

  lemma CallInvOfTerminal(w: Seen, id: nat, c: Call, m: Message)
    requires CallInv(w, id, c) && m in w.inbox && m.cid == Some(id) && m.done
    ensures CallInv(w, id, Deliver(c, m))
  {
    CallInvOfRequest(w, id, c, Reply(m));
    var e, d := c.(requests := c.requests + {Reply(m)}), Deliver(c, m);
    OrderingSame(e, d);
    forall q | Caused(w, id, e, q) ensures Caused(w, id, d, q) {}
  }

  lemma CountsOfChunk(c: Call, m: Message)
    requires Lifecycle(c) && Counting(c) && Accounting(c) && !m.done
    ensures Lifecycle(Deliver(c, m)) && Counting(Deliver(c, m)) && Accounting(Deliver(c, m))
  {
  }

  lemma ProvenanceOfChunk(w: Seen, id: nat, c: Call, m: Message)
    requires Provenance(w, id, c) && !m.done
    ensures Provenance(w, id, Deliver(c, m))
  {
    forall q | Caused(w, id, c, q) ensures Caused(w, id, Deliver(c, m), q) {}
  }

  lemma CallInvOfChunk(w: Seen, id: nat, c: Call, m: Message)
    requires CallInv(w, id, c) && !m.done
    ensures CallInv(w, id, Deliver(c, m))
  {
    OrderingSame(c, Deliver(c, m));
    CountsOfChunk(c, m);
    ProvenanceOfChunk(w, id, c, m);
  }

  lemma CallInvOfDelivery(w: Seen, id: nat, c: Call, m: Message)
    requires CallInv(w, id, c) && m in w.inbox && m.cid == Some(id)
    ensures CallInv(w, id, Deliver(c, m))
  {
    if m.done {
      CallInvOfTerminal(w, id, c, m);
    } else {
      CallInvOfChunk(w, id, c, m);
    }
  }

  lemma CallInvOfDeregistration(w: Seen, id: nat, c: Call)
    requires CallInv(w, id, c) && c.pc.Returned?
    ensures CallInv(w, id, c.(pc := Deregistered(c.pc.outcome)))
  {
    var d := c.(pc := Deregistered(c.pc.outcome));
    OrderingSame(c, d);
    forall q | Caused(w, id, c, q) ensures Caused(w, id, d, q) {}
  }
}
