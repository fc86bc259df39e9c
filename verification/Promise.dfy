/**
  Settling a promise from Go, after `vendor_quickjs/context.go`: the callbacks that
  `NewPromise` hands to its executor, the duplicated references behind them, and the job queue.
  Any number of goroutines call the callbacks; one step is one atomic operation of the program.
 */
module Promise {

  import opened Wrappers

  datatype Side = Resolve | Reject

  function Other(side: Side): Side { if side.Resolve? then Reject else Resolve }

  /** One thing for each of the two callbacks. */
  datatype Both<T> = Both(resolve: T, reject: T) {
    function Of(side: Side): T { if side.Resolve? then resolve else reject }

    function With(side: Side, value: T): Both<T> {
      if side.Resolve? then Both(value, reject) else Both(resolve, value)
    }
  }

  /** Where a call of a callback stands: before the swap of `settled`, before the swap of
      `consumed`, before `Schedule`, before the release of the other side, or finished. */
  datatype Stage = AtSwap | AtConsume | AtSchedule | AtRelease | Finished

  /** A call of `resolve` or `reject`.  `arg` says that it was given a value, whose duplicate it
      then owns, and `argFrees` counts the releases of that duplicate. */
  datatype Call = Call(side: Side, arg: bool, stage: Stage, argFrees: nat)

  datatype Job = Settle(call: nat) | Foreign

  /** An execution of a JS function: for which call, of which side, and whether the duplicates of
      the function and of the argument were still owned. */
  datatype Execution = Execution(call: nat, side: Side, fnLive: bool, argLive: bool)

  /** `swaps`, `refused` and `dropped` record the order of the swaps, the jobs that `Schedule` turned
      down, and the jobs that `Close` threw away.  No step reads them. */
  datatype State = State(
    settled: Option<Side>, consumed: Both<bool>, fnFrees: Both<nat>, calls: seq<Call>,
    queue: seq<Job>, running: set<nat>, closed: bool,
    executed: seq<Execution>, swaps: seq<nat>, refused: set<nat>, dropped: set<nat>, ran: set<nat>)

  const INITIAL := State(None, Both(false, false), Both(0, 0), [], [], {}, false, [], [], {}, {}, {})

  const QUEUE_SIZE := 1024

  datatype Action =
    | Begin(side: Side, arg: bool)
    | Swap(call: nat) | Consume(call: nat) | Schedule(call: nat, accepted: bool) | Release(call: nat)
    | Post | StartJob | EndJob(call: nat)
    | Close | Drop

  predicate At(s: State, k: nat, stage: Stage) { k < |s.calls| && s.calls[k].stage == stage }

  predicate Enabled(s: State, a: Action) {
    match a
    case Begin(_, _) => true
    case Swap(k) => At(s, k, AtSwap)
    case Consume(k) => At(s, k, AtConsume)
    case Schedule(k, accepted) => At(s, k, AtSchedule) && (if accepted then |s.queue| < QUEUE_SIZE else s.closed)
    case Release(k) => At(s, k, AtRelease)
    case Post => |s.queue| < QUEUE_SIZE
    case StartJob => s.queue != [] && (s.queue[0].Settle? ==> s.queue[0].call < |s.calls|)
    case EndJob(k) => k in s.running && k < |s.calls|
    case Close => true
    case Drop => s.closed && s.queue != []
  }

  function Moved(s: State, k: nat, stage: Stage): State
    requires k < |s.calls|
  {
    s.(calls := s.calls[k := s.calls[k].(stage := stage)])
  }

  function FreeFn(s: State, side: Side): State {
    s.(fnFrees := s.fnFrees.With(side, s.fnFrees.Of(side) + 1))
  }

  function FreeArg(s: State, k: nat): State
    requires k < |s.calls|
  {
    if s.calls[k].arg then s.(calls := s.calls[k := s.calls[k].(argFrees := s.calls[k].argFrees + 1)]) else s
  }

  function Apply(s: State, a: Action): State
    requires Enabled(s, a)
  {
    match a
    case Begin(side, arg) => s.(calls := s.calls + [Call(side, arg, AtSwap, 0)])
    case Swap(k) =>
      var seen := s.(swaps := s.swaps + [k]);
      if s.settled.None? then Moved(seen, k, AtConsume).(settled := Some(s.calls[k].side))
      else Moved(seen, k, Finished)
    case Consume(k) =>
      var side := s.calls[k].side;
      Moved(s, k, if s.consumed.Of(side) then AtRelease else AtSchedule).(consumed := s.consumed.With(side, true))
    case Schedule(k, accepted) =>
      if accepted then Moved(s, k, AtRelease).(queue := s.queue + [Settle(k)])
      else FreeFn(FreeArg(Moved(s, k, AtRelease), k), s.calls[k].side).(refused := s.refused + {k})
    case Release(k) =>
      var other := Other(s.calls[k].side);
      var done := Moved(s, k, Finished).(consumed := s.consumed.With(other, true));
      if s.consumed.Of(other) then done else FreeFn(done, other)
    case Post => s.(queue := s.queue + [Foreign])
    case StartJob =>
      var rest := s.(queue := s.queue[1..]);
      (match s.queue[0]
       case Foreign => rest
       case Settle(k) =>
         var c := s.calls[k];
         rest.(running := s.running + {k},
               executed := s.executed + [Execution(k, c.side, s.fnFrees.Of(c.side) == 0, c.argFrees == 0)]))
    case EndJob(k) =>
      FreeFn(FreeArg(s, k), s.calls[k].side).(running := s.running - {k}, ran := s.ran + {k})
    case Close => s.(closed := true)
    case Drop =>
      var rest := s.(queue := s.queue[1..]);
      if s.queue[0].Settle? then rest.(dropped := s.dropped + {s.queue[0].call}) else rest
  }

  ghost predicate IsRun(states: seq<State>, actions: seq<Action>) {
    && |states| == |actions| + 1
    && states[0] == INITIAL
    && forall k :: 0 <= k < |actions| ==>
         Enabled(states[k], actions[k]) && states[k + 1] == Apply(states[k], actions[k])
  }

  // ----- the invariant -----

  /** The job of call `k` is in the queue, once. */
  ghost predicate Queued(s: State, k: nat) { Settle(k) in s.queue }

  ghost predicate NoRepeats(queue: seq<Job>) {
    forall i, j :: 0 <= i < j < |queue| && queue[i].Settle? ==> queue[i] != queue[j]
  }

  /** Only call `w` has got as far as making a job. */
  ghost predicate OnlyFor(s: State, w: int) {
    && (forall k: nat :: Settle(k) in s.queue ==> k == w)
    && (forall k :: k in s.running || k in s.refused || k in s.dropped || k in s.ran ==> k == w)
  }

  /** A call that is not the first to swap has done nothing and will do nothing. */
  ghost predicate Idle(c: Call) { (c.stage.AtSwap? || c.stage.Finished?) && c.argFrees == 0 }

  function One(b: bool): nat { if b then 1 else 0 }

  /** In how many places the job of `w` is: waiting, running, refused, thrown away or done. */
  ghost function Places(s: State, w: nat): nat {
    One(Queued(s, w)) + One(w in s.running) + One(w in s.refused) + One(w in s.dropped) + One(w in s.ran)
  }

  ghost predicate Unsettled(s: State) {
    && s.consumed == Both(false, false) && s.fnFrees == Both(0, 0) && s.executed == [] && s.swaps == []
    && OnlyFor(s, -1)
    && forall k :: 0 <= k < |s.calls| ==> s.calls[k].stage.AtSwap? && s.calls[k].argFrees == 0
  }

  /** How often the duplicates that belong to the job of `w` have been released. */
  function JobFrees(s: State, w: nat): nat { One(w in s.refused || w in s.ran) }

  ghost predicate SettledBy(s: State, w: nat) {
    && w < |s.calls| && s.settled == Some(s.calls[w].side)
    && s.swaps != [] && s.swaps[0] == w
    && OnlyFor(s, w)
    && (forall k :: 0 <= k < |s.calls| && k != w ==> Idle(s.calls[k]))
    && var c := s.calls[w]; var other := Other(c.side);
    && !c.stage.AtSwap?
    && s.consumed.Of(c.side) == !c.stage.AtConsume?
    && s.consumed.Of(other) == c.stage.Finished?
    && s.fnFrees.Of(other) == (if c.stage.Finished? then 1 else 0)
    && s.fnFrees.Of(c.side) == JobFrees(s, w)
    && c.argFrees == (if c.arg then JobFrees(s, w) else 0)
    && Places(s, w) == One(c.stage.AtRelease? || c.stage.Finished?)
    && s.executed == (if w in s.running || w in s.ran then [Execution(w, c.side, true, true)] else [])
  }

  ghost predicate Inv(s: State) {
    && NoRepeats(s.queue)
    && (s.dropped != {} ==> s.closed)
    && (s.refused != {} ==> s.closed)
    && (if s.settled.None? then Unsettled(s) else exists w: nat :: SettledBy(s, w))
  }

  // ----- every step keeps it -----

  lemma FirstSwap(s: State, k: nat)
    requires Inv(s) && s.settled.None? && Enabled(s, Swap(k))
    ensures SettledBy(Apply(s, Swap(k)), k)
  {
  }

  lemma UnsettledKept(s: State, a: Action)
    requires Inv(s) && s.settled.None? && Enabled(s, a) && !a.Swap?
    ensures Unsettled(Apply(s, a)) && Apply(s, a).settled.None?
  {
  }

  /** Steps of the calls after the promise has been settled by `w`. */
  lemma CallsKept(s: State, w: nat, a: Action)
    requires SettledBy(s, w) && Enabled(s, a) && (a.Begin? || a.Swap?)
    ensures SettledBy(Apply(s, a), w)
  {
  }

  /** Only `w` itself can be past its swap. */
  lemma FirstCallKept(s: State, w: nat, a: Action)
    requires SettledBy(s, w) && Enabled(s, a) && (a.Consume? || a.Release?)
    ensures SettledBy(Apply(s, a), w)
  {
    assert a.call == w;
  }

  lemma ScheduleKept(s: State, w: nat, a: Action)
    requires SettledBy(s, w) && Enabled(s, a) && a.Schedule?
    ensures SettledBy(Apply(s, a), w)
  {
    assert a.call == w;
  }

  /** The head of the queue leaves it. */
  lemma HeadKept(s: State, w: nat, a: Action)
    requires NoRepeats(s.queue) && SettledBy(s, w) && Enabled(s, a) && (a.StartJob? || a.Drop?)
    ensures SettledBy(Apply(s, a), w)
  {
    assert s.queue == [s.queue[0]] + s.queue[1..];
    assert s.queue[0].Settle? ==> s.queue[0] !in s.queue[1..];
  }

  lemma QueueKept(s: State, w: nat, a: Action)
    requires SettledBy(s, w) && Enabled(s, a) && (a.Post? || a.EndJob? || a.Close?)
    ensures SettledBy(Apply(s, a), w)
  {
  }

  lemma RepeatsKept(s: State, a: Action)
    requires Inv(s) && Enabled(s, a)
    ensures NoRepeats(Apply(s, a).queue)
  {
  }

  lemma InvKept(s: State, a: Action)
    requires Inv(s) && Enabled(s, a)
    ensures Inv(Apply(s, a))
  {
    hide SettledBy, Unsettled, NoRepeats;
    RepeatsKept(s, a);
    if s.settled.None? {
      if a.Swap? { FirstSwap(s, a.call); } else { UnsettledKept(s, a); }
    } else {
      var w: nat :| SettledBy(s, w);
      if a.Begin? || a.Swap? {
        CallsKept(s, w, a);
      } else if a.Consume? || a.Release? {
        FirstCallKept(s, w, a);
      } else if a.Schedule? {
        ScheduleKept(s, w, a);
      } else if a.StartJob? || a.Drop? {
        HeadKept(s, w, a);
      } else {
        QueueKept(s, w, a);
      }
    }
  }

  lemma {:induction false} InvAlways(states: seq<State>, actions: seq<Action>, n: nat)
    requires IsRun(states, actions) && n < |states|
    ensures Inv(states[n])
    decreases n
  {
    if n > 0 {
      InvAlways(states, actions, n - 1);
      InvKept(states[n - 1], actions[n - 1]);
    }
  }

  // ----- what holds in every run -----

  /** The calls in the order in which they swap `settled`. */
  function SwapOrder(actions: seq<Action>): seq<nat> {
    if actions == [] then []
    else
      var last := actions[|actions| - 1];
      SwapOrder(actions[..|actions| - 1]) + (if last.Swap? then [last.call] else [])
  }

  lemma {:induction false} SwapsAreHistory(states: seq<State>, actions: seq<Action>, n: nat)
    requires IsRun(states, actions) && n < |states|
    ensures states[n].swaps == SwapOrder(actions[..n])
    decreases n
  {
    if n > 0 {
      SwapsAreHistory(states, actions, n - 1);
      assert actions[..n][..n - 1] == actions[..n - 1];
    }
  }

  /** The context is closed once it has been closed, and the records say which jobs were turned down,
      thrown away and run to their end. */
  lemma {:induction false} RecordsAreHistory(states: seq<State>, actions: seq<Action>, n: nat, k: nat)
    requires IsRun(states, actions) && n < |states|
    ensures states[n].closed <==> exists j :: 0 <= j < n && actions[j] == Close
    ensures k in states[n].refused <==> exists j :: 0 <= j < n && actions[j] == Schedule(k, false)
    ensures k in states[n].dropped <==>
      exists j :: 0 <= j < n && actions[j] == Drop && states[j].queue != [] && states[j].queue[0] == Settle(k)
    ensures k in states[n].ran <==> exists j :: 0 <= j < n && actions[j] == EndJob(k)
    decreases n
  {
    hide Apply, Enabled;
    if n > 0 {
      var a := actions[n - 1];
      RecordsAreHistory(states, actions, n - 1, k);
      RecordsStep(states[n - 1], a, k);
      if a == Close || a == Schedule(k, false) || a == Drop || a == EndJob(k) {
        assert 0 <= n - 1 < n && actions[n - 1] == a;
      }
    }
  }

  lemma RecordsStep(s: State, a: Action, k: nat)
    requires Enabled(s, a)
    ensures Apply(s, a).closed <==> s.closed || a == Close
    ensures k in Apply(s, a).refused <==> k in s.refused || a == Schedule(k, false)
    ensures k in Apply(s, a).dropped <==> k in s.dropped || (a == Drop && s.queue != [] && s.queue[0] == Settle(k))
    ensures k in Apply(s, a).ran <==> k in s.ran || a == EndJob(k)
  {
  }

  /** The job that the action puts into the queue, and the one that it takes out. */
  function JobIn(a: Action): seq<Job> {
    if a.Post? then [Foreign] else if a.Schedule? && a.accepted then [Settle(a.call)] else []
  }

  function JobOut(s: State, a: Action): seq<Job> {
    if (a.StartJob? || a.Drop?) && s.queue != [] then [s.queue[0]] else []
  }

  ghost function PutIn(actions: seq<Action>, n: nat): seq<Job>
    requires n <= |actions|
  {
    if n == 0 then [] else PutIn(actions, n - 1) + JobIn(actions[n - 1])
  }

  ghost function TakenOut(states: seq<State>, actions: seq<Action>, n: nat): seq<Job>
    requires n <= |actions| && |states| == |actions| + 1
  {
    if n == 0 then [] else TakenOut(states, actions, n - 1) + JobOut(states[n - 1], actions[n - 1])
  }

  /** Jobs leave the queue in the order in which they entered it, and none gets lost on the way. */
  lemma {:induction false} QueueIsFifo(states: seq<State>, actions: seq<Action>, n: nat)
    requires IsRun(states, actions) && n < |states|
    ensures PutIn(actions, n) == TakenOut(states, actions, n) + states[n].queue
    decreases n
  {
    hide Apply, Enabled, JobIn, JobOut;
    if n > 0 {
      var s, a := states[n - 1], actions[n - 1];
      QueueIsFifo(states, actions, n - 1);
      QueueStep(s, a);
      var taken := TakenOut(states, actions, n - 1);
      assert (taken + s.queue) + JobIn(a) == taken + (s.queue + JobIn(a));
      assert taken + (JobOut(s, a) + states[n].queue) == (taken + JobOut(s, a)) + states[n].queue;
    }
  }

  lemma QueueStep(s: State, a: Action)
    requires Enabled(s, a)
    ensures JobOut(s, a) + Apply(s, a).queue == s.queue + JobIn(a)
  {
  }

  /** A job that is started executes the function of its call's side, for that call. */
  lemma StartExecutes(states: seq<State>, actions: seq<Action>, n: nat, k: nat)
    requires IsRun(states, actions) && n < |actions| && actions[n] == StartJob && states[n].queue[0] == Settle(k)
    ensures k < |states[n].calls| && k in states[n + 1].running
    ensures states[n + 1].executed == states[n].executed + [Execution(k, states[n].calls[k].side, true, true)]
  {
    InvAlways(states, actions, n);
    InvAlways(states, actions, n + 1);
  }

  /** At most one JS function is ever executed; it is that of the call that swapped first, and
      its references are owned when it is. */
  lemma FirstCallWins(states: seq<State>, actions: seq<Action>, n: nat)
    requires IsRun(states, actions) && n < |states|
    ensures var s, order := states[n], SwapOrder(actions[..n]);
      s.executed == [] || (&& order != [] && order[0] < |s.calls|
                           && s.executed == [Execution(order[0], s.calls[order[0]].side, true, true)])
  {
    InvAlways(states, actions, n);
    SwapsAreHistory(states, actions, n);
  }

  /** Which duplicates of the two functions have been released, and that none is twice. */
  ghost predicate FnFreesExact(s: State) {
    forall side: Side ::
      s.fnFrees.Of(side) == One(
        && s.swaps != [] && s.swaps[0] < |s.calls|
        && var w := s.swaps[0];
           if s.calls[w].side == side then w in s.refused || w in s.ran else s.calls[w].stage.Finished?)
  }

  /** The duplicate of an argument exists only for the first call and is released once, with the
      job. */
  ghost predicate ArgFreesExact(s: State) {
    forall k :: 0 <= k < |s.calls| ==>
      s.calls[k].argFrees == One(s.calls[k].arg && s.swaps != [] && k == s.swaps[0] && (k in s.refused || k in s.ran))
  }

  /** Nothing is released while a job that uses it runs. */
  ghost predicate RunningOwns(s: State) {
    forall k :: k in s.running ==>
      k < |s.calls| && s.fnFrees.Of(s.calls[k].side) == 0 && s.calls[k].argFrees == 0
  }

  lemma Ownership(states: seq<State>, actions: seq<Action>, n: nat)
    requires IsRun(states, actions) && n < |states|
    ensures FnFreesExact(states[n]) && ArgFreesExact(states[n]) && RunningOwns(states[n])
  {
    InvAlways(states, actions, n);
    OwnershipOf(states[n]);
  }

  lemma OwnershipOf(s: State)
    requires Inv(s)
    ensures FnFreesExact(s) && ArgFreesExact(s) && RunningOwns(s)
  {
    hide NoRepeats;
    if s.settled.Some? {
      var w: nat :| SettledBy(s, w);
    }
  }

  ghost predicate Quiet(s: State) {
    && s.running == {} && (forall k :: Settle(k) !in s.queue)
    && forall k :: 0 <= k < |s.calls| ==> s.calls[k].stage.Finished?
  }

  lemma UnsettledIsNotQuiet(s: State)
    requires Unsettled(s) && s.calls != []
    ensures !Quiet(s)
  {
    assert s.calls[0].stage.AtSwap?;
  }

  /** When every call has returned and no job is left, both duplicates have been released exactly
      once unless `Close` threw the job away, and a function was executed unless the job was
      thrown away or refused. */
  lemma QuietIsClean(s: State)
    requires Inv(s) && Quiet(s) && s.calls != []
    ensures s.swaps != [] && s.swaps[0] < |s.calls|
    ensures s.fnFrees == Both(1, 1) <==> s.dropped == {}
    ensures s.executed == [Execution(s.swaps[0], s.calls[s.swaps[0]].side, true, true)] <==> s.dropped == s.refused == {}
  {
    hide NoRepeats;
    if s.settled.None? {
      UnsettledIsNotQuiet(s);
    } else {
      var w: nat :| SettledBy(s, w);
      assert !Queued(s, w);
    }
  }

  lemma QuietRunIsClean(states: seq<State>, actions: seq<Action>, n: nat)
    requires IsRun(states, actions) && n < |states| && Quiet(states[n]) && states[n].calls != []
    ensures var s := states[n];
      && (s.fnFrees == Both(1, 1) <==> s.dropped == {})
      && (|s.executed| == 1 <==> s.dropped == s.refused == {})
      && (!s.closed ==> s.fnFrees == Both(1, 1) && |s.executed| == 1)
  {
    InvAlways(states, actions, n);
    FirstCallWins(states, actions, n);
    QuietIsClean(states[n]);
  }

  /** After the promise is settled, a call other than the first can only swap, and that changes
      nothing but its own stage. */
  lemma LaterCallsAreInert(states: seq<State>, actions: seq<Action>, n: nat, a: Action, k: nat)
    requires IsRun(states, actions) && n < |states| && Enabled(states[n], a)
    requires states[n].swaps != [] && k != states[n].swaps[0]
    requires a == Swap(k) || a == Consume(k) || a == Release(k) || a == Schedule(k, true) || a == Schedule(k, false)
    ensures a == Swap(k)
    ensures var s := states[n];
      Apply(s, a) == s.(calls := s.calls[k := s.calls[k].(stage := Finished)], swaps := s.swaps + [k])
  {
    InvAlways(states, actions, n);
  }

  // ----- the program, one goroutine -----

  /** A call of a callback that nobody interrupts.  On an open context with a full queue it gets
      no further than `Schedule`. */
  function SettleNow(s: State, side: Side, arg: bool): (s': State) {
    var k := |s.calls|;
    var won := Apply(Apply(s, Begin(side, arg)), Swap(k));
    if won.calls[k].stage.Finished? then won else FinishNow(won, k)
  }

  function FinishNow(s: State, k: nat): (s': State)
    requires At(s, k, AtConsume)
  {
    var sent := CallbackNow(s, k);
    if sent.calls[k].stage.AtRelease? then Apply(sent, Release(k)) else sent
  }

  function CallbackNow(s: State, k: nat): (s': State)
    requires At(s, k, AtConsume)
    ensures k < |s'.calls|
  {
    var used := Apply(s, Consume(k));
    if used.calls[k].stage.AtSchedule? then ScheduleNow(used, k) else used
  }

  predicate Blocks(s: State) { !s.closed && |s.queue| >= QUEUE_SIZE }

  function ScheduleNow(s: State, k: nat): (s': State)
    requires At(s, k, AtSchedule)
    ensures k < |s'.calls|
  {
    if Blocks(s) then s else Apply(s, Schedule(k, !s.closed))
  }

  lemma SettleNowKeeps(s: State, side: Side, arg: bool)
    requires Inv(s)
    ensures Inv(SettleNow(s, side, arg))
  {
    hide Inv, FinishNow;
    var k := |s.calls|;
    var begun := Apply(s, Begin(side, arg));
    InvKept(s, Begin(side, arg));
    InvKept(begun, Swap(k));
    var won := Apply(begun, Swap(k));
    if !won.calls[k].stage.Finished? {
      FinishNowKeeps(won, k);
    }
  }

  lemma FinishNowKeeps(s: State, k: nat)
    requires Inv(s) && At(s, k, AtConsume)
    ensures Inv(FinishNow(s, k))
  {
    hide Inv;
    InvKept(s, Consume(k));
    var used, sent := Apply(s, Consume(k)), CallbackNow(s, k);
    if used.calls[k].stage.AtSchedule? && !Blocks(used) {
      InvKept(used, Schedule(k, !s.closed));
    }
    if sent.calls[k].stage.AtRelease? {
      InvKept(sent, Release(k));
    }
  }

  /** One turn of `ProcessJobs`: the oldest job runs to its end. */
  function JobNow(s: State): (s': State)
    requires s.queue != [] && (s.queue[0].Settle? ==> s.queue[0].call < |s.calls|)
  {
    var started := Apply(s, StartJob);
    if s.queue[0].Settle? then Apply(started, EndJob(s.queue[0].call)) else started
  }

  lemma JobNowKeeps(s: State)
    requires Inv(s) && s.queue != []
    ensures s.queue[0].Settle? ==> s.queue[0].call < |s.calls|
    ensures Inv(JobNow(s)) && JobNow(s).queue == s.queue[1..] && JobNow(s).running <= s.running
    ensures JobNow(s).swaps == s.swaps && JobNow(s).dropped == s.dropped && JobNow(s).refused == s.refused
    ensures SameStages(JobNow(s).calls, s.calls)
  {
    HeadIsKnown(s);
    hide Inv;
    InvKept(s, StartJob);
    if s.queue[0].Settle? {
      InvKept(Apply(s, StartJob), EndJob(s.queue[0].call));
    }
  }

  lemma HeadIsKnown(s: State)
    requires Inv(s) && s.queue != []
    ensures s.queue[0].Settle? ==> s.queue[0].call < |s.calls|
  {
    if s.queue[0].Settle? {
      assert Settle(s.queue[0].call) in s.queue;
    }
  }

  ghost predicate SameStages(a: seq<Call>, b: seq<Call>) {
    |a| == |b| && forall k :: 0 <= k < |a| ==> a[k].stage == b[k].stage && a[k].side == b[k].side
  }

  /** A context with one promise on it. */
  class Context {
    var settled: Option<Side>
    var consumed: Both<bool>
    var fnFrees: Both<nat>
    var calls: seq<Call>
    var queue: seq<Job>
    var closed: bool
    ghost var running: set<nat>
    ghost var executed: seq<Execution>
    ghost var swaps: seq<nat>
    ghost var refused: set<nat>
    ghost var dropped: set<nat>
    ghost var ran: set<nat>

    ghost function View(): State
      reads this
    {
      State(settled, consumed, fnFrees, calls, queue, running, closed, executed, swaps, refused, dropped, ran)
    }

    constructor ()
      ensures View() == INITIAL && Inv(View())
    {
      settled, consumed, fnFrees := None, Both(false, false), Both(0, 0);
      calls, queue, closed := [], [], false;
      running, executed, swaps, refused, dropped, ran := {}, [], [], {}, {}, {};
    }

    /** A call of `resolve` or `reject`. */
    method SettleCall(side: Side, arg: bool) returns (blocked: bool)
      requires Inv(View())
      modifies this
      ensures blocked <==> old(settled.None? && !closed && |queue| >= QUEUE_SIZE)
      ensures View() == SettleNow(old(View()), side, arg) && Inv(View())
    {
      hide Inv;
      SettleNowKeeps(View(), side, arg);
      var k := |calls|;
      calls := calls + [Call(side, arg, AtSwap, 0)];
      swaps := swaps + [k];
      if settled.Some? {
        calls := calls[k := calls[k].(stage := Finished)];
        return false;
      }
      NothingConsumed(old(View()));
      settled := Some(side);
      calls := calls[k := calls[k].(stage := AtConsume)];
      assert View() == Apply(Apply(old(View()), Begin(side, arg)), Swap(k));
      blocked := Finish(k);
    }

    /** What the first call goes on to do. */
    method Finish(k: nat) returns (blocked: bool)
      requires k < |calls| && calls[k].stage == AtConsume
      modifies this
      ensures View() == FinishNow(old(View()), k)
      ensures blocked <==> !old(consumed).Of(old(calls)[k].side) && Blocks(old(View()))
    {
      blocked := Callback(k);
      if !blocked {
        ReleaseOther(k);
      }
    }

    /** A blocked call goes on once there is room or the context is closed. */
    method Resume(k: nat)
      requires Inv(View()) && k < |calls| && calls[k].stage == AtSchedule && !Blocks(View())
      modifies this
      ensures View() == Apply(Apply(old(View()), Schedule(k, !old(closed))), Release(k)) && Inv(View())
    {
      InvKept(View(), Schedule(k, !closed));
      var blocked := ScheduleJob(k);
      InvKept(View(), Release(k));
      ReleaseOther(k);
    }

    /** The callback proper: the job takes over the function, or it is released here. */
    method Callback(k: nat) returns (blocked: bool)
      requires k < |calls| && calls[k].stage == AtConsume
      modifies this
      ensures View() == CallbackNow(old(View()), k)
      ensures blocked <==> !old(consumed).Of(old(calls)[k].side) && Blocks(old(View()))
      ensures !blocked ==> k < |calls| && calls[k].stage == AtRelease
    {
      var side := calls[k].side;
      if consumed.Of(side) {
        consumed := consumed.With(side, true);
        calls := calls[k := calls[k].(stage := AtRelease)];
        return false;
      }
      consumed := consumed.With(side, true);
      calls := calls[k := calls[k].(stage := AtSchedule)];
      assert View() == Apply(old(View()), Consume(k));
      blocked := ScheduleJob(k);
    }

    /** `Schedule`, and the releases that follow when it refuses. */
    method ScheduleJob(k: nat) returns (blocked: bool)
      requires k < |calls| && calls[k].stage == AtSchedule
      modifies this
      ensures View() == ScheduleNow(old(View()), k)
      ensures blocked <==> Blocks(old(View()))
      ensures !blocked ==> k < |calls| && calls[k].stage == AtRelease
    {
      if !closed && |queue| >= QUEUE_SIZE { return true; }
      blocked := false;
      calls := calls[k := calls[k].(stage := AtRelease)];
      if !closed {
        queue := queue + [Settle(k)];
        return;
      }
      FreeArgument(k);
      fnFrees := fnFrees.With(calls[k].side, fnFrees.Of(calls[k].side) + 1);
      refused := refused + {k};
    }

    method FreeArgument(k: nat)
      requires k < |calls|
      modifies this`calls
      ensures View() == FreeArg(old(View()), k)
    {
      if calls[k].arg {
        calls := calls[k := calls[k].(argFrees := calls[k].argFrees + 1)];
      }
    }

    /** The release function of the other side. */
    method ReleaseOther(k: nat)
      requires k < |calls| && calls[k].stage == AtRelease
      modifies this
      ensures View() == Apply(old(View()), Release(k))
    {
      var other := Other(calls[k].side);
      calls := calls[k := calls[k].(stage := Finished)];
      if !consumed.Of(other) {
        fnFrees := fnFrees.With(other, fnFrees.Of(other) + 1);
      }
      consumed := consumed.With(other, true);
    }

    /** Runs jobs until the queue is empty. */
    method ProcessJobs()
      requires Inv(View())
      modifies this
      ensures Inv(View()) && queue == [] && running <= old(running)
      ensures swaps == old(swaps) && dropped == old(dropped) && refused == old(refused)
      ensures SameStages(calls, old(calls))
    {
      while queue != []
        invariant Inv(View()) && running <= old(running)
        invariant swaps == old(swaps) && dropped == old(dropped) && refused == old(refused)
        invariant SameStages(calls, old(calls))
        decreases |queue|
      {
        JobNowKeeps(View());
        RunJob();
      }
    }

    method RunJob()
      requires queue != [] && (queue[0].Settle? ==> queue[0].call < |calls|)
      modifies this
      ensures View() == JobNow(old(View()))
    {
      var job := queue[0];
      queue := queue[1..];
      if job.Settle? {
        var k, side := job.call, calls[job.call].side;
        executed := executed + [Execution(k, side, fnFrees.Of(side) == 0, calls[k].argFrees == 0)];
        running := running + {k};
        assert View() == Apply(old(View()), StartJob);
        FinishJob(k);
      }
    }

    method FinishJob(k: nat)
      requires k in running && k < |calls|
      modifies this
      ensures View() == Apply(old(View()), EndJob(k))
    {
      var side := calls[k].side;
      FreeArgument(k);
      fnFrees := fnFrees.With(side, fnFrees.Of(side) + 1);
      running := running - {k};
      ran := ran + {k};
    }

    /** A promise whose executor calls the callbacks `script` in order before it returns: the first
        call settles it, the others do nothing, and no duplicate is left. */
    method NewPromise(script: seq<(Side, bool)>)
      requires View() == INITIAL
      modifies this
      ensures Inv(View()) && queue == []
      ensures script == [] ==> executed == [] && fnFrees == Both(0, 0)
      ensures script != [] ==> executed == [Execution(0, script[0].0, true, true)] && fnFrees == Both(1, 1)
    {
      hide Inv;
      InitiallyInv();
      for i := 0 to |script|
        invariant Inv(View()) && |calls| == i && |queue| <= 1 && running == refused == dropped == {} && !closed
        invariant settled.None? ==> queue == []
        invariant i == 0 ==> View() == INITIAL
        invariant i > 0 ==> settled.Some? && swaps != [] && swaps[0] == 0 && calls[0].side == script[0].0
        invariant forall k :: 0 <= k < i ==> calls[k].stage.Finished?
      {
        var blocked := SettleCall(script[i].0, script[i].1);
      }
      ProcessJobs();
      if script != [] { QuietIsClean(View()); } else { NobodyCalled(View()); }
    }
  }

  lemma NothingConsumed(s: State)
    requires Inv(s) && s.settled.None?
    ensures s.consumed == Both(false, false)
  {
  }

  lemma InitiallyInv()
    ensures Inv(INITIAL)
  {
  }

  lemma NobodyCalled(s: State)
    requires Inv(s) && s.calls == []
    ensures s.executed == [] && s.fnFrees == Both(0, 0)
  {
  }
}
