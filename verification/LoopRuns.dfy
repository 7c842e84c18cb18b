/** Whole runs of the event loop: the invariants hold in every reachable configuration, and the
    promises that span many steps follow from them. */
module LoopRuns {
  import opened Events
  import opened EventLists
  import opened QueueState
  import opened PickPolicy
  import opened VsyncAccounting
  import opened RoundPolicy
  import opened Ordering
  import opened Timeouts
  import opened Waiters
  import opened EventLoop
  import opened LoopQueue
  import opened LoopHistory
  import opened LoopSleep
  import opened LoopSync

  ghost predicate Inv(c: Config) {
    QueueInv(c) && HistoryInv(c) && SleepInv(c) && SyncInv(c)
  }

  lemma InitHasInv(c: Config)
    requires Init(c)
    ensures Inv(c)
  {
  }

  lemma StepKeepsInv(c: Config, a: Action, d: Config)
    requires Inv(c) && Step(c, a, d)
    ensures Inv(d)
  {
    match a {
      case Any(b) =>
        SharedStepKeepsQueue(c, b, d);
        SharedStepKeepsHistory(c, b, d);
        SharedStepKeepsSleep(c, b, d);
        SharedStepKeepsSync(c, b, d);
      case Runner(b) =>
        RunnerStepKeepsQueue(c, b, d);
        RunnerStepKeepsHistory(c, b, d);
        RunnerStepKeepsSleep(c, b, d);
        RunnerStepKeepsSync(c, b, d);
    }
  }

  lemma {:induction false} RunKeepsInv(cs: seq<Config>, acts: seq<Action>, n: nat)
    requires Run(cs, acts) && Inv(cs[0]) && n <= |acts|
    ensures Inv(cs[n])
  {
    if n > 0 {
      RunKeepsInv(cs, acts, n - 1);
      StepKeepsInv(cs[n - 1], acts[n - 1], cs[n]);
    }
  }

  lemma ReachableHasInv(c: Config)
    requires EventLoop.Reachable(c)
    ensures Inv(c)
  {
    var cs, acts :| Run(cs, acts) && Init(cs[0]) && cs[|acts|] == c;
    InitHasInv(cs[0]);
    RunKeepsInv(cs, acts, |acts|);
  }

  /** A run from the start can be continued. */
  lemma ReachableStep(c: Config, a: Action, d: Config)
    requires EventLoop.Reachable(c) && Step(c, a, d)
    ensures EventLoop.Reachable(d)
  {
    var cs, acts :| Run(cs, acts) && Init(cs[0]) && cs[|acts|] == c;
    var ds, bs := cs + [d], acts + [a];
    forall i | 0 <= i < |bs| ensures Step(ds[i], bs[i], ds[i + 1]) {
      if i < |acts| {
        assert Step(cs[i], acts[i], cs[i + 1]);
      }
    }
    assert Run(ds, bs) && ds[|bs|] == d;
  }

  // ---------------------------------------------------------------- in every reachable configuration

  /** Nothing is lost and nothing is doubled. */
  lemma Conservation(c: Config)
    requires EventLoop.Reachable(c)
    ensures c.accepted == Everything(c.q) + c.dispatched + c.removed
    ensures forall e :: c.accepted[e] <= 1
  {
    ReachableHasInv(c);
    forall e ensures c.accepted[e] == (Everything(c.q) + c.dispatched + c.removed)[e] && c.accepted[e] <= 1 {
      assert Balanced(c, e);
    }
  }

  /** The pending count is never negative and covers every vsync task that is queued or handed out and
      not yet run; so a queued vsync task keeps the loop from sleeping and barrier mode has a reason. */
  lemma VsyncNeverForgotten(c: Config)
    requires EventLoop.Reachable(c)
    ensures 0 <= VsyncCount(c.q.sub[VIP].queue) + Outstanding(c.pc) <= c.q.vs.pending
    ensures forall p: Priority, e :: e in ListOf(c.q, p) && e.isVsync ==> p == VIP && !e.isBarrier && c.q.vs.pending > 0
    ensures c.q.vs.barrier ==> c.q.vs.pending > 0
  {
    ReachableHasInv(c);
    forall p: Priority, e | e in ListOf(c.q, p) && e.isVsync
      ensures p == VIP && !e.isBarrier && c.q.vs.pending > 0
    {
      assert PlacedIn(ListOf(c.q, p), p);
      VsyncCounted(c.q.sub[VIP].queue, e);
    }
  }

  lemma {:induction false} VsyncCounted(q: seq<Event>, e: Event)
    requires e in q && e.isVsync
    ensures VsyncCount(q) > 0
  {
    if q[0] != e {
      VsyncCounted(q[1..], e);
    }
  }

  /** A sleep that starts in a reachable configuration is exactly as long as it may be. */
  lemma SleepsExactly(c: Config, r: Readings)
    requires EventLoop.Reachable(c) && c.pc.Calling? && !c.q.finished && c.clock <= r.check && r.Monotone()
    ensures var d := RoundNext(c, r);
      d.pc.Sleeping? ==>
        && d.q.vs.pending == 0 && !d.q.vs.barrier
        && IsEarliest(d.q, d.pc.deadline) && r.pick < d.pc.deadline
        && VsyncCount(d.q.sub[VIP].queue) == 0
    ensures RunnerStep(c, TakeRound(r), RoundNext(c, r))
  {
    ReachableHasInv(c);
    SleepIsExact(c.q, r, c.clock);
    RoundKeepsVsync(c.q, r, c.clock);
  }

  /** Whenever the runner is blocked although the queue is finished, a vsync task is pending or a sub
      queue holds an event before the deadline, its wake step is enabled and not merely by luck. */
  lemma BlockedWithReasonWakes(c: Config)
    requires EventLoop.Reachable(c) && c.pc.Sleeping? && c.pc.phase.Blocked? && Alarm(c.q, c.pc.deadline)
    ensures c.pc.waiter < |c.waiters|
    ensures MustWake(c.waiters[c.pc.waiter], c.pc.phase.timerEnd, c.clock)
    ensures RunnerStep(c, Wake(true), WakeNext(c, true))
  {
    ReachableHasInv(c);
    NoLostWakeUp(c);
  }

  /** A due event in a sub queue is never slept over for longer than the time the runner took from
      computing its wait to starting it, plus the rounding of the waiter. */
  lemma BlockedOverDueEventWakes(c: Config, i: nat, e: Event)
    requires EventLoop.Reachable(c) && c.pc.Sleeping? && c.pc.phase.Blocked? && i < 4 && e in c.q.sub[i].queue
    ensures c.pc.waiter < |c.waiters|
    ensures var w := c.waiters[c.pc.waiter];
      e.handleTime + (c.pc.phase.begunAt - c.pc.computedAt) + Rounding(w) <= c.clock ==>
        MustWake(w, c.pc.phase.timerEnd, c.clock)
  {
    ReachableHasInv(c);
    if e.handleTime + (c.pc.phase.begunAt - c.pc.computedAt) + Rounding(c.waiters[c.pc.waiter]) <= c.clock {
      DueEventWakes(c, i, e);
    }
  }

  /** In every reachable configuration a sleep lasts: a blocked runner whose NoneIoWaiter has not been signalled has
      no step to take before its deadline, or within a year of computing its wait; and the timer of epoll
      does not run out before a deadline that is at most INT32_MAX milliseconds away. */
  lemma SleepLasts(c: Config)
    requires EventLoop.Reachable(c) && c.pc.Sleeping? && c.pc.phase.Blocked?
    ensures c.pc.waiter < |c.waiters|
    ensures c.waiters[c.pc.waiter] == NoneWaiter(false)
            && c.clock < c.pc.deadline && c.clock < c.pc.computedAt + 365 * 24 * 3_600_000_000_000 ==>
              forall a, d :: !RunnerStep(c, a, d)
    ensures c.waiters[c.pc.waiter].NoneWaiter? ==> c.pc.phase.timerEnd <= c.pc.phase.begunAt + 365 * 24 * 3_600_000_000_000
    ensures c.waiters[c.pc.waiter].EpollWaiter?
            && c.pc.deadline - c.pc.computedAt <= 0x7FFF_FFFF * 1_000_000 ==>
              c.pc.phase.timerEnd >= c.pc.deadline
  {
    ReachableHasInv(c);
    if c.waiters[c.pc.waiter].EpollWaiter? {
      EpollTimerNotEarly(c);
    } else if c.waiters[c.pc.waiter] == NoneWaiter(false)
              && c.clock < c.pc.deadline && c.clock < c.pc.computedAt + ONE_YEAR_NS {
      forall a, d ensures !RunnerStep(c, a, d) {
        if a.Wake? {
          NoEarlyWake(c, a.drain, d);
        }
      }
    }
  }

  /** The round after waking serves: with a due event in a sub queue and no barrier mode, the next round
      hands something out. */
  lemma DueEventIsServed(s: State, r: Readings, i: nat, e: Event)
    requires WellFormed(s) && i < 4 && e in s.sub[i].queue && e.handleTime <= r.pick
    requires !PickState(s, r).vs.barrier
    ensures Taken(GetEventRound(s, r).outcome).Some?
  {
    DueIsServed(s, r, i, e);
  }

  /** No sender is stranded, and none returns early. */
  lemma SendersAreReleased(c: Config, e: Event)
    requires EventLoop.Reachable(c) && e in c.accepted && e.hasWaiter
    ensures e.id in c.senders
    ensures var alive := e in Everything(c.q) || InHand(c.pc) == Some(e) || e in c.releasing;
      && (c.senders[e.id].finished <==> !alive)
      && (c.senders[e.id].phase.BlockedInWait? ==> alive)
      && (c.senders[e.id].phase.Done? ==> !alive)
      && (!alive ==> SenderNext(c.senders[e.id]).phase.Done?)
  {
    ReachableHasInv(c);
    SenderNeverStranded(c, e);
    assert e in Everything(c.q) <==> Copies(c.q, e) > 0;
    assert SenderOk(c.senders[e.id]);
    assert Balanced(c, e);
    if c.senders[e.id].finished {
      ReleasedSenderReturns(c.senders[e.id]);
    }
  }

  // ---------------------------------------------------------------- barrier mode over a run

  /** From entering barrier mode until it is left, every event that the loop gets is either the vsync
      task or a barrier task that was due at its pick, and no event is both. */
  lemma BarrierOverRuns(cs: seq<Config>, acts: seq<Action>, i: nat, r: Readings)
    requires Run(cs, acts) && Init(cs[0]) && i < |acts| && acts[i] == Runner(TakeRound(r))
    requires PickState(cs[i].q, r).vs.barrier
    ensures var h := InHand(cs[i + 1].pc);
      h.Some? ==> if h.value.isVsync then !h.value.isBarrier else h.value.isBarrier && h.value.handleTime <= r.pick
  {
    InitHasInv(cs[0]);
    RunKeepsInv(cs, acts, i);
    assert Step(cs[i], acts[i], cs[i + 1]);
    BarrierSafety(cs[i].q, r);
    RoundKeepsVsync(cs[i].q, r, cs[i].clock);
  }

  // ---------------------------------------------------------------- idle events over a run

  /** The step picks an event from a sub queue or a ready vsync task. */
  ghost predicate PicksEvent(c: Config, a: Action) {
    a.Runner? && a.runner.TakeRound? && GetEventRound(c.q, a.runner.readings).source.FromPick?
  }

  lemma InsertKeepsPicking(s: State, e: Event, p: Priority, at: InsertType, option: BarrierOption, from: Sender, now: Instant)
    ensures var t := Insert(s, e, p, at, option, from, now).state;
      && t.isIdle == s.isIdle && t.idleStamp == s.idleStamp
      && forall i :: 0 <= i < 4 ==> t.sub[i].handled == s.sub[i].handled
  {
  }

  lemma SharedStepKeepsPicking(c: Config, a: SharedAction, d: Config)
    requires SharedStep(c, a, d)
    ensures d.q.isIdle == c.q.isIdle && d.q.idleStamp == c.q.idleStamp && d.dispatched == c.dispatched
    ensures forall i :: 0 <= i < 4 ==> d.q.sub[i].handled == c.q.sub[i].handled
  {
    match a {
      case InsertEvent(e, p, at, option, from) => InsertKeepsPicking(c.q, e, p, at, option, from, c.clock);
      case RemoveMatching(f) =>
      case RemoveEverything =>
      case RemoveDead =>
      case _ => assert d.q.sub == c.q.sub;
    }
  }

  lemma OtherStepKeepsPicking(c: Config, a: RunnerAction, d: Config)
    requires RunnerStep(c, a, d) && !a.TakeRound?
    ensures d.q.isIdle == c.q.isIdle && d.q.idleStamp == c.q.idleStamp
    ensures d.q.sub == c.q.sub && d.q.idle == c.q.idle && d.dispatched == c.dispatched && d.accepted == c.accepted
  {
    match a {
      case PollReturn(drain, ok) =>
      case Relock(ok) =>
      case _ =>
    }
  }

  lemma IdleStepKeepsStamp(c: Config, a: Action, d: Config)
    requires Step(c, a, d) && c.q.isIdle && !PicksEvent(c, a)
    ensures d.q.isIdle && d.q.idleStamp == c.q.idleStamp
  {
    if a.Any? {
      SharedStepKeepsPicking(c, a.shared, d);
    } else if a.runner.TakeRound? {
      StampMoves(c.q, a.runner.readings);
    } else {
      OtherStepKeepsPicking(c, a.runner, d);
    }
  }

  /** Once the queue is idle, an idle event sent after the stamp is not handed out until a pick has
      succeeded, however long the run. */
  lemma {:induction false} IdleGateOverRuns(cs: seq<Config>, acts: seq<Action>, n: nat)
    requires Run(cs, acts) && Inv(cs[0]) && cs[0].q.isIdle && n <= |acts|
    requires forall i :: 0 <= i < n ==> !PicksEvent(cs[i], acts[i])
    ensures cs[n].q.isIdle && cs[n].q.idleStamp == cs[0].q.idleStamp
    ensures forall i :: 0 <= i < n && acts[i].Runner? && acts[i].runner.TakeRound? ==>
              var d := GetEventRound(cs[i].q, acts[i].runner.readings);
              d.source.FromIdle? ==> Taken(d.outcome).value.sendTime <= cs[0].q.idleStamp
  {
    if n > 0 {
      IdleGateOverRuns(cs, acts, n - 1);
      RunKeepsInv(cs, acts, n - 1);
      assert Step(cs[n - 1], acts[n - 1], cs[n]);
      IdleStepKeepsStamp(cs[n - 1], acts[n - 1], cs[n]);
      if acts[n - 1].Runner? && acts[n - 1].runner.TakeRound? {
        var r := acts[n - 1].runner.readings;
        IdleGate(cs[n - 1].q, r);
      }
    }
  }

  // ---------------------------------------------------------------- starvation over a run

  /** At this step, if it is a round, queue k passes the scan, and for HIGH no vsync task is picked past it. */
  ghost predicate Ready(c: Config, a: Action, k: nat)
    requires k < 4
  {
    a.Runner? && a.runner.TakeRound? ==>
      var r := a.runner.readings; var s := PickState(c.q, r);
      Passes(s, r.pick, k) && (k == HIGH ==> !Pick(s, r.pick).kind.VsyncPick?)
  }

  /** The queue that this step picks an event from, other than by the vsync override. */
  function PickedFrom(c: Config, a: Action): Option<nat> {
    if a.Runner? && a.runner.TakeRound? then
      var d := GetEventRound(c.q, a.runner.readings);
      if d.source.FromPick? && d.source.kind.QueuePick? then Some(d.source.kind.from) else None
    else None
  }

  /** How many of the first n steps pick from another queue than k. */
  function Bypasses(cs: seq<Config>, acts: seq<Action>, n: nat, k: nat): nat
    requires n <= |acts| && n <= |cs|
  {
    if n == 0 then 0
    else
      var from := PickedFrom(cs[n - 1], acts[n - 1]);
      Bypasses(cs, acts, n - 1, k) + One(from.Some? && from.value != k)
  }

  lemma CountersAfterPick(p: Picked, r: Readings)
    ensures var d := Decide(AfterPick(p, r.pick, r.next), r.poll);
      forall i :: 0 <= i < 4 ==> d.state.sub[i].handled == p.state.sub[i].handled
  {
  }

  lemma RoundWeighs(c: Config, r: Readings, k: nat)
    requires WellFormed(c.q) && k < 4 && Ready(c, Runner(TakeRound(r)), k)
    ensures var from := PickedFrom(c, Runner(TakeRound(r)));
      from == Some(k) || TurnWeight(RoundNext(c, r).q.sub, k) >= TurnWeight(c.q.sub, k) + One(from.Some?)
  {
    var s1 := PickState(c.q, r);
    TurnComes(s1, r.pick, k);
    PickLeavesVsync(s1, r.pick);
    RoundSource(s1, Pick(s1, r.pick), r);
    PickCases(s1, r.pick);
    CountersAfterPick(Pick(s1, r.pick), r);
    SameWeight(RoundNext(c, r).q.sub, Pick(s1, r.pick).state.sub, k);
  }

  lemma StepWeighs(c: Config, a: Action, d: Config, k: nat)
    requires Inv(c) && Step(c, a, d) && k < 4 && Ready(c, a, k) && PickedFrom(c, a) != Some(k)
    ensures TurnWeight(d.q.sub, k) >= TurnWeight(c.q.sub, k) + One(PickedFrom(c, a).Some?)
  {
    if a.Any? {
      SharedStepKeepsPicking(c, a.shared, d);
      SameWeight(c.q.sub, d.q.sub, k);
    } else if a.runner.TakeRound? {
      RoundWeighs(c, a.runner.readings, k);
    } else {
      OtherStepKeepsPicking(c, a.runner, d);
    }
  }

  lemma {:induction false} BypassesWeigh(cs: seq<Config>, acts: seq<Action>, n: nat, k: nat)
    requires Run(cs, acts) && Inv(cs[0]) && n <= |acts| && k < 4
    requires forall i :: 0 <= i < n ==> Ready(cs[i], acts[i], k) && PickedFrom(cs[i], acts[i]) != Some(k)
    ensures TurnWeight(cs[0].q.sub, k) + Bypasses(cs, acts, n, k) <= TurnWeight(cs[n].q.sub, k)
  {
    if n > 0 {
      BypassesWeigh(cs, acts, n - 1, k);
      RunKeepsInv(cs, acts, n - 1);
      assert Step(cs[n - 1], acts[n - 1], cs[n]) && Ready(cs[n - 1], acts[n - 1], k);
      StepWeighs(cs[n - 1], acts[n - 1], cs[n], k);
    }
  }

  /** Bounded starvation: in any run, while queue k passes at every pick, at most 215 events are picked from the
      other queues before LOW has its turn, 71 before HIGH, 11 before IMMEDIATE and 1 before VIP, whatever is
      inserted or removed in between. Vsync picks do not count, except that they may use up the turns of
      HIGH, so for HIGH the run has none. */
  lemma BoundedStarvation(cs: seq<Config>, acts: seq<Action>, n: nat, k: nat)
    requires Run(cs, acts) && Inv(cs[0]) && n <= |acts| && k < 4
    requires forall i :: 0 <= i < n ==> Ready(cs[i], acts[i], k) && PickedFrom(cs[i], acts[i]) != Some(k)
    ensures Bypasses(cs, acts, n, k) <= TurnBound(k) - TurnWeight(cs[0].q.sub, k)
  {
    BypassesWeigh(cs, acts, n, k);
    RunKeepsInv(cs, acts, n);
    TurnWeightBound(cs[n].q, k);
  }

  // ---------------------------------------------------------------- order over a run

  /** a goes first: b has not been handed out while a is queued, and stands behind it. */
  ghost predicate GoesFirst(c: Config, a: Event, b: Event, p: Priority) {
    && a in c.accepted && b in c.accepted && a.priority == p && b.priority == p
    && (Copies(c.q, a) > 0 ==> b !in c.dispatched && (Copies(c.q, b) > 0 ==> Precedes(ListOf(c.q, p), a, b)))
  }

  /** The step is a round that lets b overtake a. */
  ghost predicate LetsOvertake(c: Config, act: Action, a: Event, b: Event, p: Priority) {
    act.Runner? && act.runner.TakeRound? && MayOvertake(a, b, p, PickState(c.q, act.runner.readings).vs.barrier)
  }

  lemma QueuedInOwnList(s: State, e: Event, p: Priority)
    requires WellFormed(s) && e.priority == p
    ensures Copies(s, e) > 0 <==> e in ListOf(s, p)
    ensures Copies(s, e) == multiset(ListOf(s, p))[e]
  {
  }

  lemma RoundKeepsOrder(c: Config, r: Readings, a: Event, b: Event, p: Priority)
    requires Inv(c) && c.pc.Calling? && GoesFirst(c, a, b, p) && !b.isVsync && a != b
    requires !MayOvertake(a, b, p, PickState(c.q, r).vs.barrier)
    requires Inv(RoundNext(c, r))
    ensures GoesFirst(RoundNext(c, r), a, b, p)
  {
    var d := GetEventRound(c.q, r);
    var c' := RoundNext(c, r);
    QueuedInOwnList(c.q, a, p);
    QueuedInOwnList(c.q, b, p);
    assert Balanced(c, a) && Balanced(c, b) && Balanced(c', a) && Balanced(c', b);
    if Taken(d.outcome).Some? {
      RoundTakesOne(c.q, r, a);
      RoundTakesOne(c.q, r, b);
      var l, k := RoundPops(c.q, r);
      if Copies(c.q, a) > 0 && Copies(c.q, b) > 0 && l == p {
        FairKeepsOrder(ListOf(c.q, p), p, k, PickState(c.q, r).vs.barrier, a, b);
      } else if l != p {
        assert ListOf(c'.q, p) == ListOf(c.q, p);
      }
    } else {
      QuietRoundKeepsLists(c.q, r, p);
      RoundTakesOne(c.q, r, a);
      RoundTakesOne(c.q, r, b);
    }
  }

  /** Inserting and removing other events does not change who goes first. */
  lemma SharedStepKeepsOrder(c: Config, act: SharedAction, d: Config, a: Event, b: Event, p: Priority)
    requires HistoryInv(c) && SharedStep(c, act, d) && GoesFirst(c, a, b, p)
    ensures GoesFirst(d, a, b, p)
  {
    match act {
      case InsertEvent(e, p', at, option, from) => InsertKeepsGoesFirst(c, e, p', at, option, from, a, b, p);
      case RemoveMatching(f) => RemovalKeepsGoesFirst(c, d, f, a, b, p);
      case RemoveDead => RemovalKeepsGoesFirst(c, d, Orphan(c.dead), a, b, p);
      case RemoveEverything => RemoveAllKeepsGoesFirst(c, a, b, p);
      case _ => FrameKeepsGoesFirst(c, d, a, b, p);
    }
  }

  /** Steps that leave the lists alone. */
  lemma FrameKeepsGoesFirst(c: Config, d: Config, a: Event, b: Event, p: Priority)
    requires GoesFirst(c, a, b, p)
    requires d.q.sub == c.q.sub && d.q.idle == c.q.idle && d.accepted == c.accepted && d.dispatched == c.dispatched
    ensures GoesFirst(d, a, b, p)
  {
    SameLists(c.q, d.q, a);
    SameLists(c.q, d.q, b);
  }

  lemma RemoveAllKeepsGoesFirst(c: Config, a: Event, b: Event, p: Priority)
    requires GoesFirst(c, a, b, p)
    ensures GoesFirst(RemoveAllNext(c), a, b, p)
  {
  }

  lemma InsertKeepsGoesFirst(c: Config, e: Event, l: Priority, at: InsertType, option: BarrierOption, from: Sender,
                             a: Event, b: Event, p: Priority)
    requires HistoryInv(c) && Fresh(c, e.id) && GoesFirst(c, a, b, p)
    ensures GoesFirst(InsertNext(c, e, l, at, option, from), a, b, p)
  {
    var r := Insert(c.q, e, l, at, option, from, c.clock);
    InsertedEvent(c.q, e, l, at, option, from, c.clock);
    InsertedList(c.q, e, l, at, option, from, c.clock, p);
    InsertAddsOne(c.q, e, l, at, option, from, c.clock, a);
    InsertAddsOne(c.q, e, l, at, option, from, c.clock, b);
    if r.ok && l == p && Precedes(ListOf(c.q, p), a, b) {
      InsertKeepsOrder(ListOf(c.q, p), Marked(e, option, from).(priority := l), at, a, b);
    }
  }

  lemma RemovalKeepsGoesFirst(c: Config, d: Config, f: Filter, a: Event, b: Event, p: Priority)
    requires GoesFirst(c, a, b, p)
    requires d.q.sub == Remove(c.q, f).sub && d.q.idle == Remove(c.q, f).idle
    requires d.accepted == c.accepted && d.dispatched == c.dispatched
    ensures GoesFirst(d, a, b, p)
  {
    if c.q.usable {
      RemoveCopies(c.q, f, a);
      RemoveCopies(c.q, f, b);
      SameLists(Remove(c.q, f), d.q, a);
      SameLists(Remove(c.q, f), d.q, b);
      if Precedes(ListOf(c.q, p), a, b) && !f.Holds(a) && !f.Holds(b) {
        WithoutKeepsOrder(ListOf(c.q, p), f, a, b);
      }
    } else {
      SameLists(c.q, d.q, a);
      SameLists(c.q, d.q, b);
    }
  }

  /** Order over whole runs: b is not handed out while a, which goes first, is still queued. */
  lemma {:induction false} OrderOverRuns(cs: seq<Config>, acts: seq<Action>, n: nat, a: Event, b: Event, p: Priority)
    requires Run(cs, acts) && Inv(cs[0]) && n <= |acts|
    requires GoesFirst(cs[0], a, b, p) && a != b && !b.isVsync
    requires forall i :: 0 <= i < n ==> !LetsOvertake(cs[i], acts[i], a, b, p)
    ensures GoesFirst(cs[n], a, b, p)
    ensures b in cs[n].dispatched ==> Copies(cs[n].q, a) == 0
  {
    if n > 0 {
      OrderOverRuns(cs, acts, n - 1, a, b, p);
      RunKeepsInv(cs, acts, n - 1);
      RunKeepsInv(cs, acts, n);
      assert Step(cs[n - 1], acts[n - 1], cs[n]) && !LetsOvertake(cs[n - 1], acts[n - 1], a, b, p);
      StepKeepsOrder(cs[n - 1], acts[n - 1], cs[n], a, b, p);
    }
  }

  lemma StepKeepsOrder(c: Config, act: Action, d: Config, a: Event, b: Event, p: Priority)
    requires Inv(c) && Inv(d) && Step(c, act, d) && GoesFirst(c, a, b, p) && a != b && !b.isVsync
    requires !LetsOvertake(c, act, a, b, p)
    ensures GoesFirst(d, a, b, p)
  {
    if act.Any? {
      SharedStepKeepsOrder(c, act.shared, d, a, b, p);
    } else if act.runner.TakeRound? {
      RoundKeepsOrder(c, act.runner.readings, a, b, p);
    } else {
      OtherStepKeepsPicking(c, act.runner, d);
      FrameKeepsGoesFirst(c, d, a, b, p);
    }
  }

  /** Sending b at the end after a of the same priority, with a time that is not earlier, puts a first;
      sending b at the front puts b before everything then queued at its priority. */
  lemma SendingOrder(c: Config, e: Event, p: Priority, at: InsertType, option: BarrierOption, from: Sender, a: Event)
    requires Inv(c) && Fresh(c, e.id) && c.q.usable && a in ListOf(c.q, p)
    ensures var r := Insert(c.q, e, p, at, option, from, c.clock); var d := InsertNext(c, e, p, at, option, from);
      && r.ok && r.stored != a
      && (at.AtEnd? && a.handleTime <= e.handleTime ==> GoesFirst(d, a, r.stored, p))
      && (at.AtFront? ==> GoesFirst(d, r.stored, a, p) && r.stored.handleTime <= e.handleTime)
  {
    var r := Insert(c.q, e, p, at, option, from, c.clock);
    InsertedEvent(c.q, e, p, at, option, from, c.clock);
    InsertedList(c.q, e, p, at, option, from, c.clock, p);
    assert p < 4 ==> SubQueueOk(c.q.sub[p], p);
    InsertPlaces(ListOf(c.q, p), Marked(e, option, from).(priority := p), at, a);
    NewComer(c, a, r.stored, p);
  }

  /** A queued event has not been handed out; an identity that was never used was neither. */
  lemma NewComer(c: Config, a: Event, b: Event, p: Priority)
    requires Inv(c) && a in ListOf(c.q, p) && Fresh(c, b.id)
    ensures a in c.accepted && a.priority == p && a !in c.dispatched
    ensures b !in c.accepted && b !in c.dispatched && a != b
  {
    assert p < 4 ==> SubQueueOk(c.q.sub[p], p);
    QueuedInOwnList(c.q, a, p);
    assert Balanced(c, a) && Balanced(c, b);
  }
}
