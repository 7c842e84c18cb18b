/** No wake-up is lost: while the runner sleeps, whatever should end the sleep has already signalled
    the very waiter it sleeps on, in every interleaving and across a change of the waiter. */
module LoopSleep {
  import opened Events
  import opened EventLists
  import opened QueueState
  import opened PickPolicy
  import opened VsyncAccounting
  import opened RoundPolicy
  import opened Timeouts
  import opened Waiters
  import opened EventLoop
  import opened LoopQueue

  /** Something that must not wait for the deadline: the queue is finished, a vsync task is pending, or
      a sub queue holds an event that is earlier than the deadline. */
  ghost predicate Alarm(q: State, deadline: TimePoint) {
    q.finished || q.vs.pending != 0 || Earlier(q, deadline)
  }

  ghost predicate Earlier(q: State, deadline: TimePoint) {
    exists i, e :: 0 <= i < 4 && e in q.sub[i].queue && e.handleTime < deadline
  }

  /** The waiter w that a sleeper uses can be reached by notifications as long as it is current, and has
      been signalled if it is not current or there is an alarm. */
  ghost predicate WillHear(c: Config, w: nat, deadline: TimePoint)
    requires w < |c.waiters|
  {
    && (c.waiters[w].EpollWaiter? ==> c.waiters[w].waiting > 0)
    && (w != c.io ==> Signalled(c.waiters[w]))
    && (Alarm(c.q, deadline) ==> Signalled(c.waiters[w]))
  }

  ghost predicate SleepInv(c: Config) {
    && c.io < |c.waiters|
    && (c.pc.Polling? ==> c.pc.waiter < |c.waiters|)
    && (c.pc.Sleeping? ==>
          && c.pc.waiter < |c.waiters|
          && c.pc.computedAt <= c.clock
          && c.q.wakeUp == c.pc.deadline
          && (!c.pc.phase.Woken? ==> WillHear(c, c.pc.waiter, c.pc.deadline))
          && (c.pc.phase.Blocked? ==>
                && c.pc.computedAt <= c.pc.phase.begunAt <= c.clock
                && c.pc.phase.timerEnd == c.pc.phase.begunAt
                     + WaitLength(c.waiters[c.pc.waiter], TimePointToTimeOut(c.pc.deadline, c.pc.computedAt))))
  }

  // ---------------------------------------------------------------- notifications

  lemma NotifyReaches(c: Config, w: nat, deadline: TimePoint)
    requires w < |c.waiters| && c.io < |c.waiters|
    requires c.waiters[w].EpollWaiter? ==> c.waiters[w].waiting > 0
    requires w != c.io ==> Signalled(c.waiters[w])
    ensures var ws := NotifyAt(c.waiters, c.io);
      && Signalled(ws[w]) && (ws[w].EpollWaiter? ==> ws[w].waiting > 0)
      && (ws[w].EpollWaiter? <==> c.waiters[w].EpollWaiter?)
  {
  }

  /** An insertion that gives the sleeper a reason to wake notifies it: an event stored earlier than the
      deadline is either earlier itself or was lowered to the time of a head that is. */
  lemma InsertRaisesAlarm(s: State, e: Event, p: Priority, at: InsertType, option: BarrierOption, from: Sender,
                          now: Instant)
    ensures var r := Insert(s, e, p, at, option, from, now);
      r.ok && Alarm(r.state, s.wakeUp) ==> Alarm(s, s.wakeUp) || r.notify
    ensures Insert(s, e, p, at, option, from, now).state.wakeUp == s.wakeUp
  {
  }

  /** And it notifies only for a reason: a vsync task, an event before the deadline, or a deadline that has passed.
      An idle event never does. */
  lemma InsertNotifiesForReason(s: State, e: Event, p: Priority, at: InsertType, option: BarrierOption, from: Sender,
                                now: Instant)
    ensures var r := Insert(s, e, p, at, option, from, now);
      r.notify <==>
        r.ok && p != IDLE && (e.isVsync || s.wakeUp < now || e.handleTime < s.wakeUp)
    ensures var r := Insert(s, e, p, at, option, from, now);
      r.notify && !e.isVsync && s.wakeUp >= now ==> Earlier(r.state, s.wakeUp)
  {
    if s.usable && p < 4 {
      var m := Marked(e, option, from).(priority := p);
      InsertKeepsContents(s.sub[p].queue, m, at);
      assert Stored(s.sub[p].queue, m, at) in Insert(s, e, p, at, option, from, now).state.sub[p].queue;
    }
  }

  lemma InsertKeepsSleep(c: Config, e: Event, p: Priority, at: InsertType, option: BarrierOption, from: Sender)
    requires SleepInv(c)
    ensures SleepInv(InsertNext(c, e, p, at, option, from))
  {
    InsertRaisesAlarm(c.q, e, p, at, option, from, c.clock);
    if c.pc.Sleeping? && !c.pc.phase.Woken? {
      NotifyReaches(c, c.pc.waiter, c.pc.deadline);
    }
  }

  /** Taking events out raises no alarm. */
  lemma FewerEventsKeepSleep(c: Config, d: Config)
    requires SleepInv(c)
    requires d.pc == c.pc && d.waiters == c.waiters && d.io == c.io && d.clock == c.clock
    requires d.q.wakeUp == c.q.wakeUp && (d.q.finished ==> c.q.finished)
    requires d.q.vs.pending != 0 ==> c.q.vs.pending != 0
    requires forall i, e :: 0 <= i < 4 && e in d.q.sub[i].queue ==> e in c.q.sub[i].queue
    ensures SleepInv(d)
  {
  }

  lemma RemoveShrinks(s: State, f: Filter, i: nat, e: Event)
    requires i < 4 && e in Remove(s, f).sub[i].queue
    ensures e in s.sub[i].queue
  {
    if s.usable {
      WithoutKeeps(s.sub[i].queue, f);
    }
  }

  lemma RemoveKeepsSleep(c: Config, d: Config, f: Filter)
    requires SleepInv(c) && d.q.sub == Remove(c.q, f).sub
    requires d.pc == c.pc && d.waiters == c.waiters && d.io == c.io && d.clock == c.clock
    requires d.q.wakeUp == c.q.wakeUp && d.q.finished == c.q.finished
    requires d.q.vs.pending != 0 ==> c.q.vs.pending != 0
    ensures SleepInv(d)
  {
    forall i, e | 0 <= i < 4 && e in d.q.sub[i].queue ensures e in c.q.sub[i].queue {
      RemoveShrinks(c.q, f, i, e);
    }
    FewerEventsKeepSleep(c, d);
  }

  lemma OrphanVsyncsBounded(s: State, dead: set<nat>, inHand: nat, now: Instant)
    requires VsyncSafe(s, inHand, now)
    ensures RemoveOrphans(s, dead).vs.pending != 0 ==> s.vs.pending != 0
  {
    RemoveOrphansKeepsVsync(s, dead, inHand, now);
  }

  /** A waiter that is swapped out has been notified first. */
  lemma SwapKeepsSleep(c: Config)
    requires SleepInv(c)
    ensures SleepInv(SwapNext(c))
  {
  }

  lemma FinishKeepsSleep(c: Config)
    requires SleepInv(c)
    ensures SleepInv(FinishNext(c))
  {
  }

  lemma RemoveOrphansKeepsSleep(c: Config)
    requires SleepInv(c) && QueueInv(c)
    ensures SleepInv(RemoveOrphansNext(c))
  {
    OrphanVsyncsBounded(c.q, c.dead, Outstanding(c.pc), c.clock);
    RemoveKeepsSleep(c, RemoveOrphansNext(c), Orphan(c.dead));
  }

  lemma RemoveAllKeepsSleep(c: Config)
    requires SleepInv(c)
    ensures SleepInv(RemoveAllNext(c))
  {
  }

  lemma SharedStepKeepsSleep(c: Config, a: SharedAction, d: Config)
    requires SleepInv(c) && QueueInv(c) && SharedStep(c, a, d)
    ensures SleepInv(d)
  {
    match a {
      case Tick(now) =>
      case InsertEvent(e, p, at, option, from) => InsertKeepsSleep(c, e, p, at, option, from);
      case Finish => FinishKeepsSleep(c);
      case SwapWaiter => SwapKeepsSleep(c);
      case RemoveMatching(f) => RemoveKeepsSleep(c, d, f);
      case RemoveEverything => RemoveAllKeepsSleep(c);
      case RemoveDead => RemoveOrphansKeepsSleep(c);
      case _ => FewerEventsKeepSleep(c, d);
    }
  }

  // ---------------------------------------------------------------- the runner

  lemma EarliestRaisesNoAlarm(q: State, deadline: TimePoint)
    requires IsEarliest(q, deadline) && !q.finished && q.vs.pending == 0
    ensures !Alarm(q, deadline)
  {
  }

  lemma AfterRoundKeepsSleep(c: Config, d: Round, last: Instant)
    requires c.io < |c.waiters| && c.clock <= last
    requires d.outcome.Sleep? ==> d.state.wakeUp == d.outcome.deadline && !Alarm(d.state, d.outcome.deadline)
    ensures SleepInv(AfterRound(c, d, last))
  {
  }

  lemma RunnerStepKeepsSleep(c: Config, a: RunnerAction, d: Config)
    requires SleepInv(c) && QueueInv(c) && RunnerStep(c, a, d)
    ensures SleepInv(d)
  {
    match a {
      case TakeRound(r) =>
        var x := GetEventRound(c.q, r);
        RoundKeeps(c.q, r);
        SleepIsExact(c.q, r, c.clock);
        if x.outcome.Sleep? {
          EarliestRaisesNoAlarm(x.state, x.outcome.deadline);
        }
        AfterRoundKeepsSleep(c, x, r.poll);
      case _ =>
    }
  }

  // ---------------------------------------------------------------- what follows

  /** The blocking call returns: the waiter is signalled or its timer has run out. */
  predicate MustWake(w: Waiter, timerEnd: nat, now: Instant) {
    Signalled(w) || timerEnd <= now
  }

  /** While the runner is blocked, an alarm means that its wake step is enabled. */
  lemma NoLostWakeUp(c: Config)
    requires SleepInv(c) && SleepsOn(c) && c.pc.phase.Blocked? && Alarm(c.q, c.pc.deadline)
    ensures MustWake(c.waiters[c.pc.waiter], c.pc.phase.timerEnd, c.clock)
    ensures RunnerStep(c, Wake(true), WakeNext(c, true))
  {
  }

  /** The same with the lock released and the blocking call not yet made: it will return at once. */
  lemma NoLostWakeUpBeforeBlocking(c: Config)
    requires SleepInv(c) && SleepsOn(c) && c.pc.phase.Unlocked? && Alarm(c.q, c.pc.deadline)
    ensures var d := BeginWaitNext(c);
      RunnerStep(c, BeginWait, d) && MustWake(d.waiters[d.pc.waiter], d.pc.phase.timerEnd, d.clock)
  {
  }

  /** The rounding of epoll time-outs; NoneIoWaiter has none. */
  function Rounding(w: Waiter): nat {
    if w.EpollWaiter? then NANOSECONDS_PER_MILLISECOND else 0
  }

  /** A due event in a sub queue is slept over for no longer than the time the runner took from
      computing the length of the wait to starting it, plus the rounding of the waiter. */
  lemma DueEventWakes(c: Config, i: nat, e: Event)
    requires SleepInv(c) && SleepsOn(c) && c.pc.phase.Blocked? && i < 4 && e in c.q.sub[i].queue
    requires e.handleTime + (c.pc.phase.begunAt - c.pc.computedAt) + Rounding(c.waiters[c.pc.waiter]) <= c.clock
    ensures MustWake(c.waiters[c.pc.waiter], c.pc.phase.timerEnd, c.clock)
  {
  }

  /** A sleep is not cut short by its timer: on NoneIoWaiter, before the deadline and within a year of computing the
      wait, nothing but a signal ends it. */
  lemma NoEarlyWake(c: Config, drain: bool, d: Config)
    requires SleepInv(c) && SleepsOn(c) && c.pc.phase.Blocked? && c.waiters[c.pc.waiter] == NoneWaiter(false)
    requires c.clock < c.pc.deadline && c.clock < c.pc.computedAt + ONE_YEAR_NS
    ensures !RunnerStep(c, Wake(drain), d)
  {
  }

  /** The timer of epoll does not run out before the deadline either, unless it is capped. */
  lemma EpollTimerNotEarly(c: Config)
    requires SleepInv(c) && SleepsOn(c) && c.pc.phase.Blocked? && c.waiters[c.pc.waiter].EpollWaiter?
    ensures c.pc.phase.timerEnd >= c.pc.deadline
            || c.pc.phase.timerEnd == c.pc.phase.begunAt + INT32_MAX * NANOSECONDS_PER_MILLISECOND
    ensures c.pc.deadline - c.pc.computedAt <= INT32_MAX * NANOSECONDS_PER_MILLISECOND ==>
              c.pc.phase.timerEnd >= c.pc.deadline
  {
  }
}
