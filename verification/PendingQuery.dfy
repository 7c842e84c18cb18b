/** HasPendingHigherEvent and the query of the queue's first event times: when a long-running task
    should yield. */
module PendingQuery {
  import opened Events
  import opened Vsync
  import opened VsyncAccounting
  import opened QueueState
  import opened EventQueueBases

  /** PENDING_JOB_TIMEOUT in milliseconds, for VIP, IMMEDIATE and HIGH. */
  type Thresholds = t: seq<nat> | |t| == 3 witness [4, 40, 400]

  /** The earliest time at which CheckBarrierMode could act on the pending vsync task. */
  function VsyncLimit(v: VsyncState): int {
    var interval := v.completeTime + VSYNC_TASK_INTERVAL_NS;
    if DelayTime(v) < interval then interval else DelayTime(v)
  }

  /** GetQueueFirstEventHandleTime */
  function FirstEventTime(s: State, now: int, priority: nat, onlyCheckVsync: bool): int
    requires priority < 4
  {
    var v := s.vs;
    if (if onlyCheckVsync then !v.policy.FirstWithoutDefaultBarrier? || v.lazy || v.barrier else v.barrier)
    then UINT64_MAX
    else
      var time := if onlyCheckVsync then UINT64_MAX else s.sub[priority].front;
      if priority != VIP then time
      else if v.pending != 0 then (if time < VsyncLimit(v) then time else VsyncLimit(v))
      else if v.checkTime < now then (if time < v.checkTime then time else v.checkTime)
      else time
  }

  /** The level asks for attention: its first time is overdue by the threshold of the level; an idle
      task yields to anything. */
  predicate Asks(s: State, now: int, asker: Priority, i: nat, onlyCheckVsync: bool, thresholds: Thresholds)
    requires i < asker
  {
    var time := FirstEventTime(s, now, i, onlyCheckVsync);
    time != UINT64_MAX && (asker == IDLE || time + thresholds[i] * NANOSECONDS_PER_MILLISECOND <= now)
  }

  /** HasPendingHigherEvent: an illegal priority stands for that of the current event. The thresholds are never read
      beyond HIGH, because an asker below LOW is answered before that. */
  method HasPendingHigherEvent(queue: EventQueueBase?, priority: int, current: int, onlyCheckVsync: bool, now: Instant,
                               thresholds: Thresholds) returns (r: bool)
    requires queue != null ==> queue.subEventQueues.Length == 4
    requires -1 <= current <= IDLE
    ensures var asker := if VIP <= priority <= IDLE then priority else current;
      r <==>
        && queue != null && asker > VIP
        && exists i: nat :: i < asker && Asks(queue.View(), now, asker, i, onlyCheckVsync, thresholds)
  {
    if queue == null {
      return false;
    }
    var p := priority;
    if p < VIP || p > IDLE {
      p := current;
    }
    if p <= VIP {
      return false;
    }
    var i := p - 1;
    while i >= VIP
      invariant -1 <= i < p
      invariant forall j: nat :: i < j < p ==> !Asks(queue.View(), now, p, j, onlyCheckVsync, thresholds)
    {
      var eventHandleTime := FirstEventTime(queue.View(), now, i, onlyCheckVsync);
      if eventHandleTime != UINT64_MAX {
        if p == IDLE {
          assert Asks(queue.View(), now, p, i, onlyCheckVsync, thresholds);
          return true;
        }
        if eventHandleTime + thresholds[i] * NANOSECONDS_PER_MILLISECOND <= now {
          assert Asks(queue.View(), now, p, i, onlyCheckVsync, thresholds);
          return true;
        }
      }
      i := i - 1;
    }
    return false;
  }

  // ---------------------------------------------------------------- what the answer means

  /** Some event of the list is overdue by at least `margin`. */
  ghost predicate Overdue(q: seq<Event>, now: int, margin: nat) {
    exists e :: e in q && e.handleTime + margin <= now
  }

  /** No barrier mode, no vsync pending or overdue: the answer is about queued events only. */
  predicate QuietVsync(s: State, now: int) {
    !s.vs.barrier && s.vs.pending == 0 && s.vs.checkTime >= now
  }

  /** A level with an exact front time asks exactly when it holds an event that is overdue by its
      threshold, or, for an idle asker, when it holds any event. */
  lemma AsksMeansOverdue(s: State, now: Instant, asker: Priority, i: nat, thresholds: Thresholds)
    requires WellFormed(s) && QuietVsync(s, now) && i < asker && FrontExact(s.sub[i])
    ensures Asks(s, now, asker, i, false, thresholds) <==>
              if asker == IDLE then s.sub[i].queue != []
              else Overdue(s.sub[i].queue, now, thresholds[i] * NANOSECONDS_PER_MILLISECOND)
  {
  }

  /** The whole query refines its definition: a yes means that some higher-priority queue holds an event
      overdue by that level's threshold, or for an idle asker any event at all. */
  lemma QueryRefinesDefinition(s: State, now: Instant, asker: Priority, thresholds: Thresholds)
    requires WellFormed(s) && QuietVsync(s, now)
    requires forall i: nat :: i < asker ==> FrontExact(s.sub[i])
    ensures (exists i: nat :: i < asker && Asks(s, now, asker, i, false, thresholds)) <==>
            exists i: nat :: i < asker &&
              if asker == IDLE then s.sub[i].queue != []
              else Overdue(s.sub[i].queue, now, thresholds[i] * NANOSECONDS_PER_MILLISECOND)
  {
    forall i: nat | i < asker
      ensures Asks(s, now, asker, i, false, thresholds) <==>
                if asker == IDLE then s.sub[i].queue != []
                else Overdue(s.sub[i].queue, now, thresholds[i] * NANOSECONDS_PER_MILLISECOND)
    {
      AsksMeansOverdue(s, now, asker, i, thresholds);
    }
  }

  /** A front time that has become too low, as a direct vsync pop can leave it, never hides an overdue
      event: the answer may come too early but never too late. */
  lemma LowFrontNeverHides(s: State, now: Instant, asker: Priority, i: nat, thresholds: Thresholds)
    requires WellFormed(s) && QuietVsync(s, now) && i < asker
    requires if asker == IDLE then s.sub[i].queue != []
             else Overdue(s.sub[i].queue, now, thresholds[i] * NANOSECONDS_PER_MILLISECOND)
    ensures Asks(s, now, asker, i, false, thresholds)
  {
    assert SubQueueOk(s.sub[i], i);
    if asker == IDLE {
      assert s.sub[i].queue[0] in s.sub[i].queue;
    }
  }

  /** The answer to the whole question in every state with exact front times. In barrier mode it is no. Otherwise it is
      yes exactly when a higher queue holds an event overdue by its threshold; or a vsync task is pending that
      is late by the VIP threshold, both of its delay and of the minimum interval; or none is pending and a
      poll for one is late by that threshold. For an idle asker any event, any pending vsync task and any poll
      that is late at all will do. */
  lemma QueryExactly(s: State, now: Instant, asker: Priority, thresholds: Thresholds, inHand: nat)
    requires WellFormed(s) && VsyncSafe(s, inHand, now) && asker > VIP
    requires forall i: nat :: i < asker ==> FrontExact(s.sub[i])
    ensures var late := if asker == IDLE then 0 else thresholds[VIP] * NANOSECONDS_PER_MILLISECOND;
      var delay := if s.vs.policy == FirstWithoutDefaultBarrier then s.vs.period else VSYNC_DEFAULT_BARRIER_DELAY_NS;
      (exists i: nat :: i < asker && Asks(s, now, asker, i, false, thresholds)) <==>
        !s.vs.barrier &&
        ((exists i: nat :: i < asker &&
            if asker == IDLE then s.sub[i].queue != []
            else Overdue(s.sub[i].queue, now, thresholds[i] * NANOSECONDS_PER_MILLISECOND))
         || (s.vs.pending > 0 &&
             (asker == IDLE ||
              (s.vs.recvTime + delay + late <= now && s.vs.completeTime + VSYNC_TASK_INTERVAL_NS + late <= now)))
         || (s.vs.pending == 0 && s.vs.checkTime < now && s.vs.checkTime + late <= now))
  {
    if !s.vs.barrier {
      forall i: nat | i < asker
        ensures Asks(s, now, asker, i, false, thresholds) <==>
                  || (if asker == IDLE then s.sub[i].queue != []
                      else Overdue(s.sub[i].queue, now, thresholds[i] * NANOSECONDS_PER_MILLISECOND))
                  || (i == VIP && VsyncAsks(s, now, asker, thresholds))
      {
        LevelAsks(s, now, asker, i, thresholds, inHand);
      }
    }
  }

  /** The vsync form of the question in every state: it is yes exactly under the policy without default barriers, out of
      lazy mode and barrier mode, when the vsync business asks. */
  lemma VsyncQueryExactly(s: State, now: Instant, asker: Priority, thresholds: Thresholds, inHand: nat)
    requires VsyncSafe(s, inHand, now) && asker > VIP
    ensures (exists i: nat :: i < asker && Asks(s, now, asker, i, true, thresholds)) <==>
              && s.vs.policy == FirstWithoutDefaultBarrier && !s.vs.lazy && !s.vs.barrier
              && VsyncAsks(s, now, asker, thresholds)
  {
    assert forall i: nat :: VIP < i < asker ==> !Asks(s, now, asker, i, true, thresholds);
    assert Asks(s, now, asker, VIP, true, thresholds) <==>
             s.vs.policy == FirstWithoutDefaultBarrier && !s.vs.lazy && !s.vs.barrier && VsyncAsks(s, now, asker, thresholds);
  }

  /** The vsync business of the VIP level asks for attention. */
  predicate VsyncAsks(s: State, now: Instant, asker: Priority, thresholds: Thresholds) {
    var late := if asker == IDLE then 0 else thresholds[VIP] * NANOSECONDS_PER_MILLISECOND;
    var delay := if s.vs.policy == FirstWithoutDefaultBarrier then s.vs.period else VSYNC_DEFAULT_BARRIER_DELAY_NS;
    if s.vs.pending > 0 then
      asker == IDLE ||
      (s.vs.recvTime + delay + late <= now && s.vs.completeTime + VSYNC_TASK_INTERVAL_NS + late <= now)
    else s.vs.pending == 0 && s.vs.checkTime < now && s.vs.checkTime + late <= now
  }

  lemma LevelAsks(s: State, now: Instant, asker: Priority, i: nat, thresholds: Thresholds, inHand: nat)
    requires WellFormed(s) && VsyncSafe(s, inHand, now) && i < asker && FrontExact(s.sub[i]) && !s.vs.barrier
    ensures Asks(s, now, asker, i, false, thresholds) <==>
              || (if asker == IDLE then s.sub[i].queue != []
                  else Overdue(s.sub[i].queue, now, thresholds[i] * NANOSECONDS_PER_MILLISECOND))
              || (i == VIP && VsyncAsks(s, now, asker, thresholds))
  {
    FrontMeansOverdue(s.sub[i], i, now, if asker == IDLE then 0 else thresholds[i] * NANOSECONDS_PER_MILLISECOND);
  }

  lemma FrontMeansOverdue(sq: SubQueue, i: nat, now: Instant, margin: nat)
    requires SubQueueOk(sq, i) && FrontExact(sq)
    ensures sq.front == UINT64_MAX <==> sq.queue == []
    ensures Overdue(sq.queue, now, margin) <==> sq.queue != [] && sq.front + margin <= now
  {
    if sq.queue != [] {
      assert sq.queue[0] in sq.queue;
    }
  }

  /** The vsync form of the question looks ahead at barrier mode: with vsync-first scheduling in force,
      the reported time has passed exactly when CheckBarrierMode would enter barrier mode now. */
  lemma VsyncQueryMatchesBarrier(s: State, now: Instant, stamp: Instant, inHand: nat)
    requires VsyncSafe(s, inHand, now) && s.vs.pending > 0 && !s.vs.barrier && !s.vs.lazy
    requires s.vs.policy == s.vs.originPolicy == FirstWithoutDefaultBarrier && s.vs.forceEnableEndTime <= now
    ensures FirstEventTime(s, now, VIP, true) < now <==> CheckMode(s.vs, now, stamp).barrier
    ensures FirstEventTime(s, now, VIP, true) == VsyncLimit(s.vs) >= 0
  {
  }

  /** With the default thresholds a yes to the vsync form means that the next round enters barrier mode. */
  lemma VsyncAnswerPredictsBarrier(s: State, now: Instant, stamp: Instant, inHand: nat, asker: Priority, thresholds: Thresholds)
    requires VsyncSafe(s, inHand, now) && s.vs.pending > 0 && !s.vs.barrier && !s.vs.lazy
    requires s.vs.policy == s.vs.originPolicy == FirstWithoutDefaultBarrier && s.vs.forceEnableEndTime <= now
    requires VIP < asker < IDLE && thresholds[VIP] > 0
    ensures (exists i: nat :: i < asker && Asks(s, now, asker, i, true, thresholds)) ==>
              CheckMode(s.vs, now, stamp).barrier
  {
  }
}
