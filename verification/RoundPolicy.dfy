/** What one round of GetEvent promises: how long it sleeps, what barrier mode lets through, and when
    an idle event may run. */
module RoundPolicy {
  import opened Events
  import opened EventLists
  import opened Vsync
  import opened QueueState
  import opened PickPolicy
  import opened VsyncAccounting

  // ---------------------------------------------------------------- sleeping

  lemma SleepMeansNothingPicked(s: State, p: Picked, r: Readings)
    requires p.state.vs == s.vs
    ensures var d := Decide(AfterPick(p, r.pick, r.next), r.poll);
      d.outcome.Sleep? ==>
        && p.event.None? && s.vs.pending == 0
        && d.outcome.deadline == p.state.wakeUp == d.state.wakeUp
        && d.state.sub == p.state.sub
  {
  }

  /** GetEvent goes to sleep only with no vsync task pending and out of barrier mode; then no sub
      queue holds a due event, and the deadline is exactly the earliest handle time among them. */
  lemma SleepIsExact(s: State, r: Readings, now: Instant)
    requires WellFormed(s) && VsyncSafe(s, 0, now) && now <= r.check && r.Monotone()
    ensures var d := GetEventRound(s, r);
      d.outcome.Sleep? ==>
        && d.state.vs.pending == 0 && !d.state.vs.barrier
        && d.state.wakeUp == d.outcome.deadline
        && IsEarliest(d.state, d.outcome.deadline)
        && r.pick < d.outcome.deadline
  {
    CheckModeKeeps(s.vs, r.check, r.stamp);
    var s1 := PickState(s, r);
    PickLeavesVsync(s1, r.pick);
    SleepFrom(s1, Pick(s1, r.pick), r);
    if Pick(s1, r.pick).event.None? && !s1.vs.barrier {
      PickSleeps(s1, r.pick);
    }
  }

  lemma SleepFrom(s: State, p: Picked, r: Readings)
    requires p.state.vs == s.vs && BarrierHasReason(s.vs)
    ensures var d := Decide(AfterPick(p, r.pick, r.next), r.poll);
      d.outcome.Sleep? ==>
        && p.event.None? && !s.vs.barrier
        && d.state.vs == s.vs && s.vs.pending == 0
        && d.state.wakeUp == d.outcome.deadline == p.state.wakeUp
        && (IsEarliest(p.state, p.state.wakeUp) ==> IsEarliest(d.state, d.outcome.deadline))
  {
  }

  /** An empty pick in normal mode reports the earliest handle time, which lies ahead. */
  lemma PickSleeps(s: State, now: Instant)
    requires WellFormed(s) && !s.vs.barrier && Pick(s, now).event.None?
    ensures var t := Pick(s, now).state;
      t.wakeUp > now && IsEarliest(t, t.wakeUp)
  {
    PickNothing(s, now);
    PickCases(s, now);
    BeforePopQueues(s, now, ScanAll(s, now).index < 4);
    MinHeadIsEarliest(s);
    assert forall i :: 0 <= i < 4 ==> (HasWork(s, now, i) <==> HasDue(s.sub[i].queue, now));
    EarliestLiesAhead(s, now, MinHead(s.sub, 4));
    var t := Pick(s, now).state;
    assert forall i :: 0 <= i < 4 ==> t.sub[i].queue == s.sub[i].queue;
  }

  lemma EarliestLiesAhead(s: State, now: Instant, t: TimePoint)
    requires IsEarliest(s, t) && forall i :: 0 <= i < 4 ==> !HasDue(s.sub[i].queue, now)
    ensures t > now
  {
  }

  /** The state in which the pick of a round happens. */
  function PickState(s: State, r: Readings): State {
    CheckBarrierMode(s, r.check, r.stamp)
  }

  // ---------------------------------------------------------------- barrier mode

  /** Where a round takes its event from, in terms of the pick. */
  lemma RoundSource(s: State, p: Picked, r: Readings)
    requires p.state.vs == s.vs
    ensures var d := Decide(AfterPick(p, r.pick, r.next), r.poll);
      && (d.source.FromPick? ==> p.event.Some? && Taken(d.outcome) == p.event && d.source.kind == p.kind && !d.state.isIdle)
      && (d.source.FromIdle? ==>
            var t := StampIdle(p.state, r.pick); var k := IdlePosition(t, r.pick);
            p.event.None? && k < |t.idle| && Taken(d.outcome) == Some(t.idle[k]))
      && (d.source.Nothing? ==> p.event.None?)
      && (d.source.Nothing? && Taken(d.outcome).Some? ==> Taken(d.outcome).value.isVsync)
      && (d.outcome.Direct? <==> d.source.Nothing? && Taken(d.outcome).Some?)
      && (!d.source.FromPick? ==> d.state.isIdle && d.state.idleStamp == StampIdle(p.state, r.pick).idleStamp)
  {
  }

  /** In barrier mode every event that a round hands out is a vsync task, or a barrier task whose time
      has come; whether it came from a sub queue or from the idle list makes no difference. */
  lemma BarrierSafety(s: State, r: Readings)
    requires WellFormed(s) && PickState(s, r).vs.barrier
    ensures var d := GetEventRound(s, r);
      Taken(d.outcome).Some? ==>
        var e := Taken(d.outcome).value; e.isVsync || (e.isBarrier && e.handleTime <= r.pick)
  {
    var s1 := PickState(s, r);
    PickLeavesVsync(s1, r.pick);
    PickChoice(s1, r.pick);
    var p := Pick(s1, r.pick);
    PickCases(s1, r.pick);
    RoundSource(s1, p, r);
  }

  /** In barrier mode a due barrier task in any sub queue is enough for the round to hand something out. */
  lemma BarrierProgress(s: State, r: Readings, i: nat)
    requires WellFormed(s) && PickState(s, r).vs.barrier && i < 4 && HasDueBarrier(s.sub[i].queue, r.pick)
    ensures Taken(GetEventRound(s, r).outcome).Some? && GetEventRound(s, r).source.FromPick?
  {
    var s1 := PickState(s, r);
    PickLeavesVsync(s1, r.pick);
    assert HasWork(s1, r.pick, i);
    PickNothing(s1, r.pick);
    PickFollowsScan(s1, r.pick);
    RoundSource(s1, Pick(s1, r.pick), r);
  }

  // ---------------------------------------------------------------- idle events

  /** An idle event is handed out only when nothing else can be picked, not before its time, and only
      if it was sent no later than the moment the queue last turned idle. */
  lemma IdleGate(s: State, r: Readings)
    requires WellFormed(s)
    ensures var d := GetEventRound(s, r);
      d.source.FromIdle? ==>
        && Taken(d.outcome).Some?
        && var e := Taken(d.outcome).value;
        && e in s.idle
        && e.handleTime <= r.pick && e.sendTime <= d.state.idleStamp
        && d.state.idleStamp == (if s.isIdle then s.idleStamp else r.pick)
        && d.state.isIdle
        && forall i :: 0 <= i < 4 ==> !HasWork(PickState(s, r), r.pick, i)
  {
    var s1 := PickState(s, r);
    PickLeavesVsync(s1, r.pick);
    var p := Pick(s1, r.pick);
    PickCases(s1, r.pick);
    PickNothing(s1, r.pick);
    RoundSource(s1, p, r);
    IdleChoice(StampIdle(p.state, r.pick), r.pick);
  }

  lemma IdleChoice(t: State, now: Instant)
    ensures var k := IdlePosition(t, now);
      k < |t.idle| ==>
        t.idle[k].handleTime <= now && t.idle[k].sendTime <= t.idleStamp && (t.vs.barrier ==> t.idle[k].isBarrier)
  {
  }

  /** The stamp moves only after a pick has succeeded: a round without a successful pick leaves an idle
      queue idle with the same stamp, and a successful pick makes it busy. */
  lemma StampMoves(s: State, r: Readings)
    ensures var d := GetEventRound(s, r);
      && (d.source.FromPick? ==> !d.state.isIdle)
      && (!d.source.FromPick? ==> d.state.isIdle && (s.isIdle ==> d.state.idleStamp == s.idleStamp))
  {
    var s1 := PickState(s, r);
    PickLeavesVsync(s1, r.pick);
    PickCases(s1, r.pick);
    RoundSource(s1, Pick(s1, r.pick), r);
  }

  /** The deadline of a sleep does not look at the idle list: a round sleeps equally long whatever
      idle events are waiting for their time. */
  lemma SleepIgnoresIdle(s: State, r: Readings, idle: seq<Event>)
    requires GetEventRound(s, r).outcome.Sleep? && GetEventRound(s.(idle := idle), r).outcome.Sleep?
    ensures GetEventRound(s, r).outcome == GetEventRound(s.(idle := idle), r).outcome
  {
    var a, b := PickState(s, r), PickState(s.(idle := idle), r);
    PickLeavesVsync(a, r.pick);
    PickLeavesVsync(b, r.pick);
    SleepMeansNothingPicked(a, Pick(a, r.pick), r);
    SleepMeansNothingPicked(b, Pick(b, r.pick), r);
    PickFollowsScan(a, r.pick);
    PickFollowsScan(b, r.pick);
  }

  /** So a sleep goes on beyond the time of an idle event exactly when no sub queue holds an event that is as early. */
  lemma SleepsOverIdleExactly(s: State, r: Readings, now: Instant, e: Event)
    requires WellFormed(s) && VsyncSafe(s, 0, now) && now <= r.check && r.Monotone()
    requires GetEventRound(s, r).outcome.Sleep? && e in s.idle && e.handleTime < MAX_TIME
    ensures var d := GetEventRound(s, r);
      d.outcome.deadline > e.handleTime <==>
        forall i, x :: 0 <= i < 4 && x in d.state.sub[i].queue ==> x.handleTime > e.handleTime
  {
    SleepIsExact(s, r, now);
  }

  // ---------------------------------------------------------------- rounds without a due event

  /** The idle event at position k may leave: its time has come, it was sent no later than the queue last turned
      idle, which is now if it was busy, and it is the head, or in barrier mode a barrier task. */
  ghost predicate IdleMayGo(s: State, r: Readings, k: nat) {
    && k < |s.idle|
    && s.idle[k].handleTime <= r.pick
    && s.idle[k].sendTime <= (if s.isIdle then s.idleStamp else r.pick)
    && if PickState(s, r).vs.barrier then s.idle[k].isBarrier else k == 0
  }

  /** Neither a sub queue nor the vsync override has anything to give. */
  ghost predicate NothingToPick(s: State, r: Readings) {
    (forall i :: 0 <= i < 4 ==> !HasWork(PickState(s, r), r.pick, i)) && !VsyncReady(PickState(s, r))
  }

  /** A round takes an idle event exactly when there is nothing to pick and some idle event may leave; it takes the
      first such event, and otherwise leaves the idle list alone. */
  lemma IdleServedExactly(s: State, r: Readings)
    requires WellFormed(s)
    ensures var d := GetEventRound(s, r);
      && (d.source.FromIdle? <==> NothingToPick(s, r) && exists k: nat :: IdleMayGo(s, r, k))
      && (!d.source.FromIdle? ==> d.state.idle == s.idle)
    ensures forall k: nat :: NothingToPick(s, r) && IdleMayGo(s, r, k) && (forall j: nat :: j < k ==> !IdleMayGo(s, r, j)) ==>
              && Taken(GetEventRound(s, r).outcome) == Some(s.idle[k])
              && GetEventRound(s, r).state.idle == RemoveAt(s.idle, k)
  {
    var s1 := PickState(s, r);
    RoundAfterPick(s, r);
    PickNothing(s1, r.pick);
    PickKeepsIdle(s1, r.pick);
    IdleServedAfter(s, Pick(s1, r.pick), r);
  }

  lemma IdleServedAfter(s: State, p: Picked, r: Readings)
    requires p.state.idle == s.idle && p.state.isIdle == s.isIdle && p.state.idleStamp == s.idleStamp
    requires p.state.vs == PickState(s, r).vs
    ensures var d := Decide(AfterPick(p, r.pick, r.next), r.poll);
      && (d.source.FromIdle? <==> p.event.None? && exists k: nat :: IdleMayGo(s, r, k))
      && (!d.source.FromIdle? ==> d.state.idle == s.idle)
      && forall k: nat :: p.event.None? && IdleMayGo(s, r, k) && (forall j: nat :: j < k ==> !IdleMayGo(s, r, j)) ==>
           Taken(d.outcome) == Some(s.idle[k]) && d.state.idle == RemoveAt(s.idle, k)
  {
    IdleDecision(p, r);
    FirstIdle(s, r);
    var k := IdlePosition(StampIdle(p.state, r.pick), r.pick);
    assert (forall j: nat :: j < k ==> !IdleMayGo(s, r, j)) && (k < |s.idle| ==> IdleMayGo(s, r, k));
  }

  lemma PickKeepsIdle(s: State, now: Instant)
    requires WellFormed(s)
    ensures var p := Pick(s, now).state;
      p.idle == s.idle && p.isIdle == s.isIdle && p.idleStamp == s.idleStamp && p.vs == s.vs
  {
    PickKeeps(s, now);
  }

  lemma IdleDecision(p: Picked, r: Readings)
    ensures var d := Decide(AfterPick(p, r.pick, r.next), r.poll);
      var k := IdlePosition(StampIdle(p.state, r.pick), r.pick); var q := p.state.idle;
      && (d.source.FromIdle? <==> p.event.None? && k < |q|)
      && (if d.source.FromIdle? then Taken(d.outcome) == Some(q[k]) && d.state.idle == RemoveAt(q, k) else d.state.idle == q)
  {
  }

  /** The position that is popped is that of the first idle event that may leave. */
  lemma FirstIdle(s: State, r: Readings)
    ensures forall t: State :: t.idle == s.idle && t.isIdle == s.isIdle && t.idleStamp == s.idleStamp
                               && t.vs == PickState(s, r).vs ==>
              var k := IdlePosition(StampIdle(t, r.pick), r.pick);
              && (k < |s.idle| ==> IdleMayGo(s, r, k))
              && (forall j: nat :: j < k ==> !IdleMayGo(s, r, j))
              && k <= |s.idle|
  {
  }

  /** A vsync task is counted as pending, but neither a sub queue nor the idle list has anything to give. */
  ghost predicate EmptyHandedBefore(s: State, r: Readings) {
    && s.vs.pending != 0
    && (forall i :: 0 <= i < 4 ==> !HasWork(PickState(s, r), r.pick, i))
    && forall k: nat :: !IdleMayGo(s, r, k)
  }

  /** The state before a round that ends in GetEvent's own vsync pop: VIP holds a vsync task that the pick passes
      over because its announcement has not been polled. */
  ghost predicate LeadsToDirectPop(s: State, r: Readings) {
    EmptyHandedBefore(s, r) && s.vs.needEpoll && VsyncCount(s.sub[VIP].queue) > 0
  }

  /** The state before a round that ends in a repair: VIP holds no vsync task at all. */
  ghost predicate LeadsToRepair(s: State, r: Readings) {
    EmptyHandedBefore(s, r) && VsyncCount(s.sub[VIP].queue) == 0
  }

  /** How a round ends, decided by the state before it. */
  lemma RoundEndings(s: State, r: Readings)
    requires WellFormed(s)
    ensures GetEventRound(s, r).outcome.Direct? <==> LeadsToDirectPop(s, r)
    ensures GetEventRound(s, r).outcome.Repaired? <==> LeadsToRepair(s, r)
  {
    CheckModeKeepsCount(s.vs, r.check, r.stamp);
    RoundAfterPick(s, r);
    EndingsFrom(PickState(s, r), r);
    FirstIdle(s, r);
  }

  lemma EndingsFrom(s: State, r: Readings)
    requires WellFormed(s)
    ensures var d := Decide(AfterPick(Pick(s, r.pick), r.pick, r.next), r.poll);
      var empty := s.vs.pending != 0 && IdlePosition(StampIdle(s, r.pick), r.pick) >= |s.idle|
                   && forall i :: 0 <= i < 4 ==> !HasWork(s, r.pick, i);
      && (d.outcome.Direct? <==> empty && s.vs.needEpoll && VsyncCount(s.sub[VIP].queue) > 0)
      && (d.outcome.Repaired? <==> empty && VsyncCount(s.sub[VIP].queue) == 0)
  {
    PickNothing(s, r.pick);
    if Pick(s, r.pick).event.None? {
      EmptyPickState(s, r.pick);
    }
    EndingsGiven(s, Pick(s, r.pick), r, forall i :: 0 <= i < 4 ==> !HasWork(s, r.pick, i));
  }

  lemma EndingsGiven(s: State, p: Picked, r: Readings, idleSubs: bool)
    requires p.event.None? <==> idleSubs && !VsyncReady(s)
    requires p.event.None? ==> p.state == s.(sub := p.state.sub, wakeUp := p.state.wakeUp)
                               && p.state.sub[VIP].queue == s.sub[VIP].queue
    ensures var d := Decide(AfterPick(p, r.pick, r.next), r.poll);
      var empty := s.vs.pending != 0 && IdlePosition(StampIdle(s, r.pick), r.pick) >= |s.idle| && idleSubs;
      && (d.outcome.Direct? <==> empty && s.vs.needEpoll && VsyncCount(s.sub[VIP].queue) > 0)
      && (d.outcome.Repaired? <==> empty && VsyncCount(s.sub[VIP].queue) == 0)
  {
    VsyncCountFound(s.sub[VIP].queue);
    DecisionAfterPick(p, r);
  }

  /** An empty pick leaves everything but the counters and the wake-up time alone. */
  lemma EmptyPickState(s: State, now: Instant)
    requires Pick(s, now).event.None?
    ensures var p := Pick(s, now).state;
      && p == s.(sub := p.sub, wakeUp := p.wakeUp)
      && forall i :: 0 <= i < 4 ==> p.sub[i].queue == s.sub[i].queue && p.sub[i].front == s.sub[i].front
  {
    PickCases(s, now);
    BeforePopQueues(s, now, ScanAll(s, now).index < 4);
  }

  lemma DecisionAfterPick(p: Picked, r: Readings)
    ensures var d := Decide(AfterPick(p, r.pick, r.next), r.poll); var q := p.state.sub[VIP].queue;
      var empty := p.event.None? && p.state.vs.pending != 0
                   && IdlePosition(StampIdle(p.state, r.pick), r.pick) >= |p.state.idle|;
      && (d.outcome.Direct? <==> empty && FirstIndex(q, VsyncTask) < |q|)
      && (d.outcome.Repaired? <==> empty && FirstIndex(q, VsyncTask) >= |q|)
  {
  }

  /** A round that finds nothing to pick while the count is not zero takes the first vsync task out of VIP
      past the cache, and starts over with the count reset exactly when VIP holds none. */
  lemma EmptyHandedRound(s: State, r: Readings)
    requires WellFormed(s) && s.idle == [] && s.vs.pending != 0 && (s.vs.needEpoll || VsyncCount(s.sub[VIP].queue) == 0)
    requires forall i :: 0 <= i < 4 ==> !HasDue(s.sub[i].queue, r.pick)
    ensures var d := GetEventRound(s, r); var k := FirstIndex(s.sub[VIP].queue, VsyncTask);
      && (forall i :: 0 < i < 4 ==> d.state.sub[i].queue == s.sub[i].queue)
      && (forall i :: 0 <= i < 4 ==> d.state.sub[i].front == s.sub[i].front)
      && d.state.idle == []
      && if VsyncCount(s.sub[VIP].queue) == 0
         then d.outcome == Repaired && d.state.vs.pending == 0
         else k < |s.sub[VIP].queue| && d.outcome == Direct(s.sub[VIP].queue[k])
              && d.state.sub[VIP].queue == RemoveAt(s.sub[VIP].queue, k) && d.state.vs == PickState(s, r).vs
  {
    var s1 := PickState(s, r);
    VsyncCountFound(s.sub[VIP].queue);
    CheckModeKeepsCount(s.vs, r.check, r.stamp);
    NothingDuePick(s1, r.pick);
    RoundAfterPick(s, r);
    EmptyHanded(Pick(s1, r.pick), r);
  }

  lemma CheckModeKeepsCount(v: VsyncState, now: Instant, stamp: Instant)
    ensures CheckMode(v, now, stamp).pending == v.pending && CheckMode(v, now, stamp).needEpoll == v.needEpoll
  {
  }

  lemma RoundAfterPick(s: State, r: Readings)
    ensures GetEventRound(s, r) == Decide(AfterPick(Pick(PickState(s, r), r.pick), r.pick, r.next), r.poll)
  {
  }

  lemma NothingDuePick(s: State, now: Instant)
    requires WellFormed(s) && !VsyncReady(s) && forall i :: 0 <= i < 4 ==> !HasDue(s.sub[i].queue, now)
    ensures var p := Pick(s, now);
      && p.event.None? && p.state.vs == s.vs && p.state.idle == s.idle
      && (forall i :: 0 <= i < 4 ==> p.state.sub[i].queue == s.sub[i].queue && p.state.sub[i].front == s.sub[i].front)
  {
    assert forall i :: 0 <= i < 4 && HasWork(s, now, i) ==> HasDue(s.sub[i].queue, now);
    PickNothing(s, now);
    EmptyPickState(s, now);
  }

  lemma EmptyHanded(p: Picked, r: Readings)
    requires p.event.None? && p.state.idle == [] && p.state.vs.pending != 0
    ensures var d := Decide(AfterPick(p, r.pick, r.next), r.poll); var q := p.state.sub[VIP].queue;
      var k := FirstIndex(q, VsyncTask);
      && (forall i :: 0 < i < 4 ==> d.state.sub[i] == p.state.sub[i])
      && d.state.sub[VIP].front == p.state.sub[VIP].front && d.state.idle == []
      && if k < |q| then d.outcome == Direct(q[k]) && d.state.sub[VIP].queue == RemoveAt(q, k) && d.state.vs == p.state.vs
         else d.outcome == Repaired && d.state.vs.pending == 0 && d.state.sub == p.state.sub
  {
  }

  // ---------------------------------------------------------------- due events

  /** Nothing but a vsync task is handed out before its time. */
  lemma HandedOutIsDue(s: State, r: Readings)
    requires WellFormed(s)
    ensures var e := Taken(GetEventRound(s, r).outcome);
      e.Some? && !e.value.isVsync ==> e.value.handleTime <= r.pick
  {
    var s1 := PickState(s, r);
    PickChoice(s1, r.pick);
    PickLeavesVsync(s1, r.pick);
    PickCases(s1, r.pick);
    RoundAfterPick(s, r);
    RoundSource(s1, Pick(s1, r.pick), r);
    IdleGate(s, r);
  }

  /** In normal mode a due event in any sub queue makes the round hand something out. */
  lemma DueIsServed(s: State, r: Readings, i: nat, e: Event)
    requires WellFormed(s) && i < 4 && e in s.sub[i].queue && e.handleTime <= r.pick && !PickState(s, r).vs.barrier
    ensures Taken(GetEventRound(s, r).outcome).Some?
  {
    var s1 := PickState(s, r);
    assert HasDue(s1.sub[i].queue, r.pick);
    assert HasWork(s1, r.pick, i);
    PickNothing(s1, r.pick);
    PickLeavesVsync(s1, r.pick);
    PickCases(s1, r.pick);
    RoundSource(s1, Pick(s1, r.pick), r);
  }

  // ---------------------------------------------------------------- polling

  /** A round polls for a vsync task before it returns its event exactly when the event came by the pick or from the
      idle list, no vsync task is pending, lazy mode is off or a forced window is open, and the announcement
      has not been polled or the check time has passed. */
  lemma PollsExactly(s: State, r: Readings)
    requires BarrierHasReason(s.vs)
    ensures var d := GetEventRound(s, r);
      && (d.outcome.PollThenReturn? <==>
            && !d.source.Nothing? && s.vs.pending == 0
            && (!s.vs.lazy || r.check < s.vs.forceEnableEndTime) && (s.vs.needEpoll || s.vs.checkTime < r.poll))
      && (d.outcome.Return? <==> !d.source.Nothing? && !d.outcome.PollThenReturn?)
      && (d.outcome.PollThenReturn? ==> d.outcome.need == s.vs.needEpoll)
  {
    CheckModeExactly(s.vs, r.check, r.stamp);
    CheckModeKeepsCount(s.vs, r.check, r.stamp);
    CheckModeKeepsPlan(s.vs, r.check, r.stamp);
    var x := GetExpired(PickState(s, r), r.pick, r.next);
    GetExpiredLeavesVsync(PickState(s, r), r.pick, r.next);
    ExpiredSource(Pick(PickState(s, r), r.pick), r.pick, r.next);
    PollDecision(x, r.poll);
  }

  lemma CheckModeKeepsPlan(v: VsyncState, now: Instant, stamp: Instant)
    ensures CheckMode(v, now, stamp).checkTime == v.checkTime
  {
  }

  lemma ExpiredSource(p: Picked, now: Instant, later: Instant)
    ensures AfterPick(p, now, later).event.Some? <==> !AfterPick(p, now, later).source.Nothing?
  {
  }

  lemma PollDecision(x: Expired, poll: Instant)
    requires x.event.Some? <==> !x.source.Nothing?
    ensures var d := Decide(x, poll); var v := x.state.vs;
      && (d.outcome.PollThenReturn? <==>
            x.event.Some? && v.pending == 0 && !v.lazy && (v.needEpoll || v.checkTime < poll))
      && (d.outcome.Return? <==> x.event.Some? && !d.outcome.PollThenReturn?)
      && (d.source.Nothing? <==> x.event.None?)
      && (d.outcome.PollThenReturn? ==> d.outcome.need == v.needEpoll)
  {
  }
}
