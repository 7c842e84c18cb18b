/** Runs from the start that reach the configurations in which a promise of the documentation or of a
    setter fails, so that each exact condition is met by the real queue. */
module ExampleRuns {
  import opened Events
  import opened EventLists
  import opened Vsync
  import opened QueueState
  import opened VsyncAccounting
  import opened PickPolicy
  import opened RoundPolicy
  import opened PendingQuery
  import opened Sending
  import opened Timeouts
  import opened Waiters
  import opened EventLoop
  import opened LoopRuns
  import opened FinishRuns
  import opened PollRuns

  const MAIN: Sender := Sender(false, false, FirstWithDefaultBarrier)

  // ---------------------------------------------------------------- steps that the runs are made of

  /** Prepared, and the runner about to call GetEvent at time 0. */
  lemma Started() returns (c: Config)
    ensures EventLoop.Reachable(c) && c.pc == Calling && c.clock == 0
    ensures c.q == InitialState(0).(finished := false) && c.accepted == multiset{} && c.dead == {}
    ensures c.waiters == [NoneWaiter(false)] && c.io == 0
  {
    var none: multiset<Event> := multiset{};
    var c0 := Config(InitialState(0), 0, Stopped, [NoneWaiter(false)], 0, map[], {}, none, none, none, none, none);
    var cs, acts: seq<Action> := [c0], [];
    assert Run(cs, acts) && Init(cs[0]) && cs[|acts|] == c0;
    assert Step(c0, Any(Prepare), PrepareNext(c0));
    ReachableStep(c0, Any(Prepare), PrepareNext(c0));
    c := PrepareNext(c0).(pc := Calling);
    assert Step(PrepareNext(c0), Runner(Start), c);
    ReachableStep(PrepareNext(c0), Runner(Start), c);
  }

  lemma Set(c: Config, setting: Setting) returns (d: Config)
    requires EventLoop.Reachable(c)
    ensures EventLoop.Reachable(d) && d == c.(q := c.q.(vs := Apply(c.q.vs, setting, c.clock)))
  {
    d := c.(q := c.q.(vs := Apply(c.q.vs, setting, c.clock)));
    assert Step(c, Any(SetVsync(setting)), d);
    ReachableStep(c, Any(SetVsync(setting)), d);
  }

  lemma Wait(c: Config, now: Instant) returns (d: Config)
    requires EventLoop.Reachable(c) && c.clock <= now
    ensures EventLoop.Reachable(d) && d == c.(clock := now)
  {
    d := c.(clock := now);
    assert Step(c, Any(Tick(now)), d);
    ReachableStep(c, Any(Tick(now)), d);
  }

  lemma Send(c: Config, e: Event, p: Priority) returns (d: Config)
    requires EventLoop.Reachable(c) && c.q.usable && Fresh(c, e.id) && Disciplined(c.q, e, p)
    ensures EventLoop.Reachable(d) && d == InsertNext(c, e, p, AtEnd, NoBarrier, MAIN)
    ensures d.pc == c.pc && d.clock == c.clock && d.dead == c.dead
    ensures d.q == Insert(c.q, e, p, AtEnd, NoBarrier, MAIN, c.clock).state
  {
    var a := InsertEvent(e, p, AtEnd, NoBarrier, MAIN);
    d := InsertNext(c, e, p, AtEnd, NoBarrier, MAIN);
    assert Step(c, Any(a), d);
    ReachableStep(c, Any(a), d);
  }

  lemma TakeOne(c: Config, r: Readings) returns (d: Config)
    requires EventLoop.Reachable(c) && c.pc.Calling? && !c.q.finished && c.clock <= r.check && r.Monotone()
    ensures EventLoop.Reachable(d) && d == RoundNext(c, r) && Step(c, Runner(TakeRound(r)), d)
  {
    d := RoundNext(c, r);
    assert Step(c, Runner(TakeRound(r)), d);
    ReachableStep(c, Runner(TakeRound(r)), d);
  }

  function At(t: Instant): Readings {
    Readings(t, t, t, t, t)
  }

  function Task(id: nat, t: TimePoint): Event {
    Event(id, t, t, -1, false, false, 1, true, "task", 0, 0, false)
  }

  /** With no vsync task about, a due event makes the round hand something out, by way of a poll exactly when
      one is due. */
  lemma QuietRoundServes(s: State, r: Readings, i: nat, e: Event)
    requires WellFormed(s) && i < 4 && e in s.sub[i].queue && e.handleTime <= r.pick
    requires s.vs.pending == 0 && !s.vs.barrier
    ensures var d := GetEventRound(s, r); var v := CheckMode(s.vs, r.check, r.stamp);
      && d.state.vs == v && v.pending == 0 && !v.barrier
      && if !v.lazy && (v.needEpoll || v.checkTime < r.poll)
         then d.outcome.PollThenReturn? && d.outcome.need == v.needEpoll
         else d.outcome.Return?
  {
    DueEventIsServed(s, r, i, e);
    GetExpiredLeavesVsync(PickState(s, r), r.pick, r.next);
    QuietDecision(GetExpired(PickState(s, r), r.pick, r.next), r.poll);
  }

  lemma QuietDecision(x: Expired, poll: Instant)
    requires x.state.vs.pending == 0
    ensures var d := Decide(x, poll); var v := x.state.vs;
      && d.state.vs == v
      && (Taken(d.outcome).Some? ==>
            if !v.lazy && (v.needEpoll || v.checkTime < poll)
            then d.outcome.PollThenReturn? && d.outcome.need == v.needEpoll
            else d.outcome.Return?)
  {
  }

  lemma SentIsQueued(s: State, e: Event, p: nat, now: Instant)
    requires s.usable && p < 4 && !NeedsBarrierMark(e, NoBarrier, MAIN)
    ensures var t := Insert(s, e, p, AtEnd, NoBarrier, MAIN, now).state;
      && e.(priority := p) in t.sub[p].queue && t.vs == (if e.isVsync then Dispatch(s.vs, now) else s.vs)
      && t == s.(sub := t.sub, vs := t.vs)
  {
    InsertKeepsContents(s.sub[p].queue, e.(priority := p), AtEnd);
  }

  lemma SendTask(c: Config, id: nat) returns (d: Config)
    requires EventLoop.Reachable(c) && c.q.usable && Fresh(c, id)
    ensures EventLoop.Reachable(d) && d.pc == c.pc && d.clock == c.clock
    ensures Task(id, c.clock).(priority := HIGH) in d.q.sub[HIGH].queue && d.q == c.q.(sub := d.q.sub)
    ensures forall x: nat :: x != id && Fresh(c, x) ==> Fresh(d, x)
  {
    var e := Task(id, c.clock);
    SentIsQueued(c.q, e, HIGH, c.clock);
    d := Send(c, e, HIGH);
  }

  /** An ordinary task is sent and served at once. */
  lemma ServeTask(c: Config, id: nat) returns (d: Config)
    requires EventLoop.Reachable(c) && c.pc.Calling? && c.q.usable && !c.q.finished && Fresh(c, id)
    requires c.q.vs.pending == 0 && !c.q.vs.barrier
    ensures EventLoop.Reachable(d) && d.q.vs == CheckMode(c.q.vs, c.clock, c.clock) && d.q.vs.pending == 0 && !d.q.vs.barrier
    ensures d.q.usable && !d.q.finished && d.clock == c.clock
    ensures forall x: nat :: x != id && Fresh(c, x) ==> Fresh(d, x)
    ensures var v := d.q.vs;
      if !v.lazy && (v.needEpoll || v.checkTime < d.clock) then d.pc.Polling? && d.pc.need == v.needEpoll else d.pc.Holding?
  {
    var b := SendTask(c, id);
    d := ServeSent(b, Task(id, c.clock).(priority := HIGH));
  }

  lemma ServeSent(c: Config, e: Event) returns (d: Config)
    requires EventLoop.Reachable(c) && c.pc.Calling? && !c.q.finished && c.q.vs.pending == 0 && !c.q.vs.barrier
    requires e in c.q.sub[HIGH].queue && e.handleTime <= c.clock
    ensures EventLoop.Reachable(d) && d.q.vs == CheckMode(c.q.vs, c.clock, c.clock) && d.q.vs.pending == 0 && !d.q.vs.barrier
    ensures d.q.usable == c.q.usable && !d.q.finished && d.clock == c.clock && d.accepted == c.accepted
    ensures var v := d.q.vs;
      if !v.lazy && (v.needEpoll || v.checkTime < d.clock) then d.pc.Polling? && d.pc.need == v.needEpoll else d.pc.Holding?
  {
    var r := At(c.clock);
    ReachableHasInv(c);
    QuietRoundServes(c.q, r, HIGH, e);
    RoundKeeps(c.q, r);
    d := TakeOne(c, r);
  }

  // ---------------------------------------------------------------- polling

  /** A poll without an announcement is reachable: out of lazy mode, with a frame report whose check time has
      passed, and an ordinary event to return. */
  lemma PollingIsReachable() returns (c: Config)
    ensures EventLoop.Reachable(c) && c.pc.Polling? && !c.pc.need && c.q.usable && !c.q.finished && c.q.vs.pending == 0
    ensures 0 < c.q.vs.period < MAX_CHECK_VSYNC_PERIOD_NS && Fresh(c, 1)
  {
    c := Started();
    c := Set(c, Lazy(false));
    c := Set(c, CheckTime(0, 10_000_000));
    c := Wait(c, 20_000_000);
    assert c.q.vs.checkTime == 11_000_000 && c.q.vs.period == 10_000_000 && !c.q.vs.lazy;
    c := ServeTask(c, 0);
  }

  /** So the documented promise of Finish does fail in a run from the start. */
  lemma EventAfterFinish() returns (c: Config)
    ensures EventLoop.Reachable(c) && c.q.finished && exists cs, acts :: ReturningRun(c, cs, acts)
  {
    var p := PollingIsReachable();
    ReachableHasInv(p);
    FinishDuringPoll(p);
    c := FinishNext(p);
    ReachableStep(p, Any(Finish), c);
  }

  /** And so does the addition of a missed poll. */
  lemma OverflowIsReachable() returns (d: Config)
    ensures EventLoop.Reachable(d) && d.q.vs.checkTime > MAX_TIME
  {
    var c := PollingIsReachable();
    ReachableHasInv(c);
    var e := Event(1, 0, 0, -1, true, false, 9, true, "vsync", 0, 0, false);
    var c1, c2, c3, c4 := PollOverflows(c, e, MAIN);
    ReachableStep(c, Any(InsertEvent(e, VIP, AtEnd, NoBarrier, MAIN)), c1);
    ReachableStep(c1, Any(OwnerDies(e.ownerId)), c2);
    ReachableStep(c2, Any(RemoveDead), c3);
    ReachableStep(c3, Runner(PollReturn(true, true)), c4);
    d := c4;
  }

  // ---------------------------------------------------------------- disabled scheduling

  /** The task in hand, which is no vsync task when none is pending, is executed to its end. */
  lemma ExecuteTask(c: Config) returns (d: Config)
    requires EventLoop.Reachable(c) && c.pc.Holding? && c.q.vs.pending == 0
    ensures EventLoop.Reachable(d) && d.pc.Calling? && d.q == c.q && d.clock == c.clock && d.accepted == c.accepted
  {
    VsyncNeverForgotten(c);
    d := ExecuteNext(c);
    assert Step(c, Runner(Execute), d);
    ReachableStep(c, Runner(Execute), d);
    if d.pc.Executing? {
      var e := TaskDoneNext(d, true);
      assert Step(d, Runner(TaskDone(true)), e);
      ReachableStep(d, Runner(TaskDone(true)), e);
      d := e;
    }
  }

  lemma SendVsync(c: Config, id: nat) returns (d: Config)
    requires EventLoop.Reachable(c) && c.q.usable && Fresh(c, id) && c.q.vs.pending == 0
    requires c.clock + UINT32_MAX * NANOSECONDS_PER_MILLISECOND <= MAX_TIME
    ensures EventLoop.Reachable(d) && d.pc == c.pc && d.clock == c.clock && d.dead == c.dead
    ensures var e := VsyncTaskEvent(id, "vsync", 1, c.clock);
      d.q == c.q.(sub := c.q.sub[VIP := InsertInto(c.q.sub[VIP], e.(priority := VIP), AtEnd)], vs := Dispatch(c.q.vs, c.clock))
  {
    d := Send(c, VsyncTaskEvent(id, "vsync", 1, c.clock), VIP);
  }

  lemma Forced() returns (c: Config)
    ensures EventLoop.Reachable(c) && c.pc.Calling? && c.clock == 0 && c.q.usable && !c.q.finished
    ensures c.accepted == multiset{}
    ensures c.q.vs == ForceEnable(SetPolicy(InitialVsync, DisableVsyncFirst), true, 100_000_000, 0)
  {
    c := Started();
    c := Set(c, Policy(DisableVsyncFirst));
    c := Set(c, Force(true, 100_000_000));
  }

  lemma CheckedInWindow()
    ensures var v := CheckMode(ForceEnable(SetPolicy(InitialVsync, DisableVsyncFirst), true, 100_000_000, 0), 0, 0);
      && v.originPolicy == DisableVsyncFirst && v.forceEnableEndTime == 100_000_000 && v.pending == 0
      && !v.lazy && !v.barrier && !v.needEpoll && v.checkTime == MAX_TIME && v.completeTime == 0
  {
  }

  /** The policy is disabled, a forced window of 100 ms is opened, and one task is served inside it. */
  lemma ServedInWindow() returns (c: Config)
    ensures EventLoop.Reachable(c) && c.pc.Calling? && c.clock == 0 && c.q.usable && !c.q.finished && Fresh(c, 1)
    ensures var v := c.q.vs;
      && v.originPolicy == DisableVsyncFirst && v.forceEnableEndTime == 100_000_000 && v.pending == 0
      && !v.lazy && !v.barrier && v.checkTime == MAX_TIME && v.completeTime == 0
  {
    var c0 := Forced();
    CheckedInWindow();
    assert Fresh(c0, 1);
    var c1 := ServeTask(c0, 0);
    assert Fresh(c1, 1);
    c := ExecuteTask(c1);
  }

  /** Barrier mode under a disabled policy: after the window, a vsync task that is 150 ms late makes the next
      round enter it. */
  lemma BarrierThoughDisabled() returns (c: Config, r: Readings)
    ensures EventLoop.Reachable(c) && RunnerStep(c, TakeRound(r), RoundNext(c, r))
    ensures c.q.vs.originPolicy == DisableVsyncFirst && c.q.vs.forceEnableEndTime <= r.check
    ensures PickState(c.q, r).vs.policy == DisableVsyncFirst && PickState(c.q, r).vs.barrier
  {
    c := ServedInWindow();
    AnnouncedVsyncEntersBarrier(c.q.vs, 150_000_000, 300_000_000, 300_000_000);
    c := Wait(c, 150_000_000);
    c := SendVsync(c, 1);
    c := Wait(c, 300_000_000);
    r := At(300_000_000);
  }

  // ---------------------------------------------------------------- front times

  /** VIP holds e alone and the other lists are empty. */
  ghost predicate OnlyHolds(s: State, e: Event) {
    && s.sub[VIP].queue == [e] && s.sub[VIP].front == e.handleTime && s.idle == []
    && forall i :: 0 < i < 4 ==> s.sub[i].queue == []
  }

  lemma LoneVsyncSent() returns (c: Config, e: Event)
    ensures EventLoop.Reachable(c) && c.pc.Calling? && c.clock == 0 && !c.q.finished
    ensures e.isVsync && 0 < e.handleTime && OnlyHolds(c.q, e)
    ensures c.q.vs == Dispatch(InitialVsync, 0) && c.dead == {}
  {
    var c0 := Started();
    e := VsyncTaskEvent(0, "vsync", 1, 0).(priority := VIP);
    InsertedAlone(e, Dispatch(InitialVsync, 0));
    c := SendVsync(c0, 0);
  }

  lemma InsertedAlone(e: Event, v: VsyncState)
    ensures var s := InitialState(0).(finished := false);
      OnlyHolds(s.(sub := s.sub[VIP := InsertInto(s.sub[VIP], e, AtEnd)], vs := v), e)
  {
    assert InsertAt([], e, AtEnd) == [e];
  }

  lemma LoneVsyncPopped(s: State, e: Event)
    requires WellFormed(s) && OnlyHolds(s, e) && e.isVsync && e.handleTime > 0 && s.vs == Dispatch(InitialVsync, 0)
    ensures var d := GetEventRound(s, At(0));
      && d.outcome == Direct(e) && d.state.vs == s.vs && d.state.idle == []
      && (forall i :: 0 <= i < 4 ==> d.state.sub[i].queue == []) && d.state.sub[VIP].front == e.handleTime
  {
    assert e in [e] && VsyncCount([e]) == 1;
    forall i | 0 <= i < 4 ensures !HasDue(s.sub[i].queue, 0) {
      assert s.sub[i].queue == if i == VIP then [e] else [];
    }
    assert PickState(s, At(0)).vs == s.vs;
    EmptyHandedRound(s, At(0));
  }

  /** A lone vsync task leaves VIP by the direct pop, and while it runs the yield query of an idle task says
      that something is queued, although every list is empty. */
  lemma YieldToNothing(thresholds: Thresholds) returns (c: Config)
    ensures EventLoop.Reachable(c) && c.pc.Executing? && QuietVsync(c.q, c.clock)
    ensures forall p: Priority :: ListOf(c.q, p) == []
    ensures !FrontExact(c.q.sub[VIP]) && Asks(c.q, c.clock, IDLE, VIP, false, thresholds)
  {
    var c0, e := LoneVsyncSent();
    ReachableHasInv(c0);
    LoneVsyncPopped(c0.q, e);
    var c1 := TakeOne(c0, At(0));
    c := StartVsync(c1);
    FrontAloneAsks(c.q, thresholds);
  }

  lemma StartVsync(c: Config) returns (d: Config)
    requires EventLoop.Reachable(c) && c.pc.Holding? && c.pc.event.isVsync && c.dead == {}
    ensures EventLoop.Reachable(d) && d.pc.Executing? && d.clock == c.clock && d.q == c.q.(vs := HandleTask(c.q.vs))
  {
    d := ExecuteNext(c);
    assert Step(c, Runner(Execute), d);
    ReachableStep(c, Runner(Execute), d);
  }

  lemma FrontAloneAsks(s: State, thresholds: Thresholds)
    requires (forall i :: 0 <= i < 4 ==> s.sub[i].queue == []) && s.sub[VIP].front <= MAX_TIME
    requires s.vs == HandleTask(Dispatch(InitialVsync, 0))
    ensures QuietVsync(s, 0) && !FrontExact(s.sub[VIP]) && Asks(s, 0, IDLE, VIP, false, thresholds)
  {
  }

  // ---------------------------------------------------------------- a bypassed VIP queue

  /** VIP holds n tasks of time 1 and has used k of its turns; LOW holds a task of time 0; nothing else is queued
      between them. */
  ghost predicate Race(s: State, k: nat, n: nat) {
    && s.vs == InitialVsync && s.usable && !s.finished
    && s.sub[VIP].handled == k && |s.sub[VIP].queue| == n && (forall e :: e in s.sub[VIP].queue ==> e.handleTime == 1)
    && s.sub[IMMEDIATE].queue == [] && s.sub[HIGH].queue == []
    && s.sub[LOW].queue != [] && s.sub[LOW].queue[0].handleTime == 0
  }

  lemma RacePasses(s: State, k: nat, n: nat)
    requires WellFormed(s) && Race(s, k, n) && n > 0
    ensures Passes(s, 1, VIP) && Passes(s, 1, LOW) && HasDue(s.sub[VIP].queue, 1)
    ensures PickState(s, At(1)) == s
  {
    assert s.sub[VIP].queue[0] in s.sub[VIP].queue;
  }

  lemma RacePick(s: State, k: nat, n: nat)
    requires WellFormed(s) && Race(s, k, n) && n > 0 && k < MAX_HANDLED
    ensures var p := Pick(s, 1);
      p.event.Some? && p.kind == QueuePick(VIP) && Race(p.state, k + 1, n - 1)
  {
    RacePasses(s, k, n);
    VipIsServed(s, 1);
    ScanPast(s, 1, LOW);
    PickCases(s, 1);
    PickCounters(s, 1);
    BeforePopQueues(s, 1, true);
    PickLeavesVsync(s, 1);
    RemoveAtKeeps(s.sub[VIP].queue, 0);
  }

  lemma RaceDecision(p: Picked, k: nat, n: nat)
    requires p.event.Some? && p.kind == QueuePick(VIP) && Race(p.state, k, n)
    ensures var d := Decide(AfterPick(p, 1, 1), 1); d.outcome.Return? && Race(d.state, k, n)
  {
  }

  /** Five times VIP is served. */
  lemma {:induction false} RunRace(c: Config, k: nat, n: nat) returns (d: Config)
    requires EventLoop.Reachable(c) && c.pc.Calling? && c.clock == 1
    requires Race(c.q, k, n) && k <= MAX_HANDLED && n + k > MAX_HANDLED
    ensures EventLoop.Reachable(d) && d.pc.Calling? && d.clock == 1 && Race(d.q, MAX_HANDLED, n + k - MAX_HANDLED)
    decreases MAX_HANDLED - k
  {
    d := c;
    if k < MAX_HANDLED {
      ReachableHasInv(c);
      RacePasses(c.q, k, n);
      RacePick(c.q, k, n);
      RoundAfterPick(c.q, At(1));
      RaceDecision(Pick(c.q, 1), k + 1, n - 1);
      var t := TakeOne(c, At(1));
      var u := ExecuteTask(t);
      d := RunRace(u, k + 1, n - 1);
    }
  }

  lemma SentToVip(s: State, e: Event, k: nat, n: nat)
    requires Race(s, k, n) && e.handleTime == 1 && !e.isVsync && e.priority == -1
    ensures Race(Insert(s, e, VIP, AtEnd, NoBarrier, MAIN, 1).state, k, n + 1)
  {
    InsertKeepsContents(s.sub[VIP].queue, e.(priority := VIP), AtEnd);
  }

  lemma SentToLow(s: State, e: Event)
    requires s == InitialState(0).(finished := false) && e.handleTime == 0 && !e.isVsync && e.priority == -1
    ensures Race(Insert(s, e, LOW, AtEnd, NoBarrier, MAIN, 0).state, 0, 0)
  {
  }

  lemma SendVip(c: Config, id: nat, n: nat) returns (d: Config)
    requires EventLoop.Reachable(c) && c.pc.Calling? && c.clock == 1 && Race(c.q, 0, n) && Fresh(c, id)
    ensures EventLoop.Reachable(d) && d.pc.Calling? && d.clock == 1 && Race(d.q, 0, n + 1)
    ensures forall x: nat :: x != id && Fresh(c, x) ==> Fresh(d, x)
  {
    SentToVip(c.q, Task(id, 1), 0, n);
    d := Send(c, Task(id, 1), VIP);
  }

  lemma {:induction false} SendVips(c: Config, n: nat) returns (d: Config)
    requires EventLoop.Reachable(c) && c.pc.Calling? && c.clock == 1 && Race(c.q, 0, 0)
    requires forall x: nat :: x > 0 ==> Fresh(c, x)
    ensures EventLoop.Reachable(d) && d.pc.Calling? && d.clock == 1 && Race(d.q, 0, n)
    ensures forall x: nat :: x > n ==> Fresh(d, x)
  {
    d := c;
    if n > 0 {
      var b := SendVips(c, n - 1);
      assert Fresh(b, n);
      d := SendVip(b, n, n - 1);
      forall x: nat | x > n ensures Fresh(d, x) {
        assert Fresh(b, x);
      }
    }
  }

  /** A run in which VIP is not distributed until its tasks are completed: one LOW task at time 0 and six VIP tasks
      at time 1 are sent, and the sixth round serves LOW while a VIP task is due. */
  lemma VipIsBypassed() returns (c: Config, r: Readings)
    ensures EventLoop.Reachable(c) && RunnerStep(c, TakeRound(r), RoundNext(c, r)) && !PickState(c.q, r).vs.barrier
    ensures HasDue(c.q.sub[VIP].queue, r.pick) && GetEventRound(c.q, r).source == FromPick(QueuePick(LOW))
  {
    var c0 := Started();
    SentToLow(c0.q, Task(0, 0));
    var c1 := Send(c0, Task(0, 0), LOW);
    var c2 := Wait(c1, 1);
    var c3 := SendVips(c2, 6);
    c := RunRace(c3, 0, 6);
    r := At(1);
    ReachableHasInv(c);
    RacePasses(c.q, 5, 1);
    LowServed(c.q);
  }

  lemma LowServed(s: State)
    requires WellFormed(s) && Race(s, MAX_HANDLED, 1)
    ensures GetEventRound(s, At(1)).source == FromPick(QueuePick(LOW))
  {
    RacePasses(s, MAX_HANDLED, 1);
    ChosenExactly(s, 1, LOW);
    ScanPast(s, 1, LOW);
    PickCases(s, 1);
    RoundAfterPick(s, At(1));
    PickLeavesVsync(s, 1);
    RoundSource(s, Pick(s, 1), At(1));
  }

  // ---------------------------------------------------------------- an idle task slept over

  lemma FutureIdleSleeps(s: State)
    requires WellFormed(s) && s.vs == InitialVsync && (forall i :: 0 <= i < 4 ==> s.sub[i].queue == [])
    requires s.idle != [] && s.idle[0].handleTime > 0 && s.isIdle
    ensures var d := GetEventRound(s, At(0));
      d.outcome == Sleep(MAX_TIME) && d.state.idle == s.idle && d.state.idleStamp == s.idleStamp
      && (forall i :: 0 <= i < 4 ==> d.state.sub[i].queue == [])
  {
    assert PickState(s, At(0)) == s;
    NothingDuePick(s, 0);
    PickNothing(s, 0);
    EmptyPickState(s, 0);
    RoundAfterPick(s, At(0));
    SleepDecision(Pick(s, 0));
  }

  lemma SleepDecision(p: Picked)
    requires p.event.None? && p.state.vs == InitialVsync && p.state.wakeUp == MAX_TIME && p.state.isIdle
    requires p.state.idle != [] && p.state.idle[0].handleTime > 0
    ensures var d := Decide(AfterPick(p, 0, 0), 0); d.outcome == Sleep(MAX_TIME) && d.state == p.state
  {
  }

  lemma IdleTaskSent() returns (c: Config)
    ensures EventLoop.Reachable(c) && c.pc.Calling? && c.clock == 0 && !c.q.finished
    ensures c.waiters == [NoneWaiter(false)] && c.io == 0
    ensures c.q.vs == InitialVsync && c.q.isIdle && c.q.idleStamp == 0 && forall i :: 0 <= i < 4 ==> c.q.sub[i].queue == []
    ensures |c.q.idle| == 1 && c.q.idle[0].handleTime == 10_000_000 && c.q.idle[0].sendTime == 0
  {
    var c0 := Started();
    c := Send(c0, Addressed(Task(0, 0), 1, 10, 0), IDLE);
  }

  lemma FallAsleep(c: Config) returns (d: Config)
    requires EventLoop.Reachable(c) && c.pc.Calling? && c.clock == 0 && !c.q.finished
    requires c.waiters == [NoneWaiter(false)] && c.io == 0
    requires GetEventRound(c.q, At(0)).outcome == Sleep(MAX_TIME)
    ensures EventLoop.Reachable(d) && d.waiters == c.waiters && d.clock == 0 && d.q == GetEventRound(c.q, At(0)).state
    ensures d.pc == Sleeping(0, MAX_TIME, 0, Blocked(0, ONE_YEAR_NS))
  {
    var b := TakeOne(c, At(0));
    d := BeginWaitNext(b);
    assert Step(b, Runner(BeginWait), d);
    ReachableStep(b, Runner(BeginWait), d);
  }

  /** A run in which an idle task that was posted with a delay of 10 ms is due, may run, and is all there is,
      while the runner is blocked with no step to take. */
  lemma IdleTaskSleptOver() returns (c: Config)
    ensures EventLoop.Reachable(c) && c.pc.Sleeping? && c.pc.phase.Blocked?
    ensures c.q.idle != [] && c.q.idle[0].handleTime <= c.clock && c.q.idle[0].sendTime <= c.q.idleStamp
    ensures forall i :: 0 <= i < 4 ==> c.q.sub[i].queue == []
    ensures forall a, d :: !RunnerStep(c, a, d)
  {
    var c1 := IdleTaskSent();
    ReachableHasInv(c1);
    FutureIdleSleeps(c1.q);
    var c2 := FallAsleep(c1);
    c := Wait(c2, 1_000_000_000);
  }
}
