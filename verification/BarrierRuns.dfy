/** Barrier mode and the announcement flag over whole runs: what ends barrier mode, and how often an announced
    vsync task is polled for. */
module BarrierRuns {
  import opened Events
  import opened EventLists
  import opened Vsync
  import opened QueueState
  import opened VsyncAccounting
  import opened RoundPolicy
  import opened EventLoop
  import opened LoopQueue
  import opened LoopRuns
  import opened PollRuns

  /** Some vsync task of the list has lost its owner. */
  ghost predicate HasOrphan(q: seq<Event>, dead: set<nat>) {
    exists e :: e in q && e.isVsync && e.ownerId in dead
  }

  /** Some queued vsync task has lost its owner. */
  ghost predicate OrphanedVsync(s: State, dead: set<nat>) {
    exists p: Priority :: HasOrphan(ListOf(s, p), dead)
  }

  lemma MatchingVsyncs(q: seq<Event>, dead: set<nat>)
    ensures VsyncCount(Matching(q, Orphan(dead))) > 0 <==> HasOrphan(q, dead)
  {
    var m := Matching(q, Orphan(dead));
    WithoutKeeps(q, Orphan(dead));
    VsyncCountFound(m);
    var k := FirstIndex(m, VsyncTask);
    if k < |m| {
      assert m[k] in m;
    }
  }

  lemma OrphanVsyncsExact(s: State, dead: set<nat>)
    ensures OrphanVsyncs(s, dead) > 0 <==> OrphanedVsync(s, dead)
  {
    MatchingVsyncs(s.sub[0].queue, dead);
    MatchingVsyncs(s.sub[1].queue, dead);
    MatchingVsyncs(s.sub[2].queue, dead);
    MatchingVsyncs(s.sub[3].queue, dead);
    MatchingVsyncs(s.idle, dead);
    FourQueues(s.sub, Orphan(dead));
    FiveLists(s, dead);
  }

  lemma FiveLists(s: State, dead: set<nat>)
    ensures OrphanedVsync(s, dead) <==>
              || HasOrphan(s.sub[0].queue, dead) || HasOrphan(s.sub[1].queue, dead) || HasOrphan(s.sub[2].queue, dead)
              || HasOrphan(s.sub[3].queue, dead) || HasOrphan(s.idle, dead)
  {
    assert ListOf(s, VIP) == s.sub[0].queue && ListOf(s, IMMEDIATE) == s.sub[1].queue;
    assert ListOf(s, HIGH) == s.sub[2].queue && ListOf(s, LOW) == s.sub[3].queue && ListOf(s, IDLE) == s.idle;
  }

  lemma FourQueues(sub: SubQueues, f: Filter)
    ensures VsyncsBelow(sub, f, 4) == VsyncCount(Matching(sub[0].queue, f)) + VsyncCount(Matching(sub[1].queue, f))
                                      + VsyncCount(Matching(sub[2].queue, f)) + VsyncCount(Matching(sub[3].queue, f))
  {
    assert VsyncsBelow(sub, f, 2) == VsyncsBelow(sub, f, 1) + VsyncCount(Matching(sub[1].queue, f));
    assert VsyncsBelow(sub, f, 3) == VsyncsBelow(sub, f, 2) + VsyncCount(Matching(sub[2].queue, f));
  }

  /** What orphan removal does to barrier mode and to the announcement flag. */
  lemma OrphanRemovalEffects(s: State, dead: set<nat>)
    ensures var t := RemoveOrphans(s, dead); var dropped := s.usable && OrphanedVsync(s, dead);
      t.vs.barrier == (s.vs.barrier && !dropped) && t.vs.needEpoll == (s.vs.needEpoll && !dropped)
  {
    OrphanVsyncsExact(s, dead);
  }

  // ---------------------------------------------------------------- the vsync fields after a step

  /** The vsync fields after a step of another thread. */
  ghost function VsyncAfterShared(c: Config, a: SharedAction): VsyncState {
    match a
    case InsertEvent(e, _, _, _, _) => if e.isVsync && c.q.usable then Dispatch(c.q.vs, c.clock) else c.q.vs
    case RemoveDead => RemoveOrphans(c.q, c.dead).vs
    case SetVsync(setting) => Apply(c.q.vs, setting, c.clock)
    case _ => c.q.vs
  }

  /** The vsync fields after a step of the runner. */
  ghost function VsyncAfterRunner(c: Config, a: RunnerAction): VsyncState {
    match a
    case TakeRound(r) =>
      var v := CheckMode(c.q.vs, r.check, r.stamp); if LeadsToRepair(c.q, r) then Repair(v) else v
    case PollReturn(_, _) => if c.pc.Polling? then AfterPoll(c.q.vs, c.pc.need) else c.q.vs
    case Relock(_) => c.q.vs.(needEpoll := false)
    case Execute => if Starts(c, a) then HandleTask(c.q.vs) else c.q.vs
    case TaskDone(_) => if Completes(c, Runner(a)) then c.q.vs.(completeTime := c.clock) else c.q.vs
    case _ => c.q.vs
  }

  /** A vsync task whose owner is alive starts to run. */
  predicate Starts(c: Config, a: RunnerAction) {
    a.Execute? && c.pc.Holding? && c.pc.event.isVsync && c.pc.event.ownerId !in c.dead
  }

  /** The completion of a vsync task that its listener saw. */
  predicate Completes(c: Config, a: Action) {
    a == Runner(TaskDone(true)) && c.pc.Executing? && c.pc.event.isVsync
  }

  lemma SharedStepVsync(c: Config, a: SharedAction, d: Config)
    requires SharedStep(c, a, d)
    ensures d.q.vs == VsyncAfterShared(c, a)
  {
    match a {
      case InsertEvent(e, p, at, option, from) => InsertVsync(c.q, e, p, at, option, from, c.clock);
      case RemoveMatching(f) =>
      case RemoveEverything =>
      case _ =>
    }
  }

  lemma InsertVsync(s: State, e: Event, p: Priority, at: InsertType, option: BarrierOption, from: Sender, now: Instant)
    requires Disciplined(s, e, p)
    ensures Insert(s, e, p, at, option, from, now).state.vs == if e.isVsync && s.usable then Dispatch(s.vs, now) else s.vs
  {
  }

  lemma RoundVsync(c: Config, r: Readings)
    requires WellFormed(c.q)
    ensures RoundNext(c, r).q.vs == VsyncAfterRunner(c, TakeRound(r))
  {
    RoundEndings(c.q, r);
    GetExpiredLeavesVsync(PickState(c.q, r), r.pick, r.next);
    VsyncOf(GetExpired(PickState(c.q, r), r.pick, r.next), r.poll);
  }

  lemma RunnerStepVsync(c: Config, a: RunnerAction, d: Config)
    requires WellFormed(c.q) && RunnerStep(c, a, d)
    ensures d.q.vs == VsyncAfterRunner(c, a)
  {
    match a {
      case TakeRound(r) => RoundVsync(c, r);
      case PollReturn(drain, ok) =>
      case Relock(ok) =>
      case _ =>
    }
  }

  ghost function VsyncAfter(c: Config, a: Action): VsyncState {
    match a
    case Any(b) => VsyncAfterShared(c, b)
    case Runner(b) => VsyncAfterRunner(c, b)
  }

  lemma StepVsync(c: Config, a: Action, d: Config)
    requires WellFormed(c.q) && Step(c, a, d)
    ensures d.q.vs == VsyncAfter(c, a)
  {
    match a {
      case Any(b) => SharedStepVsync(c, b, d);
      case Runner(b) => RunnerStepVsync(c, b, d);
    }
  }

  // ---------------------------------------------------------------- what ends barrier mode

  /** The steps that end barrier mode: a vsync task starts to run, whatever else is pending; an orphaned vsync task is
      removed; or a round finds the time-out passed, or has nothing to give. */
  ghost predicate EndsBarrier(c: Config, a: Action) {
    match a
    case Runner(Execute) => Starts(c, Execute)
    case Any(RemoveDead) => c.q.usable && OrphanedVsync(c.q, c.dead)
    case Runner(TakeRound(r)) =>
      (c.q.vs.needEpoll && c.q.vs.enterBarrierTime + VSYNC_BARRIER_TIMEOUT_NS < r.check) || LeadsToRepair(c.q, r)
    case _ => false
  }

  /** Barrier mode ends in a step exactly when the step is one of those. */
  lemma BarrierEndsExactly(c: Config, a: Action, d: Config)
    requires QueueInv(c) && Step(c, a, d) && c.q.vs.barrier
    ensures !d.q.vs.barrier <==> EndsBarrier(c, a)
  {
    StepVsync(c, a, d);
    BarrierEnds(c, a);
  }

  lemma BarrierEnds(c: Config, a: Action)
    requires c.q.vs.barrier
    ensures !VsyncAfter(c, a).barrier <==> EndsBarrier(c, a)
  {
    if a.Runner? && a.runner.TakeRound? {
      CheckModeExactly(c.q.vs, a.runner.readings.check, a.runner.readings.stamp);
    } else {
      OrphanRemovalEffects(c.q, c.dead);
    }
  }

  /** A vsync task is pending and late, and vsync-first scheduling is not held back by lazy mode. */
  predicate IsLate(v: VsyncState, now: Instant) {
    var window := now < v.forceEnableEndTime;
    var delay := if window || v.originPolicy.FirstWithoutDefaultBarrier? then v.period else VSYNC_DEFAULT_BARRIER_DELAY_NS;
    && v.pending != 0 && (window || !v.lazy)
    && v.recvTime + delay < now && v.completeTime + VSYNC_TASK_INTERVAL_NS < now
  }

  /** And it begins exactly in a round that finds a vsync task late and has something to give. */
  lemma BarrierBeginsExactly(c: Config, a: Action, d: Config)
    requires QueueInv(c) && Step(c, a, d) && !c.q.vs.barrier
    ensures d.q.vs.barrier <==>
              a.Runner? && a.runner.TakeRound?
              && IsLate(c.q.vs, a.runner.readings.check) && !LeadsToRepair(c.q, a.runner.readings)
  {
    StepVsync(c, a, d);
    BarrierBegins(c, a);
  }

  lemma BarrierBegins(c: Config, a: Action)
    requires !c.q.vs.barrier
    ensures VsyncAfter(c, a).barrier <==>
              a.Runner? && a.runner.TakeRound?
              && IsLate(c.q.vs, a.runner.readings.check) && !LeadsToRepair(c.q, a.runner.readings)
  {
    if a.Runner? && a.runner.TakeRound? {
      CheckModeExactly(c.q.vs, a.runner.readings.check, a.runner.readings.stamp);
    } else {
      OrphanRemovalEffects(c.q, c.dead);
    }
  }

  lemma StepCompletion(c: Config, a: Action, d: Config)
    requires QueueInv(c) && Step(c, a, d)
    ensures c.q.vs.completeTime <= d.q.vs.completeTime
    ensures Completes(c, a) ==> d.q.vs.completeTime == c.clock
  {
    StepVsync(c, a, d);
    CompletionAfter(c, a);
  }

  lemma CompletionAfter(c: Config, a: Action)
    requires c.q.vs.completeTime <= c.clock
    ensures c.q.vs.completeTime <= VsyncAfter(c, a).completeTime
    ensures Completes(c, a) ==> VsyncAfter(c, a).completeTime == c.clock
  {
    if a.Runner? && a.runner.TakeRound? {
      CheckModeKeepsCompletion(c.q.vs, a.runner.readings.check, a.runner.readings.stamp);
    }
  }

  lemma CheckModeKeepsCompletion(v: VsyncState, now: Instant, stamp: Instant)
    ensures CheckMode(v, now, stamp).completeTime == v.completeTime
  {
  }

  /** Times that never go back from one step to the next never go back. */
  lemma {:induction false} NeverBack(ts: seq<int>, m: nat, n: nat)
    requires m <= n < |ts| && forall i :: m <= i < n ==> ts[i] <= ts[i + 1]
    ensures ts[m] <= ts[n]
    decreases n
  {
    if n > m {
      NeverBack(ts, m, n - 1);
      assert ts[n - 1] <= ts[n - 1 + 1];
    }
  }

  lemma CompletionAt(cs: seq<Config>, acts: seq<Action>, n: nat)
    requires Run(cs, acts) && Inv(cs[0]) && n < |acts|
    ensures cs[n].q.vs.completeTime <= cs[n + 1].q.vs.completeTime
  {
    RunKeepsInv(cs, acts, n);
    assert Step(cs[n], acts[n], cs[n + 1]);
    StepCompletion(cs[n], acts[n], cs[n + 1]);
  }

  lemma CompletionLasts(cs: seq<Config>, acts: seq<Action>, m: nat, n: nat)
    requires Run(cs, acts) && Inv(cs[0]) && m <= n <= |acts|
    ensures cs[m].q.vs.completeTime <= cs[n].q.vs.completeTime
  {
    var ts: seq<int> := seq(n + 1, i requires 0 <= i <= n => cs[i].q.vs.completeTime);
    forall i | m <= i < n ensures ts[i] <= ts[i + 1] {
      CompletionAt(cs, acts, i);
    }
    NeverBack(ts, m, n);
  }

  /** Ordinary events get their time between vsync tasks: over any run, barrier mode does not begin within 4 ms of the
      completion of a vsync task. */
  lemma BarrierKeepsInterval(cs: seq<Config>, acts: seq<Action>, m: nat, n: nat)
    requires Run(cs, acts) && Inv(cs[0]) && m < n < |acts| && Completes(cs[m], acts[m])
    requires !cs[n].q.vs.barrier && cs[n + 1].q.vs.barrier
    ensures acts[n].Runner? && acts[n].runner.TakeRound?
    ensures acts[n].runner.readings.check > cs[m].clock + 4_000_000
  {
    RunKeepsInv(cs, acts, m);
    RunKeepsInv(cs, acts, n);
    assert Step(cs[m], acts[m], cs[m + 1]) && Step(cs[n], acts[n], cs[n + 1]);
    StepCompletion(cs[m], acts[m], cs[m + 1]);
    CompletionLasts(cs, acts, m + 1, n);
    BarrierBeginsExactly(cs[n], acts[n], cs[n + 1]);
  }

  // ---------------------------------------------------------------- the announcement flag

  /** The steps that take the announcement as seen: the end of an announced poll with nothing pending, the end of a
      sleep, and the removal of an orphaned vsync task. */
  ghost predicate SeesAnnouncement(c: Config, a: Action) {
    match a
    case Runner(PollReturn(_, _)) => c.pc.Polling? && c.pc.need && c.q.vs.pending == 0
    case Runner(Relock(_)) => true
    case Any(RemoveDead) => c.q.usable && OrphanedVsync(c.q, c.dead)
    case _ => false
  }

  /** The flag that asks for a poll is set by the announcement of a vsync task alone, and stays until it is seen. */
  lemma StepFlag(c: Config, a: Action, d: Config)
    requires QueueInv(c) && Step(c, a, d)
    ensures d.q.vs.needEpoll <==> Announces(c, a) || (c.q.vs.needEpoll && !SeesAnnouncement(c, a))
  {
    StepVsync(c, a, d);
    FlagAfter(c, a);
  }

  lemma FlagAfter(c: Config, a: Action)
    ensures VsyncAfter(c, a).needEpoll <==> Announces(c, a) || (c.q.vs.needEpoll && !SeesAnnouncement(c, a))
  {
    if a.Runner? && a.runner.TakeRound? {
      CheckModeKeepsCount(c.q.vs, a.runner.readings.check, a.runner.readings.stamp);
    } else {
      OrphanRemovalEffects(c.q, c.dead);
    }
  }

  lemma FlagStaysOff(cs: seq<Config>, acts: seq<Action>, m: nat, n: nat)
    requires Run(cs, acts) && Inv(cs[0]) && m <= n <= |acts| && !cs[m].q.vs.needEpoll
    requires forall i :: m <= i < n ==> !Announces(cs[i], acts[i])
    ensures !cs[n].q.vs.needEpoll
  {
    var flags: seq<int> := seq(n + 1, i requires 0 <= i <= n => One(!cs[i].q.vs.needEpoll));
    forall i | m <= i < n ensures flags[i] <= flags[i + 1] {
      FlagAt(cs, acts, i);
    }
    NeverBack(flags, m, n);
  }

  lemma FlagAt(cs: seq<Config>, acts: seq<Action>, i: nat)
    requires Run(cs, acts) && Inv(cs[0]) && i < |acts| && !Announces(cs[i], acts[i])
    ensures !cs[i].q.vs.needEpoll ==> !cs[i + 1].q.vs.needEpoll
  {
    RunKeepsInv(cs, acts, i);
    assert Step(cs[i], acts[i], cs[i + 1]);
    if !cs[i].q.vs.needEpoll {
      QuietStep(cs[i], acts[i], cs[i + 1]);
    }
  }

  lemma QuietStep(c: Config, a: Action, d: Config)
    requires QueueInv(c) && Step(c, a, d) && !Announces(c, a) && !c.q.vs.needEpoll
    ensures !d.q.vs.needEpoll
  {
    StepFlag(c, a, d);
  }

  /** One announcement is polled for until it is seen and not again: after it has been seen, a round starts a poll
      on its account only if another vsync task was announced in between. */
  lemma AnnouncementPolledOnce(cs: seq<Config>, acts: seq<Action>, m: nat, n: nat, r: Readings)
    requires Run(cs, acts) && Inv(cs[0]) && m < n < |acts| && SeesAnnouncement(cs[m], acts[m])
    requires acts[n] == Runner(TakeRound(r)) && cs[n + 1].pc.Polling? && cs[n + 1].pc.need
    ensures exists i :: m < i < n && Announces(cs[i], acts[i])
  {
    RunKeepsInv(cs, acts, m);
    assert Step(cs[m], acts[m], cs[m + 1]) && Step(cs[n], acts[n], cs[n + 1]);
    StepFlag(cs[m], acts[m], cs[m + 1]);
    NeedIsFlag(cs[n], r);
    if forall i :: m < i < n ==> !Announces(cs[i], acts[i]) {
      FlagStaysOff(cs, acts, m + 1, n);
    }
  }

  lemma NeedIsFlag(c: Config, r: Readings)
    ensures RoundNext(c, r).pc.Polling? ==> RoundNext(c, r).pc.need == c.q.vs.needEpoll
  {
    CheckModeKeepsCount(c.q.vs, r.check, r.stamp);
    GetExpiredLeavesVsync(PickState(c.q, r), r.pick, r.next);
    NeedDecided(GetExpired(PickState(c.q, r), r.pick, r.next), r.poll);
  }

  lemma NeedDecided(x: Expired, poll: Instant)
    ensures var d := Decide(x, poll); d.outcome.PollThenReturn? ==> d.outcome.need == x.state.vs.needEpoll
  {
  }
}
