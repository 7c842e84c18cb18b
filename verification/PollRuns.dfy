/** The addition of a missed poll over whole runs: when vsyncCheckTime_ leaves int64_t. */
module PollRuns {
  import opened Events
  import opened EventLists
  import opened Vsync
  import opened QueueState
  import opened VsyncAccounting
  import opened RoundPolicy
  import opened EventLoop
  import opened LoopQueue
  import opened FinishRuns
  import opened LoopRuns

  /** The step announces a vsync task. */
  predicate Announces(c: Config, a: Action) {
    a.Any? && a.shared.InsertEvent? && a.shared.event.isVsync && c.q.usable
  }

  /** The step plans the next poll from a frame report. */
  predicate Replans(a: Action) {
    a.Any? && a.shared.SetVsync? && a.shared.setting.CheckTime? && a.shared.setting.period > 0
  }

  /** From step m up to step n a vsync task was announced, and no frame report has come since. */
  ghost predicate PlanLost(cs: seq<Config>, acts: seq<Action>, m: nat, n: nat)
    requires n <= |acts| && n <= |cs|
  {
    exists i :: m <= i < n && Announces(cs[i], acts[i]) && forall j :: i < j < n ==> !Replans(acts[j])
  }

  /** No frame report plans beyond the end of time. */
  predicate ReportFits(c: Config, a: Action) {
    Replans(a) ==> c.clock + a.shared.setting.period <= MAX_TIME - 2 * MAX_CHECK_VSYNC_PERIOD_NS
  }

  lemma PlanLostNext(cs: seq<Config>, acts: seq<Action>, m: nat, n: nat)
    requires m <= n < |acts| && n < |cs|
    ensures PlanLost(cs, acts, m, n + 1) <==>
              Announces(cs[n], acts[n]) || (PlanLost(cs, acts, m, n) && !Replans(acts[n]))
  {
    if PlanLost(cs, acts, m, n) && !Replans(acts[n]) {
      var i :| m <= i < n && Announces(cs[i], acts[i]) && forall j :: i < j < n ==> !Replans(acts[j]);
      assert forall j :: i < j < n + 1 ==> !Replans(acts[j]);
    }
    if PlanLost(cs, acts, m, n + 1) && !Announces(cs[n], acts[n]) {
      var i :| m <= i < n + 1 && Announces(cs[i], acts[i]) && forall j :: i < j < n + 1 ==> !Replans(acts[j]);
      assert i < n && forall j :: i < j < n ==> !Replans(acts[j]);
    }
  }

  /** A poll without an announcement starts only after the check time has passed. */
  lemma PollStarts(c: Config, r: Readings)
    requires RunnerStep(c, TakeRound(r), RoundNext(c, r))
    ensures var d := RoundNext(c, r);
      d.pc.Polling? && !d.pc.need ==> d.q.vs.pending == 0 && d.q.vs.checkTime < d.clock
  {
    PollDecided(GetExpired(PickState(c.q, r), r.pick, r.next), r.poll);
  }

  lemma PollDecided(x: Expired, poll: Instant)
    ensures var d := Decide(x, poll);
      d.outcome.PollThenReturn? && !d.outcome.need ==> d.state.vs.pending == 0 && d.state.vs.checkTime < poll
  {
  }

  lemma AnnouncementLosesPlan(c: Config, a: SharedAction, d: Config)
    requires QueueInv(c) && SharedStep(c, a, d) && Announces(c, Any(a))
    ensures d.q.vs.checkTime == MAX_TIME && d.q.vs.pending == c.q.vs.pending + 1
  {
  }

  lemma OtherStepKeepsPlan(c: Config, a: SharedAction, d: Config)
    requires QueueInv(c) && SharedStep(c, a, d) && !Announces(c, Any(a))
    ensures !Replans(Any(a)) ==> d.q.vs.checkTime == c.q.vs.checkTime
    ensures Replans(Any(a)) ==> d.q.vs.checkTime <= c.clock + a.setting.period + CHECK_VSYNC_DELAY_NS
    ensures a != RemoveDead ==> d.q.vs.pending == c.q.vs.pending
  {
    match a {
      case InsertEvent(e, p, at, option, from) =>
      case SetVsync(setting) =>
      case _ =>
    }
  }

  lemma ClockNeverGoesBack(c: Config, a: SharedAction, d: Config)
    requires SharedStep(c, a, d)
    ensures c.clock <= d.clock
  {
  }

  /** While the poll lasts, the check time is the maximum if the plan has been lost, and leaves room for one
      more period otherwise; and a lost plan goes with a pending vsync unless orphans were removed. */
  lemma {:induction false} PlanWhilePolling(cs: seq<Config>, acts: seq<Action>, n: nat, r: Readings)
    requires Run(cs, acts) && Inv(cs[0]) && 1 <= n <= |acts|
    requires acts[0] == Runner(TakeRound(r)) && cs[1].pc.Polling? && !cs[1].pc.need
    requires forall i :: 1 <= i < n ==> acts[i].Any? && ReportFits(cs[i], acts[i])
    requires cs[n].clock <= MAX_TIME - 2 * MAX_CHECK_VSYNC_PERIOD_NS
    ensures cs[n].pc == cs[1].pc
    ensures if PlanLost(cs, acts, 1, n) then cs[n].q.vs.checkTime == MAX_TIME
            else cs[n].q.vs.checkTime <= MAX_TIME - MAX_CHECK_VSYNC_PERIOD_NS
    ensures PlanLost(cs, acts, 1, n) && (forall i :: 1 <= i < n ==> acts[i] != Any(RemoveDead)) ==> cs[n].q.vs.pending > 0
    ensures Inv(cs[n])
  {
    RunKeepsInv(cs, acts, n);
    assert Step(cs[n - 1], acts[n - 1], cs[n]);
    if n == 1 {
      PollStarts(cs[0], r);
    } else {
      var c, a := cs[n - 1], acts[n - 1].shared;
      ClockNeverGoesBack(c, a, cs[n]);
      PlanWhilePolling(cs, acts, n - 1, r);
      PlanLostNext(cs, acts, 1, n - 1);
      SharedStepKeepsPc(c, a, cs[n]);
      if Announces(c, Any(a)) {
        AnnouncementLosesPlan(c, a, cs[n]);
      } else {
        OtherStepKeepsPlan(c, a, cs[n]);
      }
    }
  }

  /** The addition of a missed poll leaves int64_t exactly when, during the poll, a vsync task was announced
      with no frame report after it, the count is back to zero, and the period is below its limit; the
      count can be back only because orphans were removed during the poll. */
  lemma PollOverflowsExactly(cs: seq<Config>, acts: seq<Action>, n: nat, r: Readings)
    requires Run(cs, acts) && Inv(cs[0]) && 1 <= n < |acts|
    requires acts[0] == Runner(TakeRound(r)) && cs[1].pc.Polling? && !cs[1].pc.need
    requires forall i :: 1 <= i < n ==> acts[i].Any? && ReportFits(cs[i], acts[i])
    requires acts[n].Runner? && cs[n].clock <= MAX_TIME - 2 * MAX_CHECK_VSYNC_PERIOD_NS
    ensures acts[n].runner.PollReturn?
    ensures cs[n + 1].q.vs.checkTime > MAX_TIME <==>
              PlanLost(cs, acts, 1, n) && cs[n].q.vs.pending == 0 && cs[n].q.vs.period < MAX_CHECK_VSYNC_PERIOD_NS
    ensures cs[n + 1].q.vs.checkTime > MAX_TIME ==> exists i :: 1 <= i < n && acts[i] == Any(RemoveDead)
  {
    PlanWhilePolling(cs, acts, n, r);
    assert Step(cs[n], acts[n], cs[n + 1]);
    PollReturns(cs[n], acts[n].runner, cs[n + 1]);
    PollAdditionExact(cs[n].q.vs, false, cs[n].clock);
  }

  lemma PollReturns(c: Config, a: RunnerAction, d: Config)
    requires RunnerStep(c, a, d) && c.pc.Polling?
    ensures a.PollReturn? && d.q.vs == AfterPoll(c.q.vs, c.pc.need)
  {
  }

  // ---------------------------------------------------------------- the failing course

  /** A vsync task that came into a list without any and leaves with its owner leaves none behind. */
  lemma NoVsyncLeft(q: seq<Event>, m: Event, at: InsertType, dead: set<nat>)
    requires VsyncCount(q) == 0 && m.ownerId in dead
    ensures VsyncCount(Without(InsertAt(q, m, at), Orphan(dead))) == 0
  {
    var w := Without(InsertAt(q, m, at), Orphan(dead));
    InsertKeepsContents(q, m, at);
    WithoutKeeps(InsertAt(q, m, at), Orphan(dead));
    VsyncCountFound(w);
    var k := FirstIndex(w, VsyncTask);
    if k < |w| {
      assert w[k] in w;
      VsyncCounted(q, w[k]);
    }
  }

  lemma VsyncInserted(s: State, e: Event, sender: Sender, now: Instant, inHand: nat)
    requires VsyncSafe(s, inHand, now) && s.usable && s.vs.pending == 0 && e.isVsync && !e.isBarrier
    ensures var t := Insert(s, e, VIP, AtEnd, NoBarrier, sender, now).state;
      && VsyncSafe(t, inHand, now) && t.usable && t.vs == Dispatch(s.vs, now)
      && VsyncCount(t.sub[VIP].queue) == 1
      && forall dead: set<nat> :: e.ownerId in dead ==> VsyncCount(Without(t.sub[VIP].queue, Orphan(dead))) == 0
  {
    var m := Marked(e, NoBarrier, sender).(priority := VIP);
    InsertKeepsVsync(s, e, VIP, AtEnd, NoBarrier, sender, now, inHand);
    VsyncCountInsert(s.sub[VIP].queue, m, AtEnd);
    forall dead: set<nat> | e.ownerId in dead
      ensures VsyncCount(Without(InsertAt(s.sub[VIP].queue, m, AtEnd), Orphan(dead))) == 0
    {
      NoVsyncLeft(s.sub[VIP].queue, m, AtEnd, dead);
    }
  }

  lemma VsyncOrphaned(s: State, dead: set<nat>, inHand: nat, now: Instant)
    requires VsyncSafe(s, inHand, now) && s.usable && s.vs.pending == 1
    requires VsyncCount(s.sub[VIP].queue) == 1 && VsyncCount(Without(s.sub[VIP].queue, Orphan(dead))) == 0
    ensures var t := RemoveOrphans(s, dead);
      t.vs.pending == 0 && t.vs.checkTime == s.vs.checkTime && t.vs.period == s.vs.period
  {
    RemoveOrphansKeepsVsync(s, dead, inHand, now);
  }

  /** A vsync task arrives, its owner dies and the orphans are removed: the count is as before, the plan is lost. */
  lemma VsyncComesAndGoes(c: Config, e: Event, sender: Sender) returns (c1: Config, c2: Config, c3: Config)
    requires QueueInv(c) && c.q.usable && c.q.vs.pending == 0 && Fresh(c, e.id) && e.isVsync && !e.isBarrier
    ensures SharedStep(c, InsertEvent(e, VIP, AtEnd, NoBarrier, sender), c1)
    ensures SharedStep(c1, OwnerDies(e.ownerId), c2) && SharedStep(c2, RemoveDead, c3)
    ensures c3.pc == c.pc && |c3.waiters| == |c.waiters|
    ensures c3.q.vs.pending == 0 && c3.q.vs.checkTime == MAX_TIME && c3.q.vs.period == c.q.vs.period
  {
    c1 := InsertNext(c, e, VIP, AtEnd, NoBarrier, sender);
    c2 := c1.(dead := c1.dead + {e.ownerId});
    c3 := RemoveOrphansNext(c2);
    VsyncInserted(c.q, e, sender, c.clock, Outstanding(c.pc));
    VsyncOrphaned(c1.q, c2.dead, Outstanding(c.pc), c.clock);
  }

  lemma MissOverflows(c: Config)
    requires c.pc.Polling? && !c.pc.need && c.pc.waiter < |c.waiters|
    requires c.q.vs.pending == 0 && c.q.vs.checkTime == MAX_TIME && c.q.vs.period < MAX_CHECK_VSYNC_PERIOD_NS
    ensures var d := PollReturnNext(c, true, true);
      RunnerStep(c, PollReturn(true, true), d) && d.q.vs.checkTime == MAX_TIME + c.q.vs.period
  {
    PollReturns(c, PollReturn(true, true), PollReturnNext(c, true, true));
  }

  /** The course that makes it fail, from any poll that has not seen a vsync: a vsync task arrives, its owner
      dies, the orphans are removed, and the poll ends. */
  lemma PollOverflows(c: Config, e: Event, sender: Sender) returns (c1: Config, c2: Config, c3: Config, d: Config)
    requires Inv(c) && c.pc.Polling? && !c.pc.need && c.q.usable && c.q.vs.pending == 0
    requires c.q.vs.period < MAX_CHECK_VSYNC_PERIOD_NS && Fresh(c, e.id) && e.isVsync && !e.isBarrier
    ensures SharedStep(c, InsertEvent(e, VIP, AtEnd, NoBarrier, sender), c1)
    ensures SharedStep(c1, OwnerDies(e.ownerId), c2) && SharedStep(c2, RemoveDead, c3)
    ensures RunnerStep(c3, PollReturn(true, true), d) && d.q.vs.checkTime == MAX_TIME + c.q.vs.period
  {
    c1, c2, c3 := VsyncComesAndGoes(c, e, sender);
    d := PollReturnNext(c3, true, true);
    MissOverflows(c3);
  }
}
