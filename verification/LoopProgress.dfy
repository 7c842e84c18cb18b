/** Progress over whole runs: a due event in a sub queue makes the loop get an event after a handful of
    steps of the runner, whatever the runner is doing and whatever mode the queue is in. */
module LoopProgress {
  import opened Events
  import opened QueueState
  import opened VsyncAccounting
  import opened RoundPolicy
  import opened EventLoop
  import Ordering
  import Vsync
  import opened LoopQueue
  import opened LoopSleep
  import opened FinishRuns
  import opened LoopRuns
  import opened PollRuns

  ghost predicate DueIn(c: Config, i: nat, e: Event)
    requires i < 4
  {
    e in c.q.sub[i].queue && e.handleTime <= c.clock
  }

  /** The loop is on its way to an event: it polls with one in hand, or it calls or sleeps while e is due. */
  ghost predicate OnItsWay(c: Config, i: nat, e: Event)
    requires i < 4
  {
    c.pc.Polling? || ((c.pc.Calling? || c.pc.Sleeping?) && !c.q.finished && DueIn(c, i, e))
  }

  /** How many steps of the runner it takes at most. A round that repairs the count comes before the round
      that serves. */
  function Distance(c: Config): (n: nat)
    ensures n <= 6
  {
    match c.pc
    case Sleeping(_, _, _, Unlocked) => 6
    case Sleeping(_, _, _, Blocked(_, _)) => 5
    case Sleeping(_, _, _, Woken) => 4
    case Calling => if c.q.vs.pending == 0 then 2 else 3
    case Polling(_, _, _) => 1
    case _ => 0
  }

  /** In barrier mode the round may repair the count instead, which ends barrier mode. */
  lemma DueRound(s: State, r: Readings, i: nat, e: Event, now: Instant)
    requires WellFormed(s) && VsyncSafe(s, 0, now) && now <= r.check && r.Monotone()
    requires i < 4 && e in s.sub[i].queue && e.handleTime <= r.pick
    ensures var d := GetEventRound(s, r);
      Taken(d.outcome).Some? || (d.outcome.Repaired? && s.vs.pending != 0 && d.state.vs.pending == 0)
  {
    CheckModeKeepsCount(s.vs, r.check, r.stamp);
    SleepIsExact(s, r, now);
    if PickState(s, r).vs.barrier {
      BarrierRound(s, r, now);
    } else {
      DueEventIsServed(s, r, i, e);
    }
  }

  lemma BarrierRound(s: State, r: Readings, now: Instant)
    requires VsyncSafe(s, 0, now) && now <= r.check <= r.stamp && PickState(s, r).vs.barrier
    ensures var d := GetEventRound(s, r);
      s.vs.pending != 0 && (Taken(d.outcome).Some? || (d.outcome.Repaired? && d.state.vs.pending == 0))
  {
    Vsync.CheckModeKeeps(s.vs, r.check, r.stamp);
    GetExpiredLeavesVsync(PickState(s, r), r.pick, r.next);
    PendingDecision(GetExpired(PickState(s, r), r.pick, r.next), r.poll);
  }

  lemma PendingDecision(x: Expired, poll: Instant)
    requires x.state.vs.pending != 0
    ensures var d := Decide(x, poll); Taken(d.outcome).Some? || (d.outcome.Repaired? && d.state.vs.pending == 0)
  {
  }

  lemma AfterRoundCloser(c: Config, d: Round, last: Instant, i: nat, e: Event)
    requires c.pc.Calling? && i < 4 && e.handleTime <= last
    requires Taken(d.outcome).Some? || (d.outcome.Repaired? && c.q.vs.pending != 0 && d.state.vs.pending == 0)
    requires Taken(d.outcome).None? ==> !d.state.finished && e in d.state.sub[i].queue
    ensures var t := AfterRound(c, d, last); Distance(t) < Distance(c) && (t.pc.Holding? || OnItsWay(t, i, e))
  {
  }

  lemma RoundComesCloser(c: Config, r: Readings, i: nat, e: Event)
    requires QueueInv(c) && c.pc.Calling? && !c.q.finished && c.clock <= r.check && r.Monotone() && i < 4 && DueIn(c, i, e)
    ensures var d := RoundNext(c, r); Distance(d) < Distance(c) && (d.pc.Holding? || OnItsWay(d, i, e))
  {
    var d := GetEventRound(c.q, r);
    DueRound(c.q, r, i, e, c.clock);
    RoundKeeps(c.q, r);
    if Taken(d.outcome).None? {
      Ordering.QuietRoundKeepsLists(c.q, r, i);
    }
    AfterRoundCloser(c, d, r.poll, i, e);
  }

  /** Every step of the runner brings the loop closer. */
  lemma RunnerComesCloser(c: Config, a: RunnerAction, d: Config, i: nat, e: Event)
    requires QueueInv(c) && RunnerStep(c, a, d) && i < 4 && OnItsWay(c, i, e)
    ensures Distance(d) < Distance(c) && (d.pc.Holding? || OnItsWay(d, i, e))
  {
    match a {
      case TakeRound(r) => RoundComesCloser(c, r, i, e);
      case _ =>
    }
  }

  /** A step of another thread that takes e out of the queue or finishes the queue. */
  ghost predicate Disturbs(c: Config, a: Action, d: Config, i: nat, e: Event)
    requires i < 4
  {
    a.Any? && (d.q.finished || (e in c.q.sub[i].queue && e !in d.q.sub[i].queue))
  }

  lemma NothingAnnounced(c: Config, a: SharedAction, d: Config)
    requires QueueInv(c) && SharedStep(c, a, d) && !Announces(c, Any(a)) && c.q.vs.pending == 0
    ensures d.q.vs.pending == 0
  {
    if a.RemoveDead? {
      OrphanVsyncsBounded(c.q, c.dead, Outstanding(c.pc), c.clock);
    } else {
      OtherStepKeepsPlan(c, a, d);
    }
  }

  /** Only the announcement of a vsync task can add to the distance, and then by one, because the next round
      may have to repair the count. */
  lemma SharedStepKeepsDistance(c: Config, a: SharedAction, d: Config, i: nat, e: Event)
    requires QueueInv(c) && SharedStep(c, a, d) && i < 4 && OnItsWay(c, i, e) && !Disturbs(c, Any(a), d, i, e)
    ensures OnItsWay(d, i, e) && Distance(d) <= Distance(c) + One(Announces(c, Any(a)))
  {
    SharedStepKeepsPc(c, a, d);
    ClockNeverGoesBack(c, a, d);
    if c.q.vs.pending == 0 && !Announces(c, Any(a)) {
      NothingAnnounced(c, a, d);
    }
    SameWay(c, d, i, e, Announces(c, Any(a)));
  }

  lemma SameWay(c: Config, d: Config, i: nat, e: Event, announced: bool)
    requires i < 4 && OnItsWay(c, i, e) && d.pc == c.pc && c.clock <= d.clock
    requires !d.q.finished && (e in c.q.sub[i].queue ==> e in d.q.sub[i].queue)
    requires c.q.vs.pending == 0 && !announced ==> d.q.vs.pending == 0
    ensures OnItsWay(d, i, e) && Distance(d) <= Distance(c) + One(announced)
  {
  }

  lemma StepComesCloser(c: Config, a: Action, d: Config, i: nat, e: Event)
    requires QueueInv(c) && Step(c, a, d) && i < 4 && OnItsWay(c, i, e) && !Disturbs(c, a, d, i, e)
    ensures d.pc.Holding? || (OnItsWay(d, i, e) && Distance(d) + One(a.Runner?) <= Distance(c) + One(Announces(c, a)))
  {
    if a.Any? {
      SharedStepKeepsDistance(c, a.shared, d, i, e);
    } else {
      RunnerComesCloser(c, a.runner, d, i, e);
    }
  }

  /** How many of the first n steps are steps of the runner. */
  function RunnerSteps(acts: seq<Action>, n: nat): nat
    requires n <= |acts|
  {
    if n == 0 then 0 else RunnerSteps(acts, n - 1) + One(acts[n - 1].Runner?)
  }

  /** How many of the first n steps announce a vsync task. */
  function Announcements(cs: seq<Config>, acts: seq<Action>, n: nat): nat
    requires n <= |acts| && n <= |cs|
  {
    if n == 0 then 0 else Announcements(cs, acts, n - 1) + One(Announces(cs[n - 1], acts[n - 1]))
  }

  /** With a due event in a sub queue, in normal mode or barrier mode, the loop gets an event within as many
      steps of the runner as the distance says, which is at most six, plus one for every vsync task that is
      announced meanwhile, whatever the other threads do in between, as long as they neither take the event
      nor finish the queue. */
  lemma {:induction false} DueEventReachesLoop(cs: seq<Config>, acts: seq<Action>, n: nat, i: nat, e: Event)
    requires Run(cs, acts) && Inv(cs[0]) && n <= |acts| && i < 4 && OnItsWay(cs[0], i, e)
    requires forall k :: 0 <= k < n ==> !Disturbs(cs[k], acts[k], cs[k + 1], i, e)
    ensures (exists k :: 0 <= k <= n && cs[k].pc.Holding?)
            || (OnItsWay(cs[n], i, e)
                && Distance(cs[n]) + RunnerSteps(acts, n) <= Distance(cs[0]) + Announcements(cs, acts, n))
    ensures RunnerSteps(acts, n) >= Distance(cs[0]) + Announcements(cs, acts, n) ==>
              exists k :: 0 <= k <= n && cs[k].pc.Holding?
  {
    if n > 0 {
      DueEventReachesLoop(cs, acts, n - 1, i, e);
      if !exists k :: 0 <= k <= n - 1 && cs[k].pc.Holding? {
        RunKeepsInv(cs, acts, n - 1);
        assert Step(cs[n - 1], acts[n - 1], cs[n]) && !Disturbs(cs[n - 1], acts[n - 1], cs[n], i, e);
        StepComesCloser(cs[n - 1], acts[n - 1], cs[n], i, e);
      }
    }
  }

  /** And the runner is never stuck on its way: it has a step to take, except that a blocked runner may wait
      until the slack of its timer has passed. */
  lemma RunnerCanMove(c: Config, i: nat, e: Event)
    requires Inv(c) && i < 4 && OnItsWay(c, i, e)
    ensures
      || (exists a, d :: RunnerStep(c, a, d))
      || (c.pc.Sleeping? && c.pc.phase.Blocked?
          && c.clock < e.handleTime + (c.pc.phase.begunAt - c.pc.computedAt) + Rounding(c.waiters[c.pc.waiter]))
  {
    match c.pc {
      case Calling =>
        var r := Readings(c.clock, c.clock, c.clock, c.clock, c.clock);
        assert RunnerStep(c, TakeRound(r), RoundNext(c, r));
      case Polling(_, _, _) => assert RunnerStep(c, PollReturn(true, true), PollReturnNext(c, true, true));
      case Sleeping(_, _, _, Unlocked) => assert RunnerStep(c, BeginWait, BeginWaitNext(c));
      case Sleeping(_, _, _, Woken) => assert RunnerStep(c, Relock(true), RelockNext(c, true));
      case Sleeping(_, _, _, Blocked(_, _)) =>
        if e.handleTime + (c.pc.phase.begunAt - c.pc.computedAt) + Rounding(c.waiters[c.pc.waiter]) <= c.clock {
          DueEventWakes(c, i, e);
          assert RunnerStep(c, Wake(true), WakeNext(c, true));
        }
    }
  }
}
