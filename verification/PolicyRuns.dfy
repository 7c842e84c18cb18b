/** Disabled vsync-first scheduling over whole runs: what keeps barrier mode away. */
module PolicyRuns {
  import opened Events
  import opened Vsync
  import opened QueueState
  import opened VsyncAccounting
  import opened RoundPolicy
  import opened EventLoop

  /** The steps that undo a disabled policy: another policy is set, a round is checked inside a forced
      window, or lazy mode is switched off while a forced policy lets it be. */
  predicate TurnsOn(c: Config, a: Action) {
    match a
    case Any(SetVsync(Policy(policy))) => !policy.DisableVsyncFirst?
    case Any(SetVsync(Lazy(lazy))) => !lazy && !c.q.vs.policy.DisableVsyncFirst?
    case Runner(TakeRound(r)) => r.check < c.q.vs.forceEnableEndTime
    case _ => false
  }

  /** While vsync-first scheduling is off, a check inside a forced window is what turns it on. */
  lemma CheckModeOff(v: VsyncState, now: Instant, stamp: Instant)
    requires Off(v)
    ensures Off(CheckMode(v, now, stamp)) <==> v.forceEnableEndTime <= now
    ensures v.forceEnableEndTime <= now ==> !CheckMode(v, now, stamp).barrier
  {
  }

  lemma RoundOff(c: Config, r: Readings)
    requires Off(c.q.vs)
    ensures Off(RoundNext(c, r).q.vs) <==> !TurnsOn(c, Runner(TakeRound(r)))
  {
    CheckModeOff(c.q.vs, r.check, r.stamp);
    var s1 := PickState(c.q, r);
    GetExpiredLeavesVsync(s1, r.pick, r.next);
    DecideOff(GetExpired(s1, r.pick, r.next), r.poll);
  }

  /** What follows the check neither enters barrier mode nor touches lazy mode. */
  lemma DecideOff(x: Expired, poll: Instant)
    ensures var d := Decide(x, poll); d.state.vs == x.state.vs || d.state.vs == Repair(x.state.vs)
    ensures var d := Decide(x, poll);
      d.state.vs.lazy == x.state.vs.lazy && d.state.vs.originPolicy == x.state.vs.originPolicy
      && (x.state.vs.lazy && !x.state.vs.barrier ==> !d.state.vs.barrier)
  {
  }

  lemma SharedStepOff(c: Config, a: SharedAction, d: Config)
    requires SharedStep(c, a, d) && Off(c.q.vs)
    ensures Off(d.q.vs) <==> !TurnsOn(c, Any(a))
  {
  }

  lemma RunnerStepOff(c: Config, a: RunnerAction, d: Config)
    requires RunnerStep(c, a, d) && Off(c.q.vs)
    ensures Off(d.q.vs) <==> !TurnsOn(c, Runner(a))
  {
    if a.TakeRound? {
      RoundOff(c, a.readings);
    }
  }

  /** Disabling lasts over a run exactly until the first step that turns vsync-first scheduling on. */
  lemma {:induction false} DisabledOverRuns(cs: seq<Config>, acts: seq<Action>, n: nat)
    requires Run(cs, acts) && Off(cs[0].q.vs) && n <= |acts|
    ensures (forall i :: 0 <= i <= n ==> Off(cs[i].q.vs)) <==> (forall i :: 0 <= i < n ==> !TurnsOn(cs[i], acts[i]))
  {
    if n > 0 {
      DisabledOverRuns(cs, acts, n - 1);
      assert Step(cs[n - 1], acts[n - 1], cs[n]);
      if Off(cs[n - 1].q.vs) {
        if acts[n - 1].Any? {
          SharedStepOff(cs[n - 1], acts[n - 1].shared, cs[n]);
        } else {
          RunnerStepOff(cs[n - 1], acts[n - 1].runner, cs[n]);
        }
      }
    }
  }

  /** So a disabled policy keeps every round out of barrier mode and out of the poll. */
  lemma DisabledMeansNoBarrier(cs: seq<Config>, acts: seq<Action>, n: nat, r: Readings)
    requires Run(cs, acts) && Off(cs[0].q.vs) && n < |acts| && acts[n] == Runner(TakeRound(r))
    requires forall i :: 0 <= i <= n ==> !TurnsOn(cs[i], acts[i])
    ensures !PickState(cs[n].q, r).vs.barrier && PickState(cs[n].q, r).vs.policy == DisableVsyncFirst
    ensures !GetEventRound(cs[n].q, r).outcome.PollThenReturn?
  {
    DisabledOverRuns(cs, acts, n);
    assert Off(cs[n].q.vs) && !TurnsOn(cs[n], acts[n]);
    CheckModeOff(cs[n].q.vs, r.check, r.stamp);
    var s1 := PickState(cs[n].q, r);
    GetExpiredLeavesVsync(s1, r.pick, r.next);
    LazyNeverPolls(GetExpired(s1, r.pick, r.next), r.poll);
  }

  lemma LazyNeverPolls(x: Expired, poll: Instant)
    requires x.state.vs.lazy
    ensures !Decide(x, poll).outcome.PollThenReturn?
  {
  }
}
