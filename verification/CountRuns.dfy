/** The pending count over whole runs: when it is exact and not only sufficient. */
module CountRuns {
  import opened Events
  import opened EventLists
  import Vsync
  import opened QueueState
  import opened VsyncAccounting
  import opened RoundPolicy
  import opened EventLoop
  import opened LoopQueue
  import opened LoopRuns
  import FrontCache

  /** The count is the number of vsync tasks that are queued or handed out and not yet run. */
  ghost predicate CountExact(c: Config) {
    c.q.vs.pending == VsyncCount(c.q.sub[VIP].queue) + Outstanding(c.pc)
  }

  /** The steps that lose a vsync task without taking it off the count: a removal by filter or of everything that
      takes one, and the drop of one whose owner is dead by the loop. */
  ghost predicate LosesVsync(c: Config, a: Action) {
    match a
    case Any(RemoveMatching(f)) => c.q.usable && VsyncCount(Matching(c.q.sub[VIP].queue, f)) > 0
    case Any(RemoveEverything) => c.q.usable && VsyncCount(c.q.sub[VIP].queue) > 0
    case Runner(Execute) => c.pc.Holding? && c.pc.event.isVsync && c.pc.event.ownerId in c.dead
    case _ => false
  }

  lemma InsertCounts(s: State, e: Event, p: Priority, at: InsertType, option: BarrierOption, from: Sender, now: Instant)
    requires Disciplined(s, e, p)
    ensures var t := Insert(s, e, p, at, option, from, now).state;
      t.vs.pending - s.vs.pending == VsyncCount(t.sub[VIP].queue) - VsyncCount(s.sub[VIP].queue)
  {
    if s.usable && p == VIP {
      VsyncCountInsert(s.sub[VIP].queue, Marked(e, option, from).(priority := p), at);
    }
  }

  lemma RemoveCounts(s: State, f: Filter)
    requires s.usable
    ensures VsyncCount(s.sub[VIP].queue)
         == VsyncCount(Remove(s, f).sub[VIP].queue) + VsyncCount(Matching(s.sub[VIP].queue, f))
  {
    VsyncCountPartition(s.sub[VIP].queue, f);
  }

  lemma RemovalsCount(c: Config, f: Filter)
    requires CountExact(c)
    ensures CountExact(RemoveNext(c, f)) <==> !LosesVsync(c, Any(RemoveMatching(f)))
    ensures CountExact(RemoveAllNext(c)) <==> !LosesVsync(c, Any(RemoveEverything))
  {
    if c.q.usable {
      RemoveCounts(c.q, f);
      assert RemoveAll(c.q).sub[VIP].queue == [];
    }
  }

  lemma OrphansCount(c: Config)
    requires QueueInv(c) && CountExact(c)
    ensures CountExact(RemoveOrphansNext(c))
  {
    RemoveOrphansKeepsVsync(c.q, c.dead, Outstanding(c.pc), c.clock);
  }

  lemma InsertionCount(c: Config, e: Event, p: Priority, at: InsertType, option: BarrierOption, from: Sender)
    requires CountExact(c) && Disciplined(c.q, e, p)
    ensures CountExact(InsertNext(c, e, p, at, option, from))
  {
    InsertCounts(c.q, e, p, at, option, from, c.clock);
  }

  lemma FrameCount(c: Config, d: Config)
    requires CountExact(c) && d.pc == c.pc && d.q.sub == c.q.sub && d.q.vs.pending == c.q.vs.pending
    ensures CountExact(d)
  {
  }

  lemma SharedStepCount(c: Config, a: SharedAction, d: Config)
    requires QueueInv(c) && CountExact(c) && SharedStep(c, a, d)
    ensures CountExact(d) <==> !LosesVsync(c, Any(a))
  {
    match a {
      case InsertEvent(e, p, at, option, from) => InsertionCount(c, e, p, at, option, from);
      case RemoveMatching(f) => RemovalsCount(c, f);
      case RemoveEverything => RemovalsCount(c, VsyncTask);
      case RemoveDead => OrphansCount(c);
      case _ => FrameCount(c, d);
    }
  }

  /** A round leaves the sum alone: with an exact count there is nothing to repair. */
  lemma RoundCounts(s: State, r: Readings, now: Instant)
    requires WellFormed(s) && VsyncSafe(s, 0, now) && now <= r.check && r.Monotone()
    requires s.vs.pending == VsyncCount(s.sub[VIP].queue)
    ensures var d := GetEventRound(s, r);
      d.state.vs.pending == VsyncCount(d.state.sub[VIP].queue) + HandsOut(d.outcome) && !d.outcome.Repaired?
  {
    CheckModeKeepsCount(s.vs, r.check, r.stamp);
    RoundEndings(s, r);
    var s1 := PickState(s, r);
    Vsync.CheckModeKeeps(s.vs, r.check, r.stamp);
    PickGivesUp(s1, r.pick);
    PickLeavesVsync(s1, r.pick);
    AfterPickGivesUp(s1, Pick(s1, r.pick), r.pick, r.next);
    AfterPickLeavesVsync(Pick(s1, r.pick), r.pick, r.next);
    DecideGivesUp(s1, GetExpired(s1, r.pick, r.next), r.poll);
    VsyncOf(GetExpired(s1, r.pick, r.next), r.poll);
  }

  lemma RunnerStepCount(c: Config, a: RunnerAction, d: Config)
    requires QueueInv(c) && CountExact(c) && RunnerStep(c, a, d)
    ensures CountExact(d) <==> !LosesVsync(c, Runner(a))
  {
    if a.TakeRound? {
      RoundCounts(c.q, a.readings, c.clock);
      AfterRoundOutstanding(c, GetEventRound(c.q, a.readings), a.readings.poll);
    } else if a.Execute? {
      ExecutionCount(c);
    } else {
      OtherStepCount(c, a, d);
    }
  }

  lemma ExecutionCount(c: Config)
    requires QueueInv(c) && CountExact(c) && c.pc.Holding?
    ensures CountExact(ExecuteNext(c)) <==> !LosesVsync(c, Runner(Execute))
  {
  }

  lemma OtherStepCount(c: Config, a: RunnerAction, d: Config)
    requires CountExact(c) && RunnerStep(c, a, d) && !a.TakeRound? && !a.Execute?
    ensures CountExact(d)
  {
    match a {
      case PollReturn(drain, ok) =>
      case Relock(ok) =>
      case _ =>
    }
  }

  lemma AfterRoundOutstanding(c: Config, d: Round, last: Instant)
    ensures Outstanding(AfterRound(c, d, last).pc) == HandsOut(d.outcome)
  {
  }

  lemma CountAt(cs: seq<Config>, acts: seq<Action>, i: nat)
    requires Run(cs, acts) && Init(cs[0]) && i < |acts|
    ensures CountExact(cs[i]) ==> (CountExact(cs[i + 1]) <==> !LosesVsync(cs[i], acts[i]))
  {
    InitHasInv(cs[0]);
    RunKeepsInv(cs, acts, i);
    assert Step(cs[i], acts[i], cs[i + 1]);
    if CountExact(cs[i]) {
      if acts[i].Any? {
        SharedStepCount(cs[i], acts[i].shared, cs[i + 1]);
      } else {
        RunnerStepCount(cs[i], acts[i].runner, cs[i + 1]);
      }
    }
  }

  /** From the start the count is exact precisely until the first step that loses a vsync task. */
  lemma CountOverRuns(cs: seq<Config>, acts: seq<Action>, n: nat)
    requires Run(cs, acts) && Init(cs[0]) && n <= |acts|
    ensures (forall i :: 0 <= i <= n ==> CountExact(cs[i])) <==> (forall i :: 0 <= i < n ==> !LosesVsync(cs[i], acts[i]))
  {
    var a := seq(n + 1, i requires 0 <= i <= n => CountExact(cs[i]));
    var b := seq(n, i requires 0 <= i < n => LosesVsync(cs[i], acts[i]));
    forall i | 0 <= i < n && a[i] ensures a[i + 1] <==> !b[i] {
      CountAt(cs, acts, i);
    }
    assert a[0];
    FrontCache.UntilFirst(a, b, n);
    assert forall i :: 0 <= i <= n ==> (a[i] <==> CountExact(cs[i]));
    assert forall i :: 0 <= i < n ==> (b[i] <==> LosesVsync(cs[i], acts[i]));
  }

  /** So the repair branch of GetEvent is reached only after a vsync task has been lost. */
  lemma RepairNeedsLoss(cs: seq<Config>, acts: seq<Action>, n: nat, r: Readings)
    requires Run(cs, acts) && Init(cs[0]) && n < |acts| && acts[n] == Runner(TakeRound(r))
    requires GetEventRound(cs[n].q, r).outcome.Repaired?
    ensures exists i :: 0 <= i < n && LosesVsync(cs[i], acts[i])
  {
    InitHasInv(cs[0]);
    RunKeepsInv(cs, acts, n);
    assert Step(cs[n], acts[n], cs[n + 1]);
    CountOverRuns(cs, acts, n);
    if CountExact(cs[n]) {
      RoundCounts(cs[n].q, r, cs[n].clock);
    }
  }
}
