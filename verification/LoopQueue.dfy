/** What every step of the event loop keeps about the queue: order, priorities, counters, the front
    cache, and the vsync account including the task in hand. */
module LoopQueue {
  import opened Events
  import opened QueueState
  import opened VsyncAccounting
  import opened EventLoop

  /** The vsync task that was handed out and has not started to run. */
  function Outstanding(pc: Pc): nat {
    match pc
    case Polling(e, _, _) => One(e.isVsync)
    case Holding(e) => One(e.isVsync)
    case _ => 0
  }

  ghost predicate QueueInv(c: Config) {
    WellFormed(c.q) && VsyncSafe(c.q, Outstanding(c.pc), c.clock)
  }

  lemma ApplyKeepsVsync(s: State, setting: Setting, inHand: nat, now: Instant)
    requires VsyncSafe(s, inHand, now)
    ensures VsyncSafe(s.(vs := Apply(s.vs, setting, now)), inHand, now)
  {
  }

  lemma RemoveKeepsQueue(c: Config, f: Filter)
    requires QueueInv(c)
    ensures QueueInv(RemoveNext(c, f))
  {
    RemoveKeepsWellFormed(c.q, f);
    RemoveKeepsVsync(c.q, f, Outstanding(c.pc), c.clock);
  }

  lemma RemoveOrphansKeepsQueue(c: Config)
    requires QueueInv(c)
    ensures QueueInv(RemoveOrphansNext(c))
  {
    RemoveOrphansKeepsWellFormed(c.q, c.dead);
    RemoveOrphansKeepsVsync(c.q, c.dead, Outstanding(c.pc), c.clock);
  }

  lemma InsertKeepsQueue(c: Config, e: Event, p: Priority, at: InsertType, option: BarrierOption, from: Sender)
    requires QueueInv(c) && Disciplined(c.q, e, p)
    ensures QueueInv(InsertNext(c, e, p, at, option, from))
  {
    InsertKeepsWellFormed(c.q, e, p, at, option, from, c.clock);
    InsertKeepsVsync(c.q, e, p, at, option, from, c.clock, Outstanding(c.pc));
  }

  lemma RemoveAllKeepsQueue(c: Config)
    requires QueueInv(c)
    ensures QueueInv(RemoveAllNext(c))
  {
  }

  /** Steps that leave the lists and the vsync fields alone. */
  lemma FrameKeepsQueue(c: Config, d: Config)
    requires QueueInv(c)
    requires d.q.sub == c.q.sub && d.q.idle == c.q.idle && c.clock <= d.clock
    requires d.q.vs == c.q.vs.(completeTime := d.q.vs.completeTime, needEpoll := d.q.vs.needEpoll)
    requires c.q.vs.completeTime <= d.q.vs.completeTime <= d.clock
    requires Outstanding(d.pc) <= Outstanding(c.pc)
    ensures QueueInv(d)
  {
  }

  lemma SharedStepKeepsQueue(c: Config, a: SharedAction, d: Config)
    requires QueueInv(c) && SharedStep(c, a, d)
    ensures QueueInv(d)
  {
    match a {
      case InsertEvent(e, p, at, option, from) => InsertKeepsQueue(c, e, p, at, option, from);
      case RemoveMatching(f) => RemoveKeepsQueue(c, f);
      case RemoveEverything => RemoveAllKeepsQueue(c);
      case RemoveDead => RemoveOrphansKeepsQueue(c);
      case SetVsync(setting) => ApplyKeepsVsync(c.q, setting, Outstanding(c.pc), c.clock);
      case _ => FrameKeepsQueue(c, d);
    }
  }

  lemma AfterRoundKeepsQueue(c: Config, d: Round, last: Instant)
    requires WellFormed(d.state) && VsyncSafe(d.state, HandsOut(d.outcome), last)
    ensures QueueInv(AfterRound(c, d, last))
  {
  }

  lemma TakeRoundKeepsQueue(c: Config, r: Readings)
    requires QueueInv(c) && c.pc.Calling? && c.clock <= r.check && r.Monotone()
    ensures QueueInv(RoundNext(c, r))
  {
    RoundKeeps(c.q, r);
    RoundKeepsVsync(c.q, r, c.clock);
    AfterRoundKeepsQueue(c, GetEventRound(c.q, r), r.poll);
  }

  lemma ExecuteKeepsQueue(c: Config)
    requires QueueInv(c) && c.pc.Holding?
    ensures QueueInv(ExecuteNext(c))
  {
  }

  lemma PollReturnKeepsQueue(c: Config, drain: bool, ok: bool)
    requires QueueInv(c) && c.pc.Polling? && c.pc.waiter < |c.waiters|
    ensures QueueInv(PollReturnNext(c, drain, ok))
  {
  }

  lemma RunnerStepKeepsQueue(c: Config, a: RunnerAction, d: Config)
    requires QueueInv(c) && RunnerStep(c, a, d)
    ensures QueueInv(d)
  {
    match a {
      case TakeRound(r) => TakeRoundKeepsQueue(c, r);
      case PollReturn(drain, ok) => PollReturnKeepsQueue(c, drain, ok);
      case Execute => ExecuteKeepsQueue(c);
      case _ => FrameKeepsQueue(c, d);
    }
  }
}
