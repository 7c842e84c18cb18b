/** The waiters over whole runs: their counts tell who waits, and a wait leaves no stale signal behind. */
module WaiterRuns {
  import opened Events
  import opened QueueState
  import opened Waiters
  import opened EventLoop
  import opened LoopSleep
  import opened LoopRuns

  /** The runner waits on waiter i: from before it releases the queue lock until its blocking call has returned. */
  predicate WaitsOn(c: Config, i: nat) {
    match c.pc
    case Sleeping(w, _, _, phase) => w == i && !phase.Woken?
    case Polling(_, _, w) => w == i
    case _ => false
  }

  /** The count of every epoll waiter says whether the runner waits on it. */
  ghost predicate Counted(c: Config) {
    c.io < |c.waiters| &&
    forall i :: 0 <= i < |c.waiters| && c.waiters[i].EpollWaiter? ==> c.waiters[i].waiting == One(WaitsOn(c, i))
  }

  /** A notification changes no count and no kind of waiter. */
  lemma NotifyKeepsCounts(ws: seq<Waiter>, i: nat)
    ensures var ns := NotifyAt(ws, i);
      |ns| == |ws| && forall k :: 0 <= k < |ws| ==>
        (ns[k].EpollWaiter? <==> ws[k].EpollWaiter?) && (ws[k].EpollWaiter? ==> ns[k].waiting == ws[k].waiting)
  {
  }

  lemma SameWaitersCounted(c: Config, d: Config)
    requires Counted(c) && d.pc == c.pc && d.io == c.io && (d.waiters == c.waiters || d.waiters == NotifyAt(c.waiters, c.io))
    ensures Counted(d)
  {
    NotifyKeepsCounts(c.waiters, c.io);
    forall i | 0 <= i < |d.waiters| && d.waiters[i].EpollWaiter? ensures d.waiters[i].waiting == One(WaitsOn(d, i)) {
      assert c.waiters[i].waiting == One(WaitsOn(c, i));
    }
  }

  /** A new waiter has nobody waiting. */
  lemma SwapKeepsCounts(c: Config)
    requires Counted(c) && !WaitsOn(c, |c.waiters|)
    ensures Counted(SwapNext(c))
  {
    NotifyKeepsCounts(c.waiters, c.io);
    var d := SwapNext(c);
    if d != c {
      forall i | 0 <= i < |d.waiters| && d.waiters[i].EpollWaiter? ensures d.waiters[i].waiting == One(WaitsOn(d, i)) {
        if i < |c.waiters| {
          assert d.waiters[i].waiting == c.waiters[i].waiting == One(WaitsOn(c, i));
        }
      }
    }
  }

  lemma SharedStepKeepsCounts(c: Config, a: SharedAction, d: Config)
    requires Counted(c) && SharedStep(c, a, d) && !WaitsOn(c, |c.waiters|)
    ensures Counted(d)
  {
    if a.SwapWaiter? {
      SwapKeepsCounts(c);
    } else {
      SharedStepWaiters(c, a, d);
      SameWaitersCounted(c, d);
    }
  }

  lemma SharedStepWaiters(c: Config, a: SharedAction, d: Config)
    requires SharedStep(c, a, d) && !a.SwapWaiter?
    ensures d.pc == c.pc && d.io == c.io && (d.waiters == c.waiters || d.waiters == NotifyAt(c.waiters, c.io))
  {
  }

  lemma AfterRoundKeepsCounts(c: Config, d: Round, last: Instant)
    requires Counted(c) && c.pc.Calling?
    ensures Counted(AfterRound(c, d, last))
  {
  }

  /** The end of a wait on waiter w: StopBlocking takes the runner off the count, whatever is cleared or added after. */
  lemma StopKeepsCounts(c: Config, d: Config, w: nat, drain: bool)
    requires Counted(c) && w < |c.waiters| && WaitsOn(c, w) && d.io < |d.waiters| && |c.waiters| <= |d.waiters|
    requires forall i :: 0 <= i < |c.waiters| && i != w ==> d.waiters[i] == c.waiters[i]
    requires forall i :: |c.waiters| <= i < |d.waiters| ==> d.waiters[i].NoneWaiter?
    requires d.waiters[w] == StopBlocking(c.waiters[w], drain) || d.waiters[w] == FinishWait(StopBlocking(c.waiters[w], drain))
    requires forall i: nat :: !WaitsOn(d, i)
    ensures Counted(d)
  {
    forall i | 0 <= i < |d.waiters| && d.waiters[i].EpollWaiter? ensures d.waiters[i].waiting == One(WaitsOn(d, i)) {
      if i < |c.waiters| {
        assert c.waiters[i].EpollWaiter? && c.waiters[i].waiting == One(WaitsOn(c, i));
      }
    }
  }

  lemma RelockKeepsCounts(c: Config, ok: bool, d: Config)
    requires Counted(c) && RunnerStep(c, Relock(ok), d)
    ensures Counted(d)
  {
  }

  lemma RunnerStepKeepsCounts(c: Config, a: RunnerAction, d: Config)
    requires Counted(c) && RunnerStep(c, a, d)
    ensures Counted(d)
  {
    match a {
      case TakeRound(r) => AfterRoundKeepsCounts(c, GetEventRound(c.q, r), r.poll);
      case PollReturn(drain, ok) => StopKeepsCounts(c, d, c.pc.waiter, drain);
      case Wake(drain) => StopKeepsCounts(c, d, c.pc.waiter, drain);
      case Relock(ok) => RelockKeepsCounts(c, ok, d);
      case _ =>
    }
  }

  lemma {:induction false} RunKeepsCounts(cs: seq<Config>, acts: seq<Action>, n: nat)
    requires Run(cs, acts) && Init(cs[0]) && n <= |acts|
    ensures Counted(cs[n])
  {
    if n > 0 {
      RunKeepsCounts(cs, acts, n - 1);
      assert Step(cs[n - 1], acts[n - 1], cs[n]);
      InitHasInv(cs[0]);
      RunKeepsInv(cs, acts, n - 1);
      StepKeepsCounts(cs[n - 1], acts[n - 1], cs[n]);
    }
  }

  lemma StepKeepsCounts(c: Config, a: Action, d: Config)
    requires Counted(c) && SleepInv(c) && Step(c, a, d)
    ensures Counted(d)
  {
    if a.Any? {
      SharedStepKeepsCounts(c, a.shared, d);
    } else {
      RunnerStepKeepsCounts(c, a.runner, d);
    }
  }

  /** In every reachable configuration an epoll waiter counts one waiter while the runner waits on it and none
      otherwise; so a notification writes its awaken descriptor exactly when the runner waits on it. */
  lemma NotifiedOnlyWhileWaiting(c: Config)
    requires EventLoop.Reachable(c)
    ensures forall i :: 0 <= i < |c.waiters| && c.waiters[i].EpollWaiter? ==>
              && c.waiters[i].waiting == One(WaitsOn(c, i))
              && (WaitsOn(c, i) ==> Signalled(Notify(c.waiters[i])))
              && (!WaitsOn(c, i) ==> Notify(c.waiters[i]) == c.waiters[i])
  {
    var cs, acts :| Run(cs, acts) && Init(cs[0]) && cs[|acts|] == c;
    RunKeepsCounts(cs, acts, |acts|);
  }

  // ---------------------------------------------------------------- no stale signal

  /** The runner ends a wait on waiter w. */
  predicate EndsWait(c: Config, a: Action, w: nat) {
    match a
    case Runner(PollReturn(_, _)) => c.pc.Polling? && c.pc.waiter == w
    case Runner(Relock(_)) => c.pc.Sleeping? && c.pc.waiter == w
    case _ => false
  }

  /** A step that notifies the current waiter: an insertion that asks for it, Finish, or a change of the waiter. */
  ghost predicate Notifies(c: Config, a: Action) {
    match a
    case Any(InsertEvent(e, p, at, option, from)) => Insert(c.q, e, p, at, option, from, c.clock).notify
    case Any(Finish) => c.q.usable
    case Any(SwapWaiter) => c.q.usable
    case _ => false
  }

  /** A blocking call that returns takes the signal with it exactly if it was reported: the descriptor of an epoll
      waiter stays signalled otherwise, and the next wait on it returns at once. */
  lemma BlockingTakesSignal(c: Config, a: RunnerAction, d: Config, w: nat)
    requires RunnerStep(c, a, d) && w < |c.waiters| && c.waiters[w].EpollWaiter?
    requires (a.Wake? && c.pc.waiter == w) || (a.PollReturn? && c.pc.waiter == w)
    ensures w < |d.waiters| && d.waiters[w].EpollWaiter?
    ensures Signalled(d.waiters[w]) <==> Signalled(c.waiters[w]) && !a.drain
  {
    match a {
      case PollReturn(drain, ok) =>
      case Wake(drain) =>
    }
  }

  /** After a wait the predicate of NoneIoWaiter is clear. */
  lemma WaitLeavesNoSignal(c: Config, a: Action, d: Config, w: nat)
    requires Step(c, a, d) && EndsWait(c, a, w) && w < |c.waiters|
    ensures w < |d.waiters| && (c.waiters[w].NoneWaiter? ==> d.waiters[w] == NoneWaiter(false))
  {
    match a.runner {
      case PollReturn(drain, ok) =>
      case Relock(ok) =>
    }
  }

  /** A waiter that is not signalled stays so until somebody notifies. */
  lemma ClearStaysClear(c: Config, a: Action, d: Config, w: nat)
    requires Step(c, a, d) && w < |c.waiters| && !Signalled(c.waiters[w]) && !Notifies(c, a)
    ensures w < |d.waiters| && !Signalled(d.waiters[w]) && (d.waiters[w].NoneWaiter? <==> c.waiters[w].NoneWaiter?)
  {
    if a.Any? {
      match a.shared {
        case InsertEvent(e, p, at, option, from) =>
        case Finish =>
        case SwapWaiter =>
        case _ =>
      }
    } else {
      RunnerKeepsClear(c, a.runner, d, w);
    }
  }

  lemma RunnerKeepsClear(c: Config, a: RunnerAction, d: Config, w: nat)
    requires RunnerStep(c, a, d) && w < |c.waiters| && !Signalled(c.waiters[w])
    ensures w < |d.waiters| && !Signalled(d.waiters[w]) && (d.waiters[w].NoneWaiter? <==> c.waiters[w].NoneWaiter?)
  {
    match a {
      case PollReturn(drain, ok) =>
      case Wake(drain) =>
      case Relock(ok) =>
      case TakeRound(r) => EnteringKeepsClear(c, GetEventRound(c.q, r), r.poll, w);
      case _ =>
    }
  }

  lemma EnteringKeepsClear(c: Config, d: Round, last: Instant, w: nat)
    requires w < |c.waiters| && !Signalled(c.waiters[w])
    ensures var t := AfterRound(c, d, last).waiters;
      w < |t| && !Signalled(t[w]) && (t[w].NoneWaiter? <==> c.waiters[w].NoneWaiter?)
  {
  }

  // ---------------------------------------------------------------- which waiter is current

  /** The current waiter is replaced by a step exactly when a usable queue that has no epoll waiter is asked for one,
      or a wait on an epoll waiter has failed. */
  predicate Replaces(c: Config, a: Action) {
    match a
    case Any(SwapWaiter) => c.q.usable && c.io < |c.waiters| && c.waiters[c.io].NoneWaiter?
    case Runner(PollReturn(_, ok)) =>
      !ok && c.pc.Polling? && c.pc.waiter < |c.waiters| && c.waiters[c.pc.waiter].EpollWaiter?
    case Runner(Relock(ok)) =>
      !ok && c.pc.Sleeping? && c.pc.waiter < |c.waiters| && c.waiters[c.pc.waiter].EpollWaiter?
    case _ => false
  }

  /** The new waiter is fresh: an epoll waiter after a request, a NoneIoWaiter after a failure. */
  lemma CurrentWaiterExactly(c: Config, a: Action, d: Config)
    requires c.io < |c.waiters| && Step(c, a, d)
    ensures d.io < |d.waiters|
    ensures if Replaces(c, a)
            then d.io == |c.waiters| && d.waiters[d.io] == (if a.Any? then EpollWaiter(0, false) else NoneWaiter(false))
            else d.io == c.io && |d.waiters| == |c.waiters|
  {
    if a.Any? {
      match a.shared {
        case InsertEvent(e, p, at, option, from) =>
        case Finish =>
        case SwapWaiter =>
        case _ =>
      }
    } else {
      RunnerCurrentWaiter(c, a.runner, d);
    }
  }

  lemma RunnerCurrentWaiter(c: Config, a: RunnerAction, d: Config)
    requires c.io < |c.waiters| && RunnerStep(c, a, d)
    ensures if Replaces(c, Runner(a)) then d.io == |c.waiters| < |d.waiters| && d.waiters[d.io] == NoneWaiter(false)
            else d.io == c.io && |d.waiters| == |c.waiters|
  {
    match a {
      case PollReturn(drain, ok) =>
      case Relock(ok) =>
      case TakeRound(r) => EnteringKeepsCurrent(c, GetEventRound(c.q, r), r.poll);
      case _ =>
    }
  }

  lemma EnteringKeepsCurrent(c: Config, d: Round, last: Instant)
    ensures AfterRound(c, d, last).io == c.io && |AfterRound(c, d, last).waiters| == |c.waiters|
  {
  }

  // ---------------------------------------------------------------- no stale signal over runs

  /** So a later sleep is not cut short by an old signal: after a wait on a NoneIoWaiter it is signalled again only by a
      notification that comes after that wait. */
  lemma {:induction false} NoStaleSignal(cs: seq<Config>, acts: seq<Action>, m: nat, n: nat, w: nat)
    requires Run(cs, acts) && m < n <= |acts| && EndsWait(cs[m], acts[m], w)
    requires w < |cs[m].waiters| && cs[m].waiters[w].NoneWaiter?
    requires forall i :: m < i < n ==> !Notifies(cs[i], acts[i])
    ensures w < |cs[n].waiters| && cs[n].waiters[w] == NoneWaiter(false)
    decreases n
  {
    if n == m + 1 {
      assert Step(cs[m], acts[m], cs[m + 1]);
      WaitLeavesNoSignal(cs[m], acts[m], cs[n], w);
    } else {
      NoStaleSignal(cs, acts, m, n - 1, w);
      ClearAt(cs, acts, n - 1, w);
    }
  }

  lemma ClearAt(cs: seq<Config>, acts: seq<Action>, n: nat, w: nat)
    requires Run(cs, acts) && n < |acts| && !Notifies(cs[n], acts[n])
    requires w < |cs[n].waiters| && cs[n].waiters[w] == NoneWaiter(false)
    ensures w < |cs[n + 1].waiters| && cs[n + 1].waiters[w] == NoneWaiter(false)
  {
    assert Step(cs[n], acts[n], cs[n + 1]);
    ClearStaysClear(cs[n], acts[n], cs[n + 1], w);
  }
}
