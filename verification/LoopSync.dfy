/** Synchronous senders are released exactly when their event is destroyed, on every way an event can
    leave, and nobody stays blocked on a finished waiter. */
module LoopSync {
  import opened Events
  import opened QueueState
  import opened Waiters
  import opened EventLoop
  import opened LoopHistory

  /** A WaiterImp and its one waiting thread: the count says whether the thread is inside the wait, a
      finished waiter has no blocked thread, and the thread leaves only a finished waiter. */
  ghost predicate SenderOk(s: SyncSender) {
    && s.waitingCount == One(s.phase.BlockedInWait? || s.phase.NotifiedInWait?)
    && (s.finished ==> !s.phase.BlockedInWait?)
    && (s.phase.Done? ==> s.finished)
  }

  ghost predicate SyncInv(c: Config) {
    && (forall id :: id in c.senders ==> SenderOk(c.senders[id]) && !Fresh(c, id))
    && (forall e :: e in c.accepted && e.hasWaiter ==>
          e.id in c.senders && (c.senders[e.id].finished <==> e in c.destroyed))
  }

  lemma DestroyedWereAccepted(c: Config, e: Event)
    requires HistoryInv(c)
    ensures e in c.destroyed || e in c.releasing || InHand(c.pc) == Some(e) || Copies(c.q, e) > 0 ==> e in c.accepted
  {
    assert Balanced(c, e);
  }

  /** Destroying accepted events notifies exactly their own senders. */
  lemma DestroyKeepsSync(c: Config, d: Config, gone: multiset<Event>)
    requires SyncInv(c)
    requires forall x, y :: x in c.accepted && y in c.accepted && x.id == y.id ==> x == y
    requires forall e :: e in gone ==> e in c.accepted
    requires d.accepted == c.accepted
    requires d.destroyed == c.destroyed + gone && d.senders == NotifyDropped(c.senders, gone)
    ensures SyncInv(d)
  {
  }

  /** A newly accepted event brings its own sender, which starts to wait on an unfinished waiter. */
  lemma AcceptKeepsSync(c: Config, d: Config, x: Event)
    requires SyncInv(c) && Fresh(c, x.id) && x !in c.destroyed
    requires d.accepted == c.accepted + multiset{x} && d.destroyed == c.destroyed
    requires d.senders == if x.hasWaiter then c.senders[x.id := SyncSender(false, 0, Entering)] else c.senders
    ensures SyncInv(d)
  {
  }

  lemma InsertKeepsSync(c: Config, e: Event, p: Priority, at: InsertType, option: BarrierOption, from: Sender)
    requires SyncInv(c) && HistoryInv(c) && Fresh(c, e.id)
    ensures SyncInv(InsertNext(c, e, p, at, option, from))
  {
    var r := Insert(c.q, e, p, at, option, from, c.clock);
    if r.ok {
      assert r.stored.id == e.id && r.stored.hasWaiter == e.hasWaiter;
      DestroyedWereAccepted(c, r.stored);
      AcceptKeepsSync(c, InsertNext(c, e, p, at, option, from), r.stored);
    }
  }

  lemma SelectedWereAccepted(c: Config, f: Filter)
    requires HistoryInv(c)
    ensures forall e :: e in Selected(c.q, f) ==> e in c.accepted
    ensures c.q.usable ==> forall e :: e in Everything(c.q) ==> e in c.accepted
  {
    forall e | e in Selected(c.q, f) ensures e in c.accepted {
      SelectedCopies(c.q, f, e);
      DestroyedWereAccepted(c, e);
    }
    if c.q.usable {
      forall e | e in Everything(c.q) ensures e in c.accepted {
        RemoveAllCopies(c.q, e);
        DestroyedWereAccepted(c, e);
      }
    }
  }

  lemma RemovalsKeepSync(c: Config, f: Filter)
    requires SyncInv(c) && HistoryInv(c)
    ensures SyncInv(RemoveNext(c, f)) && SyncInv(RemoveAllNext(c))
  {
    SelectedWereAccepted(c, f);
    if c.q.usable {
      DestroyKeepsSync(c, RemoveNext(c, f), Selected(c.q, f));
      DestroyKeepsSync(c, RemoveAllNext(c), Everything(c.q));
    }
  }

  lemma ReleaseKeepsSync(c: Config)
    requires SyncInv(c) && HistoryInv(c)
    ensures SyncInv(ReleaseNext(c))
  {
    forall e | e in c.releasing ensures e in c.accepted {
      DestroyedWereAccepted(c, e);
    }
    DestroyKeepsSync(c, ReleaseNext(c), c.releasing);
  }

  lemma ExecutionKeepsSync(c: Config, listened: bool)
    requires SyncInv(c) && HistoryInv(c)
    ensures c.pc.Holding? ==> SyncInv(ExecuteNext(c))
    ensures c.pc.Executing? ==> SyncInv(TaskDoneNext(c, listened))
  {
    if c.pc.Holding? {
      DestroyedWereAccepted(c, c.pc.event);
      if c.pc.event.ownerId in c.dead {
        DestroyKeepsSync(c, ExecuteNext(c), multiset{c.pc.event});
      }
    } else if c.pc.Executing? {
      DestroyedWereAccepted(c, c.pc.event);
      DestroyKeepsSync(c, TaskDoneNext(c, listened), multiset{c.pc.event});
    }
  }

  lemma SenderStepKeepsSync(c: Config, id: nat)
    requires SyncInv(c) && id in c.senders
    ensures SyncInv(c.(senders := c.senders[id := SenderNext(c.senders[id])]))
  {
  }

  lemma FrameKeepsSync(c: Config, d: Config)
    requires SyncInv(c) && d.senders == c.senders && d.accepted == c.accepted && d.destroyed == c.destroyed
    ensures SyncInv(d)
  {
  }

  lemma SharedStepKeepsSync(c: Config, a: SharedAction, d: Config)
    requires SyncInv(c) && HistoryInv(c) && SharedStep(c, a, d)
    ensures SyncInv(d)
  {
    match a {
      case InsertEvent(e, p, at, option, from) => InsertKeepsSync(c, e, p, at, option, from);
      case RemoveMatching(f) => RemovalsKeepSync(c, f);
      case RemoveEverything => RemovalsKeepSync(c, VsyncTask);
      case ReleaseDead => ReleaseKeepsSync(c);
      case SenderStep(id) => SenderStepKeepsSync(c, id);
      case _ => FrameKeepsSync(c, d);
    }
  }

  lemma RunnerStepKeepsSync(c: Config, a: RunnerAction, d: Config)
    requires SyncInv(c) && HistoryInv(c) && RunnerStep(c, a, d)
    ensures SyncInv(d)
  {
    match a {
      case Execute =>
        ExecutionKeepsSync(c, true);
        if c.pc.event.ownerId !in c.dead {
          FrameKeepsSync(c, d);
        }
      case TaskDone(listened) => ExecutionKeepsSync(c, listened);
      case _ => FrameKeepsSync(c, d);
    }
  }

  // ---------------------------------------------------------------- what follows

  /** A sender that still waits has its event queued, in the runner's hand, or about to be released by
      an orphan removal; a sender that has returned has its event destroyed and nowhere else. */
  lemma SenderNeverStranded(c: Config, e: Event)
    requires SyncInv(c) && HistoryInv(c) && e in c.accepted && e.hasWaiter
    ensures e.id in c.senders
    ensures var alive := Copies(c.q, e) > 0 || InHand(c.pc) == Some(e) || e in c.releasing;
      c.senders[e.id].finished <==> !alive
    ensures c.senders[e.id].phase.BlockedInWait? ==>
              Copies(c.q, e) > 0 || InHand(c.pc) == Some(e) || e in c.releasing
    ensures c.senders[e.id].phase.Done? ==> e in c.destroyed
  {
    assert Balanced(c, e);
    assert SenderOk(c.senders[e.id]);
  }

  /** Once its event is destroyed a sender returns in at most two of its own steps. */
  lemma ReleasedSenderReturns(s: SyncSender)
    requires SenderOk(s) && s.finished
    ensures SenderNext(s).phase.Done? && SenderOk(SenderNext(s))
  {
  }
}
