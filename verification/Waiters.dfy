/** The objects that threads block on: the two IoWaiters of the loop and the WaiterImp of synchronous
    senders. Each is a value with its transitions, and a class that performs them in place; blocking
    itself belongs to the step system of the event loop. */
module Waiters {
  import opened Timeouts

  // ---------------------------------------------------------------- waiters

  /** An IoWaiter: NoneIoWaiter with its predicate, or EpollIoWaiter with its waiting count and the
      state of its awaken descriptor. */
  datatype Waiter = NoneWaiter(pred: bool) | EpollWaiter(waiting: nat, signalled: bool)

  /** NotifyOne and NotifyAll */
  function Notify(w: Waiter): Waiter {
    match w
    case NoneWaiter(_) => NoneWaiter(true)
    case EpollWaiter(n, _) => if n == 0 then w else EpollWaiter(n, true)
  }

  /** What WaitFor does before it releases the queue lock. */
  function EnterWait(w: Waiter): Waiter {
    match w
    case NoneWaiter(_) => w
    case EpollWaiter(n, b) => EpollWaiter(n + 1, b)
  }

  /** What WaitFor does when its blocking call returns; `drain` says whether the awaken descriptor was
      among the reported ones. */
  function StopBlocking(w: Waiter, drain: bool): Waiter {
    match w
    case NoneWaiter(_) => w
    case EpollWaiter(n, b) => EpollWaiter(if n == 0 then 0 else n - 1, b && !drain)
  }

  /** What WaitFor does after it has taken the queue lock again. */
  function FinishWait(w: Waiter): Waiter {
    match w
    case NoneWaiter(_) => NoneWaiter(false)
    case EpollWaiter(_, _) => w
  }

  predicate Signalled(w: Waiter) {
    match w
    case NoneWaiter(pred) => pred
    case EpollWaiter(_, b) => b
  }

  function WaitLength(w: Waiter, ns: nat): nat {
    if w.NoneWaiter? then NoneWaitLength(ns) else EpollWaitLength(ns)
  }

  // ---------------------------------------------------------------- synchronous senders

  datatype SenderPhase = Entering | BlockedInWait | NotifiedInWait | Done

  /** A thread in SendSyncEvent after the event was accepted, with the WaiterImp it waits on. */
  datatype SyncSender = SyncSender(finished: bool, waitingCount: nat, phase: SenderPhase)

  /** WaiterImp::Notify */
  function NotifySender(s: SyncSender): SyncSender {
    s.(finished := true,
       phase := if s.waitingCount > 0 && s.phase.BlockedInWait? then NotifiedInWait else s.phase)
  }

  /** The loop test of WaiterImp::Wait, with the mutex held. */
  function TestWait(s: SyncSender): SyncSender {
    if s.finished then s.(phase := Done)
    else s.(waitingCount := s.waitingCount + 1, phase := BlockedInWait)
  }

  /** One step of a sender: the first test, a wake-up without notification, or the test after waking. */
  function SenderNext(s: SyncSender): SyncSender {
    match s.phase
    case Entering => TestWait(s)
    case BlockedInWait => s.(phase := NotifiedInWait)
    case NotifiedInWait => TestWait(s.(waitingCount := if s.waitingCount == 0 then 0 else s.waitingCount - 1))
    case Done => s
  }

  // ---------------------------------------------------------------- the objects

  class NoneIoWaiter {
    var pred: bool

    function View(): Waiter
      reads this
    {
      NoneWaiter(pred)
    }

    constructor ()
      ensures View() == NoneWaiter(false)
    {
      pred := false;
    }

    method NotifyOne()
      modifies this
      ensures View() == Notify(old(View()))
    {
      pred := true;
    }

    method NotifyAll()
      modifies this
      ensures View() == Notify(old(View()))
    {
      pred := true;
    }

    /** The end of WaitFor, with the queue lock held again. */
    method AfterRelock()
      modifies this
      ensures View() == FinishWait(old(View()))
    {
      pred := false;
    }
  }

  class EpollIoWaiter {
    var waitingCount: nat
    // The awaken descriptor has been written and not drained.
    var awaken: bool

    function View(): Waiter
      reads this
    {
      EpollWaiter(waitingCount, awaken)
    }

    constructor ()
      ensures View() == EpollWaiter(0, false)
    {
      waitingCount, awaken := 0, false;
    }

    /** The beginning of WaitFor, before the queue lock is released. */
    method BeforeUnlock()
      modifies this
      ensures View() == EnterWait(old(View()))
    {
      waitingCount := waitingCount + 1;
    }

    /** WaitFor after epoll_wait: the count goes down, the awaken descriptor is drained if reported. */
    method AfterEpollWait(reported: bool)
      requires waitingCount > 0
      modifies this
      ensures View() == StopBlocking(old(View()), reported)
    {
      waitingCount := waitingCount - 1;
      if reported {
        awaken := false;
      }
    }

    method NotifyAll()
      modifies this
      ensures View() == Notify(old(View()))
    {
      if waitingCount == 0 {
        return;
      }
      awaken := true;
    }
  }

  /** WaiterImp with its one waiting thread, whose position is the ghost part. */
  class WaiterImp {
    var finished: bool
    var waitingCount: nat
    ghost var phase: SenderPhase

    ghost function View(): SyncSender
      reads this
    {
      SyncSender(finished, waitingCount, phase)
    }

    constructor ()
      ensures View() == SyncSender(false, 0, Entering)
    {
      finished, waitingCount, phase := false, 0, Entering;
    }

    method Notify()
      modifies this
      ensures View() == NotifySender(old(View()))
    {
      finished := true;
      if waitingCount > 0 {
        if phase.BlockedInWait? {
          phase := NotifiedInWait;
        }
      }
    }

    /** The loop of Wait from holding the mutex to giving it up, by blocking or by returning; `woken`
        says that the thread comes out of the condition variable. */
    method WaitUntilBlocked(woken: bool) returns (returned: bool)
      requires if woken then phase.NotifiedInWait? && waitingCount > 0 else phase.Entering?
      modifies this
      ensures View() == SenderNext(old(View())) && returned == old(finished)
    {
      if woken {
        waitingCount := waitingCount - 1;
      }
      if finished {
        phase := Done;
        return true;
      }
      waitingCount := waitingCount + 1;
      phase := BlockedInWait;
      returned := false;
    }
  }
}
