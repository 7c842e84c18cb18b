/** EventQueueBase and the part of EventQueue it inherits, as a class that is updated in place. Each
    method is one region under the queue lock; it is proved against the function of the same name on
    the value of the queue. Clock readings are parameters. */
module EventQueueBases {
  import opened Events
  import opened EventLists
  import opened Vsync
  import opened VsyncAccounting
  import opened QueueState
  import opened Waiters
  import Q = QueueState

  class EventQueueBase {
    const subEventQueues: array<SubQueue>
    const ioWaiter: NoneIoWaiter
    var idleEvents: seq<Event>
    var wakeUpTime: TimePoint
    var isIdle: bool
    var idleTimeStamp: TimePoint
    var finished: bool
    var usable: bool
    // The vsync and barrier fields.
    var sumOfPendingVsync: Int8
    var needEpoll: bool
    var isLazyMode: bool
    var isBarrierMode: bool
    var vsyncPolicy: VsyncPolicy
    var vsyncOriginPolicy: VsyncPolicy
    var enterBarrierTime: int
    var vsyncPeriod: int
    var vsyncCheckTime: int
    var vsyncRecvTime: int
    var vsyncCompleteTime: int
    var vsyncFirstForceEnableEndTime: int

    function VsyncView(): VsyncState
      reads this
    {
      VsyncState(sumOfPendingVsync, needEpoll, isLazyMode, isBarrierMode, vsyncPolicy, vsyncOriginPolicy,
                 enterBarrierTime, vsyncPeriod, vsyncCheckTime, vsyncRecvTime, vsyncCompleteTime,
                 vsyncFirstForceEnableEndTime)
    }

    /** The queue as a value. */
    function View(): State
      requires subEventQueues.Length == 4
      reads this, subEventQueues
    {
      State(subEventQueues[..], idleEvents, wakeUpTime, isIdle, idleTimeStamp, finished, usable, VsyncView())
    }

    ghost predicate Valid()
      reads this, subEventQueues
    {
      subEventQueues.Length == 4 && WellFormed(View())
    }

    constructor (now: Instant)
      ensures Valid() && View() == InitialState(now) && fresh(subEventQueues) && fresh(ioWaiter)
    {
      subEventQueues := new SubQueue[4](_ => EMPTY_SUB_QUEUE);
      ioWaiter := new NoneIoWaiter();
      idleEvents, wakeUpTime, isIdle, idleTimeStamp := [], MAX_TIME, true, now;
      finished, usable := true, true;
      sumOfPendingVsync, needEpoll, isLazyMode, isBarrierMode := 0, false, true, false;
      vsyncPolicy, vsyncOriginPolicy := FirstWithDefaultBarrier, FirstWithDefaultBarrier;
      enterBarrierTime, vsyncPeriod, vsyncCheckTime := MAX_TIME, MAX_INIT_VSYNC_PERIOD_NS, MAX_TIME;
      vsyncRecvTime, vsyncCompleteTime, vsyncFirstForceEnableEndTime := MAX_TIME, 0, 0;
      new;
      assert subEventQueues[..] == [EMPTY_SUB_QUEUE, EMPTY_SUB_QUEUE, EMPTY_SUB_QUEUE, EMPTY_SUB_QUEUE];
    }

    // -------------------------------------------------------------- vsync transitions

    method DispatchVsyncTaskNotify(now: Instant)
      modifies this`sumOfPendingVsync, this`vsyncRecvTime, this`needEpoll, this`vsyncCheckTime
      ensures VsyncView() == Dispatch(old(VsyncView()), now)
    {
      sumOfPendingVsync := Increment(sumOfPendingVsync);
      vsyncRecvTime := now;
      if vsyncRecvTime > vsyncCheckTime {
        vsyncRecvTime := vsyncCheckTime;
      }
      needEpoll := true;
      vsyncCheckTime := MAX_TIME;
    }

    method HandleVsyncTaskNotify()
      modifies this`sumOfPendingVsync
      ensures VsyncView() == old(VsyncView()).(pending := Decrement(old(sumOfPendingVsync)))
    {
      sumOfPendingVsync := Decrement(sumOfPendingVsync);
    }

    method SetBarrierMode(on: bool, now: Instant)
      modifies this`isBarrierMode, this`enterBarrierTime
      ensures VsyncView() == SetBarrier(old(VsyncView()), on, now)
    {
      isBarrierMode := on;
      enterBarrierTime := if !on then MAX_TIME else now;
    }

    method UpdateVsyncCheckTime(lastFrameTime: int, period: int, now: Instant)
      modifies this`vsyncPeriod, this`vsyncCheckTime
      ensures VsyncView() == UpdateCheckTime(old(VsyncView()), lastFrameTime, period, now)
    {
      if period > 0 {
        vsyncPeriod := if period > MAX_INIT_VSYNC_PERIOD_NS then MAX_INIT_VSYNC_PERIOD_NS else period;
        vsyncCheckTime := if lastFrameTime > now
                          then now + CHECK_VSYNC_DELAY_NS + (lastFrameTime - now) % period
                          else now + period + CHECK_VSYNC_DELAY_NS - (now - lastFrameTime) % period;
      }
    }

    method SetVsyncLazyMode(lazy: bool)
      modifies this`isLazyMode
      ensures VsyncView() == SetLazy(old(VsyncView()), lazy)
    {
      if vsyncPolicy == DisableVsyncFirst {
        return;
      }
      isLazyMode := lazy;
    }

    method SetVsyncPolicy(policy: VsyncPolicy)
      modifies this`vsyncPolicy, this`vsyncOriginPolicy, this`isLazyMode
      ensures VsyncView() == SetPolicy(old(VsyncView()), policy)
    {
      vsyncPolicy := policy;
      vsyncOriginPolicy := policy;
      if vsyncPolicy == DisableVsyncFirst {
        isLazyMode := true;
      }
    }

    method SetVsyncFirstForceEnableTime(enable: bool, timeout: nat, now: Instant)
      modifies this`vsyncPolicy, this`vsyncFirstForceEnableEndTime
      ensures VsyncView() == ForceEnable(old(VsyncView()), enable, timeout, now)
    {
      if enable {
        vsyncPolicy := FirstWithoutDefaultBarrier;
        vsyncFirstForceEnableEndTime := now + timeout;
      } else {
        vsyncPolicy := vsyncOriginPolicy;
        vsyncFirstForceEnableEndTime := 0;
      }
    }

    /** The second half of TryEpollFd, after its wait. */
    method FinishPoll(need: bool)
      modifies this`needEpoll, this`vsyncCheckTime, this`vsyncPeriod
      ensures VsyncView() == AfterPoll(old(VsyncView()), need)
    {
      if sumOfPendingVsync != 0 {
        return;
      }
      if need {
        needEpoll := false;
      } else if vsyncPeriod < MAX_CHECK_VSYNC_PERIOD_NS {
        vsyncCheckTime := vsyncCheckTime + vsyncPeriod;
        vsyncPeriod := vsyncPeriod * 2;
      } else {
        vsyncCheckTime := MAX_TIME;
      }
    }

    method CheckBarrierMode(now: Instant, stamp: Instant)
      requires Valid()
      modifies this`vsyncPolicy, this`isLazyMode, this`isBarrierMode, this`enterBarrierTime
      ensures Valid() && View() == Q.CheckBarrierMode(old(View()), now, stamp)
    {
      if vsyncFirstForceEnableEndTime > now {
        vsyncPolicy := FirstWithoutDefaultBarrier;
        isLazyMode := false;
      } else {
        vsyncPolicy := vsyncOriginPolicy;
      }
      if !isLazyMode && !isBarrierMode && sumOfPendingVsync != 0 {
        if DelayTime(VsyncView()) < now && vsyncCompleteTime + VSYNC_TASK_INTERVAL_NS < now {
          SetBarrierMode(true, stamp);
        }
      } else if isBarrierMode && needEpoll && enterBarrierTime + VSYNC_BARRIER_TIMEOUT_NS < now {
        SetBarrierMode(false, stamp);
        isLazyMode := true;
      }
    }

    // -------------------------------------------------------------- insertion and removal

    method InsertIntoSubQueue(p: nat, event: Event, at: InsertType)
      requires subEventQueues.Length == 4 && p < 4
      modifies subEventQueues
      ensures subEventQueues[..] == old(subEventQueues[..])[p := InsertInto(old(subEventQueues[p]), event, at)]
    {
      var q, _ := InsertEventsLocked(subEventQueues[p].queue, event, at);
      subEventQueues[p] := subEventQueues[p].(queue := q, front := q[0].handleTime);
    }

    /** The sender is on the application's main thread, the owner of the event on the main runner, or not. */
    method Insert(event: Event, priority: Priority, at: InsertType, option: BarrierOption, onMainThread: bool,
                  ownerOnMainRunner: bool, now: Instant)
      returns (ok: bool)
      requires Valid()
      modifies this, subEventQueues, ioWaiter
      ensures Valid()
      ensures var sender := Sender(onMainThread, ownerOnMainRunner, old(vsyncPolicy));
        var r := Q.Insert(old(View()), event, priority, at, option, sender, now);
        View() == r.state && ok == r.ok && ioWaiter.pred == (old(ioWaiter.pred) || r.notify)
    {
      var sender := Sender(onMainThread, ownerOnMainRunner, vsyncPolicy);
      InsertKeepsWellFormed(View(), event, priority, at, option, sender, now);
      var marked := event;
      if NeedsBarrierMark(event, option, sender) {
        marked := marked.(isBarrier := true);
      }
      ok := InsertLocked(marked, priority, at, now);
    }

    /** The part of Insert under the lock. */
    method InsertLocked(marked: Event, priority: Priority, at: InsertType, now: Instant) returns (ok: bool)
      requires subEventQueues.Length == 4
      modifies this, subEventQueues, ioWaiter
      ensures var r := Q.InsertLocked(old(View()), marked, priority, at, now);
        View() == r.state && ok == r.ok && ioWaiter.pred == (old(ioWaiter.pred) || r.notify)
    {
      if !usable {
        return false;
      }
      var needNotify := PlaceEvent(marked.(priority := priority), priority, at, now);
      if needNotify {
        ioWaiter.NotifyOne();
      }
      ok := true;
    }

    /** The insertion into a sub queue, with the announcement of a vsync task. */
    method PlaceInSubQueue(event: Event, p: nat, at: InsertType, now: Instant)
      requires subEventQueues.Length == 4 && p < 4
      modifies this`sumOfPendingVsync, this`vsyncRecvTime, this`needEpoll, this`vsyncCheckTime, subEventQueues
      ensures View() == Placed(old(View()), event, p, at, now)
    {
      if event.isVsync {
        DispatchVsyncTaskNotify(now);
      }
      InsertIntoSubQueue(p, event, at);
    }

    /** The update of the lists, and whether it asks for a notification. */
    method PlaceEvent(event: Event, priority: Priority, at: InsertType, now: Instant) returns (needNotify: bool)
      requires subEventQueues.Length == 4
      modifies this`idleEvents, this`sumOfPendingVsync, this`vsyncRecvTime, this`needEpoll, this`vsyncCheckTime, subEventQueues
      ensures View() == Placed(old(View()), event, priority, at, now)
      ensures needNotify == NeedsNotify(old(View()), event, priority, now)
    {
      needNotify := false;
      if priority < IDLE {
        needNotify := event.handleTime < wakeUpTime || wakeUpTime < now;
        if event.isVsync {
          needNotify := true;
        }
        PlaceInSubQueue(event, priority, at, now);
      } else {
        var q, _ := InsertEventsLocked(idleEvents, event, at);
        idleEvents := q;
      }
    }

    /** The loop of Remove over the sub queues. */
    method RemoveFromSubQueues(f: Filter) returns (removed: bool)
      requires subEventQueues.Length == 4
      modifies subEventQueues
      ensures subEventQueues[..] == SubsWithout(old(subEventQueues[..]), f)
      ensures removed <==> exists i :: 0 <= i < 4 && HasMatch(old(subEventQueues[..])[i].queue, f)
    {
      ghost var was := subEventQueues[..];
      removed := false;
      var i := 0;
      while i < 4
        invariant i <= 4
        invariant forall j :: 0 <= j < i ==> subEventQueues[j] == SubWithout(was[j], f)
        invariant forall j :: i <= j < 4 ==> subEventQueues[j] == was[j]
        invariant removed <==> exists j :: 0 <= j < i && HasMatch(was[j].queue, f)
      {
        var q, hit := RemoveIf(subEventQueues[i].queue, f);
        subEventQueues[i] := subEventQueues[i].(queue := q, front := if |q| != 0 then q[0].handleTime else UINT64_MAX);
        removed := removed || hit;
        i := i + 1;
      }
      assert subEventQueues[..] == SubsWithout(was, f);
    }

    /** Remove(filter); `removed` is what the filter of Remove-by-name records. */
    method RemoveMatching(f: Filter) returns (removed: bool)
      requires Valid()
      modifies this`idleEvents, subEventQueues
      ensures Valid() && View() == Q.Remove(old(View()), f)
      ensures removed <==> old(usable) && exists p: Priority :: HasMatch(old(ListOf(View(), p)), f)
    {
      ghost var was := View();
      RemoveKeepsWellFormed(was, f);
      if !usable {
        return false;
      }
      removed := RemoveFromSubQueues(f);
      var q, hit := RemoveIf(idleEvents, f);
      idleEvents := q;
      assert hit ==> HasMatch(ListOf(was, IDLE), f);
      assert forall i: Priority :: i < 4 ==> HasMatch(ListOf(was, i), f) == HasMatch(was.sub[i].queue, f);
      removed := removed || hit;
    }

    /** Remove by owner and task name: without an owner or a name nothing happens. */
    method RemoveByName(owner: Option<nat>, name: string) returns (removed: bool)
      requires Valid()
      modifies this`idleEvents, subEventQueues
      ensures Valid()
      ensures owner.None? || name == "" ==> !removed && View() == old(View())
      ensures owner.Some? && name != "" ==>
                && View() == Q.Remove(old(View()), ByName(owner.value, name))
                && (removed <==> old(usable) && exists p: Priority ::
                      HasMatch(old(ListOf(View(), p)), ByName(owner.value, name)))
    {
      if owner.None? || |name| == 0 {
        return false;
      }
      removed := RemoveMatching(ByName(owner.value, name));
    }

    method RemoveAll()
      requires Valid()
      modifies this`idleEvents, subEventQueues
      ensures Valid() && View() == Q.RemoveAll(old(View()))
    {
      ghost var was := View();
      if !usable {
        return;
      }
      var i := 0;
      while i < 4
        invariant i <= 4
        invariant forall j :: 0 <= j < i ==> subEventQueues[j] == Cleared(was.sub[j])
        invariant forall j :: i <= j < 4 ==> subEventQueues[j] == was.sub[j]
      {
        subEventQueues[i] := subEventQueues[i].(queue := [], front := UINT64_MAX);
        i := i + 1;
      }
      idleEvents := [];
      assert subEventQueues[..] == Q.RemoveAll(was).sub;
    }

    /** The side effect of the orphan filter on an orphaned vsync task. */
    method DropOrphanVsync()
      modifies this`sumOfPendingVsync, this`isBarrierMode, this`enterBarrierTime, this`needEpoll
      ensures VsyncView() == DropVsyncs(old(VsyncView()), 1)
    {
      assert DecrementBy(sumOfPendingVsync, 1) == Decrement(DecrementBy(sumOfPendingVsync, 0));
      HandleVsyncTaskNotify();
      SetBarrierMode(false, 0);
      needEpoll := false;
    }

    /** One stable_partition with the orphan filter, whose side effect takes orphaned vsync tasks off
        the count; the events that stay and the ones that leave both keep their order. */
    method PartitionOrphans(q: seq<Event>, dead: set<nat>) returns (gone: seq<Event>, stay: seq<Event>)
      modifies this`sumOfPendingVsync, this`isBarrierMode, this`enterBarrierTime, this`needEpoll
      ensures gone == Matching(q, Orphan(dead)) && stay == Without(q, Orphan(dead))
      ensures VsyncView() == DropVsyncs(old(VsyncView()), VsyncCount(gone))
    {
      gone, stay := [], [];
      var i := 0;
      ghost var f := Orphan(dead);
      ghost var v := VsyncView();
      while i < |q|
        invariant i <= |q|
        invariant gone == Matching(q[..i], f) && stay == Without(q[..i], f)
        invariant VsyncView() == DropVsyncs(v, VsyncCount(gone))
      {
        assert q[..i + 1] == q[..i] + [q[i]];
        WithoutAppend(q[..i], q[i], f);
        MatchingAppend(q[..i], q[i], f);
        VsyncCountAppend(gone, [q[i]]);
        assert VsyncCount([q[i]]) == One(q[i].isVsync);
        if q[i].ownerId in dead {
          if q[i].isVsync {
            DropOrphanVsync();
            DropVsyncsTwice(v, VsyncCount(gone), 1);
          }
          gone := gone + [q[i]];
        } else {
          stay := stay + [q[i]];
        }
        i := i + 1;
      }
      assert q[..i] == q;
    }

    /** RemoveOrphan on one sub queue. */
    method RemoveOrphansFrom(i: nat, dead: set<nat>)
      requires subEventQueues.Length == 4 && i < 4
      modifies subEventQueues, this`sumOfPendingVsync, this`isBarrierMode, this`enterBarrierTime, this`needEpoll
      ensures subEventQueues[i] == SubWithout(old(subEventQueues[i]), Orphan(dead))
      ensures forall j :: 0 <= j < 4 && j != i ==> subEventQueues[j] == old(subEventQueues[j])
      ensures VsyncView() == DropVsyncs(old(VsyncView()), VsyncCount(Matching(old(subEventQueues[i]).queue, Orphan(dead))))
    {
      var gone, stay := PartitionOrphans(subEventQueues[i].queue, dead);
      subEventQueues[i] := subEventQueues[i].(queue := stay, front := if |stay| != 0 then stay[0].handleTime else UINT64_MAX);
    }

    /** The loop of RemoveOrphan over the sub queues. */
    method RemoveOrphansFromSubQueues(dead: set<nat>)
      requires subEventQueues.Length == 4
      modifies subEventQueues, this`sumOfPendingVsync, this`isBarrierMode, this`enterBarrierTime, this`needEpoll
      ensures forall j :: 0 <= j < 4 ==> subEventQueues[j] == SubWithout(old(subEventQueues[..])[j], Orphan(dead))
      ensures VsyncView() == DropVsyncs(old(VsyncView()), VsyncsBelow(old(subEventQueues[..]), Orphan(dead), 4))
    {
      ghost var was, v := subEventQueues[..], VsyncView();
      var i := 0;
      while i < 4
        invariant i <= 4
        invariant forall j :: 0 <= j < i ==> subEventQueues[j] == SubWithout(was[j], Orphan(dead))
        invariant forall j :: i <= j < 4 ==> subEventQueues[j] == was[j]
        invariant VsyncView() == DropVsyncs(v, VsyncsBelow(was, Orphan(dead), i))
      {
        DropVsyncsTwice(v, VsyncsBelow(was, Orphan(dead), i), VsyncCount(Matching(was[i].queue, Orphan(dead))));
        RemoveOrphansFrom(i, dead);
        i := i + 1;
      }
    }

    /** RemoveOrphan */
    method RemoveOrphan(dead: set<nat>)
      requires Valid()
      modifies this`idleEvents, subEventQueues
      modifies this`sumOfPendingVsync, this`isBarrierMode, this`enterBarrierTime, this`needEpoll
      ensures Valid() && View() == RemoveOrphans(old(View()), dead)
    {
      RemoveOrphansKeepsWellFormed(View(), dead);
      if usable {
        RemoveOrphansFromLists(dead);
      }
    }

    /** The part of RemoveOrphan under the lock. */
    method RemoveOrphansFromLists(dead: set<nat>)
      requires subEventQueues.Length == 4 && usable
      modifies this`idleEvents, subEventQueues
      modifies this`sumOfPendingVsync, this`isBarrierMode, this`enterBarrierTime, this`needEpoll
      ensures View() == RemoveOrphans(old(View()), dead)
    {
      ghost var was := View();
      ghost var m, n := VsyncsBelow(was.sub, Orphan(dead), 4), VsyncCount(Matching(was.idle, Orphan(dead)));
      DropVsyncsTwice(was.vs, m, n);
      RemoveOrphansFromSubQueues(dead);
      RemoveIdleOrphans(dead);
      SameRemoval(was, View(), dead, m + n);
    }

    method RemoveIdleOrphans(dead: set<nat>)
      modifies this`idleEvents, this`sumOfPendingVsync, this`isBarrierMode, this`enterBarrierTime, this`needEpoll
      ensures idleEvents == Without(old(idleEvents), Orphan(dead))
      ensures VsyncView() == DropVsyncs(old(VsyncView()), VsyncCount(Matching(old(idleEvents), Orphan(dead))))
    {
      var gone, stay := PartitionOrphans(idleEvents, dead);
      idleEvents := stay;
    }

    lemma SameRemoval(s: State, t: State, dead: set<nat>, n: nat)
      requires s.usable && n == OrphanVsyncs(s, dead) && t.vs == DropVsyncs(s.vs, n)
      requires forall j :: 0 <= j < 4 ==> t.sub[j] == SubWithout(s.sub[j], Orphan(dead))
      requires t == s.(sub := t.sub, idle := Without(s.idle, Orphan(dead)), vs := t.vs)
      ensures t == RemoveOrphans(s, dead)
    {
    }

    lemma {:induction false} DropVsyncsTwice(v: VsyncState, m: nat, n: nat)
      ensures DropVsyncs(DropVsyncs(v, m), n) == DropVsyncs(v, m + n)
    {
      DecrementTwice(v.pending, m, n);
    }

    lemma {:induction false} DecrementTwice(p: Int8, m: nat, n: nat)
      ensures DecrementBy(DecrementBy(p, m), n) == DecrementBy(p, m + n)
    {
      if n > 0 {
        DecrementTwice(p, m, n - 1);
      }
    }

    // -------------------------------------------------------------- picking

    method PickFirstVsyncEventLocked() returns (event: Option<Event>)
      requires subEventQueues.Length == 4
      modifies subEventQueues
      ensures View() == PickFirstVsync(old(View())).state && event == PickFirstVsync(old(View())).event
    {
      var k := FindIf(subEventQueues[VIP].queue, VsyncTask);
      if k < |subEventQueues[VIP].queue| {
        var e := PopEvent(VIP, k);
        event := Some(e);
      } else {
        event := None;
      }
    }

    /** Takes the event at position k out of a sub queue (splice, then pop_front). */
    method PopEvent(i: nat, k: nat) returns (event: Event)
      requires subEventQueues.Length == 4 && i < 4 && k < |subEventQueues[i].queue|
      modifies subEventQueues
      ensures event == old(subEventQueues[i]).queue[k]
      ensures subEventQueues[..] == PopAt(old(subEventQueues[..]), i, k)
    {
      var q := subEventQueues[i].queue;
      event := q[k];
      subEventQueues[i] := subEventQueues[i].(queue := q[..k] + q[k + 1..]);
    }

    /** CheckEventInListLocked or CheckBarrierTaskInListLocked, by mode. */
    method CheckList(q: seq<Event>, now: Instant, nextWakeUpTime: TimePoint) returns (c: Check)
      ensures c == CheckQueue(q, isBarrierMode, now, nextWakeUpTime)
    {
      if isBarrierMode {
        c := CheckBarrierTaskInListLocked(q, now, nextWakeUpTime);
      } else {
        c := Check(false, nextWakeUpTime);
        if |q| != 0 {
          var handleTime := q[0].handleTime;
          if handleTime < nextWakeUpTime {
            c := Check(handleTime <= now, handleTime);
          }
        }
      }
    }

    /** The scan of PickEventLocked: the first of the passing queues that has turns left, or the last
        passing queue; a queue that takes the turn of a lower one pays with its counter. */
    method ScanSubQueues(now: Instant) returns (priorityIndex: nat, wakeUp: TimePoint)
      requires subEventQueues.Length == 4
      modifies subEventQueues
      ensures var scan := ScanAll(old(View()), now);
        && priorityIndex == scan.index && wakeUp == scan.wakeUp
        && subEventQueues[..] == Bump(old(subEventQueues[..]), scan.bumped)
    {
      ghost var sub := subEventQueues[..];
      priorityIndex, wakeUp := 4, MAX_TIME;
      var i := 0;
      while i < 4
        invariant i <= 4 && (priorityIndex < i || priorityIndex == 4)
        invariant subEventQueues[..] == sub
        invariant ScanFrom(sub, isBarrierMode, now, i, priorityIndex, wakeUp) == ScanAll(old(View()), now)
      {
        var c := CheckList(subEventQueues[i].queue, now, wakeUp);
        wakeUp := c.wakeUp;
        if !c.hit {
          i := i + 1;
          continue;
        }
        if priorityIndex < 4 {
          if subEventQueues[priorityIndex].handled < MAX_HANDLED {
            subEventQueues[priorityIndex] :=
              subEventQueues[priorityIndex].(handled := subEventQueues[priorityIndex].handled + 1);
            return;
          }
        }
        priorityIndex := i;
        i := i + 1;
      }
    }

    /** Resets the counters of all higher-priority queues. */
    method ResetCounters(priorityIndex: nat)
      requires subEventQueues.Length == 4 && priorityIndex < 4
      modifies subEventQueues
      ensures subEventQueues[..] == ResetBelow(old(subEventQueues[..]), priorityIndex)
    {
      var i := 0;
      while i < priorityIndex
        invariant i <= priorityIndex
        invariant forall j :: 0 <= j < i ==> subEventQueues[j] == old(subEventQueues[..])[j].(handled := 0)
        invariant forall j :: i <= j < 4 ==> subEventQueues[j] == old(subEventQueues[..])[j]
      {
        subEventQueues[i] := subEventQueues[i].(handled := 0);
        i := i + 1;
      }
    }

    method ScanAndNoteWakeUp(now: Instant) returns (priorityIndex: nat)
      requires subEventQueues.Length == 4
      modifies this`wakeUpTime, subEventQueues
      ensures priorityIndex == ScanAll(old(View()), now).index && View() == BeforePop(old(View()), now, false)
    {
      var wakeUp;
      priorityIndex, wakeUp := ScanSubQueues(now);
      wakeUpTime := wakeUp;
    }

    /** PickEventLocked, which writes the earliest time it saw to wakeUpTime. */
    method PickEventLocked(now: Instant) returns (event: Option<Event>)
      requires subEventQueues.Length == 4
      modifies this`wakeUpTime, subEventQueues
      ensures View() == Pick(old(View()), now).state && event == Pick(old(View()), now).event
    {
      var priorityIndex := ScanAndNoteWakeUp(now);
      event := PickAfterScan(priorityIndex);
    }

    /** The rest of PickEventLocked: the vsync override, then the chosen queue. */
    method PickAfterScan(priorityIndex: nat) returns (event: Option<Event>)
      requires subEventQueues.Length == 4
      modifies subEventQueues
      ensures var p := Q.PickAfterScan(old(View()), priorityIndex); View() == p.state && event == p.event
    {
      if priorityIndex >= HIGH && sumOfPendingVsync != 0 && !needEpoll {
        event := PickFirstVsyncEventLocked();
        if event.Some? {
          return;
        }
      }
      if priorityIndex >= 4 {
        return None;
      }
      ResetCounters(priorityIndex);
      event := PopChosen(priorityIndex);
    }

    /** PopFrontBarrierEventFromListLocked or PopFrontEventFromListLocked, by mode. */
    method PopChosen(i: nat) returns (event: Option<Event>)
      requires subEventQueues.Length == 4 && i < 4
      modifies subEventQueues
      ensures var q := old(subEventQueues[i]).queue; var k := PopPosition(q, isBarrierMode);
        && event == (if k < |q| then Some(q[k]) else None)
        && subEventQueues[..] == (if k < |q| then PopAt(old(subEventQueues[..]), i, k) else old(subEventQueues[..]))
    {
      var k := 0;
      if isBarrierMode {
        k := FindIf(subEventQueues[i].queue, BarrierTask);
      }
      if k < |subEventQueues[i].queue| {
        var e := PopEvent(i, k);
        event := Some(e);
      } else {
        event := None;
      }
    }

    /** GetExpiredEventLocked: the picked event's own priority says whose front time to refresh. */
    method GetExpiredEventLocked(now: Instant, later: Instant) returns (event: Option<Event>, nextExpiredTime: TimePoint)
      requires Valid()
      modifies this`wakeUpTime, this`isIdle, this`idleTimeStamp, this`idleEvents, subEventQueues
      ensures Valid()
      ensures var x := GetExpired(old(View()), now, later);
        View() == x.state && event == x.event && (event.None? ==> nextExpiredTime == x.next)
    {
      ghost var was := View();
      PickKeeps(was, now);
      PickCases(was, now);
      GetExpiredKeeps(was, now, later);
      event := PickEventLocked(now);
      if event.Some? {
        NotePickedEvent(Pick(was, now), event.value.priority, now, later);
        return event, MAX_TIME;
      }
      event, nextExpiredTime := TakeIdleEvent(Pick(was, now), now, later);
    }

    /** What GetExpiredEventLocked does with an event that was picked. */
    method NotePickedEvent(ghost p: Picked, prio: int, now: Instant, later: Instant)
      requires subEventQueues.Length == 4 && View() == p.state && p.event.Some?
      requires 0 <= prio < 4 && prio == if p.kind.QueuePick? then p.kind.from else VIP
      modifies this`isIdle, subEventQueues
      ensures View() == AfterPick(p, now, later).state
    {
      RefreshFrontOf(prio);
      isIdle := false;
    }

    method RefreshFrontOf(prio: int)
      requires subEventQueues.Length == 4 && 0 <= prio < 4
      modifies subEventQueues
      ensures subEventQueues[..] == RefreshFront(old(subEventQueues[..]), prio)
    {
      var q := subEventQueues[prio].queue;
      subEventQueues[prio] := subEventQueues[prio].(front := if |q| == 0 then UINT64_MAX else q[0].handleTime);
    }

    /** The second half of GetExpiredEventLocked, when nothing was picked. */
    method TakeIdleEvent(ghost p: Picked, now: Instant, later: Instant)
      returns (event: Option<Event>, nextExpiredTime: TimePoint)
      requires subEventQueues.Length == 4 && View() == p.state && p.event.None?
      modifies this`isIdle, this`idleTimeStamp, this`idleEvents
      ensures var x := AfterPick(p, now, later);
        View() == x.state && event == x.event && (event.None? ==> nextExpiredTime == x.next)
    {
      if !isIdle {
        idleTimeStamp := now;
        isIdle := true;
      }
      ghost var t := StampIdle(p.state, now);
      assert View() == t;
      event := PopIdle(now);
      nextExpiredTime := if event.Some? then MAX_TIME else if sumOfPendingVsync != 0 then later else wakeUpTime;
    }

    /** Takes the idle event that may leave now, if there is one. */
    method PopIdle(now: Instant) returns (event: Option<Event>)
      requires subEventQueues.Length == 4
      modifies this`idleEvents
      ensures var k := IdlePosition(old(View()), now);
        && event == (if k < |old(idleEvents)| then Some(old(idleEvents)[k]) else None)
        && idleEvents == (if k < |old(idleEvents)| then RemoveAt(old(idleEvents), k) else old(idleEvents))
    {
      var k := |idleEvents|;
      if isBarrierMode {
        k := FindIf(idleEvents, BarrierTaskBy(idleTimeStamp, now));
      } else if |idleEvents| != 0 && idleEvents[0].sendTime <= idleTimeStamp && idleEvents[0].handleTime <= now {
        k := 0;
      }
      if k < |idleEvents| {
        event := Some(idleEvents[k]);
        idleEvents := idleEvents[..k] + idleEvents[k + 1..];
      } else {
        event := None;
      }
    }

    // -------------------------------------------------------------- the loop of GetEvent

    /** GetEvent from taking the lock to returning an event, finding the queue finished, or going to
        sleep; r0 and r1 are the readings of the first two rounds. The loop takes at most two rounds, because only a
        repair starts it again and a repair leaves nothing to repair. */
    method GetEvent(r0: Readings, r1: Readings) returns (outcome: Option<Outcome>)
      requires Valid()
      modifies this, subEventQueues
      ensures Valid() && Answer(View(), outcome) == UntilWait(old(View()), r0, r1)
    {
      ghost var was := View();
      var round := 0;
      outcome := None;
      while !finished
        invariant Valid() && (round == 0 || round == 1)
        invariant round == 0 ==> View() == was
        invariant round == 1 ==>
                    !finished && sumOfPendingVsync == 0 && UntilWait(was, r0, r1) == AnswerOf(GetEventRound(View(), r1))
        decreases if sumOfPendingVsync != 0 then 1 else 0
      {
        var o := OneRound(if round == 0 then r0 else r1);
        if !o.Repaired? {
          return Some(o);
        }
        round := round + 1;
      }
    }

    /** The body of that loop. */
    method OneRound(r: Readings) returns (outcome: Outcome)
      requires Valid()
      modifies this, subEventQueues
      ensures Valid() && View() == GetEventRound(old(View()), r).state && outcome == GetEventRound(old(View()), r).outcome
      ensures finished == old(finished)
      ensures outcome.Repaired? ==> old(sumOfPendingVsync) != 0 && sumOfPendingVsync == 0
      ensures outcome.Repaired? ==> GetEventRound(old(View()), r) == Q.Round(View(), Repaired, Nothing)
    {
      RoundKeeps(View(), r);
      CheckBarrierMode(r.check, r.stamp);
      ghost var was := View();
      GetExpiredKeeps(was, r.pick, r.next);
      var event, nextWakeUpTime := GetExpiredEventLocked(r.pick, r.next);
      outcome := DecideOutcome(GetExpired(was, r.pick, r.next), event, nextWakeUpTime, r.poll);
    }

    /** What GetEvent does once GetExpiredEventLocked has answered. */
    method DecideOutcome(ghost x: Expired, event: Option<Event>, nextWakeUpTime: TimePoint, now: Instant)
      returns (outcome: Outcome)
      requires subEventQueues.Length == 4 && View() == x.state && event == x.event
      requires event.None? ==> nextWakeUpTime == x.next
      modifies this`sumOfPendingVsync, this`isBarrierMode, this`enterBarrierTime, subEventQueues
      ensures View() == Decide(x, now).state && outcome == Decide(x, now).outcome
      ensures outcome.Repaired? ==> old(sumOfPendingVsync) != 0 && sumOfPendingVsync == 0 && Decide(x, now).source == Nothing
    {
      if event.Some? {
        if !isLazyMode && sumOfPendingVsync == 0 && (needEpoll || vsyncCheckTime < now) {
          return PollThenReturn(event.value, needEpoll);
        }
        return Return(event.value);
      } else if sumOfPendingVsync != 0 {
        var vsync := PickFirstVsyncEventLocked();
        if vsync.Some? {
          return Direct(vsync.value);
        }
        sumOfPendingVsync := 0;
        SetBarrierMode(false, 0);
        return Repaired;
      }
      return Sleep(nextWakeUpTime);
    }

    // -------------------------------------------------------------- starting and stopping

    method Prepare()
      modifies this`finished
      ensures finished == (old(finished) && !usable)
    {
      if !usable {
        return;
      }
      finished := false;
    }

    method Finish()
      modifies this`finished, ioWaiter
      ensures finished == (old(finished) || usable)
      ensures ioWaiter.pred == (old(ioWaiter.pred) || usable)
    {
      if !usable {
        return;
      }
      finished := true;
      ioWaiter.NotifyAll();
    }
  }
}
