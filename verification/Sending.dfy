/** How events are prepared for the queue: send and handle times, and the route of a vsync task from
    its file descriptor to the VIP queue. */
module Sending {
  import opened Events
  import opened EventLists
  import opened VsyncAccounting
  import opened QueueState
  import opened PickPolicy
  import opened RoundPolicy
  import opened Ordering

  const UINT32_MAX: int := 0xFFFF_FFFF

  /** The times and the owner that SendEvent writes; a delay that is not positive means now. */
  function Addressed(e: Event, ownerId: nat, delay: int, now: Instant): Event
    requires delay > 0 ==> now + delay * NANOSECONDS_PER_MILLISECOND <= MAX_TIME
  {
    e.(sendTime := now,
       handleTime := if delay > 0 then now + delay * NANOSECONDS_PER_MILLISECOND else now,
       ownerId := ownerId)
  }

  /** AddFileDescriptorByFd: a listener that is a vsync listener when it is registered posts at VIP, whatever
      was asked for. */
  function ListenerPriority(isVsyncListener: bool, requested: Priority): Priority {
    if isVsyncListener then VIP else requested
  }

  /** PostTaskForVsync: a fresh task, marked, sent with the largest delay. */
  function VsyncTaskEvent(id: nat, name: string, ownerId: nat, now: Instant): Event
    requires now + UINT32_MAX * NANOSECONDS_PER_MILLISECOND <= MAX_TIME
  {
    Addressed(Event(id, now, now, -1, true, false, 0, true, name, 0, 0, false), ownerId, UINT32_MAX, now)
  }

  /** The task that HandleFileDescriptorEvent posts: the type of the listener is read again at each event. */
  function PostedEvent(isVsyncTask: bool, id: nat, name: string, ownerId: nat, now: Instant): Event
    requires now + UINT32_MAX * NANOSECONDS_PER_MILLISECOND <= MAX_TIME
  {
    if isVsyncTask then VsyncTaskEvent(id, name, ownerId, now)
    else Addressed(Event(id, now, now, -1, false, false, 0, true, name, 0, 0, false), ownerId, 0, now)
  }

  /** The route of a task from its file descriptor obeys the discipline that the count depends on exactly
      when it is not a vsync task, or the listener was a vsync listener already when it was registered (or
      asked for VIP anyway) and the int8 counter has room. */
  lemma VsyncRouteIsDisciplined(s: State, registered: bool, posted: bool, requested: Priority,
                                id: nat, name: string, ownerId: nat, now: Instant)
    requires now + UINT32_MAX * NANOSECONDS_PER_MILLISECOND <= MAX_TIME
    ensures Disciplined(s, PostedEvent(posted, id, name, ownerId, now), ListenerPriority(registered, requested)) <==>
              (posted ==> (registered || requested == VIP) && s.vs.pending < 127)
  {
  }

  /** A round resets the count exactly when nothing can leave by the pick or from the idle list and VIP holds no
      vsync task; it then forgets a vsync task exactly when some other list holds one. */
  lemma RepairForgetsExactly(s: State, r: Readings)
    requires WellFormed(s)
    ensures GetEventRound(s, r).outcome.Repaired? <==> LeadsToRepair(s, r)
    ensures LeadsToRepair(s, r) ==>
      var t := GetEventRound(s, r).state;
      && t.vs.pending == 0
      && ((exists p: Priority, e :: e in ListOf(t, p) && e.isVsync) <==>
          (exists p: Priority, e :: p != VIP && e in ListOf(s, p) && e.isVsync))
  {
    RoundEndings(s, r);
    if LeadsToRepair(s, r) {
      RepairForgets(s, r);
    }
  }

  lemma RepairForgets(s: State, r: Readings)
    requires GetEventRound(s, r).outcome.Repaired?
    ensures var t := GetEventRound(s, r).state;
      && t.vs.pending == 0
      && ((exists p: Priority, e :: e in ListOf(t, p) && e.isVsync) <==>
          (exists p: Priority, e :: p != VIP && e in ListOf(s, p) && e.isVsync))
  {
    var t := GetEventRound(s, r).state;
    forall p: Priority ensures ListOf(t, p) == ListOf(s, p) {
      QuietRoundKeepsLists(s, r, p);
    }
    RepairedWithoutVsync(GetExpired(PickState(s, r), r.pick, r.next), r.poll);
    forall e | e in ListOf(t, VIP) ensures !e.isVsync {
      var i :| 0 <= i < |t.sub[VIP].queue| && t.sub[VIP].queue[i] == e;
      assert !VsyncTask.Holds(t.sub[VIP].queue[i]);
    }
  }

  lemma RepairedWithoutVsync(x: Expired, poll: Instant)
    ensures var d := Decide(x, poll);
      d.outcome.Repaired? ==>
        d.state.vs.pending == 0 && FirstIndex(d.state.sub[VIP].queue, VsyncTask) == |d.state.sub[VIP].queue|
  {
  }

  /** Such a task gets there when a listener becomes a vsync listener only after it was registered: with
      nothing due and no other vsync task, the next round resets the count and leaves the task queued. */
  lemma RetypedListenerIsForgotten(s: State, requested: Priority, id: nat, name: string, ownerId: nat, sent: Instant,
                                   option: BarrierOption, sender: Sender, r: Readings)
    requires sent + UINT32_MAX * NANOSECONDS_PER_MILLISECOND <= MAX_TIME
    requires WellFormed(s) && s.usable && s.vs.pending == 0 && s.idle == [] && VsyncCount(s.sub[VIP].queue) == 0
    requires forall i :: 0 <= i < 4 ==> !HasDue(s.sub[i].queue, r.pick)
    requires r.pick < sent + UINT32_MAX * NANOSECONDS_PER_MILLISECOND && VIP < requested < IDLE
    ensures var e := PostedEvent(true, id, name, ownerId, sent);
      var inserted := Insert(s, e, ListenerPriority(false, requested), AtEnd, option, sender, sent);
      var d := GetEventRound(inserted.state, r);
      && inserted.state.vs.pending == 1 && inserted.stored.isVsync
      && d.outcome == Repaired && d.state.vs.pending == 0
      && inserted.stored in d.state.sub[requested].queue
  {
    var e := PostedEvent(true, id, name, ownerId, sent);
    var m := Marked(e, option, sender).(priority := requested);
    var t := Insert(s, e, requested, AtEnd, option, sender, sent).state;
    InsertKeepsWellFormed(s, e, requested, AtEnd, option, sender, sent);
    InsertKeepsContents(s.sub[requested].queue, m, AtEnd);
    forall i | 0 <= i < 4 ensures !HasDue(t.sub[i].queue, r.pick) {
      assert i != requested ==> t.sub[i].queue == s.sub[i].queue;
    }
    EmptyHandedRound(t, r);
  }

  /** A vsync task is not picked for its handle time within the 49 days of its delay: a pick hands it
      out only by the vsync override. */
  lemma VsyncTaskLeavesByOverride(s: State, id: nat, name: string, ownerId: nat, sent: Instant,
                                  option: BarrierOption, sender: Sender, now: Instant)
    requires sent + UINT32_MAX * NANOSECONDS_PER_MILLISECOND <= MAX_TIME
    requires WellFormed(s) && now < sent + UINT32_MAX * NANOSECONDS_PER_MILLISECOND
    ensures var m := Marked(VsyncTaskEvent(id, name, ownerId, sent), option, sender).(priority := VIP);
      !m.isBarrier && (Pick(s, now).event == Some(m) ==> Pick(s, now).kind.VsyncPick?)
  {
    PickChoice(s, now);
  }

  /** A delay is kept: an event that was sent to the end of its queue leaves, unless it is a vsync task, only in a round
      that picks at its delay after the sending or later; without a delay it is due at once. */
  lemma DelayIsKept(s: State, e: Event, ownerId: nat, delay: int, sent: Instant, p: Priority, option: BarrierOption,
                    sender: Sender, now: Instant, t: State, r: Readings)
    requires delay > 0 ==> sent + delay * NANOSECONDS_PER_MILLISECOND <= MAX_TIME
    requires WellFormed(t) && !e.isVsync
    ensures var stored := Insert(s, Addressed(e, ownerId, delay, sent), p, AtEnd, option, sender, now).stored;
      && stored.ownerId == ownerId && stored.sendTime == sent
      && (Taken(GetEventRound(t, r).outcome) == Some(stored) ==>
            r.pick >= sent + (if delay > 0 then delay * NANOSECONDS_PER_MILLISECOND else 0))
      && (delay <= 0 && p < 4 && stored in t.sub[p].queue && sent <= r.pick && !PickState(t, r).vs.barrier ==>
            Taken(GetEventRound(t, r).outcome).Some?)
  {
    HandedOutIsDue(t, r);
    SentAtEnd(s, Addressed(e, ownerId, delay, sent), p, option, sender, now);
    var stored := Insert(s, Addressed(e, ownerId, delay, sent), p, AtEnd, option, sender, now).stored;
    if delay <= 0 && p < 4 && stored in t.sub[p].queue && sent <= r.pick && !PickState(t, r).vs.barrier {
      DueIsServed(t, r, p, stored);
    }
  }

  lemma SentAtEnd(s: State, e: Event, p: Priority, option: BarrierOption, sender: Sender, now: Instant)
    ensures var stored := Insert(s, e, p, AtEnd, option, sender, now).stored;
      stored.handleTime == e.handleTime && stored.sendTime == e.sendTime
      && stored.ownerId == e.ownerId && stored.isVsync == e.isVsync
  {
  }

  /** Exactly which events are stored as barrier tasks, for an event that SendEvent has addressed: under the default
      policy the ones that the main thread sends without delay to an owner on the main runner; without
      default barriers the ones with a forced barrier, the ones of that kind that ask for it, and the ones
      that carried VIP from an earlier insertion; and none when vsync-first scheduling is disabled. A vsync
      task never is, and a mark that an event already has stays. */
  lemma MarkedExactly(s: State, e: Event, ownerId: nat, delay: int, sent: Instant, p: Priority, at: InsertType,
                      option: BarrierOption, sender: Sender, now: Instant)
    requires s.usable && (delay > 0 ==> sent + delay * NANOSECONDS_PER_MILLISECOND <= MAX_TIME)
    ensures var direct := delay <= 0 && sender.onMainThread && sender.ownerOnMainRunner;
      Insert(s, Addressed(e, ownerId, delay, sent), p, at, option, sender, now).stored.isBarrier <==>
        e.isBarrier ||
        (!e.isVsync &&
         match sender.policy
         case FirstWithDefaultBarrier => direct
         case FirstWithoutDefaultBarrier => option == ForceBarrier || (option == NeedBarrier && direct) || e.priority == VIP
         case DisableVsyncFirst => false)
  {
  }

  /** What the mark achieves: a task that the main thread sends to itself without delay under the default policy is
      not held back by barrier mode. As long as it is queued in its sub queue, every later round in barrier
      mode hands something out. */
  lemma DirectTaskPassesBarrier(s: State, e: Event, ownerId: nat, delay: int, sent: Instant, p: Priority, at: InsertType,
                                option: BarrierOption, sender: Sender, now: Instant, t: State, r: Readings)
    requires s.usable && delay <= 0 && !e.isVsync && sender == Sender(true, true, FirstWithDefaultBarrier) && p < 4
    requires WellFormed(t) && PickState(t, r).vs.barrier && sent <= r.pick
    requires Insert(s, Addressed(e, ownerId, delay, sent), p, at, option, sender, now).stored in t.sub[p].queue
    ensures Taken(GetEventRound(t, r).outcome).Some? && GetEventRound(t, r).source.FromPick?
  {
    var stored := Insert(s, Addressed(e, ownerId, delay, sent), p, at, option, sender, now).stored;
    MarkedExactly(s, e, ownerId, delay, sent, p, at, option, sender, now);
    InsertedEvent(s, Addressed(e, ownerId, delay, sent), p, at, option, sender, now);
    assert stored.isBarrier && stored.handleTime <= r.pick;
    BarrierProgress(t, r, p);
  }

  /** The VIP clause of the barrier mark looks at the priority of an earlier insertion, because Insert
      sets the priority only afterwards. An event that is sent without a barrier option under
      vsync-first scheduling is marked exactly when it already carried VIP from before; a fresh one,
      whose priority is -1, never is, at whatever priority it is sent. */
  lemma VipMarkNeedsEarlierPriority(s: State, e: Event, p: Priority, at: InsertType, sender: Sender, now: Instant)
    requires s.usable && sender.policy == FirstWithoutDefaultBarrier && !e.isBarrier && !e.isVsync
    ensures Insert(s, e, p, at, NoBarrier, sender, now).stored.isBarrier <==> e.priority == VIP
  {
  }
}
