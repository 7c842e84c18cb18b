/** The state of EventQueueBase as a value, what each operation does to it, and what every operation
    keeps. The class EventQueueBase implements these functions in place. */
module QueueState {
  import opened Events
  import opened EventLists
  import opened Vsync

  datatype SubQueue = SubQueue(queue: seq<Event>, handled: nat, front: int)

  const EMPTY_SUB_QUEUE: SubQueue := SubQueue([], 0, UINT64_MAX)

  type SubQueues = s: seq<SubQueue> | |s| == SUB_EVENT_QUEUE_NUM
    witness [SubQueue([], 0, 0), SubQueue([], 0, 0), SubQueue([], 0, 0), SubQueue([], 0, 0)]

  datatype State = State(
    sub: SubQueues,
    idle: seq<Event>,
    wakeUp: TimePoint,
    isIdle: bool,
    idleStamp: TimePoint,
    finished: bool,
    usable: bool,
    vs: VsyncState)

  /** The state after construction at time `now`. */
  function InitialState(now: Instant): State {
    State([EMPTY_SUB_QUEUE, EMPTY_SUB_QUEUE, EMPTY_SUB_QUEUE, EMPTY_SUB_QUEUE],
          [], MAX_TIME, true, now, true, true, InitialVsync)
  }

  // ---------------------------------------------------------------- invariants of one queue

  ghost predicate SubQueueOk(sq: SubQueue, i: nat) {
    && Sorted(sq.queue)
    && (forall e :: e in sq.queue ==> e.priority == i && sq.front <= e.handleTime)
    && sq.handled <= MAX_HANDLED
    && sq.front <= UINT64_MAX
  }

  /** Every list is sorted, every event carries the priority of its list, no counter exceeds the
      limit, and the cached front time never exceeds a handle time of its list. */
  ghost predicate WellFormed(s: State) {
    && (forall i :: 0 <= i < 4 ==> SubQueueOk(s.sub[i], i))
    && Sorted(s.idle)
    && (forall e :: e in s.idle ==> e.priority == IDLE)
  }

  ghost predicate FrontExact(sq: SubQueue) {
    sq.front == FrontTime(sq.queue)
  }

  /** Vsync tasks are queued at VIP only and are never barrier tasks. */
  ghost predicate PlacedIn(q: seq<Event>, p: nat) {
    forall e :: e in q && e.isVsync ==> p == VIP && !e.isBarrier
  }

  ghost predicate VsyncPlaced(s: State) {
    && (forall i :: 0 <= i < 4 ==> PlacedIn(s.sub[i].queue, i))
    && PlacedIn(s.idle, IDLE)
  }

  /** How often the event e is queued, over all lists. */
  ghost function Copies(s: State, e: Event): nat {
    multiset(s.sub[0].queue)[e] + multiset(s.sub[1].queue)[e] + multiset(s.sub[2].queue)[e]
    + multiset(s.sub[3].queue)[e] + multiset(s.idle)[e]
  }

  /** The list of one priority. */
  function ListOf(s: State, p: Priority): seq<Event> {
    if p < 4 then s.sub[p].queue else s.idle
  }

  // ---------------------------------------------------------------- insertion

  /** Who sends: whether it is the application's main thread, whether the owner of the event runs on the
      main runner, and the policy that Insert reads before it takes the lock. */
  datatype Sender = Sender(onMainThread: bool, ownerOnMainRunner: bool, policy: VsyncPolicy)

  /** MarkBarrierTaskIfNeed */
  function NeedsBarrierMark(e: Event, option: BarrierOption, sender: Sender): bool {
    match sender.policy
    case FirstWithoutDefaultBarrier =>
      (option.ForceBarrier? || e.priority == VIP ||
       (option.NeedBarrier? && sender.onMainThread && e.handleTime == e.sendTime && sender.ownerOnMainRunner))
      && !e.isVsync
    case FirstWithDefaultBarrier =>
      sender.onMainThread && e.handleTime == e.sendTime && sender.ownerOnMainRunner && !e.isVsync
    case DisableVsyncFirst => false
  }

  function Marked(e: Event, option: BarrierOption, sender: Sender): Event {
    if NeedsBarrierMark(e, option, sender) then e.(isBarrier := true) else e
  }

  datatype InsertResult = InsertResult(state: State, ok: bool, notify: bool, stored: Event)

  function InsertInto(sq: SubQueue, e: Event, at: InsertType): SubQueue {
    var q := InsertAt(sq.queue, e, at);
    sq.(queue := q, front := FrontTime(q))
  }

  /** The event m put into the list of priority p; a vsync task is announced. */
  function Placed(s: State, m: Event, p: Priority, at: InsertType, now: Instant): State {
    if p < 4 then
      s.(sub := s.sub[p := InsertInto(s.sub[p], m, at)], vs := if m.isVsync then Dispatch(s.vs, now) else s.vs)
    else s.(idle := InsertAt(s.idle, m, at))
  }

  /** Whether an insertion asks for a notification. */
  function NeedsNotify(s: State, m: Event, p: Priority, now: Instant): bool {
    p < 4 && (m.handleTime < s.wakeUp || s.wakeUp < now || m.isVsync)
  }

  /** The part of Insert under the lock. */
  function InsertLocked(s: State, marked: Event, p: Priority, at: InsertType, now: Instant): InsertResult {
    if !s.usable then InsertResult(s, false, false, marked)
    else
      var m := marked.(priority := p);
      InsertResult(Placed(s, m, p, at, now), true, NeedsNotify(s, m, p, now), Stored(ListOf(s, p), m, at))
  }

  /** Insert: the barrier mark is decided before the lock is taken and before the priority is set. */
  function Insert(s: State, e: Event, p: Priority, at: InsertType, option: BarrierOption, sender: Sender,
                  now: Instant): InsertResult
  {
    InsertLocked(s, Marked(e, option, sender), p, at, now)
  }

  // ---------------------------------------------------------------- removal

  function SubWithout(sq: SubQueue, f: Filter): SubQueue {
    var q := Without(sq.queue, f);
    sq.(queue := q, front := FrontTime(q))
  }

  function SubsWithout(sub: SubQueues, f: Filter): (r: SubQueues)
    ensures forall i :: 0 <= i < 4 ==> r[i] == SubWithout(sub[i], f)
  {
    [SubWithout(sub[0], f), SubWithout(sub[1], f), SubWithout(sub[2], f), SubWithout(sub[3], f)]
  }

  /** Remove(filter) */
  function Remove(s: State, f: Filter): State {
    if !s.usable then s else s.(sub := SubsWithout(s.sub, f), idle := Without(s.idle, f))
  }

  function Cleared(sq: SubQueue): SubQueue {
    sq.(queue := [], front := UINT64_MAX)
  }

  /** RemoveAll */
  function RemoveAll(s: State): State {
    if !s.usable then s
    else s.(sub := [Cleared(s.sub[0]), Cleared(s.sub[1]), Cleared(s.sub[2]), Cleared(s.sub[3])], idle := [])
  }

  function DecrementBy(p: Int8, n: nat): Int8 {
    if n == 0 then p else Decrement(DecrementBy(p, n - 1))
  }

  /** What the orphan filter does for n orphaned vsync tasks. */
  function DropVsyncs(v: VsyncState, n: nat): VsyncState {
    if n == 0 then v
    else v.(pending := DecrementBy(v.pending, n), barrier := false, enterBarrierTime := MAX_TIME, needEpoll := false)
  }

  /** RemoveOrphan: like Remove, but orphaned vsync tasks are also taken off the count. */
  function RemoveOrphans(s: State, dead: set<nat>): State {
    if !s.usable then s
    else Remove(s, Orphan(dead)).(vs := DropVsyncs(s.vs, OrphanVsyncs(s, dead)))
  }

  /** The vsync tasks among the matching events of the first i sub queues. */
  function VsyncsBelow(sub: SubQueues, f: Filter, i: nat): nat
    requires i <= 4
  {
    if i == 0 then 0 else VsyncsBelow(sub, f, i - 1) + VsyncCount(Matching(sub[i - 1].queue, f))
  }

  function OrphanVsyncs(s: State, dead: set<nat>): nat {
    VsyncsBelow(s.sub, Orphan(dead), 4) + VsyncCount(Matching(s.idle, Orphan(dead)))
  }

  // ---------------------------------------------------------------- picking

  function CheckQueue(q: seq<Event>, barrier: bool, now: Instant, wakeUp: TimePoint): Check {
    if barrier then CheckBarrier(q, now, wakeUp) else CheckEvent(q, now, wakeUp)
  }

  /** The result of the scan over the sub queues: the chosen index (4 if none), the earliest time
      seen, and the index whose counter was incremented (4 if none). */
  datatype Scan = Scan(index: nat, wakeUp: TimePoint, bumped: nat)

  function ScanFrom(sub: SubQueues, barrier: bool, now: Instant, i: nat, candidate: nat, wakeUp: TimePoint): (r: Scan)
    requires i <= 4 && (candidate < i || candidate == 4)
    ensures r.index <= 4 && (r.bumped == 4 || r.bumped == r.index)
    decreases 4 - i
  {
    if i == 4 then Scan(candidate, wakeUp, 4)
    else
      var c := CheckQueue(sub[i].queue, barrier, now, wakeUp);
      if !c.hit then ScanFrom(sub, barrier, now, i + 1, candidate, c.wakeUp)
      else if candidate < 4 && sub[candidate].handled < MAX_HANDLED then Scan(candidate, c.wakeUp, candidate)
      else ScanFrom(sub, barrier, now, i + 1, i, c.wakeUp)
  }

  function ScanAll(s: State, now: Instant): Scan {
    ScanFrom(s.sub, s.vs.barrier, now, 0, 4, MAX_TIME)
  }

  /** The sub queues after the scan incremented a counter. */
  function Bump(sub: SubQueues, k: nat): (r: SubQueues)
    ensures forall i :: 0 <= i < 4 ==> r[i] == sub[i].(handled := sub[i].handled + One(i == k))
  {
    if k < 4 then sub[k := sub[k].(handled := sub[k].handled + 1)] else sub
  }

  /** The counters of all queues of a higher priority than k start again. */
  function ResetBelow(sub: SubQueues, k: nat): (r: SubQueues)
    ensures forall i :: 0 <= i < 4 ==> r[i] == sub[i].(handled := if i < k then 0 else sub[i].handled)
  {
    [if 0 < k then sub[0].(handled := 0) else sub[0], if 1 < k then sub[1].(handled := 0) else sub[1],
     if 2 < k then sub[2].(handled := 0) else sub[2], if 3 < k then sub[3].(handled := 0) else sub[3]]
  }

  datatype PickKind = NoPick | VsyncPick | QueuePick(from: nat)

  datatype Picked = Picked(state: State, event: Option<Event>, kind: PickKind)

  function PopAt(sub: SubQueues, i: nat, k: nat): SubQueues
    requires i < 4 && k < |sub[i].queue|
  {
    sub[i := sub[i].(queue := RemoveAt(sub[i].queue, k))]
  }

  /** PickFirstVsyncEventLocked */
  function PickFirstVsync(s: State): Picked {
    var k := FirstIndex(s.sub[VIP].queue, VsyncTask);
    if k < |s.sub[VIP].queue|
    then Picked(s.(sub := PopAt(s.sub, VIP, k)), Some(s.sub[VIP].queue[k]), VsyncPick)
    else Picked(s, None, NoPick)
  }

  /** The position that is popped from the chosen sub queue. */
  function PopPosition(q: seq<Event>, barrier: bool): nat {
    if barrier then FirstIndex(q, BarrierTask) else 0
  }

  /** PickEventLocked after its scan has chosen the sub queue `index`. */
  function PickAfterScan(s: State, index: nat): Picked {
    var vsync := PickFirstVsync(s);
    if index >= HIGH && s.vs.pending != 0 && !s.vs.needEpoll && vsync.event.Some? then vsync
    else if index >= 4 then Picked(s, None, NoPick)
    else
      var t := s.(sub := ResetBelow(s.sub, index));
      var q := t.sub[index].queue;
      var k := PopPosition(q, s.vs.barrier);
      if k < |q|
      then Picked(t.(sub := PopAt(t.sub, index, k)), Some(q[k]), QueuePick(index))
      else Picked(t, None, NoPick)
  }

  /** PickEventLocked; the wake-up time starts from its maximum. */
  function Pick(s: State, now: Instant): Picked {
    var scan := ScanAll(s, now);
    PickAfterScan(s.(sub := Bump(s.sub, scan.bumped), wakeUp := scan.wakeUp), scan.index)
  }

  function RefreshFront(sub: SubQueues, i: nat): SubQueues {
    if i < 4 then sub[i := sub[i].(front := FrontTime(sub[i].queue))] else sub
  }

  datatype Source = FromPick(kind: PickKind) | FromIdle | Nothing

  datatype Expired = Expired(state: State, event: Option<Event>, source: Source, next: TimePoint)

  /** The bookkeeping of GetExpiredEventLocked when the pick found nothing: busy turns idle. */
  function StampIdle(s: State, now: Instant): State {
    if s.isIdle then s else s.(idleStamp := now, isIdle := true)
  }

  /** The position in the idle list that may leave now, or its length. */
  function IdlePosition(s: State, now: Instant): nat {
    if s.vs.barrier then FirstIndex(s.idle, BarrierTaskBy(s.idleStamp, now))
    else if s.idle != [] && s.idle[0].sendTime <= s.idleStamp && s.idle[0].handleTime <= now then 0
    else |s.idle|
  }

  /** The part of GetExpiredEventLocked after the pick. */
  function AfterPick(p: Picked, now: Instant, later: Instant): Expired {
    if p.event.Some? then
      var i := if p.kind.QueuePick? then p.kind.from else VIP;
      Expired(p.state.(sub := RefreshFront(p.state.sub, i), isIdle := false), p.event, FromPick(p.kind), MAX_TIME)
    else
      var t := StampIdle(p.state, now);
      var k := IdlePosition(t, now);
      if k < |t.idle| then Expired(t.(idle := RemoveAt(t.idle, k)), Some(t.idle[k]), FromIdle, MAX_TIME)
      else Expired(t, None, Nothing, if t.vs.pending != 0 then later else t.wakeUp)
  }

  /** GetExpiredEventLocked at `now`; `later` is the second clock reading. */
  function GetExpired(s: State, now: Instant, later: Instant): Expired {
    AfterPick(Pick(s, now), now, later)
  }

  // ---------------------------------------------------------------- the loop of GetEvent

  /** The clock readings of one round of GetEvent, in the order they are taken. */
  datatype Readings = Readings(check: Instant, stamp: Instant, pick: Instant, next: Instant, poll: Instant)
  {
    ghost predicate Monotone() {
      check <= stamp <= pick <= next <= poll
    }
  }

  datatype Outcome =
    | Return(event: Event)              // hand the event to the loop
    | PollThenReturn(event: Event, need: bool)  // TryEpollFd first
    | Direct(event: Event)              // the vsync pop of GetEvent itself
    | Repaired                          // the pending count was reset
    | Sleep(deadline: TimePoint)        // WaitUntilLocked

  datatype Round = Round(state: State, outcome: Outcome, source: Source)

  /** What GetEvent does with the result of GetExpiredEventLocked. */
  function Decide(x: Expired, poll: Instant): Round {
    var v := x.state.vs;
    if x.event.Some? then
      if !v.lazy && v.pending == 0 && (v.needEpoll || v.checkTime < poll)
      then Round(x.state, PollThenReturn(x.event.value, v.needEpoll), x.source)
      else Round(x.state, Return(x.event.value), x.source)
    else if v.pending != 0 then
      var p := PickFirstVsync(x.state);
      if p.event.Some? then Round(p.state, Direct(p.event.value), Nothing)
      else Round(x.state.(vs := Repair(v)), Repaired, Nothing)
    else Round(x.state, Sleep(x.next), Nothing)
  }

  /** CheckBarrierMode, on the whole state. */
  function CheckBarrierMode(s: State, now: Instant, stamp: Instant): State {
    s.(vs := CheckMode(s.vs, now, stamp))
  }

  /** One round of the loop of GetEvent, up to the point where it returns, waits or starts again. */
  function GetEventRound(s: State, r: Readings): Round {
    Decide(GetExpired(CheckBarrierMode(s, r.check, r.stamp), r.pick, r.next), r.poll)
  }

  // ---------------------------------------------------------------- every operation keeps the invariant

  lemma InsertedEvent(s: State, e: Event, p: Priority, at: InsertType, option: BarrierOption, sender: Sender,
                      now: Instant)
    ensures var r := Insert(s, e, p, at, option, sender, now);
      && r.ok == s.usable
      && r.stored.id == e.id && r.stored.handleTime <= e.handleTime
      && (r.ok ==> r.stored.priority == p
                   && r.stored == Stored(ListOf(s, p), Marked(e, option, sender).(priority := p), at))
  {
  }

  /** Insertion changes one list. */
  lemma InsertedList(s: State, e: Event, p: Priority, at: InsertType, option: BarrierOption, sender: Sender,
                     now: Instant, l: Priority)
    ensures var m := Marked(e, option, sender).(priority := p);
      ListOf(Insert(s, e, p, at, option, sender, now).state, l)
      == if s.usable && l == p then InsertAt(ListOf(s, p), m, at) else ListOf(s, l)
  {
  }

  lemma InsertIntoOk(sq: SubQueue, i: nat, e: Event, at: InsertType)
    requires SubQueueOk(sq, i) && e.priority == i
    ensures SubQueueOk(InsertInto(sq, e, at), i) && FrontExact(InsertInto(sq, e, at))
  {
    InsertKeepsSorted(sq.queue, e, at);
    InsertKeepsContents(sq.queue, e, at);
    FrontIsLowerBound(InsertAt(sq.queue, e, at));
  }

  /** Changing one sub queue leaves the others as they are. */
  lemma OneSubQueueOk(s: State, p: nat, sq: SubQueue, v: VsyncState)
    requires WellFormed(s) && p < 4 && SubQueueOk(sq, p)
    ensures WellFormed(s.(sub := s.sub[p := sq], vs := v))
  {
  }

  lemma IdleInsertOk(s: State, m: Event, at: InsertType)
    requires WellFormed(s) && m.priority == IDLE
    ensures WellFormed(s.(idle := InsertAt(s.idle, m, at)))
  {
    InsertKeepsSorted(s.idle, m, at);
    InsertKeepsContents(s.idle, m, at);
  }

  lemma InsertLockedKeepsWellFormed(s: State, marked: Event, p: Priority, at: InsertType, now: Instant)
    requires WellFormed(s)
    ensures var r := InsertLocked(s, marked, p, at, now);
      WellFormed(r.state) && (r.ok && p < 4 ==> FrontExact(r.state.sub[p]))
  {
    if s.usable {
      var m := marked.(priority := p);
      if p < 4 {
        InsertIntoOk(s.sub[p], p, m, at);
        OneSubQueueOk(s, p, InsertInto(s.sub[p], m, at), if m.isVsync then Dispatch(s.vs, now) else s.vs);
      } else {
        IdleInsertOk(s, m, at);
      }
    }
  }

  lemma InsertKeepsWellFormed(s: State, e: Event, p: Priority, at: InsertType, option: BarrierOption,
                              sender: Sender, now: Instant)
    requires WellFormed(s)
    ensures var r := Insert(s, e, p, at, option, sender, now);
      WellFormed(r.state) && (r.ok && p < 4 ==> FrontExact(r.state.sub[p]))
  {
    InsertLockedKeepsWellFormed(s, Marked(e, option, sender), p, at, now);
  }

  lemma OneListChanged(s: State, s': State, p: Priority, x: Event)
    requires forall j: nat :: j < 4 && j != p ==> s'.sub[j].queue == s.sub[j].queue
    requires p != IDLE ==> s'.idle == s.idle
    ensures Copies(s', x) + multiset(ListOf(s, p))[x] == Copies(s, x) + multiset(ListOf(s', p))[x]
  {
  }

  lemma InsertAtCopies(q: seq<Event>, e: Event, at: InsertType, x: Event)
    ensures multiset(InsertAt(q, e, at))[x] == multiset(q)[x] + One(x == Stored(q, e, at))
  {
    InsertKeepsContents(q, e, at);
  }

  lemma InsertAddsOne(s: State, e: Event, p: Priority, at: InsertType, option: BarrierOption, sender: Sender,
                      now: Instant, x: Event)
    ensures var r := Insert(s, e, p, at, option, sender, now);
      Copies(r.state, x) == Copies(s, x) + One(r.ok && x == r.stored)
  {
    if s.usable {
      var m := Marked(e, option, sender).(priority := p);
      InsertAtCopies(ListOf(s, p), m, at, x);
      OneListChanged(s, Insert(s, e, p, at, option, sender, now).state, p, x);
    }
  }

  lemma SubWithoutOk(sq: SubQueue, i: nat, f: Filter)
    requires SubQueueOk(sq, i)
    ensures SubQueueOk(SubWithout(sq, f), i) && FrontExact(SubWithout(sq, f))
  {
    WithoutKeeps(sq.queue, f);
    WithoutKeepsSorted(sq.queue, f);
    FrontIsLowerBound(Without(sq.queue, f));
  }

  lemma FrontIsLowerBound(q: seq<Event>)
    requires Sorted(q)
    ensures forall e :: e in q ==> FrontTime(q) <= e.handleTime
  {
  }

  lemma RemoveKeepsWellFormed(s: State, f: Filter)
    requires WellFormed(s)
    ensures WellFormed(Remove(s, f))
    ensures s.usable ==> forall i :: 0 <= i < 4 ==> FrontExact(Remove(s, f).sub[i])
  {
    if s.usable {
      var r := Remove(s, f);
      forall i | 0 <= i < 4 ensures SubQueueOk(r.sub[i], i) && FrontExact(r.sub[i]) {
        SubWithoutOk(s.sub[i], i, f);
        assert r.sub[i] == SubWithout(s.sub[i], f);
      }
      IdleWithoutOk(s, f);
    }
  }

  lemma RemoveOrphansKeepsWellFormed(s: State, dead: set<nat>)
    requires WellFormed(s)
    ensures WellFormed(RemoveOrphans(s, dead))
  {
    RemoveKeepsWellFormed(s, Orphan(dead));
  }

  lemma IdleWithoutOk(s: State, f: Filter)
    requires WellFormed(s)
    ensures Sorted(Without(s.idle, f)) && forall e :: e in Without(s.idle, f) ==> e.priority == IDLE
  {
    WithoutKeeps(s.idle, f);
    WithoutKeepsSorted(s.idle, f);
  }

  lemma WithoutCopies(q: seq<Event>, f: Filter, e: Event)
    ensures multiset(Without(q, f))[e] == if f.Holds(e) then 0 else multiset(q)[e]
  {
    WithoutKeeps(q, f);
    assert e in Without(q, f) <==> multiset(Without(q, f))[e] > 0;
    assert e in Matching(q, f) <==> multiset(Matching(q, f))[e] > 0;
  }

  /** Removal takes out every copy of what the filter selects and keeps every copy of the rest. */
  lemma RemoveCopies(s: State, f: Filter, e: Event)
    requires s.usable
    ensures Copies(Remove(s, f), e) == if f.Holds(e) then 0 else Copies(s, e)
  {
    WithoutCopies(s.sub[0].queue, f, e);
    WithoutCopies(s.sub[1].queue, f, e);
    WithoutCopies(s.sub[2].queue, f, e);
    WithoutCopies(s.sub[3].queue, f, e);
    WithoutCopies(s.idle, f, e);
  }

  // What the removals of the queue's interface take out: every copy of exactly these events leaves.

  lemma RemovalByOwner(s: State, owner: nat, e: Event)
    requires s.usable
    ensures Copies(Remove(s, OwnedBy(owner)), e) == if e.ownerId == owner then 0 else Copies(s, e)
  {
    RemoveCopies(s, OwnedBy(owner), e);
  }

  lemma RemovalById(s: State, owner: nat, id: nat, e: Event)
    requires s.usable
    ensures Copies(Remove(s, ByEventId(owner, id)), e)
         == if e.ownerId == owner && !e.hasTask && e.innerEventId == id then 0 else Copies(s, e)
  {
    var selected := e.ownerId == owner && !e.hasTask && e.innerEventId == id;
    assert ByEventId(owner, id).Holds(e) == selected;
    RemoveCopies(s, ByEventId(owner, id), e);
  }

  lemma RemovalByParam(s: State, owner: nat, id: nat, param: int, e: Event)
    requires s.usable
    ensures Copies(Remove(s, ByParam(owner, id, param)), e)
         == if e.ownerId == owner && !e.hasTask && e.innerEventId == id && e.param == param then 0 else Copies(s, e)
  {
    var selected := e.ownerId == owner && !e.hasTask && e.innerEventId == id && e.param == param;
    assert ByParam(owner, id, param).Holds(e) == selected;
    RemoveCopies(s, ByParam(owner, id, param), e);
  }

  lemma RemovalByName(s: State, owner: nat, name: string, e: Event)
    requires s.usable
    ensures Copies(Remove(s, ByName(owner, name)), e)
         == if e.ownerId == owner && e.hasTask && e.taskName == name then 0 else Copies(s, e)
  {
    RemoveCopies(s, ByName(owner, name), e);
  }

  /** Orphan removal takes exactly the events of dead owners. */
  lemma OrphanRemoval(s: State, dead: set<nat>, e: Event)
    requires s.usable
    ensures Copies(RemoveOrphans(s, dead), e) == if e.ownerId in dead then 0 else Copies(s, e)
  {
    var t, r := RemoveOrphans(s, dead), Remove(s, Orphan(dead));
    assert t.sub == r.sub && t.idle == r.idle;
    RemoveCopies(s, Orphan(dead), e);
    SameLists(r, t, e);
    var selected := e.ownerId in dead;
    assert Orphan(dead).Holds(e) == selected;
  }

  lemma PopKeepsOk(sq: SubQueue, i: nat, k: nat)
    requires SubQueueOk(sq, i) && k < |sq.queue|
    ensures SubQueueOk(sq.(queue := RemoveAt(sq.queue, k)), i)
    ensures SubQueueOk(sq.(queue := RemoveAt(sq.queue, k), front := FrontTime(RemoveAt(sq.queue, k))), i)
  {
  }

  lemma PopTakesOne(s: State, s': State, i: nat, k: nat, e: Event)
    requires i < 4 && k < |s.sub[i].queue| && s'.idle == s.idle
    requires forall j :: 0 <= j < 4 && j != i ==> s'.sub[j].queue == s.sub[j].queue
    requires s'.sub[i].queue == RemoveAt(s.sub[i].queue, k)
    ensures Copies(s, e) == Copies(s', e) + One(e == s.sub[i].queue[k])
  {
    RemoveAtKeeps(s.sub[i].queue, k);
  }

  lemma PickFirstVsyncKeeps(s: State)
    requires WellFormed(s)
    ensures var p := PickFirstVsync(s);
      WellFormed(p.state) && (p.event.Some? ==> p.event.value.isVsync && p.event.value.priority == VIP)
  {
  }

  lemma PickFirstVsyncTakesOne(s: State, e: Event)
    ensures var p := PickFirstVsync(s); Copies(s, e) == Copies(p.state, e) + One(p.event == Some(e))
  {
    var k := FirstIndex(s.sub[VIP].queue, VsyncTask);
    if k < |s.sub[VIP].queue| {
      PopTakesOne(s, PickFirstVsync(s).state, VIP, k, e);
    }
  }

  lemma ScanBumpsBelowLimit(sub: SubQueues, barrier: bool, now: Instant, i: nat, candidate: nat, wakeUp: TimePoint)
    requires i <= 4 && (candidate < i || candidate == 4)
    ensures var r := ScanFrom(sub, barrier, now, i, candidate, wakeUp);
      r.bumped < 4 ==> sub[r.bumped].handled < MAX_HANDLED
    decreases 4 - i
  {
  }

  /** The state in which Pick pops: counters adjusted, nothing taken out yet. */
  function BeforePop(s: State, now: Instant, reset: bool): State {
    var scan := ScanAll(s, now);
    var sub := Bump(s.sub, scan.bumped);
    s.(sub := if reset then ResetBelow(sub, scan.index) else sub, wakeUp := scan.wakeUp)
  }

  lemma BeforePopQueues(s: State, now: Instant, reset: bool)
    ensures forall i :: 0 <= i < 4 ==> BeforePop(s, now, reset).sub[i].queue == s.sub[i].queue
    ensures forall i :: 0 <= i < 4 ==> BeforePop(s, now, reset).sub[i].front == s.sub[i].front
    ensures forall i :: 0 <= i < 4 ==> s.sub[i].handled <= MAX_HANDLED ==>
              BeforePop(s, now, reset).sub[i].handled <= MAX_HANDLED
  {
    ScanBumpsBelowLimit(s.sub, s.vs.barrier, now, 0, 4, MAX_TIME);
  }

  lemma BeforePopKeeps(s: State, now: Instant, reset: bool)
    requires WellFormed(s)
    ensures WellFormed(BeforePop(s, now, reset))
  {
    BeforePopQueues(s, now, reset);
    var t := BeforePop(s, now, reset);
    forall i | 0 <= i < 4 ensures SubQueueOk(t.sub[i], i) {
      assert SubQueueOk(s.sub[i], i);
    }
  }

  /** The three ways a pick can end, in terms of the state before the pop. */
  lemma PickCases(s: State, now: Instant)
    ensures var p := Pick(s, now); var scan := ScanAll(s, now);
      match p.kind
      case VsyncPick => p == PickFirstVsync(BeforePop(s, now, false)) && p.event.Some?
      case QueuePick(from) =>
        var t := BeforePop(s, now, true);
        var k := PopPosition(s.sub[from].queue, s.vs.barrier);
        && from == scan.index < 4 && t.sub[from].queue == s.sub[from].queue && k < |t.sub[from].queue|
        && p.event == Some(s.sub[from].queue[k]) && p.state == t.(sub := PopAt(t.sub, from, k))
      case NoPick =>
        p.event.None? && p.state == BeforePop(s, now, scan.index < 4)
  {
  }

  lemma PickKeeps(s: State, now: Instant)
    requires WellFormed(s)
    ensures var p := Pick(s, now);
      && WellFormed(p.state)
      && p.state == s.(sub := p.state.sub, wakeUp := p.state.wakeUp)
      && (p.event.Some? ==> p.event.value.priority == (if p.kind.QueuePick? then p.kind.from else VIP))
  {
    var p := Pick(s, now);
    PickCases(s, now);
    match p.kind {
      case VsyncPick =>
        BeforePopKeeps(s, now, false);
        PickFirstVsyncKeeps(BeforePop(s, now, false));
      case QueuePick(from) =>
        BeforePopKeeps(s, now, true);
        BeforePopQueues(s, now, true);
        var t := BeforePop(s, now, true);
        PopKeepsOk(t.sub[from], from, PopPosition(t.sub[from].queue, s.vs.barrier));
      case NoPick =>
        BeforePopKeeps(s, now, ScanAll(s, now).index < 4);
    }
  }

  lemma PickTakesOne(s: State, now: Instant, e: Event)
    ensures var p := Pick(s, now); Copies(s, e) == Copies(p.state, e) + One(p.event == Some(e))
  {
    var p := Pick(s, now);
    PickCases(s, now);
    match p.kind {
      case VsyncPick =>
        BeforePopQueues(s, now, false);
        PickFirstVsyncTakesOne(BeforePop(s, now, false), e);
      case QueuePick(from) =>
        BeforePopQueues(s, now, true);
        PopTakesOne(s, p.state, from, PopPosition(s.sub[from].queue, s.vs.barrier), e);
      case NoPick =>
        BeforePopQueues(s, now, ScanAll(s, now).index < 4);
    }
  }

  lemma RefreshKeeps(sub: SubQueues, i: nat)
    requires forall j :: 0 <= j < 4 ==> SubQueueOk(sub[j], j)
    ensures forall j :: 0 <= j < 4 ==> SubQueueOk(RefreshFront(sub, i)[j], j)
    ensures i < 4 ==> FrontExact(RefreshFront(sub, i)[i])
  {
  }

  lemma AfterPickKeeps(p: Picked, now: Instant, later: Instant)
    requires WellFormed(p.state)
    ensures var x := AfterPick(p, now, later);
      && WellFormed(x.state)
      && x.state.vs == p.state.vs && x.state.finished == p.state.finished && x.state.usable == p.state.usable
      && (p.event.Some? ==>
            var i := if p.kind.QueuePick? then p.kind.from else VIP; i < 4 ==> FrontExact(x.state.sub[i]))
  {
    if p.event.Some? {
      RefreshKeeps(p.state.sub, if p.kind.QueuePick? then p.kind.from else VIP);
    } else {
      var t := StampIdle(p.state, now);
      var k := IdlePosition(t, now);
      if k < |t.idle| {
        RemoveAtKeeps(t.idle, k);
      }
    }
  }

  lemma GetExpiredKeeps(s: State, now: Instant, later: Instant)
    requires WellFormed(s)
    ensures var x := GetExpired(s, now, later);
      && WellFormed(x.state)
      && x.state.vs == s.vs && x.state.finished == s.finished && x.state.usable == s.usable
      // the queue a picked event came from has an exact front time again
      && (x.event.Some? && x.source.FromPick? ==>
            0 <= x.event.value.priority < 4 && FrontExact(x.state.sub[x.event.value.priority]))
  {
    PickKeeps(s, now);
    PickCases(s, now);
    AfterPickKeeps(Pick(s, now), now, later);
  }

  lemma SameLists(s: State, s': State, x: Event)
    requires s'.idle == s.idle && forall j :: 0 <= j < 4 ==> s'.sub[j].queue == s.sub[j].queue
    ensures Copies(s', x) == Copies(s, x)
  {
  }

  lemma IdlePopTakesOne(s: State, k: nat, x: Event)
    requires k < |s.idle|
    ensures Copies(s, x) == Copies(s.(idle := RemoveAt(s.idle, k)), x) + One(x == s.idle[k])
  {
    RemoveAtKeeps(s.idle, k);
    OneListChanged(s, s.(idle := RemoveAt(s.idle, k)), IDLE, x);
  }

  lemma AfterPickTakesOne(p: Picked, now: Instant, later: Instant, e: Event)
    ensures var x := AfterPick(p, now, later);
      Copies(x.state, e) + One(x.event == Some(e)) == Copies(p.state, e) + One(p.event == Some(e))
  {
    if p.event.Some? {
      SameLists(p.state, AfterPick(p, now, later).state, e);
    } else {
      var t := StampIdle(p.state, now);
      SameLists(p.state, t, e);
      var k := IdlePosition(t, now);
      if k < |t.idle| {
        IdlePopTakesOne(t, k, e);
      }
    }
  }

  /** The event that a round of GetEvent takes out of the queue. */
  function Taken(o: Outcome): Option<Event> {
    match o
    case Return(e) => Some(e)
    case PollThenReturn(e, _) => Some(e)
    case Direct(e) => Some(e)
    case _ => None
  }

  lemma DecideKeeps(x: Expired, poll: Instant)
    requires WellFormed(x.state)
    ensures var d := Decide(x, poll);
      && WellFormed(d.state)
      && (d.outcome.Direct? ==> d.outcome.event.isVsync)
      && d.state.finished == x.state.finished && d.state.usable == x.state.usable
  {
    PickFirstVsyncKeeps(x.state);
  }

  lemma RoundKeeps(s: State, r: Readings)
    requires WellFormed(s)
    ensures var x := GetEventRound(s, r);
      && WellFormed(x.state)
      && (x.outcome.Direct? ==> x.outcome.event.isVsync)
      && x.state.finished == s.finished && x.state.usable == s.usable
  {
    var s1 := CheckBarrierMode(s, r.check, r.stamp);
    GetExpiredKeeps(s1, r.pick, r.next);
    DecideKeeps(GetExpired(s1, r.pick, r.next), r.poll);
  }

  lemma DecideTakesOne(x: Expired, poll: Instant, e: Event)
    ensures var d := Decide(x, poll);
      Copies(d.state, e) + One(Taken(d.outcome) == Some(e)) == Copies(x.state, e) + One(x.event == Some(e))
  {
    if x.event.None? && x.state.vs.pending != 0 {
      PickFirstVsyncTakesOne(x.state, e);
      if PickFirstVsync(x.state).event.None? {
        SameLists(x.state, Decide(x, poll).state, e);
      }
    } else {
      assert Decide(x, poll).state == x.state;
    }
  }

  /** A round takes at most one event out of the queue, and adds none. */
  lemma RoundTakesOne(s: State, r: Readings, e: Event)
    ensures var d := GetEventRound(s, r); Copies(s, e) == Copies(d.state, e) + One(Taken(d.outcome) == Some(e))
  {
    var s1 := CheckBarrierMode(s, r.check, r.stamp);
    var x := GetExpired(s1, r.pick, r.next);
    SameLists(s, s1, e);
    PickTakesOne(s1, r.pick, e);
    AfterPickTakesOne(Pick(s1, r.pick), r.pick, r.next, e);
    DecideTakesOne(x, r.poll, e);
  }
}
