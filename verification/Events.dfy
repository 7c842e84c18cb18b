/** The event record, the clock types and the constants of the event queue. */
module Events {

  datatype Option<+T> = None | Some(value: T)

  // InnerEvent::TimePoint::max() and INT64_MAX, in nanoseconds of the steady clock.
  const MAX_TIME: int := 0x7FFF_FFFF_FFFF_FFFF
  const UINT64_MAX: int := 0xFFFF_FFFF_FFFF_FFFF
  const NANOSECONDS_PER_MILLISECOND: nat := 1_000_000

  function One(b: bool): nat {
    if b then 1 else 0
  }

  /** A handle time, a send time or a deadline. */
  type TimePoint = t: int | 0 <= t <= MAX_TIME

  /** A reading of the steady clock; it never reaches the value used for "no deadline". */
  type Instant = t: int | 0 <= t < MAX_TIME

  // EventQueue::Priority
  const VIP: nat := 0
  const IMMEDIATE: nat := 1
  const HIGH: nat := 2
  const LOW: nat := 3
  const IDLE: nat := 4
  // The number of sub queues is the value of IDLE.
  const SUB_EVENT_QUEUE_NUM: nat := 4

  type Priority = p: nat | p <= 4

  // DEFAULT_MAX_HANDLED_EVENT_COUNT
  const MAX_HANDLED: nat := 5

  /** EventInsertType */
  datatype InsertType = AtEnd | AtFront

  /** VsyncBarrierOption */
  datatype BarrierOption = NoBarrier | NeedBarrier | ForceBarrier

  /** VsyncPolicy */
  datatype VsyncPolicy = DisableVsyncFirst | FirstWithDefaultBarrier | FirstWithoutDefaultBarrier

  /** InnerEvent. `id` stands for the identity of the heap object, which exactly one pointer owns;
      `priority` is -1 until the event is inserted for the first time. */
  datatype Event = Event(
    id: nat,
    handleTime: TimePoint,
    sendTime: TimePoint,
    priority: int,
    isVsync: bool,
    isBarrier: bool,
    ownerId: nat,
    hasTask: bool,
    taskName: string,
    innerEventId: nat,
    param: int,
    hasWaiter: bool)

  /** The predicates that the queue hands to find_if, remove_if and stable_partition. */
  datatype Filter =
    | VsyncTask
    | BarrierTask
    | BarrierTaskBy(latestSend: TimePoint, latestHandle: TimePoint)
    | OwnedBy(owner: nat)
    | ByEventId(owner: nat, innerEventId: nat)
    | ByParam(owner: nat, innerEventId: nat, param: int)
    | ByName(owner: nat, name: string)
    | Orphan(dead: set<nat>)
  {
    predicate Holds(e: Event) {
      match this
      case VsyncTask => e.isVsync
      case BarrierTask => e.isBarrier
      case BarrierTaskBy(latestSend, latestHandle) =>
        e.isBarrier && e.sendTime <= latestSend && e.handleTime <= latestHandle
      case OwnedBy(owner) => e.ownerId == owner
      case ByEventId(owner, id) => !e.hasTask && e.ownerId == owner && e.innerEventId == id
      case ByParam(owner, id, param) =>
        !e.hasTask && e.ownerId == owner && e.innerEventId == id && e.param == param
      case ByName(owner, name) => e.hasTask && e.ownerId == owner && e.taskName == name
      case Orphan(dead) => e.ownerId in dead
    }
  }
}
