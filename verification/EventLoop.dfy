/** The event loop as a system of steps. The runner thread takes rounds of GetEvent, sleeps, polls and
    executes; other threads insert, remove and finish; every step is one region that the source
    protects by a lock, so the steps of different threads interleave freely. */
module EventLoop {
  import opened Events
  import opened EventLists
  import opened Vsync
  import opened QueueState
  import opened VsyncAccounting
  import opened Timeouts
  import opened Waiters

  // ---------------------------------------------------------------- configurations

  /** The senders after the events in `gone` have been destroyed. */
  ghost function NotifyDropped(senders: map<nat, SyncSender>, gone: multiset<Event>): map<nat, SyncSender> {
    map id | id in senders ::
      if exists e :: e in gone && e.id == id && e.hasWaiter then NotifySender(senders[id]) else senders[id]
  }

  /** Where a sleep stands: lock released but not yet blocked, blocked until the timer at the latest,
      or woken and waiting for the lock. */
  datatype Phase = Unlocked | Blocked(begunAt: Instant, timerEnd: nat) | Woken

  /** Where the runner thread is. */
  datatype Pc =
    | Stopped
    | Calling
    | Sleeping(waiter: nat, deadline: TimePoint, computedAt: Instant, phase: Phase)
    | Polling(event: Event, need: bool, waiter: nat)
    | Holding(event: Event)
    | Executing(event: Event)

  /** The queue, the runner, the waiters (`io` is the current one), the senders, the dead handlers, the
      events taken out by RemoveOrphan but not yet destroyed, and the history: what was accepted, handed
      to the loop, removed, and destroyed. */
  datatype Config = Config(
    q: State,
    clock: Instant,
    pc: Pc,
    waiters: seq<Waiter>,
    io: nat,
    senders: map<nat, SyncSender>,
    dead: set<nat>,
    releasing: multiset<Event>,
    accepted: multiset<Event>,
    dispatched: multiset<Event>,
    removed: multiset<Event>,
    destroyed: multiset<Event>)

  ghost predicate Init(c: Config) {
    && c.q == InitialState(c.clock)
    && c.pc == Stopped
    && c.waiters == [NoneWaiter(false)] && c.io == 0
    && c.senders == map[] && c.dead == {}
    && c.releasing == c.accepted == c.dispatched == c.removed == c.destroyed == multiset{}
  }

  function NotifyAt(ws: seq<Waiter>, i: nat): seq<Waiter> {
    if i < |ws| then ws[i := Notify(ws[i])] else ws
  }

  // ---------------------------------------------------------------- steps of any thread

  /** Everything queued that the filter selects. */
  ghost function Selected(s: State, f: Filter): multiset<Event> {
    multiset(Matching(s.sub[0].queue, f)) + multiset(Matching(s.sub[1].queue, f))
    + multiset(Matching(s.sub[2].queue, f)) + multiset(Matching(s.sub[3].queue, f)) + multiset(Matching(s.idle, f))
  }

  /** Everything queued. */
  ghost function Everything(s: State): multiset<Event> {
    multiset(s.sub[0].queue) + multiset(s.sub[1].queue) + multiset(s.sub[2].queue)
    + multiset(s.sub[3].queue) + multiset(s.idle)
  }

  /** The events in `gone` are destroyed: their waiters are notified. */
  ghost function Destroy(c: Config, gone: multiset<Event>): Config {
    c.(destroyed := c.destroyed + gone, senders := NotifyDropped(c.senders, gone))
  }

  /** Insert; a sender that asked for synchronous delivery starts to wait once the event is accepted. */
  ghost function InsertNext(c: Config, e: Event, p: Priority, at: InsertType, option: BarrierOption, from: Sender): Config {
    var r := Insert(c.q, e, p, at, option, from, c.clock);
    if !r.ok then c
    else c.(q := r.state,
            waiters := if r.notify then NotifyAt(c.waiters, c.io) else c.waiters,
            senders := if e.hasWaiter then c.senders[e.id := SyncSender(false, 0, Entering)] else c.senders,
            accepted := c.accepted + multiset{r.stored})
  }

  ghost function RemoveNext(c: Config, f: Filter): Config {
    if !c.q.usable then c
    else
      var gone := Selected(c.q, f);
      Destroy(c.(q := Remove(c.q, f), removed := c.removed + gone), gone)
  }

  ghost function RemoveAllNext(c: Config): Config {
    if !c.q.usable then c
    else
      var gone := Everything(c.q);
      Destroy(c.(q := RemoveAll(c.q), removed := c.removed + gone), gone)
  }

  /** RemoveOrphan takes the orphans out under the lock and destroys them after releasing it. */
  ghost function RemoveOrphansNext(c: Config): Config {
    if !c.q.usable then c
    else
      var gone := Selected(c.q, Orphan(c.dead));
      c.(q := RemoveOrphans(c.q, c.dead), removed := c.removed + gone, releasing := c.releasing + gone)
  }

  ghost function ReleaseNext(c: Config): Config {
    Destroy(c.(releasing := multiset{}), c.releasing)
  }

  /** FinishBase */
  ghost function FinishNext(c: Config): Config {
    if !c.q.usable then c
    else c.(q := c.q.(finished := true), waiters := NotifyAt(c.waiters, c.io))
  }

  /** PrepareBase */
  ghost function PrepareNext(c: Config): Config {
    if !c.q.usable then c else c.(q := c.q.(finished := false))
  }

  /** EnsureIoWaiterLocked: a NoneIoWaiter is notified and replaced by an EpollIoWaiter. */
  ghost function SwapNext(c: Config): Config {
    if !c.q.usable || c.io >= |c.waiters| || c.waiters[c.io].EpollWaiter? then c
    else c.(waiters := NotifyAt(c.waiters, c.io) + [EpollWaiter(0, false)], io := |c.waiters|)
  }

  // ---------------------------------------------------------------- steps of the runner thread

  /** The event that the runner has in hand. */
  function InHand(pc: Pc): Option<Event> {
    match pc
    case Polling(e, _, _) => Some(e)
    case Holding(e) => Some(e)
    case Executing(e) => Some(e)
    case _ => None
  }

  ghost function EnterAt(ws: seq<Waiter>, i: nat): seq<Waiter> {
    if i < |ws| then ws[i := EnterWait(ws[i])] else ws
  }

  /** Where the runner goes after a round. */
  function PcAfter(o: Outcome, io: nat, last: Instant): Pc {
    match o
    case Return(e) => Holding(e)
    case PollThenReturn(e, need) => Polling(e, need, io)
    case Direct(e) => Holding(e)
    case Repaired => Calling
    case Sleep(deadline) => Sleeping(io, deadline, last, Unlocked)
  }

  ghost function Dispatched(c: Config, o: Outcome): multiset<Event> {
    if Taken(o).Some? then c.dispatched + multiset{Taken(o).value} else c.dispatched
  }

  ghost function AfterRound(c: Config, d: Round, last: Instant): Config {
    c.(q := d.state,
       clock := last,
       pc := PcAfter(d.outcome, c.io, last),
       waiters := if d.outcome.PollThenReturn? || d.outcome.Sleep? then EnterAt(c.waiters, c.io) else c.waiters,
       dispatched := Dispatched(c, d.outcome))
  }

  /** One round of GetEvent, up to the point where the lock is released. */
  ghost function RoundNext(c: Config, r: Readings): Config {
    AfterRound(c, GetEventRound(c.q, r), r.poll)
  }

  /** WaitUntilLocked after WaitFor on the waiter w: when epoll_wait failed, a fresh NoneIoWaiter
      becomes the current waiter. */
  ghost function AfterWaitFor(c: Config, w: nat, ok: bool): Config {
    if ok || w >= |c.waiters| || c.waiters[w].NoneWaiter? then c
    else c.(waiters := c.waiters + [NoneWaiter(false)], io := |c.waiters|)
  }

  /** TryEpollFd takes the lock again and adjusts the polling plan. */
  ghost function PollReturnNext(c: Config, drain: bool, ok: bool): Config
    requires c.pc.Polling? && c.pc.waiter < |c.waiters|
  {
    var w := c.pc.waiter;
    AfterWaitFor(
      c.(pc := Holding(c.pc.event),
         q := c.q.(vs := AfterPoll(c.q.vs, c.pc.need)),
         waiters := c.waiters[w := FinishWait(StopBlocking(c.waiters[w], drain))]),
      w, ok)
  }

  ghost function BeginWaitNext(c: Config): Config
    requires c.pc.Sleeping? && c.pc.waiter < |c.waiters|
  {
    var ns := TimePointToTimeOut(c.pc.deadline, c.pc.computedAt);
    c.(pc := c.pc.(phase := Blocked(c.clock, c.clock + WaitLength(c.waiters[c.pc.waiter], ns))))
  }

  /** NoneIoWaiter returns only on its predicate or its timer; epoll_wait may also return for a file
      descriptor or a signal. */
  predicate CanWake(w: Waiter, timerEnd: nat, now: Instant) {
    w.EpollWaiter? || w.pred || timerEnd <= now
  }

  ghost function WakeNext(c: Config, drain: bool): Config
    requires c.pc.Sleeping? && c.pc.waiter < |c.waiters|
  {
    var w := c.pc.waiter;
    c.(pc := c.pc.(phase := Woken), waiters := c.waiters[w := StopBlocking(c.waiters[w], drain)])
  }

  /** The sleep ends: the lock is taken, the predicate cleared, needEpoll_ reset. */
  ghost function RelockNext(c: Config, ok: bool): Config
    requires c.pc.Sleeping? && c.pc.waiter < |c.waiters|
  {
    var w := c.pc.waiter;
    AfterWaitFor(
      c.(pc := Calling,
         q := c.q.(vs := c.q.vs.(needEpoll := false)),
         waiters := c.waiters[w := FinishWait(c.waiters[w])]),
      w, ok)
  }

  /** ExecuteEventHandler starts: an event whose handler is gone is dropped; a vsync task takes itself
      off the count before anything else. */
  ghost function ExecuteNext(c: Config): Config
    requires c.pc.Holding?
  {
    var e := c.pc.event;
    if e.ownerId in c.dead then Destroy(c.(pc := Calling), multiset{e})
    else c.(pc := Executing(e), q := if e.isVsync then c.q.(vs := HandleTask(c.q.vs)) else c.q)
  }

  /** The task has run and the event is released; a vsync task notes its completion only if its listener
      still existed. */
  ghost function TaskDoneNext(c: Config, listened: bool): Config
    requires c.pc.Executing?
  {
    var e := c.pc.event;
    var q := if e.isVsync && listened then c.q.(vs := c.q.vs.(completeTime := c.clock)) else c.q;
    Destroy(c.(pc := Calling, q := q), multiset{e})
  }

  // ---------------------------------------------------------------- the step relation

  datatype Setting =
    | Lazy(lazy: bool)
    | Policy(policy: VsyncPolicy)
    | Force(enable: bool, timeout: nat)
    | CheckTime(lastFrameTime: int, period: int)

  function Apply(v: VsyncState, setting: Setting, now: Instant): VsyncState {
    match setting
    case Lazy(lazy) => SetLazy(v, lazy)
    case Policy(policy) => SetPolicy(v, policy)
    case Force(enable, timeout) => ForceEnable(v, enable, timeout, now)
    case CheckTime(lastFrameTime, period) => UpdateCheckTime(v, lastFrameTime, period, now)
  }

  /** Steps that any thread may take at any time. */
  datatype SharedAction =
    | Tick(now: Instant)
    | InsertEvent(event: Event, priority: Priority, at: InsertType, option: BarrierOption, from: Sender)
    | RemoveMatching(filter: Filter)
    | RemoveEverything
    | RemoveDead
    | ReleaseDead
    | OwnerDies(owner: nat)
    | Finish
    | Prepare
    | SetUsable(usable: bool)
    | SetVsync(setting: Setting)
    | SwapWaiter
    | SenderStep(id: nat)

  /** Steps of the runner thread. */
  datatype RunnerAction =
    | Start
    | Leave
    | TakeRound(readings: Readings)
    | PollReturn(drain: bool, ok: bool)
    | BeginWait
    | Wake(drain: bool)
    | Relock(ok: bool)
    | Execute
    | TaskDone(listened: bool)

  datatype Action = Any(shared: SharedAction) | Runner(runner: RunnerAction)

  /** The object identity has not been used before. */
  ghost predicate Fresh(c: Config, id: nat) {
    forall x :: x in c.accepted ==> x.id != id
  }

  ghost predicate SharedStep(c: Config, a: SharedAction, d: Config) {
    match a
    case Tick(now) => c.clock <= now && d == c.(clock := now)
    case InsertEvent(e, p, at, option, from) =>
      Fresh(c, e.id) && Disciplined(c.q, e, p) && d == InsertNext(c, e, p, at, option, from)
    case RemoveMatching(f) => d == RemoveNext(c, f)
    case RemoveEverything => d == RemoveAllNext(c)
    case RemoveDead => d == RemoveOrphansNext(c)
    case ReleaseDead => d == ReleaseNext(c)
    case OwnerDies(owner) => d == c.(dead := c.dead + {owner})
    case Finish => d == FinishNext(c)
    case Prepare => d == PrepareNext(c)
    case SetUsable(usable) => d == c.(q := c.q.(usable := usable))
    case SetVsync(setting) => d == c.(q := c.q.(vs := Apply(c.q.vs, setting, c.clock)))
    case SwapWaiter => d == SwapNext(c)
    case SenderStep(id) => id in c.senders && d == c.(senders := c.senders[id := SenderNext(c.senders[id])])
  }

  /** The runner sleeps in the given phase on an existing waiter. */
  predicate SleepsOn(c: Config) {
    c.pc.Sleeping? && c.pc.waiter < |c.waiters|
  }

  ghost predicate RunnerStep(c: Config, a: RunnerAction, d: Config) {
    match a
    case Start => c.pc.Stopped? && d == c.(pc := Calling)
    case Leave => c.pc.Calling? && c.q.finished && d == c.(pc := Stopped)
    case TakeRound(r) =>
      c.pc.Calling? && !c.q.finished && c.clock <= r.check && r.Monotone() && d == RoundNext(c, r)
    case PollReturn(drain, ok) =>
      c.pc.Polling? && c.pc.waiter < |c.waiters| && d == PollReturnNext(c, drain, ok)
    case BeginWait => SleepsOn(c) && c.pc.phase.Unlocked? && d == BeginWaitNext(c)
    case Wake(drain) =>
      SleepsOn(c) && c.pc.phase.Blocked?
      && CanWake(c.waiters[c.pc.waiter], c.pc.phase.timerEnd, c.clock) && d == WakeNext(c, drain)
    case Relock(ok) => SleepsOn(c) && c.pc.phase.Woken? && d == RelockNext(c, ok)
    case Execute => c.pc.Holding? && d == ExecuteNext(c)
    case TaskDone(listened) => c.pc.Executing? && d == TaskDoneNext(c, listened)
  }

  ghost predicate Step(c: Config, a: Action, d: Config) {
    match a
    case Any(b) => SharedStep(c, b, d)
    case Runner(b) => RunnerStep(c, b, d)
  }

  /** A run: configurations joined by steps. */
  ghost predicate Run(cs: seq<Config>, acts: seq<Action>) {
    && |cs| == |acts| + 1
    && forall i :: 0 <= i < |acts| ==> Step(cs[i], acts[i], cs[i + 1])
  }

  /** A configuration that some run from the start reaches. */
  ghost predicate Reachable(c: Config) {
    exists cs, acts :: Run(cs, acts) && Init(cs[0]) && cs[|acts|] == c
  }
}
