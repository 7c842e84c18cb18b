/** ThreadCollector: threads are deposited, end, and are joined either by the collector thread or by
    Stop. The source drops its lock in the middle of a reclaim, so the regions under the lock are the
    steps of a system in which depositors, ending threads, the collector thread and Stop interleave. */
module ThreadCollectors {
  import opened Events

  // ---------------------------------------------------------------- the object

  /** The fields of ThreadCollector, as a value. */
  datatype Fields = Fields(deposits: set<nat>, reclaims: seq<nat>, destroying: bool, isWaiting: bool)

  /** Deposit of an active thread with a valid exit callback. */
  function Deposited(f: Fields, id: nat): Fields {
    if f.destroying then f else f.(deposits := f.deposits + {id})
  }

  /** The first half of ReclaimCurrentThread. */
  function Announced(f: Fields, id: nat): Fields {
    if f.destroying then f else f.(reclaims := f.reclaims + [id])
  }

  /** The inner loop of Run up to the first announced thread that is deposited: the fields, with that
      thread taken out of the deposits, and the thread itself. */
  function Drained(f: Fields): (Fields, set<nat>)
    decreases |f.reclaims|
  {
    if f.reclaims == [] then (f, {})
    else
      var id := f.reclaims[|f.reclaims| - 1];
      var g := f.(reclaims := f.reclaims[..|f.reclaims| - 1]);
      if id in g.deposits then (g.(deposits := g.deposits - {id}), {id}) else Drained(g)
  }

  /** Draining takes at most one thread, which was announced and deposited; when it takes none, nothing
      is announced any more and nothing that was deposited is lost. */
  lemma {:induction false} DrainedTakesOne(f: Fields)
    ensures var (g, taken) := Drained(f);
      && |taken| <= 1
      && taken !! g.deposits && taken + g.deposits == f.deposits
      && (forall id :: id in taken ==> id in f.reclaims)
      && (taken == {} ==> g.reclaims == [] && forall id :: id in f.reclaims ==> id !in f.deposits)
      && |g.reclaims| <= |f.reclaims| && (taken != {} ==> |g.reclaims| < |f.reclaims|)
      && g.destroying == f.destroying && g.isWaiting == f.isWaiting
    decreases |f.reclaims|
  {
    if f.reclaims != [] {
      var n := |f.reclaims| - 1;
      var id := f.reclaims[n];
      assert f.reclaims == f.reclaims[..n] + [id];
      if id !in f.deposits {
        DrainedTakesOne(f.(reclaims := f.reclaims[..n]));
      }
    }
  }

  /** The object: each method is one region under the collector's lock. */
  class ThreadCollector {
    var depositMap: set<nat>
    var reclaims: seq<nat>
    var destroying: bool
    var isWaiting: bool

    function View(): Fields
      reads this
    {
      Fields(depositMap, reclaims, destroying, isWaiting)
    }

    constructor ()
      ensures View() == Fields({}, [], false, false)
    {
      depositMap, reclaims, destroying, isWaiting := {}, [], false, false;
    }

    method Deposit(id: nat, joinable: bool, hasExit: bool) returns (ok: bool)
      modifies this
      ensures ok == (joinable && hasExit && !old(destroying))
      ensures View() == if joinable && hasExit then Deposited(old(View()), id) else old(View())
    {
      if !joinable || !hasExit {
        return false;
      }
      if destroying {
        return false;
      }
      depositMap := depositMap + {id};
      return true;
    }

    method ReclaimCurrentThread(id: nat) returns (notify: bool)
      modifies this
      ensures View() == Announced(old(View()), id)
      ensures notify == (!old(destroying) && old(isWaiting))
    {
      if destroying {
        return false;
      }
      reclaims := reclaims + [id];
      notify := isWaiting;
    }

    method MarkDestroying() returns (notify: bool)
      modifies this`destroying
      ensures destroying && notify == isWaiting
    {
      destroying := true;
      notify := isWaiting;
    }

    /** Run from one lock acquisition to the next release: the thread to join, or none when nothing
        announced is left. */
    method DrainReclaims() returns (found: bool, id: nat)
      modifies this`depositMap, this`reclaims
      ensures View() == Drained(old(View())).0
      ensures Drained(old(View())).1 == if found then {id} else {}
    {
      ghost var target := Drained(View());
      while |reclaims| != 0
        invariant Drained(View()) == target
        decreases |reclaims|
      {
        id := reclaims[|reclaims| - 1];
        reclaims := reclaims[..|reclaims| - 1];
        if id in depositMap {
          depositMap := depositMap - {id};
          return true, id;
        }
      }
      return false, 0;
    }

    /** ReclaimAll from one lock acquisition to the next release: some deposited thread, or none. */
    method TakeAny() returns (found: bool, id: nat)
      modifies this`depositMap
      ensures found <==> old(depositMap) != {}
      ensures found ==> id in old(depositMap) && depositMap == old(depositMap) - {id}
      ensures !found ==> depositMap == old(depositMap)
    {
      if depositMap == {} {
        return false, 0;
      }
      id :| id in depositMap;
      depositMap := depositMap - {id};
      found := true;
    }
  }

  // ---------------------------------------------------------------- the system

  /** Where the collector thread is. Deciding is the test of the outer loop, Draining the inner loop. */
  datatype Collector = Absent | Deciding | Draining | JoiningOne(id: nat) | Asleep(notified: bool) | Ended

  /** Where Stop is: not called, destroying_ set, holding threadLock_, reclaiming, joining, returned. */
  datatype Stopper = NotCalled | Marked | HoldsLock | Reclaiming | Joining(id: nat) | Returned

  datatype System = System(
    fields: Fields,
    needCreate: bool,
    collector: Collector,
    stopper: Stopper,
    alive: set<nat>,
    accepted: set<nat>,
    joined: multiset<nat>)

  ghost predicate Init(s: System) {
    s == System(Fields({}, [], false, false), true, Absent, NotCalled, {}, {}, multiset{})
  }

  function Wake(c: Collector): Collector {
    if c.Asleep? then Asleep(true) else c
  }

  datatype Action =
    | DepositThread(id: nat)
    | AnnounceThread(id: nat)
    | CreateCollector
    | ThreadEnds(id: nat)
    | CollectorStep
    | SpuriousWake
    | CallStop
    | StopStep(choice: nat)

  /** One region of the collector thread under its lock, or the end of a join. */
  ghost predicate CollectorMoves(s: System, t: System) {
    match s.collector
    case Absent => false
    case Deciding => t == s.(collector := if s.fields.destroying then Ended else Draining)
    case Draining =>
      var (f, taken) := Drained(s.fields);
      if taken != {} then exists id :: taken == {id} && t == s.(fields := f, collector := JoiningOne(id))
      else if f.destroying then t == s.(fields := f, collector := Ended)
      else t == s.(fields := f.(isWaiting := true), collector := Asleep(false))
    case JoiningOne(id) => id !in s.alive && t == s.(collector := Draining, joined := s.joined + multiset{id})
    case Asleep(notified) => notified && t == s.(collector := Deciding, fields := s.fields.(isWaiting := false))
    case Ended => false
  }

  /** One region of Stop; `choice` is the thread that begin() finds. */
  ghost predicate StopMoves(s: System, choice: nat, t: System) {
    match s.stopper
    case NotCalled => false
    case Marked => t == s.(stopper := HoldsLock)
    case HoldsLock =>
      (s.collector.Absent? || s.collector.Ended?) && t == s.(stopper := Reclaiming, needCreate := false)
    case Reclaiming =>
      if s.fields.deposits == {} then t == s.(stopper := Returned)
      else choice in s.fields.deposits
           && t == s.(fields := s.fields.(deposits := s.fields.deposits - {choice}), stopper := Joining(choice))
    case Joining(id) => id !in s.alive && t == s.(stopper := Reclaiming, joined := s.joined + multiset{id})
    case Returned => false
  }

  ghost predicate Step(s: System, a: Action, t: System) {
    match a
    case DepositThread(id) =>
      // a thread is deposited once, by its creator, while it is joinable
      id !in s.accepted &&
      t == (if s.fields.destroying then s
            else s.(fields := Deposited(s.fields, id), accepted := s.accepted + {id}, alive := s.alive + {id}))
    case AnnounceThread(id) =>
      t == (if s.fields.destroying then s
            else s.(fields := Announced(s.fields, id),
                    collector := if s.fields.isWaiting then Wake(s.collector) else s.collector))
    case CreateCollector =>
      // try_lock fails while Stop holds threadLock_
      !s.stopper.HoldsLock? && t == (if s.collector.Absent? && s.needCreate then s.(collector := Deciding) else s)
    case ThreadEnds(id) => t == s.(alive := s.alive - {id})
    case CollectorStep => CollectorMoves(s, t)
    case SpuriousWake => s.collector.Asleep? && t == s.(collector := Asleep(true))
    case CallStop =>
      s.stopper.NotCalled? &&
      t == s.(fields := s.fields.(destroying := true), stopper := Marked,
              collector := if s.fields.isWaiting then Wake(s.collector) else s.collector)
    case StopStep(choice) => StopMoves(s, choice, t)
  }

  /** Every accepted thread is in exactly one place: deposited, being joined by the collector thread or
      by Stop, or joined once. */
  ghost predicate InOnePlace(s: System, id: nat) {
    One(id in s.accepted)
    == One(id in s.fields.deposits) + One(s.collector == JoiningOne(id)) + One(s.stopper == Joining(id)) + s.joined[id]
  }

  ghost predicate Inv(s: System) {
    && (forall id :: InOnePlace(s, id))
    && (s.fields.isWaiting <==> s.collector.Asleep?)
    // the collector thread sleeps un-notified only when there is nothing for it to do
    && (s.collector == Asleep(false) ==> s.fields.reclaims == [] && !s.fields.destroying)
    && (!s.stopper.NotCalled? || s.collector.Ended? ==> s.fields.destroying)
    // once Stop reclaims by itself it is alone
    && (s.stopper.Reclaiming? || s.stopper.Joining? || s.stopper.Returned? ==>
          !s.needCreate && (s.collector.Absent? || s.collector.Ended?))
    && (s.stopper.NotCalled? || s.stopper.Marked? || s.stopper.HoldsLock? ==> s.needCreate)
    && (s.stopper.Returned? ==> s.fields.deposits == {})
  }

  lemma CollectorKeepsInv(s: System, t: System)
    requires Inv(s) && CollectorMoves(s, t)
    ensures Inv(t)
  {
    DrainedTakesOne(s.fields);
    forall id ensures InOnePlace(t, id) {
      assert InOnePlace(s, id);
    }
  }

  lemma StopKeepsInv(s: System, choice: nat, t: System)
    requires Inv(s) && StopMoves(s, choice, t)
    ensures Inv(t)
  {
    forall id ensures InOnePlace(t, id) {
      assert InOnePlace(s, id);
    }
  }

  lemma StepKeepsInv(s: System, a: Action, t: System)
    requires Inv(s) && Step(s, a, t)
    ensures Inv(t)
  {
    match a {
      case CollectorStep => CollectorKeepsInv(s, t);
      case StopStep(choice) => StopKeepsInv(s, choice, t);
      case DepositThread(id) => DepositKeepsInv(s, id, t);
      case _ => FrameKeepsInv(s, t);
    }
  }

  lemma DepositKeepsInv(s: System, id: nat, t: System)
    requires Inv(s) && Step(s, DepositThread(id), t)
    ensures Inv(t)
  {
    forall x ensures InOnePlace(t, x) {
      assert InOnePlace(s, x);
    }
  }

  /** Steps that move no thread: what changes is who is awake, what is announced and whether Stop was called. */
  lemma FrameKeepsInv(s: System, t: System)
    requires Inv(s) && t.accepted == s.accepted && t.fields.deposits == s.fields.deposits && t.joined == s.joined
    requires t.fields.isWaiting == s.fields.isWaiting && t.needCreate == s.needCreate
    requires t.collector == s.collector || (s.collector.Asleep? && t.collector == Asleep(true))
             || (s.collector.Absent? && s.needCreate && !s.stopper.HoldsLock? && t.collector == Deciding)
    requires s.collector == t.collector == Asleep(false) ==> t.fields.reclaims == [] && !t.fields.destroying
    requires t.stopper == s.stopper || (s.stopper.NotCalled? && t.stopper.Marked?)
    requires s.fields.destroying ==> t.fields.destroying
    requires t.stopper.Marked? && s.stopper.NotCalled? ==> t.fields.destroying
    ensures Inv(t)
  {
    forall x ensures InOnePlace(t, x) {
      assert InOnePlace(s, x);
    }
  }

  ghost predicate Run(ss: seq<System>, acts: seq<Action>) {
    |ss| == |acts| + 1 && forall i :: 0 <= i < |acts| ==> Step(ss[i], acts[i], ss[i + 1])
  }

  lemma {:induction false} RunKeepsInv(ss: seq<System>, acts: seq<Action>, n: nat)
    requires Run(ss, acts) && Init(ss[0]) && n <= |acts|
    ensures Inv(ss[n])
  {
    if n > 0 {
      RunKeepsInv(ss, acts, n - 1);
      StepKeepsInv(ss[n - 1], acts[n - 1], ss[n]);
    }
  }

  /** No thread is joined twice, and when Stop has returned every accepted thread has been joined. */
  lemma AllJoinedOnce(ss: seq<System>, acts: seq<Action>, n: nat, id: nat)
    requires Run(ss, acts) && Init(ss[0]) && n <= |acts|
    ensures ss[n].joined[id] <= 1
    ensures id in ss[n].joined ==> id in ss[n].accepted
    ensures ss[n].stopper.Returned? ==> (id in ss[n].accepted <==> ss[n].joined[id] == 1)
  {
    RunKeepsInv(ss, acts, n);
    assert InOnePlace(ss[n], id);
  }

  // ---------------------------------------------------------------- an announced thread is collected

  /** The thread is still to be found by the collector thread, or has been taken out. */
  ghost predicate Findable(s: System, id: nat) {
    id in s.accepted && (id in s.fields.deposits ==> id in s.fields.reclaims)
  }

  /** Draining leaves no announced thread behind among the deposits without its announcement. */
  lemma {:induction false} DrainedKeepsFindable(f: Fields, id: nat)
    requires id in f.deposits ==> id in f.reclaims
    ensures id in Drained(f).0.deposits ==> id in Drained(f).0.reclaims
    decreases |f.reclaims|
  {
    if f.reclaims != [] {
      var n := |f.reclaims| - 1;
      assert f.reclaims == f.reclaims[..n] + [f.reclaims[n]];
      if f.reclaims[n] !in f.deposits {
        DrainedKeepsFindable(f.(reclaims := f.reclaims[..n]), id);
      }
    }
  }

  lemma StepKeepsFindable(s: System, a: Action, t: System, id: nat)
    requires Inv(s) && Step(s, a, t) && Findable(s, id)
    ensures Findable(t, id)
  {
    match a {
      case CollectorStep => DrainedKeepsFindable(s.fields, id);
      case _ =>
    }
  }

  /** From its announcement on, if it was deposited and the collector was not being destroyed then, a thread stays
      findable as long as it stays deposited. */
  lemma {:induction false} AnnouncedStaysFindable(ss: seq<System>, acts: seq<Action>, m: nat, n: nat, id: nat)
    requires Run(ss, acts) && Init(ss[0]) && m < n <= |acts| && acts[m] == AnnounceThread(id)
    requires id in ss[m].fields.deposits && !ss[m].fields.destroying
    ensures Findable(ss[n], id)
    decreases n
  {
    RunKeepsInv(ss, acts, n - 1);
    assert Step(ss[n - 1], acts[n - 1], ss[n]);
    if n == m + 1 {
      assert InOnePlace(ss[m], id);
    } else {
      AnnouncedStaysFindable(ss, acts, m, n - 1, id);
      StepKeepsFindable(ss[n - 1], acts[n - 1], ss[n], id);
    }
  }

  /** An ended thread does not wait for Stop: whenever the collector thread has gone to sleep after the announcement,
      the thread has been joined. */
  lemma AnnouncedIsJoined(ss: seq<System>, acts: seq<Action>, m: nat, n: nat, id: nat)
    requires Run(ss, acts) && Init(ss[0]) && m < n <= |acts| && acts[m] == AnnounceThread(id)
    requires id in ss[m].fields.deposits && !ss[m].fields.destroying
    requires ss[n].collector == Asleep(false)
    ensures id !in ss[n].fields.deposits && ss[n].joined[id] == 1
  {
    AnnouncedStaysFindable(ss, acts, m, n, id);
    RunKeepsInv(ss, acts, n);
    assert InOnePlace(ss[n], id);
  }

  /** How many steps of the collector thread an announced thread is away from being joined, at most. */
  function JoinDistance(s: System, id: nat): nat {
    if id in s.fields.deposits then
      2 * |s.fields.reclaims| +
      match s.collector
      case Absent => 2
      case Asleep(_) => 2
      case Deciding => 1
      case JoiningOne(_) => 1
      case Draining => 0
      case Ended => 0
    else if s.collector == JoiningOne(id) then 1
    else 0
  }

  lemma CollectorComesCloser(s: System, t: System, id: nat)
    requires Inv(s) && CollectorMoves(s, t) && Findable(s, id) && !s.fields.destroying && s.joined[id] == 0
    ensures JoinDistance(t, id) < JoinDistance(s, id)
  {
    assert InOnePlace(s, id);
    if s.collector.Draining? {
      DrainedTakesOne(s.fields);
    }
  }

  lemma OtherStepKeepsJoinDistance(s: System, a: Action, t: System, id: nat)
    requires Inv(s) && Step(s, a, t) && !a.CollectorStep? && Findable(s, id) && !t.fields.destroying
    ensures JoinDistance(t, id) <= JoinDistance(s, id) + 2 * One(a.AnnounceThread?) && t.joined == s.joined
  {
  }

  /** How many of the steps from m to n are of the collector thread, and how many announce a thread. */
  function CollectorSteps(acts: seq<Action>, m: nat, n: nat): nat
    requires m <= n <= |acts|
    decreases n
  {
    if n == m then 0 else CollectorSteps(acts, m, n - 1) + One(acts[n - 1].CollectorStep?)
  }

  function Announcements(acts: seq<Action>, m: nat, n: nat): nat
    requires m <= n <= |acts|
    decreases n
  {
    if n == m then 0 else Announcements(acts, m, n - 1) + One(acts[n - 1].AnnounceThread?)
  }

  lemma DestroyingLasts(ss: seq<System>, acts: seq<Action>, m: nat, n: nat)
    requires Run(ss, acts) && m <= n <= |acts| && ss[m].fields.destroying && Init(ss[0])
    ensures ss[n].fields.destroying
    decreases n
  {
    if n > m {
      DestroyingLasts(ss, acts, m, n - 1);
      RunKeepsInv(ss, acts, n - 1);
      assert Step(ss[n - 1], acts[n - 1], ss[n]);
      WorkRunsOut(ss[n - 1], acts[n - 1], ss[n]);
    }
  }

  /** An announced thread is joined after as many steps of the collector thread as there were announcements left,
      two for each, and at most two more; every later announcement can add two, because the list of
      announcements is worked off from its end. */
  lemma {:induction false} JoinedSoon(ss: seq<System>, acts: seq<Action>, m: nat, n: nat, id: nat)
    requires Run(ss, acts) && Init(ss[0]) && m < n <= |acts| && acts[m] == AnnounceThread(id)
    requires id in ss[m].fields.deposits && !ss[n].fields.destroying
    ensures ss[n].joined[id] == 1
            || JoinDistance(ss[n], id) + CollectorSteps(acts, m + 1, n)
               <= 2 * |ss[m].fields.reclaims| + 4 + 2 * Announcements(acts, m + 1, n)
    ensures CollectorSteps(acts, m + 1, n) >= 2 * |ss[m].fields.reclaims| + 4 + 2 * Announcements(acts, m + 1, n) ==>
              ss[n].joined[id] == 1
    decreases n
  {
    if ss[m].fields.destroying {
      DestroyingLasts(ss, acts, m, n);
    }
    if ss[n - 1].fields.destroying {
      DestroyingLasts(ss, acts, n - 1, n);
    }
    AnnouncedStaysFindable(ss, acts, m, n, id);
    RunKeepsInv(ss, acts, n - 1);
    RunKeepsInv(ss, acts, n);
    assert Step(ss[n - 1], acts[n - 1], ss[n]);
    if n > m + 1 {
      JoinedSoon(ss, acts, m, n - 1, id);
      AnnouncedStaysFindable(ss, acts, m, n - 1, id);
      StepTowardsJoin(ss[n - 1], acts[n - 1], ss[n], id);
    }
  }

  lemma StepTowardsJoin(s: System, a: Action, t: System, id: nat)
    requires Inv(s) && Inv(t) && Step(s, a, t) && Findable(s, id) && !s.fields.destroying && !t.fields.destroying
    ensures t.joined[id] == 1
            || (s.joined[id] == 0
                && JoinDistance(t, id) + One(a.CollectorStep?) <= JoinDistance(s, id) + 2 * One(a.AnnounceThread?))
  {
    assert InOnePlace(s, id) && InOnePlace(t, id);
    if a.CollectorStep? {
      if s.joined[id] == 0 {
        CollectorComesCloser(s, t, id);
      }
    } else {
      OtherStepKeepsJoinDistance(s, a, t, id);
    }
  }

  /** And the collector thread can take those steps: unless it is not there yet and can be created, or the thread it
      joins has not ended. */
  lemma CollectorCanMove(s: System, id: nat)
    requires Inv(s) && Findable(s, id) && id in s.fields.deposits && !s.fields.destroying
    ensures (exists t :: CollectorMoves(s, t)) || (exists t :: Step(s, CreateCollector, t) && t.collector == Deciding)
            || (s.collector.JoiningOne? && s.collector.id in s.alive)
  {
    match s.collector {
      case Absent => assert Step(s, CreateCollector, s.(collector := Deciding));
      case Deciding => assert CollectorMoves(s, s.(collector := Draining));
      case Draining =>
        DrainedTakesOne(s.fields);
        var (f, taken) := Drained(s.fields);
        var x :| x in taken;
        assert taken == {x} by { SingletonOf(taken, x); }
        assert CollectorMoves(s, s.(fields := f, collector := JoiningOne(x)));
      case JoiningOne(x) =>
        if x !in s.alive {
          assert CollectorMoves(s, s.(collector := Draining, joined := s.joined + multiset{x}));
        }
      case Asleep(notified) =>
        assert notified;
        assert CollectorMoves(s, s.(collector := Deciding, fields := s.fields.(isWaiting := false)));
    }
  }

  /** After the inner loop the collector thread goes to sleep exactly when it is not being destroyed and no announced
      thread is deposited any more; it does not spin. */
  lemma CollectorSleepsExactly(s: System, t: System)
    requires Inv(s) && CollectorMoves(s, t) && s.collector.Draining?
    ensures t.collector == Asleep(false) <==>
              !s.fields.destroying && forall id :: id in s.fields.reclaims ==> id !in s.fields.deposits
  {
    DrainedTakesOne(s.fields);
    var (f, taken) := Drained(s.fields);
    if id :| id in taken {
      assert id in s.fields.reclaims && id in s.fields.deposits;
    }
  }

  /** A thread is joined only after it has ended: as long as it has not, it is alive once accepted, and not joined. */
  lemma {:induction false} JoinedAfterEnd(ss: seq<System>, acts: seq<Action>, n: nat, id: nat)
    requires Run(ss, acts) && Init(ss[0]) && n <= |acts|
    requires forall i :: 0 <= i < n ==> acts[i] != ThreadEnds(id)
    ensures id !in ss[n].joined && (id in ss[n].accepted ==> id in ss[n].alive)
  {
    if n > 0 {
      JoinedAfterEnd(ss, acts, n - 1, id);
      RunKeepsInv(ss, acts, n - 1);
      assert Step(ss[n - 1], acts[n - 1], ss[n]) && acts[n - 1] != ThreadEnds(id);
      NotJoinedYet(ss[n - 1], acts[n - 1], ss[n], id);
    }
  }

  lemma NotJoinedYet(s: System, a: Action, t: System, id: nat)
    requires Inv(s) && Step(s, a, t) && a != ThreadEnds(id) && id !in s.joined && (id in s.accepted ==> id in s.alive)
    ensures id !in t.joined && (id in t.accepted ==> id in t.alive)
  {
    assert InOnePlace(s, id);
  }

  // ---------------------------------------------------------------- Stop comes to an end

  /** What is left to do once the collector is being destroyed. */
  function WorkLeft(s: System): nat {
    3 * |s.fields.deposits| + 2 * |s.fields.reclaims| + CollectorWork(s) + StopWork(s.stopper)
  }

  function CollectorWork(s: System): nat {
    match s.collector
    case Absent => if s.needCreate then 4 else 0
    case Asleep(_) => 3
    case Deciding => 2
    case JoiningOne(_) => 3
    case Draining => 1
    case Ended => 0
  }

  function StopWork(p: Stopper): nat {
    match p
    case NotCalled => 5
    case Marked => 4
    case HoldsLock => 3
    case Reclaiming => 1
    case Joining(_) => 3
    case Returned => 0
  }

  /** While destroying_ is set, every step of the collector thread and of Stop uses up work and no other
      step adds any, because deposits and announcements are refused. */
  lemma WorkRunsOut(s: System, a: Action, t: System)
    requires Inv(s) && Step(s, a, t) && s.fields.destroying
    ensures t.fields.destroying && WorkLeft(t) <= WorkLeft(s)
    ensures a.CollectorStep? || a.StopStep? ==> WorkLeft(t) < WorkLeft(s)
  {
    match a {
      case CollectorStep => CollectorWorks(s, t);
      case StopStep(choice) => StopWorks(s, choice, t);
      case _ =>
    }
  }

  lemma CollectorWorks(s: System, t: System)
    requires CollectorMoves(s, t) && s.fields.destroying
    ensures t.fields.destroying && WorkLeft(t) < WorkLeft(s)
  {
    if s.collector.Draining? {
      DrainedTakesOne(s.fields);
      var (f, taken) := Drained(s.fields);
      if taken != {} {
        assert |s.fields.deposits| == |taken + f.deposits| == |taken| + |f.deposits|;
      } else {
        assert f.deposits == s.fields.deposits;
      }
    }
  }

  lemma StopWorks(s: System, choice: nat, t: System)
    requires StopMoves(s, choice, t) && s.fields.destroying
    ensures t.fields.destroying && WorkLeft(t) < WorkLeft(s)
  {
  }

  /** How many of the steps from m to n are steps of the collector thread or of Stop. */
  function Moves(acts: seq<Action>, m: nat, n: nat): nat
    requires m <= n <= |acts|
    decreases n
  {
    if n == m then 0 else Moves(acts, m, n - 1) + One(acts[n - 1].CollectorStep? || acts[n - 1].StopStep?)
  }

  lemma {:induction false} MovesUseUpWork(ss: seq<System>, acts: seq<Action>, m: nat, n: nat)
    requires Run(ss, acts) && Init(ss[0]) && m <= n <= |acts| && ss[m].fields.destroying
    ensures ss[n].fields.destroying && WorkLeft(ss[n]) + Moves(acts, m, n) <= WorkLeft(ss[m])
    decreases n
  {
    if n > m {
      MovesUseUpWork(ss, acts, m, n - 1);
      RunKeepsInv(ss, acts, n - 1);
      WorkRunsOut(ss[n - 1], acts[n - 1], ss[n]);
    }
  }

  /** From the moment that destroying_ is set, Stop has returned after at most as many steps of its own and
      of the collector thread as there is work left then, whatever other threads do in between; with
      StopIsNeverStuck those steps are taken as soon as the threads being joined have ended. */
  lemma StopReturns(ss: seq<System>, acts: seq<Action>, m: nat, n: nat)
    requires Run(ss, acts) && Init(ss[0]) && m <= n <= |acts| && ss[m].fields.destroying
    ensures Moves(acts, m, n) <= WorkLeft(ss[m])
    ensures Moves(acts, m, n) == WorkLeft(ss[m]) ==> ss[n].stopper.Returned?
  {
    MovesUseUpWork(ss, acts, m, n);
  }

  /** Until it has returned, Stop is never stuck: it or the collector thread can move, or one of them
      waits for a thread that has not ended yet. */
  lemma StopIsNeverStuck(s: System)
    requires Inv(s) && !s.stopper.NotCalled? && !s.stopper.Returned?
    ensures
      || (exists t, choice :: StopMoves(s, choice, t))
      || (exists t :: CollectorMoves(s, t))
      || (exists id :: id in s.alive && (s.collector == JoiningOne(id) || s.stopper == Joining(id)))
  {
    match s.stopper {
      case Marked => assert StopMoves(s, 0, s.(stopper := HoldsLock));
      case Reclaiming =>
        if s.fields.deposits == {} {
          assert StopMoves(s, 0, s.(stopper := Returned));
        } else {
          var c :| c in s.fields.deposits;
          assert StopMoves(s, c, s.(fields := s.fields.(deposits := s.fields.deposits - {c}), stopper := Joining(c)));
        }
      case Joining(id) =>
        if id !in s.alive {
          assert StopMoves(s, 0, s.(stopper := Reclaiming, joined := s.joined + multiset{id}));
        }
      case HoldsLock => CollectorMovesOn(s);
    }
  }

  lemma CollectorMovesOn(s: System)
    requires Inv(s) && s.stopper.HoldsLock?
    ensures
      || (exists t, choice :: StopMoves(s, choice, t))
      || (exists t :: CollectorMoves(s, t))
      || (exists id :: id in s.alive && s.collector == JoiningOne(id))
  {
    match s.collector {
      case Absent => assert StopMoves(s, 0, s.(stopper := Reclaiming, needCreate := false));
      case Ended => assert StopMoves(s, 0, s.(stopper := Reclaiming, needCreate := false));
      case Deciding => assert CollectorMoves(s, s.(collector := Ended));
      case Draining =>
        DrainedTakesOne(s.fields);
        var (f, taken) := Drained(s.fields);
        if taken != {} {
          var id :| id in taken;
          assert taken == {id} by { SingletonOf(taken, id); }
          assert CollectorMoves(s, s.(fields := f, collector := JoiningOne(id)));
        } else {
          assert CollectorMoves(s, s.(fields := f, collector := Ended));
        }
      case JoiningOne(id) =>
        if id !in s.alive {
          assert CollectorMoves(s, s.(collector := Draining, joined := s.joined + multiset{id}));
        }
      case Asleep(notified) =>
        assert notified;
        assert CollectorMoves(s, s.(collector := Deciding, fields := s.fields.(isWaiting := false)));
    }
  }

  lemma SingletonOf(s: set<nat>, x: nat)
    requires |s| <= 1 && x in s
    ensures s == {x}
  {
    if y :| y in s && y != x {
      assert |{x, y}| == 2 && {x, y} <= s;
      SubsetSize({x, y}, s);
    }
  }

  lemma {:induction false} SubsetSize(a: set<nat>, b: set<nat>)
    requires a <= b
    ensures |a| <= |b|
  {
    assert |b - a| + |a| == |b| by { assert (b - a) + a == b; }
  }
}
