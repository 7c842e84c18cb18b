/** What PickEventLocked chooses: which queue, when nothing, and how long a lower queue can be kept
    waiting. */
module PickPolicy {
  import opened Events
  import opened EventLists
  import opened QueueState

  // ---------------------------------------------------------------- which queues pass the scan

  /** Normal mode: the head is due and strictly earlier than every higher-priority head.
      Barrier mode: the queue holds a due barrier task. */
  ghost predicate Passes(s: State, now: Instant, i: nat)
    requires i < 4
  {
    if s.vs.barrier then HasDueBarrier(s.sub[i].queue, now)
    else
      && s.sub[i].queue != []
      && s.sub[i].queue[0].handleTime <= now
      && forall j :: 0 <= j < i && s.sub[j].queue != [] ==>
           s.sub[i].queue[0].handleTime < s.sub[j].queue[0].handleTime
  }

  /** The earliest head among the sub queues below i. */
  function MinHead(sub: SubQueues, i: nat): TimePoint
    requires i <= 4
  {
    if i == 0 then MAX_TIME
    else
      var t := MinHead(sub, i - 1);
      if sub[i - 1].queue != [] && sub[i - 1].queue[0].handleTime < t then sub[i - 1].queue[0].handleTime else t
  }

  lemma {:induction false} MinHeadIsMin(sub: SubQueues, i: nat)
    requires i <= 4
    ensures forall j :: 0 <= j < i && sub[j].queue != [] ==> MinHead(sub, i) <= sub[j].queue[0].handleTime
    ensures MinHead(sub, i) == MAX_TIME
            || exists j :: 0 <= j < i && sub[j].queue != [] && MinHead(sub, i) == sub[j].queue[0].handleTime
  {
    if i > 0 {
      MinHeadIsMin(sub, i - 1);
    }
  }

  lemma CheckMeansPasses(s: State, now: Instant, i: nat)
    requires WellFormed(s) && i < 4
    ensures var c := CheckQueue(s.sub[i].queue, s.vs.barrier, now, MinHead(s.sub, i));
      (c.hit <==> Passes(s, now, i)) && c.wakeUp == MinHead(s.sub, i + 1)
  {
    MinHeadIsMin(s.sub, i);
    assert SubQueueOk(s.sub[i], i);
    if s.vs.barrier {
      CheckBarrierIsExact(s.sub[i].queue, now, MinHead(s.sub, i));
    }
  }

  /** Which queues pass, as a vector. */
  ghost function Passing(s: State, now: Instant): (v: seq<bool>)
    ensures |v| == 4 && forall i :: 0 <= i < 4 ==> (v[i] <==> Passes(s, now, i))
  {
    [Passes(s, now, 0), Passes(s, now, 1), Passes(s, now, 2), Passes(s, now, 3)]
  }

  /** The first passing queue whose counter has not reached the limit is chosen; without one, the
      last passing queue is. A counter is incremented exactly when a lower queue that passes loses
      its turn, and only then may the scan stop before it has seen every head. */
  ghost predicate ScanIsRight(sub: SubQueues, pass: seq<bool>, r: Scan)
    requires |pass| == 4
  {
    && (r.bumped == 4 || r.bumped == r.index < 4)
    && (r.index >= 4 <==> forall i :: 0 <= i < 4 ==> !pass[i])
    && (r.index < 4 ==> pass[r.index] && forall j :: 0 <= j < r.index && pass[j] ==> sub[j].handled >= MAX_HANDLED)
    && (r.bumped < 4 ==> sub[r.index].handled < MAX_HANDLED && exists j :: r.index < j < 4 && pass[j])
    && (r.bumped == 4 ==> r.wakeUp == MinHead(sub, 4) && forall j :: r.index < j < 4 ==> !pass[j])
  }

  lemma EarlyBreakIsRight(sub: SubQueues, pass: seq<bool>, candidate: nat, i: nat, wakeUp: TimePoint)
    requires |pass| == 4 && candidate < i < 4 && pass[candidate] && pass[i] && sub[candidate].handled < MAX_HANDLED
    requires forall j :: 0 <= j < candidate && pass[j] ==> sub[j].handled >= MAX_HANDLED
    ensures ScanIsRight(sub, pass, Scan(candidate, wakeUp, candidate))
  {
  }

  lemma {:induction false} ScanFromExact(sub: SubQueues, barrier: bool, now: Instant, pass: seq<bool>, i: nat, candidate: nat)
    requires |pass| == 4 && i <= 4 && (candidate < i || candidate == 4)
    requires forall k :: 0 <= k < 4 ==>
               CheckQueue(sub[k].queue, barrier, now, MinHead(sub, k)) == Check(pass[k], MinHead(sub, k + 1))
    requires if candidate == 4 then forall j :: 0 <= j < i ==> !pass[j]
             else pass[candidate]
                  && (forall j :: 0 <= j < candidate && pass[j] ==> sub[j].handled >= MAX_HANDLED)
                  && (forall j :: candidate < j < i ==> !pass[j])
    ensures ScanIsRight(sub, pass, ScanFrom(sub, barrier, now, i, candidate, MinHead(sub, i)))
    decreases 4 - i
  {
    if i < 4 {
      var c := CheckQueue(sub[i].queue, barrier, now, MinHead(sub, i));
      assert c == Check(pass[i], MinHead(sub, i + 1));
      if !pass[i] {
        ScanFromExact(sub, barrier, now, pass, i + 1, candidate);
      } else if candidate == 4 || sub[candidate].handled >= MAX_HANDLED {
        ScanFromExact(sub, barrier, now, pass, i + 1, i);
      } else {
        assert ScanFrom(sub, barrier, now, i, candidate, MinHead(sub, i)) == Scan(candidate, MinHead(sub, i + 1), candidate);
        EarlyBreakIsRight(sub, pass, candidate, i, MinHead(sub, i + 1));
      }
    }
  }

  lemma ScanExact(s: State, now: Instant)
    requires WellFormed(s)
    ensures ScanIsRight(s.sub, Passing(s, now), ScanAll(s, now))
  {
    var pass := Passing(s, now);
    forall k | 0 <= k < 4
      ensures CheckQueue(s.sub[k].queue, s.vs.barrier, now, MinHead(s.sub, k)) == Check(pass[k], MinHead(s.sub, k + 1))
    {
      CheckMeansPasses(s, now, k);
    }
    ScanFromExact(s.sub, s.vs.barrier, now, pass, 0, 4);
  }

  lemma HeadIsEarliest(q: seq<Event>, e: Event)
    requires Sorted(q) && e in q
    ensures q[0].handleTime <= e.handleTime
  {
  }

  /** In normal mode the first queue to pass is the highest-priority queue with any due event. */
  lemma FirstToPass(s: State, now: Instant, i: nat)
    requires WellFormed(s) && !s.vs.barrier && i < 4
    ensures (Passes(s, now, i) && forall j :: 0 <= j < i ==> !Passes(s, now, j))
            <==> (HasDue(s.sub[i].queue, now) && forall j :: 0 <= j < i ==> !HasDue(s.sub[j].queue, now))
  {
    DueMeansHeadDue(s, now);
    forall j | 0 <= j < i && HasDue(s.sub[j].queue, now) ensures exists k :: 0 <= k < i && Passes(s, now, k) {
      HighestDuePasses(s, now, j);
    }
    if (forall j :: 0 <= j < i ==> !Passes(s, now, j)) || forall j :: 0 <= j < i ==> !HasDue(s.sub[j].queue, now) {
      assert forall j :: 0 <= j < i ==> !HasDue(s.sub[j].queue, now);
      assert Passes(s, now, i) <==> HasDue(s.sub[i].queue, now);
    }
  }

  lemma DueMeansHeadDue(s: State, now: Instant)
    requires WellFormed(s)
    ensures forall i :: 0 <= i < 4 ==>
              (HasDue(s.sub[i].queue, now) <==> s.sub[i].queue != [] && s.sub[i].queue[0].handleTime <= now)
  {
  }

  /** At or above any queue with a due event, some queue passes. */
  lemma HighestDuePasses(s: State, now: Instant, i: nat)
    requires WellFormed(s) && !s.vs.barrier && i < 4 && HasDue(s.sub[i].queue, now)
    ensures exists j :: 0 <= j <= i && Passes(s, now, j)
  {
    DueMeansHeadDue(s, now);
    if j :| 0 <= j < i && HasDue(s.sub[j].queue, now) {
      HighestDuePasses(s, now, j);
    } else {
      assert Passes(s, now, i);
    }
  }

  /** The queue has something to give: a due event, or in barrier mode a due barrier task. */
  ghost predicate HasWork(s: State, now: Instant, i: nat)
    requires i < 4
  {
    if s.vs.barrier then HasDueBarrier(s.sub[i].queue, now) else HasDue(s.sub[i].queue, now)
  }

  lemma PassingMeansWork(s: State, now: Instant)
    requires WellFormed(s)
    ensures forall i :: 0 <= i < 4 && Passes(s, now, i) ==> HasWork(s, now, i)
    ensures (exists i :: 0 <= i < 4 && HasWork(s, now, i)) ==> exists i :: 0 <= i < 4 && Passes(s, now, i)
  {
    if s.vs.barrier {
      assert forall i :: 0 <= i < 4 ==> (Passes(s, now, i) <==> HasWork(s, now, i));
    } else {
      DueMeansHeadDue(s, now);
      assert forall i :: 0 <= i < 4 ==> (HasWork(s, now, i) <==> HasDue(s.sub[i].queue, now));
      if i :| 0 <= i < 4 && HasWork(s, now, i) {
        HighestDuePasses(s, now, i);
      }
    }
  }

  // ---------------------------------------------------------------- the pick

  /** A vsync task is queued, announced and not held back for polling. */
  predicate VsyncReady(s: State) {
    && s.vs.pending != 0 && !s.vs.needEpoll
    && FirstIndex(s.sub[VIP].queue, VsyncTask) < |s.sub[VIP].queue|
  }

  /** How a pick ends, in terms of the scan. */
  function KindOf(s: State, scan: Scan): PickKind {
    if scan.index >= HIGH && VsyncReady(s) then VsyncPick
    else if scan.index >= 4 then NoPick
    else if PopPosition(s.sub[scan.index].queue, s.vs.barrier) >= |s.sub[scan.index].queue| then NoPick
    else QueuePick(scan.index)
  }

  lemma PickFollowsScan(s: State, now: Instant)
    ensures Pick(s, now).kind == KindOf(s, ScanAll(s, now))
    ensures Pick(s, now).state.wakeUp == ScanAll(s, now).wakeUp
  {
  }

  /** A passing queue has an event at the position that is popped. */
  lemma ChosenHasEvent(s: State, now: Instant)
    requires WellFormed(s)
    ensures var i := ScanAll(s, now).index;
      i < 4 ==>
        var q := s.sub[i].queue; var k := PopPosition(q, s.vs.barrier);
        k < |q| && q[k].handleTime <= now && (s.vs.barrier ==> q[k].isBarrier)
  {
    ScanExact(s, now);
    var i := ScanAll(s, now).index;
    if i < 4 {
      assert SubQueueOk(s.sub[i], i) && Passes(s, now, i);
      if s.vs.barrier {
        CheckBarrierIsExact(s.sub[i].queue, now, MAX_TIME);
      }
    }
  }

  /** Work conservation: a pick comes back empty exactly when no queue has anything to give in the
      current mode and no vsync task is ready; the wake-up time is then the earliest head. */
  lemma PickNothing(s: State, now: Instant)
    requires WellFormed(s)
    ensures Pick(s, now).event.None? <==> (forall i :: 0 <= i < 4 ==> !HasWork(s, now, i)) && !VsyncReady(s)
    ensures Pick(s, now).event.None? ==> Pick(s, now).state.wakeUp == MinHead(s.sub, 4)
  {
    PickCases(s, now);
    PickFollowsScan(s, now);
    ScanExact(s, now);
    ChosenHasEvent(s, now);
    PassingMeansWork(s, now);
  }

  /** t is the earliest handle time over all sub queues, or the maximum when they are empty. */
  ghost predicate IsEarliest(s: State, t: TimePoint) {
    && (forall i, e :: 0 <= i < 4 && e in s.sub[i].queue ==> t <= e.handleTime)
    && (t == MAX_TIME || exists i, e :: 0 <= i < 4 && e in s.sub[i].queue && e.handleTime == t)
  }

  lemma MinHeadIsEarliest(s: State)
    requires WellFormed(s)
    ensures IsEarliest(s, MinHead(s.sub, 4))
  {
    MinHeadIsMin(s.sub, 4);
    var t := MinHead(s.sub, 4);
    forall i, e | 0 <= i < 4 && e in s.sub[i].queue ensures t <= e.handleTime {
      assert SubQueueOk(s.sub[i], i);
      HeadIsEarliest(s.sub[i].queue, e);
    }
    if t != MAX_TIME {
      var j :| 0 <= j < 4 && s.sub[j].queue != [] && t == s.sub[j].queue[0].handleTime;
      assert s.sub[j].queue[0] in s.sub[j].queue;
    }
  }

  /** A ready vsync task goes first unless VIP or IMMEDIATE passes and either has turns left or competes
      with no lower queue. */
  lemma VsyncGoesFirst(s: State, now: Instant)
    requires WellFormed(s)
    ensures Pick(s, now).kind.VsyncPick? <==>
            && VsyncReady(s)
            && forall j :: 0 <= j < HIGH && Passes(s, now, j) ==>
                 s.sub[j].handled == MAX_HANDLED && (Passes(s, now, HIGH) || Passes(s, now, LOW))
  {
    PickFollowsScan(s, now);
    ScanExact(s, now);
    ChosenHasEvent(s, now);
    CountersBounded(s);
  }

  /** Which event a pick hands out. A vsync pick hands out a vsync task. Any other event is due and comes from a
      queue that passes; every passing queue of a higher priority has used up its turns, and in normal
      mode its head is strictly later; a queue that has used up its turns is chosen only when no lower
      queue passes. */
  lemma PickChoice(s: State, now: Instant)
    requires WellFormed(s)
    ensures var p := Pick(s, now);
      match p.kind
      case NoPick => true
      case VsyncPick => p.event.value.isVsync
      case QueuePick(k) =>
        && k < 4 && Passes(s, now, k)
        && p.event.value in s.sub[k].queue && p.event.value.handleTime <= now
        && (s.vs.barrier ==> p.event.value.isBarrier)
        && (!s.vs.barrier ==> p.event.value == s.sub[k].queue[0])
        && (forall j :: 0 <= j < k && Passes(s, now, j) ==>
              s.sub[j].handled == MAX_HANDLED
              && (!s.vs.barrier ==> p.event.value.handleTime < s.sub[j].queue[0].handleTime))
        && (s.sub[k].handled == MAX_HANDLED ==> forall j :: k < j < 4 ==> !Passes(s, now, j))
  {
    PickFollowsScan(s, now);
    PickCases(s, now);
    ScanExact(s, now);
    ChosenHasEvent(s, now);
    CountersBounded(s);
    BeforePopQueues(s, now, false);
  }

  /** Exactly when the scan chooses queue k: it passes, every passing queue above has used up its turns, and k has
      turns left or competes with no lower queue. */
  lemma ChosenExactly(s: State, now: Instant, k: nat)
    requires WellFormed(s) && k < 4
    ensures ScanAll(s, now).index == k <==>
              && Passes(s, now, k)
              && (forall j :: 0 <= j < k && Passes(s, now, j) ==> s.sub[j].handled == MAX_HANDLED)
              && (s.sub[k].handled < MAX_HANDLED || forall j :: k < j < 4 ==> !Passes(s, now, j))
  {
    ScanExact(s, now);
    CountersBounded(s);
  }

  /** A VIP queue that passes, which in normal mode means that it holds a due event, is served exactly when it has
      turns left or no lower queue passes: otherwise a lower queue, or a vsync task, goes first. */
  lemma VipIsServed(s: State, now: Instant)
    requires WellFormed(s)
    ensures !s.vs.barrier ==> (Passes(s, now, VIP) <==> HasDue(s.sub[VIP].queue, now))
    ensures Passes(s, now, VIP) ==>
              (Pick(s, now).kind == QueuePick(VIP) <==>
                 s.sub[VIP].handled < MAX_HANDLED || forall j :: VIP < j < 4 ==> !Passes(s, now, j))
  {
    PickFollowsScan(s, now);
    ChosenExactly(s, now, VIP);
    ChosenHasEvent(s, now);
    if !s.vs.barrier {
      DueMeansHeadDue(s, now);
    }
  }

  lemma CountersBounded(s: State)
    requires WellFormed(s)
    ensures forall j :: 0 <= j < 4 ==> s.sub[j].handled <= MAX_HANDLED
  {
  }

  // ---------------------------------------------------------------- bounded starvation

  /** The three counters read as a number in base 6. */
  function Weight(sub: SubQueues): nat {
    sub[0].handled + 6 * sub[1].handled + 36 * sub[2].handled
  }

  lemma PickCounters(s: State, now: Instant)
    ensures var p := Pick(s, now); var scan := ScanAll(s, now);
      forall i :: 0 <= i < 4 ==>
        p.state.sub[i].handled ==
        if p.kind.VsyncPick? || scan.index == 4 then s.sub[i].handled + One(i == scan.bumped)
        else if i < scan.index then 0
        else s.sub[i].handled + One(i == scan.bumped)
  {
    PickCases(s, now);
  }

  /** While LOW passes at a pick, the counters count up: every pick from a higher queue makes the
      number strictly larger, and no vsync pick makes it smaller. */
  lemma LowWaitsItsTurn(s: State, now: Instant)
    requires WellFormed(s) && Passes(s, now, LOW)
    ensures var p := Pick(s, now);
      match p.kind
      case NoPick => false
      case VsyncPick => Weight(p.state.sub) >= Weight(s.sub)
      case QueuePick(k) => k == LOW || Weight(p.state.sub) > Weight(s.sub)
  {
    TurnComes(s, now, LOW);
  }

  // The same for every queue: what has to be used up before queue k has its turn.

  /** The counters above queue k, read as a number in base 6. */
  function Ahead(sub: SubQueues, k: nat): nat {
    if k == VIP then 0
    else if k == IMMEDIATE then sub[0].handled
    else if k == HIGH then sub[0].handled + 6 * sub[1].handled
    else Weight(sub)
  }

  /** Queue k has to wait for one more round through the counters above it when it has given its turn to a lower
      queue, which only a queue above LOW can do. */
  function TurnWeight(sub: SubQueues, k: nat): nat {
    Ahead(sub, k) +
    if k < LOW && sub[k].handled < MAX_HANDLED then (if k == VIP then 1 else if k == IMMEDIATE then 6 else 36) else 0
  }

  /** How many picks can come before the turn of queue k. */
  function TurnBound(k: nat): nat {
    if k == VIP then 1 else if k == IMMEDIATE then 11 else if k == HIGH then 71 else 215
  }

  lemma SameWeight(a: SubQueues, b: SubQueues, k: nat)
    requires k < 4 && forall i :: 0 <= i < 4 ==> a[i].handled == b[i].handled
    ensures TurnWeight(a, k) == TurnWeight(b, k)
  {
  }

  lemma TurnWeightBound(s: State, k: nat)
    requires WellFormed(s) && k < 4
    ensures TurnWeight(s.sub, k) <= TurnBound(k)
  {
    CountersBounded(s);
  }

  /** What a pick from queue `index`, or a vsync pick in its place, does to the weight of queue k. */
  lemma TurnArithmetic(sub: SubQueues, t: SubQueues, k: nat, index: nat, bumped: nat, vsync: bool)
    requires k < 4 && index < 4 && (bumped == 4 || bumped == index)
    requires forall i :: 0 <= i < 4 ==> sub[i].handled <= MAX_HANDLED
    requires forall i :: 0 <= i < 4 ==>
               t[i].handled == if vsync || i >= index then sub[i].handled + One(i == bumped) else 0
    requires index < k ==> bumped == index && sub[index].handled < MAX_HANDLED
    requires index > k ==> sub[k].handled == MAX_HANDLED
    requires vsync ==> index >= HIGH
    ensures if vsync then k != HIGH ==> TurnWeight(t, k) >= TurnWeight(sub, k)
            else index == k || TurnWeight(t, k) > TurnWeight(sub, k)
  {
    if !vsync && index < k {
      assert index == 0 || index == 1 || index == 2;
    }
  }

  /** While queue k passes, every pick from another queue makes its weight larger, and no vsync pick makes it
      smaller unless k is HIGH. */
  lemma TurnComes(s: State, now: Instant, k: nat)
    requires WellFormed(s) && k < 4 && Passes(s, now, k)
    ensures var p := Pick(s, now);
      match p.kind
      case NoPick => false
      case VsyncPick => k != HIGH ==> TurnWeight(p.state.sub, k) >= TurnWeight(s.sub, k)
      case QueuePick(j) => j == k || TurnWeight(p.state.sub, k) > TurnWeight(s.sub, k)
  {
    var p, scan := Pick(s, now), ScanAll(s, now);
    ScanPast(s, now, k);
    PickCounters(s, now);
    CountersBounded(s);
    TurnArithmetic(s.sub, p.state.sub, k, scan.index, scan.bumped, p.kind.VsyncPick?);
  }

  /** The scan with a passing queue k: a queue above is chosen at the price of its counter, a queue below only when
      k has used up its turns. */
  lemma ScanPast(s: State, now: Instant, k: nat)
    requires WellFormed(s) && k < 4 && Passes(s, now, k)
    ensures var scan := ScanAll(s, now);
      && scan.index < 4 && (scan.bumped == 4 || scan.bumped == scan.index)
      && (scan.index < k ==> scan.bumped == scan.index && s.sub[scan.index].handled < MAX_HANDLED)
      && (scan.index > k ==> s.sub[k].handled == MAX_HANDLED)
      && Pick(s, now).kind == if scan.index >= HIGH && VsyncReady(s) then VsyncPick else QueuePick(scan.index)
  {
    PickFollowsScan(s, now);
    ScanExact(s, now);
    ChosenHasEvent(s, now);
    CountersBounded(s);
  }

  /** What is different about HIGH: its counter is raised before the vsync override takes the pick, so vsync tasks
      use up its turns against LOW. With nothing to give above, each vsync pick costs HIGH a turn, and when
      all are gone the next event that is no vsync task comes from LOW. */
  lemma VsyncUsesUpTurns(s: State, now: Instant)
    requires WellFormed(s) && Passes(s, now, HIGH) && Passes(s, now, LOW)
    requires !Passes(s, now, VIP) && !Passes(s, now, IMMEDIATE)
    ensures var p := Pick(s, now); var before, after := s.sub[HIGH].handled, p.state.sub[HIGH].handled;
      && (p.kind.VsyncPick? <==> VsyncReady(s))
      && (p.kind.VsyncPick? ==> after == if before < MAX_HANDLED then before + 1 else before)
      && (p.kind == QueuePick(LOW) <==> !VsyncReady(s) && before == MAX_HANDLED)
      && (p.kind == QueuePick(LOW) ==> after == 0)
  {
    PickFollowsScan(s, now);
    PickCounters(s, now);
    ScanExact(s, now);
    ChosenHasEvent(s, now);
    CountersBounded(s);
  }

  /** The bound is exact: when all four queues pass, a pick is LOW's turn exactly when the number
      stands at 215, and every other pick adds one to it. */
  lemma LowWaitsExactly(s: State, now: Instant)
    requires WellFormed(s) && !VsyncReady(s)
    requires forall i :: 0 <= i < 4 ==> Passes(s, now, i)
    ensures var p := Pick(s, now);
      && p.kind.QueuePick?
      && (p.kind.from == LOW <==> Weight(s.sub) == 215)
      && (p.kind.from != LOW ==> Weight(p.state.sub) == Weight(s.sub) + 1)
      && (p.kind.from == LOW ==> Weight(p.state.sub) == 0)
  {
    PickFollowsScan(s, now);
    PickCounters(s, now);
    ScanExact(s, now);
    ChosenHasEvent(s, now);
    CountersBounded(s);
  }
}
