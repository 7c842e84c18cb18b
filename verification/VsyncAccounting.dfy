/** The pending-vsync count against the vsync tasks that really exist: no operation forgets one, and
    barrier mode never outlives its reason. */
module VsyncAccounting {
  import opened Events
  import opened EventLists
  import opened Vsync
  import opened QueueState

  /** The count covers every queued vsync task and the ones handed out but not yet run; barrier mode
      has a reason; no time that is added to is out of range. */
  ghost predicate VsyncSafe(s: State, inHand: nat, now: Instant) {
    && VsyncPlaced(s)
    && s.vs.pending >= VsyncCount(s.sub[VIP].queue) + inHand
    && BarrierHasReason(s.vs)
    && TimesInRange(s.vs, now)
  }

  /** What every sender of a vsync task does: the task goes to VIP unmarked, and the int8 counter has
      room for it. */
  predicate Disciplined(s: State, e: Event, p: Priority) {
    e.isVsync ==> p == VIP && !e.isBarrier && s.vs.pending < 127
  }

  // ---------------------------------------------------------------- insertion

  lemma InsertKeepsPlaced(q: seq<Event>, m: Event, at: InsertType, p: nat)
    requires PlacedIn(q, p) && (m.isVsync ==> p == VIP && !m.isBarrier)
    ensures PlacedIn(InsertAt(q, m, at), p)
  {
  }

  lemma InsertKeepsVsync(s: State, e: Event, p: Priority, at: InsertType, option: BarrierOption, sender: Sender,
                         now: Instant, inHand: nat)
    requires VsyncSafe(s, inHand, now) && Disciplined(s, e, p)
    ensures VsyncSafe(Insert(s, e, p, at, option, sender, now).state, inHand, now)
  {
    if s.usable {
      var m := Marked(e, option, sender).(priority := p);
      assert m.isVsync ==> p == VIP && !m.isBarrier;
      InsertKeepsPlaced(ListOf(s, p), m, at, p);
      if p < 4 {
        SubInsertKeepsVsync(s, m, p, at, now, inHand);
      }
    }
  }

  lemma SubInsertKeepsVsync(s: State, m: Event, p: nat, at: InsertType, now: Instant, inHand: nat)
    requires VsyncSafe(s, inHand, now) && p < 4 && PlacedIn(InsertAt(s.sub[p].queue, m, at), p)
    requires m.isVsync ==> p == VIP && s.vs.pending < 127
    ensures VsyncSafe(s.(sub := s.sub[p := InsertInto(s.sub[p], m, at)],
                         vs := if m.isVsync then Dispatch(s.vs, now) else s.vs), inHand, now)
  {
    VsyncCountInsert(s.sub[VIP].queue, m, at);
  }

  /** Exactly when the count survives one more vsync task at VIP: when the int8 counter does not wrap. */
  lemma VsyncInsertExact(s: State, e: Event, at: InsertType, option: BarrierOption, sender: Sender, now: Instant)
    requires s.usable && e.isVsync
    requires s.vs.pending >= VsyncCount(s.sub[VIP].queue)
    ensures var t := Insert(s, e, VIP, at, option, sender, now).state;
      t.vs.pending >= VsyncCount(t.sub[VIP].queue) <==> s.vs.pending != 127
  {
    var m := Marked(e, option, sender).(priority := VIP);
    VsyncCountInsert(s.sub[VIP].queue, m, at);
  }

  // ---------------------------------------------------------------- removal

  lemma WithoutKeepsPlaced(q: seq<Event>, f: Filter, p: nat)
    requires PlacedIn(q, p)
    ensures PlacedIn(Without(q, f), p)
  {
  }

  /** Remove and RemoveAll leave the count alone, so it can only be too high. */
  lemma RemoveKeepsVsync(s: State, f: Filter, inHand: nat, now: Instant)
    requires VsyncSafe(s, inHand, now)
    ensures VsyncSafe(Remove(s, f), inHand, now)
  {
    if s.usable {
      var r := Remove(s, f);
      forall i | 0 <= i < 4 ensures PlacedIn(r.sub[i].queue, i) {
        WithoutKeepsPlaced(s.sub[i].queue, f, i);
      }
      WithoutKeepsPlaced(s.idle, f, IDLE);
      VsyncCountPartition(s.sub[VIP].queue, f);
    }
  }

  lemma {:induction false} DecrementByCounts(p: Int8, n: nat)
    requires n <= p
    ensures DecrementBy(p, n) == p - n
  {
    if n > 0 {
      DecrementByCounts(p, n - 1);
    }
  }

  lemma {:induction false} NoVsyncNoCount(q: seq<Event>, f: Filter, p: nat)
    requires PlacedIn(q, p) && p != VIP
    ensures VsyncCount(Matching(q, f)) == 0
  {
    if q != [] {
      assert q[0] in q && forall e :: e in q[1..] ==> e in q;
      NoVsyncNoCount(q[1..], f, p);
      VsyncCountAppend(if f.Holds(q[0]) then [q[0]] else [], Matching(q[1..], f));
    }
  }

  lemma {:induction false} OnlyVipCounts(s: State, f: Filter, i: nat)
    requires VsyncPlaced(s) && 0 < i <= 4
    ensures VsyncsBelow(s.sub, f, i) == VsyncCount(Matching(s.sub[VIP].queue, f))
  {
    if i > 1 {
      OnlyVipCounts(s, f, i - 1);
      NoVsyncNoCount(s.sub[i - 1].queue, f, i - 1);
    }
  }

  /** Orphan removal takes exactly the removed vsync tasks off the count. */
  lemma RemoveOrphansKeepsVsync(s: State, dead: set<nat>, inHand: nat, now: Instant)
    requires VsyncSafe(s, inHand, now)
    ensures VsyncSafe(RemoveOrphans(s, dead), inHand, now)
    ensures var t := RemoveOrphans(s, dead);
      s.vs.pending - t.vs.pending == VsyncCount(s.sub[VIP].queue) - VsyncCount(t.sub[VIP].queue)
      && t.vs.pending <= s.vs.pending
  {
    if s.usable {
      var f := Orphan(dead);
      RemoveKeepsVsync(s, f, inHand, now);
      OnlyVipCounts(s, f, 4);
      NoVsyncNoCount(s.idle, f, IDLE);
      VsyncCountPartition(s.sub[VIP].queue, f);
      DecrementByCounts(s.vs.pending, OrphanVsyncs(s, dead));
    }
  }

  // ---------------------------------------------------------------- picking

  lemma PopKeepsPlaced(q: seq<Event>, k: nat, p: nat)
    requires k < |q| && PlacedIn(q, p)
    ensures PlacedIn(RemoveAt(q, k), p) && PlacedIn([q[k]], p)
  {
  }

  /** What the queue gives up: a vsync task leaves from VIP and nothing else changes the count. */
  ghost predicate GivesUp(s: State, t: State, e: Option<Event>) {
    && VsyncPlaced(t)
    && VsyncCount(s.sub[VIP].queue) == VsyncCount(t.sub[VIP].queue) + One(e.Some? && e.value.isVsync)
    && (e.Some? && e.value.isVsync ==> !e.value.isBarrier)
  }

  lemma PopGivesUp(s: State, t: State, i: nat, k: nat)
    requires VsyncPlaced(s) && i < 4 && k < |s.sub[i].queue| && t.idle == s.idle
    requires forall j :: 0 <= j < 4 && j != i ==> t.sub[j].queue == s.sub[j].queue
    requires t.sub[i].queue == RemoveAt(s.sub[i].queue, k)
    ensures GivesUp(s, t, Some(s.sub[i].queue[k]))
  {
    var e := s.sub[i].queue[k];
    PopKeepsPlaced(s.sub[i].queue, k, i);
    assert e in [e];
    if i == VIP {
      VsyncCountRemoveAt(s.sub[VIP].queue, k);
    }
  }

  lemma PickGivesUp(s: State, now: Instant)
    requires VsyncPlaced(s)
    ensures GivesUp(s, Pick(s, now).state, Pick(s, now).event)
  {
    var p := Pick(s, now);
    PickCases(s, now);
    match p.kind {
      case VsyncPick =>
        BeforePopQueues(s, now, false);
        PopGivesUp(s, p.state, VIP, FirstIndex(s.sub[VIP].queue, VsyncTask));
      case QueuePick(from) =>
        BeforePopQueues(s, now, true);
        PopGivesUp(s, p.state, from, PopPosition(s.sub[from].queue, s.vs.barrier));
      case NoPick =>
        BeforePopQueues(s, now, ScanAll(s, now).index < 4);
    }
  }

  lemma AfterPickGivesUp(s: State, p: Picked, now: Instant, later: Instant)
    requires VsyncPlaced(s) && GivesUp(s, p.state, p.event)
    ensures var x := AfterPick(p, now, later); GivesUp(s, x.state, x.event)
  {
  }

  lemma DecideGivesUp(s: State, x: Expired, poll: Instant)
    requires VsyncPlaced(s) && GivesUp(s, x.state, x.event)
    ensures var d := Decide(x, poll); GivesUp(s, d.state, Taken(d.outcome))
    ensures Decide(x, poll).outcome.Repaired? ==> VsyncCount(Decide(x, poll).state.sub[VIP].queue) == 0
  {
    if x.event.None? && x.state.vs.pending != 0 {
      var k := FirstIndex(x.state.sub[VIP].queue, VsyncTask);
      VsyncCountFound(x.state.sub[VIP].queue);
      if k < |x.state.sub[VIP].queue| {
        PopGivesUp(x.state, Decide(x, poll).state, VIP, k);
      }
    }
  }

  /** The number of vsync tasks that a round hands out. */
  function HandsOut(o: Outcome): nat {
    One(Taken(o).Some? && Taken(o).value.isVsync)
  }

  /** One round of GetEvent: a vsync task handed out stays on the count until it runs; the count is
      reset only when no vsync task exists. */
  lemma RoundKeepsVsync(s: State, r: Readings, now: Instant)
    requires VsyncSafe(s, 0, now) && now <= r.check && r.Monotone()
    ensures var d := GetEventRound(s, r); VsyncSafe(d.state, HandsOut(d.outcome), r.poll)
    ensures var d := GetEventRound(s, r);
      Taken(d.outcome).Some? && Taken(d.outcome).value.isVsync ==> !Taken(d.outcome).value.isBarrier
  {
    CheckModeKeeps(s.vs, r.check, r.stamp);
    var s1 := CheckBarrierMode(s, r.check, r.stamp);
    PickGivesUp(s1, r.pick);
    PickLeavesVsync(s1, r.pick);
    DecideKeepsVsync(s1, Pick(s1, r.pick), r);
  }

  lemma DecideKeepsVsync(s: State, p: Picked, r: Readings)
    requires VsyncSafe(s, 0, r.stamp) && r.Monotone() && GivesUp(s, p.state, p.event) && p.state.vs == s.vs
    ensures var d := Decide(AfterPick(p, r.pick, r.next), r.poll);
      && VsyncSafe(d.state, HandsOut(d.outcome), r.poll)
      && (HandsOut(d.outcome) == 1 ==> !Taken(d.outcome).value.isBarrier)
  {
    var x := AfterPick(p, r.pick, r.next);
    AfterPickGivesUp(s, p, r.pick, r.next);
    DecideGivesUp(s, x, r.poll);
    VsyncOf(x, r.poll);
  }

  lemma PickLeavesVsync(s: State, now: Instant)
    ensures Pick(s, now).state.vs == s.vs
  {
  }

  lemma VsyncOf(x: Expired, poll: Instant)
    ensures var d := Decide(x, poll);
      d.state.vs == (if d.outcome.Repaired? then Repair(x.state.vs) else x.state.vs)
  {
  }

  /** Running a vsync task takes it off the count and ends barrier mode; dropping it does not. */
  lemma HandleTaskKeepsVsync(s: State, inHand: nat, now: Instant)
    requires VsyncSafe(s, inHand + 1, now)
    ensures VsyncSafe(s.(vs := HandleTask(s.vs)), inHand, now)
    ensures VsyncSafe(s, inHand, now)
  {
  }

  lemma GetExpiredLeavesVsync(s: State, now: Instant, later: Instant)
    ensures GetExpired(s, now, later).state.vs == s.vs
  {
    PickLeavesVsync(s, now);
    AfterPickLeavesVsync(Pick(s, now), now, later);
  }

  lemma AfterPickLeavesVsync(p: Picked, now: Instant, later: Instant)
    ensures AfterPick(p, now, later).state.vs == p.state.vs
  {
  }

  lemma DecideRepairs(x: Expired, poll: Instant)
    ensures var d := Decide(x, poll); d.outcome.Repaired? ==> d.state.vs.pending == 0 && x.state.vs.pending != 0
  {
  }

  /** After a repair round the next round does not repair again, so GetEvent starts over at most once
      between two waits. */
  lemma RepairAtMostOnce(s: State, r0: Readings, r1: Readings)
    requires GetEventRound(s, r0).outcome.Repaired?
    ensures GetEventRound(s, r0).state.vs.pending == 0
    ensures !GetEventRound(GetEventRound(s, r0).state, r1).outcome.Repaired?
  {
    DecideRepairs(GetExpired(CheckBarrierMode(s, r0.check, r0.stamp), r0.pick, r0.next), r0.poll);
    var t := GetEventRound(s, r0).state;
    var t1 := CheckBarrierMode(t, r1.check, r1.stamp);
    GetExpiredLeavesVsync(t1, r1.pick, r1.next);
    DecideRepairs(GetExpired(t1, r1.pick, r1.next), r1.poll);
  }

  datatype Answer = Answer(state: State, outcome: Option<Outcome>)

  /** GetEvent between two waits: nothing when the queue is finished, otherwise a round, and one more
      after a repair. */
  function UntilWait(s: State, r0: Readings, r1: Readings): (a: Answer)
    ensures a.outcome.Some? ==> !a.outcome.value.Repaired?
  {
    if s.finished then Answer(s, None)
    else
      var first := GetEventRound(s, r0);
      if first.outcome.Repaired? then
        RepairAtMostOnce(s, r0, r1);
        AnswerOf(GetEventRound(first.state, r1))
      else AnswerOf(first)
  }

  function AnswerOf(d: Round): Answer {
    Answer(d.state, Some(d.outcome))
  }

  // ---------------------------------------------------------------- the poll and int64

  /** A helper for the runs of PollRuns: the one branch of a poll that adds to the check time. */
  lemma PollAdditionExact(v: VsyncState, need: bool, now: Instant)
    requires TimesInRange(v, now) && v.checkTime <= MAX_TIME
    ensures AfterPoll(v, need).checkTime <= MAX_TIME <==>
              v.pending != 0 || need || v.period >= MAX_CHECK_VSYNC_PERIOD_NS || v.checkTime <= MAX_TIME - v.period
  {
  }

  /** Nothing overflows when the vsync fields are as
      they were when the poll started, because it starts only after the check time has passed. */
  lemma PollAdditionFits(v: VsyncState, need: bool, now: Instant)
    requires TimesInRange(v, now) && (need || v.checkTime < now) && v.checkTime <= MAX_TIME
    requires now <= MAX_TIME - 2 * MAX_CHECK_VSYNC_PERIOD_NS
    ensures AfterPoll(v, need).checkTime <= MAX_TIME
  {
  }
}
