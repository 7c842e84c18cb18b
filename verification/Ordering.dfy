/** Which position of which list a round of GetEvent pops, and why events of one priority do not
    overtake each other. */
module Ordering {
  import opened Events
  import opened EventLists
  import opened QueueState
  import opened VsyncAccounting
  import opened RoundPolicy

  /** t is s with the event at position k of list p taken out. */
  ghost predicate PoppedAt(s: State, t: State, p: Priority, k: nat) {
    && k < |ListOf(s, p)|
    && ListOf(t, p) == RemoveAt(ListOf(s, p), k)
    && forall x: Priority :: x != p ==> ListOf(t, x) == ListOf(s, x)
  }

  /** The positions a round may pop: a vsync task anywhere, in normal mode the head, in barrier mode the
      first barrier task of a sub queue or some barrier task of the idle list. */
  ghost predicate FairPosition(q: seq<Event>, p: Priority, k: nat, barrier: bool)
    requires k < |q|
  {
    q[k].isVsync ||
    if !barrier then k == 0
    else if p < 4 then k == FirstIndex(q, BarrierTask)
    else q[k].isBarrier
  }

  lemma PickPops(s: State, now: Instant) returns (p: Priority, k: nat)
    requires Pick(s, now).event.Some?
    ensures PoppedAt(s, Pick(s, now).state, p, k) && Pick(s, now).event == Some(ListOf(s, p)[k])
    ensures FairPosition(ListOf(s, p), p, k, s.vs.barrier)
  {
    PickCases(s, now);
    match Pick(s, now).kind {
      case VsyncPick =>
        BeforePopQueues(s, now, false);
        p, k := VIP, FirstIndex(s.sub[VIP].queue, VsyncTask);
      case QueuePick(from) =>
        BeforePopQueues(s, now, true);
        p, k := from, PopPosition(s.sub[from].queue, s.vs.barrier);
    }
  }

  lemma EmptyPickKeepsLists(s: State, now: Instant, x: Priority)
    requires Pick(s, now).event.None?
    ensures ListOf(Pick(s, now).state, x) == ListOf(s, x)
  {
  }

  lemma AfterPickLists(p: Picked, now: Instant, later: Instant)
    ensures var x := AfterPick(p, now, later);
      if x.event.Some? && p.event.None? then
        var k := IdlePosition(StampIdle(p.state, now), now);
        PoppedAt(p.state, x.state, IDLE, k) && x.event == Some(p.state.idle[k])
        && FairPosition(p.state.idle, IDLE, k, p.state.vs.barrier)
      else
        x.event == p.event && forall l: Priority :: ListOf(x.state, l) == ListOf(p.state, l)
  {
  }

  lemma DecideLists(x: Expired, poll: Instant)
    ensures var d := Decide(x, poll);
      if Taken(d.outcome).Some? && x.event.None? then
        var k := FirstIndex(x.state.sub[VIP].queue, VsyncTask);
        PoppedAt(x.state, d.state, VIP, k) && Taken(d.outcome) == Some(x.state.sub[VIP].queue[k])
        && x.state.sub[VIP].queue[k].isVsync
      else
        Taken(d.outcome) == x.event && forall l: Priority :: ListOf(d.state, l) == ListOf(x.state, l)
  {
  }

  /** A round that hands out an event pops it from a fair position of one list and touches no other. */
  lemma RoundPops(s: State, r: Readings) returns (p: Priority, k: nat)
    requires Taken(GetEventRound(s, r).outcome).Some?
    ensures PoppedAt(s, GetEventRound(s, r).state, p, k)
    ensures Taken(GetEventRound(s, r).outcome) == Some(ListOf(s, p)[k])
    ensures FairPosition(ListOf(s, p), p, k, PickState(s, r).vs.barrier)
  {
    var s1 := PickState(s, r);
    assert forall l: Priority :: ListOf(s1, l) == ListOf(s, l);
    var picked := Pick(s1, r.pick);
    var x := AfterPick(picked, r.pick, r.next);
    AfterPickLists(picked, r.pick, r.next);
    DecideLists(x, r.poll);
    PickLeavesVsync(s1, r.pick);
    if picked.event.Some? {
      p, k := PickPops(s1, r.pick);
    } else {
      forall l: Priority ensures ListOf(picked.state, l) == ListOf(s, l) {
        EmptyPickKeepsLists(s1, r.pick, l);
      }
      if x.event.Some? {
        p, k := IDLE, IdlePosition(StampIdle(picked.state, r.pick), r.pick);
      } else {
        p, k := VIP, FirstIndex(x.state.sub[VIP].queue, VsyncTask);
      }
    }
  }

  lemma QuietRoundKeepsLists(s: State, r: Readings, l: Priority)
    requires Taken(GetEventRound(s, r).outcome).None?
    ensures ListOf(GetEventRound(s, r).state, l) == ListOf(s, l)
  {
    var s1 := PickState(s, r);
    assert ListOf(s1, l) == ListOf(s, l);
    var picked := Pick(s1, r.pick);
    AfterPickLists(picked, r.pick, r.next);
    DecideLists(AfterPick(picked, r.pick, r.next), r.poll);
    EmptyPickKeepsLists(s1, r.pick, l);
  }

  // ---------------------------------------------------------------- no overtaking inside a list

  lemma TwiceCounts(q: seq<Event>, x: Event)
    ensures (exists i, j :: 0 <= i < j < |q| && q[i] == x && q[j] == x) ==> multiset(q)[x] >= 2
  {
    if i, j :| 0 <= i < j < |q| && q[i] == x && q[j] == x {
      assert q == q[..j] + q[j..];
      assert q[..j][i] in multiset(q[..j]) && q[j..][0] in multiset(q[j..]);
    }
  }

  lemma OnlyOnce(q: seq<Event>, x: Event)
    requires multiset(q)[x] <= 1
    ensures forall i, j :: 0 <= i < |q| && 0 <= j < |q| && q[i] == x && q[j] == x ==> i == j
  {
    TwiceCounts(q, x);
    assert forall i, j :: 0 <= i < j < |q| && q[i] == x ==> q[j] != x;
  }

  /** Whether b may be handed out before a, which stands in front of it: only in barrier mode, when b
      is a barrier task and a is not, or when both are idle events. */
  predicate MayOvertake(a: Event, b: Event, p: Priority, barrier: bool) {
    barrier && b.isBarrier && (!a.isBarrier || p == IDLE)
  }

  /** Popping a fair position keeps two events of the list in order, or takes the first one. */
  lemma FairKeepsOrder(q: seq<Event>, p: Priority, k: nat, barrier: bool, a: Event, b: Event)
    requires k < |q| && FairPosition(q, p, k, barrier) && Precedes(q, a, b)
    requires multiset(q)[a] <= 1 && multiset(q)[b] <= 1
    requires !b.isVsync && !MayOvertake(a, b, p, barrier)
    ensures q[k] != b
    ensures q[k] == a || Precedes(RemoveAt(q, k), a, b)
  {
    var i, j :| 0 <= i < j < |q| && q[i] == a && q[j] == b;
    OnlyOnce(q, b);
    if q[k] != a && q[k] != b {
      var r := RemoveAt(q, k);
      var i', j' := if i < k then i else i - 1, if j < k then j else j - 1;
      assert r[i'] == a && r[j'] == b;
    }
  }
}
