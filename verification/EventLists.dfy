/** The helpers of event_queue_base.cpp that work on one std::list of events. */
module EventLists {
  import opened Events

  ghost predicate Sorted(q: seq<Event>) {
    forall i, j :: 0 <= i < j < |q| ==> q[i].handleTime <= q[j].handleTime
  }

  /** Some event of the list has reached its handle time. */
  ghost predicate HasDue(q: seq<Event>, now: Instant) {
    exists e :: e in q && e.handleTime <= now
  }

  /** Some barrier task of the list has reached its handle time. */
  ghost predicate HasDueBarrier(q: seq<Event>, now: Instant) {
    exists e :: e in q && e.isBarrier && e.handleTime <= now
  }

  /** The event a comes strictly before the event b in the list. */
  ghost predicate Precedes(q: seq<Event>, a: Event, b: Event) {
    exists i, j :: 0 <= i < j < |q| && q[i] == a && q[j] == b
  }

  /** The value the front-time cache should have: the head's time, or UINT64_MAX when empty. */
  function FrontTime(q: seq<Event>): int {
    if q == [] then UINT64_MAX else q[0].handleTime
  }

  // ---------------------------------------------------------------- insertion

  /** The position after the last event that is not later than `t`. */
  function EndSlot(q: seq<Event>, t: TimePoint): (k: nat)
    ensures k <= |q|
    ensures forall i :: k <= i < |q| ==> t < q[i].handleTime
    ensures 0 < k ==> q[k - 1].handleTime <= t
  {
    if |q| == 0 then 0
    else if q[|q| - 1].handleTime <= t then |q|
    else EndSlot(q[..|q| - 1], t)
  }

  /** The event as it is stored: insertion at the front lowers its time to that of the head. */
  function Stored(q: seq<Event>, e: Event, at: InsertType): Event {
    if at.AtFront? && q != [] && q[0].handleTime < e.handleTime
    then e.(handleTime := q[0].handleTime)
    else e
  }

  function InsertPos(q: seq<Event>, e: Event, at: InsertType): (k: nat)
    ensures k <= |q|
  {
    if at.AtFront? then 0 else EndSlot(q, e.handleTime)
  }

  function Splice<T>(q: seq<T>, k: nat, s: T): (r: seq<T>)
    requires k <= |q|
    ensures |r| == |q| + 1 && r[k] == s
    ensures forall i :: 0 <= i < k ==> r[i] == q[i]
    ensures forall i :: k < i < |r| ==> r[i] == q[i - 1]
  {
    q[..k] + [s] + q[k..]
  }

  function InsertAt(q: seq<Event>, e: Event, at: InsertType): seq<Event> {
    Splice(q, InsertPos(q, e, at), Stored(q, e, at))
  }

  /** InsertEventsLocked */
  method InsertEventsLocked(events: seq<Event>, event: Event, at: InsertType) returns (r: seq<Event>, stored: Event)
    ensures stored == Stored(events, event, at)
    ensures r == InsertAt(events, event, at)
  {
    stored := event;
    if at.AtFront? {
      if |events| != 0 {
        if events[0].handleTime < event.handleTime {
          stored := stored.(handleTime := events[0].handleTime);
        }
      }
      r := [stored] + events;
      return;
    }
    var it: nat := |events|;
    while it != 0
      invariant it <= |events|
      invariant EndSlot(events[..it], event.handleTime) == EndSlot(events, event.handleTime)
    {
      assert events[..it][..it - 1] == events[..it - 1];
      if events[it - 1].handleTime <= event.handleTime {
        break;
      }
      it := it - 1;
    }
    r := events[..it] + [event] + events[it..];
  }

  lemma SpliceContents<T>(q: seq<T>, k: nat, s: T)
    requires k <= |q|
    ensures multiset(Splice(q, k, s)) == multiset(q) + multiset{s}
  {
    assert q == q[..k] + q[k..];
  }

  lemma SpliceOrder(q: seq<Event>, k: nat, s: Event, i: nat, j: nat)
    requires k <= |q| && i < j < |q|
    ensures Precedes(Splice(q, k, s), q[i], q[j])
  {
    var r := Splice(q, k, s);
    var i', j' := if i < k then i else i + 1, if j < k then j else j + 1;
    assert r[i'] == q[i] && r[j'] == q[j];
  }

  /** Either way of inserting keeps the list sorted and adds exactly one event. */
  lemma InsertKeepsSorted(q: seq<Event>, e: Event, at: InsertType)
    requires Sorted(q)
    ensures Sorted(InsertAt(q, e, at))
  {
  }

  lemma InsertKeepsContents(q: seq<Event>, e: Event, at: InsertType)
    ensures multiset(InsertAt(q, e, at)) == multiset(q) + multiset{Stored(q, e, at)}
    ensures forall x :: x in InsertAt(q, e, at) <==> x in q || x == Stored(q, e, at)
  {
    SpliceContents(q, InsertPos(q, e, at), Stored(q, e, at));
    var r := InsertAt(q, e, at);
    forall x ensures x in r <==> x in q || x == Stored(q, e, at) {
      assert x in r <==> x in multiset(r);
    }
  }

  /** The events already queued keep their order. */
  lemma InsertKeepsOrder(q: seq<Event>, e: Event, at: InsertType, a: Event, b: Event)
    requires Precedes(q, a, b)
    ensures Precedes(InsertAt(q, e, at), a, b)
  {
    var i, j :| 0 <= i < j < |q| && q[i] == a && q[j] == b;
    SpliceOrder(q, InsertPos(q, e, at), Stored(q, e, at), i, j);
  }

  /** An event inserted at the end goes behind every queued event that is not later and ahead of
      every later one; an event inserted at the front goes ahead of every queued event. */
  lemma InsertPlaces(q: seq<Event>, e: Event, at: InsertType, x: Event)
    requires Sorted(q) && x in q
    ensures at.AtFront? ==> Precedes(InsertAt(q, e, at), Stored(q, e, at), x)
    ensures at.AtEnd? && x.handleTime <= e.handleTime ==> Precedes(InsertAt(q, e, at), x, e)
    ensures at.AtEnd? && x.handleTime > e.handleTime ==> Precedes(InsertAt(q, e, at), e, x)
  {
    var k, r := InsertPos(q, e, at), InsertAt(q, e, at);
    var i :| 0 <= i < |q| && q[i] == x;
    if i < k {
      assert r[i] == x;
    } else {
      assert r[i + 1] == x;
    }
  }

  // ---------------------------------------------------------------- search

  /** The position of the first event that satisfies the filter, or the length of the list. */
  function FirstIndex(q: seq<Event>, f: Filter): (k: nat)
    ensures k <= |q|
    ensures k < |q| ==> f.Holds(q[k])
    ensures forall i :: 0 <= i < k ==> !f.Holds(q[i])
  {
    if q == [] then 0
    else if f.Holds(q[0]) then 0
    else 1 + FirstIndex(q[1..], f)
  }

  /** std::find_if */
  method FindIf(q: seq<Event>, f: Filter) returns (k: nat)
    ensures k == FirstIndex(q, f)
  {
    k := 0;
    while k < |q|
      invariant k <= |q|
      invariant FirstIndex(q, f) == k + FirstIndex(q[k..], f)
    {
      if f.Holds(q[k]) {
        break;
      }
      assert q[k..][1..] == q[k + 1..];
      k := k + 1;
    }
  }

  function RemoveAt<T>(q: seq<T>, k: nat): (r: seq<T>)
    requires k < |q|
    ensures |r| == |q| - 1
    ensures forall i :: 0 <= i < k ==> r[i] == q[i]
    ensures forall i :: k <= i < |r| ==> r[i] == q[i + 1]
  {
    q[..k] + q[k + 1..]
  }

  lemma RemoveAtContents<T>(q: seq<T>, k: nat)
    requires k < |q|
    ensures multiset(q) == multiset(RemoveAt(q, k)) + multiset{q[k]}
  {
    assert q == q[..k] + [q[k]] + q[k + 1..];
  }

  lemma RemoveAtKeeps(q: seq<Event>, k: nat)
    requires k < |q|
    ensures multiset(q) == multiset(RemoveAt(q, k)) + multiset{q[k]}
    ensures Sorted(q) ==> Sorted(RemoveAt(q, k))
    ensures forall e :: e in RemoveAt(q, k) ==> e in q
  {
    RemoveAtContents(q, k);
  }

  // ---------------------------------------------------------------- checks

  datatype Check = Check(hit: bool, wakeUp: TimePoint)

  /** CheckEventInListLocked: the head is strictly earlier than the earliest time seen so far, and due. */
  function CheckEvent(q: seq<Event>, now: Instant, wakeUp: TimePoint): Check {
    if q != [] && q[0].handleTime < wakeUp
    then Check(q[0].handleTime <= now, q[0].handleTime)
    else Check(false, wakeUp)
  }

  /** CheckBarrierTaskInListLocked, as a recursion over the rest of the list. */
  function CheckBarrier(q: seq<Event>, now: Instant, wakeUp: TimePoint): Check {
    if q == [] then Check(false, wakeUp)
    else
      var w := if q[0].handleTime < wakeUp then q[0].handleTime else wakeUp;
      if q[0].handleTime > now then Check(false, w)
      else if q[0].isBarrier then Check(true, w)
      else CheckBarrier(q[1..], now, w)
  }

  method CheckBarrierTaskInListLocked(events: seq<Event>, now: Instant, nextWakeUpTime: TimePoint) returns (c: Check)
    ensures c == CheckBarrier(events, now, nextWakeUpTime)
  {
    var w: TimePoint := nextWakeUpTime;
    if |events| == 0 {
      return Check(false, w);
    }
    var it: nat := 0;
    while it < |events|
      invariant it <= |events|
      invariant CheckBarrier(events, now, nextWakeUpTime) == CheckBarrier(events[it..], now, w)
    {
      var handleTime := events[it].handleTime;
      assert events[it..][1..] == events[it + 1..];
      if handleTime < w {
        w := handleTime;
      }
      if handleTime > now {
        break;
      }
      if events[it].isBarrier {
        return Check(true, w);
      }
      it := it + 1;
    }
    c := Check(false, w);
  }

  /** On a sorted list the check hits exactly when a due barrier task is present, the first barrier
      task of the list is then that due task, and the reported time only looks at the head. */
  lemma {:induction false} CheckBarrierIsExact(q: seq<Event>, now: Instant, wakeUp: TimePoint)
    requires Sorted(q)
    ensures CheckBarrier(q, now, wakeUp).hit <==> HasDueBarrier(q, now)
    ensures CheckBarrier(q, now, wakeUp).hit ==>
              var k := FirstIndex(q, BarrierTask); k < |q| && q[k].handleTime <= now
    ensures CheckBarrier(q, now, wakeUp).wakeUp
         == if q != [] && q[0].handleTime < wakeUp then q[0].handleTime else wakeUp
  {
    if q == [] || q[0].handleTime > now {
    } else if q[0].isBarrier {
      assert q[0] in q;
    } else {
      var w := if q[0].handleTime < wakeUp then q[0].handleTime else wakeUp;
      CheckBarrierIsExact(q[1..], now, w);
      assert q == [q[0]] + q[1..];
      assert HasDueBarrier(q, now) <==> HasDueBarrier(q[1..], now);
    }
  }

  // ---------------------------------------------------------------- removal

  /** The events that do not satisfy the filter, in their order. */
  function Without(q: seq<Event>, f: Filter): seq<Event> {
    if q == [] then []
    else (if f.Holds(q[0]) then [] else [q[0]]) + Without(q[1..], f)
  }

  /** The events that satisfy the filter, in their order. */
  function Matching(q: seq<Event>, f: Filter): seq<Event> {
    if q == [] then []
    else (if f.Holds(q[0]) then [q[0]] else []) + Matching(q[1..], f)
  }

  lemma {:induction false} WithoutAppend(q: seq<Event>, e: Event, f: Filter)
    ensures Without(q + [e], f) == Without(q, f) + if f.Holds(e) then [] else [e]
  {
    if q == [] {
      assert q + [e] == [e] && [e][1..] == [];
      assert Without([], f) == [];
    } else {
      var tail := if f.Holds(e) then [] else [e];
      WithoutAppend(q[1..], e, f);
      assert (q + [e])[0] == q[0] && (q + [e])[1..] == q[1..] + [e];
      var head := if f.Holds(q[0]) then [] else [q[0]];
      assert head + (Without(q[1..], f) + tail) == (head + Without(q[1..], f)) + tail;
    }
  }

  lemma {:induction false} MatchingAppend(q: seq<Event>, e: Event, f: Filter)
    ensures Matching(q + [e], f) == Matching(q, f) + if f.Holds(e) then [e] else []
  {
    if q == [] {
      assert q + [e] == [e] && [e][1..] == [];
      assert Matching([], f) == [];
    } else {
      var tail := if f.Holds(e) then [e] else [];
      MatchingAppend(q[1..], e, f);
      assert (q + [e])[0] == q[0] && (q + [e])[1..] == q[1..] + [e];
      var head := if f.Holds(q[0]) then [q[0]] else [];
      assert head + (Matching(q[1..], f) + tail) == (head + Matching(q[1..], f)) + tail;
    }
  }

  ghost predicate HasMatch(q: seq<Event>, f: Filter) {
    exists e :: e in q && f.Holds(e)
  }

  /** list::remove_if, which also notes whether anything matched. */
  method RemoveIf(q: seq<Event>, f: Filter) returns (r: seq<Event>, removed: bool)
    ensures r == Without(q, f)
    ensures removed <==> HasMatch(q, f)
  {
    r, removed := [], false;
    var i := 0;
    while i < |q|
      invariant i <= |q|
      invariant r == Without(q[..i], f)
      invariant removed <==> HasMatch(q[..i], f)
    {
      assert q[..i + 1] == q[..i] + [q[i]];
      WithoutAppend(q[..i], q[i], f);
      if f.Holds(q[i]) {
        removed := true;
      } else {
        r := r + [q[i]];
      }
      i := i + 1;
    }
    assert q[..i] == q;
  }

  /** Removal keeps exactly the events that do not match. */
  lemma {:induction false} WithoutKeeps(q: seq<Event>, f: Filter)
    ensures multiset(q) == multiset(Without(q, f)) + multiset(Matching(q, f))
    ensures forall e :: e in Without(q, f) <==> e in q && !f.Holds(e)
    ensures forall e :: e in Matching(q, f) <==> e in q && f.Holds(e)
  {
    if q != [] {
      assert q == [q[0]] + q[1..];
      WithoutKeeps(q[1..], f);
    }
  }

  lemma {:induction false} WithoutKeepsSorted(q: seq<Event>, f: Filter)
    requires Sorted(q)
    ensures Sorted(Without(q, f))
  {
    if q != [] {
      WithoutKeepsSorted(q[1..], f);
      WithoutKeeps(q[1..], f);
      var w := Without(q, f);
      forall i, j | 0 <= i < j < |w| ensures w[i].handleTime <= w[j].handleTime {
        if !f.Holds(q[0]) && i == 0 {
          assert w[j] in Without(q[1..], f);
        }
      }
    }
  }

  /** The events that stay keep their order. */
  lemma {:induction false} WithoutKeepsOrder(q: seq<Event>, f: Filter, a: Event, b: Event)
    requires Precedes(q, a, b) && !f.Holds(a) && !f.Holds(b)
    ensures Precedes(Without(q, f), a, b)
  {
    var i, j :| 0 <= i < j < |q| && q[i] == a && q[j] == b;
    assert q[1..][j - 1] == b;
    if i == 0 {
      WithoutKeeps(q[1..], f);
      PrecedesPrepend([a], Without(q[1..], f), a, b);
    } else {
      assert q[1..][i - 1] == a;
      WithoutKeepsOrder(q[1..], f, a, b);
      PrecedesPrepend(if f.Holds(q[0]) then [] else [q[0]], Without(q[1..], f), a, b);
    }
  }

  lemma PrecedesPrepend(head: seq<Event>, tail: seq<Event>, a: Event, b: Event)
    requires Precedes(tail, a, b) || (head == [a] && b in tail)
    ensures Precedes(head + tail, a, b)
  {
    var r := head + tail;
    if Precedes(tail, a, b) {
      var i, j :| 0 <= i < j < |tail| && tail[i] == a && tail[j] == b;
      assert r[|head| + i] == a && r[|head| + j] == b;
    } else {
      var j :| 0 <= j < |tail| && tail[j] == b;
      assert r[0] == a && r[j + 1] == b;
    }
  }

  /** The number of vsync tasks in the list. */
  function VsyncCount(q: seq<Event>): nat {
    if q == [] then 0 else (if q[0].isVsync then 1 else 0) + VsyncCount(q[1..])
  }

  lemma {:induction false} VsyncCountAppend(p: seq<Event>, q: seq<Event>)
    ensures VsyncCount(p + q) == VsyncCount(p) + VsyncCount(q)
  {
    if p == [] {
      assert p + q == q;
    } else {
      assert (p + q)[1..] == p[1..] + q;
      VsyncCountAppend(p[1..], q);
    }
  }

  lemma VsyncCountInsert(q: seq<Event>, e: Event, at: InsertType)
    ensures VsyncCount(InsertAt(q, e, at)) == VsyncCount(q) + if e.isVsync then 1 else 0
  {
    var k, s := InsertPos(q, e, at), Stored(q, e, at);
    VsyncCountAppend(q[..k] + [s], q[k..]);
    VsyncCountAppend(q[..k], [s]);
    VsyncCountAppend(q[..k], q[k..]);
    assert q == q[..k] + q[k..];
  }

  lemma VsyncCountRemoveAt(q: seq<Event>, k: nat)
    requires k < |q|
    ensures VsyncCount(q) == VsyncCount(RemoveAt(q, k)) + if q[k].isVsync then 1 else 0
  {
    var tail := q[k..];
    assert q == q[..k] + tail;
    VsyncCountAppend(q[..k], tail);
    assert tail[0] == q[k] && tail[1..] == q[k + 1..];
    VsyncCountAppend(q[..k], tail[1..]);
  }

  lemma {:induction false} VsyncCountPartition(q: seq<Event>, f: Filter)
    ensures VsyncCount(q) == VsyncCount(Without(q, f)) + VsyncCount(Matching(q, f))
  {
    if q != [] {
      VsyncCountPartition(q[1..], f);
      VsyncCountAppend(if f.Holds(q[0]) then [] else [q[0]], Without(q[1..], f));
      VsyncCountAppend(if f.Holds(q[0]) then [q[0]] else [], Matching(q[1..], f));
    }
  }

  /** A vsync task is found exactly when there is one to count. */
  lemma {:induction false} VsyncCountFound(q: seq<Event>)
    ensures VsyncCount(q) == 0 <==> FirstIndex(q, VsyncTask) == |q|
  {
    if q != [] {
      VsyncCountFound(q[1..]);
    }
  }
}
