/** The cached front time of every sub queue over whole runs: always a lower bound, and exact except
    after GetEvent's own vsync pop, which does not refresh it. */
module FrontCache {
  import opened Events
  import opened EventLists
  import opened QueueState
  import opened RoundPolicy
  import opened EventLoop
  import opened LoopRuns

  ghost predicate AllExact(s: State) {
    forall i :: 0 <= i < 4 ==> FrontExact(s.sub[i])
  }

  /** A pick leaves all front times alone and takes an event from one queue at most. */
  lemma PickFronts(s: State, now: Instant)
    ensures var p := Pick(s, now); var i := if p.kind.QueuePick? then p.kind.from else VIP;
      && (forall j :: 0 <= j < 4 ==> p.state.sub[j].front == s.sub[j].front)
      && (forall j :: 0 <= j < 4 && (j != i || p.event.None?) ==> p.state.sub[j].queue == s.sub[j].queue)
  {
    PickCases(s, now);
    match Pick(s, now).kind {
      case VsyncPick => BeforePopQueues(s, now, false);
      case QueuePick(from) => BeforePopQueues(s, now, true);
      case NoPick => BeforePopQueues(s, now, ScanAll(s, now).index < 4);
    }
  }

  lemma AfterPickFronts(s: State, p: Picked, now: Instant, later: Instant)
    requires AllExact(s)
    requires var i := if p.kind.QueuePick? then p.kind.from else VIP;
      && (forall j :: 0 <= j < 4 ==> p.state.sub[j].front == s.sub[j].front)
      && (forall j :: 0 <= j < 4 && (j != i || p.event.None?) ==> p.state.sub[j].queue == s.sub[j].queue)
    ensures AllExact(AfterPick(p, now, later).state)
  {
  }

  lemma DecideFronts(x: Expired, poll: Instant)
    requires AllExact(x.state)
    ensures var d := Decide(x, poll);
      && (!d.outcome.Direct? ==> AllExact(d.state))
      && (d.outcome.Direct? ==>
            && (forall j :: 0 < j < 4 ==> FrontExact(d.state.sub[j]))
            && d.state.sub[VIP].front == FrontTime(x.state.sub[VIP].queue))
  {
  }

  /** A round keeps every front time exact unless it ends in the direct vsync pop; that pop leaves the
      VIP front time at the time of the head before the pop. */
  lemma RoundFronts(s: State, r: Readings)
    requires AllExact(s)
    ensures var d := GetEventRound(s, r);
      && (!d.outcome.Direct? ==> AllExact(d.state))
      && (d.outcome.Direct? ==>
            && (forall j :: 0 < j < 4 ==> FrontExact(d.state.sub[j]))
            && d.state.sub[VIP].front == FrontTime(s.sub[VIP].queue))
  {
    var s1 := PickState(s, r);
    PickFronts(s1, r.pick);
    AfterPickFronts(s1, Pick(s1, r.pick), r.pick, r.next);
    var x := AfterPick(Pick(s1, r.pick), r.pick, r.next);
    DecideFronts(x, r.poll);
    if GetEventRound(s, r).outcome.Direct? {
      RoundSource(s1, Pick(s1, r.pick), r);
      EmptyPickFronts(s1, r);
    }
  }

  /** The next round makes the front time of VIP stale: it will end in the direct pop, and the vsync task stands at
      the head of VIP with no event of the same time behind it. */
  ghost predicate MakesFrontStale(s: State, r: Readings) {
    && LeadsToDirectPop(s, r)
    && var q := s.sub[VIP].queue;
       q != [] && q[0].isVsync && (|q| > 1 ==> q[1].handleTime != q[0].handleTime)
  }

  /** Exactly when a round leaves all front times exact. */
  lemma FrontsStayExact(s: State, r: Readings)
    requires WellFormed(s) && AllExact(s)
    ensures AllExact(GetEventRound(s, r).state) <==> !MakesFrontStale(s, r)
  {
    RoundEndings(s, r);
    RoundFronts(s, r);
    var d := GetEventRound(s, r);
    if d.outcome.Direct? {
      EmptyPickFronts(PickState(s, r), r);
      DirectPop(GetExpired(PickState(s, r), r.pick, r.next), r.poll);
      var q := s.sub[VIP].queue;
      FrontAfterPop(q, FirstIndex(q, VsyncTask));
    }
  }

  lemma DirectPop(x: Expired, poll: Instant)
    requires Decide(x, poll).outcome.Direct?
    ensures var q := x.state.sub[VIP].queue; var k := FirstIndex(q, VsyncTask);
      k < |q| && Decide(x, poll).state.sub[VIP].queue == RemoveAt(q, k)
  {
  }

  lemma FrontAfterPop(q: seq<Event>, k: nat)
    requires k < |q|
    ensures FrontTime(RemoveAt(q, k)) == FrontTime(q) <==> k > 0 || (|q| > 1 && q[1].handleTime == q[0].handleTime)
  {
  }

  lemma EmptyPickFronts(s: State, r: Readings)
    requires Decide(GetExpired(s, r.pick, r.next), r.poll).outcome.Direct?
    ensures GetExpired(s, r.pick, r.next).state.sub[VIP].queue == s.sub[VIP].queue
  {
  }

  /** The step is a round that makes the front time of VIP stale. */
  ghost predicate SpoilsFront(c: Config, a: Action) {
    a.Runner? && a.runner.TakeRound? && MakesFrontStale(c.q, a.runner.readings)
  }

  lemma SharedStepFronts(c: Config, a: SharedAction, d: Config)
    requires WellFormed(c.q) && AllExact(c.q) && SharedStep(c, a, d)
    ensures AllExact(d.q)
  {
    match a {
      case InsertEvent(e, p, at, option, from) =>
        InsertFronts(c.q, e, p, at, option, from, c.clock);
      case RemoveMatching(f) => RemovalFronts(c.q, f);
      case RemoveEverything => RemoveAllFronts(c.q);
      case RemoveDead => RemovalFronts(c.q, Orphan(c.dead));
      case _ => assert d.q.sub == c.q.sub;
    }
  }

  lemma RemovalFronts(s: State, f: Filter)
    requires WellFormed(s) && AllExact(s)
    ensures AllExact(Remove(s, f))
  {
  }

  lemma RemoveAllFronts(s: State)
    requires AllExact(s)
    ensures AllExact(RemoveAll(s))
  {
  }

  lemma InsertFronts(s: State, e: Event, p: Priority, at: InsertType, option: BarrierOption, from: Sender, now: Instant)
    requires WellFormed(s) && AllExact(s)
    ensures AllExact(Insert(s, e, p, at, option, from, now).state)
  {
  }

  /** If a holds at first and passes from one step to the next precisely when b does not hold, then a holds
      throughout exactly if b never does. */
  lemma {:induction false} UntilFirst(a: seq<bool>, b: seq<bool>, n: nat)
    requires n < |a| && n <= |b| && a[0] && forall i :: 0 <= i < n && a[i] ==> (a[i + 1] <==> !b[i])
    ensures (forall i :: 0 <= i <= n ==> a[i]) <==> (forall i :: 0 <= i < n ==> !b[i])
  {
    if n > 0 {
      UntilFirst(a, b, n - 1);
      assert a[n - 1] ==> (a[n - 1 + 1] <==> !b[n - 1]);
      assert (forall i :: 0 <= i <= n ==> a[i]) <==> (forall i :: 0 <= i <= n - 1 ==> a[i]) && a[n];
    }
  }

  /** Over a run every front time stays exact precisely until the first step that spoils one. */
  lemma FrontsOverRuns(cs: seq<Config>, acts: seq<Action>, n: nat)
    requires Run(cs, acts) && Inv(cs[0]) && AllExact(cs[0].q) && n <= |acts|
    ensures (forall i :: 0 <= i <= n ==> AllExact(cs[i].q)) <==> (forall i :: 0 <= i < n ==> !SpoilsFront(cs[i], acts[i]))
  {
    var a := seq(n + 1, i requires 0 <= i <= n => AllExact(cs[i].q));
    var b := seq(n, i requires 0 <= i < n => SpoilsFront(cs[i], acts[i]));
    forall i | 0 <= i < n && a[i] ensures a[i + 1] <==> !b[i] {
      FrontsAt(cs, acts, i);
    }
    UntilFirst(a, b, n);
    assert forall i :: 0 <= i <= n ==> (a[i] <==> AllExact(cs[i].q));
    assert forall i :: 0 <= i < n ==> (b[i] <==> SpoilsFront(cs[i], acts[i]));
  }

  lemma FrontsAt(cs: seq<Config>, acts: seq<Action>, n: nat)
    requires Run(cs, acts) && Inv(cs[0]) && n < |acts| && AllExact(cs[n].q)
    ensures AllExact(cs[n + 1].q) <==> !SpoilsFront(cs[n], acts[n])
  {
    RunKeepsInv(cs, acts, n);
    assert Step(cs[n], acts[n], cs[n + 1]);
    StepFronts(cs[n], acts[n], cs[n + 1]);
  }

  lemma StepFronts(c: Config, a: Action, d: Config)
    requires WellFormed(c.q) && AllExact(c.q) && Step(c, a, d)
    ensures AllExact(d.q) <==> !SpoilsFront(c, a)
  {
    if a.Any? {
      SharedStepFronts(c, a.shared, d);
    } else if a.runner.TakeRound? {
      FrontsStayExact(c.q, a.runner.readings);
    } else {
      OtherStepKeepsPicking(c, a.runner, d);
    }
  }

  /** In every reachable configuration the front time is a lower bound, and says "empty" only of an
      empty queue. */
  lemma FrontIsNeverLate(c: Config, i: nat)
    requires EventLoop.Reachable(c) && i < 4
    ensures forall e :: e in c.q.sub[i].queue ==> c.q.sub[i].front <= e.handleTime
    ensures c.q.sub[i].front == UINT64_MAX ==> c.q.sub[i].queue == []
  {
    ReachableHasInv(c);
    assert SubQueueOk(c.q.sub[i], i);
    if c.q.sub[i].queue != [] {
      assert c.q.sub[i].queue[0] in c.q.sub[i].queue;
    }
  }
}
