/** Conservation over whole runs: every accepted event is queued, handed out or removed exactly once,
    and every event handed out or removed is in hand, about to be released, or destroyed. */
module LoopHistory {
  import opened Events
  import opened EventLists
  import opened QueueState
  import opened EventLoop

  /** The balance of one event. */
  ghost predicate Balanced(c: Config, e: Event) {
    && c.accepted[e] <= 1
    && c.accepted[e] == Copies(c.q, e) + c.dispatched[e] + c.removed[e]
    && c.dispatched[e] + c.removed[e] == One(InHand(c.pc) == Some(e)) + c.releasing[e] + c.destroyed[e]
  }

  ghost predicate HistoryInv(c: Config) {
    && (forall e :: Balanced(c, e))
    && (forall x, y :: x in c.accepted && y in c.accepted && x.id == y.id ==> x == y)
  }

  lemma SelectedCopies(s: State, f: Filter, e: Event)
    ensures Selected(s, f)[e] == if f.Holds(e) then Copies(s, e) else 0
  {
    MatchingCopies(s.sub[0].queue, f, e);
    MatchingCopies(s.sub[1].queue, f, e);
    MatchingCopies(s.sub[2].queue, f, e);
    MatchingCopies(s.sub[3].queue, f, e);
    MatchingCopies(s.idle, f, e);
  }

  lemma MatchingCopies(q: seq<Event>, f: Filter, e: Event)
    ensures multiset(Matching(q, f))[e] == if f.Holds(e) then multiset(q)[e] else 0
  {
    WithoutKeeps(q, f);
    assert e in Without(q, f) <==> multiset(Without(q, f))[e] > 0;
    assert e in Matching(q, f) <==> multiset(Matching(q, f))[e] > 0;
  }

  lemma RemoveAllCopies(s: State, e: Event)
    requires s.usable
    ensures Copies(RemoveAll(s), e) == 0 && Everything(s)[e] == Copies(s, e)
  {
  }

  lemma InsertKeepsHistory(c: Config, e: Event, p: Priority, at: InsertType, option: BarrierOption, from: Sender)
    requires HistoryInv(c) && Fresh(c, e.id)
    ensures HistoryInv(InsertNext(c, e, p, at, option, from))
  {
    var r := Insert(c.q, e, p, at, option, from, c.clock);
    if r.ok {
      InsertedEvent(c.q, e, p, at, option, from, c.clock);
      forall x ensures Balanced(InsertNext(c, e, p, at, option, from), x) {
        assert Balanced(c, x);
        InsertAddsOne(c.q, e, p, at, option, from, c.clock, x);
        AcceptedBalanced(c, InsertNext(c, e, p, at, option, from), r.stored, x);
      }
    }
  }

  lemma AcceptedBalanced(c: Config, d: Config, stored: Event, x: Event)
    requires Balanced(c, x) && Fresh(c, stored.id)
    requires Copies(d.q, x) == Copies(c.q, x) + One(x == stored) && d.accepted == c.accepted + multiset{stored}
    requires d.dispatched == c.dispatched && d.removed == c.removed && d.pc == c.pc
    requires d.releasing == c.releasing && d.destroyed == c.destroyed
    ensures Balanced(d, x)
  {
    assert x in c.accepted <==> c.accepted[x] > 0;
  }

  lemma RemoveKeepsHistory(c: Config, f: Filter)
    requires HistoryInv(c)
    ensures HistoryInv(RemoveNext(c, f))
  {
    if c.q.usable {
      forall x ensures Balanced(RemoveNext(c, f), x) {
        assert Balanced(c, x);
        RemoveCopies(c.q, f, x);
        SelectedCopies(c.q, f, x);
      }
    }
  }

  lemma RemoveAllKeepsHistory(c: Config)
    requires HistoryInv(c)
    ensures HistoryInv(RemoveAllNext(c))
  {
    if c.q.usable {
      forall x ensures Balanced(RemoveAllNext(c), x) {
        assert Balanced(c, x);
        RemoveAllCopies(c.q, x);
      }
    }
  }

  lemma RemoveOrphansKeepsHistory(c: Config)
    requires HistoryInv(c)
    ensures HistoryInv(RemoveOrphansNext(c))
  {
    if c.q.usable {
      var f := Orphan(c.dead);
      forall x ensures Balanced(RemoveOrphansNext(c), x) {
        assert Balanced(c, x);
        RemoveCopies(c.q, f, x);
        SelectedCopies(c.q, f, x);
        SameLists(Remove(c.q, f), RemoveOrphans(c.q, c.dead), x);
      }
    }
  }

  lemma AfterRoundBalanced(c: Config, d: Round, last: Instant, e: Event)
    requires Balanced(c, e) && InHand(c.pc).None?
    requires Copies(c.q, e) == Copies(d.state, e) + One(Taken(d.outcome) == Some(e))
    ensures Balanced(AfterRound(c, d, last), e)
  {
  }

  lemma RoundKeepsHistory(c: Config, r: Readings)
    requires HistoryInv(c) && c.pc.Calling?
    ensures HistoryInv(RoundNext(c, r))
  {
    forall x ensures Balanced(RoundNext(c, r), x) {
      assert Balanced(c, x);
      RoundTakesOne(c.q, r, x);
      AfterRoundBalanced(c, GetEventRound(c.q, r), r.poll, x);
    }
  }

  /** Steps that neither move nor destroy an event. */
  lemma FrameKeepsHistory(c: Config, d: Config)
    requires HistoryInv(c)
    requires d.q.idle == c.q.idle && forall j :: 0 <= j < 4 ==> d.q.sub[j].queue == c.q.sub[j].queue
    requires d.accepted == c.accepted && d.dispatched == c.dispatched && d.removed == c.removed
    requires forall e :: One(InHand(c.pc) == Some(e)) + c.releasing[e] + c.destroyed[e]
                      == One(InHand(d.pc) == Some(e)) + d.releasing[e] + d.destroyed[e]
    ensures HistoryInv(d)
  {
    forall x ensures Balanced(d, x) {
      assert Balanced(c, x);
      SameLists(c.q, d.q, x);
      assert One(InHand(c.pc) == Some(x)) + c.releasing[x] + c.destroyed[x]
          == One(InHand(d.pc) == Some(x)) + d.releasing[x] + d.destroyed[x];
    }
  }

  lemma SharedStepKeepsHistory(c: Config, a: SharedAction, d: Config)
    requires HistoryInv(c) && SharedStep(c, a, d)
    ensures HistoryInv(d)
  {
    match a {
      case InsertEvent(e, p, at, option, from) => InsertKeepsHistory(c, e, p, at, option, from);
      case RemoveMatching(f) => RemoveKeepsHistory(c, f);
      case RemoveEverything => RemoveAllKeepsHistory(c);
      case RemoveDead => RemoveOrphansKeepsHistory(c);
      case _ => FrameKeepsHistory(c, d);
    }
  }

  lemma ExecutionKeepsHistory(c: Config, listened: bool)
    requires HistoryInv(c)
    ensures c.pc.Holding? ==> HistoryInv(ExecuteNext(c))
    ensures c.pc.Executing? ==> HistoryInv(TaskDoneNext(c, listened))
  {
    if c.pc.Holding? {
      FrameKeepsHistory(c, ExecuteNext(c));
    } else if c.pc.Executing? {
      FrameKeepsHistory(c, TaskDoneNext(c, listened));
    }
  }

  lemma RunnerStepKeepsHistory(c: Config, a: RunnerAction, d: Config)
    requires HistoryInv(c) && RunnerStep(c, a, d)
    ensures HistoryInv(d)
  {
    match a {
      case TakeRound(r) => RoundKeepsHistory(c, r);
      case Execute => ExecutionKeepsHistory(c, true);
      case TaskDone(listened) => ExecutionKeepsHistory(c, listened);
      case _ => FrameKeepsHistory(c, d);
    }
  }
}
