/** Finish over whole runs: nothing leaves the queue afterwards, and GetEvent returns an event exactly when
    it was already polling with one in hand. */
module FinishRuns {
  import opened Events
  import opened EventLoop
  import opened LoopRuns

  /** GetEvent returns an event to the loop. */
  predicate Returns(c: Config, d: Config) {
    !c.pc.Holding? && d.pc.Holding?
  }

  /** How many of the first n steps let GetEvent return an event. */
  function Returned(cs: seq<Config>, n: nat): nat
    requires n < |cs|
  {
    if n == 0 then 0 else Returned(cs, n - 1) + One(Returns(cs[n - 1], cs[n]))
  }

  lemma SharedStepKeepsPc(c: Config, a: SharedAction, d: Config)
    requires SharedStep(c, a, d)
    ensures d.pc == c.pc
    ensures c.q.finished && a != Prepare ==> d.q.finished
  {
  }

  /** A round is not taken on a finished queue, so the only way to an event is the end of a poll. */
  lemma FinishedRunnerStep(c: Config, a: RunnerAction, d: Config)
    requires RunnerStep(c, a, d) && c.q.finished
    ensures d.q.finished && !d.pc.Polling?
    ensures Returns(c, d) <==> c.pc.Polling?
    ensures c.pc.Polling? ==> a.PollReturn? && d.pc == Holding(c.pc.event)
  {
  }

  lemma FinishedStep(c: Config, a: Action, d: Config)
    requires Step(c, a, d) && c.q.finished && a != Any(Prepare)
    ensures d.q.finished && d.dispatched == c.dispatched
    ensures d.pc.Polling? ==> d.pc == c.pc
    ensures Returns(c, d) <==> c.pc.Polling? && !d.pc.Polling?
    ensures Returns(c, d) ==> a.Runner? && a.runner.PollReturn? && d.pc == Holding(c.pc.event)
  {
    if a.Any? {
      SharedStepKeepsPc(c, a.shared, d);
      SharedStepKeepsPicking(c, a.shared, d);
    } else {
      FinishedRunnerStep(c, a.runner, d);
      OtherStepKeepsPicking(c, a.runner, d);
    }
  }

  /** From a finished queue and until Prepare, nothing leaves the queue, and GetEvent returns one event if
      it was polling and has ended its poll, and none otherwise. */
  lemma {:induction false} FinishedOverRuns(cs: seq<Config>, acts: seq<Action>, n: nat)
    requires Run(cs, acts) && cs[0].q.finished && n <= |acts|
    requires forall i :: 0 <= i < n ==> acts[i] != Any(Prepare)
    ensures cs[n].q.finished && cs[n].dispatched == cs[0].dispatched
    ensures cs[n].pc.Polling? ==> cs[n].pc == cs[0].pc
    ensures Returned(cs, n) == One(cs[0].pc.Polling? && !cs[n].pc.Polling?)
    ensures forall i :: 0 <= i < n && Returns(cs[i], cs[i + 1]) ==>
              && acts[i].Runner? && acts[i].runner.PollReturn?
              && cs[0].pc.Polling? && cs[i + 1].pc == Holding(cs[0].pc.event)
  {
    if n > 0 {
      FinishedOverRuns(cs, acts, n - 1);
      assert Step(cs[n - 1], acts[n - 1], cs[n]) && acts[n - 1] != Any(Prepare);
      FinishedStep(cs[n - 1], acts[n - 1], cs[n]);
    }
  }

  /** A run from c without Prepare in which GetEvent returns an event. */
  ghost predicate ReturningRun(c: Config, cs: seq<Config>, acts: seq<Action>) {
    && Run(cs, acts) && cs[0] == c
    && (forall i :: 0 <= i < |acts| ==> acts[i] != Any(Prepare))
    && Returned(cs, |acts|) > 0
  }

  /** What the documentation of Finish promises, that GetEvent returns no event until Prepare, holds exactly
      when GetEvent is not polling at that moment. */
  lemma FinishExact(c: Config)
    requires Inv(c) && c.q.finished
    ensures (exists cs, acts :: ReturningRun(c, cs, acts)) <==> c.pc.Polling?
  {
    if cs, acts :| ReturningRun(c, cs, acts) {
      FinishedOverRuns(cs, acts, |acts|);
    }
    if c.pc.Polling? {
      var d := PollReturnNext(c, true, true);
      var cs, acts := [c, d], [Runner(PollReturn(true, true))];
      assert Step(c, Runner(PollReturn(true, true)), d) && Returns(c, d);
      assert Returned(cs, 1) == Returned(cs, 0) + 1;
      assert ReturningRun(c, cs, acts);
    }
  }

  /** The same at the call: after Finish an event is still returned exactly when the call comes during a poll. */
  lemma FinishDuringPoll(c: Config)
    requires Inv(c) && c.q.usable
    ensures Step(c, Any(Finish), FinishNext(c)) && FinishNext(c).q.finished
    ensures (exists cs, acts :: ReturningRun(FinishNext(c), cs, acts)) <==> c.pc.Polling?
  {
    assert Step(c, Any(Finish), FinishNext(c));
    StepKeepsInv(c, Any(Finish), FinishNext(c));
    FinishExact(FinishNext(c));
  }
}
