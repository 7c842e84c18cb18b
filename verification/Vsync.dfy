/** The vsync and barrier fields of EventQueue and their transitions, with the timing laws of the
    vsync poll: the check time sits on the frame grid and the back-off is exponential and bounded. */
module Vsync {
  import opened Events

  const CHECK_VSYNC_DELAY_NS: int := 1_000_000
  const MAX_INIT_VSYNC_PERIOD_NS: int := 34_000_000
  const MAX_CHECK_VSYNC_PERIOD_NS: int := 69_000_000
  // The defaults of the system parameters, in nanoseconds.
  const VSYNC_TASK_INTERVAL_NS: int := 4_000_000
  const VSYNC_DEFAULT_BARRIER_DELAY_NS: int := 50_000_000
  const VSYNC_BARRIER_TIMEOUT_NS: int := 100_000_000

  /** int8_t: the type of sumOfPendingVsync_. */
  type Int8 = n: int | -128 <= n <= 127

  datatype VsyncState = VsyncState(
    pending: Int8,
    needEpoll: bool,
    lazy: bool,
    barrier: bool,
    policy: VsyncPolicy,
    originPolicy: VsyncPolicy,
    enterBarrierTime: int,
    period: int,
    checkTime: int,
    recvTime: int,
    completeTime: int,
    forceEnableEndTime: int)

  const InitialVsync: VsyncState := VsyncState(0, false, true, false, FirstWithDefaultBarrier,
    FirstWithDefaultBarrier, MAX_TIME, MAX_INIT_VSYNC_PERIOD_NS, MAX_TIME, MAX_TIME, 0, 0)

  function Increment(n: Int8): Int8 {
    if n == 127 then -128 else n + 1
  }

  function Decrement(n: Int8): Int8 {
    if n == -128 then 127 else n - 1
  }

  /** DispatchVsyncTaskNotify */
  function Dispatch(v: VsyncState, now: Instant): VsyncState {
    v.(pending := Increment(v.pending),
       recvTime := if now > v.checkTime then v.checkTime else now,
       needEpoll := true,
       checkTime := MAX_TIME)
  }

  /** SetBarrierMode */
  function SetBarrier(v: VsyncState, on: bool, now: Instant): VsyncState {
    v.(barrier := on, enterBarrierTime := if on then now else MAX_TIME)
  }

  /** HandleVsyncTaskNotify followed by SetBarrierMode(false). */
  function HandleTask(v: VsyncState): VsyncState {
    SetBarrier(v.(pending := Decrement(v.pending)), false, 0)
  }

  /** GetVsyncTaskDelayTime */
  function DelayTime(v: VsyncState): int {
    if v.policy.FirstWithoutDefaultBarrier? then v.recvTime + v.period
    else v.recvTime + VSYNC_DEFAULT_BARRIER_DELAY_NS
  }

  /** The first half of CheckBarrierMode: the forced policy applies until its end time. */
  function ApplyForcedPolicy(v: VsyncState, now: Instant): VsyncState {
    if v.forceEnableEndTime > now then v.(policy := FirstWithoutDefaultBarrier, lazy := false)
    else v.(policy := v.originPolicy)
  }

  /** CheckBarrierMode; `stamp` is the later clock reading taken by SetBarrierMode. */
  function CheckMode(v: VsyncState, now: Instant, stamp: Instant): VsyncState {
    var w := ApplyForcedPolicy(v, now);
    if !w.lazy && !w.barrier && w.pending != 0 then
      if DelayTime(w) < now && w.completeTime + VSYNC_TASK_INTERVAL_NS < now
      then SetBarrier(w, true, stamp)
      else w
    else if w.barrier && w.needEpoll && w.enterBarrierTime + VSYNC_BARRIER_TIMEOUT_NS < now
    then SetBarrier(w, false, stamp).(lazy := true)
    else w
  }

  /** The repair branch of GetEvent. */
  function Repair(v: VsyncState): VsyncState {
    SetBarrier(v.(pending := 0), false, 0)
  }

  /** A poll of TryEpollFd that found no vsync although none was announced. */
  function Miss(v: VsyncState): VsyncState {
    if v.period < MAX_CHECK_VSYNC_PERIOD_NS
    then v.(checkTime := v.checkTime + v.period, period := v.period * 2)
    else v.(checkTime := MAX_TIME)
  }

  /** What TryEpollFd does after its wait; `need` is needEpoll_ as read before the wait. */
  function AfterPoll(v: VsyncState, need: bool): VsyncState {
    if v.pending != 0 then v
    else if need then v.(needEpoll := false)
    else Miss(v)
  }

  /** UpdateVsyncCheckTime */
  function UpdateCheckTime(v: VsyncState, lastFrameTime: int, period: int, now: Instant): VsyncState {
    if period <= 0 then v
    else
      v.(period := if period > MAX_INIT_VSYNC_PERIOD_NS then MAX_INIT_VSYNC_PERIOD_NS else period,
         checkTime := if lastFrameTime > now
                      then now + CHECK_VSYNC_DELAY_NS + (lastFrameTime - now) % period
                      else now + period + CHECK_VSYNC_DELAY_NS - (now - lastFrameTime) % period)
  }

  /** SetVsyncLazyMode */
  function SetLazy(v: VsyncState, lazy: bool): VsyncState {
    if v.policy.DisableVsyncFirst? then v else v.(lazy := lazy)
  }

  /** SetVsyncPolicy */
  function SetPolicy(v: VsyncState, policy: VsyncPolicy): VsyncState {
    v.(policy := policy, originPolicy := policy, lazy := policy.DisableVsyncFirst? || v.lazy)
  }

  /** SetVsyncFirstForceEnableTime */
  function ForceEnable(v: VsyncState, enable: bool, timeout: nat, now: Instant): VsyncState {
    if enable then v.(policy := FirstWithoutDefaultBarrier, forceEnableEndTime := now + timeout)
    else v.(policy := v.originPolicy, forceEnableEndTime := 0)
  }

  // ---------------------------------------------------------------- barrier mode and the count

  /** No transition enters barrier mode without a vsync to wait for. */
  ghost predicate BarrierHasReason(v: VsyncState) {
    v.barrier ==> v.pending > 0
  }

  /** The times that are added to when a vsync is pending or barrier mode is on are clock readings
      that have passed, so int64 arithmetic on them stays in range; and none that is read as an
      unsigned number is negative. */
  ghost predicate TimesInRange(v: VsyncState, now: Instant) {
    && (v.pending > 0 ==> 0 <= v.recvTime <= now)
    && (v.barrier ==> v.enterBarrierTime <= now)
    && 0 < v.period < 2 * MAX_CHECK_VSYNC_PERIOD_NS
    && 0 <= v.checkTime
    && 0 <= v.completeTime <= now
  }

  lemma CheckModeKeeps(v: VsyncState, now: Instant, stamp: Instant)
    requires BarrierHasReason(v) && v.pending >= 0 && now <= stamp && TimesInRange(v, now)
    ensures var w := CheckMode(v, now, stamp);
      BarrierHasReason(w) && w.pending == v.pending && TimesInRange(w, stamp)
    // Barrier mode is entered only on a late vsync and left by itself only on a time-out that turns
    // vsync-first scheduling off.
    ensures var w := CheckMode(v, now, stamp);
      w.barrier && !v.barrier ==> w.recvTime < now && w.completeTime < now && !w.lazy
    ensures var w := CheckMode(v, now, stamp);
      !w.barrier && v.barrier ==> w.lazy && v.enterBarrierTime + VSYNC_BARRIER_TIMEOUT_NS < now
  {
  }

  /** What a check does to barrier mode and to lazy mode, in every state. Barrier mode is entered exactly when a vsync
      task is pending, either a forced window is open or lazy mode is off, and the task is late: its delay
      has passed, which is one period in a window or under the policy without default barriers and 50 ms
      otherwise, and the last vsync task has been complete for the minimum interval. It is left exactly when
      its announcement has not been polled and the time-out has passed. Lazy mode is on afterwards exactly
      when barrier mode was left, or it was on and no window is open. */
  lemma CheckModeExactly(v: VsyncState, now: Instant, stamp: Instant)
    ensures var w := CheckMode(v, now, stamp); var window := now < v.forceEnableEndTime;
      var delay := if window || v.originPolicy.FirstWithoutDefaultBarrier? then v.period else 50_000_000;
      && (!v.barrier ==>
            (w.barrier <==>
               && v.pending != 0 && (window || !v.lazy)
               && v.recvTime + delay < now && v.completeTime + 4_000_000 < now))
      && (v.barrier ==> (!w.barrier <==> v.needEpoll && v.enterBarrierTime + 100_000_000 < now))
      && (w.lazy <==> (v.barrier && !w.barrier) || (v.lazy && !window))
      && w.enterBarrierTime == (if w.barrier == v.barrier then v.enterBarrierTime else if w.barrier then stamp else MAX_TIME)
  {
  }

  /** When a vsync task that is announced at `sent` blocks everything else: out of lazy mode, at the first
      check at which the delay of the policy has passed since it was due or announced, whichever was
      earlier, and the last vsync task has been complete for the minimum interval. The policy is the one that
      was set, which a forced window that is over no longer hides. */
  lemma AnnouncedVsyncEntersBarrier(v: VsyncState, sent: Instant, now: Instant, stamp: Instant)
    requires v.pending == 0 && !v.barrier && v.forceEnableEndTime <= now
    ensures var due := if v.checkTime < sent then v.checkTime else sent;
      var delay := if v.originPolicy.FirstWithoutDefaultBarrier? then v.period else VSYNC_DEFAULT_BARRIER_DELAY_NS;
      CheckMode(Dispatch(v, sent), now, stamp).barrier <==>
        !v.lazy && due + delay < now && v.completeTime + VSYNC_TASK_INTERVAL_NS < now
  {
  }

  /** Barrier mode that was entered at `entered` ends at a check exactly when the vsync task has still not
      been seen by a poll and the time-out has passed; lazy mode then keeps it from coming back at any
      later check. */
  lemma BarrierEndsByTimeOut(v: VsyncState, entered: Instant, now: Instant, stamp: Instant)
    requires v.forceEnableEndTime <= now
    ensures var w := CheckMode(SetBarrier(v, true, entered), now, stamp);
      && (!w.barrier <==> v.needEpoll && entered + VSYNC_BARRIER_TIMEOUT_NS < now)
      && (!w.barrier ==> w.lazy && forall later: Instant, s: Instant :: later >= now ==> CheckMode(w, later, s) == w)
      && (w.barrier ==> w.enterBarrierTime == entered)
  {
  }

  // ---------------------------------------------------------------- the policy setters

  /** Vsync-first scheduling has been disabled: no barrier mode, and lazy mode to keep it away. */
  predicate Off(v: VsyncState) {
    v.originPolicy.DisableVsyncFirst? && v.lazy && !v.barrier
  }

  /** Disabling and a forced window against each other. The window opens at t0, the queue is checked at t1,
      a vsync task is announced at t2, and at t3 the window is over. Although the policy is the disabled
      one again, barrier mode is entered for a late vsync task exactly when the check at t1 was inside the
      window, because that check left lazy mode and nothing brings it back. */
  lemma ForcedWindowUndoesDisable(v: VsyncState, timeout: nat, t0: Instant, t1: Instant, s1: Instant, t2: Instant,
                                  t3: Instant, s3: Instant)
    requires v.pending == 0 && !v.barrier && t0 + timeout <= t3
    ensures var w := CheckMode(ForceEnable(SetPolicy(v, DisableVsyncFirst), true, timeout, t0), t1, s1);
      var x := CheckMode(Dispatch(w, t2), t3, s3);
      && x.policy == x.originPolicy == DisableVsyncFirst
      && (x.barrier <==>
            && t1 < t0 + timeout
            && (if v.checkTime < t2 then v.checkTime else t2) + VSYNC_DEFAULT_BARRIER_DELAY_NS < t3
            && v.completeTime + VSYNC_TASK_INTERVAL_NS < t3)
  {
  }

  /** A policy that is set decides the next check, outside a forced window by its own delay, and in a window no longer;
      disabling keeps barrier mode away until a window opens, and no other policy leaves lazy mode by itself. */
  lemma PolicyDecidesCheck(v: VsyncState, policy: VsyncPolicy, now: Instant, stamp: Instant)
    requires !v.barrier
    ensures var window := now < v.forceEnableEndTime;
      var delay := if window || policy.FirstWithoutDefaultBarrier? then v.period else VSYNC_DEFAULT_BARRIER_DELAY_NS;
      CheckMode(SetPolicy(v, policy), now, stamp).barrier <==>
        && v.pending != 0 && (window || (!v.lazy && !policy.DisableVsyncFirst?))
        && v.recvTime + delay < now && v.completeTime + VSYNC_TASK_INTERVAL_NS < now
  {
  }

  /** What the setters do to each other before any check: lazy mode can be set under every policy but the disabled
      one, which takes effect at once, as does a forced window that lifts it; and a window that is closed by
      hand leaves no trace, whenever the next check comes. */
  lemma SettersTakeEffectAtOnce(v: VsyncState, policy: VsyncPolicy, lazy: bool, timeout: nat, t0: Instant, t1: Instant,
                                now: Instant, stamp: Instant)
    ensures SetLazy(SetPolicy(v, policy), lazy).lazy == (policy.DisableVsyncFirst? || lazy)
    ensures SetLazy(ForceEnable(SetPolicy(v, policy), true, timeout, t0), lazy).lazy == lazy
    ensures var w := ForceEnable(ForceEnable(SetPolicy(v, policy), true, timeout, t0), false, 0, t1);
      && SetLazy(w, lazy).lazy == (policy.DisableVsyncFirst? || lazy)
      && CheckMode(w, now, stamp) == CheckMode(SetPolicy(v, policy).(forceEnableEndTime := 0), now, stamp)
  {
  }

  /** While a forced window is open every check schedules without default barriers and out of lazy mode,
      whatever policy was set; the first check after it, and closing it by hand, restore the policy that
      was set, but not lazy mode. */
  lemma ForcedWindow(v: VsyncState, timeout: nat, t0: Instant, now: Instant, stamp: Instant)
    requires !v.barrier
    ensures var w := CheckMode(ForceEnable(v, true, timeout, t0), now, stamp);
      if now < t0 + timeout then w.policy == FirstWithoutDefaultBarrier && !w.lazy
      else w.policy == v.originPolicy && w.lazy == v.lazy
    ensures var w := CheckMode(ForceEnable(v, true, timeout, t0), now, stamp);
      var u := ForceEnable(w, false, 0, now);
      u.policy == v.originPolicy && u.originPolicy == v.originPolicy && u.lazy == (v.lazy && now >= t0 + timeout)
  {
  }

  // ---------------------------------------------------------------- the frame grid

  /** x lies on the grid of frames through `anchor`. */
  ghost predicate OnGrid(x: int, anchor: int, period: int)
    requires period > 0
  {
    (x - anchor) % period == 0
  }

  lemma Multiples(p: int, k: int)
    requires p > 0
    ensures k >= 1 ==> p * k >= p
    ensures k <= -1 ==> p * k <= -p
  {
  }

  lemma MultipleOnGrid(x: int, anchor: int, p: int, k: int)
    requires p > 0 && x - anchor == p * k
    ensures OnGrid(x, anchor, p)
  {
    var d := x - anchor;
    assert d % p == p * (k - d / p);
    Multiples(p, k - d / p);
  }

  /** Two grid points closer than one period are the same. */
  lemma GridGap(x: int, y: int, anchor: int, p: int)
    requires p > 0 && OnGrid(x, anchor, p) && OnGrid(y, anchor, p) && x - p < y <= x
    ensures x == y
  {
    var i, j := (x - anchor) / p, (y - anchor) / p;
    assert x - anchor == p * i && y - anchor == p * j;
    assert p * i - p * j == p * (i - j);
    Multiples(p, i - j);
  }

  /** UpdateVsyncCheckTime schedules the poll one delay after the first frame that is not in the
      past: at or after now when the last frame lies ahead, strictly after now otherwise. */
  lemma CheckTimeOnGrid(v: VsyncState, lastFrameTime: int, period: int, now: Instant)
    requires period > 0
    ensures var frame := UpdateCheckTime(v, lastFrameTime, period, now).checkTime - 1_000_000;
      && OnGrid(frame, lastFrameTime, period)
      && (if lastFrameTime > now then now <= frame < now + period else now < frame <= now + period)
      && forall y :: OnGrid(y, lastFrameTime, period) && y < frame ==>
                     if lastFrameTime > now then y < now else y <= now
  {
    var frame := UpdateCheckTime(v, lastFrameTime, period, now).checkTime - CHECK_VSYNC_DELAY_NS;
    if lastFrameTime > now {
      var d := lastFrameTime - now;
      assert frame - lastFrameTime == period * (-(d / period));
      MultipleOnGrid(frame, lastFrameTime, period, -(d / period));
    } else {
      var d := now - lastFrameTime;
      assert frame - lastFrameTime == period * (d / period + 1);
      MultipleOnGrid(frame, lastFrameTime, period, d / period + 1);
    }
    forall y | OnGrid(y, lastFrameTime, period) && y < frame
      ensures if lastFrameTime > now then y < now else y <= now
    {
      if frame - period < y {
        GridGap(frame, y, lastFrameTime, period);
      }
    }
  }

  // ---------------------------------------------------------------- the back-off

  function Pow2(k: nat): nat {
    if k == 0 then 1 else 2 * Pow2(k - 1)
  }

  /** k polls in a row that found nothing. */
  function Misses(v: VsyncState, k: nat): VsyncState {
    if k == 0 then v else Miss(Misses(v, k - 1))
  }

  /** How often a period can double before it reaches the limit. */
  function Doublings(p: int): nat
    requires p > 0
    decreases MAX_CHECK_VSYNC_PERIOD_NS - p
  {
    if p >= MAX_CHECK_VSYNC_PERIOD_NS then 0 else 1 + Doublings(2 * p)
  }

  lemma {:induction false} DoublingsBound(p: int, k: nat)
    requires p > 0
    ensures k < Doublings(p) <==> p * Pow2(k) < MAX_CHECK_VSYNC_PERIOD_NS
    decreases k
  {
    if k == 0 {
    } else if p >= MAX_CHECK_VSYNC_PERIOD_NS {
      PowGrows(k);
      assert p * Pow2(k) >= p by { assert p * (Pow2(k) - 1) >= 0; }
    } else {
      DoublingsBound(2 * p, k - 1);
      assert p * Pow2(k) == 2 * p * Pow2(k - 1);
    }
  }

  lemma {:induction false} PowGrows(k: nat)
    ensures Pow2(k) >= 1
  {
    if k > 0 {
      PowGrows(k - 1);
    }
  }

  /** Successive misses double the period and move the check time by the sum of the periods, until
      the period reaches the limit; the next miss then switches polling off for good. */
  lemma {:induction false} BackOff(v: VsyncState, k: nat)
    requires v.period > 0
    ensures var n := Doublings(v.period);
      && Misses(v, k).period == v.period * Pow2(if k <= n then k else n)
      && Misses(v, k).checkTime == (if k <= n then v.checkTime + v.period * (Pow2(k) - 1) else MAX_TIME)
      && Misses(v, k) == v.(period := Misses(v, k).period, checkTime := Misses(v, k).checkTime)
  {
    var n := Doublings(v.period);
    if k > 0 {
      BackOff(v, k - 1);
      DoublingsBound(v.period, if k - 1 <= n then k - 1 else n);
      if k <= n {
        assert v.period * Pow2(k) == v.period * Pow2(k - 1) * 2;
        assert v.period * (Pow2(k) - 1) == v.period * (Pow2(k - 1) - 1) + v.period * Pow2(k - 1);
      }
    }
  }

  lemma Pow2At27()
    ensures Pow2(27) == 134_217_728
  {
    assert Pow2(9) == 512;
    assert Pow2(18) == 512 * Pow2(9);
    assert Pow2(27) == 512 * Pow2(18);
  }

  /** The period at which the doubling stops is below twice the limit. */
  lemma LastPeriod(p: int, m: nat)
    requires 0 < p <= MAX_INIT_VSYNC_PERIOD_NS && m <= Doublings(p)
    ensures p * Pow2(m) < 2 * MAX_CHECK_VSYNC_PERIOD_NS
  {
    if m > 0 {
      DoublingsBound(p, m - 1);
      assert p * Pow2(m) == 2 * (p * Pow2(m - 1));
    }
  }

  lemma DoublingsRange(p: int)
    requires 0 < p <= MAX_INIT_VSYNC_PERIOD_NS
    ensures 2 <= Doublings(p) <= 27
  {
    DoublingsBound(p, 1);
    DoublingsBound(p, 27);
    Pow2At27();
    var big := Pow2(27);
    assert (p - 1) * big >= 0;
    assert p * big == (p - 1) * big + big;
    assert p * Pow2(1) == 2 * p;
  }

  /** What a frame report plans, whatever the period was before: polls one delay after the next frame and then at
      distances that double from the reported period, capped at 34 ms, until 28 misses at most have switched
      polling off. */
  lemma ReportPlansPolls(v: VsyncState, lastFrameTime: int, period: int, now: Instant, k: nat)
    requires period > 0
    ensures var w := UpdateCheckTime(v, lastFrameTime, period, now);
      var p := if period < 34_000_000 then period else 34_000_000;
      && Doublings(p) <= 27
      && Misses(w, k).checkTime == if k <= Doublings(p) then w.checkTime + p * (Pow2(k) - 1) else MAX_TIME
  {
    var w := UpdateCheckTime(v, lastFrameTime, period, now);
    BackOff(w, k);
    DoublingsRange(w.period);
  }

  /** From any period that UpdateVsyncCheckTime can set, the period stays below twice the limit,
      the check time moves by less than twice the limit, and 28 misses switch polling off. */
  lemma BackOffEnds(v: VsyncState, k: nat)
    requires 0 < v.period <= 34_000_000
    ensures Misses(v, k).period < 138_000_000
    ensures Misses(v, k).checkTime < v.checkTime + 138_000_000 || Misses(v, k).checkTime == MAX_TIME
    ensures k >= 28 ==> Misses(v, k).checkTime == MAX_TIME
  {
    var n := Doublings(v.period);
    var m := if k <= n then k else n;
    BackOff(v, k);
    DoublingsRange(v.period);
    LastPeriod(v.period, m);
    assert v.period * (Pow2(m) - 1) == v.period * Pow2(m) - v.period;
  }
}
