/** How a deadline becomes the length of a wait. */
module Timeouts {
  import opened Events

  const INFINITE_TIMEOUT: int := -1
  const INT32_MAX: int := 0x7FFF_FFFF
  // The longest wait of NoneIoWaiter.
  const ONE_YEAR_NS: int := 365 * 24 * 3_600_000_000_000

  /** TimePointToTimeOut */
  function TimePointToTimeOut(when: TimePoint, now: Instant): (ns: nat)
    ensures now + ns >= when && (ns > 0 ==> now + ns == when)
  {
    if when <= now then 0 else when - now
  }

  /** NanosecondsToTimeout: whole milliseconds, rounded up; a negative length means no limit. */
  function NanosecondsToTimeout(ns: int): (ms: int)
    ensures ns < 0 <==> ms == INFINITE_TIMEOUT
    ensures ns >= 0 ==> 0 <= ms <= INT32_MAX
    // Never early unless capped, and late by less than a millisecond.
    ensures 0 <= ns <= INT32_MAX * NANOSECONDS_PER_MILLISECOND ==>
              ns <= ms * NANOSECONDS_PER_MILLISECOND < ns + NANOSECONDS_PER_MILLISECOND
    ensures ns > INT32_MAX * NANOSECONDS_PER_MILLISECOND ==> ms == INT32_MAX
  {
    if ns < 0 then INFINITE_TIMEOUT
    else
      var whole := ns / NANOSECONDS_PER_MILLISECOND;
      var ms := if ns % NANOSECONDS_PER_MILLISECOND > 0 then whole + 1 else whole;
      if ms > INT32_MAX then INT32_MAX else ms
  }

  /** The longest time NoneIoWaiter blocks for a requested length: never longer, and shorter only to a year. */
  function NoneWaitLength(ns: nat): (length: nat)
    ensures length <= ns && length <= ONE_YEAR_NS
    ensures length == ns || length == ONE_YEAR_NS
  {
    if ns > ONE_YEAR_NS then ONE_YEAR_NS else ns
  }

  /** The longest time epoll_wait blocks for a requested length: never shorter unless capped, and less than one
      millisecond longer. */
  function EpollWaitLength(ns: nat): (length: nat)
    ensures length < ns + NANOSECONDS_PER_MILLISECOND
    ensures ns <= length || length == INT32_MAX * NANOSECONDS_PER_MILLISECOND
  {
    NanosecondsToTimeout(ns) * NANOSECONDS_PER_MILLISECOND
  }
}
