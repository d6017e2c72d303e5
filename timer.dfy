/** The countdown arithmetic of timer.js. Times are integer milliseconds; the clock
    (`Date.now()`) is passed in as `now`. */
module Timer {

  const MS_PER_MINUTE := 60000
  const MS_PER_SECOND := 1000

  /** The limit `getRemainingTime` and `isExpired` use when none is given: 30 minutes. */
  const DEFAULT_LIMIT_MS := 1800000

  /** What `formatRemainingTime` shows: the text `Expired`, or `<minutes>m <seconds>s`. */
  datatype Countdown = Expired | Remaining(minutes: int, seconds: int)

  /** `formatRemainingTime(msRemaining)`: `Expired` when nothing is left, otherwise the
      whole minutes and the whole seconds left over, rounded down. */
  function FormatRemainingTime(msRemaining: int): (r: Countdown)
    ensures r == Expired <==> msRemaining <= 0
    ensures r.Remaining? ==> r.minutes >= 0 && 0 <= r.seconds <= 59
    ensures r.Remaining? ==>
      r.minutes * MS_PER_MINUTE + r.seconds * MS_PER_SECOND <= msRemaining
      < r.minutes * MS_PER_MINUTE + r.seconds * MS_PER_SECOND + MS_PER_SECOND
  {
    if msRemaining <= 0 then Expired
    else Remaining(msRemaining / MS_PER_MINUTE, (msRemaining % MS_PER_MINUTE) / MS_PER_SECOND)
  }

  /** The display is determined by the bounds above: no other split of the same time fits them. */
  lemma CountdownUnique(ms: int, minutes: int, seconds: int)
    requires ms > 0
    requires 0 <= seconds <= 59
    requires minutes * MS_PER_MINUTE + seconds * MS_PER_SECOND <= ms
    requires ms < minutes * MS_PER_MINUTE + seconds * MS_PER_SECOND + MS_PER_SECOND
    ensures FormatRemainingTime(ms) == Remaining(minutes, seconds)
  {
  }

  /** `getRemainingTime(sentAt, limitMs)` at time `now`: what is left of the limit, never negative. */
  function GetRemainingTime(now: int, sentAt: int, limitMs: int): (r: int)
    ensures r >= 0
    ensures r == 0 <==> now - sentAt >= limitMs
    ensures r > 0 ==> sentAt + limitMs == now + r
  {
    if limitMs - (now - sentAt) > 0 then limitMs - (now - sentAt) else 0
  }

  /** `isExpired(sentAt, limitMs)` at time `now`: strictly more than the limit has elapsed. */
  predicate IsExpired(now: int, sentAt: int, limitMs: int)
  {
    now - sentAt > limitMs
  }

  /** An expired check has no time left, and the display of its remaining time says so. */
  lemma ExpiredHasNoTimeLeft(now: int, sentAt: int, limitMs: int)
    requires IsExpired(now, sentAt, limitMs)
    ensures GetRemainingTime(now, sentAt, limitMs) == 0
    ensures FormatRemainingTime(GetRemainingTime(now, sentAt, limitMs)) == Expired
  {
  }

  /** At exactly the limit the two disagree: no time is left, yet `isExpired` is false. */
  lemma BoundaryIsNotExpired(now: int, sentAt: int, limitMs: int)
    requires now - sentAt == limitMs
    ensures GetRemainingTime(now, sentAt, limitMs) == 0
    ensures FormatRemainingTime(GetRemainingTime(now, sentAt, limitMs)) == Expired
    ensures !IsExpired(now, sentAt, limitMs)
  {
  }

  /** The countdown only runs down: a later clock never shows more time left. */
  lemma RemainingNeverGrows(now: int, later: int, sentAt: int, limitMs: int)
    requires now <= later
    ensures GetRemainingTime(later, sentAt, limitMs) <= GetRemainingTime(now, sentAt, limitMs)
  {
  }
}
