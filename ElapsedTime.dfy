/** The 15-minute "sent recently" window of src/utils/isElapsedTime.ts. */
module ElapsedTime {
  import opened Common

  const WINDOW_MINUTES: int := 15

  /** isElapsedTime(time) evaluated at instant `now`: the whole minutes since
      `time`, rounded down by Math.floor, are fewer than 15. Despite its name
      it holds while the window is still open. */
  function IsElapsedTime(time: Millis, now: Millis): (r: bool)
    ensures r <==> now - time < WINDOW_MINUTES * MS_PER_MINUTE
  {
    (now - time) / MS_PER_MINUTE < WINDOW_MINUTES
  }

  /** A timestamp exactly 15 minutes old is outside the window; one a
      millisecond younger is inside. */
  lemma WindowBoundary(time: Millis)
    ensures !IsElapsedTime(time, time + 15 * MS_PER_MINUTE)
    ensures IsElapsedTime(time, time + 15 * MS_PER_MINUTE - 1)
  {
  }

  /** A timestamp in the future is always inside the window. */
  lemma FutureIsInside(time: Millis, now: Millis)
    requires now < time
    ensures IsElapsedTime(time, now)
  {
  }

  /** Once the window has closed for `time`, it stays closed. */
  lemma WindowStaysClosed(time: Millis, now: Millis, later: Millis)
    requires now <= later
    requires !IsElapsedTime(time, now)
    ensures !IsElapsedTime(time, later)
  {
  }
}
