/** linuxpp::monotonic_timerfd: the arithmetic that turns a deadline into the
    timespec handed to timerfd_settime, and the armed timer that results.
    Times and durations are whole nanoseconds of the steady clock. */
module MonotonicTimer {

  const NANOS_PER_SECOND: int := 1_000_000_000

  datatype Timespec = Timespec(sec: int, nsec: int)

  /** One arming reads the clock (`read`) and reaches the kernel later (`armed`). */
  datatype Readings = Readings(read: int, armed: int)

  /** The steady clock never goes back. */
  type Clock = c: Readings | c.read <= c.armed witness Readings(0, 0)

  /** A one-shot timer: the deadline it was armed for, and when. It stays armed,
      or expired and unread, until it is read. */
  datatype Timer = Idle | Armed(aim: int, clock: Clock)

  /** duration_cast<seconds> truncates toward zero. */
  function TruncateToSeconds(nanos: int): int {
    if nanos >= 0 then nanos / NANOS_PER_SECOND else -((-nanos) / NANOS_PER_SECOND)
  }

  function ToTimespec(nanos: int): Timespec {
    var offset := if nanos == 0 then 1 else 0;
    var sec := TruncateToSeconds(nanos);
    Timespec(sec, offset + (nanos - sec * NANOS_PER_SECOND))
  }

  /** timerfd_settime answers EINVAL for anything else. */
  predicate Accepted(ts: Timespec) {
    0 <= ts.sec && 0 <= ts.nsec < NANOS_PER_SECOND
  }

  /** The all-zero value switches a timer off. */
  predicate Disarms(ts: Timespec) {
    ts.sec == 0 && ts.nsec == 0
  }

  function Span(ts: Timespec): int {
    ts.sec * NANOS_PER_SECOND + ts.nsec
  }

  function Max(a: int, b: int): int {
    if a < b then b else a
  }

  /** The duration overload: the kernel accepts exactly the durations that are
      not negative, and then the timer is never switched off and runs for the
      whole duration (1 ns for the empty one). */
  lemma TimespecIsExact(nanos: int)
    ensures Accepted(ToTimespec(nanos)) <==> nanos >= 0
    ensures Span(ToTimespec(nanos)) == if nanos == 0 then 1 else nanos
    ensures !Disarms(ToTimespec(nanos))
  {
    var sec := TruncateToSeconds(nanos);
    if nanos < 0 {
      assert -nanos == (-nanos) / NANOS_PER_SECOND * NANOS_PER_SECOND + (-nanos) % NANOS_PER_SECOND;
    } else {
      assert nanos == sec * NANOS_PER_SECOND + nanos % NANOS_PER_SECOND;
    }
  }

  /** The time_point overload chooses the delay: the time left, or 1 ns when the
      deadline has been reached. */
  function DelayUntil(deadline: int, now: int): int {
    if deadline > now then deadline - now else 1
  }

  /** set_oneshot(time_point) */
  function SetOneshot(deadline: int, clock: Clock): Timer {
    Armed(deadline, clock)
  }

  /** When the kernel lets the timer expire. */
  function Expiry(t: Timer): int
    requires t.Armed?
  {
    t.clock.armed + Span(ToTimespec(DelayUntil(t.aim, t.clock.read)))
  }

  predicate Readable(t: Timer, now: int) {
    t.Armed? && Expiry(t) <= now
  }

  /** For every deadline and pair of clock readings: the kernel accepts the
      value and does not switch the timer off, the timer expires in the future,
      never before the deadline, and later than the deadline (or than 1 ns after
      the reading, for a deadline already reached) by the arming lag alone. */
  lemma OneshotNeverEarlyNeverLost(deadline: int, clock: Clock)
    ensures var ts := ToTimespec(DelayUntil(deadline, clock.read)); Accepted(ts) && !Disarms(ts)
    ensures var expiry := Expiry(SetOneshot(deadline, clock));
            expiry > clock.armed && expiry >= deadline
            && expiry == Max(deadline, clock.read + 1) + (clock.armed - clock.read)
  {
    TimespecIsExact(DelayUntil(deadline, clock.read));
  }

  /** A timer armed no later than for a deadline is readable once that deadline, or 1 ns
      since the clock was read, has come and the lag of the arming has passed. */
  lemma ReadableInTime(t: Timer, deadline: int, now: int)
    requires t.Armed? && t.aim <= deadline
    requires now >= Max(deadline, t.clock.read + 1) + (t.clock.armed - t.clock.read)
    ensures Readable(t, now) && now >= deadline
  {
    OneshotNeverEarlyNeverLost(t.aim, t.clock);
  }
}
