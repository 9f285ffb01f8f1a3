/**
 * Session validity as the profile handler decides it from a user's `last_login`
 * and the current time.
 */
module Session {
  import opened Wrappers

  /** An instant, in whole microseconds on the server's clock (the resolution of a datetime). */
  type Time = int

  const MICROS_PER_SECOND: int := 1_000_000
  const SECONDS_PER_DAY: int := 86400
  const MICROS_PER_DAY: int := SECONDS_PER_DAY * MICROS_PER_SECOND

  /** A session is refused once this many seconds have passed since the last login. */
  const SESSION_SECONDS: int := 1800

  /**
   * Python's `timedelta.seconds` for a difference of `delta` microseconds: only the
   * whole seconds within the last day, after the difference is normalised to
   * days (any sign), seconds in [0, 86400) and microseconds in [0, 10^6).
   */
  function TimedeltaSeconds(delta: int): (s: int)
    ensures 0 <= s < SECONDS_PER_DAY
  {
    (delta % MICROS_PER_DAY) / MICROS_PER_SECOND
  }

  lemma MultipleBelowDivisor(k: int, d: int)
    requires 0 < d && -d < k * d < d
    ensures k == 0
  {
  }

  /** Euclidean division is determined by any quotient and remainder in range. */
  lemma DivModUnique(x: int, q: int, r: int, d: int)
    requires 0 < d && 0 <= r < d && x == q * d + r
    ensures x / d == q && x % d == r
  {
    var q', r' := x / d, x % d;
    assert x == q' * d + r';
    assert (q - q') * d == r' - r;
    MultipleBelowDivisor(q - q', d);
  }

  /**
   * `TimedeltaSeconds` is the seconds field of the normal form Python gives a
   * difference: days of any sign, then seconds in [0, 86400), then microseconds.
   */
  lemma TimedeltaSecondsIsNormalForm(delta: int, days: int, seconds: int, micros: int)
    requires 0 <= seconds < SECONDS_PER_DAY && 0 <= micros < MICROS_PER_SECOND
    requires delta == days * MICROS_PER_DAY + seconds * MICROS_PER_SECOND + micros
    ensures TimedeltaSeconds(delta) == seconds
  {
    var rest := seconds * MICROS_PER_SECOND + micros;
    assert 0 <= rest < MICROS_PER_DAY;
    DivModUnique(delta, days, rest, MICROS_PER_DAY);
    DivModUnique(rest, seconds, micros, MICROS_PER_SECOND);
  }

  /** The three states of a session credential. */
  datatype SessionState = NeverAuthenticated | Active | Expired

  /** The session state the profile handler reads from `last_login` at time `now`. */
  function StateOf(lastLogin: Option<Time>, now: Time): (st: SessionState)
    ensures st == NeverAuthenticated <==> lastLogin.None?
  {
    match lastLogin
    case None => NeverAuthenticated
    case Some(t) => if TimedeltaSeconds(now - t) >= SESSION_SECONDS then Expired else Active
  }

  /**
   * Within a day of the last login the state is the 30-minute idle rule: expired
   * exactly when at least 1800 whole seconds have elapsed (1800 itself is expired).
   */
  lemma StateWithinADay(t: Time, now: Time)
    requires 0 <= now - t < MICROS_PER_DAY
    ensures StateOf(Some(t), now) == Expired <==> now - t >= SESSION_SECONDS * MICROS_PER_SECOND
    ensures StateOf(Some(t), now) == Active <==> now - t < SESSION_SECONDS * MICROS_PER_SECOND
  {
    assert (now - t) % MICROS_PER_DAY == now - t;
  }

  /** The state repeats with a period of one day, because only `timedelta.seconds` is read. */
  lemma StateRecursDaily(t: Time, now: Time)
    ensures StateOf(Some(t), now + MICROS_PER_DAY) == StateOf(Some(t), now)
  {
    assert (now + MICROS_PER_DAY - t) % MICROS_PER_DAY == (now - t) % MICROS_PER_DAY;
  }

  /**
   * A session whose last login lies whole days in the past reads as active again
   * during the first 30 minutes of each later day.
   */
  lemma {:induction false} ActiveAgainAfterWholeDays(t: Time, days: nat, d: int)
    requires 0 <= d < SESSION_SECONDS * MICROS_PER_SECOND
    ensures StateOf(Some(t), t + days * MICROS_PER_DAY + d) == Active
  {
    if days == 0 {
      StateWithinADay(t, t + d);
    } else {
      ActiveAgainAfterWholeDays(t, days - 1, d);
      StateRecursDaily(t, t + (days - 1) * MICROS_PER_DAY + d);
      assert t + (days - 1) * MICROS_PER_DAY + d + MICROS_PER_DAY == t + days * MICROS_PER_DAY + d;
    }
  }
}
