/** Shared types and constants of the agent (include/agent.hpp).

    The target is an ESP32, where `unsigned long` is 32 bits wide: every
    timestamp and interval is a `Millis` below 2^32, and subtracting two of
    them wraps modulo 2^32 as the C++ expressions do.
 */
module Agent {

  datatype Option<+T> = None | Some(value: T)

  /** The pages of the display, in the order the C++ enum declares them. */
  datatype Page = Home | Wifi | Time | Electricity | Gas

  /** The value C++ gives each enumerator: its position in the declaration. */
  function Ordinal(p: Page): (n: nat)
    ensures n < 5
  {
    match p
    case Home => 0
    case Wifi => 1
    case Time => 2
    case Electricity => 3
    case Gas => 4
  }

  /** All pages in declaration order. */
  const Pages: seq<Page> := [Home, Wifi, Time, Electricity, Gas]

  /** `Pages` lists every page exactly once, each at the position of its
      enumerator value. */
  lemma PagesInDeclarationOrder(p: Page, i: nat)
    ensures |Pages| == 5
    ensures Pages[Ordinal(p)] == p
    ensures i < 5 ==> Ordinal(Pages[i]) == i
  {
  }

  /** Two pages with the same enumerator value are the same page. */
  lemma OrdinalInjective(p: Page, q: Page)
    ensures Ordinal(p) == Ordinal(q) <==> p == q
  {
  }

  /** Milliseconds since boot, as `millis()` returns them: an `unsigned
      long`, 32 bits wide, wrapping after about 49.7 days. */
  const ClockModulus: int := 0x1_0000_0000
  type Millis = x: int | 0 <= x < 0x1_0000_0000

  /** `now - since` on `unsigned long`: the time elapsed since `since`,
      counted across one wrap of the clock. */
  function Elapsed(now: Millis, since: Millis): (d: Millis)
    ensures since <= now ==> d == now - since
    ensures now < since ==> d == now + (ClockModulus - since)
  {
    (now - since) % ClockModulus
  }

  /** The clock reading `d` milliseconds after `t`: `t + d` on
      `unsigned long`. */
  function Later(t: Millis, d: Millis): (r: Millis)
    ensures t + d < ClockModulus ==> r == t + d
    ensures ClockModulus <= t + d ==> r == t + d - ClockModulus
  {
    (t + d) % ClockModulus
  }

  /** `Elapsed` and `Later` are inverse: the time elapsed between `t` and
      the reading `d` after it is `d`, and `since` plus the elapsed time is
      `now` again, however the readings straddle the wrap. */
  lemma ElapsedInvertsLater(t: Millis, d: Millis, now: Millis, since: Millis)
    ensures Elapsed(Later(t, d), t) == d
    ensures Later(since, Elapsed(now, since)) == now
  {
  }

  /** Elapsed time is measured from a reference point: for two readings
      `x` and `y` taken in that order after `origin`, the time from `x` to
      `y` is the difference of their distances from `origin`, and so no
      more than the distance of `y`. */
  lemma ElapsedWithinWindow(origin: Millis, x: Millis, y: Millis)
    requires Elapsed(x, origin) <= Elapsed(y, origin)
    ensures Elapsed(y, x) == Elapsed(y, origin) - Elapsed(x, origin)
    ensures Elapsed(y, x) <= Elapsed(y, origin)
  {
  }

  /** Defaults of the constructors' interval parameters, in milliseconds. */
  const DefaultConnectionCheckInterval: Millis := 180000
  const DefaultScreensaverTimeout: Millis := 60000
  const DefaultDisplayRefreshInterval: Millis := 100
  const DefaultButtonStabilizerInterval: Millis := 100
}
