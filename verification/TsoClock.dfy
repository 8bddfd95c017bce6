/** The clock arithmetic of the timestamp oracle. Times are nanoseconds since the Unix epoch. */
module TsoClock {
  import opened Options

  /** Nanoseconds in a millisecond. */
  const MS: int := 1_000_000

  /** updateTimestampGuard */
  const GUARD: int := MS

  /** maxLogical */
  const MAX_LOGICAL: int := 0x4_0000

  /** What UnixNano yields for Go's zero time: the count of year 1, wrapped to 64 bits. */
  const ZERO_TIME: int := -6795364578871345152

  /** Go's integer division by a millisecond, which truncates toward zero. */
  function Millis(ns: int): int {
    if ns >= 0 then ns / MS else -((-ns) / MS)
  }

  /** The time that a load of the saved timestamp yields; a missing key is Go's zero time. */
  function LoadedTime(saved: Option<int>): int {
    match saved
    case None => ZERO_TIME
    case Some(t) => t
  }

  /** The first physical time of a term, from the saved time and the wall clock. */
  function SyncNext(last: int, now: int): (next: int)
    ensures next >= last + GUARD
    ensures next >= now
    ensures next == now || next == last + GUARD
  {
    if now - last < GUARD then last + GUARD else now
  }

  /** The physical time that one tick of the leader moves to; None keeps the current one. */
  function TickNext(physical: int, logical: int, now: int): (next: Option<int>)
    ensures next.Some? ==> next.value >= physical + MS
    ensures next.None? ==> now <= physical + GUARD && logical <= MAX_LOGICAL / 2
  {
    if now - physical > GUARD then Some(now)
    else if logical > MAX_LOGICAL / 2 then Some(physical + MS)
    else None
  }

  /** Whether the saved window is too short for the next physical time. */
  predicate NeedsSave(lastSaved: int, next: int) {
    lastSaved - next <= GUARD
  }

  /**
    How far every published time of a term stays below the time saved last. Up to twice the guard
    each new time is saved first, at the whole interval above it; a longer window is used without
    a save until little more than the guard is left of it.
  */
  function Margin(interval: int): int {
    if interval <= 2 * GUARD then interval else GUARD + 1
  }

  /**
    Two times at least a millisecond apart fall into different milliseconds exactly when
    they do not both lie within a millisecond of the epoch, where truncation is not a floor.
  */
  lemma MillisSeparates(a: int, b: int)
    requires a + MS <= b
    ensures Millis(a) < Millis(b) <==> !(-MS < a && b < MS)
  {
    if a >= 0 {
      assert (a + MS) / MS == a / MS + 1;
    } else if b <= 0 {
      assert (-b + MS) / MS == (-b) / MS + 1;
    }
  }

  /** After the epoch a millisecond step always changes the millisecond. */
  lemma MillisIncreases(a: int, b: int)
    requires 0 <= a && a + MS <= b
    ensures Millis(a) < Millis(b)
  {
    MillisSeparates(a, b);
  }
}
