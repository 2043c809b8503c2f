/** The fixed-window limiter in front of secure enrollment, over every sequence of calls. */
module RateLimiter {
  import opened GoTime

  const LIMIT := 120

  datatype Window = Window(start: int, attempts: nat)

  /** The zero value of the Go struct. */
  const UNUSED := Window(0, 0)

  predicate Expired(w: Window, now: int) {
    IsZero(w.start) || Sub(now, w.start) >= MINUTE || now < w.start
  }

  function Refreshed(w: Window, now: int): Window {
    if Expired(w, now) then Window(now, 0) else w
  }

  predicate Allows(w: Window, now: int) {
    Refreshed(w, now).attempts < LIMIT
  }

  function Next(w: Window, now: int): Window {
    var r := Refreshed(w, now);
    if r.attempts < LIMIT then r.(attempts := r.attempts + 1) else r
  }

  /** The state behind the mutex. */
  class Limiter {
    var window: int
    var attempts: nat

    function State(): Window
      reads this
    {
      Window(window, attempts)
    }

    constructor ()
      ensures State() == UNUSED
    {
      window, attempts := 0, 0;
    }

    method AllowSecureEnrollment(now: int) returns (allowed: bool)
      modifies this
      ensures allowed == Allows(old(State()), now) && State() == Next(old(State()), now)
    {
      if window == 0 || Sub(now, window) >= MINUTE || now < window {
        window := now;
        attempts := 0;
      }
      if attempts >= LIMIT { return false; }
      attempts := attempts + 1;
      return true;
    }
  }

  // ---------------------------------------------------------------------
  // Sequences of calls
  // ---------------------------------------------------------------------

  function After(times: seq<int>): Window {
    if times == [] then UNUSED else Next(After(times[..|times| - 1]), times[|times| - 1])
  }

  /** Was the last of these calls allowed? */
  predicate LastAllowed(times: seq<int>)
    requires times != []
  {
    Allows(After(times[..|times| - 1]), times[|times| - 1])
  }

  /** The allowed calls in the half-open minute that starts at `x`. */
  function AllowedWithin(times: seq<int>, x: int): nat {
    if times == [] then 0
    else
      AllowedWithin(times[..|times| - 1], x)
      + (if LastAllowed(times) && x <= times[|times| - 1] < x + 60_000_000_000 then 1 else 0)
  }

  /** The call that opened the current window. */
  function Opener(times: seq<int>): (k: nat)
    requires times != []
    ensures k < |times|
  {
    var init, now := times[..|times| - 1], times[|times| - 1];
    if init == [] || Expired(After(init), now) then |init| else Opener(init)
  }

  /** The allowed calls from the k-th on. */
  function AllowedFrom(times: seq<int>, k: nat): nat {
    if |times| <= k then 0
    else AllowedFrom(times[..|times| - 1], k) + (if LastAllowed(times) then 1 else 0)
  }

  /**
   Calls that reset an open window less than a minute after it began. The clock is read before
   the lock is taken, so a call may carry an earlier instant than the window; a window that
   began at the zero instant counts as unused.
   */
  function EarlyResets(times: seq<int>): nat {
    if times == [] then 0
    else
      var init, now := times[..|times| - 1], times[|times| - 1];
      EarlyResets(init)
      + (if init != [] && Expired(After(init), now) && Sub(now, After(init).start) < MINUTE then 1 else 0)
  }

  /** A clock that never steps back and never shows the zero instant. */
  ghost predicate ClockLike(times: seq<int>) {
    && (forall i, j :: 0 <= i < j < |times| ==> times[i] <= times[j])
    && (forall i :: 0 <= i < |times| ==> !IsZero(times[i]))
  }

  /** The open window began at one of the calls and counts the calls allowed since then. */
  lemma {:induction false} WindowCountsItsCalls(times: seq<int>)
    requires times != []
    ensures var w, k := After(times), Opener(times);
            w.start == times[k] && 1 <= w.attempts <= LIMIT && w.attempts == AllowedFrom(times, k)
  {
    hide Expired;
    var init, now := times[..|times| - 1], times[|times| - 1];
    if init == [] {
      FirstCallOpens(now);
      assert times == [now];
    } else if Expired(After(init), now) {
      assert AllowedFrom(init, |init|) == 0;
    } else {
      WindowCountsItsCalls(init);
    }
  }

  lemma FirstCallOpens(now: int)
    ensures [now][..0] == [] && Expired(After([]), now) && After([now]) == Window(now, 1)
    ensures AllowedFrom([now], 0) == 1
  {
    assert [now][..0] == [];
  }

  /** Every call since the open window began falls into its minute. */
  lemma {:induction false} WindowIsCurrent(times: seq<int>)
    requires times != []
    ensures forall j :: Opener(times) <= j < |times| ==>
              After(times).start <= times[j] < After(times).start + MINUTE
  {
    hide AllowedFrom;
    WindowCountsItsCalls(times);
    var init, now := times[..|times| - 1], times[|times| - 1];
    if init != [] && !Expired(After(init), now) {
      WindowCountsItsCalls(init);
      WindowIsCurrent(init);
      assert After(times).start == After(init).start;
    }
  }

  /** Calls in order on a real clock never reset a window early. */
  lemma {:induction false} OrderedCallsResetOnTime(times: seq<int>)
    requires ClockLike(times)
    ensures EarlyResets(times) == 0
  {
    if |times| > 1 {
      OrderedCallsResetOnTime(times[..|times| - 1]);
      WindowCountsItsCalls(times[..|times| - 1]);
    }
  }

  /** What the windows before the open one can have put into the minute that starts at `x`. */
  lemma {:induction false} WindowBound(times: seq<int>, x: int)
    requires times != []
    ensures var w, earlier := After(times), 239 * EarlyResets(times);
            && AllowedWithin(times, x) <= earlier + 239
            && (w.start < x + MINUTE ==> AllowedWithin(times, x) <= earlier + LIMIT - 1 + w.attempts)
            && (w.start < x ==> AllowedWithin(times, x) <= earlier + w.attempts - 1)
            && (w.start + MINUTE <= x ==> AllowedWithin(times, x) <= earlier)
  {
    var init := times[..|times| - 1];
    if init != [] {
      WindowCountsItsCalls(init);
      WindowBound(init, x);
    }
  }

  /**
   Whatever the order of the calls, no half-open minute, wherever it starts, holds more than
   239 allowed calls for each stretch without an early reset.
   */
  lemma AtMost239PerStretch(times: seq<int>, x: int)
    ensures AllowedWithin(times, x) <= 239 * (1 + EarlyResets(times))
    ensures ClockLike(times) ==> AllowedWithin(times, x) <= 239
  {
    if times != [] { WindowBound(times, x); }
    if ClockLike(times) { OrderedCallsResetOnTime(times); }
  }

  /**
   A call is refused exactly when 120 calls were allowed since the open window began, which is
   not in the call's future and less than a minute ago.
   */
  lemma RefusedIffFull(times: seq<int>, now: int)
    ensures !Allows(After(times), now) <==>
            && times != []
            && var k := Opener(times);
            && AllowedFrom(times, k) == 120 && times[k] != 0 && times[k] <= now < times[k] + 60_000_000_000
    ensures times != [] ==> forall j :: Opener(times) <= j < |times| ==>
              times[Opener(times)] <= times[j] < times[Opener(times)] + 60_000_000_000
  {
    if times != [] {
      WindowCountsItsCalls(times);
      WindowIsCurrent(times);
    }
  }

  // ---------------------------------------------------------------------
  // The bound is reached
  // ---------------------------------------------------------------------

  function Burst(t: int, n: nat): seq<int> {
    seq(n, _ => t)
  }

  lemma OneMore(times: seq<int>, t: int, x: int)
    ensures After(times + [t]) == Next(After(times), t)
    ensures AllowedWithin(times + [t], x) ==
            AllowedWithin(times, x) + (if Allows(After(times), t) && x <= t < x + MINUTE then 1 else 0)
    ensures EarlyResets(times + [t]) ==
            EarlyResets(times)
            + (if times != [] && Expired(After(times), t) && Sub(t, After(times).start) < MINUTE then 1 else 0)
  {
    assert (times + [t])[..|times|] == times;
  }

  /** A burst into an open window is allowed as far as the window has room. */
  lemma {:induction false} BurstFits(times: seq<int>, t: int, n: nat, x: int)
    requires times != [] && !Expired(After(times), t) && After(times).attempts + n <= LIMIT && x <= t < x + MINUTE
    ensures AllowedWithin(times + Burst(t, n), x) == AllowedWithin(times, x) + n
    ensures After(times + Burst(t, n)) == After(times).(attempts := After(times).attempts + n)
    ensures EarlyResets(times + Burst(t, n)) == EarlyResets(times)
  {
    if n == 0 {
      assert times + Burst(t, n) == times;
    } else {
      BurstFits(times, t, n - 1, x);
      assert times + Burst(t, n) == times + Burst(t, n - 1) + [t];
      OneMore(times + Burst(t, n - 1), t, x);
    }
  }

  /**
   One stretch: a call just before the minute that starts at MINUTE opens a window, 119 follow
   within the minute, and 120 more fill the next window at the minute's last instant.
   */
  lemma Stretch(times: seq<int>) returns (longer: seq<int>)
    requires times != [] ==> After(times).start == 2 * MINUTE - 1
    ensures longer != [] && After(longer).start == 2 * MINUTE - 1
    ensures AllowedWithin(longer, MINUTE) == AllowedWithin(times, MINUTE) + 239
    ensures EarlyResets(longer) == EarlyResets(times) + if times == [] then 0 else 1
  {
    hide AllowedWithin, EarlyResets, After;
    EmptyHistory();
    OneMore(times, MINUTE - 1, MINUTE);
    longer := times + [MINUTE - 1];
    BurstFits(longer, MINUTE, LIMIT - 1, MINUTE);
    longer := longer + Burst(MINUTE, LIMIT - 1);
    OneMore(longer, 2 * MINUTE - 1, MINUTE);
    longer := longer + [2 * MINUTE - 1];
    BurstFits(longer, 2 * MINUTE - 1, LIMIT - 1, MINUTE);
    longer := longer + Burst(2 * MINUTE - 1, LIMIT - 1);
  }

  lemma EmptyHistory()
    ensures After([]) == UNUSED && AllowedWithin([], MINUTE) == 0 && EarlyResets([]) == 0
  {
  }

  /** With `d` early resets the bound is reached: 239 calls for each of the d + 1 stretches. */
  lemma {:induction false} BoundIsReached(d: nat) returns (times: seq<int>, x: int)
    ensures times != [] && x == MINUTE && After(times).start == 2 * MINUTE - 1
    ensures EarlyResets(times) == d && AllowedWithin(times, x) == 239 * (1 + d)
  {
    hide AllowedWithin, EarlyResets, After;
    EmptyHistory();
    x := MINUTE;
    if d == 0 {
      times := Stretch([]);
    } else {
      times, x := BoundIsReached(d - 1);
      times := Stretch(times);
    }
  }

  /** 239 calls a minute is a promise exactly when no window is reset early. */
  lemma LimitHoldsIffNoEarlyReset(d: nat)
    ensures (forall times, x :: EarlyResets(times) <= d ==> AllowedWithin(times, x) <= 239) <==> d == 0
  {
    hide AllowedWithin, EarlyResets, After;
    if d == 0 {
      forall times, x | EarlyResets(times) <= d ensures AllowedWithin(times, x) <= 239 {
        AtMost239PerStretch(times, x);
      }
    } else {
      var times, x := BoundIsReached(d);
    }
  }
}
