/**
 * internal/stuckheight/rate_limiter.go: a tumbling window that bounds recovery attempts.
 *
 * Times are nanoseconds. A persisted time is cut down to a multiple of `grain`; Kubernetes keeps whole seconds.
 * The code reads the clock when it checks, again for the recorded time and again for the age of the window, so one
 * attempt has three readings.
 */
module RateLimiter {
  import opened Common

  const SECOND: int := 1_000_000_000

  datatype WindowSpec = Unset | Malformed | Duration(length: int)

  datatype Limits = Limits(maxRetries: Option<int>, window: WindowSpec)

  function MaxRetries(l: Limits): int {
    if l.maxRetries.Some? then l.maxRetries.value else 3
  }

  function WindowLength(l: Limits): Option<int> {
    match l.window
    case Unset => Some(300 * SECOND)
    case Malformed => None
    case Duration(d) => Some(d)
  }

  /** The rate-limit fields of the status. */
  datatype Window = Window(start: Option<int>, attempts: int, last: Option<int>)

  const Fresh: Window := Window(None, 0, None)

  predicate Expired(start: int, length: int, now: int) {
    now - start >= length
  }

  /** `CanAttemptRecovery`; None is an error. */
  function CanAttempt(l: Limits, w: Window, now: int): Option<bool> {
    if WindowLength(l).None? then None
    else if w.start.None? || Expired(w.start.value, WindowLength(l).value, now) then Some(true)
    else Some(w.attempts < MaxRetries(l))
  }

  /** What `RecordAttempt` leaves behind; a malformed length counts as zero. */
  function Record(l: Limits, w: Window, now: int, later: int): Window {
    var length := if WindowLength(l).Some? then WindowLength(l).value else 0;
    if w.start.None? || Expired(w.start.value, length, later) then Window(Some(now), 1, Some(now))
    else Window(w.start, w.attempts + 1, Some(now))
  }

  class AttemptWindow {
    var start: Option<int>
    var attempts: int
    var last: Option<int>

    function State(): Window
      reads this
    {
      Window(start, attempts, last)
    }

    constructor (w: Window)
      ensures State() == w
    {
      start, attempts, last := w.start, w.attempts, w.last;
    }

    method CanAttemptRecovery(l: Limits, now: int) returns (r: Option<bool>)
      ensures r == CanAttempt(l, State(), now)
    {
      var maxRetries := 3;
      if l.maxRetries.Some? {
        maxRetries := l.maxRetries.value;
      }
      var length := WindowLength(l);
      if length.None? {
        return None;
      }
      if start.None? {
        return Some(true);
      }
      var since := now - start.value;
      if since >= length.value {
        return Some(true);
      }
      if attempts >= maxRetries {
        return Some(false);
      }
      return Some(true);
    }

    method RecordAttempt(l: Limits, now: int, later: int)
      modifies this
      ensures State() == Record(l, old(State()), now, later)
    {
      if start.None? {
        start, attempts, last := Some(now), 1, Some(now);
        return;
      }
      var parsed := WindowLength(l);
      var length := if parsed.Some? then parsed.value else 0;
      if later - start.value >= length {
        start, attempts := Some(now), 1;
      } else {
        attempts := attempts + 1;
      }
      last := Some(now);
    }

    method ResetWindow()
      modifies this
      ensures State() == Window(None, 0, old(last))
    {
      attempts := 0;
      start := None;
    }
  }

  // ----- what is persisted

  function Floor(t: int, grain: int): (r: int)
    requires grain >= 1
    ensures t - grain < r <= t
  {
    t - t % grain
  }

  function FloorAll(t: Option<int>, grain: int): Option<int>
    requires grain >= 1
  {
    if t.Some? then Some(Floor(t.value, grain)) else None
  }

  function Persist(w: Window, grain: int): Window
    requires grain >= 1
  {
    Window(FloorAll(w.start, grain), w.attempts, FloorAll(w.last, grain))
  }

  /** Division leaves one quotient and one rest. */
  lemma RestIsUnique(t: int, grain: int, q: int, r: int)
    requires grain >= 1 && 0 <= r < grain && t == grain * q + r
    ensures t % grain == r
  {
    var p, s := t / grain, t % grain;
    assert t == grain * p + s;
    assert grain * (p - q) == r - s;
    assert p - q >= 1 ==> grain * (p - q) >= grain;
    assert p - q <= -1 ==> grain * (p - q) <= -grain;
  }

  lemma FloorTwice(t: int, grain: int)
    requires grain >= 1
    ensures Floor(Floor(t, grain), grain) == Floor(t, grain)
  {
    assert Floor(t, grain) == grain * (t / grain) + 0;
    RestIsUnique(Floor(t, grain), grain, t / grain, 0);
  }

  lemma FloorOfSmall(t: int, grain: int)
    requires grain >= 1 && 0 <= t < grain
    ensures Floor(t, grain) == 0
  {
  }

  // ----- runs

  /** The stored window with every attempt recorded since the height last changed, and which of them began a window. */
  datatype History = History(window: Window, times: seq<int>, starts: seq<nat>)

  /** The limits in force, the precision of stored times and a bound on the time between two readings of one attempt. */
  datatype Setting = Setting(max: int, length: int, grain: int, skew: int)

  predicate Proper(s: Setting) {
    s.max >= 1 && s.grain >= 1 && s.skew >= 0
  }

  predicate Governed(l: Limits, s: Setting) {
    MaxRetries(l) == s.max && WindowLength(l) == Some(s.length)
  }

  function Empty(last: Option<int>): History {
    History(Window(None, 0, last), [], [])
  }

  /** Adding an attempt, in the current window or in a new one. */
  function Extend(h: History, now: int, opens: bool, w: Window): History {
    History(w, h.times + [now], if opens then h.starts + [|h.times|] else h.starts)
  }

  /** An attempt that was checked, recorded and persisted. */
  function Attempted(l: Limits, grain: int, h: History, now: int, later: int): History
    requires grain >= 1
  {
    var w := Record(l, h.window, now, later);
    Extend(h, now, w.attempts == 1, Persist(w, grain))
  }

  /** One past the last attempt of window `k`. */
  function End(h: History, k: nat): nat {
    if k + 1 < |h.starts| then h.starts[k + 1] else |h.times|
  }

  ghost predicate Ascending(times: seq<int>) {
    forall i, j :: 0 <= i <= j < |times| ==> times[i] <= times[j]
  }

  /** The stored fields describe the last window. */
  predicate Stored(s: Setting, h: History)
    requires Proper(s)
  {
    if h.starts == [] then h.times == [] && h.window.start.None? && h.window.attempts == 0
    else
      var k := |h.starts| - 1;
      && h.starts[0] == 0 && h.starts[k] < |h.times|
      && h.window.start == Some(Floor(h.times[h.starts[k]], s.grain))
      && h.window.attempts == |h.times| - h.starts[k]
  }

  /** Window `k` holds between one and `max` attempts, and the next one begins when it has expired. */
  predicate WindowKept(s: Setting, h: History, k: nat)
    requires Proper(s) && k < |h.starts|
  {
    && h.starts[k] < End(h, k) <= |h.times| && End(h, k) <= h.starts[k] + s.max
    && (k + 1 < |h.starts| && h.starts[k + 1] < |h.times| ==>
          h.times[h.starts[k + 1]] >= Floor(h.times[h.starts[k]], s.grain) + s.length - s.skew)
  }

  ghost predicate Kept(s: Setting, h: History)
    requires Proper(s)
  {
    Ascending(h.times) && Stored(s, h) && forall k :: 0 <= k < |h.starts| ==> WindowKept(s, h, k)
  }

  lemma OpeningKeeps(s: Setting, h: History, now: int, w: Window)
    requires Proper(s) && Kept(s, h) && (h.times != [] ==> h.times[|h.times| - 1] <= now)
    requires h.window.start.Some? ==> now >= h.window.start.value + s.length - s.skew
    requires w.start == Some(Floor(now, s.grain)) && w.attempts == 1
    ensures Kept(s, Extend(h, now, true, w))
  {
    var n := Extend(h, now, true, w);
    forall k | 0 <= k < |n.starts| ensures WindowKept(s, n, k) {
      if k < |h.starts| {
        assert WindowKept(s, h, k);
        assert k + 1 < |h.starts| ==> WindowKept(s, h, k + 1);
      }
    }
  }

  lemma StayingKeeps(s: Setting, h: History, now: int, w: Window)
    requires Proper(s) && Kept(s, h) && (h.times != [] ==> h.times[|h.times| - 1] <= now)
    requires h.window.start.Some? && h.window.attempts < s.max
    requires w.start == h.window.start && w.attempts == h.window.attempts + 1
    ensures Kept(s, Extend(h, now, false, w))
  {
    var n := Extend(h, now, false, w);
    forall k | 0 <= k < |n.starts| ensures WindowKept(s, n, k) {
      assert WindowKept(s, h, k);
      assert k + 1 < |h.starts| ==> WindowKept(s, h, k + 1);
    }
  }

  /** A permitted attempt keeps the window invariant; in particular the counter never passes the maximum. */
  lemma AttemptKeeps(s: Setting, l: Limits, h: History, check: int, now: int, later: int)
    requires Proper(s) && Governed(l, s) && Kept(s, h)
    requires check <= now <= later <= now + s.skew && (h.times != [] ==> h.times[|h.times| - 1] <= now)
    requires CanAttempt(l, h.window, check) == Some(true)
    ensures Kept(s, Attempted(l, s.grain, h, now, later))
  {
    var w := Record(l, h.window, now, later);
    CounterBounded(s, h);
    if h.window.start.None? || Expired(h.window.start.value, s.length, later) {
      OpeningKeeps(s, h, now, Persist(w, s.grain));
    } else {
      FloorTwice(h.times[h.starts[|h.starts| - 1]], s.grain);
      StayingKeeps(s, h, now, Persist(w, s.grain));
    }
  }

  lemma CounterBounded(s: Setting, h: History)
    requires Proper(s) && Kept(s, h)
    ensures 0 <= h.window.attempts <= s.max && (h.window.start.Some? <==> h.window.attempts > 0)
  {
    if h.starts != [] {
      assert WindowKept(s, h, |h.starts| - 1);
    }
  }

  /** The window an attempt falls in. */
  lemma {:induction false} FindWindow(s: Setting, h: History, i: nat, from: nat) returns (k: nat)
    requires Proper(s) && Kept(s, h) && from < |h.starts| && i < End(h, from)
    ensures k < |h.starts| && h.starts[k] <= i < End(h, k)
  {
    if h.starts[from] <= i {
      k := from;
    } else {
      k := FindWindow(s, h, i, from - 1);
    }
  }

  /** Of 2·max attempts in a row, the first and the last are a whole window apart, up to precision and skew. */
  lemma SlidingGap(s: Setting, h: History, i: nat)
    requires Proper(s) && Kept(s, h) && i + 2 * s.max - 1 < |h.times|
    ensures h.times[i + 2 * s.max - 1] - h.times[i] >= s.length - s.skew - (s.grain - 1)
  {
    var k := FindWindow(s, h, i, |h.starts| - 1);
    assert WindowKept(s, h, k);
    var a := if h.starts[k] == i then k else k + 1;
    assert WindowKept(s, h, a);
    assert i <= h.starts[a] && h.starts[a + 1] <= i + 2 * s.max - 1;
  }

  // ----- counting

  /** How many of the times lie in [lo, hi). */
  function CountIn(times: seq<int>, lo: int, hi: int): nat {
    if times == [] then 0
    else
      var t := times[|times| - 1];
      CountIn(times[..|times| - 1], lo, hi) + if lo <= t < hi then 1 else 0
  }

  lemma {:induction false} CountConcat(a: seq<int>, b: seq<int>, lo: int, hi: int)
    ensures CountIn(a + b, lo, hi) == CountIn(a, lo, hi) + CountIn(b, lo, hi)
  {
    if b == [] {
      assert a + b == a;
    } else {
      CountConcat(a, b[..|b| - 1], lo, hi);
      assert (a + b)[..|a + b| - 1] == a + b[..|b| - 1];
    }
  }

  lemma {:induction false} CountAtMost(a: seq<int>, lo: int, hi: int)
    ensures CountIn(a, lo, hi) <= |a|
    ensures (forall i :: 0 <= i < |a| ==> a[i] < lo) ==> CountIn(a, lo, hi) == 0
    ensures (forall i :: 0 <= i < |a| ==> lo <= a[i] < hi) ==> CountIn(a, lo, hi) == |a|
  {
    if a != [] {
      CountAtMost(a[..|a| - 1], lo, hi);
    }
  }

  /** All of an ascending list's times before the last `n - 1` lie below the interval. */
  lemma CountTailOnly(times: seq<int>, cut: nat, lo: int, hi: int)
    requires Ascending(times) && 1 <= cut <= |times| && times[cut - 1] < lo
    ensures CountIn(times, lo, hi) <= |times| - cut
  {
    CountConcat(times[..cut], times[cut..], lo, hi);
    assert times[..cut] + times[cut..] == times;
    CountAtMost(times[..cut], lo, hi);
    CountAtMost(times[cut..], lo, hi);
  }

  /** Any `n` times in a row span at least `gap`. */
  ghost predicate Spread(times: seq<int>, n: nat, gap: int) {
    forall i, j :: 0 <= i < |times| && 0 <= j < |times| && j - i == n - 1 ==> times[j] - times[i] >= gap
  }

  /** Then an interval no longer than that holds fewer than `n`. */
  lemma {:induction false} GapBoundsCount(times: seq<int>, n: nat, gap: int, lo: int, hi: int)
    requires n >= 1 && Ascending(times) && hi - lo <= gap && Spread(times, n, gap)
    ensures CountIn(times, lo, hi) <= n - 1
  {
    if times != [] {
      var last := times[|times| - 1];
      if !(lo <= last < hi) {
        GapBoundsCount(times[..|times| - 1], n, gap, lo, hi);
      } else if |times| >= n {
        assert last - times[|times| - n] >= gap;
        CountTailOnly(times, |times| - n + 1, lo, hi);
      } else {
        CountAtMost(times, lo, hi);
      }
    }
  }

  /**
   * Sliding bound: an interval [lo, hi) of at most the window's length, less precision and skew, holds at most
   * 2·max − 1 attempts. With exact times and one clock reading (grain 1, skew 0) that is the whole length.
   */
  lemma SlidingRateBound(s: Setting, h: History, lo: int, hi: int)
    requires Proper(s) && Kept(s, h) && hi - lo <= s.length - s.skew - (s.grain - 1)
    ensures CountIn(h.times, lo, hi) <= 2 * s.max - 1
  {
    var n, gap := 2 * s.max, s.length - s.skew - (s.grain - 1);
    forall i, j | 0 <= i < |h.times| && 0 <= j < |h.times| && j - i == n - 1
      ensures h.times[j] - h.times[i] >= gap
    {
      SlidingGap(s, h, i);
    }
    GapBoundsCount(h.times, n, gap, lo, hi);
  }

  // ----- the bound is sharp, and exact only with exact times

  /** Attempts at the given instants, each with one clock reading; None if the limiter refuses one. */
  function Drive(l: Limits, grain: int, times: seq<int>): Option<History>
    requires grain >= 1
  {
    if times == [] then Some(Empty(None))
    else
      var h := Drive(l, grain, times[..|times| - 1]);
      var t := times[|times| - 1];
      if h.Some? && CanAttempt(l, h.value.window, t) == Some(true) then Some(Attempted(l, grain, h.value, t, t))
      else None
  }

  function Times(t: int, n: nat): seq<int> {
    seq(n, _ => t)
  }

  /** At most 2·max − 1 attempts in the interval of length `d` that begins at `lo`. */
  predicate Respected(s: Setting, d: int, times: seq<int>, lo: int) {
    CountIn(times, lo, lo + d) <= 2 * s.max - 1
  }

  lemma {:induction false} DriveKeeps(s: Setting, l: Limits, times: seq<int>)
    requires Proper(s) && Governed(l, s) && Ascending(times) && Drive(l, s.grain, times).Some?
    ensures Kept(s, Drive(l, s.grain, times).value) && Drive(l, s.grain, times).value.times == times
  {
    if times != [] {
      DriveKeeps(s, l, times[..|times| - 1]);
      var t := times[|times| - 1];
      AttemptKeeps(s, l, Drive(l, s.grain, times[..|times| - 1]).value, t, t, t);
    }
  }

  /** `n` more attempts at one instant of the current window. */
  lemma {:induction false} Burst(s: Setting, l: Limits, times: seq<int>, t: int, n: nat)
    requires Proper(s) && Governed(l, s) && Drive(l, s.grain, times).Some?
    requires var w := Drive(l, s.grain, times).value.window;
      w.start.Some? && Floor(w.start.value, s.grain) == w.start.value && t - w.start.value < s.length && w.attempts >= 1 && w.attempts + n <= s.max
    ensures var h := Drive(l, s.grain, times + Times(t, n));
      && h.Some? && h.value.window.start == Drive(l, s.grain, times).value.window.start
      && h.value.window.attempts == Drive(l, s.grain, times).value.window.attempts + n
  {
    if n == 0 {
      assert times + Times(t, 0) == times;
    } else {
      Burst(s, l, times, t, n - 1);
      var all := times + Times(t, n);
      assert all[..|all| - 1] == times + Times(t, n - 1);
    }
  }

  /** A window opened at `t` and filled with `n` attempts at that instant. */
  lemma OpenAndFill(s: Setting, l: Limits, times: seq<int>, t: int, n: nat)
    requires Proper(s) && Governed(l, s) && 1 <= n <= s.max && s.length >= s.grain && Drive(l, s.grain, times).Some?
    requires var w := Drive(l, s.grain, times).value.window; w.start.None? || Expired(w.start.value, s.length, t)
    ensures var h := Drive(l, s.grain, times + Times(t, n));
      h.Some? && h.value.window.start == Some(Floor(t, s.grain)) && h.value.window.attempts == n
  {
    var one := times + [t];
    assert one[..|one| - 1] == times;
    FloorTwice(t, s.grain);
    Burst(s, l, one, t, n - 1);
    assert times + Times(t, n) == one + Times(t, n - 1);
  }

  lemma DriveTwo(s: Setting, l: Limits, a: seq<int>, b: seq<int>)
    requires Proper(s) && Governed(l, s) && s.grain <= s.length
    requires a == Times(s.grain - 1, s.max) && b == Times(s.length, s.max)
    ensures Drive(l, s.grain, a + b).Some?
  {
    assert [] + a == a;
    OpenAndFill(s, l, [], s.grain - 1, s.max);
    FloorOfSmall(s.grain - 1, s.grain);
    OpenAndFill(s, l, a, s.length, s.max);
  }

  /** A window no longer than the precision can have expired, as stored, by the time it is opened. */
  lemma {:induction false} DriveExpired(s: Setting, l: Limits, n: nat)
    requires Proper(s) && Governed(l, s) && s.length < s.grain
    ensures var h := Drive(l, s.grain, Times(s.grain - 1, n));
      h.Some? && (n > 0 ==> h.value.window.start == Some(0))
  {
    if n > 0 {
      DriveExpired(s, l, n - 1);
      FloorOfSmall(s.grain - 1, s.grain);
      assert Times(s.grain - 1, n)[..n - 1] == Times(s.grain - 1, n - 1);
    }
  }

  /** An interval longer than the window less the precision of stored times can hold 2·max attempts. */
  lemma TruncationOvershoots(s: Setting, l: Limits, d: int) returns (times: seq<int>)
    requires Proper(s) && Governed(l, s) && s.skew == 0 && d >= 1 && d > s.length - (s.grain - 1)
    ensures Ascending(times) && Drive(l, s.grain, times).Some?
    ensures !Respected(s, d, times, s.grain - 1)
  {
    var lo := s.grain - 1;
    if s.grain <= s.length {
      var a, b := Times(lo, s.max), Times(s.length, s.max);
      DriveTwo(s, l, a, b);
      times := a + b;
      CountBursts(a, b, lo, lo + d);
    } else {
      times := Times(lo, 2 * s.max);
      DriveExpired(s, l, 2 * s.max);
      CountAtMost(times, lo, lo + d);
    }
  }

  lemma CountBursts(a: seq<int>, b: seq<int>, lo: int, hi: int)
    requires forall i :: 0 <= i < |a| ==> lo <= a[i] < hi
    requires forall i :: 0 <= i < |b| ==> lo <= b[i] < hi
    ensures CountIn(a + b, lo, hi) == |a| + |b|
  {
    CountConcat(a, b, lo, hi);
    CountAtMost(a, lo, hi);
    CountAtMost(b, lo, hi);
  }

  lemma CountTail(before: seq<int>, a: seq<int>, b: seq<int>, lo: int, hi: int)
    requires forall i :: 0 <= i < |before| ==> before[i] < lo
    requires forall i :: 0 <= i < |a| ==> lo <= a[i] < hi
    requires forall i :: 0 <= i < |b| ==> lo <= b[i] < hi
    ensures CountIn(before + (a + b), lo, hi) == |a| + |b|
  {
    CountConcat(before, a + b, lo, hi);
    CountAtMost(before, lo, hi);
    CountBursts(a, b, lo, hi);
  }

  /**
   * The sliding bound exactly: 2·max − 1 bounds the attempts in every interval of length `d`, over every run, iff `d`
   * is at most the window's length less what stored times lose. For whole seconds that is one second, less a
   * nanosecond, short of the window.
   */
  lemma SlidingBoundExactly(s: Setting, l: Limits, d: int)
    requires Proper(s) && Governed(l, s) && s.skew == 0 && d >= 1
    ensures d <= s.length - (s.grain - 1) <==>
      forall times, lo :: Ascending(times) && Drive(l, s.grain, times).Some? ==> Respected(s, d, times, lo)
  {
    if d <= s.length - (s.grain - 1) {
      forall times, lo | Ascending(times) && Drive(l, s.grain, times).Some?
        ensures Respected(s, d, times, lo)
      {
        DriveKeeps(s, l, times);
        SlidingRateBound(s, Drive(l, s.grain, times).value, lo, lo + d);
      }
    } else {
      var times := TruncationOvershoots(s, l, d);
    }
  }

  lemma DriveThree(s: Setting, l: Limits, first: seq<int>, tail: seq<int>, next: seq<int>)
    requires Proper(s) && Governed(l, s) && s.grain == 1 && s.length >= 1
    requires first == Times(0, 1) && tail == Times(s.length - 1, s.max - 1) && next == Times(s.length, s.max)
    ensures Drive(l, s.grain, first + tail + next).Some?
  {
    assert [] + first == first;
    OpenAndFill(s, l, [], 0, 1);
    FloorOfSmall(0, 1);
    Burst(s, l, first, s.length - 1, s.max - 1);
    OpenAndFill(s, l, first + tail, s.length, s.max);
  }

  /** 2·max − 1 is attained: the first window's tail and the whole second window. */
  lemma SlidingBoundIsSharp(s: Setting, l: Limits) returns (times: seq<int>)
    requires Proper(s) && Governed(l, s) && s.grain == 1 && s.skew == 0 && s.length >= 2
    ensures Ascending(times) && Drive(l, s.grain, times).Some?
    ensures CountIn(times, s.length - 1, 2 * s.length - 1) == 2 * s.max - 1
  {
    var first, tail, next := Times(0, 1), Times(s.length - 1, s.max - 1), Times(s.length, s.max);
    DriveThree(s, l, first, tail, next);
    times := first + tail + next;
    assert times == first + (tail + next);
    CountTail(first, tail, next, s.length - 1, 2 * s.length - 1);
  }

  /**
   * The defaults: three attempts per window of five minutes and times kept in whole seconds allow at most five attempts
   * in every interval of up to 299.000000001 seconds, and six in some longer one.
   */
  lemma DefaultRate(d: int)
    requires d >= 1
    ensures d <= 299_000_000_001 <==>
      forall times, lo :: Ascending(times) && Drive(Limits(None, Unset), 1_000_000_000, times).Some? ==>
        InInterval(times, lo, d) <= 5
  {
    var s := Setting(3, 300 * SECOND, SECOND, 0);
    SlidingBoundExactly(s, Limits(None, Unset), d);
    assert forall times, lo :: InInterval(times, lo, d) <= 5 <==> Respected(s, d, times, lo);
  }

  function InInterval(times: seq<int>, lo: int, d: int): nat {
    CountIn(times, lo, lo + d)
  }
}
