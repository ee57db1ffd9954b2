/** allowAgoraBridge of server.js: a fixed-window limiter, one window per caller key. */
module RateLimiter {
  const LIMIT: nat := 12
  const WINDOW: nat := 60_000

  datatype Window = Window(count: nat, resetAt: int)
  datatype Call = Call(key: string, now: int)

  predicate Active(windows: map<string, Window>, key: string, now: int) {
    key in windows && now < windows[key].resetAt
  }

  predicate Admits(windows: map<string, Window>, c: Call) {
    Active(windows, c.key, c.now) ==> windows[c.key].count < LIMIT
  }

  function After(windows: map<string, Window>, c: Call): map<string, Window> {
    if !Active(windows, c.key, c.now) then windows[c.key := Window(1, c.now + WINDOW)]
    else if LIMIT <= windows[c.key].count then windows
    else windows[c.key := windows[c.key].(count := windows[c.key].count + 1)]
  }

  class Limiter {
    var windows: map<string, Window>

    constructor ()
      ensures windows == map[]
    { windows := map[]; }

    method Allow(key: string, now: int) returns (ok: bool)
      modifies this
      ensures ok == Admits(old(windows), Call(key, now))
      ensures windows == After(old(windows), Call(key, now))
      ensures !ok ==> windows == old(windows)
      ensures forall k | k != key :: (k in windows <==> k in old(windows)) && (k in windows ==> windows[k] == old(windows)[k])
    {
      if key !in windows || windows[key].resetAt <= now {
        windows := windows[key := Window(1, now + WINDOW)];
        return true;
      }
      if LIMIT <= windows[key].count { return false; }
      windows := windows[key := windows[key].(count := windows[key].count + 1)];
      return true;
    }
  }

  // ---- traces -----------------------------------------------------------------------------

  predicate Counted(windows: map<string, Window>) {
    forall k | k in windows :: 1 <= windows[k].count <= LIMIT
  }

  /** A clock that never runs backwards, starting no earlier than `from`. */
  predicate Ordered(calls: seq<Call>, from: int) {
    calls != [] ==> from <= calls[0].now && Ordered(calls[1..], calls[0].now)
  }

  /** The calls of `key` accepted at times in [lo, hi). */
  function Accepted(windows: map<string, Window>, calls: seq<Call>, key: string, lo: int, hi: int): nat
    decreases |calls|
  {
    if calls == [] then 0
    else
      (if calls[0].key == key && lo <= calls[0].now < hi && Admits(windows, calls[0]) then 1 else 0)
      + Accepted(After(windows, calls[0]), calls[1..], key, lo, hi)
  }

  /** Windows that can still open in d milliseconds. */
  function Openings(d: int): nat {
    if d <= 0 then 0 else (d + WINDOW - 1) / WINDOW
  }

  /** An upper bound on what `key` can still be given before hi, seen at time now. */
  function Room(windows: map<string, Window>, key: string, now: int, hi: int): int {
    if Active(windows, key, now) then LIMIT - windows[key].count + LIMIT * Openings(hi - windows[key].resetAt)
    else LIMIT * Openings(hi - now)
  }

  lemma {:induction false} NothingAfter(windows: map<string, Window>, calls: seq<Call>, key: string, lo: int, hi: int, from: int)
    requires Ordered(calls, from) && hi <= from
    ensures Accepted(windows, calls, key, lo, hi) == 0
    decreases |calls|
  {
    if calls != [] { NothingAfter(After(windows, calls[0]), calls[1..], key, lo, hi, calls[0].now); }
  }

  lemma RoomShrinks(windows: map<string, Window>, c: Call, key: string, from: int, hi: int)
    requires Counted(windows) && from <= c.now < hi
    ensures (if c.key == key && Admits(windows, c) then 1 else 0) + Room(After(windows, c), key, c.now, hi) <= Room(windows, key, from, hi)
  {
    hide Openings;
    OneMoreOpening(hi - c.now);
    OpeningsMonotone(hi - c.now, hi - from);
    if Active(windows, key, from) && !Active(windows, key, c.now) {
      OpeningsMonotone(hi - c.now, hi - windows[key].resetAt);
    }
  }

  lemma OneMoreOpening(d: int)
    requires 0 < d
    ensures Openings(d) == 1 + Openings(d - WINDOW)
  {}

  lemma OpeningsMonotone(d: int, e: int)
    requires d <= e
    ensures Openings(d) <= Openings(e)
  {}

  lemma {:induction false} AcceptedWithinRoom(windows: map<string, Window>, calls: seq<Call>, key: string, lo: int, hi: int, from: int)
    requires Counted(windows) && Ordered(calls, from)
    ensures Accepted(windows, calls, key, lo, hi) <= Room(windows, key, from, hi)
    decreases |calls|
  {
    if calls != [] {
      var c := calls[0];
      if hi <= c.now {
        NothingAfter(windows, calls, key, lo, hi, c.now);
      } else {
        AcceptedWithinRoom(After(windows, c), calls[1..], key, lo, hi, c.now);
        RoomShrinks(windows, c, key, from, hi);
      }
    }
  }

  /** What a trace leaves behind. */
  function Final(windows: map<string, Window>, calls: seq<Call>): map<string, Window>
    decreases |calls|
  {
    if calls == [] then windows else Final(After(windows, calls[0]), calls[1..])
  }

  /** In any half-open interval of k minutes one key gets at most 12 * k + 11 acceptances: 12 for each window
      that can open inside, and at most 11 more from the window that was already open. */
  lemma {:induction false} IntervalBound(windows: map<string, Window>, calls: seq<Call>, key: string, lo: int, k: nat, from: int)
    requires Counted(windows) && Ordered(calls, from)
    ensures Accepted(windows, calls, key, lo, lo + k * WINDOW) <= LIMIT * k + LIMIT - 1
    decreases |calls|
  {
    if calls != [] {
      var c := calls[0];
      if c.now < lo {
        IntervalBound(After(windows, c), calls[1..], key, lo, k, c.now);
      } else {
        AcceptedWithinRoom(windows, calls, key, lo, lo + k * WINDOW, lo);
        WholeWindows(k);
        if Active(windows, key, lo) { OpeningsMonotone(lo + k * WINDOW - windows[key].resetAt, k * WINDOW); }
      }
    }
  }

  lemma WholeWindows(k: nat)
    ensures Openings(k * WINDOW) == k
  {}

  /** No window hands out more than 12: before its reset only the remainder is left. */
  lemma WindowBound(windows: map<string, Window>, calls: seq<Call>, key: string, lo: int, from: int)
    requires Counted(windows) && Ordered(calls, from) && Active(windows, key, from)
    ensures windows[key].count + Accepted(windows, calls, key, lo, windows[key].resetAt) <= LIMIT
  {
    AcceptedWithinRoom(windows, calls, key, lo, windows[key].resetAt, from);
  }

  lemma {:induction false} CountedAlways(windows: map<string, Window>, calls: seq<Call>)
    requires Counted(windows)
    ensures Counted(Final(windows, calls))
    decreases |calls|
  {
    if calls != [] { CountedAlways(After(windows, calls[0]), calls[1..]); }
  }

  // ---- the bound is reached ---------------------------------------------------------------

  function Burst(key: string, now: int, n: nat): seq<Call> {
    if n == 0 then [] else [Call(key, now)] + Burst(key, now, n - 1)
  }

  lemma FirstAccepted(windows: map<string, Window>, c: Call, rest: seq<Call>, lo: int, hi: int)
    requires lo <= c.now < hi && Admits(windows, c)
    ensures Accepted(windows, [c] + rest, c.key, lo, hi) == 1 + Accepted(After(windows, c), rest, c.key, lo, hi)
  {
    assert ([c] + rest)[1..] == rest;
  }

  lemma {:induction false} BurstAccepted(key: string, w: Window, now: int, n: nat, rest: seq<Call>, lo: int, hi: int)
    requires now < w.resetAt && w.count + n <= LIMIT && lo <= now < hi
    ensures Accepted(map[key := w], Burst(key, now, n) + rest, key, lo, hi) ==
            n + Accepted(map[key := Window(w.count + n, w.resetAt)], rest, key, lo, hi)
    decreases n
  {
    if n == 0 {
      assert [] + rest == rest;
    } else {
      var c := Call(key, now);
      var more := Burst(key, now, n - 1) + rest;
      assert Burst(key, now, n) + rest == [c] + more;
      assert After(map[key := w], c) == map[key := Window(w.count + 1, w.resetAt)];
      assert Admits(map[key := w], c);
      hide Accepted, After, Admits, Burst;
      FirstAccepted(map[key := w], c, more, lo, hi);
      BurstAccepted(key, Window(w.count + 1, w.resetAt), now, n - 1, rest, lo, hi);
    }
  }

  /** Twelve calls at once, in each of k successive windows. */
  function Waves(key: string, now: int, k: nat): seq<Call>
    decreases k
  {
    if k == 0 then [] else [Call(key, now)] + (Burst(key, now, LIMIT - 1) + Waves(key, now + WINDOW, k - 1))
  }

  lemma {:induction false} WavesAccepted(key: string, w: Window, now: int, k: nat, lo: int, hi: int)
    requires w.resetAt <= now && lo <= now && (k > 0 ==> now + (k - 1) * WINDOW < hi)
    ensures Accepted(map[key := w], Waves(key, now, k), key, lo, hi) == LIMIT * k
    decreases k
  {
    if k > 0 {
      var c, rest := Call(key, now), Waves(key, now + WINDOW, k - 1);
      EarlierWave(now, k, hi);
      assert Admits(map[key := w], c) && After(map[key := w], c) == map[key := Window(1, now + WINDOW)];
      hide Accepted, After, Admits, Burst;
      FirstAccepted(map[key := w], c, Burst(key, now, LIMIT - 1) + rest, lo, hi);
      BurstAccepted(key, Window(1, now + WINDOW), now, LIMIT - 1, rest, lo, hi);
      WavesAccepted(key, Window(LIMIT, now + WINDOW), now + WINDOW, k - 1, lo, hi);
    }
  }

  lemma EarlierWave(now: int, k: nat, hi: int)
    requires k > 0 && now + (k - 1) * WINDOW < hi
    ensures now < hi && (k > 1 ==> now + WINDOW + (k - 2) * WINDOW < hi)
  {}

  /** One call at 0, eleven in the last millisecond of its window, twelve at the start of each of the k next windows:
      12 * k + 11 in k minutes, so the bound is exact for every k, and 23 in one minute. */
  lemma BoundIsReached(key: string, k: nat)
    requires 0 < k
    ensures var calls := [Call(key, 0)] + (Burst(key, 59_999, LIMIT - 1) + Waves(key, WINDOW, k));
            && Accepted(map[], calls, key, 59_999, 59_999 + k * WINDOW) == LIMIT * k + LIMIT - 1
            && Ordered(calls, 0)
  {
    var waves := Waves(key, WINDOW, k);
    var lo, hi := 59_999, 59_999 + k * WINDOW;
    var calls := [Call(key, 0)] + (Burst(key, 59_999, LIMIT - 1) + waves);
    assert calls[1..] == Burst(key, 59_999, LIMIT - 1) + waves;
    assert Accepted(map[], calls, key, lo, hi) == Accepted(map[key := Window(1, WINDOW)], calls[1..], key, lo, hi);
    LastWave(k);
    WavesOrdered(key, WINDOW, k, 59_999);
    BurstOrdered(key, 59_999, LIMIT - 1, waves, 0);
    hide Accepted;
    BurstAccepted(key, Window(1, WINDOW), 59_999, LIMIT - 1, waves, lo, hi);
    WavesAccepted(key, Window(LIMIT, WINDOW), WINDOW, k, lo, hi);
  }

  lemma LastWave(k: nat)
    requires 0 < k
    ensures WINDOW + (k - 1) * WINDOW < 59_999 + k * WINDOW && WINDOW <= k * WINDOW
  {}

  lemma {:induction false} BurstOrdered(key: string, now: int, n: nat, rest: seq<Call>, from: int)
    requires from <= now && Ordered(rest, now)
    ensures Ordered(Burst(key, now, n) + rest, from)
    decreases n
  {
    if n == 0 {
      assert [] + rest == rest;
    } else {
      BurstOrdered(key, now, n - 1, rest, now);
      assert (Burst(key, now, n) + rest)[1..] == Burst(key, now, n - 1) + rest;
    }
  }

  lemma {:induction false} WavesOrdered(key: string, now: int, k: nat, from: int)
    requires from <= now
    ensures Ordered(Waves(key, now, k), from)
    decreases k
  {
    if k > 0 {
      WavesOrdered(key, now + WINDOW, k - 1, now);
      BurstOrdered(key, now, LIMIT - 1, Waves(key, now + WINDOW, k - 1), now);
      assert Waves(key, now, k)[1..] == Burst(key, now, LIMIT - 1) + Waves(key, now + WINDOW, k - 1);
    }
  }

  // ---- independence -----------------------------------------------------------------------

  function Only(calls: seq<Call>, key: string): seq<Call> {
    if calls == [] then []
    else (if calls[0].key == key then [calls[0]] else []) + Only(calls[1..], key)
  }

  /** The decisions a trace gets for one key. */
  function Decisions(windows: map<string, Window>, calls: seq<Call>, key: string): seq<bool>
    decreases |calls|
  {
    if calls == [] then []
    else (if calls[0].key == key then [Admits(windows, calls[0])] else []) + Decisions(After(windows, calls[0]), calls[1..], key)
  }

  predicate AgreeOn(a: map<string, Window>, b: map<string, Window>, key: string) {
    (key in a <==> key in b) && (key in a ==> a[key] == b[key])
  }

  /** A key is decided as if no other key had ever called. */
  lemma {:induction false} KeysIndependent(a: map<string, Window>, b: map<string, Window>, calls: seq<Call>, key: string)
    requires AgreeOn(a, b, key)
    ensures Decisions(a, calls, key) == Decisions(b, Only(calls, key), key)
    decreases |calls|
  {
    if calls != [] {
      var c := calls[0];
      if c.key == key {
        KeysIndependent(After(a, c), After(b, c), calls[1..], key);
        assert Only(calls, key)[1..] == Only(calls[1..], key);
      } else {
        KeysIndependent(After(a, c), b, calls[1..], key);
        assert Only(calls, key) == Only(calls[1..], key);
      }
    }
  }
}
