/**
 The sliding-window rate limiter (internal/httpapi/server.go): per key the times of accepted requests, filtered in
 place to the last minute before each decision. The mutex makes each call one step, but the clock is read before it
 is taken, so a call may carry an earlier time than a call decided before it.
 */
module RateLimiter {
  type Time = int
  type Key = nat

  const MINUTE := 60_000_000_000
  const DEFAULT_LIMIT := 30

  // ---- one key -------------------------------------------------------------------------------

  /** The times after the cutoff, in their order. */
  function Recent(times: seq<Time>, cutoff: Time): seq<Time> {
    if times == [] then []
    else
      var last := times[|times| - 1];
      Recent(times[..|times| - 1], cutoff) + if last > cutoff then [last] else []
  }

  /** All accepted requests of a key so far, and the times that are still stored. */
  datatype Log = Log(accepted: seq<Time>, stored: seq<Time>)

  predicate Admits(l: Log, now: Time, limit: nat, window: Time) {
    |Recent(l.stored, now - window)| < limit
  }

  function Decided(l: Log, now: Time, limit: nat, window: Time): Log {
    var kept := Recent(l.stored, now - window);
    if Admits(l, now, limit, window) then Log(l.accepted + [now], kept + [now]) else Log(l.accepted, kept)
  }

  /** The calls of a key in the order in which they took the mutex, each with the time it had read. */
  datatype Calls = Start | Call(earlier: Calls, now: Time)

  function After(calls: Calls, limit: nat, window: Time): Log {
    match calls
    case Start => Log([], [])
    case Call(earlier, now) => Decided(After(earlier, limit, window), now, limit, window)
  }

  predicate AllBy(calls: Calls, t: Time) {
    calls.Call? ==> calls.now <= t && AllBy(calls.earlier, t)
  }

  /** No call carries a time more than `lag` before that of a call decided earlier. */
  predicate Lagging(calls: Calls, lag: Time) {
    calls.Call? ==> AllBy(calls.earlier, calls.now + lag) && Lagging(calls.earlier, lag)
  }

  /** How many times lie after `lo` and not after `hi`. */
  function CountIn(times: seq<Time>, lo: Time, hi: Time): (n: nat)
    ensures n <= |times|
  {
    if times == [] then 0
    else CountIn(times[..|times| - 1], lo, hi) + if lo < times[|times| - 1] <= hi then 1 else 0
  }

  predicate NoneAfter(times: seq<Time>, t: Time) {
    forall i :: 0 <= i < |times| ==> times[i] <= t
  }

  lemma {:induction false} CountAppend(times: seq<Time>, t: Time, lo: Time, hi: Time)
    ensures CountIn(times + [t], lo, hi) == CountIn(times, lo, hi) + if lo < t <= hi then 1 else 0
  {
    assert (times + [t])[..|times|] == times;
  }

  /** Filtering loses no time after the cutoff. */
  lemma {:induction false} RecentCounts(times: seq<Time>, cutoff: Time, lo: Time, hi: Time)
    requires cutoff <= lo
    ensures CountIn(Recent(times, cutoff), lo, hi) == CountIn(times, lo, hi)
  {
    if times != [] {
      var init, last := times[..|times| - 1], times[|times| - 1];
      RecentCounts(init, cutoff, lo, hi);
      if last > cutoff {
        CountAppend(Recent(init, cutoff), last, lo, hi);
      } else {
        assert Recent(times, cutoff) == Recent(init, cutoff);
      }
    }
  }

  lemma {:induction false} RecentIsCount(times: seq<Time>, cutoff: Time, now: Time)
    requires NoneAfter(times, now)
    ensures |Recent(times, cutoff)| == CountIn(times, cutoff, now) && NoneAfter(Recent(times, cutoff), now)
  {
    if times != [] {
      RecentIsCount(times[..|times| - 1], cutoff, now);
    }
  }

  lemma {:induction false} StoredIsEarlier(calls: Calls, limit: nat, window: Time, now: Time)
    requires AllBy(calls, now)
    ensures NoneAfter(After(calls, limit, window).stored, now)
  {
    if calls.Call? {
      StoredIsEarlier(calls.earlier, limit, window, now);
      RecentIsCount(After(calls.earlier, limit, window).stored, calls.now - window, now);
    }
  }

  /** No accepted time in this stretch has been dropped. */
  predicate NothingLost(l: Log, lo: Time, hi: Time) {
    CountIn(l.stored, lo, hi) == CountIn(l.accepted, lo, hi)
  }

  lemma {:induction false} DecidedLosesNothing(l: Log, now: Time, limit: nat, window: Time, lo: Time, hi: Time)
    requires NothingLost(l, lo, hi) && now - window <= lo
    ensures NothingLost(Decided(l, now, limit, window), lo, hi)
  {
    RecentCounts(l.stored, now - window, lo, hi);
    CountAppend(Recent(l.stored, now - window), now, lo, hi);
    CountAppend(l.accepted, now, lo, hi);
  }

  /** Every accepted request within a window of the latest call is still stored. */
  lemma {:induction false} NothingIsLost(calls: Calls, limit: nat, window: Time, lo: Time, hi: Time)
    requires AllBy(calls, lo + window)
    ensures NothingLost(After(calls, limit, window), lo, hi)
  {
    if calls.Call? {
      NothingIsLost(calls.earlier, limit, window, lo, hi);
      DecidedLosesNothing(After(calls.earlier, limit, window), calls.now, limit, window, lo, hi);
    }
  }

  lemma {:induction false} AdmitsByCount(l: Log, now: Time, limit: nat, window: Time)
    requires NoneAfter(l.stored, now) && NothingLost(l, now - window, now)
    ensures Admits(l, now, limit, window) <==> CountIn(l.accepted, now - window, now) < limit
  {
    RecentIsCount(l.stored, now - window, now);
  }

  /** A call that no call decided before it has overtaken is accepted exactly when its window is not full. */
  lemma {:induction false} DecisionIsExact(calls: Calls, now: Time, limit: nat, window: Time)
    requires AllBy(calls, now)
    ensures var l := After(calls, limit, window);
            Admits(l, now, limit, window) <==> CountIn(l.accepted, now - window, now) < limit
  {
    StoredIsEarlier(calls, limit, window, now);
    NothingIsLost(calls, limit, window, now - window, now);
    AdmitsByCount(After(calls, limit, window), now, limit, window);
  }

  /**
   The answer to a call after earlier ones: it counts as accepted exactly when it is let through, and unless one of
   them has overtaken it, it is let through exactly when its window holds fewer than the limit.
   */
  predicate Answered(earlier: Calls, now: Time, limit: nat, window: Time, ok: bool) {
    var before := After(earlier, limit, window).accepted;
    && After(Call(earlier, now), limit, window).accepted == before + (if ok then [now] else [])
    && (AllBy(earlier, now) ==> (ok <==> CountIn(before, now - window, now) < limit))
  }

  lemma {:induction false} AnswerIs(earlier: Calls, now: Time, limit: nat, window: Time)
    ensures Answered(earlier, now, limit, window, Admits(After(earlier, limit, window), now, limit, window))
  {
    if AllBy(earlier, now) {
      DecisionIsExact(earlier, now, limit, window);
    }
  }

  lemma {:induction false} AllByLater(calls: Calls, t: Time, u: Time)
    requires AllBy(calls, t) && t <= u
    ensures AllBy(calls, u)
  {
    if calls.Call? {
      AllByLater(calls.earlier, t, u);
    }
  }

  lemma {:induction false} DecidedKeepsBound(l: Log, now: Time, limit: nat, window: Time, lo: Time, hi: Time)
    requires CountIn(l.accepted, lo, hi) <= limit
    requires lo < now <= hi ==> now - window <= lo && NothingLost(l, lo, hi)
    ensures CountIn(Decided(l, now, limit, window).accepted, lo, hi) <= limit
  {
    CountAppend(l.accepted, now, lo, hi);
    if lo < now <= hi {
      RecentCounts(l.stored, now - window, lo, hi);
    }
  }

  lemma {:induction false} LaggingLosesNothing(calls: Calls, lag: Time, limit: nat, window: Time, lo: Time, hi: Time)
    requires Lagging(calls, lag) && calls.Call? && calls.now <= hi <= lo + window - lag
    ensures NothingLost(After(calls.earlier, limit, window), lo, hi)
  {
    AllByLater(calls.earlier, calls.now + lag, lo + window);
    NothingIsLost(calls.earlier, limit, window, lo, hi);
  }

  /**
   When calls lag at most `lag` behind, no stretch of a window less that lag, wherever it ends, holds more than the
   limit. With calls in clock order that is every window.
   */
  lemma {:induction false} AnyWindowHoldsAtMostLimit(calls: Calls, lag: Time, limit: nat, window: Time, end: Time)
    requires Lagging(calls, lag) && 0 <= lag
    ensures CountIn(After(calls, limit, window).accepted, end - (window - lag), end) <= limit
  {
    if calls.Call? {
      var now, lo := calls.now, end - (window - lag);
      AnyWindowHoldsAtMostLimit(calls.earlier, lag, limit, window, end);
      if lo < now <= end {
        LaggingLosesNothing(calls, lag, limit, window, lo, end);
      }
      DecidedKeepsBound(After(calls.earlier, limit, window), now, limit, window, lo, end);
    }
  }

  // ---- full windows --------------------------------------------------------------------------

  predicate AllAfter(times: seq<Time>, t: Time) {
    forall i :: 0 <= i < |times| ==> times[i] > t
  }

  lemma {:induction false} RecentIsAll(times: seq<Time>, cutoff: Time)
    requires AllAfter(times, cutoff)
    ensures Recent(times, cutoff) == times
  {
    if times != [] {
      RecentIsAll(times[..|times| - 1], cutoff);
    }
  }

  lemma {:induction false} RecentIsNone(times: seq<Time>, cutoff: Time, hi: Time)
    requires NoneAfter(times, cutoff)
    ensures Recent(times, cutoff) == [] && CountIn(times, cutoff, hi) == 0
  {
    if times != [] {
      RecentIsNone(times[..|times| - 1], cutoff, hi);
    }
  }

  /** With a limit of one the last accepted time is always the one stored, whatever the clock does. */
  predicate LastIsStored(l: Log) {
    if l.accepted == [] then l.stored == []
    else l.stored == [l.accepted[|l.accepted| - 1]] && NoneAfter(l.accepted, l.accepted[|l.accepted| - 1])
  }

  lemma {:induction false} DecidedForOne(l: Log, now: Time, window: Time, end: Time)
    requires window > 0 && LastIsStored(l) && CountIn(l.accepted, end - window, end) <= 1
    ensures var next := Decided(l, now, 1, window);
            LastIsStored(next) && CountIn(next.accepted, end - window, end) <= 1
  {
    CountAppend(l.accepted, now, end - window, end);
    if l.accepted != [] {
      var last := l.accepted[|l.accepted| - 1];
      if last > now - window {
        RecentIsAll(l.stored, now - window);
      } else {
        RecentIsNone(l.stored, now - window, now);
        if now <= end {
          assert NoneAfter(l.accepted, end - window);
          RecentIsNone(l.accepted, end - window, end);
        }
      }
    }
  }

  lemma {:induction false} OnePerWindow(calls: Calls, window: Time, end: Time)
    requires window > 0
    ensures LastIsStored(After(calls, 1, window)) && CountIn(After(calls, 1, window).accepted, end - window, end) <= 1
  {
    if calls.Call? {
      OnePerWindow(calls.earlier, window, end);
      DecidedForOne(After(calls.earlier, 1, window), calls.now, window, end);
    }
  }

  /** `n` more calls, all with the time `t`. */
  function Repeated(calls: Calls, t: Time, n: nat): Calls {
    if n == 0 then calls else Call(Repeated(calls, t, n - 1), t)
  }

  lemma {:induction false} RepeatedLags(calls: Calls, t: Time, n: nat, lag: Time)
    requires Lagging(calls, lag) && AllBy(calls, t + lag) && 0 <= lag
    ensures Lagging(Repeated(calls, t, n), lag) && AllBy(Repeated(calls, t, n), t + lag)
  {
    if n > 0 {
      RepeatedLags(calls, t, n - 1, lag);
    }
  }

  /** `l` is `before` with `n` more accepted times `t`, all stored. */
  predicate Grown(before: Log, l: Log, t: Time, n: nat, cutoff: Time, lo: Time, hi: Time) {
    && |l.stored| == |before.stored| + n && AllAfter(l.stored, cutoff)
    && CountIn(l.accepted, lo, hi) == CountIn(before.accepted, lo, hi) + n
    && (NoneAfter(before.stored, t) ==> NoneAfter(l.stored, t))
  }

  lemma {:induction false} DecidedAccepts(l: Log, t: Time, limit: nat, window: Time)
    requires |l.stored| < limit && AllAfter(l.stored, t - window)
    ensures Decided(l, t, limit, window) == Log(l.accepted + [t], l.stored + [t])
  {
    RecentIsAll(l.stored, t - window);
  }

  lemma {:induction false} GrowsByOne(before: Log, l: Log, t: Time, n: nat, cutoff: Time, lo: Time, hi: Time)
    requires cutoff < t && lo < t <= hi && Grown(before, l, t, n, cutoff, lo, hi)
    ensures Grown(before, Log(l.accepted + [t], l.stored + [t]), t, n + 1, cutoff, lo, hi)
  {
    CountAppend(l.accepted, t, lo, hi);
  }

  /** While there is room, repeated calls are all accepted. */
  lemma {:induction false} RepeatedAccepted(calls: Calls, t: Time, n: nat, limit: nat, window: Time, lo: Time, hi: Time)
    requires window > 0 && lo < t <= hi
    requires var l := After(calls, limit, window); |l.stored| + n <= limit && AllAfter(l.stored, t - window)
    ensures Grown(After(calls, limit, window), After(Repeated(calls, t, n), limit, window), t, n, t - window, lo, hi)
  {
    if n > 0 {
      RepeatedAccepted(calls, t, n - 1, limit, window, lo, hi);
      var before, l := After(calls, limit, window), After(Repeated(calls, t, n - 1), limit, window);
      DecidedAccepts(l, t, limit, window);
      GrowsByOne(before, l, t, n - 1, t - window, lo, hi);
    }
  }

  /** A full slice of `limit` calls, and a call that drops all of it. */
  function Dropping(limit: nat, window: Time): Calls {
    Call(Repeated(Start, 1, limit), window + 1)
  }

  /** Then late calls that no longer see what was dropped. */
  function Overtaken(limit: nat, window: Time): Calls
    requires limit >= 1
  {
    Repeated(Dropping(limit, window), window, limit - 1)
  }

  lemma {:induction false} OvertakenLags(limit: nat, window: Time, lag: Time)
    requires limit >= 1 && window >= 1 && lag >= 1
    ensures Lagging(Overtaken(limit, window), lag)
  {
    var full := Repeated(Start, 1, limit);
    RepeatedLags(Start, 1, limit, 0);
    LaggingMore(full, 0, 1);
    AllByLater(full, 1, window + 1);
    AllByLater(full, 1, window + 2);
    assert Lagging(Dropping(limit, window), 1) && AllBy(Dropping(limit, window), window + 1);
    RepeatedLags(Dropping(limit, window), window, limit - 1, 1);
    LaggingMore(Overtaken(limit, window), 1, lag);
  }

  lemma {:induction false} DecidedDropsAll(l: Log, limit: nat, window: Time)
    requires limit >= 1 && window >= 1 && NoneAfter(l.stored, 1)
    ensures var next := Decided(l, window + 1, limit, window);
            next.stored == [window + 1] && CountIn(next.accepted, 0, window) == CountIn(l.accepted, 0, window)
  {
    RecentIsNone(l.stored, 1, window);
    CountAppend(l.accepted, window + 1, 0, window);
  }

  lemma {:induction false} DroppingLeavesOne(limit: nat, window: Time)
    requires limit >= 1 && window >= 1
    ensures var l := After(Dropping(limit, window), limit, window);
            l.stored == [window + 1] && CountIn(l.accepted, 0, window) == limit
  {
    RepeatedAccepted(Start, 1, limit, limit, window, 0, window);
    DecidedDropsAll(After(Repeated(Start, 1, limit), limit, window), limit, window);
  }

  lemma {:induction false} RoomAfterOne(calls: Calls, stored: Time, limit: nat, window: Time)
    requires limit >= 1 && window >= 1 && After(calls, limit, window).stored == [stored] && stored > 0
    ensures CountIn(After(Repeated(calls, window, limit - 1), limit, window).accepted, 0, window)
         == CountIn(After(calls, limit, window).accepted, 0, window) + limit - 1
  {
    RepeatedAccepted(calls, window, limit - 1, limit, window, 0, window);
  }

  /** Calls that lag by a single tick can put `2 * limit - 1` accepted requests in one window. */
  lemma {:induction false} OvertakenCallsBreakWindow(limit: nat, window: Time, lag: Time)
    requires limit >= 1 && window >= 1 && lag >= 1
    ensures Lagging(Overtaken(limit, window), lag)
    ensures CountIn(After(Overtaken(limit, window), limit, window).accepted, 0, window) == 2 * limit - 1
  {
    OvertakenLags(limit, window, lag);
    DroppingLeavesOne(limit, window);
    RoomAfterOne(Dropping(limit, window), window + 1, limit, window);
  }

  lemma {:induction false} LaggingMore(calls: Calls, lag: Time, more: Time)
    requires Lagging(calls, lag) && lag <= more
    ensures Lagging(calls, more)
  {
    if calls.Call? {
      LaggingMore(calls.earlier, lag, more);
      AllByLater(calls.earlier, calls.now + lag, calls.now + more);
    }
  }

  predicate FullWindowHolds(calls: Calls, limit: nat, window: Time, end: Time) {
    CountIn(After(calls, limit, window).accepted, end - window, end) <= limit
  }

  /** Full windows hold for all calls that lag at most so much exactly when none lags or the limit is one. */
  lemma {:induction false} FullWindowsHoldIff(limit: nat, window: Time, lag: Time)
    requires limit >= 1 && window >= 1 && lag >= 0
    ensures (forall calls: Calls, end: Time :: Lagging(calls, lag) ==> FullWindowHolds(calls, limit, window, end))
       <==> lag == 0 || limit == 1
  {
    if lag == 0 || limit == 1 {
      forall calls: Calls, end: Time | Lagging(calls, lag) ensures FullWindowHolds(calls, limit, window, end) {
        if limit == 1 {
          OnePerWindow(calls, window, end);
        } else {
          AnyWindowHoldsAtMostLimit(calls, lag, limit, window, end);
        }
      }
    } else {
      OvertakenCallsBreakWindow(limit, window, lag);
      assert !FullWindowHolds(Overtaken(limit, window), limit, window, window);
    }
  }

  // ---- the slices ----------------------------------------------------------------------------

  /** A Go slice: the first `len` cells of its backing array. */
  datatype Slice = Slice(data: array<Time>, len: nat)

  ghost predicate Holds(s: Slice, times: seq<Time>)
    reads s.data
  {
    s.len <= s.data.Length && s.len == |times| && forall i :: 0 <= i < s.len ==> s.data[i] == times[i]
  }

  /** The filter as it runs: `kept` shares the backing array it reads from. */
  method FilterInPlace(s: Slice, cutoff: Time, ghost times: seq<Time>) returns (kept: Slice)
    requires Holds(s, times)
    modifies s.data
    ensures kept.data == s.data && Holds(kept, Recent(times, cutoff))
  {
    var n := 0;
    for i := 0 to s.len
      invariant n <= i && Holds(Slice(s.data, n), Recent(times[..i], cutoff))
      invariant forall k :: i <= k < s.len ==> s.data[k] == times[k]
    {
      var t := s.data[i];
      assert times[..i + 1][..i] == times[..i];
      if t > cutoff {
        s.data[n] := t;
        n := n + 1;
      }
    }
    assert times[..s.len] == times;
    kept := Slice(s.data, n);
  }

  /** append: in place while the backing array has room, in a new one otherwise. */
  method Append(s: Slice, t: Time, ghost times: seq<Time>) returns (grown: Slice)
    requires Holds(s, times)
    modifies s.data
    ensures Holds(grown, times + [t])
    ensures grown.data == s.data || fresh(grown.data)
  {
    if s.len < s.data.Length {
      s.data[s.len] := t;
      grown := Slice(s.data, s.len + 1);
    } else {
      var data := new Time[2 * s.len + 1];
      for i := 0 to s.len
        invariant forall k :: 0 <= k < i ==> data[k] == s.data[k]
        invariant s.data[..] == old(s.data[..])
      {
        data[i] := s.data[i];
      }
      data[s.len] := t;
      grown := Slice(data, s.len + 1);
    }
  }

  // ---- all keys ------------------------------------------------------------------------------

  /** One decision on a key's slice. */
  method Decide(s: Slice, now: Time, limit: nat, window: Time, ghost l: Log) returns (ok: bool, kept: Slice)
    requires Holds(s, l.stored)
    modifies s.data
    ensures kept.data == s.data || fresh(kept.data)
    ensures ok == Admits(l, now, limit, window) && Holds(kept, Decided(l, now, limit, window).stored)
  {
    kept := FilterInPlace(s, now - window, l.stored);
    ok := kept.len < limit;
    if ok {
      kept := Append(kept, now, Recent(l.stored, now - window));
    }
  }

  /** What the calls of each key have left is what is stored for it. */
  predicate Explains(calls: map<Key, Calls>, stored: map<Key, seq<Time>>, limit: nat, window: Time) {
    && calls.Keys == stored.Keys
    && forall key :: key in calls ==> stored[key] == After(calls[key], limit, window).stored
  }

  function CallsOf(calls: map<Key, Calls>, key: Key): Calls {
    if key in calls then calls[key] else Start
  }

  lemma {:induction false} ExplainsMore(calls: map<Key, Calls>, stored: map<Key, seq<Time>>, key: Key, now: Time,
                                        limit: nat, window: Time)
    requires Explains(calls, stored, limit, window)
    ensures var l := After(CallsOf(calls, key), limit, window);
            && (if key in stored then stored[key] else []) == l.stored
            && Explains(calls[key := Call(CallsOf(calls, key), now)],
                        stored[key := Decided(l, now, limit, window).stored], limit, window)
  {
  }

  class Limiter {
    const limit: nat
    const window: Time
    var requests: map<Key, Slice>
    ghost var calls: map<Key, Calls>
    ghost var stored: map<Key, seq<Time>>
    ghost var arrays: set<array<Time>>

    /** Each key's slice holds what its calls have left, in an array of its own. */
    ghost predicate Valid()
      reads this, arrays
    {
      limit > 0 && window > 0 && Separate() && Explains(calls, stored, limit, window)
    }

    ghost predicate Separate()
      reads this, arrays
    {
      && requests.Keys == stored.Keys
      && (forall key :: key in requests ==> requests[key].data in arrays && Holds(requests[key], stored[key]))
      && (forall a, b :: a in requests && b in requests && a != b ==> requests[a].data != requests[b].data)
    }

    constructor (perMinute: int)
      ensures Valid() && arrays == {} && calls == map[]
      ensures limit == if perMinute <= 0 then 30 else perMinute
      ensures window == 60 * 1_000_000_000
    {
      limit := if perMinute <= 0 then DEFAULT_LIMIT else perMinute;
      window := MINUTE;
      requests, calls, stored, arrays := map[], map[], map[], {};
    }

    /**
     One call. Unless a call decided before it has overtaken it, it is refused exactly when the key's last minute
     already holds the limit. Other keys are untouched.
     */
    method Allow(key: Key, now: Time) returns (ok: bool)
      requires Valid()
      modifies this, arrays
      ensures Valid() && fresh(arrays - old(arrays))
      ensures calls == old(calls)[key := Call(CallsOf(old(calls), key), now)]
      ensures Answered(CallsOf(old(calls), key), now, limit, window, ok)
    {
      ghost var earlier := CallsOf(calls, key);
      AnswerIs(earlier, now, limit, window);
      ExplainsMore(calls, stored, key, now, limit, window);
      ok := Take(key, now, After(earlier, limit, window));
      calls := calls[key := Call(earlier, now)];
    }

    /** The stored times of one key, looked up, decided on and put back. */
    method Take(key: Key, now: Time, ghost l: Log) returns (ok: bool)
      requires Separate() && l.stored == if key in stored then stored[key] else []
      modifies this, arrays
      ensures Separate() && fresh(arrays - old(arrays)) && calls == old(calls)
      ensures ok == Admits(l, now, limit, window)
      ensures stored == old(stored)[key := Decided(l, now, limit, window).stored]
    {
      var slice := SliceOf(key);
      var kept;
      ok, kept := Decide(slice, now, limit, window, l);
      Store(key, kept, Decided(l, now, limit, window).stored);
    }

    /** The key's slice, or an empty one in a new array. */
    method SliceOf(key: Key) returns (s: Slice)
      requires Separate()
      ensures Holds(s, if key in stored then stored[key] else [])
      ensures if key in requests then s == requests[key] else fresh(s.data)
      ensures forall other :: other in requests && other != key ==> requests[other].data != s.data
    {
      if key in requests {
        s := requests[key];
      } else {
        var none := new Time[0];
        s := Slice(none, 0);
      }
    }

    method Store(key: Key, kept: Slice, ghost times: seq<Time>)
      requires requests.Keys == stored.Keys && Holds(kept, times)
      requires forall other :: other in requests && other != key ==>
                 && requests[other].data in arrays && Holds(requests[other], stored[other])
                 && requests[other].data != kept.data
      requires forall a, b :: a in requests && b in requests && a != b ==> requests[a].data != requests[b].data
      modifies this
      ensures Separate() && arrays == old(arrays) + {kept.data} && calls == old(calls)
      ensures stored == old(stored)[key := times]
    {
      requests := requests[key := kept];
      stored := stored[key := times];
      arrays := arrays + {kept.data};
    }
  }
}
