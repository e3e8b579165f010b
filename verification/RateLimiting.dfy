/**
 * The fixed-window limiter: one counter per key, whose expiry is set by the
 * hit that creates it and by no other. Time is in milliseconds; a counter
 * lives for the half-open window from its first hit.
 */
module RateLimiting {
  import opened Outcomes

  datatype Counter = Counter(count: nat, expiresAt: int)

  datatype Decision = Decision(allowed: bool, remaining: nat, resetSeconds: int)

  /** INCR, then EXPIRE ... NX. */
  function Bumped(c: Option<Counter>, window: nat, now: int): Counter {
    if c.Some? && now < c.value.expiresAt then Counter(c.value.count + 1, c.value.expiresAt) else Counter(1, now + window)
  }

  function Lookup(counters: map<string, Counter>, key: string): Option<Counter> {
    if key in counters then Some(counters[key]) else None
  }

  class RateLimiter {
    var counters: map<string, Counter>

    constructor ()
      ensures counters == map[]
    {
      counters := map[];
    }

    method Hit(key: string, limit: int, windowSeconds: nat, now: int) returns (d: Decision)
      requires windowSeconds >= 1
      modifies this
      ensures counters == old(counters)[key := Bumped(Lookup(old(counters), key), 1000 * windowSeconds, now)]
      ensures forall k :: k != key ==> (k in counters <==> k in old(counters)) && (k in counters ==> counters[k] == old(counters)[k])
      ensures counters[key] == if key in old(counters) && now < old(counters)[key].expiresAt
                               then Counter(old(counters)[key].count + 1, old(counters)[key].expiresAt)
                               else Counter(1, now + 1000 * windowSeconds)
      ensures d.allowed <==> counters[key].count <= limit
      ensures d.remaining == if limit >= counters[key].count then limit - counters[key].count else 0
      ensures d.resetSeconds == ResetSeconds(counters[key].expiresAt - now, windowSeconds)
    {
      var window := 1000 * windowSeconds;
      // A key past its expiry is gone.
      if key in counters && counters[key].expiresAt <= now { counters := counters - {key}; }
      var created := key !in counters;
      // INCR creates the key without an expiry; EXPIRE NX then gives it one.
      var count := if created then 1 else counters[key].count + 1;
      var expiresAt := if created then now + window else counters[key].expiresAt;
      counters := counters[key := Counter(count, expiresAt)];
      // TTL rounds to the nearest second.
      var ttl := (expiresAt - now + 500) / 1000;
      d := Decision(count <= limit, if limit >= count then limit - count else 0, if ttl > 0 then ttl else windowSeconds);
    }
  }

  /** The answer when `left` milliseconds of the window are left: TTL in whole seconds, or the window when that is zero. */
  function ResetSeconds(left: int, windowSeconds: nat): int {
    var ttl := (left + 500) / 1000;
    if ttl > 0 then ttl else windowSeconds
  }

  /** The answer is the time left, to the nearest second, exactly while at least half a second is left. */
  lemma ResetIsTimeLeftExactly(left: int, windowSeconds: nat)
    requires 0 < left <= 1000 * windowSeconds
    ensures -500 <= 1000 * ResetSeconds(left, windowSeconds) - left <= 500 <==> left >= 500
    ensures left < 500 ==> ResetSeconds(left, windowSeconds) == windowSeconds
  {
  }

  // ---- the decisions on a sequence of hits -------------------------------

  predicate Ordered(times: seq<int>) {
    forall i, j :: 0 <= i <= j < |times| ==> times[i] <= times[j]
  }

  /** What the limiter decides on each hit of one key, starting from counter c. */
  function Decisions(c: Option<Counter>, times: seq<int>, window: nat, limit: int): seq<bool>
    decreases |times|
  {
    if times == [] then []
    else
      var next := Bumped(c, window, times[0]);
      [next.count <= limit] + Decisions(Some(next), times[1..], window, limit)
  }

  lemma {:induction false} DecisionCount(c: Option<Counter>, times: seq<int>, window: nat, limit: int)
    ensures |Decisions(c, times, window, limit)| == |times|
    decreases |times|
  {
    if times != [] { DecisionCount(Some(Bumped(c, window, times[0])), times[1..], window, limit); }
  }

  /** The hit that opened the window hit i falls into. */
  function Opener(times: seq<int>, window: nat, i: nat): (s: nat)
    requires i < |times|
    ensures s <= i
  {
    if i == 0 then 0
    else
      var s := Opener(times, window, i - 1);
      if times[i] < times[s] + window then s else i
  }

  function CounterAt(times: seq<int>, window: nat, i: nat): Counter
    requires i < |times|
  {
    Counter(i - Opener(times, window, i) + 1, times[Opener(times, window, i)] + window)
  }

  function Allowed(times: seq<int>, window: nat, limit: int, i: nat): bool
    requires i < |times|
  {
    i - Opener(times, window, i) < limit
  }

  lemma {:induction false} DecisionsFrom(times: seq<int>, window: nat, limit: int, n: nat)
    requires window >= 1 && n <= |times|
    ensures var c := if n == 0 then None else Some(CounterAt(times, window, n - 1));
            && |Decisions(c, times[n..], window, limit)| == |times| - n
            && forall i :: n <= i < |times| ==> Decisions(c, times[n..], window, limit)[i - n] == Allowed(times, window, limit, i)
    decreases |times| - n
  {
    if n < |times| {
      var c := if n == 0 then None else Some(CounterAt(times, window, n - 1));
      assert Bumped(c, window, times[n]) == CounterAt(times, window, n);
      assert times[n..][0] == times[n] && times[n..][1..] == times[n + 1..];
      DecisionsFrom(times, window, limit, n + 1);
    }
  }

  /** Hit i is allowed exactly when it is among the first `limit` hits of its window. */
  lemma DecisionsAre(times: seq<int>, window: nat, limit: int)
    requires window >= 1
    ensures |Decisions(None, times, window, limit)| == |times|
    ensures forall i :: 0 <= i < |times| ==> Decisions(None, times, window, limit)[i] == Allowed(times, window, limit, i)
  {
    DecisionsFrom(times, window, limit, 0);
    assert times[0..] == times;
  }

  // ---- windows -----------------------------------------------------------

  /** Hits s to e - 1 are one window: s opens it, and e, if there is such a hit, opens the next. */
  predicate IsWindow(times: seq<int>, window: nat, s: nat, e: nat) {
    && s < e <= |times|
    && (forall i :: s <= i < e ==> Opener(times, window, i) == s)
    && (e < |times| ==> Opener(times, window, e) == e)
  }

  function CountAllowed(times: seq<int>, window: nat, limit: int, lo: nat, hi: nat): nat
    requires lo <= hi <= |times|
    decreases hi - lo
  {
    if lo == hi then 0
    else CountAllowed(times, window, limit, lo, hi - 1) + if Allowed(times, window, limit, hi - 1) then 1 else 0
  }

  function Min(a: int, b: int): int {
    if a <= b then a else b
  }

  lemma {:induction false} OpenerStays(times: seq<int>, window: nat, i: nat)
    requires window >= 1 && i < |times|
    ensures Opener(times, window, Opener(times, window, i)) == Opener(times, window, i)
    ensures forall k :: Opener(times, window, i) <= k <= i ==> Opener(times, window, k) == Opener(times, window, i)
    ensures times[i] < times[Opener(times, window, i)] + window
  {
    if i > 0 { OpenerStays(times, window, i - 1); }
  }

  /** Part of a window allows the hits among its first `limit`. */
  lemma {:induction false} CountInWindow(times: seq<int>, window: nat, limit: nat, s: nat, lo: nat, hi: nat)
    requires s <= lo <= hi <= |times| && forall i :: lo <= i < hi ==> Opener(times, window, i) == s
    ensures CountAllowed(times, window, limit, lo, hi) == if lo - s >= limit then 0 else Min(hi - s, limit) - (lo - s)
    decreases hi - lo
  {
    if lo < hi { CountInWindow(times, window, limit, s, lo, hi - 1); }
  }

  /** A window allows exactly the smaller of its hits and the limit. */
  lemma WindowAllows(times: seq<int>, window: nat, limit: nat, s: nat, e: nat)
    requires IsWindow(times, window, s, e)
    ensures CountAllowed(times, window, limit, s, e) == Min(e - s, limit)
  {
    CountInWindow(times, window, limit, s, s, e);
  }

  lemma {:induction false} CountSplits(times: seq<int>, window: nat, limit: int, lo: nat, mid: nat, hi: nat)
    requires lo <= mid <= hi <= |times|
    ensures CountAllowed(times, window, limit, lo, hi)
            == CountAllowed(times, window, limit, lo, mid) + CountAllowed(times, window, limit, mid, hi)
    decreases hi - mid
  {
    if mid < hi { CountSplits(times, window, limit, lo, mid, hi - 1); }
  }

  /** Where the window of the last hit of a stretch begins inside it. */
  lemma AtMostOneBoundary(times: seq<int>, window: nat, lo: nat, hi: nat)
    requires window >= 1 && Ordered(times) && lo < hi <= |times| && times[hi - 1] < times[lo] + window
    ensures var s := Opener(times, window, hi - 1);
            && (forall i :: lo <= i < hi && i < s ==> Opener(times, window, i) == Opener(times, window, lo))
            && (forall i :: lo <= i < hi && s <= i ==> Opener(times, window, i) == s)
  {
    var s := Opener(times, window, hi - 1);
    OpenerStays(times, window, hi - 1);
    forall i | lo <= i < hi && i < s
      ensures Opener(times, window, i) == Opener(times, window, lo)
    {
      OpenerStays(times, window, i);
      var r := Opener(times, window, i);
      if r > lo {
        // r and s would be two openers within one window length.
        OpensLater(times, window, r, s);
      }
    }
  }

  /** Two openers are a window length apart. */
  lemma {:induction false} OpensLater(times: seq<int>, window: nat, r: nat, s: nat)
    requires window >= 1 && Ordered(times) && r < s < |times|
    requires Opener(times, window, r) == r && Opener(times, window, s) == s
    ensures times[s] >= times[r] + window
  {
    var q := Opener(times, window, s - 1);
    OpenerStays(times, window, s - 1);
    if q > r { OpensLater(times, window, r, q); } else { assert q == r; }
  }

  /** Any stretch of hits shorter than one window, wherever it begins, has at most twice the limit allowed. */
  lemma AnyIntervalAllows(times: seq<int>, window: nat, limit: nat, lo: nat, hi: nat)
    requires window >= 1 && Ordered(times) && lo < hi <= |times| && times[hi - 1] < times[lo] + window
    ensures CountAllowed(times, window, limit, lo, hi) <= 2 * limit
  {
    var s := Opener(times, window, hi - 1);
    AtMostOneBoundary(times, window, lo, hi);
    if s <= lo {
      CountInWindow(times, window, limit, s, lo, hi);
    } else {
      CountSplits(times, window, limit, lo, s, hi);
      CountInWindow(times, window, limit, Opener(times, window, lo), lo, s);
      CountInWindow(times, window, limit, s, s, hi);
    }
  }

  /** The first hit at or after a window's end is allowed, however many were refused in it. */
  lemma NextWindowOpens(times: seq<int>, window: nat, limit: nat, i: nat)
    requires limit >= 1 && 0 < i < |times| && times[i] >= times[Opener(times, window, i - 1)] + window
    ensures Allowed(times, window, limit, i) && Opener(times, window, i) == i
  {
  }

  // ---- refused hits leave no trace ----------------------------------------

  /** Two counters no later hit can tell apart. */
  predicate Alike(c: Counter, d: Counter, limit: int) {
    c == d || (c.expiresAt == d.expiresAt && c.count >= limit && d.count >= limit && limit >= 1)
  }

  lemma {:induction false} AlikeDecide(c: Counter, d: Counter, times: seq<int>, window: nat, limit: int)
    requires Alike(c, d, limit)
    ensures Decisions(Some(c), times, window, limit) == Decisions(Some(d), times, window, limit)
    decreases |times|
  {
    if times != [] {
      AlikeDecide(Bumped(Some(c), window, times[0]), Bumped(Some(d), window, times[0]), times[1..], window, limit);
    }
  }

  lemma {:induction false} NothingAllowed(c: Option<Counter>, times: seq<int>, window: nat, limit: int)
    requires limit <= 0
    ensures forall i :: 0 <= i < |Decisions(c, times, window, limit)| ==> !Decisions(c, times, window, limit)[i]
    decreases |times|
  {
    if times != [] { NothingAllowed(Some(Bumped(c, window, times[0])), times[1..], window, limit); }
  }

  function Dropped<T>(s: seq<T>, i: nat): seq<T>
    requires i < |s|
  {
    s[..i] + s[i + 1..]
  }

  lemma DroppedLater<T>(s: seq<T>, i: nat)
    requires 0 < i < |s|
    ensures Dropped(s, i)[0] == s[0] && Dropped(s, i)[1..] == Dropped(s[1..], i - 1)
    ensures Dropped(s, i) == [s[0]] + Dropped(s[1..], i - 1)
  {
  }

  lemma RefusedFirst(c: Option<Counter>, times: seq<int>, window: nat, limit: int)
    requires times != [] && Bumped(c, window, times[0]).count > limit
    ensures Decisions(c, times[1..], window, limit) == Decisions(Some(Bumped(c, window, times[0])), times[1..], window, limit)
  {
    var next := Bumped(c, window, times[0]);
    if limit <= 0 {
      NothingAllowed(c, times[1..], window, limit);
      NothingAllowed(Some(next), times[1..], window, limit);
      DecisionCount(c, times[1..], window, limit);
      DecisionCount(Some(next), times[1..], window, limit);
    } else {
      AlikeDecide(c.value, next, times[1..], window, limit);
    }
  }

  /** Had a refused hit never happened, every other hit would have been decided the same: refusals extend nothing. */
  lemma {:induction false} RefusedHitsLeaveNoTrace(c: Option<Counter>, times: seq<int>, window: nat, limit: int, i: nat)
    requires i < |times| && |Decisions(c, times, window, limit)| == |times| && !Decisions(c, times, window, limit)[i]
    ensures Decisions(c, Dropped(times, i), window, limit) == Dropped(Decisions(c, times, window, limit), i)
    decreases i
  {
    hide Bumped;
    var next := Bumped(c, window, times[0]);
    DecisionCount(Some(next), times[1..], window, limit);
    if i == 0 {
      RefusedFirst(c, times, window, limit);
      assert Dropped(times, 0) == times[1..];
      assert Dropped(Decisions(c, times, window, limit), 0) == Decisions(Some(next), times[1..], window, limit);
    } else {
      RefusedHitsLeaveNoTrace(Some(next), times[1..], window, limit, i - 1);
      DroppedLater(times, i);
      DroppedLater(Decisions(c, times, window, limit), i);
    }
  }
}
