/** The sliding-window limiter (backend/app/core/security.py:28-45). */
module RateLimiting {
  // --- the simple form: remember everything ---

  predicate InOrder(times: seq<real>) {
    forall i, k | 0 <= i < k < |times| :: times[i] <= times[k]
  }

  /** Times in the closed window from `lo` to `hi`. */
  function CountIn(times: seq<real>, lo: real, hi: real): (n: nat)
    ensures n <= |times|
  {
    if times == [] then 0
    else CountIn(times[..|times| - 1], lo, hi) + (if lo <= times[|times| - 1] <= hi then 1 else 0)
  }

  /** A call is allowed while the window that ends now holds fewer allowed calls than the limit. */
  predicate Admits(times: seq<real>, now: real, window: real, limit: nat) {
    CountIn(times, now - window, now) < limit
  }

  function Called(times: seq<real>, now: real, window: real, limit: nat): seq<real> {
    if Admits(times, now, window, limit) then times + [now] else times
  }

  /** The allowed calls of one key after calls at the given times. */
  function CalledAll(calls: seq<real>, window: real, limit: nat): seq<real> {
    if calls == [] then []
    else Called(CalledAll(calls[..|calls| - 1], window, limit), calls[|calls| - 1], window, limit)
  }

  lemma {:induction false} SmallerWindow(times: seq<real>, lo: real, hi: real, lo': real, hi': real)
    requires lo' <= lo && hi <= hi'
    ensures CountIn(times, lo, hi) <= CountIn(times, lo', hi')
  {
    if times != [] {
      SmallerWindow(times[..|times| - 1], lo, hi, lo', hi');
    }
  }

  /** Nothing lies after the last time. */
  lemma {:induction false} NothingLater(times: seq<real>, lo: real, hi: real, hi': real)
    requires hi <= hi' && forall i | 0 <= i < |times| :: times[i] <= hi
    ensures CountIn(times, lo, hi') == CountIn(times, lo, hi)
  {
    if times != [] {
      NothingLater(times[..|times| - 1], lo, hi, hi');
    }
  }

  lemma CountOfMore(times: seq<real>, now: real, lo: real, hi: real)
    ensures CountIn(times + [now], lo, hi) == CountIn(times, lo, hi) + (if lo <= now <= hi then 1 else 0)
  {
    assert (times + [now])[..|times|] == times;
  }

  /** Every closed window of the limiter's length holds at most the limit of calls. */
  ghost predicate Bounded(times: seq<real>, window: real, limit: nat) {
    forall lo: real :: WithinLimit(times, lo, window, limit)
  }

  predicate WithinLimit(times: seq<real>, lo: real, window: real, limit: nat) {
    CountIn(times, lo, lo + window) <= limit
  }

  lemma CallKeepsBound(times: seq<real>, now: real, window: real, limit: nat)
    requires Bounded(times, window, limit) && forall i | 0 <= i < |times| :: times[i] <= now
    ensures Bounded(Called(times, now, window, limit), window, limit)
  {
    if Admits(times, now, window, limit) {
      var more := times + [now];
      forall lo: real
        ensures WithinLimit(more, lo, window, limit)
      {
        CountOfMore(times, now, lo, lo + window);
        assert WithinLimit(times, lo, window, limit);
        if lo <= now <= lo + window {
          NothingLater(times, lo, now, lo + window);
          SmallerWindow(times, lo, now, now - window, now);
        }
      }
    }
  }

  lemma {:induction false} CallsAreInOrder(calls: seq<real>, window: real, limit: nat)
    requires InOrder(calls)
    ensures
      var times := CalledAll(calls, window, limit);
      && InOrder(times)
      && (calls != [] ==> forall i | 0 <= i < |times| :: times[i] <= calls[|calls| - 1])
      && (calls == [] ==> times == [])
  {
    if calls != [] {
      CallsAreInOrder(calls[..|calls| - 1], window, limit);
    }
  }

  /** Over any calls at times that do not go back, no closed window of that length, wherever it lies,
      holds more allowed calls than the limit. */
  lemma {:induction false} WindowsAreBounded(calls: seq<real>, window: real, limit: nat)
    requires InOrder(calls)
    ensures Bounded(CalledAll(calls, window, limit), window, limit)
  {
    if calls != [] {
      WindowsAreBounded(calls[..|calls| - 1], window, limit);
      CallsAreInOrder(calls, window, limit);
      CallsAreInOrder(calls[..|calls| - 1], window, limit);
      var before := CalledAll(calls[..|calls| - 1], window, limit);
      forall i | 0 <= i < |before|
        ensures before[i] <= calls[|calls| - 1]
      {
        assert calls[|calls| - 2] <= calls[|calls| - 1];
      }
      CallKeepsBound(before, calls[|calls| - 1], window, limit);
    }
  }

  // --- the fast form: forget what no window can reach ---

  function Since(times: seq<real>, cutoff: real): seq<real> {
    if times == [] then []
    else if times[0] < cutoff then Since(times[1..], cutoff)
    else times
  }

  /** In order, what is left from a time on is a window that ends now. */
  lemma {:induction false} SinceIsTheWindow(times: seq<real>, cutoff: real, now: real)
    requires InOrder(times) && forall i | 0 <= i < |times| :: times[i] <= now
    ensures |Since(times, cutoff)| == CountIn(times, cutoff, now)
  {
    if times != [] {
      CountFromFront(times, cutoff, now);
      if times[0] < cutoff {
        SinceIsTheWindow(times[1..], cutoff, now);
      } else {
        AllInside(times, cutoff, now);
      }
    }
  }

  lemma {:induction false} CountFromFront(times: seq<real>, lo: real, hi: real)
    requires times != []
    ensures CountIn(times, lo, hi) == (if lo <= times[0] <= hi then 1 else 0) + CountIn(times[1..], lo, hi)
  {
    if |times| > 1 {
      var front := times[..|times| - 1];
      CountFromFront(front, lo, hi);
      assert front[1..] == times[1..][..|times[1..]| - 1];
    }
  }

  lemma {:induction false} AllInside(times: seq<real>, lo: real, hi: real)
    requires forall i | 0 <= i < |times| :: lo <= times[i] <= hi
    ensures CountIn(times, lo, hi) == |times|
  {
    if times != [] {
      AllInside(times[..|times| - 1], lo, hi);
    }
  }

  /** Forgetting early does not change what is left later. */
  lemma {:induction false} SinceTwice(times: seq<real>, early: real, late: real)
    requires early <= late
    ensures Since(Since(times, early), late) == Since(times, late)
  {
    if times != [] && times[0] < early {
      SinceTwice(times[1..], early, late);
    }
  }

  lemma {:induction false} SinceOfMore(times: seq<real>, cutoff: real, now: real)
    requires cutoff <= now
    ensures Since(times + [now], cutoff) == Since(times, cutoff) + [now]
  {
    if times == [] {
      assert times + [now] == [now];
    } else {
      assert (times + [now])[1..] == times[1..] + [now];
      if times[0] < cutoff {
        SinceOfMore(times[1..], cutoff, now);
      }
    }
  }

  /** The deque of a key against the full history of its allowed calls, all made by `clock`: it is
      what the history leaves from some cutoff on that no coming window reaches. */
  ghost predicate Remembers(deque: seq<real>, times: seq<real>, clock: real, window: real, limit: nat) {
    && InOrder(times) && (forall i | 0 <= i < |times| :: times[i] <= clock)
    && Bounded(times, window, limit)
    && IsPruned(deque, times, clock - window)
  }

  ghost predicate IsPruned(deque: seq<real>, times: seq<real>, latest: real) {
    exists cutoff :: PrunedAt(deque, times, cutoff, latest)
  }

  predicate PrunedAt(deque: seq<real>, times: seq<real>, cutoff: real, latest: real) {
    cutoff <= latest && deque == Since(times, cutoff)
  }

  lemma NothingToRemember(clock: real, window: real, limit: nat)
    ensures Remembers([], [], clock, window, limit)
  {
    var none: seq<real> := [];
    forall lo: real
      ensures WithinLimit(none, lo, window, limit)
    {
    }
    assert PrunedAt(none, none, clock - window, clock - window);
  }

  lemma StillRemembers(deque: seq<real>, times: seq<real>, clock: real, now: real, window: real, limit: nat)
    requires Remembers(deque, times, clock, window, limit) && clock <= now
    ensures Remembers(deque, times, now, window, limit)
    ensures Since(deque, now - window) == Since(times, now - window)
  {
    var cutoff :| PrunedAt(deque, times, cutoff, clock - window);
    assert PrunedAt(deque, times, cutoff, now - window);
    SinceTwice(times, cutoff, now - window);
  }

  /** After a call, the deque with the call's time, if it is allowed, remembers the new history. */
  lemma RemembersTheCall(deque: seq<real>, times: seq<real>, now: real, window: real, limit: nat)
    requires Remembers(deque, times, now, window, limit) && window >= 0.0
    ensures
      var left := Since(times, now - window);
      && (|left| < limit <==> Admits(times, now, window, limit))
      && Remembers(if |left| < limit then left + [now] else left, Called(times, now, window, limit), now, window, limit)
      && (if |left| < limit then left + [now] else left) == Since(Called(times, now, window, limit), now - window)
  {
    var cutoff := now - window;
    SinceIsTheWindow(times, cutoff, now);
    SinceOfMore(times, cutoff, now);
    CallKeepsBound(times, now, window, limit);
    var called := Called(times, now, window, limit);
    assert PrunedAt(Since(called, cutoff), called, cutoff, cutoff);
  }

  function Of(m: map<string, seq<real>>, key: string): seq<real> {
    if key in m then m[key] else []
  }

  ghost predicate AllRemember(hits: map<string, seq<real>>, allowed: map<string, seq<real>>, clock: real, window: real,
                              limit: nat) {
    forall key: string :: Remembers(Of(hits, key), Of(allowed, key), clock, window, limit)
  }

  lemma KeyChanges(hits: map<string, seq<real>>, allowed: map<string, seq<real>>, key: string, deque: seq<real>,
                   times: seq<real>, clock: real, now: real, window: real, limit: nat)
    requires AllRemember(hits, allowed, clock, window, limit) && clock <= now
    requires Remembers(deque, times, now, window, limit)
    ensures AllRemember(hits[key := deque], allowed[key := times], now, window, limit)
  {
    var hits', allowed' := hits[key := deque], allowed[key := times];
    forall other: string
      ensures Remembers(Of(hits', other), Of(allowed', other), now, window, limit)
    {
      if other != key {
        StillRemembers(Of(hits, other), Of(allowed, other), clock, now, window, limit);
      }
    }
  }

  function Admitted(left: seq<real>, now: real, limit: nat): seq<real> {
    if |left| < limit then left + [now] else left
  }

  /** One call of one key, on both forms. */
  lemma CallOnBoth(hits: map<string, seq<real>>, allowed: map<string, seq<real>>, key: string, clock: real, now: real,
                   window: real, limit: nat)
    requires window >= 0.0 && AllRemember(hits, allowed, clock, window, limit) && clock <= now
    ensures
      var left, times := Since(Of(hits, key), now - window), Of(allowed, key);
      && (|left| < limit <==> Admits(times, now, window, limit))
      && Admitted(left, now, limit) == Since(Called(times, now, window, limit), now - window)
      && AllRemember(hits[key := Admitted(left, now, limit)], allowed[key := Called(times, now, window, limit)], now,
                     window, limit)
  {
    var deque, times := Of(hits, key), Of(allowed, key);
    StillRemembers(deque, times, clock, now, window, limit);
    RemembersTheCall(deque, times, now, window, limit);
    KeyChanges(hits, allowed, key, Admitted(Since(deque, now - window), now, limit), Called(times, now, window, limit),
               clock, now, window, limit);
  }

  /** The loop that drops times before the cutoff from the front. */
  method Prune(deque: seq<real>, cutoff: real) returns (q: seq<real>)
    ensures q == Since(deque, cutoff)
  {
    q := deque;
    while q != [] && q[0] < cutoff
      invariant Since(q, cutoff) == Since(deque, cutoff)
      decreases |q|
    {
      q := q[1..];
    }
  }

  method Admit(deque: seq<real>, now: real, window: real, limit: nat) returns (q: seq<real>, ok: bool)
    ensures
      var left := Since(deque, now - window);
      q == Admitted(left, now, limit) && ok == (|left| < limit)
  {
    q := Prune(deque, now - window);
    ok := |q| < limit;
    if ok {
      q := q + [now];
    }
  }

  class RateLimiter {
    const limit: nat
    const window: real
    var hits: map<string, seq<real>>
    ghost var allowed: map<string, seq<real>>
    ghost var clock: real

    ghost predicate Valid()
      reads this
    {
      window >= 0.0 && AllRemember(hits, allowed, clock, window, limit)
    }

    constructor (limit: nat, window: real)
      requires window >= 0.0
      ensures Valid() && this.limit == limit && this.window == window && allowed == map[]
    {
      this.limit, this.window := limit, window;
      hits, allowed, clock := map[], map[], 0.0;
      NothingToRemember(0.0, window, limit);
    }

    /** All calls of a key that were ever allowed. */
    ghost function History(key: string): seq<real>
      reads this
    {
      Of(allowed, key)
    }

    /** One call. It is allowed exactly when the last window holds fewer allowed calls than the limit,
        and the deque holds exactly the allowed calls of that window. */
    method Allow(key: string, now: real) returns (ok: bool)
      requires Valid() && now >= clock
      modifies this
      ensures Valid() && clock == now
      ensures ok == Admits(old(History(key)), now, window, limit)
      ensures allowed == old(allowed)[key := Called(old(History(key)), now, window, limit)]
      ensures hits == old(hits)[key := Since(allowed[key], now - window)]
    {
      ghost var times := Called(History(key), now, window, limit);
      CallOnBoth(hits, allowed, key, clock, now, window, limit);
      var q;
      q, ok := Admit(Of(hits, key), now, window, limit);
      hits, allowed, clock := hits[key := q], allowed[key := times], now;
    }
  }
}
