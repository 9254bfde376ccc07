/** The sliding-window limiter of one process (packages/auth/src/local-rate-limit.ts). */
module RateLimit {
  import opened Common

  datatype Error = InvalidConfiguration

  const MAX_SAFE := 9007199254740991

  /** The times still inside the window at now. */
  function Recent(times: seq<int>, now: int, window: int): (r: seq<int>)
    ensures forall i :: 0 <= i < |r| ==> r[i] in times && now - r[i] < window
  {
    if times == [] then []
    else Recent(times[..|times| - 1], now, window) + (if now - times[|times| - 1] < window then [times[|times| - 1]] else [])
  }

  // --------------------------------------------------------------- runs of one key

  /** The decisions an unpruned history makes: a call is accepted when few enough accepted calls are recent. */
  function Accepted(times: seq<int>, clock: seq<int>, window: int, limit: int): (accepted: seq<int>)
    decreases |clock|
  {
    if clock == [] then times
    else Accepted(if |Recent(times, clock[0], window)| < limit then times + [clock[0]] else times, clock[1..], window, limit)
  }

  predicate NonDecreasing(s: seq<int>) {
    forall i, j :: 0 <= i <= j < |s| ==> s[i] <= s[j]
  }

  predicate NoneAfter(times: seq<int>, now: int) {
    forall i :: 0 <= i < |times| ==> times[i] <= now
  }

  lemma RecentSnoc(times: seq<int>, t: int, now: int, window: int)
    ensures Recent(times + [t], now, window) == Recent(times, now, window) + (if now - t < window then [t] else [])
  {
  }

  /** Pruning earlier loses nothing that counts later. */
  lemma {:induction false} PruningIsHarmless(times: seq<int>, early: int, late: int, window: int)
    requires early <= late
    ensures Recent(Recent(times, early, window), late, window) == Recent(times, late, window)
  {
    if times != [] {
      var rest, t := times[..|times| - 1], times[|times| - 1];
      assert times == rest + [t];
      PruningIsHarmless(rest, early, late, window);
      hide Recent;
      RecentSnoc(rest, t, early, window);
      RecentSnoc(rest, t, late, window);
      RecentSnoc(Recent(rest, early, window), t, late, window);
      assert Recent(rest, early, window) + [] == Recent(rest, early, window);
      assert Recent(rest, late, window) + [] == Recent(rest, late, window);
    }
  }

  /** What a limiter keeps for one key: some of the accepted times, with all that still count. */
  ghost predicate Tracks(kept: seq<int>, history: seq<int>, now: int, window: int) {
    forall later :: later >= now ==> Recent(kept, later, window) == Recent(history, later, window)
  }

  lemma StillTracks(kept: seq<int>, history: seq<int>, now: int, later: int, window: int)
    requires Tracks(kept, history, now, window) && now <= later
    ensures Tracks(Recent(kept, later, window), history, later, window)
    ensures Tracks(Recent(kept, later, window) + [later], history + [later], later, window)
  {
    var valid := Recent(kept, later, window);
    forall at | at >= later ensures Recent(valid, at, window) == Recent(history, at, window)
                                  ensures Recent(valid + [later], at, window) == Recent(history + [later], at, window) {
      PruningIsHarmless(kept, later, at, window);
      RecentSnoc(valid, later, at, window);
      RecentSnoc(history, later, at, window);
    }
  }

  // --------------------------------------------------------------- counting

  /** The positions of the calls in the window that ends at now, calls after it included. */
  ghost function InWindow(times: seq<int>, now: int, window: int): set<int> {
    set i | 0 <= i < |times| && now - times[i] < window
  }

  lemma OneMoreInWindow(times: seq<int>, t: int, now: int, window: int)
    ensures |InWindow(times + [t], now, window)| == |InWindow(times, now, window)| + (if now - t < window then 1 else 0)
  {
    assert InWindow(times + [t], now, window) == InWindow(times, now, window) + (if now - t < window then {|times|} else {});
  }

  /** As many are recent as there are times less than the window's length ago. */
  lemma {:induction false} RecentAreThoseInWindow(times: seq<int>, now: int, window: int)
    ensures |Recent(times, now, window)| == |InWindow(times, now, window)|
  {
    hide InWindow;
    if times == [] {
      NoneInWindow(now, window);
    } else {
      var n := |times| - 1;
      assert times == times[..n] + [times[n]];
      RecentAreThoseInWindow(times[..n], now, window);
      OneMoreInWindow(times[..n], times[n], now, window);
    }
  }

  lemma NoneInWindow(now: int, window: int)
    ensures InWindow([], now, window) == {}
  {
  }

  /** Those times are kept as often as they were there, and no others. */
  lemma {:induction false} RecentKeeps(times: seq<int>, now: int, window: int, t: int)
    ensures multiset(Recent(times, now, window))[t] == if now - t < window then multiset(times)[t] else 0
  {
    if times == [] {
      assert Recent(times, now, window) == [];
    } else {
      var n := |times| - 1;
      hide Recent;
      RecentKeeps(times[..n], now, window, t);
      KeepingOneMore(times[..n], times[n], now, window, t);
      assert times == times[..n] + [times[n]];
    }
  }

  lemma KeepingOneMore(times: seq<int>, last: int, now: int, window: int, t: int)
    requires multiset(Recent(times, now, window))[t] == if now - t < window then multiset(times)[t] else 0
    ensures multiset(Recent(times + [last], now, window))[t] == if now - t < window then multiset(times + [last])[t] else 0
  {
    RecentSnoc(times, last, now, window);
    hide Recent;
  }

  // --------------------------------------------------------------- no window is exceeded

  /** The accepted times inside the window of the given length that ends at the given moment. */
  function Inside(times: seq<int>, end: int, window: int): nat {
    |Recent(Until(times, end), end, window)|
  }

  function Until(times: seq<int>, end: int): seq<int> {
    if times == [] then []
    else Until(times[..|times| - 1], end) + (if times[|times| - 1] <= end then [times[|times| - 1]] else [])
  }

  ghost predicate NeverExceeded(times: seq<int>, window: int, limit: int) {
    forall end :: Inside(times, end, window) <= limit
  }

  lemma {:induction false} UntilAll(times: seq<int>, end: int)
    requires NoneAfter(times, end)
    ensures Until(times, end) == times
  {
    if times != [] {
      UntilAll(times[..|times| - 1], end);
    }
  }

  lemma {:induction false} RecentShrinks(times: seq<int>, now: int, later: int, window: int)
    requires now <= later
    ensures |Recent(times, later, window)| <= |Recent(times, now, window)|
  {
    if times != [] {
      RecentShrinks(times[..|times| - 1], now, later, window);
    }
  }

  lemma InsideOneMore(times: seq<int>, now: int, end: int, window: int)
    requires NoneAfter(times, now)
    ensures Inside(times + [now], end, window) <= (if now <= end then |Recent(times, now, window)| + 1 else Inside(times, end, window))
  {
    assert (times + [now])[..|times|] == times;
    if now <= end {
      UntilAll(times, end);
      assert Until(times + [now], end) == times + [now];
      hide Recent, Until;
      RecentSnoc(times, now, end, window);
      RecentShrinks(times, now, end, window);
    } else {
      assert Until(times + [now], end) == Until(times, end) + [] == Until(times, end);
    }
  }

  lemma AcceptingOneMore(times: seq<int>, now: int, window: int, limit: int)
    requires NeverExceeded(times, window, limit) && NoneAfter(times, now) && |Recent(times, now, window)| < limit
    ensures NeverExceeded(times + [now], window, limit)
  {
    hide Inside, Recent;
    forall end ensures Inside(times + [now], end, window) <= limit {
      assert Inside(times, end, window) <= limit;
      InsideOneMore(times, now, end, window);
    }
  }

  /** No window of the limiter's length, wherever it ends, ever holds more accepted calls than the limit. */
  lemma {:induction false} WindowsNeverExceeded(times: seq<int>, clock: seq<int>, window: int, limit: int)
    requires NeverExceeded(times, window, limit) && NonDecreasing(clock) && limit >= 0
    requires clock != [] ==> NoneAfter(times, clock[0])
    ensures NeverExceeded(Accepted(times, clock, window, limit), window, limit)
    decreases |clock|
  {
    if clock != [] {
      var next := if |Recent(times, clock[0], window)| < limit then times + [clock[0]] else times;
      if |Recent(times, clock[0], window)| < limit {
        AcceptingOneMore(times, clock[0], window, limit);
      }
      assert NoneAfter(next, clock[0]);
      WindowsNeverExceeded(next, clock[1..], window, limit);
    }
  }

  lemma {:induction false} InsideAreCounted(times: seq<int>, end: int, window: int)
    ensures Inside(times, end, window) == |set i | 0 <= i < |times| && end - window < times[i] <= end|
  {
    var inside := set i | 0 <= i < |times| && end - window < times[i] <= end;
    if times == [] {
      assert inside == {};
    } else {
      var n := |times| - 1;
      InsideAreCounted(times[..n], end, window);
      var before := set i | 0 <= i < n && end - window < times[..n][i] <= end;
      assert inside == before + (if end - window < times[n] <= end then {n} else {});
      if times[n] <= end {
        RecentSnoc(Until(times[..n], end), times[n], end, window);
      } else {
        assert Until(times, end) == Until(times[..n], end) + [] == Until(times[..n], end);
      }
    }
  }

  /** From nothing, at no moment have more than the limit been accepted in the window's length before it. */
  lemma AtMostTheLimitInAnyWindow(clock: seq<int>, window: int, limit: int, end: int)
    requires NonDecreasing(clock) && limit >= 0
    ensures var times := Accepted([], clock, window, limit);
            |set i | 0 <= i < |times| && end - window < times[i] <= end| <= limit
  {
    WindowsNeverExceeded([], clock, window, limit);
    var times := Accepted([], clock, window, limit);
    assert Inside(times, end, window) <= limit;
    InsideAreCounted(times, end, window);
  }

  // --------------------------------------------------------------- the limiter

  class LocalSlidingWindowRateLimiter {
    var attempts: map<string, seq<int>>
    // Every accepted call of each key, and the last clock reading, for the specification.
    ghost var history: map<string, seq<int>>
    ghost var last: int

    constructor ()
      ensures attempts == map[] && history == map[]
    {
      attempts, history, last := map[], map[], 0;
    }

    ghost function History(key: string): seq<int>
      reads this
    {
      if key in history then history[key] else []
    }

    function Kept(key: string): seq<int>
      reads this
    {
      if key in attempts then attempts[key] else []
    }

    /** With the window a key is always checked with, its pruned list stands for its whole history. */
    ghost predicate Valid(key: string, window: int)
      reads this
    {
      Tracks(Kept(key), History(key), last, window)
    }

    /** The call is accepted exactly when fewer than the limit of all accepted calls lie within the window. */
    method Check(key: string, window: int, limit: int, now: int) returns (r: Result<bool, Error>)
      requires Valid(key, window) && last <= now
      modifies this
      ensures r.Err? <==> key == "" || window <= 0 || !(0 <= limit <= MAX_SAFE)
      ensures r.Err? ==> attempts == old(attempts) && history == old(history)
      ensures r.Ok? ==> Valid(key, window) && last == now
      ensures r.Ok? ==> (r.value <==> |InWindow(old(History(key)), now, window)| < limit)
      ensures r.Ok? ==> History(key) == if r.value then old(History(key)) + [now] else old(History(key))
      ensures forall other :: other != key ==> Kept(other) == old(Kept(other)) && History(other) == old(History(other))
    {
      if key == "" || window <= 0 || !(0 <= limit <= MAX_SAFE) {
        return Err(InvalidConfiguration);
      }
      StillTracks(Kept(key), History(key), last, now, window);
      assert Recent(Kept(key), now, window) == Recent(History(key), now, window);
      RecentAreThoseInWindow(History(key), now, window);
      var valid := FilterRecent(Kept(key), now, window);
      history := history[key := History(key)];
      last := now;
      if |valid| >= limit {
        attempts := attempts[key := valid];
        return Ok(false);
      }
      attempts := attempts[key := valid + [now]];
      history := history[key := history[key] + [now]];
      r := Ok(true);
    }

    static method FilterRecent(times: seq<int>, now: int, window: int) returns (valid: seq<int>)
      ensures valid == Recent(times, now, window)
    {
      valid := [];
      for n := 0 to |times|
        invariant valid == Recent(times[..n], now, window)
      {
        assert times[..n + 1] == times[..n] + [times[n]];
        RecentSnoc(times[..n], times[n], now, window);
        if now - times[n] < window {
          valid := valid + [times[n]];
        }
      }
      assert times[..|times|] == times;
    }
  }

  /** A run of one key's calls accepts exactly what the unpruned history would. */
  method RunKey(limiter: LocalSlidingWindowRateLimiter, key: string, window: int, limit: int, clock: seq<int>)
    requires key != "" && window > 0 && 0 <= limit <= MAX_SAFE && NonDecreasing(clock)
    requires limiter.History(key) == [] && limiter.Kept(key) == [] && (clock != [] ==> limiter.last <= clock[0])
    modifies limiter
    ensures limiter.History(key) == Accepted([], clock, window, limit)
    ensures NeverExceeded(limiter.History(key), window, limit)
  {
    for n := 0 to |clock|
      invariant limiter.Valid(key, window) && (n < |clock| ==> limiter.last <= clock[n])
      invariant Accepted(limiter.History(key), clock[n..], window, limit) == Accepted([], clock, window, limit)
    {
      assert clock[n..][0] == clock[n] && clock[n..][1..] == clock[n + 1..];
      RecentAreThoseInWindow(limiter.History(key), clock[n], window);
      var _ := limiter.Check(key, window, limit, clock[n]);
    }
    assert clock[|clock|..] == [];
    WindowsNeverExceeded([], clock, window, limit);
  }
}
