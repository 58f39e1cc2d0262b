// The drop server's sliding-window rate limiter. Times are whole nanoseconds of
// the server's clock.
module RateLimit {
  import opened Basics

  const MAX_PUTS: nat := 500
  const WINDOW: int := 60 * 1_000_000_000

  // ------------------------------------------------------------- one call

  function DropOld(times: seq<int>, cutoff: int): (r: seq<int>)
    ensures |r| <= |times| && r == times[|times| - |r|..]
    ensures r != [] ==> r[0] >= cutoff
    ensures forall i :: 0 <= i < |times| - |r| ==> times[i] < cutoff
  {
    if times != [] && times[0] < cutoff then DropOld(times[1..], cutoff) else times
  }

  predicate Allowed(times: seq<int>, now: int) {
    |DropOld(times, now - WINDOW)| < MAX_PUTS
  }

  function After(times: seq<int>, now: int): seq<int> {
    var recent := DropOld(times, now - WINDOW);
    if |recent| < MAX_PUTS then recent + [now] else recent
  }

  // allow_put for one drop; the clock was read before the lock was taken.
  class Limiter {
    var times: seq<int>

    constructor ()
      ensures times == []
    {
      times := [];
    }

    method AllowPut(now: int) returns (ok: bool)
      modifies this
      ensures ok == Allowed(old(times), now)
      ensures times == After(old(times), now)
    {
      var cutoff := now - WINDOW;
      while times != [] && times[0] < cutoff
        invariant DropOld(times, cutoff) == DropOld(old(times), cutoff)
        decreases |times|
      {
        times := times[1..];
      }
      if |times| >= MAX_PUTS {
        return false;
      }
      times := times + [now];
      return true;
    }
  }

  // ----------------------------------------------------------- whole runs

  // The limiter and, as history, every time it admitted.
  datatype Run = Run(times: seq<int>, admitted: seq<int>)

  function RunAll(calls: seq<int>): Run {
    if calls == [] then Run([], []) else
      var r := RunAll(calls[..|calls| - 1]);
      var now := calls[|calls| - 1];
      Run(After(r.times, now), if Allowed(r.times, now) then r.admitted + [now] else r.admitted)
  }

  predicate Ordered(s: seq<int>) {
    forall i, j :: 0 <= i < j < |s| ==> s[i] <= s[j]
  }

  // How many of the times lie in the closed interval from lo to hi.
  function Within(s: seq<int>, lo: int, hi: int): nat {
    if s == [] then 0
    else Within(s[..|s| - 1], lo, hi) + (if lo <= s[|s| - 1] <= hi then 1 else 0)
  }

  lemma WithinMore(s: seq<int>, t: int, lo: int, hi: int)
    ensures Within(s + [t], lo, hi) == Within(s, lo, hi) + (if lo <= t <= hi then 1 else 0)
  {
    assert (s + [t])[..|s|] == s;
  }

  // In an ordered list, what lies from lo on is a suffix.
  lemma {:induction false} WithinSuffix(s: seq<int>, n: nat, lo: int, hi: int)
    requires n <= |s| && (forall i :: 0 <= i < n ==> s[i] < lo)
    requires forall i :: n <= i < |s| ==> lo <= s[i] <= hi
    ensures Within(s, lo, hi) == |s| - n
  {
    if s != [] {
      var front := s[..|s| - 1];
      if n == |s| {
        WithinSuffix(front, n - 1, lo, hi);
      } else {
        WithinSuffix(front, n, lo, hi);
      }
    }
  }

  // The kept times are the newest admitted ones, and whatever was dropped is out
  // of reach of every later call.
  ghost predicate Inv(r: Run, last: int) {
    && Ordered(r.admitted) && (forall i :: 0 <= i < |r.admitted| ==> r.admitted[i] <= last)
    && |r.times| <= |r.admitted| && r.times == r.admitted[|r.admitted| - |r.times|..]
    && forall i :: 0 <= i < |r.admitted| - |r.times| ==> r.admitted[i] < last - WINDOW
  }

  lemma {:induction false} DropOldFrom(s: seq<int>, n: nat, cutoff: int) returns (k: nat)
    requires Ordered(s) && n <= |s|
    ensures n <= k <= |s| && DropOld(s[n..], cutoff) == s[k..]
    ensures forall i :: n <= i < k ==> s[i] < cutoff
    ensures forall i :: k <= i < |s| ==> s[i] >= cutoff
    decreases |s| - n
  {
    hide Ordered, DropOld;
    DropOldStep(s, n, cutoff);
    if n < |s| && s[n] < cutoff {
      k := DropOldFrom(s, n + 1, cutoff);
    } else {
      k := n;
      AllFrom(s, n, cutoff);
    }
  }

  lemma DropOldStep(s: seq<int>, n: nat, cutoff: int)
    requires n <= |s|
    ensures DropOld(s[n..], cutoff) == if n < |s| && s[n] < cutoff then DropOld(s[n + 1..], cutoff) else s[n..]
  {
    if n < |s| {
      assert s[n..][1..] == s[n + 1..];
    }
  }

  lemma AllFrom(s: seq<int>, n: nat, cutoff: int)
    requires Ordered(s) && n <= |s| && (n < |s| ==> s[n] >= cutoff)
    ensures forall i :: n <= i < |s| ==> s[i] >= cutoff
  {
  }

  lemma PrunedIsRecent(r: Run, last: int, now: int)
    requires Inv(r, last) && last <= now
    ensures |DropOld(r.times, now - WINDOW)| == Within(r.admitted, now - WINDOW, now)
    ensures Inv(Run(DropOld(r.times, now - WINDOW), r.admitted), now)
  {
    hide DropOld, Within, Ordered, Inv;
    var k := PrunedFrom(r, last, now);
    WithinSuffix(r.admitted, k, now - WINDOW, now);
    SuffixKeepsInv(r, last, now, k);
  }

  lemma PrunedFrom(r: Run, last: int, now: int) returns (k: nat)
    requires Inv(r, last) && last <= now
    ensures k <= |r.admitted| && DropOld(r.times, now - WINDOW) == r.admitted[k..]
    ensures forall i :: 0 <= i < k ==> r.admitted[i] < now - WINDOW
    ensures forall i :: k <= i < |r.admitted| ==> now - WINDOW <= r.admitted[i] <= now
  {
    hide DropOld, Ordered, Inv;
    var n := KeptFrom(r, last, now);
    k := DropOldFrom(r.admitted, n, now - WINDOW);
  }

  lemma KeptFrom(r: Run, last: int, now: int) returns (n: nat)
    requires Inv(r, last) && last <= now
    ensures Ordered(r.admitted) && n <= |r.admitted| && r.times == r.admitted[n..]
    ensures forall i :: 0 <= i < n ==> r.admitted[i] < now - WINDOW
    ensures forall i :: 0 <= i < |r.admitted| ==> r.admitted[i] <= now
  {
    hide Ordered;
    n := |r.admitted| - |r.times|;
  }

  lemma SuffixKeepsInv(r: Run, last: int, now: int, k: nat)
    requires Inv(r, last) && last <= now && k <= |r.admitted|
    requires forall i :: 0 <= i < k ==> r.admitted[i] < now - WINDOW
    ensures Inv(Run(r.admitted[k..], r.admitted), now)
  {
    hide Ordered;
  }

  lemma CallKeepsInv(r: Run, last: int, now: int)
    requires Inv(r, last) && last <= now
    ensures Inv(Run(After(r.times, now), if Allowed(r.times, now) then r.admitted + [now] else r.admitted), now)
  {
    PrunedIsRecent(r, last, now);
    AdmitKeepsInv(DropOld(r.times, now - WINDOW), r.admitted, now);
  }

  lemma AdmitKeepsInv(times: seq<int>, admitted: seq<int>, now: int)
    requires Inv(Run(times, admitted), now)
    ensures Inv(Run(times + [now], admitted + [now]), now)
  {
    var n := |admitted| - |times|;
    assert (admitted + [now])[n..] == admitted[n..] + [now];
  }

  lemma {:induction false} RunKeepsInv(calls: seq<int>)
    requires Ordered(calls) && calls != []
    ensures Inv(RunAll(calls), calls[|calls| - 1])
  {
    var front, now := calls[..|calls| - 1], calls[|calls| - 1];
    if front == [] {
      CallKeepsInv(Run([], []), now, now);
    } else {
      RunKeepsInv(front);
      CallKeepsInv(RunAll(front), front[|front| - 1], now);
    }
  }

  // A PUT is admitted exactly if fewer than the limit were admitted in the 60
  // seconds up to it.
  lemma AdmittedIff(calls: seq<int>, now: int)
    requires Ordered(calls + [now])
    ensures Allowed(RunAll(calls).times, now) <==> Within(RunAll(calls).admitted, now - WINDOW, now) < MAX_PUTS
  {
    if calls == [] {
      assert DropOld([], now - WINDOW) == [];
    } else {
      assert (calls + [now])[|calls| - 1] == calls[|calls| - 1] && (calls + [now])[|calls|] == now;
      OrderedPrefix(calls, now);
      RunKeepsInv(calls);
      PrunedIsRecent(RunAll(calls), calls[|calls| - 1], now);
    }
  }

  // In clock order the limiter remembers exactly the admitted times of the last 60
  // seconds before the newest call, that call included.
  lemma RemembersIff(calls: seq<int>, i: nat)
    requires Ordered(calls) && calls != [] && i < |RunAll(calls).admitted|
    ensures var (r, now) := (RunAll(calls), calls[|calls| - 1]);
            && |r.times| <= |r.admitted| && r.times == r.admitted[|r.admitted| - |r.times|..]
            && (i >= |r.admitted| - |r.times| <==> r.admitted[i] >= now - WINDOW)
  {
    hide RunAll;
    RunKeepsInv(calls);
    OldestIsRecent(calls);
    var r := RunAll(calls);
    if i >= |r.admitted| - |r.times| {
      assert r.times[0] == r.admitted[|r.admitted| - |r.times|];
    }
  }

  lemma OldestIsRecent(calls: seq<int>)
    requires calls != []
    ensures var times := RunAll(calls).times; times != [] ==> times[0] >= calls[|calls| - 1] - WINDOW
  {
    hide DropOld;
  }

  lemma OrderedPrefix(calls: seq<int>, now: int)
    requires Ordered(calls + [now])
    ensures Ordered(calls)
  {
    var all := calls + [now];
    forall i, j | 0 <= i < j < |calls|
      ensures calls[i] <= calls[j]
    {
      assert all[i] <= all[j];
    }
  }

  // ----------------------------------------------------------- the limit kept

  // No call reads the clock more than d before a call that took the lock earlier.
  predicate NearlyOrdered(calls: seq<int>, d: nat) {
    forall i, j :: 0 <= i < j < |calls| ==> calls[i] <= calls[j] + d
  }

  // Whatever was dropped was too old for some call made by now.
  ghost predicate DroppedOld(r: Run, calls: seq<int>) {
    && |r.times| <= |r.admitted| && r.times == r.admitted[|r.admitted| - |r.times|..]
    && forall i :: 0 <= i < |r.admitted| - |r.times| ==> TooOld(r.admitted[i], calls)
  }

  ghost predicate TooOld(t: int, calls: seq<int>) {
    exists c :: c in calls && t < c - WINDOW
  }

  lemma DropMore(r: Run, calls: seq<int>, now: int)
    requires DroppedOld(r, calls)
    ensures DroppedOld(Run(DropOld(r.times, now - WINDOW), r.admitted), calls + [now])
  {
    hide TooOld, DropOld;
    var recent := DropOld(r.times, now - WINDOW);
    var (n, m) := (|r.admitted| - |r.times|, |r.times| - |recent|);
    SuffixOfSuffix(r.admitted, n, m);
    assert recent == r.admitted[n + m..];
    forall i | 0 <= i < n + m
      ensures TooOld(r.admitted[i], calls + [now])
    {
      if i < n {
        StillTooOld(r.admitted[i], calls, now);
      } else {
        NowTooOld(r.times[i - n], calls, now);
      }
    }
  }

  lemma SuffixOfSuffix(s: seq<int>, n: nat, m: nat)
    requires n + m <= |s|
    ensures s[n..][m..] == s[n + m..]
    ensures forall i :: n <= i < n + m ==> s[i] == s[n..][i - n]
  {
  }

  lemma StillTooOld(t: int, calls: seq<int>, now: int)
    requires TooOld(t, calls)
    ensures TooOld(t, calls + [now])
  {
    var c :| c in calls && t < c - WINDOW;
    assert c in calls + [now];
  }

  lemma NowTooOld(t: int, calls: seq<int>, now: int)
    requires t < now - WINDOW
    ensures TooOld(t, calls + [now])
  {
    assert now in calls + [now];
  }

  lemma {:induction false} RunDropsOld(calls: seq<int>)
    ensures DroppedOld(RunAll(calls), calls)
  {
    hide DropOld, TooOld;
    if calls != [] {
      var front, now := calls[..|calls| - 1], calls[|calls| - 1];
      assert calls == front + [now];
      RunDropsOld(front);
      DropMore(RunAll(front), front, now);
      AdmitDropsOld(DropOld(RunAll(front).times, now - WINDOW), RunAll(front).admitted, calls, now);
    }
  }

  lemma AdmitDropsOld(times: seq<int>, admitted: seq<int>, calls: seq<int>, now: int)
    requires DroppedOld(Run(times, admitted), calls)
    ensures DroppedOld(Run(times + [now], admitted + [now]), calls)
  {
    hide TooOld;
    var n := |admitted| - |times|;
    assert (admitted + [now])[n..] == admitted[n..] + [now];
  }

  // What lies before lo does not count.
  lemma {:induction false} WithinRest(s: seq<int>, n: nat, lo: int, hi: int)
    requires n <= |s| && forall i :: 0 <= i < n ==> s[i] < lo
    ensures Within(s, lo, hi) <= |s| - n
  {
    if s != [] {
      WithinRest(s[..|s| - 1], if n == |s| then n - 1 else n, lo, hi);
    }
  }

  // What a call out of order by at most d still remembers covers the 60 seconds
  // less d that end at it.
  lemma RemembersEnough(calls: seq<int>, now: int, d: nat, lo: int)
    requires NearlyOrdered(calls + [now], d) && now <= lo + WINDOW - d
    ensures Within(RunAll(calls).admitted, lo, lo + WINDOW - d) <= |DropOld(RunAll(calls).times, now - WINDOW)|
  {
    hide DropOld, Within, RunAll;
    RunDropsOld(calls);
    var r := RunAll(calls);
    DropMore(r, calls, now);
    var recent := DropOld(r.times, now - WINDOW);
    var k := |r.admitted| - |recent|;
    forall i | 0 <= i < k
      ensures r.admitted[i] < lo
    {
      assert TooOld(r.admitted[i], calls + [now]);
      var c :| c in calls + [now] && r.admitted[i] < c - WINDOW;
      AtMostLater(calls, now, d, c);
    }
    WithinRest(r.admitted, k, lo, lo + WINDOW - d);
  }

  lemma AtMostLater(calls: seq<int>, now: int, d: nat, c: int)
    requires NearlyOrdered(calls + [now], d) && c in calls + [now]
    ensures c <= now + d
  {
    var all := calls + [now];
    var i :| 0 <= i < |all| && all[i] == c;
    assert all[|calls|] == now;
  }

  lemma NearlyOrderedPrefix(calls: seq<int>, now: int, d: nat)
    requires NearlyOrdered(calls + [now], d)
    ensures NearlyOrdered(calls, d)
  {
    var all := calls + [now];
    forall i, j | 0 <= i < j < |calls|
      ensures calls[i] <= calls[j] + d
    {
      assert all[i] <= all[j] + d;
    }
  }

  // When calls take the lock out of clock order by at most d, no closed interval
  // of 60 seconds less d, wherever it lies, holds more than the limit.
  lemma {:induction false} NeverMoreThanLimitNearly(calls: seq<int>, d: nat, lo: int)
    requires NearlyOrdered(calls, d)
    ensures Within(RunAll(calls).admitted, lo, lo + WINDOW - d) <= MAX_PUTS
  {
    hide DropOld, Within, RunAll, NearlyOrdered;
    if calls == [] {
      NoCalls(lo, lo + WINDOW - d);
    } else {
      var front, now := calls[..|calls| - 1], calls[|calls| - 1];
      var r := RunAll(front);
      assert calls == front + [now];
      OneMoreCall(front, now);
      NearlyOrderedPrefix(front, now, d);
      NeverMoreThanLimitNearly(front, d, lo);
      WithinMore(r.admitted, now, lo, lo + WINDOW - d);
      if Allowed(r.times, now) && now <= lo + WINDOW - d {
        RemembersEnough(front, now, d, lo);
      }
    }
  }

  // When they take it in clock order, no closed interval of 60 seconds does.
  lemma NeverMoreThanLimit(calls: seq<int>, lo: int)
    requires Ordered(calls)
    ensures Within(RunAll(calls).admitted, lo, lo + WINDOW) <= MAX_PUTS
  {
    hide Within, RunAll;
    NeverMoreThanLimitNearly(calls, 0, lo);
  }

  // ---------------------------------------------- locks out of clock order

  function Zeros(n: nat): (s: seq<int>)
    ensures |s| == n && forall i :: 0 <= i < n ==> s[i] == 0
  {
    if n == 0 then [] else Zeros(n - 1) + [0]
  }

  lemma {:induction false} ZerosAdmitted(n: nat)
    requires n <= MAX_PUTS
    ensures RunAll(Zeros(n)) == Run(Zeros(n), Zeros(n))
    ensures Within(Zeros(n), 0, WINDOW) == n
  {
    hide DropOld, RunAll, Within;
    if n == 0 {
      NoCalls(0, WINDOW);
    } else {
      ZerosAdmitted(n - 1);
      OneMoreCall(Zeros(n - 1), 0);
      NoneDropped(Zeros(n - 1), -WINDOW);
      WithinMore(Zeros(n - 1), 0, 0, WINDOW);
    }
  }

  lemma NoCalls(lo: int, hi: int)
    ensures RunAll([]) == Run([], []) && Within([], lo, hi) == 0
  {
  }

  // The hypothesis is needed: a call that read the clock at 60 seconds but took
  // the lock after one that read a nanosecond more is let through as number 501.
  lemma OutOfOrderExceeds()
    ensures var calls := Zeros(500) + [WINDOW + 1] + [WINDOW];
            NearlyOrdered(calls, 1) && Within(RunAll(calls).admitted, 0, WINDOW) == MAX_PUTS + 1
  {
    hide DropOld, Within, RunAll;
    var early := Zeros(500);
    ZerosAdmitted(500);
    AllDropped(early, 1);
    assert DropOld(early, 1) == [];
    OneMoreCall(early, WINDOW + 1);
    NoneDropped([WINDOW + 1], 0);
    OneMoreCall(early + [WINDOW + 1], WINDOW);
    WithinMore(early + [WINDOW + 1], WINDOW, 0, WINDOW);
    WithinMore(early, WINDOW + 1, 0, WINDOW);
  }

  lemma OneMoreCall(calls: seq<int>, now: int)
    ensures var r := RunAll(calls);
            RunAll(calls + [now])
            == Run(After(r.times, now), if Allowed(r.times, now) then r.admitted + [now] else r.admitted)
  {
    assert (calls + [now])[..|calls|] == calls;
  }

  lemma NoneDropped(times: seq<int>, cutoff: int)
    requires times != [] ==> times[0] >= cutoff
    ensures DropOld(times, cutoff) == times
  {
  }

  lemma {:induction false} AllDropped(s: seq<int>, cutoff: int)
    requires forall i :: 0 <= i < |s| ==> s[i] < cutoff
    ensures DropOld(s, cutoff) == []
  {
    if s != [] {
      AllDropped(s[1..], cutoff);
    }
  }
}
