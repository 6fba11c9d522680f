/** The sliding-window login limiter of admin_panel/server.py.  Requests are handled one after another
    and the clock does not go back. */
module LoginLimiter {
  const MAX_ATTEMPTS := 10
  const WINDOW := 900.0
  const LOCKOUT := 300.0

  /** The failures less than a window old. */
  function Recent(failures: seq<real>, now: real): seq<real> {
    if failures == [] then []
    else
      var n := |failures| - 1;
      Recent(failures[..n], now) + (if now - failures[n] < WINDOW then [failures[n]] else [])
  }

  function Least(s: seq<real>): (least: real)
    requires s != []
    ensures least in s && forall t | t in s :: least <= t
  {
    if |s| == 1 then s[0]
    else
      var n := |s| - 1;
      var rest := Least(s[..n]);
      assert s == s[..n] + [s[n]];
      if s[n] < rest then s[n] else rest
  }

  predicate Sorted(log: seq<real>) { forall i, j | 0 <= i < j < |log| :: log[i] <= log[j] }

  /** Any eleven failures in a row take at least a window, so no window holds more than ten. */
  ghost predicate Spaced(log: seq<real>) {
    forall i, j | 0 <= i < j < |log| && j == i + MAX_ATTEMPTS :: log[j] - log[i] >= WINDOW
  }

  // ------------------------------------------------------------------ windows

  /** What has left the window can be forgotten. */
  lemma {:induction false} RecentAgain(log: seq<real>, now: real, later: real)
    requires now <= later
    ensures Recent(Recent(log, now), later) == Recent(log, later)
  {
    if log != [] {
      var n := |log| - 1;
      RecentAgain(log[..n], now, later);
      if now - log[n] < WINDOW {
        assert (Recent(log[..n], now) + [log[n]])[..|Recent(log[..n], now)|] == Recent(log[..n], now);
      } else {
        assert Recent(log, now) == Recent(log[..n], now);
      }
    }
  }

  lemma RecentAppend(log: seq<real>, t: real, now: real)
    ensures Recent(log + [t], now) == Recent(log, now) + (if now - t < WINDOW then [t] else [])
  {
  }

  /** In a sorted log the recent failures are the last ones: the k most recent are recent exactly when
      the first of those k is. */
  lemma {:induction false} RecentCount(log: seq<real>, now: real, k: nat)
    requires Sorted(log) && k > 0
    ensures |Recent(log, now)| >= k <==> |log| >= k && now - log[|log| - k] < WINDOW
  {
    if log != [] {
      var n := |log| - 1;
      if k > 1 {
        RecentCount(log[..n], now, k - 1);
        if now - log[n] >= WINDOW { NoneRecent(log[..n], now, log[n]); }
      } else {
        if now - log[n] >= WINDOW { NoneRecent(log[..n], now, log[n]); }
      }
    }
  }

  lemma {:induction false} NoneRecent(log: seq<real>, now: real, last: real)
    requires now - last >= WINDOW && forall i | 0 <= i < |log| :: log[i] <= last
    ensures Recent(log, now) == []
  {
    if log != [] { NoneRecent(log[..|log| - 1], now, last); }
  }

  lemma {:induction false} RecentAreLogged(log: seq<real>, now: real, t: real)
    ensures t in Recent(log, now) <==> t in log && now - t < WINDOW
  {
    if log != [] {
      var n := |log| - 1;
      assert log == log[..n] + [log[n]];
      RecentAreLogged(log[..n], now, t);
    }
  }

  /** When the limit is reached, exactly the ten latest failures are in the window, and the oldest of
      them is the tenth most recent. */
  lemma TenInWindow(log: seq<real>, now: real)
    requires Sorted(log) && Spaced(log) && |Recent(log, now)| >= MAX_ATTEMPTS
    requires forall i | 0 <= i < |log| :: log[i] <= now
    ensures |log| >= MAX_ATTEMPTS && |Recent(log, now)| == MAX_ATTEMPTS
    ensures Least(Recent(log, now)) == log[|log| - MAX_ATTEMPTS]
  {
    RecentCount(log, now, MAX_ATTEMPTS);
    RecentCount(log, now, MAX_ATTEMPTS + 1);
    forall i | 0 <= i < |log| - MAX_ATTEMPTS ensures now - log[i] >= WINDOW {
      assert log[i + MAX_ATTEMPTS] - log[i] >= WINDOW;
    }
    var tenth := log[|log| - MAX_ATTEMPTS];
    var least := Least(Recent(log, now));
    RecentAreLogged(log, now, tenth);
    RecentAreLogged(log, now, least);
    var i :| 0 <= i < |log| && log[i] == least;
    assert i >= |log| - MAX_ATTEMPTS;
  }

  // ------------------------------------------------------------------ what is stored and what happened

  /** From clock on, the stored list answers for the whole log. */
  ghost predicate Tracks(stored: seq<real>, log: seq<real>, clock: real) {
    && Sorted(log) && Spaced(log)
    && (forall i | 0 <= i < |log| :: log[i] <= clock)
    && (forall t | t >= clock :: Recent(stored, t) == Recent(log, t))
  }

  lemma LaterTracks(stored: seq<real>, log: seq<real>, clock: real, now: real)
    requires Tracks(stored, log, clock) && clock <= now
    ensures Tracks(stored, log, now) && Tracks(Recent(stored, now), log, now)
  {
    forall t | t >= now ensures Recent(Recent(stored, now), t) == Recent(log, t) {
      RecentAgain(stored, now, t);
    }
  }

  function Of(m: map<string, seq<real>>, ip: string): seq<real> { if ip in m then m[ip] else [] }

  ghost predicate AllTrack(failures: map<string, seq<real>>, log: map<string, seq<real>>, clock: real) {
    forall ip :: Tracks(Of(failures, ip), Of(log, ip), clock)
  }

  /** Forgetting what one client's window has left behind. */
  lemma KeptTrack(failures: map<string, seq<real>>, log: map<string, seq<real>>, clock: real, ip: string, now: real)
    requires AllTrack(failures, log, clock) && clock <= now
    ensures AllTrack(failures[ip := Recent(Of(failures, ip), now)], log, now)
    ensures Recent(Of(failures, ip), now) == Recent(Of(log, ip), now)
  {
    assert Tracks(Of(failures, ip), Of(log, ip), clock);
    var failures' := failures[ip := Recent(Of(failures, ip), now)];
    forall c ensures Tracks(Of(failures', c), Of(log, c), now) {
      LaterTracks(Of(failures, c), Of(log, c), clock, now);
    }
  }

  lemma FailedTrack(failures: map<string, seq<real>>, log: map<string, seq<real>>, clock: real, ip: string, now: real)
    requires AllTrack(failures, log, clock) && clock <= now && |Recent(Of(log, ip), now)| < MAX_ATTEMPTS
    ensures AllTrack(failures[ip := Of(failures, ip) + [now]], log[ip := Of(log, ip) + [now]], now)
  {
    var failures', log' := failures[ip := Of(failures, ip) + [now]], log[ip := Of(log, ip) + [now]];
    forall c ensures Tracks(Of(failures', c), Of(log', c), now) {
      assert Tracks(Of(failures, c), Of(log, c), clock);
      if c == ip {
        FailureTracks(Of(failures, c), Of(log, c), clock, now);
      } else {
        LaterTracks(Of(failures, c), Of(log, c), clock, now);
      }
    }
  }

  lemma ClearedTrack(failures: map<string, seq<real>>, log: map<string, seq<real>>, clock: real, ip: string)
    requires AllTrack(failures, log, clock)
    ensures AllTrack(failures - {ip}, log - {ip}, clock)
  {
    forall c ensures Tracks(Of(failures - {ip}, c), Of(log - {ip}, c), clock) {
      assert Tracks(Of(failures, c), Of(log, c), clock);
    }
  }

  /** When a request at time now is refused: for a quarter of an hour after the tenth most recent failure. */
  predicate Blocked(log: seq<real>, now: real) {
    |log| >= 10 && now < log[|log| - 10] + 900.0
  }

  /** A failure that was not refused keeps the failures spaced. */
  lemma FailureSpaced(log: seq<real>, now: real)
    requires Sorted(log) && Spaced(log) && |Recent(log, now)| < MAX_ATTEMPTS
    requires forall i | 0 <= i < |log| :: log[i] <= now
    ensures Sorted(log + [now]) && Spaced(log + [now])
  {
    RecentCount(log, now, MAX_ATTEMPTS);
  }

  lemma FailureTracks(stored: seq<real>, log: seq<real>, clock: real, now: real)
    requires Tracks(stored, log, clock) && clock <= now && |Recent(log, now)| < MAX_ATTEMPTS
    ensures Tracks(stored + [now], log + [now], now)
  {
    hide Sorted, Spaced;
    FailureSpaced(log, now);
    forall t | t >= now ensures Recent(stored + [now], t) == Recent(log + [now], t) {
      RecentAppend(stored, now, t);
      RecentAppend(log, now, t);
    }
  }

  /** Counting the window refuses exactly the blocked requests, and the oldest failure it counts is the
      tenth most recent. */
  lemma RefusalExact(stored: seq<real>, log: seq<real>, clock: real, now: real)
    requires Tracks(stored, log, clock) && clock <= now
    ensures |Recent(stored, now)| >= MAX_ATTEMPTS <==> Blocked(log, now)
    ensures Blocked(log, now) ==> |Recent(stored, now)| == MAX_ATTEMPTS
                                  && Least(Recent(stored, now)) == log[|log| - 10]
  {
    RecentCount(log, now, MAX_ATTEMPTS);
    if Blocked(log, now) { TenInWindow(log, now); }
  }

  datatype Outcome = Refused(lockedUntil: real) | WrongPassword | LoggedIn

  class Limiter {
    var failures: map<string, seq<real>>
    /** Every failure recorded since the client was last cleared. */
    ghost var log: map<string, seq<real>>
    ghost var clock: real

    ghost predicate Valid()
      reads this
    {
      AllTrack(failures, log, clock)
    }

    constructor (now: real)
      ensures Valid() && clock == now && failures == map[] && log == map[]
    {
      failures, log, clock := map[], map[], now;
    }

    /** _check_login_rate_limit (lines 69-83).  The test of line 78 is always true. */
    method CheckRateLimit(ip: string, now: real) returns (refused: bool, lockedUntil: real)
      requires Valid() && clock <= now
      modifies this
      ensures Valid() && clock == now && log == old(log)
      ensures refused <==> |Recent(Of(log, ip), now)| >= MAX_ATTEMPTS
      ensures refused <==> Blocked(Of(log, ip), now)
      ensures refused ==> lockedUntil == Of(log, ip)[|Of(log, ip)| - 10] + 900.0 + 300.0
    {
      assert Tracks(Of(failures, ip), Of(log, ip), clock);
      RefusalExact(Of(failures, ip), Of(log, ip), clock, now);
      KeptTrack(failures, log, clock, ip, now);
      var kept := Recent(Of(failures, ip), now);
      failures := failures[ip := kept];
      clock := now;
      refused, lockedUntil := false, 0.0;
      if |kept| >= MAX_ATTEMPTS {
        var oldest := Least(kept);
        lockedUntil := oldest + WINDOW + LOCKOUT;
        assert now < lockedUntil;
        refused := now < lockedUntil;
      }
    }

    /** _record_login_failure (lines 85-86).  After a check that let the request through it keeps the
        failures spaced. */
    method RecordFailure(ip: string, now: real)
      requires Valid() && clock <= now
      modifies this
      ensures clock == now && (|Recent(Of(old(log), ip), now)| < MAX_ATTEMPTS ==> Valid())
      ensures log == old(log)[ip := Of(old(log), ip) + [now]]
      ensures failures == old(failures)[ip := Of(old(failures), ip) + [now]]
    {
      if |Recent(Of(log, ip), now)| < MAX_ATTEMPTS { FailedTrack(failures, log, clock, ip, now); }
      failures := failures[ip := Of(failures, ip) + [now]];
      log := log[ip := Of(log, ip) + [now]];
      clock := now;
    }

    method ClearState(ip: string)
      requires Valid()
      modifies this
      ensures Valid() && clock == old(clock)
      ensures failures == old(failures) - {ip} && log == old(log) - {ip}
    {
      ClearedTrack(failures, log, clock, ip);
      failures := failures - {ip};
      log := log - {ip};
    }

    /** api_login (lines 264-281): checked at one time, and the failure recorded when the password has
        been verified. */
    method Login(ip: string, correct: bool, now: real, verified: real) returns (outcome: Outcome)
      requires Valid() && clock <= now <= verified
      modifies this
      ensures Valid() && clock <= verified
      ensures outcome.Refused? <==> Blocked(Of(old(log), ip), now)
      ensures outcome.Refused? ==>
                && clock == now && log == old(log)
                && outcome.lockedUntil == Of(log, ip)[|Of(log, ip)| - 10] + 900.0 + 300.0
      ensures outcome.WrongPassword? ==> !correct && log == old(log)[ip := Of(old(log), ip) + [verified]]
      ensures outcome.LoggedIn? ==> correct && log == old(log) - {ip}
    {
      var refused, lockedUntil := CheckRateLimit(ip, now);
      if refused { return Refused(lockedUntil); }
      if !correct {
        RecentShrinks(Of(log, ip), now, verified);
        RecordFailure(ip, verified);
        return WrongPassword;
      }
      ClearState(ip);
      return LoggedIn;
    }
  }

  lemma {:induction false} RecentShrinks(log: seq<real>, now: real, later: real)
    requires now <= later
    ensures |Recent(log, later)| <= |Recent(log, now)|
  {
    if log != [] { RecentShrinks(log[..|log| - 1], now, later); }
  }

  /** A refused client is let in again at one moment it could work out, not before and not later: a window
      after its tenth most recent failure.  The moment it is told is a lockout later than that. */
  method RefusedUntil(l: Limiter, ip: string, now: real, later: real) returns (first: Outcome, second: Outcome)
    requires l.Valid() && l.clock <= now <= later && Blocked(Of(l.log, ip), now)
    modifies l
    ensures l.Valid()
    ensures first.Refused? && now < first.lockedUntil - 300.0 <= now + 900.0
    ensures second.Refused? <==> later < first.lockedUntil - 300.0
  {
    first := l.Login(ip, true, now, now);
    second := l.Login(ip, true, later, later);
  }

  /** No window of 900 seconds, wherever it lies, holds more than ten recorded failures. */
  lemma {:induction false} AtMostTen(log: seq<real>, from: real)
    requires Sorted(log) && Spaced(log)
    ensures |Within(log, from)| <= 10
  {
    if Within(log, from) != [] {
      var i := WithinIsRun(log, from);
      if i + MAX_ATTEMPTS < |log| { assert log[i + MAX_ATTEMPTS] - log[i] >= WINDOW; }
    }
  }

  /** So it is for every client of a limiter in whatever state its requests have brought it to. */
  lemma LimiterAtMostTen(l: Limiter, ip: string, from: real)
    requires l.Valid()
    ensures |Within(Of(l.log, ip), from)| <= 10
  {
    assert Tracks(Of(l.failures, ip), Of(l.log, ip), l.clock);
    AtMostTen(Of(l.log, ip), from);
  }

  function Within(log: seq<real>, from: real): seq<real> {
    if log == [] then []
    else
      var n := |log| - 1;
      Within(log[..n], from) + (if from <= log[n] < from + 900.0 then [log[n]] else [])
  }

  /** The failures of a window stand next to each other in a sorted log. */
  lemma {:induction false} WithinIsRun(log: seq<real>, from: real) returns (i: nat)
    requires Sorted(log) && Within(log, from) != []
    ensures i + |Within(log, from)| <= |log|
    ensures Within(log, from) == log[i..i + |Within(log, from)|]
    ensures from <= log[i] && log[i + |Within(log, from)| - 1] < from + WINDOW
    ensures i + |Within(log, from)| == |log| || log[i + |Within(log, from)|] >= from + WINDOW
  {
    var n := |log| - 1;
    if Within(log[..n], from) != [] {
      i := WithinIsRun(log[..n], from);
    } else {
      i := n;
    }
  }
}