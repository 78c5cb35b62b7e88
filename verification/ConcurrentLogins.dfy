/**
 * Logins around the throttle: the check before the password comparison and the record after it are
 * separated by awaits, so several attempts on one account can be in flight.
 */
module ConcurrentLogins {
  import opened LoginThrottle

  /** The account side of the throttle, and per account the attempts that passed the check. */
  datatype State = Logins(throttle: LoginThrottle.State, inFlight: map<string, nat>) {
    function InFlight(account: string): nat {
      if account in inFlight then inFlight[account] else 0
    }

    function Counted(account: string): nat {
      |throttle.m.Window(account)|
    }
  }

  /**
   * Begin: `assertAllowed` looks at the account and at the address, prunes both, and lets the attempt in
   * if neither refuses. The ends come after the comparison; `EndError` is a database or hash call that throws.
   */
  datatype Action =
    | Begin(account: string, addressAllows: bool)
    | EndFailed(account: string)
    | EndOk(account: string)
    | EndError(account: string)
    | Wait(ms: nat)

  predicate Refused(s: State, account: string) {
    RetryAfterMs(s.throttle.m, account, MAX_FAILURES_PER_ACCOUNT, s.throttle.now) > 0
  }

  predicate Enabled(s: State, a: Action) {
    match a
    case Begin(_, _) => true
    case EndFailed(account) => s.InFlight(account) > 0
    case EndOk(account) => s.InFlight(account) > 0
    case EndError(account) => s.InFlight(account) > 0
    case Wait(_) => true
  }

  /** The same state `ms` later. */
  function Later(s: State, ms: nat): State {
    s.(throttle := s.throttle.(now := s.throttle.now + ms))
  }

  function Apply(s: State, a: Action): State
    requires Enabled(s, a)
  {
    match a
    case Begin(account, addressAllows) =>
      var s1 := s.(throttle := LoginThrottle.Apply(s.throttle, Check(account)));
      if Refused(s, account) || !addressAllows then s1 else s1.(inFlight := s.inFlight[account := s.InFlight(account) + 1])
    case EndFailed(account) =>
      Logins(LoginThrottle.Apply(s.throttle, Fail(account)), s.inFlight[account := s.InFlight(account) - 1])
    case EndOk(account) =>
      Logins(LoginThrottle.Apply(s.throttle, Succeed(account)), s.inFlight[account := s.InFlight(account) - 1])
    case EndError(account) => s.(inFlight := s.inFlight[account := s.InFlight(account) - 1])
    case Wait(ms) => Later(s, ms)
  }

  function Fresh(now: int): State { Logins(LoginThrottle.Fresh(now), map[]) }

  predicate IsRun(s: State, run: seq<Action>)
    decreases |run|
  {
    run == [] || (Enabled(s, run[0]) && IsRun(Apply(s, run[0]), run[1..]))
  }

  function After(s: State, run: seq<Action>): State
    requires IsRun(s, run)
    decreases |run|
  {
    if run == [] then s else After(Apply(s, run[0]), run[1..])
  }

  /** At no point of the run are more than `k` attempts on the account in flight. */
  predicate AtMostInFlight(s: State, run: seq<Action>, account: string, k: nat)
    requires IsRun(s, run)
    decreases |run|
  {
    s.InFlight(account) <= k && (run == [] || AtMostInFlight(Apply(s, run[0]), run[1..], account, k))
  }

  lemma StepKeepsThrottle(s: State, a: Action)
    requires LoginThrottle.Inv(s.throttle) && Enabled(s, a)
    ensures LoginThrottle.Inv(Apply(s, a).throttle)
  {
    match a
    case Begin(account, _) => LoginThrottle.StepKeepsInv(s.throttle, Check(account));
    case EndFailed(account) => LoginThrottle.StepKeepsInv(s.throttle, Fail(account));
    case EndOk(account) => LoginThrottle.StepKeepsInv(s.throttle, Succeed(account));
    case EndError(_) =>
    case Wait(ms) => LoginThrottle.StepKeepsInv(s.throttle, Tick(ms));
  }

  /** The attempt is let in: neither the account nor the address refuses it. */
  predicate LetsIn(s: State, a: Action, account: string) {
    a == Begin(account, true) && !Refused(s, account)
  }

  predicate EndsAttempt(a: Action, account: string) {
    a == EndFailed(account) || a == EndOk(account) || a == EndError(account)
  }

  /** An attempt is in flight from being let in to its one end; time only passes in waits. */
  lemma FlightsExactly(s: State, a: Action, account: string)
    ensures Enabled(s, a) <==> forall k | EndsAttempt(a, k) :: s.InFlight(k) > 0
    ensures Enabled(s, a) ==>
      && Apply(s, a).InFlight(account) ==
           s.InFlight(account) + (if LetsIn(s, a, account) then 1 else 0) - (if EndsAttempt(a, account) then 1 else 0)
      && Apply(s, a).throttle.now == s.throttle.now + (if a.Wait? then a.ms else 0)
    ensures Fresh(s.throttle.now).InFlight(account) == 0
  {
    match a
    case Begin(_, _) =>
    case EndFailed(k) => assert EndsAttempt(a, k);
    case EndOk(k) => assert EndsAttempt(a, k);
    case EndError(k) => assert EndsAttempt(a, k);
    case Wait(_) =>
  }

  // ----- how other keys fare when one key is recorded -----

  /** What becomes of a window that only loses failures: it stays, is pruned, or goes. */
  predicate Shrunk(after: seq<int>, before: seq<int>, now: int) {
    after == before || after == Live(before, now) || after == []
  }

  lemma ShrunkCounts(after: seq<int>, before: seq<int>, now: int)
    requires Shrunk(after, before, now)
    ensures |after| <= |before| && |Live(after, now)| <= |Live(before, now)|
  {
    LiveLater(before, now, now);
  }

  lemma ShrunkTwice(w2: seq<int>, w1: seq<int>, w: seq<int>, now: int)
    requires Shrunk(w2, w1, now) && Shrunk(w1, w, now)
    ensures Shrunk(w2, w, now)
  {
    LiveLater(w, now, now);
  }

  lemma {:induction false} PruneAllShrinks(m: Tracked, keys: seq<string>, now: int, other: string)
    ensures Shrunk(PruneAll(m, keys, now).Window(other), m.Window(other), now)
    decreases |keys|
  {
    if keys != [] {
      PruneWindow(m, keys[0], now, other);
      PruneAllShrinks(Prune(m, keys[0], now), keys[1..], now, other);
      ShrunkTwice(PruneAll(m, keys, now).Window(other), Prune(m, keys[0], now).Window(other), m.Window(other), now);
    }
  }

  lemma {:induction false} DropShrinks(m: Tracked, other: string)
    ensures DropOldest(m).Window(other) == m.Window(other) || DropOldest(m).Window(other) == []
    decreases |m.keys|
  {
    if DropOldest(m) != m {
      DropShrinks(m.Delete(m.keys[0]), other);
    }
  }

  lemma PushShrinksOthers(m: Tracked, key: string, now: int, other: string)
    requires other != key
    ensures Shrunk(Push(m, key, now).Window(other), m.Window(other), now)
    ensures |Push(m, key, now).Window(other)| <= |m.Window(other)|
  {
    var m1 := Recorded(m, key, now);
    RecordedWindow(m, key, now, other);
    PruneAllShrinks(m1, m1.keys, now, other);
    DropShrinks(PruneAll(m1, m1.keys, now), other);
    ShrunkCounts(Push(m, key, now).Window(other), m.Window(other), now);
  }

  /** Failures that count plus attempts in flight never exceed the limit, less one, plus the concurrency. */
  ghost predicate WithinBound(s: State, account: string, k: nat) {
    s.Counted(account) + s.InFlight(account) <= MAX_FAILURES_PER_ACCOUNT - 1 + k
  }

  lemma StepKeepsBound(s: State, a: Action, account: string, k: nat)
    requires LoginThrottle.Inv(s.throttle) && Enabled(s, a) && WithinBound(s, account, k)
    requires Apply(s, a).InFlight(account) <= k
    ensures WithinBound(Apply(s, a), account, k)
  {
    match a
    case Begin(other, _) =>
      PruneWindow(s.throttle.m, other, s.throttle.now, account);
      if other == account {
        RetryAfterRange(s.throttle, account, MAX_FAILURES_PER_ACCOUNT);
      }
    case EndFailed(other) =>
      if other == account {
        RecordedIsKept(s.throttle, account);
      } else {
        PushShrinksOthers(s.throttle.m, other, s.throttle.now, account);
      }
    case EndOk(other) =>
    case EndError(other) =>
    case Wait(ms) =>
  }

  lemma {:induction false} RunKeepsBound(s: State, run: seq<Action>, account: string, k: nat)
    requires LoginThrottle.Inv(s.throttle) && IsRun(s, run) && WithinBound(s, account, k)
    requires AtMostInFlight(s, run, account, k)
    ensures WithinBound(After(s, run), account, k) && LoginThrottle.Inv(After(s, run).throttle)
    decreases |run|
  {
    if run != [] {
      StepKeepsBound(s, run[0], account, k);
      StepKeepsThrottle(s, run[0]);
      RunKeepsBound(Apply(s, run[0]), run[1..], account, k);
    }
  }

  /** With at most `k` attempts in flight, an account's window never holds more than limit - 1 + k failures. */
  lemma ConcurrencyBound(start: int, run: seq<Action>, account: string, k: nat)
    requires IsRun(Fresh(start), run) && AtMostInFlight(Fresh(start), run, account, k)
    ensures After(Fresh(start), run).Counted(account) <= MAX_FAILURES_PER_ACCOUNT - 1 + k
  {
    FreshInv(start);
    RunKeepsBound(Fresh(start), run, account, k);
  }

  // ----- lockouts -----

  /** `recordFailure` answers that this very failure has locked the account. */
  predicate Reports(s: State, a: Action, account: string) {
    a == EndFailed(account) && PushCount(s.throttle.m, account, s.throttle.now) == MAX_FAILURES_PER_ACCOUNT
  }

  function Failures(s: State, account: string): nat {
    |Live(s.throttle.Log(account), s.throttle.now)|
  }

  /** The failures really inside the window rise from below the limit to the limit in this step. */
  predicate Crosses(s: State, a: Action, account: string)
    requires Enabled(s, a)
  {
    Failures(s, account) < MAX_FAILURES_PER_ACCOUNT <= Failures(Apply(s, a), account)
  }

  lemma LogElsewhere(s: State, a: Action, account: string)
    requires LoginThrottle.Inv(s.throttle) && Enabled(s, a)
    ensures a != EndFailed(account) ==> Failures(Apply(s, a), account) <= Failures(s, account)
    ensures a == EndFailed(account) ==> Failures(Apply(s, a), account) == Failures(s, account) + 1
  {
    var log, now := s.throttle.Log(account), s.throttle.now;
    if a == EndFailed(account) {
      LiveConcat(log, [now], now);
      assert Apply(s, a).throttle.Log(account) == log + [now];
    } else if a.Wait? {
      LiveLater(log, now, now + a.ms);
    }
  }

  /** The failures stored for the account that are inside the window. */
  function Stored(s: State, account: string): nat {
    |Live(s.throttle.m.Window(account), s.throttle.now)|
  }

  /** Only a failure of the account itself raises what is stored for it, by one. */
  lemma StoredAfter(s: State, a: Action, account: string)
    requires LoginThrottle.Inv(s.throttle) && Enabled(s, a)
    ensures a == EndFailed(account) ==> Stored(Apply(s, a), account) == Stored(s, account) + 1
    ensures a != EndFailed(account) ==> Stored(Apply(s, a), account) <= Stored(s, account)
  {
    var w, now := s.throttle.m.Window(account), s.throttle.now;
    match a
    case Begin(other, _) =>
      PruneWindow(s.throttle.m, other, now, account);
      LiveLater(w, now, now);
    case EndFailed(other) =>
      if other == account {
        RecordedIsKept(s.throttle, account);
        AllLive(s, account);
      } else {
        PushShrinksOthers(s.throttle.m, other, now, account);
        ShrunkCounts(Push(s.throttle.m, other, now).Window(account), w, now);
      }
    case EndOk(other) =>
    case EndError(_) =>
    case Wait(ms) => LiveLater(w, now, now + ms);
  }

  /** The stored count rises from below the limit to the limit in this step. */
  predicate StoredCrosses(s: State, a: Action, account: string)
    requires Enabled(s, a)
  {
    Stored(s, account) < MAX_FAILURES_PER_ACCOUNT <= Stored(Apply(s, a), account)
  }

  /** For every account, evicted or not: a lockout is reported exactly when the stored count rises from limit - 1 to the limit. */
  lemma ReportIsStoredCrossing(s: State, a: Action, account: string)
    requires LoginThrottle.Inv(s.throttle) && Enabled(s, a)
    ensures Reports(s, a, account) <==> StoredCrosses(s, a, account)
    ensures Reports(s, a, account) ==>
      Stored(s, account) == MAX_FAILURES_PER_ACCOUNT - 1 && Stored(Apply(s, a), account) == MAX_FAILURES_PER_ACCOUNT
  {
    StoredAfter(s, a, account);
    if a == EndFailed(account) {
      RecordedIsKept(s.throttle, account);
    }
  }

  /** A lockout is reported exactly when the real count crosses the limit (the key not being size-evicted). */
  lemma ReportIsCrossing(s: State, a: Action, account: string)
    requires LoginThrottle.Inv(s.throttle) && Enabled(s, a) && account !in s.throttle.evicted
    ensures Reports(s, a, account) <==> Crosses(s, a, account)
  {
    LogElsewhere(s, a, account);
    if a == EndFailed(account) {
      RecordedIsKept(s.throttle, account);
      CountsAgree(s, account);
    }
  }

  /**
   * For every account, evicted or not: a failure is reported and crosses the limit, or neither, exactly
   * if the stored count and the real count agree on being one below the limit before it.
   */
  lemma ReportIsCrossingExactly(s: State, a: Action, account: string)
    requires LoginThrottle.Inv(s.throttle) && Enabled(s, a)
    ensures Reports(s, a, account) <==> a == EndFailed(account) && Stored(s, account) == MAX_FAILURES_PER_ACCOUNT - 1
    ensures Crosses(s, a, account) <==> a == EndFailed(account) && Failures(s, account) == MAX_FAILURES_PER_ACCOUNT - 1
    ensures (Reports(s, a, account) <==> Crosses(s, a, account))
       <==> (a == EndFailed(account) ==>
              (Stored(s, account) == MAX_FAILURES_PER_ACCOUNT - 1 <==> Failures(s, account) == MAX_FAILURES_PER_ACCOUNT - 1))
  {
    LogElsewhere(s, a, account);
    StoredAfter(s, a, account);
    ReportIsStoredCrossing(s, a, account);
  }

  lemma CountsAgree(s: State, account: string)
    requires LoginThrottle.Inv(s.throttle) && account !in s.throttle.evicted
    ensures |Live(s.throttle.m.Window(account), s.throttle.now)| == Failures(s, account)
  {
    assert KeyAgrees(s.throttle.m, s.throttle.log, s.throttle.evicted, account, s.throttle.now);
    TailLive(s.throttle.m.Window(account), s.throttle.Log(account), true, s.throttle.now);
  }

  function ReportCount(s: State, run: seq<Action>, account: string): nat
    requires IsRun(s, run)
    decreases |run|
  {
    if run == [] then 0
    else (if Reports(s, run[0], account) then 1 else 0) + ReportCount(Apply(s, run[0]), run[1..], account)
  }

  function CrossingCount(s: State, run: seq<Action>, account: string): nat
    requires IsRun(s, run)
    decreases |run|
  {
    if run == [] then 0
    else (if Crosses(s, run[0], account) then 1 else 0) + CrossingCount(Apply(s, run[0]), run[1..], account)
  }

  predicate NeverEvicted(s: State, run: seq<Action>, account: string)
    requires IsRun(s, run)
    decreases |run|
  {
    account !in s.throttle.evicted && (run == [] || NeverEvicted(Apply(s, run[0]), run[1..], account))
  }

  /** The number of reported lockouts equals the number of upward crossings of the limit. */
  lemma {:induction false} ReportsAreCrossings(s: State, run: seq<Action>, account: string)
    requires LoginThrottle.Inv(s.throttle) && IsRun(s, run) && NeverEvicted(s, run, account)
    ensures ReportCount(s, run, account) == CrossingCount(s, run, account)
    decreases |run|
  {
    if run != [] {
      ReportIsCrossing(s, run[0], account);
      StepKeepsThrottle(s, run[0]);
      ReportsAreCrossings(Apply(s, run[0]), run[1..], account);
    }
  }

  function StoredCrossingCount(s: State, run: seq<Action>, account: string): nat
    requires IsRun(s, run)
    decreases |run|
  {
    if run == [] then 0
    else (if StoredCrosses(s, run[0], account) then 1 else 0) + StoredCrossingCount(Apply(s, run[0]), run[1..], account)
  }

  /** In every run, for every account: the reported lockouts are the upward crossings of the stored count. */
  lemma {:induction false} ReportsAreStoredCrossings(s: State, run: seq<Action>, account: string)
    requires LoginThrottle.Inv(s.throttle) && IsRun(s, run)
    ensures ReportCount(s, run, account) == StoredCrossingCount(s, run, account)
    decreases |run|
  {
    if run != [] {
      ReportIsStoredCrossing(s, run[0], account);
      StepKeepsThrottle(s, run[0]);
      ReportsAreStoredCrossings(Apply(s, run[0]), run[1..], account);
    }
  }

  /**
   * Serial attempts: a failure that leaves the account locked is exactly one that is reported, it
   * leaves nobody in flight, and every attempt is refused for exactly the value of retry-after; the
   * whole seconds announced are enough.
   */
  lemma SerialLockout(start: int, run: seq<Action>, account: string, ms: nat)
    requires IsRun(Fresh(start), run + [EndFailed(account)])
    requires AtMostInFlight(Fresh(start), run + [EndFailed(account)], account, 1)
    ensures IsRun(Fresh(start), run) && Enabled(After(Fresh(start), run), EndFailed(account))
    ensures var s := After(Fresh(start), run); var s' := Apply(s, EndFailed(account));
      && (Reports(s, EndFailed(account), account) <==> Refused(s', account))
      && s'.InFlight(account) == 0
      && (Refused(s', account) ==>
            (Refused(Later(s', ms), account)
             <==> ms < RetryAfterMs(s'.throttle.m, account, MAX_FAILURES_PER_ACCOUNT, s'.throttle.now)))
      && (Refused(s', account) ==> !Refused(Later(s', 1000 * AnnouncedSeconds(s', account)), account))
  {
    SplitRun(Fresh(start), run, EndFailed(account), account);
    FreshInv(start);
    RunKeepsBound(Fresh(start), run, account, 1);
    var s := After(Fresh(start), run);
    SerialStep(s, account);
    StepKeepsThrottle(s, EndFailed(account));
    var s' := Apply(s, EndFailed(account));
    if Refused(s', account) {
      LockoutLasts(s', Later(s', ms), account, ms);
      AnnouncedIsEnough(s', Later(s', 1000 * AnnouncedSeconds(s', account)), account);
    }
  }

  lemma SerialStep(s: State, account: string)
    requires LoginThrottle.Inv(s.throttle) && WithinBound(s, account, 1)
    requires Enabled(s, EndFailed(account)) && s.InFlight(account) <= 1
    ensures var s' := Apply(s, EndFailed(account));
      && (Reports(s, EndFailed(account), account) <==> Refused(s', account))
      && s'.InFlight(account) == 0
      && |Live(s'.throttle.m.Window(account), s'.throttle.now)| <= MAX_FAILURES_PER_ACCOUNT
  {
    var s' := Apply(s, EndFailed(account));
    StepKeepsBound(s, EndFailed(account), account, 1);
    StepKeepsThrottle(s, EndFailed(account));
    RecordedIsKept(s.throttle, account);
    AllLive(s, account);
    RetryAfterRange(s'.throttle, account, MAX_FAILURES_PER_ACCOUNT);
  }

  /** At no more than the limit, refusal lasts for the value of retry-after and not a millisecond longer. */
  lemma RefusalLasts(t: LoginThrottle.State, account: string, later: int)
    requires LoginThrottle.Inv(t) && |Live(t.m.Window(account), t.now)| <= MAX_FAILURES_PER_ACCOUNT
    requires RetryAfterMs(t.m, account, MAX_FAILURES_PER_ACCOUNT, t.now) > 0 && t.now <= later
    ensures RetryAfterMs(t.m, account, MAX_FAILURES_PER_ACCOUNT, later) > 0
       <==> later - t.now < RetryAfterMs(t.m, account, MAX_FAILURES_PER_ACCOUNT, t.now)
  {
    RetryAfterRange(t, account, MAX_FAILURES_PER_ACCOUNT);
    RetryAfterExact(t, account, MAX_FAILURES_PER_ACCOUNT, later - t.now);
    assert t.now + (later - t.now) == later;
  }

  /** The wait announced to the client: retry-after in seconds, rounded up. */
  function AnnouncedSeconds(s: State, account: string): nat {
    var ms := RetryAfterMs(s.throttle.m, account, MAX_FAILURES_PER_ACCOUNT, s.throttle.now);
    if ms <= 0 then 0 else (ms + 999) / 1000
  }

  /** The announced seconds are the wait rounded up, and no more. */
  lemma AnnouncedExactly(s: State, account: string)
    ensures var ms := RetryAfterMs(s.throttle.m, account, MAX_FAILURES_PER_ACCOUNT, s.throttle.now);
      if ms > 0 then 1000 * (AnnouncedSeconds(s, account) - 1) < ms <= 1000 * AnnouncedSeconds(s, account)
      else AnnouncedSeconds(s, account) == 0
  {
  }

  /** `later` is the same state `ms` later. */
  lemma LockoutLasts(s: State, later: State, account: string, ms: nat)
    requires later.throttle.m == s.throttle.m && later.throttle.now == s.throttle.now + ms
    requires LoginThrottle.Inv(s.throttle)
    requires |Live(s.throttle.m.Window(account), s.throttle.now)| <= MAX_FAILURES_PER_ACCOUNT
    requires Refused(s, account)
    ensures Refused(later, account)
       <==> ms < RetryAfterMs(s.throttle.m, account, MAX_FAILURES_PER_ACCOUNT, s.throttle.now)
  {
    RefusalLasts(s.throttle, account, later.throttle.now);
  }

  lemma AnnouncedIsEnough(s: State, later: State, account: string)
    requires later.throttle.m == s.throttle.m
    requires later.throttle.now == s.throttle.now + 1000 * AnnouncedSeconds(s, account)
    requires LoginThrottle.Inv(s.throttle)
    requires |Live(s.throttle.m.Window(account), s.throttle.now)| <= MAX_FAILURES_PER_ACCOUNT
    requires Refused(s, account)
    ensures !Refused(later, account)
  {
    LockoutLasts(s, later, account, 1000 * AnnouncedSeconds(s, account));
  }

  /** Right after a failure was recorded, everything stored for its key is inside the window. */
  lemma AllLive(s: State, account: string)
    requires LoginThrottle.Inv(s.throttle) && Enabled(s, EndFailed(account))
    ensures var s' := Apply(s, EndFailed(account));
      Live(s'.throttle.m.Window(account), s'.throttle.now) == s'.throttle.m.Window(account)
  {
    var w, now := s.throttle.m.Window(account), s.throttle.now;
    RecordedIsKept(s.throttle, account);
    LiveConcat(Live(w, now), [now], now);
    LiveLater(w, now, now);
  }

  lemma {:induction false} SplitRun(s: State, run: seq<Action>, a: Action, account: string)
    requires IsRun(s, run + [a]) && AtMostInFlight(s, run + [a], account, 1)
    ensures IsRun(s, run) && AtMostInFlight(s, run, account, 1)
    ensures Enabled(After(s, run), a) && Apply(After(s, run), a).InFlight(account) <= 1
    ensures After(s, run).InFlight(account) <= 1
    decreases |run|
  {
    if run == [] {
      assert (run + [a])[0] == a;
    } else {
      assert (run + [a])[0] == run[0] && (run + [a])[1..] == run[1..] + [a];
      SplitRun(Apply(s, run[0]), run[1..], a, account);
    }
  }
}
