/**
 * What the size bound of the throttle costs: a run in which an account is evicted, so that one failure
 * crosses the limit unreported and the next is reported without crossing it.
 */
module EvictedLogins {
  import opened ConcurrentLogins
  import T = LoginThrottle

  // ----- one failed login after the other -----

  /** A failed login that nothing overlaps. */
  function Attempt(account: string): seq<Action> {
    [Begin(account, true)] + [EndFailed(account)]
  }

  lemma RunSteps(s: State, a: Action, rest: seq<Action>)
    requires Enabled(s, a) && IsRun(Apply(s, a), rest)
    ensures IsRun(s, [a] + rest) && After(s, [a] + rest) == After(Apply(s, a), rest)
  {
    assert ([a] + rest)[1..] == rest;
  }

  lemma {:induction false} RunConcat(s: State, first: seq<Action>, second: seq<Action>)
    requires IsRun(s, first) && IsRun(After(s, first), second)
    ensures IsRun(s, first + second) && After(s, first + second) == After(After(s, first), second)
    decreases |first|
  {
    if first == [] {
      assert first + second == second;
    } else {
      RunConcat(Apply(s, first[0]), first[1..], second);
      RunSteps(s, first[0], first[1..] + second);
      assert first + second == [first[0]] + (first[1..] + second);
    }
  }

  /** An attempt the throttle lets in prunes the account's window and records the failure. */
  lemma AttemptRuns(s: State, account: string)
    requires T.Inv(s.throttle) && Stored(s, account) < T.MAX_FAILURES_PER_ACCOUNT
    ensures IsRun(s, Attempt(account)) && T.Inv(After(s, Attempt(account)).throttle)
    ensures After(s, Attempt(account)).throttle
         == T.Apply(T.Apply(s.throttle, T.Check(account)), T.Fail(account))
    ensures Stored(After(s, Attempt(account)), account) == Stored(s, account) + 1
    ensures Failures(After(s, Attempt(account)), account) == Failures(s, account) + 1
  {
    BeginRuns(s, account);
    var s1 := Apply(s, Begin(account, true));
    StepKeepsThrottle(s1, EndFailed(account));
    StoredAfter(s1, EndFailed(account), account);
    LogElsewhere(s1, EndFailed(account), account);
    RunSteps(s1, EndFailed(account), []);
    RunSteps(s, Begin(account, true), [EndFailed(account)]);
  }

  lemma BeginRuns(s: State, account: string)
    requires T.Inv(s.throttle) && Stored(s, account) < T.MAX_FAILURES_PER_ACCOUNT
    ensures Enabled(s, Begin(account, true))
    ensures var s1 := Apply(s, Begin(account, true));
      && Enabled(s1, EndFailed(account)) && T.Inv(s1.throttle) && s1.throttle == T.Apply(s.throttle, T.Check(account))
      && Stored(s1, account) == Stored(s, account) && Failures(s1, account) == Failures(s, account)
  {
    T.RetryAfterRange(s.throttle, account, T.MAX_FAILURES_PER_ACCOUNT);
    StepKeepsThrottle(s, Begin(account, true));
    T.PruneWindow(s.throttle.m, account, s.throttle.now, account);
    T.LiveLater(s.throttle.m.Window(account), s.throttle.now, s.throttle.now);
  }

  function Attempts(account: string, n: nat): seq<Action> {
    if n == 0 then [] else Attempts(account, n - 1) + Attempt(account)
  }

  /** The run leads from `s` to `s'`. */
  predicate Leads(s: State, run: seq<Action>, s': State) {
    IsRun(s, run) && After(s, run) == s'
  }

  lemma {:induction false} AttemptsRun(s: State, account: string, n: nat) returns (s': State)
    requires T.Inv(s.throttle) && Stored(s, account) + n <= T.MAX_FAILURES_PER_ACCOUNT
    ensures Leads(s, Attempts(account, n), s') && T.Inv(s'.throttle)
    ensures Stored(s', account) == Stored(s, account) + n && Failures(s', account) == Failures(s, account) + n
  {
    if n == 0 {
      s' := s;
    } else {
      var s1 := AttemptsRun(s, account, n - 1);
      s' := OneMoreAttempt(s, Attempts(account, n - 1), s1, account);
    }
  }

  /** One more attempt at the end of a run. */
  lemma OneMoreAttempt(s: State, run: seq<Action>, s1: State, account: string) returns (s': State)
    requires Leads(s, run, s1)
    requires T.Inv(s1.throttle) && Stored(s1, account) < T.MAX_FAILURES_PER_ACCOUNT
    ensures Leads(s, run + Attempt(account), s') && T.Inv(s'.throttle)
    ensures Stored(s', account) == Stored(s1, account) + 1 && Failures(s', account) == Failures(s1, account) + 1
  {
    AttemptRuns(s1, account);
    RunConcat(s, run, Attempt(account));
    s' := After(s, run + Attempt(account));
  }

  // ----- one failed login for each of many accounts -----

  function Account(i: nat): string {
    seq(i + 1, _ => 'x')
  }

  lemma AccountsDiffer(i: nat, j: nat)
    requires i != j
    ensures Account(i) != Account(j)
  {
    assert |Account(i)| != |Account(j)|;
  }

  function Flood(n: nat): seq<Action> {
    if n == 0 then [] else Flood(n - 1) + Attempt(Account(n - 1))
  }

  /** Exactly the first `n` accounts are stored, the first one oldest, each with one failure at this instant. */
  ghost predicate Flooded(s: State, n: nat) {
    var m := s.throttle.m;
    && T.Inv(s.throttle) && |m.keys| == n
    && (n > 0 ==> m.keys[0] == Account(0) && Failures(s, Account(0)) == 1)
    && (forall k | k in m.windows :: m.windows[k] == [s.throttle.now] && 1 <= |k| <= n)
  }

  lemma FloodedAccountIsNew(s: State, n: nat)
    requires Flooded(s, n)
    ensures Account(n) !in s.throttle.m.windows && Stored(s, Account(n)) == 0
  {
    assert |Account(n)| == n + 1;
  }

  /** An attempt on an account not stored, as far as the map and other accounts' failures go. */
  lemma NewAttempt(s: State, account: string)
    requires T.Inv(s.throttle) && account !in s.throttle.m.windows
    ensures IsRun(s, Attempt(account)) && T.Inv(After(s, Attempt(account)).throttle)
    ensures var s' := After(s, Attempt(account));
      && s'.throttle.m == T.Push(s.throttle.m, account, s.throttle.now) && s'.throttle.now == s.throttle.now
      && (forall other | other != account :: Failures(s', other) == Failures(s, other))
      && Failures(s', account) == Failures(s, account) + 1
  {
    AttemptRuns(s, account);
  }

  lemma {:induction false} FloodRuns(start: int, n: nat)
    requires n <= T.MAX_TRACKED_KEYS
    ensures IsRun(Fresh(start), Flood(n)) && Flooded(After(Fresh(start), Flood(n)), n)
  {
    if n == 0 {
      T.FreshInv(start);
    } else {
      FloodRuns(start, n - 1);
      var s := After(Fresh(start), Flood(n - 1));
      FloodedAccountIsNew(s, n - 1);
      NewAttempt(s, Account(n - 1));
      RunConcat(Fresh(start), Flood(n - 1), Attempt(Account(n - 1)));
      OneMoreFlooded(s, After(s, Attempt(Account(n - 1))), n - 1);
    }
  }

  lemma OneMoreFlooded(s: State, s': State, n: nat)
    requires Flooded(s, n) && n < T.MAX_TRACKED_KEYS && T.Inv(s'.throttle)
    requires s'.throttle.m == T.Push(s.throttle.m, Account(n), s.throttle.now) && s'.throttle.now == s.throttle.now
    requires forall other | other != Account(n) :: Failures(s', other) == Failures(s, other)
    requires Failures(s', Account(n)) == Failures(s, Account(n)) + 1
    requires n == 0 ==> Failures(s, Account(0)) == 0
    ensures Flooded(s', n + 1)
  {
    FloodedAccountIsNew(s, n);
    if n > 0 { AccountsDiffer(0, n); }
  }

  // ----- one account too many -----

  lemma {:induction false} PruneAllOfLive(m: T.Tracked, keys: seq<string>, now: int)
    requires forall k | k in m.windows :: m.windows[k] == [now]
    ensures T.PruneAll(m, keys, now) == m
    decreases |keys|
  {
    if keys != [] {
      if keys[0] in m.windows {
        assert T.Live(m.windows[keys[0]], now) == m.windows[keys[0]];
        T.PruneOfLive(m, keys[0], now);
      }
      PruneAllOfLive(m, keys[1..], now);
    }
  }

  /** With every key's failures inside the window, one key too many costs the oldest one its entry. */
  lemma OverfullDropsOldest(m: T.Tracked, key: string, now: int)
    requires m.Valid() && |m.keys| == T.MAX_TRACKED_KEYS && key !in m.windows
    requires forall k | k in m.windows :: m.windows[k] == [now]
    ensures m.keys[0] !in T.Push(m, key, now).windows
  {
    var m1 := T.Recorded(m, key, now);
    assert T.Prune(m, key, now) == m && m.Window(key) + [now] == [now];
    assert m1 == m.Set(key, [now]);
    PruneAllOfLive(m1, m1.keys, now);
    T.RecordedValid(m, key, now);
    assert m1.keys[0] == m.keys[0] && m1.keys[0] in m1.keys;
    T.DeleteValid(m1, m1.keys[0]);
    assert T.DropOldest(m1) == T.DropOldest(m1.Delete(m1.keys[0])) == m1.Delete(m1.keys[0]);
  }

  /** After a failure on one account more than the bound, the first account is not stored any more. */
  lemma FirstIsEvicted(start: int)
    ensures IsRun(Fresh(start), Flood(T.MAX_TRACKED_KEYS + 1))
    ensures var s := After(Fresh(start), Flood(T.MAX_TRACKED_KEYS + 1));
      T.Inv(s.throttle) && Stored(s, Account(0)) == 0 && Failures(s, Account(0)) == 1
  {
    var n := T.MAX_TRACKED_KEYS;
    FloodRuns(start, n);
    var s := After(Fresh(start), Flood(n));
    FloodedAccountIsNew(s, n);
    NewAttempt(s, Account(n));
    AccountsDiffer(0, n);
    OverfullDropsOldest(s.throttle.m, Account(n), s.throttle.now);
    RunConcat(Fresh(start), Flood(n), Attempt(Account(n)));
  }

  // ----- what is reported then -----

  /** The first account fails, is evicted, fails `n` times more and begins once more. */
  function EvictedThen(n: nat): seq<Action> {
    Flood(T.MAX_TRACKED_KEYS + 1) + Attempts(Account(0), n) + [Begin(Account(0), true)]
  }

  lemma EvictedRuns(start: int, n: nat)
    requires n < T.MAX_FAILURES_PER_ACCOUNT
    ensures IsRun(Fresh(start), EvictedThen(n))
    ensures var s := After(Fresh(start), EvictedThen(n));
      && T.Inv(s.throttle) && Enabled(s, EndFailed(Account(0)))
      && Stored(s, Account(0)) == n && Failures(s, Account(0)) == n + 1
  {
    var flood := Flood(T.MAX_TRACKED_KEYS + 1);
    FirstIsEvicted(start);
    var s := AttemptsRun(After(Fresh(start), flood), Account(0), n);
    RunConcat(Fresh(start), flood, Attempts(Account(0), n));
    BeginRuns(s, Account(0));
    RunSteps(s, Begin(Account(0), true), []);
    RunConcat(Fresh(start), flood + Attempts(Account(0), n), [Begin(Account(0), true)]);
  }

  /**
   * After the eviction, the failure that really crosses the limit is not reported, and the one after it
   * is reported although it crosses nothing.
   */
  lemma EvictionMisreports(start: int)
    ensures IsRun(Fresh(start), EvictedThen(3)) && IsRun(Fresh(start), EvictedThen(4))
    ensures var s := After(Fresh(start), EvictedThen(3)); var a := EndFailed(Account(0));
      Enabled(s, a) && Crosses(s, a, Account(0)) && !Reports(s, a, Account(0))
    ensures var s := After(Fresh(start), EvictedThen(4)); var a := EndFailed(Account(0));
      Enabled(s, a) && Reports(s, a, Account(0)) && !Crosses(s, a, Account(0))
  {
    forall n | n == 3 || n == 4
      ensures IsRun(Fresh(start), EvictedThen(n))
      ensures var s := After(Fresh(start), EvictedThen(n)); var a := EndFailed(Account(0));
        Enabled(s, a) && (Crosses(s, a, Account(0)) <==> n == 3) && (Reports(s, a, Account(0)) <==> n == 4)
    {
      EvictedRuns(start, n);
      ReportIsCrossingExactly(After(Fresh(start), EvictedThen(n)), EndFailed(Account(0)), Account(0));
    }
  }
}
