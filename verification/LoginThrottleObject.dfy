/** The throttle object: two maps, pruned and filled in place, and the clock. */
module LoginThrottleObject {
  import opened LoginThrottle

  /** A JavaScript Map of failure windows. */
  class FailureMap {
    var keys: seq<string>
    var windows: map<string, seq<int>>

    function Model(): Tracked
      reads this
    {
      Tracked(keys, windows)
    }

    constructor ()
      ensures Model() == Empty
    {
      keys, windows := [], map[];
    }

    method Delete(key: string)
      modifies this
      ensures Model() == old(Model()).Delete(key)
    {
      keys, windows := Without(keys, key), windows - {key};
    }

    method Set(key: string, failures: seq<int>)
      modifies this
      ensures Model() == old(Model()).Set(key, failures)
    {
      if key !in windows {
        keys := keys + [key];
      }
      windows := windows[key := failures];
    }
  }

  datatype Verdict = Allowed | TooManyRequests(retryAfterSeconds: int)

  class Throttle {
    const byAccount: FailureMap
    const byAddress: FailureMap
    /** The account key: the e-mail address without surrounding blanks, in lower case. */
    const normalize: string -> string
    var now: int

    ghost predicate Valid()
      reads this, byAccount, byAddress
    {
      byAccount != byAddress && byAccount.Model().Valid() && byAddress.Model().Valid()
    }

    constructor (normalize: string -> string, now: int)
      ensures Valid() && fresh(byAccount) && fresh(byAddress)
      ensures byAccount.Model() == Empty && byAddress.Model() == Empty && this.now == now && this.normalize == normalize
    {
      byAccount := new FailureMap();
      byAddress := new FailureMap();
      this.normalize, this.now := normalize, now;
    }

    method FilterLive(failures: seq<int>) returns (live: seq<int>)
      ensures live == Live(failures, now)
    {
      live := [];
      var i := 0;
      while i < |failures|
        invariant 0 <= i <= |failures|
        invariant live + Live(failures[i..], now) == Live(failures, now)
      {
        assert failures[i..][1..] == failures[i + 1..];
        if failures[i] > now - LOGIN_WINDOW_MS {
          live := live + [failures[i]];
        }
        i := i + 1;
      }
    }

    /** The window of the key without its expired failures; empty when the key is gone. */
    method PruneKey(m: FailureMap, key: string) returns (failures: seq<int>)
      modifies m
      ensures m.Model() == Prune(old(m.Model()), key, now)
      ensures failures == m.Model().Window(key)
    {
      if key !in m.windows {
        return [];
      }
      failures := FilterLive(m.windows[key]);
      if |failures| == 0 {
        m.Delete(key);
      } else {
        m.windows := m.windows[key := failures];
      }
    }

    method Evict(m: FailureMap)
      requires m.Model().Valid()
      modifies m
      ensures m.Model() == EvictExpired(old(m.Model()), now) && m.Model().Valid()
    {
      var snapshot := m.keys;
      ghost var pruned := PruneAll(m.Model(), snapshot, now);
      var i := 0;
      while i < |snapshot|
        invariant 0 <= i <= |snapshot|
        invariant m.Model().Valid()
        invariant PruneAll(m.Model(), snapshot[i..], now) == pruned
      {
        assert snapshot[i..][1..] == snapshot[i + 1..];
        PruneValid(m.Model(), snapshot[i], now);
        var _ := PruneKey(m, snapshot[i]);
        i := i + 1;
      }
      while |m.keys| > MAX_TRACKED_KEYS
        invariant m.Model().Valid()
        invariant DropOldest(m.Model()) == DropOldest(pruned)
        decreases |m.keys|
      {
        assert m.keys[0] in m.keys;
        DeleteValid(m.Model(), m.keys[0]);
        m.Delete(m.keys[0]);
      }
    }

    method RecordIn(m: FailureMap, key: string) returns (count: nat)
      requires m.Model().Valid()
      modifies m
      ensures m.Model() == Push(old(m.Model()), key, now) && m.Model().Valid()
      ensures count == PushCount(old(m.Model()), key, now)
    {
      RecordedValid(m.Model(), key, now);
      var failures := PruneKey(m, key);
      failures := failures + [now];
      m.Set(key, failures);
      if |m.keys| > MAX_TRACKED_KEYS {
        Evict(m);
      }
      count := |failures|;
    }

    method RetryAfterIn(m: FailureMap, key: string, limit: nat) returns (ms: int)
      requires limit >= 1
      modifies m
      ensures m.Model() == Prune(old(m.Model()), key, now)
      ensures ms == RetryAfterMs(old(m.Model()), key, limit, now)
    {
      var failures := PruneKey(m, key);
      ms := if |failures| < limit then 0 else failures[0] + LOGIN_WINDOW_MS - now;
    }

    /** Refused exactly when the account or the address is over its limit; looking prunes both keys. */
    method AssertAllowed(email: string, address: string) returns (verdict: Verdict)
      requires Valid()
      modifies byAccount, byAddress
      ensures Valid()
      ensures byAccount.Model() == Prune(old(byAccount.Model()), normalize(email), now)
      ensures byAddress.Model() == Prune(old(byAddress.Model()), address, now)
      ensures verdict.Allowed? <==>
        RetryAfterMs(old(byAccount.Model()), normalize(email), MAX_FAILURES_PER_ACCOUNT, now) <= 0
        && RetryAfterMs(old(byAddress.Model()), address, MAX_FAILURES_PER_ADDRESS, now) <= 0
      ensures verdict.TooManyRequests? ==>
        verdict.retryAfterSeconds * 1000 >= RetryAfterMs(old(byAccount.Model()), normalize(email), MAX_FAILURES_PER_ACCOUNT, now)
        && verdict.retryAfterSeconds * 1000 >= RetryAfterMs(old(byAddress.Model()), address, MAX_FAILURES_PER_ADDRESS, now)
        && ((verdict.retryAfterSeconds - 1) * 1000
              < RetryAfterMs(old(byAccount.Model()), normalize(email), MAX_FAILURES_PER_ACCOUNT, now)
            || (verdict.retryAfterSeconds - 1) * 1000
              < RetryAfterMs(old(byAddress.Model()), address, MAX_FAILURES_PER_ADDRESS, now))
    {
      PruneValid(byAccount.Model(), normalize(email), now);
      PruneValid(byAddress.Model(), address, now);
      var a := RetryAfterIn(byAccount, normalize(email), MAX_FAILURES_PER_ACCOUNT);
      var b := RetryAfterIn(byAddress, address, MAX_FAILURES_PER_ADDRESS);
      var retryAfter := if a > b then a else b;
      verdict := if retryAfter > 0 then TooManyRequests((retryAfter + 999) / 1000) else Allowed;
    }

    /** Which limits this very failure reached. */
    method RecordFailure(email: string, address: string) returns (account: bool, byAddressToo: bool)
      requires Valid()
      modifies byAccount, byAddress
      ensures Valid()
      ensures byAccount.Model() == Push(old(byAccount.Model()), normalize(email), now)
      ensures byAddress.Model() == Push(old(byAddress.Model()), address, now)
      ensures account <==> PushCount(old(byAccount.Model()), normalize(email), now) == MAX_FAILURES_PER_ACCOUNT
      ensures byAddressToo <==> PushCount(old(byAddress.Model()), address, now) == MAX_FAILURES_PER_ADDRESS
    {
      var n := RecordIn(byAccount, normalize(email));
      var m := RecordIn(byAddress, address);
      account, byAddressToo := n == MAX_FAILURES_PER_ACCOUNT, m == MAX_FAILURES_PER_ADDRESS;
    }

    method RecordSuccess(email: string)
      requires Valid()
      modifies byAccount
      ensures Valid()
      ensures byAccount.Model() == old(byAccount.Model()).Delete(normalize(email))
    {
      DeleteValid(byAccount.Model(), normalize(email));
      byAccount.Delete(normalize(email));
    }
  }
}
