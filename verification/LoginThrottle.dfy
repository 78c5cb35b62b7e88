/**
 * The login throttle: a sliding window of failures per key in an insertion-ordered map of bounded
 * size, pruned lazily. Proved against the plain list of a key's failures since its last success.
 */
module LoginThrottle {
  const LOGIN_WINDOW_MS: int := 900000
  const MAX_FAILURES_PER_ACCOUNT: nat := 5
  const MAX_FAILURES_PER_ADDRESS: nat := 20
  const MAX_TRACKED_KEYS: nat := 10000

  /** A JavaScript Map from keys to failure times: its keys in insertion order, and its entries. */
  datatype Tracked = Tracked(keys: seq<string>, windows: map<string, seq<int>>) {
    ghost predicate Valid() {
      && Unique(keys)
      && (forall k :: k in keys <==> k in windows)
    }

    function Window(key: string): seq<int> {
      if key in windows then windows[key] else []
    }

    function Delete(key: string): Tracked {
      Tracked(Without(keys, key), windows - {key})
    }

    function Set(key: string, failures: seq<int>): Tracked {
      Tracked(if key in windows then keys else keys + [key], windows[key := failures])
    }
  }

  ghost predicate Unique(keys: seq<string>) {
    forall i, j | 0 <= i < j < |keys| :: keys[i] != keys[j]
  }

  const Empty := Tracked([], map[])

  function Without(keys: seq<string>, key: string): (r: seq<string>)
    ensures forall k :: k in r <==> k in keys && k != key
    ensures |r| <= |keys|
  {
    if keys == [] then []
    else (if keys[0] == key then [] else [keys[0]]) + Without(keys[1..], key)
  }

  /** The failures still inside the window. */
  function Live(failures: seq<int>, now: int): (r: seq<int>)
    ensures |r| <= |failures|
  {
    if failures == [] then []
    else (if failures[0] > now - LOGIN_WINDOW_MS then [failures[0]] else []) + Live(failures[1..], now)
  }

  function Prune(m: Tracked, key: string, now: int): Tracked {
    if key !in m.windows then m
    else
      var live := Live(m.windows[key], now);
      if live == [] then m.Delete(key) else m.(windows := m.windows[key := live])
  }

  /** The first loop of `evictExpired`, over a snapshot of the keys. */
  function PruneAll(m: Tracked, keys: seq<string>, now: int): Tracked
    decreases |keys|
  {
    if keys == [] then m else PruneAll(Prune(m, keys[0], now), keys[1..], now)
  }

  /** The second loop: the oldest-inserted keys go until the bound is met. */
  function DropOldest(m: Tracked): Tracked
    decreases |m.keys|
  {
    if |m.keys| <= MAX_TRACKED_KEYS || |m.Delete(m.keys[0]).keys| >= |m.keys| then m
    else DropOldest(m.Delete(m.keys[0]))
  }

  function EvictExpired(m: Tracked, now: int): Tracked {
    DropOldest(PruneAll(m, m.keys, now))
  }

  function Recorded(m: Tracked, key: string, now: int): Tracked {
    var pruned := Prune(m, key, now);
    pruned.Set(key, pruned.Window(key) + [now])
  }

  function Push(m: Tracked, key: string, now: int): Tracked {
    var m1 := Recorded(m, key, now);
    if |m1.keys| > MAX_TRACKED_KEYS then EvictExpired(m1, now) else m1
  }

  /** What `push` returns: how many failures of the key are now inside the window. */
  function PushCount(m: Tracked, key: string, now: int): nat {
    |Recorded(m, key, now).Window(key)|
  }

  function RetryAfterMs(m: Tracked, key: string, limit: nat, now: int): int
    requires limit >= 1
  {
    var w := Prune(m, key, now).Window(key);
    if |w| < limit then 0 else w[0] + LOGIN_WINDOW_MS - now
  }

  // ----- lists of failure times -----

  ghost predicate Sorted(xs: seq<int>) {
    forall i, j | 0 <= i < j < |xs| :: xs[i] <= xs[j]
  }

  predicate AllDead(xs: seq<int>, now: int) {
    forall i | 0 <= i < |xs| :: xs[i] <= now - LOGIN_WINDOW_MS
  }

  /** `xs` is `all` without some first part, and that part has left the window if `exact`. */
  ghost predicate TailOf(xs: seq<int>, all: seq<int>, exact: bool, now: int) {
    && |xs| <= |all|
    && xs == all[|all| - |xs|..]
    && (exact ==> AllDead(all[..|all| - |xs|], now))
  }

  lemma {:induction false} LiveMembers(failures: seq<int>, now: int)
    ensures forall t | t in Live(failures, now) :: t in failures && t > now - LOGIN_WINDOW_MS
  {
    if failures != [] {
      LiveMembers(failures[1..], now);
    }
  }

  lemma {:induction false} LiveOfDead(xs: seq<int>, now: int)
    requires AllDead(xs, now)
    ensures Live(xs, now) == []
  {
    if xs != [] {
      LiveOfDead(xs[1..], now);
    }
  }

  lemma {:induction false} LiveConcat(xs: seq<int>, ys: seq<int>, now: int)
    ensures Live(xs + ys, now) == Live(xs, now) + Live(ys, now)
  {
    if xs == [] {
      assert xs + ys == ys;
    } else {
      assert (xs + ys)[1..] == xs[1..] + ys;
      LiveConcat(xs[1..], ys, now);
    }
  }

  lemma {:induction false} LiveOfLive(xs: seq<int>, now: int)
    requires forall i | 0 <= i < |xs| :: xs[i] > now - LOGIN_WINDOW_MS
    ensures Live(xs, now) == xs
  {
    if xs != [] {
      LiveOfLive(xs[1..], now);
      assert xs == [xs[0]] + xs[1..];
    }
  }

  /** On a sorted list, pruning cuts off a first part that has left the window. */
  lemma {:induction false} LiveIsTail(xs: seq<int>, now: int)
    requires Sorted(xs)
    ensures TailOf(Live(xs, now), xs, true, now)
  {
    if xs != [] {
      if xs[0] > now - LOGIN_WINDOW_MS {
        LiveOfLive(xs, now);
      } else {
        LiveIsTail(xs[1..], now);
        var n := |xs| - |Live(xs, now)|;
        assert xs[..n][1..] == xs[1..][..n - 1];
        assert xs[n..] == xs[1..][n - 1..];
        forall i | 0 <= i < n ensures xs[..n][i] <= now - LOGIN_WINDOW_MS {
          if i > 0 { assert xs[..n][i] == xs[1..][..n - 1][i - 1]; }
        }
      }
    }
  }

  lemma TailOfTail(xs: seq<int>, ys: seq<int>, zs: seq<int>, exact: bool, now: int)
    requires TailOf(xs, ys, true, now) && TailOf(ys, zs, exact, now)
    ensures TailOf(xs, zs, exact, now)
  {
    var n, m := |zs| - |ys|, |zs| - |xs|;
    if exact {
      forall i | 0 <= i < m ensures zs[..m][i] <= now - LOGIN_WINDOW_MS {
        if i < n {
          assert zs[..n][i] == zs[i];
        } else {
          assert zs[i] == ys[i - n] == ys[..m - n][i - n];
        }
      }
    }
  }

  lemma TailGrows(xs: seq<int>, all: seq<int>, exact: bool, now: int)
    requires TailOf(xs, all, exact, now)
    ensures TailOf(xs + [now], all + [now], exact, now)
  {
    var n := |all| - |xs|;
    assert (all + [now])[..n] == all[..n];
    assert (all + [now])[n..] == all[n..] + [now];
  }

  lemma TailLater(xs: seq<int>, all: seq<int>, exact: bool, now: int, later: int)
    requires TailOf(xs, all, exact, now) && now <= later
    ensures TailOf(xs, all, exact, later)
  {
  }

  /** What a tail says about the windows: its live part is a tail of the live part, and all of it if exact. */
  lemma TailLive(xs: seq<int>, all: seq<int>, exact: bool, now: int)
    requires TailOf(xs, all, exact, now)
    ensures var live, full := Live(xs, now), Live(all, now);
      |live| <= |full| && live == full[|full| - |live|..] && (exact ==> live == full)
  {
    var front := all[..|all| - |xs|];
    assert all == front + xs;
    LiveConcat(front, xs, now);
    if exact {
      LiveOfDead(front, now);
    }
  }

  // ----- the throttle beside the plain list of failures -----

  /**
   * `log` holds, per key, every failure since its last success; `evicted` the keys that have lost
   * entries to the size bound since then.
   */
  datatype State = State(m: Tracked, log: map<string, seq<int>>, evicted: set<string>, now: int) {
    function Log(key: string): seq<int> {
      if key in log then log[key] else []
    }
  }

  datatype Action = Fail(key: string) | Check(key: string) | Succeed(key: string) | Tick(ms: nat)

  function Apply(s: State, a: Action): State {
    match a
    case Fail(key) =>
      var m1 := Recorded(s.m, key, s.now);
      var evicted := if |m1.keys| > MAX_TRACKED_KEYS then Dropped(PruneAll(m1, m1.keys, s.now)) else {};
      State(Push(s.m, key, s.now), s.log[key := s.Log(key) + [s.now]], s.evicted + evicted, s.now)
    case Check(key) => s.(m := Prune(s.m, key, s.now))
    case Succeed(key) => s.(m := s.m.Delete(key), log := s.log[key := []], evicted := s.evicted - {key})
    case Tick(ms) => s.(now := s.now + ms)
  }

  /** The keys that the size bound takes. */
  function Dropped(m: Tracked): set<string> {
    set k | k in m.windows && k !in DropOldest(m).windows
  }

  ghost predicate KeyAgrees(m: Tracked, log: map<string, seq<int>>, evicted: set<string>, key: string, now: int) {
    TailOf(m.Window(key), LogIn(log, key), key !in evicted, now) && LogOk(LogIn(log, key), now)
  }

  ghost predicate LogOk(log: seq<int>, now: int) {
    Sorted(log) && forall i | 0 <= i < |log| :: log[i] <= now
  }

  ghost predicate Agrees(m: Tracked, log: map<string, seq<int>>, evicted: set<string>, now: int) {
    && m.Valid()
    && (forall key :: KeyAgrees(m, log, evicted, key, now))
  }

  function LogIn(log: map<string, seq<int>>, key: string): seq<int> {
    if key in log then log[key] else []
  }

  ghost predicate Inv(s: State) {
    Agrees(s.m, s.log, s.evicted, s.now) && |s.m.keys| <= MAX_TRACKED_KEYS
  }

  lemma {:induction false} WithoutDistinct(keys: seq<string>, key: string)
    requires Unique(keys)
    ensures Unique(Without(keys, key))
    ensures |Without(keys, key)| == |keys| - (if key in keys then 1 else 0)
    ensures key !in keys ==> Without(keys, key) == keys
  {
    if keys != [] {
      var rest := keys[1..];
      WithoutDistinct(rest, key);
      assert keys[0] !in rest;
      assert keys == [keys[0]] + rest;
      if keys[0] != key {
        PrependUnique(keys[0], Without(rest, key));
      }
    }
  }

  lemma PrependUnique(k: string, keys: seq<string>)
    requires Unique(keys) && k !in keys
    ensures Unique([k] + keys)
  {
  }

  lemma {:induction false} WithoutKeepsLast(keys: seq<string>, key: string)
    requires keys != [] && keys[|keys| - 1] != key
    ensures var r := Without(keys, key); r != [] && r[|r| - 1] == keys[|keys| - 1]
  {
    if |keys| > 1 {
      WithoutKeepsLast(keys[1..], key);
    }
  }

  lemma DeleteValid(m: Tracked, key: string)
    requires m.Valid()
    ensures m.Delete(key).Valid()
    ensures |m.Delete(key).keys| == |m.keys| - (if key in m.windows then 1 else 0)
  {
    WithoutDistinct(m.keys, key);
  }

  lemma PruneValid(m: Tracked, key: string, now: int)
    requires m.Valid()
    ensures Prune(m, key, now).Valid() && |Prune(m, key, now).keys| <= |m.keys|
    ensures Prune(m, key, now).windows.Keys <= m.windows.Keys
  {
    DeleteValid(m, key);
  }

  /** Pruning a key leaves its live failures, and the other keys alone. */
  lemma PruneWindow(m: Tracked, key: string, now: int, other: string)
    ensures Prune(m, key, now).Window(other) == if other == key then Live(m.Window(key), now) else m.Window(other)
  {
  }

  lemma PruneAgrees(m: Tracked, log: map<string, seq<int>>, evicted: set<string>, now: int, key: string)
    requires Agrees(m, log, evicted, now)
    ensures Agrees(Prune(m, key, now), log, evicted, now)
  {
    PruneValid(m, key, now);
    forall k ensures KeyAgrees(Prune(m, key, now), log, evicted, k, now) {
      assert KeyAgrees(m, log, evicted, k, now);
      PruneWindow(m, key, now, k);
      if k == key {
        LiveIsTail(m.Window(k), now);
        TailOfTail(Live(m.Window(k), now), m.Window(k), LogIn(log, k), k !in evicted, now);
      }
    }
  }

  lemma {:induction false} PruneAllAgrees(m: Tracked, log: map<string, seq<int>>, evicted: set<string>, now: int, keys: seq<string>)
    requires Agrees(m, log, evicted, now)
    ensures Agrees(PruneAll(m, keys, now), log, evicted, now)
    ensures |PruneAll(m, keys, now).keys| <= |m.keys|
    decreases |keys|
  {
    if keys != [] {
      PruneAgrees(m, log, evicted, now, keys[0]);
      PruneValid(m, keys[0], now);
      PruneAllAgrees(Prune(m, keys[0], now), log, evicted, now, keys[1..]);
    }
  }

  lemma DeleteAgrees(m: Tracked, log: map<string, seq<int>>, evicted: set<string>, now: int, key: string)
    requires Agrees(m, log, evicted, now)
    ensures Agrees(m.Delete(key), log, evicted + {key}, now)
  {
    DeleteValid(m, key);
    forall k ensures KeyAgrees(m.Delete(key), log, evicted + {key}, k, now) {
      assert KeyAgrees(m, log, evicted, k, now);
    }
  }

  lemma DroppedStep(m: Tracked)
    requires m.Valid() && |m.keys| > MAX_TRACKED_KEYS && |m.Delete(m.keys[0]).keys| < |m.keys|
    requires DropOldest(m.Delete(m.keys[0])).windows.Keys <= m.Delete(m.keys[0]).windows.Keys
    ensures DropOldest(m) == DropOldest(m.Delete(m.keys[0]))
    ensures Dropped(m) == {m.keys[0]} + Dropped(m.Delete(m.keys[0]))
  {
    assert m.keys[0] in m.keys;
  }

  lemma {:induction false} DropOldestAgrees(m: Tracked, log: map<string, seq<int>>, evicted: set<string>, now: int)
    requires Agrees(m, log, evicted, now)
    ensures Agrees(DropOldest(m), log, evicted + Dropped(m), now)
    ensures |DropOldest(m).keys| <= MAX_TRACKED_KEYS
    ensures DropOldest(m).windows.Keys <= m.windows.Keys
    decreases |m.keys|
  {
    if |m.keys| > MAX_TRACKED_KEYS {
      var oldest := m.keys[0];
      assert oldest in m.keys;
      DeleteValid(m, oldest);
      DeleteAgrees(m, log, evicted, now, oldest);
      DropOldestAgrees(m.Delete(oldest), log, evicted + {oldest}, now);
      DroppedStep(m);
      assert evicted + {oldest} + Dropped(m.Delete(oldest)) == evicted + Dropped(m);
    } else {
      assert Dropped(m) == {};
      assert evicted + {} == evicted;
    }
  }

  lemma SetValid(m: Tracked, key: string, failures: seq<int>)
    requires m.Valid()
    ensures m.Set(key, failures).Valid() && |m.Set(key, failures).keys| <= |m.keys| + 1
  {
  }

  lemma RecordedWindow(m: Tracked, key: string, now: int, other: string)
    ensures Recorded(m, key, now).Window(other)
         == if other == key then Live(m.Window(key), now) + [now] else m.Window(other)
  {
    PruneWindow(m, key, now, key);
    PruneWindow(m, key, now, other);
  }

  lemma RecordedValid(m: Tracked, key: string, now: int)
    requires m.Valid()
    ensures Recorded(m, key, now).Valid() && |Recorded(m, key, now).keys| <= |m.keys| + 1
  {
    PruneValid(m, key, now);
    var pruned := Prune(m, key, now);
    SetValid(pruned, key, pruned.Window(key) + [now]);
  }

  lemma RecordedKeyAgrees(m: Tracked, log: map<string, seq<int>>, evicted: set<string>, now: int, key: string, k: string)
    requires KeyAgrees(Prune(m, key, now), log, evicted, k, now)
    ensures KeyAgrees(Recorded(m, key, now), log[key := LogIn(log, key) + [now]], evicted, k, now)
  {
    PruneWindow(m, key, now, k);
    RecordedWindow(m, key, now, k);
    if k == key {
      TailGrows(Prune(m, key, now).Window(key), LogIn(log, key), key !in evicted, now);
      LogGrows(LogIn(log, key), now);
    }
  }

  lemma LogGrows(log: seq<int>, now: int)
    requires LogOk(log, now)
    ensures LogOk(log + [now], now)
  {
  }

  lemma RecordedAgrees(m: Tracked, log: map<string, seq<int>>, evicted: set<string>, now: int, key: string)
    requires Agrees(m, log, evicted, now)
    ensures Agrees(Recorded(m, key, now), log[key := LogIn(log, key) + [now]], evicted, now)
  {
    var m1, log' := Recorded(m, key, now), log[key := LogIn(log, key) + [now]];
    PruneAgrees(m, log, evicted, now, key);
    RecordedValid(m, key, now);
    forall k ensures KeyAgrees(m1, log', evicted, k, now) {
      assert KeyAgrees(Prune(m, key, now), log, evicted, k, now);
      RecordedKeyAgrees(m, log, evicted, now, key, k);
    }
  }

  lemma FailKeepsInv(s: State, key: string)
    requires Inv(s)
    ensures Inv(Apply(s, Fail(key)))
  {
    var m1, log' := Recorded(s.m, key, s.now), s.log[key := LogIn(s.log, key) + [s.now]];
    assert Apply(s, Fail(key)).log == log';
    RecordedAgrees(s.m, s.log, s.evicted, s.now, key);
    if |m1.keys| > MAX_TRACKED_KEYS {
      PruneAllAgrees(m1, log', s.evicted, s.now, m1.keys);
      DropOldestAgrees(PruneAll(m1, m1.keys, s.now), log', s.evicted, s.now);
    } else {
      assert s.evicted + {} == s.evicted;
    }
  }

  lemma TickKeepsInv(s: State, ms: nat)
    requires Inv(s)
    ensures Inv(Apply(s, Tick(ms)))
  {
    var later := s.now + ms;
    forall k ensures KeyAgrees(s.m, s.log, s.evicted, k, later) {
      assert KeyAgrees(s.m, s.log, s.evicted, k, s.now);
      TailLater(s.m.Window(k), LogIn(s.log, k), k !in s.evicted, s.now, s.now + ms);
    }
  }

  lemma CheckKeepsInv(s: State, key: string)
    requires Inv(s)
    ensures Inv(Apply(s, Check(key)))
  {
    PruneAgrees(s.m, s.log, s.evicted, s.now, key);
    PruneValid(s.m, key, s.now);
  }

  /** Every recorded failure, check, success and passage of time keeps throttle and list in agreement. */
  lemma StepKeepsInv(s: State, a: Action)
    requires Inv(s)
    ensures Inv(Apply(s, a))
  {
    match a
    case Fail(key) => FailKeepsInv(s, key);
    case Check(key) => CheckKeepsInv(s, key);
    case Succeed(key) => SuccessKeepsInv(s, key);
    case Tick(ms) => TickKeepsInv(s, ms);
  }

  lemma SuccessKeepsInv(s: State, key: string)
    requires Inv(s)
    ensures Inv(Apply(s, Succeed(key)))
  {
    var s' := Apply(s, Succeed(key));
    DeleteValid(s.m, key);
    forall k ensures KeyAgrees(s'.m, s'.log, s'.evicted, k, s.now) {
      assert KeyAgrees(s.m, s.log, s.evicted, k, s.now);
    }
  }

  function After(s: State, run: seq<Action>): State
    decreases |run|
  {
    if run == [] then s else After(Apply(s, run[0]), run[1..])
  }

  lemma {:induction false} RunKeepsInv(s: State, run: seq<Action>)
    requires Inv(s)
    ensures Inv(After(s, run))
    decreases |run|
  {
    if run != [] {
      StepKeepsInv(s, run[0]);
      RunKeepsInv(Apply(s, run[0]), run[1..]);
    }
  }

  function Fresh(now: int): State { State(Empty, map[], {}, now) }

  /**
   * The throttle refines the plain list: after any run, the failures it counts for a key are the most
   * recent of those really inside the window, and all of them unless the size bound took the key.
   */
  lemma RefinesLog(start: int, run: seq<Action>, key: string)
    ensures var s := After(Fresh(start), run);
      var counted, actual := Live(s.m.Window(key), s.now), Live(s.Log(key), s.now);
      && |counted| <= |actual| && counted == actual[|actual| - |counted|..]
      && (key !in s.evicted ==> counted == actual)
      && |s.m.keys| <= MAX_TRACKED_KEYS
  {
    FreshInv(start);
    RunKeepsInv(Fresh(start), run);
    var s := After(Fresh(start), run);
    assert KeyAgrees(s.m, s.log, s.evicted, key, s.now);
    TailLive(s.m.Window(key), s.Log(key), key !in s.evicted, s.now);
  }

  lemma FreshInv(start: int)
    ensures Inv(Fresh(start))
  {
    forall k ensures KeyAgrees(Empty, map[], {}, k, start) {}
  }

  /** What is inside the window, place by place: exactly the failures less than the window's length ago. */
  lemma {:induction false} LiveExactly(before: seq<int>, t: int, after: seq<int>, now: int)
    ensures Live(before + [t] + after, now)
         == Live(before, now) + (if now - t < LOGIN_WINDOW_MS then [t] else []) + Live(after, now)
    ensures Live([], now) == []
  {
    LiveConcat(before + [t], after, now);
    LiveConcat(before, [t], now);
  }

  /** A success forgets the failures of its key, stored and real, and no others. */
  lemma SuccessForgets(s: State, key: string, other: string)
    ensures var s' := Apply(s, Succeed(key));
      && s'.now == s.now
      && s'.m.Window(key) == [] && s'.Log(key) == [] && key !in s'.evicted
      && (other != key ==> s'.m.Window(other) == s.m.Window(other) && s'.Log(other) == s.Log(other))
  {
  }

  /** A failure is added to the real list of its key, at the present instant, and to no other. */
  lemma FailureIsLogged(s: State, key: string, other: string)
    ensures var s' := Apply(s, Fail(key));
      && s'.now == s.now && s'.Log(key) == s.Log(key) + [s.now]
      && (other != key ==> s'.Log(other) == s.Log(other))
  {
  }

  // ----- the key just recorded survives -----

  /** `key` is the newest key, and all its failures are live. */
  ghost predicate KeptLast(m: Tracked, key: string, now: int) {
    && m.Valid() && m.keys != [] && m.keys[|m.keys| - 1] == key
    && m.Window(key) != []
    && Live(m.Window(key), now) == m.Window(key)
  }

  lemma DeleteKeepsLast(m: Tracked, other: string)
    requires m.Valid() && m.keys != [] && m.keys[|m.keys| - 1] != other
    ensures var keys := m.Delete(other).keys; keys != [] && keys[|keys| - 1] == m.keys[|m.keys| - 1]
  {
    WithoutKeepsLast(m.keys, other);
  }

  lemma PruneKeepsLast(m: Tracked, key: string, now: int, other: string)
    requires KeptLast(m, key, now)
    ensures KeptLast(Prune(m, other, now), key, now)
    ensures Prune(m, other, now).Window(key) == m.Window(key)
  {
    if other == key {
      PruneOfLive(m, key, now);
    } else {
      PruneValid(m, other, now);
      PruneWindow(m, other, now, key);
      PruneKeepsNewest(m, other, now);
    }
  }

  lemma PruneOfLive(m: Tracked, key: string, now: int)
    requires m.Window(key) != [] && Live(m.Window(key), now) == m.Window(key)
    ensures Prune(m, key, now) == m
  {
    assert m.windows[key := m.windows[key]] == m.windows;
  }

  lemma PruneKeepsNewest(m: Tracked, other: string, now: int)
    requires m.Valid() && m.keys != [] && m.keys[|m.keys| - 1] != other
    ensures var keys := Prune(m, other, now).keys; keys != [] && keys[|keys| - 1] == m.keys[|m.keys| - 1]
  {
    DeleteKeepsLast(m, other);
  }

  lemma {:induction false} PruneAllKeepsLast(m: Tracked, key: string, now: int, keys: seq<string>)
    requires KeptLast(m, key, now)
    ensures KeptLast(PruneAll(m, keys, now), key, now)
    ensures PruneAll(m, keys, now).Window(key) == m.Window(key)
    ensures |PruneAll(m, keys, now).keys| <= |m.keys|
    decreases |keys|
  {
    if keys != [] {
      PruneKeepsLast(m, key, now, keys[0]);
      PruneValid(m, keys[0], now);
      PruneAllKeepsLast(Prune(m, keys[0], now), key, now, keys[1..]);
    }
  }

  /**
   * The key just recorded is never the one evicted: after `push` it holds exactly its live failures
   * and the new one, and the number returned is how many that are.
   */
  lemma RecordedIsKept(s: State, key: string)
    requires Inv(s)
    ensures var m' := Push(s.m, key, s.now);
      && m'.Window(key) == Live(s.m.Window(key), s.now) + [s.now]
      && PushCount(s.m, key, s.now) == |m'.Window(key)|
      && |m'.keys| <= MAX_TRACKED_KEYS
  {
    StepKeepsInv(s, Fail(key));
    RecordedWindow(s.m, key, s.now, key);
    var m1 := Recorded(s.m, key, s.now);
    if |m1.keys| > MAX_TRACKED_KEYS {
      OverfullIsNew(s, key);
      PruneAllKeepsLast(m1, key, s.now, m1.keys);
      var m2 := PruneAll(m1, m1.keys, s.now);
      if |m2.keys| > MAX_TRACKED_KEYS {
        DropOneKeepsLast(m2, key, s.now);
      }
    }
  }

  /** The bound is only exceeded when the key recorded is new, hence the newest. */
  lemma OverfullIsNew(s: State, key: string)
    requires Inv(s) && |Recorded(s.m, key, s.now).keys| > MAX_TRACKED_KEYS
    ensures KeptLast(Recorded(s.m, key, s.now), key, s.now)
    ensures |Recorded(s.m, key, s.now).keys| == MAX_TRACKED_KEYS + 1
  {
    var m1 := Recorded(s.m, key, s.now);
    RecordedValid(s.m, key, s.now);
    PruneValid(s.m, key, s.now);
    RecordedWindow(s.m, key, s.now, key);
    LiveConcat(Live(s.m.Window(key), s.now), [s.now], s.now);
    LiveLater(s.m.Window(key), s.now, s.now);
  }

  lemma DropOneKeepsLast(m: Tracked, key: string, now: int)
    requires KeptLast(m, key, now) && |m.keys| == MAX_TRACKED_KEYS + 1
    ensures DropOldest(m).Window(key) == m.Window(key)
  {
    var oldest := m.keys[0];
    assert oldest in m.keys && oldest != key;
    DeleteValid(m, oldest);
    assert DropOldest(m) == DropOldest(m.Delete(oldest)) == m.Delete(oldest);
  }

  // ----- retry-after -----

  /** The value is 0 exactly when fewer than `limit` failures count; otherwise it is in (0, LOGIN_WINDOW_MS]. */
  lemma RetryAfterRange(s: State, key: string, limit: nat)
    requires Inv(s) && limit >= 1
    ensures var r := RetryAfterMs(s.m, key, limit, s.now);
      && (r == 0 <==> |Live(s.m.Window(key), s.now)| < limit)
      && 0 <= r <= LOGIN_WINDOW_MS
  {
    PruneWindow(s.m, key, s.now, key);
    var w := Live(s.m.Window(key), s.now);
    if |w| >= limit {
      LiveMembers(s.m.Window(key), s.now);
      assert w[0] in w;
      var all := s.m.Window(key);
      assert KeyAgrees(s.m, s.log, s.evicted, key, s.now);
      var i :| 0 <= i < |all| && all[i] == w[0];
      assert all[i] == s.Log(key)[|s.Log(key)| - |all| + i];
    }
  }

  lemma {:induction false} LiveLater(xs: seq<int>, now: int, later: int)
    requires now <= later
    ensures Live(Live(xs, now), later) == Live(xs, later)
  {
    if xs != [] {
      LiveLater(xs[1..], now, later);
      if xs[0] > now - LOGIN_WINDOW_MS {
        assert Live(xs, now) == [xs[0]] + Live(xs[1..], now);
        assert Live(xs, now)[1..] == Live(xs[1..], now);
      } else {
        assert Live(xs, now) == Live(xs[1..], now);
      }
    }
  }

  /**
   * Nothing added, attempts stay refused for that many milliseconds; if exactly `limit` failures
   * count, they are refused for exactly that long and allowed at that instant.
   */
  lemma RetryAfterExact(s: State, key: string, limit: nat, ms: nat)
    requires Inv(s) && limit >= 1
    requires RetryAfterMs(s.m, key, limit, s.now) > 0
    ensures ms < RetryAfterMs(s.m, key, limit, s.now) ==> RetryAfterMs(s.m, key, limit, s.now + ms) > 0
    ensures |Live(s.m.Window(key), s.now)| == limit ==>
      (RetryAfterMs(s.m, key, limit, s.now + ms) > 0 <==> ms < RetryAfterMs(s.m, key, limit, s.now))
  {
    RetryAfterRange(s, key, limit);
    RefusedLater(s, key, limit, ms);
    RefusedWhileFull(s, key, limit, ms);
  }

  lemma RefusedWhileFull(s: State, key: string, limit: nat, ms: nat)
    requires Inv(s) && |Live(s.m.Window(key), s.now)| >= limit >= 1
    requires RetryAfterMs(s.m, key, limit, s.now + ms) > 0 <==> |Live(s.m.Window(key), s.now + ms)| >= limit
    ensures ms < RetryAfterMs(s.m, key, limit, s.now) ==> RetryAfterMs(s.m, key, limit, s.now + ms) > 0
    ensures |Live(s.m.Window(key), s.now)| == limit ==>
      (RetryAfterMs(s.m, key, limit, s.now + ms) > 0 <==> ms < RetryAfterMs(s.m, key, limit, s.now))
  {
    OldestIsFirst(s, key);
    RefusedUntil(s.m, key, limit, s.now, ms);
  }

  lemma RefusedUntil(m: Tracked, key: string, limit: nat, now: int, ms: nat)
    requires FirstIsLeast(Live(m.Window(key), now)) && |Live(m.Window(key), now)| >= limit >= 1
    requires RetryAfterMs(m, key, limit, now + ms) > 0 <==> |Live(m.Window(key), now + ms)| >= limit
    ensures ms < RetryAfterMs(m, key, limit, now) ==> RetryAfterMs(m, key, limit, now + ms) > 0
    ensures |Live(m.Window(key), now)| == limit ==>
      (RetryAfterMs(m, key, limit, now + ms) > 0 <==> ms < RetryAfterMs(m, key, limit, now))
  {
    CountLater(m, key, limit, now, ms);
  }

  lemma CountLater(m: Tracked, key: string, limit: nat, now: int, ms: nat)
    requires FirstIsLeast(Live(m.Window(key), now)) && |Live(m.Window(key), now)| >= limit >= 1
    ensures var counted, later := |Live(m.Window(key), now)|, |Live(m.Window(key), now + ms)|;
      if ms < RetryAfterMs(m, key, limit, now) then later == counted else later < counted
  {
    RetryFromOldest(m, key, limit, now);
    WindowRefills(m.Window(key), now, ms);
  }

  lemma RetryFromOldest(m: Tracked, key: string, limit: nat, now: int)
    requires |Live(m.Window(key), now)| >= limit >= 1
    ensures RetryAfterMs(m, key, limit, now) == Live(m.Window(key), now)[0] + LOGIN_WINDOW_MS - now
  {
    PruneWindow(m, key, now, key);
  }

  lemma WindowRefills(all: seq<int>, now: int, ms: nat)
    requires FirstIsLeast(Live(all, now)) && Live(all, now) != []
    ensures var w := Live(all, now);
      if ms < w[0] + LOGIN_WINDOW_MS - now then |Live(all, now + ms)| == |w| else |Live(all, now + ms)| < |w|
  {
    LiveLater(all, now, now + ms);
    OldestDecides(Live(all, now), now + ms);
  }

  /** An attempt at a later instant is refused exactly when `limit` failures are still inside the window. */
  lemma RefusedLater(s: State, key: string, limit: nat, ms: nat)
    requires Inv(s) && limit >= 1
    ensures RetryAfterMs(s.m, key, limit, s.now + ms) > 0 <==> |Live(s.m.Window(key), s.now + ms)| >= limit
  {
    StepKeepsInv(s, Tick(ms));
    RetryAfterRange(Apply(s, Tick(ms)), key, limit);
  }

  ghost predicate FirstIsLeast(w: seq<int>) {
    forall i | 0 <= i < |w| :: w[0] <= w[i]
  }

  /** Later, a list is whole as long as its oldest entry is inside the window, and not after. */
  lemma OldestDecides(w: seq<int>, later: int)
    requires FirstIsLeast(w) && w != []
    ensures w[0] > later - LOGIN_WINDOW_MS ==> |Live(w, later)| == |w|
    ensures w[0] <= later - LOGIN_WINDOW_MS ==> |Live(w, later)| < |w|
  {
    if w[0] > later - LOGIN_WINDOW_MS {
      LiveOfLive(w, later);
    }
  }

  lemma OldestIsFirst(s: State, key: string)
    requires Inv(s)
    ensures FirstIsLeast(Live(s.m.Window(key), s.now))
  {
    WindowIsSorted(s, key);
    LiveIsTail(s.m.Window(key), s.now);
  }

  lemma WindowIsSorted(s: State, key: string)
    requires Inv(s)
    ensures Sorted(s.m.Window(key))
  {
    assert KeyAgrees(s.m, s.log, s.evicted, key, s.now);
  }
}
