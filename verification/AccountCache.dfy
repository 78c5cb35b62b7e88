/**
 * The state cache in front of the users table: what it serves was true a bounded time ago, so a
 * revoked token is refused within the cache's lifetime plus the duration of one read.
 */
module AccountCache {
  import opened Accounts
  import opened AccountTokens

  /** Version `k` was the state of the table at instant `t`. */
  predicate CurrentAt(versions: seq<Version>, k: nat, t: nat) {
    k < |versions| && versions[k].at <= t && (k + 1 < |versions| ==> t <= versions[k + 1].at)
  }

  predicate ReadAt(versions: seq<Version>, o: Origin, id: string, view: Option<User>, now: nat) {
    && o.since <= o.readAt <= now
    && CurrentAt(versions, o.version, o.readAt)
    && view == ActiveView(versions[o.version].users, id)
  }

  ghost predicate CacheInv(s: State) {
    && s.versions != [] && s.versions[|s.versions| - 1].at <= s.now
    && (forall id :: id in s.cache <==> id in s.origin)
    && (forall id | id in s.cache :: s.cache[id].at <= s.now && ReadAt(s.versions, s.origin[id], id, s.cache[id].user, s.cache[id].at))
    && (forall op | op in s.lookups :: LookupOk(s, s.lookups[op]))
  }

  predicate LookupOk(s: State, l: Lookup) {
    match l
    case Begun(_, since) => since <= s.now
    case Seen(id, user, origin) => ReadAt(s.versions, origin, id, user, s.now)
  }

  /** One step commits at most one version, at the present instant. */
  predicate Later(s: State, s': State) {
    && s.versions != [] && s.now <= s'.now
    && (s'.versions == s.versions
        || (|s'.versions| == |s.versions| + 1 && s'.versions[|s.versions|].at == s.now && s.versions <= s'.versions))
  }

  lemma StepIsLater(s: State, a: Action)
    requires s.versions != [] && Enabled(s, a)
    ensures Later(s, Apply(s, a))
  {
  }

  lemma ReadAtStays(s: State, s': State, o: Origin, id: string, view: Option<User>, at: nat)
    requires Later(s, s') && at <= s.now && ReadAt(s.versions, o, id, view, at)
    ensures ReadAt(s'.versions, o, id, view, at)
  {
  }

  lemma EntryStays(s: State, a: Action, id: string)
    requires CacheInv(s) && Enabled(s, a) && id in Apply(s, a).cache
    ensures var s' := Apply(s, a);
      id in s'.origin && s'.cache[id].at <= s'.now && ReadAt(s'.versions, s'.origin[id], id, s'.cache[id].user, s'.cache[id].at)
  {
    var s' := Apply(s, a);
    StepIsLater(s, a);
    if a.ReadFill? && id == s.lookups[a.op].id {
      assert LookupOk(s, s.lookups[a.op]);
    } else {
      ReadAtStays(s, s', s.origin[id], id, s.cache[id].user, s.cache[id].at);
    }
  }

  lemma LookupStays(s: State, a: Action, op: nat)
    requires Tracked(s) && CacheInv(s) && Enabled(s, a) && op in Apply(s, a).lookups
    ensures LookupOk(Apply(s, a), Apply(s, a).lookups[op])
  {
    var s' := Apply(s, a);
    StepIsLater(s, a);
    if op in s.lookups {
      assert LookupOk(s, s.lookups[op]);
      if s.lookups[op].Seen? {
        var l := s.lookups[op];
        ReadAtStays(s, s', l.origin, l.id, l.user, s.now);
      }
    }
  }

  lemma StepKeepsCacheInv(s: State, a: Action)
    requires Tracked(s) && CacheInv(s) && Enabled(s, a)
    ensures CacheInv(Apply(s, a))
  {
    var s' := Apply(s, a);
    StepIsLater(s, a);
    forall id | id in s'.cache
      ensures s'.cache[id].at <= s'.now && ReadAt(s'.versions, s'.origin[id], id, s'.cache[id].user, s'.cache[id].at)
    {
      EntryStays(s, a, id);
    }
    forall op | op in s'.lookups ensures LookupOk(s', s'.lookups[op]) {
      LookupStays(s, a, op);
    }
  }

  lemma {:induction false} RunKeepsCacheInv(s: State, run: seq<Action>)
    requires Tracked(s) && CacheInv(s) && IsRun(s, run)
    ensures CacheInv(After(s, run))
    decreases |run|
  {
    if run != [] {
      StepKeepsTracked(s, run[0]);
      StepKeepsCacheInv(s, run[0]);
      RunKeepsCacheInv(Apply(s, run[0]), run[1..]);
    }
  }

  /** How long the read that filled an entry took. */
  function FillTime(s: State, id: string): int
    requires id in s.cache && id in s.origin
  {
    s.cache[id].at - s.origin[id].since
  }

  /**
   * In every run, lost updates or not: whatever the cache serves was the committed state at an instant
   * less than USER_STATE_TTL_MS plus the duration of the filling read ago: the account's row if it was
   * enabled then, and nobody if it was disabled or did not exist.
   */
  lemma ServedWasTrue(run: seq<Action>, id: string)
    requires IsRun(EMPTY, run) && Hit(After(EMPTY, run), id)
    ensures var s := After(EMPTY, run);
      && id in s.origin
      && exists k: nat, t: nat ::
           && CurrentAt(s.versions, k, t) && t <= s.now < t + USER_STATE_TTL_MS + FillTime(s, id)
           && (s.cache[id].user.Some? <==> id in s.versions[k].users && !s.versions[k].users[id].disabled)
           && (s.cache[id].user.Some? ==> s.cache[id].user.value == s.versions[k].users[id])
  {
    RunKeepsCacheInv(EMPTY, run);
    var s := After(EMPTY, run);
    var o := s.origin[id];
    assert ReadAt(s.versions, o, id, s.cache[id].user, s.cache[id].at);
    assert CurrentAt(s.versions, o.version, o.readAt);
  }

  /** The guard's decision on a cache hit: the account is active and its token version is the token's. */
  predicate Accepts(s: State, token: Token) {
    Hit(s, token.sub) && s.cache[token.sub].user.Some? && s.cache[token.sub].user.value.tokenVersion == token.tv
  }

  /** From version `m` of the table on, the account is past token version `tv`. */
  predicate BehindFrom(versions: seq<Version>, m: nat, id: string, tv: nat) {
    forall k | m <= k < |versions| :: BehindAt(versions[k], id, tv)
  }

  predicate BehindAt(v: Version, id: string, tv: nat) {
    id in v.users && tv < v.users[id].tokenVersion
  }

  /** A run in which a token stays behind leaves it behind in every version committed meanwhile. */
  lemma {:induction false} ThroughoutMeansFrom(s: State, run: seq<Action>, id: string, tv: nat, m: nat)
    requires Tracked(s) && IsRun(s, run) && BehindThroughout(s, run, id, tv)
    requires BehindFrom(s.versions, m, id, tv)
    ensures BehindFrom(After(s, run).versions, m, id, tv)
    decreases |run|
  {
    if run != [] {
      var s1 := Apply(s, run[0]);
      StepKeepsTracked(s, run[0]);
      StepAppends(s, run[0]);
      assert id in s1.users && tv < s1.users[id].tokenVersion;
      forall k | m <= k < |s1.versions| ensures BehindAt(s1.versions[k], id, tv) {
        if k < |s.versions| { assert BehindAt(s.versions[k], id, tv); }
      }
      ThroughoutMeansFrom(s1, run[1..], id, tv, m);
    }
  }

  /**
   * Once a token is behind its account, and as long as every save on the account writes above it, it is
   * refused as soon as the cache's lifetime and the duration of the filling read have passed since the
   * version current then was committed; other lost updates do not matter.
   */
  lemma RevokedWithin(early: seq<Action>, late: seq<Action>, token: Token)
    requires IsRun(EMPTY, early) && IsRun(After(EMPTY, early), late)
    requires var s := After(EMPTY, early); token.sub in s.users && token.tv < s.users[token.sub].tokenVersion
    requires EverySaveAbove(After(EMPTY, early), late, token.sub, token.tv)
    ensures var s := After(EMPTY, early); var end := After(s, late);
      Accepts(end, token) ==>
        token.sub in end.origin
        && end.now < s.versions[|s.versions| - 1].at + USER_STATE_TTL_MS + FillTime(end, token.sub)
  {
    RunKeepsTracked(EMPTY, early);
    RunKeepsCacheInv(EMPTY, early);
    RunKeepsTimes(EMPTY, early);
    RevokedWithinFrom(After(EMPTY, early), late, token);
  }

  lemma RevokedWithinFrom(s: State, run: seq<Action>, token: Token)
    requires Tracked(s) && CacheInv(s) && Timed(s) && IsRun(s, run)
    requires token.sub in s.users && token.tv < s.users[token.sub].tokenVersion
    requires EverySaveAbove(s, run, token.sub, token.tv)
    ensures var end := After(s, run);
      Accepts(end, token) ==>
        token.sub in end.origin
        && end.now < s.versions[|s.versions| - 1].at + USER_STATE_TTL_MS + FillTime(end, token.sub)
  {
    var end, m := After(s, run), |s.versions| - 1;
    RunKeepsTracked(s, run);
    RunKeepsCacheInv(s, run);
    RunKeepsTimes(s, run);
    BehindExactly(s, run, token.sub, token.tv);
    ThroughoutMeansFrom(s, run, token.sub, token.tv, m);
    assert end.versions[m] == s.versions[m];
    if Accepts(end, token) {
      AcceptedWasEarlier(end, token, m);
    }
  }

  /** A token accepted although behind from version `m` on was checked against a row read before that version. */
  lemma AcceptedWasEarlier(s: State, token: Token, m: nat)
    requires CacheInv(s) && Timed(s) && m < |s.versions|
    requires BehindFrom(s.versions, m, token.sub, token.tv) && Accepts(s, token)
    ensures token.sub in s.origin && s.now < s.versions[m].at + USER_STATE_TTL_MS + FillTime(s, token.sub)
  {
    var id := token.sub;
    var o := s.origin[id];
    assert ReadAt(s.versions, o, id, s.cache[id].user, s.cache[id].at);
    Behind(s.versions, o, token, s.cache[id].user, s.cache[id].at, m);
    assert s.versions[o.version + 1].at <= s.versions[m].at;
  }

  /** What was read at version `m` or later does not match a token that is behind from `m` on. */
  lemma Behind(versions: seq<Version>, o: Origin, token: Token, view: Option<User>, at: nat, m: nat)
    requires ReadAt(versions, o, token.sub, view, at) && BehindFrom(versions, m, token.sub, token.tv)
    ensures view.Some? && view.value.tokenVersion == token.tv ==> o.version < m
  {
    assert m <= o.version ==> BehindAt(versions[o.version], token.sub, token.tv);
  }

  /** The other side: a token at its active account's version is accepted after one lookup, however it came to be there. */
  lemma CurrentIsAccepted(s: State, token: Token, op: nat)
    requires s.versions != [] && !Hit(s, token.sub) && op !in s.lookups
    requires token.sub in s.users && !s.users[token.sub].disabled && s.users[token.sub].tokenVersion == token.tv
    ensures var run := [ReadBegin(op, token.sub)] + ([ReadRow(op)] + [ReadFill(op)]);
      IsRun(s, run) && Accepts(After(s, run), token)
  {
    var s1 := Apply(s, ReadBegin(op, token.sub));
    var s2 := Apply(s1, ReadRow(op));
    RunSteps(s2, ReadFill(op), []);
    RunSteps(s1, ReadRow(op), [ReadFill(op)]);
    RunSteps(s, ReadBegin(op, token.sub), [ReadRow(op)] + [ReadFill(op)]);
  }

  ghost predicate Timed(s: State) {
    && s.versions != [] && s.versions[|s.versions| - 1].at <= s.now
    && forall i, j | 0 <= i <= j < |s.versions| :: s.versions[i].at <= s.versions[j].at
  }

  lemma {:induction false} RunKeepsTimes(s: State, run: seq<Action>)
    requires Timed(s) && IsRun(s, run)
    ensures Timed(After(s, run))
    decreases |run|
  {
    if run != [] {
      StepKeepsTimes(s, run[0]);
      RunKeepsTimes(Apply(s, run[0]), run[1..]);
    }
  }

  lemma StepKeepsTimes(s: State, a: Action)
    requires Timed(s) && Enabled(s, a)
    ensures Timed(Apply(s, a))
  {
  }

  // ----- deleting the entry -----

  /** A lookup that is still open has read the account as active with the token's version. */
  predicate Matches(l: Lookup, token: Token) {
    l.Seen? && l.id == token.sub && l.user.Some? && l.user.value.tokenVersion == token.tv
  }

  predicate NoMatchingLookup(s: State, token: Token) {
    forall op | op in s.lookups :: !Matches(s.lookups[op], token)
  }

  /** Nothing in memory would let the token pass: neither a cache entry nor what a lookup has read. */
  predicate NothingMatches(s: State, token: Token) {
    && (token.sub in s.cache ==> s.cache[token.sub].user.Some? ==> s.cache[token.sub].user.value.tokenVersion != token.tv)
    && NoMatchingLookup(s, token)
  }

  predicate IsBehind(s: State, token: Token) {
    token.sub in s.users && token.tv < s.users[token.sub].tokenVersion
  }

  lemma StepKeepsNothingMatches(s: State, a: Action, token: Token)
    requires s.versions != [] && Enabled(s, a) && NothingMatches(s, token) && IsBehind(s, token)
    ensures NothingMatches(Apply(s, a), token)
  {
  }

  lemma {:induction false} RunKeepsNothingMatches(s: State, run: seq<Action>, token: Token)
    requires Tracked(s) && IsRun(s, run) && NothingMatches(s, token) && IsBehind(s, token)
    requires BehindThroughout(s, run, token.sub, token.tv)
    ensures NothingMatches(After(s, run), token)
    decreases |run|
  {
    if run != [] {
      StepKeepsNothingMatches(s, run[0], token);
      StepKeepsTracked(s, run[0]);
      RunKeepsNothingMatches(Apply(s, run[0]), run[1..], token);
    }
  }

  /** From `s` on, as long as every save on the account writes above the token, it is never accepted. */
  ghost predicate NeverAccepted(s: State, token: Token)
    requires s.versions != []
  {
    forall run | IsRun(s, run) && EverySaveAbove(s, run, token.sub, token.tv) :: !Accepts(After(s, run), token)
  }

  /**
   * Deleting the entry makes a revocation effective at once, in that process, if and only if no lookup
   * still open has read the account before it: one that has puts what it read back into the cache.
   */
  lemma DeletionIsEffective(s: State, token: Token)
    requires Tracked(s) && IsBehind(s, token)
    ensures NeverAccepted(Apply(s, CacheDelete(token.sub)), token) <==> NoMatchingLookup(s, token)
  {
    var s1 := Apply(s, CacheDelete(token.sub));
    StepKeepsTracked(s, CacheDelete(token.sub));
    if NoMatchingLookup(s, token) {
      forall run | IsRun(s1, run) && EverySaveAbove(s1, run, token.sub, token.tv) ensures !Accepts(After(s1, run), token) {
        BehindExactly(s1, run, token.sub, token.tv);
        RunKeepsNothingMatches(s1, run, token);
      }
    } else {
      var op :| op in s.lookups && Matches(s.lookups[op], token);
      LookupRefills(s1, token, op);
    }
  }

  /** The lookup that refills the cache; its entry lives for the cache's whole lifetime. */
  lemma LookupRefills(s: State, token: Token, op: nat)
    requires s.versions != [] && op in s.lookups && Matches(s.lookups[op], token)
    ensures IsRun(s, [ReadFill(op)]) && EverySaveAbove(s, [ReadFill(op)], token.sub, token.tv)
    ensures Accepts(After(s, [ReadFill(op)]), token)
  {
    RunSteps(s, ReadFill(op), []);
    assert [ReadFill(op)] + [] == [ReadFill(op)];
  }

  /** A password change within a lookup of the account. */
  function LookedUp(id: string): seq<Action> {
    [ReadBegin(0, id)] + [ReadRow(0)] + Change(1, id)
  }

  function Outlived(id: string, ms: nat): seq<Action> {
    LookedUp(id) + ([CacheDelete(id)] + ([ReadFill(0)] + [Advance(ms)]))
  }

  lemma OutlivedRuns(s: State, id: string, ms: nat)
    requires Tracked(s) && s.cache == map[] && s.lookups == map[] && 1 !in s.held
    requires id in s.users && !s.users[id].disabled
    ensures IsRun(s, Outlived(id, ms))
    ensures var s' := After(s, Outlived(id, ms));
      && s'.users == s.users[id := s.users[id].(hash := "new", tokenVersion := s.users[id].tokenVersion + 1)]
      && id in s'.cache && s'.cache[id] == Entry(Some(s.users[id]), s.now) && s'.now == s.now + ms
  {
    LookedUpRuns(s, id);
    var s1 := After(s, LookedUp(id));
    RefillRuns(s1, id, ms);
    var tail := [CacheDelete(id)] + ([ReadFill(0)] + [Advance(ms)]);
    RunConcat(s, LookedUp(id), tail);
  }

  lemma LookedUpRuns(s: State, id: string)
    requires Tracked(s) && s.cache == map[] && s.lookups == map[] && 1 !in s.held
    requires id in s.users && !s.users[id].disabled
    ensures IsRun(s, LookedUp(id))
    ensures var s' := After(s, LookedUp(id));
      && s'.users == s.users[id := s.users[id].(hash := "new", tokenVersion := s.users[id].tokenVersion + 1)]
      && 0 in s'.lookups && s'.lookups[0].Seen? && s'.lookups[0].id == id && s'.lookups[0].user == Some(s.users[id])
      && s'.now == s.now
  {
    LookupReads(s, id);
    var read := [ReadBegin(0, id)] + [ReadRow(0)];
    ChangeRuns(After(s, read), id, 1);
    RunConcat(s, read, Change(1, id));
  }

  lemma LookupReads(s: State, id: string)
    requires Tracked(s) && !Hit(s, id) && 0 !in s.lookups && id in s.users && !s.users[id].disabled
    ensures var run := [ReadBegin(0, id)] + [ReadRow(0)];
      && IsRun(s, run) && Tracked(After(s, run))
      && After(s, run) == s.(lookups := s.lookups[0 := Seen(id, Some(s.users[id]), Origin(s.now, s.now, |s.versions| - 1))])
  {
    var s1 := s.(lookups := s.lookups[0 := Begun(id, s.now)]);
    var s2 := s.(lookups := s.lookups[0 := Seen(id, Some(s.users[id]), Origin(s.now, s.now, |s.versions| - 1))]);
    BeginStep(s, id);
    RowStep(s1, id);
    assert s1.lookups[0 := s2.lookups[0]] == s2.lookups;
    RunSteps(s1, ReadRow(0), []);
    RunSteps(s, ReadBegin(0, id), [ReadRow(0)]);
  }

  lemma BeginStep(s: State, id: string)
    requires s.versions != [] && !Hit(s, id) && 0 !in s.lookups
    ensures Enabled(s, ReadBegin(0, id)) && Apply(s, ReadBegin(0, id)) == s.(lookups := s.lookups[0 := Begun(id, s.now)])
  {
  }

  lemma RowStep(s: State, id: string)
    requires s.versions != [] && 0 in s.lookups && s.lookups[0] == Begun(id, s.now) && id in s.users && !s.users[id].disabled
    ensures Enabled(s, ReadRow(0))
    ensures Apply(s, ReadRow(0))
         == s.(lookups := s.lookups[0 := Seen(id, Some(s.users[id]), Origin(s.now, s.now, |s.versions| - 1))])
  {
  }

  lemma RefillRuns(s: State, id: string, ms: nat)
    requires s.versions != [] && 0 in s.lookups && s.lookups[0].Seen? && s.lookups[0].id == id
    ensures var run := [CacheDelete(id)] + ([ReadFill(0)] + [Advance(ms)]);
      && IsRun(s, run) && After(s, run).users == s.users && After(s, run).now == s.now + ms
      && id in After(s, run).cache && After(s, run).cache[id] == Entry(s.lookups[0].user, s.now)
  {
    var s1 := Apply(s, CacheDelete(id));
    var s2 := Apply(s1, ReadFill(0));
    RunSteps(s2, Advance(ms), []);
    RunSteps(s1, ReadFill(0), [Advance(ms)]);
    RunSteps(s, CacheDelete(id), [ReadFill(0)] + [Advance(ms)]);
  }

  /**
   * That run from the empty table: a lookup reads the account, its password is changed and its entry
   * deleted, and the lookup fills the cache. The revoked token passes for another lifetime of the cache.
   */
  lemma LookupOutlivesDeletion(id: string, ms: nat)
    ensures var run := SignIn(id) + Outlived(id, ms); var token := Token(id, 0, 1);
      && IsRun(EMPTY, run) && IsBehind(After(EMPTY, run), token)
      && (Accepts(After(EMPTY, run), token) <==> ms < USER_STATE_TTL_MS)
  {
    SignInRuns(id);
    OutlivedRuns(After(EMPTY, SignIn(id)), id, ms);
    RunConcat(EMPTY, SignIn(id), Outlived(id, ms));
  }
}
