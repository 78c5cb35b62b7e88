/**
 * Tokens: each carries the token version of the entity it was issued from. For all runs, lost updates
 * included: exactly when a token stays behind its account, when versions never fall, and when no token
 * is ahead; and the runs in which the code does not meet these conditions.
 */
module AccountTokens {
  import opened Accounts

  /** Between two committed versions of the table no account vanishes and no token version falls. */
  ghost predicate Rising(versions: seq<Version>) {
    forall i, j, id | 0 <= i <= j < |versions| && id in versions[i].users :: RisesBetween(versions, i, j, id)
  }

  predicate RisesBetween(versions: seq<Version>, i: nat, j: nat, id: string)
    requires i <= j < |versions| && id in versions[i].users
  {
    id in versions[j].users && versions[i].users[id].tokenVersion <= versions[j].users[id].tokenVersion
  }

  predicate ReadAsOf(versions: seq<Version>, version: nat, id: string, tv: nat) {
    version < |versions| && id in versions[version].users && versions[version].users[id].tokenVersion == tv
  }

  predicate HeldOk(versions: seq<Version>, held: Held) {
    ReadAsOf(versions, held.version, held.id, held.user.tokenVersion)
  }

  ghost predicate Issued(s: State) {
    && (forall op | op in s.held :: HeldOk(s.versions, s.held[op]))
    && (forall i | 0 <= i < |s.tokens| :: ReadAsOf(s.versions, s.tokens[i].version, s.tokens[i].sub, s.tokens[i].tv))
  }

  ghost predicate TokenInv(s: State) {
    Tracked(s) && Rising(s.versions) && Issued(s)
  }

  // ----- what one save does to a token version -----

  /** The step is a save on the account. */
  predicate Saves(s: State, a: Action, id: string)
    requires Enabled(s, a)
  {
    (a.UpdateCommit? && s.lock.id == id) || (a.PasswordSave? && s.held[a.op].id == id)
  }

  /** The token version that a save writes. */
  function Written(s: State, a: Action): nat
    requires Enabled(s, a) && (a.UpdateCommit? || a.PasswordSave?)
  {
    if a.UpdateCommit? then s.lock.next.tokenVersion else s.held[a.op].user.tokenVersion + 1
  }

  lemma SaveEffect(s: State, a: Action, id: string)
    requires Tracked(s) && Enabled(s, a) && id in s.users
    ensures id in Apply(s, a).users
    ensures Saves(s, a, id) ==> Apply(s, a).users[id].tokenVersion == Written(s, a)
    ensures !Saves(s, a, id) ==> Apply(s, a).users[id] == s.users[id]
  {
  }

  ghost predicate LockDecided(s: State) {
    s.lock.Updating? ==> Decided(s.lock)
  }

  lemma StepKeepsLockDecided(s: State, a: Action)
    requires LockDecided(s) && s.versions != [] && Enabled(s, a)
    ensures LockDecided(Apply(s, a))
  {
    if a.UpdateBegin? && Decide(s.users, a.id, a.newRole, a.disable).Changed? {
      DecideSparesLastAdmin(s.users, a.id, a.newRole, a.disable);
    }
  }

  /** In every run, a transaction saves what it decided on the rows it read. */
  lemma {:induction false} RunKeepsLockDecided(s: State, run: seq<Action>)
    requires LockDecided(s) && s.versions != [] && IsRun(s, run)
    ensures LockDecided(After(s, run))
    decreases |run|
  {
    if run != [] {
      StepKeepsLockDecided(s, run[0]);
      RunKeepsLockDecided(Apply(s, run[0]), run[1..]);
    }
  }

  /**
   * After any run: a password change raises the account's token version if and only if the row is not
   * already past the entity that was loaded; the same holds of disabling, for the entity the transaction read.
   */
  lemma SaveRaisesExactly(run: seq<Action>, a: Action, id: string)
    requires IsRun(EMPTY, run) && Enabled(After(EMPTY, run), a)
    requires id in After(EMPTY, run).users && Saves(After(EMPTY, run), a, id)
    ensures var s := After(EMPTY, run); id in Apply(s, a).users
    ensures var s := After(EMPTY, run); a.PasswordSave? ==>
      (s.users[id].tokenVersion < Apply(s, a).users[id].tokenVersion
       <==> s.users[id].tokenVersion <= s.held[a.op].user.tokenVersion)
    ensures var s := After(EMPTY, run); a.UpdateCommit? ==>
      id in s.lock.all
      && (s.lock.next.disabled && !s.lock.all[id].disabled ==>
            (s.users[id].tokenVersion < Apply(s, a).users[id].tokenVersion
             <==> s.users[id].tokenVersion <= s.lock.all[id].tokenVersion))
  {
    RunKeepsTracked(EMPTY, run);
    RunKeepsLockDecided(EMPTY, run);
    SaveEffect(After(EMPTY, run), a, id);
  }

  // ----- when a token stays behind its account -----

  ghost predicate BehindThroughout(s: State, run: seq<Action>, id: string, tv: nat)
    requires s.versions != [] && IsRun(s, run)
    decreases |run|
  {
    && id in s.users && tv < s.users[id].tokenVersion
    && (run == [] || BehindThroughout(Apply(s, run[0]), run[1..], id, tv))
  }

  predicate EverySaveAbove(s: State, run: seq<Action>, id: string, tv: nat)
    requires s.versions != [] && IsRun(s, run)
    decreases |run|
  {
    run == [] ||
    ((Saves(s, run[0], id) ==> tv < Written(s, run[0])) && EverySaveAbove(Apply(s, run[0]), run[1..], id, tv))
  }

  /**
   * In every run, lost updates included: a token that is behind its account stays behind throughout if
   * and only if every save on the account writes a version above the token's.
   */
  lemma {:induction false} BehindExactly(s: State, run: seq<Action>, id: string, tv: nat)
    requires Tracked(s) && IsRun(s, run) && id in s.users && tv < s.users[id].tokenVersion
    ensures BehindThroughout(s, run, id, tv) <==> EverySaveAbove(s, run, id, tv)
    decreases |run|
  {
    if run != [] {
      SaveEffect(s, run[0], id);
      StepKeepsTracked(s, run[0]);
      if tv < Apply(s, run[0]).users[id].tokenVersion {
        BehindExactly(Apply(s, run[0]), run[1..], id, tv);
      }
    }
  }

  /**
   * Revocation, exactly: a save that raises the version revokes every token the account has reached, and
   * the revocation lasts through the rest of the run if and only if every later save writes above it.
   */
  lemma RevocationExactly(s: State, a: Action, rest: seq<Action>, id: string, tv: nat)
    requires Tracked(s) && Enabled(s, a) && IsRun(Apply(s, a), rest)
    requires id in s.users && Saves(s, a, id) && tv <= s.users[id].tokenVersion < Written(s, a)
    ensures BehindThroughout(Apply(s, a), rest, id, tv) <==> EverySaveAbove(Apply(s, a), rest, id, tv)
  {
    SaveEffect(s, a, id);
    StepKeepsTracked(s, a);
    BehindExactly(Apply(s, a), rest, id, tv);
  }

  // ----- when token versions never fall -----

  /** Every save writes at least the version that is there. */
  predicate EverySaveUpholds(s: State, run: seq<Action>)
    requires s.versions != [] && IsRun(s, run)
    decreases |run|
  {
    run == [] || (Upholds(s, run[0]) && EverySaveUpholds(Apply(s, run[0]), run[1..]))
  }

  predicate Upholds(s: State, a: Action)
    requires Enabled(s, a)
  {
    && (a.UpdateCommit? ==> s.users[s.lock.id].tokenVersion <= Written(s, a))
    && (a.PasswordSave? ==> s.users[s.held[a.op].id].tokenVersion <= Written(s, a))
  }

  predicate NotBelow(last: map<string, User>, next: map<string, User>) {
    forall id | id in last :: id in next && last[id].tokenVersion <= next[id].tokenVersion
  }

  lemma AppendRisingExactly(versions: seq<Version>, v: Version)
    requires versions != []
    ensures Rising(versions + [v]) <==> Rising(versions) && NotBelow(versions[|versions| - 1].users, v.users)
  {
    var longer, n := versions + [v], |versions|;
    if Rising(longer) {
      forall i, j, id | 0 <= i <= j < n && id in versions[i].users ensures RisesBetween(versions, i, j, id) {
        assert id in longer[i].users && RisesBetween(longer, i, j, id);
      }
      forall id | id in versions[n - 1].users
        ensures id in v.users && versions[n - 1].users[id].tokenVersion <= v.users[id].tokenVersion
      {
        assert id in longer[n - 1].users && RisesBetween(longer, n - 1, n, id);
      }
    } else if Rising(versions) && NotBelow(versions[n - 1].users, v.users) {
      AppendRising(versions, v);
    }
  }

  lemma AppendRising(versions: seq<Version>, v: Version)
    requires Rising(versions) && versions != [] && NotBelow(versions[|versions| - 1].users, v.users)
    ensures Rising(versions + [v])
  {
    var longer, n := versions + [v], |versions|;
    forall i, j, id | 0 <= i <= j < |longer| && id in longer[i].users
      ensures RisesBetween(longer, i, j, id)
    {
      if i < n {
        assert RisesBetween(versions, i, if j < n then j else n - 1, id);
      }
    }
  }

  lemma PrefixRising(versions: seq<Version>, longer: seq<Version>)
    requires versions <= longer && Rising(longer)
    ensures Rising(versions)
  {
    forall i, j, id | 0 <= i <= j < |versions| && id in versions[i].users ensures RisesBetween(versions, i, j, id) {
      assert id in longer[i].users && RisesBetween(longer, i, j, id);
    }
  }

  lemma UpholdsIsNotBelow(s: State, a: Action)
    requires Tracked(s) && Enabled(s, a)
    ensures Upholds(s, a) <==> NotBelow(s.users, Apply(s, a).users)
  {
    var s' := Apply(s, a);
    if a.UpdateCommit? {
      assert s'.users[s.lock.id].tokenVersion == Written(s, a);
    } else if a.PasswordSave? {
      assert s'.users[s.held[a.op].id].tokenVersion == Written(s, a);
    }
  }

  lemma StepAppends(s: State, a: Action)
    requires Tracked(s) && Enabled(s, a)
    ensures var s' := Apply(s, a);
      (s'.versions == s.versions && s'.users == s.users) || s'.versions == s.versions + [Version(s.now, s'.users)]
  {
  }

  lemma StepRisingExactly(s: State, a: Action)
    requires Tracked(s) && Enabled(s, a) && Rising(s.versions)
    ensures Rising(Apply(s, a).versions) <==> Upholds(s, a)
  {
    StepAppends(s, a);
    UpholdsIsNotBelow(s, a);
    AppendRisingExactly(s.versions, Version(s.now, Apply(s, a).users));
  }

  /** In every run, lost updates included: no token version ever falls if and only if every save upholds its row's. */
  lemma {:induction false} RisingExactly(s: State, run: seq<Action>)
    requires Tracked(s) && Rising(s.versions) && IsRun(s, run)
    ensures Rising(After(s, run).versions) <==> EverySaveUpholds(s, run)
    decreases |run|
  {
    if run != [] {
      var s1 := Apply(s, run[0]);
      StepKeepsTracked(s, run[0]);
      StepRisingExactly(s, run[0]);
      RunKeepsTracked(s1, run[1..]);
      if Upholds(s, run[0]) {
        RisingExactly(s1, run[1..]);
      } else if Rising(After(s, run).versions) {
        PrefixRising(s1.versions, After(s, run).versions);
      }
    }
  }

  lemma ReadAsOfGrows(versions: seq<Version>, versions': seq<Version>, version: nat, id: string, tv: nat)
    requires versions <= versions' && ReadAsOf(versions, version, id, tv)
    ensures ReadAsOf(versions', version, id, tv)
  {
  }

  lemma HeldStaysIssued(s: State, a: Action, op: nat)
    requires Tracked(s) && Issued(s) && Enabled(s, a) && op in Apply(s, a).held
    ensures HeldOk(Apply(s, a).versions, Apply(s, a).held[op])
  {
    var s' := Apply(s, a);
    StepKeepsTracked(s, a);
    if op in s.held && s'.held[op] == s.held[op] {
      var h := s.held[op];
      ReadAsOfGrows(s.versions, s'.versions, h.version, h.id, h.user.tokenVersion);
    } else {
      NewHeldIsCurrent(s, a, op);
    }
  }

  /** An entity newly in memory was just read or written. */
  lemma NewHeldIsCurrent(s: State, a: Action, op: nat)
    requires Tracked(s) && Enabled(s, a)
    requires op in Apply(s, a).held && (op !in s.held || Apply(s, a).held[op] != s.held[op])
    ensures HeldOk(Apply(s, a).versions, Apply(s, a).held[op])
  {
  }

  lemma TokenStaysIssued(s: State, a: Action, i: nat)
    requires Tracked(s) && Issued(s) && Enabled(s, a) && i < |Apply(s, a).tokens|
    ensures var s' := Apply(s, a); ReadAsOf(s'.versions, s'.tokens[i].version, s'.tokens[i].sub, s'.tokens[i].tv)
  {
    var s' := Apply(s, a);
    StepKeepsTracked(s, a);
    var t := if i < |s.tokens| then s.tokens[i] else s'.tokens[i];
    assert s'.tokens[i] == t;
    ReadAsOfGrows(s.versions, s'.versions, t.version, t.sub, t.tv);
  }

  lemma StepKeepsIssued(s: State, a: Action)
    requires Tracked(s) && Issued(s) && Enabled(s, a)
    ensures Issued(Apply(s, a))
  {
    var s' := Apply(s, a);
    forall op | op in s'.held
      ensures HeldOk(s'.versions, s'.held[op])
    {
      HeldStaysIssued(s, a, op);
    }
    forall i | 0 <= i < |s'.tokens|
      ensures ReadAsOf(s'.versions, s'.tokens[i].version, s'.tokens[i].sub, s'.tokens[i].tv)
    {
      TokenStaysIssued(s, a, i);
    }
  }

  lemma {:induction false} RunKeepsIssued(s: State, run: seq<Action>)
    requires Tracked(s) && Issued(s) && IsRun(s, run)
    ensures Issued(After(s, run))
    decreases |run|
  {
    if run != [] {
      StepKeepsTracked(s, run[0]);
      StepKeepsIssued(s, run[0]);
      RunKeepsIssued(Apply(s, run[0]), run[1..]);
    }
  }

  lemma RunKeepsTokenInv(s: State, run: seq<Action>)
    requires TokenInv(s) && IsRun(s, run) && EverySaveUpholds(s, run)
    ensures TokenInv(After(s, run)) && s.versions <= After(s, run).versions
  {
    RunKeepsTracked(s, run);
    RunKeepsIssued(s, run);
    RisingExactly(s, run);
  }

  // ----- when no token is ahead of its account -----

  predicate NotAhead(s: State, token: Token) {
    token.sub in s.users && token.tv <= s.users[token.sub].tokenVersion
  }

  ghost predicate NoneAhead(s: State) {
    forall i | 0 <= i < |s.tokens| :: NotAhead(s, s.tokens[i])
  }

  /** A save does not write below an issued token, and a token is not issued from an entity past its row. */
  predicate KeepsUp(s: State, a: Action)
    requires Enabled(s, a)
  {
    && (a.Issue? ==> s.held[a.op].id in s.users && s.held[a.op].user.tokenVersion <= s.users[s.held[a.op].id].tokenVersion)
    && (a.UpdateCommit? || a.PasswordSave? ==>
          forall i | 0 <= i < |s.tokens| && Saves(s, a, s.tokens[i].sub) :: s.tokens[i].tv <= Written(s, a))
  }

  predicate EveryStepKeepsUp(s: State, run: seq<Action>)
    requires s.versions != [] && IsRun(s, run)
    decreases |run|
  {
    run == [] || (KeepsUp(s, run[0]) && EveryStepKeepsUp(Apply(s, run[0]), run[1..]))
  }

  ghost predicate NoneAheadThroughout(s: State, run: seq<Action>)
    requires s.versions != [] && IsRun(s, run)
    decreases |run|
  {
    NoneAhead(s) && (run == [] || NoneAheadThroughout(Apply(s, run[0]), run[1..]))
  }

  lemma TokensAfterStep(s: State, a: Action)
    requires s.versions != [] && Enabled(s, a)
    ensures Apply(s, a).tokens == if a.Issue?
      then s.tokens + [Token(s.held[a.op].id, s.held[a.op].user.tokenVersion, s.held[a.op].version)] else s.tokens
  {
  }

  lemma StepNoneAheadExactly(s: State, a: Action)
    requires Tracked(s) && NoneAhead(s) && Enabled(s, a)
    ensures NoneAhead(Apply(s, a)) <==> KeepsUp(s, a)
  {
    var s' := Apply(s, a);
    TokensAfterStep(s, a);
    forall i | 0 <= i < |s.tokens| ensures
      s'.tokens[i] == s.tokens[i] && (NotAhead(s', s.tokens[i]) <==> (Saves(s, a, s.tokens[i].sub) ==> s.tokens[i].tv <= Written(s, a)))
    {
      assert NotAhead(s, s.tokens[i]);
      SaveEffect(s, a, s.tokens[i].sub);
    }
    if a.Issue? {
      SaveEffect(s, a, s.held[a.op].id);
      assert NotAhead(s', s'.tokens[|s.tokens|]) <==> KeepsUp(s, a);
    }
  }

  /** In every run, lost updates included: no token is ever ahead of its account if and only if every step keeps up. */
  lemma {:induction false} NoneAheadExactly(s: State, run: seq<Action>)
    requires Tracked(s) && NoneAhead(s) && IsRun(s, run)
    ensures NoneAheadThroughout(s, run) <==> EveryStepKeepsUp(s, run)
    decreases |run|
  {
    if run != [] {
      StepKeepsTracked(s, run[0]);
      StepNoneAheadExactly(s, run[0]);
      if NoneAhead(Apply(s, run[0])) {
        NoneAheadExactly(Apply(s, run[0]), run[1..]);
      }
    }
  }

  /** Where every save upholds its row's version, no token is ahead of its account. */
  lemma TokensNeverAhead(run: seq<Action>, i: nat)
    requires IsRun(EMPTY, run) && EverySaveUpholds(EMPTY, run) && i < |After(EMPTY, run).tokens|
    ensures NotAhead(After(EMPTY, run), After(EMPTY, run).tokens[i])
  {
    RunKeepsTokenInv(EMPTY, run);
    var s := After(EMPTY, run);
    var token := s.tokens[i];
    assert ReadAsOf(s.versions, token.version, token.sub, token.tv);
    assert RisesBetween(s.versions, token.version, |s.versions| - 1, token.sub);
  }

  /**
   * Where every save upholds, a save that raises the version puts every token issued from an entity read
   * before it, whether issued before or later, behind the account for good.
   */
  lemma RevocationIsForever(s: State, a: Action, rest: seq<Action>, id: string, i: nat)
    requires TokenInv(s) && Enabled(s, a) && id in s.users && Saves(s, a, id) && s.users[id].tokenVersion < Written(s, a)
    requires IsRun(Apply(s, a), rest) && EverySaveUpholds(Apply(s, a), rest)
    requires i < |After(Apply(s, a), rest).tokens|
    requires var token := After(Apply(s, a), rest).tokens[i]; token.sub == id && token.version < |s.versions|
    ensures var end := After(Apply(s, a), rest); id in end.users && end.tokens[i].tv < end.users[id].tokenVersion
  {
    var s1, m := Apply(s, a), |s.versions|;
    RaisingKeepsTokenInv(s, a, id);
    RunKeepsTokenInv(s1, rest);
    var end := After(s1, rest);
    assert end.versions[m - 1] == s.versions[m - 1] && end.versions[m] == s1.versions[m];
    BehindForGood(end.versions, end.tokens[i], m);
  }

  lemma RaisingKeepsTokenInv(s: State, a: Action, id: string)
    requires TokenInv(s) && Enabled(s, a) && id in s.users && Saves(s, a, id) && s.users[id].tokenVersion < Written(s, a)
    ensures var s1 := Apply(s, a);
      && TokenInv(s1) && |s1.versions| == |s.versions| + 1 && s.versions <= s1.versions
      && id in s1.users && s.users[id].tokenVersion < s1.users[id].tokenVersion
  {
    SaveEffect(s, a, id);
    StepKeepsTracked(s, a);
    StepKeepsIssued(s, a);
    StepAppends(s, a);
    StepRisingExactly(s, a);
  }

  /** A token read before a version that raised its account's token version is behind at the last one. */
  lemma BehindForGood(versions: seq<Version>, token: Token, m: nat)
    requires Rising(versions) && ReadAsOf(versions, token.version, token.sub, token.tv)
    requires token.version < m < |versions|
    requires token.sub in versions[m - 1].users && token.sub in versions[m].users
    requires versions[m - 1].users[token.sub].tokenVersion < versions[m].users[token.sub].tokenVersion
    ensures var last := versions[|versions| - 1].users; token.sub in last && token.tv < last[token.sub].tokenVersion
  {
    assert RisesBetween(versions, token.version, m - 1, token.sub);
    assert RisesBetween(versions, m, |versions| - 1, token.sub);
  }

  // ----- what an update and a password change do -----

  function UpdateRun(id: string, role: Option<Role>, disabled: Option<bool>): seq<Action> {
    [UpdateBegin(id, role, disabled)] + [UpdateCommit]
  }

  /**
   * An update that is not refused and changes something, nothing happening in between: the account has
   * the requested role and state, keeps the rest, and no other account changes.
   */
  lemma UpdateTakesEffect(s: State, id: string, role: Option<Role>, disabled: Option<bool>)
    requires Tracked(s) && s.lock.Free? && id in s.users
    requires !(s.users[id].role == Admin && !s.users[id].disabled && !AnotherAdminIsEnabled(s.users, id))
    requires (role.Some? && role.value != s.users[id].role) || (disabled.Some? && disabled.value != s.users[id].disabled)
    ensures IsRun(s, UpdateRun(id, role, disabled))
    ensures var s', was := After(s, UpdateRun(id, role, disabled)), s.users[id];
      && s'.users.Keys == s.users.Keys && s'.lock.Free? && s'.tokens == s.tokens
      && (forall other | other in s.users && other != id :: s'.users[other] == s.users[other])
      && s'.users[id].role == (if role.Some? then role.value else was.role)
      && s'.users[id].disabled == (if disabled.Some? then disabled.value else was.disabled)
      && s'.users[id].hash == was.hash
      && s'.users[id].tokenVersion == was.tokenVersion + (if !was.disabled && s'.users[id].disabled then 1 else 0)
  {
    DecideExactly(s.users, id, role, disabled);
    UpdateSteps(s, id, role, disabled);
    var s1 := Apply(s, UpdateBegin(id, role, disabled));
    RunSteps(s1, UpdateCommit, []);
    RunSteps(s, UpdateBegin(id, role, disabled), [UpdateCommit]);
  }

  lemma UpdateSteps(s: State, id: string, role: Option<Role>, disabled: Option<bool>)
    requires Tracked(s) && s.lock.Free? && Decide(s.users, id, role, disabled).Changed? && id in s.users
    ensures Enabled(s, UpdateBegin(id, role, disabled))
    ensures var s1 := Apply(s, UpdateBegin(id, role, disabled));
      && Enabled(s1, UpdateCommit) && s1.users == s.users && s1.tokens == s.tokens
      && var s2 := Apply(s1, UpdateCommit);
         s2.users == s.users[id := Decide(s.users, id, role, disabled).user] && s2.lock.Free? && s2.tokens == s.tokens
  {
  }

  /** Disabling an account puts every token at or below the version it had behind it. */
  lemma DisablingRevokes(s: State, id: string, role: Option<Role>, i: nat)
    requires Tracked(s) && s.lock.Free? && id in s.users && !s.users[id].disabled
    requires !(s.users[id].role == Admin && !AnotherAdminIsEnabled(s.users, id))
    requires i < |s.tokens| && s.tokens[i].sub == id && s.tokens[i].tv <= s.users[id].tokenVersion
    ensures IsRun(s, UpdateRun(id, role, Some(true)))
    ensures var s' := After(s, UpdateRun(id, role, Some(true)));
      id in s'.users && s'.users[id].disabled && i < |s'.tokens| && s'.tokens[i].tv < s'.users[id].tokenVersion
  {
    UpdateTakesEffect(s, id, role, Some(true));
  }

  /** A request that is refused, or asks for what is there, changes nothing. */
  lemma RefusedUpdateChangesNothing(s: State, id: string, role: Option<Role>, disabled: Option<bool>)
    requires s.versions != [] && s.lock.Free?
    requires id in s.users ==>
      || (s.users[id].role == Admin && !s.users[id].disabled && !AnotherAdminIsEnabled(s.users, id)
          && ((role.Some? && role.value != Admin) || (disabled.Some? && disabled.value)))
      || ((role.Some? ==> role.value == s.users[id].role) && (disabled.Some? ==> disabled.value == s.users[id].disabled))
    ensures Enabled(s, UpdateBegin(id, role, disabled)) && Apply(s, UpdateBegin(id, role, disabled)) == s
  {
    DecideExactly(s.users, id, role, disabled);
  }

  function PasswordRun(op: nat, id: string, hash: string): seq<Action> {
    [Load(op, id)] + [PasswordSave(op, hash)]
  }

  /** A password change that nothing comes between sets the hash and raises the version, and changes nothing else. */
  lemma PasswordTakesEffect(s: State, op: nat, id: string, hash: string)
    requires Tracked(s) && id in s.users && op !in s.held
    ensures IsRun(s, PasswordRun(op, id, hash))
    ensures var s' := After(s, PasswordRun(op, id, hash));
      && s'.users.Keys == s.users.Keys && s'.tokens == s.tokens
      && (forall other | other in s.users && other != id :: s'.users[other] == s.users[other])
      && s'.users[id].hash == hash && s'.users[id].tokenVersion == s.users[id].tokenVersion + 1
      && s'.users[id].role == s.users[id].role && s'.users[id].disabled == s.users[id].disabled
  {
    PasswordSteps(s, op, id, hash);
    var s1 := Apply(s, Load(op, id));
    RunSteps(s1, PasswordSave(op, hash), []);
    RunSteps(s, Load(op, id), [PasswordSave(op, hash)]);
  }

  lemma PasswordSteps(s: State, op: nat, id: string, hash: string)
    requires Tracked(s) && id in s.users && op !in s.held
    ensures Enabled(s, Load(op, id)) && Enabled(Apply(s, Load(op, id)), PasswordSave(op, hash))
    ensures var s' := Apply(Apply(s, Load(op, id)), PasswordSave(op, hash));
      && s'.users == s.users[id := s.users[id].(hash := hash, tokenVersion := s.users[id].tokenVersion + 1)]
      && s'.tokens == s.tokens
  {
  }

  // ----- who gets a token -----

  /** Version `version` of the table had this row. */
  predicate HadRow(versions: seq<Version>, version: nat, id: string, user: User) {
    version < |versions| && id in versions[version].users && versions[version].users[id] == user
  }

  predicate IssuedEnabled(versions: seq<Version>, token: Token) {
    && ReadAsOf(versions, token.version, token.sub, token.tv)
    && !versions[token.version].users[token.sub].disabled
  }

  /** Every entity in memory was a row, and every token was issued from the row of an enabled account. */
  ghost predicate FromRows(s: State) {
    && (forall op | op in s.held :: HadRow(s.versions, s.held[op].version, s.held[op].id, s.held[op].user))
    && (forall i | 0 <= i < |s.tokens| :: IssuedEnabled(s.versions, s.tokens[i]))
  }

  lemma StepKeepsFromRows(s: State, a: Action)
    requires Tracked(s) && FromRows(s) && Enabled(s, a)
    ensures FromRows(Apply(s, a))
  {
    var s' := Apply(s, a);
    StepKeepsTracked(s, a);
    TokensAfterStep(s, a);
    forall op | op in s'.held ensures HadRow(s'.versions, s'.held[op].version, s'.held[op].id, s'.held[op].user) {
      HeldHadRow(s, a, op);
    }
    forall i | 0 <= i < |s'.tokens| ensures IssuedEnabled(s'.versions, s'.tokens[i]) {
      if i < |s.tokens| {
        assert IssuedEnabled(s.versions, s.tokens[i]);
      } else {
        assert HadRow(s.versions, s.held[a.op].version, s.held[a.op].id, s.held[a.op].user);
      }
    }
  }

  lemma HeldHadRow(s: State, a: Action, op: nat)
    requires Tracked(s) && FromRows(s) && Enabled(s, a) && op in Apply(s, a).held
    ensures var s' := Apply(s, a); HadRow(s'.versions, s'.held[op].version, s'.held[op].id, s'.held[op].user)
  {
    StepKeepsTracked(s, a);
    if op in s.held && Apply(s, a).held[op] == s.held[op] {
      assert HadRow(s.versions, s.held[op].version, s.held[op].id, s.held[op].user);
    }
  }

  lemma {:induction false} RunKeepsFromRows(s: State, run: seq<Action>)
    requires Tracked(s) && FromRows(s) && IsRun(s, run)
    ensures FromRows(After(s, run))
    decreases |run|
  {
    if run != [] {
      StepKeepsTracked(s, run[0]);
      StepKeepsFromRows(s, run[0]);
      RunKeepsFromRows(Apply(s, run[0]), run[1..]);
    }
  }

  /** In every run: a token carries the version of the row it was issued from, and that account was enabled then. */
  lemma TokensAreOfEnabled(run: seq<Action>, i: nat)
    requires IsRun(EMPTY, run) && i < |After(EMPTY, run).tokens|
    ensures var s := After(EMPTY, run); var token := s.tokens[i];
      && token.version < |s.versions| && token.sub in s.versions[token.version].users
      && s.versions[token.version].users[token.sub].tokenVersion == token.tv
      && !s.versions[token.version].users[token.sub].disabled
  {
    RunKeepsFromRows(EMPTY, run);
    assert IssuedEnabled(After(EMPTY, run).versions, After(EMPTY, run).tokens[i]);
  }

  /** A sign-in reads the account and gets a token for what it is at that moment. */
  lemma SignInGetsCurrent(s: State, op: nat, id: string)
    requires Tracked(s) && id in s.users && !s.users[id].disabled && op !in s.held
    ensures var run := [Load(op, id)] + [Issue(op)];
      && IsRun(s, run) && After(s, run).users == s.users && |After(s, run).tokens| == |s.tokens| + 1
      && var token := After(s, run).tokens[|s.tokens|];
         token.sub == id && token.tv == s.users[id].tokenVersion && token.version == |s.versions| - 1
  {
    var s1 := Apply(s, Load(op, id));
    RunSteps(s1, Issue(op), []);
    RunSteps(s, Load(op, id), [Issue(op)]);
  }

  // ----- runs that meet the conditions, and runs that do not -----

  /** The row a save replaces is still the one its entity was loaded from: no update is lost. */
  predicate Undisturbed(s: State, a: Action)
    requires Enabled(s, a)
  {
    && (a.UpdateCommit? ==> s.lock.id in s.lock.all && s.users[s.lock.id] == s.lock.all[s.lock.id])
    && (a.PasswordSave? ==> s.users[s.held[a.op].id] == s.held[a.op].user)
  }

  /** After any run, a save that loses no update upholds its row's version and keeps standing; a password change or a disable raises it. */
  lemma UndisturbedIsSafe(run: seq<Action>, a: Action, id: string)
    requires IsRun(EMPTY, run) && Enabled(After(EMPTY, run), a) && Undisturbed(After(EMPTY, run), a)
    ensures var s := After(EMPTY, run);
      && Upholds(s, a) && KeepsStanding(s, a)
      && (id in s.users && Saves(s, a, id) && (a.PasswordSave? || (s.lock.next.disabled && !s.users[id].disabled))
          ==> s.users[id].tokenVersion < Written(s, a))
  {
    RunKeepsTracked(EMPTY, run);
    RunKeepsLockDecided(EMPTY, run);
  }

  /** Two overlapped password changes: the second save writes the version the first one wrote, and its token stays valid. */
  lemma OverlapKeepsToken(s: State, first: nat, second: nat, h: string, g: string)
    requires Tracked(s) && first != second && first in s.held && second in s.held
    requires s.held[first].id == s.held[second].id && s.held[first].user == s.held[second].user
    requires !s.held[first].user.disabled
    ensures var run := [PasswordSave(first, h)] + ([Issue(first)] + [PasswordSave(second, g)]);
      && IsRun(s, run) && |After(s, run).tokens| == |s.tokens| + 1
      && var token := After(s, run).tokens[|s.tokens|];
         token.sub == s.held[first].id && token.sub in After(s, run).users
         && token.tv == After(s, run).users[token.sub].tokenVersion
  {
    var s1 := Apply(s, PasswordSave(first, h));
    var s2 := Apply(s1, Issue(first));
    RunSteps(s2, PasswordSave(second, g), []);
    RunSteps(s1, Issue(first), [PasswordSave(second, g)]);
    RunSteps(s, PasswordSave(first, h), [Issue(first)] + [PasswordSave(second, g)]);
  }

  function UndoneChange(id: string, op: nat, role: Role, h: string): seq<Action> {
    [UpdateBegin(id, Some(role), None)] + ([Load(op, id)] + ([PasswordSave(op, h)] + [UpdateCommit]))
  }

  /**
   * A whole password change between the read and the save of an `updateUser` on the same account is
   * undone by that save: the old hash and the old token version are back, and with them every token.
   */
  lemma UpdateUndoesPassword(s: State, id: string, op: nat, role: Role, h: string)
    requires Tracked(s) && s.lock.Free? && id in s.users && op !in s.held
    requires Decide(s.users, id, Some(role), None).Changed?
    ensures IsRun(s, UndoneChange(id, op, role, h))
    ensures var s' := After(s, UndoneChange(id, op, role, h));
      && s'.users == s.users[id := s.users[id].(role := role)] && s'.tokens == s.tokens
  {
    var s1 := Apply(s, UpdateBegin(id, Some(role), None));
    var s2 := Apply(s1, Load(op, id));
    var s3 := Apply(s2, PasswordSave(op, h));
    RunSteps(s3, UpdateCommit, []);
    RunSteps(s2, PasswordSave(op, h), [UpdateCommit]);
    RunSteps(s1, Load(op, id), [PasswordSave(op, h)] + [UpdateCommit]);
    RunSteps(s, UpdateBegin(id, Some(role), None), [Load(op, id)] + ([PasswordSave(op, h)] + [UpdateCommit]));
  }

  function SignIn(id: string): seq<Action> {
    [Create(id, Viewer, "old")] + ([Load(0, id)] + [Issue(0)])
  }

  lemma SignInRuns(id: string)
    ensures IsRun(EMPTY, SignIn(id))
    ensures var s := After(EMPTY, SignIn(id));
      && Tracked(s) && s.lock.Free? && s.users == map[id := User(Viewer, false, 0, "old")]
      && s.tokens == [Token(id, 0, 1)] && 1 !in s.held && s.cache == map[] && s.lookups == map[]
  {
    var s1 := Apply(EMPTY, Create(id, Viewer, "old"));
    var s2 := Apply(s1, Load(0, id));
    RunSteps(s2, Issue(0), []);
    RunSteps(s1, Load(0, id), [Issue(0)]);
    RunSteps(EMPTY, Create(id, Viewer, "old"), [Load(0, id)] + [Issue(0)]);
  }

  /** That run from the empty table: the token issued first is its account's again after the password change. */
  lemma RevokedTokenReturns(id: string)
    ensures var run := SignIn(id) + UndoneChange(id, 1, Operator, "new");
      && IsRun(EMPTY, run) && After(EMPTY, run).tokens == [Token(id, 0, 1)]
      && After(EMPTY, run).users == map[id := User(Operator, false, 0, "old")]
  {
    SignInRuns(id);
    var s := After(EMPTY, SignIn(id));
    assert Decide(s.users, id, Some(Operator), None) == Changed(User(Operator, false, 0, "old"));
    UpdateUndoesPassword(s, id, 1, Operator, "new");
    RunConcat(EMPTY, SignIn(id), UndoneChange(id, 1, Operator, "new"));
  }

  function Change(op: nat, id: string): seq<Action> { [Load(op, id)] + [PasswordSave(op, "new")] }

  /** Two changes and a token from the second, overlapped by an older one, leave that token ahead of its account. */
  lemma OverlapLeavesTokenAhead(s: State, id: string, stale: nat, a: nat, b: nat)
    requires Tracked(s) && stale in s.held && s.held[stale].id == id && id in s.users && s.users[id] == s.held[stale].user
    requires a != b && a !in s.held && b !in s.held && !s.users[id].disabled
    ensures var run := Change(a, id) + (Change(b, id) + ([Issue(b)] + [PasswordSave(stale, "late")]));
      && IsRun(s, run) && |After(s, run).tokens| == |s.tokens| + 1
      && var token := After(s, run).tokens[|s.tokens|]; token.sub == id && !NotAhead(After(s, run), token)
  {
    ChangeRuns(s, id, a);
    var s1 := After(s, Change(a, id));
    ChangeRuns(s1, id, b);
    var s2 := After(s1, Change(b, id));
    var s3 := Apply(s2, Issue(b));
    var tail := [Issue(b)] + [PasswordSave(stale, "late")];
    RunSteps(s3, PasswordSave(stale, "late"), []);
    RunSteps(s2, Issue(b), [PasswordSave(stale, "late")]);
    RunConcat(s1, Change(b, id), tail);
    RunConcat(s, Change(a, id), Change(b, id) + tail);
  }

  lemma ChangeRuns(s: State, id: string, op: nat)
    requires Tracked(s) && id in s.users && op !in s.held
    ensures IsRun(s, Change(op, id))
    ensures var s' := After(s, Change(op, id));
      && Tracked(s') && s'.users == s.users[id := s.users[id].(hash := "new", tokenVersion := s.users[id].tokenVersion + 1)]
      && op in s'.held && s'.held[op].id == id && s'.held[op].user == s'.users[id]
      && s'.held - {op} == s.held && s'.tokens == s.tokens
      && s'.now == s.now && s'.cache == s.cache && s'.lookups == s.lookups
  {
    var s1 := Apply(s, Load(op, id));
    RunSteps(s1, PasswordSave(op, "new"), []);
    RunSteps(s, Load(op, id), [PasswordSave(op, "new")]);
  }
}
