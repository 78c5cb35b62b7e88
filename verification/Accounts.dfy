/**
 * Accounts: the users table, its writers, the tokens handed out and the state cache of one process.
 * `register` and `updateUser` hold an advisory lock; `createUser` and password changes do not. Every
 * `save` writes the entity that was loaded earlier, so a change made in between is overwritten.
 */
module Accounts {
  datatype Option<+T> = None | Some(value: T)

  datatype Role = Admin | Operator | Viewer

  datatype User = User(role: Role, disabled: bool, tokenVersion: nat, hash: string)

  predicate IsActiveAdmin(u: User) {
    u.role.Admin? && !u.disabled
  }

  ghost predicate HasActiveAdmin(users: map<string, User>) {
    exists id :: id in users && IsActiveAdmin(users[id])
  }

  /** The transaction that holds the advisory lock: what it read and what it will save. */
  datatype Lock = Free | Updating(id: string, all: map<string, User>, next: User)

  /** An entity in memory, and the version of the table it was read from or saved as. */
  datatype Held = Held(id: string, user: User, version: nat)

  datatype Token = Token(sub: string, tv: nat, version: nat)

  datatype Entry = Entry(user: Option<User>, at: nat)

  /** Where a cache entry came from: when its read began, when the row was read and at which version. */
  datatype Origin = Origin(since: nat, readAt: nat, version: nat)

  datatype Lookup =
    | Begun(id: string, since: nat)
    | Seen(id: string, user: Option<User>, origin: Origin)

  /** A committed state of the table, and the instant it was committed. */
  datatype Version = Version(at: nat, users: map<string, User>)

  datatype State = State(
    now: nat, users: map<string, User>, lock: Lock, held: map<nat, Held>, tokens: seq<Token>,
    cache: map<string, Entry>, origin: map<string, Origin>, lookups: map<nat, Lookup>,
    versions: seq<Version>, registered: seq<string>)

  const EMPTY := State(0, map[], Free, map[], [], map[], map[], map[], [Version(0, map[])], [])

  const USER_STATE_TTL_MS := 10000

  datatype Action =
    | Advance(ms: nat)
    | Restart
    | Register(op: nat, id: string, hash: string)
    | Create(id: string, role: Role, hash: string)
    | UpdateBegin(id: string, newRole: Option<Role>, disable: Option<bool>)
    | UpdateCommit
    | UpdateAbort
    | Load(op: nat, id: string)
    | PasswordSave(op: nat, hash: string)
    | Issue(op: nat)
    | CacheDelete(id: string)
    | ReadBegin(op: nat, id: string)
    | ReadRow(op: nat)
    | ReadFill(op: nat)

  // ----- updateUser's decision -----

  datatype Decision = NotFound | LastAdmin | Unchanged | Changed(user: User)

  function ActiveAdmins(all: map<string, User>): set<string> {
    set id | id in all && IsActiveAdmin(all[id])
  }

  /** The entity after the two assignments; disabling bumps the token version. */
  function Edited(u: User, role: Option<Role>, disabled: Option<bool>): User {
    var u1 := if role.Some? then u.(role := role.value) else u;
    if disabled.Some? && disabled.value != u.disabled then
      u1.(disabled := disabled.value, tokenVersion := if disabled.value then u.tokenVersion + 1 else u.tokenVersion)
    else u1
  }

  function Decide(all: map<string, User>, id: string, role: Option<Role>, disabled: Option<bool>): Decision {
    if id !in all then NotFound
    else
      var u := all[id];
      var nextRole := if role.Some? then role.value else u.role;
      var nextDisabled := if disabled.Some? then disabled.value else u.disabled;
      var stays := nextRole.Admin? && !nextDisabled;
      if IsActiveAdmin(u) && !stays && |ActiveAdmins(all)| <= 1 then LastAdmin
      else if Edited(u, role, disabled) == u then Unchanged
      else Changed(Edited(u, role, disabled))
  }

  ghost predicate OtherActiveAdmin(users: map<string, User>, id: string) {
    exists other :: other != id && other in users && IsActiveAdmin(users[other])
  }

  /**
   * An update passes the check only if the account stays an active admin, was none, or is not the only
   * one; disabling, and nothing else, raises the token version.
   */
  lemma DecideSparesLastAdmin(all: map<string, User>, id: string, role: Option<Role>, disabled: Option<bool>)
    requires Decide(all, id, role, disabled).Changed?
    ensures id in all
    ensures var next := Decide(all, id, role, disabled).user;
      && (IsActiveAdmin(all[id]) && !IsActiveAdmin(next) ==> OtherActiveAdmin(all, id))
      && next.tokenVersion == all[id].tokenVersion + (if next.disabled && !all[id].disabled then 1 else 0)
  {
    var next := Decide(all, id, role, disabled).user;
    if IsActiveAdmin(all[id]) && !IsActiveAdmin(next) {
      var admins := ActiveAdmins(all);
      assert id in admins && |admins| >= 2;
      assert |admins - {id}| == |admins| - 1;
      var other :| other in admins - {id};
      assert other in all && IsActiveAdmin(all[other]);
    }
  }

  /** Some account other than `id` is an admin and enabled. */
  ghost predicate AnotherAdminIsEnabled(users: map<string, User>, id: string) {
    exists other :: other != id && other in users && users[other].role == Admin && !users[other].disabled
  }

  /** With the account itself counted, at most one active admin means that no other account is one. */
  lemma OnlyAdmin(all: map<string, User>, id: string)
    requires id in ActiveAdmins(all)
    ensures |ActiveAdmins(all)| <= 1 <==> !AnotherAdminIsEnabled(all, id)
  {
    var rest := ActiveAdmins(all) - {id};
    assert |rest| == |ActiveAdmins(all)| - 1;
    if AnotherAdminIsEnabled(all, id) {
      var other :| other != id && other in all && all[other].role == Admin && !all[other].disabled;
      assert other in rest;
    }
    if rest != {} {
      var other :| other in rest;
      assert other != id && other in all && all[other].role == Admin && !all[other].disabled;
    }
  }

  /**
   * What a request to change role or state decides, field by field: refused for an unknown account and
   * for taking the last enabled admin away, nothing to save if every requested field is there already,
   * and otherwise the account with exactly the requested fields changed.
   */
  lemma DecideExactly(all: map<string, User>, id: string, role: Option<Role>, disabled: Option<bool>)
    ensures var d := Decide(all, id, role, disabled);
      && (d == NotFound <==> id !in all)
      && (d == LastAdmin <==>
            && id in all && all[id].role == Admin && !all[id].disabled
            && ((role.Some? && role.value != Admin) || (disabled.Some? && disabled.value))
            && !AnotherAdminIsEnabled(all, id))
      && (d == Unchanged <==>
            && id in all && d != LastAdmin
            && (role.Some? ==> role.value == all[id].role) && (disabled.Some? ==> disabled.value == all[id].disabled))
      && (d.Changed? ==>
            && id in all
            && d.user.role == (if role.Some? then role.value else all[id].role)
            && d.user.disabled == (if disabled.Some? then disabled.value else all[id].disabled)
            && d.user.hash == all[id].hash
            && d.user.tokenVersion == all[id].tokenVersion + (if !all[id].disabled && d.user.disabled then 1 else 0))
  {
    if id in ActiveAdmins(all) {
      OnlyAdmin(all, id);
    }
  }

  // ----- steps -----

  predicate Hit(s: State, id: string) {
    id in s.cache && s.now < s.cache[id].at + USER_STATE_TTL_MS
  }

  predicate Enabled(s: State, a: Action) {
    match a
    case Advance(_) => true
    case Restart => true
    case Register(op, id, _) => s.lock.Free? && id !in s.users && op !in s.held
    case Create(id, _, _) => id !in s.users
    case UpdateBegin(_, _, _) => s.lock.Free?
    case UpdateCommit => s.lock.Updating? && s.lock.id in s.users
    case UpdateAbort => s.lock.Updating?
    case Load(op, id) => op !in s.held && id in s.users
    case PasswordSave(op, _) => op in s.held && s.held[op].id in s.users
    case Issue(op) => op in s.held && !s.held[op].user.disabled
    case CacheDelete(_) => true
    case ReadBegin(op, id) => op !in s.lookups && !Hit(s, id)
    case ReadRow(op) => op in s.lookups && s.lookups[op].Begun?
    case ReadFill(op) => op in s.lookups && s.lookups[op].Seen?
  }

  /** One committed write. */
  function Write(s: State, id: string, user: User): State {
    var users := s.users[id := user];
    s.(users := users, versions := s.versions + [Version(s.now, users)])
  }

  /** Registration is open only while the table is empty; otherwise it changes nothing. */
  function AfterRegister(s: State, op: nat, id: string, hash: string): State {
    if s.users != map[] then s
    else
      var user := User(Admin, false, 0, hash);
      Write(s, id, user).(held := s.held[op := Held(id, user, |s.versions|)], registered := s.registered + [id])
  }

  function AfterUpdateBegin(s: State, id: string, role: Option<Role>, disabled: Option<bool>): State {
    var decision := Decide(s.users, id, role, disabled);
    if decision.Changed? then s.(lock := Updating(id, s.users, decision.user)) else s
  }

  function NewEntity(held: Held, hash: string): User {
    held.user.(hash := hash, tokenVersion := held.user.tokenVersion + 1)
  }

  function AfterPasswordSave(s: State, op: nat, hash: string): State
    requires op in s.held
  {
    var user := NewEntity(s.held[op], hash);
    Write(s, s.held[op].id, user).(held := s.held[op := Held(s.held[op].id, user, |s.versions|)])
  }

  /** The row of an account that exists and is not disabled. */
  function ActiveView(users: map<string, User>, id: string): Option<User> {
    if id in users && !users[id].disabled then Some(users[id]) else None
  }

  function AfterReadRow(s: State, op: nat): State
    requires op in s.lookups && s.lookups[op].Begun? && s.versions != []
  {
    var r := s.lookups[op];
    s.(lookups := s.lookups[op := Seen(r.id, ActiveView(s.users, r.id), Origin(r.since, s.now, |s.versions| - 1))])
  }

  function AfterReadFill(s: State, op: nat): State
    requires op in s.lookups && s.lookups[op].Seen?
  {
    var r := s.lookups[op];
    s.(cache := s.cache[r.id := Entry(r.user, s.now)], origin := s.origin[r.id := r.origin], lookups := s.lookups - {op})
  }

  function Apply(s: State, a: Action): State
    requires Enabled(s, a) && s.versions != []
  {
    match a
    case Advance(ms) => s.(now := s.now + ms)
    case Restart => s.(lock := Free, held := map[], cache := map[], origin := map[], lookups := map[])
    case Register(op, id, hash) => AfterRegister(s, op, id, hash)
    case Create(id, role, hash) => Write(s, id, User(role, false, 0, hash))
    case UpdateBegin(id, role, disabled) => AfterUpdateBegin(s, id, role, disabled)
    case UpdateCommit => Write(s, s.lock.id, s.lock.next).(lock := Free)
    case UpdateAbort => s.(lock := Free)
    case Load(op, id) => s.(held := s.held[op := Held(id, s.users[id], |s.versions| - 1)])
    case PasswordSave(op, hash) => AfterPasswordSave(s, op, hash)
    case Issue(op) => s.(tokens := s.tokens + [Token(s.held[op].id, s.held[op].user.tokenVersion, s.held[op].version)])
    case CacheDelete(id) => s.(cache := s.cache - {id}, origin := s.origin - {id})
    case ReadBegin(op, id) => s.(lookups := s.lookups[op := Begun(id, s.now)])
    case ReadRow(op) => AfterReadRow(s, op)
    case ReadFill(op) => AfterReadFill(s, op)
  }

  // ----- runs -----

  predicate IsRun(s: State, run: seq<Action>)
    requires s.versions != []
    decreases |run|
  {
    run == [] || (Enabled(s, run[0]) && IsRun(Apply(s, run[0]), run[1..]))
  }

  function After(s: State, run: seq<Action>): (s': State)
    requires s.versions != [] && IsRun(s, run)
    ensures s'.versions != []
    decreases |run|
  {
    if run == [] then s else After(Apply(s, run[0]), run[1..])
  }

  // ----- what every run keeps -----

  predicate Tracked(s: State) {
    && s.versions != [] && s.versions[|s.versions| - 1].users == s.users
    && (forall op | op in s.held :: s.held[op].id in s.users)
    && (s.lock.Updating? ==> s.lock.id in s.lock.all && s.lock.all.Keys <= s.users.Keys)
  }

  ghost predicate OpenOnlyWhenEmpty(s: State) {
    |s.registered| <= 1 && (s.users == map[] ==> s.registered == [])
  }

  lemma StepKeepsTracked(s: State, a: Action)
    requires Tracked(s) && Enabled(s, a)
    ensures Tracked(Apply(s, a))
    ensures s.versions <= Apply(s, a).versions && s.users.Keys <= Apply(s, a).users.Keys
  {
  }

  lemma StepKeepsRegistration(s: State, a: Action)
    requires Tracked(s) && OpenOnlyWhenEmpty(s) && Enabled(s, a)
    ensures OpenOnlyWhenEmpty(Apply(s, a))
  {
    var s' := Apply(s, a);
    StepKeepsTracked(s, a);
    if a.Register? && s.users == map[] { assert a.id in s'.users; }
    if a.Create? { assert a.id in s'.users; }
    if a.UpdateCommit? { assert s.lock.id in s'.users; }
    if a.PasswordSave? { assert s.held[a.op].id in s'.users; }
  }

  lemma {:induction false} RunKeepsTracked(s: State, run: seq<Action>)
    requires Tracked(s) && IsRun(s, run)
    ensures Tracked(After(s, run)) && s.versions <= After(s, run).versions
    decreases |run|
  {
    if run != [] {
      StepKeepsTracked(s, run[0]);
      RunKeepsTracked(Apply(s, run[0]), run[1..]);
    }
  }

  lemma {:induction false} RunKeepsRegistration(s: State, run: seq<Action>)
    requires Tracked(s) && OpenOnlyWhenEmpty(s) && IsRun(s, run)
    ensures OpenOnlyWhenEmpty(After(s, run))
    decreases |run|
  {
    if run != [] {
      StepKeepsTracked(s, run[0]);
      StepKeepsRegistration(s, run[0]);
      RunKeepsRegistration(Apply(s, run[0]), run[1..]);
    }
  }

  /** However many registrations race, at most one account ever comes from registration. */
  lemma AtMostOneRegistration(run: seq<Action>)
    requires IsRun(EMPTY, run)
    ensures |After(EMPTY, run).registered| <= 1
  {
    RunKeepsRegistration(EMPTY, run);
  }

  /** Registration, where it happened, made the first account there ever was: an enabled admin at token version 0. */
  ghost predicate RegisteredFirst(s: State) {
    && (|s.versions| == 1 ==> s.users == map[] && s.registered == [])
    && (s.users == map[] ==> |s.versions| <= 1)
    && (forall id | id in s.registered ::
          |s.versions| > 1 && id in s.versions[1].users && s.versions[1].users.Keys == {id}
          && s.versions[1].users[id].role == Admin && !s.versions[1].users[id].disabled
          && s.versions[1].users[id].tokenVersion == 0)
  }

  lemma StepKeepsRegisteredFirst(s: State, a: Action)
    requires Tracked(s) && RegisteredFirst(s) && Enabled(s, a)
    ensures RegisteredFirst(Apply(s, a))
  {
    StepKeepsTracked(s, a);
    if a.Register? && s.users == map[] {
      assert Apply(s, a).users == map[a.id := User(Admin, false, 0, a.hash)];
      assert a.id in Apply(s, a).users;
    }
    if a.Create? { assert a.id in Apply(s, a).users; }
  }

  lemma {:induction false} RunKeepsRegisteredFirst(s: State, run: seq<Action>)
    requires Tracked(s) && RegisteredFirst(s) && IsRun(s, run)
    ensures RegisteredFirst(After(s, run))
    decreases |run|
  {
    if run != [] {
      StepKeepsTracked(s, run[0]);
      StepKeepsRegisteredFirst(s, run[0]);
      RunKeepsRegisteredFirst(Apply(s, run[0]), run[1..]);
    }
  }

  /**
   * In every run: on an empty table registration succeeds, and the account it makes is alone in the first
   * version of the table ever written, as an enabled admin with the given hash; later it changes nothing.
   */
  lemma RegistrationMakesAdmin(run: seq<Action>, op: nat, id: string, hash: string)
    requires IsRun(EMPTY, run) && Enabled(After(EMPTY, run), Register(op, id, hash))
    ensures var s := After(EMPTY, run); var s' := Apply(s, Register(op, id, hash));
      if s.users == map[] then
        && s'.registered == [id] && |s'.versions| == 2 && s'.versions[1].users == s'.users
        && s'.users.Keys == {id} && s'.users[id].role == Admin && !s'.users[id].disabled && s'.users[id].hash == hash
        && op in s'.held && s'.held[op] == Held(id, s'.users[id], 1)
      else s' == s
    ensures RegisteredFirst(After(EMPTY, run))
  {
    RunKeepsRegisteredFirst(EMPTY, run);
    RunKeepsRegistration(EMPTY, run);
  }

  /** A new account has the role and hash it was given, is enabled and starts at token version 0; no other account changes. */
  lemma CreationMakesAccount(s: State, id: string, role: Role, hash: string)
    requires s.versions != [] && Enabled(s, Create(id, role, hash))
    ensures var s' := Apply(s, Create(id, role, hash));
      && id !in s.users && s'.users.Keys == s.users.Keys + {id}
      && s'.users[id].role == role && !s'.users[id].disabled && s'.users[id].tokenVersion == 0 && s'.users[id].hash == hash
      && forall other | other in s.users :: s'.users[other] == s.users[other]
  {
  }

  /** A new process starts with the table and the tokens as they are, and with nothing in memory: no lock, no cache, nothing half done. */
  lemma RestartForgets(s: State)
    requires s.versions != []
    ensures Enabled(s, Restart)
    ensures var s' := Apply(s, Restart);
      && s'.users == s.users && s'.tokens == s.tokens && s'.versions == s.versions && s'.now == s.now
      && s'.lock.Free? && s'.held == map[] && s'.lookups == map[] && forall id :: !Hit(s', id)
  {
  }

  /** An update that is given up leaves the table alone and lets the next one in. */
  lemma AbortReleasesLock(s: State, id: string, role: Option<Role>, disabled: Option<bool>)
    requires s.versions != [] && Enabled(s, UpdateAbort)
    ensures var s' := Apply(s, UpdateAbort); s'.users == s.users && s'.versions == s.versions && Enabled(s', UpdateBegin(id, role, disabled))
  {
  }

  /** A lookup begins only where the cache has no live entry, and ends by filling in what it read, live from that instant. */
  lemma LookupFills(s: State, op: nat, id: string)
    requires s.versions != []
    ensures Enabled(s, ReadBegin(op, id)) ==> op !in s.lookups && !Hit(s, id)
    ensures Enabled(s, ReadFill(op)) ==>
      var l, s' := s.lookups[op], Apply(s, ReadFill(op));
      && Hit(s', l.id) && s'.cache[l.id].user == l.user && s'.cache[l.id].at == s.now && op !in s'.lookups
      && (forall other | other != l.id :: (other in s'.cache <==> other in s.cache) && (other in s.cache ==> s'.cache[other] == s.cache[other]))
      && s'.users == s.users
  {
  }

  // ----- the last active admin -----

  predicate SameStanding(u: User, v: User) {
    u.role == v.role && u.disabled == v.disabled
  }

  /** What the transaction that holds the lock decided on the rows it read. */
  ghost predicate Decided(lock: Lock)
    requires lock.Updating?
  {
    && lock.id in lock.all
    && (IsActiveAdmin(lock.all[lock.id]) && !IsActiveAdmin(lock.next) ==> OtherActiveAdmin(lock.all, lock.id))
    && lock.next.tokenVersion
       == lock.all[lock.id].tokenVersion + (if lock.next.disabled && !lock.all[lock.id].disabled then 1 else 0)
  }

  /** While a transaction holds the lock, what its check relied on still holds of the table. */
  ghost predicate CheckHolds(s: State) {
    s.lock.Updating? ==>
      Decided(s.lock) && forall id | id in s.lock.all :: id in s.users && SameStanding(s.users[id], s.lock.all[id])
  }

  /**
   * A password save writes back the role and state the account still has: true of an atomic password
   * change wherever it falls, and of any other whose account was not re-roled, disabled or enabled meanwhile.
   */
  predicate KeepsStanding(s: State, a: Action)
    requires Enabled(s, a)
  {
    a.PasswordSave? ==> SameStanding(s.users[s.held[a.op].id], s.held[a.op].user)
  }

  predicate IsStandingRun(s: State, run: seq<Action>)
    requires s.versions != [] && IsRun(s, run)
    decreases |run|
  {
    run == [] || (KeepsStanding(s, run[0]) && IsStandingRun(Apply(s, run[0]), run[1..]))
  }

  lemma StepKeepsCheck(s: State, a: Action)
    requires Tracked(s) && CheckHolds(s) && Enabled(s, a) && KeepsStanding(s, a)
    ensures CheckHolds(Apply(s, a))
  {
    if a.UpdateBegin? && Decide(s.users, a.id, a.newRole, a.disable).Changed? {
      DecideSparesLastAdmin(s.users, a.id, a.newRole, a.disable);
    }
  }

  lemma StepKeepsAdmin(s: State, a: Action)
    requires Tracked(s) && CheckHolds(s) && Enabled(s, a) && KeepsStanding(s, a) && HasActiveAdmin(s.users)
    ensures HasActiveAdmin(Apply(s, a).users)
  {
    var s' := Apply(s, a);
    var admin :| admin in s.users && IsActiveAdmin(s.users[admin]);
    if a.UpdateCommit? && admin == s.lock.id && !IsActiveAdmin(s.lock.next) {
      var other :| other != admin && other in s.lock.all && IsActiveAdmin(s.lock.all[other]);
      assert other in s'.users && IsActiveAdmin(s'.users[other]);
    } else {
      assert admin in s'.users && IsActiveAdmin(s'.users[admin]);
    }
  }

  /**
   * Once there is an active admin there always is one, in every interleaving of updates, registrations,
   * new accounts and password saves that keep standing; hash and token version may be lost on the way.
   */
  lemma {:induction false} AdminRemains(s: State, run: seq<Action>)
    requires Tracked(s) && CheckHolds(s) && IsRun(s, run) && IsStandingRun(s, run) && HasActiveAdmin(s.users)
    ensures HasActiveAdmin(After(s, run).users)
    decreases |run|
  {
    if run != [] {
      StepKeepsTracked(s, run[0]);
      StepKeepsCheck(s, run[0]);
      StepKeepsAdmin(s, run[0]);
      AdminRemains(Apply(s, run[0]), run[1..]);
    }
  }

  /** Every password change loads its entity right before it saves it. */
  predicate AtomicSaves(run: seq<Action>) {
    forall i | 0 < i < |run| && run[i].PasswordSave? :: run[i - 1].Load? && run[i - 1].op == run[i].op
  }

  /** Runs of atomic password changes keep standing, so the rule holds in all of them. */
  lemma {:induction false} AtomicMeansStanding(s: State, run: seq<Action>)
    requires Tracked(s) && IsRun(s, run) && AtomicSaves(run)
    requires run != [] && run[0].PasswordSave? ==> KeepsStanding(s, run[0])
    ensures IsStandingRun(s, run)
    decreases |run|
  {
    if run != [] {
      StepKeepsTracked(s, run[0]);
      var rest := run[1..];
      forall i | 0 < i < |rest| && rest[i].PasswordSave? ensures rest[i - 1].Load? && rest[i - 1].op == rest[i].op {
        assert rest[i] == run[i + 1] && rest[i - 1] == run[i];
      }
      if rest != [] && rest[0].PasswordSave? {
        assert rest[0] == run[1];
        LoadKeepsStanding(s, run[0], rest[0]);
      }
      AtomicMeansStanding(Apply(s, run[0]), rest);
    }
  }

  lemma LoadKeepsStanding(s: State, load: Action, save: Action)
    requires Tracked(s) && load.Load? && save.PasswordSave? && save.op == load.op
    requires Enabled(s, load) && Enabled(Apply(s, load), save)
    ensures KeepsStanding(Apply(s, load), save)
  {
  }

  /** The condition on one save, lost updates included: the entity is an active admin, or another account is. */
  ghost predicate SaveSparesAdmin(s: State, a: Action)
    requires Enabled(s, a)
  {
    && (a.UpdateCommit? ==> IsActiveAdmin(s.lock.next) || OtherActiveAdmin(s.users, s.lock.id))
    && (a.PasswordSave? ==> IsActiveAdmin(s.held[a.op].user) || OtherActiveAdmin(s.users, s.held[a.op].id))
  }

  ghost predicate EverySaveSparesAdmin(s: State, run: seq<Action>)
    requires s.versions != [] && IsRun(s, run)
    decreases |run|
  {
    run == [] || (SaveSparesAdmin(s, run[0]) && EverySaveSparesAdmin(Apply(s, run[0]), run[1..]))
  }

  ghost predicate AdminThroughout(s: State, run: seq<Action>)
    requires s.versions != [] && IsRun(s, run)
    decreases |run|
  {
    HasActiveAdmin(s.users) && (run == [] || AdminThroughout(Apply(s, run[0]), run[1..]))
  }

  lemma SaveSparesAdminExactly(s: State, a: Action)
    requires Tracked(s) && Enabled(s, a) && HasActiveAdmin(s.users)
    ensures HasActiveAdmin(Apply(s, a).users) <==> SaveSparesAdmin(s, a)
  {
    var s' := Apply(s, a);
    if a.UpdateCommit? {
      WriteSparesAdmin(s, s.lock.id, s.lock.next);
    } else if a.PasswordSave? {
      WriteSparesAdmin(s, s.held[a.op].id, NewEntity(s.held[a.op], a.hash));
    } else {
      var admin :| admin in s.users && IsActiveAdmin(s.users[admin]);
      assert admin in s'.users && IsActiveAdmin(s'.users[admin]);
    }
  }

  lemma WriteSparesAdmin(s: State, id: string, user: User)
    ensures HasActiveAdmin(Write(s, id, user).users) <==> IsActiveAdmin(user) || OtherActiveAdmin(s.users, id)
  {
    var users := Write(s, id, user).users;
    if IsActiveAdmin(user) {
      assert id in users && IsActiveAdmin(users[id]);
    } else if OtherActiveAdmin(s.users, id) {
      var other :| other != id && other in s.users && IsActiveAdmin(s.users[other]);
      assert other in users && IsActiveAdmin(users[other]);
    }
  }

  /** For all runs, with lost updates too: there is an active admin throughout exactly when every save meets the condition. */
  lemma {:induction false} AdminThroughoutExactly(s: State, run: seq<Action>)
    requires Tracked(s) && IsRun(s, run) && HasActiveAdmin(s.users)
    ensures AdminThroughout(s, run) <==> EverySaveSparesAdmin(s, run)
    decreases |run|
  {
    if run != [] {
      SaveSparesAdminExactly(s, run[0]);
      if HasActiveAdmin(Apply(s, run[0]).users) {
        StepKeepsTracked(s, run[0]);
        AdminThroughoutExactly(Apply(s, run[0]), run[1..]);
      }
    }
  }

  lemma RunSteps(s: State, a: Action, rest: seq<Action>)
    requires s.versions != [] && Enabled(s, a) && IsRun(Apply(s, a), rest)
    ensures IsRun(s, [a] + rest) && After(s, [a] + rest) == After(Apply(s, a), rest)
  {
    assert ([a] + rest)[1..] == rest;
  }

  lemma {:induction false} RunConcat(s: State, first: seq<Action>, second: seq<Action>)
    requires s.versions != [] && IsRun(s, first) && IsRun(After(s, first), second)
    ensures IsRun(s, first + second) && After(s, first + second) == After(After(s, first), second)
    decreases |first|
  {
    if first == [] {
      assert first + second == second;
    } else {
      RunConcat(Apply(s, first[0]), first[1..], second);
      RunSteps(s, first[0], first[1..] + second);
      assert first + second == [first[0]] + (first[1..] + second);
    }
  }

  /** An update whose check passes, begun and committed with nothing in between. */
  lemma UpdateRuns(s: State, id: string, newRole: Option<Role>, disable: Option<bool>)
    requires s.versions != [] && s.lock == Free && Decide(s.users, id, newRole, disable).Changed?
    ensures var run := [UpdateBegin(id, newRole, disable)] + [UpdateCommit];
      && IsRun(s, run)
      && After(s, run).users == s.users[id := Decide(s.users, id, newRole, disable).user]
      && After(s, run).held == s.held && After(s, run).lock == Free
  {
    var begin := UpdateBegin(id, newRole, disable);
    RunSteps(Apply(s, begin), UpdateCommit, []);
    RunSteps(s, begin, [UpdateCommit]);
  }

  function Person(role: Role): User { User(role, false, 0, "hash") }

  function BeforeOverlap(a: string, b: string): seq<Action> {
    [Register(0, a, "hash")] + ([Create(b, Viewer, "hash")] + [Load(1, b)])
  }

  function Promote(b: string): seq<Action> { [UpdateBegin(b, Some(Admin), None)] + [UpdateCommit] }

  function Demote(a: string): seq<Action> { [UpdateBegin(a, Some(Viewer), None)] + [UpdateCommit] }

  lemma BeforeOverlapRuns(a: string, b: string)
    requires a != b
    ensures IsRun(EMPTY, BeforeOverlap(a, b))
    ensures var s := After(EMPTY, BeforeOverlap(a, b));
      && s.users == map[a := Person(Admin), b := Person(Viewer)] && s.lock == Free
      && 1 in s.held && s.held[1].id == b && s.held[1].user == Person(Viewer)
  {
    var s1 := Apply(EMPTY, Register(0, a, "hash"));
    var s2 := Apply(s1, Create(b, Viewer, "hash"));
    RunSteps(s2, Load(1, b), []);
    RunSteps(s1, Create(b, Viewer, "hash"), [Load(1, b)]);
    RunSteps(EMPTY, Register(0, a, "hash"), [Create(b, Viewer, "hash")] + [Load(1, b)]);
  }

  lemma PromoteRuns(s: State, a: string, b: string)
    requires s.versions != [] && s.lock == Free && a != b
    requires s.users == map[a := Person(Admin), b := Person(Viewer)]
    ensures IsRun(s, Promote(b))
    ensures var s' := After(s, Promote(b));
      s'.users == map[a := Person(Admin), b := Person(Admin)] && s'.held == s.held && s'.lock == Free
  {
    UpdateRuns(s, b, Some(Admin), None);
    assert After(s, Promote(b)).users == s.users[b := Person(Admin)];
  }

  lemma DemoteIsAllowed(users: map<string, User>, a: string, b: string)
    requires a != b && users == map[a := Person(Admin), b := Person(Admin)]
    ensures Decide(users, a, Some(Viewer), None) == Changed(Person(Viewer))
  {
    assert ActiveAdmins(users) == {a, b};
  }

  lemma DemoteRuns(s: State, a: string, b: string)
    requires s.versions != [] && s.lock == Free && a != b
    requires s.users == map[a := Person(Admin), b := Person(Admin)]
    ensures IsRun(s, Demote(a))
    ensures var s' := After(s, Demote(a));
      s'.users == map[a := Person(Viewer), b := Person(Admin)] && s'.held == s.held
  {
    DemoteIsAllowed(s.users, a, b);
    UpdateRuns(s, a, Some(Viewer), None);
    assert After(s, Demote(a)).users == s.users[a := Person(Viewer)];
  }

  /**
   * Without the condition the rule fails: a password change of `b`, loaded while `b` was a viewer, is
   * saved after `b` became the only active admin, and turns `b` back into a viewer.
   */
  lemma OverlapLosesLastAdmin(a: string, b: string)
    requires a != b
    ensures var swapped := BeforeOverlap(a, b) + Promote(b) + Demote(a);
      && IsRun(EMPTY, swapped) && HasActiveAdmin(After(EMPTY, swapped).users)
      && IsRun(EMPTY, swapped + [PasswordSave(1, "new")])
      && !HasActiveAdmin(After(EMPTY, swapped + [PasswordSave(1, "new")]).users)
  {
    BeforeOverlapRuns(a, b);
    var s1 := After(EMPTY, BeforeOverlap(a, b));
    PromoteRuns(s1, a, b);
    RunConcat(EMPTY, BeforeOverlap(a, b), Promote(b));
    var s2 := After(s1, Promote(b));
    DemoteRuns(s2, a, b);
    RunConcat(EMPTY, BeforeOverlap(a, b) + Promote(b), Demote(a));
    var s3 := After(s2, Demote(a));
    assert b in s3.users && IsActiveAdmin(s3.users[b]);
    RunSteps(s3, PasswordSave(1, "new"), []);
    assert [PasswordSave(1, "new")] + [] == [PasswordSave(1, "new")];
    RunConcat(EMPTY, BeforeOverlap(a, b) + Promote(b) + Demote(a), [PasswordSave(1, "new")]);
  }
}
