/**
 * The identity service object over the users table. Each method is one uninterrupted turn, or one
 * locked transaction step; every method that changes state is a step of Accounts.
 */
module IdentityService {
  import opened Accounts
  import opened AccountCache

  class Service {
    var users: map<string, User>
    var stateCache: map<string, Entry>
    var lock: Lock
    var held: map<nat, Held>
    var lookups: map<nat, Lookup>
    var tokens: seq<Token>
    var now: nat
    var commits: nat
    ghost var origin: map<string, Origin>
    ghost var versions: seq<Version>
    ghost var registered: seq<string>

    ghost function Model(): State
      reads this
    {
      State(now, users, lock, held, tokens, stateCache, origin, lookups, versions, registered)
    }

    /** `commits` numbers the committed versions of the table. */
    ghost predicate Valid()
      reads this
    {
      versions != [] && commits == |versions| - 1
    }

    constructor ()
      ensures Valid() && Model() == EMPTY
    {
      users, stateCache, lock, held, lookups, tokens, now, commits := map[], map[], Free, map[], map[], [], 0, 0;
      origin, versions, registered := map[], [Version(0, map[])], [];
    }

    /** The locked transaction of `register`; the entity it returns is what the token is issued from. */
    method RegisterFirst(op: nat, id: string, passwordHash: string) returns (open: bool)
      requires Valid() && Enabled(Model(), Register(op, id, passwordHash))
      modifies this`users, this`commits, this`held, this`versions, this`registered
      ensures Valid() && Model() == Apply(old(Model()), Register(op, id, passwordHash))
      ensures open <==> old(users) == map[]
    {
      if |users| > 0 {
        return false;
      }
      var user := User(Admin, false, 0, passwordHash);
      Save(id, user);
      held := held[op := Held(id, user, commits)];
      registered := registered + [id];
      return true;
    }

    method CreateUser(emailTaken: bool, id: string, role: Role, passwordHash: string) returns (created: bool)
      requires Valid() && Enabled(Model(), Create(id, role, passwordHash))
      modifies this`users, this`commits, this`versions
      ensures Valid() && created == !emailTaken
      ensures Model() == if emailTaken then old(Model()) else Apply(old(Model()), Create(id, role, passwordHash))
    {
      if emailTaken {
        return false;
      }
      Save(id, User(role, false, 0, passwordHash));
      return true;
    }

    method Save(id: string, user: User)
      requires Valid()
      modifies this`users, this`commits, this`versions
      ensures Valid() && Model() == Write(old(Model()), id, user)
    {
      users := users[id := user];
      commits := commits + 1;
      versions := versions + [Version(now, users)];
    }

    method CountActiveAdmins() returns (count: nat)
      ensures count == |ActiveAdmins(users)|
    {
      count := 0;
      var left := users.Keys;
      ghost var seen: set<string> := {};
      while left != {}
        invariant left <= users.Keys && seen == ActiveAdmins(users) - left
        invariant count == |seen|
        decreases |left|
      {
        var id :| id in left;
        left := left - {id};
        if IsActiveAdmin(users[id]) {
          count := count + 1;
          seen := seen + {id};
        }
      }
      assert seen == ActiveAdmins(users);
    }

    /** `updateUser` from taking the lock up to `tx.save`. */
    method UpdateUser(id: string, role: Option<Role>, disabled: Option<bool>) returns (decision: Decision)
      requires Valid() && Enabled(Model(), UpdateBegin(id, role, disabled))
      modifies this`lock
      ensures Valid() && Model() == Apply(old(Model()), UpdateBegin(id, role, disabled))
      ensures decision == Decide(users, id, role, disabled)
    {
      if id !in users {
        return NotFound;
      }
      var user := users[id];
      var nextRole := if role.Some? then role.value else user.role;
      var nextDisabled := if disabled.Some? then disabled.value else user.disabled;
      if IsActiveAdmin(user) && !(nextRole.Admin? && !nextDisabled) {
        var activeAdmins := CountActiveAdmins();
        if activeAdmins <= 1 {
          return LastAdmin;
        }
      }
      var changes := 0;
      if role.Some? && role.value != user.role {
        user := user.(role := role.value);
        changes := changes + 1;
      }
      if disabled.Some? && disabled.value != user.disabled {
        user := user.(disabled := disabled.value);
        if disabled.value {
          user := user.(tokenVersion := user.tokenVersion + 1);
        }
        changes := changes + 1;
      }
      if changes == 0 {
        return Unchanged;
      }
      lock := Updating(id, users, user);
      return Changed(user);
    }

    method CommitUpdate()
      requires Valid() && Enabled(Model(), UpdateCommit)
      modifies this`users, this`commits, this`versions, this`lock
      ensures Valid() && Model() == Apply(old(Model()), UpdateCommit)
    {
      Save(lock.id, lock.next);
      lock := Free;
    }

    /** `findOne` in `login`, `resetPassword` and `changeOwnPassword`. */
    method FindOne(op: nat, id: string) returns (found: bool)
      requires Valid() && op !in held
      modifies this`held
      ensures Valid() && found == (id in users)
      ensures Model() == if found then Apply(old(Model()), Load(op, id)) else old(Model())
    {
      if id !in users {
        return false;
      }
      held := held[op := Held(id, users[id], commits)];
      return true;
    }

    method ApplyPassword(op: nat, passwordHash: string)
      requires Valid() && Enabled(Model(), PasswordSave(op, passwordHash))
      modifies this`users, this`commits, this`versions, this`held
      ensures Valid() && Model() == Apply(old(Model()), PasswordSave(op, passwordHash))
    {
      var user := held[op].user.(hash := passwordHash, tokenVersion := held[op].user.tokenVersion + 1);
      Save(held[op].id, user);
      held := held[op := Held(held[op].id, user, commits)];
    }

    /** A disabled account gets no token; the caller sees the same refusal as for a wrong password. */
    method IssueToken(op: nat, passwordOk: bool) returns (issued: bool)
      requires Valid() && op in held
      modifies this`tokens
      ensures Valid() && issued == (passwordOk && !held[op].user.disabled)
      ensures Model() == if issued then Apply(old(Model()), Issue(op)) else old(Model())
    {
      if !passwordOk || held[op].user.disabled {
        return false;
      }
      tokens := tokens + [Token(held[op].id, held[op].user.tokenVersion, held[op].version)];
      return true;
    }

    method DeleteCached(id: string)
      requires Valid()
      modifies this`stateCache, this`origin
      ensures Valid() && Model() == Apply(old(Model()), CacheDelete(id))
    {
      stateCache := stateCache - {id};
      origin := origin - {id};
    }

    /** `getActiveUser` up to its await: a live entry is served, otherwise a lookup begins. */
    method GetActiveUser(op: nat, id: string) returns (served: Option<Option<User>>)
      requires Valid() && op !in lookups
      modifies this`lookups
      ensures Valid() && (served.Some? <==> Hit(old(Model()), id))
      ensures served.Some? ==> Model() == old(Model()) && served.value == stateCache[id].user
      ensures served.None? ==> Model() == Apply(old(Model()), ReadBegin(op, id))
    {
      if id in stateCache && now - stateCache[id].at < USER_STATE_TTL_MS {
        return Some(stateCache[id].user);
      }
      lookups := lookups[op := Begun(id, now)];
      return None;
    }

    /** The database reads the row. */
    method RowRead(op: nat)
      requires Valid() && Enabled(Model(), ReadRow(op))
      modifies this`lookups
      ensures Valid() && Model() == Apply(old(Model()), ReadRow(op))
    {
      var id := lookups[op].id;
      var user := if id in users && !users[id].disabled then Some(users[id]) else None;
      lookups := lookups[op := Seen(id, user, Origin(lookups[op].since, now, commits))];
    }

    /** `getActiveUser` after its await: fill the cache and serve. */
    method LookupDone(op: nat) returns (user: Option<User>)
      requires Valid() && Enabled(Model(), ReadFill(op))
      modifies this`stateCache, this`origin, this`lookups
      ensures Valid() && Model() == Apply(old(Model()), ReadFill(op))
      ensures Hit(Model(), old(lookups[op].id)) && user == stateCache[old(lookups[op].id)].user
    {
      var l := lookups[op];
      user := l.user;
      stateCache := stateCache[l.id := Entry(user, now)];
      origin := origin[l.id := l.origin];
      lookups := lookups - {op};
    }

    /** The guard's two tests on the account it was given. */
    method Check(account: Option<User>, token: Token) returns (allowed: bool)
      ensures allowed <==> account.Some? && account.value.tokenVersion == token.tv
    {
      if account.None? {
        return false;
      }
      return token.tv == account.value.tokenVersion;
    }

    /** The guard up to its await: on a live cache entry it decides at once, as the cache accepts the token or not. */
    method CanActivate(op: nat, token: Token) returns (decision: Option<bool>)
      requires Valid() && op !in lookups
      modifies this`lookups
      ensures Valid() && (decision.Some? <==> Hit(old(Model()), token.sub))
      ensures decision.Some? ==> Model() == old(Model()) && decision.value == Accepts(Model(), token)
      ensures decision.None? ==> Model() == Apply(old(Model()), ReadBegin(op, token.sub))
    {
      var served := GetActiveUser(op, token.sub);
      if served.None? {
        return None;
      }
      var allowed := Check(served.value, token);
      return Some(allowed);
    }

    /** The guard after its await: the entry just filled decides. */
    method CanActivateAfterLookup(op: nat, token: Token) returns (allowed: bool)
      requires Valid() && Enabled(Model(), ReadFill(op)) && lookups[op].id == token.sub
      modifies this`stateCache, this`origin, this`lookups
      ensures Valid() && Model() == Apply(old(Model()), ReadFill(op))
      ensures allowed == Accepts(Model(), token)
    {
      var account := LookupDone(op);
      allowed := Check(account, token);
    }
  }
}
