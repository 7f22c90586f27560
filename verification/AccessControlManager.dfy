/** The access control manager: methods over the three maps, each proved to do what its operation says. */
module AccessControlManager {
  import opened Wrappers
  import opened AccessControl
  import opened AccessControlEffects
  import opened AccessControlLaws

  // ---------- Matching ----------

  /** The source's scan for the first separator. */
  method Split(s: string, c: char) returns (front: string, back: Option<string>)
    ensures (front, back) == SplitAt(s, c)
  {
    for i := 0 to |s|
      invariant c !in s[..i]
    {
      if s[i] == c {
        assert s == s[..i] + [c] + s[i + 1..];
        SplitAtUnique(s[..i], c, s[i + 1..]);
        return s[..i], Some(s[i + 1..]);
      }
    }
    assert s[..|s|] == s;
    SplitAtUnique(s, c, "");
    return s, None;
  }

  method MatchPermission(perm: string, db: string, coll: string, operation: string) returns (r: bool)
    ensures r == Matches(perm, db, coll, operation)
  {
    if perm == "*:*" {
      return true;
    }
    var resource, rest := Split(perm, ':');
    var op := OrElse(rest, "");
    if operation == "admin" {
      if op != "admin" && op != "*" {
        return false;
      }
      var d, c := Split(resource, '.');
      return Covers(d, db) && Covers(OrElse(c, "*"), coll);
    }
    if op != "*" && op != operation {
      return false;
    }
    var d, c := Split(resource, '.');
    if d != "*" && d != db {
      return false;
    }
    if OrElse(c, "*") != "*" && OrElse(c, "*") != coll {
      return false;
    }
    r := true;
  }

  // ---------- Lists ----------

  method FilterOut(s: seq<string>, x: string) returns (r: seq<string>)
    ensures r == Without(s, x)
  {
    r := [];
    for i := 0 to |s|
      invariant r == Without(s[..i], x)
    {
      WithoutAppend(s[..i], s[i], x);
      assert s[..i + 1] == s[..i] + [s[i]];
      if s[i] != x {
        r := r + [s[i]];
      }
    }
    assert s[..|s|] == s;
  }

  method DedupeRoles(roles: seq<Name>) returns (r: seq<Name>)
    ensures r == Deduped(roles)
  {
    r := [];
    var seen: set<Name> := {};
    for i := 0 to |roles|
      invariant r == Deduped(roles[..i]) && forall x :: x in seen <==> x in r
    {
      assert roles[..i + 1][..i] == roles[..i];
      if roles[i] == "" || roles[i] in seen {
        continue;
      }
      seen := seen + {roles[i]};
      r := r + [roles[i]];
    }
    assert roles[..|roles|] == roles;
  }

  // ---------- Sessions in order of age ----------

  ghost predicate ByAge(s: seq<Session>) {
    forall i, j :: 0 <= i < j < |s| ==> s[i].createdAt <= s[j].createdAt
  }

  ghost predicate DistinctIds(s: seq<Session>) {
    forall i, j :: 0 <= i < j < |s| ==> s[i].id != s[j].id
  }

  function InsertByAge(s: seq<Session>, x: Session): seq<Session> {
    if s == [] || x.createdAt < s[0].createdAt then [x] + s else [s[0]] + InsertByAge(s[1..], x)
  }

  lemma {:induction false} InsertedMembers(s: seq<Session>, x: Session)
    ensures |InsertByAge(s, x)| == |s| + 1
    ensures forall y :: y in InsertByAge(s, x) <==> y == x || y in s
  {
    if s != [] && x.createdAt >= s[0].createdAt {
      InsertedMembers(s[1..], x);
      assert s == [s[0]] + s[1..];
    }
  }

  lemma {:induction false} InsertedByAge(s: seq<Session>, x: Session)
    requires ByAge(s)
    ensures ByAge(InsertByAge(s, x))
  {
    if s != [] && x.createdAt >= s[0].createdAt {
      InsertedByAge(s[1..], x);
      InsertedMembers(s[1..], x);
      var r := InsertByAge(s[1..], x);
      assert forall i :: 0 <= i < |r| ==> r[i] in r;
    }
  }

  lemma {:induction false} InsertedDistinct(s: seq<Session>, x: Session)
    requires DistinctIds(s) && forall y :: y in s ==> y.id != x.id
    ensures DistinctIds(InsertByAge(s, x))
  {
    if s != [] && x.createdAt >= s[0].createdAt {
      InsertedDistinct(s[1..], x);
      InsertedMembers(s[1..], x);
      var r := InsertByAge(s[1..], x);
      assert forall i :: 0 <= i < |r| ==> r[i] in r;
    } else {
      assert forall i :: 0 <= i < |s| ==> s[i] in s;
    }
  }

  /** The library sort: any order of equally old sessions. */
  method SortByAge(s: seq<Session>) returns (r: seq<Session>)
    requires DistinctIds(s)
    ensures ByAge(r) && DistinctIds(r) && |r| == |s| && forall x :: x in r <==> x in s
  {
    r := [];
    for i := 0 to |s|
      invariant ByAge(r) && DistinctIds(r) && |r| == i && forall x :: x in r <==> x in s[..i]
    {
      InsertedMembers(r, s[i]);
      InsertedByAge(r, s[i]);
      InsertedDistinct(r, s[i]);
      r := InsertByAge(r, s[i]);
      assert s[..i + 1] == s[..i] + [s[i]];
    }
    assert s[..|s|] == s;
  }

  /** The list holds each of the given identifiers' sessions once. */
  ghost predicate Lists(s: seq<Session>, sessions: map<string, Session>, ids: set<string>) {
    && |s| == |ids|
    && (forall i :: 0 <= i < |s| ==> s[i].id in ids && s[i].id in sessions && sessions[s[i].id] == s[i])
    && DistinctIds(s)
  }

  lemma ListsOneMore(s: seq<Session>, sessions: map<string, Session>, ids: set<string>, id: string)
    requires Lists(s, sessions, ids) && id !in ids && id in sessions && sessions[id].id == id
    ensures Lists(s + [sessions[id]], sessions, ids + {id})
  {
  }

  lemma ListsAll(s: seq<Session>, sessions: map<string, Session>, ids: set<string>, id: string)
    requires Lists(s, sessions, ids) && id in ids
    ensures exists i :: 0 <= i < |s| && s[i].id == id
  {
    var found := set i | 0 <= i < |s| :: s[i].id;
    Injective(s);
    if id !in found {
      assert found < ids;
      ProperSubset(found, ids, id);
    }
  }

  lemma ProperSubset(a: set<string>, b: set<string>, x: string)
    requires a <= b && x in b && x !in a
    ensures |a| < |b|
  {
    SubsetSize(a, b - {x});
  }

  lemma {:induction false} Injective(s: seq<Session>)
    requires DistinctIds(s)
    ensures |set i | 0 <= i < |s| :: s[i].id| == |s|
  {
    if s != [] {
      var t := s[..|s| - 1];
      Injective(t);
      assert (set i | 0 <= i < |s| :: s[i].id) == (set i | 0 <= i < |t| :: t[i].id) + {s[|s| - 1].id};
    }
  }

  // ---------- The manager ----------

  class ACLManager {
    var users: map<Name, User>
    var roles: map<Name, seq<string>>
    var sessions: map<string, Session>

    function View(): Acl
      reads this
    {
      Acl(users, roles, sessions)
    }

    constructor (adminHash: string, now: int)
      ensures View() == Initial(adminHash, now) && Inv(View())
    {
      roles := map["admin" := ["*:*"]];
      users := map["admin" := User("admin", adminHash, "", ["admin"], now, 0, true, 0, 0)];
      sessions := map[];
      new;
      InitialInv(adminHash, now);
    }

    /** The sessions of a user, in whatever order the map yields them. */
    method CollectSessions(name: Name) returns (found: seq<Session>)
      requires forall id :: id in sessions ==> sessions[id].id == id
      ensures Lists(found, sessions, SessionsOf(sessions, name))
    {
      found := [];
      ghost var done: set<string> := {};
      var rest := sessions.Keys;
      while rest != {}
        invariant done == set id | id in sessions && id !in rest && sessions[id].username == name
        invariant rest <= sessions.Keys
        invariant Lists(found, sessions, done)
        decreases |rest|
      {
        var id :| id in rest;
        rest := rest - {id};
        if sessions[id].username == name {
          ListsOneMore(found, sessions, done, id);
          found := found + [sessions[id]];
          done := done + {id};
        }
      }
      assert done == SessionsOf(sessions, name);
    }

    method DropUserSessionsLocked(name: Name)
      requires forall id :: id in sessions ==> sessions[id].id == id
      modifies this`sessions
      ensures sessions == Dropped(old(sessions), name)
    {
      var found := CollectSessions(name);
      ghost var start := sessions;
      for i := 0 to |found|
        invariant forall id :: id in sessions <==> id in start && forall j :: 0 <= j < i ==> found[j].id != id
        invariant forall id :: id in sessions ==> sessions[id] == start[id]
      {
        sessions := sessions - {found[i].id};
      }
      forall id | id in start
        ensures id in sessions <==> start[id].username != name
      {
        if start[id].username == name {
          ListsAll(found, start, SessionsOf(start, name), id);
        }
      }
    }

    /** Deletes the oldest sessions of a user until one more fits. */
    method EnforceSessionLimitLocked(name: Name)
      requires forall id :: id in sessions ==> sessions[id].id == id
      modifies this`sessions
      ensures MadeRoom(old(sessions), sessions, name)
    {
      var found := CollectSessions(name);
      ghost var start, mine := sessions, SessionsOf(sessions, name);
      if |found| < MAX_SESSIONS {
        return;
      }
      var sorted := SortByAge(found);
      assert Lists(sorted, start, mine) by {
        forall i | 0 <= i < |sorted|
          ensures sorted[i].id in mine && sorted[i].id in start && start[sorted[i].id] == sorted[i]
        {
          assert sorted[i] in found;
        }
      }
      var toDelete := |sorted| - MAX_SESSIONS + 1;
      for i := 0 to toDelete
        invariant forall id :: id in sessions <==> id in start && forall j :: 0 <= j < i ==> sorted[j].id != id
        invariant forall id :: id in sessions ==> sessions[id] == start[id]
        invariant |SessionsOf(sessions, name)| == |mine| - i
      {
        assert sorted[i].id in SessionsOf(sessions, name);
        assert SessionsOf(sessions - {sorted[i].id}, name) == SessionsOf(sessions, name) - {sorted[i].id};
        sessions := sessions - {sorted[i].id};
      }
      OldestWent(start, sessions, sorted, toDelete, name);
    }

    method CreateUser(name: Name, password: string, hash: Option<string>, userRoles: seq<Name>, now: int)
      returns (r: Option<Error>)
      modifies this`users
      ensures var op := OpCreateUser(name, password, hash, userRoles, now);
        r == Failure(old(View()), op) && View() == Step(old(View()), op)
    {
      if !ValidUsername(name) {
        return Some(InvalidName);
      }
      if !ValidPassword(password) {
        return Some(InvalidPassword);
      }
      if hash.None? {
        return Some(HashFailed);
      }
      if name in users {
        return Some(Exists);
      }
      var deduped := DedupeRoles(userRoles);
      users := users[name := User(name, hash.value, "", deduped, now, 0, true, 0, 0)];
      r := None;
    }

    method Authenticate(x: Login) returns (r: Option<Error>, ghost kept: map<string, Session>)
      requires Inv(View())
      modifies this`users, this`sessions
      ensures Possible(old(View()), OpLogin(x, kept))
      ensures r == Failure(old(View()), OpLogin(x, kept)) && View() == Step(old(View()), OpLogin(x, kept))
      ensures r == None <==> old(AccountExists(View(), x.name) && users[x.name].active
                                 && !LockedAt(users[x.name], x.now) && RightPassword(users[x.name], x))
    {
      kept := map[];
      if !ValidUsername(x.name) || x.name !in users {
        return Some(InvalidCredentials), kept;
      }
      var user := users[x.name];
      if !user.active {
        return Some(Disabled), kept;
      }
      if user.lockedUntil != 0 {
        if x.now < user.lockedUntil {
          return Some(Locked), kept;
        }
        user := user.(lockedUntil := 0, failedAttempts := 0);
      }
      var valid := false;
      if user.passwordHash != "" {
        valid := x.hashOk;
      } else if user.legacyPassword != "" {
        valid := x.legacyOk;
        if valid && x.newHash.Some? {
          user := user.(passwordHash := x.newHash.value, legacyPassword := "");
        }
      }
      if !valid {
        user := user.(failedAttempts := user.failedAttempts + 1);
        if user.failedAttempts >= MAX_FAILED {
          user := user.(lockedUntil := x.later + LOCKOUT, failedAttempts := 0);
        }
        users := users[x.name := user];
        return Some(InvalidCredentials), kept;
      }
      user := user.(lastLogin := x.loginMs, failedAttempts := 0, lockedUntil := 0);
      users := users[x.name := user];
      EnforceSessionLimitLocked(x.name);
      kept := sessions;
      sessions := sessions[x.sessionId :=
        Session(x.sessionId, x.name, user.roles, x.sessionNow, x.sessionNow + SESSION_TTL)];
      r := None;
    }

    method Logout(id: string)
      modifies this`sessions
      ensures View() == Step(old(View()), OpLogout(id))
    {
      sessions := sessions - {id};
    }

    method GetSession(id: string, now: int) returns (r: Option<Session>)
      modifies this`sessions
      ensures View() == Step(old(View()), OpLookup(id, now))
      ensures r == if id in old(sessions) && !Expired(old(sessions)[id], now) then Some(old(sessions)[id]) else None
    {
      if id !in sessions {
        return None;
      }
      var session := sessions[id];
      if now > session.expiresAt {
        sessions := sessions - {id};
        return None;
      }
      r := Some(session);
    }

    method CleanupSessions(now: int)
      modifies this`sessions
      ensures View() == Step(old(View()), OpCleanup(now))
    {
      var rest := sessions.Keys;
      while rest != {}
        invariant rest <= old(sessions).Keys
        invariant sessions == map id | id in old(sessions) && (id in rest || !Expired(old(sessions)[id], now)) :: old(sessions)[id]
        decreases |rest|
      {
        var id :| id in rest;
        rest := rest - {id};
        if now > sessions[id].expiresAt {
          sessions := sessions - {id};
        }
      }
    }

    method DisableUser(name: Name) returns (r: Option<Error>)
      requires Inv(View())
      modifies this`users, this`sessions
      ensures r == Failure(old(View()), OpDisable(name)) && View() == Step(old(View()), OpDisable(name))
    {
      if name == "admin" {
        return Some(BuiltIn);
      }
      if name !in users {
        return Some(NotFound);
      }
      users := users[name := users[name].(active := false)];
      DropUserSessionsLocked(name);
      r := None;
    }

    method EnableUser(name: Name) returns (r: Option<Error>)
      modifies this`users
      ensures r == Failure(old(View()), OpEnable(name)) && View() == Step(old(View()), OpEnable(name))
    {
      if name !in users {
        return Some(NotFound);
      }
      users := users[name := users[name].(active := true)];
      r := None;
    }

    method DeleteUser(name: Name) returns (r: Option<Error>)
      requires Inv(View())
      modifies this`users, this`sessions
      ensures r == Failure(old(View()), OpDeleteUser(name)) && View() == Step(old(View()), OpDeleteUser(name))
    {
      if name == "admin" {
        return Some(BuiltIn);
      }
      if name !in users {
        return Some(NotFound);
      }
      users := users - {name};
      DropUserSessionsLocked(name);
      r := None;
    }

    method ChangePassword(name: Name, password: string, hash: Option<string>) returns (r: Option<Error>)
      requires Inv(View())
      modifies this`users, this`sessions
      ensures var op := OpChangePassword(name, password, hash);
        r == Failure(old(View()), op) && View() == Step(old(View()), op)
    {
      if !ValidPassword(password) {
        return Some(InvalidPassword);
      }
      if hash.None? {
        return Some(HashFailed);
      }
      if name !in users {
        return Some(NotFound);
      }
      users := users[name := users[name].(passwordHash := hash.value, legacyPassword := "")];
      DropUserSessionsLocked(name);
      r := None;
    }

    method CreateRole(role: Name) returns (r: Option<Error>)
      modifies this`roles
      ensures r == Failure(old(View()), OpCreateRole(role)) && View() == Step(old(View()), OpCreateRole(role))
    {
      if role == "" {
        return Some(InvalidName);
      }
      if role in roles {
        return Some(Exists);
      }
      roles := roles[role := []];
      r := None;
    }

    /** Removes the role, takes it from every user and ends every session that carried it. */
    method DeleteRole(role: Name) returns (r: Option<Error>)
      modifies this
      ensures r == Failure(old(View()), OpDeleteRole(role)) && View() == Step(old(View()), OpDeleteRole(role))
    {
      if role == "admin" {
        return Some(BuiltIn);
      }
      if role !in roles {
        return Some(NotFound);
      }
      roles := roles - {role};
      StripRole(role);
      DropRoleSessions(role);
      r := None;
    }

    method StripRole(role: Name)
      modifies this`users
      ensures users == map n | n in old(users) :: old(users)[n].(roles := Without(old(users)[n].roles, role))
    {
      var rest := users.Keys;
      while rest != {}
        invariant rest <= old(users).Keys && users.Keys == old(users).Keys
        invariant forall n :: n in rest ==> users[n] == old(users)[n]
        invariant forall n :: n in users && n !in rest ==>
                    users[n] == old(users)[n].(roles := Without(old(users)[n].roles, role))
        decreases |rest|
      {
        var n :| n in rest;
        rest := rest - {n};
        WithoutMembers(users[n].roles, role);
        if role in users[n].roles {
          var newRoles := FilterOut(users[n].roles, role);
          users := users[n := users[n].(roles := newRoles)];
        }
      }
    }

    method DropRoleSessions(role: Name)
      modifies this`sessions
      ensures sessions == map id | id in old(sessions) && role !in old(sessions)[id].roles :: old(sessions)[id]
    {
      var ids := sessions.Keys;
      while ids != {}
        invariant ids <= old(sessions).Keys
        invariant sessions == map id | id in old(sessions) && (id in ids || role !in old(sessions)[id].roles) :: old(sessions)[id]
        decreases |ids|
      {
        var id :| id in ids;
        ids := ids - {id};
        if role in sessions[id].roles {
          sessions := sessions - {id};
        }
      }
    }

    method GrantPermission(role: Name, perm: string) returns (r: Option<Error>)
      modifies this`roles
      ensures r == Failure(old(View()), OpGrant(role, perm)) && View() == Step(old(View()), OpGrant(role, perm))
    {
      if !ValidPermission(perm) {
        return Some(InvalidPermission);
      }
      if role !in roles {
        return Some(NotFound);
      }
      if perm in roles[role] {
        assert roles == roles[role := roles[role]];
        return None;
      }
      roles := roles[role := roles[role] + [perm]];
      r := None;
    }

    method RevokePermission(role: Name, perm: string) returns (r: Option<Error>)
      modifies this`roles
      ensures r == Failure(old(View()), OpRevoke(role, perm)) && View() == Step(old(View()), OpRevoke(role, perm))
    {
      if role !in roles {
        return Some(NotFound);
      }
      var rest := FilterOut(roles[role], perm);
      roles := roles[role := rest];
      r := None;
    }

    method AddUserRole(name: Name, role: Name) returns (r: Option<Error>)
      requires Inv(View())
      modifies this`users, this`sessions
      ensures r == Failure(old(View()), OpAddRole(name, role)) && View() == Step(old(View()), OpAddRole(name, role))
    {
      if name !in users {
        return Some(NotFound);
      }
      if role in users[name].roles {
        return Some(HasRole);
      }
      users := users[name := users[name].(roles := users[name].roles + [role])];
      DropUserSessionsLocked(name);
      r := None;
    }

    method RemoveUserRole(name: Name, role: Name) returns (r: Option<Error>)
      requires Inv(View())
      modifies this`users, this`sessions
      ensures r == Failure(old(View()), OpRemoveRole(name, role)) && View() == Step(old(View()), OpRemoveRole(name, role))
    {
      if name !in users {
        return Some(NotFound);
      }
      var newRoles := FilterOut(users[name].roles, role);
      users := users[name := users[name].(roles := newRoles)];
      DropUserSessionsLocked(name);
      r := None;
    }

    /** Goes through the roles of the session and their permissions until one matches. */
    method CheckPermission(id: string, now: int, db: string, coll: string, operation: string) returns (allowed: bool)
      modifies this`sessions
      ensures allowed == Permitted(old(View()), id, now, db, coll, operation)
      ensures View() == Step(old(View()), OpLookup(id, now))
    {
      var session := GetSession(id, now);
      if session.None? {
        return false;
      }
      var held := session.value.roles;
      for i := 0 to |held|
        invariant View() == Step(old(View()), OpLookup(id, now))
        invariant !RolesAllow(roles, held[..i], db, coll, operation)
      {
        assert held[..i + 1] == held[..i] + [held[i]];
        if held[i] !in roles {
          continue;
        }
        var perms := roles[held[i]];
        for j := 0 to |perms|
          invariant View() == Step(old(View()), OpLookup(id, now))
          invariant forall p :: p in perms[..j] ==> !Matches(p, db, coll, operation)
        {
          var m := MatchPermission(perms[j], db, coll, operation);
          if m {
            assert perms[j] in roles[held[i]];
            return true;
          }
          assert perms[..j + 1] == perms[..j] + [perms[j]];
        }
        assert perms[..|perms|] == perms;
      }
      assert held[..|held|] == held;
      allowed := false;
    }
  }

  /** What was deleted from the front of the sorted list is no younger than what stays. */
  lemma OldestWent(start: map<string, Session>, after: map<string, Session>, sorted: seq<Session>, n: nat, name: Name)
    requires Lists(sorted, start, SessionsOf(start, name)) && ByAge(sorted)
    requires |sorted| >= MAX_SESSIONS && n == |sorted| - MAX_SESSIONS + 1
    requires forall id :: id in after <==> id in start && forall j :: 0 <= j < n ==> sorted[j].id != id
    requires forall id :: id in after ==> after[id] == start[id]
    requires |SessionsOf(after, name)| == |SessionsOf(start, name)| - n
    ensures MadeRoom(start, after, name)
  {
    forall id, jd | id in start && id !in after && jd in after && after[jd].username == name
      ensures start[id].createdAt <= after[jd].createdAt
    {
      ListsAll(sorted, start, SessionsOf(start, name), jd);
      var k :| 0 <= k < |sorted| && sorted[k].id == jd;
      var i :| 0 <= i < n && sorted[i].id == id;
      assert i < k;
    }
  }
}
