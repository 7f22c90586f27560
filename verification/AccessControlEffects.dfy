/** What single operations of access control mean to their callers, by the stored fields. */
module AccessControlEffects {
  import opened Wrappers
  import opened AccessControl
  import opened AccessControlLaws

  // ---------- Who can log in ----------

  predicate AccountExists(s: Acl, name: Name) {
    0 < |name| <= 64 && (forall c :: c in name ==> NameChar(c)) && name in s.users
  }

  /** The password is right for what is stored: for the hash if there is one, otherwise for the old form if there is
      one of those. */
  predicate RightPassword(u: User, x: Login) {
    (u.passwordHash != "" && x.hashOk) || (u.passwordHash == "" && u.legacyPassword != "" && x.legacyOk)
  }

  predicate LockedAt(u: User, now: int) {
    u.lockedUntil != 0 && now < u.lockedUntil
  }

  /** A login succeeds exactly for an existing active user whose account is not locked at the time, with the right
      password; otherwise the error says the first thing that was wrong. */
  lemma LoginExactly(s: Acl, x: Login, kept: map<string, Session>)
    ensures var error := Failure(s, OpLogin(x, kept));
      && (error == None <==> AccountExists(s, x.name) && s.users[x.name].active
                             && !LockedAt(s.users[x.name], x.now) && RightPassword(s.users[x.name], x))
      && (error == Some(Disabled) <==> AccountExists(s, x.name) && !s.users[x.name].active)
      && (error == Some(Locked) <==> AccountExists(s, x.name) && s.users[x.name].active
                                     && LockedAt(s.users[x.name], x.now))
      && (error.Some? && error != Some(Disabled) && error != Some(Locked) ==> error == Some(InvalidCredentials))
  {
  }

  /** After a successful login the failures are forgotten, an old password has given way to the new hash if one could
      be made, and the user has one new session with its roles, for 24 hours. */
  lemma LoginStores(s: Acl, x: Login, kept: map<string, Session>)
    requires Failure(s, OpLogin(x, kept)) == None
    ensures var s', u := Step(s, OpLogin(x, kept)), s.users[x.name];
      && x.name in s'.users
      && (var v := s'.users[x.name];
          && v.failedAttempts == 0 && v.lockedUntil == 0 && v.lastLogin == x.loginMs
          && v.username == u.username && v.roles == u.roles && v.active && v.createdAt == u.createdAt
          && (if u.passwordHash == "" && x.newHash.Some?
              then v.passwordHash == x.newHash.value && v.legacyPassword == ""
              else v.passwordHash == u.passwordHash && v.legacyPassword == u.legacyPassword))
      && s'.sessions == kept[x.sessionId := Session(x.sessionId, x.name, u.roles, x.sessionNow, x.sessionNow + 86400)]
      && s'.roles == s.roles && s'.users.Keys == s.users.Keys
      && (forall n :: n in s.users && n != x.name ==> s'.users[n] == s.users[n])
  {
  }

  /** A login that fails changes nothing, except that a wrong password for an active, unlocked account counts: the
      fifth in a row locks it for 15 minutes, counting from zero after an earlier lock has run out. */
  lemma FailedLoginCounts(s: Acl, x: Login, kept: map<string, Session>)
    requires Failure(s, OpLogin(x, kept)) != None
    ensures var s' := Step(s, OpLogin(x, kept));
      if AccountExists(s, x.name) && s.users[x.name].active && !LockedAt(s.users[x.name], x.now) then
        var u := s.users[x.name];
        var failures := 1 + if u.lockedUntil != 0 then 0 else u.failedAttempts;
        var v := if failures >= 5 then u.(failedAttempts := 0, lockedUntil := x.later + 900)
                 else u.(failedAttempts := failures, lockedUntil := 0);
        s' == s.(users := s.users[x.name := v])
      else s' == s
  {
  }

  /** The limit of 16 sessions: a login of a user with fewer takes none away; otherwise exactly the oldest go that are
      too many, so that the user has 16 with the new one. No other user's sessions are touched. */
  lemma LoginKeepsYoungest(s: Acl, x: Login, kept: map<string, Session>)
    requires Possible(s, OpLogin(x, kept)) && Failure(s, OpLogin(x, kept)) == None && x.sessionId !in s.sessions
    ensures var before, after := s.sessions, Step(s, OpLogin(x, kept)).sessions;
      && (forall id :: id in before && before[id].username != x.name ==> id in after && after[id] == before[id])
      && (forall id :: id in after && id != x.sessionId ==> id in before && after[id] == before[id])
      && |SessionsOf(after, x.name)| == (if |SessionsOf(before, x.name)| < 16 then |SessionsOf(before, x.name)| + 1 else 16)
      && (forall id, jd :: id in before && id !in after && jd in before && jd in after && after[jd].username == x.name ==>
            before[id].createdAt <= after[jd].createdAt)
  {
    var after := Step(s, OpLogin(x, kept)).sessions;
    assert SessionsOf(after, x.name) == SessionsOf(kept, x.name) + {x.sessionId};
  }

  // ---------- Users ----------

  /** A user can be created exactly with a name of 1 to 64 allowed characters that is free and a password of 8 to 256
      characters that could be hashed. It can log in at once, with the right password only, and has the roles given. */
  lemma CreatedCanLogIn(s: Acl, name: Name, password: string, hash: Option<string>, roles: seq<Name>, now: int,
                        x: Login, kept: map<string, Session>)
    ensures Failure(s, OpCreateUser(name, password, hash, roles, now)) == None
            <==> && 0 < |name| <= 64 && (forall c :: c in name ==> NameChar(c)) && name !in s.users
                 && 8 <= |password| <= 256 && hash.Some?
    ensures Failure(s, OpCreateUser(name, password, hash, roles, now)) == None ==>
              var s' := Step(s, OpCreateUser(name, password, hash, roles, now));
              && name in s'.users && s'.users[name].passwordHash == hash.value && s'.users[name].createdAt == now
              && s'.users[name].username == name
              && (forall r :: r in s'.users[name].roles <==> r in roles && r != "")
              && (hash.value != "" && x.name == name ==> (Failure(s', OpLogin(x, kept)) == None <==> x.hashOk))
              && s'.users - {name} == s.users && s'.sessions == s.sessions && s'.roles == s.roles
  {
    DedupedMeaning(roles);
    var op := OpCreateUser(name, password, hash, roles, now);
    if Failure(s, op) == None {
      assert (Step(s, op).users - {name}) == s.users;
    }
  }

  /** Deduplication keeps exactly the non-empty names, each once, in the order of their first occurrence: what it
      keeps of the front of a list comes first. */
  lemma {:induction false} DedupedMeaning(s: seq<Name>)
    ensures forall x :: x in Deduped(s) <==> x in s && x != ""
    ensures forall i, j :: 0 <= i < j < |Deduped(s)| ==> Deduped(s)[i] != Deduped(s)[j]
    ensures forall i :: 0 <= i <= |s| ==> Deduped(s[..i]) <= Deduped(s)
  {
    if s != [] {
      var front := s[..|s| - 1];
      DedupedMeaning(front);
      assert s == front + [s[|s| - 1]];
      forall i | 0 <= i <= |s|
        ensures Deduped(s[..i]) <= Deduped(s)
      {
        if i < |s| {
          assert s[..i] == front[..i];
        } else {
          assert s[..i] == s;
        }
      }
    }
  }

  /** A disabled user cannot log in; an enabled one can if nothing but its activity was in the way. */
  lemma DisabledCannotLogIn(s: Acl, name: Name, x: Login, kept: map<string, Session>)
    requires AccountExists(s, name) && x.name == name
    ensures name != "admin" ==> Failure(s, OpDisable(name)) == None
                                && Failure(Step(s, OpDisable(name)), OpLogin(x, kept)) == Some(Disabled)
    ensures Failure(s, OpEnable(name)) == None
            && (Failure(Step(s, OpEnable(name)), OpLogin(x, kept)) == None
                <==> !LockedAt(s.users[name], x.now) && RightPassword(s.users[name], x))
    ensures Step(s, OpEnable(name)) == s.(users := s.users[name := s.users[name].(active := true)])
  {
  }

  /** A deleted user cannot log in. */
  lemma DeletedCannotLogIn(s: Acl, name: Name, x: Login, kept: map<string, Session>)
    requires Failure(s, OpDeleteUser(name)) == None && x.name == name
    ensures name != "admin" && Failure(Step(s, OpDeleteUser(name)), OpLogin(x, kept)) == Some(InvalidCredentials)
  {
  }

  /** After a change of password only the new hash counts; a lock stays. */
  lemma ChangedPasswordCounts(s: Acl, name: Name, password: string, hash: Option<string>, x: Login, kept: map<string, Session>)
    requires x.name == name
    ensures Failure(s, OpChangePassword(name, password, hash)) == None
            <==> name in s.users && 8 <= |password| <= 256 && hash.Some?
    ensures Failure(s, OpChangePassword(name, password, hash)) == None ==>
              var s' := Step(s, OpChangePassword(name, password, hash));
              && s'.users == s.users[name := s.users[name].(passwordHash := hash.value, legacyPassword := "")]
              && (AccountExists(s, name) && hash.value != "" ==>
                    (Failure(s', OpLogin(x, kept)) == None
                     <==> s.users[name].active && !LockedAt(s.users[name], x.now) && x.hashOk))
  {
  }

  /** An operation on one user leaves the others, their sessions and all roles alone. */
  lemma OtherUsersUntouched(s: Acl, op: Op, other: Name)
    requires op.OpCreateUser? || op.OpDisable? || op.OpEnable? || op.OpDeleteUser? || op.OpChangePassword?
             || op.OpAddRole? || op.OpRemoveRole?
    requires other != op.name
    ensures var s' := Step(s, op);
      && s'.roles == s.roles
      && (other in s'.users <==> other in s.users) && (other in s.users ==> s'.users[other] == s.users[other])
      && (forall id :: id in s.sessions && s.sessions[id].username == other ==>
            id in s'.sessions && s'.sessions[id] == s.sessions[id])
      && (forall id :: id in s'.sessions ==> id in s.sessions && s'.sessions[id] == s.sessions[id])
  {
  }

  // ---------- Sessions ----------

  /** A cleanup leaves exactly the sessions that have not expired; a lookup takes away at most the one looked up, and
      that one only if it has expired; a logout takes away exactly that one. */
  lemma SessionsLeft(s: Acl, now: int, jd: string, id: string)
    ensures id in Step(s, OpCleanup(now)).sessions <==> id in s.sessions && now <= s.sessions[id].expiresAt
    ensures id in Step(s, OpLookup(jd, now)).sessions
            <==> id in s.sessions && (id == jd ==> now <= s.sessions[id].expiresAt)
    ensures id in Step(s, OpLogout(jd)).sessions <==> id in s.sessions && id != jd
    ensures forall op :: (op == OpCleanup(now) || op == OpLookup(jd, now) || op == OpLogout(jd)) ==>
              && Step(s, op).users == s.users && Step(s, op).roles == s.roles
              && (id in Step(s, op).sessions ==> Step(s, op).sessions[id] == s.sessions[id])
  {
  }

  // ---------- Errors ----------

  /** Which operations on users and roles fail, and how. */
  lemma ErrorsExactly(s: Acl, name: Name, role: Name, perm: string)
    ensures Failure(s, OpDisable(name)) == (if name == "admin" then Some(BuiltIn) else if name !in s.users then Some(NotFound) else None)
    ensures Failure(s, OpDeleteUser(name)) == Failure(s, OpDisable(name))
    ensures Failure(s, OpEnable(name)) == if name !in s.users then Some(NotFound) else None
    ensures Failure(s, OpDeleteRole(role)) == if role == "admin" then Some(BuiltIn) else if role !in s.roles then Some(NotFound) else None
    ensures Failure(s, OpGrant(role, perm))
            == if !ValidPermission(perm) then Some(InvalidPermission) else if role !in s.roles then Some(NotFound) else None
    ensures Failure(s, OpRevoke(role, perm)) == if role !in s.roles then Some(NotFound) else None
    ensures Failure(s, OpAddRole(name, role))
            == if name !in s.users then Some(NotFound) else if role in s.users[name].roles then Some(HasRole) else None
    ensures Failure(s, OpRemoveRole(name, role)) == if name !in s.users then Some(NotFound) else None
  {
  }

  // ---------- Roles ----------

  /** A new role is there and allows nothing; the role of the administrator cannot be deleted. */
  lemma NewRoleAllowsNothing(s: Acl, role: Name, db: string, coll: string, oper: string)
    ensures Failure(s, OpCreateRole(role)) == None <==> role != "" && role !in s.roles
    ensures Failure(s, OpCreateRole(role)) == None ==>
              var s' := Step(s, OpCreateRole(role));
              && role in s'.roles && !RolesAllow(s'.roles, [role], db, coll, oper)
              && s'.roles - {role} == s.roles && s'.users == s.users && s'.sessions == s.sessions
    ensures Failure(s, OpDeleteRole("admin")) == Some(BuiltIn)
  {
    if role !in s.roles {
      assert s.roles[role := []] - {role} == s.roles;
    }
  }

  /** A role allows, after a grant, what it allowed before and what the permission matches; after a revocation, what
      its other permissions match. */
  lemma GrantedIsAllowed(s: Acl, role: Name, perm: string, db: string, coll: string, oper: string)
    requires role in s.roles
    ensures ValidPermission(perm) ==>
              (RolesAllow(Step(s, OpGrant(role, perm)).roles, [role], db, coll, oper)
               <==> RolesAllow(s.roles, [role], db, coll, oper) || Matches(perm, db, coll, oper))
    ensures !ValidPermission(perm) ==> Step(s, OpGrant(role, perm)) == s
    ensures RolesAllow(Step(s, OpRevoke(role, perm)).roles, [role], db, coll, oper)
            <==> exists p :: p in s.roles[role] && p != perm && Matches(p, db, coll, oper)
  {
    WithoutMembers(s.roles[role], perm);
    var g, r := Step(s, OpGrant(role, perm)).roles[role], Step(s, OpRevoke(role, perm)).roles[role];
    assert ValidPermission(perm) ==> forall p :: p in g <==> p in s.roles[role] || p == perm;
    assert forall p :: p in r <==> p in s.roles[role] && p != perm;
    OneRoleAllows(s.roles, role, db, coll, oper);
    OneRoleAllows(Step(s, OpGrant(role, perm)).roles, role, db, coll, oper);
    OneRoleAllows(Step(s, OpRevoke(role, perm)).roles, role, db, coll, oper);
  }

  lemma OneRoleAllows(roles: map<Name, seq<string>>, role: Name, db: string, coll: string, oper: string)
    requires role in roles
    ensures RolesAllow(roles, [role], db, coll, oper) <==> exists p :: p in roles[role] && Matches(p, db, coll, oper)
  {
    assert role in [role];
  }

  /** Giving, taking and deleting roles: who holds what afterwards. */
  lemma RolesHeld(s: Acl, name: Name, role: Name, r: Name)
    requires name in s.users
    ensures r in Step(s, OpAddRole(name, role)).users[name].roles <==> r in s.users[name].roles || r == role
    ensures r in Step(s, OpRemoveRole(name, role)).users[name].roles <==> r in s.users[name].roles && r != role
    ensures role != "admin" && role in s.roles ==>
              && (r in Step(s, OpDeleteRole(role)).users[name].roles <==> r in s.users[name].roles && r != role)
              && Step(s, OpDeleteRole(role)).roles == s.roles - {role}
              && (forall id :: id in Step(s, OpDeleteRole(role)).sessions
                               <==> id in s.sessions && role !in s.sessions[id].roles)
  {
    WithoutMembers(s.users[name].roles, role);
  }

  // ---------- The form of a permission ----------

  predicate ResourceChars(s: string) {
    forall c :: c in s ==> ('a' <= c <= 'z' || 'A' <= c <= 'Z' || '0' <= c <= '9' || c in "_.*-")
  }

  predicate OperationChars(s: string) {
    forall c :: c in s ==> ('a' <= c <= 'z' || 'A' <= c <= 'Z' || '0' <= c <= '9' || c in "_*")
  }

  /** `*:*`, or a database, a dot, a collection, a colon and an operation, none of them empty. */
  ghost predicate WellFormed(p: string) {
    p == "*:*"
    || exists d, c, o :: FormedOf(p, d, c, o)
  }

  predicate FormedOf(p: string, d: string, c: string, o: string) {
    && p == d + "." + c + ":" + o && d != "" && c != "" && o != ""
    && ResourceChars(d) && ResourceChars(c) && OperationChars(o)
  }

  lemma ResourceSlice(p: string, from: nat, to: nat)
    requires from <= to <= |p| && forall i :: from <= i < to ==> ResourceChar(p[i])
    ensures ResourceChars(p[from..to])
  {
    assert forall i :: 0 <= i < to - from ==> p[from..to][i] == p[from + i];
  }

  lemma OperationSlice(p: string, from: nat, to: nat)
    requires from <= to <= |p| && forall i :: from <= i < to ==> OperationChar(p[i])
    ensures OperationChars(p[from..to])
  {
    assert forall i :: 0 <= i < to - from ==> p[from..to][i] == p[from + i];
  }

  lemma JoinedParts(p: string, j: nat, k: nat)
    requires j < k < |p| && p[j] == '.' && p[k] == ':'
    ensures p == p[..j] + "." + p[j + 1..k] + ":" + p[k + 1..]
  {
  }

  /** The three pieces around a '.' and a later ':' have the form of a permission. */
  lemma PiecesAreFormed(p: string, j: nat, k: nat)
    requires 0 < j < k - 1 && k < |p| - 1 && p[j] == '.' && p[k] == ':'
    requires forall i :: 0 <= i < k ==> ResourceChar(p[i])
    requires forall i :: k < i < |p| ==> OperationChar(p[i])
    ensures FormedOf(p, p[0..j], p[j + 1..k], p[k + 1..|p|])
  {
    JoinedParts(p, j, k);
    ResourceSlice(p, 0, j);
    ResourceSlice(p, j + 1, k);
    OperationSlice(p, k + 1, |p|);
  }

  lemma ValidIsWellFormed(p: string)
    requires ValidPermission(p)
    ensures WellFormed(p)
  {
    if p != "*:*" {
      var k :| 0 < k < |p| - 1 && p[k] == ':' && (forall i :: 0 <= i < k ==> ResourceChar(p[i]))
               && (forall i :: k < i < |p| ==> OperationChar(p[i])) && (exists j :: 0 < j < k - 1 && p[j] == '.');
      var j :| 0 < j < k - 1 && p[j] == '.';
      PiecesAreFormed(p, j, k);
    }
  }

  lemma WellFormedIsValid(p: string)
    requires WellFormed(p)
    ensures ValidPermission(p)
  {
    if p != "*:*" {
      var d, c, o :| FormedOf(p, d, c, o);
      var k := |d| + 1 + |c|;
      assert p[k] == ':' && p[|d|] == '.' && 0 < |d| < k - 1;
      forall i | 0 <= i < k
        ensures ResourceChar(p[i])
      {
        assert p[i] == if i < |d| then d[i] else if i == |d| then '.' else c[i - |d| - 1];
        assert i < |d| ==> d[i] in d;
        assert |d| < i ==> c[i - |d| - 1] in c;
      }
      forall i | k < i < |p|
        ensures OperationChar(p[i])
      {
        assert p[i] == o[i - k - 1] && o[i - k - 1] in o;
      }
    }
  }

  /** The permissions that can be granted are exactly the well-formed ones. */
  lemma ValidPermissionMeaning(p: string)
    ensures ValidPermission(p) <==> WellFormed(p)
  {
    if ValidPermission(p) {
      ValidIsWellFormed(p);
    }
    if WellFormed(p) {
      WellFormedIsValid(p);
    }
  }
}
