/** What access control promises over every run of its operations. */
module AccessControlLaws {
  import opened Wrappers
  import opened AccessControl

  // ---------- The invariant ----------

  ghost predicate UsersOk(users: map<Name, User>) {
    && (forall n :: n in users ==> users[n].username == n && 0 <= users[n].failedAttempts < MAX_FAILED)
    && "admin" in users && users["admin"].active
  }

  /** Every session is of an existing active user and carries exactly the roles that user now has. */
  ghost predicate SessionsOk(users: map<Name, User>, sessions: map<string, Session>) {
    forall id :: id in sessions ==>
      && sessions[id].id == id
      && sessions[id].username in users
      && users[sessions[id].username].active
      && users[sessions[id].username].roles == sessions[id].roles
  }

  ghost predicate WithinLimit(sessions: map<string, Session>) {
    forall n: Name :: |SessionsOf(sessions, n)| <= MAX_SESSIONS
  }

  ghost predicate RolesOk(roles: map<Name, seq<string>>) {
    "admin" in roles && forall r, p :: r in roles && p in roles[r] ==> ValidPermission(p)
  }

  ghost predicate Inv(s: Acl) {
    UsersOk(s.users) && SessionsOk(s.users, s.sessions) && WithinLimit(s.sessions) && RolesOk(s.roles)
  }

  function Initial(hash: string, now: int): Acl {
    Acl(map["admin" := User("admin", hash, "", ["admin"], now, 0, true, 0, 0)], map["admin" := ["*:*"]], map[])
  }

  lemma InitialInv(hash: string, now: int)
    ensures Inv(Initial(hash, now))
  {
    assert forall n: Name :: SessionsOf(map[], n) == {};
  }

  // ---------- Sessions ----------

  /** Taking sessions away, by whatever means and in whatever order, never breaks the session invariants. */
  lemma FewerSessions(users: map<Name, User>, before: map<string, Session>, after: map<string, Session>)
    requires SessionsOk(users, before) && WithinLimit(before)
    requires after.Keys <= before.Keys && forall id :: id in after ==> after[id] == before[id]
    ensures SessionsOk(users, after) && WithinLimit(after)
  {
    forall n: Name
      ensures |SessionsOf(after, n)| <= MAX_SESSIONS
    {
      SubsetSize(SessionsOf(after, n), SessionsOf(before, n));
    }
  }

  lemma {:induction false} SubsetSize(a: set<string>, b: set<string>)
    requires a <= b
    ensures |a| <= |b|
  {
    assert b == a + (b - a);
  }

  /** With the sessions of a user gone, the user may change or disappear. */
  lemma DroppedSessions(before: map<Name, User>, after: map<Name, User>, sessions: map<string, Session>, name: Name)
    requires SessionsOk(before, sessions) && WithinLimit(sessions)
    requires forall n :: n in before && n != name ==> n in after && after[n] == before[n]
    ensures SessionsOk(after, Dropped(sessions, name)) && WithinLimit(Dropped(sessions, name))
  {
    FewerSessions(before, sessions, Dropped(sessions, name));
  }

  /** One more session of an active user, with its roles, after room was made for it. */
  lemma OneMoreSession(users: map<Name, User>, before: map<string, Session>, kept: map<string, Session>, x: Session)
    requires SessionsOk(users, before) && WithinLimit(before) && MadeRoom(before, kept, x.username)
    requires x.username in users && users[x.username].active && users[x.username].roles == x.roles
    ensures SessionsOk(users, kept[x.id := x]) && WithinLimit(kept[x.id := x])
  {
    FewerSessions(users, before, kept);
    var after := kept[x.id := x];
    forall n: Name
      ensures |SessionsOf(after, n)| <= MAX_SESSIONS
    {
      OneMoreOf(kept, x, n);
    }
  }

  lemma OneMoreOf(kept: map<string, Session>, x: Session, n: Name)
    ensures |SessionsOf(kept[x.id := x], n)| <= |SessionsOf(kept, n)| + if n == x.username then 1 else 0
  {
    SubsetSize(SessionsOf(kept[x.id := x], n), SessionsOf(kept, n) + if n == x.username then {x.id} else {});
  }

  // ---------- Every operation keeps the invariant ----------

  lemma LoginKeepsInv(s: Acl, x: Login, kept: map<string, Session>)
    requires Inv(s) && Possible(s, OpLogin(x, kept))
    ensures Inv(Authenticated(s, x, kept))
  {
    if LoginOutcome(s, x) == LoggedIn || LoginOutcome(s, x) == WrongPassword {
      var users := s.users[x.name := AfterLogin(s.users[x.name], x)];
      assert SessionsOk(users, s.sessions);
      if LoginOutcome(s, x) == LoggedIn {
        OneMoreSession(users, s.sessions, kept,
                       Session(x.sessionId, x.name, s.users[x.name].roles, x.sessionNow, x.sessionNow + SESSION_TTL));
      }
    }
  }

  lemma {:induction false} WithoutMembers(s: seq<string>, x: string)
    ensures forall y :: y in Without(s, x) <==> y in s && y != x
    ensures x !in s ==> Without(s, x) == s
  {
    if s != [] {
      WithoutMembers(s[1..], x);
    }
  }

  lemma {:induction false} WithoutAppend(s: seq<string>, y: string, x: string)
    ensures Without(s + [y], x) == Without(s, x) + if y == x then [] else [y]
  {
    if s == [] {
      assert s + [y] == [y] && [y][1..] == [];
    } else {
      assert (s + [y])[1..] == s[1..] + [y];
      WithoutAppend(s[1..], y, x);
    }
  }

  lemma AddingUserKeepsInv(s: Acl, op: Op)
    requires Inv(s) && Failure(s, op).None? && (op.OpCreateUser? || op.OpEnable?)
    ensures Inv(Step(s, op))
  {
    assert SessionsOk(Step(s, op).users, s.sessions);
  }

  lemma EndingSessionsKeepsInv(s: Acl, op: Op)
    requires Inv(s) && Failure(s, op).None?
    requires op.OpDisable? || op.OpDeleteUser? || op.OpChangePassword?
    ensures Inv(Step(s, op))
  {
    DroppedSessions(s.users, Step(s, op).users, s.sessions, op.name);
  }

  lemma SetRolesKeepsInv(s: Acl, name: Name, roles: seq<Name>)
    requires Inv(s) && name in s.users
    ensures Inv(SetRoles(s, name, roles))
  {
    DroppedSessions(s.users, SetRoles(s, name, roles).users, s.sessions, name);
  }

  lemma UserOpKeepsInv(s: Acl, op: Op)
    requires Inv(s) && Failure(s, op).None?
    requires op.OpCreateUser? || op.OpDisable? || op.OpEnable? || op.OpDeleteUser? || op.OpChangePassword?
             || op.OpAddRole? || op.OpRemoveRole?
    ensures Inv(Step(s, op))
  {
    if op.OpCreateUser? || op.OpEnable? {
      AddingUserKeepsInv(s, op);
    } else if op.OpAddRole? {
      SetRolesKeepsInv(s, op.name, s.users[op.name].roles + [op.role]);
    } else if op.OpRemoveRole? {
      SetRolesKeepsInv(s, op.name, Without(s.users[op.name].roles, op.role));
    } else {
      EndingSessionsKeepsInv(s, op);
    }
  }

  lemma DeleteRoleKeepsInv(s: Acl, role: Name)
    requires Inv(s) && role != "admin"
    ensures Inv(DeleteRole(s, role))
  {
    var s' := DeleteRole(s, role);
    FewerSessions(s.users, s.sessions, s'.sessions);
    forall id | id in s'.sessions
      ensures s'.users[s'.sessions[id].username].roles == s'.sessions[id].roles
    {
      WithoutMembers(s.sessions[id].roles, role);
    }
  }

  lemma RoleOpKeepsInv(s: Acl, op: Op)
    requires Inv(s) && Failure(s, op).None?
    requires op.OpCreateRole? || op.OpGrant? || op.OpRevoke?
    ensures Inv(Step(s, op))
  {
    if op.OpRevoke? {
      WithoutMembers(s.roles[op.role], op.perm);
    }
  }

  lemma StepKeepsInv(s: Acl, op: Op)
    requires Inv(s) && Possible(s, op)
    ensures Inv(Step(s, op))
  {
    if op.OpLogin? {
      LoginKeepsInv(s, op.login, op.kept);
    } else if Failure(s, op).None? {
      match op {
        case OpLogout(_) => FewerSessions(s.users, s.sessions, Step(s, op).sessions);
        case OpLookup(_, _) => FewerSessions(s.users, s.sessions, Step(s, op).sessions);
        case OpCleanup(_) => FewerSessions(s.users, s.sessions, Step(s, op).sessions);
        case OpDeleteRole(role) => DeleteRoleKeepsInv(s, role);
        case OpCreateRole(_) => RoleOpKeepsInv(s, op);
        case OpGrant(_, _) => RoleOpKeepsInv(s, op);
        case OpRevoke(_, _) => RoleOpKeepsInv(s, op);
        case _ => UserOpKeepsInv(s, op);
      }
    }
  }

  function RunAll(s: Acl, ops: seq<Op>): Acl
    decreases |ops|
  {
    if ops == [] then s else RunAll(Step(s, ops[0]), ops[1..])
  }

  ghost predicate PossibleRun(s: Acl, ops: seq<Op>)
    decreases |ops|
  {
    ops != [] ==> Possible(s, ops[0]) && PossibleRun(Step(s, ops[0]), ops[1..])
  }

  /** In every run, each session is of an existing active user with exactly its present roles, and no user has
      more sessions than the limit. */
  lemma {:induction false} RunKeepsInv(s: Acl, ops: seq<Op>)
    requires Inv(s) && PossibleRun(s, ops)
    ensures Inv(RunAll(s, ops))
    ensures forall n: Name :: |SessionsOf(RunAll(s, ops).sessions, n)| <= 16
    decreases |ops|
  {
    if ops != [] {
      StepKeepsInv(s, ops[0]);
      RunKeepsInv(Step(s, ops[0]), ops[1..]);
    }
  }

  // ---------- What a granted permission means ----------

  /** The user holds, now, a role with, now, a permission that matches. */
  ghost predicate Entitled(s: Acl, name: Name, db: string, coll: string, op: string) {
    && name in s.users && s.users[name].active
    && exists r, p :: r in s.users[name].roles && r in s.roles && p in s.roles[r] && Matches(p, db, coll, op)
  }

  /** After any run, a permission check succeeds exactly when the session is live and its user is an existing
      active user who currently holds a role that currently has a matching permission. */
  lemma PermissionMeaning(s: Acl, ops: seq<Op>, id: string, now: int, db: string, coll: string, op: string)
    requires Inv(s) && PossibleRun(s, ops)
    ensures var t := RunAll(s, ops);
      Permitted(t, id, now, db, coll, op) <==>
      id in t.sessions && !Expired(t.sessions[id], now) && Entitled(t, t.sessions[id].username, db, coll, op)
  {
    RunKeepsInv(s, ops);
  }

  /** Disabling or deleting a user, changing its password or its roles ends every session it had. */
  lemma Revoked(s: Acl, op: Op, id: string, now: int, db: string, coll: string, oper: string)
    requires Inv(s) && Failure(s, op).None?
    requires op.OpDisable? || op.OpDeleteUser? || op.OpChangePassword? || op.OpAddRole? || op.OpRemoveRole?
    requires id in s.sessions && s.sessions[id].username == op.name
    ensures !Permitted(Step(s, op), id, now, db, coll, oper)
  {
  }

  /** The session that a login opens allows exactly what its user is entitled to, until it expires. */
  lemma LoginTakesEffect(s: Acl, x: Login, kept: map<string, Session>, now: int, db: string, coll: string, oper: string)
    requires Inv(s) && Possible(s, OpLogin(x, kept)) && LoginOutcome(s, x) == LoggedIn
    ensures var t := Step(s, OpLogin(x, kept));
      Permitted(t, x.sessionId, now, db, coll, oper)
      <==> now <= x.sessionNow + 86400 && Entitled(t, x.name, db, coll, oper)
  {
    LoginKeepsInv(s, x, kept);
  }

  /** Removing expired sessions, all or one, changes no answer to a permission check from then on. */
  lemma ExpiryIsInvisible(s: Acl, t: int, jd: string, id: string, now: int, db: string, coll: string, oper: string)
    requires t <= now
    ensures Permitted(Step(s, OpCleanup(t)), id, now, db, coll, oper) == Permitted(s, id, now, db, coll, oper)
    ensures Permitted(Step(s, OpLookup(jd, t)), id, now, db, coll, oper) == Permitted(s, id, now, db, coll, oper)
  {
  }

  // ---------- What one operation undoes ----------

  /** Revoking undoes granting. */
  lemma RevokeUndoesGrant(s: Acl, role: Name, perm: string)
    requires role in s.roles && perm !in s.roles[role] && ValidPermission(perm)
    ensures Step(Step(s, OpGrant(role, perm)), OpRevoke(role, perm)) == s
  {
    WithoutMembers(s.roles[role], perm);
    WithoutAppend(s.roles[role], perm, perm);
    assert Without(s.roles[role] + [perm], perm) == s.roles[role];
    var granted := Step(s, OpGrant(role, perm));
    assert granted.roles == s.roles[role := s.roles[role] + [perm]];
    assert Step(granted, OpRevoke(role, perm)).roles == granted.roles[role := s.roles[role]];
    assert s.roles[role := s.roles[role] + [perm]][role := s.roles[role]] == s.roles;
  }

  /** Taking a role away undoes giving it, except that the sessions of the user are gone. */
  lemma RemoveUndoesAdd(s: Acl, name: Name, role: Name)
    requires name in s.users && role !in s.users[name].roles
    ensures Step(Step(s, OpAddRole(name, role)), OpRemoveRole(name, role)) == s.(sessions := Dropped(s.sessions, name))
  {
    WithoutMembers(s.users[name].roles, role);
    WithoutAppend(s.users[name].roles, role, role);
    assert Without(s.users[name].roles + [role], role) == s.users[name].roles;
    var given := s.users[name].(roles := s.users[name].roles + [role]);
    assert given.(roles := s.users[name].roles) == s.users[name];
    assert s.users[name := given][name := s.users[name]] == s.users;
    assert Dropped(Dropped(s.sessions, name), name) == Dropped(s.sessions, name);
  }

  // ---------- Matching ----------

  lemma {:induction false} SplitAtMeaning(s: string, c: char)
    ensures var (front, back) := SplitAt(s, c);
      && c !in front
      && s == front + (if back.Some? then [c] + back.value else [])
  {
    if s != [] && s[0] != c {
      SplitAtMeaning(s[1..], c);
      var (front, back) := SplitAt(s[1..], c);
      assert s == [s[0]] + s[1..];
    }
  }

  lemma {:induction false} SplitAtUnique(front: string, c: char, back: string)
    requires c !in front
    ensures SplitAt(front + [c] + back, c) == (front, Some(back))
    ensures SplitAt(front, c) == (front, None)
  {
    var s := front + [c] + back;
    if front == [] {
      assert s[0] == c && s[1..] == back;
    } else {
      assert s[1..] == front[1..] + [c] + back;
      assert front == [front[0]] + front[1..];
      SplitAtUnique(front[1..], c, back);
    }
  }

  /** Where the colon and a dot of a valid permission are. */
  lemma Separators(p: string) returns (k: nat, j: nat)
    requires ValidPermission(p) && p != "*:*"
    ensures j < k < |p| && p[k] == ':' && p[j] == '.' && ':' !in p[..k]
  {
    k :| 0 < k < |p| - 1 && p[k] == ':' && (forall i :: 0 <= i < k ==> ResourceChar(p[i]))
         && (exists j :: 0 < j < k - 1 && p[j] == '.');
    j :| 0 < j < k - 1 && p[j] == '.';
  }

  /** A string with a dot splits at its first dot. */
  lemma DottedSplits(resource: string, j: nat) returns (d: string, c: string)
    requires j < |resource| && resource[j] == '.'
    ensures SplitAt(resource, '.') == (d, Some(c)) && resource == d + "." + c && '.' !in d
  {
    SplitAtMeaning(resource, '.');
    d := SplitAt(resource, '.').0;
    c := OrElse(SplitAt(resource, '.').1, "");
  }

  /** A valid permission other than `*:*` reads `d.c:o`, split at the first colon and the first dot, and grants an
      operation on a collection exactly when each of the three parts is `*` or the very name asked for. */
  lemma MatchMeaning(p: string, db: string, coll: string, op: string) returns (d: string, c: string, o: string)
    requires ValidPermission(p) && p != "*:*"
    ensures Parsed(p, d, c, o)
    ensures Matches(p, db, coll, op)
            <==> (d == "*" || d == db) && (c == "*" || c == coll) && (o == "*" || o == op)
  {
    var k, j := Separators(p);
    o := p[k + 1..];
    assert p == p[..k] + [':'] + o;
    SplitAtUnique(p[..k], ':', o);
    d, c := DottedSplits(p[..k], j);
    assert ':' !in d + "." + c;
  }

  ghost predicate Parsed(p: string, d: string, c: string, o: string) {
    p == d + "." + c + ":" + o && '.' !in d && ':' !in d && ':' !in c
  }

  /** In every run an administrative operation is allowed only to a user who holds a role with full access, or with a
      permission on that database and collection that names administration or all operations. */
  lemma AdminMeaning(s: Acl, ops: seq<Op>, id: string, now: int, db: string, coll: string) returns (r: Name, p: string)
    requires Inv(s) && PossibleRun(s, ops) && Permitted(RunAll(s, ops), id, now, db, coll, "admin")
    ensures var t := RunAll(s, ops);
      && t.sessions[id].username in t.users && r in t.users[t.sessions[id].username].roles
      && r in t.roles && p in t.roles[r]
      && (p == "*:*" || Administers(p, db, coll))
  {
    var t := RunAll(s, ops);
    RunKeepsInv(s, ops);
    r, p :| r in t.sessions[id].roles && r in t.roles && p in t.roles[r] && Matches(p, db, coll, "admin");
    if p != "*:*" {
      var d, c, o := MatchMeaning(p, db, coll, "admin");
    }
  }

  ghost predicate Administers(p: string, db: string, coll: string) {
    exists d, c, o :: Parsed(p, d, c, o) && (d == "*" || d == db) && (c == "*" || c == coll) && (o == "admin" || o == "*")
  }

  // ---------- Lockout ----------

  /** Did this call compare a wrong password of the user, in the window from a to b? */
  function ComparedIn(s: Acl, op: Op, name: Name, a: int, b: int): nat {
    if op.OpLogin? && op.login.name == name && LoginOutcome(s, op.login) == WrongPassword && a <= op.login.now <= b
    then 1 else 0
  }

  function Comparisons(s: Acl, ops: seq<Op>, name: Name, a: int, b: int): nat
    decreases |ops|
  {
    if ops == [] then 0
    else ComparedIn(s, ops[0], name, a, b) + Comparisons(Step(s, ops[0]), ops[1..], name, a, b)
  }

  /** The clock never runs backwards, from t on. */
  predicate ClockOrdered(ops: seq<Op>, t: int) {
    ops != [] ==>
      if ops[0].OpLogin? then t <= ops[0].login.now <= ops[0].login.later && ClockOrdered(ops[1..], ops[0].login.later)
      else ClockOrdered(ops[1..], t)
  }

  /** The user is neither logged in successfully nor created again. */
  predicate NoReset(s: Acl, ops: seq<Op>, name: Name)
    decreases |ops|
  {
    ops != [] ==>
      && !(ops[0].OpLogin? && ops[0].login.name == name && LoginOutcome(s, ops[0].login) == LoggedIn)
      && !(ops[0].OpCreateUser? && ops[0].name == name)
      && NoReset(Step(s, ops[0]), ops[1..], name)
  }

  function Max(a: int, b: int): int {
    if a < b then b else a
  }

  /** The most wrong passwords that can be compared from time t to time b in this lock state. */
  function Allowance(l: Lock, t: int, b: int): int {
    var from := if l.until != 0 then Max(t, l.until) else t;
    var failed := if l.until != 0 then 0 else l.failed;
    if b < from then 0 else MAX_FAILED * (1 + (b - from) / LOCKOUT) - failed
  }

  /** A wrong password is compared only while the account is not locked. */
  lemma ComparedUnlocked(s: Acl, op: Op, name: Name, a: int, b: int)
    requires ComparedIn(s, op, name, a, b) == 1
    ensures name in s.users && s.users[name].active
    ensures s.users[name].lockedUntil == 0 || s.users[name].lockedUntil <= op.login.now
  {
  }

  /** No other call touches the lock of a user that stays. */
  lemma LockStays(s: Acl, op: Op, name: Name)
    requires name in s.users && name in Step(s, op).users
    requires !(op.OpLogin? && op.login.name == name) && !(op.OpCreateUser? && op.name == name)
    ensures LockOf(Step(s, op).users[name]) == LockOf(s.users[name])
  {
  }

  /** One attempt with a wrong password uses at least one from the allowance, unless it is after the window. */
  lemma AttemptUses(l: Lock, t: int, now: int, later: int, b: int)
    requires 0 <= l.failed < MAX_FAILED && 0 <= t <= now <= later
    ensures var (l', v) := Attempt(l, now, later, false);
      && 0 <= l'.failed < MAX_FAILED
      && (v.RefusedLocked? ==> l' == l)
      && (v.Compared? && now <= b ==> Allowance(l', later, b) + 1 <= Allowance(l, t, b))
      && Allowance(l', later, b) <= Allowance(l, t, b)
  {
    AllowanceShrinks(l, t, later, b);
    var (l', v) := Attempt(l, now, later, false);
    if v.Compared? {
      AllowanceShrinks(l, t, now, b);
      AllowanceShrinks(l', now, later, b);
      DivideLater(b, now, later);
    }
  }

  /** A lockout later, one group of attempts fewer fits. */
  lemma DivideLater(b: int, now: int, later: int)
    requires now <= later
    ensures later + LOCKOUT <= b ==> 1 + (b - (later + LOCKOUT)) / LOCKOUT <= (b - now) / LOCKOUT
    ensures now <= b ==> (b - now) / LOCKOUT >= 0
  {
  }

  lemma AllowanceShrinks(l: Lock, t: int, t': int, b: int)
    requires 0 <= l.failed < MAX_FAILED && t <= t'
    ensures 0 <= Allowance(l, t', b) <= Allowance(l, t, b)
  {
  }

  lemma OneStepUses(s: Acl, op: Op, name: Name, t: int, b: int)
    requires UsersOk(s.users) && name in s.users
    requires op.OpLogin? ==> 0 <= t <= op.login.now <= op.login.later
    requires !(op.OpLogin? && op.login.name == name && LoginOutcome(s, op.login) == LoggedIn)
    requires !(op.OpCreateUser? && op.name == name)
    ensures var s' := Step(s, op);
      var t' := if op.OpLogin? then op.login.later else t;
      ComparedIn(s, op, name, t, b) + (if name in s'.users then Allowance(LockOf(s'.users[name]), t', b) else 0)
      <= Allowance(LockOf(s.users[name]), t, b)
  {
    var l := LockOf(s.users[name]);
    AllowanceShrinks(l, t, if op.OpLogin? then op.login.later else t, b);
    if op.OpLogin? && op.login.name == name {
      AttemptUses(l, t, op.login.now, op.login.later, b);
    } else if name in Step(s, op).users {
      LockStays(s, op, name);
    }
  }

  /** From time t on. */
  lemma {:induction false} ComparisonsFrom(s: Acl, ops: seq<Op>, name: Name, t: int, a: int, b: int)
    requires Inv(s) && PossibleRun(s, ops) && ClockOrdered(ops, t) && NoReset(s, ops, name) && a <= t && 0 <= t
    ensures Comparisons(s, ops, name, a, b) <= if name in s.users then Allowance(LockOf(s.users[name]), t, b) else 0
    decreases |ops|
  {
    if ops == [] {
      if name in s.users {
        AllowanceShrinks(LockOf(s.users[name]), t, t, b);
      }
    } else {
      var op := ops[0];
      StepKeepsInv(s, op);
      ComparisonsFrom(Step(s, op), ops[1..], name, if op.OpLogin? then op.login.later else t, a, b);
      if name in s.users {
        OneStepUses(s, op, name, t, b);
      }
    }
  }

  /** In any window of T seconds of any run without a successful login or re-creation of the user, at most
      5 * (1 + T div 900) wrong passwords are compared. */
  lemma {:induction false} LockoutBound(s: Acl, ops: seq<Op>, name: Name, t: int, a: int, b: int)
    requires Inv(s) && PossibleRun(s, ops) && ClockOrdered(ops, t) && NoReset(s, ops, name) && a <= b && 0 <= t
    ensures Comparisons(s, ops, name, a, b) <= 5 * (1 + (b - a) / 900)
    decreases |ops|
  {
    if ops != [] {
      var op := ops[0];
      if a <= t || (op.OpLogin? && a <= op.login.now) {
        ComparisonsFrom(s, ops, name, Max(t, a), a, b);
        if name in s.users {
          AllowanceAtMost(LockOf(s.users[name]), Max(t, a), a, b);
        }
      } else {
        StepKeepsInv(s, op);
        LockoutBound(Step(s, op), ops[1..], name, if op.OpLogin? then op.login.later else t, a, b);
      }
    }
  }

  /** The lock after wrong passwords one after the other, each with its two clock readings. */
  function AfterWrong(l: Lock, times: seq<(int, int)>): Lock
    decreases |times|
  {
    if times == [] then l else AfterWrong(Attempt(l, times[0].0, times[0].1, false).0, times[1..])
  }

  lemma {:induction false} WrongInARow(l: Lock, times: seq<(int, int)>)
    requires l.until == 0 && 0 <= l.failed && times != [] && l.failed + |times| <= MAX_FAILED
    ensures AfterWrong(l, times) == if l.failed + |times| < MAX_FAILED then Lock(l.failed + |times|, 0)
                                    else Lock(0, times[|times| - 1].1 + LOCKOUT)
    decreases |times|
  {
    if |times| == 1 {
      assert times[1..] == [];
    } else {
      WrongInARow(Attempt(l, times[0].0, times[0].1, false).0, times[1..]);
    }
  }

  /** The bound is met: up to five wrong passwords in a row are all compared, and the fifth locks the account for
      exactly fifteen minutes, during which even the right password is refused. */
  lemma LockoutExact(times: seq<(int, int)>, now: int, later: int, ok: bool)
    requires 0 < |times| <= 5 && times[|times| - 1].1 >= 0
    ensures var locked := |times| == 5 && now < times[|times| - 1].1 + 900;
      Attempt(AfterWrong(Lock(0, 0), times), now, later, ok).1 == if locked then RefusedLocked else Compared(ok)
  {
    WrongInARow(Lock(0, 0), times);
  }

  lemma AllowanceAtMost(l: Lock, t: int, a: int, b: int)
    requires 0 <= l.failed && a <= t && a <= b
    ensures Allowance(l, t, b) <= MAX_FAILED * (1 + (b - a) / LOCKOUT)
  {
  }
}
