/** Users, roles, sessions and account lockout: what each operation makes of the three maps.

    Passwords are abstract: whether one matches a stored hash is a parameter of a login, and a fresh hash is
    a parameter of the operations that compute one. So are the clock readings and the random session id. */
module AccessControl {
  import opened Wrappers

  const MAX_USERNAME_LEN := 64
  const MIN_PASSWORD_LEN := 8
  const MAX_PASSWORD_LEN := 256
  const SESSION_TTL := 24 * 3600
  const MAX_SESSIONS := 16
  const MAX_FAILED := 5
  const LOCKOUT := 15 * 60

  type Name = string

  datatype User = User(
    username: Name, passwordHash: string, legacyPassword: string, roles: seq<Name>, createdAt: int,
    lastLogin: int, active: bool, failedAttempts: int, lockedUntil: int)

  datatype Session = Session(id: string, username: Name, roles: seq<Name>, createdAt: int, expiresAt: int)

  datatype Acl = Acl(users: map<Name, User>, roles: map<Name, seq<string>>, sessions: map<string, Session>)

  datatype Error =
    | InvalidName | InvalidPassword | InvalidPermission | HashFailed | Exists | NotFound | BuiltIn | HasRole
    | InvalidCredentials | Disabled | Locked

  // ---------- Validation ----------

  predicate NameChar(c: char) {
    'a' <= c <= 'z' || 'A' <= c <= 'Z' || '0' <= c <= '9' || c in "_.@-"
  }

  predicate ValidUsername(s: Name) {
    0 < |s| <= MAX_USERNAME_LEN && forall c :: c in s ==> NameChar(c)
  }

  predicate ValidPassword(s: string) {
    MIN_PASSWORD_LEN <= |s| <= MAX_PASSWORD_LEN
  }

  predicate OperationChar(c: char) {
    'a' <= c <= 'z' || 'A' <= c <= 'Z' || '0' <= c <= '9' || c in "_*"
  }

  predicate ResourceChar(c: char) {
    OperationChar(c) || c in ".-"
  }

  /** `*:*`, or a resource with an inner dot, a colon and an operation, from the allowed characters. */
  predicate ValidPermission(p: string) {
    p == "*:*"
    || exists c :: 0 < c < |p| - 1 && p[c] == ':'
         && (forall i :: 0 <= i < c ==> ResourceChar(p[i]))
         && (forall i :: c < i < |p| ==> OperationChar(p[i]))
         && (exists d :: 0 < d < c - 1 && p[d] == '.')
  }

  // ---------- Matching ----------

  /** The part before the first occurrence of c, the part after it; the whole and None if there is none. */
  function SplitAt(s: string, c: char): (r: (string, Option<string>)) {
    if s == [] then ([], None)
    else if s[0] == c then ([], Some(s[1..]))
    else
      var (front, back) := SplitAt(s[1..], c);
      ([s[0]] + front, back)
  }

  function OrElse(o: Option<string>, d: string): string {
    if o.Some? then o.value else d
  }

  predicate Covers(pattern: string, s: string) {
    pattern == "*" || pattern == s
  }

  predicate Matches(perm: string, db: string, coll: string, op: string) {
    perm == "*:*"
    || (var (resource, operation) := SplitAt(perm, ':');
        var (d, c) := SplitAt(resource, '.');
        Covers(OrElse(operation, ""), op) && Covers(d, db) && Covers(OrElse(c, "*"), coll))
  }

  // ---------- Lists ----------

  function Without(s: seq<string>, x: string): seq<string> {
    if s == [] then [] else (if s[0] == x then [] else [s[0]]) + Without(s[1..], x)
  }

  /** Drops empty names and repetitions, keeping the first of each. */
  function Deduped(s: seq<Name>): (r: seq<Name>) {
    if s == [] then []
    else
      var front, x := Deduped(s[..|s| - 1]), s[|s| - 1];
      if x == "" || x in front then front else front + [x]
  }

  // ---------- Lockout ----------

  datatype Lock = Lock(failed: int, until: int)

  datatype Verdict = RefusedLocked | Compared(ok: bool)

  function LockOf(u: User): Lock {
    Lock(u.failedAttempts, u.lockedUntil)
  }

  /** One login attempt of an active user: the clock is read at `now` to see whether the account is locked, and
      again at `later` if it has to be locked. */
  function Attempt(l: Lock, now: int, later: int, ok: bool): (Lock, Verdict) {
    if l.until != 0 && now < l.until then (l, RefusedLocked)
    else
      var failed := if l.until != 0 then 0 else l.failed;
      if ok then (Lock(0, 0), Compared(true))
      else if failed + 1 >= MAX_FAILED then (Lock(0, later + LOCKOUT), Compared(false))
      else (Lock(failed + 1, 0), Compared(false))
  }

  // ---------- Sessions ----------

  function SessionsOf(sessions: map<string, Session>, name: Name): set<string> {
    set id | id in sessions && sessions[id].username == name
  }

  function Dropped(sessions: map<string, Session>, name: Name): map<string, Session> {
    map id | id in sessions && sessions[id].username != name :: sessions[id]
  }

  /** What making room for one more session of a user may leave: the oldest of its sessions go, down to one
      below the limit, and nothing else goes. */
  ghost predicate MadeRoom(before: map<string, Session>, after: map<string, Session>, name: Name) {
    && after.Keys <= before.Keys
    && (forall id :: id in after ==> after[id] == before[id])
    && (forall id :: id in before && before[id].username != name ==> id in after)
    && |SessionsOf(after, name)| == (if |SessionsOf(before, name)| < MAX_SESSIONS then |SessionsOf(before, name)| else MAX_SESSIONS - 1)
    && (forall id, jd :: id in before && id !in after && jd in after && after[jd].username == name ==>
          before[id].createdAt <= after[jd].createdAt)
  }

  // ---------- The operations ----------

  function CreateUser(s: Acl, name: Name, hash: string, roles: seq<Name>, now: int): Acl {
    s.(users := s.users[name := User(name, hash, "", Deduped(roles), now, 0, true, 0, 0)])
  }

  /** Everything a login reads from outside. */
  datatype Login = Login(
    name: Name, hashOk: bool, legacyOk: bool, newHash: Option<string>, now: int, later: int, loginMs: int,
    sessionNow: int, sessionId: string)

  function PasswordOk(u: User, x: Login): bool {
    if u.passwordHash != "" then x.hashOk else u.legacyPassword != "" && x.legacyOk
  }

  function AfterLogin(u: User, x: Login): User {
    var (lock, verdict) := Attempt(LockOf(u), x.now, x.later, PasswordOk(u, x));
    var migrate := u.passwordHash == "" && x.newHash.Some?;
    if verdict == RefusedLocked then u
    else if verdict.ok then
      u.(passwordHash := if migrate then x.newHash.value else u.passwordHash,
         legacyPassword := if migrate then "" else u.legacyPassword,
         lastLogin := x.loginMs, failedAttempts := 0, lockedUntil := 0)
    else u.(failedAttempts := lock.failed, lockedUntil := lock.until)
  }

  datatype LoginResult = NoSuchUser | IsDisabled | IsLocked | WrongPassword | LoggedIn

  function LoginOutcome(s: Acl, x: Login): LoginResult {
    if !ValidUsername(x.name) || x.name !in s.users then NoSuchUser
    else if !s.users[x.name].active then IsDisabled
    else
      match Attempt(LockOf(s.users[x.name]), x.now, x.later, PasswordOk(s.users[x.name], x)).1
      case RefusedLocked => IsLocked
      case Compared(ok) => if ok then LoggedIn else WrongPassword
  }

  /** The state after a login; `kept` is what making room left of the sessions. */
  function Authenticated(s: Acl, x: Login, kept: map<string, Session>): Acl {
    match LoginOutcome(s, x)
    case WrongPassword => s.(users := s.users[x.name := AfterLogin(s.users[x.name], x)])
    case LoggedIn =>
      s.(users := s.users[x.name := AfterLogin(s.users[x.name], x)],
         sessions := kept[x.sessionId := Session(x.sessionId, x.name, s.users[x.name].roles, x.sessionNow, x.sessionNow + SESSION_TTL)])
    case _ => s
  }

  function Logout(s: Acl, id: string): Acl {
    s.(sessions := s.sessions - {id})
  }

  predicate Expired(x: Session, now: int) {
    now > x.expiresAt
  }

  /** Looking a session up removes it if it has expired. */
  function LookedUp(s: Acl, id: string, now: int): Acl {
    if id in s.sessions && Expired(s.sessions[id], now) then Logout(s, id) else s
  }

  function CleanedUp(s: Acl, now: int): Acl {
    s.(sessions := map id | id in s.sessions && !Expired(s.sessions[id], now) :: s.sessions[id])
  }

  function SetActive(s: Acl, name: Name, active: bool): Acl
    requires name in s.users
  {
    var t := s.(users := s.users[name := s.users[name].(active := active)]);
    if active then t else t.(sessions := Dropped(t.sessions, name))
  }

  function DeleteUser(s: Acl, name: Name): Acl {
    s.(users := s.users - {name}, sessions := Dropped(s.sessions, name))
  }

  function ChangePassword(s: Acl, name: Name, hash: string): Acl
    requires name in s.users
  {
    s.(users := s.users[name := s.users[name].(passwordHash := hash, legacyPassword := "")],
       sessions := Dropped(s.sessions, name))
  }

  function SetRoles(s: Acl, name: Name, roles: seq<Name>): Acl
    requires name in s.users
  {
    s.(users := s.users[name := s.users[name].(roles := roles)], sessions := Dropped(s.sessions, name))
  }

  function DeleteRole(s: Acl, role: Name): Acl {
    Acl(map n | n in s.users :: s.users[n].(roles := Without(s.users[n].roles, role)),
        s.roles - {role},
        map id | id in s.sessions && role !in s.sessions[id].roles :: s.sessions[id])
  }

  function SetPermissions(s: Acl, role: Name, perms: seq<string>): Acl {
    s.(roles := s.roles[role := perms])
  }

  // ---------- Permission checks ----------

  predicate RolesAllow(roles: map<Name, seq<string>>, held: seq<Name>, db: string, coll: string, op: string) {
    exists r, p :: r in held && r in roles && p in roles[r] && Matches(p, db, coll, op)
  }

  predicate Permitted(s: Acl, id: string, now: int, db: string, coll: string, op: string) {
    id in s.sessions && !Expired(s.sessions[id], now) && RolesAllow(s.roles, s.sessions[id].roles, db, coll, op)
  }

  // ---------- Calls ----------

  datatype Op =
    | OpCreateUser(name: Name, password: string, hash: Option<string>, roles: seq<Name>, now: int)
    | OpLogin(login: Login, kept: map<string, Session>)
    | OpLogout(id: string)
    | OpLookup(id: string, now: int)
    | OpCleanup(now: int)
    | OpDisable(name: Name)
    | OpEnable(name: Name)
    | OpDeleteUser(name: Name)
    | OpChangePassword(name: Name, password: string, hash: Option<string>)
    | OpCreateRole(role: Name)
    | OpDeleteRole(role: Name)
    | OpGrant(role: Name, perm: string)
    | OpRevoke(role: Name, perm: string)
    | OpAddRole(name: Name, role: Name)
    | OpRemoveRole(name: Name, role: Name)

  /** The error a call returns, None if it succeeds; a call that returns an error changes nothing, except that a
      failed login counts. */
  function Failure(s: Acl, op: Op): Option<Error> {
    match op
    case OpCreateUser(name, password, hash, _, _) =>
      if !ValidUsername(name) then Some(InvalidName)
      else if !ValidPassword(password) then Some(InvalidPassword)
      else if hash.None? then Some(HashFailed)
      else if name in s.users then Some(Exists)
      else None
    case OpLogin(x, _) =>
      (match LoginOutcome(s, x)
       case NoSuchUser => Some(InvalidCredentials)
       case IsDisabled => Some(Disabled)
       case IsLocked => Some(Locked)
       case WrongPassword => Some(InvalidCredentials)
       case LoggedIn => None)
    case OpLogout(_) => None
    case OpLookup(_, _) => None
    case OpCleanup(_) => None
    case OpDisable(name) => if name == "admin" then Some(BuiltIn) else if name !in s.users then Some(NotFound) else None
    case OpEnable(name) => if name !in s.users then Some(NotFound) else None
    case OpDeleteUser(name) => if name == "admin" then Some(BuiltIn) else if name !in s.users then Some(NotFound) else None
    case OpChangePassword(name, password, hash) =>
      if !ValidPassword(password) then Some(InvalidPassword)
      else if hash.None? then Some(HashFailed)
      else if name !in s.users then Some(NotFound)
      else None
    case OpCreateRole(role) => if role == "" then Some(InvalidName) else if role in s.roles then Some(Exists) else None
    case OpDeleteRole(role) => if role == "admin" then Some(BuiltIn) else if role !in s.roles then Some(NotFound) else None
    case OpGrant(role, perm) =>
      if !ValidPermission(perm) then Some(InvalidPermission) else if role !in s.roles then Some(NotFound) else None
    case OpRevoke(role, _) => if role !in s.roles then Some(NotFound) else None
    case OpAddRole(name, role) =>
      if name !in s.users then Some(NotFound) else if role in s.users[name].roles then Some(HasRole) else None
    case OpRemoveRole(name, _) => if name !in s.users then Some(NotFound) else None
  }

  function Step(s: Acl, op: Op): Acl {
    if op.OpLogin? then Authenticated(s, op.login, op.kept)
    else if Failure(s, op).Some? then s
    else
      match op
      case OpCreateUser(name, _, hash, roles, now) => CreateUser(s, name, hash.value, roles, now)
      case OpLogin(_, _) => s
      case OpLogout(id) => Logout(s, id)
      case OpLookup(id, now) => LookedUp(s, id, now)
      case OpCleanup(now) => CleanedUp(s, now)
      case OpDisable(name) => SetActive(s, name, false)
      case OpEnable(name) => SetActive(s, name, true)
      case OpDeleteUser(name) => DeleteUser(s, name)
      case OpChangePassword(name, _, hash) => ChangePassword(s, name, hash.value)
      case OpCreateRole(role) => SetPermissions(s, role, [])
      case OpDeleteRole(role) => DeleteRole(s, role)
      case OpGrant(role, perm) =>
        SetPermissions(s, role, if perm in s.roles[role] then s.roles[role] else s.roles[role] + [perm])
      case OpRevoke(role, perm) => SetPermissions(s, role, Without(s.roles[role], perm))
      case OpAddRole(name, role) => SetRoles(s, name, s.users[name].roles + [role])
      case OpRemoveRole(name, role) => SetRoles(s, name, Without(s.users[name].roles, role))
  }

  /** A login that succeeds first makes room for its session. */
  ghost predicate Possible(s: Acl, op: Op) {
    op.OpLogin? && LoginOutcome(s, op.login) == LoggedIn ==> MadeRoom(s.sessions, op.kept, op.login.name)
  }
}
