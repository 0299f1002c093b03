/** auth.py as a state machine over the users table and the session's
    `user` entry. Password hashing is uninterpreted: a `Crypto` value
    supplies the hash and verify functions. */
module Auth {
  import opened Options
  import opened Records

  datatype UserRow = UserRow(id: UserId, username: string, passwordHash: string, isAdmin: bool, createdAt: int)

  /** The `User` object kept in the session: the row without its hash. */
  datatype SessionUser = SessionUser(id: UserId, username: string, isAdmin: bool, createdAt: int)

  /** The session's `user` key: absent until `init_auth` runs, then a user
      or None. */
  datatype SessionEntry = Unset | Set(user: Option<SessionUser>)

  /** `User.hash_password` and `User.verify_password`. */
  datatype Crypto = Crypto(hash: string -> string, verify: (string, string) -> bool)

  datatype AuthState = AuthState(users: seq<UserRow>, session: SessionEntry)

  predicate UniqueUsernames(users: seq<UserRow>) {
    forall i, j :: 0 <= i < j < |users| ==> users[i].username != users[j].username
  }

  predicate UniqueIds(users: seq<UserRow>) {
    forall i, j :: 0 <= i < j < |users| ==> users[i].id != users[j].id
  }

  function SessionOf(u: UserRow): SessionUser {
    SessionUser(u.id, u.username, u.isAdmin, u.createdAt)
  }

  /** `SELECT ... FROM users WHERE username = %s` followed by `fetchone()`. */
  function FindByUsername(users: seq<UserRow>, name: string): (r: Option<UserRow>)
    ensures r.Some? ==> r.value in users && r.value.username == name
    ensures r.None? <==> forall u :: u in users ==> u.username != name
  {
    if |users| == 0 then None
    else if users[0].username == name then Some(users[0])
    else
      assert users == [users[0]] + users[1..];
      FindByUsername(users[1..], name)
  }

  /** With unique usernames, a username identifies at most one row. */
  lemma UsernameIdentifiesRow(users: seq<UserRow>, u: UserRow, v: UserRow)
    requires UniqueUsernames(users)
    requires u in users && v in users && u.username == v.username
    ensures u == v
  {
    var i :| 0 <= i < |users| && users[i] == u;
    var j :| 0 <= j < |users| && users[j] == v;
    assert i == j;
  }

  /** `init_auth`: creates the entry as None only when it is missing. */
  function InitAuth(e: SessionEntry): (r: SessionEntry)
    ensures r.Set?
    ensures e.Set? ==> r == e
    ensures e.Unset? ==> r.user.None?
  {
    match e
    case Unset => Set(None)
    case Set(_) => e
  }

  /** `login_user`: succeeds, and stores the user in the session, exactly
      when a row has that username and the password verifies against its
      hash. Both kinds of failure give the same `false` and change nothing. */
  function Login(st: AuthState, crypto: Crypto, username: string, password: string): (r: (bool, AuthState))
    ensures r.1.users == st.users
    ensures !r.0 ==> r.1 == st
    ensures r.0 ==> exists u :: u in st.users && u.username == username
                      && crypto.verify(password, u.passwordHash) && r.1.session == Set(Some(SessionOf(u)))
    ensures UniqueUsernames(st.users) ==>
      (r.0 <==> exists u :: u in st.users && u.username == username && crypto.verify(password, u.passwordHash))
  {
    match FindByUsername(st.users, username)
    case Some(u) =>
      if crypto.verify(password, u.passwordHash) then
        (true, st.(session := Set(Some(SessionOf(u)))))
      else
        assert UniqueUsernames(st.users) ==> forall v :: v in st.users && v.username == username ==> v == u by {
          if UniqueUsernames(st.users) {
            forall v | v in st.users && v.username == username ensures v == u {
              UsernameIdentifiesRow(st.users, u, v);
            }
          }
        }
        (false, st)
    case None => (false, st)
  }

  /** `register_user`. `newId` and `createdAt` are what the INSERT's
      RETURNING clause yields (a fresh serial id); `fault` stands for any
      exception, after which the transaction is rolled back. */
  function Register(st: AuthState, crypto: Crypto, username: string, password: string,
                    newId: UserId, createdAt: int, fault: bool): (r: (bool, AuthState))
    requires forall u :: u in st.users ==> u.id != newId
    ensures r.0 <==> !fault && forall u :: u in st.users ==> u.username != username
    ensures !r.0 ==> r.1 == st
    ensures r.0 ==> r.1.users == st.users + [UserRow(newId, username, crypto.hash(password), false, createdAt)]
    ensures r.0 ==> r.1.session == Set(Some(SessionUser(newId, username, false, createdAt)))
  {
    if fault then (false, st)
    else if FindByUsername(st.users, username).Some? then (false, st)
    else
      var row := UserRow(newId, username, crypto.hash(password), false, createdAt);
      (true, AuthState(st.users + [row], Set(Some(SessionOf(row)))))
  }

  /** Registration keeps usernames and ids unique. */
  lemma RegisterKeepsUnique(st: AuthState, crypto: Crypto, username: string, password: string,
                            newId: UserId, createdAt: int, fault: bool)
    requires forall u :: u in st.users ==> u.id != newId
    requires UniqueUsernames(st.users) && UniqueIds(st.users)
    ensures UniqueUsernames(Register(st, crypto, username, password, newId, createdAt, fault).1.users)
    ensures UniqueIds(Register(st, crypto, username, password, newId, createdAt, fault).1.users)
  {
    var r := Register(st, crypto, username, password, newId, createdAt, fault);
    if r.0 {
      var users := r.1.users;
      forall i, j | 0 <= i < j < |users|
        ensures users[i].username != users[j].username && users[i].id != users[j].id
      {
        if j == |users| - 1 {
          assert users[i] in st.users;
        }
      }
    }
  }

  /** After a successful registration the same credentials log in, provided
      the hash verifies its own password. */
  lemma RegisterThenLogin(st: AuthState, crypto: Crypto, username: string, password: string,
                          newId: UserId, createdAt: int)
    requires forall u :: u in st.users ==> u.id != newId
    requires UniqueUsernames(st.users) && UniqueIds(st.users)
    requires crypto.verify(password, crypto.hash(password))
    requires Register(st, crypto, username, password, newId, createdAt, false).0
    ensures var after := Register(st, crypto, username, password, newId, createdAt, false).1;
      Login(after, crypto, username, password) == (true, after)
  {
    var after := Register(st, crypto, username, password, newId, createdAt, false).1;
    RegisterKeepsUnique(st, crypto, username, password, newId, createdAt, false);
    var row := after.users[|after.users| - 1];
    assert row in after.users;
    var found := FindByUsername(after.users, username);
    UsernameIdentifiesRow(after.users, found.value, row);
  }

  /** `logout_user`. */
  function Logout(st: AuthState): (r: AuthState)
    ensures r.users == st.users
    ensures r.session == Set(None)
  {
    st.(session := Set(None))
  }

  /** Why a guard halted the page. */
  datatype Halt = LoginRequired | AdminRequired

  datatype Guard = Granted(user: SessionUser) | Halted(reason: Halt)

  /** `require_auth`: runs `init_auth`, then halts unless a user is in the
      session. Returns the session entry as left behind, and the verdict. */
  function RequireAuth(e: SessionEntry): (r: (SessionEntry, Guard))
    ensures r.0 == InitAuth(e)
    ensures r.1.Granted? <==> e.Set? && e.user.Some?
    ensures r.1.Granted? ==> r.1.user == e.user.value
    ensures r.1.Halted? ==> r.1.reason == LoginRequired
  {
    var e' := InitAuth(e);
    match e'.user
    case None => (e', Halted(LoginRequired))
    case Some(u) => (e', Granted(u))
  }

  /** `require_admin`: `require_auth`, then halts unless that user is an
      administrator. */
  function RequireAdmin(e: SessionEntry): (r: (SessionEntry, Guard))
    ensures r.0 == InitAuth(e)
    ensures r.1.Granted? <==> e.Set? && e.user.Some? && e.user.value.isAdmin
    ensures r.1.Granted? ==> r.1.user == e.user.value
    ensures r.1 == Halted(LoginRequired) <==> !(e.Set? && e.user.Some?)
    ensures r.1 == Halted(AdminRequired) <==> e.Set? && e.user.Some? && !e.user.value.isAdmin
  {
    var (e', g) := RequireAuth(e);
    match g
    case Halted(_) => (e', g)
    case Granted(u) => if u.isAdmin then (e', g) else (e', Halted(AdminRequired))
  }
}
