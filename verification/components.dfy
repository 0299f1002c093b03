/** The password-update form of `add_auth_controls` in components.py: the
    confirmation and emptiness checks come first, then the stored hash is
    looked up by the session user's id, verified, and rewritten. */
module Components {
  import opened Options
  import opened Records
  import opened Auth

  /** The message the form ends with. `Failed` is the generic
      "Error updating password" shown for any exception. */
  datatype PasswordOutcome = Mismatch | CurrentMissing | CurrentIncorrect | Failed | Updated

  /** `SELECT password_hash FROM users WHERE id = %s` followed by `fetchone()`. */
  function FindById(users: seq<UserRow>, id: UserId): (r: Option<UserRow>)
    ensures r.Some? ==> r.value in users && r.value.id == id
    ensures r.None? <==> forall u :: u in users ==> u.id != id
  {
    if |users| == 0 then None
    else if users[0].id == id then Some(users[0])
    else
      assert users == [users[0]] + users[1..];
      FindById(users[1..], id)
  }

  /** `UPDATE users SET password_hash = %s WHERE id = %s`. */
  function SetHash(users: seq<UserRow>, id: UserId, hash: string): (r: seq<UserRow>)
    ensures |r| == |users|
    ensures forall i :: 0 <= i < |users| ==>
      r[i] == if users[i].id == id then users[i].(passwordHash := hash) else users[i]
  {
    if |users| == 0 then []
    else [if users[0].id == id then users[0].(passwordHash := hash) else users[0]] + SetHash(users[1..], id, hash)
  }

  /** The session user's id, when the session holds one; reading it from an
      empty session raises. */
  function SessionUserId(session: SessionEntry): Option<UserId> {
    match session
    case Set(Some(u)) => Some(u.id)
    case _ => None
  }

  /** The form's submit handler. `fault` stands for a database exception,
      after which nothing is committed. */
  function ChangePassword(users: seq<UserRow>, session: SessionEntry, crypto: Crypto,
                          current: string, newPassword: string, confirmation: string, fault: bool): (r: (PasswordOutcome, seq<UserRow>))
    ensures newPassword != confirmation ==> r == (Mismatch, users)
    ensures newPassword == confirmation && current == "" ==> r == (CurrentMissing, users)
    ensures r.0 != Updated ==> r.1 == users
    ensures r.0 == Updated <==>
      && newPassword == confirmation && current != "" && !fault && SessionUserId(session).Some?
      && FindById(users, SessionUserId(session).value).Some?
      && crypto.verify(current, FindById(users, SessionUserId(session).value).value.passwordHash)
    ensures r.0 == Updated ==> r.1 == SetHash(users, SessionUserId(session).value, crypto.hash(newPassword))
  {
    if newPassword != confirmation then (Mismatch, users)
    else if current == "" then (CurrentMissing, users)
    else if fault then (Failed, users)
    else match SessionUserId(session)
      case None => (Failed, users)
      case Some(id) =>
        match FindById(users, id)
        case None => (Failed, users)
        case Some(row) =>
          if crypto.verify(current, row.passwordHash) then (Updated, SetHash(users, id, crypto.hash(newPassword)))
          else (CurrentIncorrect, users)
  }

  /** A successful change rewrites only the session user's row: every other
      row, and every column but the hash, is unchanged. */
  lemma ChangeTouchesOnlySessionUser(users: seq<UserRow>, session: SessionEntry, crypto: Crypto,
                                     current: string, newPassword: string, fault: bool)
    requires ChangePassword(users, session, crypto, current, newPassword, newPassword, fault).0 == Updated
    ensures var after := ChangePassword(users, session, crypto, current, newPassword, newPassword, fault).1;
      && |after| == |users|
      && forall i :: 0 <= i < |users| ==>
           && after[i].(passwordHash := users[i].passwordHash) == users[i]
           && (users[i].id != SessionUserId(session).value ==> after[i] == users[i])
           && (users[i].id == SessionUserId(session).value ==> after[i].passwordHash == crypto.hash(newPassword))
  {
  }

  /** After a successful change, the account logs in with the new password,
      provided the hash verifies its own password. */
  lemma ChangeThenLogin(users: seq<UserRow>, session: SessionEntry, crypto: Crypto,
                        current: string, newPassword: string)
    requires UniqueUsernames(users)
    requires crypto.verify(newPassword, crypto.hash(newPassword))
    requires ChangePassword(users, session, crypto, current, newPassword, newPassword, false).0 == Updated
    ensures var after := ChangePassword(users, session, crypto, current, newPassword, newPassword, false).1;
      var name := FindById(users, SessionUserId(session).value).value.username;
      Login(AuthState(after, session), crypto, name, newPassword).0
  {
    var id := SessionUserId(session).value;
    var row := FindById(users, id).value;
    var after := SetHash(users, id, crypto.hash(newPassword));
    var i :| 0 <= i < |users| && users[i] == row;
    assert after[i].username == row.username && after[i].passwordHash == crypto.hash(newPassword);
    assert after[i] in after;
    assert UniqueUsernames(after) by {
      forall a, b | 0 <= a < b < |after| ensures after[a].username != after[b].username {
        assert after[a].username == users[a].username && after[b].username == users[b].username;
      }
    }
  }
}
