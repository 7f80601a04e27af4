/**
 * The reset-token lifecycle: absent, then pending after forgot-password,
 * then absent again after a successful reset-password.
 */
module ResetLifecycle {
  import opened Wrappers
  import opened Sql
  import opened Credentials
  import opened Schema
  import opened Routes

  /** No row holds `token`: what a freshly drawn 32-byte token is assumed to be. */
  ghost predicate TokenFresh(users: seq<User>, token: string)
  {
    forall i :: 0 <= i < |users| ==> users[i].resetToken != Some(token)
  }

  /** Every row holding `token` has this email. */
  ghost predicate TokenOwnedBy(users: seq<User>, token: string, email: string)
  {
    forall i :: 0 <= i < |users| && users[i].resetToken == Some(token) ==> users[i].email == email
  }

  /** forgot-password for an email no row has changes nothing. */
  lemma UnknownEmailChangesNothing(users: seq<User>, email: string, token: Token, expires: int)
    requires !EmailTaken(users, email)
    ensures IssueToken(users, email, token, expires) == users
  {
  }

  /** After forgot-password, a fresh token is held by the rows of that email
      only. */
  lemma IssuedTokenOwned(users: seq<User>, email: string, token: Token, expires: int)
    requires TokenFresh(users, token)
    ensures TokenOwnedBy(IssueToken(users, email, token, expires), token, email)
  {
  }

  /** A token issued at `issuedAt` is accepted exactly while `now <
      issuedAt + ResetWindow`, and the row it is accepted on has the email it
      was issued for. */
  lemma IssuedTokenValidUntilExpiry(
    users: seq<User>, email: string, token: Token, issuedAt: int, now: int)
    requires EmailTaken(users, email)
    requires TokenFresh(users, token)
    ensures var after := IssueToken(users, email, token, issuedAt + ResetWindow);
      && (ValidTokenIndex(after, token, now).Some? <==> now < issuedAt + ResetWindow)
      && (ValidTokenIndex(after, token, now).Some? ==>
            after[ValidTokenIndex(after, token, now).value].email == email)
  {
    var after := IssueToken(users, email, token, issuedAt + ResetWindow);
    var i :| 0 <= i < |users| && users[i].email == email;
    if now < issuedAt + ResetWindow {
      assert TokenValidAt(after[i], token, now);
    } else {
      forall j | 0 <= j < |after| ensures !TokenValidAt(after[j], token, now) {
        if users[j].email != email {
          assert after[j].resetToken == users[j].resetToken;
        }
      }
    }
    IssuedTokenOwned(users, email, token, issuedAt + ResetWindow);
  }

  /** A successful reset consumes the token: once the rows of its owner are
      reset, the token is refused at every later time. */
  lemma SecondResetRefused(users: seq<User>, token: string, now: int, digest: Digest, later: int)
    requires ValidTokenIndex(users, token, now).Some?
    requires TokenOwnedBy(users, token, users[ValidTokenIndex(users, token, now).value].email)
    ensures var email := users[ValidTokenIndex(users, token, now).value].email;
      ValidTokenIndex(ResetCredentials(users, email, digest), token, later).None?
  {
    var email := users[ValidTokenIndex(users, token, now).value].email;
    var after := ResetCredentials(users, email, digest);
    forall j | 0 <= j < |after| ensures !TokenValidAt(after[j], token, later) {
      if users[j].email != email {
        assert users[j].resetToken != Some(token);
      }
    }
  }

  /** A newer forgot-password for the same email invalidates the older
      token at every time. */
  lemma NewerTokenInvalidatesOlder(
    users: seq<User>, email: string, older: string, newer: Token, expires: int, now: int)
    requires TokenOwnedBy(users, older, email)
    requires newer != older
    ensures ValidTokenIndex(IssueToken(users, email, newer, expires), older, now).None?
  {
    var after := IssueToken(users, email, newer, expires);
    forall j | 0 <= j < |after| ensures !TokenValidAt(after[j], older, now) {
      if users[j].email != email {
        assert after[j] == users[j];
      }
    }
  }

  /** Every table rewrite keeps the two reset columns both NULL or both set,
      and so does a newly inserted row. */
  lemma RewritesKeepResetFieldsPaired(
    users: seq<User>, email: string, token: Token, expires: int, digest: Digest,
    id: int, name: string, phoneNumber: string, address: string, business: string,
    newId: nat, role: string)
    requires AllResetFieldsPaired(users)
    ensures AllResetFieldsPaired(IssueToken(users, email, token, expires))
    ensures AllResetFieldsPaired(ResetCredentials(users, email, digest))
    ensures AllResetFieldsPaired(ApplyProfile(users, id, name, phoneNumber, address, business))
    ensures AllResetFieldsPaired(users + [NewUser(newId, name, phoneNumber, address, business, email, digest, role)])
  {
  }

  /** The whole lifecycle: a token issued at `issuedAt` and presented at
      `now < issuedAt + ResetWindow` is accepted; the reset sets the new
      password, a second use of the token at any time is refused, the new
      password logs in and the old one, when its bcrypt key differs, no
      longer does. */
  lemma ForgotThenReset(
    users: seq<User>, email: string, token: Token, issuedAt: int, now: int, later: int,
    oldPassword: string, newPassword: string, salt: nat)
    requires EmailTaken(users, email)
    requires TokenFresh(users, token)
    requires now < issuedAt + ResetWindow
    requires BcryptKey(oldPassword) != BcryptKey(newPassword)
    ensures var pending := IssueToken(users, email, token, issuedAt + ResetWindow);
      && ValidTokenIndex(pending, token, now).Some?
      && var reset := ResetCredentials(pending, email, Hash(newPassword, salt));
      && ValidTokenIndex(reset, token, later).None?
      && Login(reset, email, newPassword).status == 200
      && Login(reset, email, oldPassword) == InvalidCredentials
  {
    var pending := IssueToken(users, email, token, issuedAt + ResetWindow);
    IssuedTokenValidUntilExpiry(users, email, token, issuedAt, now);
    IssuedTokenOwned(users, email, token, issuedAt + ResetWindow);
    SecondResetRefused(pending, token, now, Hash(newPassword, salt), later);
    var i :| 0 <= i < |users| && users[i].email == email;
    ResetThenLogin(pending, email, i, oldPassword, newPassword, salt);
  }

  /** After the rows of `email` are reset to a hash of `newPassword`, that
      password logs in and one whose bcrypt key differs is refused. */
  lemma ResetThenLogin(users: seq<User>, email: string, i: nat, other: string, newPassword: string, salt: nat)
    requires i < |users| && users[i].email == email
    requires BcryptKey(other) != BcryptKey(newPassword)
    ensures Login(ResetCredentials(users, email, Hash(newPassword, salt)), email, newPassword).status == 200
    ensures Login(ResetCredentials(users, email, Hash(newPassword, salt)), email, other) == InvalidCredentials
  {
    var after := ResetCredentials(users, email, Hash(newPassword, salt));
    assert after[i].email == email;
    var k := FirstIndex(after, EmailIs(email)).value;
    assert after[k].password == Hash(newPassword, salt);
  }
}
