/**
 * Properties of the account routes: signup, login and the profile.
 */
module Accounts {
  import opened Wrappers
  import opened Sql
  import opened Credentials
  import opened Schema
  import opened Routes

  /** An unknown email and a wrong password give the one identical reply. */
  lemma LoginFailureIsUniform(
    users: seq<User>, unknown: string, anyPassword: string, i: nat, wrongPassword: string)
    requires EmailsUnique(users)
    requires !EmailTaken(users, unknown)
    requires i < |users| && !Compare(wrongPassword, users[i].password)
    ensures Login(users, unknown, anyPassword) == InvalidCredentials
    ensures Login(users, users[i].email, wrongPassword) == InvalidCredentials
  {
    assert FirstIndex(users, EmailIs(users[i].email)) == Some(i);
  }

  /** With unique emails, login succeeds exactly when bcrypt accepts the
      password against that user's digest, and the reply carries that
      user's public columns. */
  lemma LoginWithUniqueEmail(users: seq<User>, i: nat, password: string)
    requires EmailsUnique(users)
    requires i < |users|
    ensures Login(users, users[i].email, password).status == 200 <==> Compare(password, users[i].password)
    ensures Compare(password, users[i].password) ==>
      Login(users, users[i].email, password).body == LoginSuccess("Login success", LoginViewOf(users[i]))
  {
    assert FirstIndex(users, EmailIs(users[i].email)) == Some(i);
  }

  /** Signup with a new email followed by login with the same email and
      password succeeds and returns the new row's public columns; a password
      whose bcrypt key differs is refused. */
  lemma {:induction false} SignupThenLogin(
    users: seq<User>, id: nat, name: string, phoneNumber: string, address: string,
    business: string, email: string, password: string, role: string, salt: nat, other: string)
    requires !EmailTaken(users, email)
    requires BcryptKey(other) != BcryptKey(password)
    ensures var after := users + [NewUser(id, name, phoneNumber, address, business, email, Hash(password, salt), role)];
      && Login(after, email, password)
           == Reply(200, LoginSuccess("Login success", LoginView(id, name, role, phoneNumber, address, business, email)))
      && Login(after, email, other) == InvalidCredentials
  {
    var after := users + [NewUser(id, name, phoneNumber, address, business, email, Hash(password, salt), role)];
    assert after[|users|].email == email;
    assert forall j :: 0 <= j < |users| ==> after[j] == users[j];
    assert FirstIndex(after, EmailIs(email)) == Some(|users|);
  }

  /** A profile update never changes who can log in: every login gives the
      same status before and after. */
  lemma ProfileUpdateKeepsCredentials(
    users: seq<User>, id: int, name: string, phoneNumber: string, address: string,
    business: string, email: string, password: string)
    ensures Login(ApplyProfile(users, id, name, phoneNumber, address, business), email, password).status
         == Login(users, email, password).status
  {
    var after := ApplyProfile(users, id, name, phoneNumber, address, business);
    assert forall j :: 0 <= j < |users| ==> EmailIs(email)(after[j]) == EmailIs(email)(users[j]);
    var before, now := FirstIndex(users, EmailIs(email)), FirstIndex(after, EmailIs(email));
    if before.Some? {
      assert now.Some? && now.value == before.value;
    }
  }

  /** Reading a profile after updating it shows the new values. */
  lemma ProfileReadAfterUpdate(
    users: seq<User>, i: nat, name: string, phoneNumber: string, address: string, business: string)
    requires i < |users|
    ensures var id := users[i].id;
      GetProfile(ApplyProfile(users, id, name, phoneNumber, address, business), id)
        == Reply(200, Profile(ProfileView(id, name, phoneNumber, address, business)))
  {
    var id := users[i].id;
    var after := ApplyProfile(users, id, name, phoneNumber, address, business);
    assert after[i].id == id;
    var k := FirstIndex(after, UserIdIs(id)).value;
    assert after[k].id == id;
  }

  /** bcrypt reads only the first 72 bytes: after signing up with 72 `a`s
      followed by `1`, the same 72 `a`s followed by `2` log in too. */
  lemma LoginIgnoresBytesPastKey(
    id: nat, name: string, phoneNumber: string, address: string, business: string,
    email: string, role: string, salt: nat)
    ensures var prefix := seq(BcryptKeyBytes, _ => 'a');
      var after := [NewUser(id, name, phoneNumber, address, business, email, Hash(prefix + "1", salt), role)];
      Login(after, email, prefix + "2").status == 200
  {
    var prefix := seq(BcryptKeyBytes, _ => 'a');
    SuffixPastKeyIgnored(prefix, "1", "2", salt);
    var after := [NewUser(id, name, phoneNumber, address, business, email, Hash(prefix + "1", salt), role)];
    assert FirstIndex(after, EmailIs(email)) == Some(0);
  }
}
