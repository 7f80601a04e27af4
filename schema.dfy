/**
 * The two tables of the `reactnodedb` database the routes use, and the
 * invariants a well-formed database keeps.
 */
module Schema {
  import opened Wrappers
  import opened Credentials

  /** A row of `usertable`.  `resetToken` and `resetTokenExpires` are the
      nullable `reset_token` and `reset_token_expires` columns; the expiry
      is a clock value in milliseconds. */
  datatype User = User(
    id: nat,
    name: string,
    phoneNumber: string,
    address: string,
    business: string,
    email: string,
    password: Digest,
    role: string,
    resetToken: Option<Token>,
    resetTokenExpires: Option<int>)

  /** A row of `products`.  `price` and `userId` arrive as form fields and
      are kept as the strings the handler receives. */
  datatype Product = Product(
    id: nat,
    name: string,
    description: string,
    price: string,
    image: string,
    userId: string)

  /** Validity of a reset token: one hour, in milliseconds. */
  const ResetWindow := 3600000

  /** The prefix of every `image_url`. */
  const UploadsUrl := "http://localhost:8081/uploads/"

  /** The prefix of every reset link. */
  const ResetPageUrl := "http://localhost:3000/reset-password/"

  /** The two reset columns are both NULL or both set. */
  predicate ResetFieldsPaired(u: User)
  {
    u.resetToken.Some? <==> u.resetTokenExpires.Some?
  }

  ghost predicate AllResetFieldsPaired(users: seq<User>)
  {
    forall i :: 0 <= i < |users| ==> ResetFieldsPaired(users[i])
  }

  /** Ids strictly increase in table order and stay below the next
      auto-increment value. */
  ghost predicate UserIdsAscending(users: seq<User>, nextId: nat)
  {
    && (forall i, j :: 0 <= i < j < |users| ==> users[i].id < users[j].id)
    && (forall i :: 0 <= i < |users| ==> users[i].id < nextId)
  }

  ghost predicate ProductIdsAscending(products: seq<Product>, nextId: nat)
  {
    && (forall i, j :: 0 <= i < j < |products| ==> products[i].id < products[j].id)
    && (forall i :: 0 <= i < |products| ==> products[i].id < nextId)
  }

  /** The unique key on `email`. */
  ghost predicate EmailsUnique(users: seq<User>)
  {
    forall i, j :: 0 <= i < j < |users| ==> users[i].email != users[j].email
  }

  /** A rewrite that keeps every row's id and email in place keeps the
      ordering of ids and the unique key. */
  lemma KeysKept(before: seq<User>, after: seq<User>, nextId: nat)
    requires |after| == |before|
    requires forall i :: 0 <= i < |before| ==> after[i].id == before[i].id && after[i].email == before[i].email
    requires UserIdsAscending(before, nextId) && EmailsUnique(before)
    ensures UserIdsAscending(after, nextId) && EmailsUnique(after)
  {
  }

  /** Taking one row out keeps product ids ascending. */
  lemma DropKeepsAscending(products: seq<Product>, k: nat, nextId: nat)
    requires k < |products|
    requires ProductIdsAscending(products, nextId)
    ensures ProductIdsAscending(products[..k] + products[k + 1..], nextId)
  {
    var rest := products[..k] + products[k + 1..];
    assert forall i :: 0 <= i < |rest| ==> rest[i] == products[if i < k then i else i + 1];
  }
}
