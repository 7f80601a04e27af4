/**
 * The route handlers of the backend as functions over the table contents:
 * the replies they send, the read-only routes, and the table rewrites the
 * mutating routes perform (which the `Backend` class applies in place).
 */
module Routes {
  import opened Wrappers
  import opened Sql
  import opened Credentials
  import opened Schema

  /** The `user` object of a successful login: no password, no reset columns. */
  datatype LoginView = LoginView(
    id: nat, name: string, role: string, phoneNumber: string,
    address: string, business: string, email: string)

  /** The row `GET /api/user/:id` selects. */
  datatype ProfileView = ProfileView(
    id: nat, name: string, phoneNumber: string, address: string, business: string)

  /** A product with its computed `image_url`. */
  datatype ProductView = ProductView(
    id: nat, name: string, description: string, price: string,
    image: string, userId: string, imageUrl: string)

  /** The JSON body of a reply. */
  datatype Body =
    | Message(message: string)                          // { message }
    | Text(text: string)                                // a bare JSON string
    | LoginSuccess(message: string, user: LoginView)
    | ResetLink(message: string, resetLink: string)
    | Profile(profile: ProfileView)
    | Products(items: seq<ProductView>)
    | ProductCreated(product: ProductView)
    | Uncaught                                          // the framework's page for a thrown exception

  datatype Reply = Reply(status: nat, body: Body)

  const InvalidCredentials := Reply(401, Message("Invalid credentials"))
  const InvalidToken := Reply(400, Message("Invalid or expired token"))

  // The WHERE clauses of the handlers' statements.

  function EmailIs(email: string): User -> bool
  {
    (u: User) => u.email == email
  }

  function UserIdIs(id: int): User -> bool
  {
    (u: User) => u.id == id
  }

  /** `reset_token = token AND reset_token_expires > NOW()`; a NULL expiry
      never compares greater. */
  predicate TokenValidAt(u: User, token: string, now: int)
  {
    u.resetToken == Some(token) && u.resetTokenExpires.Some? && u.resetTokenExpires.value > now
  }

  function HoldsValidToken(token: string, now: int): User -> bool
  {
    u => TokenValidAt(u, token, now)
  }

  function ProductIdIs(id: int): Product -> bool
  {
    (p: Product) => p.id == id
  }

  function ProductIdIsNot(id: int): Product -> bool
  {
    (p: Product) => p.id != id
  }

  function OwnedBy(userId: string): Product -> bool
  {
    (p: Product) => p.userId == userId
  }

  /** Some row has this email. */
  ghost predicate EmailTaken(users: seq<User>, email: string)
  {
    exists i :: 0 <= i < |users| && users[i].email == email
  }

  ghost predicate UserExists(users: seq<User>, id: int)
  {
    exists i :: 0 <= i < |users| && users[i].id == id
  }

  ghost predicate ProductExists(products: seq<Product>, id: int)
  {
    exists i :: 0 <= i < |products| && products[i].id == id
  }

  // Projections.

  function LoginViewOf(u: User): LoginView
  {
    LoginView(u.id, u.name, u.role, u.phoneNumber, u.address, u.business, u.email)
  }

  function ProfileViewOf(u: User): ProfileView
  {
    ProfileView(u.id, u.name, u.phoneNumber, u.address, u.business)
  }

  function ProductViewOf(p: Product): ProductView
  {
    ProductView(p.id, p.name, p.description, p.price, p.image, p.userId, UploadsUrl + p.image)
  }

  function ProductViews(rows: seq<Product>): (r: seq<ProductView>)
  {
    seq(|rows|, k requires 0 <= k < |rows| => ProductViewOf(rows[k]))
  }

  // Read-only routes.

  /** `POST /login`: the first row with the email, and bcrypt's verdict on it.
      Both failures give the one reply `InvalidCredentials`. */
  function Login(users: seq<User>, email: string, password: string): (r: Reply)
    ensures r == InvalidCredentials || r.status == 200
    ensures r.status == 200 <==>
      exists i: nat :: IsFirst(users, EmailIs(email), i) && Compare(password, users[i].password)
    ensures r.status == 200 ==>
      exists i: nat :: IsFirst(users, EmailIs(email), i) && r.body == LoginSuccess("Login success", LoginViewOf(users[i]))
  {
    match FirstIndex(users, EmailIs(email))
    case None =>
      assert forall i: nat :: !IsFirst(users, EmailIs(email), i);
      InvalidCredentials
    case Some(i) =>
      FirstIsUnique(users, EmailIs(email), i);
      if Compare(password, users[i].password)
      then Reply(200, LoginSuccess("Login success", LoginViewOf(users[i])))
      else InvalidCredentials
  }

  /** `GET /api/user/:id`. */
  function GetProfile(users: seq<User>, id: int): (r: Reply)
    ensures r.status == 404 <==> !UserExists(users, id)
    ensures r.status == 404 ==> r.body == Message("User not found")
    ensures r.status != 404 ==>
      r.status == 200 && exists i: nat :: IsFirst(users, UserIdIs(id), i) && r.body == Profile(ProfileViewOf(users[i]))
  {
    match FirstIndex(users, UserIdIs(id))
    case None => Reply(404, Message("User not found"))
    case Some(i) =>
      FirstIsUnique(users, UserIdIs(id), i);
      Reply(200, Profile(ProfileViewOf(users[i])))
  }

  /** `GET /api/products?userId=...`: an absent or empty `userId` is
      refused; otherwise every product of that user, each with its image URL. */
  function ListProducts(products: seq<Product>, userId: Option<string>): (r: Reply)
    ensures r.status == 400 <==> userId.None? || userId.value == ""
    ensures r.status == 400 ==> r.body == Message("Missing userId")
    ensures r.status != 400 ==> r.status == 200 && r.body.Products?
    ensures r.status == 200 ==> forall k :: 0 <= k < |r.body.items| ==>
      && r.body.items[k].userId == userId.value
      && r.body.items[k].imageUrl == UploadsUrl + r.body.items[k].image
      && exists i :: 0 <= i < |products| && r.body.items[k] == ProductViewOf(products[i])
    ensures r.status == 200 ==> forall i :: 0 <= i < |products| && products[i].userId == userId.value ==>
      ProductViewOf(products[i]) in r.body.items
    ensures r.status == 200 ==> |r.body.items| == CountWhere(products, OwnedBy(userId.value))
  {
    if userId.None? || userId.value == "" then Reply(400, Message("Missing userId"))
    else
      var selected := Where(products, OwnedBy(userId.value));
      WhereMembers(products, OwnedBy(userId.value));
      WhereCountsMatches(products, OwnedBy(userId.value));
      var views := ProductViews(selected);
      assert forall k :: 0 <= k < |selected| ==> selected[k] in products;
      assert forall i :: 0 <= i < |products| && products[i].userId == userId.value ==>
        ProductViewOf(products[i]) in views by {
        forall i | 0 <= i < |products| && products[i].userId == userId.value
          ensures ProductViewOf(products[i]) in views
        {
          assert OwnedBy(userId.value)(products[i]);
          var k :| 0 <= k < |selected| && selected[k] == products[i];
          assert views[k] == ProductViewOf(products[i]);
        }
      }
      Reply(200, Products(views))
  }

  // Table rewrites of the mutating routes.

  /** The row `POST /signup` inserts: both reset columns NULL. */
  function NewUser(
    id: nat, name: string, phoneNumber: string, address: string, business: string,
    email: string, password: Digest, role: string): (u: User)
  {
    User(id, name, phoneNumber, address, business, email, password, role, None, None)
  }

  /** Row `a` and row `b` are the same account with the same profile data. */
  predicate SameProfile(a: User, b: User)
  {
    && a.id == b.id && a.name == b.name && a.phoneNumber == b.phoneNumber
    && a.address == b.address && a.business == b.business
    && a.email == b.email && a.role == b.role
  }

  /** forgot-password's `UPDATE usertable SET reset_token = ?,
      reset_token_expires = ? WHERE email = ?`. */
  function IssueToken(users: seq<User>, email: string, token: Token, expires: int): (r: seq<User>)
    ensures |r| == |users|
    ensures forall i :: 0 <= i < |users| && users[i].email == email ==>
      && r[i].resetToken == Some(token) && r[i].resetTokenExpires == Some(expires)
      && SameProfile(r[i], users[i]) && r[i].password == users[i].password
    ensures forall i :: 0 <= i < |users| && users[i].email != email ==> r[i] == users[i]
  {
    UpdateWhere(users, EmailIs(email), (u: User) => u.(resetToken := Some(token), resetTokenExpires := Some(expires)))
  }

  /** reset-password's `SELECT * FROM usertable WHERE reset_token = ? AND
      reset_token_expires > NOW()`, first row. */
  function ValidTokenIndex(users: seq<User>, token: string, now: int): (r: Option<nat>)
    ensures r.None? <==> forall i :: 0 <= i < |users| ==> !TokenValidAt(users[i], token, now)
    ensures r.Some? ==> r.value < |users| && TokenValidAt(users[r.value], token, now)
    ensures r.Some? ==> forall j :: 0 <= j < r.value ==> !TokenValidAt(users[j], token, now)
  {
    FirstIndex(users, HoldsValidToken(token, now))
  }

  /** reset-password's `UPDATE usertable SET password = ?, reset_token =
      NULL, reset_token_expires = NULL WHERE email = ?`. */
  function ResetCredentials(users: seq<User>, email: string, digest: Digest): (r: seq<User>)
    ensures |r| == |users|
    ensures forall i :: 0 <= i < |users| && users[i].email == email ==>
      && r[i].password == digest && r[i].resetToken.None? && r[i].resetTokenExpires.None?
      && SameProfile(r[i], users[i])
    ensures forall i :: 0 <= i < |users| && users[i].email != email ==> r[i] == users[i]
  {
    UpdateWhere(users, EmailIs(email), (u: User) => u.(password := digest, resetToken := None, resetTokenExpires := None))
  }

  /** `PUT /api/user/:id`'s `UPDATE usertable SET name = ?, phoneNumber = ?,
      address = ?, business = ? WHERE id = ?`. */
  function ApplyProfile(
    users: seq<User>, id: int, name: string, phoneNumber: string,
    address: string, business: string): (r: seq<User>)
    ensures |r| == |users|
    ensures forall i :: 0 <= i < |users| && users[i].id == id ==>
      && r[i].name == name && r[i].phoneNumber == phoneNumber
      && r[i].address == address && r[i].business == business
      && r[i].id == users[i].id && r[i].email == users[i].email && r[i].role == users[i].role
      && r[i].password == users[i].password
      && r[i].resetToken == users[i].resetToken && r[i].resetTokenExpires == users[i].resetTokenExpires
    ensures forall i :: 0 <= i < |users| && users[i].id != id ==> r[i] == users[i]
  {
    UpdateWhere(users, UserIdIs(id),
      (u: User) => u.(name := name, phoneNumber := phoneNumber, address := address, business := business))
  }

  /** `DELETE FROM products WHERE id = ?`. */
  function RemoveProduct(products: seq<Product>, id: int): (r: seq<Product>)
    ensures forall k :: 0 <= k < |r| ==> r[k].id != id && r[k] in products
    ensures forall i :: 0 <= i < |products| && products[i].id != id ==> products[i] in r
  {
    WhereMembers(products, ProductIdIsNot(id));
    Where(products, ProductIdIsNot(id))
  }
}
