/**
 * The backend's state, the two tables and their auto-increment counters,
 * and the routes that change it.  Each method performs the handler's
 * statements in order and states the new tables and the reply.  The clock
 * (`Date.now()` and the database's `NOW()`, one value here), the bcrypt
 * salt and the random reset token are parameters.
 */
module Server {
  import opened Wrappers
  import opened Sql
  import opened Credentials
  import opened Schema
  import opened Routes

  class Backend {
    var users: seq<User>
    var products: seq<Product>
    var nextUserId: nat
    var nextProductId: nat

    ghost predicate Valid()
      reads this
    {
      && UserIdsAscending(users, nextUserId)
      && EmailsUnique(users)
      && AllResetFieldsPaired(users)
      && ProductIdsAscending(products, nextProductId)
    }

    /** Empty tables; auto-increment starts at 1. */
    constructor ()
      ensures Valid()
      ensures users == [] && products == [] && nextUserId == 1 && nextProductId == 1
    {
      users, products := [], [];
      nextUserId, nextProductId := 1, 1;
    }

    /** `POST /signup`: hash the password, insert the row.  The insert fails
        (500) when the email is already present, under the unique key on
        `email`; the auto-increment id drawn for it is used up either way. */
    method Signup(
      name: string, phoneNumber: string, address: string, business: string,
      email: string, password: string, role: string, salt: nat) returns (reply: Reply)
      requires Valid()
      modifies this
      ensures Valid()
      ensures products == old(products) && nextProductId == old(nextProductId)
      ensures nextUserId == old(nextUserId) + 1
      ensures EmailTaken(old(users), email) ==>
        reply == Reply(500, Text("Error inserting user")) && users == old(users)
      ensures !EmailTaken(old(users), email) ==>
        && reply == Reply(201, Message("User registered successfully"))
        && users == old(users) + [NewUser(old(nextUserId), name, phoneNumber, address, business, email, Hash(password, salt), role)]
    {
      var hashed := Hash(password, salt);
      var id := nextUserId;
      nextUserId := nextUserId + 1;
      if FirstIndex(users, EmailIs(email)).Some? {
        reply := Reply(500, Text("Error inserting user"));
        return;
      }
      users := users + [NewUser(id, name, phoneNumber, address, business, email, hashed, role)];
      reply := Reply(201, Message("User registered successfully"));
    }

    /** `POST /forgot-password`: store the token and an expiry one hour after
        `now` on every row with the email; 404 when none matched. */
    method ForgotPassword(email: string, token: Token, now: int) returns (reply: Reply)
      requires Valid()
      modifies this
      ensures Valid()
      ensures users == IssueToken(old(users), email, token, now + ResetWindow)
      ensures products == old(products)
      ensures nextUserId == old(nextUserId) && nextProductId == old(nextProductId)
      ensures EmailTaken(old(users), email) ==>
        reply == Reply(200, ResetLink("Password reset link (copy it):", ResetPageUrl + token))
      ensures !EmailTaken(old(users), email) ==> reply == Reply(404, Message("Email not found"))
    {
      var expires := now + ResetWindow;
      var affectedRows := CountWhere(users, EmailIs(email));
      var updated := IssueToken(users, email, token, expires);
      KeysKept(users, updated, nextUserId);
      users := updated;
      if affectedRows == 0 {
        reply := Reply(404, Message("Email not found"));
        return;
      }
      reply := Reply(200, ResetLink("Password reset link (copy it):", ResetPageUrl + token));
    }

    /** `POST /reset-password/:token`: find the first row holding the token
        unexpired, then set the new hash and clear both reset columns on
        every row with that row's email. */
    method ResetPassword(token: string, newPassword: string, salt: nat, now: int) returns (reply: Reply)
      requires Valid()
      modifies this
      ensures Valid()
      ensures products == old(products)
      ensures nextUserId == old(nextUserId) && nextProductId == old(nextProductId)
      ensures ValidTokenIndex(old(users), token, now).None? ==> reply == InvalidToken && users == old(users)
      ensures ValidTokenIndex(old(users), token, now).Some? ==>
        && reply == Reply(200, Message("Password updated successfully"))
        && users == ResetCredentials(old(users), old(users)[ValidTokenIndex(old(users), token, now).value].email, Hash(newPassword, salt))
    {
      var found := ValidTokenIndex(users, token, now);
      if found.None? {
        reply := InvalidToken;
        return;
      }
      var email := users[found.value].email;
      var hashed := Hash(newPassword, salt);
      var updated := ResetCredentials(users, email, hashed);
      KeysKept(users, updated, nextUserId);
      users := updated;
      reply := Reply(200, Message("Password updated successfully"));
    }

    /** `PUT /api/user/:id`: overwrite the four profile columns of the row
        with the id; 404 when none matched. */
    method UpdateProfile(
      id: int, name: string, phoneNumber: string, address: string, business: string) returns (reply: Reply)
      requires Valid()
      modifies this
      ensures Valid()
      ensures users == ApplyProfile(old(users), id, name, phoneNumber, address, business)
      ensures products == old(products)
      ensures nextUserId == old(nextUserId) && nextProductId == old(nextProductId)
      ensures UserExists(old(users), id) ==> reply == Reply(200, Message("User updated successfully"))
      ensures !UserExists(old(users), id) ==> reply == Reply(404, Message("User not found"))
    {
      var affectedRows := CountWhere(users, UserIdIs(id));
      var updated := ApplyProfile(users, id, name, phoneNumber, address, business);
      KeysKept(users, updated, nextUserId);
      users := updated;
      if affectedRows == 0 {
        reply := Reply(404, Message("User not found"));
        return;
      }
      reply := Reply(200, Message("User updated successfully"));
    }

    /** `POST /api/products`: insert the product under the stored upload's
        file name.  Without an uploaded file, reading its name throws and the
        framework answers 500. */
    method AddProduct(
      name: string, description: string, price: string, image: Option<string>, userId: string)
      returns (reply: Reply)
      requires Valid()
      modifies this
      ensures Valid()
      ensures users == old(users) && nextUserId == old(nextUserId)
      ensures image.None? ==>
        reply == Reply(500, Uncaught) && products == old(products) && nextProductId == old(nextProductId)
      ensures image.Some? ==>
        && products == old(products) + [Product(old(nextProductId), name, description, price, image.value, userId)]
        && nextProductId == old(nextProductId) + 1
        && reply == Reply(201, ProductCreated(ProductViewOf(products[|products| - 1])))
    {
      if image.None? {
        reply := Reply(500, Uncaught);
        return;
      }
      var row := Product(nextProductId, name, description, price, image.value, userId);
      products := products + [row];
      nextProductId := nextProductId + 1;
      reply := Reply(201, ProductCreated(ProductViewOf(row)));
    }

    /** `DELETE /api/products/:id`: 404 when no product has the id; otherwise
        exactly that row leaves the table. */
    method DeleteProduct(id: int) returns (reply: Reply)
      requires Valid()
      modifies this
      ensures Valid()
      ensures users == old(users)
      ensures nextUserId == old(nextUserId) && nextProductId == old(nextProductId)
      ensures !ProductExists(old(products), id) ==>
        reply == Reply(404, Message("Product not found")) && products == old(products)
      ensures ProductExists(old(products), id) ==>
        && reply == Reply(200, Message("Product deleted successfully"))
        && exists k :: 0 <= k < |old(products)| && old(products)[k].id == id
             && products == old(products)[..k] + old(products)[k + 1..]
    {
      var found := FirstIndex(products, ProductIdIs(id));
      if found.None? {
        reply := Reply(404, Message("Product not found"));
        return;
      }
      var k := found.value;
      forall i | 0 <= i < |products|
        ensures ProductIdIsNot(id)(products[i]) <==> i != k
      {
        assert i < k ==> products[i].id < products[k].id;
        assert i > k ==> products[k].id < products[i].id;
      }
      WhereDropsOne(products, ProductIdIsNot(id), k);
      DropKeepsAscending(products, k, nextProductId);
      products := RemoveProduct(products, id);
      reply := Reply(200, Message("Product deleted successfully"));
    }
  }
}
