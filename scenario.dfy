/**
 * A client of `Backend` that walks one account through signup, login,
 * forgot-password and reset-password, and through adding and deleting a
 * product; every step's reply is derived from the methods' contracts and
 * the lemmas.
 */
module Scenario {
  import opened Wrappers
  import opened Credentials
  import opened Schema
  import opened Routes
  import opened Server
  import Accounts
  import ResetLifecycle
  import Products

  /** The passwords the account scenario uses have pairwise different bcrypt
      keys. */
  lemma PasswordKeysDiffer()
    ensures BcryptKey("wrong") != BcryptKey("secret1")
    ensures BcryptKey("secret1") != BcryptKey("secret2")
  {
    assert "wrong" == [] + ['w'] + "rong" && "secret1" == [] + ['s'] + "ecret1";
    KeysDifferAtAsciiChar([], 'w', 's', "rong", "ecret1");
    assert "secret1" == "secret" + ['1'] + [] && "secret2" == "secret" + ['2'] + [];
    KeysDifferAtAsciiChar("secret", '1', '2', [], []);
  }

  method AccountScenario(password: string, other: string)
    requires BcryptKey(other) != BcryptKey(password)
  {
    var b := new Backend();
    var reply := b.Signup("Ada", "555-0100", "1 Main St", "Ada's Shop", "a@x.com", password, "owner", 1);
    assert reply.status == 201;
    Accounts.SignupThenLogin([], 1, "Ada", "555-0100", "1 Main St", "Ada's Shop", "a@x.com", password, "owner", 1, other);
    assert Login(b.users, "a@x.com", password).body.user.role == "owner";
    assert Login(b.users, "a@x.com", other).status == 401;
    assert Login(b.users, "b@x.com", password) == Login(b.users, "a@x.com", other);
  }

  method ResetScenario(token: Token, now: int, oldPassword: string, newPassword: string)
    requires BcryptKey(oldPassword) != BcryptKey(newPassword)
  {
    var b := new Backend();
    var reply := b.Signup("Ada", "555-0100", "1 Main St", "Ada's Shop", "a@x.com", oldPassword, "owner", 1);
    var registered := b.users;
    assert registered[0].email == "a@x.com";
    reply := b.ForgotPassword("a@x.com", token, now);
    assert reply.status == 200 && reply.body.resetLink == ResetPageUrl + token;

    ResetLifecycle.ForgotThenReset(registered, "a@x.com", token, now, now + 1000, now + 2000, oldPassword, newPassword, 2);
    var pending := b.users;
    reply := b.ResetPassword(token, newPassword, 2, now + 1000);
    assert reply.status == 200;
    assert Login(b.users, "a@x.com", newPassword).status == 200;
    assert Login(b.users, "a@x.com", oldPassword).status == 401;

    reply := b.ResetPassword(token, "secret3", 3, now + 2000);
    assert reply == InvalidToken;
  }

  /** Both account scenarios, with concrete passwords. */
  method AccountScenarios(token: Token, now: int)
  {
    PasswordKeysDiffer();
    AccountScenario("secret1", "wrong");
    ResetScenario(token, now, "secret1", "secret2");
  }

  method ProductScenario()
  {
    var b := new Backend();
    var reply := b.AddProduct("Lamp", "A desk lamp", "25", Some("image-1.png"), "1");
    assert reply.status == 201 && reply.body.product.imageUrl == UploadsUrl + "image-1.png";
    var row := b.products[0];
    Products.AddedProductListed([], row);
    assert ProductViewOf(row) in ListProducts(b.products, Some("1")).body.items;
    assert ListProducts(b.products, None).status == 400;

    reply := b.AddProduct("Chair", "", "40", None, "1");
    assert reply.status == 500 && |b.products| == 1;

    reply := b.DeleteProduct(row.id);
    assert reply.status == 200 && b.products == [];
    reply := b.DeleteProduct(row.id);
    assert reply.status == 404;
  }
}
