/**
 * Properties of the product routes: listing, adding and deleting.
 */
module Products {
  import opened Wrappers
  import opened Sql
  import opened Schema
  import opened Routes

  /** A product just added is listed for its owner. */
  lemma AddedProductListed(products: seq<Product>, row: Product)
    requires row.userId != ""
    ensures var r := ListProducts(products + [row], Some(row.userId));
      r.status == 200 && ProductViewOf(row) in r.body.items
  {
    var after := products + [row];
    assert after[|products|] == row;
  }

  /** Deleting a product takes it out of every listing and keeps every
      other product of the owner listed. */
  lemma DeletedProductUnlisted(products: seq<Product>, id: int, userId: string)
    requires userId != ""
    ensures var r := ListProducts(RemoveProduct(products, id), Some(userId));
      && r.status == 200
      && (forall k :: 0 <= k < |r.body.items| ==> r.body.items[k].id != id)
      && (forall i :: 0 <= i < |products| && products[i].id != id && products[i].userId == userId ==>
            ProductViewOf(products[i]) in r.body.items)
  {
    var rest := RemoveProduct(products, id);
    var r := ListProducts(rest, Some(userId));
    forall k | 0 <= k < |r.body.items| ensures r.body.items[k].id != id {
      var i :| 0 <= i < |rest| && r.body.items[k] == ProductViewOf(rest[i]);
    }
  }

  /** Deleting the product just added, under an id no other product has,
      gives back the table as it was. */
  lemma AddThenDeleteRestores(products: seq<Product>, row: Product)
    requires forall i :: 0 <= i < |products| ==> products[i].id != row.id
    ensures RemoveProduct(products + [row], row.id) == products
  {
    var after := products + [row];
    WhereDropsOne(after, ProductIdIsNot(row.id), |products|);
    assert after[..|products|] == products;
  }
}
