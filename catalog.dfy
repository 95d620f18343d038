/** Product numbering and creation over the Product collection, taken as a
    sequence in store order (`Product.find({})`). */
module Catalog {
  import opened Records

  /** Product ids rise strictly along store order. */
  ghost predicate IdsIncreasing(products: seq<Product>) {
    forall i, j :: 0 <= i < j < |products| ==> products[i].id < products[j].id
  }

  /** The products are numbered 1, 2, ..., n in store order. */
  ghost predicate IdsConsecutive(products: seq<Product>) {
    forall i :: 0 <= i < |products| ==> products[i].id == i + 1
  }

  /** The largest id in a non-empty collection, defined independently of
      store order. */
  ghost function MaxId(products: seq<Product>): (m: int)
    requires |products| > 0
    ensures forall i :: 0 <= i < |products| ==> products[i].id <= m
    ensures exists i :: 0 <= i < |products| && products[i].id == m
  {
    if |products| == 1 then products[0].id
    else
      var rest := MaxId(products[..|products| - 1]);
      var last := products[|products| - 1].id;
      assert forall i :: 0 <= i < |products| - 1 ==> products[i] == products[..|products| - 1][i];
      if rest < last then last else rest
  }

  /** `products.length > 0 ? products.slice(-1)[0].id + 1 : 1`. */
  function NextId(products: seq<Product>): (id: int)
    ensures |products| == 0 ==> id == 1
    ensures forall i :: 0 <= i < |products| && IdsIncreasing(products) ==> products[i].id < id
  {
    if |products| > 0 then products[|products| - 1].id + 1 else 1
  }

  /** The document `new Product({...})` builds; `available` takes its schema
      default. */
  function NewProduct(id: int, req: ProductRequest): (p: Product)
    ensures p.id == id && p.available
    ensures p.name == req.name && p.image == req.image && p.category == req.category
    ensures p.newPrice == req.newPrice && p.oldPrice == req.oldPrice && p.sellerEmail == req.sellerEmail
  {
    Product(id, req.name, req.image, req.category, req.newPrice, req.oldPrice, req.sellerEmail, true)
  }

  /** The collection after one /addproduct. */
  function Appended(products: seq<Product>, req: ProductRequest): (r: seq<Product>)
    ensures |r| == |products| + 1 && r[..|products|] == products
    ensures r[|products|] == NewProduct(NextId(products), req)
  {
    products + [NewProduct(NextId(products), req)]
  }

  /** The collection after a series of /addproduct requests, one at a time. */
  function AppendedAll(products: seq<Product>, reqs: seq<ProductRequest>): (r: seq<Product>)
    ensures |r| == |products| + |reqs| && r[..|products|] == products
    decreases |reqs|
  {
    if |reqs| == 0 then products else AppendedAll(Appended(products, reqs[0]), reqs[1..])
  }

  /** While ids rise along store order, "last id + 1" is "largest id + 1":
      the new id exceeds every stored id. */
  lemma NextIdIsMaxPlusOne(products: seq<Product>)
    requires IdsIncreasing(products)
    ensures |products| > 0 ==> NextId(products) == MaxId(products) + 1
    ensures |products| == 0 ==> NextId(products) == 1
    ensures forall i :: 0 <= i < |products| ==> products[i].id < NextId(products)
  {
  }

  /** One /addproduct keeps ids rising and adds exactly the new product. */
  lemma AppendedKeepsIncreasing(products: seq<Product>, req: ProductRequest)
    requires IdsIncreasing(products)
    ensures IdsIncreasing(Appended(products, req))
    ensures |Appended(products, req)| == |products| + 1
    ensures Appended(products, req)[..|products|] == products
  {
  }

  /** Starting from products numbered 1..n, k further requests append
      products numbered n+1..n+k, each carrying its request's fields. */
  lemma {:induction false} AppendedAllNumbersOnward(products: seq<Product>, reqs: seq<ProductRequest>)
    requires IdsConsecutive(products)
    ensures |AppendedAll(products, reqs)| == |products| + |reqs|
    ensures AppendedAll(products, reqs)[..|products|] == products
    ensures IdsConsecutive(AppendedAll(products, reqs))
    ensures forall k :: 0 <= k < |reqs| ==>
      AppendedAll(products, reqs)[|products| + k] == NewProduct(|products| + k + 1, reqs[k])
    decreases |reqs|
  {
    if |reqs| > 0 {
      var next := Appended(products, reqs[0]);
      assert NextId(products) == |products| + 1;
      assert IdsConsecutive(next);
      AppendedAllNumbersOnward(next, reqs[1..]);
      var all := AppendedAll(products, reqs);
      assert all == AppendedAll(next, reqs[1..]);
      assert all[..|products|] == next[..|next|][..|products|];
      forall k | 0 <= k < |reqs|
        ensures all[|products| + k] == NewProduct(|products| + k + 1, reqs[k])
      {
        if k > 0 {
          assert reqs[1..][k - 1] == reqs[k];
          assert all[|next| + (k - 1)] == NewProduct(|next| + (k - 1) + 1, reqs[1..][k - 1]);
        } else {
          assert all[|products|] == all[..|next|][|products|];
        }
      }
    }
  }

  /** From an empty collection, n sequential requests yield exactly n products
      with ids 1..n, in request order and with the requests' fields. */
  lemma {:induction false} AppendedAllFromEmpty(reqs: seq<ProductRequest>)
    ensures |AppendedAll([], reqs)| == |reqs|
    ensures forall k :: 0 <= k < |reqs| ==> AppendedAll([], reqs)[k] == NewProduct(k + 1, reqs[k])
  {
    var none: seq<Product> := [];
    AppendedAllNumbersOnward(none, reqs);
    assert forall k :: 0 <= k < |reqs| ==> AppendedAll(none, reqs)[|none| + k] == NewProduct(|none| + k + 1, reqs[k]);
  }
}
