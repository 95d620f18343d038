/** The handlers of the backend over an in-memory store holding the Users
    and Product collections. One request is handled at a time. */
module Server {
  import opened Records
  import opened Identity
  import opened Catalog

  /** The document store; each collection is a sequence in store order. */
  class Store {
    var users: seq<User>
    var products: seq<Product>

    /** Emails are unique, each user's id is its insertion position, and
        product ids rise along store order. */
    ghost predicate Valid()
      reads this
    {
      EmailsDistinct(users) &&
      (forall i :: 0 <= i < |users| ==> users[i].id == i) &&
      IdsIncreasing(products)
    }

    /** A freshly connected, empty database. */
    constructor ()
      ensures Valid()
      ensures users == [] && products == []
    {
      users := [];
      products := [];
    }

    /** POST /signup. A taken email is refused with status 400 and nothing
        is stored; otherwise exactly one user is appended and the token holds
        that user's id and role. */
    method Signup(req: SignupRequest) returns (r: Response)
      requires Valid()
      modifies this
      ensures Valid()
      ensures products == old(products)
      ensures EmailTaken(old(users), req.email) ==>
        users == old(users) && r == Rejected(HTTP_BAD_REQUEST, EMAIL_EXISTS)
      ensures !EmailTaken(old(users), req.email) ==>
        users == old(users) + [NewUser(|old(users)|, req)] &&
        r == TokenIssued(Claims(ClaimUser(|old(users)|, DefaultRole(req.role))))
    {
      var check := FindByEmail(users, req.email);
      if check.Some? {
        return Rejected(HTTP_BAD_REQUEST, EMAIL_EXISTS);
      }
      var user := NewUser(|users|, req);
      AppendFreshEmailKeepsDistinct(users, user);
      users := users + [user];
      r := TokenIssued(ClaimsOf(user));
    }

    /** POST /login: a read-only lookup with three outcomes. */
    function Login(email: string, password: string): (r: Response)
      reads this
      requires Valid()
      ensures r.LoggedIn? <==> Registered(users, email, password)
      ensures !EmailTaken(users, email) ==> r == Rejected(HTTP_OK, WRONG_EMAIL)
      ensures EmailTaken(users, email) && !Registered(users, email, password) ==>
        r == Rejected(HTTP_OK, WRONG_PASSWORD)
      ensures forall i :: 0 <= i < |users| && users[i].email == email && users[i].password == password ==>
        r == LoggedIn(Claims(ClaimUser(i, users[i].role)), users[i].role)
    {
      LoginSucceedsIff(users, email, password);
      Identity.Login(users, email, password)
    }

    /** POST /addproduct. The new product's id is one more than the last
        stored one (1 for an empty collection), hence above every stored id. */
    method AddProduct(req: ProductRequest) returns (r: Response)
      requires Valid()
      modifies this
      ensures Valid()
      ensures users == old(users)
      ensures products == old(products) + [NewProduct(NextId(old(products)), req)]
      ensures forall i :: 0 <= i < |old(products)| ==> old(products)[i].id < NextId(old(products))
      ensures r == ProductAdded(req.name)
    {
      var all := products;
      var id := NextId(all);
      NextIdIsMaxPlusOne(all);
      AppendedKeepsIncreasing(all, req);
      products := all + [NewProduct(id, req)];
      r := ProductAdded(req.name);
    }

    /** GET /allproducts: every stored product, in store order. */
    function AllProducts(): (r: seq<Product>)
      reads this
      requires Valid()
      ensures r == products
      ensures IdsIncreasing(r)
    {
      products
    }
  }

  /** A client session, proved from the handlers' contracts alone: sign up,
      log in, add a product, list the catalogue, reuse the email. */
  method Walkthrough() {
    var store := new Store();
    var signup := store.Signup(SignupRequest("a", "a@x.com", "p", None));
    assert signup == TokenIssued(Claims(ClaimUser(0, "customer")));
    var login := store.Login("a@x.com", "p");
    assert store.users[0].email == "a@x.com" && store.users[0].password == "p";
    assert login == LoggedIn(Claims(ClaimUser(0, "customer")), "customer");
    var added := store.AddProduct(ProductRequest("Shirt", "u", "men", 500.0, 700.0, Some("a@x.com")));
    assert added == ProductAdded("Shirt");
    var listed := store.AllProducts();
    assert listed == [Product(1, "Shirt", "u", "men", 500.0, 700.0, Some("a@x.com"), true)];
    assert store.users[0].email == "a@x.com";
    var again := store.Signup(SignupRequest("b", "a@x.com", "q", Some("seller")));
    assert again == Rejected(400, "Email already exists") && again.Status() == 400;
  }
}
