/**
 * The REST backend: three in-memory collections and one method per route.
 * Each route reads a collection, looks records up, applies the role and
 * ownership checks of `Access`, and then replaces the collection with its
 * changed copy (append, replace at an index, splice or filter). A route that
 * fails leaves every collection as it was.
 *
 * What the routes take from outside: the Authorization header and the token
 * verifier (`verify`, standing for the signature and expiry check), the
 * password comparison (`compare`), the bcrypt hash of a new password, fresh
 * ids and the current time.
 */
module Server {
  import opened Js
  import opened Records
  import opened Access
  import Dashboard
  import ProductsPage

  /** `users.filter(u => u.id !== id)`: every user with the id removed, the rest in order. */
  function WithoutUser(users: seq<User>, id: string): (r: seq<User>)
    ensures Subseq(r, users)
    ensures forall u :: u in r <==> u in users && u.id != id
    ensures forall u :: multiset(r)[u] == if u.id != id then multiset(users)[u] else 0
    ensures |r| == |users| <==> forall u :: u in users ==> u.id != id
  {
    var keep := (u: User) => u.id != id;
    FilterKeepsAll(users, keep);
    Filter(users, keep)
  }

  class Db {
    var users: seq<User>
    var stores: seq<Store>
    var products: seq<Product>

    /** No two users share an id or an email, and no two stores or products share an id. */
    ghost predicate Valid()
      reads this
    {
      && DistinctBy(users, IdOfUser) && DistinctBy(users, EmailOfUser)
      && DistinctBy(stores, IdOfStore) && DistinctBy(products, IdOfProduct)
    }

    /** The collections as they read when no data file exists yet: empty. */
    constructor ()
      ensures users == [] && stores == [] && products == []
      ensures Valid()
    {
      users, stores, products := [], [], [];
    }

    // -------------------------------------------------------------------
    // Auth routes
    // -------------------------------------------------------------------

    /**
     * POST /api/auth/login. An unknown email and a wrong password get the
     * same 401 answer; a success returns the token's claims and the user
     * without its password hash.
     */
    method Login(email: string, password: string, compare: (string, string) -> bool) returns (r: Result<Session>)
      ensures !Truthy(email) || !Truthy(password) ==> r == Fail(400, CREDENTIALS_REQUIRED)
      ensures Truthy(email) && Truthy(password) ==>
        var i := IndexOfEmail(users, email);
        && (r.Ok? <==> i >= 0 && compare(password, users[i].password))
        && (r.Ok? ==> r == Ok(200, SessionOf(users[i])))
        && (r.Fail? ==> r == Fail(401, INVALID_CREDENTIALS))
    {
      if email == "" || password == "" {
        return Fail(400, CREDENTIALS_REQUIRED);
      }
      var i := IndexOfEmail(users, email);
      if i < 0 || !compare(password, users[i].password) {
        return Fail(401, INVALID_CREDENTIALS);
      }
      r := Ok(200, SessionOf(users[i]));
    }

    /**
     * POST /api/auth/register. A duplicate email (exact match) gets 400;
     * otherwise exactly one user is appended, with the role the body names,
     * or "user" when it names none.
     */
    method Register(email: string, password: string, name: string, role: Option<string>,
                    newId: string, hashed: string, now: string) returns (r: Result<Session>)
      requires forall u :: u in users ==> u.id != newId
      modifies this
      ensures stores == old(stores) && products == old(products)
      ensures old(Valid()) ==> Valid()
      ensures !Truthy(email) || !Truthy(password) || !Truthy(name) ==>
        r == Fail(400, ALL_FIELDS_REQUIRED) && users == old(users)
      ensures Truthy(email) && Truthy(password) && Truthy(name) && IndexOfEmail(old(users), email) >= 0 ==>
        r == Fail(400, USER_EXISTS) && users == old(users)
      ensures Truthy(email) && Truthy(password) && Truthy(name) && IndexOfEmail(old(users), email) < 0 ==>
        var u := User(newId, email, hashed, name, RegisteredRole(role), now);
        r == Ok(201, SessionOf(u)) && users == old(users) + [u]
    {
      if email == "" || password == "" || name == "" {
        return Fail(400, ALL_FIELDS_REQUIRED);
      }
      if IndexOfEmail(users, email) >= 0 {
        return Fail(400, USER_EXISTS);
      }
      var u := User(newId, email, hashed, name, RegisteredRole(role), now);
      if Valid() {
        AppendKeepsDistinct(users, u, IdOfUser);
        AppendKeepsDistinct(users, u, EmailOfUser);
      }
      users := users + [u];
      r := Ok(201, SessionOf(u));
    }

    // -------------------------------------------------------------------
    // User routes (admin only)
    // -------------------------------------------------------------------

    /** GET /api/users: every user, in order, without password hashes. */
    method ListUsers(header: Option<string>, verify: string -> Option<Claims>) returns (r: Result<seq<SafeUser>>)
      ensures var g := RequireRole(ADMINS, Authenticate(header, verify));
        && (g.Fail? ==> r == g.Propagate())
        && (g.Ok? ==>
              && r.Ok? && r.code == 200 && |r.value| == |users|
              && forall i :: 0 <= i < |users| ==> r.value[i] == SafeView(users[i]))
    {
      var g := RequireRole(ADMINS, Authenticate(header, verify));
      if g.Fail? {
        return g.Propagate();
      }
      r := Ok(200, seq(|users|, i requires 0 <= i < |users| reads this => SafeView(users[i])));
    }

    /** DELETE /api/users/:id: removes every user with the id; 404 exactly when there is none. */
    method DeleteUser(header: Option<string>, verify: string -> Option<Claims>, id: string) returns (r: Result<string>)
      modifies this
      ensures stores == old(stores) && products == old(products)
      ensures old(Valid()) ==> Valid()
      ensures var g := RequireRole(ADMINS, Authenticate(header, verify));
        if g.Fail? then r == g.Propagate() && users == old(users)
        else if forall u :: u in old(users) ==> u.id != id then r == Fail(404, USER_NOT_FOUND) && users == old(users)
        else r == Ok(200, USER_DELETED) && users == WithoutUser(old(users), id)
    {
      var g := RequireRole(ADMINS, Authenticate(header, verify));
      if g.Fail? {
        return g.Propagate();
      }
      var updated := WithoutUser(users, id);
      if |users| == |updated| {
        return Fail(404, USER_NOT_FOUND);
      }
      if Valid() {
        SubseqKeepsDistinct(updated, users, IdOfUser);
        SubseqKeepsDistinct(updated, users, EmailOfUser);
      }
      users := updated;
      r := Ok(200, USER_DELETED);
    }

    // -------------------------------------------------------------------
    // Store routes
    // -------------------------------------------------------------------

    /** GET /api/stores: a store owner gets its own stores, every other role all of them. */
    method ListStores(header: Option<string>, verify: string -> Option<Claims>) returns (r: Result<seq<Store>>)
      ensures var g := Authenticate(header, verify);
        && (g.Fail? ==> r == g.Propagate())
        && (g.Ok? ==> r == Ok(200, VisibleStores(g.value, stores)))
    {
      var g := Authenticate(header, verify);
      if g.Fail? {
        return g.Propagate();
      }
      r := Ok(200, VisibleStores(g.value, stores));
    }

    /**
     * POST /api/stores. Missing fields get 400. The new store is appended,
     * active, and owned by the caller when the caller is a store owner,
     * whatever `ownerId` the body carries; an admin's store takes the body's.
     */
    method CreateStore(header: Option<string>, verify: string -> Option<Claims>,
                       name: string, description: string, category: string, ownerId: Option<string>,
                       newId: string, now: string) returns (r: Result<Store>)
      requires forall s :: s in stores ==> s.id != newId
      modifies this
      ensures users == old(users) && products == old(products)
      ensures old(Valid()) ==> Valid()
      ensures var g := RequireRole(EDITORS, Authenticate(header, verify));
        if g.Fail? then r == g.Propagate() && stores == old(stores)
        else if !Truthy(name) || !Truthy(description) || !Truthy(category) then
          r == Fail(400, ALL_FIELDS_REQUIRED) && stores == old(stores)
        else
          && r.Ok? && r.code == 201 && stores == old(stores) + [r.value]
          && r.value.ownerId == (if g.value.role == STORE_OWNER then Some(g.value.id) else ownerId)
          && r.value.status == ACTIVE
          && r.value == Store(newId, name, description, category, r.value.ownerId, ACTIVE, now, None)
    {
      var g := RequireRole(EDITORS, Authenticate(header, verify));
      if g.Fail? {
        return g.Propagate();
      }
      if name == "" || description == "" || category == "" {
        return Fail(400, ALL_FIELDS_REQUIRED);
      }
      var owner := if g.value.role == STORE_OWNER then Some(g.value.id) else ownerId;
      var s := Store(newId, name, description, category, owner, ACTIVE, now, None);
      if Valid() {
        AppendKeepsDistinct(stores, s, IdOfStore);
      }
      stores := stores + [s];
      r := Ok(201, s);
    }

    /**
     * PUT /api/stores/:id. The role gate comes first, then 404 for a missing
     * id, then 403 for a store owner's foreign store; only the first store
     * with the id is merged, every other record stays.
     */
    method UpdateStore(header: Option<string>, verify: string -> Option<Claims>, id: string,
                       name: string, description: string, category: string, status: string,
                       now: string) returns (r: Result<Store>)
      modifies this
      ensures users == old(users) && products == old(products)
      ensures old(Valid()) ==> Valid()
      ensures var g, i := RequireRole(EDITORS, Authenticate(header, verify)), IndexOfStore(old(stores), id);
        if g.Fail? then r == g.Propagate() && stores == old(stores)
        else if i < 0 then r == Fail(404, STORE_NOT_FOUND) && stores == old(stores)
        else if !MayEditStore(g.value, old(stores)[i]) then r == Fail(403, ACCESS_DENIED) && stores == old(stores)
        else
          && r == Ok(200, MergeStore(old(stores)[i], name, description, category, status, now))
          && stores == old(stores)[i := r.value]
    {
      var g := RequireRole(EDITORS, Authenticate(header, verify));
      if g.Fail? {
        return g.Propagate();
      }
      var i := IndexOfStore(stores, id);
      if i < 0 {
        return Fail(404, STORE_NOT_FOUND);
      }
      if !MayEditStore(g.value, stores[i]) {
        return Fail(403, ACCESS_DENIED);
      }
      var updated := MergeStore(stores[i], name, description, category, status, now);
      if Valid() {
        ReplaceKeepsDistinct(stores, i, updated, IdOfStore);
      }
      stores := stores[i := updated];
      r := Ok(200, updated);
    }

    /**
     * DELETE /api/stores/:id. Same gate, 404 and 403 order as the update;
     * splices out the first store with the id and leaves products alone.
     */
    method DeleteStore(header: Option<string>, verify: string -> Option<Claims>, id: string) returns (r: Result<string>)
      modifies this
      ensures users == old(users) && products == old(products)
      ensures old(Valid()) ==> Valid()
      ensures var g, i := RequireRole(EDITORS, Authenticate(header, verify)), IndexOfStore(old(stores), id);
        if g.Fail? then r == g.Propagate() && stores == old(stores)
        else if i < 0 then r == Fail(404, STORE_NOT_FOUND) && stores == old(stores)
        else if !MayEditStore(g.value, old(stores)[i]) then r == Fail(403, ACCESS_DENIED) && stores == old(stores)
        else r == Ok(200, STORE_DELETED) && stores == RemoveAt(old(stores), i)
    {
      var g := RequireRole(EDITORS, Authenticate(header, verify));
      if g.Fail? {
        return g.Propagate();
      }
      var i := IndexOfStore(stores, id);
      if i < 0 {
        return Fail(404, STORE_NOT_FOUND);
      }
      if !MayEditStore(g.value, stores[i]) {
        return Fail(403, ACCESS_DENIED);
      }
      if Valid() {
        RemoveAtKeepsDistinct(stores, i, IdOfStore);
      }
      stores := RemoveAt(stores, i);
      r := Ok(200, STORE_DELETED);
    }

    // -------------------------------------------------------------------
    // Product routes
    // -------------------------------------------------------------------

    /** GET /api/products: a store owner gets the products of its stores, every other role all of them. */
    method ListProducts(header: Option<string>, verify: string -> Option<Claims>) returns (r: Result<seq<Product>>)
      ensures var g := Authenticate(header, verify);
        && (g.Fail? ==> r == g.Propagate())
        && (g.Ok? ==> r == Ok(200, VisibleProducts(g.value, stores, products)))
    {
      var g := Authenticate(header, verify);
      if g.Fail? {
        return g.Propagate();
      }
      r := Ok(200, VisibleProducts(g.value, stores, products));
    }

    /**
     * POST /api/products. Required fields are checked first (a zero price or
     * stock counts as missing), then a store owner must own the named store;
     * an admin's `storeId` is not checked. A missing image gets the default.
     */
    method CreateProduct(header: Option<string>, verify: string -> Option<Claims>,
                         name: string, description: string, price: Option<int>, stock: Option<int>,
                         category: string, storeId: string, image: string,
                         newId: string, now: string) returns (r: Result<Product>)
      requires forall p :: p in products ==> p.id != newId
      modifies this
      ensures users == old(users) && stores == old(stores)
      ensures old(Valid()) ==> Valid()
      ensures var g := RequireRole(EDITORS, Authenticate(header, verify));
        if g.Fail? then r == g.Propagate() && products == old(products)
        else if !(Truthy(name) && Truthy(description) && TruthyNumber(price) && TruthyNumber(stock)
                  && Truthy(category) && Truthy(storeId)) then
          r == Fail(400, ALL_FIELDS_REQUIRED) && products == old(products)
        else if !MayEditProductsOf(g.value, stores, storeId) then
          r == Fail(403, ACCESS_DENIED) && products == old(products)
        else
          && r == Ok(201, Product(newId, name, description, price.value, stock.value, category, storeId,
                                  if Truthy(image) then image else DEFAULT_IMAGE, now, None))
          && products == old(products) + [r.value]
    {
      var g := RequireRole(EDITORS, Authenticate(header, verify));
      if g.Fail? {
        return g.Propagate();
      }
      if name == "" || description == "" || !TruthyNumber(price) || !TruthyNumber(stock) || category == "" || storeId == "" {
        return Fail(400, ALL_FIELDS_REQUIRED);
      }
      if !MayEditProductsOf(g.value, stores, storeId) {
        return Fail(403, ACCESS_DENIED);
      }
      var p := Product(newId, name, description, price.value, stock.value, category, storeId,
                       Or(image, DEFAULT_IMAGE), now, None);
      if Valid() {
        AppendKeepsDistinct(products, p, IdOfProduct);
      }
      products := products + [p];
      r := Ok(201, p);
    }

    /**
     * PUT /api/products/:id. Gate, then 404, then (store owner only) 403 when
     * the product's store is missing or foreign; the first product with the
     * id is merged and keeps its `storeId`.
     */
    method UpdateProduct(header: Option<string>, verify: string -> Option<Claims>, id: string,
                         name: string, description: string, price: Option<int>, stock: Option<int>,
                         category: string, image: string, now: string) returns (r: Result<Product>)
      modifies this
      ensures users == old(users) && stores == old(stores)
      ensures old(Valid()) ==> Valid()
      ensures var g, i := RequireRole(EDITORS, Authenticate(header, verify)), IndexOfProduct(old(products), id);
        if g.Fail? then r == g.Propagate() && products == old(products)
        else if i < 0 then r == Fail(404, PRODUCT_NOT_FOUND) && products == old(products)
        else if !MayEditProductsOf(g.value, stores, old(products)[i].storeId) then
          r == Fail(403, ACCESS_DENIED) && products == old(products)
        else
          && r == Ok(200, MergeProduct(old(products)[i], name, description, price, stock, category, image, now))
          && products == old(products)[i := r.value]
    {
      var g := RequireRole(EDITORS, Authenticate(header, verify));
      if g.Fail? {
        return g.Propagate();
      }
      var i := IndexOfProduct(products, id);
      if i < 0 {
        return Fail(404, PRODUCT_NOT_FOUND);
      }
      if !MayEditProductsOf(g.value, stores, products[i].storeId) {
        return Fail(403, ACCESS_DENIED);
      }
      var updated := MergeProduct(products[i], name, description, price, stock, category, image, now);
      if Valid() {
        ReplaceKeepsDistinct(products, i, updated, IdOfProduct);
      }
      products := products[i := updated];
      r := Ok(200, updated);
    }

    /** DELETE /api/products/:id. Same order of checks as the update; splices out the first product with the id. */
    method DeleteProduct(header: Option<string>, verify: string -> Option<Claims>, id: string) returns (r: Result<string>)
      modifies this
      ensures users == old(users) && stores == old(stores)
      ensures old(Valid()) ==> Valid()
      ensures var g, i := RequireRole(EDITORS, Authenticate(header, verify)), IndexOfProduct(old(products), id);
        if g.Fail? then r == g.Propagate() && products == old(products)
        else if i < 0 then r == Fail(404, PRODUCT_NOT_FOUND) && products == old(products)
        else if !MayEditProductsOf(g.value, stores, old(products)[i].storeId) then
          r == Fail(403, ACCESS_DENIED) && products == old(products)
        else r == Ok(200, PRODUCT_DELETED) && products == RemoveAt(old(products), i)
    {
      var g := RequireRole(EDITORS, Authenticate(header, verify));
      if g.Fail? {
        return g.Propagate();
      }
      var i := IndexOfProduct(products, id);
      if i < 0 {
        return Fail(404, PRODUCT_NOT_FOUND);
      }
      if !MayEditProductsOf(g.value, stores, products[i].storeId) {
        return Fail(403, ACCESS_DENIED);
      }
      if Valid() {
        RemoveAtKeepsDistinct(products, i, IdOfProduct);
      }
      products := RemoveAt(products, i);
      r := Ok(200, PRODUCT_DELETED);
    }

    // -------------------------------------------------------------------
    // Dashboard
    // -------------------------------------------------------------------

    /** GET /api/dashboard/stats: any authenticated caller, figures by role. */
    method DashboardStats(header: Option<string>, verify: string -> Option<Claims>) returns (r: Result<Dashboard.Stats>)
      ensures var g := Authenticate(header, verify);
        && (g.Fail? ==> r == g.Propagate())
        && (g.Ok? ==> r == Ok(200, Dashboard.StatsFor(g.value, users, stores, products)))
    {
      var g := Authenticate(header, verify);
      if g.Fail? {
        return g.Propagate();
      }
      r := Ok(200, Dashboard.StatsFor(g.value, users, stores, products));
    }

    // -------------------------------------------------------------------
    // What the invariant buys
    // -------------------------------------------------------------------

    /**
     * While the collections are valid, the ownership test of a store owner's
     * product update or delete on `id` (after the 404 check) passes exactly
     * when the product it finds is one `ListProducts` shows that owner.
     */
    lemma OwnerEditsListedProducts(c: Claims, id: string)
      requires Valid() && c.role == STORE_OWNER && IndexOfProduct(products, id) >= 0
      ensures var p := products[IndexOfProduct(products, id)];
        MayEditProductsOf(c, stores, p.storeId) <==> p in VisibleProducts(c, stores, products)
    {
      var p := products[IndexOfProduct(products, id)];
      OwnerEditsExactlyVisibleProducts(c, stores, products, p);
    }

    /**
     * Likewise for stores: a store owner's update or delete of store `id`
     * passes the ownership test exactly when the store is one `ListStores`
     * shows it.
     */
    lemma OwnerEditsListedStores(c: Claims, id: string)
      requires c.role == STORE_OWNER && IndexOfStore(stores, id) >= 0
      ensures var s := stores[IndexOfStore(stores, id)];
        MayEditStore(c, s) <==> s in VisibleStores(c, stores)
    {
      OwnerEditsExactlyVisibleStores(c, stores, stores[IndexOfStore(stores, id)]);
    }

    /** While the collections are valid, a product card names the store its `storeId` points at. */
    lemma CardNamesOwnStore(k: nat)
      requires Valid() && k < |stores|
      ensures ProductsPage.StoreName(stores, stores[k].id) == stores[k].name
    {
      ProductsPage.StoreNameOfKnownStore(stores, k);
    }
  }
}
