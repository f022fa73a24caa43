/**
 * The access policy the routes share: the token middleware
 * (`authenticateToken`), the role gate (`requireRole`), the ownership tests
 * that the store and product routes apply after their lookups, and the
 * role-scoped views that the list routes and the dashboard compute.
 */
module Access {
  import opened Js
  import opened Records

  /** The roles the store and product mutation routes let through. */
  const EDITORS: seq<string> := [ADMIN, STORE_OWNER]
  /** The roles the user administration routes let through. */
  const ADMINS: seq<string> := [ADMIN]

  // ---------------------------------------------------------------------
  // Middleware
  // ---------------------------------------------------------------------

  /**
   * `authHeader && authHeader.split(' ')[1]`: the second space-separated field
   * of the header. There is one exactly when the header contains a space, and
   * it never contains a space itself.
   */
  function BearerToken(header: Option<string>): (t: Option<string>)
    ensures t.Some? <==> header.Some? && ' ' in header.value
    ensures t.Some? ==> ' ' !in t.value
  {
    if header.None? || header.value == "" then None
    else
      var fields := Split(header.value, ' ');
      SplitHead(header.value, ' ');
      assert |fields| == 1 ==> header.value == fields[0];
      if |fields| < 2 then None else Some(fields[1])
  }

  /** The token is the longest run of non-spaces right after the header's first space, at `k`. */
  lemma BearerTokenShape(h: string, k: int, t: string)
    requires BearerToken(Some(h)) == Some(t) && k == IndexOf(h, ' ')
    ensures ' ' !in t && 0 <= k && k + 1 + |t| <= |h| && h[k + 1..k + 1 + |t|] == t
    ensures k + 1 + |t| == |h| || h[k + 1 + |t|] == ' '
  {
    var parts := Split(h, ' ');
    assert |parts| > 1 && t == parts[1];
    FirstFieldEndsAtFirstSpace(h, parts);
    FieldAfter(h, ' ', k, t);
  }

  /** When a header splits into several fields, the first ends at the header's first space. */
  lemma FirstFieldEndsAtFirstSpace(h: string, parts: seq<string>)
    requires parts == Split(h, ' ') && |parts| > 1
    ensures IndexOf(h, ' ') == |parts[0]|
    ensures parts[1] == Split(h[|parts[0]| + 1..], ' ')[0]
  {
    SplitHead(h, ' ');
    assert h[..|parts[0]|] == parts[0];
  }

  /**
   * A token was presented: the header's second field exists and is not
   * empty. A header with a space but nothing after it (`"Bearer "`), or with
   * two spaces in a row after its first field, presents none.
   */
  predicate Presented(header: Option<string>)
    ensures Presented(header) ==> header.Some? && ' ' in header.value
    ensures header.Some? && ' ' in header.value && !Presented(header) ==> BearerToken(header) == Some("")
  {
    BearerToken(header).Some? && BearerToken(header).value != ""
  }

  /**
   * `authenticateToken`: a missing token is refused with 401, a token that
   * `verify` (the signature and expiry check) rejects with 403; otherwise the
   * request carries the token's claims.
   */
  function Authenticate(header: Option<string>, verify: string -> Option<Claims>): (g: Result<Claims>)
    ensures g == Fail(401, TOKEN_REQUIRED) <==> !Presented(header)
    ensures g == Fail(403, TOKEN_INVALID) <==> Presented(header) && verify(BearerToken(header).value).None?
    ensures g.Ok? <==> Presented(header) && verify(BearerToken(header).value).Some?
    ensures g.Ok? ==> verify(BearerToken(header).value) == Some(g.value)
  {
    var token := BearerToken(header);
    if token.None? || token.value == "" then Fail(401, TOKEN_REQUIRED)
    else
      match verify(token.value)
      case None => Fail(403, TOKEN_INVALID)
      case Some(claims) => Ok(200, claims)
  }

  /** `requireRole(roles)`, run after authentication and before any lookup. */
  function RequireRole(roles: seq<string>, g: Result<Claims>): (r: Result<Claims>)
    ensures g.Fail? ==> r == g
    ensures g.Ok? && g.value.role in roles ==> r == g
    ensures g.Ok? && g.value.role !in roles ==> r == Fail(403, INSUFFICIENT_PERMISSIONS)
  {
    if g.Ok? && g.value.role !in roles then Fail(403, INSUFFICIENT_PERMISSIONS) else g
  }

  /** A plain `user` (or any role outside the list) gets 403 from the gate of every mutation route. */
  lemma OnlyEditorsPassTheGate(header: Option<string>, verify: string -> Option<Claims>)
    ensures var g := RequireRole(EDITORS, Authenticate(header, verify));
      g.Ok? <==> Authenticate(header, verify).Ok? && Authenticate(header, verify).value.role in {ADMIN, STORE_OWNER}
  {
  }

  // ---------------------------------------------------------------------
  // Lookups
  // ---------------------------------------------------------------------

  /** `users.find(u => u.email === email)`, as an index. */
  function IndexOfEmail(users: seq<User>, email: string): (i: int)
    ensures -1 <= i < |users|
    ensures 0 <= i ==> users[i].email == email && forall j :: 0 <= j < i ==> users[j].email != email
    ensures i == -1 <==> forall u :: u in users ==> u.email != email
  {
    FindIndex(users, (u: User) => u.email == email)
  }

  /** `stores.findIndex(s => s.id === id)`. */
  function IndexOfStore(stores: seq<Store>, id: string): (i: int)
    ensures -1 <= i < |stores|
    ensures 0 <= i ==> stores[i].id == id && forall j :: 0 <= j < i ==> stores[j].id != id
    ensures i == -1 <==> forall s :: s in stores ==> s.id != id
  {
    FindIndex(stores, (s: Store) => s.id == id)
  }

  /** `products.findIndex(p => p.id === id)`. */
  function IndexOfProduct(products: seq<Product>, id: string): (i: int)
    ensures -1 <= i < |products|
    ensures 0 <= i ==> products[i].id == id && forall j :: 0 <= j < i ==> products[j].id != id
    ensures i == -1 <==> forall p :: p in products ==> p.id != id
  {
    FindIndex(products, (p: Product) => p.id == id)
  }

  /** With distinct ids, the first store with an id is the only one. */
  lemma IndexOfStoreUnique(stores: seq<Store>, k: nat)
    requires k < |stores| && DistinctBy(stores, IdOfStore)
    ensures IndexOfStore(stores, stores[k].id) == k
  {
  }

  // ---------------------------------------------------------------------
  // Ownership
  // ---------------------------------------------------------------------

  /** The store PUT/DELETE test: a store owner may touch only its own store; any other role is not checked. */
  predicate MayEditStore(c: Claims, s: Store)
    ensures c.role == STORE_OWNER ==> (MayEditStore(c, s) <==> s.ownerId == Some(c.id))
    ensures c.role != STORE_OWNER ==> MayEditStore(c, s)
  {
    c.role != STORE_OWNER || s.ownerId == Some(c.id)
  }

  /**
   * The product POST/PUT/DELETE test: a store owner passes exactly when the
   * first store with `storeId` exists and is its own; any other role passes.
   */
  predicate MayEditProductsOf(c: Claims, stores: seq<Store>, storeId: string)
    ensures c.role == STORE_OWNER ==> (MayEditProductsOf(c, stores, storeId) <==>
      exists k :: 0 <= k < |stores| && stores[k].id == storeId && stores[k].ownerId == Some(c.id)
        && forall j :: 0 <= j < k ==> stores[j].id != storeId)
    ensures c.role != STORE_OWNER ==> MayEditProductsOf(c, stores, storeId)
  {
    c.role != STORE_OWNER || (var i := IndexOfStore(stores, storeId); i >= 0 && stores[i].ownerId == Some(c.id))
  }

  // ---------------------------------------------------------------------
  // Visibility
  // ---------------------------------------------------------------------

  /** `stores.filter(s => s.ownerId === id)`. */
  function OwnedStores(stores: seq<Store>, id: string): (r: seq<Store>)
    ensures Subseq(r, stores)
    ensures forall s :: s in r <==> s in stores && s.ownerId == Some(id)
    ensures forall s :: multiset(r)[s] == if s.ownerId == Some(id) then multiset(stores)[s] else 0
  {
    Filter(stores, (s: Store) => s.ownerId == Some(id))
  }

  /** `stores.map(s => s.id)`. */
  function StoreIds(stores: seq<Store>): (ids: seq<string>)
    ensures |ids| == |stores|
    ensures forall i :: 0 <= i < |stores| ==> ids[i] == stores[i].id
    ensures forall x :: x in ids <==> exists s :: s in stores && s.id == x
  {
    var ids := seq(|stores|, i requires 0 <= i < |stores| => stores[i].id);
    assert forall i :: 0 <= i < |stores| ==> stores[i] in stores && ids[i] == stores[i].id;
    assert forall s :: s in stores ==> exists i :: 0 <= i < |stores| && stores[i] == s;
    ids
  }

  /** `products.filter(p => storeIds.includes(p.storeId))`. */
  function ProductsOf(products: seq<Product>, storeIds: seq<string>): (r: seq<Product>)
    ensures Subseq(r, products)
    ensures forall p :: p in r <==> p in products && p.storeId in storeIds
    ensures forall p :: multiset(r)[p] == if p.storeId in storeIds then multiset(products)[p] else 0
  {
    Filter(products, (p: Product) => p.storeId in storeIds)
  }

  /** The stores a caller lists: a store owner its own, in order; everybody else all of them. */
  function VisibleStores(c: Claims, stores: seq<Store>): (r: seq<Store>)
    ensures c.role == STORE_OWNER ==> Subseq(r, stores) && forall s :: s in r <==> s in stores && s.ownerId == Some(c.id)
    ensures c.role == STORE_OWNER ==>
      forall s :: multiset(r)[s] == if s.ownerId == Some(c.id) then multiset(stores)[s] else 0
    ensures c.role != STORE_OWNER ==> r == stores
  {
    if c.role == STORE_OWNER then OwnedStores(stores, c.id) else stores
  }

  /** The products a caller lists: a store owner those of its stores, in order; everybody else all of them. */
  function VisibleProducts(c: Claims, stores: seq<Store>, products: seq<Product>): (r: seq<Product>)
    ensures c.role == STORE_OWNER ==> Subseq(r, products) && forall p :: p in r <==>
      p in products && exists s :: s in stores && s.ownerId == Some(c.id) && s.id == p.storeId
    ensures c.role == STORE_OWNER ==>
      forall p :: multiset(r)[p] ==
        if exists s :: s in stores && s.ownerId == Some(c.id) && s.id == p.storeId then multiset(products)[p] else 0
    ensures c.role != STORE_OWNER ==> r == products
  {
    if c.role == STORE_OWNER then ProductsOf(products, StoreIds(OwnedStores(stores, c.id))) else products
  }

  /**
   * With distinct store ids, a store owner may update or delete exactly the
   * products it lists: the listing's `includes` test and the mutation routes'
   * `find` test agree.
   */
  lemma OwnerEditsExactlyVisibleProducts(c: Claims, stores: seq<Store>, products: seq<Product>, p: Product)
    requires c.role == STORE_OWNER && DistinctBy(stores, IdOfStore) && p in products
    ensures p in VisibleProducts(c, stores, products) <==> MayEditProductsOf(c, stores, p.storeId)
  {
    var i := IndexOfStore(stores, p.storeId);
    if p in VisibleProducts(c, stores, products) {
      var s :| s in stores && s.ownerId == Some(c.id) && s.id == p.storeId;
      var k :| 0 <= k < |stores| && stores[k] == s;
      IndexOfStoreUnique(stores, k);
    }
    if MayEditProductsOf(c, stores, p.storeId) {
      assert stores[i] in stores;
    }
  }

  /** A store owner may update or delete exactly the stores it lists. */
  lemma OwnerEditsExactlyVisibleStores(c: Claims, stores: seq<Store>, s: Store)
    requires c.role == STORE_OWNER && s in stores
    ensures s in VisibleStores(c, stores) <==> MayEditStore(c, s)
  {
  }
}
