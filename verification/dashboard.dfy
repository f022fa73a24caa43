/**
 * The dashboard statistics route: totals computed afresh from the three
 * collections, with one set of figures per role.
 */
module Dashboard {
  import opened Js
  import opened Records
  import opened Access

  datatype Stats =
    | AdminStats(totalUsers: nat, totalStores: nat, totalProducts: nat, activeStores: nat)
    | OwnerStats(totalStores: nat, totalProducts: nat, totalStock: int, totalValue: int)
    | UserStats(availableStores: nat, availableProducts: nat)

  /** The dashboard's notion of an active store. */
  predicate IsActive(s: Store) {
    s.status == ACTIVE
  }

  /** `stores.filter(s => s.status === 'active')`: the active stores, in order, duplicates kept. */
  function ActiveStores(stores: seq<Store>): (r: seq<Store>)
    ensures Subseq(r, stores)
    ensures |r| == Count(stores, IsActive)
    ensures forall s :: s in r <==> s in stores && s.status == ACTIVE
    ensures forall s :: multiset(r)[s] == if s.status == ACTIVE then multiset(stores)[s] else 0
    ensures |r| == |stores| <==> forall s :: s in stores ==> s.status == ACTIVE
  {
    FilterKeepsAll(stores, IsActive);
    Filter(stores, IsActive)
  }

  /**
   * The figures for one caller. An admin gets collection sizes and the number
   * of active stores; a store owner gets the sizes of exactly the lists that
   * its store and product listings return, and the stock and value summed over
   * its products; every other role gets the active store count and the size of
   * the product collection.
   */
  function StatsFor(c: Claims, users: seq<User>, stores: seq<Store>, products: seq<Product>): (r: Stats)
    ensures r.AdminStats? <==> c.role == ADMIN
    ensures r.OwnerStats? <==> c.role == STORE_OWNER
    ensures r.AdminStats? ==>
      r.totalUsers == |users| && r.totalStores == |stores| && r.totalProducts == |products|
      && r.activeStores == Count(stores, IsActive) <= r.totalStores
      && (r.activeStores == r.totalStores <==> forall s :: s in stores ==> s.status == ACTIVE)
    ensures r.OwnerStats? ==>
      var mine := VisibleProducts(c, stores, products);
      r.totalStores == |VisibleStores(c, stores)| && r.totalProducts == |mine|
      && r.totalStock == Sum(mine, StockOf) && r.totalValue == Sum(mine, ValueOf)
    ensures r.UserStats? ==>
      r.availableProducts == |products| && r.availableStores == Count(stores, IsActive) <= |stores|
      && (r.availableStores == |stores| <==> forall s :: s in stores ==> s.status == ACTIVE)
  {
    if c.role == ADMIN then
      AdminStats(|users|, |stores|, |products|, |ActiveStores(stores)|)
    else if c.role == STORE_OWNER then
      var userStores := OwnedStores(stores, c.id);
      var userProducts := ProductsOf(products, StoreIds(userStores));
      OwnerStats(|userStores|, |userProducts|, Sum(userProducts, StockOf), Sum(userProducts, ValueOf))
    else
      UserStats(|ActiveStores(stores)|, |products|)
  }

  /** A store owner whose products all hold non-negative stock sees a non-negative total stock. */
  lemma OwnerStockNonNegative(c: Claims, users: seq<User>, stores: seq<Store>, products: seq<Product>)
    requires c.role == STORE_OWNER
    requires forall p :: p in products ==> p.stock >= 0
    ensures StatsFor(c, users, stores, products).totalStock >= 0
  {
    var mine := VisibleProducts(c, stores, products);
    assert forall p :: p in mine ==> StockOf(p) >= 0;
  }
}
