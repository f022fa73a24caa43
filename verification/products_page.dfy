/**
 * The Products page's client-side logic: the filtered product list it renders
 * and the store name it shows on each product card.
 */
module ProductsPage {
  import opened Js
  import opened Records
  import opened Search
  import Access

  const UNKNOWN_STORE := "Unknown Store"

  /** `filteredProducts`: the products matching the search term and the selected category, in order. */
  function FilteredProducts(products: seq<Product>, term: string, selected: string): (r: seq<Product>)
    ensures Subseq(r, products)
    ensures forall p :: p in r <==>
      p in products && MatchesSearch(p.name, p.description, term) && MatchesCategory(p.category, selected)
    ensures forall p ::
      multiset(r)[p] == if MatchesSearch(p.name, p.description, term) && MatchesCategory(p.category, selected)
        then multiset(products)[p] else 0
    ensures Truthy(selected) ==> forall p :: p in r ==> p.category == selected
  {
    Filter(products, (p: Product) => MatchesSearch(p.name, p.description, term) && MatchesCategory(p.category, selected))
  }

  /** With an empty search box and no category selected, the page lists everything, in order. */
  lemma EmptyQueryShowsAll(products: seq<Product>)
    ensures FilteredProducts(products, "", "") == products
  {
    var shown := (p: Product) => MatchesSearch(p.name, p.description, "") && MatchesCategory(p.category, "");
    forall p | p in products ensures shown(p) {
      assert MatchesSearch(p.name, p.description, "");
    }
    FilterKeepsAll(products, shown);
  }

  /** The list does not depend on the case of the search term. */
  lemma {:induction false} FilterIgnoresTermCase(products: seq<Product>, t1: string, t2: string, selected: string)
    requires Lower(t1) == Lower(t2)
    ensures FilteredProducts(products, t1, selected) == FilteredProducts(products, t2, selected)
  {
    FilterCongruent(products,
      (p: Product) => MatchesSearch(p.name, p.description, t1) && MatchesCategory(p.category, selected),
      (p: Product) => MatchesSearch(p.name, p.description, t2) && MatchesCategory(p.category, selected));
  }

  /** Extending the term or picking a category only removes products from the list. */
  lemma {:induction false} RefiningNarrows(products: seq<Product>, short: string, long: string, selected: string)
    requires short <= long
    ensures Subseq(FilteredProducts(products, long, selected), FilteredProducts(products, short, ""))
  {
    var loose := (p: Product) => MatchesSearch(p.name, p.description, short) && MatchesCategory(p.category, "");
    var strict := (p: Product) => MatchesSearch(p.name, p.description, long) && MatchesCategory(p.category, selected);
    forall p | p in products && strict(p) ensures loose(p) {
      LongerTermNarrows(p.name, p.description, short, long);
    }
    FilterNarrows(products, loose, strict);
  }

  /** `getStoreName`: the name of the first store with the id, or "Unknown Store". */
  function StoreName(stores: seq<Store>, storeId: string): (name: string)
    ensures (forall s :: s in stores ==> s.id != storeId) ==> name == UNKNOWN_STORE
    ensures (exists s :: s in stores && s.id == storeId) ==>
      exists k :: 0 <= k < |stores| && stores[k].id == storeId && name == stores[k].name
        && forall j :: 0 <= j < k ==> stores[j].id != storeId
  {
    var i := Access.IndexOfStore(stores, storeId);
    if i < 0 then UNKNOWN_STORE else stores[i].name
  }

  /** With distinct store ids, a product card names exactly the store its `storeId` points at. */
  lemma StoreNameOfKnownStore(stores: seq<Store>, k: nat)
    requires k < |stores| && DistinctBy(stores, IdOfStore)
    ensures StoreName(stores, stores[k].id) == stores[k].name
  {
    Access.IndexOfStoreUnique(stores, k);
  }
}
