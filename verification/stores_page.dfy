/**
 * The Stores page's client-side logic: the filtered store list it renders and
 * the badge colour it gives each store's status.
 */
module StoresPage {
  import opened Js
  import opened Records
  import opened Search

  const GREEN_BADGE := "bg-green-100 text-green-800"
  const RED_BADGE := "bg-red-100 text-red-800"
  const GRAY_BADGE := "bg-gray-100 text-gray-800"

  /** `filteredStores`: the stores matching the search term and the selected category, in order. */
  function FilteredStores(stores: seq<Store>, term: string, selected: string): (r: seq<Store>)
    ensures Subseq(r, stores)
    ensures forall s :: s in r <==>
      s in stores && MatchesSearch(s.name, s.description, term) && MatchesCategory(s.category, selected)
    ensures forall s ::
      multiset(r)[s] == if MatchesSearch(s.name, s.description, term) && MatchesCategory(s.category, selected)
        then multiset(stores)[s] else 0
    ensures Truthy(selected) ==> forall s :: s in r ==> s.category == selected
  {
    Filter(stores, (s: Store) => MatchesSearch(s.name, s.description, term) && MatchesCategory(s.category, selected))
  }

  /** With an empty search box and no category selected, the page lists everything, in order. */
  lemma EmptyQueryShowsAll(stores: seq<Store>)
    ensures FilteredStores(stores, "", "") == stores
  {
    var shown := (s: Store) => MatchesSearch(s.name, s.description, "") && MatchesCategory(s.category, "");
    forall s | s in stores ensures shown(s) {
      assert MatchesSearch(s.name, s.description, "");
    }
    FilterKeepsAll(stores, shown);
  }

  /** Extending the term or picking a category only removes stores from the list. */
  lemma {:induction false} RefiningNarrows(stores: seq<Store>, short: string, long: string, selected: string)
    requires short <= long
    ensures Subseq(FilteredStores(stores, long, selected), FilteredStores(stores, short, ""))
  {
    var loose := (s: Store) => MatchesSearch(s.name, s.description, short) && MatchesCategory(s.category, "");
    var strict := (s: Store) => MatchesSearch(s.name, s.description, long) && MatchesCategory(s.category, selected);
    forall s | s in stores && strict(s) ensures loose(s) {
      LongerTermNarrows(s.name, s.description, short, long);
    }
    FilterNarrows(stores, loose, strict);
  }

  /** `getStatusColor`: green for "active", red for "inactive", gray for any other status. */
  function StatusColor(status: string): (badge: string)
    ensures badge == GREEN_BADGE <==> status == ACTIVE
    ensures badge == RED_BADGE <==> status == "inactive"
    ensures badge == GRAY_BADGE <==> status != ACTIVE && status != "inactive"
  {
    if status == ACTIVE then GREEN_BADGE
    else if status == "inactive" then RED_BADGE
    else GRAY_BADGE
  }
}
