/**
 * The search box and category drop-down that the Products and Stores pages
 * share: a record is shown when the lower-cased search term occurs in its
 * lower-cased name or description, and its category is the selected one or
 * none is selected.
 */
module Search {
  import opened Js

  /**
   * The term occurs, ignoring ASCII case, in the name or in the description.
   * The empty term occurs everywhere.
   */
  predicate MatchesSearch(name: string, description: string, term: string)
    ensures MatchesSearch(name, description, term) <==>
      (exists i :: OccursAt(Lower(name), Lower(term), i)) || (exists i :: OccursAt(Lower(description), Lower(term), i))
    ensures !Truthy(term) ==> MatchesSearch(name, description, term)
  {
    Includes(Lower(name), Lower(term)) || Includes(Lower(description), Lower(term))
  }

  /** `!selectedCategory || category === selectedCategory`: no selection lets every category through. */
  predicate MatchesCategory(category: string, selected: string)
    ensures Truthy(selected) ==> (MatchesCategory(category, selected) <==> category == selected)
    ensures !Truthy(selected) ==> MatchesCategory(category, selected)
  {
    !Truthy(selected) || category == selected
  }

  /** Typing more characters can only narrow the matches. */
  lemma LongerTermNarrows(name: string, description: string, short: string, long: string)
    requires short <= long && MatchesSearch(name, description, long)
    ensures MatchesSearch(name, description, short)
  {
    LowerKeepsPrefix(short, long);
    if Includes(Lower(name), Lower(long)) {
      IncludesPrefix(Lower(name), Lower(short), Lower(long));
    } else {
      IncludesPrefix(Lower(description), Lower(short), Lower(long));
    }
  }
}
