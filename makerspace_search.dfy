/**
 * The search box over the map's makerspaces: a case-insensitive substring
 * search over five text properties of each feature.
 */
module MakerspaceSearch {
  import opened Wrappers
  import opened Text
  import opened Sequences

  /** The properties the search reads; `None` where a feature has no such property. */
  datatype SearchProperties = SearchProperties(
    name: Option<string>,
    address: Option<string>,
    category: Option<string>,
    skills: Option<string>,
    notes: Option<string>)

  /** A makerspace feature as the search sees it. */
  datatype Makerspace = Makerspace(properties: SearchProperties)

  /** The lower-cased field contains the term; a missing field never matches. */
  predicate FieldMatches(field: Option<string>, term: string) {
    field.Some? && Contains(ToLower(field.value), term)
  }

  /** The filter's predicate for an already lower-cased term: any of the five fields matches. */
  predicate MatchesTerm(ms: Makerspace, term: string) {
    var props := ms.properties;
    || FieldMatches(props.name, term)
    || FieldMatches(props.address, term)
    || FieldMatches(props.category, term)
    || FieldMatches(props.skills, term)
    || FieldMatches(props.notes, term)
  }

  /** Whether a makerspace stays in the list for the typed term: always for an empty term. */
  predicate Kept(searchTerm: string, ms: Makerspace) {
    searchTerm == "" || MatchesTerm(ms, ToLower(searchTerm))
  }

  /** `filterMakerspaces`: the whole list for an empty term, otherwise the matching makerspaces. */
  function FilterMakerspaces(makerspaces: seq<Makerspace>, searchTerm: string): (filtered: seq<Makerspace>)
    ensures |filtered| <= |makerspaces|
    ensures forall i :: 0 <= i < |filtered| ==> Kept(searchTerm, filtered[i])
  {
    if searchTerm == "" then makerspaces
    else
      var term := ToLower(searchTerm);
      Filter((ms: Makerspace) => MatchesTerm(ms, term), makerspaces)
  }

  /**
   * The result is the input with the makerspaces that do not match removed:
   * an order-preserving subsequence, each kept makerspace as often as in the
   * input, none of the others, and no longer than the input (the "X of Y"
   * counter). An empty term gives back the input itself.
   */
  lemma FilterMakerspacesSpec(makerspaces: seq<Makerspace>, searchTerm: string)
    ensures var filtered := FilterMakerspaces(makerspaces, searchTerm);
      && IsSubsequence(filtered, makerspaces)
      && |filtered| <= |makerspaces|
      && (forall i :: 0 <= i < |filtered| ==> Kept(searchTerm, filtered[i]))
      && (forall ms :: multiset(filtered)[ms] == if Kept(searchTerm, ms) then multiset(makerspaces)[ms] else 0)
      && (searchTerm == "" ==> filtered == makerspaces)
  {
    var filtered := FilterMakerspaces(makerspaces, searchTerm);
    if searchTerm == "" {
      SubsequenceOfItself(makerspaces);
    } else {
      var keep := (ms: Makerspace) => MatchesTerm(ms, ToLower(searchTerm));
      FilterIsSubsequence(keep, makerspaces);
      FilterMultiplicity(keep, makerspaces);
      assert forall i :: 0 <= i < |filtered| ==> keep(filtered[i]);
    }
  }

  /** A makerspace of the list is shown exactly when it is kept for the term. */
  lemma ShownIffKept(makerspaces: seq<Makerspace>, searchTerm: string, ms: Makerspace)
    requires ms in makerspaces
    ensures ms in FilterMakerspaces(makerspaces, searchTerm) <==> Kept(searchTerm, ms)
  {
    FilterMakerspacesSpec(makerspaces, searchTerm);
    assert multiset(makerspaces)[ms] > 0;
  }

  /** A makerspace with none of the five properties is never shown for a non-empty term. */
  lemma NoPropertiesNeverShown(makerspaces: seq<Makerspace>, searchTerm: string)
    requires searchTerm != ""
    ensures forall ms :: ms in FilterMakerspaces(makerspaces, searchTerm) ==>
      ms.properties != SearchProperties(None, None, None, None, None)
  {
    FilterMakerspacesSpec(makerspaces, searchTerm);
    forall ms | ms in FilterMakerspaces(makerspaces, searchTerm)
      ensures ms.properties != SearchProperties(None, None, None, None, None)
    {
      assert multiset(FilterMakerspaces(makerspaces, searchTerm))[ms] > 0;
    }
  }

  /** Terms that lower-case alike select the same makerspaces: the case of the term does not matter. */
  lemma TermCaseIgnored(makerspaces: seq<Makerspace>, t1: string, t2: string)
    requires ToLower(t1) == ToLower(t2)
    ensures FilterMakerspaces(makerspaces, t1) == FilterMakerspaces(makerspaces, t2)
  {
    if t1 != "" {
      var keep1 := (ms: Makerspace) => MatchesTerm(ms, ToLower(t1));
      var keep2 := (ms: Makerspace) => MatchesTerm(ms, ToLower(t2));
      FilterExtensional(keep1, keep2, makerspaces);
    }
  }

  /**
   * A field that holds the term spelled in any case matches: `spelled` is the
   * term as the field writes it, and both sides are lower-cased before comparing.
   */
  lemma FieldCaseIgnored(field: string, spelled: string, searchTerm: string)
    requires ToLower(spelled) == ToLower(searchTerm) && Contains(field, spelled)
    ensures FieldMatches(Some(field), ToLower(searchTerm))
  {
    ContainsLower(field, spelled);
  }

  /** The search box's state. */
  datatype SearchState = SearchState(searchTerm: string)

  /** `clearSearch`: empty the search term. */
  function ClearSearch(state: SearchState): SearchState {
    SearchState("")
  }

  /** After clearing, the whole list is shown again. */
  lemma ClearSearchShowsAll(state: SearchState, makerspaces: seq<Makerspace>)
    ensures FilterMakerspaces(makerspaces, ClearSearch(state).searchTerm) == makerspaces
  {
  }
}
