/** The building finder of the campus map: the search over the building list, the
    list shown under the category buttons, the page state those buttons and the search
    box update, and the facility preview of a building card. */
module CampusMap {
  import opened Optional
  import opened Strings

  /** A building record, without its coordinates. */
  datatype Building = Building(
    code: string,
    name: string,
    category: string,
    facilities: seq<string>,
    searchKeywords: seq<string>)

  // ---------------------------------------------------------------- search

  /** `fields.some(f => f.toLowerCase().includes(q))`. */
  predicate SomeContains(fields: seq<string>, q: string) {
    exists k :: 0 <= k < |fields| && Contains(Lower(fields[k]), q)
  }

  /** The test of the search filter, for an already lower-cased query `q`. */
  predicate Matches(b: Building, q: string) {
    Contains(Lower(b.name), q) || Contains(Lower(b.code), q) || Contains(Lower(b.category), q)
    || SomeContains(b.facilities, q) || SomeContains(b.searchKeywords, q)
  }

  /** `buildings.filter(b => Matches(b, q))`. */
  function FilterMatching(buildings: seq<Building>, q: string): (r: seq<Building>)
    ensures forall b :: b in r <==> b in buildings && Matches(b, q)
  {
    if buildings == [] then []
    else (if Matches(buildings[0], q) then [buildings[0]] else []) + FilterMatching(buildings[1..], q)
  }

  /** `handleSearch`'s result: nothing for a query that trims to empty, otherwise every
      building matching the lower-cased query (which is not trimmed). */
  function HandleSearch(buildings: seq<Building>, query: string): (r: seq<Building>)
    ensures IsBlank(query) ==> r == []
    ensures !IsBlank(query) ==> forall b :: b in r <==> b in buildings && Matches(b, Lower(query))
  {
    TrimEmptyIffBlank(query);
    if Trim(query) == "" then [] else FilterMatching(buildings, Lower(query))
  }

  /** `a` is `b` with some elements left out, the others in their order. */
  predicate IsSubsequence<T(==)>(a: seq<T>, b: seq<T>)
    decreases |b|
  {
    a == [] || (b != [] && ((a[0] == b[0] && IsSubsequence(a[1..], b[1..])) || IsSubsequence(a, b[1..])))
  }

  /** Each matching building appears in the results as often as in the input, and no
      other building appears: the filter drops nothing it keeps and duplicates nothing. */
  lemma {:induction false} FilterCounts(buildings: seq<Building>, q: string)
    ensures forall b :: multiset(FilterMatching(buildings, q))[b] ==
                        if Matches(b, q) then multiset(buildings)[b] else 0
    decreases |buildings|
  {
    if buildings != [] {
      FilterCounts(buildings[1..], q);
      assert buildings == [buildings[0]] + buildings[1..];
      assert multiset(buildings) == multiset([buildings[0]]) + multiset(buildings[1..]);
    }
  }

  lemma {:induction false} FilterIsSubsequence(buildings: seq<Building>, q: string)
    ensures IsSubsequence(FilterMatching(buildings, q), buildings)
    decreases |buildings|
  {
    if buildings != [] {
      FilterIsSubsequence(buildings[1..], q);
      var rest := FilterMatching(buildings[1..], q);
      if Matches(buildings[0], q) {
        assert ([buildings[0]] + rest)[1..] == rest;
      } else {
        assert FilterMatching(buildings, q) == rest;
      }
    }
  }

  /** The results come from the building list, in its order. */
  lemma SearchKeepsOrder(buildings: seq<Building>, query: string)
    ensures IsSubsequence(HandleSearch(buildings, query), buildings)
  {
    TrimEmptyIffBlank(query);
    if !IsBlank(query) {
      FilterIsSubsequence(buildings, Lower(query));
    }
  }

  /** The search ignores letter case: queries equal after lower-casing give the same
      results. */
  lemma SearchIgnoresCase(buildings: seq<Building>, q1: string, q2: string)
    requires Lower(q1) == Lower(q2)
    ensures HandleSearch(buildings, q1) == HandleSearch(buildings, q2)
  {
    LowerBlank(q1);
    LowerBlank(q2);
    TrimEmptyIffBlank(q1);
    TrimEmptyIffBlank(q2);
  }

  /** A match for a query is a match for every substring of it. */
  lemma MatchesSubstring(b: Building, q2: string, q1: string)
    requires Matches(b, q2) && Contains(q2, q1)
    ensures Matches(b, q1)
  {
    forall f | Contains(f, q2) ensures Contains(f, q1) {
      ContainsTransitive(f, q2, q1);
    }
  }

  /** Typing more narrows the results: when the non-blank query `q2` contains the
      non-blank query `q1`, every result for `q2` is a result for `q1`. */
  lemma SearchNarrows(buildings: seq<Building>, q1: string, q2: string)
    requires !IsBlank(q1) && !IsBlank(q2) && Contains(q2, q1)
    ensures forall b :: b in HandleSearch(buildings, q2) ==> b in HandleSearch(buildings, q1)
  {
    ContainsLower(q2, q1);
    forall b | b in HandleSearch(buildings, q2) ensures b in HandleSearch(buildings, q1) {
      MatchesSubstring(b, Lower(q2), Lower(q1));
    }
  }

  // ---------------------------------------------------------------- the displayed list

  /** `buildings.filter(b => b.category === category)`. */
  function InCategory(buildings: seq<Building>, category: string): (r: seq<Building>)
    ensures forall b :: b in r <==> b in buildings && b.category == category
  {
    if buildings == [] then []
    else (if buildings[0].category == category then [buildings[0]] else []) + InCategory(buildings[1..], category)
  }

  /** Each building of the category appears as often as in the input; no other does. */
  lemma {:induction false} InCategoryCounts(buildings: seq<Building>, category: string)
    ensures forall b :: multiset(InCategory(buildings, category))[b] ==
                        if b.category == category then multiset(buildings)[b] else 0
    decreases |buildings|
  {
    if buildings != [] {
      InCategoryCounts(buildings[1..], category);
      assert buildings == [buildings[0]] + buildings[1..];
      assert multiset(buildings) == multiset([buildings[0]]) + multiset(buildings[1..]);
    }
  }

  /** `displayBuildings`: the search results while the query is not blank, otherwise
      every building under "all", otherwise the buildings of the active category. */
  function DisplayBuildings(buildings: seq<Building>, searchQuery: string,
                            filteredBuildings: seq<Building>, activeCategory: string): seq<Building>
  {
    if Trim(searchQuery) != "" then filteredBuildings
    else if activeCategory == "all" then buildings
    else InCategory(buildings, activeCategory)
  }

  // ---------------------------------------------------------------- the page state

  /** The state of the map page. */
  datatype MapState = MapState(
    searchQuery: string,
    filteredBuildings: seq<Building>,
    activeCategory: string,
    selectedBuilding: Option<Building>)

  const Initial := MapState("", [], "all", None)

  /** The stored results are those of the stored query. */
  ghost predicate Consistent(st: MapState, buildings: seq<Building>) {
    st.filteredBuildings == HandleSearch(buildings, st.searchQuery)
  }

  /** Typing in the search box. */
  function Search(st: MapState, buildings: seq<Building>, query: string): (r: MapState)
    ensures r.searchQuery == query && r.filteredBuildings == HandleSearch(buildings, query)
    ensures Consistent(r, buildings)
    ensures r.activeCategory == st.activeCategory && r.selectedBuilding == st.selectedBuilding
  {
    st.(searchQuery := query, filteredBuildings := HandleSearch(buildings, query))
  }

  /** A category button: the category becomes active and the search is cleared. */
  function ClickCategory(st: MapState, value: string): (r: MapState)
    ensures r.searchQuery == "" && r.filteredBuildings == [] && r.activeCategory == value
    ensures r.selectedBuilding == st.selectedBuilding
  {
    st.(activeCategory := value, searchQuery := "", filteredBuildings := [])
  }

  /** Opening and closing the details of a building. */
  function SelectBuilding(st: MapState, b: Option<Building>): (r: MapState)
    ensures r.selectedBuilding == b
    ensures r.(selectedBuilding := st.selectedBuilding) == st
  {
    st.(selectedBuilding := b)
  }

  function Displayed(st: MapState, buildings: seq<Building>): seq<Building> {
    DisplayBuildings(buildings, st.searchQuery, st.filteredBuildings, st.activeCategory)
  }

  /** Every reachable state is consistent. */
  lemma StepsKeepConsistent(st: MapState, buildings: seq<Building>, query: string, value: string, b: Option<Building>)
    requires Consistent(st, buildings)
    ensures Consistent(Initial, buildings)
    ensures Consistent(Search(st, buildings, query), buildings)
    ensures Consistent(ClickCategory(st, value), buildings)
    ensures Consistent(SelectBuilding(st, b), buildings)
  {
    assert IsBlank("");
  }

  /** In a consistent state the page shows exactly the buildings matching a non-blank
      query, and otherwise the buildings of the active category ("all" for every one),
      in the list's order. */
  lemma DisplayedBuildings(st: MapState, buildings: seq<Building>, b: Building)
    requires Consistent(st, buildings)
    ensures !IsBlank(st.searchQuery) ==>
      (b in Displayed(st, buildings) <==> b in buildings && Matches(b, Lower(st.searchQuery)))
    ensures IsBlank(st.searchQuery) && st.activeCategory == "all" ==> Displayed(st, buildings) == buildings
    ensures IsBlank(st.searchQuery) && st.activeCategory != "all" ==>
      (b in Displayed(st, buildings) <==> b in buildings && b.category == st.activeCategory)
    ensures IsSubsequence(Displayed(st, buildings), buildings)
  {
    TrimEmptyIffBlank(st.searchQuery);
    SearchKeepsOrder(buildings, st.searchQuery);
    if IsBlank(st.searchQuery) && st.activeCategory != "all" {
      InCategoryIsSubsequence(buildings, st.activeCategory);
    } else if IsBlank(st.searchQuery) {
      SubsequenceSelf(buildings);
    }
  }

  lemma {:induction false} InCategoryIsSubsequence(buildings: seq<Building>, category: string)
    ensures IsSubsequence(InCategory(buildings, category), buildings)
    decreases |buildings|
  {
    if buildings != [] {
      InCategoryIsSubsequence(buildings[1..], category);
      var rest := InCategory(buildings[1..], category);
      if buildings[0].category == category {
        assert ([buildings[0]] + rest)[1..] == rest;
      } else {
        assert InCategory(buildings, category) == rest;
      }
    }
  }

  lemma {:induction false} SubsequenceSelf<T>(s: seq<T>)
    ensures IsSubsequence(s, s)
    decreases |s|
  {
    if s != [] {
      SubsequenceSelf(s[1..]);
    }
  }

  // ---------------------------------------------------------------- result banner

  /** The line under the search box. */
  datatype Banner = NoBanner | Found(count: nat, plural: bool) | NoResults

  /** `searchQuery && filteredBuildings.length > 0` and its opposite: the banner shows for
      any non-empty query, even one of spaces only. */
  function SearchBanner(st: MapState): (r: Banner)
    ensures r == NoBanner <==> st.searchQuery == ""
    ensures r.Found? <==> st.searchQuery != "" && |st.filteredBuildings| > 0
    ensures r == NoResults <==> st.searchQuery != "" && |st.filteredBuildings| == 0
    ensures r.Found? ==> r.count == |st.filteredBuildings| > 0 && (r.plural <==> r.count != 1)
  {
    if st.searchQuery == "" then NoBanner
    else if |st.filteredBuildings| > 0 then Found(|st.filteredBuildings|, |st.filteredBuildings| != 1)
    else NoResults
  }

  /** A query of spaces only searches nothing and reports "No results found". */
  lemma SpacesReportNoResults(st: MapState, buildings: seq<Building>)
    requires Consistent(st, buildings) && st.searchQuery != "" && IsBlank(st.searchQuery)
    ensures SearchBanner(st) == NoResults
  {
  }

  // ---------------------------------------------------------------- building cards

  /** `facilities.slice(0, 3)`. */
  function FacilityPreview(facilities: seq<string>): (r: seq<string>)
    ensures |r| <= 3 && |r| <= |facilities| && r == facilities[..|r|]
    ensures |facilities| <= 3 ==> r == facilities
    ensures |facilities| > 3 ==> r == facilities[..3]
  {
    if |facilities| <= 3 then facilities else facilities[..3]
  }

  /** The "+n more..." count, shown only when there are more than three facilities. */
  function MoreCount(facilities: seq<string>): (r: Option<nat>)
    ensures r.Some? <==> |facilities| > 3
    ensures r.Some? ==> r.value == |facilities| - 3 > 0
  {
    if |facilities| > 3 then Some(|facilities| - 3) else None
  }

  /** The preview and the count together account for every facility. */
  lemma CardCoversFacilities(facilities: seq<string>)
    ensures |FacilityPreview(facilities)| + (if MoreCount(facilities).Some? then MoreCount(facilities).value else 0)
      == |facilities|
  {
  }
}
