/** The dining page's display logic: which meal is highlighted at the current hour,
    which cafeteria record backs each tab, and which scraped menu a tab shows. The
    hour is a parameter (the page reads it from the clock). */
module DailyMenu {
  import opened Optional
  import opened MenuScraper

  // ---------------------------------------------------------------- meal time

  /** `getMealTime`: breakfast before 9 o'clock, lunch before 14 o'clock, dinner after. */
  function MealTime(hour: int): (m: Meal)
    ensures m == Breakfast <==> hour < 9
    ensures m == Lunch <==> 9 <= hour < 14
    ensures m == Dinner <==> 14 <= hour
  {
    if hour < 9 then Breakfast
    else if hour < 14 then Lunch
    else Dinner
  }

  /** The order of the meals in a day. */
  function Rank(m: Meal): (r: nat)
    ensures r < 3
  {
    match m
    case Breakfast => 0
    case Lunch => 1
    case Dinner => 2
  }

  /** As the hour advances the highlighted meal never goes back. */
  lemma MealTimeMonotone(h1: int, h2: int)
    requires h1 <= h2
    ensures Rank(MealTime(h1)) <= Rank(MealTime(h2))
  {
  }

  /** Every meal is highlighted at some hour of the day. */
  lemma EveryMealHasAnHour(m: Meal) returns (hour: int)
    ensures 0 <= hour < 24 && MealTime(hour) == m
  {
    match m
    case Breakfast => hour := 0;
    case Lunch => hour := 9;
    case Dinner => hour := 14;
  }

  // ---------------------------------------------------------------- cafeteria records

  /** A cafeteria of the dining data file; the page uses its id and shows its name. */
  datatype CafeteriaInfo = CafeteriaInfo(id: string, name: string)

  /** The index of the first record with the given id, as `Array.prototype.find` scans. */
  function FindIndex(cafeterias: seq<CafeteriaInfo>, id: string): (r: Option<nat>)
    ensures r.Some? ==> r.value < |cafeterias| && cafeterias[r.value].id == id
    ensures r.Some? ==> forall j :: 0 <= j < r.value ==> cafeterias[j].id != id
    ensures r.None? <==> forall j :: 0 <= j < |cafeterias| ==> cafeterias[j].id != id
  {
    if cafeterias == [] then None
    else if cafeterias[0].id == id then Some(0)
    else match FindIndex(cafeterias[1..], id)
      case None => None
      case Some(k) => Some(k + 1)
  }

  /** `getCafeteriaInfo`: the first record with that id, or none. */
  function GetCafeteriaInfo(cafeterias: seq<CafeteriaInfo>, id: string): (r: Option<CafeteriaInfo>)
    ensures r.Some? ==> r.value in cafeterias && r.value.id == id
    ensures r.None? <==> forall c :: c in cafeterias ==> c.id != id
  {
    match FindIndex(cafeterias, id)
    case None => None
    case Some(k) => Some(cafeterias[k])
  }

  /** When two records share an id, the earlier one is returned. */
  lemma FirstRecordWins(cafeterias: seq<CafeteriaInfo>, k: int)
    requires 0 <= k < |cafeterias|
    requires forall j :: 0 <= j < k ==> cafeterias[j].id != cafeterias[k].id
    ensures GetCafeteriaInfo(cafeterias, cafeterias[k].id) == Some(cafeterias[k])
  {
    var r := FindIndex(cafeterias, cafeterias[k].id);
    assert r.Some?;
  }

  // ---------------------------------------------------------------- tabs

  datatype Tab = North | East | West

  /** The key of a tab in the menu data, which is the scraper's cafeteria key. */
  function MenuKey(tab: Tab): string {
    match tab
    case North => "north"
    case East => "east"
    case West => "west"
  }

  /** `cafeteriaMap`: the dining-data id behind each tab. */
  function CafeteriaId(tab: Tab): string {
    match tab
    case North => "kaimaru"
    case East => "east"
    case West => "west"
  }

  /** `cafeteriaMap[activeTab]`. */
  function ActiveCafeteria(cafeterias: seq<CafeteriaInfo>, tab: Tab): (r: Option<CafeteriaInfo>)
    ensures r.Some? ==> r.value.id == CafeteriaId(tab)
    ensures r.None? <==> forall c :: c in cafeterias ==> c.id != CafeteriaId(tab)
  {
    GetCafeteriaInfo(cafeterias, CafeteriaId(tab))
  }

  /** The menu section of the active tab. It sits inside the tab's details block, so it is
      shown only when the tab's dining record exists, menu data is loaded, and the data has
      an entry under the tab's key. */
  function ShownMenu(cafeterias: seq<CafeteriaInfo>, menuData: Option<map<string, Meals>>, tab: Tab): (r: Option<Meals>)
    ensures r.Some? <==>
      ActiveCafeteria(cafeterias, tab).Some? && menuData.Some? && MenuKey(tab) in menuData.value
    ensures r.Some? ==> r.value == menuData.value[MenuKey(tab)]
  {
    if ActiveCafeteria(cafeterias, tab).None? then None
    else
      match menuData
      case None => None
      case Some(data) => if MenuKey(tab) in data then Some(data[MenuKey(tab)]) else None
  }

  /** The items listed under one section of the shown menu. */
  function SectionItems(cafeterias: seq<CafeteriaInfo>, menuData: Option<map<string, Meals>>, tab: Tab, section: Meal): seq<string> {
    match ShownMenu(cafeterias, menuData, tab)
    case None => []
    case Some(m) => ListOf(m, section)
  }

  /** Scraped tables land under a tab's key exactly when their caption has that tab's
      keyword, with the earlier tab winning: a fallback key never collides with a tab. */
  lemma ScrapedKeyOfTab(name: string, tab: Tab)
    ensures IdentifyCafeteria(name) == MenuKey(tab) <==>
      match tab
      case North => IsNorthName(name)
      case East => !IsNorthName(name) && IsEastName(name)
      case West => !IsNorthName(name) && !IsEastName(name) && IsWestName(name)
  {
    CampusKeyIffKeyword(name);
  }

  /** With the tab's dining record present, a section of the shown menu lists exactly the
      items that the scraper routed to that meal in the last table whose caption names the
      tab's cafeteria; without it nothing is listed. */
  lemma SectionOfScrapedMenu(cafeterias: seq<CafeteriaInfo>, tables: seq<Table>, i: int, tab: Tab, section: Meal)
    requires 0 <= i < |tables| && KeyOf(tables[i]) == MenuKey(tab)
    requires forall j :: i < j < |tables| ==> KeyOf(tables[j]) != MenuKey(tab)
    ensures SectionItems(cafeterias, Some(MealsOfRecords(Recorded(tables))), tab, section) ==
      if ActiveCafeteria(cafeterias, tab).None? then []
      else ItemsFor(RoutesOf(tables[i].rows), section)
  {
    LastTableWins(tables, i);
    FillIsRoutedItems(RoutesOf(tables[i].rows), section);
  }

  /** The display's menu data built from scraped records: each record's three lists. */
  function MealsOfRecords(records: map<string, Cafeteria>): (r: map<string, Meals>)
    ensures r.Keys == records.Keys
    ensures forall k :: k in r ==> r[k] == records[k].meals
  {
    map k | k in records :: records[k].meals
  }
}
