/** The table branch of the dining-menu scraper: each menu table becomes a cafeteria
    record with three meal lists, stored under a standardised cafeteria key. A table is
    given as its caption text, if it has a caption, and the texts of the cells of each
    row (what `get_text(strip=True)` returns). */
module MenuScraper {
  import opened Optional
  import opened Strings
  import opened Sequences

  datatype Meal = Breakfast | Lunch | Dinner

  // ---------------------------------------------------------------- cafeteria keys

  predicate IsNorthName(name: string) {
    Contains(Lower(name), "north") || Contains(Lower(name), "kaimaru") || Contains(Lower(name), "n11")
    || Contains(name, "북")
  }

  predicate IsEastName(name: string) {
    Contains(Lower(name), "east") || Contains(Lower(name), "e5") || Contains(name, "동")
  }

  predicate IsWestName(name: string) {
    Contains(Lower(name), "west") || Contains(Lower(name), "w2") || Contains(name, "서")
  }

  /** `identify_cafeteria`: the first of north, east and west whose keywords occur in the
      name, and otherwise the lower-cased name with its spaces turned into underscores. */
  function IdentifyCafeteria(name: string): (key: string)
    ensures IsNorthName(name) ==> key == "north"
    ensures !IsNorthName(name) && IsEastName(name) ==> key == "east"
    ensures !IsNorthName(name) && !IsEastName(name) && IsWestName(name) ==> key == "west"
    ensures !IsNorthName(name) && !IsEastName(name) && !IsWestName(name) ==>
      key == ReplaceChar(Lower(name), ' ', '_')
    ensures ' ' !in key
  {
    if IsNorthName(name) then "north"
    else if IsEastName(name) then "east"
    else if IsWestName(name) then "west"
    else ReplaceChar(Lower(name), ' ', '_')
  }

  /** The key is one of the three campus cafeterias exactly when some keyword occurs:
      a fallback key never imitates one. */
  lemma CampusKeyIffKeyword(name: string)
    ensures IdentifyCafeteria(name) in {"north", "east", "west"} <==>
      IsNorthName(name) || IsEastName(name) || IsWestName(name)
  {
    if !IsNorthName(name) && !IsEastName(name) && !IsWestName(name) {
      var lower := Lower(name);
      var key := ReplaceChar(lower, ' ', '_');
      if key in {"north", "east", "west"} {
        ContainsSelf(lower);
      }
    }
  }

  // ---------------------------------------------------------------- menu items

  /** `[x for x in xs if x]`. */
  function DropEmpty(xs: seq<string>): seq<string> {
    if xs == [] then []
    else (if xs[0] != "" then [xs[0]] else []) + DropEmpty(xs[1..])
  }

  lemma {:induction false} DropConcat(a: seq<string>, b: seq<string>)
    ensures DropEmpty(a + b) == DropEmpty(a) + DropEmpty(b)
    decreases |a|
  {
    if a == [] {
      assert a + b == b;
    } else {
      assert (a + b)[0] == a[0];
      assert (a + b)[1..] == a[1..] + b;
      DropConcat(a[1..], b);
    }
  }

  /** Every kept string is a non-empty element of the input. */
  lemma {:induction false} DropMember(xs: seq<string>, item: string) returns (j: int)
    requires item in DropEmpty(xs)
    ensures 0 <= j < |xs| && xs[j] == item && item != ""
    decreases |xs|
  {
    if xs[0] != "" && item == xs[0] {
      j := 0;
    } else {
      assert item in DropEmpty(xs[1..]);
      j := DropMember(xs[1..], item);
      j := j + 1;
    }
  }

  /** `[item.strip() for item in pieces if item.strip()]`. */
  function StripNonEmpty(pieces: seq<string>): seq<string> {
    DropEmpty(MapAll(Trim, pieces))
  }

  lemma StripConcat(a: seq<string>, b: seq<string>)
    ensures StripNonEmpty(a + b) == StripNonEmpty(a) + StripNonEmpty(b)
  {
    MapConcat(Trim, a, b);
    DropConcat(MapAll(Trim, a), MapAll(Trim, b));
  }

  /** The items of a menu cell: its text with '/' read as ',', split on ',', each piece
      stripped and the empty ones dropped. */
  function SplitItems(text: string): seq<string> {
    StripNonEmpty(Split(ReplaceChar(text, '/', ','), ','))
  }

  /** Every item is non-empty, already stripped, and holds neither delimiter. */
  lemma ItemsAreClean(text: string)
    ensures forall item :: item in SplitItems(text) ==>
      item != "" && Trim(item) == item && ',' !in item && '/' !in item
  {
    forall item | item in SplitItems(text)
      ensures item != "" && Trim(item) == item && ',' !in item && '/' !in item
    {
      ItemIsClean(text, item);
    }
  }

  lemma ItemIsClean(text: string, item: string)
    requires item in SplitItems(text)
    ensures item != "" && Trim(item) == item && ',' !in item && '/' !in item
  {
    var replaced := ReplaceChar(text, '/', ',');
    var pieces := Split(replaced, ',');
    var j := DropMember(MapAll(Trim, pieces), item);
    NoSlashLeft(text);
    PieceIsClean(replaced, j);
    StrippedIsClean(pieces[j], item);
  }

  /** A piece of the replaced text holds neither delimiter. */
  lemma PieceIsClean(replaced: string, j: int)
    requires '/' !in replaced
    requires 0 <= j < |Split(replaced, ',')|
    ensures ',' !in Split(replaced, ',')[j] && '/' !in Split(replaced, ',')[j]
  {
    SplitPieces(replaced, ',');
  }

  lemma NoSlashLeft(text: string)
    ensures '/' !in ReplaceChar(text, '/', ',')
  {
  }

  lemma StrippedIsClean(piece: string, item: string)
    requires item == Trim(piece) && ',' !in piece && '/' !in piece
    ensures Trim(item) == item && ',' !in item && '/' !in item
  {
    TrimIdempotent(piece);
    if ',' in item {
      TrimChars(piece, ',');
    }
    if '/' in item {
      TrimChars(piece, '/');
    }
  }

  /** Items keep their order: the items of two texts joined by a ',' are the items of the
      first followed by those of the second. */
  lemma ItemsOfComma(a: string, b: string)
    ensures SplitItems(a + [','] + b) == SplitItems(a) + SplitItems(b)
  {
    var ra := ReplaceChar(a, '/', ',');
    var rb := ReplaceChar(b, '/', ',');
    CommaReplaced(a, b);
    SplitAround(ra, rb, ',');
    StripConcat(Split(ra, ','), Split(rb, ','));
  }

  lemma CommaReplaced(a: string, b: string)
    ensures ReplaceChar(a + [','] + b, '/', ',') == ReplaceChar(a, '/', ',') + [','] + ReplaceChar(b, '/', ',')
  {
    ReplaceCharConcat(a + [','], b, '/', ',');
    ReplaceCharConcat(a, [','], '/', ',');
  }

  /** A '/' separates items exactly as a ',' does. */
  lemma ItemsOfSlash(a: string, b: string)
    ensures SplitItems(a + ['/'] + b) == SplitItems(a) + SplitItems(b)
  {
    ReplaceCharConcat(a + ['/'], b, '/', ',');
    ReplaceCharConcat(a, ['/'], '/', ',');
    assert ReplaceChar(a + ['/'] + b, '/', ',') == ReplaceChar(a + [','] + b, '/', ',') by {
      ReplaceCharConcat(a + [','], b, '/', ',');
      ReplaceCharConcat(a, [','], '/', ',');
    }
    ItemsOfComma(a, b);
  }

  /** A text with no delimiter is one item, stripped, unless it is blank, in which case
      there is none. */
  lemma SplitItemsSingle(text: string)
    requires ',' !in text && '/' !in text
    ensures SplitItems(text) == if IsBlank(text) then [] else [Trim(text)]
  {
    assert ReplaceChar(text, '/', ',') == text;
    SplitNoDelimiter(text, ',');
    assert MapAll(Trim, [text]) == [Trim(text)];
    TrimEmptyIffBlank(text);
    assert DropEmpty([Trim(text)]) == (if Trim(text) != "" then [Trim(text)] else []) + DropEmpty([]);
  }

  // ---------------------------------------------------------------- row routing

  /** The meal a row's first cell names, by the first of breakfast/조식, lunch/중식 and
      dinner/석식 found in it after lower-casing. */
  function MealOf(firstCell: string): Option<Meal> {
    var mealType := Lower(firstCell);
    if Contains(mealType, "breakfast") || Contains(mealType, "조식") then Some(Breakfast)
    else if Contains(mealType, "lunch") || Contains(mealType, "중식") then Some(Lunch)
    else if Contains(mealType, "dinner") || Contains(mealType, "석식") then Some(Dinner)
    else None
  }

  predicate NamesBreakfast(mealType: string) {
    Contains(mealType, "breakfast") || Contains(mealType, "조식")
  }

  predicate NamesLunch(mealType: string) {
    Contains(mealType, "lunch") || Contains(mealType, "중식")
  }

  predicate NamesDinner(mealType: string) {
    Contains(mealType, "dinner") || Contains(mealType, "석식")
  }

  /** Breakfast is tested first, then lunch, then dinner: a cell naming several meals
      goes to the first of them. */
  lemma MealPrecedence(firstCell: string)
    ensures MealOf(firstCell) == Some(Breakfast) <==> NamesBreakfast(Lower(firstCell))
    ensures MealOf(firstCell) == Some(Lunch) <==> !NamesBreakfast(Lower(firstCell)) && NamesLunch(Lower(firstCell))
    ensures MealOf(firstCell) == Some(Dinner) <==>
      !NamesBreakfast(Lower(firstCell)) && !NamesLunch(Lower(firstCell)) && NamesDinner(Lower(firstCell))
    ensures MealOf(firstCell) == None <==>
      !NamesBreakfast(Lower(firstCell)) && !NamesLunch(Lower(firstCell)) && !NamesDinner(Lower(firstCell))
  {
  }

  /** What the row loop does with one row: nothing for a row of fewer than two cells
      or a first cell naming no meal, and otherwise extend the list of that meal with
      the items of the second cell. */
  datatype Route = Skip | Extend(meal: Meal, items: seq<string>)

  function RouteOf(row: seq<string>): Route {
    if |row| < 2 then Skip
    else match MealOf(row[0])
      case None => Skip
      case Some(meal) => Extend(meal, SplitItems(row[1]))
  }

  function RoutesOf(rows: seq<seq<string>>): seq<Route> {
    MapAll(RouteOf, rows)
  }

  /** The three lists of a cafeteria record. */
  datatype Meals = Meals(breakfast: seq<string>, lunch: seq<string>, dinner: seq<string>)

  function ListOf(m: Meals, meal: Meal): seq<string> {
    match meal
    case Breakfast => m.breakfast
    case Lunch => m.lunch
    case Dinner => m.dinner
  }

  /** The items a route adds to the list of `meal`. */
  function RoutedItems(r: Route, meal: Meal): seq<string> {
    if r.Extend? && r.meal == meal then r.items else []
  }

  /** One step of the row loop: `extend` of the chosen list. */
  function AddRoute(m: Meals, r: Route): (res: Meals)
    ensures forall meal :: ListOf(res, meal) == ListOf(m, meal) + RoutedItems(r, meal)
  {
    match r
    case Skip => m
    case Extend(Breakfast, items) => m.(breakfast := m.breakfast + items)
    case Extend(Lunch, items) => m.(lunch := m.lunch + items)
    case Extend(Dinner, items) => m.(dinner := m.dinner + items)
  }

  /** The lists after the loop has taken `routes`, one row at a time. */
  function Fill(routes: seq<Route>): Meals {
    if routes == [] then Meals([], [], [])
    else AddRoute(Fill(routes[..|routes| - 1]), routes[|routes| - 1])
  }

  function MealsOf(rows: seq<seq<string>>): Meals {
    Fill(RoutesOf(rows))
  }

  /** The items routed to `meal`, in row order. */
  function ItemsFor(routes: seq<Route>, meal: Meal): seq<string> {
    if routes == [] then []
    else RoutedItems(routes[0], meal) + ItemsFor(routes[1..], meal)
  }

  lemma {:induction false} ItemsForSnoc(routes: seq<Route>, meal: Meal)
    requires routes != []
    ensures ItemsFor(routes, meal) ==
      ItemsFor(routes[..|routes| - 1], meal) + RoutedItems(routes[|routes| - 1], meal)
    decreases |routes|
  {
    if |routes| > 1 {
      var tail := routes[1..];
      ItemsForSnoc(tail, meal);
      assert tail[..|tail| - 1] == routes[..|routes| - 1][1..];
      assert tail[|tail| - 1] == routes[|routes| - 1];
    }
  }

  /** Each list is the in-order concatenation of the items of the rows routed to it. */
  lemma {:induction false} FillIsRoutedItems(routes: seq<Route>, meal: Meal)
    ensures ListOf(Fill(routes), meal) == ItemsFor(routes, meal)
    decreases |routes|
  {
    if routes != [] {
      FillIsRoutedItems(routes[..|routes| - 1], meal);
      ItemsForSnoc(routes, meal);
    }
  }

  /** A row extends the list of its own meal and leaves the other two alone. */
  lemma RowGoesToOneList(m: Meals, row: seq<string>, meal: Meal, other: Meal)
    requires |row| >= 2 && MealOf(row[0]) == Some(meal) && other != meal
    ensures ListOf(AddRoute(m, RouteOf(row)), other) == ListOf(m, other)
    ensures ListOf(AddRoute(m, RouteOf(row)), meal) == ListOf(m, meal) + SplitItems(row[1])
  {
    assert RouteOf(row) == Extend(meal, SplitItems(row[1]));
    assert ListOf(m, other) + [] == ListOf(m, other);
  }

  /** A short row, or one whose first cell names no meal, changes nothing. */
  lemma SkippedRow(m: Meals, row: seq<string>)
    requires |row| < 2 || MealOf(row[0]) == None
    ensures AddRoute(m, RouteOf(row)) == m
  {
  }

  // ---------------------------------------------------------------- tables

  datatype Table = Table(caption: Option<string>, rows: seq<seq<string>>)

  /** A stored cafeteria record. */
  datatype Cafeteria = Cafeteria(name: string, meals: Meals)

  /** `cafeteria_name`: the caption text, or "Unknown" when the table has no caption. */
  function NameOf(t: Table): string {
    match t.caption
    case Some(text) => text
    case None => "Unknown"
  }

  function CafeteriaOf(t: Table): Cafeteria {
    Cafeteria(NameOf(t), MealsOf(t.rows))
  }

  /** The body of the table loop: three empty lists, then the row loop. */
  method ParseTable(t: Table) returns (c: Cafeteria)
    ensures c == CafeteriaOf(t)
    ensures forall meal :: ListOf(c.meals, meal) == ItemsFor(RoutesOf(t.rows), meal)
  {
    var name := "Unknown";
    if t.caption.Some? {
      name := t.caption.value;
    }
    var breakfast: seq<string> := [];
    var lunch: seq<string> := [];
    var dinner: seq<string> := [];
    var rows := t.rows;
    var i := 0;
    while i < |rows|
      invariant 0 <= i <= |rows|
      invariant Meals(breakfast, lunch, dinner) == Fill(RoutesOf(rows[..i]))
    {
      var cells := rows[i];
      ghost var before := Meals(breakfast, lunch, dinner);
      if |cells| >= 2 {
        var items := SplitItems(cells[1]);
        var meal := MealOf(cells[0]);
        if meal == Some(Breakfast) {
          breakfast := breakfast + items;
        } else if meal == Some(Lunch) {
          lunch := lunch + items;
        } else if meal == Some(Dinner) {
          dinner := dinner + items;
        }
      }
      RouteCases(before, cells);
      MapPrefixStep(RouteOf, rows, i);
      i := i + 1;
    }
    assert rows[..i] == rows;
    c := Cafeteria(name, Meals(breakfast, lunch, dinner));
    forall meal {
      FillIsRoutedItems(RoutesOf(rows), meal);
    }
  }

  /** The effect of one row, case by case as the loop body tests it. */
  lemma RouteCases(m: Meals, row: seq<string>)
    ensures |row| < 2 ==> AddRoute(m, RouteOf(row)) == m
    ensures |row| >= 2 && MealOf(row[0]) == None ==> AddRoute(m, RouteOf(row)) == m
    ensures |row| >= 2 && MealOf(row[0]) == Some(Breakfast) ==>
      AddRoute(m, RouteOf(row)) == m.(breakfast := m.breakfast + SplitItems(row[1]))
    ensures |row| >= 2 && MealOf(row[0]) == Some(Lunch) ==>
      AddRoute(m, RouteOf(row)) == m.(lunch := m.lunch + SplitItems(row[1]))
    ensures |row| >= 2 && MealOf(row[0]) == Some(Dinner) ==>
      AddRoute(m, RouteOf(row)) == m.(dinner := m.dinner + SplitItems(row[1]))
  {
  }

  function KeyOf(t: Table): string {
    IdentifyCafeteria(NameOf(t))
  }

  /** The key a table is stored under and the record stored. */
  datatype Entry = Entry(key: string, cafeteria: Cafeteria)

  function EntryOf(t: Table): Entry {
    Entry(KeyOf(t), CafeteriaOf(t))
  }

  /** The map after assigning `entries` one after the other. */
  function Assign(entries: seq<Entry>): map<string, Cafeteria> {
    if entries == [] then map[]
    else Assign(entries[..|entries| - 1])[entries[|entries| - 1].key := entries[|entries| - 1].cafeteria]
  }

  /** `menu_data['cafeterias']` after the loop has seen `tables`. */
  function Recorded(tables: seq<Table>): map<string, Cafeteria> {
    Assign(MapAll(EntryOf, tables))
  }

  /** The loop over the tables, assigning each record under its key. */
  method ScrapeTables(tables: seq<Table>) returns (cafeterias: map<string, Cafeteria>)
    ensures cafeterias == Recorded(tables)
  {
    cafeterias := map[];
    var i := 0;
    while i < |tables|
      invariant 0 <= i <= |tables|
      invariant cafeterias == Recorded(tables[..i])
    {
      var current := ParseTable(tables[i]);
      var cafeteriaKey := IdentifyCafeteria(current.name);
      cafeterias := cafeterias[cafeteriaKey := current];
      MapPrefixStep(EntryOf, tables, i);
      i := i + 1;
    }
    assert tables[..i] == tables;
  }

  lemma {:induction false} AssignKeys(entries: seq<Entry>, key: string)
    ensures key in Assign(entries) <==> exists i :: 0 <= i < |entries| && entries[i].key == key
    decreases |entries|
  {
    if entries != [] {
      var init := entries[..|entries| - 1];
      AssignKeys(init, key);
      if exists i :: 0 <= i < |init| && init[i].key == key {
        var i :| 0 <= i < |init| && init[i].key == key;
        assert entries[i] == init[i];
      }
      if exists i :: 0 <= i < |entries| && entries[i].key == key {
        var i :| 0 <= i < |entries| && entries[i].key == key;
        if i < |init| {
          assert init[i] == entries[i];
        }
      }
    }
  }

  lemma {:induction false} AssignLastWins(entries: seq<Entry>, i: int)
    requires 0 <= i < |entries|
    requires forall j :: i < j < |entries| ==> entries[j].key != entries[i].key
    ensures entries[i].key in Assign(entries)
    ensures Assign(entries)[entries[i].key] == entries[i].cafeteria
    decreases |entries|
  {
    if i < |entries| - 1 {
      var init := entries[..|entries| - 1];
      assert init[i] == entries[i];
      forall j | i < j < |init| ensures init[j].key != init[i].key {
        assert init[j] == entries[j];
      }
      AssignLastWins(init, i);
    }
  }

  /** A key is recorded exactly when some table has it. */
  lemma RecordedKeys(tables: seq<Table>, key: string)
    ensures key in Recorded(tables) <==> exists i :: 0 <= i < |tables| && KeyOf(tables[i]) == key
  {
    var entries := MapAll(EntryOf, tables);
    AssignKeys(entries, key);
    assert forall i :: 0 <= i < |tables| ==> entries[i].key == KeyOf(tables[i]);
  }

  /** A later table with the same key overwrites the earlier ones: the record under a key
      is that of the last table having it. */
  lemma LastTableWins(tables: seq<Table>, i: int)
    requires 0 <= i < |tables|
    requires forall j :: i < j < |tables| ==> KeyOf(tables[j]) != KeyOf(tables[i])
    ensures KeyOf(tables[i]) in Recorded(tables)
    ensures Recorded(tables)[KeyOf(tables[i])] == CafeteriaOf(tables[i])
  {
    var entries := MapAll(EntryOf, tables);
    assert forall j :: 0 <= j < |tables| ==> entries[j] == EntryOf(tables[j]);
    AssignLastWins(entries, i);
  }

  /** What `scrape_kaist_menu` returns from the tables it found. */
  datatype ScrapeResult = Scraped(cafeterias: map<string, Cafeteria>) | MockData

  /** With no table no cafeteria is recorded and the mock data is returned instead. */
  function Scrape(tables: seq<Table>): ScrapeResult {
    var cafeterias := Recorded(tables);
    if cafeterias == map[] then MockData else Scraped(cafeterias)
  }

  /** The mock data comes back exactly when no table was found. */
  lemma MockIffNoTables(tables: seq<Table>)
    ensures Scrape(tables) == MockData <==> tables == []
  {
    if tables != [] {
      var last := |tables| - 1;
      RecordedKeys(tables, KeyOf(tables[last]));
    }
  }
}
