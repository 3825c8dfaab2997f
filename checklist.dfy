/** The newcomer checklist: the lists of completed and expanded item ids, which a
    click toggles, the items shown in priority order, and the colour class of an
    item's category. */
module Checklist {
  import opened Optional
  import opened Sequences

  /** A checklist entry, with the fields the logic reads. */
  datatype ChecklistItem = ChecklistItem(id: string, title: string, category: string, priority: int)

  // ---------------------------------------------------------------- id lists

  /** `ids.filter(id => id !== x)`. */
  function Remove(ids: seq<string>, x: string): (r: seq<string>)
    ensures x !in r
    ensures forall y :: y != x ==> (y in r <==> y in ids)
    ensures |r| <= |ids|
  {
    if ids == [] then []
    else if ids[0] == x then Remove(ids[1..], x)
    else [ids[0]] + Remove(ids[1..], x)
  }

  /** `ids.includes(x) ? ids.filter(id => id !== x) : [...ids, x]`. */
  function Toggle(ids: seq<string>, x: string): (r: seq<string>)
    ensures x in r <==> x !in ids
    ensures forall y :: y != x ==> (y in r <==> y in ids)
  {
    if x in ids then Remove(ids, x) else ids + [x]
  }

  /** No id is listed twice. */
  predicate NoDup(ids: seq<string>) {
    forall i, j :: 0 <= i < j < |ids| ==> ids[i] != ids[j]
  }

  /** Removal works piece by piece: it keeps the other ids in their order. */
  lemma {:induction false} RemoveConcat(a: seq<string>, b: seq<string>, x: string)
    ensures Remove(a + b, x) == Remove(a, x) + Remove(b, x)
    decreases |a|
  {
    if a == [] {
      assert a + b == b;
    } else {
      assert (a + b)[1..] == a[1..] + b;
      RemoveConcat(a[1..], b, x);
    }
  }

  /** Every occurrence of `x` goes and every other id keeps its number of occurrences. */
  lemma {:induction false} RemoveCount(ids: seq<string>, x: string)
    ensures multiset(Remove(ids, x)) == multiset(ids)[x := 0]
    decreases |ids|
  {
    if ids != [] {
      RemoveCount(ids[1..], x);
      assert ids == [ids[0]] + ids[1..];
    }
  }

  /** Removing an absent id changes nothing. */
  lemma {:induction false} RemoveAbsent(ids: seq<string>, x: string)
    requires x !in ids
    ensures Remove(ids, x) == ids
    decreases |ids|
  {
    if ids != [] {
      RemoveAbsent(ids[1..], x);
    }
  }

  lemma {:induction false} RemoveNoDup(ids: seq<string>, x: string)
    requires NoDup(ids)
    ensures NoDup(Remove(ids, x))
    decreases |ids|
  {
    if ids != [] {
      assert NoDup(ids[1..]) by {
        forall i, j | 0 <= i < j < |ids| - 1 ensures ids[1..][i] != ids[1..][j] {
          assert ids[i + 1] != ids[j + 1];
        }
      }
      RemoveNoDup(ids[1..], x);
      assert ids[0] !in ids[1..] by {
        forall k | 0 <= k < |ids| - 1 ensures ids[1..][k] != ids[0] {
          assert ids[0] != ids[k + 1];
        }
      }
    }
  }

  /** Toggling an absent id appends it and leaves the earlier ids as they were. */
  lemma ToggleAbsent(ids: seq<string>, x: string)
    requires x !in ids
    ensures |Toggle(ids, x)| == |ids| + 1
    ensures Toggle(ids, x)[..|ids|] == ids && Toggle(ids, x)[|ids|] == x
  {
  }

  /** Toggling a present id removes all of its occurrences: what remains is `ids` without
      `x`, in order and with every other id as often as before. */
  lemma TogglePresent(ids: seq<string>, x: string)
    requires x in ids
    ensures Toggle(ids, x) == Remove(ids, x)
    ensures multiset(Toggle(ids, x)) == multiset(ids)[x := 0]
  {
    RemoveCount(ids, x);
  }

  /** Toggling keeps a list free of duplicates. */
  lemma ToggleNoDup(ids: seq<string>, x: string)
    requires NoDup(ids)
    ensures NoDup(Toggle(ids, x))
  {
    if x in ids {
      RemoveNoDup(ids, x);
    }
  }

  /** Toggling an absent id twice gives back the list. */
  lemma ToggleTwice(ids: seq<string>, x: string)
    requires x !in ids
    ensures Toggle(Toggle(ids, x), x) == ids
  {
    RemoveConcat(ids, [x], x);
    RemoveAbsent(ids, x);
  }

  /** Toggling a present id twice moves it to the end. */
  lemma ToggleTwicePresent(ids: seq<string>, x: string)
    requires x in ids
    ensures Toggle(Toggle(ids, x), x) == Remove(ids, x) + [x]
  {
  }

  // ---------------------------------------------------------------- the progress state

  /** The two pieces of state of the checklist page. */
  class ChecklistProgress {
    var completedItems: seq<string>
    var expandedItems: seq<string>

    /** Both lists start empty. */
    constructor ()
      ensures completedItems == [] && expandedItems == []
    {
      completedItems := [];
      expandedItems := [];
    }

    /** Neither list holds an id twice. */
    predicate Valid()
      reads this
    {
      NoDup(completedItems) && NoDup(expandedItems)
    }

    function IsCompleted(itemId: string): bool
      reads this
    {
      itemId in completedItems
    }

    function IsExpanded(itemId: string): bool
      reads this
    {
      itemId in expandedItems
    }

    /** `toggleComplete`: the completed list is replaced by its toggle; the item flips
        and no other item changes. */
    method ToggleComplete(itemId: string)
      modifies this
      ensures completedItems == Toggle(old(completedItems), itemId)
      ensures expandedItems == old(expandedItems)
      ensures IsCompleted(itemId) <==> !old(IsCompleted(itemId))
      ensures forall other :: other != itemId ==> (IsCompleted(other) <==> old(IsCompleted(other)))
      ensures old(Valid()) ==> Valid()
    {
      var newCompleted := if itemId in completedItems then Remove(completedItems, itemId)
                          else completedItems + [itemId];
      if NoDup(completedItems) {
        ToggleNoDup(completedItems, itemId);
      }
      completedItems := newCompleted;
    }

    /** `toggleExpand`: the same rule on the expanded list; the completed list stays. */
    method ToggleExpand(itemId: string)
      modifies this
      ensures expandedItems == Toggle(old(expandedItems), itemId)
      ensures completedItems == old(completedItems)
      ensures IsExpanded(itemId) <==> !old(IsExpanded(itemId))
      ensures forall other :: other != itemId ==> (IsExpanded(other) <==> old(IsExpanded(other)))
      ensures old(Valid()) ==> Valid()
    {
      var prev := expandedItems;
      if NoDup(prev) {
        ToggleNoDup(prev, itemId);
      }
      expandedItems := if itemId in prev then Remove(prev, itemId) else prev + [itemId];
    }

    /** The reset button, once confirmed: nothing is completed any more. */
    method Reset()
      modifies this
      ensures completedItems == []
      ensures expandedItems == old(expandedItems)
      ensures forall id :: !IsCompleted(id)
      ensures old(Valid()) ==> Valid()
    {
      completedItems := [];
    }
  }

  // ---------------------------------------------------------------- priority order

  predicate SortedByPriority(items: seq<ChecklistItem>) {
    forall i, j :: 0 <= i < j < |items| ==> items[i].priority <= items[j].priority
  }

  /** Puts `x` in front of the first item of no smaller priority. */
  function InsertByPriority(x: ChecklistItem, sorted: seq<ChecklistItem>): (r: seq<ChecklistItem>)
    ensures multiset(r) == multiset(sorted) + multiset{x}
  {
    if sorted == [] || x.priority <= sorted[0].priority then [x] + sorted
    else
      assert sorted == [sorted[0]] + sorted[1..];
      [sorted[0]] + InsertByPriority(x, sorted[1..])
  }

  /** Every item of the insertion is `x` or an item of `sorted`. */
  lemma InsertMembers(x: ChecklistItem, sorted: seq<ChecklistItem>, k: int)
    requires 0 <= k < |InsertByPriority(x, sorted)|
    ensures InsertByPriority(x, sorted)[k] == x || InsertByPriority(x, sorted)[k] in sorted
  {
    var r := InsertByPriority(x, sorted);
    assert r[k] in multiset(r);
  }

  lemma {:induction false} InsertSorted(x: ChecklistItem, sorted: seq<ChecklistItem>)
    requires SortedByPriority(sorted)
    ensures SortedByPriority(InsertByPriority(x, sorted))
    decreases |sorted|
  {
    if sorted != [] && x.priority > sorted[0].priority {
      var rest := InsertByPriority(x, sorted[1..]);
      InsertSorted(x, sorted[1..]);
      forall k | 0 <= k < |rest| ensures sorted[0].priority <= rest[k].priority {
        InsertMembers(x, sorted[1..], k);
      }
    }
  }

  /** `[...items].sort((a, b) => a.priority - b.priority)`: a stable sort by priority
      of a copy. */
  function SortByPriority(items: seq<ChecklistItem>): (r: seq<ChecklistItem>)
    ensures SortedByPriority(r)
    ensures multiset(r) == multiset(items)
  {
    if items == [] then []
    else
      assert items == [items[0]] + items[1..];
      InsertSorted(items[0], SortByPriority(items[1..]));
      InsertByPriority(items[0], SortByPriority(items[1..]))
  }

  /** The items of one priority, in their order. */
  function WithPriority(items: seq<ChecklistItem>, p: int): seq<ChecklistItem> {
    if items == [] then []
    else (if items[0].priority == p then [items[0]] else []) + WithPriority(items[1..], p)
  }

  /** The items of a priority in `[y] + s`: `y` if it has that priority, then those of `s`. */
  lemma WithPriorityCons(y: ChecklistItem, s: seq<ChecklistItem>, p: int)
    ensures WithPriority([y] + s, p) == (if y.priority == p then [y] else []) + WithPriority(s, p)
  {
    assert ([y] + s)[1..] == s;
  }

  lemma SortedTail(sorted: seq<ChecklistItem>)
    requires sorted != [] && SortedByPriority(sorted)
    ensures SortedByPriority(sorted[1..])
  {
    forall i, j | 0 <= i < j < |sorted| - 1 ensures sorted[1..][i].priority <= sorted[1..][j].priority {
      assert sorted[1..][i] == sorted[i + 1] && sorted[1..][j] == sorted[j + 1];
    }
  }

  lemma {:induction false} WithPriorityInsert(x: ChecklistItem, sorted: seq<ChecklistItem>, p: int)
    requires SortedByPriority(sorted)
    ensures WithPriority(InsertByPriority(x, sorted), p)
      == (if x.priority == p then [x] else []) + WithPriority(sorted, p)
    decreases |sorted|
  {
    var mid := if x.priority == p then [x] else [];
    if sorted != [] && x.priority > sorted[0].priority {
      var rest := InsertByPriority(x, sorted[1..]);
      var head := if sorted[0].priority == p then [sorted[0]] else [];
      SortedTail(sorted);
      WithPriorityInsert(x, sorted[1..], p);
      HeadTail(sorted);
      WithPriorityCons(sorted[0], sorted[1..], p);
      WithPriorityCons(sorted[0], rest, p);
      ConcatAssoc(head, mid, WithPriority(sorted[1..], p));
      ConcatAssoc(mid, head, WithPriority(sorted[1..], p));
      if x.priority == p {
        assert head == [];
      } else {
        assert mid == [];
      }
    } else {
      WithPriorityCons(x, sorted, p);
    }
  }

  /** The sort is stable: items of equal priority keep their relative order. */
  lemma {:induction false} SortIsStable(items: seq<ChecklistItem>, p: int)
    ensures WithPriority(SortByPriority(items), p) == WithPriority(items, p)
    decreases |items|
  {
    if items != [] {
      SortIsStable(items[1..], p);
      WithPriorityInsert(items[0], SortByPriority(items[1..]), p);
    }
  }

  // ---------------------------------------------------------------- category colours

  const DefaultColor := "bg-gray-100 text-gray-800"

  /** The object literal of `getCategoryColor`. */
  const CategoryColors: map<string, string> := map[
    "account" := "bg-blue-100 text-blue-800",
    "health" := "bg-green-100 text-green-800",
    "legal" := "bg-red-100 text-red-800",
    "finance" := "bg-yellow-100 text-yellow-800",
    "campus" := "bg-purple-100 text-purple-800",
    "technology" := "bg-indigo-100 text-indigo-800",
    "housing" := "bg-pink-100 text-pink-800",
    "academic" := "bg-orange-100 text-orange-800",
    "orientation" := "bg-teal-100 text-teal-800"]

  /** `getCategoryColor` as intended: the listed class of a known category, the gray
      default for every other string. */
  function CategoryColor(category: string): (c: string)
    ensures category in CategoryColors ==> c == CategoryColors[category]
    ensures category !in CategoryColors ==> c == DefaultColor
    ensures c == DefaultColor || c in CategoryColors.Values
  {
    if category in CategoryColors then CategoryColors[category] else DefaultColor
  }

  /** Exactly the unknown categories get the gray default. */
  lemma DefaultIffUnknown(category: string)
    ensures CategoryColor(category) == DefaultColor <==> category !in CategoryColors
  {
    assert DefaultColor !in CategoryColors.Values;
  }

  // ---------------------------------------------------------------- the lookup as written

  /** What `colors[category]` evaluates to in JavaScript: a string for an own property of
      the literal, a member of `Object.prototype` (a function or, for `__proto__`, an
      object, both truthy) for an inherited name, and `undefined` otherwise. */
  datatype JsValue = Undefined | Text(text: string) | InheritedMember(name: string)

  /** The names every plain object literal inherits from `Object.prototype`. */
  const ObjectPrototypeMembers: set<string> := {
    "constructor", "hasOwnProperty", "isPrototypeOf", "propertyIsEnumerable",
    "toLocaleString", "toString", "valueOf", "__proto__",
    "__defineGetter__", "__defineSetter__", "__lookupGetter__", "__lookupSetter__"}

  function ColorsLookup(category: string): JsValue {
    if category in CategoryColors then Text(CategoryColors[category])
    else if category in ObjectPrototypeMembers then InheritedMember(category)
    else Undefined
  }

  predicate Truthy(v: JsValue) {
    match v
    case Undefined => false
    case Text(s) => s != ""
    case InheritedMember(_) => true
  }

  /** `colors[category] || 'bg-gray-100 text-gray-800'`, on the lookup as JavaScript
      performs it. */
  function CategoryColorAsWritten(category: string): (v: JsValue)
    ensures category !in ObjectPrototypeMembers ==> v == Text(CategoryColor(category))
  {
    var found := ColorsLookup(category);
    if Truthy(found) then found else Text(DefaultColor)
  }

  /** The category "constructor" gets the `Object` function instead of a class string. */
  lemma ConstructorLeaks()
    ensures CategoryColorAsWritten("constructor") == InheritedMember("constructor")
    ensures !CategoryColorAsWritten("constructor").Text?
  {
    assert "constructor" !in CategoryColors;
  }
}
