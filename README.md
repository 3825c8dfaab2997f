# KAIST campus guide: verified model of its core logic

This project models the decision logic of a campus web application for newcomers to
KAIST, and proves properties of that model. It covers five parts.

- **The live shuttle tracker** (`shuttle.dfy`, `kaist.dfy`, `time_of_day.dfy`):
  - It takes the day of the week and the minutes since midnight, and computes one
    card per route in a fixed order: OLEV, Main-Munji-Hwaam, Wolpyeong.
  - OLEV runs every 15 minutes inside two weekday service windows. The next
    departure is the first 15-minute slot of the first window that holds the
    current time, provided that slot is still inside the window.
  - Munji runs daily from a fixed list of times. Wolpyeong runs on weekdays from a
    fixed list of timed, directed trips.
  - `CalculateNextShuttles` takes the timetable as a parameter. The tracker always
    passes the hard-coded one, `Shuttle.Kaist`. The clock reading is two more
    parameters: `dayOfWeek` is `getDay()` and `now` is `getHours() * 60 + getMinutes()`.
  - Times are "HH:MM" strings, parsed with `split(':').map(Number)` on every
    computation, exactly as the tracker does.
- **The newcomer checklist** (`checklist.dfy`):
  - The component keeps two lists of item ids, completed and expanded. A click
    toggles an id in one of them, and "Reset Progress" empties the completed list.
  - Items are shown in ascending priority by a stable sort.
  - Each category maps to a colour class.
- **The campus map's building finder** (`campus_map.dfy`):
  - the case-insensitive search over names, codes, categories, facilities and
    keywords;
  - the list chosen by the search or by a category button;
  - the page state that the search box, the category buttons and a card click update;
  - the result banner;
  - the three-facility preview on each card.
- **The dining-menu scraper** (`menu_scraper.dfy`):
  - Each menu table becomes a cafeteria record with breakfast, lunch and dinner lists.
  - A row goes to the list that its first cell names. Its second cell is split on
    `/` and `,` into stripped, non-empty items.
  - The record is stored under the key that `identify_cafeteria` derives from the
    table's caption.
  - With no table, the scraper returns its mock data.
- **The daily menu display** (`daily_menu.dfy`): the meal highlighted at the current
  hour, the dining record behind each tab, and the menu section a tab shows.

`strings.dfy` holds ASCII models of the string operations the code uses:
`toLowerCase`/`lower`, `trim`/`strip`, `includes`/`in`, `replace` of one character, and
`split` on one character. `sequences.dfy` holds generic sequence facts, and
`optional.dfy` holds the option type.

Every "Last bus departed", "Not Operating" and "Weekdays Only" text, and every
colour class, is the code's own string.

## Model

| member | source | states |
|---|---|---|
| Shuttle.CalculateNextShuttles | components/transport/ShuttleTracker.tsx:32-182 | The returned list is `Departures`: the OLEV, Munji and Wolpyeong entries in that order. The properties of `Departures` are the ShuttleProperties lemmas. |
| Shuttle.NextOlev | components/transport/ShuttleTracker.tsx:41-94 | Starting from the empty `times` list, the OLEV block leaves exactly one entry, `OlevEntry`. It is "Weekdays Only" off weekdays, the interval departure inside a window, and "Not Operating" otherwise. |
| Shuttle.ScanOlevWindows | components/transport/ShuttleTracker.tsx:48-75 | The window loop pushes a card exactly when `IntervalNext` finds a slot. That card carries the slot as "HH:MM" and the minutes until it. The loop stops at the first window holding `now`. |
| Shuttle.NextMunji | components/transport/ShuttleTracker.tsx:96-127 | The Munji loop and its fallback give `MunjiEntry`: the first listed time strictly after `now`, or "Last bus departed". |
| Shuttle.NextWolpyeong | components/transport/ShuttleTracker.tsx:129-179 | The Wolpyeong block gives `WolpyeongEntry`. It is the first trip strictly after `now`, named by its direction, or "Last bus departed"; off weekdays it is "Weekdays Only". |
| Shuttle.CeilDiv | components/transport/ShuttleTracker.tsx:57 | `Math.ceil(a / b)` is the least multiple count reaching `a`: `q * b >= a` and `q * b < a + b`. |
| Shuttle.Slot | components/transport/ShuttleTracker.tsx:56-58 | The computed departure lies in `[now, now + 15)`, is a whole number of 15-minute steps after the window start, and is `now` itself when `now` is the start. |
| Shuttle.SlotIn | components/transport/ShuttleTracker.tsx:54-60 | A window offers a departure only if it does not pass the window's end. |
| Shuttle.IntervalNext | components/transport/ShuttleTracker.tsx:48-75 | Any departure the window scan finds is less than 15 minutes away and not in the past. |
| Shuttle.IntervalNextRule | components/transport/ShuttleTracker.tsx:48-75 | The scan finds nothing when no window holds `now`. Otherwise it finds exactly what the first window holding `now` offers, even when that is nothing, because of the `break`. |
| Shuttle.IntervalNextAt | components/transport/ShuttleTracker.tsx:73 | Given the index of the first window holding `now`, the scan's result is that window's slot. |
| Shuttle.FirstAfter | components/transport/ShuttleTracker.tsx:100-115 | The index found is the first time strictly after `now`, and none is found only when no time is after `now`. |
| Shuttle.TripTimes | components/transport/ShuttleTracker.tsx:143-144 | The time strings of the trips, in order and one per trip. |
| Shuttle.SlotOfWindow | components/transport/ShuttleTracker.tsx:49-60 | For a window whose bounds parse, with `now` inside it, `SlotIn` is the start plus the rounded-up interval count times 15, provided that value is within the end. |
| Shuttle.OlevPushedRoute | components/transport/ShuttleTracker.tsx:77 | `times.find(t => t.route === 'olev')` succeeds exactly when the scan found a departure. |
| Shuttle.OlevEntryOfScan | components/transport/ShuttleTracker.tsx:77-85 | On a weekday, the list after the scan and the "Not Operating" fallback is the single entry `OlevEntry`. |
| Shuttle.StatusColor | components/transport/ShuttleTracker.tsx:184-189 | Gray exactly for a negative count, red exactly for 0..5, yellow exactly for 6..15, green exactly above 15. |
| Shuttle.UrgencyBadge | components/transport/ShuttleTracker.tsx:191-196 | "LEAVING SOON!" exactly for 0..5 and "Get Ready" exactly for 6..15. There is no badge otherwise. |
| Shuttle.OlevEntry | components/transport/ShuttleTracker.tsx:41-94 | Reference definition of the OLEV card: "Weekdays Only" off weekdays, and otherwise the slot of the window scan as "HH:MM" with its countdown, or "Not Operating" when the scan finds none. OlevWindowRule and OlevOperatingRule state what it means. |
| Shuttle.MunjiEntry | components/transport/ShuttleTracker.tsx:96-127 | Reference definition of the Munji card: the first listed time after `now` with its countdown, or "Last bus departed". MunjiRule states what it means. |
| Shuttle.WolpyeongEntry | components/transport/ShuttleTracker.tsx:129-179 | Reference definition of the Wolpyeong card: "Weekdays Only" off weekdays, and otherwise the first trip after `now`, named by its direction, or "Last bus departed". WolpyeongRule states what it means. |
| Shuttle.Departures | components/transport/ShuttleTracker.tsx:39-179 | Reference definition of one computation: the three cards in the order they are pushed. RoutesInOrder, WeekendClosed and OperatingIffCountdown state its shape. |
| ShuttleProperties.RoutesInOrder | components/transport/ShuttleTracker.tsx:39-179 | Every computation yields three entries, OLEV, Munji and Wolpyeong, in that order. |
| ShuttleProperties.WeekendClosed | components/transport/ShuttleTracker.tsx:86-94 | On Saturday and Sunday OLEV and Wolpyeong show "Weekdays Only" with no countdown. The Munji entry there is the same as on any other day, because Munji runs daily. |
| ShuttleProperties.OperatingIffCountdown | components/transport/ShuttleTracker.tsx:7-14 | An entry is operating exactly when its countdown is non-negative, and a closed entry always carries -1. |
| ShuttleProperties.OlevWindowRule | components/transport/ShuttleTracker.tsx:48-85 | On a weekday with no window holding `now`, OLEV is "Not Operating". Otherwise the first such window's slot is shown if it is within the end, and "Not Operating" is shown if not. |
| ShuttleProperties.OlevCountdown | components/transport/ShuttleTracker.tsx:56-63 | An operating OLEV countdown is 0..14 minutes. It lands on the window's 15-minute grid, within the window's end, and is 0 at the window's start. |
| ShuttleProperties.OlevEntryAt | components/transport/ShuttleTracker.tsx:61-71 | When the scan finds `d`, the card shows `d` as "HH:MM" with `d - now` minutes and is operating. |
| ShuttleProperties.LastSlot | components/transport/ShuttleTracker.tsx:56-60 | The last grid point of a window is within it and less than 15 minutes before its end. |
| ShuttleProperties.SlotWithinEnd | components/transport/ShuttleTracker.tsx:60 | The end check passes exactly when `now` is not after the window's last grid point. |
| ShuttleProperties.SlotUnique | components/transport/ShuttleTracker.tsx:56-58 | The slot is the only grid point in `[now, now + 15)`. |
| ShuttleProperties.OlevOperatingRule | components/transport/ShuttleTracker.tsx:48-85 | On a weekday OLEV is operating exactly when some first window holds `now` and `now` is not after that window's last grid point. |
| ShuttleProperties.FirstWindow | components/transport/ShuttleTracker.tsx:48-54 | If some window holds `now`, a first such window exists. |
| ShuttleProperties.MunjiRule | components/transport/ShuttleTracker.tsx:96-127 | Munji operates exactly when some listed time is after `now`. It then shows the first such time with its positive countdown, and shows "Last bus departed" otherwise. |
| ShuttleProperties.WolpyeongRule | components/transport/ShuttleTracker.tsx:141-170 | On a weekday Wolpyeong operates exactly when some trip is after `now`. It then shows the first such trip's time, its direction in the name and its countdown, and shows "Last bus departed" otherwise. |
| ShuttleProperties.FirstAfterIsEarliest | components/transport/ShuttleTracker.tsx:97-115 | On an ascending list, the first time after `now` is the earliest time after `now`. |
| ShuttleProperties.IncreasingPairwise | components/transport/ShuttleTracker.tsx:97 | A list increasing step by step is increasing between any two positions. |
| ShuttleProperties.ClockListParses | components/transport/ShuttleTracker.tsx:101-102 | Well-formed "HH:MM" strings parse to their minute counts. |
| ShuttleProperties.WindowOfClock | components/transport/ShuttleTracker.tsx:49-52 | A window with well-formed bounds parses to their minute counts. |
| ShuttleProperties.ClockAscending | components/transport/ShuttleTracker.tsx:97 | Well-formed strings with increasing minutes form an ascending timetable. |
| ShuttleProperties.LatestDeparture | components/transport/ShuttleTracker.tsx:117-124 | On a well-formed increasing list, some time is still ahead exactly when `now` is before the last one. |
| ShuttleProperties.FirstAfterClock | components/transport/ShuttleTracker.tsx:100-115 | On a well-formed list, the first time after `now` is found at the first index whose minutes exceed `now`. |
| ShuttleProperties.UrgencyOnlyWhenOperating | components/transport/ShuttleTracker.tsx:184-196 | Only operating entries get an urgency badge, and the status colour is gray exactly for closed entries. |
| KaistSchedule.OlevShape | components/transport/ShuttleTracker.tsx:43-46 | The OLEV windows are 08:45-11:45, which is minutes 525-705, and 13:15-16:55, which is minutes 795-1015. |
| KaistSchedule.MunjiShape | components/transport/ShuttleTracker.tsx:97 | The Munji strings are well-formed clocks with strictly increasing minutes. |
| KaistSchedule.WolpyeongShape | components/transport/ShuttleTracker.tsx:131-139 | The Wolpyeong trip times are well-formed clocks with strictly increasing minutes. |
| KaistSchedule.KaistAscending | components/transport/ShuttleTracker.tsx:97-139 | Both fixed lists are ascending. |
| KaistSchedule.OlevHours | components/transport/ShuttleTracker.tsx:41-85 | On a weekday OLEV operates exactly at 08:45-11:45 and 13:15-16:45. From 16:46 to 16:55 the 17:00 slot is past the end, so OLEV is "Not Operating". |
| KaistSchedule.TwoWindows | components/transport/ShuttleTracker.tsx:48-75 | With two windows 525-705 and 795-1015, the scan finds a slot exactly when `now` is in 525-705 or in 795-1005. |
| KaistSchedule.MunjiHours | components/transport/ShuttleTracker.tsx:96-127 | Munji operates exactly before 20:00, on every day. |
| KaistSchedule.MunjiLast | components/transport/ShuttleTracker.tsx:117-124 | For any timetable with the Munji list, Munji operates exactly before 20:00. |
| KaistSchedule.WolpyeongHours | components/transport/ShuttleTracker.tsx:129-170 | On a weekday Wolpyeong operates exactly before 18:00. |
| KaistSchedule.WolpyeongLast | components/transport/ShuttleTracker.tsx:160-167 | For any timetable with the Wolpyeong list, on a weekday Wolpyeong operates exactly before 18:00. |
| KaistSchedule.OlevAt0902 | components/transport/ShuttleTracker.tsx:54-71 | At 09:02 on a weekday OLEV shows "09:15" in 13 minutes. |
| KaistSchedule.OlevAt0845 | components/transport/ShuttleTracker.tsx:54-71 | At 08:45 on a weekday OLEV shows "08:45" in 0 minutes. |
| KaistSchedule.Text0915 | components/transport/ShuttleTracker.tsx:61-68 | Minute 555 is written "09:15". |
| KaistSchedule.Text0845 | components/transport/ShuttleTracker.tsx:61-68 | Minute 525 is written "08:45". |
| KaistSchedule.OlevMorningSlot | components/transport/ShuttleTracker.tsx:54-71 | In the morning window, the card shows the unique grid point within 15 minutes. |
| KaistSchedule.OlevSlotFor | components/transport/ShuttleTracker.tsx:54-71 | With `now` in the first window, the card shows the grid point within 15 minutes that is not past the end. |
| KaistSchedule.MunjiAt1030 | components/transport/ShuttleTracker.tsx:100-115 | At 10:30 Munji shows "12:00" in 90 minutes. |
| KaistSchedule.WolpyeongAt1230 | components/transport/ShuttleTracker.tsx:143-158 | At 12:30 on a weekday Wolpyeong shows "Wolpyeong (To Campus)" at "13:00" in 30 minutes. |
| KaistSchedule.WolpyeongTrip | components/transport/ShuttleTracker.tsx:143-158 | The card shows the first trip whose minutes exceed `now`, with its direction and countdown. |
| KaistSchedule.ShortListAt1030 | components/transport/ShuttleTracker.tsx:100-115 | With the Munji list cut to 08:00, 09:00, 10:00 and 12:00, at 10:30 the card shows "12:00" in 90 minutes. |
| KaistSchedule.ShortListAt1201 | components/transport/ShuttleTracker.tsx:117-124 | With that list, at 12:01 the card shows "Last bus departed" with no countdown. |
| TimeOfDay.NumberOf | components/transport/ShuttleTracker.tsx:49 | `Number` of a digit string is a number. Any other string gives `NaN`, as a missing result. |
| TimeOfDay.ParseHHMM | components/transport/ShuttleTracker.tsx:49-52 | Definition of `split(':').map(Number)` then `h * 60 + m`. The result is `NaN`, modelled as no value, when there are fewer than two parts or either part is not a number. ParseClock, ParseFormat and FormatParse give its value on "HH:MM" strings. |
| TimeOfDay.FormatHHMM | components/transport/ShuttleTracker.tsx:61-68 | Definition of the `nextDeparture` template: the padded hour, a colon and the padded minute. FormatIsClock and ParseFormat state that it writes every minute of the day as an "HH:MM" string that parses back to it. |
| TimeOfDay.TwoDigits | components/transport/ShuttleTracker.tsx:68 | Definition of `String(n).padStart(2, '0')`. TwoDigitsValue and TwoDigitsOf state its two digits. |
| TimeOfDay.Decimal | components/transport/ShuttleTracker.tsx:68 | `String(n)` is a non-empty digit string, one digit long exactly below 10. |
| TimeOfDay.PadStart | components/transport/ShuttleTracker.tsx:68 | `padStart` yields the longer of the string and the width. |
| TimeOfDay.DecimalValue | components/transport/ShuttleTracker.tsx:68 | Reading back `String(n)` gives `n`. |
| TimeOfDay.TwoDigitsValue | components/transport/ShuttleTracker.tsx:68 | Below 100, the padded text is two digits that read back as `n`, tens first. |
| TimeOfDay.ParseClock | components/transport/ShuttleTracker.tsx:49-52 | A well-formed "HH:MM" parses to hours times 60 plus minutes. |
| TimeOfDay.FormatIsClock | components/transport/ShuttleTracker.tsx:61-68 | Any minute of the day formats as a well-formed "HH:MM" denoting that minute. |
| TimeOfDay.ParseFormat | components/transport/ShuttleTracker.tsx:49-68 | Parsing the formatted text of a minute of the day gives it back. |
| TimeOfDay.FormatParse | components/transport/ShuttleTracker.tsx:49-68 | A well-formed "HH:MM" is a minute of the day, and formatting its parse gives the same string. |
| TimeOfDay.FormatOfParts | components/transport/ShuttleTracker.tsx:61-68 | The text of `h * 60 + m` is the padded hour, a colon and the padded minute. |
| TimeOfDay.TwoDigitsOf | components/transport/ShuttleTracker.tsx:68 | Padding the value of two digits writes those same two digits. |
| Strings.LowerChar | components/map/InteractiveMap.tsx:29 | An ASCII capital becomes its own small letter, at the same offset from `a` as from `A`. Every other character is unchanged. |
| Strings.Lower | components/map/InteractiveMap.tsx:29 | Lower-casing maps each character in place and keeps the length. |
| Strings.LowerIdempotent | components/map/InteractiveMap.tsx:29 | Lower-casing twice is lower-casing once. |
| Strings.LowerBlank | components/map/InteractiveMap.tsx:24-29 | A string is blank exactly when its lower-cased form is. |
| Strings.LeadingSpaces | components/map/InteractiveMap.tsx:24 | The whitespace run that `trim` drops at the front ends at the first non-space character. |
| Strings.TrailingSpaces | components/map/InteractiveMap.tsx:24 | The whitespace run that `trim` drops at the back starts after the last non-space character. |
| Strings.Trim | components/map/InteractiveMap.tsx:24 | `trim` never lengthens a string, and a non-empty result neither starts nor ends with whitespace. TrimIsSlice and TrimEmptyIffBlank complete its meaning. |
| Strings.IsBlank | components/map/InteractiveMap.tsx:24 | Definition of "all whitespace", the strings that `trim` empties (TrimEmptyIffBlank). |
| Strings.TrimIsSlice | components/map/InteractiveMap.tsx:24 | `trim` yields a middle slice of the string, with only whitespace cut on either side. |
| Strings.TrimEmptyIffBlank | components/map/InteractiveMap.tsx:24-27 | `query.trim() === ''` holds exactly when the query is all whitespace. |
| Strings.TrimIdempotent | backend/scraper/menu_scraper.py:102 | Stripping a stripped string changes nothing. |
| Strings.TrimChars | backend/scraper/menu_scraper.py:102 | Stripping adds no character. |
| Strings.OccursAtStart | components/map/InteractiveMap.tsx:32 | An occurrence at index 0 is a prefix. |
| Strings.Contains | components/map/InteractiveMap.tsx:32-36 | Definition of `includes` and of Python `in` on strings, by a prefix test at each position. ContainsIffOccurs states that it holds exactly when the substring occurs at some index. |
| Strings.ContainsIffOccurs | components/map/InteractiveMap.tsx:32-36 | `includes` holds exactly when the substring occurs at some index. |
| Strings.ContainsSelf | components/map/InteractiveMap.tsx:32 | Every string contains itself. |
| Strings.ContainsTransitive | components/map/InteractiveMap.tsx:32-36 | A substring of a substring is a substring. |
| Strings.ContainsLower | components/map/InteractiveMap.tsx:29-36 | Lower-casing keeps a substring a substring. |
| Strings.ReplaceChar | backend/scraper/menu_scraper.py:102 | `replace('/', ',')` changes exactly the `/` characters, in place. |
| Strings.ReplaceCharConcat | backend/scraper/menu_scraper.py:102 | Replacing works piece by piece over a concatenation. |
| Strings.FirstIndex | backend/scraper/menu_scraper.py:102 | The delimiter's first position holds it and has none before it. |
| Strings.Split | components/transport/ShuttleTracker.tsx:49 | `split` always yields at least one piece. |
| Strings.JoinSplit | backend/scraper/menu_scraper.py:102 | Joining the pieces with the delimiter restores the string: nothing is lost by splitting. |
| Strings.SplitPieces | backend/scraper/menu_scraper.py:102 | No piece holds the delimiter, and every character of a piece is from the string. |
| Strings.SplitNoDelimiter | components/transport/ShuttleTracker.tsx:49 | A string without the delimiter splits into itself alone. |
| Strings.SplitAround | backend/scraper/menu_scraper.py:102 | Splitting at a delimiter occurrence gives the pieces of both sides, concatenated. |
| Checklist.Remove | components/guide/NewcomerChecklist.tsx:36 | `filter(id => id !== x)` removes every `x`, keeps every other id, and never lengthens the list. |
| Checklist.Toggle | components/guide/NewcomerChecklist.tsx:35-37 | After a toggle, `x` is in the list exactly when it was not before, and no other id changes membership. |
| Checklist.RemoveConcat | components/guide/NewcomerChecklist.tsx:36 | Filtering works piece by piece over a concatenation, which keeps the order. |
| Checklist.RemoveCount | components/guide/NewcomerChecklist.tsx:36 | The filtered list holds every other id as often as before, and `x` never. |
| Checklist.RemoveAbsent | components/guide/NewcomerChecklist.tsx:36 | Filtering out an absent id changes nothing. |
| Checklist.RemoveNoDup | components/guide/NewcomerChecklist.tsx:36 | Filtering keeps a list free of duplicates. |
| Checklist.ToggleAbsent | components/guide/NewcomerChecklist.tsx:37 | Toggling an absent id appends it at the end and keeps the rest. |
| Checklist.TogglePresent | components/guide/NewcomerChecklist.tsx:36 | Toggling a present id removes all its copies and nothing else. |
| Checklist.ToggleNoDup | components/guide/NewcomerChecklist.tsx:35-37 | Toggling keeps a list free of duplicates. |
| Checklist.ToggleTwice | components/guide/NewcomerChecklist.tsx:35-37 | Toggling an absent id twice restores the list. |
| Checklist.ToggleTwicePresent | components/guide/NewcomerChecklist.tsx:35-37 | Toggling a present id twice moves it to the end as a single copy. |
| Checklist.ChecklistProgress.constructor | components/guide/NewcomerChecklist.tsx:22-23 | Both lists start empty. |
| Checklist.ChecklistProgress.IsCompleted | components/guide/NewcomerChecklist.tsx:51 | Definition of `completedItems.includes(itemId)`. ToggleComplete and Reset state how it changes. |
| Checklist.ChecklistProgress.IsExpanded | components/guide/NewcomerChecklist.tsx:52 | Definition of `expandedItems.includes(itemId)`. ToggleExpand states how it changes. |
| Checklist.ChecklistProgress.ToggleComplete | components/guide/NewcomerChecklist.tsx:34-41 | The completed list becomes its toggle and the expanded list is untouched. The item's completion flips, every other item's is kept, and duplicate-freedom is preserved. |
| Checklist.ChecklistProgress.ToggleExpand | components/guide/NewcomerChecklist.tsx:43-49 | The expanded list becomes its toggle and the completed list is untouched. The item's expansion flips, every other item's is kept, and duplicate-freedom is preserved. |
| Checklist.ChecklistProgress.Reset | components/guide/NewcomerChecklist.tsx:280-284 | A confirmed reset empties the completed list, so no item is completed. The expanded list is untouched. |
| Checklist.InsertByPriority | components/guide/NewcomerChecklist.tsx:73 | Inserting adds exactly `x` to the items. |
| Checklist.InsertMembers | components/guide/NewcomerChecklist.tsx:73 | Every item after an insert is `x` or an item from before. |
| Checklist.InsertSorted | components/guide/NewcomerChecklist.tsx:73 | Inserting into a priority-sorted list keeps it sorted. |
| Checklist.SortByPriority | components/guide/NewcomerChecklist.tsx:73 | `sort((a, b) => a.priority - b.priority)` gives the ascending priority order and a permutation of the items. |
| Checklist.WithPriorityInsert | components/guide/NewcomerChecklist.tsx:73 | An insert puts `x` before the sorted items of its priority and leaves other priorities' items as they were. |
| Checklist.SortIsStable | components/guide/NewcomerChecklist.tsx:73 | The sort is stable: items of equal priority keep their relative order. |
| Checklist.CategoryColor | components/guide/NewcomerChecklist.tsx:58-71 | A listed category gets its class, and any other category gets the gray default. The result is always one of those classes. |
| Checklist.DefaultIffUnknown | components/guide/NewcomerChecklist.tsx:70 | The gray default appears exactly for unlisted categories, because no listed class is the default. |
| Checklist.ColorsLookup | components/guide/NewcomerChecklist.tsx:70 | Definition of `colors[category]` on an object literal: a listed class, an inherited `Object.prototype` member, or `undefined`. |
| Checklist.CategoryColorAsWritten | components/guide/NewcomerChecklist.tsx:70 | The lookup as JavaScript performs it agrees with `CategoryColor` on every category that is not an `Object.prototype` member. |
| Checklist.ConstructorLeaks | components/guide/NewcomerChecklist.tsx:70 | For the category "constructor" the lookup returns the inherited `Object` function, not a class string. |
| CampusMap.FilterMatching | components/map/InteractiveMap.tsx:30-38 | The filter keeps exactly the buildings that match the query. |
| CampusMap.HandleSearch | components/map/InteractiveMap.tsx:21-41 | A blank query clears the results. Otherwise the results are exactly the buildings matching the lower-cased query. |
| CampusMap.Matches | components/map/InteractiveMap.tsx:31-37 | Definition of the filter test: the lower-cased name, code or category, or some lower-cased facility or keyword, contains the query. MatchesSubstring, SearchIgnoresCase and SearchNarrows state its properties. |
| CampusMap.FilterIsSubsequence | components/map/InteractiveMap.tsx:30-38 | The filter keeps the buildings in their original order. |
| CampusMap.FilterCounts | components/map/InteractiveMap.tsx:30-38 | Each matching building appears in the search results as many times as in the input, and a non-matching one never appears. |
| CampusMap.SearchKeepsOrder | components/map/InteractiveMap.tsx:21-41 | Search results are in building-list order. |
| CampusMap.SearchIgnoresCase | components/map/InteractiveMap.tsx:29 | Queries equal up to case give the same results. |
| CampusMap.MatchesSubstring | components/map/InteractiveMap.tsx:31-37 | A building matching a query also matches every substring of it. |
| CampusMap.SearchNarrows | components/map/InteractiveMap.tsx:21-41 | Typing more narrows the results: each result of the longer query is a result of the shorter. |
| CampusMap.InCategory | components/map/InteractiveMap.tsx:58 | The category filter keeps exactly the buildings of that category. |
| CampusMap.DisplayBuildings | components/map/InteractiveMap.tsx:54-58 | Definition of `displayBuildings`: the stored results while the trimmed query is non-empty, otherwise all buildings under "all", otherwise those of the active category. DisplayedBuildings states what it shows on a consistent state. |
| CampusMap.Search | components/map/InteractiveMap.tsx:21-41 | Typing stores the typed query and, as the results, the search of that query, so the state stays consistent. The category and the selection are untouched. |
| CampusMap.ClickCategory | components/map/InteractiveMap.tsx:103-107 | A category click sets the category and clears the query and the results. The selection is untouched. |
| CampusMap.SelectBuilding | components/map/InteractiveMap.tsx:125 | A card click, or a close that passes no building, changes the selection and nothing else. |
| CampusMap.StepsKeepConsistent | components/map/InteractiveMap.tsx:17-107 | The initial state and every step keep the stored results equal to the search of the stored query. |
| CampusMap.DisplayedBuildings | components/map/InteractiveMap.tsx:54-58 | With a non-blank query the grid shows exactly the matching buildings. Otherwise it shows all buildings, or exactly those of the active category, always in list order. |
| CampusMap.InCategoryIsSubsequence | components/map/InteractiveMap.tsx:58 | The category filter keeps list order. |
| CampusMap.InCategoryCounts | components/map/InteractiveMap.tsx:58 | Each building of the category appears as many times as in the input, and a building of another category never appears. |
| CampusMap.SubsequenceSelf | components/map/InteractiveMap.tsx:57 | The whole list is in its own order. |
| CampusMap.SearchBanner | components/map/InteractiveMap.tsx:80-94 | No banner exactly for an empty query. "Found" exactly for a non-empty query with results, counting them, plural exactly when the count is not 1. "No results found" exactly for a non-empty query without results. |
| CampusMap.SpacesReportNoResults | components/map/InteractiveMap.tsx:80-94 | A query of spaces alone shows "No results found". |
| CampusMap.FacilityPreview | components/map/InteractiveMap.tsx:139-144 | A card previews `facilities.slice(0, 3)`: all facilities when there are at most three, and otherwise exactly the first three. |
| CampusMap.MoreCount | components/map/InteractiveMap.tsx:145-149 | The "+N more" note appears exactly beyond three facilities, with N the number of facilities minus three. |
| CampusMap.CardCoversFacilities | components/map/InteractiveMap.tsx:139-149 | The preview and the "+N more" count together account for every facility. |
| MenuScraper.IdentifyCafeteria | backend/scraper/menu_scraper.py:148-167 | The north keywords give "north" first, then the east ones "east", then the west ones "west". With none of them, the key is the lower-cased name with every space turned into `_`, so it never holds a space. |
| MenuScraper.IsNorthName | backend/scraper/menu_scraper.py:160 | Definition of the north test: "north", "kaimaru" or "n11" in the lower-cased name, or "북" in the name. |
| MenuScraper.IsEastName | backend/scraper/menu_scraper.py:162 | Definition of the east test: "east" or "e5" in the lower-cased name, or "동" in the name. |
| MenuScraper.IsWestName | backend/scraper/menu_scraper.py:164 | Definition of the west test: "west" or "w2" in the lower-cased name, or "서" in the name. |
| MenuScraper.CampusKeyIffKeyword | backend/scraper/menu_scraper.py:158-167 | The key is one of north, east and west exactly when the name has one of their keywords. |
| MenuScraper.DropConcat | backend/scraper/menu_scraper.py:102 | Dropping empty items works piece by piece. |
| MenuScraper.DropMember | backend/scraper/menu_scraper.py:102 | Every kept item is a non-empty original item. |
| MenuScraper.StripConcat | backend/scraper/menu_scraper.py:102 | Stripping and dropping works piece by piece. |
| MenuScraper.SplitItems | backend/scraper/menu_scraper.py:102 | Definition of the item list comprehension: replace `/` by `,`, split on `,`, strip each piece and keep the non-empty ones. ItemsAreClean, ItemsOfComma, ItemsOfSlash and SplitItemsSingle state its meaning. |
| MenuScraper.ItemsAreClean | backend/scraper/menu_scraper.py:102 | Every item is non-empty, already stripped, and holds neither `,` nor `/`. |
| MenuScraper.ItemsOfComma | backend/scraper/menu_scraper.py:102 | The items of `a,b` are those of `a` followed by those of `b`. |
| MenuScraper.ItemsOfSlash | backend/scraper/menu_scraper.py:102 | The items of `a/b` are those of `a` followed by those of `b`: `/` acts like `,`. |
| MenuScraper.SplitItemsSingle | backend/scraper/menu_scraper.py:102 | A cell with no `,` and no `/` gives one item, the stripped cell, unless the cell is blank; a blank cell gives no item. |
| MenuScraper.MealOf | backend/scraper/menu_scraper.py:98-109 | Definition of the meal test on the lower-cased first cell, breakfast first, then lunch, then dinner. MealPrecedence states the precedence. |
| MenuScraper.RouteOf | backend/scraper/menu_scraper.py:97-109 | Definition of what one row does: a row with fewer than two cells, or naming no meal, is skipped, and any other row extends its meal by the items of its second cell. RouteCases, RowGoesToOneList and SkippedRow state its effect. |
| MenuScraper.MealPrecedence | backend/scraper/menu_scraper.py:104-109 | A row goes to breakfast, lunch or dinner by the first meal its lower-cased cell names, in that order of testing, and to none when it names none. |
| MenuScraper.AddRoute | backend/scraper/menu_scraper.py:104-109 | One row extends the list of its meal by its items and leaves the other lists. |
| MenuScraper.ItemsForSnoc | backend/scraper/menu_scraper.py:94-109 | The items routed to a meal grow by one row at the end. |
| MenuScraper.FillIsRoutedItems | backend/scraper/menu_scraper.py:87-109 | Each list of a record is the concatenation, in row order, of the items of the rows naming that meal. |
| MenuScraper.RowGoesToOneList | backend/scraper/menu_scraper.py:104-109 | A row naming a meal appends its items to that list only. |
| MenuScraper.SkippedRow | backend/scraper/menu_scraper.py:97-109 | A row with fewer than two cells, or naming no meal, changes nothing. |
| MenuScraper.ParseTable | backend/scraper/menu_scraper.py:78-109 | The loop builds the caption name, or "Unknown", and lists that are the row-order items of each meal. |
| MenuScraper.RouteCases | backend/scraper/menu_scraper.py:97-109 | Each branch of the row loop has the effect of routing that row. |
| MenuScraper.ScrapeTables | backend/scraper/menu_scraper.py:76-113 | The table loop leaves every table's record assigned under its key, one after the other. |
| MenuScraper.AssignKeys | backend/scraper/menu_scraper.py:113 | A key is in the map exactly when some assignment used it. |
| MenuScraper.AssignLastWins | backend/scraper/menu_scraper.py:113 | A key holds the record of its last assignment. |
| MenuScraper.RecordedKeys | backend/scraper/menu_scraper.py:111-113 | A key is recorded exactly when some table's caption yields it. |
| MenuScraper.LastTableWins | backend/scraper/menu_scraper.py:111-113 | When tables share a key, the last of them is the one kept. |
| MenuScraper.Scrape | backend/scraper/menu_scraper.py:73-132 | Definition of the outcome: the recorded cafeterias, or the mock data when none was recorded. MockIffNoTables states when the mock data is used. |
| MenuScraper.MockIffNoTables | backend/scraper/menu_scraper.py:73-132 | The mock data is returned exactly when no menu table is found, because every table records one key. |
| DailyMenu.MealTime | components/dining/DailyMenuDisplay.tsx:89-94 | Breakfast exactly before 9, lunch exactly from 9 to 13, dinner exactly from 14. |
| DailyMenu.MealTimeMonotone | components/dining/DailyMenuDisplay.tsx:89-94 | As the hour advances the highlighted meal never goes back. |
| DailyMenu.EveryMealHasAnHour | components/dining/DailyMenuDisplay.tsx:89-94 | Every meal is highlighted at some hour of the day. |
| DailyMenu.FindIndex | components/dining/DailyMenuDisplay.tsx:86 | `find` returns the first record with the id, and fails exactly when none has it. |
| DailyMenu.GetCafeteriaInfo | components/dining/DailyMenuDisplay.tsx:85-87 | The record found has the id. None is found exactly when no record has it. |
| DailyMenu.FirstRecordWins | components/dining/DailyMenuDisplay.tsx:86 | Among records sharing an id the first is returned. |
| DailyMenu.CafeteriaId | components/dining/DailyMenuDisplay.tsx:98-102 | Definition of `cafeteriaMap`: the north tab looks up the "kaimaru" record, and the east and west tabs look up records with their own names. ActiveCafeteria states what the lookup returns. |
| DailyMenu.ActiveCafeteria | components/dining/DailyMenuDisplay.tsx:98-104 | The tab's record carries that tab's id (`kaimaru` for north). It is missing exactly when the data has no such id. |
| DailyMenu.ShownMenu | components/dining/DailyMenuDisplay.tsx:167-294 | The menu section shows exactly when the tab's dining record exists, menu data is loaded, and the data holds the tab's key. It then shows that entry. |
| DailyMenu.ScrapedKeyOfTab | components/dining/DailyMenuDisplay.tsx:14 | A table lands under a tab's key exactly when its caption has that tab's keyword and no earlier tab's. |
| DailyMenu.SectionOfScrapedMenu | components/dining/DailyMenuDisplay.tsx:167-267 | When the tab's dining record exists, shown scraped data lists, in each section, the items routed to that meal in the last table whose caption names the tab's cafeteria. Without the record, no section lists anything. |
| DailyMenu.MealsOfRecords | components/dining/DailyMenuDisplay.tsx:7-11 | The display's data holds each scraped record's three lists under the same keys. |

## Left out

- The clock. `setInterval`, `new Date()` and the `useEffect` hooks are not modelled. The day, the minutes since midnight and the hour are parameters.
- Rendering. The JSX markup, the styling, the modal's full facility list and the coordinates line are not modelled, apart from the texts and classes that the logic selects.
- The `currentStop` field of a shuttle card is not modelled: the tracker never sets it.
- The tracker's import of `transportationData` is not modelled, because the computation never reads it.
- Building coordinates are not modelled. Checklist items keep only their id, title, category and priority. Dining records keep only their id and name.
- Browser storage is not modelled. This covers `localStorage` in the checklist, the `JSON.parse` of saved progress, and the `confirm` dialog before a reset. `Reset` models a confirmed reset.
- The progress percentage is not modelled, because it is floating-point arithmetic with `Math.round`.
- The scraper's network request, HTML parsing and file output are not modelled. A table arrives as its caption text and its cells' texts, as `get_text(strip=True)` returns them.
- The scraper's `print` calls are not modelled.
- The scraper's div branch is not modelled: its loop body is `pass`, so it records nothing, and the model treats it as recording nothing.
- The scraper's exception handlers are not modelled. They fall back to mock data.
- The literal contents of `generate_mock_data` and the display's mock menus are not modelled; the scraper's mock result is one constant.
- `loadMenuData` and its loading flags are not modelled; the displayed menu data is a parameter.
- The pages, the layout, the navigation bar and the configuration files are not modelled, because they hold no logic of the core.
- Strings.Lower: ASCII only. JavaScript `toLowerCase` and Python `lower` also fold non-ASCII capitals, and the model leaves those characters unchanged. Every search keyword, category and caption keyword in the code is ASCII or Hangul, and Hangul has no case.
- Strings.Trim: only ASCII whitespace (space, tab, line feed, carriage return, vertical tab, form feed) is trimmed. JavaScript `trim` and Python `strip` also drop Unicode spaces such as U+00A0 and the line separators U+2028 and U+2029, and Python `strip` also drops the separators U+001C to U+001F and U+0085, which `trim` keeps.
- TimeOfDay.NumberOf: only digit strings are numbers. JavaScript `Number` also accepts surrounding whitespace, signs, decimals and hexadecimal, but the timetable strings are plain digits.
- Checklist.SortByPriority: the in-place `Array.prototype.sort` on a copy is modelled as a stable insertion sort on a sequence. The stability property is the one the ECMAScript specification requires of `sort`.

## Findings

| source | as written | input that shows it | evidently intended | confidence | as-written member | corrected member |
|---|---|---|---|---|---|---|
| components/guide/NewcomerChecklist.tsx:58-71 | `colors[category] \|\| 'bg-gray-100 text-gray-800'` on a plain object literal also finds the members that every object inherits from `Object.prototype` | category `"constructor"` returns the `Object` function, which is truthy, so it becomes the class attribute instead of the gray default | the gray default for every category outside the nine listed | not executed | Checklist.ConstructorLeaks | Checklist.DefaultIffUnknown |
