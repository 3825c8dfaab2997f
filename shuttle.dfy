/** The live shuttle tracker: from the day of the week (0 = Sunday .. 6 = Saturday)
    and the minutes since midnight it computes one entry per route, in the fixed
    order OLEV, Main-Munji-Hwaam, Wolpyeong. OLEV runs every 15 minutes inside two
    service windows on weekdays; Munji runs daily from a fixed list of times;
    Wolpyeong runs on weekdays from a fixed list of times, each with a direction.
    The timetables are "HH:MM" strings parsed on every computation, as in the
    tracker itself. */
module Shuttle {
  import opened Optional
  import opened TimeOfDay

  /** One card of the tracker. `minutesUntil` is -1 when no countdown applies. */
  datatype ShuttleTime = ShuttleTime(
    route: string,
    routeName: string,
    nextDeparture: string,
    minutesUntil: int,
    isOperating: bool)

  /** An OLEV service window, as "HH:MM" strings. */
  datatype Period = Period(start: string, end: string)

  /** A Wolpyeong departure: its "HH:MM" time and its direction label. */
  datatype Trip = Trip(time: string, dir: string)

  /** Minutes between two OLEV departures. */
  const Interval: nat := 15

  /** The three hard-coded timetables of the tracker. */
  datatype Timetable = Timetable(
    olevPeriods: seq<Period>,
    munjiTimes: seq<string>,
    wolpyeongTimes: seq<Trip>)

  /** The timetables as the tracker hard-codes them. The computation takes them as a
      parameter so that the proofs about it do not evaluate these strings. */
  const Kaist: Timetable := Timetable(
    [Period("08:45", "11:45"), Period("13:15", "16:55")],
    ["08:00", "09:00", "10:00", "12:00", "13:00", "14:00", "16:00", "17:00", "18:00", "20:00"],
    [Trip("07:50", "To Campus"),
     Trip("08:20", "To Campus"),
     Trip("09:00", "To Station"),
     Trip("12:00", "To Station"),
     Trip("13:00", "To Campus"),
     Trip("17:00", "To Station"),
     Trip("18:00", "To Station")])

  predicate IsWeekday(dayOfWeek: int) { 1 <= dayOfWeek <= 5 }

  // ---------------------------------------------------------------- the interval rule

  /** `Math.ceil(a / b)` for a non-negative `a`. */
  function CeilDiv(a: nat, b: nat): (q: nat)
    requires b > 0
    ensures q * b >= a && q * b < a + b
  {
    assert a + b - 1 == b * ((a + b - 1) / b) + (a + b - 1) % b;
    (a + b - 1) / b
  }

  /** A window's bounds in minutes, or None when one of them parses to `NaN`. */
  function WindowOf(p: Period): Option<(nat, nat)> {
    match (ParseHHMM(p.start), ParseHHMM(p.end))
    case (Some(s), Some(e)) => Some((s, e))
    case _ => None
  }

  /** `start <= now <= end` for the window (false when a bound is `NaN`). */
  predicate InWindow(p: Period, now: int) {
    WindowOf(p).Some? && WindowOf(p).value.0 <= now <= WindowOf(p).value.1
  }

  /** `t` is a whole number of intervals after `start`. */
  predicate OnGrid(start: int, t: int) {
    (t - start) % Interval == 0
  }

  /** `start + Math.ceil((now - start) / 15) * 15`: the first 15-minute slot of a window
      starting at `start` that is not before `now`. */
  function Slot(start: nat, now: int): (d: int)
    requires start <= now
    ensures now <= d < now + Interval
    ensures OnGrid(start, d)
    ensures now == start ==> d == start
  {
    var q := CeilDiv(now - start, Interval);
    assert (q * Interval) % Interval == 0;
    start + q * Interval
  }

  /** The departure offered by a window that contains `now`: its slot, unless the slot
      lies past the window's end. */
  function SlotIn(p: Period, now: int): (r: Option<nat>)
    requires InWindow(p, now)
    ensures r.Some? ==> r.value <= WindowOf(p).value.1
  {
    var (s, e) := WindowOf(p).value;
    var d := Slot(s, now);
    if d <= e then Some(d) else None
  }

  /** The scan over the OLEV windows: the first window that contains `now` decides,
      and no later window is looked at, even when that window has no slot left. */
  function IntervalNext(periods: seq<Period>, now: int): (r: Option<nat>)
    ensures r.Some? ==> now <= r.value < now + Interval
  {
    if periods == [] then None
    else if InWindow(periods[0], now) then SlotIn(periods[0], now)
    else IntervalNext(periods[1..], now)
  }

  /** Window `k` is the first one that contains `now`. */
  ghost predicate FirstMatch(periods: seq<Period>, now: int, k: int) {
    0 <= k < |periods| && InWindow(periods[k], now)
    && forall j :: 0 <= j < k ==> !InWindow(periods[j], now)
  }

  /** The scan gives nothing when no window contains `now`, and otherwise exactly what
      the first containing window offers. */
  lemma IntervalNextRule(periods: seq<Period>, now: int)
    ensures (forall k :: 0 <= k < |periods| ==> !InWindow(periods[k], now)) ==> IntervalNext(periods, now) == None
    ensures forall k :: FirstMatch(periods, now, k) ==> IntervalNext(periods, now) == SlotIn(periods[k], now)
  {
    if forall k :: 0 <= k < |periods| ==> !InWindow(periods[k], now) {
      IntervalNextNone(periods, now);
    }
    forall k | FirstMatch(periods, now, k) ensures IntervalNext(periods, now) == SlotIn(periods[k], now) {
      IntervalNextAt(periods, now, k);
    }
  }

  /** No window contains `now`: nothing is offered. */
  lemma {:induction false} IntervalNextNone(periods: seq<Period>, now: int)
    requires forall k :: 0 <= k < |periods| ==> !InWindow(periods[k], now)
    ensures IntervalNext(periods, now) == None
    decreases |periods|
  {
    if periods != [] {
      forall k | 0 <= k < |periods| - 1 ensures !InWindow(periods[1..][k], now) {
        assert periods[1..][k] == periods[k + 1];
      }
      IntervalNextNone(periods[1..], now);
    }
  }

  /** Window `k` is the first containing `now`: it alone decides. */
  lemma {:induction false} IntervalNextAt(periods: seq<Period>, now: int, k: int)
    requires FirstMatch(periods, now, k)
    ensures IntervalNext(periods, now) == SlotIn(periods[k], now)
    decreases k
  {
    if k > 0 {
      assert !InWindow(periods[0], now);
      forall j | 0 <= j < k - 1 ensures !InWindow(periods[1..][j], now) {
        assert periods[1..][j] == periods[j + 1];
      }
      assert periods[1..][k - 1] == periods[k];
      IntervalNextAt(periods[1..], now, k - 1);
    }
  }

  // ---------------------------------------------------------------- the fixed-list rule

  /** The listed time parses and is strictly later than `now` (`totalMin > now`). */
  predicate After(time: string, now: int) {
    ParseHHMM(time).Some? && ParseHHMM(time).value > now
  }

  /** The index of the first listed time strictly later than `now`, if there is one. */
  function FirstAfter(times: seq<string>, now: int): (r: Option<nat>)
    ensures r.Some? ==> r.value < |times| && After(times[r.value], now)
    ensures r.Some? ==> forall j :: 0 <= j < r.value ==> !After(times[j], now)
    ensures r.None? ==> forall j :: 0 <= j < |times| ==> !After(times[j], now)
  {
    if times == [] then None
    else if After(times[0], now) then Some(0)
    else match FirstAfter(times[1..], now)
      case Some(k) => Some(k + 1)
      case None => None
  }

  function TripTimes(trips: seq<Trip>): (r: seq<string>)
    ensures |r| == |trips| && forall i :: 0 <= i < |trips| ==> r[i] == trips[i].time
  {
    seq(|trips|, i requires 0 <= i < |trips| => trips[i].time)
  }

  // ---------------------------------------------------------------- the entries

  const OlevName := "OLEV Shuttle"
  const MunjiName := "Main-Munji-Hwaam"
  const WolpyeongName := "Wolpyeong Station"

  function WolpyeongTripName(dir: string): string { "Wolpyeong (" + dir + ")" }

  function Closed(route: string, name: string, status: string): ShuttleTime {
    ShuttleTime(route, name, status, -1, false)
  }

  function OlevEntry(tt: Timetable, dayOfWeek: int, now: int): ShuttleTime {
    if !IsWeekday(dayOfWeek) then Closed("olev", OlevName, "Weekdays Only")
    else match IntervalNext(tt.olevPeriods, now)
      case Some(d) => ShuttleTime("olev", OlevName, FormatHHMM(d), d - now, true)
      case None => Closed("olev", OlevName, "Not Operating")
  }

  function MunjiEntry(tt: Timetable, now: int): ShuttleTime {
    match FirstAfter(tt.munjiTimes, now)
    case Some(k) =>
      var time := tt.munjiTimes[k];
      ShuttleTime("munji", MunjiName, time, ParseHHMM(time).value - now, true)
    case None => Closed("munji", MunjiName, "Last bus departed")
  }

  function WolpyeongEntry(tt: Timetable, dayOfWeek: int, now: int): ShuttleTime {
    if !IsWeekday(dayOfWeek) then Closed("wolpyeong", WolpyeongName, "Weekdays Only")
    else match FirstAfter(TripTimes(tt.wolpyeongTimes), now)
      case Some(k) =>
        var trip := tt.wolpyeongTimes[k];
        ShuttleTime("wolpyeong", WolpyeongTripName(trip.dir), trip.time,
                    ParseHHMM(trip.time).value - now, true)
      case None => Closed("wolpyeong", WolpyeongName, "Last bus departed")
  }

  /** What one computation of the tracker yields. */
  function Departures(tt: Timetable, dayOfWeek: int, now: int): seq<ShuttleTime> {
    [OlevEntry(tt, dayOfWeek, now), MunjiEntry(tt, now), WolpyeongEntry(tt, dayOfWeek, now)]
  }

  /** The slot of a window whose bounds parse to `s` and `e`, computed as the tracker
      computes it. */
  lemma SlotOfWindow(p: Period, now: int, s: nat, e: nat)
    requires ParseHHMM(p.start) == Some(s) && ParseHHMM(p.end) == Some(e) && s <= now <= e
    ensures InWindow(p, now)
    ensures SlotIn(p, now) ==
      var d := s + CeilDiv(now - s, Interval) * Interval;
      if d <= e then Some(d) else None
  {
  }

  /** What the OLEV window scan pushes onto the empty list. */
  function OlevPushed(periods: seq<Period>, now: int): seq<ShuttleTime> {
    match IntervalNext(periods, now)
    case Some(d) => [ShuttleTime("olev", OlevName, FormatHHMM(d), d - now, true)]
    case None => []
  }

  lemma OlevPushedRoute(periods: seq<Period>, now: int)
    ensures HasRoute(OlevPushed(periods, now), "olev") <==> IntervalNext(periods, now).Some?
  {
    var pushed := OlevPushed(periods, now);
    if pushed != [] {
      assert pushed[0] in pushed;
    }
  }

  /** On a weekday the OLEV entry is the scan's entry, or "Not Operating" when the scan
      pushed none. */
  lemma OlevEntryOfScan(tt: Timetable, dayOfWeek: int, now: int)
    requires IsWeekday(dayOfWeek)
    ensures var pushed := OlevPushed(tt.olevPeriods, now);
      [OlevEntry(tt, dayOfWeek, now)] ==
        if HasRoute(pushed, "olev") then pushed
        else pushed + [Closed("olev", OlevName, "Not Operating")]
  {
    OlevPushedRoute(tt.olevPeriods, now);
  }

  /** `times.find(t => t.route === route)` found something. */
  predicate HasRoute(times: seq<ShuttleTime>, route: string) {
    exists t :: t in times && t.route == route
  }

  // ---------------------------------------------------------------- the computation

  /** `calculateNextShuttles`, with the clock reading passed in: `now` is
      `getHours() * 60 + getMinutes()` and `dayOfWeek` is `getDay()`; the tracker
      calls it with `tt == Kaist`. Each route's block of the source is one of the
      three methods below; this method pushes their entries in the source's order. */
  method CalculateNextShuttles(tt: Timetable, dayOfWeek: int, now: int) returns (times: seq<ShuttleTime>)
    ensures times == Departures(tt, dayOfWeek, now)
  {
    times := NextOlev(tt, dayOfWeek, now);
    var munji := NextMunji(tt, now);
    times := times + [munji];
    var wolpyeong := NextWolpyeong(tt, dayOfWeek, now);
    times := times + [wolpyeong];
  }

  /** The OLEV block, starting from the empty `times` list: scans the windows with
      `for ... of` and `break`, pushes an operating entry onto `times` when the matched
      window still has a slot, and pushes "Not Operating" when `times.find` then sees no
      OLEV entry. */
  method NextOlev(tt: Timetable, dayOfWeek: int, now: int) returns (times: seq<ShuttleTime>)
    ensures times == [OlevEntry(tt, dayOfWeek, now)]
  {
    times := [];
    if 1 <= dayOfWeek <= 5 {
      times := ScanOlevWindows(tt.olevPeriods, now);
      OlevEntryOfScan(tt, dayOfWeek, now);
      if !HasRoute(times, "olev") {
        times := times + [Closed("olev", OlevName, "Not Operating")];
      }
    } else {
      times := times + [Closed("olev", OlevName, "Weekdays Only")];
    }
  }

  /** The `for ... of` loop over the OLEV windows: the first window containing `now`
      pushes its slot, if the slot is before the window's end, and stops the scan. */
  method ScanOlevWindows(olevPeriods: seq<Period>, now: int) returns (times: seq<ShuttleTime>)
    ensures times == OlevPushed(olevPeriods, now)
  {
    times := [];
    var i := 0;
    while i < |olevPeriods|
      invariant 0 <= i <= |olevPeriods|
      invariant times == []
      invariant IntervalNext(olevPeriods, now) == IntervalNext(olevPeriods[i..], now)
    {
      var period := olevPeriods[i];
      var startTotal := ParseHHMM(period.start);
      var endTotal := ParseHHMM(period.end);
      if startTotal.Some? && endTotal.Some? && now >= startTotal.value && now <= endTotal.value {
        var minutesSinceStart := now - startTotal.value;
        var nextInterval := CeilDiv(minutesSinceStart, Interval) * Interval;
        var nextDepartureTotal := startTotal.value + nextInterval;
        assert olevPeriods[i..][0] == period;
        SlotOfWindow(period, now, startTotal.value, endTotal.value);
        assert IntervalNext(olevPeriods, now) == SlotIn(period, now);
        if nextDepartureTotal <= endTotal.value {
          times := times + [ShuttleTime("olev", OlevName, FormatHHMM(nextDepartureTotal),
                                        nextDepartureTotal - now, true)];
          assert IntervalNext(olevPeriods, now) == Some(nextDepartureTotal);
        } else {
          assert IntervalNext(olevPeriods, now) == None;
        }
        assert times == OlevPushed(olevPeriods, now);
        break;
      }
      assert olevPeriods[i..][1..] == olevPeriods[i + 1..];
      i := i + 1;
    }
    if i == |olevPeriods| {
      assert olevPeriods[i..] == [];
    }
  }

  /** The Main-Munji-Hwaam block: the first listed time strictly after `now`. */
  method NextMunji(tt: Timetable, now: int) returns (entry: ShuttleTime)
    ensures entry == MunjiEntry(tt, now)
  {
    var munjiTimes := tt.munjiTimes;
    var nextMunji: Option<ShuttleTime> := None;
    var j := 0;
    while j < |munjiTimes|
      invariant 0 <= j <= |munjiTimes|
      invariant nextMunji == None
      invariant forall k :: 0 <= k < j ==> !After(munjiTimes[k], now)
    {
      var time := munjiTimes[j];
      var totalMin := ParseHHMM(time);
      if totalMin.Some? && totalMin.value > now {
        nextMunji := Some(ShuttleTime("munji", MunjiName, time, totalMin.value - now, true));
        assert FirstAfter(munjiTimes, now) == Some(j);
        break;
      }
      j := j + 1;
    }
    if nextMunji.None? {
      entry := Closed("munji", MunjiName, "Last bus departed");
    } else {
      entry := nextMunji.value;
    }
  }

  /** The Wolpyeong block: weekdays only; the first listed trip strictly after `now`,
      named after its direction. */
  method NextWolpyeong(tt: Timetable, dayOfWeek: int, now: int) returns (entry: ShuttleTime)
    ensures entry == WolpyeongEntry(tt, dayOfWeek, now)
  {
    if 1 <= dayOfWeek <= 5 {
      var wolpyeongTimes := tt.wolpyeongTimes;
      var nextWolpyeong: Option<ShuttleTime> := None;
      var k := 0;
      while k < |wolpyeongTimes|
        invariant 0 <= k <= |wolpyeongTimes|
        invariant nextWolpyeong == None
        invariant forall m :: 0 <= m < k ==> !After(wolpyeongTimes[m].time, now)
      {
        var item := wolpyeongTimes[k];
        var totalMin := ParseHHMM(item.time);
        if totalMin.Some? && totalMin.value > now {
          nextWolpyeong := Some(ShuttleTime("wolpyeong", WolpyeongTripName(item.dir), item.time,
                                            totalMin.value - now, true));
          assert FirstAfter(TripTimes(wolpyeongTimes), now) == Some(k);
          break;
        }
        k := k + 1;
      }
      if nextWolpyeong.None? {
        entry := Closed("wolpyeong", WolpyeongName, "Last bus departed");
      } else {
        entry := nextWolpyeong.value;
      }
    } else {
      entry := Closed("wolpyeong", WolpyeongName, "Weekdays Only");
    }
  }

  // ---------------------------------------------------------------- urgency

  /** `getStatusColor`: the colour class of a countdown. */
  function StatusColor(minutesUntil: int): (c: string)
    ensures c == "text-gray-400" <==> minutesUntil < 0
    ensures c == "text-red-500" <==> 0 <= minutesUntil <= 5
    ensures c == "text-yellow-500" <==> 6 <= minutesUntil <= 15
    ensures c == "text-green-500" <==> minutesUntil > 15
  {
    if minutesUntil < 0 then "text-gray-400"
    else if minutesUntil <= 5 then "text-red-500"
    else if minutesUntil <= 15 then "text-yellow-500"
    else "text-green-500"
  }

  /** `getUrgencyBadge`: the badge text of a countdown, if any. */
  function UrgencyBadge(minutesUntil: int): (b: Option<string>)
    ensures b == Some("LEAVING SOON!") <==> 0 <= minutesUntil <= 5
    ensures b == Some("Get Ready") <==> 6 <= minutesUntil <= 15
    ensures b == None <==> minutesUntil < 0 || minutesUntil > 15
  {
    if minutesUntil < 0 then None
    else if minutesUntil <= 5 then Some("LEAVING SOON!")
    else if minutesUntil <= 15 then Some("Get Ready")
    else None
  }
}

/** What the tracker promises about its entries, for any timetable and then for the
    hard-coded one. */
module ShuttleProperties {
  import opened Optional
  import opened TimeOfDay
  import opened Shuttle

  /** Exactly three entries, one per route, in the order OLEV, Munji, Wolpyeong. */
  lemma RoutesInOrder(tt: Timetable, dayOfWeek: int, now: int)
    ensures |Departures(tt, dayOfWeek, now)| == 3
    ensures Departures(tt, dayOfWeek, now)[0].route == "olev"
    ensures Departures(tt, dayOfWeek, now)[1].route == "munji"
    ensures Departures(tt, dayOfWeek, now)[2].route == "wolpyeong"
  {
  }

  /** On Saturday and Sunday the weekday-only routes say "Weekdays Only", whatever the
      time; Munji does not depend on the day at all. */
  lemma WeekendClosed(tt: Timetable, dayOfWeek: int, otherDay: int, now: int)
    requires dayOfWeek == 0 || dayOfWeek == 6
    ensures Departures(tt, dayOfWeek, now)[0] == ShuttleTime("olev", OlevName, "Weekdays Only", -1, false)
    ensures Departures(tt, dayOfWeek, now)[2] == ShuttleTime("wolpyeong", WolpyeongName, "Weekdays Only", -1, false)
    ensures Departures(tt, dayOfWeek, now)[1] == Departures(tt, otherDay, now)[1]
  {
  }

  /** In every entry `isOperating` holds exactly when there is a countdown, and every
      entry that is not operating carries -1. */
  lemma OperatingIffCountdown(tt: Timetable, dayOfWeek: int, now: int)
    ensures forall e :: e in Departures(tt, dayOfWeek, now) ==> (e.isOperating <==> e.minutesUntil >= 0)
    ensures forall e :: e in Departures(tt, dayOfWeek, now) && !e.isOperating ==> e.minutesUntil == -1
  {
  }

  /** The OLEV rule on a weekday: "Not Operating" when no window contains `now`; otherwise
      the first window containing `now` decides alone. Its departure is the first
      15-minute slot from the window's start that is not before `now`, provided that slot
      is not past the window's end; otherwise the route is "Not Operating". */
  lemma OlevWindowRule(tt: Timetable, dayOfWeek: int, now: int)
    requires IsWeekday(dayOfWeek)
    ensures (forall k :: 0 <= k < |tt.olevPeriods| ==> !InWindow(tt.olevPeriods[k], now)) ==>
              OlevEntry(tt, dayOfWeek, now) == ShuttleTime("olev", OlevName, "Not Operating", -1, false)
    ensures forall k :: FirstMatch(tt.olevPeriods, now, k) ==>
              var (s, e) := WindowOf(tt.olevPeriods[k]).value;
              var d := Slot(s, now);
              OlevEntry(tt, dayOfWeek, now) ==
                if d <= e then ShuttleTime("olev", OlevName, FormatHHMM(d), d - now, true)
                else ShuttleTime("olev", OlevName, "Not Operating", -1, false)
  {
    IntervalNextRule(tt.olevPeriods, now);
  }

  /** An operating OLEV entry counts down between 0 and 14 minutes, to a slot that is 15
      minutes apart from the others of its window. */
  lemma OlevCountdown(tt: Timetable, dayOfWeek: int, now: int, k: int)
    requires IsWeekday(dayOfWeek) && FirstMatch(tt.olevPeriods, now, k)
    requires OlevEntry(tt, dayOfWeek, now).isOperating
    ensures 0 <= OlevEntry(tt, dayOfWeek, now).minutesUntil <= 14
    ensures OnGrid(WindowOf(tt.olevPeriods[k]).value.0, now + OlevEntry(tt, dayOfWeek, now).minutesUntil)
    ensures now + OlevEntry(tt, dayOfWeek, now).minutesUntil <= WindowOf(tt.olevPeriods[k]).value.1
    ensures now == WindowOf(tt.olevPeriods[k]).value.0 ==> OlevEntry(tt, dayOfWeek, now).minutesUntil == 0
  {
    IntervalNextAt(tt.olevPeriods, now, k);
    var d := Slot(WindowOf(tt.olevPeriods[k]).value.0, now);
    OlevEntryAt(tt, dayOfWeek, now, d);
    assert now + (d - now) == d;
  }

  /** The entry for a departure found by the scan. */
  lemma OlevEntryAt(tt: Timetable, dayOfWeek: int, now: int, d: nat)
    requires IsWeekday(dayOfWeek) && IntervalNext(tt.olevPeriods, now) == Some(d)
    ensures OlevEntry(tt, dayOfWeek, now) == ShuttleTime("olev", OlevName, FormatHHMM(d), d - now, true)
  {
  }

  /** The last 15-minute slot of a window from `s` to `e`. */
  function LastSlot(s: nat, e: nat): (l: nat)
    requires s <= e
    ensures s <= l <= e && e < l + Interval && OnGrid(s, l)
  {
    var q := (e - s) / Interval;
    assert (q * Interval) % Interval == 0;
    s + q * Interval
  }

  /** The slot for `now` stays inside the window exactly when `now` is not past the
      window's last slot. */
  lemma SlotWithinEnd(s: nat, e: nat, now: int)
    requires s <= now <= e
    ensures Slot(s, now) <= e <==> now <= LastSlot(s, e)
  {
    var d := Slot(s, now);
    var l := LastSlot(s, e);
    var a := (d - s) / Interval;
    var b := (l - s) / Interval;
    assert d == s + a * Interval;
    assert l == s + b * Interval;
    if now <= l || d <= e {
      assert a * Interval < b * Interval + Interval;
      assert a <= b;
    }
  }

  /** There is one 15-minute slot of a window in the quarter hour from `now`. */
  lemma SlotUnique(s: nat, now: int, d: int)
    requires s <= now <= d < now + Interval && OnGrid(s, d)
    ensures Slot(s, now) == d
  {
    var a := (Slot(s, now) - s) / Interval;
    var b := (d - s) / Interval;
    assert Slot(s, now) == s + a * Interval;
    assert d == s + b * Interval;
    assert a * Interval < b * Interval + Interval && b * Interval < a * Interval + Interval;
  }

  /** On a weekday OLEV operates exactly when some window contains `now` and `now` is
      not past the last slot of the first such window (so 16:46 to 16:55 is
      "Not Operating" although it lies inside the 13:15 to 16:55 window). */
  lemma OlevOperatingRule(tt: Timetable, dayOfWeek: int, now: int)
    requires IsWeekday(dayOfWeek)
    ensures OlevEntry(tt, dayOfWeek, now).isOperating <==>
      exists k :: FirstMatch(tt.olevPeriods, now, k)
        && now <= LastSlot(WindowOf(tt.olevPeriods[k]).value.0, WindowOf(tt.olevPeriods[k]).value.1)
  {
    var p := tt.olevPeriods;
    IntervalNextRule(p, now);
    if k :| FirstMatch(p, now, k) {
      var (s, e) := WindowOf(p[k]).value;
      SlotWithinEnd(s, e, now);
      forall j | FirstMatch(p, now, j) ensures j == k {
      }
    } else {
      forall k | 0 <= k < |p| ensures !InWindow(p[k], now) {
        if InWindow(p[k], now) {
          var m := FirstWindow(p, now, k);
        }
      }
    }
  }

  /** When some window contains `now`, one of them is the first. */
  lemma {:induction false} FirstWindow(p: seq<Period>, now: int, k: int) returns (m: int)
    requires 0 <= k < |p| && InWindow(p[k], now)
    ensures FirstMatch(p, now, m)
    decreases k
  {
    if exists j :: 0 <= j < k && InWindow(p[j], now) {
      var j :| 0 <= j < k && InWindow(p[j], now);
      m := FirstWindow(p, now, j);
    } else {
      m := k;
    }
  }

  /** The fixed-list rule for Munji: the departure is the first listed time strictly
      after `now` (a bus leaving exactly now is skipped), so the countdown is at least
      one minute; when no listed time is later, the route says "Last bus departed". */
  lemma MunjiRule(tt: Timetable, dayOfWeek: int, now: int)
    ensures var e := Departures(tt, dayOfWeek, now)[1];
      e.isOperating <==> exists k :: 0 <= k < |tt.munjiTimes| && After(tt.munjiTimes[k], now)
    ensures var e := Departures(tt, dayOfWeek, now)[1];
      !e.isOperating ==> e == ShuttleTime("munji", MunjiName, "Last bus departed", -1, false)
    ensures var e := Departures(tt, dayOfWeek, now)[1];
      e.isOperating ==> exists k :: (0 <= k < |tt.munjiTimes|
        && e.nextDeparture == tt.munjiTimes[k] && After(tt.munjiTimes[k], now)
        && e.minutesUntil == ParseHHMM(tt.munjiTimes[k]).value - now >= 1
        && forall j :: 0 <= j < k ==> !After(tt.munjiTimes[j], now))
  {
    var r := FirstAfter(tt.munjiTimes, now);
    if r.Some? {
      assert 0 <= r.value < |tt.munjiTimes| && After(tt.munjiTimes[r.value], now);
    }
  }

  /** The fixed-list rule for Wolpyeong on a weekday; an operating entry is named after
      the direction of the trip it found. */
  lemma WolpyeongRule(tt: Timetable, dayOfWeek: int, now: int)
    requires IsWeekday(dayOfWeek)
    ensures var e := Departures(tt, dayOfWeek, now)[2];
      e.isOperating <==> exists k :: 0 <= k < |tt.wolpyeongTimes| && After(tt.wolpyeongTimes[k].time, now)
    ensures var e := Departures(tt, dayOfWeek, now)[2];
      !e.isOperating ==> e == ShuttleTime("wolpyeong", WolpyeongName, "Last bus departed", -1, false)
    ensures var e := Departures(tt, dayOfWeek, now)[2];
      e.isOperating ==> exists k :: (0 <= k < |tt.wolpyeongTimes|
        && e.nextDeparture == tt.wolpyeongTimes[k].time
        && e.routeName == "Wolpyeong (" + tt.wolpyeongTimes[k].dir + ")"
        && After(tt.wolpyeongTimes[k].time, now)
        && e.minutesUntil == ParseHHMM(tt.wolpyeongTimes[k].time).value - now >= 1
        && forall j :: 0 <= j < k ==> !After(tt.wolpyeongTimes[j].time, now))
  {
    var times := TripTimes(tt.wolpyeongTimes);
    var r := FirstAfter(times, now);
    if r.Some? {
      assert 0 <= r.value < |tt.wolpyeongTimes| && After(tt.wolpyeongTimes[r.value].time, now);
    } else {
      forall k | 0 <= k < |tt.wolpyeongTimes| ensures !After(tt.wolpyeongTimes[k].time, now) {
        assert times[k] == tt.wolpyeongTimes[k].time;
      }
    }
  }

  /** The listed times parse and are in strictly ascending order. */
  ghost predicate Ascending(times: seq<string>) {
    (forall k :: 0 <= k < |times| ==> ParseHHMM(times[k]).Some?)
    && forall j, k :: 0 <= j < k < |times| ==> ParseHHMM(times[j]).value < ParseHHMM(times[k]).value
  }

  /** On an ascending list the first time after `now` is the earliest of all listed
      times after `now`. */
  lemma FirstAfterIsEarliest(times: seq<string>, now: int)
    requires Ascending(times)
    ensures var r := FirstAfter(times, now);
      r.Some? ==> forall j :: 0 <= j < |times| && After(times[j], now) ==>
        ParseHHMM(times[r.value]).value <= ParseHHMM(times[j]).value
  {
    var r := FirstAfter(times, now);
    if r.Some? {
      forall j | 0 <= j < |times| && After(times[j], now)
        ensures ParseHHMM(times[r.value]).value <= ParseHHMM(times[j]).value
      {
      }
    }
  }

  // ---------------------------------------------------------------- timetables of clock strings

  /** The listed times are well-formed "HH:MM" clocks standing for the minutes `mins`. */
  ghost predicate ClockList(times: seq<string>, mins: seq<nat>) {
    |times| == |mins| && forall k :: 0 <= k < |times| ==> IsClock(times[k]) && ClockMinutes(times[k]) == mins[k]
  }

  /** A list is well formed when both parts on either side of `i` are. */
  lemma ClockListParts(times: seq<string>, mins: seq<nat>, i: nat)
    requires i <= |times| && |times| == |mins|
    requires ClockList(times[..i], mins[..i]) && ClockList(times[i..], mins[i..])
    ensures ClockList(times, mins)
  {
    forall k | 0 <= k < |times| ensures IsClock(times[k]) && ClockMinutes(times[k]) == mins[k] {
      if k < i {
        assert times[k] == times[..i][k] && mins[k] == mins[..i][k];
      } else {
        assert times[k] == times[i..][k - i] && mins[k] == mins[i..][k - i];
      }
    }
  }

  /** Each entry is larger than the one before it. */
  ghost predicate Increasing(mins: seq<nat>) {
    forall k :: 0 <= k < |mins| - 1 ==> mins[k] < mins[k + 1]
  }

  lemma {:induction false} IncreasingPairwise(mins: seq<nat>)
    requires Increasing(mins)
    ensures forall j, k :: 0 <= j < k < |mins| ==> mins[j] < mins[k]
    decreases |mins|
  {
    if |mins| > 1 {
      IncreasingPairwise(mins[1..]);
      forall j, k | 0 <= j < k < |mins| ensures mins[j] < mins[k] {
        if j > 0 {
          assert mins[1..][j - 1] < mins[1..][k - 1];
        } else if k > 1 {
          assert mins[1..][0] < mins[1..][k - 1];
        }
      }
    }
  }

  lemma ClockListParses(times: seq<string>, mins: seq<nat>)
    requires ClockList(times, mins)
    ensures forall k :: 0 <= k < |times| ==> ParseHHMM(times[k]) == Some(mins[k])
  {
    forall k | 0 <= k < |times| ensures ParseHHMM(times[k]) == Some(mins[k]) {
      ParseClock(times[k]);
    }
  }

  /** A window of two clocks spans their minutes. */
  lemma WindowOfClock(p: Period)
    requires IsClock(p.start) && IsClock(p.end)
    ensures WindowOf(p) == Some((ClockMinutes(p.start), ClockMinutes(p.end)))
  {
    ParseClock(p.start);
    ParseClock(p.end);
  }

  /** Clocks whose minutes increase step by step form an ascending list. */
  lemma ClockAscending(times: seq<string>, mins: seq<nat>)
    requires ClockList(times, mins) && Increasing(mins)
    ensures Ascending(times)
  {
    ClockListParses(times, mins);
    IncreasingPairwise(mins);
  }

  /** On such a list some time is later than `now` exactly when `now` is before the
      last one. */
  lemma LatestDeparture(times: seq<string>, mins: seq<nat>, now: int)
    requires ClockList(times, mins) && Increasing(mins) && |mins| > 0
    ensures (exists k :: 0 <= k < |times| && After(times[k], now)) <==> now < mins[|mins| - 1]
  {
    ClockListParses(times, mins);
    IncreasingPairwise(mins);
    if now < mins[|mins| - 1] {
      assert After(times[|times| - 1], now);
    } else {
      forall k | 0 <= k < |times| ensures !After(times[k], now) {
        assert mins[k] <= mins[|mins| - 1];
      }
    }
  }

  /** The first listed clock later than `now`, by minutes. */
  lemma FirstAfterClock(times: seq<string>, mins: seq<nat>, now: int, k: nat)
    requires ClockList(times, mins)
    requires k < |mins| && mins[k] > now && forall j :: 0 <= j < k ==> mins[j] <= now
    ensures FirstAfter(times, now) == Some(k)
  {
    ClockListParses(times, mins);
    assert After(times[k], now);
  }

  /** A badge or a coloured countdown appears only on an operating entry. */
  lemma UrgencyOnlyWhenOperating(tt: Timetable, dayOfWeek: int, now: int)
    ensures forall e :: e in Departures(tt, dayOfWeek, now) ==>
      (UrgencyBadge(e.minutesUntil).Some? ==> e.isOperating)
      && (StatusColor(e.minutesUntil) == "text-gray-400" <==> !e.isOperating)
  {
    OperatingIffCountdown(tt, dayOfWeek, now);
  }
}
