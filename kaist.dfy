/** The tracker's own timetables: they are well-formed "HH:MM" clocks in ascending
    order, and with them the general rules give the service hours and the worked
    departures below. Each fact about the strings is first reduced to minutes, once. */
module KaistSchedule {
  import opened Optional
  import opened TimeOfDay
  import opened Shuttle
  import opened ShuttleProperties

  // ---------------------------------------------------------------- the timetables in minutes

  lemma OlevShape()
    ensures |Kaist.olevPeriods| == 2
    ensures forall k :: 0 <= k < 2 ==> IsClock(Kaist.olevPeriods[k].start) && IsClock(Kaist.olevPeriods[k].end)
    ensures ClockMinutes(Kaist.olevPeriods[0].start) == 525 && ClockMinutes(Kaist.olevPeriods[0].end) == 705
    ensures ClockMinutes(Kaist.olevPeriods[1].start) == 795 && ClockMinutes(Kaist.olevPeriods[1].end) == 1015
  {
  }

  const MunjiMinutes: seq<nat> := [480, 540, 600, 720, 780, 840, 960, 1020, 1080, 1200]

  lemma MunjiShape()
    ensures ClockList(Kaist.munjiTimes, MunjiMinutes) && Increasing(MunjiMinutes)
  {
    MunjiMorning();
    MunjiAfternoon();
    ClockListParts(Kaist.munjiTimes, MunjiMinutes, 5);
    MunjiIncreasing();
  }

  lemma MunjiMorning()
    ensures ClockList(Kaist.munjiTimes[..5], MunjiMinutes[..5])
  {
  }

  lemma MunjiAfternoon()
    ensures ClockList(Kaist.munjiTimes[5..], MunjiMinutes[5..])
  {
  }

  lemma MunjiIncreasing()
    ensures Increasing(MunjiMinutes)
  {
  }

  const WolpyeongMinutes: seq<nat> := [470, 500, 540, 720, 780, 1020, 1080]

  lemma WolpyeongShape()
    ensures ClockList(TripTimes(Kaist.wolpyeongTimes), WolpyeongMinutes) && Increasing(WolpyeongMinutes)
  {
    WolpyeongMorning();
    WolpyeongAfternoon();
    ClockListParts(TripTimes(Kaist.wolpyeongTimes), WolpyeongMinutes, 4);
    WolpyeongIncreasing();
  }

  lemma WolpyeongMorning()
    ensures ClockList(TripTimes(Kaist.wolpyeongTimes)[..4], WolpyeongMinutes[..4])
  {
  }

  lemma WolpyeongAfternoon()
    ensures ClockList(TripTimes(Kaist.wolpyeongTimes)[4..], WolpyeongMinutes[4..])
  {
  }

  lemma WolpyeongIncreasing()
    ensures Increasing(WolpyeongMinutes)
  {
  }

  /** Both fixed lists parse and are strictly ascending, so the first later departure
      is also the earliest one (`FirstAfterIsEarliest`). */
  lemma KaistAscending()
    ensures Ascending(Kaist.munjiTimes)
    ensures Ascending(TripTimes(Kaist.wolpyeongTimes))
  {
    MunjiShape();
    WolpyeongShape();
    ClockAscending(Kaist.munjiTimes, MunjiMinutes);
    ClockAscending(TripTimes(Kaist.wolpyeongTimes), WolpyeongMinutes);
  }

  // ---------------------------------------------------------------- service hours

  /** OLEV on a weekday: from 08:45 to 11:45 and from 13:15 to 16:45 (the 16:55 end is
      not on the 15-minute grid, so from 16:46 on it is "Not Operating"). */
  lemma OlevHours(dayOfWeek: int, now: int)
    requires IsWeekday(dayOfWeek)
    ensures Departures(Kaist, dayOfWeek, now)[0].isOperating <==> (525 <= now <= 705 || 795 <= now <= 1005)
  {
    var p := Kaist.olevPeriods;
    OlevShape();
    WindowOfClock(p[0]);
    WindowOfClock(p[1]);
    TwoWindows(p, now);
  }

  lemma TwoWindows(p: seq<Period>, now: int)
    requires |p| == 2
    requires WindowOf(p[0]) == Some((525, 705)) && WindowOf(p[1]) == Some((795, 1015))
    ensures Shuttle.IntervalNext(p, now).Some? <==> (525 <= now <= 705 || 795 <= now <= 1005)
  {
    IntervalNextRule(p, now);
    if 525 <= now <= 705 {
      assert FirstMatch(p, now, 0);
      SlotWithinEnd(525, 705, now);
    } else if 795 <= now <= 1015 {
      assert FirstMatch(p, now, 1);
      SlotWithinEnd(795, 1015, now);
    }
  }

  /** Munji, any day: operating until the last bus at 20:00 has left. */
  lemma MunjiHours(dayOfWeek: int, now: int)
    ensures Departures(Kaist, dayOfWeek, now)[1].isOperating <==> now < 1200
  {
    MunjiShape();
    MunjiLast(Kaist, dayOfWeek, now);
  }

  lemma MunjiLast(tt: Timetable, dayOfWeek: int, now: int)
    requires ClockList(tt.munjiTimes, MunjiMinutes) && Increasing(MunjiMinutes)
    ensures Departures(tt, dayOfWeek, now)[1].isOperating <==> now < 1200
  {
    MunjiRule(tt, dayOfWeek, now);
    LatestDeparture(tt.munjiTimes, MunjiMinutes, now);
  }

  /** Wolpyeong on a weekday: operating until the last trip at 18:00 has left. */
  lemma WolpyeongHours(dayOfWeek: int, now: int)
    requires IsWeekday(dayOfWeek)
    ensures Departures(Kaist, dayOfWeek, now)[2].isOperating <==> now < 1080
  {
    WolpyeongShape();
    WolpyeongLast(Kaist, dayOfWeek, now);
  }

  lemma WolpyeongLast(tt: Timetable, dayOfWeek: int, now: int)
    requires IsWeekday(dayOfWeek)
    requires ClockList(TripTimes(tt.wolpyeongTimes), WolpyeongMinutes) && Increasing(WolpyeongMinutes)
    ensures Departures(tt, dayOfWeek, now)[2].isOperating <==> now < 1080
  {
    WolpyeongRule(tt, dayOfWeek, now);
    var times := TripTimes(tt.wolpyeongTimes);
    LatestDeparture(times, WolpyeongMinutes, now);
    if now < 1080 {
      var k :| 0 <= k < |times| && After(times[k], now);
      assert After(tt.wolpyeongTimes[k].time, now);
    }
  }

  // ---------------------------------------------------------------- worked departures

  /** A weekday at 09:02: the next OLEV leaves at 09:15, in 13 minutes. */
  lemma OlevAt0902(dayOfWeek: int)
    requires IsWeekday(dayOfWeek)
    ensures Departures(Kaist, dayOfWeek, 542)[0] == ShuttleTime("olev", "OLEV Shuttle", "09:15", 13, true)
  {
    OlevMorningSlot(dayOfWeek, 542, 555);
    Text0915();
  }

  /** A weekday at 08:45 sharp: OLEV leaves now. */
  lemma OlevAt0845(dayOfWeek: int)
    requires IsWeekday(dayOfWeek)
    ensures Departures(Kaist, dayOfWeek, 525)[0] == ShuttleTime("olev", "OLEV Shuttle", "08:45", 0, true)
  {
    OlevMorningSlot(dayOfWeek, 525, 525);
    Text0845();
  }

  lemma Text0915()
    ensures FormatHHMM(555) == "09:15"
  {
    TwoDigitsValue(9);
    TwoDigitsValue(15);
  }

  lemma Text0845()
    ensures FormatHHMM(525) == "08:45"
  {
    TwoDigitsValue(8);
    TwoDigitsValue(45);
  }

  /** A slot of the 08:45 to 11:45 window. */
  lemma OlevMorningSlot(dayOfWeek: int, now: int, d: nat)
    requires IsWeekday(dayOfWeek)
    requires 525 <= now <= d <= 705 && d < now + Interval && OnGrid(525, d)
    ensures Departures(Kaist, dayOfWeek, now)[0] == ShuttleTime("olev", OlevName, FormatHHMM(d), d - now, true)
  {
    OlevShape();
    WindowOfClock(Kaist.olevPeriods[0]);
    OlevSlotFor(Kaist, dayOfWeek, now, d);
  }

  /** A 15-minute slot `d` of the first window, not before `now` and less than 15
      minutes after it, is the OLEV departure for `now`. */
  lemma OlevSlotFor(tt: Timetable, dayOfWeek: int, now: int, d: nat)
    requires IsWeekday(dayOfWeek) && |tt.olevPeriods| > 0 && WindowOf(tt.olevPeriods[0]).Some?
    requires var (s, e) := WindowOf(tt.olevPeriods[0]).value;
      s <= now <= d <= e && d < now + Interval && OnGrid(s, d)
    ensures Departures(tt, dayOfWeek, now)[0] == ShuttleTime("olev", OlevName, FormatHHMM(d), d - now, true)
  {
    var p := tt.olevPeriods;
    var (s, e) := WindowOf(p[0]).value;
    assert FirstMatch(p, now, 0);
    IntervalNextAt(p, now, 0);
    SlotUnique(s, now, d);
    OlevEntryAt(tt, dayOfWeek, now, d);
  }

  /** A day at 10:30: the next Munji bus is the 12:00 one, in 90 minutes. */
  lemma MunjiAt1030(dayOfWeek: int)
    ensures Departures(Kaist, dayOfWeek, 630)[1] == ShuttleTime("munji", "Main-Munji-Hwaam", "12:00", 90, true)
  {
    MunjiShape();
    FirstAfterClock(Kaist.munjiTimes, MunjiMinutes, 630, 3);
    ClockListParses(Kaist.munjiTimes, MunjiMinutes);
  }

  /** A weekday at 12:30: the next Wolpyeong trip is the 13:00 one towards the campus. */
  lemma WolpyeongAt1230(dayOfWeek: int)
    requires IsWeekday(dayOfWeek)
    ensures Departures(Kaist, dayOfWeek, 750)[2]
      == ShuttleTime("wolpyeong", "Wolpyeong (To Campus)", "13:00", 30, true)
  {
    WolpyeongFifthTrip(dayOfWeek);
    FifthTrip();
  }

  lemma FifthTrip()
    ensures Kaist.wolpyeongTimes[4] == Trip("13:00", "To Campus")
    ensures WolpyeongTripName("To Campus") == "Wolpyeong (To Campus)"
  {
  }

  lemma WolpyeongFifthTrip(dayOfWeek: int)
    requires IsWeekday(dayOfWeek)
    ensures Departures(Kaist, dayOfWeek, 750)[2] == ShuttleTime("wolpyeong",
      WolpyeongTripName(Kaist.wolpyeongTimes[4].dir), Kaist.wolpyeongTimes[4].time, 30, true)
  {
    WolpyeongShape();
    WolpyeongTrip(Kaist, dayOfWeek, 750, WolpyeongMinutes, 4);
  }

  /** The Wolpyeong entry for the `k`-th trip, the first one later than `now`. */
  lemma WolpyeongTrip(tt: Timetable, dayOfWeek: int, now: int, mins: seq<nat>, k: nat)
    requires IsWeekday(dayOfWeek) && ClockList(TripTimes(tt.wolpyeongTimes), mins)
    requires k < |mins| && mins[k] > now && forall j :: 0 <= j < k ==> mins[j] <= now
    ensures Departures(tt, dayOfWeek, now)[2] == ShuttleTime("wolpyeong",
      WolpyeongTripName(tt.wolpyeongTimes[k].dir), tt.wolpyeongTimes[k].time, mins[k] - now, true)
  {
    var times := TripTimes(tt.wolpyeongTimes);
    FirstAfterClock(times, mins, now, k);
    ClockListParses(times, mins);
    assert times[k] == tt.wolpyeongTimes[k].time;
  }

  // ---------------------------------------------------------------- a shorter fixed list

  const ShortTimes: seq<string> := ["08:00", "09:00", "10:00", "12:00"]
  const ShortMinutes: seq<nat> := [480, 540, 600, 720]

  lemma ShortShape()
    ensures ClockList(ShortTimes, ShortMinutes) && Increasing(ShortMinutes)
  {
  }

  /** With the Munji list cut to 08:00, 09:00, 10:00 and 12:00, the next bus at 10:30 is
      the 12:00 one, in 90 minutes. */
  lemma ShortListAt1030(tt: Timetable, dayOfWeek: int)
    requires tt.munjiTimes == ShortTimes
    ensures Departures(tt, dayOfWeek, 630)[1] == ShuttleTime("munji", "Main-Munji-Hwaam", "12:00", 90, true)
  {
    ShortShape();
    FirstAfterClock(tt.munjiTimes, ShortMinutes, 630, 3);
    ClockListParses(tt.munjiTimes, ShortMinutes);
  }

  /** With that list, at 12:01 the last bus has left. */
  lemma ShortListAt1201(tt: Timetable, dayOfWeek: int)
    requires tt.munjiTimes == ShortTimes
    ensures Departures(tt, dayOfWeek, 721)[1] == ShuttleTime("munji", "Main-Munji-Hwaam", "Last bus departed", -1, false)
  {
    ShortShape();
    MunjiRule(tt, dayOfWeek, 721);
    LatestDeparture(tt.munjiTimes, ShortMinutes, 721);
  }
}
