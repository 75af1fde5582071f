/** The world light: `Game::checkLight` over the days of a running server. */
module LightCycle {

  const LIGHT_DAY_LENGTH := 1440
  const LIGHT_LEVEL_DAY := 250
  const LIGHT_LEVEL_NIGHT := 40
  const SUNSET := 1050
  const SUNRISE := 360
  const EVENT_LIGHTINTERVAL_MS := 10000
  const DAY_LENGTH_SECONDS := 3600
  const DELTA: int := LIGHT_DAY_LENGTH * (EVENT_LIGHTINTERVAL_MS / 1000) / DAY_LENGTH_SECONDS

  /** Checks in one day. */
  const DAY_TICKS: nat := 360

  datatype LightState = Day | Night | Sunset | Sunrise

  datatype Light = Light(hour: int, level: int, state: LightState)

  /** The server starts in full daylight, at the hour its clock's minute stands for. */
  function Started(minute: nat): Light {
    Light(minute * LIGHT_DAY_LENGTH / 60, LIGHT_LEVEL_DAY, Day)
  }

  function Abs(x: int): nat {
    if x < 0 then -x else x
  }

  function NextHour(hour: int): int {
    if hour + DELTA > LIGHT_DAY_LENGTH then hour + DELTA - LIGHT_DAY_LENGTH else hour + DELTA
  }

  function StateAt(hour: int, state: LightState): LightState {
    if Abs(hour - SUNRISE) < 2 * DELTA then Sunrise
    else if Abs(hour - SUNSET) < 2 * DELTA then Sunset
    else state
  }

  /** `checkLight`. */
  function Check(l: Light): Light {
    var hour := NextHour(l.hour);
    var state := StateAt(hour, l.state);
    var step := (LIGHT_LEVEL_DAY - LIGHT_LEVEL_NIGHT) / 30;
    var level := if state == Sunrise then l.level + step else if state == Sunset then l.level - step else l.level;
    if level <= LIGHT_LEVEL_NIGHT then Light(hour, LIGHT_LEVEL_NIGHT, Night)
    else if level >= LIGHT_LEVEL_DAY then Light(hour, LIGHT_LEVEL_DAY, Day)
    else Light(hour, level, state)
  }

  function After(l: Light, ticks: nat): Light {
    if ticks == 0 then l else Check(After(l, ticks - 1))
  }

  // ---------------------------------------------------------------- the timetable

  /** The light at an hour of any day but the first: up from 356 to 472, down from 1044 to 1160,
      by seven in each of thirty checks. */
  function Timetable(hour: int): Light {
    if hour < 356 || hour >= 1160 then Light(hour, LIGHT_LEVEL_NIGHT, Night)
    else if hour < 472 then Light(hour, LIGHT_LEVEL_NIGHT + 7 * ((hour - 352) / 4), Sunrise)
    else if hour < 1044 then Light(hour, LIGHT_LEVEL_DAY, Day)
    else Light(hour, LIGHT_LEVEL_DAY - 7 * ((hour - 1040) / 4), Sunset)
  }

  /** The hours a running server can show. */
  predicate OnGrid(hour: int) {
    0 <= hour <= LIGHT_DAY_LENGTH && hour % 4 == 0
  }

  /** Either the timetable is followed, or it is still the daylight of the start, which was not
      inside the window that switches to sunset. */
  predicate Reachable(l: Light) {
    OnGrid(l.hour) && (l == Timetable(l.hour)
                       || (l.level == LIGHT_LEVEL_DAY && l.state == Day && !(1044 <= l.hour <= 1052)))
  }

  lemma CheckFollows(l: Light)
    requires OnGrid(l.hour) && l == Timetable(l.hour)
    ensures Check(l) == Timetable(Check(l).hour) && OnGrid(Check(l).hour)
  {
    assert DELTA == 4;
  }

  lemma CheckKeeps(l: Light)
    requires Reachable(l)
    ensures Reachable(Check(l)) && (l.hour == 1040 ==> Check(l) == Timetable(1044))
    ensures Check(l).hour == if l.hour + 4 > 1440 then l.hour - 1436 else l.hour + 4
  {
    assert DELTA == 4;
    if l == Timetable(l.hour) {
      CheckFollows(l);
    }
  }

  /** Checks until the hour is 1044. */
  function TicksToSunset(hour: int): int {
    if hour < 1044 then (1044 - hour) / 4 else (1044 + 1440 - hour) / 4
  }

  /** In every reachable state the level is between night and day, and the two resting states
      hold exactly at the two ends; not later than at the first sunset the timetable is followed. */
  lemma {:induction false} RunFollows(minute: nat, ticks: nat)
    requires minute < 60
    ensures var l := After(Started(minute), ticks);
            && Reachable(l)
            && (ticks >= TicksToSunset(Started(minute).hour) ==> l == Timetable(l.hour))
            && (ticks < TicksToSunset(Started(minute).hour) ==>
                  TicksToSunset(l.hour) == TicksToSunset(Started(minute).hour) - ticks)
  {
    assert Started(minute).hour == 24 * minute;
    if ticks > 0 {
      var l := After(Started(minute), ticks - 1);
      RunFollows(minute, ticks - 1);
      CheckKeeps(l);
      if ticks > TicksToSunset(Started(minute).hour) {
        CheckFollows(l);
      }
    }
  }

  /** Until the first sunset it is full daylight, at night and at sunrise too. */
  lemma {:induction false} DaylightAtFirst(minute: nat, ticks: nat)
    requires minute < 60 && ticks < TicksToSunset(Started(minute).hour)
    ensures var l := After(Started(minute), ticks); l.level == LIGHT_LEVEL_DAY && l.state == Day
  {
    if ticks > 0 {
      var l := After(Started(minute), ticks - 1);
      DaylightAtFirst(minute, ticks - 1);
      RunFollows(minute, ticks - 1);
      DaylightStays(l);
    }
  }

  lemma DaylightStays(l: Light)
    requires OnGrid(l.hour) && l.level == LIGHT_LEVEL_DAY && l.state == Day && TicksToSunset(l.hour) >= 2
    requires !(1044 <= l.hour <= 1052)
    ensures Check(l).level == LIGHT_LEVEL_DAY && Check(l).state == Day
  {
    assert DELTA == 4;
  }

  lemma LevelsAndStates(l: Light)
    requires Reachable(l)
    ensures LIGHT_LEVEL_NIGHT <= l.level <= LIGHT_LEVEL_DAY
    ensures (l.state == Day <==> l.level == LIGHT_LEVEL_DAY) && (l.state == Night <==> l.level == LIGHT_LEVEL_NIGHT)
  {
  }

  /** After at most one day the light is a function of the hour. */
  lemma FollowsAfterADay(minute: nat, ticks: nat)
    requires minute < 60 && ticks >= DAY_TICKS
    ensures var l := After(Started(minute), ticks); l == Timetable(l.hour)
  {
    assert Started(minute).hour == 24 * minute;
    RunFollows(minute, ticks);
  }

  /** The hour after some checks. */
  function HourAt(hour: int, ticks: nat): int {
    4 + (hour - 4 + 4 * ticks) % 1440
  }

  lemma HourStep(hour: int, ticks: nat)
    requires ticks > 0 && OnGrid(hour)
    ensures var h := HourAt(hour, ticks - 1);
            HourAt(hour, ticks) == if h + 4 > 1440 then h - 1436 else h + 4
  {
    var x := hour - 4 + 4 * (ticks - 1);
    var q, r := x / 1440, x % 1440;
    assert x == 1440 * q + r && r % 4 == 0;
    if r + 4 == 1440 {
      assert x + 4 == 1440 * (q + 1);
    } else {
      assert x + 4 == 1440 * q + (r + 4);
    }
  }

  lemma {:induction false} HourAfter(l: Light, ticks: nat)
    requires Reachable(l) && l.hour > 0
    ensures After(l, ticks).hour == HourAt(l.hour, ticks) && Reachable(After(l, ticks))
  {
    if ticks > 0 {
      HourAfter(l, ticks - 1);
      CheckKeeps(After(l, ticks - 1));
      HourStep(l.hour, ticks);
    }
  }

  /** The hour of a running server, from the minute at which it started. */
  lemma HourFromStart(minute: nat, hour: int, ticks: nat)
    requires minute < 60 && ticks > 0 && hour == 24 * minute
    ensures After(Started(minute), ticks).hour == 4 + (hour - 4 + 4 * ticks) % 1440
  {
    var l := Started(minute);
    StartHour(minute, hour);
    if minute > 0 {
      HourAfter(l, ticks);
    } else {
      FromMidnight(l, ticks);
    }
  }

  lemma StartHour(minute: nat, hour: int)
    requires minute < 60 && hour == 24 * minute
    ensures Started(minute).hour == hour && Reachable(Started(minute))
  {
  }

  lemma FromMidnight(l: Light, ticks: nat)
    requires Reachable(l) && l.hour == 0 && ticks > 0
    ensures After(l, ticks).hour == HourAt(0, ticks)
  {
    var n := ticks - 1;
    CheckKeeps(l);
    FirstCheck(l, n);
    HourAfter(Check(l), n);
    SameHour(n);
  }

  lemma FirstCheck(l: Light, n: nat)
    ensures After(l, n + 1) == After(Check(l), n)
  {
    AfterAdds(l, 1, n);
    assert After(l, 1) == Check(After(l, 0)) == Check(l);
  }

  lemma SameHour(n: nat)
    ensures HourAt(4, n) == HourAt(0, n + 1)
  {
  }

  lemma {:induction false} AfterAdds(l: Light, a: nat, b: nat)
    ensures After(l, a + b) == After(After(l, a), b)
  {
    if b > 0 {
      AfterAdds(l, a, b - 1);
      assert a + b - 1 == a + (b - 1);
    }
  }

  /** From then on every day is like the day before. */
  lemma Periodic(minute: nat, ticks: nat)
    requires minute < 60 && ticks >= DAY_TICKS
    ensures After(Started(minute), ticks + DAY_TICKS) == After(Started(minute), ticks)
  {
    SameADayLater(minute, ticks, DAY_TICKS);
  }

  lemma SameADayLater(minute: nat, ticks: nat, day: nat)
    requires minute < 60 && ticks >= day == DAY_TICKS
    ensures After(Started(minute), ticks + day) == After(Started(minute), ticks)
  {
    FollowsAfterADay(minute, ticks);
    FollowsAfterADay(minute, ticks + day);
    HourReturns(minute, ticks, day);
  }

  lemma HourReturns(minute: nat, ticks: nat, day: nat)
    requires minute < 60 && ticks >= 1 && day == DAY_TICKS
    ensures After(Started(minute), ticks + day).hour == After(Started(minute), ticks).hour
  {
    var l := After(Started(minute), ticks);
    PositiveHour(minute, ticks);
    AfterAdds(Started(minute), ticks, day);
    DayPasses(l, day);
  }

  lemma PositiveHour(minute: nat, ticks: nat)
    requires minute < 60 && ticks >= 1
    ensures Reachable(After(Started(minute), ticks)) && After(Started(minute), ticks).hour > 0
  {
    RunFollows(minute, ticks - 1);
    CheckKeeps(After(Started(minute), ticks - 1));
  }

  lemma DayPasses(l: Light, day: nat)
    requires Reachable(l) && l.hour > 0 && day == DAY_TICKS
    ensures After(l, day).hour == l.hour
  {
    HourAfter(l, day);
    FullCircle(l.hour - 4, day);
  }

  lemma FullCircle(x: int, day: nat)
    requires 0 <= x < 1440 && day == DAY_TICKS
    ensures (x + 4 * day) % 1440 == x
  {
    assert x + 4 * day == x + 1440;
  }

  /** A ramp changes the level in exactly thirty checks, from one resting state to the other. */
  lemma RampsTakeThirty(hour: int, k: nat)
    requires 1 <= k <= 30 && (hour == 352 || hour == 1040)
    ensures var l := After(Timetable(hour), k);
            && l.level == (if hour == 352 then LIGHT_LEVEL_NIGHT + 7 * k else LIGHT_LEVEL_DAY - 7 * k)
            && (l.state == Day || l.state == Night <==> k == 30)
            && Timetable(hour).state == (if hour == 352 then Night else Day)
  {
    assert OnGrid(hour);
    RampHour(hour, k, hour + 4 * k);
  }

  lemma OneMore(hour: int)
    requires OnGrid(hour) && hour + 4 <= 1440
    ensures Check(Timetable(hour)) == Timetable(hour + 4) && OnGrid(hour + 4)
  {
    CheckFollows(Timetable(hour));
    CheckKeeps(Timetable(hour));
  }

  lemma {:induction false} RampHour(hour: int, k: nat, later: int)
    requires OnGrid(hour) && later == hour + 4 * k <= 1440
    ensures After(Timetable(hour), k) == Timetable(later) && OnGrid(later)
  {
    if k > 0 {
      RampHour(hour, k - 1, later - 4);
      OneMore(later - 4);
    }
  }

  // ---------------------------------------------------------------- the game's method

  class WorldLight {
    var lightHour: int
    var lightLevel: int
    var lightState: LightState

    ghost function View(): Light
      reads this
    {
      Light(lightHour, lightLevel, lightState)
    }

    constructor (minute: nat)
      requires minute < 60
      ensures View() == Started(minute) && Reachable(View())
    {
      lightHour, lightLevel, lightState := minute * LIGHT_DAY_LENGTH / 60, LIGHT_LEVEL_DAY, Day;
      assert minute * LIGHT_DAY_LENGTH / 60 == 24 * minute;
    }

    method CheckLight()
      requires Reachable(View())
      modifies this
      ensures View() == Check(old(View())) && Reachable(View())
    {
      CheckKeeps(View());
      AdvanceHour();
      var newLightLevel := lightLevel;
      if lightState == Sunrise {
        newLightLevel := newLightLevel + (LIGHT_LEVEL_DAY - LIGHT_LEVEL_NIGHT) / 30;
      } else if lightState == Sunset {
        newLightLevel := newLightLevel - (LIGHT_LEVEL_DAY - LIGHT_LEVEL_NIGHT) / 30;
      }
      if newLightLevel <= LIGHT_LEVEL_NIGHT {
        lightLevel, lightState := LIGHT_LEVEL_NIGHT, Night;
      } else if newLightLevel >= LIGHT_LEVEL_DAY {
        lightLevel, lightState := LIGHT_LEVEL_DAY, Day;
      } else {
        lightLevel := newLightLevel;
      }
    }

    /** The first half of `checkLight`: the hour, and the state it asks for. */
    method AdvanceHour()
      modifies this`lightHour, this`lightState
      ensures lightHour == NextHour(old(lightHour)) && lightState == StateAt(lightHour, old(lightState))
    {
      lightHour := lightHour + DELTA;
      if lightHour > LIGHT_DAY_LENGTH {
        lightHour := lightHour - LIGHT_DAY_LENGTH;
      }
      if Abs(lightHour - SUNRISE) < 2 * DELTA {
        lightState := Sunrise;
      } else if Abs(lightHour - SUNSET) < 2 * DELTA {
        lightState := Sunset;
      }
    }
  }
}
