/**
 * What the library reads out of a zone record (pyephember2.py: the zone_*
 * getters, scheduletime_to_time, getZoneTime, zone_get_running_program and
 * zone_is_scheduled_on). Temperatures are integer tenths of a degree; times of
 * day are minutes since midnight.
 */
module ZoneView {
  import opened Wrappers
  import opened ZoneData

  /** A point value of a function whose index never depends on the mode. */
  function Point(z: Zone, f: EphFunction): (r: Option<int>)
    requires f != TargetTempWrite
    ensures PointValue(z, f) == Ok(r)
  {
    PointValue(z, f).value
  }

  /** The value of the first entry with this index, if any (the search of zone_pointdata_value). */
  function FirstEntry(points: seq<PointEntry>, index: int): Option<int>
  {
    var k := FindPoint(points, index);
    if k < |points| then Some(points[k].value) else None
  }

  predicate Absent(points: seq<PointEntry>, index: int)
  {
    forall k :: 0 <= k < |points| ==> points[k].pointIndex != index
  }

  /** zone_current_temperature: the CURRENT_TEMP point (index 5), 0 when absent. */
  function CurrentTemperature(z: Zone): (t: int)
    ensures t == (match FirstEntry(z.points, 5) case Some(v) => v case None => 0)
  {
    match Point(z, CurrentTemp) case Some(v) => v case None => 0
  }

  /** zone_boost_temperature: the BOOST_TEMP point (index 14), 0 when absent. */
  function BoostTemperature(z: Zone): (t: int)
    ensures t == (match FirstEntry(z.points, 14) case Some(v) => v case None => 0)
  {
    match Point(z, BoostTemp) case Some(v) => v case None => 0
  }

  /**
   * zone_max_temperature: the MAX_TEMP point (index 7, families 258 and 514
   * only); otherwise 60.0 degrees for hot water and 35.0 for heating.
   */
  function MaxTemperature(z: Zone): (t: int)
    ensures z.deviceType in {258, 514} && FirstEntry(z.points, 7).Some? ==> t == FirstEntry(z.points, 7).value
    ensures z.deviceType !in {258, 514} || FirstEntry(z.points, 7).None? ==> t == if IsHotWater(z) then 600 else 350
  {
    match Point(z, MaxTemp) case Some(v) => v case None => if IsHotWater(z) then 600 else 350
  }

  /** zone_min_temperature: the MIN_TEMP point (index 8, families 258 and 514 only); otherwise 5.0 degrees. */
  function MinTemperature(z: Zone): (t: int)
    ensures z.deviceType in {258, 514} && FirstEntry(z.points, 8).Some? ==> t == FirstEntry(z.points, 8).value
    ensures z.deviceType !in {258, 514} || FirstEntry(z.points, 8).None? ==> t == 50
  {
    match Point(z, MinTemp) case Some(v) => v case None => 50
  }

  /** zone_boost_hours. */
  function BoostHours(z: Zone): (h: Option<int>)
    ensures h == FirstEntry(z.points, if z.deviceType in {258, 514, 773} then 13 else 8)
  {
    Point(z, EphFunction.BoostHours)
  }

  /** zone_boost_timestamp. */
  function BoostTimestamp(z: Zone): (t: Option<int>)
    ensures t == FirstEntry(z.points, if z.deviceType in {258, 514, 773} then 15 else 9)
  {
    Point(z, BoostTime)
  }

  /** zone_is_boost_active: boost hours above 0; comparing a missing value with 0 raises TypeError. */
  function IsBoostActive(z: Zone): (r: Result<bool>)
    ensures r.Err? <==> BoostHours(z).None?
    ensures r.Ok? ==> (r.value <==> BoostHours(z).value > 0)
  {
    match BoostHours(z)
    case None => Err(MissingKey)
    case Some(h) => Ok(h > 0)
  }

  /**
   * zone_advance_active: always false for families 258, 514 and 773;
   * otherwise the ADVANCE_ACTIVE point (index 4) differs from 0, which a
   * missing point does too.
   */
  function AdvanceActive(z: Zone): (r: bool)
    ensures z.deviceType in {258, 514, 773} ==> !r
    ensures z.deviceType !in {258, 514, 773} ==> (r <==> FirstEntry(z.points, 4) != Some(0))
  {
    if z.deviceType in {773, 514, 258} then false
    else Point(z, EphFunction.AdvanceActive) != Some(0)
  }

  /** boiler_state: 1 is flame off, 2 flame on. */
  function BoilerState(z: Zone): (s: Option<int>)
    ensures s == FirstEntry(z.points, if z.deviceType in {258, 514} then 18 else 10)
  {
    Point(z, EphFunction.BoilerState)
  }

  /** EPHBoilerStates.ON */
  const BoilerOn := 2

  /** is_zone_boiler_on and the zone_heating value: boiler_state(zone) == EPHBoilerStates.ON. */
  predicate IsBoilerOn(z: Zone)
  {
    BoilerState(z) == Some(BoilerOn)
  }

  // ---------------------------------------------------------------------
  // Schedule times

  /** The schedule integer of a time of day: hours, then a digit of tens of minutes. */
  function TimeUnits(minutes: int): int
  {
    minutes / 60 * 10 + minutes % 60 / 10
  }

  /**
   * scheduletime_to_time: 173 is 17:30. A missing value is None. It fails for
   * single-digit or negative values (int('') or a negative hour) and when the
   * hour is 24 or more or the last digit 6 or more (datetime.time refuses them).
   */
  function ScheduleTime(units: Option<int>): (r: Result<Option<int>>)
    ensures units.None? ==> r == Ok(None)
    ensures units.Some? ==> (r.Ok? <==> 10 <= units.value && units.value / 10 < 24 && units.value % 10 < 6)
    ensures units.Some? && r.Ok? ==>
      (r.value.Some? && 0 <= r.value.value < 24 * 60 && r.value.value % 10 == 0 && TimeUnits(r.value.value) == units.value)
  {
    match units
    case None => Ok(None)
    case Some(n) =>
      if n < 10 then Err(BadScheduleTime(n))
      else
        var hour, minute := n / 10, 10 * (n % 10);
        if hour < 24 && minute < 60 then MinutesOfUnits(n); Ok(Some(hour * 60 + minute)) else Err(BadScheduleTime(n))
  }

  /** The minutes of a valid schedule integer lie in the day, on a ten-minute mark, and read back as it. */
  lemma MinutesOfUnits(n: int)
    requires 10 <= n && n / 10 < 24 && n % 10 < 6
    ensures var v := n / 10 * 60 + 10 * (n % 10);
      0 <= v < 24 * 60 && v % 10 == 0 && TimeUnits(v) == n
  {
    var q, e := n / 10, n % 10;
    var v := q * 60 + 10 * e;
    assert v == 60 * q + 10 * e;
    assert v / 60 == q && v % 60 == 10 * e;
    assert v % 10 == 0;
  }

  /** Every time on a ten-minute mark from 01:00 on has a schedule integer that reads back as that time. */
  lemma ScheduleTimeRoundTrip(minutes: int)
    requires 60 <= minutes < 24 * 60 && minutes % 10 == 0
    ensures ScheduleTime(Some(TimeUnits(minutes))) == Ok(Some(minutes))
  {
    var q, r := minutes / 60, minutes % 60;
    assert minutes == 60 * q + r;
    var e := r / 10;
    assert r == 10 * e;
    var u := TimeUnits(minutes);
    assert u == 10 * q + e;
    assert u / 10 == q && u % 10 == e;
  }

  /** The zone's clock: time.gmtime of the zone's millisecond timestamp. */
  datatype Clock = Clock(minutes: int, weekday: int)

  /** getZoneTime's weekday remap: gmtime numbers Monday 0; the schedule numbers Sunday 0. */
  function SundayBased(tmWday: int): (w: int)
    requires 0 <= tmWday < 7
    ensures 0 <= w < 7 && w == (tmWday + 1) % 7
    ensures tmWday == 6 <==> w == 0
  {
    var w := tmWday + 1;
    if w == 7 then 0 else w
  }

  /** getZoneTime: hour and minute as a time of day, and the Sunday-based weekday. */
  function ZoneClock(timestampMs: int): (c: Clock)
    ensures 0 <= c.minutes < 24 * 60
    ensures 0 <= c.weekday < 7
    ensures c.minutes == timestampMs / 1000 % 86400 / 60
    ensures c.weekday == (timestampMs / 1000 / 86400 + 4) % 7
  {
    var secs := timestampMs / 1000;
    var tmHour := secs % 86400 / 3600;
    var tmMin := secs % 3600 / 60;
    var tmWday := (secs / 86400 + 3) % 7;   // 1 January 1970 was a Thursday
    MinutesOfDay(secs);
    assert SundayBased(tmWday) == (secs / 86400 + 4) % 7;
    Clock(tmHour * 60 + tmMin, SundayBased(tmWday))
  }

  lemma MinutesOfDay(secs: int)
    ensures secs % 86400 / 3600 * 60 + secs % 3600 / 60 == secs % 86400 / 60
  {
    var q, x := secs / 86400, secs % 86400;
    var h, r := x / 3600, x % 3600;
    assert x == 3600 * h + r && 0 <= r < 3600;
    assert secs == 3600 * (24 * q + h) + r;
    assert secs % 3600 == r;
    assert x / 60 == 60 * h + r / 60;
  }

  // ---------------------------------------------------------------------
  // The running program

  /** What zone_get_running_program returns. */
  datatype Running =
    | NotRunning                                 // None
    | Current(program: Program)                  // a single program dict
    | Between(prev: Option<Program>, next: Program)  // [program["Prev"], program]
    | FirstLast(first: Program, last: Program)   // ALL_DAY: [first, last]

  /** Follows a Prev or Next link. */
  function ProgramAt(days: seq<Day>, s: Slot): Result<Program>
  {
    if s.day < |days| && s.pos < |days[s.day].programs| then Ok(days[s.day].programs[s.pos]) else Err(MissingKey)
  }

  /** zone["days"][weekday]: the position of the day with that day type. */
  function DayPosition(days: seq<Day>, dayType: int): (k: nat)
    ensures k <= |days|
    ensures k < |days| ==> days[k].dayType == dayType
    ensures forall j :: 0 <= j < k ==> days[j].dayType != dayType
  {
    if days == [] then 0
    else if days[0].dayType == dayType then 0
    else 1 + DayPosition(days[1..], dayType)
  }

  predicate Parses(p: Program)
  {
    ScheduleTime(p.data.startTime).Ok? && ScheduleTime(p.data.endTime).Ok? && ScheduleTime(p.data.time).Ok?
  }

  /** start_time <= now <= end_time, both present and both valid. */
  predicate InWindow(p: Program, t: int)
  {
    var start, end := ScheduleTime(p.data.startTime), ScheduleTime(p.data.endTime);
    start.Ok? && end.Ok? && start.value.Some? && end.value.Some? && start.value.value <= t <= end.value.value
  }

  /** A program given by its activation time, which is now or still to come. */
  predicate StartsLater(p: Program, t: int)
  {
    var pt := ScheduleTime(p.data.time);
    pt.Ok? && pt.value.Some? && pt.value.value >= t
  }

  /** A program the AUTO loop passes over. */
  predicate PassedOver(p: Program, t: int)
  {
    Parses(p) && !InWindow(p, t) && !StartsLater(p, t)
  }

  /** The outcome for the program that ends the AUTO loop. */
  function Selected(days: seq<Day>, p: Program, t: int): Result<Running>
    requires Parses(p) && (InWindow(p, t) || StartsLater(p, t))
  {
    if InWindow(p, t) then Ok(Current(p))
    else match p.prev
      case None => Ok(Between(None, p))
      case Some(s) => match ProgramAt(days, s) case Err(e) => Err(e) case Ok(q) => Ok(Between(Some(q), p))
  }

  /**
   * One turn of the AUTO loop: the three times of the program are converted
   * (a time that does not parse raises), then the loop returns at a window
   * that holds the time or at an activation time still to come; None means
   * the loop goes on.
   */
  function Decide(days: seq<Day>, p: Program, t: int): (r: Result<Option<Running>>)
    ensures r == Ok(None) <==> PassedOver(p, t)
    ensures r.Err? <==> !Parses(p) || ((InWindow(p, t) || StartsLater(p, t)) && Selected(days, p, t).Err?)
    ensures r.Ok? && r.value.Some? ==>
      Parses(p) && (InWindow(p, t) || StartsLater(p, t)) && Selected(days, p, t) == Ok(r.value.value)
    ensures r.Ok? && r.value.Some? ==> r.value.value.Current? || r.value.value.Between?
  {
    match ScheduleTime(p.data.startTime)
    case Err(e) => Err(e)
    case Ok(start) =>
      match ScheduleTime(p.data.endTime)
      case Err(e) => Err(e)
      case Ok(end) =>
        match ScheduleTime(p.data.time)
        case Err(e) => Err(e)
        case Ok(pt) =>
          if start.Some? && end.Some? && start.value <= t <= end.value then Ok(Some(Current(p)))
          else if pt.Some? && pt.value >= t then
            match p.prev
            case None => Ok(Some(Between(None, p)))
            case Some(s) =>
              match ProgramAt(days, s)
              case Err(e) => Err(e)
              case Ok(q) => Ok(Some(Between(Some(q), p)))
          else Ok(None)
  }

  /**
   * The loop of AUTO mode over the day's programs: the outcome of the first
   * program that ends it, or None when every program is passed over.
   */
  function ScanPrograms(days: seq<Day>, progs: seq<Program>, t: int): (r: Result<Option<Running>>)
    ensures r == Ok(None) <==> forall j :: 0 <= j < |progs| ==> PassedOver(progs[j], t)
    ensures r != Ok(None) ==>
      exists k :: 0 <= k < |progs| && (forall j :: 0 <= j < k ==> PassedOver(progs[j], t))
        && r == Decide(days, progs[k], t)
    ensures r.Ok? && r.value.Some? ==> r.value.value.Current? || r.value.value.Between?
  {
    if progs == [] then Ok(None)
    else
      var d := Decide(days, progs[0], t);
      if d != Ok(None) then d
      else
        var r := ScanPrograms(days, progs[1..], t);
        assert forall j :: 1 <= j < |progs| ==> progs[j] == progs[1..][j - 1];
        if r == Ok(None) then r
        else
          var k :| 0 <= k < |progs[1..]| && (forall j :: 0 <= j < k ==> PassedOver(progs[1..][j], t))
            && r == Decide(days, progs[1..][k], t);
          assert progs[1..][k] == progs[k + 1];
          assert forall j :: 0 <= j < k + 1 ==> PassedOver(progs[j], t);
          r
  }

  /**
   * The AUTO branch of zone_get_running_program: the program the loop stops
   * at, else the day's last program, alone when it has no activation time
   * and paired with its Next otherwise.
   */
  function AutoRunning(days: seq<Day>, progs: seq<Program>, t: int): (r: Result<Running>)
    ensures r.Ok? ==> r.value.Current? || r.value.Between?
    ensures progs == [] ==> r == Err(EmptySchedule)
  {
    match ScanPrograms(days, progs, t)
    case Err(e) => Err(e)
    case Ok(Some(run)) => Ok(run)
    case Ok(None) =>
      if progs == [] then Err(EmptySchedule)
      else
        var last := progs[|progs| - 1];
        if last.data.time.None? then Ok(Current(last))
        else
          match last.next
          case None => Err(MissingKey)
          case Some(s) =>
            match ProgramAt(days, s) case Err(e) => Err(e) case Ok(q) => Ok(Between(Some(last), q))
  }

  /** zone_get_running_program. */
  function RunningProgram(z: Zone): (r: Result<Running>)
    ensures ZoneModeOf(z).Err? ==> r == Err(ZoneModeOf(z).error)
    ensures ZoneModeOf(z) == Ok(On) || ZoneModeOf(z) == Ok(Off) ==> r.Ok? ==> r == Ok(NotRunning)
    ensures r.Ok? && r.value.Current? ==> ZoneModeOf(z) == Ok(Auto)
    ensures r.Ok? && r.value.FirstLast? ==> ZoneModeOf(z) == Ok(AllDay)
  {
    match ZoneModeOf(z)
    case Err(e) => Err(e)
    case Ok(mode) =>
      var clock := ZoneClock(z.timestamp);
      var k := DayPosition(z.days, clock.weekday);
      if k == |z.days| then Err(MissingKey)
      else
        var progs := z.days[k].programs;
        if mode == Auto then AutoRunning(z.days, progs, clock.minutes)
        else if mode == AllDay then
          if progs == [] then Err(EmptySchedule) else Ok(FirstLast(progs[0], progs[|progs| - 1]))
        else Ok(NotRunning)
  }

  /**
   * zone_is_scheduled_on. OFF is never on and ON always is. In AUTO a running
   * single program is on when the time is inside its window, and for a
   * [previous, next] pair the heating is on while the current temperature
   * plus the 0.3 degree hysteresis is below the previous program's target.
   * In ALL_DAY the window runs from the day's first start to its last end.
   */
  function ScheduledOn(z: Zone): (r: Result<bool>)
    ensures ZoneModeOf(z) == Ok(Off) ==> r == Ok(false)
    ensures ZoneModeOf(z) == Ok(On) ==> r == Ok(true)
    ensures ZoneModeOf(z) == Ok(Auto) && RunningProgram(z) == Ok(NotRunning) ==> r == Ok(false)
    ensures ZoneModeOf(z) == Ok(Auto) && RunningProgram(z).Ok? && RunningProgram(z).value.Between? ==>
      var prev := RunningProgram(z).value.prev;
      (r.Ok? <==> prev.Some? && prev.value.data.temperature.Some?) &&
      (r.Ok? ==> (r.value <==> CurrentTemperature(z) + 3 < prev.value.data.temperature.value))
    ensures ZoneModeOf(z) == Ok(Auto) && RunningProgram(z).Ok? && RunningProgram(z).value.Current? ==>
      var p := RunningProgram(z).value.program;
      (r.Ok? <==> ScheduleTime(p.data.startTime).Ok? && ScheduleTime(p.data.endTime).Ok?) &&
      (r.Ok? ==> (r.value <==> InWindow(p, ZoneClock(z.timestamp).minutes)))
    ensures ZoneModeOf(z) == Ok(AllDay) && RunningProgram(z).Ok? ==>
      RunningProgram(z).value.FirstLast? &&
      var start, end := ScheduleTime(RunningProgram(z).value.first.data.startTime), ScheduleTime(RunningProgram(z).value.last.data.endTime);
      (r.Ok? <==> start.Ok? && end.Ok?) &&
      (r.Ok? ==> (r.value <==> start.value.Some? && end.value.Some? && start.value.value <= ZoneClock(z.timestamp).minutes <= end.value.value))
    ensures RunningProgram(z).Err? ==> ZoneModeOf(z) == Ok(Auto) || ZoneModeOf(z) == Ok(AllDay) ==> r.Err?
  {
    match ZoneModeOf(z)
    case Err(e) => Err(e)
    case Ok(mode) =>
      if mode == Off then Ok(false)
      else if mode == On then Ok(true)
      else
        var t := ZoneClock(z.timestamp).minutes;
        match RunningProgram(z)
        case Err(e) => Err(e)
        case Ok(running) =>
          if mode == Auto then
            match running
            case NotRunning => Ok(false)
            case Between(prev, _) =>
              (match prev
               case None => Err(MissingPrevious)
               case Some(p) =>
                 match p.data.temperature
                 case None => Err(MissingKey)
                 case Some(target) => Ok(CurrentTemperature(z) + 3 < target))
            case Current(p) =>
              (match ScheduleTime(p.data.startTime)
               case Err(e) => Err(e)
               case Ok(start) =>
                 match ScheduleTime(p.data.endTime)
                 case Err(e) => Err(e)
                 case Ok(end) => Ok(start.Some? && end.Some? && start.value <= t <= end.value))
            case FirstLast(_, _) => Err(MissingKey)
          else
            match running
            case FirstLast(first, last) =>
              (match ScheduleTime(first.data.startTime)
               case Err(e) => Err(e)
               case Ok(start) =>
                 match ScheduleTime(last.data.endTime)
                 case Err(e) => Err(e)
                 case Ok(end) => Ok(start.Some? && end.Some? && start.value <= t <= end.value))
            case _ => Err(MissingKey)
  }

  /**
   * zone_target_temperature. Family 773 in AUTO reads the running
   * program's target: the previous program's for a [previous, next] pair,
   * an error when the running program is a single dict (it is indexed by
   * 0), and 0 when nothing runs. Every other case reads TARGET_TEMP_R
   * (index 6), 0 when absent.
   */
  function TargetTemperature(z: Zone): (r: Result<int>)
    ensures !(z.deviceType == 773 && ZoneModeOf(z) == Ok(Auto)) && (z.deviceType == 773 ==> ZoneModeOf(z).Ok?) ==>
      r == Ok(match FirstEntry(z.points, 6) case Some(v) => v case None => 0)
    ensures z.deviceType == 773 && ZoneModeOf(z).Err? ==> r == Err(ZoneModeOf(z).error)
    ensures z.deviceType == 773 && ZoneModeOf(z) == Ok(Auto) && RunningProgram(z).Err? ==> r == Err(RunningProgram(z).error)
    ensures z.deviceType == 773 && ZoneModeOf(z) == Ok(Auto) && RunningProgram(z).Ok? && RunningProgram(z).value.Current? ==> r.Err?
    ensures z.deviceType == 773 && ZoneModeOf(z) == Ok(Auto) && RunningProgram(z).Ok? && RunningProgram(z).value.Between? ==>
      var prev := RunningProgram(z).value.prev;
      (r.Ok? <==> prev.Some? && prev.value.data.temperature.Some?)
      && (r.Ok? ==> r.value == prev.value.data.temperature.value)
  {
    var fromPoint := match Point(z, TargetTempRead) case Some(v) => v case None => 0;
    if z.deviceType == 773 then
      match ZoneModeOf(z)
      case Err(e) => Err(e)
      case Ok(mode) =>
        if mode == Auto then
          match RunningProgram(z)
          case Err(e) => Err(e)
          case Ok(NotRunning) => Ok(0)
          case Ok(Current(_)) => Err(MissingKey)
          case Ok(Between(prev, _)) =>
            (match prev
             case None => Err(MissingPrevious)
             case Some(p) => match p.data.temperature case None => Err(MissingKey) case Some(v) => Ok(v))
          case Ok(FirstLast(first, _)) => match first.data.temperature case None => Err(MissingKey) case Some(v) => Ok(v)
        else Ok(fromPoint)
    else Ok(fromPoint)
  }

  /**
   * In AUTO the running program is never None: the loop returns a program or
   * a pair, or falls back to the day's last program, or raises. So the
   * `return 0` of zone_target_temperature for family 773 in AUTO is never
   * reached.
   */
  lemma AutoAlwaysRuns(z: Zone)
    requires ZoneModeOf(z) == Ok(Auto)
    ensures RunningProgram(z) != Ok(NotRunning)
    ensures RunningProgram(z).Ok? ==> RunningProgram(z).value.Current? || RunningProgram(z).value.Between?
  {
  }

  /**
   * zone_is_active: scheduled on, or else boost hours above 0 (a missing
   * value raises) or an active advance.
   */
  function IsActive(z: Zone): (r: Result<bool>)
    ensures ScheduledOn(z) == Ok(true) ==> r == Ok(true)
    ensures ScheduledOn(z).Err? ==> r.Err?
    ensures ScheduledOn(z) == Ok(false) ==> r == (match BoostHours(z)
      case None => Err(MissingKey)
      case Some(h) => Ok(h > 0 || AdvanceActive(z)))
  {
    match ScheduledOn(z)
    case Err(e) => Err(e)
    case Ok(on) =>
      if on then Ok(true)
      else match IsBoostActive(z)
        case Err(e) => Err(e)
        case Ok(boost) => Ok(boost || AdvanceActive(z))
  }

  /**
   * With none of the temperature points present, the getters give their
   * defaults: current, target and boost 0, minimum 5.0 degrees, maximum
   * 60.0 degrees for hot water and 35.0 otherwise.
   */
  lemma AbsentPointDefaults(z: Zone)
    requires Absent(z.points, 5) && Absent(z.points, 6) && Absent(z.points, 7) && Absent(z.points, 8) && Absent(z.points, 14)
    requires z.deviceType != 773
    ensures CurrentTemperature(z) == 0 && TargetTemperature(z) == Ok(0) && BoostTemperature(z) == 0
    ensures MinTemperature(z) == 50
    ensures MaxTemperature(z) == if z.deviceType == 4 then 600 else 350
  {
    AbsentFirstEntry(z.points, 5);
    AbsentFirstEntry(z.points, 6);
    AbsentFirstEntry(z.points, 7);
    AbsentFirstEntry(z.points, 8);
    AbsentFirstEntry(z.points, 14);
  }

  lemma AbsentFirstEntry(points: seq<PointEntry>, index: int)
    requires Absent(points, index)
    ensures FirstEntry(points, index) == None
  {
  }

  /** A later entry with the same index is never read: only the first one counts. */
  lemma FirstEntryWins(points: seq<PointEntry>, index: int, v: int, rest: seq<PointEntry>)
    requires Absent(points, index)
    ensures FirstEntry(points + [PointEntry(index, v)] + rest, index) == Some(v)
  {
    var all := points + [PointEntry(index, v)] + rest;
    var k := FindPoint(all, index);
    assert all[|points|] == PointEntry(index, v);
    assert all[|points|].pointIndex == index;
    assert forall j :: 0 <= j < |points| ==> all[j] == points[j];
  }
}
