/**
 * The zone record of the EphEmber cloud API, the point-index table of each
 * device family, and the mode encoding (pyephember2.py).
 *
 * A zone's "deviceType" is its device family: 2 and 4 are the classic
 * thermostat and hot-water controllers, 258, 514 and 773 the newer ones.
 * Temperatures are integer tenths of a degree, as the devices send them.
 */
module ZoneData {
  import opened Wrappers

  /** Functions a zone exposes through point data. */
  datatype EphFunction =
    | AdvanceActive | CurrentTemp | TargetTempRead | TargetTempWrite | Mode
    | BoostHours | BoostTime | BoilerState | BoostTemp | MaxTemp | MinTemp

  datatype ZoneMode = Auto | AllDay | On | Off

  /** One entry of a zone's pointDataList. */
  datatype PointEntry = PointEntry(pointIndex: int, value: int)

  /** A schedule period as the server sends it; times use the "hours then tens of minutes" integer form. */
  datatype ProgramData = ProgramData(startTime: Option<int>, endTime: Option<int>, time: Option<int>, temperature: Option<int>)

  /** A "p<number>" key of a deviceDays entry and its (possibly null) period. */
  datatype Period = Period(number: int, program: Option<ProgramData>)

  /** A deviceDays entry; dayType is None when it is absent or not an int. */
  datatype DeviceDay = DeviceDay(dayType: Option<int>, periods: seq<Period>)

  /** Where a linked program lives: the day's position in Zone.days and the program's position in that day. */
  datatype Slot = Slot(day: nat, pos: nat)

  /** A program after get_homes linked it: Count, Prev and Next. */
  datatype Program = Program(count: int, data: ProgramData, prev: Option<Slot>, next: Option<Slot>)

  /** An entry of zone["days"]: the day type and its programs in key order. */
  datatype Day = Day(dayType: int, programs: seq<Program>)

  datatype Zone = Zone(
    zoneId: int,
    name: string,
    mac: Option<string>,
    deviceType: int,
    systemType: Option<int>,
    points: seq<PointEntry>,
    deviceDays: seq<DeviceDay>,
    days: seq<Day>,
    timestamp: int)

  /** The families the library knows; for them every mode round-trips. */
  const KnownFamilies: set<int> := {2, 4, 258, 514, 773}

  /** HotWaterDevices. */
  const HotWaterDevices: set<int> := {4}

  predicate IsHotWater(z: Zone) { z.deviceType in HotWaterDevices }

  /** Termination measure of the mutual recursion GetPointIndex -> ZoneModeOf -> PointValue(Mode). */
  function Rank(f: EphFunction): nat { if f == TargetTempWrite then 3 else 0 }

  /**
   * Position of the first entry of `points` with the given pointIndex,
   * or |points| when there is none.
   */
  function FindPoint(points: seq<PointEntry>, index: int): (k: nat)
    ensures k <= |points|
    ensures k < |points| ==> points[k].pointIndex == index
    ensures forall j :: 0 <= j < k ==> points[j].pointIndex != index
  {
    if points == [] then 0
    else if points[0].pointIndex == index then 0
    else 1 + FindPoint(points[1..], index)
  }

  /**
   * GetPointIndex: the point index of a function for the zone's family,
   * -1 when the family does not support it. Only the write setpoint of
   * family 258 depends on the current mode, and so can fail with it.
   */
  function GetPointIndex(z: Zone, f: EphFunction): (r: Result<int>)
    decreases Rank(f)
    ensures r.Err? ==> f == TargetTempWrite && z.deviceType == 258 && ZoneModeOf(z).Err?
    ensures r == Ok(-1) <==> f in {MaxTemp, MinTemp} && z.deviceType !in {258, 514}
  {
    var d := z.deviceType;
    match f
    case AdvanceActive => Ok(4)
    case CurrentTemp => Ok(5)
    case TargetTempRead => Ok(6)
    case TargetTempWrite =>
      if d == 258 then
        (match ZoneModeOf(z)
         case Err(e) => Err(e)
         case Ok(m) => Ok(if m == Auto then 17 else 12))
      else if d == 514 || d == 773 then Ok(12)
      else Ok(6)
    case Mode => Ok(if d in {258, 514, 773} then 11 else 7)
    case BoostHours => Ok(if d in {258, 514, 773} then 13 else 8)
    case BoostTime => Ok(if d in {258, 514, 773} then 15 else 9)
    case BoilerState => Ok(if d in {258, 514} then 18 else 10)
    case BoostTemp => Ok(14)
    case MaxTemp => Ok(if d in {258, 514} then 7 else -1)
    case MinTemp => Ok(if d in {258, 514} then 8 else -1)
  }

  /**
   * zone_pointdata_value: the value of the first pointDataList entry whose
   * pointIndex is the function's index; None when the index is -1 or absent.
   */
  function PointValue(z: Zone, f: EphFunction): (r: Result<Option<int>>)
    decreases Rank(f) + 1
    ensures r.Err? <==> GetPointIndex(z, f).Err?
    ensures r.Ok? ==> (r.value.Some? <==>
      GetPointIndex(z, f).value != -1 && exists k :: 0 <= k < |z.points| && z.points[k].pointIndex == GetPointIndex(z, f).value)
    ensures r.Ok? && r.value.Some? ==>
      exists k :: 0 <= k < |z.points| && z.points[k].pointIndex == GetPointIndex(z, f).value && z.points[k].value == r.value.value
        && forall j :: 0 <= j < k ==> z.points[j].pointIndex != GetPointIndex(z, f).value
  {
    match GetPointIndex(z, f)
    case Err(e) => Err(e)
    case Ok(index) =>
      if index == -1 then Ok(None)
      else
        var k := FindPoint(z.points, index);
        if k < |z.points| then Ok(Some(z.points[k].value)) else Ok(None)
  }

  /** zone_mode: the mode a zone reports, decoded from its MODE point. */
  function ZoneModeOf(z: Zone): (r: Result<ZoneMode>)
    decreases 2
  {
    match PointValue(z, Mode)
    case Err(e) => Err(e)
    case Ok(raw) => DecodeMode(z.deviceType, raw)
  }

  /**
   * The decoding table of zone_mode: raw value 0 is AUTO for every family;
   * other values are mapped per family, and every unmapped pair, a missing
   * value included, is an error.
   */
  function DecodeMode(deviceType: int, raw: Option<int>): (r: Result<ZoneMode>)
    ensures r.Ok? ==> raw.Some? && ModeValue(deviceType, r.value) == Ok(raw.value)
    ensures r.Err? ==> r.error == UnhandledModeValue(raw, deviceType)
  {
    var fail := Err(UnhandledModeValue(raw, deviceType));
    match raw
    case None => fail
    case Some(v) =>
      if v == 0 then Ok(Auto)
      else if v == 1 then
        if deviceType in {2, 4} then Ok(AllDay)
        else if deviceType in {258, 773} then Ok(On)
        else fail
      else if v == 2 then (if deviceType in {2, 4} then Ok(On) else fail)
      else if v == 3 then (if deviceType in {2, 4} then Ok(Off) else fail)
      else if v == 4 then (if deviceType in {258, 514, 773} then Ok(Off) else fail)
      else if v == 9 then (if deviceType == 514 then Ok(AllDay) else fail)
      else if v == 10 then (if deviceType == 514 then Ok(On) else fail)
      else fail
  }

  /**
   * get_zone_mode_value: the raw value that selects a mode; families 258
   * and 773 have no ALL_DAY.
   */
  function ModeValue(deviceType: int, m: ZoneMode): (r: Result<int>)
    ensures r.Err? <==> deviceType in {258, 773} && m == AllDay
    ensures r.Ok? ==> (r.value == 0 <==> m == Auto)
  {
    if deviceType in {258, 773} then
      match m
      case Auto => Ok(0)
      case On => Ok(1)
      case Off => Ok(4)
      case AllDay => Err(UnhandledMode(deviceType))
    else if deviceType == 514 then
      match m
      case Auto => Ok(0)
      case AllDay => Ok(9)
      case On => Ok(10)
      case Off => Ok(4)
    else
      match m
      case Auto => Ok(0)
      case AllDay => Ok(1)
      case On => Ok(2)
      case Off => Ok(3)
  }

  /** For the known families, decoding the value of an accepted mode gives the mode back. */
  lemma ModeRoundTrip(deviceType: int, m: ZoneMode)
    requires deviceType in KnownFamilies
    requires ModeValue(deviceType, m).Ok?
    ensures DecodeMode(deviceType, Some(ModeValue(deviceType, m).value)) == Ok(m)
  {
  }

  /** Outside the known families only AUTO survives the round trip. */
  lemma UnknownFamilyRoundTrip(deviceType: int, m: ZoneMode)
    requires deviceType !in KnownFamilies
    ensures DecodeMode(deviceType, Some(ModeValue(deviceType, m).value)) == Ok(m) <==> m == Auto
  {
  }

  /** The write setpoint of family 258 follows the mode: 17 in AUTO, 12 in every other mode. */
  lemma TargetWriteIndex(z: Zone)
    ensures z.deviceType == 258 ==>
      GetPointIndex(z, TargetTempWrite) ==
        (match ZoneModeOf(z) case Ok(m) => Ok(if m == Auto then 17 else 12) case Err(e) => Err(e))
    ensures z.deviceType in {514, 773} ==> GetPointIndex(z, TargetTempWrite) == Ok(12)
    ensures z.deviceType !in {258, 514, 773} ==> GetPointIndex(z, TargetTempWrite) == Ok(6)
  {
  }

  /**
   * Within one of the newer families, the functions that can be written
   * (see Codec.WritableType) use pairwise distinct point indices, so a
   * bundle of writes to different functions writes different points.
   */
  lemma WritableIndicesDistinct(z: Zone, f: EphFunction, g: EphFunction)
    requires z.deviceType in {258, 514, 773}
    requires f in {AdvanceActive, TargetTempWrite, Mode, BoostHours, BoostTime, BoostTemp}
    requires g in {AdvanceActive, TargetTempWrite, Mode, BoostHours, BoostTime, BoostTemp}
    requires f != g && GetPointIndex(z, f).Ok? && GetPointIndex(z, g).Ok?
    ensures GetPointIndex(z, f).value != GetPointIndex(z, g).value
  {
  }
}
