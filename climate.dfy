/**
 * The thermostat entity of the integration (custom_components/ephember/
 * climate.py, EphEmberThermostat): the mode maps between the library's
 * ZoneMode and Home Assistant's HVAC modes, the guards on a new setpoint,
 * and the refresh after every command.
 *
 * The library call a setter makes (set_zone_target_temperature,
 * set_zone_mode, activate_zone_boost, deactivate_zone_boost) is a
 * parameter `send` from the zone id and the action to its outcome; the
 * HTTP exchanges of the refresh are parameters of type Fetch.
 */
module Climate {
  import opened Wrappers
  import ZoneData
  import opened ZoneView
  import opened Ember

  /** Home Assistant's HVACMode. */
  datatype HvacMode = HeatCool | Heat | Off | Cool | Auto | Dry | FanOnly

  /** OPERATION_LIST: the modes the entity offers. */
  predicate Offered(h: HvacMode)
  {
    h == HeatCool || h == Heat || h == Off
  }

  /** EPH_TO_HA_STATE, keyed by the mode's name: AUTO, ON and OFF have an entry, ALL_DAY has none. */
  function EphToHaState(m: ZoneData.ZoneMode): Option<HvacMode>
  {
    match m
    case Auto => Some(HeatCool)
    case On => Some(Heat)
    case Off => Some(Off)
    case AllDay => None
  }

  /** HA_STATE_TO_EPH, the dict EPH_TO_HA_STATE inverted. */
  function HaToEphState(h: HvacMode): Option<ZoneData.ZoneMode>
  {
    match h
    case HeatCool => Some(ZoneData.Auto)
    case Heat => Some(ZoneData.On)
    case Off => Some(ZoneData.Off)
    case _ => None
  }

  /** The inverted dict holds exactly the pairs of the original, the other way round. */
  lemma HaToEphInverts(h: HvacMode, m: ZoneData.ZoneMode)
    ensures HaToEphState(h) == Some(m) <==> EphToHaState(m) == Some(h)
    ensures HaToEphState(h).Some? <==> Offered(h)
  {
  }

  /**
   * map_mode_eph_hass: HEAT for ON, OFF for OFF, and HEAT_COOL for AUTO,
   * for ALL_DAY (it has no entry) and for no mode at all.
   */
  function MapModeEphHass(m: Option<ZoneData.ZoneMode>): (h: HvacMode)
    ensures Offered(h)
    ensures h == Heat <==> m == Some(ZoneData.On)
    ensures h == Off <==> m == Some(ZoneData.Off)
    ensures h == HeatCool <==> m.None? || m == Some(ZoneData.Auto) || m == Some(ZoneData.AllDay)
  {
    if m.None? then HeatCool
    else match EphToHaState(m.value) case Some(h) => h case None => HeatCool
  }

  /**
   * map_mode_hass_eph as written: getattr(ZoneMode, HA_STATE_TO_EPH.get(mode), None).
   * For a mode without an entry the attribute name is None, and getattr
   * raises a TypeError before its default can apply.
   */
  function MapModeHassEphAsWritten(h: HvacMode): (r: Result<Option<ZoneData.ZoneMode>>)
    ensures r.Err? <==> !Offered(h)
    ensures r.Err? ==> r.error == AttributeNameNotString
  {
    match HaToEphState(h)
    case None => Err(AttributeNameNotString)
    case Some(m) => Ok(Some(m))
  }

  /** COOL, a mode Home Assistant knows, makes the map raise instead of returning None. */
  lemma MapModeHassEphRaisesOnCool()
    ensures MapModeHassEphAsWritten(Cool) == Err(AttributeNameNotString)
  {
  }

  /**
   * map_mode_hass_eph as its callers use it (set_hvac_mode tests the result
   * against None): the ZoneMode of an offered mode, None for any other.
   */
  function MapModeHassEph(h: HvacMode): (r: Option<ZoneData.ZoneMode>)
    ensures r.Some? <==> Offered(h)
    ensures MapModeHassEphAsWritten(h).Ok? ==> MapModeHassEphAsWritten(h).value == r
  {
    HaToEphState(h)
  }

  /** The maps undo each other on the offered modes, and on every ZoneMode except ALL_DAY, which reads back as AUTO. */
  lemma ModeMapsRoundTrip(h: HvacMode, m: ZoneData.ZoneMode)
    ensures Offered(h) ==> MapModeEphHass(MapModeHassEph(h)) == h
    ensures m != ZoneData.AllDay ==> MapModeHassEph(MapModeEphHass(Some(m))) == Some(m)
    ensures MapModeHassEph(MapModeEphHass(Some(ZoneData.AllDay))) == Some(ZoneData.Auto)
  {
  }

  // ---------------------------------------------------------------- setpoint guards

  /** 5.0 and 35.0 degrees, in tenths. */
  const MinSetpoint := 50
  const MaxSetpoint := 350

  /** min_temp: the zone's target for hot water, 5.0 degrees otherwise. */
  function MinTemp(z: ZoneData.Zone, hotWater: bool): (r: Result<int>)
    ensures hotWater ==> r == TargetTemperature(z)
    ensures !hotWater ==> r == Ok(MinSetpoint)
  {
    if hotWater then TargetTemperature(z) else Ok(MinSetpoint)
  }

  /** max_temp: the zone's target for hot water, 35.0 degrees otherwise. */
  function MaxTemp(z: ZoneData.Zone, hotWater: bool): (r: Result<int>)
    ensures hotWater ==> r == TargetTemperature(z)
    ensures !hotWater ==> r == Ok(MaxSetpoint)
  {
    if hotWater then TargetTemperature(z) else Ok(MaxSetpoint)
  }

  /** A hot-water zone offers a single setpoint, its current target. */
  lemma HotWaterRangeIsTarget(z: ZoneData.Zone)
    requires TargetTemperature(z).Ok?
    ensures MinTemp(z, true) == MaxTemp(z, true) == TargetTemperature(z)
  {
  }

  /**
   * The guards of set_temperature, in order: no temperature, a hot-water
   * zone, the current target (reading it may raise), then the range
   * [min_temp, max_temp]. Ok(true) means the setpoint is sent.
   */
  function SendsSetpoint(z: ZoneData.Zone, hotWater: bool, temperature: Option<int>): (r: Result<bool>)
    ensures r.Err? <==> temperature.Some? && !hotWater && TargetTemperature(z).Err?
    ensures r == Ok(true) <==>
      temperature.Some? && !hotWater && TargetTemperature(z).Ok?
      && temperature.value != TargetTemperature(z).value
      && MinTemp(z, hotWater).Ok? && MaxTemp(z, hotWater).Ok?
      && MinTemp(z, hotWater).value <= temperature.value <= MaxTemp(z, hotWater).value
    ensures hotWater ==> r == Ok(false)
  {
    if temperature.None? then Ok(false)
    else if hotWater then Ok(false)
    else
      match TargetTemperature(z)
      case Err(e) => Err(e)
      case Ok(target) =>
        if temperature.value == target then Ok(false)
        else
          var hi, lo := MaxTemp(z, hotWater).value, MinTemp(z, hotWater).value;
          Ok(!(temperature.value > hi || temperature.value < lo))
  }

  // ---------------------------------------------------------------- commands and refresh

  /** What a setter asks the library to do for a zone id. */
  datatype ZoneAction =
    | SetTarget(tenths: int)
    | SetMode(mode: ZoneData.ZoneMode)
    | TurnOn
    | TurnOff
    | BoostOn(temperature: int)
    | BoostOff

  /** One get_homes exchange with the server, or a list_homes request that timed out (nothing is reassigned). */
  datatype Fetch =
    | Fetch(start: int, finish: int, listed: seq<Home>, replies: seq<ZoneReply>)
    | TimedOut

  predicate FetchValid(f: Fetch)
  {
    f.Fetch? ==> |f.replies| == |f.listed| && RepliesOrdered(f.replies)
  }

  /**
   * The refresh after a command: NextHomeUpdateDaytime := None, get_zones(),
   * then the zone read again by its id. A timeout is swallowed; any other
   * error propagates. The result is the new homes, the new cache time, the
   * entity's zone and the error raised.
   */
  function AfterCommand(homes: seq<Home>, zone: ZoneData.Zone, first: Fetch, second: Fetch)
    : (seq<Home>, Option<int>, ZoneData.Zone, Option<Failure>)
    requires FetchValid(first) && FetchValid(second)
  {
    match first
    case TimedOut => (homes, None, zone, None)
    case Fetch(s1, f1, l1, r1) =>
      var (hs1, n1, res1) := Refresh(homes, None, s1, f1, l1, r1);
      if res1.Err? then (hs1, n1, zone, Some(res1.error))
      else match second
        case TimedOut => (hs1, n1, zone, None)
        case Fetch(s2, f2, l2, r2) =>
          var (hs2, n2, res2) := Refresh(hs1, n1, s2, f2, l2, r2);
          match res2
          case Err(e) => (hs2, n2, zone, Some(e))
          case Ok(hs) =>
            match FindZone(hs, zone.zoneId)
            case Err(e) => (hs2, n2, zone, Some(e))
            case Ok(z) => (hs2, n2, z, None)
  }

  /**
   * The refresh never uses the cache: the first get_zones always refetches.
   * A second call within ten seconds of its end reads the refetched homes,
   * and the entity then holds the first zone with its id among them.
   */
  lemma AfterCommandRefetches(homes: seq<Home>, zone: ZoneData.Zone, first: Fetch, second: Fetch)
    requires FetchValid(first) && FetchValid(second) && first.Fetch?
    requires FetchFrom([], first.listed, first.replies).1.None?
    requires second.Fetch? && second.start <= first.finish + HomesCacheSeconds
    ensures var hs := FetchFrom([], first.listed, first.replies).0;
      var after := AfterCommand(homes, zone, first, second);
      after.0 == hs && after.1 == Some(first.finish + HomesCacheSeconds)
      && (FindZone(hs, zone.zoneId).Ok? ==> after.2 == FindZone(hs, zone.zoneId).value && after.3.None?)
      && (FindZone(hs, zone.zoneId).Err? ==> after.2 == zone && after.3 == Some(ZoneNotFound(zone.zoneId)))
  {
  }

  /** The entity's zone keeps its id through every refresh; a first list_homes request that times out changes only the cache time. */
  lemma AfterCommandKeepsId(homes: seq<Home>, zone: ZoneData.Zone, first: Fetch, second: Fetch)
    requires FetchValid(first) && FetchValid(second)
    ensures AfterCommand(homes, zone, first, second).2.zoneId == zone.zoneId
    ensures first.TimedOut? ==> AfterCommand(homes, zone, first, second) == (homes, None, zone, None)
  {
  }

  class Thermostat {
    const ember: EphEmber
    /** _attr_unique_id: the zone id the entity was created with. */
    const uniqueId: int
    /** _hot_water. */
    const hotWater: bool
    /** _zone. */
    var zone: ZoneData.Zone

    /** The entity's zone is always the zone it was created for. */
    predicate Valid()
      reads this
    {
      zone.zoneId == uniqueId
    }

    constructor (ember: EphEmber, zone: ZoneData.Zone)
      ensures this.ember == ember && this.zone == zone && uniqueId == zone.zoneId
      ensures hotWater == ZoneData.IsHotWater(zone)
      ensures Valid()
    {
      this.ember := ember;
      this.zone := zone;
      uniqueId := zone.zoneId;
      hotWater := ZoneData.IsHotWater(zone);
    }

    /** The refresh after a command, on the entity and its EphEmber object. */
    method RefreshZone(first: Fetch, second: Fetch) returns (raised: Option<Failure>)
      requires FetchValid(first) && FetchValid(second)
      modifies this, ember
      ensures (ember.homes, ember.nextHomeUpdate, zone, raised) == AfterCommand(old(ember.homes), old(zone), first, second)
      ensures ember.loginData == old(ember.loginData)
      ensures old(Valid()) ==> Valid()
    {
      ember.nextHomeUpdate := None;
      if first.TimedOut? {
        return None;
      }
      var hs := ember.GetHomes(first.start, first.finish, first.listed, first.replies);
      if hs.Err? {
        return Some(hs.error);
      }
      if second.TimedOut? {
        return None;
      }
      var z := ember.GetZone(second.start, second.finish, second.listed, second.replies, zone.zoneId);
      if z.Err? {
        return Some(z.error);
      }
      zone := z.value;
      raised := None;
    }

    /** Sends one action for the zone, then refreshes when the send returned. */
    method SendAndRefresh(send: (int, ZoneAction) -> Result<bool>, action: ZoneAction, first: Fetch, second: Fetch)
      returns (raised: Option<Failure>)
      requires FetchValid(first) && FetchValid(second)
      modifies this, ember
      ensures send(old(zone).zoneId, action).Err? ==>
        raised == Some(send(old(zone).zoneId, action).error)
        && zone == old(zone) && ember.homes == old(ember.homes) && ember.nextHomeUpdate == old(ember.nextHomeUpdate)
      ensures send(old(zone).zoneId, action).Ok? ==>
        (ember.homes, ember.nextHomeUpdate, zone, raised) == AfterCommand(old(ember.homes), old(zone), first, second)
      ensures ember.loginData == old(ember.loginData)
      ensures old(Valid()) ==> Valid()
    {
      var sent := send(zone.zoneId, action);
      if sent.Err? {
        return Some(sent.error);
      }
      raised := RefreshZone(first, second);
    }

    /**
     * set_temperature: sends the setpoint only when every guard passes, and
     * then refreshes. `issued` is the action handed to the library.
     */
    method SetTemperature(temperature: Option<int>, send: (int, ZoneAction) -> Result<bool>, first: Fetch, second: Fetch)
      returns (issued: Option<ZoneAction>, raised: Option<Failure>)
      requires FetchValid(first) && FetchValid(second)
      modifies this, ember
      ensures var d := SendsSetpoint(old(zone), hotWater, temperature);
        (d.Err? ==> issued.None? && raised == Some(d.error))
        && (d == Ok(false) ==> issued.None? && raised.None?)
        && (d == Ok(true) ==> issued == Some(SetTarget(temperature.value)))
      ensures issued.None? ==>
        zone == old(zone) && ember.homes == old(ember.homes) && ember.nextHomeUpdate == old(ember.nextHomeUpdate)
      ensures issued.Some? && send(old(zone).zoneId, issued.value).Ok? ==>
        (ember.homes, ember.nextHomeUpdate, zone, raised) == AfterCommand(old(ember.homes), old(zone), first, second)
      ensures issued.Some? && send(old(zone).zoneId, issued.value).Err? ==>
        raised == Some(send(old(zone).zoneId, issued.value).error) && zone == old(zone)
        && ember.homes == old(ember.homes) && ember.nextHomeUpdate == old(ember.nextHomeUpdate)
      ensures ember.loginData == old(ember.loginData)
      ensures old(Valid()) ==> Valid()
    {
      var d := SendsSetpoint(zone, hotWater, temperature);
      if d.Err? {
        return None, Some(d.error);
      }
      if !d.value {
        return None, None;
      }
      issued := Some(SetTarget(temperature.value));
      raised := SendAndRefresh(send, issued.value, first, second);
    }

    /**
     * set_hvac_mode with the corrected map (MapModeHassEph): an offered mode is
     * sent and refreshed; any other is only logged.
     */
    method SetHvacMode(h: HvacMode, send: (int, ZoneAction) -> Result<bool>, first: Fetch, second: Fetch)
      returns (issued: Option<ZoneAction>, raised: Option<Failure>)
      requires FetchValid(first) && FetchValid(second)
      modifies this, ember
      ensures issued.Some? <==> Offered(h)
      ensures issued.Some? ==> issued.value == SetMode(MapModeHassEph(h).value)
      ensures issued.None? ==> (raised.None? && zone == old(zone)
        && ember.homes == old(ember.homes) && ember.nextHomeUpdate == old(ember.nextHomeUpdate))
      ensures issued.Some? && send(old(zone).zoneId, issued.value).Ok? ==>
        (ember.homes, ember.nextHomeUpdate, zone, raised) == AfterCommand(old(ember.homes), old(zone), first, second)
      ensures issued.Some? && send(old(zone).zoneId, issued.value).Err? ==>
        raised == Some(send(old(zone).zoneId, issued.value).error) && zone == old(zone)
      ensures ember.loginData == old(ember.loginData)
      ensures old(Valid()) ==> Valid()
    {
      var mode := MapModeHassEph(h);
      if mode.None? {
        return None, None;
      }
      issued := Some(SetMode(mode.value));
      raised := SendAndRefresh(send, issued.value, first, second);
    }

    /**
     * set_preset_mode: "boost" activates a boost at the zone's current
     * target (reading it may raise before anything is sent); any other
     * preset deactivates the boost. Both are followed by the refresh.
     */
    method SetPresetMode(preset: string, send: (int, ZoneAction) -> Result<bool>, first: Fetch, second: Fetch)
      returns (issued: Option<ZoneAction>, raised: Option<Failure>)
      requires FetchValid(first) && FetchValid(second)
      modifies this, ember
      ensures preset == "boost" && TargetTemperature(old(zone)).Err? ==>
        issued.None? && raised == Some(TargetTemperature(old(zone)).error)
      ensures preset == "boost" && TargetTemperature(old(zone)).Ok? ==>
        issued == Some(BoostOn(TargetTemperature(old(zone)).value))
      ensures preset != "boost" ==> issued == Some(BoostOff)
      ensures issued.None? ==> (zone == old(zone)
        && ember.homes == old(ember.homes) && ember.nextHomeUpdate == old(ember.nextHomeUpdate))
      ensures issued.Some? && send(uniqueId, issued.value).Ok? && old(Valid()) ==>
        (ember.homes, ember.nextHomeUpdate, zone, raised) == AfterCommand(old(ember.homes), old(zone), first, second)
      ensures issued.Some? && send(uniqueId, issued.value).Err? && old(Valid()) ==>
        raised == Some(send(uniqueId, issued.value).error) && zone == old(zone)
      ensures ember.loginData == old(ember.loginData)
      ensures old(Valid()) ==> Valid()
    {
      if preset == "boost" {
        var target := TargetTemperature(zone);
        if target.Err? {
          return None, Some(target.error);
        }
        issued := Some(BoostOn(target.value));
      } else {
        issued := Some(BoostOff);
      }
      raised := SendAndRefresh(send, issued.value, first, second);
    }
  }
}
