/**
 * The thermostat entity of the top-level climate.py (EphEmberThermostat),
 * which sends its commands over MQTT and recovers from a stale zone id:
 * when a send fails with "Unknown zone", the cached homes are forced stale
 * and fetched again, the zone is found again by its MAC, and the send is
 * retried once with the new zone id.
 *
 * A send is the library's set_zone_*_mqtt path: get_zone over the cached
 * homes, the command list, the encoded payload, and the publish, which is
 * a parameter `publish` from the zone and the payload bytes to its outcome.
 * The HTTP exchange of the refresh is a parameter of type Fetch.
 */
module Resync {
  import opened Wrappers
  import ZoneData
  import opened ZoneView
  import opened Codec
  import opened Commands
  import opened Ember
  import opened Climate
  import Diagnostics

  // ---------------------------------------------------------------- one send

  /**
   * The command list of an action (pyephember2.py, the *_mqtt methods):
   * turning on and off are mode commands, a boost is one hour at the given
   * temperature from now, and ending a boost writes zero hours. Boosts go
   * through the replacement the integration installs for _set_zone_boost.
   */
  function ActionCommands(z: ZoneData.Zone, action: ZoneAction, now: int): (r: Result<seq<ZoneCommand>>)
    ensures r.Err? <==>
      (action.SetMode? || action.TurnOn? || action.TurnOff?) &&
      ZoneData.ModeValue(z.deviceType, match action case SetMode(m) => m case TurnOn => ZoneData.On case _ => ZoneData.Off).Err?
  {
    match action
    case SetTarget(tenths) => Ok([TargetCommand(tenths)])
    case SetMode(m) => (match ModeCommand(z, m) case Err(e) => Err(e) case Ok(c) => Ok([c]))
    case TurnOn => (match ModeCommand(z, ZoneData.On) case Err(e) => Err(e) case Ok(c) => Ok([c]))
    case TurnOff => (match ModeCommand(z, ZoneData.Off) case Err(e) => Err(e) case Ok(c) => Ok([c]))
    case BoostOn(t) => Ok(PatchedBoostCommands(Some(t), 1, Some(0), now))
    case BoostOff => Ok(PatchedBoostCommands(None, 0, None, now))
  }

  /** turn_zone_on_mqtt and turn_zone_off_mqtt are set_zone_mode_mqtt with ON and OFF. */
  lemma TurnOnOffAreModes(z: ZoneData.Zone, now: int)
    ensures ActionCommands(z, TurnOn, now) == ActionCommands(z, SetMode(ZoneData.On), now)
    ensures ActionCommands(z, TurnOff, now) == ActionCommands(z, SetMode(ZoneData.Off), now)
  {
  }

  /** A boost writes one hour, the temperature and the current time; ending it writes only zero hours. */
  lemma BoostActionCommands(z: ZoneData.Zone, t: int, now: int)
    ensures ActionCommands(z, BoostOn(t), now) ==
      Ok([ZoneCommand(ZoneData.BoostHours, 1, None), ZoneCommand(ZoneData.BoostTemp, t, None), ZoneCommand(ZoneData.BoostTime, now, None)])
    ensures ActionCommands(z, BoostOff, now) == Ok([ZoneCommand(ZoneData.BoostHours, 0, None)])
  {
    var on := PatchedBoostCommands(Some(t), 1, Some(0), now);
    assert on == [on[0], on[1], on[2]];
    var off := PatchedBoostCommands(None, 0, None, now);
    assert off == [off[0]];
  }

  /**
   * A set_zone_*_mqtt call for a zone id: "Unknown zone" when the cached
   * homes have no zone with that id, then the errors of building and
   * encoding the commands, then the outcome of the publish.
   */
  function MqttSend(homes: seq<Home>, zoneId: int, action: ZoneAction, now: int,
                    publish: (ZoneData.Zone, seq<int>) -> Result<bool>): (r: Result<bool>)
    ensures FindZone(homes, zoneId).Err? ==> r == Err(ZoneNotFound(zoneId))
    ensures FindZone(homes, zoneId).Ok? && ActionCommands(FindZone(homes, zoneId).value, action, now).Err? ==>
      r == Err(ActionCommands(FindZone(homes, zoneId).value, action, now).error)
    ensures r.Ok? ==>
      FindZone(homes, zoneId).Ok? &&
      var z := FindZone(homes, zoneId).value;
      ActionCommands(z, action, now).Ok? && BundlePayload(z, ActionCommands(z, action, now).value).Ok? &&
      r == publish(z, BundlePayload(z, ActionCommands(z, action, now).value).value)
  {
    match FindZone(homes, zoneId)
    case Err(e) => Err(e)
    case Ok(z) =>
      match ActionCommands(z, action, now)
      case Err(e) => Err(e)
      case Ok(cmds) =>
        match BundlePayload(z, cmds)
        case Err(e) => Err(e)
        case Ok(payload) => publish(z, payload)
  }

  // ---------------------------------------------------------------- the resync protocol

  /** s contains t. */
  predicate Contains(s: string, t: string)
  {
    exists i, j :: 0 <= i <= j <= |s| && s[i..j] == t
  }

  /** An error whose message says "Unknown zone": get_zone's, or a send error that names it. */
  predicate UnknownZone(f: Failure)
  {
    f.ZoneNotFound? || (f.SendFailed? && Contains(f.message, "Unknown zone"))
  }

  /** The outcome of _call_mqtt_with_resync: the result, the EphEmber cache, the entity's zone, the sends made. */
  datatype Outcome = Outcome(result: Result<bool>, homes: seq<Home>, next: Option<int>, zone: ZoneData.Zone, sends: nat)

  /**
   * _call_mqtt_with_resync. A success or any error but "Unknown zone" is
   * the answer. Otherwise the cache is made stale and fetched again (its
   * failure is raised); the zone is found again by the MAC the entity was
   * created with, and if there is none the first error is raised with the
   * zone unchanged; else the entity takes that zone and its id, and a
   * single retry is the answer.
   */
  function Resynced(homes: seq<Home>, next: Option<int>, zone: ZoneData.Zone, mac: Option<string>,
                    action: ZoneAction, now: int, publish: (ZoneData.Zone, seq<int>) -> Result<bool>, fetch: Fetch): (o: Outcome)
    requires FetchValid(fetch)
    ensures 1 <= o.sends <= 2
    ensures o.sends == 2 ==> o.result == MqttSend(o.homes, o.zone.zoneId, action, now, publish)
    ensures o.sends == 1 ==> o.zone == zone
  {
    var first := MqttSend(homes, zone.zoneId, action, now, publish);
    if first.Ok? || !UnknownZone(first.error) then Outcome(first, homes, next, zone, 1)
    else Recovery(homes, zone, mac, action, now, publish, fetch, first)
  }

  /**
   * The recovery after an unknown zone: the stale cache is fetched again,
   * the zone is looked up by its MAC and the send is retried once.
   */
  function Recovery(homes: seq<Home>, zone: ZoneData.Zone, mac: Option<string>, action: ZoneAction, now: int,
                    publish: (ZoneData.Zone, seq<int>) -> Result<bool>, fetch: Fetch, first: Result<bool>): (o: Outcome)
    requires FetchValid(fetch)
    ensures 1 <= o.sends <= 2
    ensures o.sends == 2 ==> o.result == MqttSend(o.homes, o.zone.zoneId, action, now, publish)
    ensures o.sends == 1 ==> o.zone == zone
  {
    match fetch
    case TimedOut => Outcome(Err(RequestTimeout), homes, None, zone, 1)
    case Fetch(s, f, l, r) =>
      var (hs, n, res) := Refresh(homes, None, s, f, l, r);
      if res.Err? then Outcome(Err(res.error), hs, n, zone, 1)
      else
        var found := if Diagnostics.Truthy(mac) then ZoneByMac(hs, mac.value) else None;
        if found.None? then Outcome(first, hs, n, zone, 1)
        else Outcome(MqttSend(hs, found.value.zoneId, action, now, publish), hs, n, found.value, 2)
  }

  /** A first send that succeeds, or fails for any reason but an unknown zone, is the answer and nothing is refreshed. */
  lemma NoResyncUnlessUnknown(homes: seq<Home>, next: Option<int>, zone: ZoneData.Zone, mac: Option<string>,
                              action: ZoneAction, now: int, publish: (ZoneData.Zone, seq<int>) -> Result<bool>, fetch: Fetch)
    requires FetchValid(fetch)
    requires var first := MqttSend(homes, zone.zoneId, action, now, publish);
      first.Ok? || !UnknownZone(first.error)
    ensures var o := Resynced(homes, next, zone, mac, action, now, publish, fetch);
      o.result == MqttSend(homes, zone.zoneId, action, now, publish) && o.sends == 1
      && o.homes == homes && o.next == next && o.zone == zone
  {
  }

  /**
   * After an unknown zone and a successful refresh that finds the MAC, the
   * entity is rebound to the refreshed zone with that MAC, the retry goes to
   * its id and, the id being in the refreshed cache, the retry's get_zone
   * succeeds: the retry is never refused as an unknown zone by the lookup.
   */
  lemma RecoveryRebinds(homes: seq<Home>, zone: ZoneData.Zone, mac: string, action: ZoneAction, now: int,
                        publish: (ZoneData.Zone, seq<int>) -> Result<bool>, fetch: Fetch, hs: seq<Home>)
    requires FetchValid(fetch) && fetch.Fetch? && mac != ""
    requires var first := MqttSend(homes, zone.zoneId, action, now, publish);
      first.Err? && UnknownZone(first.error)
    requires FetchFrom([], fetch.listed, fetch.replies) == (hs, None)
    requires ZoneByMac(hs, mac).Some?
    ensures var o := Resynced(homes, None, zone, Some(mac), action, now, publish, fetch);
      var found := ZoneByMac(hs, mac).value;
      o.homes == hs && o.next == Some(fetch.finish + HomesCacheSeconds) && o.zone == found && found.mac == Some(mac)
      && o.sends == 2 && o.result == MqttSend(hs, found.zoneId, action, now, publish)
      && FindZone(hs, found.zoneId).Ok?
  {
    var first := MqttSend(homes, zone.zoneId, action, now, publish);
    assert Resynced(homes, None, zone, Some(mac), action, now, publish, fetch)
        == Recovery(homes, zone, Some(mac), action, now, publish, fetch, first);
    RecoveryRetries(homes, zone, mac, action, now, publish, fetch, hs, first);
    RebindFindsZone(hs, mac);
  }

  /** The recovery with a refresh that succeeds and finds the MAC. */
  lemma RecoveryRetries(homes: seq<Home>, zone: ZoneData.Zone, mac: string, action: ZoneAction, now: int,
                        publish: (ZoneData.Zone, seq<int>) -> Result<bool>, fetch: Fetch, hs: seq<Home>, first: Result<bool>)
    requires FetchValid(fetch) && fetch.Fetch? && mac != ""
    requires FetchFrom([], fetch.listed, fetch.replies) == (hs, None)
    requires ZoneByMac(hs, mac).Some?
    ensures var o := Recovery(homes, zone, Some(mac), action, now, publish, fetch, first);
      var found := ZoneByMac(hs, mac).value;
      o == Outcome(MqttSend(hs, found.zoneId, action, now, publish), hs, Some(fetch.finish + HomesCacheSeconds), found, 2)
  {
    assert Refresh(homes, None, fetch.start, fetch.finish, fetch.listed, fetch.replies)
        == (hs, Some(fetch.finish + HomesCacheSeconds), Ok(hs));
  }

  /** The zone found by its MAC is found again by its id. */
  lemma RebindFindsZone(hs: seq<Home>, mac: string)
    requires ZoneByMac(hs, mac).Some?
    ensures FindZone(hs, ZoneByMac(hs, mac).value.zoneId).Ok?
  {
    var found := ZoneByMac(hs, mac).value;
    var i, k :| 0 <= i < |hs| && 0 <= k < |hs[i].zones| && hs[i].zones[k] == found;
    assert hs[i].zones[k].zoneId == found.zoneId;
  }

  /** When the MAC is missing or not found after the refresh, the first error is raised and the zone is kept. */
  lemma LostZoneReraises(homes: seq<Home>, zone: ZoneData.Zone, mac: Option<string>, action: ZoneAction, now: int,
                         publish: (ZoneData.Zone, seq<int>) -> Result<bool>, fetch: Fetch)
    requires FetchValid(fetch) && fetch.Fetch?
    requires var first := MqttSend(homes, zone.zoneId, action, now, publish);
      first.Err? && UnknownZone(first.error)
    requires FetchFrom([], fetch.listed, fetch.replies).1.None?
    requires !Diagnostics.Truthy(mac) || ZoneByMac(FetchFrom([], fetch.listed, fetch.replies).0, mac.value).None?
    ensures var o := Resynced(homes, None, zone, mac, action, now, publish, fetch);
      o.result == MqttSend(homes, zone.zoneId, action, now, publish) && o.zone == zone && o.sends == 1
      && o.homes == FetchFrom([], fetch.listed, fetch.replies).0
  {
  }

  /** A refresh that fails is raised in place of the first error, with the zone kept and no retry. */
  lemma FailedRefreshRaises(homes: seq<Home>, zone: ZoneData.Zone, mac: Option<string>, action: ZoneAction, now: int,
                            publish: (ZoneData.Zone, seq<int>) -> Result<bool>, fetch: Fetch)
    requires FetchValid(fetch)
    requires var first := MqttSend(homes, zone.zoneId, action, now, publish);
      first.Err? && UnknownZone(first.error)
    requires fetch.Fetch? ==> FetchFrom([], fetch.listed, fetch.replies).1.Some?
    ensures var o := Resynced(homes, None, zone, mac, action, now, publish, fetch);
      o.zone == zone && o.sends == 1 && o.next.None? &&
      o.result == Err(if fetch.TimedOut? then RequestTimeout else FetchFrom([], fetch.listed, fetch.replies).1.value)
  {
  }

  // ---------------------------------------------------------------- the entity

  class Thermostat {
    const ember: EphEmber
    /** _data. */
    const data: Diagnostics.EphemberData
    /** _zone_mac: the MAC the entity was created with; a resync does not change it. */
    const zoneMac: Option<string>
    /** _hot_water. */
    const hotWater: bool
    /** _zone. */
    var zone: ZoneData.Zone
    /** _zone_id. */
    var zoneId: int

    /** The zone id is the id of the zone the entity shows. */
    predicate Valid()
      reads this
    {
      zoneId == zone.zoneId
    }

    constructor (data: Diagnostics.EphemberData, ember: EphEmber, zone: ZoneData.Zone)
      ensures this.data == data && this.ember == ember && this.zone == zone && zoneId == zone.zoneId
      ensures zoneMac == zone.mac && hotWater == ZoneData.IsHotWater(zone)
      ensures Valid()
    {
      this.data := data;
      this.ember := ember;
      this.zone := zone;
      zoneId := zone.zoneId;
      zoneMac := zone.mac;
      hotWater := ZoneData.IsHotWater(zone);
    }

    /** _call_mqtt_with_resync, on the entity and its EphEmber object. */
    method CallWithResync(action: ZoneAction, now: int, publish: (ZoneData.Zone, seq<int>) -> Result<bool>, fetch: Fetch)
      returns (r: Result<bool>, ghost sends: nat)
      requires Valid() && FetchValid(fetch)
      modifies this, ember
      ensures Valid()
      ensures Outcome(r, ember.homes, ember.nextHomeUpdate, zone, sends) ==
        Resynced(old(ember.homes), old(ember.nextHomeUpdate), old(zone), zoneMac, action, now, publish, fetch)
      ensures ember.loginData == old(ember.loginData)
    {
      var first := MqttSend(ember.homes, zoneId, action, now, publish);
      sends := 1;
      if first.Ok? || !UnknownZone(first.error) {
        return first, sends;
      }
      r, sends := Recover(action, now, publish, fetch, first);
    }

    /** The recovery after an unknown zone, on the entity and its EphEmber object. */
    method Recover(action: ZoneAction, now: int, publish: (ZoneData.Zone, seq<int>) -> Result<bool>, fetch: Fetch, first: Result<bool>)
      returns (r: Result<bool>, ghost sends: nat)
      requires Valid() && FetchValid(fetch)
      modifies this, ember
      ensures Valid()
      ensures Outcome(r, ember.homes, ember.nextHomeUpdate, zone, sends) ==
        Recovery(old(ember.homes), old(zone), zoneMac, action, now, publish, fetch, first)
      ensures ember.loginData == old(ember.loginData)
    {
      sends := 1;
      ember.nextHomeUpdate := None;
      if fetch.TimedOut? {
        return Err(RequestTimeout), sends;
      }
      var hs := ember.GetHomes(fetch.start, fetch.finish, fetch.listed, fetch.replies);
      if hs.Err? {
        return Err(hs.error), sends;
      }
      var homes := ember.homes;
      var found: Option<ZoneData.Zone> := None;
      if zoneMac.Some? && zoneMac.value != "" {
        found := ZoneByMac(homes, zoneMac.value);
      }
      if found.None? {
        return first, sends;
      }
      r := MqttSend(homes, found.value.zoneId, action, now, publish);
      zone, zoneId := found.value, found.value.zoneId;
      sends := 2;
    }

    /**
     * set_temperature: the guards decide whether anything is sent; a send
     * that returns records the send time.
     */
    method SetTemperature(temperature: Option<int>, now: int, publish: (ZoneData.Zone, seq<int>) -> Result<bool>, fetch: Fetch)
      returns (issued: Option<ZoneAction>, raised: Option<Failure>)
      requires Valid() && FetchValid(fetch)
      modifies this, ember, data`lastMqttSent
      ensures Valid()
      ensures ember.loginData == old(ember.loginData)
      ensures var d := SendsSetpoint(old(zone), hotWater, temperature);
        (d.Err? ==> issued.None? && raised == Some(d.error))
        && (d == Ok(false) ==> issued.None? && raised.None?)
        && (d == Ok(true) ==> issued == Some(SetTarget(temperature.value)))
      ensures issued.None? ==>
        zone == old(zone) && ember.homes == old(ember.homes) && ember.nextHomeUpdate == old(ember.nextHomeUpdate)
        && data.lastMqttSent == old(data.lastMqttSent)
      ensures issued.Some? ==>
        var o := Resynced(old(ember.homes), old(ember.nextHomeUpdate), old(zone), zoneMac, issued.value, now, publish, fetch);
        ember.homes == o.homes && ember.nextHomeUpdate == o.next && zone == o.zone
        && raised == (if o.result.Err? then Some(o.result.error) else None)
        && data.lastMqttSent == (if o.result.Ok? then Some(now) else old(data.lastMqttSent))
    {
      var d := SendsSetpoint(zone, hotWater, temperature);
      if d.Err? {
        return None, Some(d.error);
      }
      if !d.value {
        return None, None;
      }
      issued := Some(SetTarget(temperature.value));
      raised := SendAndRecord(issued.value, now, publish, fetch);
    }

    /** Sends through the resync and, when the call returns, records the send time. */
    method SendAndRecord(action: ZoneAction, now: int, publish: (ZoneData.Zone, seq<int>) -> Result<bool>, fetch: Fetch)
      returns (raised: Option<Failure>)
      requires Valid() && FetchValid(fetch)
      modifies this, ember, data`lastMqttSent
      ensures Valid()
      ensures ember.loginData == old(ember.loginData)
      ensures var o := Resynced(old(ember.homes), old(ember.nextHomeUpdate), old(zone), zoneMac, action, now, publish, fetch);
        ember.homes == o.homes && ember.nextHomeUpdate == o.next && zone == o.zone
        && raised == (if o.result.Err? then Some(o.result.error) else None)
        && data.lastMqttSent == (if o.result.Ok? then Some(now) else old(data.lastMqttSent))
    {
      var r, sends := CallWithResync(action, now, publish, fetch);
      if r.Err? {
        return Some(r.error);
      }
      data.lastMqttSent := Some(now);
      raised := None;
    }

    /**
     * set_hvac_mode with the corrected map (MapModeHassEph): an offered mode
     * is sent, OFF as turn-off, HEAT as turn-on and the others as the mode
     * itself; any other mode is only logged.
     */
    method SetHvacMode(h: HvacMode, now: int, publish: (ZoneData.Zone, seq<int>) -> Result<bool>, fetch: Fetch)
      returns (issued: Option<ZoneAction>, raised: Option<Failure>)
      requires Valid() && FetchValid(fetch)
      modifies this, ember, data`lastMqttSent
      ensures Valid()
      ensures ember.loginData == old(ember.loginData)
      ensures issued.Some? <==> Offered(h)
      ensures h == Off ==> issued == Some(TurnOff)
      ensures h == Heat ==> issued == Some(TurnOn)
      ensures h == HeatCool ==> issued == Some(SetMode(ZoneData.Auto))
      ensures issued.None? ==>
        raised.None? && zone == old(zone) && ember.homes == old(ember.homes)
        && ember.nextHomeUpdate == old(ember.nextHomeUpdate) && data.lastMqttSent == old(data.lastMqttSent)
      ensures issued.Some? ==>
        var o := Resynced(old(ember.homes), old(ember.nextHomeUpdate), old(zone), zoneMac, issued.value, now, publish, fetch);
        ember.homes == o.homes && ember.nextHomeUpdate == o.next && zone == o.zone
        && raised == (if o.result.Err? then Some(o.result.error) else None)
        && data.lastMqttSent == (if o.result.Ok? then Some(now) else old(data.lastMqttSent))
    {
      var mode := MapModeHassEph(h);
      if mode.None? {
        return None, None;
      }
      if h == Off {
        issued := Some(TurnOff);
      } else if h == Heat {
        issued := Some(TurnOn);
      } else {
        issued := Some(SetMode(mode.value));
      }
      raised := SendAndRecord(issued.value, now, publish, fetch);
    }

    /**
     * set_preset_mode: "boost" boosts at the zone's current target (reading
     * it may raise before anything is sent); any other preset ends the
     * boost.
     */
    method SetPresetMode(preset: string, now: int, publish: (ZoneData.Zone, seq<int>) -> Result<bool>, fetch: Fetch)
      returns (issued: Option<ZoneAction>, raised: Option<Failure>)
      requires Valid() && FetchValid(fetch)
      modifies this, ember, data`lastMqttSent
      ensures Valid()
      ensures ember.loginData == old(ember.loginData)
      ensures preset == "boost" && TargetTemperature(old(zone)).Err? ==>
        issued.None? && raised == Some(TargetTemperature(old(zone)).error)
        && zone == old(zone) && ember.homes == old(ember.homes) && ember.nextHomeUpdate == old(ember.nextHomeUpdate)
        && data.lastMqttSent == old(data.lastMqttSent)
      ensures preset == "boost" && TargetTemperature(old(zone)).Ok? ==>
        issued == Some(BoostOn(TargetTemperature(old(zone)).value))
      ensures preset != "boost" ==> issued == Some(BoostOff)
      ensures issued.Some? ==>
        var o := Resynced(old(ember.homes), old(ember.nextHomeUpdate), old(zone), zoneMac, issued.value, now, publish, fetch);
        ember.homes == o.homes && ember.nextHomeUpdate == o.next && zone == o.zone
        && raised == (if o.result.Err? then Some(o.result.error) else None)
        && data.lastMqttSent == (if o.result.Ok? then Some(now) else old(data.lastMqttSent))
    {
      if preset == "boost" {
        var target := TargetTemperature(zone);
        if target.Err? {
          return None, Some(target.error);
        }
        issued := Some(BoostOn(target.value));
      } else {
        issued := Some(BoostOff);
      }
      raised := SendAndRecord(issued.value, now, publish, fetch);
    }
  }
}
