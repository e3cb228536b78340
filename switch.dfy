/**
 * The setpoint-control switch of a zone (switch.py, class
 * EphemberSetpointSwitch): it is created only for zones that are not hot
 * water, starts on exactly when its zone is not hot water, and a hot-water
 * switch is never on. Home Assistant's state machine, the restored state
 * and the notification of the climate entity are outside the model; the
 * last state is a parameter.
 */
module Switch {
  import opened Wrappers
  import opened ZoneData
  import opened Ember

  /** The zones of all homes, home by home, that get a switch. */
  function SwitchZones(homes: seq<Home>): (zs: seq<Zone>)
    ensures forall z :: z in zs ==> !IsHotWater(z)
    decreases |homes|
  {
    if |homes| == 0 then [] else NotHotWater(homes[0].zones) + SwitchZones(homes[1..])
  }

  function NotHotWater(zs: seq<Zone>): (r: seq<Zone>)
    ensures forall z :: z in r ==> z in zs && !IsHotWater(z)
    ensures forall z :: z in zs && !IsHotWater(z) ==> z in r
    decreases |zs|
  {
    if |zs| == 0 then []
    else if IsHotWater(zs[0]) then NotHotWater(zs[1..])
    else [zs[0]] + NotHotWater(zs[1..])
  }

  /** A zone gets a switch exactly when some home lists it and it is not hot water. */
  lemma {:induction false} SwitchZonesMembers(homes: seq<Home>, z: Zone)
    ensures z in SwitchZones(homes) <==>
      !IsHotWater(z) && exists h :: 0 <= h < |homes| && z in homes[h].zones
    decreases |homes|
  {
    if |homes| > 0 {
      SwitchZonesMembers(homes[1..], z);
      if exists h :: 0 <= h < |homes| && z in homes[h].zones {
        var h :| 0 <= h < |homes| && z in homes[h].zones;
        if h > 0 {
          assert homes[1..][h - 1] == homes[h];
        }
      }
      if exists h :: 0 <= h < |homes[1..]| && z in homes[1..][h].zones {
        var h :| 0 <= h < |homes[1..]| && z in homes[1..][h].zones;
        assert homes[1..][h] == homes[h + 1];
      }
    }
  }

  /**
   * The state after a restore: a hot-water switch is off; otherwise a last
   * state that is present and neither "unknown" nor "unavailable" decides,
   * "on" meaning on; otherwise the state is kept.
   */
  function Restored(hotWater: bool, before: bool, lastState: Option<string>): (on: bool)
    ensures hotWater ==> !on
    ensures !hotWater && lastState.Some? && lastState.value != "unknown" && lastState.value != "unavailable" ==>
      (on <==> lastState.value == "on")
    ensures !hotWater && (lastState.None? || lastState.value == "unknown" || lastState.value == "unavailable") ==>
      on == before
  {
    var on := if lastState.Some? && lastState.value !in {"unknown", "unavailable"} && !hotWater
      then lastState.value == "on" else before;
    if hotWater then false else on
  }

  class SetpointSwitch {
    /** _zone_id. */
    var zoneId: int
    /** _hot_water. */
    var hotWater: bool
    /** _attr_is_on. */
    var isOn: bool

    /** A hot-water switch is never on. */
    predicate Valid()
      reads this
    {
      hotWater ==> !isOn
    }

    constructor (z: Zone)
      ensures zoneId == z.zoneId && hotWater == IsHotWater(z)
      ensures isOn == !IsHotWater(z)
      ensures Valid()
    {
      zoneId := z.zoneId;
      hotWater := IsHotWater(z);
      isOn := !IsHotWater(z);
    }

    /** async_added_to_hass. */
    method Restore(lastState: Option<string>)
      modifies this
      ensures zoneId == old(zoneId) && hotWater == old(hotWater)
      ensures isOn == Restored(hotWater, old(isOn), lastState)
      ensures Valid()
    {
      if lastState.Some? {
        if lastState.value != "unknown" && lastState.value != "unavailable" {
          if !hotWater {
            isOn := lastState.value == "on";
          }
        }
      }
      if hotWater {
        isOn := false;
      }
    }

    /** async_turn_on: nothing changes for a hot-water zone. */
    method TurnOn()
      requires Valid()
      modifies this
      ensures zoneId == old(zoneId) && hotWater == old(hotWater)
      ensures isOn == !hotWater
      ensures Valid()
    {
      if hotWater {
        return;
      }
      isOn := true;
    }

    /** async_turn_off. */
    method TurnOff()
      modifies this
      ensures zoneId == old(zoneId) && hotWater == old(hotWater)
      ensures !isOn && Valid()
    {
      isOn := false;
    }
  }
}
