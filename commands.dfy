/**
 * The command lists the library sends for a zone (pyephember2.py:
 * _set_zone_boost, _set_zone_mode, _set_zone_target_temperature) and the
 * integration's replacement for the boost list (climate.py,
 * _patched_set_zone_boost). Boost timestamps: None sends no BOOST_TIME,
 * Some(0) means "now", any other value is sent as it is. `now` is the
 * current Unix time in seconds.
 */
module Commands {
  import opened Wrappers
  import opened ZoneData
  import opened Codec

  /** The library's clamp: one hour at most for the newer families, three for the others. */
  function ClampHours(deviceType: int, hours: int): (h: int)
    ensures deviceType in {258, 514, 773} ==> h <= 1
    ensures deviceType !in {258, 514, 773} ==> h <= 3
    ensures h == hours || (h < hours && (h == 1 || h == 3))
  {
    if deviceType in {258, 514, 773} then (if hours > 1 then 1 else hours)
    else (if hours > 3 then 3 else hours)
  }

  /**
   * _set_zone_boost: [BOOST_HOURS], then BOOST_TEMP when a temperature is
   * given, then BOOST_TIME unless the timestamp is None. A timestamp of 0
   * becomes now plus the boost for the newer families and now for the
   * others.
   */
  function BoostCommands(deviceType: int, temperature: Option<int>, hours: int, timestamp: Option<int>, now: int): (cmds: seq<ZoneCommand>)
    ensures |cmds| == 1 + (if temperature.Some? then 1 else 0) + (if timestamp.Some? then 1 else 0)
    ensures cmds[0] == ZoneCommand(EphFunction.BoostHours, ClampHours(deviceType, hours), None)
    ensures temperature.Some? ==> cmds[1] == ZoneCommand(BoostTemp, temperature.value, None)
    ensures timestamp.Some? ==> cmds[|cmds| - 1] == ZoneCommand(BoostTime,
      if timestamp.value != 0 then timestamp.value
      else if deviceType in {258, 514, 773} then now + 3600 * ClampHours(deviceType, hours)
      else now, None)
  {
    var h := ClampHours(deviceType, hours);
    var cmds := [ZoneCommand(EphFunction.BoostHours, h, None)];
    var cmds := if temperature.Some? then cmds + [ZoneCommand(BoostTemp, temperature.value, None)] else cmds;
    match timestamp
    case None => cmds
    case Some(ts) =>
      var ts := if ts != 0 then ts else if deviceType in {258, 514, 773} then now + h * 3600 else now;
      cmds + [ZoneCommand(BoostTime, ts, None)]
  }

  /**
   * _patched_set_zone_boost, which the integration installs in place of
   * _set_zone_boost: the same list, with the hours unclamped and a
   * timestamp of 0 meaning now for every family.
   */
  function PatchedBoostCommands(temperature: Option<int>, hours: int, timestamp: Option<int>, now: int): (cmds: seq<ZoneCommand>)
    ensures |cmds| == 1 + (if temperature.Some? then 1 else 0) + (if timestamp.Some? then 1 else 0)
    ensures cmds[0] == ZoneCommand(EphFunction.BoostHours, hours, None)
    ensures temperature.Some? ==> cmds[1] == ZoneCommand(BoostTemp, temperature.value, None)
    ensures timestamp.Some? ==>
      cmds[|cmds| - 1] == ZoneCommand(BoostTime, if timestamp.value == 0 then now else timestamp.value, None)
  {
    var cmds := [ZoneCommand(EphFunction.BoostHours, hours, None)];
    var cmds := if temperature.Some? then cmds + [ZoneCommand(BoostTemp, temperature.value, None)] else cmds;
    match timestamp
    case None => cmds
    case Some(ts) => cmds + [ZoneCommand(BoostTime, if ts == 0 then now else ts, None)]
  }

  /** Within the clamp, the library and the replacement send the same list to a classic family. */
  lemma PatchedAgreesWithinClamp(deviceType: int, temperature: Option<int>, hours: int, timestamp: Option<int>, now: int)
    requires deviceType !in {258, 514, 773} && hours <= 3
    ensures PatchedBoostCommands(temperature, hours, timestamp, now) == BoostCommands(deviceType, temperature, hours, timestamp, now)
  {
  }

  /** _set_zone_mode: a MODE command carrying get_zone_mode_value. */
  function ModeCommand(z: Zone, m: ZoneMode): (r: Result<ZoneCommand>)
    ensures r.Ok? <==> ModeValue(z.deviceType, m).Ok?
    ensures r.Ok? ==> r.value.name == Mode && r.value.index == None
    ensures r.Ok? && z.deviceType in KnownFamilies ==> DecodeMode(z.deviceType, Some(r.value.value)) == Ok(m)
  {
    match ModeValue(z.deviceType, m)
    case Err(e) => Err(e)
    case Ok(v) =>
      if z.deviceType in KnownFamilies then ModeRoundTrip(z.deviceType, m); Ok(ZoneCommand(Mode, v, None))
      else Ok(ZoneCommand(Mode, v, None))
  }

  /** _set_zone_target_temperature: a TARGET_TEMP_W command (tenths of a degree). */
  function TargetCommand(tenths: int): ZoneCommand
  {
    ZoneCommand(TargetTempWrite, tenths, None)
  }

  /**
   * A target temperature is written as a two-byte TempRW value to the zone's
   * TARGET_TEMP_W index; it is refused as an overflow outside [0, 65536), and
   * otherwise its frame decodes back to that index and the tenths sent.
   */
  lemma TargetCommandRoundTrip(z: Zone, tenths: int)
    requires CommandIndex(z, TargetCommand(tenths)).Ok?
    ensures CommandFrame(z, TargetCommand(tenths)).Ok? <==> 0 <= tenths < 65536
    ensures CommandFrame(z, TargetCommand(tenths)).Err? ==> CommandFrame(z, TargetCommand(tenths)).error == ValueOverflow
    ensures CommandFrame(z, TargetCommand(tenths)).Ok? ==>
      var d := Decoded(FrameBytes(CommandFrame(z, TargetCommand(tenths)).value));
      |d| == 1 && d[0].index == GetPointIndex(z, TargetTempWrite).value && d[0].dtype == TypeId(TempRW)
      && d[0].value == tenths
  {
    var c := TargetCommand(tenths);
    assert Pow256(ByteLen(TempRW)) == 65536;
    if CommandFrame(z, c).Ok? {
      var f := CommandFrame(z, c).value;
      FrameDecodes(f, [], []);
      assert FrameBytes(f) + [] == FrameBytes(f);
    }
  }

  /** The boost functions use distinct indices in every family. */
  lemma BoostIndicesDistinct(z: Zone, f: EphFunction, g: EphFunction)
    requires f in {EphFunction.BoostHours, BoostTemp, BoostTime} && g in {EphFunction.BoostHours, BoostTemp, BoostTime}
    ensures GetPointIndex(z, f).Ok? && GetPointIndex(z, g).Ok?
    ensures f != g ==> GetPointIndex(z, f).value != GetPointIndex(z, g).value
  {
  }

  /** The replacement's list names each boost function at most once, with no explicit index. */
  lemma PatchedBoostNames(temperature: Option<int>, hours: int, timestamp: Option<int>, now: int)
    ensures var cmds := PatchedBoostCommands(temperature, hours, timestamp, now);
      (forall k :: 0 <= k < |cmds| ==> cmds[k].index == None && cmds[k].name in {EphFunction.BoostHours, BoostTemp, BoostTime})
      && (forall i, j :: 0 <= i < j < |cmds| ==> cmds[i].name != cmds[j].name)
  {
  }

  lemma FrameIndexOfCommand(z: Zone, c: ZoneCommand)
    requires CommandFrame(z, c).Ok? && c.index == None
    ensures GetPointIndex(z, c.name).Ok? && CommandFrame(z, c).value.index == GetPointIndex(z, c.name).value
  {
  }

  /**
   * When every boost command fits its width, the bundle the replacement sends
   * decodes back to the hours, the temperature if one was given, and the
   * timestamp if one was sent, in that order.
   */
  lemma PatchedBoostRoundTrip(z: Zone, temperature: Option<int>, hours: int, timestamp: Option<int>, now: int)
    requires BundleFrames(z, PatchedBoostCommands(temperature, hours, timestamp, now)).Ok?
    ensures var cmds := PatchedBoostCommands(temperature, hours, timestamp, now);
      var d := Decoded(Concat(BundleFrames(z, cmds).value));
      |d| == |cmds| && d[0].value == hours
      && (temperature.Some? ==> d[1].value == temperature.value)
      && (timestamp.Some? ==> d[|d| - 1].value == if timestamp.value == 0 then now else timestamp.value)
  {
    var cmds := PatchedBoostCommands(temperature, hours, timestamp, now);
    var fs := BundleFrames(z, cmds).value;
    PatchedBoostNames(temperature, hours, timestamp, now);
    forall i, j | 0 <= i < j < |fs| ensures fs[i].index != fs[j].index {
      FrameIndexOfCommand(z, cmds[i]);
      FrameIndexOfCommand(z, cmds[j]);
      BoostIndicesDistinct(z, cmds[i].name, cmds[j].name);
    }
    BundleRoundTrip(z, cmds);
  }
}
