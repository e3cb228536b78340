/**
 * The integration's runtime data (custom_components/ephember/__init__.py,
 * class EphemberData) and the code that fills it: the setup loops over the
 * first zone snapshot and the three MQTT callbacks that keep the
 * diagnostics up to date. Clocks are integer parameters, the JSON reading
 * of a logged payload is a parameter, and Home Assistant's sensors and
 * event loop are outside the model.
 */
module Diagnostics {
  import opened Wrappers
  import opened ZoneData
  import opened ZoneView
  import opened Dicts
  import Codec
  import opened Ember

  // ---------------------------------------------------------------------
  // The bounded message deques
  // ---------------------------------------------------------------------

  /** deque(maxlen=5). */
  const MaxMessages := 5

  /** The part of a message history a bounded deque holds: its last five entries. */
  function Recent<T>(s: seq<T>): (r: seq<T>)
    ensures |r| == if |s| <= MaxMessages then |s| else MaxMessages
  {
    if |s| <= MaxMessages then s else s[|s| - MaxMessages..]
  }

  /** append on a full deque drops the oldest entry. */
  function Push<T>(buf: seq<T>, x: T): (r: seq<T>)
    ensures |buf| <= MaxMessages ==> |r| <= MaxMessages
    ensures |r| > 0 && r[|r| - 1] == x
    ensures |buf| < MaxMessages ==> r == buf + [x]
  {
    if |buf| < MaxMessages then buf + [x] else buf[|buf| - MaxMessages + 1..] + [x]
  }

  /** Appending to the deque of a history gives the deque of the longer history. */
  lemma PushKeepsRecent<T>(s: seq<T>, x: T)
    ensures Push(Recent(s), x) == Recent(s + [x])
  {
    if |s| >= MaxMessages {
      assert Recent(s)[1..] == (s + [x])[|s| + 1 - MaxMessages..|s|];
    }
  }

  // ---------------------------------------------------------------------
  // What the setup loops record
  // ---------------------------------------------------------------------

  /** Truthiness of an optional string. */
  predicate Truthy(s: Option<string>)
  {
    s.Some? && s.value != ""
  }

  /** Every zone of every home, home by home. */
  function AllZones(homes: seq<Home>): seq<Zone>
    decreases |homes|
  {
    if |homes| == 0 then [] else AllZones(homes[..|homes| - 1]) + homes[|homes| - 1].zones
  }

  lemma {:induction false} AllZonesMembers(homes: seq<Home>, z: Zone)
    ensures z in AllZones(homes) <==> exists h :: 0 <= h < |homes| && z in homes[h].zones
    decreases |homes|
  {
    if |homes| > 0 {
      var front := homes[..|homes| - 1];
      AllZonesMembers(front, z);
      if exists h :: 0 <= h < |front| && z in front[h].zones {
        var h :| 0 <= h < |front| && z in front[h].zones;
        assert homes[h] == front[h];
      }
      if exists h :: 0 <= h < |homes| && z in homes[h].zones {
        var h :| 0 <= h < |homes| && z in homes[h].zones;
        if h < |front| {
          assert front[h] == homes[h];
        }
      }
    }
  }

  /** zone_heating is set for a truthy zone id. */
  function HeatingKey(z: Zone): Option<int>
  {
    if z.zoneId != 0 then Some(z.zoneId) else None
  }

  /** mac_to_zone_id is set for a zone with both a mac and a zone id. */
  function MacKey(z: Zone): Option<string>
  {
    if Truthy(z.mac) && z.zoneId != 0 then z.mac else None
  }

  function ZoneIdOf(z: Zone): int
  {
    z.zoneId
  }

  /** zone_id_to_entity is keyed by every entity's zone id. */
  function EntityKey(z: Zone): Option<int>
  {
    Some(z.zoneId)
  }

  function Self(z: Zone): Zone
  {
    z
  }

  predicate HasSystemType(z: Zone)
  {
    z.systemType.Some? && z.systemType.value != 0
  }

  /** The systemType of the first zone that has a truthy one. */
  function FirstSystemType(zs: seq<Zone>): (r: Option<int>)
    ensures r.None? <==> forall k :: 0 <= k < |zs| ==> !HasSystemType(zs[k])
    ensures r.Some? ==> exists k :: (0 <= k < |zs| && HasSystemType(zs[k]) && zs[k].systemType == r &&
      forall j :: 0 <= j < k ==> !HasSystemType(zs[j]))
    decreases |zs|
  {
    if |zs| == 0 then None
    else
      var front := zs[..|zs| - 1];
      var p := FirstSystemType(front);
      assert forall k :: 0 <= k < |front| ==> front[k] == zs[k];
      if p.Some? then p
      else if HasSystemType(zs[|zs| - 1]) then zs[|zs| - 1].systemType
      else None
  }

  /** After setup, zone id 0 and a zone id no zone has are absent from the heating cache. */
  lemma SetupHeatingAbsent(homes: seq<Home>, zid: int)
    requires zid == 0 || forall z :: z in AllZones(homes) ==> z.zoneId != zid
    ensures UniqueKeys(AssignBy([], AllZones(homes), HeatingKey, IsBoilerOn))
    ensures Get(AssignBy([], AllZones(homes), HeatingKey, IsBoilerOn), zid).None?
  {
    var zs := AllZones(homes);
    AssignByUnique([], zs, HeatingKey, IsBoilerOn);
    assert forall i :: 0 <= i < |zs| ==> zs[i] in zs;
    AssignByUntouched([], zs, HeatingKey, IsBoilerOn, zid);
  }

  /** After setup, a zone id reads the boiler state of the last zone listed with that id. */
  lemma SetupHeatingLast(homes: seq<Home>, k: nat)
    requires k < |AllZones(homes)| && AllZones(homes)[k].zoneId != 0
    requires forall j :: k < j < |AllZones(homes)| ==> AllZones(homes)[j].zoneId != AllZones(homes)[k].zoneId
    ensures Get(AssignBy([], AllZones(homes), HeatingKey, IsBoilerOn), AllZones(homes)[k].zoneId) ==
      Some(IsBoilerOn(AllZones(homes)[k]))
  {
    AssignByLast([], AllZones(homes), HeatingKey, IsBoilerOn, k);
  }

  /**
   * After setup, a MAC that no zone with a non-zero id has is absent from
   * the MAC map, and no MAC maps to zone id 0.
   */
  lemma SetupMacsAbsent(homes: seq<Home>, mac: string)
    ensures UniqueKeys(AssignBy([], AllZones(homes), MacKey, ZoneIdOf))
    ensures (forall z :: z in AllZones(homes) ==> MacKey(z) != Some(mac)) ==>
      Get(AssignBy([], AllZones(homes), MacKey, ZoneIdOf), mac).None?
    ensures Get(AssignBy([], AllZones(homes), MacKey, ZoneIdOf), mac) != Some(0)
  {
    var zs := AllZones(homes);
    AssignByUnique([], zs, MacKey, ZoneIdOf);
    if forall z :: z in zs ==> MacKey(z) != Some(mac) {
      assert forall i :: 0 <= i < |zs| ==> zs[i] in zs;
      AssignByUntouched([], zs, MacKey, ZoneIdOf, mac);
    } else {
      var z :| z in zs && MacKey(z) == Some(mac);
      var k :| 0 <= k < |zs| && zs[k] == z;
      while exists j :: k < j < |zs| && MacKey(zs[j]) == Some(mac)
        invariant 0 <= k < |zs| && MacKey(zs[k]) == Some(mac)
        decreases |zs| - k
      {
        var k' :| k < k' < |zs| && MacKey(zs[k']) == Some(mac);
        k := k';
      }
      AssignByLast([], zs, MacKey, ZoneIdOf, k);
    }
  }

  /** After setup, a MAC maps to the zone id of the last zone listed with that MAC and a non-zero id. */
  lemma SetupMacsLast(homes: seq<Home>, k: nat)
    requires k < |AllZones(homes)| && MacKey(AllZones(homes)[k]).Some?
    requires forall j :: k < j < |AllZones(homes)| ==> MacKey(AllZones(homes)[j]) != MacKey(AllZones(homes)[k])
    ensures Get(AssignBy([], AllZones(homes), MacKey, ZoneIdOf), AllZones(homes)[k].mac.value) ==
      Some(AllZones(homes)[k].zoneId)
  {
    AssignByLast([], AllZones(homes), MacKey, ZoneIdOf, k);
  }

  // ---------------------------------------------------------------------
  // The logged SEND lines
  // ---------------------------------------------------------------------

  /** content.split('\n'). */
  function SplitLines(s: string): (lines: seq<string>)
    ensures |lines| >= 1
    ensures forall k :: 0 <= k < |lines| ==> '\n' !in lines[k]
    decreases |s|
  {
    if |s| == 0 then [""]
    else
      var rest := SplitLines(s[1..]);
      if s[0] == '\n' then [""] + rest
      else [[s[0]] + rest[0]] + rest[1..]
  }

  /** A line break ends the first line. */
  lemma {:induction false} SplitAtBreak(a: string, b: string)
    requires '\n' !in a
    ensures SplitLines(a + "\n" + b) == [a] + SplitLines(b)
    ensures SplitLines(a) == [a]
    decreases |a|
  {
    if |a| > 0 {
      assert (a + "\n" + b)[1..] == a[1..] + "\n" + b;
      SplitAtBreak(a[1..], b);
      assert [a[0]] + a[1..] == a;
    } else {
      assert a + "\n" + b == "\n" + b;
      assert ("\n" + b)[1..] == b;
    }
  }

  /** Two lines joined by a line break split back into those two. */
  lemma SplitTwo(a: string, b: string)
    requires '\n' !in a && '\n' !in b
    ensures SplitLines(a + "\n" + b) == [a, b]
  {
    SplitAtBreak(a, b);
    SplitAtBreak(b, "");
  }

  lemma NoBreakAfterTag(tag: string, s: string)
    requires '\n' !in tag && '\n' !in s
    ensures '\n' !in tag + s
  {
    assert forall c :: c in tag + s ==> c in tag || c in s;
  }

  /** str.isspace for ASCII characters: space, \t to \r, and the separators U+001C to U+001F. */
  predicate IsSpace(c: char)
  {
    c == ' ' || ('\t' <= c <= '\r') || ('\U{001C}' <= c <= '\U{001F}')
  }

  /** No white space at either end. */
  predicate Stripped(s: string)
  {
    |s| == 0 || (!IsSpace(s[0]) && !IsSpace(s[|s| - 1]))
  }

  /** Where str.strip() starts: the first non-space position from lo on, or |s|. */
  function LeftEnd(s: string, lo: nat): (i: nat)
    requires lo <= |s|
    ensures lo <= i <= |s|
    ensures forall k :: lo <= k < i ==> IsSpace(s[k])
    ensures i < |s| ==> !IsSpace(s[i])
    decreases |s| - lo
  {
    if lo < |s| && IsSpace(s[lo]) then LeftEnd(s, lo + 1) else lo
  }

  /** Where str.strip() ends: just past the last non-space position before hi, or lo. */
  function RightEnd(s: string, lo: nat, hi: nat): (j: nat)
    requires lo <= hi <= |s|
    ensures lo <= j <= hi
    ensures forall k :: j <= k < hi ==> IsSpace(s[k])
    ensures j > lo ==> !IsSpace(s[j - 1])
    decreases hi - lo
  {
    if hi > lo && IsSpace(s[hi - 1]) then RightEnd(s, lo, hi - 1) else hi
  }

  /** str.strip(): the white space at both ends is removed and nothing else. */
  function Strip(s: string): (r: string)
    ensures Stripped(r)
    ensures Stripped(s) ==> r == s
  {
    var i := LeftEnd(s, 0);
    var j := RightEnd(s, i, |s|);
    assert Stripped(s) && |s| > 0 ==> i == 0 && j == |s|;
    s[i..j]
  }

  /** str.strip() keeps one slice of its input and drops only white space around it. */
  lemma StripSlice(s: string)
    ensures exists i, j ::
              && 0 <= i <= j <= |s| && Strip(s) == s[i..j]
              && (forall k :: 0 <= k < i ==> IsSpace(s[k]))
              && (forall k :: j <= k < |s| ==> IsSpace(s[k]))
  {
    var i := LeftEnd(s, 0);
    var j := RightEnd(s, i, |s|);
    assert Strip(s) == s[i..j];
  }

  predicate HasPrefix(line: string, p: string)
  {
    |p| <= |line| && line[..|p|] == p
  }

  const TopicTag := "Topic: "
  const PayloadTag := "Payload: "

  /** The topic the line scan keeps: from the last line tagged "Topic: ". */
  function LoggedTopic(lines: seq<string>): Option<string>
    decreases |lines|
  {
    if |lines| == 0 then None
    else
      var line := lines[|lines| - 1];
      if HasPrefix(line, TopicTag) then Some(Strip(line[|TopicTag|..]))
      else LoggedTopic(lines[..|lines| - 1])
  }

  /** The payload the line scan keeps: from the last line tagged "Payload: " and not "Topic: ". */
  function LoggedPayload(lines: seq<string>): Option<string>
    decreases |lines|
  {
    if |lines| == 0 then None
    else
      var line := lines[|lines| - 1];
      if !HasPrefix(line, TopicTag) && HasPrefix(line, PayloadTag) then Some(Strip(line[|PayloadTag|..]))
      else LoggedPayload(lines[..|lines| - 1])
  }

  /**
   * The SEND entry the messenger logs for a publish, "Topic: <topic>" and
   * "Payload: <payload>" on two lines, reads back as that topic and payload.
   */
  lemma LogReadsBack(topic: string, payload: string)
    requires '\n' !in topic && '\n' !in payload
    requires Stripped(topic) && Stripped(payload)
    ensures LoggedTopic(SplitLines("Topic: " + topic + "\nPayload: " + payload)) == Some(topic)
    ensures LoggedPayload(SplitLines("Topic: " + topic + "\nPayload: " + payload)) == Some(payload)
  {
    var content := "Topic: " + topic + "\nPayload: " + payload;
    LogReadsBackAt(content, topic, payload);
  }

  /** The same, for the content named by a variable. */
  lemma LogReadsBackAt(content: string, topic: string, payload: string)
    requires '\n' !in topic && '\n' !in payload
    requires Stripped(topic) && Stripped(payload)
    requires content == "Topic: " + topic + "\nPayload: " + payload
    ensures LoggedTopic(SplitLines(content)) == Some(topic)
    ensures LoggedPayload(SplitLines(content)) == Some(payload)
  {
    var a := TopicTag + topic;
    var b := PayloadTag + payload;
    assert content == a + "\n" + b;
    TwoTaggedLines(a, b, topic, payload);
  }

  /** The two lines of a logged publish are read as its topic and payload. */
  lemma TwoTaggedLines(a: string, b: string, topic: string, payload: string)
    requires a == TopicTag + topic && b == PayloadTag + payload
    requires '\n' !in topic && '\n' !in payload
    requires Stripped(topic) && Stripped(payload)
    ensures var lines := SplitLines(a + "\n" + b);
      LoggedTopic(lines) == Some(topic) && LoggedPayload(lines) == Some(payload)
  {
    NoBreakAfterTag(TopicTag, topic);
    NoBreakAfterTag(PayloadTag, payload);
    SplitTwo(a, b);
    TaggedLinesRead(a, b, topic, payload);
  }

  /** A "Topic: " line followed by a "Payload: " line. */
  lemma TaggedLinesRead(a: string, b: string, topic: string, payload: string)
    requires a == TopicTag + topic && b == PayloadTag + payload
    requires Stripped(topic) && Stripped(payload)
    ensures LoggedTopic([a, b]) == Some(topic) && LoggedPayload([a, b]) == Some(payload)
  {
    assert a[|TopicTag|..] == topic && b[|PayloadTag|..] == payload;
    assert b[0] == 'P';
    assert !HasPrefix(b, TopicTag);
    assert HasPrefix(b, PayloadTag);
    assert [a, b][..1] == [a];
    assert HasPrefix(a, TopicTag);
  }

  /** The fields of a logged JSON payload the diagnostics read: data.mac and the decoded data.pointData. */
  datatype PayloadFields = PayloadFields(mac: Option<string>, pointData: Option<seq<int>>)

  /** A message kept for diagnostics. */
  datatype Message = Message(timestamp: int, topic: string, rawPayload: string, decoded: seq<Codec.Record>, mac: Option<string>)

  /** A raw-cache entry: the topic and the payload as received. */
  datatype RawMessage = RawMessage(topic: string, rawPayload: string)

  /**
   * The sent record a SEND entry yields: one exactly when the entry has a
   * non-empty topic and payload, holding both, the time, and what the
   * payload's JSON names (nothing when it does not read as JSON).
   */
  function SentRecord(content: string, now: int, readJson: string -> Option<PayloadFields>): (m: Option<Message>)
    ensures m.Some? <==> Truthy(LoggedTopic(SplitLines(content))) && Truthy(LoggedPayload(SplitLines(content)))
    ensures m.Some? ==>
      m.value.timestamp == now && Some(m.value.topic) == LoggedTopic(SplitLines(content)) &&
      Some(m.value.rawPayload) == LoggedPayload(SplitLines(content))
    ensures m.Some? && readJson(m.value.rawPayload).None? ==> m.value.mac.None? && m.value.decoded == []
    ensures m.Some? && readJson(m.value.rawPayload).Some? ==>
      m.value.mac == readJson(m.value.rawPayload).value.mac &&
      m.value.decoded == match readJson(m.value.rawPayload).value.pointData
        case None => []
        case Some(bytes) => Codec.Decoded(bytes)
  {
    var topic := LoggedTopic(SplitLines(content));
    var payload := LoggedPayload(SplitLines(content));
    if Truthy(topic) && Truthy(payload) then
      var fields := readJson(payload.value);
      var mac := if fields.Some? then fields.value.mac else None;
      var decoded := if fields.Some? && fields.value.pointData.Some? then Codec.Decoded(fields.value.pointData.value) else [];
      Some(Message(now, topic.value, payload.value, decoded, mac))
    else None
  }

  /** The entry logged for a publish yields a sent record of that topic and payload. */
  lemma LoggedPublishIsRecorded(topic: string, payload: string, now: int, readJson: string -> Option<PayloadFields>)
    requires '\n' !in topic && '\n' !in payload
    requires Stripped(topic) && Stripped(payload) && topic != "" && payload != ""
    ensures var m := SentRecord("Topic: " + topic + "\nPayload: " + payload, now, readJson);
      m.Some? && m.value.topic == topic && m.value.rawPayload == payload && m.value.timestamp == now
  {
    LogReadsBack(topic, payload);
  }

  /** The line scan of on_mqtt_log: the topic and payload of the last tagged lines. */
  method ScanLog(content: string) returns (topic: Option<string>, payload: Option<string>)
    ensures topic == LoggedTopic(SplitLines(content))
    ensures payload == LoggedPayload(SplitLines(content))
  {
    var lines := SplitLines(content);
    topic := None;
    payload := None;
    var i := 0;
    while i < |lines|
      invariant 0 <= i <= |lines|
      invariant topic == LoggedTopic(lines[..i]) && payload == LoggedPayload(lines[..i])
    {
      var line := lines[i];
      assert lines[..i + 1][..i] == lines[..i] && lines[..i + 1][i] == line;
      if HasPrefix(line, TopicTag) {
        topic := Some(Strip(line[|TopicTag|..]));
      } else if HasPrefix(line, PayloadTag) {
        payload := Some(Strip(line[|PayloadTag|..]));
      }
      i := i + 1;
    }
    assert lines[..i] == lines;
  }

  /** The body of on_mqtt_log's try block, up to the append: the record to keep, if any. */
  method ParseSent(content: string, now: int, readJson: string -> Option<PayloadFields>) returns (m: Option<Message>)
    ensures m == SentRecord(content, now, readJson)
  {
    var topic, payload := ScanLog(content);
    var mac: Option<string> := None;
    var decoded: seq<Codec.Record> := [];
    if Truthy(payload) {
      var fields := readJson(payload.value);
      if fields.Some? {
        mac := fields.value.mac;
        if fields.value.pointData.Some? {
          decoded := Codec.DecodePointData(fields.value.pointData.value);
        }
      }
    }
    if Truthy(topic) && Truthy(payload) {
      m := Some(Message(now, topic.value, payload.value, decoded, mac));
    } else {
      m := None;
    }
  }

  class EphemberData {
    const ember: EphEmber
    /** mac_to_zone_id. */
    var macToZoneId: Dict<string, int>
    /** zone_id_to_entity, each entity by the zone it shows. */
    var entityZones: Dict<int, Zone>
    /** zone_heating. */
    var zoneHeating: Dict<int, bool>
    var lastMqttSent: Option<int>
    var lastMqttReceived: Option<int>
    var lastHttpRequest: Option<int>
    /** last_http_zones_data. */
    var lastHttpZones: Option<seq<Home>>
    var mqttConnected: bool
    var systemType: Option<int>
    /** recent_mqtt_messages_received. */
    var received: seq<Message>
    /** recent_mqtt_messages_sent. */
    var sent: seq<Message>
    /** _raw_mqtt_message_cache. */
    var rawCache: Dict<string, RawMessage>
    /** Every message ever appended to each deque. */
    ghost var allReceived: seq<Message>
    ghost var allSent: seq<Message>

    /** The dictionaries have unique keys and each deque holds the last five messages appended to it. */
    ghost predicate Valid()
      reads this
    {
      && UniqueKeys(macToZoneId) && UniqueKeys(entityZones) && UniqueKeys(zoneHeating) && UniqueKeys(rawCache)
      && received == Recent(allReceived) && sent == Recent(allSent)
    }

    constructor (ember: EphEmber)
      ensures this.ember == ember && Valid()
      ensures macToZoneId == [] && entityZones == [] && zoneHeating == [] && rawCache == []
      ensures lastMqttSent.None? && lastMqttReceived.None? && lastHttpRequest.None? && lastHttpZones.None?
      ensures !mqttConnected && systemType.None? && received == [] && sent == []
    {
      this.ember := ember;
      macToZoneId := [];
      entityZones := [];
      zoneHeating := [];
      lastMqttSent := None;
      lastMqttReceived := None;
      lastHttpRequest := None;
      lastHttpZones := None;
      mqttConnected := false;
      systemType := None;
      received := [];
      sent := [];
      rawCache := [];
      allReceived := [];
      allSent := [];
    }

    /** The first setup loop: every zone with a zone id records whether its boiler is on. */
    static method HeatingLoop(homes: seq<Home>, start: Dict<int, bool>) returns (heating: Dict<int, bool>)
      ensures heating == AssignBy(start, AllZones(homes), HeatingKey, IsBoilerOn)
    {
      heating := start;
      var h := 0;
      while h < |homes|
        invariant 0 <= h <= |homes|
        invariant heating == AssignBy(start, AllZones(homes[..h]), HeatingKey, IsBoilerOn)
      {
        assert homes[..h + 1][..h] == homes[..h];
        heating := HeatingZones(homes[h].zones, AllZones(homes[..h]), start, heating);
        h := h + 1;
      }
      assert homes[..h] == homes;
    }

    /** The inner loop of HeatingLoop, over the zones of one home. */
    static method HeatingZones(zones: seq<Zone>, ghost before: seq<Zone>, ghost start: Dict<int, bool>, heating0: Dict<int, bool>)
      returns (heating: Dict<int, bool>)
      requires heating0 == AssignBy(start, before, HeatingKey, IsBoilerOn)
      ensures heating == AssignBy(start, before + zones, HeatingKey, IsBoilerOn)
    {
      heating := heating0;
      var i := 0;
      assert before + zones[..0] == before;
      while i < |zones|
        invariant 0 <= i <= |zones|
        invariant heating == AssignBy(start, before + zones[..i], HeatingKey, IsBoilerOn)
      {
        var zs := before + zones[..i];
        assert (zs + [zones[i]])[..|zs|] == zs;
        assert before + zones[..i + 1] == zs + [zones[i]];
        var zone := zones[i];
        if zone.zoneId != 0 {
          heating := Put(heating, zone.zoneId, IsBoilerOn(zone));
        }
        i := i + 1;
      }
      assert zones[..i] == zones;
    }

    /**
     * The second setup loop: every zone with a MAC and a zone id is mapped,
     * and the system type is taken from the first zone that has one.
     */
    static method MacLoop(homes: seq<Home>, start: Dict<string, int>, system0: Option<int>)
      returns (macs: Dict<string, int>, system: Option<int>)
      ensures macs == AssignBy(start, AllZones(homes), MacKey, ZoneIdOf)
      ensures system == if system0.Some? then system0 else FirstSystemType(AllZones(homes))
    {
      macs := start;
      system := system0;
      var h := 0;
      while h < |homes|
        invariant 0 <= h <= |homes|
        invariant macs == AssignBy(start, AllZones(homes[..h]), MacKey, ZoneIdOf)
        invariant system == if system0.Some? then system0 else FirstSystemType(AllZones(homes[..h]))
      {
        assert homes[..h + 1][..h] == homes[..h];
        macs, system := MacZones(homes[h].zones, AllZones(homes[..h]), start, system0, macs, system);
        h := h + 1;
      }
      assert homes[..h] == homes;
    }

    /** The inner loop of MacLoop, over the zones of one home. */
    static method MacZones(zones: seq<Zone>, ghost before: seq<Zone>, ghost start: Dict<string, int>, ghost system0: Option<int>,
                           macs0: Dict<string, int>, systemIn: Option<int>)
      returns (macs: Dict<string, int>, system: Option<int>)
      requires macs0 == AssignBy(start, before, MacKey, ZoneIdOf)
      requires systemIn == if system0.Some? then system0 else FirstSystemType(before)
      ensures macs == AssignBy(start, before + zones, MacKey, ZoneIdOf)
      ensures system == if system0.Some? then system0 else FirstSystemType(before + zones)
    {
      macs := macs0;
      system := systemIn;
      var i := 0;
      assert before + zones[..0] == before;
      while i < |zones|
        invariant 0 <= i <= |zones|
        invariant macs == AssignBy(start, before + zones[..i], MacKey, ZoneIdOf)
        invariant system == if system0.Some? then system0 else FirstSystemType(before + zones[..i])
      {
        var zs := before + zones[..i];
        assert (zs + [zones[i]])[..|zs|] == zs;
        assert before + zones[..i + 1] == zs + [zones[i]];
        var zone := zones[i];
        if Truthy(zone.mac) && zone.zoneId != 0 {
          macs := Put(macs, zone.mac.value, zone.zoneId);
        }
        if system.None? && zone.systemType.Some? && zone.systemType.value != 0 {
          system := zone.systemType;
        }
        i := i + 1;
      }
      assert zones[..i] == zones;
    }

    /**
     * The part of async_setup_entry that fills the data from the first zone
     * snapshot: the heating cache, the MAC map and the system type.
     */
    method Setup(homes: seq<Home>, now: int)
      requires Valid()
      modifies this
      ensures Valid()
      ensures lastHttpRequest == Some(now) && lastHttpZones == Some(homes)
      ensures zoneHeating == AssignBy(old(zoneHeating), AllZones(homes), HeatingKey, IsBoilerOn)
      ensures macToZoneId == AssignBy(old(macToZoneId), AllZones(homes), MacKey, ZoneIdOf)
      ensures systemType == if old(systemType).Some? then old(systemType) else FirstSystemType(AllZones(homes))
      ensures entityZones == old(entityZones) && rawCache == old(rawCache)
      ensures lastMqttSent == old(lastMqttSent) && lastMqttReceived == old(lastMqttReceived)
      ensures mqttConnected == old(mqttConnected)
      ensures received == old(received) && sent == old(sent)
      ensures allReceived == old(allReceived) && allSent == old(allSent)
    {
      var heating, macs, system := SetupLoops(homes, zoneHeating, macToZoneId, systemType);
      lastHttpRequest, lastHttpZones, zoneHeating, macToZoneId, systemType := Some(now), Some(homes), heating, macs, system;
    }

    /** Both setup loops, keeping the keys unique. */
    static method SetupLoops(homes: seq<Home>, heating0: Dict<int, bool>, macs0: Dict<string, int>, system0: Option<int>)
      returns (heating: Dict<int, bool>, macs: Dict<string, int>, system: Option<int>)
      requires UniqueKeys(heating0) && UniqueKeys(macs0)
      ensures heating == AssignBy(heating0, AllZones(homes), HeatingKey, IsBoilerOn) && UniqueKeys(heating)
      ensures macs == AssignBy(macs0, AllZones(homes), MacKey, ZoneIdOf) && UniqueKeys(macs)
      ensures system == if system0.Some? then system0 else FirstSystemType(AllZones(homes))
    {
      heating := HeatingLoop(homes, heating0);
      macs, system := MacLoop(homes, macs0, system0);
      AssignByUnique(heating0, AllZones(homes), HeatingKey, IsBoilerOn);
      AssignByUnique(macs0, AllZones(homes), MacKey, ZoneIdOf);
    }

    /** The climate setup's registration of its entities, zone by zone. */
    method RegisterEntities(zones: seq<Zone>)
      requires Valid()
      modifies this
      ensures Valid()
      ensures entityZones == AssignBy(old(entityZones), zones, EntityKey, Self)
      ensures macToZoneId == old(macToZoneId) && zoneHeating == old(zoneHeating) && rawCache == old(rawCache)
      ensures lastMqttSent == old(lastMqttSent) && lastMqttReceived == old(lastMqttReceived)
      ensures lastHttpRequest == old(lastHttpRequest) && lastHttpZones == old(lastHttpZones)
      ensures mqttConnected == old(mqttConnected) && systemType == old(systemType)
      ensures received == old(received) && sent == old(sent)
      ensures allReceived == old(allReceived) && allSent == old(allSent)
    {
      var entities := entityZones;
      var i := 0;
      while i < |zones|
        invariant 0 <= i <= |zones|
        invariant entities == AssignBy(old(entityZones), zones[..i], EntityKey, Self)
      {
        assert zones[..i + 1][..i] == zones[..i];
        entities := Put(entities, zones[i].zoneId, zones[i]);
        i := i + 1;
      }
      assert zones[..i] == zones;
      AssignByUnique(old(entityZones), zones, EntityKey, Self);
      entityZones := entities;
    }

    /** recent_mqtt_messages_received.append(m). */
    method AppendReceived(m: Message)
      requires Valid()
      modifies this
      ensures Valid()
      ensures received == Push(old(received), m) && allReceived == old(allReceived) + [m]
      ensures macToZoneId == old(macToZoneId) && entityZones == old(entityZones) && zoneHeating == old(zoneHeating)
      ensures lastMqttSent == old(lastMqttSent) && lastMqttReceived == old(lastMqttReceived) && rawCache == old(rawCache)
      ensures lastHttpRequest == old(lastHttpRequest) && lastHttpZones == old(lastHttpZones)
      ensures mqttConnected == old(mqttConnected) && systemType == old(systemType)
      ensures sent == old(sent) && allSent == old(allSent)
    {
      PushKeepsRecent(allReceived, m);
      received := Push(received, m);
      allReceived := allReceived + [m];
    }

    /** recent_mqtt_messages_sent.append(m). */
    method AppendSent(m: Message)
      requires Valid()
      modifies this
      ensures Valid()
      ensures sent == Push(old(sent), m) && allSent == old(allSent) + [m]
      ensures macToZoneId == old(macToZoneId) && entityZones == old(entityZones) && zoneHeating == old(zoneHeating)
      ensures lastMqttSent == old(lastMqttSent) && lastMqttReceived == old(lastMqttReceived) && rawCache == old(rawCache)
      ensures lastHttpRequest == old(lastHttpRequest) && lastHttpZones == old(lastHttpZones)
      ensures mqttConnected == old(mqttConnected) && systemType == old(systemType)
      ensures received == old(received) && allReceived == old(allReceived)
    {
      PushKeepsRecent(allSent, m);
      sent := Push(sent, m);
      allSent := allSent + [m];
    }

    /** on_mqtt_message: a message that names a MAC is cached under it. */
    method OnMqttMessage(topic: string, mac: Option<string>, rawPayload: string)
      requires Valid()
      modifies this
      ensures Valid()
      ensures rawCache == if Truthy(mac) then Put(old(rawCache), mac.value, RawMessage(topic, rawPayload)) else old(rawCache)
      ensures macToZoneId == old(macToZoneId) && entityZones == old(entityZones) && zoneHeating == old(zoneHeating)
      ensures lastMqttSent == old(lastMqttSent) && lastMqttReceived == old(lastMqttReceived)
      ensures lastHttpRequest == old(lastHttpRequest) && lastHttpZones == old(lastHttpZones)
      ensures mqttConnected == old(mqttConnected) && systemType == old(systemType)
      ensures received == old(received) && sent == old(sent)
      ensures allReceived == old(allReceived) && allSent == old(allSent)
    {
      if Truthy(mac) {
        PutUnique(rawCache, mac.value, RawMessage(topic, rawPayload));
        rawCache := Put(rawCache, mac.value, RawMessage(topic, rawPayload));
      }
    }

    /**
     * The first half of on_mqtt_pointdata: the receive time and the
     * connection are recorded, and the MAC's cached raw message is popped
     * and becomes a received record only if there was one.
     */
    method RecordReceived(mac: string, parsed: seq<Codec.Record>, now: int)
      requires Valid()
      modifies this
      ensures Valid()
      ensures lastMqttReceived == Some(now) && mqttConnected
      ensures rawCache == Remove(old(rawCache), mac) && !HasKey(rawCache, mac)
      ensures allReceived == match Get(old(rawCache), mac)
        case None => old(allReceived)
        case Some(raw) => old(allReceived) + [Message(now, raw.topic, raw.rawPayload, parsed, Some(mac))]
      ensures macToZoneId == old(macToZoneId) && entityZones == old(entityZones) && zoneHeating == old(zoneHeating)
      ensures lastMqttSent == old(lastMqttSent) && lastHttpRequest == old(lastHttpRequest)
      ensures lastHttpZones == old(lastHttpZones) && systemType == old(systemType)
      ensures sent == old(sent) && allSent == old(allSent)
    {
      lastMqttReceived := Some(now);
      mqttConnected := true;
      var raw := Get(rawCache, mac);
      RemoveUnique(rawCache, mac);
      rawCache := Remove(rawCache, mac);
      if raw.Some? {
        AppendReceived(Message(now, raw.value.topic, raw.value.rawPayload, parsed, Some(mac)));
      }
    }

    /**
     * The second half of on_mqtt_pointdata: when the MAC belongs to a
     * registered zone and the client's cache has a zone of that MAC, the
     * entity shows that zone and the heating cache takes its boiler state.
     */
    method RefreshEntity(mac: string)
      requires Valid()
      modifies this
      ensures Valid()
      ensures var zid := Get(macToZoneId, mac);
        var zone := ZoneByMac(ember.homes, mac);
        if zid.Some? && zid.value != 0 && HasKey(old(entityZones), zid.value) && zone.Some? then
          entityZones == Put(old(entityZones), zid.value, zone.value) &&
          zoneHeating == Put(old(zoneHeating), zid.value, IsBoilerOn(zone.value))
        else
          entityZones == old(entityZones) && zoneHeating == old(zoneHeating)
      ensures macToZoneId == old(macToZoneId) && rawCache == old(rawCache)
      ensures lastMqttSent == old(lastMqttSent) && lastMqttReceived == old(lastMqttReceived)
      ensures lastHttpRequest == old(lastHttpRequest) && lastHttpZones == old(lastHttpZones)
      ensures mqttConnected == old(mqttConnected) && systemType == old(systemType)
      ensures received == old(received) && sent == old(sent)
      ensures allReceived == old(allReceived) && allSent == old(allSent)
    {
      entityZones, zoneHeating := RefreshDicts(entityZones, zoneHeating, macToZoneId, ember.homes, mac);
    }

    /** The dictionary updates of RefreshEntity. */
    static method RefreshDicts(entities: Dict<int, Zone>, heating: Dict<int, bool>, macs: Dict<string, int>, homes: seq<Home>, mac: string)
      returns (e: Dict<int, Zone>, h: Dict<int, bool>)
      requires UniqueKeys(entities) && UniqueKeys(heating)
      ensures UniqueKeys(e) && UniqueKeys(h)
      ensures var zid := Get(macs, mac);
        var zone := ZoneByMac(homes, mac);
        if zid.Some? && zid.value != 0 && HasKey(entities, zid.value) && zone.Some? then
          e == Put(entities, zid.value, zone.value) &&
          h == Put(heating, zid.value, IsBoilerOn(zone.value))
        else
          e == entities && h == heating
    {
      e, h := entities, heating;
      var zid := Get(macs, mac);
      if zid.Some? && zid.value != 0 && HasKey(entities, zid.value) {
        var zone := ZoneByMac(homes, mac);
        if zone.Some? {
          PutUnique(entities, zid.value, zone.value);
          PutUnique(heating, zid.value, IsBoilerOn(zone.value));
          e := Put(entities, zid.value, zone.value);
          h := Put(heating, zid.value, IsBoilerOn(zone.value));
        }
      }
    }

    /** on_mqtt_pointdata. */
    method OnMqttPointdata(mac: string, parsed: seq<Codec.Record>, now: int)
      requires Valid()
      modifies this
      ensures Valid()
      ensures lastMqttReceived == Some(now) && mqttConnected
      ensures rawCache == Remove(old(rawCache), mac)
      ensures allReceived == match Get(old(rawCache), mac)
        case None => old(allReceived)
        case Some(raw) => old(allReceived) + [Message(now, raw.topic, raw.rawPayload, parsed, Some(mac))]
      ensures var zid := Get(macToZoneId, mac);
        var zone := ZoneByMac(ember.homes, mac);
        if zid.Some? && zid.value != 0 && HasKey(old(entityZones), zid.value) && zone.Some? then
          entityZones == Put(old(entityZones), zid.value, zone.value) &&
          zoneHeating == Put(old(zoneHeating), zid.value, IsBoilerOn(zone.value))
        else
          entityZones == old(entityZones) && zoneHeating == old(zoneHeating)
      ensures macToZoneId == old(macToZoneId) && lastMqttSent == old(lastMqttSent)
      ensures lastHttpRequest == old(lastHttpRequest) && lastHttpZones == old(lastHttpZones)
      ensures systemType == old(systemType) && sent == old(sent) && allSent == old(allSent)
    {
      RecordReceived(mac, parsed, now);
      RefreshEntity(mac);
    }

    /**
     * on_mqtt_log: only SEND entries count; they record the send time and
     * the connection, and append the entry's sent record when it has one.
     */
    method OnMqttLog(direction: string, content: string, now: int, readJson: string -> Option<PayloadFields>)
      requires Valid()
      modifies this
      ensures Valid()
      ensures direction != "SEND" ==>
        lastMqttSent == old(lastMqttSent) && mqttConnected == old(mqttConnected) && allSent == old(allSent)
      ensures direction == "SEND" ==>
        lastMqttSent == Some(now) && mqttConnected &&
        allSent == old(allSent) + match SentRecord(content, now, readJson) case None => [] case Some(m) => [m]
      ensures macToZoneId == old(macToZoneId) && entityZones == old(entityZones) && zoneHeating == old(zoneHeating)
      ensures lastMqttReceived == old(lastMqttReceived) && rawCache == old(rawCache)
      ensures lastHttpRequest == old(lastHttpRequest) && lastHttpZones == old(lastHttpZones)
      ensures systemType == old(systemType) && received == old(received) && allReceived == old(allReceived)
    {
      if direction != "SEND" {
        return;
      }
      lastMqttSent := Some(now);
      mqttConnected := true;
      var m := ParseSent(content, now, readJson);
      if m.Some? {
        AppendSent(m.value);
      }
    }

    /** on_mqtt_connect. */
    method OnConnect()
      modifies this
      ensures mqttConnected
      ensures macToZoneId == old(macToZoneId) && entityZones == old(entityZones) && zoneHeating == old(zoneHeating)
      ensures lastMqttSent == old(lastMqttSent) && lastMqttReceived == old(lastMqttReceived) && rawCache == old(rawCache)
      ensures lastHttpRequest == old(lastHttpRequest) && lastHttpZones == old(lastHttpZones)
      ensures systemType == old(systemType) && received == old(received) && sent == old(sent)
      ensures allReceived == old(allReceived) && allSent == old(allSent)
    {
      mqttConnected := true;
    }

    /** on_mqtt_disconnect. */
    method OnDisconnect()
      modifies this
      ensures !mqttConnected
      ensures macToZoneId == old(macToZoneId) && entityZones == old(entityZones) && zoneHeating == old(zoneHeating)
      ensures lastMqttSent == old(lastMqttSent) && lastMqttReceived == old(lastMqttReceived) && rawCache == old(rawCache)
      ensures lastHttpRequest == old(lastHttpRequest) && lastHttpZones == old(lastHttpZones)
      ensures systemType == old(systemType) && received == old(received) && sent == old(sent)
      ensures allReceived == old(allReceived) && allSent == old(allSent)
    {
      mqttConnected := false;
    }
  }
}
