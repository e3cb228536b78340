# EPH Controls Ember: a Dafny model

This project models the Home Assistant integration for EPH Controls Ember
heating systems and the `pyephember2` library inside it. A home has a
gateway. Each of its zones is a thermostat, a hot-water controller or a
radiator valve. A zone reports its state as a list of *points*: numbered
values such as the current temperature, the setpoint or the mode. It
follows a weekly schedule of *programs*. The library reads zones over HTTP
and talks to them over MQTT with a small binary *point-data* format.

The model covers:

- **Codec** (`codec.dfy`): the point-data decoder, a four-state byte
  scanner, as a loop proved equal to a specification function. The
  encoder `zone_command_to_ints` and the bundling of several commands.
  Proved: every well-formed command stream decodes back to its indices,
  type ids and values; an unknown datatype drops only its own record; a
  truncated record is not stored.
- **ZoneData** (`zone_data.dfy`): the per-family point-index table
  `GetPointIndex`, `zone_pointdata_value`, the mode decoding of
  `zone_mode` and its inverse `get_zone_mode_value`. Proved: the
  round trip on the five known device families.
- **ZoneView** (`zone_view.dfy`): the zone getters with their defaults,
  in integer tenths of a degree. Schedule times (173 is 17:30), the
  zone clock, the running program and `zone_is_scheduled_on` with its
  0.3-degree hysteresis, the target temperature and `zone_is_active`.
- **Commands** (`commands.dfy`): the library's boost command list with its
  hour clamp, the integration's unclamped replacement, and mode commands.
- **ScheduleLinks** (`schedule_links.dfy`): the three passes of
  `get_homes` that give every program its `Prev` and `Next`, as
  imperative passes proved against the ordering of the week.
- **Ember** (`ember.dfy`): the `EphEmber` object. Covered: login and token
  refresh policy, the ten-second homes cache of `get_homes`, `get_zone`
  and `get_zone_by_mac`, and `update_zone_from_mqtt`, which edits a
  zone's point list in place.
- **Messenger** (`messenger.dfy`): the MQTT topic of a zone and the
  de-duplicated topic list of `EphMessenger`.
- **Diagnostics** (`diagnostics.dfy`): `EphemberData` from
  `custom_components/ephember/__init__.py`. Covered: its five-entry
  message buffers, the setup loops that fill the MAC and heating maps,
  and the MQTT callbacks, including the line scan that reads back a
  logged publish.
- **Climate** (`climate.dfy`): the thermostat entity of
  `custom_components/ephember/climate.py`. Covered: mode maps, setpoint
  guards, min/max temperature, and the forced refresh after each command.
- **Resync** (`resync.dfy`): the thermostat of the top-level `climate.py`,
  which sends over MQTT. On "Unknown zone" it refetches the homes,
  rebinds to the zone with the same MAC and retries exactly once.
- **Format** (`format.dfy`): the schedule formatters of the top-level
  `climate.py`: `_time_units_to_hhmm`, `_format_period` and the
  `schedule` attribute.
- **Switch** (`switch.dfy`): the setpoint switch entity and which zones
  get one.
- **Dicts** and **Wrappers**: Python dictionaries as insertion-ordered
  association lists, and `Option`/`Result`.

Modelling conventions:

- Temperatures are integers in tenths of a degree.
- Times are integers: seconds, milliseconds or minutes of the day, each
  named where it is used.
- Byte strings are `seq<int>` with every element in `[0, 256)`.
- An exception is an `Err` carrying a `Failure`.
- HTTP replies, the MQTT publish, the clock and JSON parsing are
  parameters of the operations that use them.

## Model

| member | source | states |
|---|---|---|
| Codec.ToBytes | custom_components/ephember/pyephember2/pyephember2.py:243-245 | `to_bytes(n, 'big')` of a value in [0, 256^n) gives n bytes, which read back big-endian as the value |
| Codec.BytesToIntLoop | custom_components/ephember/pyephember2/pyephember2.py:43-47 | the accumulating loop computes the big-endian value of the bytes |
| Codec.Put | custom_components/ephember/pyephember2/pyephember2.py:70-75 | `parsed[index] = ...` keeps the length for a present key and appends a record for a new key |
| Codec.PutLookup | custom_components/ephember/pyephember2/pyephember2.py:70-75 | after the assignment, the assigned index reads the new record and every other index reads as before |
| Codec.PutKeepsKeysDistinct | custom_components/ephember/pyephember2/pyephember2.py:70-75 | the parsed dict never holds an index twice |
| Codec.DecodePointData | custom_components/ephember/pyephember2/pyephember2.py:24-79 | the byte-scanner loop returns exactly the decoding function's dict, with distinct indices |
| Codec.RunConcat | custom_components/ephember/pyephember2/pyephember2.py:49-78 | scanning a + b is scanning b from the state the scan of a ends in |
| Codec.SkipWhileWaiting | custom_components/ephember/pyephember2/pyephember2.py:50-52 | while waiting, a non-zero byte is skipped and changes nothing |
| Codec.UnknownDatatypeDropped | custom_components/ephember/pyephember2/pyephember2.py:59-64 | a header with a datatype outside {1, 2, 4, 5} is dropped and the scanner waits for the next 0 byte |
| Codec.ValueBytes | custom_components/ephember/pyephember2/pyephember2.py:67-78 | once width(type) value bytes are read, the record is stored with their big-endian value and the scanner waits again |
| Codec.FrameDecodes | custom_components/ephember/pyephember2/pyephember2.py:49-78 | a well-formed `[0, index, type] + value` frame decodes to its record, whatever follows |
| Codec.ConcatDecodes | custom_components/ephember/pyephember2/pyephember2.py:49-78 | a run of well-formed frames ends in the waiting state, having assigned their records in order |
| Codec.PutAllFresh | custom_components/ephember/pyephember2/pyephember2.py:70-75 | assigning records with new, distinct indices appends them in order |
| Codec.DecodeFrames | custom_components/ephember/pyephember2/pyephember2.py:24-79 | frames with distinct indices decode to exactly their records, in order |
| Codec.UnknownRecordBetweenFrames | custom_components/ephember/pyephember2/pyephember2.py:59-64 | a record of unknown datatype between two runs of valid frames drops out; the frames on both sides are still decoded |
| Codec.TruncatedRecordIgnored | custom_components/ephember/pyephember2/pyephember2.py:67-79 | a record cut short by the end of the data is not stored |
| Codec.PartialValue | custom_components/ephember/pyephember2/pyephember2.py:67-69 | while fewer than width(type) value bytes have been read, nothing is stored |
| Codec.WritableType | custom_components/ephember/pyephember2/pyephember2.py:197-210 | exactly ADVANCE_ACTIVE, TARGET_TEMP_W, MODE and the three boost functions are writable, each with a byte length equal to the width the decoder reads for its type id |
| Codec.CommandFrame | custom_components/ephember/pyephember2/pyephember2.py:211-245 | a read-only name, an index the zone cannot resolve and a value outside [0, 256^width) are errors; otherwise the frame carries the index, the type id and width bytes reading back as the value |
| Codec.ZoneCommandToInts | custom_components/ephember/pyephember2/pyephember2.py:193-247 | the append loop emits the frame's bytes, or fails exactly as the frame specification does |
| Codec.BundleFrames | custom_components/ephember/pyephember2/pyephember2.py:1011 | the bundle succeeds iff every command encodes, and then holds each command's frame in order |
| Codec.BundlePayload | custom_components/ephember/pyephember2/pyephember2.py:1001-1011 | the bundled ints are the concatenated frames and all are bytes |
| Codec.BundleRoundTrip | custom_components/ephember/pyephember2/pyephember2.py:1008-1011 | decoding a bundle written to distinct indices gives back each command's index, type id and value, in order |
| Commands.ClampHours | custom_components/ephember/pyephember2/pyephember2.py:1209-1217 | at most 1 hour for families 258, 514 and 773, at most 3 otherwise; the hours are unchanged or lowered to the cap |
| Commands.BoostCommands | custom_components/ephember/pyephember2/pyephember2.py:1192-1231 | [BOOST_HOURS clamped], then BOOST_TEMP if a temperature is given, then BOOST_TIME unless the timestamp is None; timestamp 0 becomes now plus the clamped hours for the newer families and now otherwise |
| Commands.PatchedBoostCommands | climate.py:26-42 | the same list with the hours unclamped and timestamp 0 meaning now for every family |
| Commands.PatchedAgreesWithinClamp | climate.py:26-42 | within the clamp, the replacement and the library send the same list to every classic family |
| Commands.ModeCommand | custom_components/ephember/pyephember2/pyephember2.py:1233-1245 | a MODE command with no explicit index; it fails iff the family has no value for the mode, and its value decodes back to the mode |
| Commands.BoostIndicesDistinct | custom_components/ephember/pyephember2/pyephember2.py:132-151 | BOOST_HOURS, BOOST_TEMP and BOOST_TIME always resolve, to distinct indices |
| Commands.PatchedBoostNames | climate.py:35-41 | the replacement names each boost function at most once, always with index None |
| Commands.FrameIndexOfCommand | custom_components/ephember/pyephember2/pyephember2.py:219-226 | a command without an index is written at GetPointIndex of its name |
| Commands.PatchedBoostRoundTrip | climate.py:26-42 | the replacement's bundle decodes back to the hours, the temperature if given and the timestamp if sent |
| Commands.TargetCommandRoundTrip | custom_components/ephember/pyephember2/pyephember2.py:1170-1174 | `_set_zone_target_temperature`'s command is refused as an overflow outside [0, 65536), and otherwise decodes back to the zone's TARGET_TEMP_W index, type 4 and the tenths sent |
| ZoneData.FindPoint | custom_components/ephember/pyephember2/pyephember2.py:526-528 | the position of the first point entry with that index, or the list length |
| ZoneData.GetPointIndex | custom_components/ephember/pyephember2/pyephember2.py:93-165 | -1 exactly for MAX_TEMP and MIN_TEMP outside families 258 and 514; only TARGET_TEMP_W of family 258 can fail, through its mode |
| ZoneData.PointValue | custom_components/ephember/pyephember2/pyephember2.py:515-530 | None when the index is -1 or absent, else the value of the first entry with that index |
| ZoneData.DecodeMode | custom_components/ephember/pyephember2/pyephember2.py:533-634 | a decoded mode is one whose encoding is the raw value; an error names the raw value and the family |
| ZoneData.ModeValue | custom_components/ephember/pyephember2/pyephember2.py:636-681 | fails iff the family is 258 or 773 and the mode is ALL_DAY; 0 iff AUTO |
| ZoneData.ModeRoundTrip | custom_components/ephember/pyephember2/pyephember2.py:533-681 | for families 2, 4, 258, 514 and 773, decoding the value of an accepted mode gives that mode |
| ZoneData.UnknownFamilyRoundTrip | custom_components/ephember/pyephember2/pyephember2.py:533-681 | outside the known families only AUTO survives the round trip |
| ZoneData.TargetWriteIndex | custom_components/ephember/pyephember2/pyephember2.py:108-125 | TARGET_TEMP_W is 17 for family 258 in AUTO and 12 in its other modes, 12 for 514 and 773, 6 otherwise |
| ZoneData.WritableIndicesDistinct | custom_components/ephember/pyephember2/pyephember2.py:99-151 | in the newer families the writable functions use pairwise distinct indices |
| ZoneView.CurrentTemperature | custom_components/ephember/pyephember2/pyephember2.py:483-490 | the first CURRENT_TEMP point (index 5), 0 when absent |
| ZoneView.BoostTemperature | custom_components/ephember/pyephember2/pyephember2.py:473-480 | the first BOOST_TEMP point (index 14), 0 when absent |
| ZoneView.MaxTemperature | custom_components/ephember/pyephember2/pyephember2.py:493-501 | the MAX_TEMP point when present for families 258 and 514; otherwise 60.0 degrees for hot water and 35.0 for other zones |
| ZoneView.MinTemperature | custom_components/ephember/pyephember2/pyephember2.py:504-512 | the MIN_TEMP point when present for families 258 and 514; otherwise 5.0 degrees |
| ZoneView.BoostHours | custom_components/ephember/pyephember2/pyephember2.py:442-446 | point 13 for the newer families, 8 for the others |
| ZoneView.BoostTimestamp | custom_components/ephember/pyephember2/pyephember2.py:449-453 | point 15 for the newer families, 9 for the others |
| ZoneView.IsBoostActive | custom_components/ephember/pyephember2/pyephember2.py:435-439 | raises iff the boost hours are missing, else true iff they are above 0 |
| ZoneView.AdvanceActive | custom_components/ephember/pyephember2/pyephember2.py:262-277 | false for families 258, 514 and 773; otherwise true iff point 4 is not 0, a missing point included |
| ZoneView.BoilerState | custom_components/ephember/pyephember2/pyephember2.py:280-285 | point 18 for families 258 and 514, 10 otherwise |
| ZoneView.ScheduleTime | custom_components/ephember/pyephember2/pyephember2.py:301-311 | None for a missing time; succeeds iff the value has two or more digits, an hour below 24 and a last digit below 6; the time is on a ten-minute mark within the day and reads back as the value |
| ZoneView.MinutesOfUnits | custom_components/ephember/pyephember2/pyephember2.py:311 | the time of a valid schedule integer lies in the day, on a ten-minute mark, and encodes back to the integer |
| ZoneView.ScheduleTimeRoundTrip | custom_components/ephember/pyephember2/pyephember2.py:301-311 | every ten-minute mark from 01:00 on has a schedule integer that reads back as that time |
| ZoneView.SundayBased | custom_components/ephember/pyephember2/pyephember2.py:316-318 | the weekday shifts to Sunday = 0: (wday + 1) mod 7, with Sunday (6) becoming 0 |
| ZoneView.ZoneClock | custom_components/ephember/pyephember2/pyephember2.py:313-319 | the UTC minute of the day and the Sunday-based weekday of the zone's millisecond timestamp |
| ZoneView.DayPosition | custom_components/ephember/pyephember2/pyephember2.py:322-324 | the position of the first day with that day type |
| ZoneView.Decide | custom_components/ephember/pyephember2/pyephember2.py:335-351 | one loop turn: passed over iff no window holds the time and no activation time is still to come; raises iff a time does not parse, or the turn ends the loop in a way that fails |
| ZoneView.ScanPrograms | custom_components/ephember/pyephember2/pyephember2.py:335-359 | the outcome of the first program that ends the loop, or none when every program is passed over |
| ZoneView.AutoRunning | custom_components/ephember/pyephember2/pyephember2.py:335-366 | in AUTO the outcome is one program or a [prev, next] pair, and a day without programs is an error |
| ZoneView.RunningProgram | custom_components/ephember/pyephember2/pyephember2.py:326-366 | mode errors propagate; ON and OFF give None; a single current program only in AUTO; a [first, last] pair only in ALL_DAY |
| ZoneView.ScheduledOn | custom_components/ephember/pyephember2/pyephember2.py:368-417 | OFF is off and ON is on; in AUTO a [prev, next] pair is on iff current + 0.3 < prev's target, and a single program iff the time is in its window; ALL_DAY is on iff the time lies between the first start and the last end |
| ZoneView.TargetTemperature | custom_components/ephember/pyephember2/pyephember2.py:456-471 | TARGET_TEMP_R (0 when absent) outside family 773 in AUTO; for family 773 a mode error propagates, and in AUTO the result is the previous program's temperature when the running program is between two programs (an error when there is no previous program or it has no temperature), an error for a single-program result and the running program's error otherwise |
| ZoneView.AutoAlwaysRuns | custom_components/ephember/pyephember2/pyephember2.py:326-366 | in AUTO the running program is never "not running": it is a current program or between two, so the `return 0` of the 773-AUTO branch is never reached |
| ZoneView.IsActive | custom_components/ephember/pyephember2/pyephember2.py:250-259 | on when scheduled on; otherwise boost hours above 0 or an active advance, and missing boost hours raise |
| ZoneView.AbsentPointDefaults | custom_components/ephember/pyephember2/pyephember2.py:468-512 | outside family 773, with no temperature points, current, target and boost read 0, min 5.0, and max 60.0 for hot water or 35.0 otherwise |
| ZoneView.FirstEntryWins | custom_components/ephember/pyephember2/pyephember2.py:526-528 | only the first entry with an index is read; later duplicates never are |
| Ember.RequiresRefresh | custom_components/ephember/pyephember2/pyephember2.py:1061-1068 | a refresh is due iff the token expires within the next 30 seconds (validity 1800 seconds, line 1827) |
| Ember.ReplyFailure | custom_components/ephember/pyephember2/pyephember2.py:1338-1345 | a zoneProgram reply is accepted iff its status is 0 (a missing status counts as 1) and it has data and a timestamp |
| Ember.CacheWindow | custom_components/ephember/pyephember2/pyephember2.py:1320-1326 | within ten seconds of the last fetch, the cached homes are returned and nothing changes |
| Ember.ZonesFromOk | custom_components/ephember/pyephember2/pyephember2.py:1347-1396 | with no failure, every zone of the reply is appended in order, its days linked and the reply's timestamp set |
| Ember.FetchFromOk | custom_components/ephember/pyephember2/pyephember2.py:1328-1397 | a successful fetch gives every listed home, with its gateway kept and exactly the zones of its reply |
| Ember.FindZone | custom_components/ephember/pyephember2/pyephember2.py:1423-1432 | the first zone with that id in home-then-zone order (no earlier zone has it), or "Unknown zone" exactly when no zone has it |
| Ember.ZoneByMac | custom_components/ephember/pyephember2/pyephember2.py:1787-1804 | the first cached zone with that MAC in home-then-zone order (no earlier zone has it), or None exactly when no cached zone has it |
| Ember.ApplyRecordEffect | custom_components/ephember/pyephember2/pyephember2.py:1754-1775 | one decoded record: its index reads the new value, every other index as before, existing entries keep their indices, and an entry is appended only for a new index |
| Ember.ApplyAllEffect | custom_components/ephember/pyephember2/pyephember2.py:1754-1775 | after all the decoded records, each decoded index reads its value and every other index reads as before |
| Ember.FindEntry | custom_components/ephember/pyephember2/pyephember2.py:1759-1767 | the enumerate loop with its break finds the first entry with that index |
| Ember.PatchPoints | custom_components/ephember/pyephember2/pyephember2.py:1754-1775 | the in-place loop over the decoded data gives the point list of the specification |
| Ember.PatchedReadsBack | custom_components/ephember/pyephember2/pyephember2.py:1743-1778 | an updated zone reads the decoded values at their indices, the old values elsewhere, and the new timestamp |
| Ember.BoilerStateAfterMqtt | custom_components/ephember/pyephember2/pyephember2.py:1441-1446 | after an MQTT update `is_zone_boiler_on` holds exactly when the update's BOILER_STATE record is 2 (flame on), and an update without that record leaves it as it was |
| Ember.EphEmber.constructor | custom_components/ephember/pyephember2/pyephember2.py:1813-1831 | no login data, no homes and no cache time |
| Ember.EphEmber.Login | custom_components/ephember/pyephember2/pyephember2.py:1099-1124 | succeeds iff the reply's status is 0 and it holds a token, then keeps it with the refresh time; otherwise the login data is cleared |
| Ember.EphEmber.RequestToken | custom_components/ephember/pyephember2/pyephember2.py:1070-1097 | fails without login data or without a refresh token; keeps a valid token unless forced; otherwise replaces the session iff the reply holds a token and returns whether it did |
| Ember.EphEmber.DoAuth | custom_components/ephember/pyephember2/pyephember2.py:1126-1133 | with no login data, succeeds exactly when the login reply is accepted and then holds the reply's session; otherwise keeps a token that is not due, and for a due one fails without a refresh token, else succeeds exactly when the refresh reply holds a token and then holds the reply's session |
| Ember.EphEmber.BuildZones | custom_components/ephember/pyephember2/pyephember2.py:1347-1396 | the zone loop of one reply computes the specification's zones and failure |
| Ember.EphEmber.GetHomes | custom_components/ephember/pyephember2/pyephember2.py:1315-1401 | the cached homes while the cache is fresh; otherwise the listed homes rebuilt from their replies, with a cache time ten seconds after the call |
| Ember.EphEmber.FetchOne | custom_components/ephember/pyephember2/pyephember2.py:1328-1396 | one home: its zones reset, then rebuilt from its reply or the reply's failure |
| Ember.EphEmber.FetchHomes | custom_components/ephember/pyephember2/pyephember2.py:1328-1397 | the home loop computes the specification's homes and first failure |
| Ember.EphEmber.GetZone | custom_components/ephember/pyephember2/pyephember2.py:1423-1432 | get_homes, then the first zone with that id or "Unknown zone" |
| Ember.EphEmber.UpdateZoneFromMqtt | custom_components/ephember/pyephember2/pyephember2.py:1722-1785 | true iff a cached zone has that MAC; only the first such zone is patched; nothing changes when there is none |
| Ember.Connect | custom_components/ephember/pyephember2/pyephember2.py:1807-1834 | a new object logged in with the reply's data, or "Unable to login." exactly when the login fails |
| Messenger.PointDataTopic | custom_components/ephember/pyephember2/pyephember2.py:925-927 | the length of "productId/uid/upload/pointdata" |
| Messenger.TopicParts | custom_components/ephember/pyephember2/pyephember2.py:927 | the topic is the product id, a slash, the uid, then "/upload/pointdata" |
| Messenger.TopicNamesZone | custom_components/ephember/pyephember2/pyephember2.py:927 | while product ids hold no '/', different zones have different topics |
| Messenger.AddTopicsEffect | custom_components/ephember/pyephember2/pyephember2.py:963-969 | adding topics keeps every old one, adds every zone's topic, adds nothing else and never lists a topic twice |
| Messenger.EphMessenger.constructor | custom_components/ephember/pyephember2/pyephember2.py:700-702 | not subscribed, no topics |
| Messenger.EphMessenger.SubscribeToZone | custom_components/ephember/pyephember2/pyephember2.py:915-937 | the topic is listed once; the call subscribes and returns true only while connected |
| Messenger.EphMessenger.SubscribeToAllZones | custom_components/ephember/pyephember2/pyephember2.py:939-953 | every zone's topic is listed; the count is the number of zones when connected and 0 otherwise |
| Messenger.EphMessenger.StartListening | custom_components/ephember/pyephember2/pyephember2.py:955-973 | the zones' topics are listed once each and the client is marked subscribed |
| ScheduleLinks.Collect | custom_components/ephember/pyephember2/pyephember2.py:1354-1366 | a day has at most as many programs as periods, none linked yet |
| ScheduleLinks.CollectMembers | custom_components/ephember/pyephember2/pyephember2.py:1354-1366 | exactly the periods holding a program are collected, each with its number and data |
| ScheduleLinks.Unlinked | custom_components/ephember/pyephember2/pyephember2.py:1349-1367 | one day per device day |
| ScheduleLinks.CollectDay | custom_components/ephember/pyephember2/pyephember2.py:1354-1366 | each collected program is linked to the one collected before it, and the last one is carried to the next day |
| ScheduleLinks.ForwardPass | custom_components/ephember/pyephember2/pyephember2.py:1349-1367 | the days in order, each program but a day's first linked to its predecessor in the day |
| ScheduleLinks.ForwardStep | custom_components/ephember/pyephember2/pyephember2.py:1351-1367 | one day of the forward pass extends the linked days |
| ScheduleLinks.ReversePass | custom_components/ephember/pyephember2/pyephember2.py:1368-1381 | fails iff some day has no program; otherwise every Prev is the predecessor the specification names |
| ScheduleLinks.ReverseStep | custom_components/ephember/pyephember2/pyephember2.py:1371-1379 | the first program of a later day is linked to the last program of the day before |
| ScheduleLinks.ReverseFinish | custom_components/ephember/pyephember2/pyephember2.py:1381 | the final assignment gives the week's first program its Prev, and all Prev links are then set |
| ScheduleLinks.NextPass | custom_components/ephember/pyephember2/pyephember2.py:1383-1393 | every program's Next is its successor in the week, the last wrapping to the first |
| ScheduleLinks.NextStep | custom_components/ephember/pyephember2/pyephember2.py:1390-1393 | one step of the last pass changes only the Next of one program |
| ScheduleLinks.LinkDays | custom_components/ephember/pyephember2/pyephember2.py:1347-1394 | the three passes compute the linked schedule of the specification |
| ScheduleLinks.NextFollowsOrder | custom_components/ephember/pyephember2/pyephember2.py:1383-1393 | Next follows (day type, program number) order and wraps from the last program of the week to the first |
| ScheduleLinks.PrevFollowsOrder | custom_components/ephember/pyephember2/pyephember2.py:1349-1379 | every Prev but the week's first points to the program of the rank before |
| ScheduleLinks.WeekStartPrev | custom_components/ephember/pyephember2/pyephember2.py:1369-1381 | with several days, the week's first program gets the last program of the first day as Prev, not the program whose Next wraps to it; with one day it gets none |
| ScheduleLinks.LinkedDays | custom_components/ephember/pyephember2/pyephember2.py:1347-1394 | linking fails iff there are no days or a day without programs; otherwise the days hold their programs with the Prev and Next the order gives |
| ScheduleLinks.LinksInRange | custom_components/ephember/pyephember2/pyephember2.py:1347-1394 | every link names a program of the same zone |
| Diagnostics.Recent | custom_components/ephember/__init__.py:51-52 | the deque of a history holds min(5, length) entries |
| Diagnostics.Push | custom_components/ephember/__init__.py:51-52 | an append keeps at most five entries, the new one last; below five it only appends |
| Diagnostics.PushKeepsRecent | custom_components/ephember/__init__.py:51-52 | appending to the deque of a history gives the deque of the longer history |
| Diagnostics.AllZonesMembers | custom_components/ephember/__init__.py:84-85 | the nested loop visits exactly the zones some home lists |
| Diagnostics.FirstSystemType | custom_components/ephember/__init__.py:101-103 | the system type of the first zone that has a truthy one, or None iff none has |
| Diagnostics.SetupHeatingAbsent | custom_components/ephember/__init__.py:84-91 | zone id 0, and any zone id no zone has, are absent from the heating cache |
| Diagnostics.SetupHeatingLast | custom_components/ephember/__init__.py:84-91 | a zone id reads the boiler state (== 2) of the last zone listed with it |
| Diagnostics.SetupMacsAbsent | custom_components/ephember/__init__.py:95-100 | a MAC with no zone that has that MAC and a zone id is absent, and no MAC maps to zone id 0 |
| Diagnostics.SetupMacsLast | custom_components/ephember/__init__.py:95-100 | a MAC maps to the id of the last zone listed with that MAC and a non-zero id |
| Diagnostics.SplitLines | custom_components/ephember/__init__.py:186 | `split('\n')` gives at least one line, none holding a line break |
| Diagnostics.SplitAtBreak | custom_components/ephember/__init__.py:186 | a line break ends the first line |
| Diagnostics.Strip | custom_components/ephember/__init__.py:193-195 | `strip()` leaves a stripped string and changes nothing in a stripped one |
| Diagnostics.StripSlice | custom_components/ephember/__init__.py:193-195 | `strip()` keeps one slice of its input and drops only white space around it |
| Diagnostics.LogReadsBack | custom_components/ephember/pyephember2/pyephember2.py:771 | the "Topic: ...\nPayload: ..." entry logged for a publish reads back as its topic and payload |
| Diagnostics.SentRecord | custom_components/ephember/__init__.py:185-222 | a record exactly when the entry has a non-empty topic and payload, with both, the time, the MAC and the decoded point data the payload's JSON names |
| Diagnostics.LoggedPublishIsRecorded | custom_components/ephember/__init__.py:179-222 | the entry logged for a publish yields a sent record of that topic and payload |
| Diagnostics.ScanLog | custom_components/ephember/__init__.py:186-195 | the line loop finds the topic and payload of the last tagged lines |
| Diagnostics.ParseSent | custom_components/ephember/__init__.py:185-215 | the try block computes the sent record of the specification |
| Diagnostics.EphemberData.constructor | custom_components/ephember/__init__.py:34-56 | every map and buffer empty, every time None, not connected |
| Diagnostics.EphemberData.HeatingLoop | custom_components/ephember/__init__.py:84-91 | the heating cache assigns every zone with an id its boiler state, in order |
| Diagnostics.EphemberData.HeatingZones | custom_components/ephember/__init__.py:85-91 | the inner loop of one home continues the assignments |
| Diagnostics.EphemberData.MacLoop | custom_components/ephember/__init__.py:95-103 | the MAC map assigns every zone with a MAC and an id, and the system type is the first truthy one unless already set |
| Diagnostics.EphemberData.MacZones | custom_components/ephember/__init__.py:96-103 | the inner loop of one home continues both |
| Diagnostics.EphemberData.Setup | custom_components/ephember/__init__.py:76-103 | the request time and snapshot are recorded and both setup loops run; nothing else changes |
| Diagnostics.EphemberData.SetupLoops | custom_components/ephember/__init__.py:84-103 | both loops, keeping every key once |
| Diagnostics.EphemberData.RegisterEntities | climate.py:123-125 | each entity is registered under its zone id, a later one replacing an earlier |
| Diagnostics.EphemberData.AppendReceived | custom_components/ephember/__init__.py:135-141 | the received deque takes the message, dropping the oldest of five |
| Diagnostics.EphemberData.AppendSent | custom_components/ephember/__init__.py:216-222 | the sent deque takes the message, dropping the oldest of five |
| Diagnostics.EphemberData.OnMqttMessage | custom_components/ephember/__init__.py:116-125 | a message naming a MAC is cached under it; nothing else changes |
| Diagnostics.EphemberData.RecordReceived | custom_components/ephember/__init__.py:129-141 | sets the receive time and connection, pops the MAC's cached message, and appends a received record only if one was cached |
| Diagnostics.EphemberData.RefreshEntity | custom_components/ephember/__init__.py:143-153 | when the MAC maps to a registered zone id and the client caches a zone with it, the entity shows that zone and the heating cache takes its boiler state |
| Diagnostics.EphemberData.RefreshDicts | custom_components/ephember/__init__.py:143-153 | the two dictionary updates, keeping keys unique |
| Diagnostics.EphemberData.OnMqttPointdata | custom_components/ephember/__init__.py:127-175 | both halves: receive bookkeeping, then the entity and heating refresh |
| Diagnostics.EphemberData.OnMqttLog | custom_components/ephember/__init__.py:177-224 | only SEND entries count: they set the send time and connection and append their sent record if there is one |
| Diagnostics.EphemberData.OnConnect | custom_components/ephember/__init__.py:226-229 | connected; nothing else changes |
| Diagnostics.EphemberData.OnDisconnect | custom_components/ephember/__init__.py:231-234 | disconnected; nothing else changes |
| Dicts.Get | custom_components/ephember/__init__.py:143 | `dict.get` finds a value iff the key is present |
| Dicts.Put | custom_components/ephember/__init__.py:100 | assignment replaces a present key in place and appends a new one |
| Dicts.PutGet | custom_components/ephember/__init__.py:100 | after assignment the key reads the new value, other keys read as before, keys stay unique |
| Dicts.Remove | custom_components/ephember/__init__.py:133 | `pop` never grows the dict |
| Dicts.RemoveKeeps | custom_components/ephember/__init__.py:133 | `pop` keeps only pairs that were there, none for the popped key |
| Dicts.RemoveGet | custom_components/ephember/__init__.py:133 | after `pop` every other key reads as before |
| Dicts.RemoveUnique | custom_components/ephember/__init__.py:133 | `pop` keeps keys unique and removes its key |
| Dicts.AssignByUnique | custom_components/ephember/__init__.py:84-100 | an assigning loop keeps the keys unique |
| Dicts.AssignByUntouched | custom_components/ephember/__init__.py:84-100 | a key no item is assigned under reads as before the loop |
| Dicts.AssignByLast | custom_components/ephember/__init__.py:84-100 | the last assignment to a key wins |
| Dicts.PutUnique | custom_components/ephember/__init__.py:100 | assignment keeps keys unique |
| Climate.HaToEphInverts | custom_components/ephember/climate.py:86-101 | the inverted dict holds exactly the pairs of EPH_TO_HA_STATE, and only the offered modes |
| Climate.MapModeEphHass | custom_components/ephember/climate.py:324-329 | HEAT iff ON, OFF iff OFF, HEAT_COOL for AUTO, ALL_DAY and None |
| Climate.MapModeHassEphAsWritten | custom_components/ephember/climate.py:319-322 | raises (attribute name not a string) exactly for the modes outside OPERATION_LIST |
| Climate.MapModeHassEphRaisesOnCool | custom_components/ephember/climate.py:319-322 | COOL makes the map raise |
| Climate.MapModeHassEph | custom_components/ephember/climate.py:319-322 | a ZoneMode exactly for the offered modes, agreeing with the source wherever it does not raise |
| Climate.ModeMapsRoundTrip | custom_components/ephember/climate.py:319-329 | the maps undo each other on offered modes and on every ZoneMode except ALL_DAY, which reads back as AUTO |
| Climate.MinTemp | custom_components/ephember/climate.py:288-295 | the target for hot water, 5.0 degrees otherwise |
| Climate.MaxTemp | custom_components/ephember/climate.py:297-303 | the target for hot water, 35.0 degrees otherwise |
| Climate.HotWaterRangeIsTarget | custom_components/ephember/climate.py:288-303 | a hot-water zone's range is its single current target |
| Climate.SendsSetpoint | custom_components/ephember/climate.py:263-275 | a setpoint is sent iff present, not hot water, different from the target and within [min, max]; reading the target may raise |
| Climate.AfterCommandRefetches | custom_components/ephember/climate.py:279-286 | the refresh always refetches, caches for ten seconds, and takes the zone with the same id or raises "Unknown zone" |
| Climate.AfterCommandKeepsId | custom_components/ephember/climate.py:214-221 | the entity keeps its zone id through a refresh, and a first `list_homes` request that times out changes only the cache time |
| Climate.Thermostat.constructor | custom_components/ephember/climate.py:162-187 | the zone, its id as unique id, and whether it is hot water |
| Climate.Thermostat.RefreshZone | custom_components/ephember/climate.py:279-286 | cache cleared, zones refetched, zone re-read by id; timeouts swallowed, other errors raised |
| Climate.Thermostat.SendAndRefresh | custom_components/ephember/climate.py:277-286 | a failed send changes nothing (within the cache window of the setter's `get_zone`); a send that returns is followed by the refresh |
| Climate.Thermostat.SetTemperature | custom_components/ephember/climate.py:263-286 | the target is sent only when every guard passes, then refreshed; otherwise nothing changes |
| Climate.Thermostat.SetHvacMode | custom_components/ephember/climate.py:247-261 | with the corrected map `MapModeHassEph`: an offered mode is sent as its ZoneMode and refreshed; any other is only logged |
| Climate.Thermostat.SetPresetMode | custom_components/ephember/climate.py:205-221 | "boost" boosts at the current target (which may raise first), anything else ends the boost; both then refresh |
| Resync.ActionCommands | custom_components/ephember/pyephember2/pyephember2.py:1638-1714 | the command list of each *_mqtt action; only the mode actions can fail, when the family has no value for the mode |
| Resync.TurnOnOffAreModes | custom_components/ephember/pyephember2/pyephember2.py:1694-1714 | turning on and off are mode commands with ON and OFF |
| Resync.BoostActionCommands | custom_components/ephember/pyephember2/pyephember2.py:1665-1692 | a boost sends one hour, the temperature and now; ending it sends only zero hours |
| Resync.MqttSend | custom_components/ephember/pyephember2/pyephember2.py:1638-1714 | "Unknown zone" when no cached zone has the id, then the command and encoding errors, then the publish outcome |
| Resync.Resynced | climate.py:261-321 | one or two sends; a second send goes to the id of the zone the entity is bound to; with one send the zone is kept |
| Resync.Recovery | climate.py:277-321 | the same bounds for the recovery branch |
| Resync.NoResyncUnlessUnknown | climate.py:263-269 | a success, or an error other than "Unknown zone", is returned with no refresh and nothing changed |
| Resync.RecoveryRebinds | climate.py:277-321 | after "Unknown zone" and a refresh that finds the MAC, the entity is rebound to that zone and the retry goes to its id, which the cache now holds |
| Resync.RecoveryRetries | climate.py:290-321 | the recovery with a refresh that finds the MAC is exactly one retry on the refreshed cache |
| Resync.RebindFindsZone | climate.py:311-321 | the zone found by its MAC is found again by its id |
| Resync.LostZoneReraises | climate.py:290-309 | with no MAC or no zone for it after the refresh, the first error is raised and the zone is kept |
| Resync.FailedRefreshRaises | climate.py:277-288 | a failing refresh is raised instead, with the zone kept and no retry |
| Resync.Thermostat.constructor | climate.py:170-182 | the zone, its id and MAC, and whether it is hot water |
| Resync.Thermostat.CallWithResync | climate.py:261-321 | the entity and its EphEmber end as the resync specification says |
| Resync.Thermostat.Recover | climate.py:277-321 | the recovery branch on the objects |
| Resync.Thermostat.SetTemperature | climate.py:343-365 | the guards decide whether anything is sent; nothing sent changes nothing, and a send leaves the homes, cache time and zone as the resync gives them and records the send time if it returned. Only `lastMqttSent` of the diagnostics may change, and the login data is kept |
| Resync.Thermostat.SendAndRecord | climate.py:361-365 | the homes, cache time and zone as the resync gives them, then the send time if it returned. Only `lastMqttSent` of the diagnostics may change, and the login data is kept |
| Resync.Thermostat.SetHvacMode | climate.py:323-341 | with the corrected map `MapModeHassEph`: OFF is sent as turn-off, HEAT as turn-on, HEAT_COOL as AUTO, each through the resync; other modes only log and change nothing. Only `lastMqttSent` of the diagnostics may change, and the login data is kept |
| Resync.Thermostat.SetPresetMode | climate.py:216-235 | "boost" boosts at the current target (a failing read changes nothing), anything else ends the boost, each through the resync. Only `lastMqttSent` of the diagnostics may change, and the login data is kept |
| Format.Decimal | climate.py:420 | `str(n)`: digits only, one digit iff n < 10 |
| Format.DecimalSplit | climate.py:424-425 | `str(n)` is `str(n // 10)` (unless n is one digit) followed by the last digit |
| Format.DecimalReadsBack | climate.py:420-425 | `int(str(n)) == n` |
| Format.Pad2 | climate.py:426 | the `02d` format: at least two digits, exactly two below 100 |
| Format.Pad2ReadsBack | climate.py:426 | the padded string reads back as the number |
| Format.TimeUnitsToHhmm | climate.py:409-426 | "00:00" for None or a negative value; otherwise the hours and tens of minutes, each padded |
| Format.HhmmOf173 | climate.py:413-414 | 173 formats as "17:30" |
| Format.HhmmOf90 | climate.py:413-414 | 90 formats as "09:00" |
| Format.HhmmOf100 | climate.py:413-414 | 100 formats as "10:00" |
| Format.HhmmSingleDigit | climate.py:424-426 | a single digit d formats as "00:d0" |
| Format.HhmmRoundTrip | climate.py:417-426 | the string reads back as its integer, with the colon three characters from the end |
| Format.HhmmMatchesScheduleTime | climate.py:415 | the attribute agrees with the library's reading of the same integer as a time of day |
| Format.FormatPeriod | climate.py:428-442 | None for a missing or empty period, a missing start or end, or start == end; otherwise "start-end" |
| Format.PeriodSplits | climate.py:440-442 | a period string splits at its only '-' into the start and the end |
| Format.PeriodOf | climate.py:448-450 | `day_data.get("pN")` finds a period with that number, or None when there is none |
| Format.DayName | climate.py:461-475 | a name exactly for an int dayType in 0..6, Sunday first |
| Format.ScheduleUnique | climate.py:470-476 | the schedule never holds a day name twice |
| Format.ScheduleKeys | climate.py:472-476 | a name is a key iff some device day is shown under it |
| Format.ScheduleLast | climate.py:472-476 | a day no later device day overrides is the value under its name |
| Format.ScheduleAttribute | climate.py:478-481 | the "schedule" entry is absent iff no device day is shown, else the schedule dict |
| Format.ExtraStateAttributes | climate.py:453-481 | the loop over deviceDays computes the schedule attribute |
| Switch.SwitchZones | custom_components/ephember/switch.py:38-44 | no hot-water zone gets a switch |
| Switch.SwitchZonesMembers | custom_components/ephember/switch.py:38-44 | a zone gets a switch iff some home lists it and it is not hot water |
| Switch.Restored | custom_components/ephember/switch.py:84-97 | hot water is off; otherwise a last state that is present and not "unknown" or "unavailable" decides ("on" means on), else the state is kept |
| Switch.SetpointSwitch.constructor | custom_components/ephember/switch.py:60-75 | on iff not hot water |
| Switch.SetpointSwitch.Restore | custom_components/ephember/switch.py:84-100 | the state after a restore is the restored state |
| Switch.SetpointSwitch.TurnOn | custom_components/ephember/switch.py:102-110 | on, unless hot water, which stays off |
| Switch.SetpointSwitch.TurnOff | custom_components/ephember/switch.py:112-116 | always off |

## Left out

- The MQTT transport is not modelled: paho, TLS, the background thread,
  `start`, `stop`, the internal callbacks and the publish with its wait.
  A publish is a parameter from the zone and the payload bytes to its
  outcome.
- HTTP and JSON are not modelled: `_http`, `list_homes` and the other
  requests. Replies (login, token refresh, the homes list, each
  zoneProgram reply) are inputs. A request that times out is a
  `TimedOut` input where the source catches timeouts.
- The authentication step inside `_http(send_token=True)` is not
  modelled. In the source every zoneProgram request first runs
  `_do_auth` and raises "Unable to login" when it fails. The model treats
  that step as succeeding, so `Ember.EphEmber.GetHomes`,
  `Ember.EphEmber.GetZone` and the thermostat methods of `Climate` and
  `Resync` leave the login data unchanged.
- Climate.AfterCommandKeepsId: only a timeout of the `list_homes` request
  is modelled (`TimedOut`), which leaves the cached homes as they were. A
  timeout on a home's zoneProgram request is not modelled. In the source
  it leaves `_homes` holding the newly listed homes, with that home's zones
  reset to `[]`. The same holds for `Climate.AfterCommand`,
  `Climate.Thermostat.RefreshZone`, `Resync.Recovery` and
  `Resync.Thermostat.Recover`.
- base64 and JSON are library calls. The codec works on the decoded bytes.
  `on_mqtt_log`'s JSON reading is a parameter `readJson`, and
  `on_mqtt_message`'s MAC is passed in already extracted.
- Clocks are not modelled: `datetime.now`, `time.time`, `time.gmtime` and
  `utcnow` become integer parameters.
- Floating point is not modelled. Temperatures are integer tenths, so
  `int(10*v)` in `zone_command_to_ints`, the `/ 10` of the getters and the
  0.3-degree hysteresis become exact integer operations. The source's
  float comparison can differ from this at exact boundaries.
- `update_zone_from_mqtt` stores new values as `str(value)` and compares
  indices as ints or strings. The model stores integers and compares
  integer indices.
- Threads are not modelled: shared zones mutated from the MQTT thread,
  and `call_soon_threadsafe` with the notifications it schedules.
- The heating sensors and `zone_id_to_switch` are not modelled.
- Home Assistant glue is not modelled: setup entry points, the device
  registry, device model names, `unique_id` strings, `async_write_ha_state`
  and the patching mechanism. The patched boost function is its own
  operation, `Commands.PatchedBoostCommands`.
- Logging is not modelled.
- The `update` polling methods of both thermostats are not modelled.
- The thin `EphEmber` wrappers are not modelled: `get_zone_names`,
  `is_zone_active`, the `get_zone_*` getters and the HTTP setters. The
  getters only compose the modelled functions. The setters reach the
  `Climate` entity as its `send` parameter (next line).
- Climate.Thermostat.SendAndRefresh: the library setter's own `get_zone`
  is taken as within the cache window. `send` is a function of the zone
  id and the action alone, and it leaves the cached homes alone. In the
  source, `set_zone_target_temperature`, `set_zone_mode` and
  `activate_zone_boost` (through which `deactivate_zone_boost` goes) each
  call `get_zone` first. Once the cache has expired, that call refetches
  the homes, and a failing refetch raises with `_homes` already reassigned.
  So "a failed send leaves the homes and the cache time unchanged" holds
  only within the cache window. The same holds for
  Climate.Thermostat.SetTemperature, Climate.Thermostat.SetHvacMode and
  Climate.Thermostat.SetPresetMode.
- `EphEmber(cache_home=True)` raising "cache_home not implemented" is not
  modelled.
- Zone ids are integers. Python truthiness of a zone id is "not 0", and
  of a string "not empty".
- `strip()` removes only ASCII white space: space, tab to carriage return,
  and the separators U+001C to U+001F. Non-ASCII white space is kept.
- The exception fallback of the zone-heating setup loop
  (`zone_heating[zid] = False`) is not modelled. `boiler_state` cannot
  raise for the zones the model describes, so that branch is unreachable.
- `get_homes` sorts the device days by day type and keys programs by
  number. The model assumes both already in order (`ScheduleOrdered`,
  `RepliesOrdered`) instead of modelling the sort.
- Resync.MqttSend: the `get_zone` inside `set_zone_*_mqtt` is looked up in
  the cached homes, as within the cache window. A refetch inside that
  call is not modelled.
- Climate.Thermostat.SetHvacMode and Resync.Thermostat.SetHvacMode use the
  corrected map `Climate.MapModeHassEph`. As written, a mode without a
  ZoneMode (such as COOL) raises TypeError in `map_mode_hass_eph` before
  anything is logged (see Findings).
- Messenger.PointDataTopic: its contract states only the length.
  `Messenger.TopicParts` and `Messenger.TopicNamesZone` state the content.
- Codec.Put: its contract states only the length and the append. The
  lookup facts are in `Codec.PutLookup`.
- Diagnostics.Strip: its contract states that the result is stripped and
  that a stripped input is unchanged. That the result is a slice of the
  input is in `Diagnostics.StripSlice`.
- Dicts.Remove: its contract states only that the dict does not grow.
  `Dicts.RemoveKeeps`, `Dicts.RemoveGet` and `Dicts.RemoveUnique` state
  what is kept and what is removed.
- ScheduleLinks.Collect: its contract states only the count and that no
  link is set. `ScheduleLinks.CollectMembers` states which programs are
  collected.
- Diagnostics.Recent: its contract states only the length.
  `Diagnostics.PushKeepsRecent` ties it to appending.

## Findings

| source | as written | input that shows it | evidently intended | confidence | as-written member | corrected member |
|---|---|---|---|---|---|---|
| custom_components/ephember/climate.py:319-322 (same code at climate.py:483-486) | `getattr(ZoneMode, HA_STATE_TO_EPH.get(mode), None)`: for a mode without an entry the attribute name is None, and `getattr` raises TypeError before its default applies | `HVACMode.COOL` | None for a mode without an entry, which `set_hvac_mode` then logs as invalid | not executed | Climate.MapModeHassEphAsWritten, Climate.MapModeHassEphRaisesOnCool | Climate.MapModeHassEph |
