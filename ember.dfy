/**
 * The EphEmber object's own state (pyephember2.py, class EphEmber): the
 * cached homes with their zones, the time until which that cache is used,
 * and the login data of the session. HTTP replies are parameters: the
 * replies of homesVT/zoneProgram in the order get_homes asks for them, the
 * reply of appLogin/login and the "data" of appLogin/refreshAccessToken.
 * Times are integer seconds.
 */
module Ember {
  import opened Wrappers
  import opened ZoneData
  import opened Codec
  import opened ZoneView
  import opened ScheduleLinks

  /** A home (gateway) of the account and the zones get_homes attached to it. */
  datatype Home = Home(gatewayId: int, zones: seq<Zone>)

  /** The reply of homesVT/zoneProgram for one gateway, zones as the server sends them. */
  datatype ZoneReply = ZoneReply(status: Option<int>, data: Option<seq<Zone>>, timestamp: Option<int>)

  /** The "data" part of a login or refresh reply. */
  datatype Tokens = Tokens(token: Option<string>, refreshToken: Option<string>)

  /** _login_data: the reply's data and the time of the last refresh. */
  datatype Session = Session(data: Tokens, lastRefresh: int)

  datatype LoginReply = LoginReply(status: int, data: Option<Tokens>)

  /** _refresh_token_validity_seconds. */
  const TokenValiditySeconds := 1800

  /** How long get_homes keeps its cache. */
  const HomesCacheSeconds := 10

  /** The token has to be refreshed once it expires within the next 30 seconds. */
  function RequiresRefresh(lastRefresh: int, now: int): (b: bool)
    ensures b <==> now - lastRefresh > TokenValiditySeconds - 30
  {
    lastRefresh + TokenValiditySeconds < now + 30
  }

  // ---------------------------------------------------------------- get_homes

  predicate RepliesOrdered(replies: seq<ZoneReply>)
  {
    forall i, k :: 0 <= i < |replies| && replies[i].data.Some? && 0 <= k < |replies[i].data.value| ==>
      ScheduleOrdered(replies[i].data.value[k].deviceDays)
  }

  predicate ZonesOrdered(raws: seq<Zone>)
  {
    forall k :: 0 <= k < |raws| ==> ScheduleOrdered(raws[k].deviceDays)
  }

  /** The checks get_homes makes on a zoneProgram reply, in order (a missing status counts as 1). */
  function ReplyFailure(reply: ZoneReply): (e: Option<Failure>)
    ensures e.None? <==> reply.status == Some(0) && reply.data.Some? && reply.timestamp.Some?
  {
    var status := if reply.status.Some? then reply.status.value else 1;
    if status != 0 then Some(ServerError(status))
    else if reply.data.None? then Some(NoData)
    else if reply.timestamp.None? then Some(NoTimestamp)
    else None
  }

  /** A zone of a reply once its days are linked and the reply's timestamp is set. */
  function BuiltZone(raw: Zone, ts: int): Result<Zone>
    requires ScheduleOrdered(raw.deviceDays)
  {
    match Linked(raw.deviceDays)
    case Err(e) => Err(e)
    case Ok(days) => Ok(raw.(days := days, timestamp := ts))
  }

  /** The zone loop of one home: each zone is appended once it is built, up to the first failure. */
  function ZonesFrom(done: seq<Zone>, raws: seq<Zone>, ts: int): (seq<Zone>, Option<Failure>)
    requires ZonesOrdered(raws)
    decreases |raws|
  {
    if |raws| == 0 then (done, None)
    else match BuiltZone(raws[0], ts)
      case Err(e) => (done, Some(e))
      case Ok(z) => ZonesFrom(done + [z], raws[1..], ts)
  }

  /** One home: its zones are reset, the reply is checked, then the zone loop runs. */
  function FetchHome(h: Home, reply: ZoneReply): (Home, Option<Failure>)
    requires reply.data.Some? ==> ZonesOrdered(reply.data.value)
  {
    match ReplyFailure(reply)
    case Some(e) => (h.(zones := []), Some(e))
    case None =>
      var (zs, e) := ZonesFrom([], reply.data.value, reply.timestamp.value);
      (h.(zones := zs), e)
  }

  /** The home loop: the homes done so far, then the rest as list_homes returned them. */
  function FetchFrom(done: seq<Home>, rest: seq<Home>, replies: seq<ZoneReply>): (seq<Home>, Option<Failure>)
    requires |replies| == |rest| && RepliesOrdered(replies)
    decreases |rest|
  {
    if |rest| == 0 then (done, None)
    else
      var (h, e) := FetchHome(rest[0], replies[0]);
      if e.Some? then (done + [h] + rest[1..], e)
      else FetchFrom(done + [h], rest[1..], replies[1..])
  }

  /** The cache is used while NextHomeUpdateDaytime is set and not yet passed. */
  predicate CacheFresh(next: Option<int>, now: int)
  {
    next.Some? && now <= next.value
  }

  /**
   * get_homes as a function of the cache: the new homes, the new
   * NextHomeUpdateDaytime and the result, for a call starting at `start`
   * and finishing at `finish`. A failure leaves the partly rebuilt homes in
   * the cache and the cache time as it was.
   */
  function Refresh(homes: seq<Home>, next: Option<int>, start: int, finish: int,
                   listed: seq<Home>, replies: seq<ZoneReply>): (seq<Home>, Option<int>, Result<seq<Home>>)
    requires |replies| == |listed| && RepliesOrdered(replies)
  {
    if CacheFresh(next, start) then (homes, next, Ok(homes))
    else
      var (hs, e) := FetchFrom([], listed, replies);
      if e.Some? then (hs, next, Err(e.value))
      else (hs, Some(finish + HomesCacheSeconds), Ok(hs))
  }

  /** Within the cache window the cached homes are returned and nothing changes. */
  lemma CacheWindow(homes: seq<Home>, finish: int, start: int, listed: seq<Home>, replies: seq<ZoneReply>)
    requires |replies| == |listed| && RepliesOrdered(replies)
    requires start <= finish + HomesCacheSeconds
    ensures Refresh(homes, Some(finish + HomesCacheSeconds), start, start, listed, replies)
      == (homes, Some(finish + HomesCacheSeconds), Ok(homes))
  {
  }

  /** When no zone fails, the zone loop appends every zone, linked and stamped. */
  lemma {:induction false} ZonesFromOk(done: seq<Zone>, raws: seq<Zone>, ts: int)
    requires ZonesOrdered(raws) && ZonesFrom(done, raws, ts).1.None?
    ensures var zs := ZonesFrom(done, raws, ts).0;
      |zs| == |done| + |raws| && zs[..|done|] == done
      && forall k :: 0 <= k < |raws| ==>
           Linked(raws[k].deviceDays).Ok? && zs[|done| + k] == raws[k].(days := Linked(raws[k].deviceDays).value, timestamp := ts)
    decreases |raws|
  {
    if |raws| > 0 {
      var z := BuiltZone(raws[0], ts).value;
      assert ZonesOrdered(raws[1..]) by {
        forall k | 0 <= k < |raws[1..]| ensures ScheduleOrdered(raws[1..][k].deviceDays) {
          assert raws[1..][k] == raws[k + 1];
        }
      }
      ZonesFromOk(done + [z], raws[1..], ts);
      var zs := ZonesFrom(done, raws, ts).0;
      assert zs == ZonesFrom(done + [z], raws[1..], ts).0;
      forall k | 0 <= k < |raws|
        ensures Linked(raws[k].deviceDays).Ok? && zs[|done| + k] == raws[k].(days := Linked(raws[k].deviceDays).value, timestamp := ts)
      {
        if k > 0 {
          assert raws[1..][k - 1] == raws[k];
        } else {
          assert zs[..|done| + 1] == done + [z];
          assert zs[|done|] == (done + [z])[|done|];
        }
      }
      assert zs[..|done|] == (done + [z])[..|done|];
    }
  }

  /**
   * When get_homes succeeds, every listed home keeps its gateway and gets
   * exactly the zones of its reply, in order, each with its days linked and
   * the reply's timestamp.
   */
  lemma {:induction false} FetchFromOk(done: seq<Home>, rest: seq<Home>, replies: seq<ZoneReply>)
    requires |replies| == |rest| && RepliesOrdered(replies) && FetchFrom(done, rest, replies).1.None?
    ensures var hs := FetchFrom(done, rest, replies).0;
      |hs| == |done| + |rest| && hs[..|done|] == done
      && forall i :: 0 <= i < |rest| ==>
           ReplyFailure(replies[i]).None? && hs[|done| + i].gatewayId == rest[i].gatewayId
           && hs[|done| + i].zones == ZonesFrom([], replies[i].data.value, replies[i].timestamp.value).0
           && ZonesFrom([], replies[i].data.value, replies[i].timestamp.value).1.None?
    decreases |rest|
  {
    if |rest| > 0 {
      var h := FetchHome(rest[0], replies[0]).0;
      assert RepliesOrdered(replies[1..]) by {
        forall i, k | 0 <= i < |replies[1..]| && replies[1..][i].data.Some? && 0 <= k < |replies[1..][i].data.value|
          ensures ScheduleOrdered(replies[1..][i].data.value[k].deviceDays)
        {
          assert replies[1..][i] == replies[i + 1];
        }
      }
      FetchFromOk(done + [h], rest[1..], replies[1..]);
      var hs := FetchFrom(done, rest, replies).0;
      assert hs == FetchFrom(done + [h], rest[1..], replies[1..]).0;
      forall i | 0 <= i < |rest|
        ensures ReplyFailure(replies[i]).None? && hs[|done| + i].gatewayId == rest[i].gatewayId
          && hs[|done| + i].zones == ZonesFrom([], replies[i].data.value, replies[i].timestamp.value).0
          && ZonesFrom([], replies[i].data.value, replies[i].timestamp.value).1.None?
      {
        if i > 0 {
          assert replies[1..][i - 1] == replies[i];
          assert rest[1..][i - 1] == rest[i];
        } else {
          assert hs[..|done| + 1] == done + [h];
          assert hs[|done|] == (done + [h])[|done|];
        }
      }
      assert hs[..|done|] == (done + [h])[..|done|];
    }
  }

  // ---------------------------------------------------------------- zone lookups

  /** Position of the first zone of zs satisfying p, or |zs|. */
  function FirstZone(zs: seq<Zone>, p: Zone -> bool): (k: nat)
    ensures k <= |zs| && (k < |zs| ==> p(zs[k]))
    ensures forall j :: 0 <= j < k ==> !p(zs[j])
  {
    if zs == [] then 0 else if p(zs[0]) then 0 else 1 + FirstZone(zs[1..], p)
  }

  /** (home, zone) position a comes before b in the nested loops over homes and zones. */
  predicate Before(a: (nat, nat), b: (nat, nat))
  {
    a.0 < b.0 || (a.0 == b.0 && a.1 < b.1)
  }

  /** The nested search over homes and their zones, from home h on: the first zone satisfying p. */
  function Locate(homes: seq<Home>, p: Zone -> bool, h: nat): (r: Option<(nat, nat)>)
    requires h <= |homes|
    ensures r.Some? ==> (h <= r.value.0 < |homes| && r.value.1 < |homes[r.value.0].zones|
      && p(homes[r.value.0].zones[r.value.1]))
    ensures r.None? ==> forall i, k :: h <= i < |homes| && 0 <= k < |homes[i].zones| ==> !p(homes[i].zones[k])
    ensures r.Some? ==> forall i, k :: h <= i < |homes| && 0 <= k < |homes[i].zones| && Before((i, k), r.value) ==>
      !p(homes[i].zones[k])
    decreases |homes| - h
  {
    if h == |homes| then None
    else
      var k := FirstZone(homes[h].zones, p);
      if k < |homes[h].zones| then Some((h, k)) else Locate(homes, p, h + 1)
  }

  function HasZoneId(zoneId: int): Zone -> bool { (z: Zone) => z.zoneId == zoneId }

  function HasMac(mac: string): Zone -> bool { (z: Zone) => z.mac == Some(mac) }

  /** The search of get_zone over the homes get_zones returned: the first zone with this id. */
  function FindZone(homes: seq<Home>, zoneId: int): (r: Result<Zone>)
    ensures r.Ok? ==> r.value.zoneId == zoneId
    ensures r.Ok? ==> exists i, k :: (0 <= i < |homes| && 0 <= k < |homes[i].zones| && homes[i].zones[k] == r.value
      && forall i', k' :: 0 <= i' < |homes| && 0 <= k' < |homes[i'].zones| && Before((i', k'), (i, k)) ==>
        homes[i'].zones[k'].zoneId != zoneId)
    ensures r.Err? <==> forall i, k :: 0 <= i < |homes| && 0 <= k < |homes[i].zones| ==> homes[i].zones[k].zoneId != zoneId
    ensures r.Err? ==> r.error == ZoneNotFound(zoneId)
  {
    match Locate(homes, HasZoneId(zoneId), 0)
    case None => Err(ZoneNotFound(zoneId))
    case Some((i, k)) =>
      assert HasZoneId(zoneId)(homes[i].zones[k]);
      assert forall i', k' :: 0 <= i' < |homes| && 0 <= k' < |homes[i'].zones| && Before((i', k'), (i, k)) ==>
        !HasZoneId(zoneId)(homes[i'].zones[k']);
      Ok(homes[i].zones[k])
  }

  /** get_zone_by_mac over the cached homes: the first zone with this MAC, without refreshing. */
  function ZoneByMac(homes: seq<Home>, mac: string): (r: Option<Zone>)
    ensures r.Some? ==> r.value.mac == Some(mac)
    ensures r.Some? ==> exists i, k :: (0 <= i < |homes| && 0 <= k < |homes[i].zones| && homes[i].zones[k] == r.value
      && forall i', k' :: 0 <= i' < |homes| && 0 <= k' < |homes[i'].zones| && Before((i', k'), (i, k)) ==>
        homes[i'].zones[k'].mac != Some(mac))
    ensures r.None? <==> forall i, k :: 0 <= i < |homes| && 0 <= k < |homes[i].zones| ==> homes[i].zones[k].mac != Some(mac)
  {
    match Locate(homes, HasMac(mac), 0)
    case None => None
    case Some((i, k)) =>
      assert HasMac(mac)(homes[i].zones[k]);
      assert forall i', k' :: 0 <= i' < |homes| && 0 <= k' < |homes[i'].zones| && Before((i', k'), (i, k)) ==>
        !HasMac(mac)(homes[i'].zones[k']);
      Some(homes[i].zones[k])
  }

  // ---------------------------------------------------------------- update_zone_from_mqtt

  /**
   * One record of the decoded point data: the value of the first entry with
   * the same pointIndex is overwritten, or a new entry is appended.
   */
  function ApplyRecord(points: seq<PointEntry>, r: Record): seq<PointEntry>
  {
    var i := FindPoint(points, r.index);
    if i < |points| then points[i := points[i].(value := r.value)] else points + [PointEntry(r.index, r.value)]
  }

  /** The records applied in the decoder's order. */
  function ApplyAll(points: seq<PointEntry>, rs: seq<Record>): seq<PointEntry>
    decreases |rs|
  {
    if |rs| == 0 then points else ApplyAll(ApplyRecord(points, rs[0]), rs[1..])
  }

  /** The zone as update_zone_from_mqtt leaves it; the timestamp is in milliseconds. */
  function Patched(z: Zone, parsed: seq<Record>, nowMs: int): Zone
  {
    z.(points := ApplyAll(z.points, parsed), timestamp := nowMs)
  }

  predicate NotUpdated(rs: seq<Record>, index: int)
  {
    forall k :: 0 <= k < |rs| ==> rs[k].index != index
  }

  lemma FindPointSameIndices(points: seq<PointEntry>, q: seq<PointEntry>, index: int)
    requires |q| >= |points|
    requires forall m :: 0 <= m < |points| ==> q[m].pointIndex == points[m].pointIndex
    requires FindPoint(points, index) < |points|
    ensures FindPoint(q, index) == FindPoint(points, index)
  {
    var k := FindPoint(points, index);
    assert q[k].pointIndex == index;
  }

  /**
   * After one record its index reads back the record's value, every other
   * index reads what it read before, and the existing entries keep their
   * indices; an entry is appended only when the index was absent.
   */
  lemma ApplyRecordEffect(points: seq<PointEntry>, r: Record)
    ensures FirstEntry(ApplyRecord(points, r), r.index) == Some(r.value)
    ensures forall j :: j != r.index ==> FirstEntry(ApplyRecord(points, r), j) == FirstEntry(points, j)
    ensures |ApplyRecord(points, r)| == |points| + (if FindPoint(points, r.index) < |points| then 0 else 1)
    ensures forall m :: 0 <= m < |points| ==> ApplyRecord(points, r)[m].pointIndex == points[m].pointIndex
    ensures forall m :: 0 <= m < |points| && points[m].pointIndex != r.index ==> ApplyRecord(points, r)[m] == points[m]
  {
    var q := ApplyRecord(points, r);
    var i := FindPoint(points, r.index);
    if i < |points| {
      FindPointSameIndices(points, q, r.index);
    } else {
      assert q[|points|].pointIndex == r.index;
      assert FindPoint(q, r.index) == |points|;
    }
    forall j | j != r.index ensures FirstEntry(q, j) == FirstEntry(points, j) {
      if FindPoint(points, j) < |points| {
        FindPointSameIndices(points, q, j);
      } else if i == |points| {
        assert q[|points|].pointIndex != j;
        assert FindPoint(q, j) == |q|;
      } else {
        assert FindPoint(q, j) == |q|;
      }
    }
  }

  /**
   * After the whole decoded point data (distinct indices, as the decoder
   * gives them), every decoded index reads back its value, and an index the
   * data does not mention reads what it read before.
   */
  lemma {:induction false} ApplyAllEffect(points: seq<PointEntry>, rs: seq<Record>)
    requires KeysDistinct(rs)
    ensures forall k :: 0 <= k < |rs| ==> FirstEntry(ApplyAll(points, rs), rs[k].index) == Some(rs[k].value)
    ensures forall j :: NotUpdated(rs, j) ==> FirstEntry(ApplyAll(points, rs), j) == FirstEntry(points, j)
    decreases |rs|
  {
    if |rs| > 0 {
      var q := ApplyRecord(points, rs[0]);
      ApplyRecordEffect(points, rs[0]);
      assert KeysDistinct(rs[1..]) by {
        forall i, j | 0 <= i < j < |rs[1..]| ensures rs[1..][i].index != rs[1..][j].index {
          assert rs[1..][i] == rs[i + 1] && rs[1..][j] == rs[j + 1];
        }
      }
      ApplyAllEffect(q, rs[1..]);
      assert ApplyAll(points, rs) == ApplyAll(q, rs[1..]);
      forall k | 0 <= k < |rs| ensures FirstEntry(ApplyAll(points, rs), rs[k].index) == Some(rs[k].value) {
        if k == 0 {
          assert NotUpdated(rs[1..], rs[0].index) by {
            forall m | 0 <= m < |rs[1..]| ensures rs[1..][m].index != rs[0].index {
              assert rs[1..][m] == rs[m + 1];
            }
          }
        } else {
          assert rs[1..][k - 1] == rs[k];
        }
      }
      forall j | NotUpdated(rs, j) ensures FirstEntry(ApplyAll(points, rs), j) == FirstEntry(points, j) {
        assert rs[0].index != j;
        assert NotUpdated(rs[1..], j) by {
          forall m | 0 <= m < |rs[1..]| ensures rs[1..][m].index != j {
            assert rs[1..][m] == rs[m + 1];
          }
        }
      }
    }
  }

  /** The search over pointDataList for one record (the enumerate loop with its break). */
  method FindEntry(points: seq<PointEntry>, index: int) returns (i: nat)
    ensures i == FindPoint(points, index)
  {
    i := 0;
    while i < |points| && points[i].pointIndex != index
      invariant 0 <= i <= |points|
      invariant forall m :: 0 <= m < i ==> points[m].pointIndex != index
    {
      i := i + 1;
    }
  }

  /** The loop over the decoded point data, editing pointDataList in place. */
  method PatchPoints(points: seq<PointEntry>, parsed: seq<Record>) returns (out: seq<PointEntry>)
    ensures out == ApplyAll(points, parsed)
  {
    out := points;
    var n := 0;
    while n < |parsed|
      invariant 0 <= n <= |parsed|
      invariant ApplyAll(out, parsed[n..]) == ApplyAll(points, parsed)
    {
      var rec := parsed[n];
      var i := FindEntry(out, rec.index);
      assert parsed[n..][1..] == parsed[n + 1..];
      if i < |out| {
        out := out[i := out[i].(value := rec.value)];
      } else {
        out := out + [PointEntry(rec.index, rec.value)];
      }
      n := n + 1;
    }
  }

  // ---------------------------------------------------------------- the object

  class EphEmber {
    /** _homes; None is the empty list. */
    var homes: seq<Home>
    /** NextHomeUpdateDaytime. */
    var nextHomeUpdate: Option<int>
    /** _login_data. */
    var loginData: Option<Session>

    /** A session always holds a token. */
    predicate SessionValid()
      reads this
    {
      loginData.Some? ==> loginData.value.data.token.Some?
    }

    /** The state __init__ sets before it logs in. */
    constructor ()
      ensures homes == [] && nextHomeUpdate == None && loginData == None
      ensures SessionValid()
    {
      homes := [];
      nextHomeUpdate := None;
      loginData := None;
    }

    /**
     * _login: the reply is kept, with the time of the refresh, only when its
     * status is 0 and it has a token; otherwise the login data is cleared.
     */
    method Login(now: int, reply: LoginReply) returns (ok: bool)
      modifies this
      ensures ok <==> reply.status == 0 && reply.data.Some? && reply.data.value.token.Some?
      ensures loginData == if ok then Some(Session(reply.data.value, now)) else None
      ensures homes == old(homes) && nextHomeUpdate == old(nextHomeUpdate)
      ensures SessionValid()
    {
      loginData := None;
      if reply.status != 0 {
        return false;
      }
      if reply.data.Some? && reply.data.value.token.Some? {
        loginData := Some(Session(reply.data.value, now));
        return true;
      }
      loginData := None;
      return false;
    }

    /**
     * _request_token: fails without login data; without `force` a token
     * that is still valid is kept; otherwise the refresh reply's data
     * replaces the session when it holds a token, and False is returned
     * when it does not.
     */
    method RequestToken(force: bool, now: int, reply: Option<Tokens>) returns (r: Result<bool>)
      modifies this
      ensures old(loginData).None? ==> r == Err(NoRefreshToken) && loginData == old(loginData)
      ensures old(loginData).Some? && !force && !RequiresRefresh(old(loginData).value.lastRefresh, now) ==>
        r == Ok(true) && loginData == old(loginData)
      ensures old(loginData).Some? && (force || RequiresRefresh(old(loginData).value.lastRefresh, now)) ==>
        if old(loginData).value.data.refreshToken.None? then r == Err(MissingKey) && loginData == old(loginData)
        else (r == Ok(reply.Some? && reply.value.token.Some?)
          && loginData == if r.value then Some(Session(reply.value, now)) else old(loginData))
      ensures homes == old(homes) && nextHomeUpdate == old(nextHomeUpdate)
      ensures old(SessionValid()) ==> SessionValid()
    {
      if loginData.None? {
        return Err(NoRefreshToken);
      }
      if !force && !RequiresRefresh(loginData.value.lastRefresh, now) {
        return Ok(true);
      }
      if loginData.value.data.refreshToken.None? {
        return Err(MissingKey);
      }
      if reply.None? || reply.value.token.None? {
        return Ok(false);
      }
      loginData := Some(Session(reply.value, now));
      r := Ok(true);
    }

    /**
     * _do_auth: log in when there is no login data (the session is the
     * login reply's exactly when it is accepted); otherwise _request_token
     * without force, which keeps a valid token and replaces a due one with
     * the refresh reply's when it holds a token.
     */
    method DoAuth(now: int, login: LoginReply, refresh: Option<Tokens>) returns (r: Result<bool>)
      modifies this
      ensures old(loginData).None? ==>
        r == Ok(login.status == 0 && login.data.Some? && login.data.value.token.Some?)
        && loginData == if r.value then Some(Session(login.data.value, now)) else None
      ensures old(loginData).Some? && !RequiresRefresh(old(loginData).value.lastRefresh, now) ==>
        r == Ok(true) && loginData == old(loginData)
      ensures old(loginData).Some? && RequiresRefresh(old(loginData).value.lastRefresh, now) ==>
        if old(loginData).value.data.refreshToken.None? then r == Err(MissingKey) && loginData == old(loginData)
        else (r == Ok(refresh.Some? && refresh.value.token.Some?)
          && loginData == if r.value then Some(Session(refresh.value, now)) else old(loginData))
      ensures homes == old(homes) && nextHomeUpdate == old(nextHomeUpdate)
      ensures old(SessionValid()) ==> SessionValid()
    {
      if loginData.None? {
        var ok := Login(now, login);
        return Ok(ok);
      }
      r := RequestToken(false, now, refresh);
    }

    /** The zone loop of get_homes for one reply. */
    static method BuildZones(raws: seq<Zone>, ts: int) returns (zs: seq<Zone>, e: Option<Failure>)
      requires ZonesOrdered(raws)
      ensures (zs, e) == ZonesFrom([], raws, ts)
    {
      zs := [];
      var k := 0;
      while k < |raws|
        invariant 0 <= k <= |raws|
        invariant ZonesOrdered(raws[k..])
        invariant ZonesFrom(zs, raws[k..], ts) == ZonesFrom([], raws, ts)
      {
        assert raws[k..][0] == raws[k] && raws[k..][1..] == raws[k + 1..];
        var days := LinkDays(raws[k].deviceDays);
        if days.Err? {
          return zs, Some(days.error);
        }
        zs := zs + [raws[k].(days := days.value, timestamp := ts)];
        k := k + 1;
      }
      e := None;
    }

    /**
     * get_homes: the cached homes while the cache is fresh; otherwise the
     * homes from list_homes, each with its zones rebuilt from its reply,
     * and a cache time ten seconds after the call finishes.
     */
    method GetHomes(start: int, finish: int, listed: seq<Home>, replies: seq<ZoneReply>) returns (r: Result<seq<Home>>)
      requires |replies| == |listed| && RepliesOrdered(replies)
      modifies this
      ensures (homes, nextHomeUpdate, r) == Refresh(old(homes), old(nextHomeUpdate), start, finish, listed, replies)
      ensures loginData == old(loginData)
    {
      if nextHomeUpdate.Some? && start <= nextHomeUpdate.value {
        return Ok(homes);
      }
      var hs, e := FetchHomes(listed, replies);
      homes := hs;
      if e.Some? {
        return Err(e.value);
      }
      nextHomeUpdate := Some(finish + HomesCacheSeconds);
      r := Ok(hs);
    }

    /** One home of get_homes: its zones are reset, then rebuilt from its reply. */
    static method FetchOne(h: Home, reply: ZoneReply) returns (out: Home, e: Option<Failure>)
      requires reply.data.Some? ==> ZonesOrdered(reply.data.value)
      ensures (out, e) == FetchHome(h, reply)
    {
      out := h.(zones := []);
      e := ReplyFailure(reply);
      if e.Some? {
        return;
      }
      var zs;
      zs, e := BuildZones(reply.data.value, reply.timestamp.value);
      out := h.(zones := zs);
    }

    /** The home loop of get_homes: the homes rebuilt up to the first failure, then the rest as listed. */
    static method FetchHomes(listed: seq<Home>, replies: seq<ZoneReply>) returns (hs: seq<Home>, e: Option<Failure>)
      requires |replies| == |listed| && RepliesOrdered(replies)
      ensures (hs, e) == FetchFrom([], listed, replies)
    {
      hs := [];
      var i := 0;
      while i < |listed|
        invariant 0 <= i <= |listed| && |hs| == i
        invariant RepliesOrdered(replies[i..])
        invariant FetchFrom(hs, listed[i..], replies[i..]) == FetchFrom([], listed, replies)
      {
        assert listed[i..][0] == listed[i] && listed[i..][1..] == listed[i + 1..];
        assert replies[i..][0] == replies[i] && replies[i..][1..] == replies[i + 1..];
        var h;
        h, e := FetchOne(listed[i], replies[i]);
        if e.Some? {
          return hs + [h] + listed[i + 1..], e;
        }
        hs := hs + [h];
        i := i + 1;
      }
      e := None;
    }

    /** get_zone: get_homes, then the first zone with this id, or "Unknown zone". */
    method GetZone(start: int, finish: int, listed: seq<Home>, replies: seq<ZoneReply>, zoneId: int) returns (r: Result<Zone>)
      requires |replies| == |listed| && RepliesOrdered(replies)
      modifies this
      ensures var after := Refresh(old(homes), old(nextHomeUpdate), start, finish, listed, replies);
        homes == after.0 && nextHomeUpdate == after.1
        && r == match after.2 case Err(e) => Err(e) case Ok(hs) => FindZone(hs, zoneId)
      ensures loginData == old(loginData)
    {
      var hs := GetHomes(start, finish, listed, replies);
      if hs.Err? {
        return Err(hs.error);
      }
      r := FindZone(hs.value, zoneId);
    }

    /**
     * update_zone_from_mqtt: the first cached zone with this MAC gets the
     * decoded point data and the current time in milliseconds; False, with
     * nothing changed, when no cached zone has that MAC.
     */
    method UpdateZoneFromMqtt(mac: string, parsed: seq<Record>, nowMs: int) returns (found: bool)
      modifies this
      ensures found <==> Locate(old(homes), HasMac(mac), 0).Some?
      ensures !found ==> homes == old(homes)
      ensures found ==> var (i, k) := Locate(old(homes), HasMac(mac), 0).value;
        homes == old(homes)[i := old(homes)[i].(zones := old(homes)[i].zones[k := Patched(old(homes)[i].zones[k], parsed, nowMs)])]
      ensures nextHomeUpdate == old(nextHomeUpdate) && loginData == old(loginData)
    {
      var at := Locate(homes, HasMac(mac), 0);
      if at.None? {
        return false;
      }
      var (i, k) := at.value;
      var zone := homes[i].zones[k];
      var points := PatchPoints(zone.points, parsed);
      homes := homes[i := homes[i].(zones := homes[i].zones[k := zone.(points := points, timestamp := nowMs)])];
      found := true;
    }
  }

  /** EphEmber(username, password): a new object that has logged in, or "Unable to login.". */
  method Connect(now: int, reply: LoginReply) returns (r: Result<EphEmber>)
    ensures r.Ok? <==> reply.status == 0 && reply.data.Some? && reply.data.value.token.Some?
    ensures r.Ok? ==> (fresh(r.value) && r.value.homes == [] && r.value.nextHomeUpdate == None
      && r.value.loginData == Some(Session(reply.data.value, now)))
    ensures r.Err? ==> r.error == LoginFailed
  {
    var ember := new EphEmber();
    var ok := ember.Login(now, reply);
    if !ok {
      return Err(LoginFailed);
    }
    r := Ok(ember);
  }

  /**
   * Whatever update_zone_from_mqtt does to a zone, reading it back gives
   * the decoded values for the decoded indices and the old values for the
   * others.
   */
  lemma PatchedReadsBack(z: Zone, parsed: seq<Record>, nowMs: int)
    requires KeysDistinct(parsed)
    ensures forall k :: 0 <= k < |parsed| ==> FirstEntry(Patched(z, parsed, nowMs).points, parsed[k].index) == Some(parsed[k].value)
    ensures forall j :: NotUpdated(parsed, j) ==> FirstEntry(Patched(z, parsed, nowMs).points, j) == FirstEntry(z.points, j)
    ensures Patched(z, parsed, nowMs).timestamp == nowMs
  {
    ApplyAllEffect(z.points, parsed);
  }

  /**
   * After an MQTT update the boiler reads as on exactly when the update's
   * BOILER_STATE record says flame on (2); an update without that record
   * leaves the boiler state as it was.
   */
  lemma BoilerStateAfterMqtt(z: Zone, parsed: seq<Record>, nowMs: int)
    requires KeysDistinct(parsed)
    ensures var i := if z.deviceType in {258, 514} then 18 else 10;
      forall k :: 0 <= k < |parsed| && parsed[k].index == i ==>
        (IsBoilerOn(Patched(z, parsed, nowMs)) <==> parsed[k].value == BoilerOn)
    ensures var i := if z.deviceType in {258, 514} then 18 else 10;
      NotUpdated(parsed, i) ==> (IsBoilerOn(Patched(z, parsed, nowMs)) <==> IsBoilerOn(z))
  {
    ApplyAllEffect(z.points, parsed);
  }
}
