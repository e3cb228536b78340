/**
 * The topic list of the MQTT messenger (pyephember2.py, class
 * EphMessenger): every zone is listened to on
 * "<productId>/<uid>/upload/pointdata", and each topic is kept once. The
 * client's connection is a parameter; connecting, publishing and the
 * network loop are not part of this model.
 */
module Messenger {
  /** The fields of a zone that name its MQTT topic. */
  datatype ZoneAddress = ZoneAddress(productId: string, uid: string)

  /** "/".join([productId, uid, "upload/pointdata"]). */
  function PointDataTopic(a: ZoneAddress): (t: string)
    ensures |t| == |a.productId| + |a.uid| + 18
  {
    a.productId + "/" + a.uid + "/" + "upload/pointdata"
  }

  /** The topic holds the product id, a slash, the uid, then "/upload/pointdata". */
  lemma TopicParts(a: ZoneAddress)
    ensures var t := PointDataTopic(a);
      var n := |a.productId|;
      t[..n] == a.productId && t[n] == '/' && t[n + 1..n + 1 + |a.uid|] == a.uid
      && t[n + 1 + |a.uid|..] == "/upload/pointdata"
  {
    var t := PointDataTopic(a);
    var n := |a.productId|;
    assert t == a.productId + "/" + a.uid + "/upload/pointdata";
    assert t[..n] == a.productId;
    assert t[n + 1..n + 1 + |a.uid|] == a.uid;
    assert t[n + 1 + |a.uid|..] == "/upload/pointdata";
  }

  /** While product ids hold no '/', the topic names a single zone: different zones listen on different topics. */
  lemma TopicNamesZone(a: ZoneAddress, b: ZoneAddress)
    requires '/' !in a.productId && '/' !in b.productId
    requires PointDataTopic(a) == PointDataTopic(b)
    ensures a == b
  {
    var t := PointDataTopic(a);
    TopicParts(a);
    TopicParts(b);
    assert |a.productId| == |b.productId|;
    assert a.productId == t[..|a.productId|] == b.productId;
  }

  predicate NoDuplicates(ts: seq<string>)
  {
    forall i, j :: 0 <= i < j < |ts| ==> ts[i] != ts[j]
  }

  /** The list after adding one topic unless it is already there. */
  function AddTopic(ts: seq<string>, t: string): seq<string>
  {
    if t in ts then ts else ts + [t]
  }

  /** The list after adding the topics of these zones in order. */
  function AddTopics(ts: seq<string>, zones: seq<ZoneAddress>): seq<string>
    decreases |zones|
  {
    if |zones| == 0 then ts else AddTopics(AddTopic(ts, PointDataTopic(zones[0])), zones[1..])
  }

  /**
   * Adding topics keeps every topic there was, adds the topic of every
   * zone, adds nothing else and never lists a topic twice.
   */
  lemma {:induction false} AddTopicsEffect(ts: seq<string>, zones: seq<ZoneAddress>)
    requires NoDuplicates(ts)
    ensures NoDuplicates(AddTopics(ts, zones))
    ensures forall t :: t in ts ==> t in AddTopics(ts, zones)
    ensures forall k :: 0 <= k < |zones| ==> PointDataTopic(zones[k]) in AddTopics(ts, zones)
    ensures forall t :: t in AddTopics(ts, zones) ==>
      t in ts || exists k :: 0 <= k < |zones| && t == PointDataTopic(zones[k])
    decreases |zones|
  {
    if |zones| > 0 {
      var t0 := PointDataTopic(zones[0]);
      var ts1 := AddTopic(ts, t0);
      assert NoDuplicates(ts1) by {
        if t0 !in ts {
          forall i, j | 0 <= i < j < |ts1| ensures ts1[i] != ts1[j] {
            if j == |ts| {
              assert ts1[i] == ts[i];
            }
          }
        }
      }
      AddTopicsEffect(ts1, zones[1..]);
      forall k | 0 <= k < |zones| ensures PointDataTopic(zones[k]) in AddTopics(ts, zones) {
        if k > 0 {
          assert zones[1..][k - 1] == zones[k];
        }
      }
      forall t | t in AddTopics(ts, zones)
        ensures t in ts || exists k :: 0 <= k < |zones| && t == PointDataTopic(zones[k])
      {
        if t !in ts1 {
          var k :| 0 <= k < |zones[1..]| && t == PointDataTopic(zones[1..][k]);
          assert zones[1..][k] == zones[k + 1];
        } else if t !in ts {
          assert t == PointDataTopic(zones[0]);
        }
      }
    }
  }

  /** Adding the topics from position i on is adding the topic of zone i, then the rest. */
  lemma AddTopicsStep(ts: seq<string>, zones: seq<ZoneAddress>, i: nat)
    requires i < |zones|
    ensures AddTopics(ts, zones[i..]) == AddTopics(AddTopic(ts, PointDataTopic(zones[i])), zones[i + 1..])
  {
    assert zones[i..][0] == zones[i] && zones[i..][1..] == zones[i + 1..];
  }

  class EphMessenger {
    /** _subscribed_topics. */
    var subscribedTopics: seq<string>
    /** _subscribed. */
    var subscribed: bool

    predicate Valid()
      reads this
    {
      NoDuplicates(subscribedTopics)
    }

    constructor ()
      ensures subscribedTopics == [] && !subscribed && Valid()
    {
      subscribedTopics := [];
      subscribed := false;
    }

    /**
     * subscribe_to_zone: the zone's topic is listed once; the subscription
     * is made, and True returned, only while the client is connected.
     */
    method SubscribeToZone(zone: ZoneAddress, connected: bool) returns (ok: bool)
      requires Valid()
      modifies this
      ensures Valid()
      ensures subscribedTopics == AddTopic(old(subscribedTopics), PointDataTopic(zone))
      ensures ok == connected
      ensures subscribed == (connected || old(subscribed))
    {
      var topic := PointDataTopic(zone);
      if topic !in subscribedTopics {
        subscribedTopics := subscribedTopics + [topic];
        AddTopicsEffect(old(subscribedTopics), [zone]);
        assert AddTopics(old(subscribedTopics), [zone]) == subscribedTopics by {
          assert [zone][1..] == [];
        }
      }
      if connected {
        subscribed := true;
        return true;
      }
      return false;
    }

    /** subscribe_to_all_zones: the number of zones subscribed to. */
    method SubscribeToAllZones(zones: seq<ZoneAddress>, connected: bool) returns (count: nat)
      requires Valid()
      modifies this
      ensures Valid()
      ensures subscribedTopics == AddTopics(old(subscribedTopics), zones)
      ensures count == if connected then |zones| else 0
      ensures subscribed == ((connected && |zones| > 0) || old(subscribed))
    {
      count := 0;
      var i := 0;
      while i < |zones|
        invariant 0 <= i <= |zones| && Valid()
        invariant AddTopics(subscribedTopics, zones[i..]) == AddTopics(old(subscribedTopics), zones)
        invariant count == if connected then i else 0
        invariant subscribed == ((connected && i > 0) || old(subscribed))
      {
        ghost var before := subscribedTopics;
        AddTopicsStep(before, zones, i);
        var ok := SubscribeToZone(zones[i], connected);
        assert AddTopics(subscribedTopics, zones[i + 1..]) == AddTopics(before, zones[i..]);
        if ok {
          count := count + 1;
        }
        i := i + 1;
      }
    }

    /** start_listening: the zones' topics are listed once each, then the client is started. */
    method StartListening(zones: seq<ZoneAddress>)
      requires Valid()
      modifies this
      ensures Valid()
      ensures subscribedTopics == AddTopics(old(subscribedTopics), zones)
      ensures subscribed
    {
      var i := 0;
      while i < |zones|
        invariant 0 <= i <= |zones| && Valid()
        invariant AddTopics(subscribedTopics, zones[i..]) == AddTopics(old(subscribedTopics), zones)
      {
        assert zones[i..][0] == zones[i] && zones[i..][1..] == zones[i + 1..];
        var topic := PointDataTopic(zones[i]);
        AddTopicsEffect(subscribedTopics, [zones[i]]);
        assert AddTopics(subscribedTopics, [zones[i]]) == AddTopic(subscribedTopics, topic) by {
          assert [zones[i]][1..] == [];
        }
        if topic !in subscribedTopics {
          subscribedTopics := subscribedTopics + [topic];
        }
        i := i + 1;
      }
      subscribed := true;
    }
  }
}
