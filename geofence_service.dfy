/** The geofence service (`GeofenceService`): fan-out of a detection to the zones that contain
    it, the broadcast log, and the device-subscription upsert.

    The PostGIS lookups are inputs: the zones found for the point and, per zone, the device
    subscriptions, each either a row list or a failure. The `geofence_broadcasts` table is
    `broadcasts`; the `device_subscriptions` table is `subscriptions`. */
module Geofence {
  import opened Common
  import opened Payload
  import opened Mqtt

  /** A row of `find_geofence_zones_for_point`. */
  datatype Zone = Zone(zoneId: int, zoneName: Option<string>, zoneType: Option<string>, distanceMeters: Option<real>)

  /** What happens for one zone: its subscription lookup, whether a needed reconnect works,
      whether the broker takes the message, the clock reading used for the timestamp, and
      whether the log insert of `_log_broadcast` succeeds (its failure is swallowed). */
  datatype ZoneIo = ZoneIo(subscriptions: Fallible<seq<string>>, connectOk: bool, delivered: bool, timestamp: string,
                           logOk: bool)

  /** A row of `geofence_broadcasts` (its time column is left out). */
  datatype BroadcastLog = BroadcastLog(detectionId: int, zoneId: int, topic: string, devicesNotified: nat)

  /** A row of `device_subscriptions`. */
  datatype Subscription = Subscription(deviceId: string, userId: Option<string>, zoneId: int, subscriptionType: string,
                                       hazardTypes: seq<string>, active: bool, lastSeen: int)

  /** A lookup that fails yields no rows. */
  function OrEmpty<T>(r: Fallible<seq<T>>): seq<T> {
    if r.Ok? then r.value else []
  }

  function OptText(s: Option<string>): Json {
    if s.Some? then JStr(s.value) else JNull
  }

  function OptReal(x: Option<real>): Json {
    if x.Some? then JReal(x.value) else JNull
  }

  /** The zones reached: none without a usable location, none when the lookup fails. */
  function ZonesReached(location: Option<Location>, found: Fallible<seq<Zone>>): (zones: seq<Zone>)
    ensures !HasCoords(location) || found.Fails? ==> zones == []
    ensures HasCoords(location) && found.Ok? ==> zones == found.value
  {
    if HasCoords(location) then OrEmpty(found) else []
  }

  function LocationOf(location: Option<Location>): Location {
    if location.Some? then location.value else map[]
  }

  /** The fixed part of the per-zone broadcast body. */
  function ZoneBase(hazardType: string, location: Location, zone: Zone, devices: nat): Dict {
    [("hazard_type", JStr(hazardType)), ("location", JLoc(location)), ("zone_name", OptText(zone.zoneName)),
     ("zone_type", OptText(zone.zoneType)), ("distance_meters", OptReal(zone.distanceMeters)),
     ("device_count", JInt(devices))]
  }

  /** `{..., "device_count": len(subscriptions), **(additional_data or {})}` */
  function ZonePayload(hazardType: string, location: Location, zone: Zone, devices: nat, additional: Option<Dict>): Dict {
    Merge(ZoneBase(hazardType, location, zone, devices), if additional.Some? then additional.value else [])
  }

  /** The body counts the zone's devices unless the caller's data carries its own count, and
      every key of the caller's data overrides the fixed one. */
  lemma ZonePayloadOverrides(hazardType: string, location: Location, zone: Zone, devices: nat, additional: Option<Dict>)
    ensures var r := ZonePayload(hazardType, location, zone, devices, additional);
      Lookup(r, "device_count") ==
        (if additional.Some? && "device_count" in Keys(additional.value) then Lookup(additional.value, "device_count")
         else Some(JInt(devices)))
      && (additional.Some? ==> forall k :: k in Keys(additional.value) ==> Lookup(r, k) == Lookup(additional.value, k))
      && "device_count" in Keys(r)
  {
    var base := ZoneBase(hazardType, location, zone, devices);
    var extra: Dict := if additional.Some? then additional.value else [];
    assert base[5].0 == "device_count";
    forall k | k in Keys(extra)
      ensures Lookup(Merge(base, extra), k) == Lookup(extra, k)
    {
      MergeLookup(base, extra, k);
    }
    MergeLookup(base, extra, "device_count");
  }

  /** The connection state before zone `i`: once a reconnect succeeds while enabled, it stays up. */
  function UpBefore(enabled: bool, up0: bool, io: nat -> ZoneIo, i: nat): bool
    decreases i
  {
    if i == 0 then up0 else UpBefore(enabled, up0, io, i - 1) || (enabled && io(i - 1).connectOk)
  }

  /** Zone `i`'s publish succeeds. */
  predicate Success(enabled: bool, up0: bool, io: nat -> ZoneIo, i: nat) {
    enabled && (UpBefore(enabled, up0, io, i) || io(i).connectOk) && io(i).delivered
  }

  /** Zone `i` succeeds and its log row is written. */
  predicate Logged(enabled: bool, up0: bool, io: nat -> ZoneIo, i: nat) {
    Success(enabled, up0, io, i) && io(i).logOk
  }

  /** The number of successful zones among the first `n`: what the loop counts. */
  function Successes(enabled: bool, up0: bool, io: nat -> ZoneIo, n: nat): (c: nat)
    ensures c <= n
    decreases n
  {
    if n == 0 then 0 else Successes(enabled, up0, io, n - 1) + (if Success(enabled, up0, io, n - 1) then 1 else 0)
  }

  function LogFor(detectionId: int, zone: Zone, io: ZoneIo): BroadcastLog {
    BroadcastLog(detectionId, zone.zoneId, GeofenceTopic(zone.zoneId), |OrEmpty(io.subscriptions)|)
  }

  function MessageFor(detectionId: int, hazardType: string, location: Location, additional: Option<Dict>,
                      zone: Zone, io: ZoneIo): Message
  {
    var body := ZonePayload(hazardType, location, zone, |OrEmpty(io.subscriptions)|, additional);
    Message(GeofenceTopic(zone.zoneId),
            JObj(GeofencePayload(zone.zoneId, detectionId, hazardType, location, io.timestamp, body)), GeofenceQos)
  }

  /** The log rows written for `zones`, in zone order: one per successful zone whose insert worked. */
  function BroadcastLogs(enabled: bool, up0: bool, detectionId: int, zones: seq<Zone>, io: nat -> ZoneIo): (r: seq<BroadcastLog>)
    ensures |r| <= |zones|
    decreases |zones|
  {
    if zones == [] then []
    else
      var n := |zones| - 1;
      BroadcastLogs(enabled, up0, detectionId, zones[..n], io)
      + (if Logged(enabled, up0, io, n) then [LogFor(detectionId, zones[n], io(n))] else [])
  }

  /** A zone is counted whether or not its log row was written, so there are never more rows
      than counted zones. */
  lemma {:induction false} LogsWithinSuccesses(enabled: bool, up0: bool, detectionId: int, zones: seq<Zone>, io: nat -> ZoneIo)
    ensures |BroadcastLogs(enabled, up0, detectionId, zones, io)| <= Successes(enabled, up0, io, |zones|)
    ensures (forall i :: 0 <= i < |zones| ==> io(i).logOk) ==>
      |BroadcastLogs(enabled, up0, detectionId, zones, io)| == Successes(enabled, up0, io, |zones|)
    decreases |zones|
  {
    if zones != [] {
      LogsWithinSuccesses(enabled, up0, detectionId, zones[..|zones| - 1], io);
    }
  }

  /** The messages delivered for `zones`, in zone order. */
  function BroadcastMessages(enabled: bool, up0: bool, detectionId: int, hazardType: string, location: Location,
                             additional: Option<Dict>, zones: seq<Zone>, io: nat -> ZoneIo): (r: seq<Message>)
    decreases |zones|
  {
    if zones == [] then []
    else
      var n := |zones| - 1;
      BroadcastMessages(enabled, up0, detectionId, hazardType, location, additional, zones[..n], io)
      + (if Success(enabled, up0, io, n) then [MessageFor(detectionId, hazardType, location, additional, zones[n], io(n))] else [])
  }

  /** Zone `i` of `zones` succeeded, its insert worked and `e` is its log row. */
  predicate LoggedAt(enabled: bool, up0: bool, detectionId: int, zones: seq<Zone>, io: nat -> ZoneIo, i: int, e: BroadcastLog) {
    0 <= i < |zones| && Logged(enabled, up0, io, i) && e == LogFor(detectionId, zones[i], io(i))
  }

  /** A log row is written exactly for each successful zone whose insert worked; failures in
      other zones do not prevent it. */
  lemma {:induction false} BroadcastLogsMembers(enabled: bool, up0: bool, detectionId: int, zones: seq<Zone>,
                                                io: nat -> ZoneIo, e: BroadcastLog)
    ensures e in BroadcastLogs(enabled, up0, detectionId, zones, io) <==>
      exists i :: LoggedAt(enabled, up0, detectionId, zones, io, i, e)
    decreases |zones|
  {
    if zones != [] {
      var n := |zones| - 1;
      var pre := zones[..n];
      var last := if Logged(enabled, up0, io, n) then [LogFor(detectionId, zones[n], io(n))] else [];
      assert BroadcastLogs(enabled, up0, detectionId, zones, io) == BroadcastLogs(enabled, up0, detectionId, pre, io) + last;
      BroadcastLogsMembers(enabled, up0, detectionId, pre, io, e);
      if e in BroadcastLogs(enabled, up0, detectionId, pre, io) {
        var i :| LoggedAt(enabled, up0, detectionId, pre, io, i, e);
        assert pre[i] == zones[i];
        assert LoggedAt(enabled, up0, detectionId, zones, io, i, e);
      } else if e in last {
        assert LoggedAt(enabled, up0, detectionId, zones, io, n, e);
      }
      if exists i :: LoggedAt(enabled, up0, detectionId, zones, io, i, e) {
        var i :| LoggedAt(enabled, up0, detectionId, zones, io, i, e);
        if i < n {
          assert pre[i] == zones[i];
          assert LoggedAt(enabled, up0, detectionId, pre, io, i, e);
        } else {
          assert e in last;
        }
      }
    }
  }

  /** Every log row names the zone's own topic and its number of subscribed devices. */
  lemma BroadcastLogTopics(enabled: bool, up0: bool, detectionId: int, zones: seq<Zone>, io: nat -> ZoneIo, e: BroadcastLog)
    requires e in BroadcastLogs(enabled, up0, detectionId, zones, io)
    ensures e.topic == GeofenceTopic(e.zoneId) && e.detectionId == detectionId
    ensures exists i :: 0 <= i < |zones| && zones[i].zoneId == e.zoneId && e.devicesNotified == |OrEmpty(io(i).subscriptions)|
  {
    BroadcastLogsMembers(enabled, up0, detectionId, zones, io, e);
  }

  /** The message body counts the zone's subscribed devices unless the caller supplies its own count. */
  lemma BroadcastDeviceCount(detectionId: int, hazardType: string, location: Location, additional: Option<Dict>,
                             zone: Zone, io: ZoneIo)
    ensures var m := MessageFor(detectionId, hazardType, location, additional, zone, io);
      m.payload.JObj? && Lookup(m.payload.fields, "device_count") ==
        (if additional.Some? && "device_count" in Keys(additional.value) then Lookup(additional.value, "device_count")
         else Some(JInt(|OrEmpty(io.subscriptions)|)))
  {
    var body := ZonePayload(hazardType, location, zone, |OrEmpty(io.subscriptions)|, additional);
    ZonePayloadOverrides(hazardType, location, zone, |OrEmpty(io.subscriptions)|, additional);
    GeofencePayloadOverrides(zone.zoneId, detectionId, hazardType, location, io.timestamp, body);
  }

  /** There is at most one row per (device, zone) pair. */
  predicate UniquePairs(subs: seq<Subscription>) {
    forall i, j :: 0 <= i < j < |subs| ==> subs[i].deviceId != subs[j].deviceId || subs[i].zoneId != subs[j].zoneId
  }

  /** The row for (device, zone), if any. */
  function FindPair(subs: seq<Subscription>, deviceId: string, zoneId: int): (r: Option<nat>)
    ensures r.Some? ==> r.value < |subs| && subs[r.value].deviceId == deviceId && subs[r.value].zoneId == zoneId
    ensures r.None? ==> forall i :: 0 <= i < |subs| ==> subs[i].deviceId != deviceId || subs[i].zoneId != zoneId
    decreases |subs|
  {
    if subs == [] then None
    else
      var n := |subs| - 1;
      if subs[n].deviceId == deviceId && subs[n].zoneId == zoneId then Some(n) else FindPair(subs[..n], deviceId, zoneId)
  }

  /** `hazard_types if hazard_types else []` */
  function HazardTypesOrEmpty(hazardTypes: Option<seq<string>>): seq<string> {
    if hazardTypes.Some? then hazardTypes.value else []
  }

  /** `subscribe_device`'s table change: update the existing pair (user left alone), else insert. */
  function Upsert(subs: seq<Subscription>, deviceId: string, zoneId: int, userId: Option<string>, subscriptionType: string,
                  hazardTypes: Option<seq<string>>, now: int): seq<Subscription>
  {
    match FindPair(subs, deviceId, zoneId)
    case Some(i) =>
      subs[i := subs[i].(subscriptionType := subscriptionType, hazardTypes := HazardTypesOrEmpty(hazardTypes),
                         active := true, lastSeen := now)]
    case None =>
      subs + [Subscription(deviceId, userId, zoneId, subscriptionType, HazardTypesOrEmpty(hazardTypes), true, now)]
  }

  /** After an upsert the pair has exactly one row, active with the new settings; an existing
      row keeps its user, and no other row changes. */
  lemma UpsertResult(subs: seq<Subscription>, deviceId: string, zoneId: int, userId: Option<string>, subscriptionType: string,
                     hazardTypes: Option<seq<string>>, now: int)
    requires UniquePairs(subs)
    ensures var r := Upsert(subs, deviceId, zoneId, userId, subscriptionType, hazardTypes, now);
      UniquePairs(r)
      && (exists i :: 0 <= i < |r| && r[i].deviceId == deviceId && r[i].zoneId == zoneId)
      && (forall i :: 0 <= i < |r| && r[i].deviceId == deviceId && r[i].zoneId == zoneId ==>
            r[i].active && r[i].subscriptionType == subscriptionType && r[i].hazardTypes == HazardTypesOrEmpty(hazardTypes)
            && r[i].lastSeen == now)
      && (forall i :: 0 <= i < |subs| && (subs[i].deviceId != deviceId || subs[i].zoneId != zoneId) ==> r[i] == subs[i])
  {
    var r := Upsert(subs, deviceId, zoneId, userId, subscriptionType, hazardTypes, now);
    match FindPair(subs, deviceId, zoneId)
    case Some(k) =>
      assert r[k].deviceId == deviceId && r[k].zoneId == zoneId;
    case None =>
      assert r[|subs|].deviceId == deviceId && r[|subs|].zoneId == zoneId;
  }

  /** An upsert adds a row only for a new pair, and then keeps the user it was given. */
  lemma UpsertSize(subs: seq<Subscription>, deviceId: string, zoneId: int, userId: Option<string>, subscriptionType: string,
                   hazardTypes: Option<seq<string>>, now: int)
    ensures var r := Upsert(subs, deviceId, zoneId, userId, subscriptionType, hazardTypes, now);
      (|r| == |subs| + 1 <==> forall i :: 0 <= i < |subs| ==> subs[i].deviceId != deviceId || subs[i].zoneId != zoneId)
      && (|r| == |subs| <==> exists i :: 0 <= i < |subs| && subs[i].deviceId == deviceId && subs[i].zoneId == zoneId)
      && (|r| == |subs| + 1 ==> r[|subs|].userId == userId)
      && (|r| == |subs| ==> forall i :: 0 <= i < |r| ==> r[i].userId == subs[i].userId)
  {
  }

  lemma ConcatAssoc<T>(a: seq<T>, b: seq<T>, c: seq<T>)
    ensures (a + b) + c == a + (b + c)
  {
  }

  /** Adding one zone adds its log row exactly when it succeeds and its insert works. */
  lemma LogsStep(enabled: bool, up0: bool, detectionId: int, zones: seq<Zone>, io: nat -> ZoneIo, i: nat)
    requires i < |zones|
    ensures BroadcastLogs(enabled, up0, detectionId, zones[..i + 1], io) == BroadcastLogs(enabled, up0, detectionId, zones[..i], io)
      + (if Logged(enabled, up0, io, i) then [LogFor(detectionId, zones[i], io(i))] else [])
  {
    assert zones[..i + 1][..i] == zones[..i] && zones[..i + 1][i] == zones[i];
  }

  /** Adding one zone adds its message exactly when it succeeds. */
  lemma MessagesStep(enabled: bool, up0: bool, detectionId: int, hazardType: string, location: Location,
                     additional: Option<Dict>, zones: seq<Zone>, io: nat -> ZoneIo, i: nat)
    requires i < |zones|
    ensures BroadcastMessages(enabled, up0, detectionId, hazardType, location, additional, zones[..i + 1], io)
      == BroadcastMessages(enabled, up0, detectionId, hazardType, location, additional, zones[..i], io)
      + (if Success(enabled, up0, io, i) then [MessageFor(detectionId, hazardType, location, additional, zones[i], io(i))] else [])
  {
    assert zones[..i + 1][..i] == zones[..i] && zones[..i + 1][i] == zones[i];
  }

  class GeofenceService {
    var broadcasts: seq<BroadcastLog>
    var subscriptions: seq<Subscription>

    predicate Valid()
      reads this
    {
      UniquePairs(subscriptions)
    }

    constructor()
      ensures Valid() && broadcasts == [] && subscriptions == []
    {
      broadcasts := [];
      subscriptions := [];
    }

    /** One zone of the loop: look up its devices, publish, and log on success unless the
        insert fails; the zone counts as a success either way. */
    method BroadcastToZone(detectionId: int, hazardType: string, location: Location, additional: Option<Dict>,
                           zone: Zone, io: ZoneIo, mqtt: MqttClient) returns (success: bool)
      modifies this, mqtt
      ensures success == (mqtt.enabled && (old(mqtt.Up()) || io.connectOk) && io.delivered)
      ensures broadcasts == old(broadcasts) + (if success && io.logOk then [LogFor(detectionId, zone, io)] else [])
      ensures mqtt.published == old(mqtt.published)
        + (if success then [MessageFor(detectionId, hazardType, location, additional, zone, io)] else [])
      ensures mqtt.Up() == (old(mqtt.Up()) || (mqtt.enabled && io.connectOk))
      ensures subscriptions == old(subscriptions) && mqtt.log == old(mqtt.log)
    {
      var devices := OrEmpty(io.subscriptions);
      var body := ZonePayload(hazardType, location, zone, |devices|, additional);
      success := mqtt.PublishGeofenceBroadcast(zone.zoneId, detectionId, hazardType, location, body, io.timestamp,
                                               io.connectOk, io.delivered);
      if success && io.logOk {
        broadcasts := broadcasts + [LogFor(detectionId, zone, io)];
      }
    }

    /** Zone `i` of the loop, in terms of what the zones before it produced. */
    method ZoneStep(detectionId: int, hazardType: string, loc: Location, additional: Option<Dict>,
                    zones: seq<Zone>, io: nat -> ZoneIo, i: nat, mqtt: MqttClient,
                    ghost up0: bool, ghost logs0: seq<BroadcastLog>, ghost sent0: seq<Message>)
        returns (success: bool)
      requires i < |zones|
      requires mqtt.Up() == UpBefore(mqtt.enabled, up0, io, i)
      requires broadcasts == logs0 + BroadcastLogs(mqtt.enabled, up0, detectionId, zones[..i], io)
      requires mqtt.published == sent0 + BroadcastMessages(mqtt.enabled, up0, detectionId, hazardType, loc, additional, zones[..i], io)
      modifies this, mqtt
      ensures mqtt.Up() == UpBefore(mqtt.enabled, up0, io, i + 1)
      ensures broadcasts == logs0 + BroadcastLogs(mqtt.enabled, up0, detectionId, zones[..i + 1], io)
      ensures mqtt.published == sent0 + BroadcastMessages(mqtt.enabled, up0, detectionId, hazardType, loc, additional, zones[..i + 1], io)
      ensures success == Success(mqtt.enabled, up0, io, i)
      ensures subscriptions == old(subscriptions) && mqtt.log == old(mqtt.log)
    {
      ghost var sent := BroadcastMessages(mqtt.enabled, up0, detectionId, hazardType, loc, additional, zones[..i], io);
      success := BroadcastToZone(detectionId, hazardType, loc, additional, zones[i], io(i), mqtt);
      LogsStep(mqtt.enabled, up0, detectionId, zones, io, i);
      MessagesStep(mqtt.enabled, up0, detectionId, hazardType, loc, additional, zones, io, i);
      ConcatAssoc(sent0, sent, if success then [MessageFor(detectionId, hazardType, loc, additional, zones[i], io(i))] else []);
    }

    /** The loop over the zones found. */
    method BroadcastZones(detectionId: int, hazardType: string, loc: Location, additional: Option<Dict>,
                          zones: seq<Zone>, io: nat -> ZoneIo, mqtt: MqttClient) returns (count: nat)
      modifies this, mqtt
      ensures broadcasts == old(broadcasts) + BroadcastLogs(mqtt.enabled, old(mqtt.Up()), detectionId, zones, io)
      ensures count == Successes(mqtt.enabled, old(mqtt.Up()), io, |zones|) && count <= |zones|
      ensures mqtt.published == old(mqtt.published)
        + BroadcastMessages(mqtt.enabled, old(mqtt.Up()), detectionId, hazardType, loc, additional, zones, io)
      ensures subscriptions == old(subscriptions) && mqtt.log == old(mqtt.log)
    {
      ghost var up0 := mqtt.Up();
      ghost var logs0 := broadcasts;
      ghost var sent0 := mqtt.published;
      count := 0;
      var i := 0;
      while i < |zones|
        invariant 0 <= i <= |zones|
        invariant broadcasts == logs0 + BroadcastLogs(mqtt.enabled, up0, detectionId, zones[..i], io)
        invariant count == Successes(mqtt.enabled, up0, io, i)
        invariant mqtt.published == sent0 + BroadcastMessages(mqtt.enabled, up0, detectionId, hazardType, loc, additional, zones[..i], io)
        invariant mqtt.Up() == UpBefore(mqtt.enabled, up0, io, i)
        invariant subscriptions == old(subscriptions) && mqtt.log == old(mqtt.log)
      {
        var success := ZoneStep(detectionId, hazardType, loc, additional, zones, io, i, mqtt, up0, logs0, sent0);
        if success {
          count := count + 1;
        }
        i := i + 1;
      }
      assert zones[..i] == zones;
    }

    /** `broadcast_to_geofence`: publishes to every zone containing the location and returns
        how many publishes succeeded; no usable location, a failed lookup or no zones give 0. */
    method BroadcastToGeofence(detectionId: int, hazardType: string, location: Option<Location>, additional: Option<Dict>,
                               found: Fallible<seq<Zone>>, io: nat -> ZoneIo, mqtt: MqttClient)
        returns (count: nat)
      modifies this, mqtt
      ensures broadcasts == old(broadcasts)
        + BroadcastLogs(mqtt.enabled, old(mqtt.Up()), detectionId, ZonesReached(location, found), io)
      ensures count == Successes(mqtt.enabled, old(mqtt.Up()), io, |ZonesReached(location, found)|)
      ensures count <= |ZonesReached(location, found)|
      ensures mqtt.published == old(mqtt.published) + BroadcastMessages(mqtt.enabled, old(mqtt.Up()), detectionId, hazardType,
                                                                        LocationOf(location), additional, ZonesReached(location, found), io)
      ensures ZonesReached(location, found) == [] ==>
        count == 0 && broadcasts == old(broadcasts) && mqtt.published == old(mqtt.published)
      ensures subscriptions == old(subscriptions) && mqtt.log == old(mqtt.log)
    {
      var zones := ZonesReached(location, found);
      if zones == [] {
        return 0;
      }
      count := BroadcastZones(detectionId, hazardType, LocationOf(location), additional, zones, io, mqtt);
    }

    /** `subscribe_device`: false, with no change, when the database fails. */
    method SubscribeDevice(deviceId: string, zoneId: int, userId: Option<string>, subscriptionType: string,
                           hazardTypes: Option<seq<string>>, now: int, dbOk: bool) returns (ok: bool)
      requires Valid()
      modifies this
      ensures Valid() && ok == dbOk && broadcasts == old(broadcasts)
      ensures subscriptions == if dbOk then Upsert(old(subscriptions), deviceId, zoneId, userId, subscriptionType, hazardTypes, now)
                               else old(subscriptions)
    {
      if !dbOk {
        return false;
      }
      UpsertResult(subscriptions, deviceId, zoneId, userId, subscriptionType, hazardTypes, now);
      subscriptions := Upsert(subscriptions, deviceId, zoneId, userId, subscriptionType, hazardTypes, now);
      ok := true;
    }
  }
}
