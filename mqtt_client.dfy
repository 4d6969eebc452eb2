/** The MQTT publisher (`MQTTClient`): connection flags, the TLS choice, the detection and
    geofence topics and payloads, and what each publish returns and records.

    The broker is modelled by the messages it accepted (`published`); the publish log table
    by `log`. Whether connecting succeeds and what a publish does are inputs. Timestamps
    arrive already formatted (`isoformat` is outside the model). */
module Mqtt {
  import opened Common
  import opened Payload
  import HazardHash

  const DetectionsPrefix: string := "hazard-eye/detections/"
  const GeofencePrefix: string := "hazard-eye/geofence/"
  const GeofenceSuffix: string := "/hazards"
  const Source: string := "hazard-eye-backend"
  /** Detections are published at QoS 1, geofence broadcasts at QoS 2. */
  const DetectionQos: nat := 1
  const GeofenceQos: nat := 2
  /** Topic coordinates are rounded to six decimals. */
  const TopicPrecision: int := 6

  /** TLS is used on the secure ports. */
  predicate UsesTls(port: int) {
    port == 8883 || port == 8884
  }

  datatype Message = Message(topic: string, payload: Json, qos: nat)

  /** A row of `mqtt_publish_log` (its time column is left out). */
  datatype PublishLog = PublishLog(detectionId: int, topic: Option<string>, payload: Option<Json>, qos: nat,
                                   status: string, error: Option<string>)

  /** The QoS recorded in every log row, whatever the message used. */
  const LogQos: nat := 1

  /** `_log_publish_attempt`: the row carries `{"detection_id": id}` only for a non-zero id. */
  function LogRow(detectionId: int, topic: Option<string>, status: string, error: Option<string>): (r: PublishLog)
    ensures r.detectionId == detectionId && r.topic == topic && r.status == status && r.error == error
    ensures r.qos == LogQos
    ensures r.payload.Some? <==> detectionId != 0
    ensures r.payload.Some? ==> r.payload.value.JObj? && Lookup(r.payload.value.fields, "detection_id") == Some(JInt(detectionId))
  {
    var payload := if detectionId != 0 then Some(JObj([("detection_id", JInt(detectionId))])) else None;
    PublishLog(detectionId, topic, payload, LogQos, status, error)
  }

  /** What `client.publish` does: delivers, raises `MqttError`, or raises something else. */
  datatype PublishOutcome = Delivered | MqttFailure(msg: string) | OtherFailure(msg: string)

  /** `location and 'lat' in location and 'lng' in location` */
  predicate HasCoords(location: Option<Location>) {
    location.Some? && "lat" in location.value && "lng" in location.value
  }

  /** `hazard-eye/detections/{type}/{lat}/{lng}` with six-decimal coordinates, else `.../{type}/unknown`. */
  function DetectionTopic(hazardType: string, location: Option<Location>): (t: string)
    ensures StartsWith(t, DetectionsPrefix + hazardType + "/")
  {
    if HasCoords(location) then
      DetectionsPrefix + hazardType + "/" + CoordText(HazardHash.RoundCoord(location.value["lat"], TopicPrecision))
      + "/" + CoordText(HazardHash.RoundCoord(location.value["lng"], TopicPrecision))
    else DetectionsPrefix + hazardType + "/unknown"
  }

  /** A located topic is never the `unknown` one: its last part after the type holds a `/`. */
  lemma DetectionTopicUnknownIff(hazardType: string, location: Option<Location>)
    ensures DetectionTopic(hazardType, location) == DetectionsPrefix + hazardType + "/unknown" <==> !HasCoords(location)
  {
    if HasCoords(location) {
      var head := DetectionsPrefix + hazardType + "/";
      var lat := CoordText(HazardHash.RoundCoord(location.value["lat"], TopicPrecision));
      var lng := CoordText(HazardHash.RoundCoord(location.value["lng"], TopicPrecision));
      var t := DetectionTopic(hazardType, location);
      assert t == head + lat + "/" + lng;
      assert t[|head| + |lat|] == '/';
      assert t != head + "unknown" by {
        if |t| == |head| + 7 {
          var u := head + "unknown";
          assert u[|head| + |lat|] == "unknown"[|lat|];
        }
      }
    }
  }

  /** `hazard-eye/geofence/{zone_id}/hazards` */
  function GeofenceTopic(zoneId: int): (t: string)
    ensures StartsWith(t, GeofencePrefix)
  {
    GeofencePrefix + IntToString(zoneId) + GeofenceSuffix
  }

  /** Different zones publish on different topics. */
  lemma GeofenceTopicInjective(z1: int, z2: int)
    ensures GeofenceTopic(z1) == GeofenceTopic(z2) <==> z1 == z2
  {
    if GeofenceTopic(z1) == GeofenceTopic(z2) {
      var t1 := GeofenceTopic(z1);
      var t2 := GeofenceTopic(z2);
      assert |IntToString(z1)| == |IntToString(z2)|;
      assert IntToString(z1) == t1[|GeofencePrefix|..|t1| - |GeofenceSuffix|];
      assert IntToString(z2) == t2[|GeofencePrefix|..|t2| - |GeofenceSuffix|];
      IntToStringInjective(z1, z2);
    }
  }

  function LocationJson(location: Option<Location>): Json {
    if location.Some? then JLoc(location.value) else JNull
  }

  /** The detection message body. */
  function DetectionPayload(detectionId: int, hazardType: string, location: Option<Location>, confidence: real,
                            timestamp: string): Dict
  {
    [("detection_id", JInt(detectionId)), ("hazard_type", JStr(hazardType)), ("location", LocationJson(location)),
     ("confidence", JReal(confidence)), ("timestamp", JStr(timestamp)), ("source", JStr(Source))]
  }

  /** The fixed part of a geofence broadcast body. */
  function GeofenceBase(zoneId: int, detectionId: int, hazardType: string, location: Location, timestamp: string): Dict {
    [("detection_id", JInt(detectionId)), ("hazard_type", JStr(hazardType)), ("location", JLoc(location)),
     ("zone_id", JInt(zoneId)), ("timestamp", JStr(timestamp))]
  }

  /** `{**base, **payload_data}` */
  function GeofencePayload(zoneId: int, detectionId: int, hazardType: string, location: Location, timestamp: string,
                           payloadData: Dict): Dict
  {
    Merge(GeofenceBase(zoneId, detectionId, hazardType, location, timestamp), payloadData)
  }

  /** The caller's keys override the fixed ones, which otherwise name the zone and the detection. */
  lemma GeofencePayloadOverrides(zoneId: int, detectionId: int, hazardType: string, location: Location, timestamp: string,
                                 payloadData: Dict)
    ensures var r := GeofencePayload(zoneId, detectionId, hazardType, location, timestamp, payloadData);
      (forall k :: k in Keys(payloadData) ==> Lookup(r, k) == Lookup(payloadData, k))
      && Lookup(r, "zone_id") == (if "zone_id" in Keys(payloadData) then Lookup(payloadData, "zone_id") else Some(JInt(zoneId)))
      && Lookup(r, "detection_id") ==
           (if "detection_id" in Keys(payloadData) then Lookup(payloadData, "detection_id") else Some(JInt(detectionId)))
  {
    var base := GeofenceBase(zoneId, detectionId, hazardType, location, timestamp);
    assert base[3].0 == "zone_id" && base[0].0 == "detection_id";
    forall k | k in Keys(payloadData)
      ensures Lookup(Merge(base, payloadData), k) == Lookup(payloadData, k)
    {
      MergeLookup(base, payloadData, k);
    }
    MergeLookup(base, payloadData, "zone_id");
    MergeLookup(base, payloadData, "detection_id");
  }

  class MqttClient {
    /** `MQTT_ENABLED` */
    const enabled: bool
    /** `MQTT_BROKER_PORT` */
    const port: int
    var connected: bool
    /** `_client is not None` */
    var hasClient: bool
    /** The client last created was given a TLS context. */
    var tls: bool
    var published: seq<Message>
    var log: seq<PublishLog>

    constructor(enabled: bool, port: int)
      ensures this.enabled == enabled && this.port == port
      ensures !connected && !hasClient && !tls && published == [] && log == []
    {
      this.enabled := enabled;
      this.port := port;
      connected := false;
      hasClient := false;
      tls := false;
      published := [];
      log := [];
    }

    /** The link is up: connected with a client. */
    predicate Up()
      reads this
    {
      connected && hasClient
    }

    /** `is_connected` */
    predicate IsConnected()
      reads this
    {
      connected && enabled
    }

    /** `connect`: nothing when disabled or already up; otherwise a new client, with TLS on
        the secure ports, and the flags say whether it connected. Never raises. */
    method Connect(ok: bool)
      modifies this
      ensures published == old(published) && log == old(log)
      ensures !enabled || old(Up()) ==> connected == old(connected) && hasClient == old(hasClient) && tls == old(tls)
      ensures enabled && !old(Up()) ==> tls == UsesTls(port) && connected == ok && hasClient == ok
    {
      if !enabled {
        return;
      }
      if connected && hasClient {
        return;
      }
      tls := UsesTls(port);
      connected := ok;
      hasClient := ok;
    }

    /** `disconnect`: the client is always dropped; the flag clears only when leaving succeeds. */
    method Disconnect(exitOk: bool)
      modifies this
      ensures published == old(published) && log == old(log) && tls == old(tls)
      ensures old(Up()) ==> !hasClient && connected == !exitOk
      ensures !old(Up()) ==> connected == old(connected) && hasClient == old(hasClient)
    {
      if hasClient && connected {
        if exitOk {
          connected := false;
        }
        hasClient := false;
      }
    }

    /** `ensure_connected`: false when disabled; otherwise reconnects when down and says whether connected. */
    method EnsureConnected(ok: bool) returns (up: bool)
      modifies this
      ensures published == old(published) && log == old(log)
      ensures !enabled ==> !up && connected == old(connected) && hasClient == old(hasClient)
      ensures enabled ==> up == connected
      ensures enabled && old(Up()) ==> up && Up() && tls == old(tls)
      ensures enabled && !old(Up()) ==> up == ok && hasClient == ok && tls == UsesTls(port)
    {
      if !enabled {
        return false;
      }
      if !connected || !hasClient {
        Connect(ok);
      }
      up := connected;
    }

    /** `publish_detection` */
    method PublishDetection(detectionId: int, hazardType: string, location: Option<Location>, confidence: real,
                            timestamp: string, qos: nat, connectOk: bool, outcome: PublishOutcome)
        returns (ok: bool)
      modifies this
      ensures ok <==> enabled && (old(Up()) || connectOk) && outcome.Delivered?
      // disabled: nothing happens
      ensures !enabled ==> connected == old(connected) && hasClient == old(hasClient)
                           && published == old(published) && log == old(log)
      // not connected: one failed attempt logged
      ensures enabled && !(old(Up()) || connectOk) ==>
        published == old(published) && log == old(log) + [LogRow(detectionId, None, "failed", Some("Not connected"))]
      // connected: the message goes to the detection topic, and the attempt is logged with it
      ensures enabled && (old(Up()) || connectOk) && outcome.Delivered? ==>
        published == old(published) + [Message(DetectionTopic(hazardType, location),
                                               JObj(DetectionPayload(detectionId, hazardType, location, confidence, timestamp)), qos)]
        && log == old(log) + [LogRow(detectionId, Some(DetectionTopic(hazardType, location)), "published", None)]
        && connected
      ensures enabled && (old(Up()) || connectOk) && !outcome.Delivered? ==>
        published == old(published)
        && log == old(log) + [LogRow(detectionId, Some(DetectionTopic(hazardType, location)), "failed", Some(outcome.msg))]
        && (connected <==> outcome.OtherFailure?)
    {
      if !enabled {
        return false;
      }
      var up := EnsureConnected(connectOk);
      if !up {
        log := log + [LogRow(detectionId, None, "failed", Some("Not connected"))];
        return false;
      }
      var topic := DetectionTopic(hazardType, location);
      var payload := DetectionPayload(detectionId, hazardType, location, confidence, timestamp);
      match outcome {
        case Delivered =>
          published := published + [Message(topic, JObj(payload), qos)];
          log := log + [LogRow(detectionId, Some(topic), "published", None)];
          ok := true;
        case MqttFailure(msg) =>
          log := log + [LogRow(detectionId, Some(topic), "failed", Some(msg))];
          connected := false;
          ok := false;
        case OtherFailure(msg) =>
          log := log + [LogRow(detectionId, Some(topic), "failed", Some(msg))];
          ok := false;
      }
    }

    /** `publish_geofence_broadcast`: a failure of any kind returns false and is not logged here. */
    method PublishGeofenceBroadcast(zoneId: int, detectionId: int, hazardType: string, location: Location,
                                    payloadData: Dict, timestamp: string, connectOk: bool, delivered: bool)
        returns (ok: bool)
      modifies this
      ensures ok <==> enabled && (old(Up()) || connectOk) && delivered
      ensures log == old(log)
      ensures published == if ok then old(published) + [Message(GeofenceTopic(zoneId),
        JObj(GeofencePayload(zoneId, detectionId, hazardType, location, timestamp, payloadData)), GeofenceQos)]
        else old(published)
      ensures !enabled ==> connected == old(connected) && hasClient == old(hasClient)
      ensures enabled ==> (Up() <==> old(Up()) || connectOk)
    {
      if !enabled {
        return false;
      }
      var up := EnsureConnected(connectOk);
      if !up {
        return false;
      }
      if !delivered {
        return false;
      }
      var payload := GeofencePayload(zoneId, detectionId, hazardType, location, timestamp, payloadData);
      published := published + [Message(GeofenceTopic(zoneId), JObj(payload), GeofenceQos)];
      ok := true;
    }
  }
}
