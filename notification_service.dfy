/** The report endpoint `send_hazard_notification`: type gate, cache check, nearby-report
    check, key store, map link, insert.

    Collaborators are the cache client and the database client of this model; the nearby
    search's answer is an input (PostGIS is outside the model), as is the current instant
    `clock` in seconds. An exception anywhere becomes `ServerError` (the HTTP 500 answer). */
module Notification {
  import opened Common
  import HazardHash
  import RedisCache
  import NeonDb

  /** The duplicate window of this endpoint, in minutes. */
  const WindowMinutes: int := 5
  /** The cache TTL of a reported key, in seconds. */
  const ReportTtl: int := 1800
  /** A nearby report younger than this many days suppresses a new one. */
  const RecentDays: int := 7
  const SecondsPerDay: int := 86400
  /** The precision `generate_time_bounded_hash` uses by default. */
  const KeyPrecision: int := 4

  /** The timestamp of a nearby report as the driver hands it over: a string with the
      instant `fromisoformat` reads from it (None when it raises), a datetime, or anything else. */
  datatype NearbyTime = IsoText(parsed: Option<int>) | Moment(at: int) | Other

  datatype Outcome =
    | NotPothole
    | Duplicate
    | RecentReport
    | Reported(reportId: string)
    | ServerError

  /** `(now - then).days`: whole days, rounded down. */
  function DaysBetween(now: int, past: int): int {
    FloorDiv(now - past, SecondsPerDay)
  }

  /** What the scan of the nearby reports finds. */
  datatype Scan = Clear | Recent | Unparsable

  /** The `for hazard in nearby_hazards` loop: the first entry that is a recent report or a
      string that does not parse decides; other entries and old reports are passed over. */
  function ScanNearby(ts: seq<NearbyTime>, clock: int): Scan
    decreases |ts|
  {
    if ts == [] then Clear
    else match ts[0]
      case Other => ScanNearby(ts[1..], clock)
      case IsoText(p) =>
        if p.None? then Unparsable
        else if DaysBetween(clock, p.value) < RecentDays then Recent
        else ScanNearby(ts[1..], clock)
      case Moment(t) =>
        if DaysBetween(clock, t) < RecentDays then Recent else ScanNearby(ts[1..], clock)
  }

  /** The instant an entry carries, if it carries one. */
  function Instant(x: NearbyTime): Option<int> {
    match x
    case IsoText(p) => p
    case Moment(t) => Some(t)
    case Other => None
  }

  /** A nearby entry that rejects the notification on its own. */
  predicate IsRecent(x: NearbyTime, clock: int) {
    !x.Other? && Instant(x).Some? && DaysBetween(clock, Instant(x).value) < RecentDays
  }

  /** The scan is clear exactly when every entry is skipped: no recent report, no bad string. */
  lemma {:induction false} ScanClearIff(ts: seq<NearbyTime>, clock: int)
    ensures ScanNearby(ts, clock) == Clear
        <==> forall i :: 0 <= i < |ts| ==> ts[i].Other? || (Instant(ts[i]).Some? && !IsRecent(ts[i], clock))
    decreases |ts|
  {
    if ts != [] {
      ScanClearIff(ts[1..], clock);
      assert forall i :: 1 <= i < |ts| ==> ts[i] == ts[1..][i - 1];
    }
  }

  /** The scan finds a recent report exactly when one comes before any unparsable string. */
  lemma {:induction false} ScanRecentIff(ts: seq<NearbyTime>, clock: int)
    ensures ScanNearby(ts, clock) == Recent
        <==> exists k :: 0 <= k < |ts| && IsRecent(ts[k], clock)
                         && forall i :: 0 <= i < k ==> Instant(ts[i]).Some? || ts[i].Other?
    decreases |ts|
  {
    if ts != [] {
      ScanRecentIff(ts[1..], clock);
      var t := ts[1..];
      if ScanNearby(ts, clock) == Recent {
        if !IsRecent(ts[0], clock) {
          var k :| 0 <= k < |t| && IsRecent(t[k], clock) && forall i :: 0 <= i < k ==> Instant(t[i]).Some? || t[i].Other?;
          assert IsRecent(ts[k + 1], clock);
          assert forall i :: 0 <= i < k + 1 ==> Instant(ts[i]).Some? || ts[i].Other? by {
            forall i | 0 <= i < k + 1
              ensures Instant(ts[i]).Some? || ts[i].Other?
            {
              if i > 0 { assert ts[i] == t[i - 1]; }
            }
          }
        }
      }
    }
  }

  /** The nearby loop as the endpoint runs it. */
  method ScanLoop(ts: seq<NearbyTime>, clock: int) returns (r: Scan)
    ensures r == ScanNearby(ts, clock)
  {
    var i := 0;
    while i < |ts|
      invariant 0 <= i <= |ts|
      invariant ScanNearby(ts[i..], clock) == ScanNearby(ts, clock)
    {
      assert ts[i..][1..] == ts[i + 1..];
      var x := ts[i];
      if x.Other? {
        i := i + 1;
        continue;
      }
      if x.IsoText? && x.parsed.None? {
        return Unparsable;
      }
      var t := if x.IsoText? then x.parsed.value else x.at;
      if DaysBetween(clock, t) < RecentDays {
        return Recent;
      }
      i := i + 1;
    }
    assert ts[i..] == [];
    r := Clear;
  }

  // ---------------------------------------------------------------------------
  // The map link

  const MapsPrefix: string := "https://www.google.com/maps/search/?api=1&query="

  /** The Google Maps link of the (possibly repaired) pair. */
  function MapLink(lat: Coord, lng: Coord): (link: string)
    ensures StartsWith(link, MapsPrefix)
  {
    var p := NeonDb.SwapIfTransposed(lat, lng);
    MapsPrefix + CoordText(p.0) + "," + CoordText(p.1)
  }

  /** A valid pair is linked as given, a transposed valid pair is linked swapped back, and
      any other pair is linked as given. */
  lemma MapLinkRepairs(lat: Coord, lng: Coord)
    ensures NeonDb.InRange(lat, lng) ==> MapLink(lat, lng) == MapsPrefix + CoordText(lat) + "," + CoordText(lng)
    ensures !NeonDb.InRange(lat, lng) && NeonDb.InRange(lng, lat) ==>
      MapLink(lat, lng) == MapsPrefix + CoordText(lng) + "," + CoordText(lat)
    ensures !NeonDb.InRange(lat, lng) && !NeonDb.InRange(lng, lat) ==>
      MapLink(lat, lng) == MapsPrefix + CoordText(lat) + "," + CoordText(lng)
  {
  }

  /** The duplicate key of a notification: a five-minute windowed hash at four decimals. */
  function NotificationKey(location: Location, kind: string, timestamp: HazardHash.DateTime,
                           now: HazardHash.DateTime): (key: string)
    ensures HazardHash.TimeBoundedKey(location, kind, HazardHash.At(timestamp), WindowMinutes, KeyPrecision, now) == Some(key)
  {
    HazardHash.TimeBoundedKey(location, kind, HazardHash.At(timestamp), WindowMinutes, KeyPrecision, now).value
  }

  // ---------------------------------------------------------------------------
  // The endpoint

  /** `send_hazard_notification`. `reportTime` is `timestamp` as an instant in seconds;
      `createOk` says whether a database pool can be created if one is needed. The nearby
      search connects first when there is no pool, and `nearby` is what its query returns. */
  method SendHazardNotification(location: Location, timestamp: HazardHash.DateTime, reportTime: int, kind: string,
                                now: HazardHash.DateTime, clock: int, nearby: Fallible<seq<NearbyTime>>,
                                cache: RedisCache.RedisClient, net: RedisCache.Net,
                                db: NeonDb.NeonDb, createOk: bool)
      returns (out: Outcome)
    requires cache.Valid() && db.Valid()
    modifies cache, db
    ensures cache.Valid() && db.Valid()
    // the type gate comes before any cache or database access
    ensures Lower(kind) != "pothole" <==> out == NotPothole
    ensures out == NotPothole ==> cache.attempted == old(cache.attempted) && cache.entries == old(cache.entries)
                                  && db.pool == old(db.pool) && db.reports == old(db.reports)
    // a cached key means a duplicate, and nothing is stored
    ensures Lower(kind) == "pothole" ==>
      (out == Duplicate <==> cache.Serving(net)
                             && RedisCache.Live(old(cache.entries), NotificationKey(location, kind, timestamp, now), clock))
    ensures out == Duplicate ==> cache.entries == old(cache.entries) && db.reports == old(db.reports)
    // a recent nearby report, or a failed search, rejects
    ensures out == RecentReport <==>
      Lower(kind) == "pothole"
      && !(cache.Serving(net) && RedisCache.Live(old(cache.entries), NotificationKey(location, kind, timestamp, now), clock))
      && (old(db.pool) || (old(db.url) != [] && createOk))
      && nearby.Ok? && ScanNearby(nearby.value, clock) == Recent
    ensures out == RecentReport ==> cache.entries == old(cache.entries) && db.reports == old(db.reports)
    // an accepted report: key stored, then one row inserted with the original location
    ensures out.Reported? ==>
      nearby.Ok? && ScanNearby(nearby.value, clock) == Clear
      && "lat" in location && "lng" in location
      && out.reportId == IntToString(old(db.nextId))
      && cache.entries == (if cache.Serving(net) then old(cache.entries)[NotificationKey(location, kind, timestamp, now) := clock + ReportTtl]
                           else old(cache.entries))
      && db.reports == old(db.reports) + [NeonDb.Report(old(db.nextId), Some(location["lat"]), Some(location["lng"]), kind,
                                                         reportTime, MapLink(location["lat"], location["lng"]),
                                                         NotificationKey(location, kind, timestamp, now), "reported")]
    ensures !out.Reported? ==> db.reports == old(db.reports)
    // a pothole that passes both checks is reported whenever it has both coordinates and a pool
    ensures out.Reported? <==>
      Lower(kind) == "pothole"
      && !(cache.Serving(net) && RedisCache.Live(old(cache.entries), NotificationKey(location, kind, timestamp, now), clock))
      && nearby.Ok? && ScanNearby(nearby.value, clock) == Clear
      && "lat" in location && "lng" in location
      && (old(db.pool) || (old(db.url) != [] && createOk))
    // the database: the search's connect, then at most one new id
    ensures db.url == old(db.url) && db.detections == old(db.detections)
    ensures db.pool == (if out == NotPothole || out == Duplicate then old(db.pool)
                        else old(db.pool) || (old(db.url) != [] && createOk))
    ensures db.nextId == (if out.Reported? then old(db.nextId) + 1 else old(db.nextId))
    // an error stores the key only once both checks have passed
    ensures out == ServerError ==>
      cache.entries == (if (old(db.pool) || (old(db.url) != [] && createOk))
                           && nearby.Ok? && ScanNearby(nearby.value, clock) == Clear && cache.Serving(net)
                        then old(cache.entries)[NotificationKey(location, kind, timestamp, now) := clock + ReportTtl]
                        else old(cache.entries))
  {
    if Lower(kind) != "pothole" {
      return NotPothole;
    }
    var key := NotificationKey(location, kind, timestamp, now);
    var dup := cache.CheckDuplicate(key, clock, net);
    if dup {
      return Duplicate;
    }
    out := SearchAndStore(location, kind, reportTime, key, clock, nearby, cache, net, db, createOk);
  }

  /** What follows the duplicate check: the nearby search connects when there is no pool and
      rejects a recent report; a failed connect, a failed query or an unparsable timestamp is
      an error; otherwise the key is stored and the report inserted. */
  method SearchAndStore(location: Location, kind: string, reportTime: int, key: string, clock: int,
                        nearby: Fallible<seq<NearbyTime>>, cache: RedisCache.RedisClient, net: RedisCache.Net,
                        db: NeonDb.NeonDb, createOk: bool)
      returns (out: Outcome)
    requires cache.Valid() && db.Valid()
    modifies cache, db
    ensures cache.Valid() && db.Valid()
    ensures out.Reported? || out == RecentReport || out == ServerError
    ensures out == RecentReport <==>
      (old(db.pool) || (old(db.url) != [] && createOk)) && nearby.Ok? && ScanNearby(nearby.value, clock) == Recent
    ensures out.Reported? <==>
      (old(db.pool) || (old(db.url) != [] && createOk)) && nearby.Ok? && ScanNearby(nearby.value, clock) == Clear
      && "lat" in location && "lng" in location
    ensures out.Reported? ==>
      out.reportId == IntToString(old(db.nextId))
      && db.reports == old(db.reports) + [NeonDb.Report(old(db.nextId), Some(location["lat"]), Some(location["lng"]), kind,
                                                         reportTime, MapLink(location["lat"], location["lng"]),
                                                         key, "reported")]
    ensures !out.Reported? ==> db.reports == old(db.reports)
    ensures cache.entries ==
      (if (old(db.pool) || (old(db.url) != [] && createOk)) && nearby.Ok? && ScanNearby(nearby.value, clock) == Clear
          && cache.Serving(net)
       then old(cache.entries)[key := clock + ReportTtl] else old(cache.entries))
    ensures db.url == old(db.url) && db.detections == old(db.detections)
    ensures db.pool == (old(db.pool) || (old(db.url) != [] && createOk))
    ensures db.nextId == (if out.Reported? then old(db.nextId) + 1 else old(db.nextId))
    // the connection opened by the duplicate check is kept
    ensures old(cache.attempted) ==> cache.attempted && cache.connected == old(cache.connected)
  {
    var up := db.EnsurePool(createOk);
    if !up {
      return ServerError;
    }
    if nearby.Fails? {
      return ServerError;
    }
    var scan := ScanLoop(nearby.value, clock);
    if scan == Recent {
      return RecentReport;
    }
    if scan == Unparsable {
      return ServerError;
    }
    out := StoreAndInsert(location, kind, reportTime, key, clock, cache, net, db, createOk);
  }

  /** The accepted path of `send_hazard_notification`: the key is stored for 30 minutes, then
      the row is inserted with its map link; a missing coordinate or a database failure is an error. */
  method StoreAndInsert(location: Location, kind: string, reportTime: int, key: string, clock: int,
                        cache: RedisCache.RedisClient, net: RedisCache.Net, db: NeonDb.NeonDb, createOk: bool)
      returns (out: Outcome)
    requires cache.Valid() && db.Valid()
    modifies cache, db
    ensures cache.Valid() && db.Valid()
    ensures out.Reported? || out == ServerError
    ensures cache.attempted && cache.connected == (if old(cache.attempted) then old(cache.connected) else net.reachable)
    ensures cache.entries == (if cache.Serving(net) then old(cache.entries)[key := clock + ReportTtl] else old(cache.entries))
    ensures out.Reported? ==>
      "lat" in location && "lng" in location
      && out.reportId == IntToString(old(db.nextId))
      && db.reports == old(db.reports) + [NeonDb.Report(old(db.nextId), Some(location["lat"]), Some(location["lng"]), kind,
                                                         reportTime, MapLink(location["lat"], location["lng"]),
                                                         key, "reported")]
    ensures !out.Reported? ==> db.reports == old(db.reports)
    ensures out.Reported? <==> "lat" in location && "lng" in location && (old(db.pool) || (old(db.url) != [] && createOk))
    ensures db.url == old(db.url) && db.detections == old(db.detections)
    ensures db.pool == (old(db.pool) || ("lat" in location && "lng" in location && old(db.url) != [] && createOk))
    ensures db.nextId == (if out.Reported? then old(db.nextId) + 1 else old(db.nextId))
  {
    var _ := cache.StoreHazardKey(key, Some(ReportTtl), clock, net);
    if "lat" !in location || "lng" !in location {
      return ServerError;
    }
    var link := MapLink(location["lat"], location["lng"]);
    var up := db.EnsurePool(createOk);
    if !up {
      return ServerError;
    }
    var id := db.InsertReport(location, kind, reportTime, link, key, "reported", createOk);
    if id.Fails? {
      return ServerError;
    }
    out := Reported(IntToString(id.value));
  }
}
