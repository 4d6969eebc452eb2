/** The report database client (`NeonDB`): the connection guard, the two inserts, the nearby
    search's coordinate repair, deletion, the cleanup of old reports and the trend interval.

    The table `hazard_reports` is a sequence of rows with unique ids; the PostGIS distance
    test `ST_DWithin(..., 100 m)` is a parameter (`Within`). Timestamps are integer seconds. */
module NeonDb {
  import opened Common

  // ---------------------------------------------------------------------------
  // The coordinate-swap heuristic

  /** A valid (latitude, longitude) pair. */
  predicate InRange(lat: Coord, lng: Coord) {
    Abs(lat) <= Degrees(90) && Abs(lng) <= Degrees(180)
  }

  /** The repair of transposed coordinates: an out-of-range pair is swapped when the swapped
      pair is valid. */
  function SwapIfTransposed(lat: Coord, lng: Coord): (r: (Coord, Coord))
    ensures r == (lat, lng) || r == (lng, lat)
    ensures InRange(lat, lng) ==> r == (lat, lng)
    ensures InRange(lng, lat) ==> InRange(r.0, r.1)
    ensures !InRange(lng, lat) ==> r == (lat, lng)
  {
    if Abs(lat) > Degrees(90) || Abs(lng) > Degrees(180) then
      if Abs(lat) <= Degrees(180) && Abs(lng) <= Degrees(90) then (lng, lat) else (lat, lng)
    else (lat, lng)
  }

  /** Repairing a repaired pair changes nothing. */
  lemma SwapIdempotent(lat: Coord, lng: Coord)
    ensures var r := SwapIfTransposed(lat, lng); SwapIfTransposed(r.0, r.1) == r
  {
  }

  /** The point `find_nearby_hazards` queries, in PostGIS order: longitude first, from the
      repaired pair, missing keys counting as 0. */
  function NearbyQueryPoint(location: Location): (p: (Coord, Coord))
    ensures var r := SwapIfTransposed(GetOr(location, "lat", 0), GetOr(location, "lng", 0));
      p.0 == r.1 && p.1 == r.0
  {
    var r := SwapIfTransposed(GetOr(location, "lat", 0), GetOr(location, "lng", 0));
    (r.1, r.0)
  }

  // ---------------------------------------------------------------------------
  // Rows

  /** A row of `hazard_reports`; `lat`/`lng` are None for a row without a location. */
  datatype Report = Report(id: int, lat: Option<Coord>, lng: Option<Coord>, kind: string, time: int,
                           mapLink: string, hashKey: string, status: string)

  /** A row of `hazard_detections`; `point` is (lng, lat), `bboxJson` the stored box, if any. */
  datatype Detection = Detection(id: int, point: Option<(Coord, Coord)>, kind: string, time: int,
                                 confidence: Option<real>, bboxJson: Option<seq<real>>, driverLane: bool,
                                 distance: Option<real>, frameNumber: Option<int>,
                                 videoPath: Option<string>, source: string)

  /** `ST_DWithin(a, b, radius)` on two (lng, lat) points. */
  type Within = (Coord, Coord, Coord, Coord) -> bool

  predicate UniqueIds(rows: seq<Report>) {
    forall i, j :: 0 <= i < j < |rows| ==> rows[i].id != rows[j].id
  }

  /** A Python truth test on a possibly NULL coordinate: 0.0 is false as well. */
  predicate Truthy(c: Option<Coord>) {
    c.Some? && c.value != 0
  }

  /** The WHERE clause of `find_nearby_hazards` for the point (lat, lng) and a cutoff instant. */
  predicate IsNear(x: Report, lat: Coord, lng: Coord, cutoff: int, within: Within) {
    var p := NearbyQueryPoint(map["lat" := lat, "lng" := lng]);
    x.lat.Some? && x.lng.Some? && within(x.lng.value, x.lat.value, p.0, p.1) && x.time >= cutoff
  }

  /** The rows `find_nearby_hazards` returns, in table order. */
  function Nearby(rows: seq<Report>, lat: Coord, lng: Coord, cutoff: int, within: Within): seq<Report>
    decreases |rows|
  {
    if rows == [] then []
    else
      var rest := Nearby(rows[..|rows| - 1], lat, lng, cutoff, within);
      if IsNear(rows[|rows| - 1], lat, lng, cutoff, within) then rest + [rows[|rows| - 1]] else rest
  }

  /** `[h for h in rows if h.get('id') != id]` */
  function OtherThan(rows: seq<Report>, id: int): seq<Report>
    decreases |rows|
  {
    if rows == [] then []
    else
      var rest := OtherThan(rows[..|rows| - 1], id);
      if rows[|rows| - 1].id != id then rest + [rows[|rows| - 1]] else rest
  }

  /** `DELETE FROM hazard_reports WHERE id = ANY(ids)`: the rows whose id is not listed. */
  function DropIds(rows: seq<Report>, ids: seq<int>): (r: seq<Report>)
    ensures |r| <= |rows|
    decreases |rows|
  {
    if rows == [] then []
    else
      var rest := DropIds(rows[..|rows| - 1], ids);
      if rows[|rows| - 1].id !in ids then rest + [rows[|rows| - 1]] else rest
  }

  /** The old-hazards query: rows older than the cutoff, in table order. */
  function OldRows(rows: seq<Report>, cutoff: int): seq<Report>
    decreases |rows|
  {
    if rows == [] then []
    else
      var rest := OldRows(rows[..|rows| - 1], cutoff);
      if rows[|rows| - 1].time < cutoff then rest + [rows[|rows| - 1]] else rest
  }

  lemma {:induction false} NearbyMembers(rows: seq<Report>, lat: Coord, lng: Coord, cutoff: int, within: Within)
    ensures forall x :: x in Nearby(rows, lat, lng, cutoff, within) <==> x in rows && IsNear(x, lat, lng, cutoff, within)
    decreases |rows|
  {
    if rows != [] {
      NearbyMembers(rows[..|rows| - 1], lat, lng, cutoff, within);
      assert rows == rows[..|rows| - 1] + [rows[|rows| - 1]];
    }
  }

  lemma {:induction false} OtherThanMembers(rows: seq<Report>, id: int)
    ensures forall x :: x in OtherThan(rows, id) <==> x in rows && x.id != id
    decreases |rows|
  {
    if rows != [] {
      OtherThanMembers(rows[..|rows| - 1], id);
      assert rows == rows[..|rows| - 1] + [rows[|rows| - 1]];
    }
  }

  lemma {:induction false} DropIdsMembers(rows: seq<Report>, ids: seq<int>)
    ensures forall x :: x in DropIds(rows, ids) <==> x in rows && x.id !in ids
    decreases |rows|
  {
    if rows != [] {
      DropIdsMembers(rows[..|rows| - 1], ids);
      assert rows == rows[..|rows| - 1] + [rows[|rows| - 1]];
    }
  }

  lemma {:induction false} OldRowsMembers(rows: seq<Report>, cutoff: int)
    ensures forall x :: x in OldRows(rows, cutoff) <==> x in rows && x.time < cutoff
    decreases |rows|
  {
    if rows != [] {
      OldRowsMembers(rows[..|rows| - 1], cutoff);
      assert rows == rows[..|rows| - 1] + [rows[|rows| - 1]];
    }
  }

  /** Deleting ids one batch after another is deleting them all. */
  lemma {:induction false} DropIdsTwice(rows: seq<Report>, ids: seq<int>, more: seq<int>)
    ensures DropIds(DropIds(rows, ids), more) == DropIds(rows, ids + more)
    decreases |rows|
  {
    if rows != [] {
      DropIdsTwice(rows[..|rows| - 1], ids, more);
      var last := rows[|rows| - 1];
      var front := DropIds(rows[..|rows| - 1], ids);
      if last.id !in ids {
        assert DropIds(rows, ids) == front + [last];
        assert (front + [last])[..|front + [last]| - 1] == front;
      }
    }
  }

  /** Deleting rows older than the cutoff leaves every nearby search unchanged. */
  lemma {:induction false} NearbyIgnoresOld(rows: seq<Report>, ids: seq<int>, lat: Coord, lng: Coord,
                                            cutoff: int, within: Within)
    requires forall x :: x in rows && x.id in ids ==> x.time < cutoff
    ensures Nearby(DropIds(rows, ids), lat, lng, cutoff, within) == Nearby(rows, lat, lng, cutoff, within)
    decreases |rows|
  {
    if rows != [] {
      var front := rows[..|rows| - 1];
      var last := rows[|rows| - 1];
      assert forall x :: x in front ==> x in rows;
      NearbyIgnoresOld(front, ids, lat, lng, cutoff, within);
      if last.id !in ids {
        var d := DropIds(front, ids);
        assert DropIds(rows, ids) == d + [last];
        assert (d + [last])[..|d + [last]| - 1] == d;
      }
    }
  }

  // ---------------------------------------------------------------------------
  // Cleanup

  /** An old report is removed when it has both coordinates (truthy) and no other report of
      the last days lies within 100 m of it. */
  predicate IsVictim(h: Report, table: seq<Report>, cutoff: int, within: Within) {
    Truthy(h.lat) && Truthy(h.lng)
    && OtherThan(Nearby(table, h.lat.value, h.lng.value, cutoff, within), h.id) == []
  }

  /** The ids cleanup removes, visiting the old reports in order. */
  function Victims(olds: seq<Report>, table: seq<Report>, cutoff: int, within: Within): seq<int>
    decreases |olds|
  {
    if olds == [] then []
    else
      var rest := Victims(olds[..|olds| - 1], table, cutoff, within);
      var h := olds[|olds| - 1];
      if IsVictim(h, table, cutoff, within) then rest + [h.id] else rest
  }

  /** The victim rule in terms of the table: no other located, recent report is near. */
  lemma VictimIff(h: Report, table: seq<Report>, cutoff: int, within: Within)
    requires Truthy(h.lat) && Truthy(h.lng)
    ensures IsVictim(h, table, cutoff, within)
        <==> forall x :: x in table && x.id != h.id ==> !IsNear(x, h.lat.value, h.lng.value, cutoff, within)
  {
    var n := Nearby(table, h.lat.value, h.lng.value, cutoff, within);
    NearbyMembers(table, h.lat.value, h.lng.value, cutoff, within);
    OtherThanMembers(n, h.id);
    if OtherThan(n, h.id) != [] {
      assert OtherThan(n, h.id)[0] in OtherThan(n, h.id);
    }
  }

  /** Every removed id is the id of one of the visited old reports, so of no more of them. */
  lemma {:induction false} VictimsAreOld(olds: seq<Report>, table: seq<Report>, cutoff: int, within: Within)
    ensures forall id :: id in Victims(olds, table, cutoff, within) ==> exists h :: h in olds && h.id == id
    ensures |Victims(olds, table, cutoff, within)| <= |olds|
    decreases |olds|
  {
    if olds != [] {
      var front := olds[..|olds| - 1];
      VictimsAreOld(front, table, cutoff, within);
      assert forall h :: h in front ==> h in olds;
      assert olds[|olds| - 1] in olds;
    }
  }

  /** Under unique ids, only old rows carry the ids of old rows. */
  lemma OnlyOldRowsCarryVictimIds(table: seq<Report>, cutoff: int, within: Within, ids: seq<int>)
    requires UniqueIds(table)
    requires forall id :: id in ids ==> exists h :: h in OldRows(table, cutoff) && h.id == id
    ensures forall x :: x in table && x.id in ids ==> x.time < cutoff
  {
    OldRowsMembers(table, cutoff);
    forall x | x in table && x.id in ids
      ensures x.time < cutoff
    {
      var h :| h in OldRows(table, cutoff) && h.id == x.id;
      var i :| 0 <= i < |table| && table[i] == x;
      var j :| 0 <= j < |table| && table[j] == h;
      assert i == j;
    }
  }

  /** `delete_hazard`'s result test: the command status contains "DELETE". */
  function DeleteSucceeded(status: string): bool {
    Contains(status, "DELETE")
  }

  /** The status PostgreSQL answers a DELETE with: "DELETE <rows>". */
  function DeleteStatus(count: nat): string {
    "DELETE " + NatToString(count)
  }

  /** Deletion reports success for every status, "DELETE 0" included. */
  lemma DeleteAlwaysSucceeds(count: nat)
    ensures DeleteSucceeded(DeleteStatus(count))
  {
    var s := DeleteStatus(count);
    assert s[0..][..|"DELETE"|] == "DELETE";
    assert StartsWith(s[0..], "DELETE");
  }

  // ---------------------------------------------------------------------------
  // Insert helpers

  /** The location the detection insert stores: NULL for a falsy (empty) dict, else (lng, lat);
      a non-empty dict without both keys raises. */
  function DetectionPoint(location: Location): (r: Fallible<Option<(Coord, Coord)>>)
    ensures location == map[] <==> r == Ok(None)
    ensures location != map[] && "lat" in location && "lng" in location ==> r == Ok(Some((location["lng"], location["lat"])))
    ensures r.Fails? <==> location != map[] && ("lat" !in location || "lng" !in location)
  {
    if location == map[] then Ok(None)
    else if "lat" in location && "lng" in location then Ok(Some((location["lng"], location["lat"])))
    else Fails
  }

  /** `json.dumps(bounding_box) if bounding_box else None` */
  function BoxJson(bbox: Option<seq<real>>): (r: Option<seq<real>>)
    ensures r.Some? <==> bbox.Some? && bbox.value != []
    ensures r.Some? ==> r == bbox
  {
    if bbox.Some? && bbox.value != [] then bbox else None
  }

  /** The bucket of `get_analytics_trends`: day, week or hour, anything else meaning day. */
  function TruncUnit(interval: string): (u: string)
    ensures u == "day" || u == "week" || u == "hour"
    ensures interval == "day" || interval == "week" || interval == "hour" ==> u == interval
  {
    if interval == "day" then "day"
    else if interval == "week" then "week"
    else if interval == "hour" then "hour"
    else "day"
  }

  // ---------------------------------------------------------------------------
  // The client

  class NeonDb {
    /** `NEON_DATABASE_URL` */
    var url: string
    /** `_pool is not None` */
    var pool: bool
    var reports: seq<Report>
    var detections: seq<Detection>
    /** The next value of the id sequences. */
    var nextId: int

    predicate Valid()
      reads this
    {
      UniqueIds(reports) && (forall x :: x in reports ==> x.id < nextId)
    }

    constructor(url: string)
      ensures Valid() && this.url == url && !pool && reports == [] && detections == []
    {
      this.url := url;
      pool := false;
      reports := [];
      detections := [];
      nextId := 1;
    }

    /** `connect`: refuses an empty URL; `createOk` is whether the pool can be created. */
    method Connect(createOk: bool) returns (ok: bool)
      modifies this
      ensures ok <==> url != [] && createOk
      ensures pool == (old(pool) || ok)
      ensures url == old(url) && reports == old(reports) && detections == old(detections) && nextId == old(nextId)
    {
      if url == [] {
        return false;
      }
      if !createOk {
        return false;
      }
      pool := true;
      ok := true;
    }

    /** The pool check every query makes first. */
    method EnsurePool(createOk: bool) returns (ok: bool)
      modifies this
      ensures ok <==> old(pool) || (url != [] && createOk)
      ensures pool == (old(pool) || ok)
      ensures url == old(url) && reports == old(reports) && detections == old(detections) && nextId == old(nextId)
    {
      if pool {
        return true;
      }
      ok := Connect(createOk);
    }

    /** `insert_hazard_report`: stores (lng, lat) and returns the new id. A missing key raises
        while the arguments are built, before the query connects. */
    method InsertReport(location: Location, kind: string, time: int, mapLink: string, hashKey: string,
                        status: string, createOk: bool) returns (id: Fallible<int>)
      requires Valid()
      modifies this
      ensures Valid() && url == old(url) && detections == old(detections)
      ensures pool == (old(pool) || ("lat" in location && "lng" in location && url != [] && createOk))
      ensures nextId == (if id.Ok? then old(nextId) + 1 else old(nextId))
      ensures id.Ok? <==> (old(pool) || (url != [] && createOk)) && "lat" in location && "lng" in location
      ensures id.Ok? ==> (id.value == old(nextId)
        && reports == old(reports) + [Report(old(nextId), Some(location["lat"]), Some(location["lng"]),
                                             kind, time, mapLink, hashKey, status)])
      ensures id.Fails? ==> reports == old(reports)
    {
      if "lng" !in location || "lat" !in location {
        return Fails;
      }
      var up := EnsurePool(createOk);
      if !up {
        return Fails;
      }
      var row := Report(nextId, Some(location["lat"]), Some(location["lng"]), kind, time, mapLink, hashKey, status);
      reports := reports + [row];
      id := Ok(nextId);
      nextId := nextId + 1;
    }

    /** `insert_hazard_detection`: the point branch for a truthy location, else NULL. */
    method InsertDetection(location: Location, kind: string, time: int, confidence: Option<real>,
                           bbox: Option<seq<real>>, driverLane: bool, distance: Option<real>,
                           frameNumber: Option<int>, videoPath: Option<string>, source: string,
                           createOk: bool) returns (id: Fallible<int>)
      requires Valid()
      modifies this
      ensures Valid() && url == old(url) && reports == old(reports)
      ensures pool == (old(pool) || (DetectionPoint(location).Ok? && url != [] && createOk))
      ensures nextId == (if id.Ok? then old(nextId) + 1 else old(nextId))
      ensures id.Ok? <==> (old(pool) || (url != [] && createOk)) && DetectionPoint(location).Ok?
      ensures id.Ok? ==> (id.value == old(nextId)
        && detections == old(detections) + [Detection(old(nextId), DetectionPoint(location).value, kind, time,
                                                      confidence, BoxJson(bbox), driverLane, distance,
                                                      frameNumber, videoPath, source)])
      ensures id.Fails? ==> detections == old(detections)
    {
      var point := DetectionPoint(location);
      if point.Fails? {
        return Fails;
      }
      var up := EnsurePool(createOk);
      if !up {
        return Fails;
      }
      detections := detections + [Detection(nextId, point.value, kind, time, confidence, BoxJson(bbox),
                                            driverLane, distance, frameNumber, videoPath, source)];
      id := Ok(nextId);
      nextId := nextId + 1;
    }

    /** `delete_hazard`: connects when there is no pool, then removes the row with this id
        and tests the status text. A failed connect raises and deletes nothing. */
    method DeleteHazard(id: int, createOk: bool) returns (ok: Fallible<bool>)
      requires Valid()
      modifies this
      ensures Valid() && url == old(url) && detections == old(detections) && nextId == old(nextId)
      ensures ok.Ok? <==> old(pool) || (url != [] && createOk)
      ensures pool == ok.Ok?
      ensures reports == (if ok.Ok? then DropIds(old(reports), [id]) else old(reports))
      ensures ok.Ok? ==> ok.value
    {
      var up := EnsurePool(createOk);
      if !up {
        return Fails;
      }
      var kept := DropIds(reports, [id]);
      DropIdsKeepsUnique(reports, [id]);
      DropIdsMembers(reports, [id]);
      var status := DeleteStatus(|reports| - |kept|);
      reports := kept;
      DeleteAlwaysSucceeds(|old(reports)| - |kept|);
      ok := Ok(DeleteSucceeded(status));
    }

    /** One visit of `cleanup_old_hazards`: search near the old report and delete it when
        nothing else is near. */
    method CleanupVisit(h: Report, cutoff: int, within: Within, ghost table: seq<Report>, ghost v: seq<int>)
        returns (deleted: bool)
      requires Valid() && pool && reports == DropIds(table, v)
      requires Truthy(h.lat) && Truthy(h.lng) ==>
        Nearby(DropIds(table, v), h.lat.value, h.lng.value, cutoff, within)
          == Nearby(table, h.lat.value, h.lng.value, cutoff, within)
      modifies this
      ensures Valid() && url == old(url) && pool == old(pool) && detections == old(detections) && nextId == old(nextId)
      ensures deleted == IsVictim(h, table, cutoff, within)
      ensures reports == DropIds(table, if deleted then v + [h.id] else v)
    {
      deleted := false;
      if Truthy(h.lat) && Truthy(h.lng) {
        var nearby := Nearby(reports, h.lat.value, h.lng.value, cutoff, within);
        nearby := OtherThan(nearby, h.id);
        if nearby == [] {
          var _ := DeleteHazard(h.id, true);
          DropIdsTwice(table, v, [h.id]);
          deleted := true;
        }
      }
    }

    /** The `i`-th visit of the cleanup loop: the deletions and the count move from the
        victims among the first `i` old reports to those among the first `i + 1`. */
    method CleanupNext(olds: seq<Report>, ghost table: seq<Report>, cutoff: int, within: Within, i: nat,
                       removed: nat) returns (removed': nat)
      requires Valid() && pool && UniqueIds(table) && olds == OldRows(table, cutoff) && i < |olds|
      requires removed == |Victims(olds[..i], table, cutoff, within)|
      requires reports == DropIds(table, Victims(olds[..i], table, cutoff, within))
      modifies this
      ensures Valid() && url == old(url) && pool == old(pool) && detections == old(detections) && nextId == old(nextId)
      ensures removed' == |Victims(olds[..i + 1], table, cutoff, within)|
      ensures reports == DropIds(table, Victims(olds[..i + 1], table, cutoff, within))
    {
      ghost var v := Victims(olds[..i], table, cutoff, within);
      CleanupStep(olds, table, cutoff, within, i);
      var deleted := CleanupVisit(olds[i], cutoff, within, table, v);
      removed' := if deleted then removed + 1 else removed;
    }

    /** `cleanup_old_hazards`: its first query connects when there is no pool, and a failed
        connect raises before anything is deleted; otherwise it visits each old report once,
        deletes those with no recent neighbour and returns how many it deleted. */
    method CleanupOldHazards(cutoff: int, within: Within, createOk: bool) returns (result: Fallible<nat>)
      requires Valid()
      modifies this
      ensures Valid() && url == old(url) && detections == old(detections) && nextId == old(nextId)
      ensures result.Ok? <==> old(pool) || (url != [] && createOk)
      ensures pool == result.Ok?
      ensures result.Fails? ==> reports == old(reports)
      ensures result.Ok? ==> var v := Victims(OldRows(old(reports), cutoff), old(reports), cutoff, within);
        result.value == |v| && reports == DropIds(old(reports), v)
      ensures result.Ok? ==> result.value <= |OldRows(old(reports), cutoff)|
    {
      var up := EnsurePool(createOk);
      if !up {
        return Fails;
      }
      var removed := Sweep(cutoff, within);
      result := Ok(removed);
    }

    /** The loop of `cleanup_old_hazards` once the pool exists. */
    method Sweep(cutoff: int, within: Within) returns (removed: nat)
      requires Valid() && pool
      modifies this
      ensures Valid() && url == old(url) && pool && detections == old(detections) && nextId == old(nextId)
      ensures var v := Victims(OldRows(old(reports), cutoff), old(reports), cutoff, within);
        removed == |v| && reports == DropIds(old(reports), v)
      ensures removed <= |OldRows(old(reports), cutoff)|
    {
      var olds := OldRows(reports, cutoff);
      ghost var table := reports;
      removed := 0;
      var i := 0;
      assert reports == DropIds(table, []) by { DropIdsNone(table); }
      assert olds[..0] == [];
      assert Victims(olds[..0], table, cutoff, within) == [];
      while i < |olds|
        invariant 0 <= i <= |olds|
        invariant table == old(reports) && UniqueIds(table) && olds == OldRows(table, cutoff)
        invariant Valid() && url == old(url) && pool == old(pool) && detections == old(detections) && nextId == old(nextId)
        invariant removed == |Victims(olds[..i], table, cutoff, within)|
        invariant reports == DropIds(table, Victims(olds[..i], table, cutoff, within))
      {
        removed := CleanupNext(olds, table, cutoff, within, i, removed);
        i := i + 1;
      }
      assert olds[..|olds|] == olds;
      VictimsAreOld(olds, table, cutoff, within);
    }
  }

  /** One visit of the cleanup loop: the victims so far grow by the visited report exactly
      when it is a victim, and the deletions so far do not change what its search finds. */
  lemma CleanupStep(olds: seq<Report>, table: seq<Report>, cutoff: int, within: Within, i: int)
    requires UniqueIds(table) && olds == OldRows(table, cutoff) && 0 <= i < |olds|
    ensures var v := Victims(olds[..i], table, cutoff, within); var h := olds[i];
      Victims(olds[..i + 1], table, cutoff, within) == (if IsVictim(h, table, cutoff, within) then v + [h.id] else v)
      && (Truthy(h.lat) && Truthy(h.lng) ==>
            Nearby(DropIds(table, v), h.lat.value, h.lng.value, cutoff, within)
              == Nearby(table, h.lat.value, h.lng.value, cutoff, within))
  {
    assert olds[..i + 1][..i] == olds[..i];
    var v := Victims(olds[..i], table, cutoff, within);
    var h := olds[i];
    if Truthy(h.lat) && Truthy(h.lng) {
      DeletedAreOld(olds, table, cutoff, within, i);
      NearbyIgnoresOld(table, v, h.lat.value, h.lng.value, cutoff, within);
    }
  }

  lemma DeletedAreOld(olds: seq<Report>, table: seq<Report>, cutoff: int, within: Within, i: int)
    requires UniqueIds(table) && olds == OldRows(table, cutoff) && 0 <= i <= |olds|
    ensures forall x :: x in table && x.id in Victims(olds[..i], table, cutoff, within) ==> x.time < cutoff
  {
    var v := Victims(olds[..i], table, cutoff, within);
    VictimsAreOld(olds[..i], table, cutoff, within);
    assert forall x :: x in olds[..i] ==> x in olds;
    OnlyOldRowsCarryVictimIds(table, cutoff, within, v);
  }

  lemma {:induction false} DropIdsNone(rows: seq<Report>)
    ensures DropIds(rows, []) == rows
    decreases |rows|
  {
    if rows != [] {
      DropIdsNone(rows[..|rows| - 1]);
      assert rows == rows[..|rows| - 1] + [rows[|rows| - 1]];
    }
  }

  lemma {:induction false} DropIdsKeepsUnique(rows: seq<Report>, ids: seq<int>)
    requires UniqueIds(rows)
    ensures UniqueIds(DropIds(rows, ids))
    decreases |rows|
  {
    if rows != [] {
      var front := rows[..|rows| - 1];
      var last := rows[|rows| - 1];
      assert UniqueIds(front);
      DropIdsKeepsUnique(front, ids);
      if last.id !in ids {
        var d := DropIds(front, ids);
        DropIdsMembers(front, ids);
        forall k | 0 <= k < |d|
          ensures d[k].id != last.id
        {
          assert d[k] in front;
          var i :| 0 <= i < |front| && front[i] == d[k];
          assert rows[i] == d[k];
        }
      }
    }
  }
}
