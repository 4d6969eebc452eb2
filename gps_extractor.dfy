/** The GPS source (`GPSExtractor`): the last known fix, a bounded history of fixes, the
    EXIF degrees/minutes/seconds conversion and the nearest-in-time lookup.

    Coordinates here are reals (decimal degrees). Reading EXIF out of a frame goes through
    imaging libraries and is an input: the GPS tags found, or none. The clock is an input:
    `now` and the target time are seconds. */
module Gps {
  import opened Common

  /** `{'lat': ..., 'lng': ...}` */
  datatype Fix = Fix(lat: real, lng: real)

  /** A history entry: a fix and when it was set. */
  datatype Entry = Entry(fix: Fix, timestamp: real)

  /** The GPS tags of a frame's EXIF block: each coordinate as its (degrees, minutes,
      seconds) parts, and its hemisphere letter, each possibly absent. */
  datatype GpsTags = GpsTags(latitude: Option<seq<real>>, latitudeRef: Option<string>,
                             longitude: Option<seq<real>>, longitudeRef: Option<string>)

  /** The history keeps the last 100 fixes. */
  const HistoryCap: nat := 100

  /** The `i`-th part of a DMS tuple, 0 when the tuple is shorter. */
  function Part(dms: seq<real>, i: nat): real {
    if i < |dms| then dms[i] else 0.0
  }

  /** `_dms_to_decimal`: nothing for an absent or empty tuple; otherwise degrees plus minutes
      and seconds as fractions of a degree, negative in the southern and western hemispheres. */
  function DmsToDecimal(dms: Option<seq<real>>, hemisphere: string): (r: Option<real>)
    ensures r.None? <==> dms.None? || dms.value == []
    ensures r.Some? && hemisphere != "S" && hemisphere != "W" ==>
      r.value * 3600.0 == Part(dms.value, 0) * 3600.0 + Part(dms.value, 1) * 60.0 + Part(dms.value, 2)
    ensures r.Some? && (hemisphere == "S" || hemisphere == "W") ==>
      -r.value * 3600.0 == Part(dms.value, 0) * 3600.0 + Part(dms.value, 1) * 60.0 + Part(dms.value, 2)
  {
    if dms.None? || dms.value == [] then None
    else
      var parts := dms.value;
      var decimal := Part(parts, 0) + Part(parts, 1) / 60.0 + Part(parts, 2) / 3600.0;
      Some(if hemisphere == "S" || hemisphere == "W" then -decimal else decimal)
  }

  /** The hemisphere letter only flips the sign. */
  lemma HemisphereFlipsSign(dms: Option<seq<real>>)
    ensures DmsToDecimal(dms, "S") == DmsToDecimal(dms, "W")
    ensures DmsToDecimal(dms, "N") == DmsToDecimal(dms, "E")
    ensures DmsToDecimal(dms, "S").Some? ==> DmsToDecimal(dms, "S").value == -DmsToDecimal(dms, "N").value
  {
  }

  /** With whole minutes below 60 and seconds below 60, the value lies within the degree it
      names: minutes and seconds add less than one degree. */
  lemma DmsWithinDegree(d: real, m: real, s: real)
    requires 0.0 <= m <= 59.0 && 0.0 <= s < 60.0
    ensures var r := DmsToDecimal(Some([d, m, s]), "N"); r.Some? && d <= r.value < d + 1.0
  {
    var r := DmsToDecimal(Some([d, m, s]), "N");
    assert r.value * 3600.0 == d * 3600.0 + m * 60.0 + s;
    assert m * 60.0 + s < 3600.0;
  }

  /** The hemisphere tag, or the default when absent (`gps_data.get(ref, default)`). */
  function RefOr(ref: Option<string>, default: string): string {
    if ref.Some? then ref.value else default
  }

  /** `_convert_gps_to_decimal`: a fix only when both coordinates convert to non-zero values;
      a coordinate of exactly 0.0 counts as missing. */
  function ConvertGpsToDecimal(tags: GpsTags): (r: Option<Fix>)
    ensures r.Some? <==> (var lat := DmsToDecimal(tags.latitude, RefOr(tags.latitudeRef, "N"));
                          var lng := DmsToDecimal(tags.longitude, RefOr(tags.longitudeRef, "E"));
                          lat.Some? && lat.value != 0.0 && lng.Some? && lng.value != 0.0)
    ensures r.Some? ==> Some(r.value.lat) == DmsToDecimal(tags.latitude, RefOr(tags.latitudeRef, "N"))
                        && Some(r.value.lng) == DmsToDecimal(tags.longitude, RefOr(tags.longitudeRef, "E"))
  {
    var lat := DmsToDecimal(tags.latitude, RefOr(tags.latitudeRef, "N"));
    var lng := DmsToDecimal(tags.longitude, RefOr(tags.longitudeRef, "E"));
    if lat.Some? && lat.value != 0.0 && lng.Some? && lng.value != 0.0 then Some(Fix(lat.value, lng.value)) else None
  }

  /** A point on the equator is never reported, whatever its longitude. */
  lemma EquatorIsMissing(lng: seq<real>)
    ensures ConvertGpsToDecimal(GpsTags(Some([0.0]), None, Some(lng), None)).None?
  {
  }

  function AbsReal(x: real): (r: real)
    ensures r >= 0.0 && (r == x || r == -x)
  {
    if x < 0.0 then -x else x
  }

  /** How far an entry is from the target time. */
  function Gap(e: Entry, t: real): real {
    AbsReal(e.timestamp - t)
  }

  /** `min(history, key=gap)`: the position of the entry nearest in time, the first one on ties. */
  function Closest(history: seq<Entry>, t: real): (i: nat)
    requires |history| > 0
    ensures i < |history|
    ensures forall j :: 0 <= j < |history| ==> Gap(history[i], t) <= Gap(history[j], t)
    ensures forall j :: 0 <= j < i ==> Gap(history[j], t) > Gap(history[i], t)
    decreases |history|
  {
    if |history| == 1 then 0
    else
      var n := |history| - 1;
      var k := Closest(history[..n], t);
      assert history[..n][k] == history[k];
      assert forall j :: 0 <= j < n ==> history[..n][j] == history[j];
      if Gap(history[n], t) < Gap(history[k], t) then n else k
  }

  /** The last `n` elements of `s` (all of them when there are fewer). */
  function LastN<T>(s: seq<T>, n: nat): (r: seq<T>)
    ensures |r| == if |s| <= n then |s| else n
  {
    if |s| <= n then s else s[|s| - n..]
  }

  /** Appending and then dropping the oldest entry past the cap keeps the last entries. */
  lemma LastNSnoc<T>(s: seq<T>, x: T, n: nat)
    requires n > 0
    ensures var h := LastN(s, n) + [x]; LastN(s + [x], n) == if |h| > n then h[1..] else h
  {
    var h := LastN(s, n) + [x];
    if |s| + 1 > n {
      assert (s + [x])[|s| + 1 - n..] == (if |h| > n then h[1..] else h);
    }
  }

  class GpsExtractor {
    /** `last_gps_location` */
    var lastLocation: Option<Fix>
    /** `gps_history` */
    var history: seq<Entry>
    /** Every entry ever recorded, oldest first. */
    ghost var recorded: seq<Entry>

    /** The history is the most recent fixes, at most 100 of them. */
    ghost predicate Valid()
      reads this
    {
      history == LastN(recorded, HistoryCap) && |history| <= HistoryCap
    }

    constructor()
      ensures Valid() && lastLocation == None && history == [] && recorded == []
    {
      lastLocation := None;
      history := [];
      recorded := [];
    }

    /** `set_gps_location`: the fix becomes current and is appended to the history, the
        oldest entry dropped past 100. */
    method SetGpsLocation(lat: real, lng: real, now: real)
      requires Valid()
      modifies this
      ensures Valid()
      ensures lastLocation == Some(Fix(lat, lng)) && recorded == old(recorded) + [Entry(Fix(lat, lng), now)]
      ensures |history| == if |old(history)| < HistoryCap then |old(history)| + 1 else HistoryCap
      ensures history[|history| - 1] == Entry(Fix(lat, lng), now)
      ensures history == if |old(history)| + 1 > HistoryCap then (old(history) + [Entry(Fix(lat, lng), now)])[1..]
                         else old(history) + [Entry(Fix(lat, lng), now)]
    {
      var e := Entry(Fix(lat, lng), now);
      lastLocation := Some(Fix(lat, lng));
      LastNSnoc(recorded, e, HistoryCap);
      recorded := recorded + [e];
      history := history + [e];
      if |history| > HistoryCap {
        history := history[1..];
      }
    }

    /** `get_current_gps` */
    function GetCurrentGps(): (r: Option<Fix>)
      reads this
      ensures r == lastLocation
    {
      lastLocation
    }

    /** `get_gps_from_history`: the last fix when there is no history, otherwise the fix
        nearest the target time. */
    function GetGpsFromHistory(t: real): (r: Option<Fix>)
      reads this
      ensures history == [] ==> r == lastLocation
      ensures history != [] ==> exists i :: 0 <= i < |history| && r == Some(history[i].fix)
                                 && (forall j :: 0 <= j < |history| ==> Gap(history[i], t) <= Gap(history[j], t))
                                 && (forall j :: 0 <= j < i ==> Gap(history[j], t) > Gap(history[i], t))
    {
      if history == [] then lastLocation
      else
        var i := Closest(history, t);
        Some(history[i].fix)
    }

    /** `extract_from_frame`: video metadata never yields a fix, so the EXIF tags are tried
        and then the last known fix. */
    function ExtractFromFrame(videoPath: Option<string>, exif: Option<GpsTags>): (r: Option<Fix>)
      reads this
      ensures exif.Some? && ConvertGpsToDecimal(exif.value).Some? ==> r == ConvertGpsToDecimal(exif.value)
      ensures exif.None? || ConvertGpsToDecimal(exif.value).None? ==> r == lastLocation
    {
      var fromExif := if exif.Some? then ConvertGpsToDecimal(exif.value) else None;
      if fromExif.Some? then fromExif else lastLocation
    }
  }
}
