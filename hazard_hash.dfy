/** Hazard fingerprints: `generate_hazard_hash`, `generate_simple_hash` and
    `generate_time_bounded_hash`.

    The key of a hazard is `"hazard:"` followed by a digest of a canonical
    record holding the rounded coordinates, the normalised type, the optional
    minute window and the optional rounded bounding box. The digest
    (SHA-256 of a sorted-key JSON text) is modelled by an invertible encoding
    of that record: equal records give equal keys and, the digest being treated
    as collision-free, different records give different keys. */
module HazardHash {
  import opened Common

  // ---------------------------------------------------------------------------
  // `round(x, ndigits)` on fixed-point coordinates

  /** `round(x, p)` on a coordinate in units of 10^-7 degree: the nearest multiple of
      10^(7-p) units, halves rounding upwards; seven or more digits keep the value. */
  function RoundCoord(x: Coord, p: int): (r: Coord)
  {
    if p >= CoordDigits then x
    else
      var q := Pow10(CoordDigits - p);
      FloorDiv(x + q / 2, q) * q
  }

  /** The rounded value is a multiple of the last kept unit and within half of it. */
  lemma {:induction false} RoundCoordIsClose(x: Coord, p: int)
    requires p < CoordDigits
    ensures var q := Pow10(CoordDigits - p);
      RoundCoord(x, p) % q == 0 && -(q as int) < 2 * (RoundCoord(x, p) - x) <= q
  {
    var q := Pow10(CoordDigits - p);
    var n := FloorDiv(x + q / 2, q);
    assert n * q <= x + q / 2 < n * q + q;
    Pow10Even(CoordDigits - p);
    assert (q / 2) * 2 == q;
    assert (n * q) % q == 0 by { ModOfMultiple(n, q); }
  }

  lemma {:induction false} Pow10Even(n: nat)
    requires n > 0
    ensures Pow10(n) % 2 == 0
  {
    assert Pow10(n) == 10 * Pow10(n - 1);
  }

  lemma {:induction false} ModOfMultiple(n: int, q: int)
    requires q > 0
    ensures (n * q) % q == 0
  {
    FloorDivUnique(n * q, q, n);
  }

  /** Rounding an already rounded value changes nothing. */
  lemma {:induction false} RoundCoordIdempotent(x: Coord, p: int)
    ensures RoundCoord(RoundCoord(x, p), p) == RoundCoord(x, p)
  {
    if p < CoordDigits {
      var q := Pow10(CoordDigits - p);
      var n := FloorDiv(x + q / 2, q);
      Pow10Even(CoordDigits - p);
      assert n * q <= n * q + q / 2 < n * q + q;
      FloorDivUnique(n * q + q / 2, q, n);
    }
  }

  // ---------------------------------------------------------------------------
  // Timestamps

  type Minute = m: int | 0 <= m < 60

  /** A `datetime`; `utcOffset` is the offset of an aware timestamp in seconds. */
  datatype DateTime = DateTime(year: int, month: nat, day: nat, hour: nat, minute: Minute,
                               second: nat, micro: nat, utcOffset: Option<int>)

  /** A timestamp argument: a `datetime`, or a string and what `fromisoformat` makes of it. */
  datatype Stamp = At(moment: DateTime) | Text(text: string, parsed: Option<DateTime>)

  /** A string that does not parse is replaced by the current time. */
  function Resolve(ts: Stamp, now: DateTime): (t: DateTime)
    ensures ts.At? ==> t == ts.moment
    ensures ts.Text? && ts.parsed.Some? ==> t == ts.parsed.value
    ensures ts.Text? && ts.parsed.None? ==> t == now
  {
    match ts
    case At(m) => m
    case Text(_, parsed) => if parsed.Some? then parsed.value else now
  }

  /** `timestamp.replace(second=0, microsecond=0)` */
  function ToMinute(t: DateTime): (r: DateTime)
    ensures r.second == 0 && r.micro == 0
    ensures r == t.(second := 0, micro := 0)
  {
    t.(second := 0, micro := 0)
  }

  // ---------------------------------------------------------------------------
  // The canonical record

  /** The record the digest is taken of; box corners are kept in hundredths of a pixel. */
  datatype Canonical = Canonical(lat: Coord, lng: Coord, kind: string,
                                 timeWindow: Option<DateTime>, bbox: Option<seq<int>>)

  /** The hazard type as compared: `hazard_type.lower().strip()`. */
  function NormaliseType(t: string): (r: string)
    ensures IsStripped(r) && forall i :: 0 <= i < |r| ==> !IsUpper(r[i])
  {
    Strip(Lower(t))
  }

  /** Whether a timestamp argument is truthy (`if timestamp:`): a non-empty string or any datetime. */
  predicate Truthy(ts: Stamp) {
    ts.At? || ts.text != ""
  }

  /** `round(v, 2)` of a box coordinate, in hundredths, halves rounding upwards. */
  function RoundHundredths(v: real): (r: int)
    ensures 100.0 * v - 0.5 < r as real <= 100.0 * v + 0.5
  {
    (v * 100.0 + 0.5).Floor
  }

  function BoxPart(bbox: Option<seq<real>>): (r: Option<seq<int>>)
    ensures r.Some? <==> bbox.Some? && |bbox.value| >= 4
    ensures r.Some? ==> |r.value| == 4 && forall i :: 0 <= i < 4 ==> r.value[i] == RoundHundredths(bbox.value[i])
  {
    if bbox.Some? && |bbox.value| >= 4 then
      var b := bbox.value;
      Some([RoundHundredths(b[0]), RoundHundredths(b[1]), RoundHundredths(b[2]), RoundHundredths(b[3])])
    else None
  }

  function CanonicalOf(location: Location, hazardType: string, timestamp: Option<Stamp>,
                       bbox: Option<seq<real>>, precision: int, now: DateTime): (c: Canonical)
    ensures c.lat == RoundCoord(GetOr(location, "lat", 0), precision)
    ensures c.lng == RoundCoord(GetOr(location, "lng", 0), precision)
    ensures c.kind == NormaliseType(hazardType)
    ensures c.timeWindow.Some? <==> timestamp.Some? && Truthy(timestamp.value)
    ensures c.timeWindow.Some? ==> c.timeWindow.value == ToMinute(Resolve(timestamp.value, now))
    ensures c.bbox == BoxPart(bbox)
    ensures WellFormed(c)
  {
    Canonical(RoundCoord(GetOr(location, "lat", 0), precision),
              RoundCoord(GetOr(location, "lng", 0), precision),
              NormaliseType(hazardType),
              if timestamp.Some? && Truthy(timestamp.value) then Some(ToMinute(Resolve(timestamp.value, now))) else None,
              BoxPart(bbox))
  }

  // ---------------------------------------------------------------------------
  // The digest: an encoding of the canonical record and its decoder

  /** A length-prefixed token: prefix-free, so a sequence of tokens can be split back. */
  function EncTok(t: string): string {
    NatToString(|t|) + ";" + t
  }

  function EncToks(ts: seq<string>): string {
    if ts == [] then "" else EncTok(ts[0]) + EncToks(ts[1..])
  }

  /** The record as 17 tokens: coordinates, type, a tagged window of eight fields, a tagged box of four. */
  function WindowToks(tw: Option<DateTime>): (ts: seq<string>)
    ensures |ts| == 9
  {
    match tw
    case None => ["n", "", "", "", "", "", "", "", ""]
    case Some(t) =>
      ["s", IntToString(t.year), IntToString(t.month), IntToString(t.day), IntToString(t.hour), IntToString(t.minute),
       IntToString(t.second), IntToString(t.micro), if t.utcOffset.None? then "" else IntToString(t.utcOffset.value)]
  }

  function BoxToks(bbox: Option<seq<int>>): (ts: seq<string>)
    ensures |ts| == 5
  {
    if bbox.Some? && |bbox.value| == 4 then
      var b := bbox.value;
      ["s", IntToString(b[0]), IntToString(b[1]), IntToString(b[2]), IntToString(b[3])]
    else if bbox.Some? then ["x", "", "", "", ""]
    else ["n", "", "", "", ""]
  }

  function Tokens(c: Canonical): (ts: seq<string>)
    ensures |ts| == 17
  {
    [IntToString(c.lat), IntToString(c.lng), c.kind] + WindowToks(c.timeWindow) + BoxToks(c.bbox)
  }

  function EncCanonical(c: Canonical): string {
    EncToks(Tokens(c))
  }

  function FindSemicolon(s: string): (r: Option<nat>)
    ensures r.Some? ==> r.value < |s| && s[r.value] == ';' && forall j :: 0 <= j < r.value ==> s[j] != ';'
    ensures r.None? ==> forall j :: 0 <= j < |s| ==> s[j] != ';'
  {
    if s == [] then None
    else if s[0] == ';' then Some(0)
    else match FindSemicolon(s[1..])
      case None => None
      case Some(i) => Some(i + 1)
  }

  predicate AllDigits(s: string) {
    forall i :: 0 <= i < |s| ==> IsDigit(s[i])
  }

  function DecTok(s: string): Option<(string, string)> {
    match FindSemicolon(s)
    case None => None
    case Some(i) =>
      if !AllDigits(s[..i]) then None
      else
        var n := DigitsValue(s[..i]);
        var rest := s[i + 1..];
        if n <= |rest| then Some((rest[..n], rest[n..])) else None
  }

  function DecToks(n: nat, s: string): Option<(seq<string>, string)>
    decreases n
  {
    if n == 0 then Some(([], s))
    else match DecTok(s)
      case None => None
      case Some((t, r1)) =>
        match DecToks(n - 1, r1)
        case None => None
        case Some((ts, r2)) => Some(([t] + ts, r2))
  }

  lemma {:induction false} DecTokEnc(t: string, rest: string)
    ensures DecTok(EncTok(t) + rest) == Some((t, rest))
  {
    var s := EncTok(t) + rest;
    var digits := NatToString(|t|);
    assert s == digits + ";" + (t + rest);
    assert s[..|digits|] == digits;
    assert s[|digits| + 1..] == t + rest;
    DigitsValueOfNatToString(|t|);
    assert forall j :: 0 <= j < |digits| ==> s[j] == digits[j];
    assert s[|digits|] == ';';
    assert FindSemicolon(s) == Some(|digits|);
    assert (t + rest)[..|t|] == t && (t + rest)[|t|..] == rest;
  }

  lemma {:induction false} DecToksEnc(ts: seq<string>, rest: string)
    ensures DecToks(|ts|, EncToks(ts) + rest) == Some((ts, rest))
  {
    if ts != [] {
      var s := EncToks(ts) + rest;
      var r1 := EncToks(ts[1..]) + rest;
      assert DecTok(s) == Some((ts[0], r1)) by {
        assert s == EncTok(ts[0]) + r1;
        DecTokEnc(ts[0], r1);
      }
      assert DecToks(|ts| - 1, r1) == Some((ts[1..], rest)) by {
        DecToksEnc(ts[1..], rest);
      }
      assert [ts[0]] + ts[1..] == ts;
    } else {
      assert EncToks(ts) + rest == rest;
    }
  }

  /** Encoded token sequences of the same length are equal only if the tokens are. */
  lemma {:induction false} EncToksInjective(ts1: seq<string>, ts2: seq<string>)
    requires |ts1| == |ts2| && EncToks(ts1) == EncToks(ts2)
    ensures ts1 == ts2
  {
    DecToksEnc(ts1, []);
    DecToksEnc(ts2, []);
    assert EncToks(ts1) + [] == EncToks(ts1);
    assert EncToks(ts2) + [] == EncToks(ts2);
  }

  lemma {:induction false} WindowToksInjective(a: Option<DateTime>, b: Option<DateTime>)
    requires WindowToks(a) == WindowToks(b)
    ensures a == b
  {
    var ta, tb := WindowToks(a), WindowToks(b);
    assert ta[0] == tb[0];
    if a.Some? && b.Some? {
      var x, y := a.value, b.value;
      assert ta[1] == tb[1] && ta[2] == tb[2] && ta[3] == tb[3] && ta[4] == tb[4];
      assert ta[5] == tb[5] && ta[6] == tb[6] && ta[7] == tb[7] && ta[8] == tb[8];
      IntToStringInjective(x.year, y.year);
      IntToStringInjective(x.month, y.month);
      IntToStringInjective(x.day, y.day);
      IntToStringInjective(x.hour, y.hour);
      IntToStringInjective(x.minute, y.minute);
      IntToStringInjective(x.second, y.second);
      IntToStringInjective(x.micro, y.micro);
      if x.utcOffset.Some? && y.utcOffset.Some? {
        IntToStringInjective(x.utcOffset.value, y.utcOffset.value);
      }
    }
  }

  lemma {:induction false} BoxToksInjective(a: Option<seq<int>>, b: Option<seq<int>>)
    requires BoxToks(a) == BoxToks(b)
    requires a.Some? ==> |a.value| == 4
    requires b.Some? ==> |b.value| == 4
    ensures a == b
  {
    var ta, tb := BoxToks(a), BoxToks(b);
    assert ta[0] == tb[0];
    if a.Some? && b.Some? {
      var x, y := a.value, b.value;
      assert ta[1] == tb[1] && ta[2] == tb[2] && ta[3] == tb[3] && ta[4] == tb[4];
      IntToStringInjective(x[0], y[0]);
      IntToStringInjective(x[1], y[1]);
      IntToStringInjective(x[2], y[2]);
      IntToStringInjective(x[3], y[3]);
      assert x == [x[0], x[1], x[2], x[3]];
      assert y == [y[0], y[1], y[2], y[3]];
    }
  }

  /** A canonical record as the generators build it: a box, when present, has four corners. */
  predicate WellFormed(c: Canonical) {
    c.bbox.Some? ==> |c.bbox.value| == 4
  }

  lemma {:induction false} TokensInjective(c1: Canonical, c2: Canonical)
    requires WellFormed(c1) && WellFormed(c2) && Tokens(c1) == Tokens(c2)
    ensures c1 == c2
  {
    var t1, t2 := Tokens(c1), Tokens(c2);
    assert t1[0] == t2[0] && t1[1] == t2[1] && t1[2] == t2[2];
    IntToStringInjective(c1.lat, c2.lat);
    IntToStringInjective(c1.lng, c2.lng);
    assert WindowToks(c1.timeWindow) == t1[3..12] == t2[3..12] == WindowToks(c2.timeWindow);
    assert BoxToks(c1.bbox) == t1[12..] == t2[12..] == BoxToks(c2.bbox);
    WindowToksInjective(c1.timeWindow, c2.timeWindow);
    BoxToksInjective(c1.bbox, c2.bbox);
  }

  const Prefix: string := "hazard:"

  /** `f"hazard:{sha256(json.dumps(hash_data, sort_keys=True))}"` */
  function KeyOf(c: Canonical): (k: string)
    ensures StartsWith(k, Prefix)
  {
    Prefix + EncCanonical(c)
  }

  /** Keys are equal exactly when the canonical records are. */
  lemma {:induction false} KeyOfInjective(c1: Canonical, c2: Canonical)
    requires WellFormed(c1) && WellFormed(c2)
    ensures KeyOf(c1) == KeyOf(c2) <==> c1 == c2
  {
    if KeyOf(c1) == KeyOf(c2) {
      assert EncCanonical(c1) == KeyOf(c1)[|Prefix|..] == KeyOf(c2)[|Prefix|..] == EncCanonical(c2);
      EncToksInjective(Tokens(c1), Tokens(c2));
      TokensInjective(c1, c2);
    }
  }

  // ---------------------------------------------------------------------------
  // The three key generators

  /** `generate_hazard_hash(location, hazard_type, timestamp, bounding_box, precision)` */
  function HazardKey(location: Location, hazardType: string, timestamp: Option<Stamp>,
                     bbox: Option<seq<real>>, precision: int, now: DateTime): (k: string)
    ensures StartsWith(k, Prefix)
  {
    KeyOf(CanonicalOf(location, hazardType, timestamp, bbox, precision, now))
  }

  /** `generate_simple_hash(location, hazard_type, precision)`: no timestamp and no bounding box. */
  function SimpleKey(location: Location, hazardType: string, precision: int, now: DateTime): (k: string)
    ensures k == HazardKey(location, hazardType, None, None, precision, now)
  {
    HazardKey(location, hazardType, None, None, precision, now)
  }

  /** `timestamp.minute // w * w` with Python's floor division. */
  function WindowedMinute(minute: Minute, w: int): int
    requires w != 0
  {
    FloorDiv(minute, w) * w
  }

  /** `generate_time_bounded_hash(location, hazard_type, timestamp, w, precision)`; None stands
      for the exception raised when `w` is 0 or the windowed minute is not a valid minute. */
  function TimeBoundedKey(location: Location, hazardType: string, timestamp: Stamp, w: int,
                          precision: int, now: DateTime): (k: Option<string>)
    ensures w == 0 ==> k.None?
    ensures w > 0 ==> k.Some?
  {
    if w == 0 then None
    else
      var t := Resolve(timestamp, now);
      var m := WindowedMinute(t.minute, w);
      assert w > 0 ==> 0 <= m < 60 by {
        if w > 0 { WindowedMinuteBounds(t.minute, w); }
      }
      if 0 <= m < 60 then
        Some(HazardKey(location, hazardType, Some(At(t.(minute := m, second := 0, micro := 0))), None, precision, now))
      else None
  }

  // ---------------------------------------------------------------------------
  // Properties

  /** Every key identifies its canonical record; two hazards share a key iff their records agree. */
  lemma {:induction false} HazardKeyEqualIff(l1: Location, t1: string, ts1: Option<Stamp>, b1: Option<seq<real>>,
                          l2: Location, t2: string, ts2: Option<Stamp>, b2: Option<seq<real>>,
                          precision: int, now: DateTime)
    ensures HazardKey(l1, t1, ts1, b1, precision, now) == HazardKey(l2, t2, ts2, b2, precision, now)
        <==> CanonicalOf(l1, t1, ts1, b1, precision, now) == CanonicalOf(l2, t2, ts2, b2, precision, now)
  {
    KeyOfInjective(CanonicalOf(l1, t1, ts1, b1, precision, now), CanonicalOf(l2, t2, ts2, b2, precision, now));
  }

  /** Coordinates compare by their rounded values: same rounded values, same key; different
      rounded latitude or longitude, different key. */
  lemma {:induction false} LocationSensitivity(l1: Location, l2: Location, hazardType: string, precision: int, now: DateTime)
    ensures SimpleKey(l1, hazardType, precision, now) == SimpleKey(l2, hazardType, precision, now)
        <==> (RoundCoord(GetOr(l1, "lat", 0), precision) == RoundCoord(GetOr(l2, "lat", 0), precision)
              && RoundCoord(GetOr(l1, "lng", 0), precision) == RoundCoord(GetOr(l2, "lng", 0), precision))
  {
    var c1 := CanonicalOf(l1, hazardType, None, None, precision, now);
    var c2 := CanonicalOf(l2, hazardType, None, None, precision, now);
    KeyOfInjective(c1, c2);
  }

  /** The type is compared after lower-casing and stripping, and only then. */
  lemma {:induction false} TypeNormalisation(location: Location, t1: string, t2: string, precision: int, now: DateTime)
    ensures SimpleKey(location, t1, precision, now) == SimpleKey(location, t2, precision, now)
        <==> NormaliseType(t1) == NormaliseType(t2)
  {
    KeyOfInjective(CanonicalOf(location, t1, None, None, precision, now),
                   CanonicalOf(location, t2, None, None, precision, now));
  }

  /** Seconds and microseconds never matter; any other field of the timestamp does. */
  lemma {:induction false} TimestampTruncated(location: Location, hazardType: string, t1: DateTime, t2: DateTime,
                           precision: int, now: DateTime)
    ensures HazardKey(location, hazardType, Some(At(t1)), None, precision, now)
         == HazardKey(location, hazardType, Some(At(t2)), None, precision, now)
        <==> t1.(second := 0, micro := 0) == t2.(second := 0, micro := 0)
  {
    KeyOfInjective(CanonicalOf(location, hazardType, Some(At(t1)), None, precision, now),
                   CanonicalOf(location, hazardType, Some(At(t2)), None, precision, now));
  }

  /** A key made with a timestamp never equals one made without. */
  lemma {:induction false} TimestampIncludedOnlyIfGiven(location: Location, hazardType: string, t: DateTime, precision: int, now: DateTime)
    ensures HazardKey(location, hazardType, Some(At(t)), None, precision, now) != SimpleKey(location, hazardType, precision, now)
  {
    KeyOfInjective(CanonicalOf(location, hazardType, Some(At(t)), None, precision, now),
                   CanonicalOf(location, hazardType, None, None, precision, now));
  }

  /** A box with fewer than four numbers is ignored; one with four or more contributes its
      first four numbers only, rounded to two decimals. */
  lemma {:induction false} BoundingBoxRule(location: Location, hazardType: string, b: seq<real>, precision: int, now: DateTime)
    ensures |b| < 4 ==> HazardKey(location, hazardType, None, Some(b), precision, now) == SimpleKey(location, hazardType, precision, now)
    ensures |b| >= 4 ==> HazardKey(location, hazardType, None, Some(b), precision, now) != SimpleKey(location, hazardType, precision, now)
    ensures |b| >= 4 ==> (HazardKey(location, hazardType, None, Some(b), precision, now)
                          == HazardKey(location, hazardType, None, Some(b[..4]), precision, now))
  {
    KeyOfInjective(CanonicalOf(location, hazardType, None, Some(b), precision, now),
                   CanonicalOf(location, hazardType, None, None, precision, now));
  }

  /** The windowed minute is at most the minute and less than one window below it. */
  lemma {:induction false} WindowedMinuteBounds(minute: Minute, w: int)
    requires w > 0
    ensures 0 <= WindowedMinute(minute, w) <= minute < WindowedMinute(minute, w) + w
    ensures WindowedMinute(minute, w) % w == 0
  {
    var q := FloorDiv(minute, w);
    if q < 0 {
      MulAtLeast(-q, w);
    }
    DivUnique(q * w, w, q);
  }

  lemma {:induction false} SameWindowIff(m1: Minute, m2: Minute, w: int)
    requires w > 0
    ensures WindowedMinute(m1, w) == WindowedMinute(m2, w) <==> m1 / w == m2 / w
  {
    if WindowedMinute(m1, w) == WindowedMinute(m2, w) {
      assert (m1 / w) * w == (m2 / w) * w;
    }
  }

  /** The windowed key is the hazard key of the timestamp moved to the start of its window. */
  lemma {:induction false} TimeBoundedKeyIsWindowStart(location: Location, hazardType: string, t: DateTime, w: int,
                                                       precision: int, now: DateTime)
    requires w > 0
    ensures 0 <= WindowedMinute(t.minute, w) < 60
    ensures var u := t.(minute := WindowedMinute(t.minute, w), second := 0, micro := 0);
      TimeBoundedKey(location, hazardType, At(t), w, precision, now)
        == Some(KeyOf(CanonicalOf(location, hazardType, Some(At(u)), None, precision, now)))
  {
    WindowedMinuteBounds(t.minute, w);
  }

  /** Two timestamps of the same hour whose minutes fall in the same window give the same key,
      and timestamps of the same hour in different windows give different keys. */
  lemma {:induction false} SameWindowSameKey(location: Location, hazardType: string, t1: DateTime, t2: DateTime, w: int,
                          precision: int, now: DateTime)
    requires w > 0
    requires t1.year == t2.year && t1.month == t2.month && t1.day == t2.day && t1.hour == t2.hour
    requires t1.utcOffset == t2.utcOffset
    ensures TimeBoundedKey(location, hazardType, At(t1), w, precision, now)
         == TimeBoundedKey(location, hazardType, At(t2), w, precision, now)
        <==> t1.minute / w == t2.minute / w
  {
    var m1, m2 := WindowedMinute(t1.minute, w), WindowedMinute(t2.minute, w);
    TimeBoundedKeyIsWindowStart(location, hazardType, t1, w, precision, now);
    TimeBoundedKeyIsWindowStart(location, hazardType, t2, w, precision, now);
    SameWindowIff(t1.minute, t2.minute, w);
    var u1 := t1.(minute := m1, second := 0, micro := 0);
    var u2 := t2.(minute := m2, second := 0, micro := 0);
    assert u1 == u2 <==> m1 == m2;
    var c1 := CanonicalOf(location, hazardType, Some(At(u1)), None, precision, now);
    var c2 := CanonicalOf(location, hazardType, Some(At(u2)), None, precision, now);
    assert c1.timeWindow == Some(u1) && c2.timeWindow == Some(u2);
    assert c1 == c2 <==> u1 == u2;
    KeyOfInjective(c1, c2);
  }

  /** The rounding case checked by the backend's verification script: 19.0760123 / 72.8777123
      and 19.0760 / 72.8777 give the same key at four decimals. */
  lemma {:induction false} PrecisionExample(now: DateTime)
    ensures SimpleKey(map["lat" := 190760123, "lng" := 728777123], "pothole", 4, now)
         == SimpleKey(map["lat" := 190760000, "lng" := 728777000], "pothole", 4, now)
  {
    var l1: Location := map["lat" := 190760123, "lng" := 728777123];
    var l2: Location := map["lat" := 190760000, "lng" := 728777000];
    assert Pow10(3) == 1000 by {
      assert Pow10(1) == 10;
      assert Pow10(2) == 100;
    }
    assert RoundCoord(190760123, 4) == 190760000 by { FloorDivUnique(190760623, 1000, 190760); }
    assert RoundCoord(728777123, 4) == 728777000 by { FloorDivUnique(728777623, 1000, 728777); }
    assert RoundCoord(190760000, 4) == 190760000 by { FloorDivUnique(190760500, 1000, 190760); }
    assert RoundCoord(728777000, 4) == 728777000 by { FloorDivUnique(728777500, 1000, 728777); }
    assert GetOr(l1, "lat", 0) == 190760123 && GetOr(l1, "lng", 0) == 728777123;
    assert GetOr(l2, "lat", 0) == 190760000 && GetOr(l2, "lng", 0) == 728777000;
    assert CanonicalOf(l1, "pothole", None, None, 4, now) == CanonicalOf(l2, "pothole", None, None, 4, now);
  }
}
