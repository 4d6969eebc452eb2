/** Helpers shared by the whole model: optional values, the location dicts the
    backend passes around, Python's string normalisation (ASCII subset), decimal
    rendering of integers with its parser, and Python floor division. */
module Common {

  datatype Option<T> = None | Some(value: T)

  /** A value, or the failure of the external call that should have produced it. */
  datatype Fallible<T> = Ok(value: T) | Fails

  /** Coordinates are fixed-point numbers: a `Coord` counts units of 10^-CoordDigits degree. */
  const CoordDigits: nat := 7
  type Coord = int

  function Pow10(n: nat): (r: nat)
    ensures r >= 1
  {
    if n == 0 then 1 else 10 * Pow10(n - 1)
  }

  /** `n` whole degrees as a coordinate. */
  function Degrees(n: int): Coord {
    n * Pow10(CoordDigits)
  }

  /** A location dict as the backend receives it: usually the keys "lat" and "lng". */
  type Location = map<string, Coord>

  /** `d.get(key, default)` */
  function GetOr(loc: Location, key: string, default: Coord): (r: Coord)
    ensures key in loc ==> r == loc[key]
    ensures key !in loc ==> r == default
  {
    if key in loc then loc[key] else default
  }

  /** `abs(x)` */
  function Abs(x: int): (r: nat)
    ensures r == x || r == -x
  {
    if x < 0 then -x else x
  }

  /** Python's `a // b`: the floor of the quotient, also for a negative divisor. */
  function FloorDiv(a: int, b: int): (q: int)
    requires b != 0
    ensures b > 0 ==> q * b <= a < q * b + b
    ensures b < 0 ==> q * b >= a > q * b + b
  {
    if b > 0 then a / b else (-a) / (-b)
  }

  lemma {:induction false} MulAtLeast(d: int, w: int)
    requires d >= 1 && w > 0
    ensures d * w >= w
    decreases d
  {
    if d > 1 {
      MulAtLeast(d - 1, w);
      assert d * w == (d - 1) * w + w;
    }
  }

  /** A non-zero multiple of a positive `w` is at least `w` away from zero. */
  lemma MulAwayFromZero(a: int, w: int)
    requires w > 0
    ensures a >= 1 ==> a * w >= w
    ensures a <= -1 ==> a * w <= -w
  {
    if a >= 1 {
      MulAtLeast(a, w);
    } else if a <= -1 {
      MulAtLeast(-a, w);
      assert (-a) * w == -(a * w);
    }
  }

  /** Euclidean division is unique: a value within `[k * w, k * w + w)` has quotient `k`. */
  lemma DivUnique(x: int, w: int, k: int)
    requires w > 0 && k * w <= x < k * w + w
    ensures x / w == k && x % w == x - k * w
  {
    var d := x / w;
    var r := x % w;
    assert x == d * w + r && 0 <= r < w;
    MulAwayFromZero(d - k, w);
    assert (d - k) * w == d * w - k * w;
  }

  /** The same for Python's floor division by a positive divisor. */
  lemma FloorDivUnique(a: int, q: int, n: int)
    requires q > 0 && n * q <= a < n * q + q
    ensures FloorDiv(a, q) == n
  {
    DivUnique(a, q, n);
  }

  // ---------------------------------------------------------------------------
  // Characters and strings (ASCII subset of Python's str methods)

  /** `c.isspace()` restricted to ASCII: \t \n \v \f \r, the separators 0x1c-0x1f and space. */
  predicate IsSpace(c: char) {
    9 <= c as int <= 13 || 28 <= c as int <= 32
  }

  predicate IsUpper(c: char) { 'A' <= c <= 'Z' }

  predicate IsDigit(c: char) { '0' <= c <= '9' }

  /** `c.isalnum() or c == '_'` restricted to ASCII: the characters of a dollar-quote tag. */
  predicate IsTagChar(c: char) {
    IsDigit(c) || 'a' <= c <= 'z' || IsUpper(c) || c == '_'
  }

  function LowerChar(c: char): (r: char)
    ensures !IsUpper(r)
    ensures !IsUpper(c) ==> r == c
    ensures IsSpace(r) <==> IsSpace(c)
  {
    if IsUpper(c) then (c as int + 32) as char else c
  }

  /** `s.lower()` */
  function Lower(s: string): (r: string)
    ensures |r| == |s|
    ensures forall i :: 0 <= i < |s| ==> r[i] == LowerChar(s[i])
  {
    seq(|s|, i requires 0 <= i < |s| => LowerChar(s[i]))
  }

  /** `s.lstrip()` */
  function TrimLeft(s: string): (r: string)
    ensures |r| <= |s| && r == s[|s| - |r|..]
    ensures r == [] || !IsSpace(r[0])
  {
    if s != [] && IsSpace(s[0]) then TrimLeft(s[1..]) else s
  }

  /** What `lstrip` drops is whitespace. */
  lemma {:induction false} TrimLeftDropsSpace(s: string)
    ensures forall i :: 0 <= i < |s| - |TrimLeft(s)| ==> IsSpace(s[i])
    decreases |s|
  {
    if s != [] && IsSpace(s[0]) {
      TrimLeftDropsSpace(s[1..]);
      assert forall i :: 1 <= i < |s| ==> s[i] == s[1..][i - 1];
    }
  }

  /** `s.rstrip()` */
  function TrimRight(s: string): (r: string)
    ensures |r| <= |s| && r == s[..|r|]
    ensures r == [] || !IsSpace(r[|r| - 1])
  {
    if s != [] && IsSpace(s[|s| - 1]) then TrimRight(s[..|s| - 1]) else s
  }

  /** What `rstrip` drops is whitespace. */
  lemma {:induction false} TrimRightDropsSpace(s: string)
    ensures forall i :: |TrimRight(s)| <= i < |s| ==> IsSpace(s[i])
    decreases |s|
  {
    if s != [] && IsSpace(s[|s| - 1]) {
      TrimRightDropsSpace(s[..|s| - 1]);
      assert forall i :: 0 <= i < |s| - 1 ==> s[i] == s[..|s| - 1][i];
    }
  }

  /** No surrounding whitespace. */
  predicate IsStripped(s: string) {
    s == [] || (!IsSpace(s[0]) && !IsSpace(s[|s| - 1]))
  }

  predicate IsBlank(s: string) {
    forall i :: 0 <= i < |s| ==> IsSpace(s[i])
  }

  /** `s.strip()`: the slice of `s` left after dropping whitespace at both ends. */
  function Strip(s: string): (r: string)
    ensures IsStripped(r)
    ensures var drop := |s| - |TrimLeft(s)|; drop + |r| <= |s| && r == s[drop..drop + |r|]
  {
    var l := TrimLeft(s);
    var r := TrimRight(l);
    StripIsSlice(s, l, r);
    StripIsStripped(l, r);
    r
  }

  /** Only an all-whitespace string strips to nothing. */
  lemma StripEmptyIff(s: string)
    ensures Strip(s) == [] <==> IsBlank(s)
  {
    StripBlank(s, TrimLeft(s), Strip(s));
  }

  lemma StripIsSlice(s: string, l: string, r: string)
    requires l == TrimLeft(s) && r == TrimRight(l)
    ensures |s| - |l| + |r| <= |s| && r == s[|s| - |l|..|s| - |l| + |r|]
  {
    PrefixOfSuffix(s, l, r);
  }

  lemma PrefixOfSuffix(s: string, l: string, r: string)
    requires |l| <= |s| && l == s[|s| - |l|..] && |r| <= |l| && r == l[..|r|]
    ensures r == s[|s| - |l|..|s| - |l| + |r|]
  {
  }

  lemma StripIsStripped(l: string, r: string)
    requires r == TrimRight(l) && (l == [] || !IsSpace(l[0]))
    ensures IsStripped(r)
  {
    if r != [] {
      assert r[0] == l[0];
    }
  }

  lemma StripBlank(s: string, l: string, r: string)
    requires l == TrimLeft(s) && r == TrimRight(l)
    ensures r == [] <==> IsBlank(s)
  {
    if r != [] {
      assert r[0] == l[0] == s[|s| - |l|];
    } else {
      TrimLeftDropsSpace(s);
      TrimRightDropsSpace(l);
    }
  }

  // ---------------------------------------------------------------------------
  // Decimal rendering of integers, and its inverse

  function DigitChar(d: nat): (c: char)
    requires d < 10
    ensures IsDigit(c)
  {
    ('0' as int + d) as char
  }

  function DigitValue(c: char): (d: nat)
    requires IsDigit(c)
    ensures d < 10 && DigitChar(d) == c
  {
    c as int - '0' as int
  }

  /** `str(n)` for a natural number. */
  function NatToString(n: nat): (s: string)
    ensures |s| >= 1
  {
    if n < 10 then [DigitChar(n)] else NatToString(n / 10) + [DigitChar(n % 10)]
  }

  /** `str(n)` is made of decimal digits, without a leading zero. */
  lemma {:induction false} NatToStringDigits(n: nat)
    ensures forall i :: 0 <= i < |NatToString(n)| ==> IsDigit(NatToString(n)[i])
    ensures (n < 10) <==> (|NatToString(n)| == 1)
    ensures |NatToString(n)| > 1 ==> NatToString(n)[0] != '0'
  {
    if n >= 10 {
      NatToStringDigits(n / 10);
      var s := NatToString(n);
      assert s == NatToString(n / 10) + [DigitChar(n % 10)];
      assert s[0] == NatToString(n / 10)[0];
    }
  }

  /** The number a string of decimal digits denotes. */
  function DigitsValue(s: string): nat
    requires forall i :: 0 <= i < |s| ==> IsDigit(s[i])
    decreases |s|
  {
    if s == [] then 0 else DigitsValue(s[..|s| - 1]) * 10 + DigitValue(s[|s| - 1])
  }

  lemma {:induction false} DigitsValueOfNatToString(n: nat)
    ensures forall i :: 0 <= i < |NatToString(n)| ==> IsDigit(NatToString(n)[i])
    ensures DigitsValue(NatToString(n)) == n
  {
    NatToStringDigits(n);
    if n >= 10 {
      var s := NatToString(n);
      assert s[..|s| - 1] == NatToString(n / 10);
      DigitsValueOfNatToString(n / 10);
    }
  }

  /** `str(i)` for any integer. */
  function IntToString(i: int): (s: string)
    ensures |s| >= 1
    decreases if i < 0 then 1 else 0
  {
    if i < 0 then "-" + IntToString(-i) else NatToString(i)
  }

  /** Rendering integers is one-to-one. */
  lemma IntToStringInjective(i: int, j: int)
    requires IntToString(i) == IntToString(j)
    ensures i == j
  {
    if i >= 0 && j >= 0 {
      DigitsValueOfNatToString(i);
      DigitsValueOfNatToString(j);
    } else if i < 0 && j < 0 {
      assert NatToString(-i) == IntToString(i)[1..];
      assert NatToString(-j) == IntToString(j)[1..];
      DigitsValueOfNatToString(-i);
      DigitsValueOfNatToString(-j);
    } else {
      NatToStringDigits(if i >= 0 then i else j);
      assert false;
    }
  }

  /** A run of decimals without its trailing zeros, keeping at least one digit. */
  function DropTrailingZeros(s: string): (r: string)
    requires |s| >= 1
    ensures 1 <= |r| <= |s| && r == s[..|r|]
    ensures |r| > 1 ==> r[|r| - 1] != '0'
    ensures forall i :: |r| <= i < |s| ==> s[i] == '0'
    decreases |s|
  {
    if |s| > 1 && s[|s| - 1] == '0' then DropTrailingZeros(s[..|s| - 1]) else s
  }

  /** A coordinate as Python prints the float it stands for: the integer part, a point and
      the decimals without trailing zeros, at least one ("19.076", "-0.5", "73.0"). */
  function CoordText(c: Coord): (s: string)
    ensures |s| >= 3
  {
    var a := Abs(c);
    var frac := NatToString(a % Pow10(CoordDigits) + Pow10(CoordDigits));
    (if c < 0 then "-" else "") + NatToString(a / Pow10(CoordDigits)) + "." + DropTrailingZeros(frac[1..])
  }

  /** `sub in s` */
  predicate Contains(s: string, sub: string) {
    exists k :: 0 <= k <= |s| - |sub| && StartsWith(s[k..], sub)
  }

  predicate StartsWith(s: string, prefix: string) {
    |prefix| <= |s| && s[..|prefix|] == prefix
  }

  // ---------------------------------------------------------------------------
  // Keeping some elements of a sequence and mapping them, as a filtering loop does

  /** The images under `f` of the elements `keep` accepts, in order. */
  function FilterMap<A, B>(xs: seq<A>, keep: A -> bool, f: A -> B): seq<B>
    decreases |xs|
  {
    if xs == [] then []
    else FilterMap(xs[..|xs| - 1], keep, f) + (if keep(xs[|xs| - 1]) then [f(xs[|xs| - 1])] else [])
  }

  /** Every output is the image of an accepted element. */
  lemma {:induction false} FilterMapFrom<A, B>(xs: seq<A>, keep: A -> bool, f: A -> B, y: B)
    requires y in FilterMap(xs, keep, f)
    ensures exists i :: 0 <= i < |xs| && keep(xs[i]) && y == f(xs[i])
    decreases |xs|
  {
    var front := xs[..|xs| - 1];
    if y in FilterMap(front, keep, f) {
      FilterMapFrom(front, keep, f, y);
      var i :| 0 <= i < |front| && keep(front[i]) && y == f(front[i]);
      assert xs[i] == front[i];
    } else {
      assert keep(xs[|xs| - 1]) && y == f(xs[|xs| - 1]);
    }
  }

  /** Every accepted element has its image among the outputs. */
  lemma {:induction false} FilterMapKept<A, B>(xs: seq<A>, keep: A -> bool, f: A -> B, i: nat)
    requires i < |xs| && keep(xs[i])
    ensures f(xs[i]) in FilterMap(xs, keep, f)
    decreases |xs|
  {
    var front := xs[..|xs| - 1];
    if i < |front| {
      assert front[i] == xs[i];
      FilterMapKept(front, keep, f, i);
    }
  }

  /** What the outputs are, both ways. */
  lemma FilterMapMembers<A, B>(xs: seq<A>, keep: A -> bool, f: A -> B, y: B)
    ensures y in FilterMap(xs, keep, f) <==> exists i :: 0 <= i < |xs| && keep(xs[i]) && y == f(xs[i])
  {
    if y in FilterMap(xs, keep, f) {
      FilterMapFrom(xs, keep, f, y);
    }
    if exists i :: 0 <= i < |xs| && keep(xs[i]) && y == f(xs[i]) {
      var i :| 0 <= i < |xs| && keep(xs[i]) && y == f(xs[i]);
      FilterMapKept(xs, keep, f, i);
    }
  }
}
