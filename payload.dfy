/** JSON-like values and Python's insertion-ordered dicts, as used for MQTT payloads and log rows. */
module Payload {
  import opened Common

  datatype Json =
    | JNull
    | JBool(b: bool)
    | JInt(i: int)
    | JReal(r: real)
    | JStr(s: string)
    | JList(items: seq<Json>)
    | JObj(fields: seq<(string, Json)>)
    | JLoc(loc: Location)  // a location dict passed through unchanged

  /** No key occurs twice. */
  predicate UniqueKeys(d: seq<(string, Json)>) {
    forall i, j :: 0 <= i < j < |d| ==> d[i].0 != d[j].0
  }

  /** A dict: entries in insertion order, keys unique. */
  type Dict = d: seq<(string, Json)> | UniqueKeys(d) witness []

  function Keys(d: seq<(string, Json)>): (ks: seq<string>)
    ensures |ks| == |d| && forall i :: 0 <= i < |d| ==> ks[i] == d[i].0
  {
    seq(|d|, i requires 0 <= i < |d| => d[i].0)
  }

  /** The position of key `k` in `d`, scanning from the front. */
  function IndexOf(d: seq<(string, Json)>, k: string): (r: Option<nat>)
    ensures r.Some? ==> r.value < |d| && d[r.value].0 == k
    ensures r.Some? ==> forall j :: 0 <= j < r.value ==> d[j].0 != k
    ensures r.None? ==> forall j :: 0 <= j < |d| ==> d[j].0 != k
  {
    if d == [] then None
    else if d[0].0 == k then Some(0)
    else match IndexOf(d[1..], k)
      case None => None
      case Some(i) => Some(i + 1)
  }

  /** `d.get(k)` */
  function Lookup(d: seq<(string, Json)>, k: string): (r: Option<Json>)
    ensures r.None? <==> k !in Keys(d)
    ensures forall i :: 0 <= i < |d| && d[i].0 == k && UniqueKeys(d) ==> r == Some(d[i].1)
  {
    match IndexOf(d, k)
    case None => None
    case Some(i) => Some(d[i].1)
  }

  /** `d[k] = v`: an existing key keeps its position, a new key goes last. */
  function Put(d: Dict, k: string, v: Json): (r: Dict)
    ensures Lookup(r, k) == Some(v)
    ensures forall k' :: k' != k ==> Lookup(r, k') == Lookup(d, k')
    ensures k in Keys(d) ==> Keys(r) == Keys(d)
    ensures k !in Keys(d) ==> Keys(r) == Keys(d) + [k]
  {
    match IndexOf(d, k)
    case Some(i) =>
      var r := d[i := (k, v)];
      assert Keys(r) == Keys(d);
      r
    case None =>
      var r := d + [(k, v)];
      assert Keys(r) == Keys(d) + [k];
      r
  }

  /** `{**base, **extra}` */
  function Merge(base: Dict, extra: Dict): Dict
    decreases |extra|
  {
    if extra == [] then base
    else
      var tail: Dict := extra[1..];
      Merge(Put(base, extra[0].0, extra[0].1), tail)
  }

  /** Every key of `extra` takes its value from `extra`; all other keys keep theirs. */
  lemma {:induction false} MergeLookup(base: Dict, extra: Dict, k: string)
    ensures Lookup(Merge(base, extra), k) == if k in Keys(extra) then Lookup(extra, k) else Lookup(base, k)
    decreases |extra|
  {
    if extra != [] {
      var tail: Dict := extra[1..];
      assert Keys(extra) == [extra[0].0] + Keys(tail);
      MergeLookup(Put(base, extra[0].0, extra[0].1), tail, k);
      if k != extra[0].0 && k in Keys(tail) {
        var i :| 0 <= i < |tail| && tail[i].0 == k;
        assert extra[i + 1] == tail[i];
      }
    }
  }
}
