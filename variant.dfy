/** The backend's tagged value tree (`mpv_node`) and the dynamic value the
    application works with (`QVariant`), with the marshaller between them
    (src/mpvobject.cpp `nodeToVariant`) and the Qt conversions the rest of
    the player applies to dynamic values. */
module Variant {
  import opened Base
  import opened Text

  /** An `mpv_node`. A flag carries mpv's C `int`; a map keeps its entries
      in the order the backend lists them (keys may repeat). Formats the
      player does not handle (none, byte arrays) are `NOther`. */
  datatype Node =
    | NString(str: string)
    | NFlag(flag: int)
    | NInt64(int64: int)
    | NDouble(dbl: Float)
    | NArray(items: seq<Node>)
    | NMap(entries: seq<Entry>)
    | NOther

  datatype Entry = Entry(key: string, node: Node)

  /** A `QVariant`: invalid, a scalar, a list, a string-keyed map, or a `QSize`. */
  datatype Value =
    | Invalid
    | VString(s: string)
    | VBool(b: bool)
    | VInt(i: int)
    | VDouble(d: Float)
    | VList(list: seq<Value>)
    | VMap(fields: map<string, Value>)
    | VSize(width: int, height: int)

  /** `nodeToVariant`: scalars map to the same scalar, arrays to lists and
      maps to maps, element by element; unknown formats to an invalid value. */
  function NodeToVariant(n: Node): Value
    decreases n, 1, 0
  {
    match n
    case NString(s) => VString(s)
    case NFlag(f) => VBool(f != 0)
    case NInt64(i) => VInt(i)
    case NDouble(d) => VDouble(d)
    case NArray(items) => VList(ArrayToList(n, |items|))
    case NMap(entries) => VMap(EntriesToMap(n, |entries|))
    case NOther => Invalid
  }

  /** The list built by appending the first `k` converted elements. */
  function ArrayToList(n: Node, k: nat): seq<Value>
    requires n.NArray? && k <= |n.items|
    decreases n, 0, k
  {
    if k == 0 then [] else ArrayToList(n, k - 1) + [NodeToVariant(n.items[k - 1])]
  }

  /** The map built by inserting the first `k` converted entries; a later
      entry with the same key replaces an earlier one (`QVariantMap::insert`). */
  function EntriesToMap(n: Node, k: nat): map<string, Value>
    requires n.NMap? && k <= |n.entries|
    decreases n, 0, k
  {
    if k == 0 then map[]
    else EntriesToMap(n, k - 1)[n.entries[k - 1].key := NodeToVariant(n.entries[k - 1].node)]
  }

  lemma {:induction false} ArrayToListShape(n: Node, k: nat)
    requires n.NArray? && k <= |n.items|
    ensures |ArrayToList(n, k)| == k
    ensures forall i :: 0 <= i < k ==> ArrayToList(n, k)[i] == NodeToVariant(n.items[i])
  {
    if k > 0 {
      ArrayToListShape(n, k - 1);
    }
  }

  /** Entry `i` is the last of the first `k` entries that carries its key. */
  predicate LastWithKey(es: seq<Entry>, i: int, k: int)
    requires 0 <= i < k <= |es|
  {
    forall j :: i < j < k ==> es[j].key != es[i].key
  }

  /** The map's keys are the keys of the first `k` entries. */
  lemma {:induction false} EntriesToMapKeys(n: Node, k: nat)
    requires n.NMap? && k <= |n.entries|
    ensures EntriesToMap(n, k).Keys == set i | 0 <= i < k :: n.entries[i].key
  {
    if k > 0 {
      EntriesToMapKeys(n, k - 1);
    }
  }

  /** The value for a key converts the last of the first `k` entries naming it. */
  lemma {:induction false} EntriesToMapValues(n: Node, k: nat)
    requires n.NMap? && k <= |n.entries|
    ensures forall i :: 0 <= i < k && LastWithKey(n.entries, i, k) ==>
      n.entries[i].key in EntriesToMap(n, k) && EntriesToMap(n, k)[n.entries[i].key] == NodeToVariant(n.entries[i].node)
  {
    if k > 0 {
      EntriesToMapValues(n, k - 1);
      var es := n.entries;
      forall i | 0 <= i < k && LastWithKey(es, i, k)
        ensures es[i].key in EntriesToMap(n, k) && EntriesToMap(n, k)[es[i].key] == NodeToVariant(es[i].node)
      {
        if i < k - 1 {
          assert LastWithKey(es, i, k - 1);
        }
      }
    }
  }

  /** The marshaller preserves structure: each scalar becomes the same scalar,
      an array a list of the same length and order, a map a map with the same
      keys whose value for a key converts the last entry naming it, and an
      unknown format the invalid value. */
  lemma NodeToVariantPreservesStructure(n: Node)
    ensures n.NString? ==> NodeToVariant(n) == VString(n.str)
    ensures n.NFlag? ==> NodeToVariant(n) == VBool(n.flag != 0)
    ensures n.NInt64? ==> NodeToVariant(n) == VInt(n.int64)
    ensures n.NDouble? ==> NodeToVariant(n) == VDouble(n.dbl)
    ensures n.NOther? ==> NodeToVariant(n) == Invalid
    ensures n.NArray? ==>
      && NodeToVariant(n).VList?
      && |NodeToVariant(n).list| == |n.items|
      && forall i :: 0 <= i < |n.items| ==> NodeToVariant(n).list[i] == NodeToVariant(n.items[i])
    ensures n.NMap? ==>
      && NodeToVariant(n).VMap?
      && NodeToVariant(n).fields.Keys == (set i | 0 <= i < |n.entries| :: n.entries[i].key)
      && forall i :: 0 <= i < |n.entries| && LastWithKey(n.entries, i, |n.entries|) ==>
           NodeToVariant(n).fields[n.entries[i].key] == NodeToVariant(n.entries[i].node)
  {
    match n
    case NArray(items) => ArrayToListShape(n, |items|);
    case NMap(entries) => EntriesToMapKeys(n, |entries|); EntriesToMapValues(n, |entries|);
    case _ =>
  }

  // ---- Qt conversions ---------------------------------------------------

  /** `QVariantMap::value(key, fallback)`. */
  function Get(m: map<string, Value>, key: string, fallback: Value): (r: Value)
    ensures key in m ==> r == m[key]
    ensures key !in m ==> r == fallback
  {
    if key in m then m[key] else fallback
  }

  /** `QVariant::toMap`: the map itself, or an empty map for anything else. */
  function ToMap(v: Value): (r: map<string, Value>)
    ensures v.VMap? ==> r == v.fields
    ensures !v.VMap? ==> r == map[]
  {
    if v.VMap? then v.fields else map[]
  }

  /** `QVariant::toBool`. A string is true unless, lower-cased, it is empty,
      "0" or "false"; numbers are true when non-zero (NaN is non-zero). */
  function ToBool(v: Value): bool {
    match v
    case Invalid => false
    case VString(s) => var l := Lower(s); !(l == "" || l == "0" || l == "false")
    case VBool(b) => b
    case VInt(i) => i != 0
    case VDouble(d) => d != Num(0.0)
    case VList(_) => false
    case VMap(_) => false
    case VSize(_, _) => false
  }

  /** `QVariant::toString`. Doubles, lists, maps and sizes have no text here
      (decimal rendering of doubles is not modelled). */
  function ToString(v: Value): string {
    match v
    case VString(s) => s
    case VBool(b) => if b then "true" else "false"
    case VInt(i) => IntToDec(i)
    case _ => ""
  }

  /** `QVariant::toInt`: a 64-bit integer is truncated to 32 bits; a string
      holding an in-range decimal integer is parsed; everything else is 0. */
  function ToInt(v: Value): (r: int)
    ensures IsInt32(r)
  {
    match v
    case VInt(i) => Wrap32(i)
    case VBool(b) => if b then 1 else 0
    case VString(s) => if IsInteger(s) && IsInt32(ParseInt(s)) then ParseInt(s) else 0
    case _ => 0
  }

  /** `QVariant::toDouble`: numbers convert, a decimal integer string is
      parsed, everything else is 0. */
  function ToDouble(v: Value): (r: Float)
    ensures v.VDouble? ==> r == v.d
    ensures !v.VDouble? ==> r.Num?
  {
    match v
    case VDouble(d) => d
    case VInt(i) => Num(i as real)
    case VBool(b) => if b then Num(1.0) else Num(0.0)
    case VString(s) => if IsInteger(s) then Num(ParseInt(s) as real) else Num(0.0)
    case _ => Num(0.0)
  }

  /** `QVariant::toSize`: a stored size, or the invalid size (-1 x -1). */
  function ToSize(v: Value): (r: (int, int))
    ensures v.VSize? ==> r == (v.width, v.height)
  {
    if v.VSize? then (v.width, v.height) else (-1, -1)
  }

  /** A string value reads back as itself, a stored integer in range as
      itself, a boolean as itself: what a setter writes, its getter reads. */
  lemma ConversionsRoundTrip(s: string, i: int, b: bool, w: int, h: int)
    ensures ToString(VString(s)) == s
    ensures IsInt32(i) ==> ToInt(VInt(i)) == i
    ensures ToBool(VBool(b)) == b
    ensures ToSize(VSize(w, h)) == (w, h)
    ensures IsInt32(i) ==> ToInt(VString(ToString(VInt(i)))) == i
  {
    IntRoundTrip(i);
  }
}
