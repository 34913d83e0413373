/**
 * The Python values the core handles: what `ast.literal_eval` can return
 * (None, booleans, integers, floats, strings, lists, tuples, dicts), plus the
 * `uuid.UUID` objects that identify chunks. Dicts keep their insertion order,
 * as Python's do. This module also gives `str()`, subscripting with a string
 * key, iteration (what `list.extend` consumes) and item assignment on dicts.
 */
module PyValue {
  import opened Wrappers
  import opened PyStr

  /** A `uuid.UUID`, identified by its 128-bit integer value. */
  datatype Uuid = Uuid(bits: nat)

  datatype Value =
    | VNone
    | VBool(b: bool)
    | VInt(i: int)
    | VFloat(repr: string)                 // a float, kept as its `repr`
    | VStr(s: string)
    | VList(items: seq<Value>)
    | VTuple(items: seq<Value>)
    | VDict(entries: seq<(Value, Value)>)  // key-value pairs in insertion order
    | VUuid(id: Uuid)

  /** The Python exceptions the core raises or catches. */
  datatype PyError = KeyError | TypeError | IndexError

  // ---------------------------------------------------------------------------
  // Dicts

  function Keys(entries: seq<(Value, Value)>): (ks: seq<Value>)
    ensures |ks| == |entries|
  {
    seq(|entries|, i requires 0 <= i < |entries| => entries[i].0)
  }

  /** `d.get(key)`: the value stored under `key`, if any. */
  function Get(entries: seq<(Value, Value)>, key: Value): (r: Option<Value>)
    ensures r.Some? <==> key in Keys(entries)
    ensures r.Some? ==> (key, r.value) in entries
  {
    if entries == [] then None
    else if entries[0].0 == key then
      assert Keys(entries)[0] == key;
      Some(entries[0].1)
    else
      assert Keys(entries) == [entries[0].0] + Keys(entries[1..]);
      Get(entries[1..], key)
  }

  /** `d[key] = value`: a key already present keeps its position, a new key goes last. */
  function SetItem(entries: seq<(Value, Value)>, key: Value, value: Value): (r: seq<(Value, Value)>)
    ensures (key, value) in r
    ensures |r| == if key in Keys(entries) then |entries| else |entries| + 1
  {
    if entries == [] then [(key, value)]
    else if entries[0].0 == key then
      assert Keys(entries)[0] == key;
      [(key, value)] + entries[1..]
    else
      assert Keys(entries) == [entries[0].0] + Keys(entries[1..]);
      [entries[0]] + SetItem(entries[1..], key, value)
  }

  /** After `d[key] = value`, `key` maps to `value`. */
  lemma {:induction false} SetItemGet(entries: seq<(Value, Value)>, key: Value, value: Value)
    ensures Get(SetItem(entries, key, value), key) == Some(value)
    decreases |entries|
  {
    if entries != [] && entries[0].0 != key {
      SetItemGet(entries[1..], key, value);
      assert SetItem(entries, key, value)[1..] == SetItem(entries[1..], key, value);
    }
  }

  /** After `d[key] = value`, every other key maps to what it did before. */
  lemma {:induction false} SetItemOther(entries: seq<(Value, Value)>, key: Value, value: Value, other: Value)
    requires other != key
    ensures Get(SetItem(entries, key, value), other) == Get(entries, other)
    decreases |entries|
  {
    var r := SetItem(entries, key, value);
    if entries == [] {
    } else if entries[0].0 == key {
      assert r[1..] == entries[1..];
    } else if entries[0].0 != other {
      SetItemOther(entries[1..], key, value, other);
      assert r[1..] == SetItem(entries[1..], key, value);
    }
  }

  /** `d[key] = value` keeps the order of the keys; a new key goes last. */
  lemma {:induction false} SetItemKeys(entries: seq<(Value, Value)>, key: Value, value: Value)
    ensures Keys(SetItem(entries, key, value))
         == if key in Keys(entries) then Keys(entries) else Keys(entries) + [key]
    decreases |entries|
  {
    if entries == [] {
    } else if entries[0].0 == key {
      SetItemKeysHit(entries, key, value);
    } else {
      SetItemKeys(entries[1..], key, value);
      SetItemKeysMiss(entries, key, value);
    }
  }

  lemma SetItemKeysHit(entries: seq<(Value, Value)>, key: Value, value: Value)
    requires entries != [] && entries[0].0 == key
    ensures key in Keys(entries) && Keys(SetItem(entries, key, value)) == Keys(entries)
  {
    assert Keys(entries)[0] == key;
    assert Keys(SetItem(entries, key, value)) == Keys(entries);
  }

  lemma SetItemKeysMiss(entries: seq<(Value, Value)>, key: Value, value: Value)
    requires entries != [] && entries[0].0 != key
    requires var tail := entries[1..];
      Keys(SetItem(tail, key, value)) == if key in Keys(tail) then Keys(tail) else Keys(tail) + [key]
    ensures Keys(SetItem(entries, key, value))
         == if key in Keys(entries) then Keys(entries) else Keys(entries) + [key]
  {
    var first, tail := entries[0], entries[1..];
    assert entries == [first] + tail;
    assert SetItem(entries, key, value) == [first] + SetItem(tail, key, value);
    KeysCons(first, tail);
    KeysCons(first, SetItem(tail, key, value));
    var ks := Keys(tail);
    assert key in Keys(entries) <==> key in ks;
    assert [first.0] + (ks + [key]) == ([first.0] + ks) + [key];
  }

  lemma KeysCons(first: (Value, Value), tail: seq<(Value, Value)>)
    ensures Keys([first] + tail) == [first.0] + Keys(tail)
  {
  }

  /**
   * `v[key]` for a string key: the stored value of a dict, `KeyError` when the
   * dict lacks the key, `TypeError` for anything that is not a dict.
   */
  function Subscript(v: Value, key: string): (r: Result<Value, PyError>)
    ensures r.Ok? <==> v.VDict? && VStr(key) in Keys(v.entries)
    ensures r.Ok? ==> (VStr(key), r.value) in v.entries
    ensures r.Err? ==> r.error == (if v.VDict? then KeyError else TypeError)
  {
    match v
    case VDict(entries) =>
      (match Get(entries, VStr(key))
       case Some(x) => Ok(x)
       case None => Err(KeyError))
    case _ => Err(TypeError)
  }

  /**
   * The elements iterating over `v` yields, which is what `list.extend(v)`
   * appends: the items of a list or tuple, the keys of a dict, the characters
   * of a string (as one-character strings); `None` for a value that is not
   * iterable (`extend` raises `TypeError`).
   */
  function Elements(v: Value): (r: Option<seq<Value>>)
    ensures r.Some? <==> v.VList? || v.VTuple? || v.VDict? || v.VStr?
    ensures v.VList? || v.VTuple? ==> r == Some(v.items)
    ensures v.VDict? ==> r == Some(Keys(v.entries))
    ensures v.VStr? ==>
      && r.Some? && |r.value| == |v.s|
      && forall k :: 0 <= k < |v.s| ==> r.value[k] == VStr([v.s[k]])
  {
    match v
    case VList(items) => Some(items)
    case VTuple(items) => Some(items)
    case VDict(entries) => Some(Keys(entries))
    case VStr(s) => Some(seq(|s|, k requires 0 <= k < |s| => VStr([s[k]])))
    case _ => None
  }

  // ---------------------------------------------------------------------------
  // str() and repr()

  function DigitChar(d: nat): char
    requires d < 16
  {
    "0123456789abcdef"[d]
  }

  /** The decimal digits of `n`, without sign. */
  function Decimal(n: nat): (r: string)
    ensures |r| >= 1
    decreases n
  {
    if n < 10 then [DigitChar(n)] else Decimal(n / 10) + [DigitChar(n % 10)]
  }

  /** `str(i)` of an integer. */
  function IntToString(i: int): string {
    if i < 0 then "-" + Decimal(-i) else Decimal(i)
  }

  /** The `width` lowest hexadecimal digits of `n`, most significant first. */
  function Hex(n: nat, width: nat): (r: string)
    ensures |r| == width
  {
    if width == 0 then "" else Hex(n / 16, width - 1) + [DigitChar(n % 16)]
  }

  /** `str(u)` of a UUID: 32 lower-case hex digits grouped 8-4-4-4-12. */
  function UuidToString(u: Uuid): (r: string)
    ensures |r| == 36
  {
    var h := Hex(u.bits, 32);
    h[..8] + "-" + h[8..12] + "-" + h[12..16] + "-" + h[16..20] + "-" + h[20..]
  }

  /** `repr(s)` of a string: single quotes unless the text holds a single quote and no double quote. */
  function QuoteString(s: string): string {
    if '\'' in s && '"' !in s then "\"" + s + "\"" else "'" + s + "'"
  }

  /** `repr(v)`. */
  function Repr(v: Value): string
    decreases v
  {
    match v
    case VNone => "None"
    case VBool(b) => if b then "True" else "False"
    case VInt(i) => IntToString(i)
    case VFloat(r) => r
    case VStr(s) => QuoteString(s)
    case VList(items) =>
      "[" + Join(seq(|items|, k requires 0 <= k < |items| => Repr(items[k])), ", ") + "]"
    case VTuple(items) =>
      if |items| == 1 then "(" + Repr(items[0]) + ",)"
      else "(" + Join(seq(|items|, k requires 0 <= k < |items| => Repr(items[k])), ", ") + ")"
    case VDict(entries) =>
      "{" + Join(seq(|entries|, k requires 0 <= k < |entries| =>
                   Repr(entries[k].0) + ": " + Repr(entries[k].1)), ", ") + "}"
    case VUuid(u) => "UUID('" + UuidToString(u) + "')"
  }

  /** `str(v)`: a string is itself, a UUID its hex form, anything else its `repr`. */
  function Str(v: Value): (r: string)
    ensures v.VStr? ==> r == v.s
  {
    match v
    case VStr(s) => s
    case VUuid(u) => UuidToString(u)
    case _ => Repr(v)
  }

  /** `[str(v) for v in vs]`; strings come through unchanged. */
  function ToStrings(vs: seq<Value>): (r: seq<string>)
    ensures |r| == |vs|
    ensures forall i :: 0 <= i < |vs| && vs[i].VStr? ==> r[i] == vs[i].s
  {
    seq(|vs|, i requires 0 <= i < |vs| => Str(vs[i]))
  }
}
