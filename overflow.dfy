/** The 32-bit id fix-up applied to every decoded Bot API response. The code
    assumes that on a platform whose PHP integers are 32 bits wide a Telegram
    id above 2^31 - 1 arrives as a negative integer; it rewrites every entry
    keyed `id` holding a negative integer, including an id that was negative in
    the response itself, to the decimal string of that value plus 2^32. */
module Overflow {
  import opened Wrappers
  import opened Php

  /** 2^32: added to a wrapped negative id to recover its unsigned value. */
  const TwoToThe32: int := 4294967296

  /** A PHP array key or object property name. */
  datatype Key = IntKey(n: int) | StrKey(s: string)

  datatype NodeKind = PhpArray | PhpObject

  /** A decoded JSON value: scalars, or an array/object node whose entries are
      key/value pairs in iteration order. */
  datatype Json =
    | JInt(i: int)
    | JString(s: string)
    | JFloat(f: real)
    | JBool(b: bool)
    | JNull
    | JNode(kind: NodeKind, entries: seq<Entry>)

  datatype Entry = Entry(key: Key, value: Json)

  /** The guard of the rewrite: an `id` entry holding a negative integer, on a
      32-bit platform. */
  predicate IsWrappedId(key: Key, value: Json, is32Bit: bool)
  {
    key == StrKey("id") && value.JInt? && value.i < 0 && is32Bit
  }

  /** The value a scalar entry holds after the fix-up. */
  function FixLeaf(key: Key, value: Json, is32Bit: bool): (r: Json)
    ensures r != value <==> IsWrappedId(key, value, is32Bit)
    ensures r == value || r.JString?
  {
    if IsWrappedId(key, value, is32Bit) then JString(IntToString(value.i + TwoToThe32)) else value
  }

  /** `fixIntegerOverflow` as a function of the tree it is given: nodes are
      walked entry by entry, recursing into nested nodes and rewriting scalars
      with `FixLeaf`; a scalar at the top is left alone. */
  function Fix(data: Json, is32Bit: bool): (r: Json)
    ensures r.JNode? <==> data.JNode?
    ensures data.JNode? ==> r.kind == data.kind && |r.entries| == |data.entries|
    ensures !data.JNode? ==> r == data
  {
    match data
    case JNode(kind, entries) =>
      JNode(kind, seq(|entries|, k requires 0 <= k < |entries| =>
        Entry(entries[k].key,
              if entries[k].value.JNode? then Fix(entries[k].value, is32Bit)
              else FixLeaf(entries[k].key, entries[k].value, is32Bit))))
    case _ => data
  }

  /** `fixIntegerOverflow(&$data)`: walks the entries of an array or object in
      order, recursing into nested arrays and objects and overwriting each
      wrapped `id` entry in place; any other value is left as it is. */
  method FixIntegerOverflow(data: Json, is32Bit: bool) returns (fixed: Json)
    ensures fixed == Fix(data, is32Bit)
    decreases data
  {
    if !data.JNode? {
      return data;
    }
    var entries := data.entries;
    var i := 0;
    while i < |entries|
      invariant 0 <= i <= |entries| == |data.entries|
      invariant forall k :: 0 <= k < i ==> entries[k] == Fix(data, is32Bit).entries[k]
      invariant forall k :: i <= k < |entries| ==> entries[k] == data.entries[k]
    {
      var key, value := entries[i].key, entries[i].value;
      if value.JNode? {
        assert data.entries[i] in data.entries;
        var fixedValue := FixIntegerOverflow(value, is32Bit);
        entries := entries[i := Entry(key, fixedValue)];
      } else if key == StrKey("id") && value.JInt? && value.i < 0 && is32Bit {
        // An object is written through its property, an array through the
        // reference to the element: either way this entry is replaced.
        entries := entries[i := Entry(key, JString(IntToString(value.i + TwoToThe32)))];
      }
      i := i + 1;
    }
    fixed := JNode(data.kind, entries);
  }

  /** The first entry position holding `key`. */
  function FindKey(entries: seq<Entry>, key: Key): (r: Option<nat>)
    ensures r.Some? ==> r.value < |entries| && entries[r.value].key == key
    ensures r.Some? ==> forall m :: 0 <= m < r.value ==> entries[m].key != key
    ensures r.None? <==> forall k :: 0 <= k < |entries| ==> entries[k].key != key
  {
    if entries == [] then None
    else if entries[0].key == key then Some(0)
    else match FindKey(entries[1..], key)
      case None => None
      case Some(k) => Some(k + 1)
  }

  /** Position `k` holds the first `result` entry. */
  predicate IsFirstResult(entries: seq<Entry>, k: int)
  {
    && 0 <= k < |entries|
    && entries[k].key == StrKey("result")
    && forall m :: 0 <= m < k ==> entries[m].key != StrKey("result")
  }

  /** `is_object($json) && isset($json->result)`: an object with a `result`
      property that is not null. */
  predicate HasResult(json: Json): (b: bool)
    ensures b <==> json.JNode? && json.kind == PhpObject
                   && exists k :: IsFirstResult(json.entries, k) && json.entries[k].value != JNull
  {
    && json.JNode?
    && json.kind == PhpObject
    && FindKey(json.entries, StrKey("result")).Some?
    && json.entries[FindKey(json.entries, StrKey("result")).value].value != JNull
  }

  /** The hook run after every Bot API request: fixes the response's `result`
      in place and hands back the response. Nothing but `result` changes, and a
      response without one comes back as it was. */
  method AfterApiRequest(json: Json, is32Bit: bool) returns (response: Json)
    ensures !HasResult(json) ==> response == json
    ensures HasResult(json) ==>
              var k := FindKey(json.entries, StrKey("result")).value;
              && response.JNode? && response.kind == PhpObject
              && |response.entries| == |json.entries|
              && response.entries[k] == Entry(StrKey("result"), Fix(json.entries[k].value, is32Bit))
              && forall m :: 0 <= m < |json.entries| && m != k ==> response.entries[m] == json.entries[m]
    ensures !is32Bit ==> response == json
  {
    response := json;
    if json.JNode? && json.kind == PhpObject {
      var found := FindKey(json.entries, StrKey("result"));
      if found.Some? && json.entries[found.value].value != JNull {
        var k := found.value;
        var result := FixIntegerOverflow(json.entries[k].value, is32Bit);
        response := JNode(PhpObject, json.entries[k := Entry(StrKey("result"), result)]);
        if !is32Bit {
          FixOffIsIdentity(json.entries[k].value);
          assert json.entries[k := Entry(StrKey("result"), result)] == json.entries;
        }
      }
    }
  }

  // Properties of the fix-up

  /** A scalar stays a scalar under the leaf rewrite. */
  lemma FixLeafIsScalar(key: Key, value: Json, is32Bit: bool)
    requires !value.JNode?
    ensures !FixLeaf(key, value, is32Bit).JNode?
  {
  }

  /** On a 64-bit platform the fix-up changes nothing, at any depth. */
  lemma {:induction false} FixOffIsIdentity(data: Json)
    ensures Fix(data, false) == data
  {
    if data.JNode? {
      var fixed := Fix(data, false);
      forall k | 0 <= k < |data.entries|
        ensures fixed.entries[k] == data.entries[k]
      {
        if data.entries[k].value.JNode? {
          FixOffIsIdentity(data.entries[k].value);
        }
      }
    }
  }

  /** The tree with every scalar blanked out: kinds, keys, child counts and
      nesting. */
  function Shape(data: Json): Json
  {
    match data
    case JNode(kind, entries) =>
      JNode(kind, seq(|entries|, k requires 0 <= k < |entries| =>
        Entry(entries[k].key, Shape(entries[k].value))))
    case _ => JNull
  }

  /** The fix-up keeps the tree's shape: every node keeps its kind, its keys in
      their order and its number of children, at every depth. */
  lemma {:induction false} FixKeepsShape(data: Json, is32Bit: bool)
    ensures Shape(Fix(data, is32Bit)) == Shape(data)
  {
    if data.JNode? {
      var fixed := Fix(data, is32Bit);
      forall k | 0 <= k < |data.entries|
        ensures Shape(fixed).entries[k] == Shape(data).entries[k]
      {
        var e := data.entries[k];
        if e.value.JNode? {
          FixKeepsShape(e.value, is32Bit);
        } else {
          FixLeafIsScalar(e.key, e.value, is32Bit);
        }
      }
    }
  }

  /** A second pass changes nothing: rewritten ids are strings, which the guard
      no longer matches. */
  lemma {:induction false} FixIdempotent(data: Json, is32Bit: bool)
    ensures Fix(Fix(data, is32Bit), is32Bit) == Fix(data, is32Bit)
  {
    if data.JNode? {
      var once := Fix(data, is32Bit);
      var twice := Fix(once, is32Bit);
      forall k | 0 <= k < |data.entries|
        ensures twice.entries[k] == once.entries[k]
      {
        var e := data.entries[k];
        if e.value.JNode? {
          FixIdempotent(e.value, is32Bit);
        } else {
          FixLeafIsScalar(e.key, e.value, is32Bit);
        }
      }
    }
  }

  /** The entry reached by following entry positions down from `data`. */
  function EntryAt(data: Json, path: seq<nat>): Option<Entry>
    decreases |path|
  {
    if path == [] || !data.JNode? || path[0] >= |data.entries| then None
    else if |path| == 1 then Some(data.entries[path[0]])
    else EntryAt(data.entries[path[0]].value, path[1..])
  }

  /** At any depth, the entry after the fix-up has the same key; a nested node
      is fixed in turn and a scalar goes through the leaf rewrite. */
  lemma {:induction false} FixAt(data: Json, path: seq<nat>, is32Bit: bool)
    requires EntryAt(data, path).Some?
    ensures var e := EntryAt(data, path).value;
            EntryAt(Fix(data, is32Bit), path)
              == Some(Entry(e.key, if e.value.JNode? then Fix(e.value, is32Bit) else FixLeaf(e.key, e.value, is32Bit)))
  {
    if |path| > 1 {
      FixAt(data.entries[path[0]].value, path[1..], is32Bit);
    }
  }

  /** Only wrapped ids change: a scalar entry under any other key, or holding a
      non-negative integer or a non-integer, is untouched at every depth. */
  lemma {:induction false} OnlyWrappedIdsChange(data: Json, path: seq<nat>, is32Bit: bool)
    requires EntryAt(data, path).Some?
    requires !EntryAt(data, path).value.value.JNode?
    requires !IsWrappedId(EntryAt(data, path).value.key, EntryAt(data, path).value.value, is32Bit)
    ensures EntryAt(Fix(data, is32Bit), path) == EntryAt(data, path)
  {
    FixAt(data, path, is32Bit);
  }

  /** A negative integer under `id`, in an array or an object at any depth,
      becomes the decimal string of its value plus 2^32 on a 32-bit platform. */
  lemma {:induction false} WrappedIdBecomesString(data: Json, path: seq<nat>, v: int)
    requires EntryAt(data, path) == Some(Entry(StrKey("id"), JInt(v)))
    requires v < 0
    ensures EntryAt(Fix(data, true), path) == Some(Entry(StrKey("id"), JString(IntToString(v + 4294967296))))
  {
    FixAt(data, path, true);
  }

  /** The code treats a negative id in [-2^31, -1] as one that wrapped from 32
      bits: it is rewritten to the decimal string of a number in
      [2^31, 2^32 - 1], digits only, and PHP reads that number back from it. */
  lemma WrappedIdRange(v: int)
    requires -2147483648 <= v <= -1
    ensures var text := FixLeaf(StrKey("id"), JInt(v), true);
            && text.JString?
            && AllDigits(text.s)
            && 2147483648 <= StringToInt(text.s) <= 4294967295
  {
    StringToIntOfIntToString(v + TwoToThe32, "");
    assert IntToString(v + TwoToThe32) + "" == IntToString(v + TwoToThe32);
  }
}
