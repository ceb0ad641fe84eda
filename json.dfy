/**
 * JSON values as `json.loads` returns them, and the compact rendering of
 * `json.dumps(obj, separators=(",", ":"))`.
 */
module Json {
  import opened Wrappers
  import Text

  /**
   * A decoded JSON value. Objects keep their members in insertion order, as a Python
   * dict does. A float is carried as the text `json.dumps` writes for it.
   */
  datatype Json =
    | JNull
    | JBool(b: bool)
    | JInt(i: int)
    | JFloat(text: string)
    | JString(s: string)
    | JArray(items: seq<Json>)
    | JObject(members: seq<(string, Json)>)

  /** `type(v).__name__` of the Python value `json.loads` produces. */
  function TypeName(j: Json): string
  {
    match j
    case JNull => "NoneType"
    case JBool(_) => "bool"
    case JInt(_) => "int"
    case JFloat(_) => "float"
    case JString(_) => "str"
    case JArray(_) => "list"
    case JObject(_) => "dict"
  }

  /** `type(v).__name__` names `dict` exactly for objects. */
  lemma TypeNameDictIffObject(j: Json)
    ensures TypeName(j) == "dict" <==> j.JObject?
  {
    match j
    case JNull => assert TypeName(j)[0] == 'N';
    case JBool(_) => assert TypeName(j)[0] == 'b';
    case JInt(_) => assert TypeName(j)[0] == 'i';
    case JFloat(_) => assert TypeName(j)[0] == 'f';
    case JString(_) => assert TypeName(j)[0] == 's';
    case JArray(_) => assert TypeName(j)[0] == 'l';
    case JObject(_) =>
  }

  /** `obj.get(key)`: the value of the first member named `key`, if any. */
  function Get(members: seq<(string, Json)>, key: string): (r: Option<Json>)
  {
    if |members| == 0 then None
    else if members[0].0 == key then Some(members[0].1)
    else Get(members[1..], key)
  }

  /** The lookup finds a value exactly when some member has the key, and then it is that member's value. */
  lemma {:induction false} GetFindsFirstMember(members: seq<(string, Json)>, key: string)
    ensures Get(members, key).Some? <==> exists k :: 0 <= k < |members| && members[k].0 == key
    ensures Get(members, key).Some? ==>
              exists k :: 0 <= k < |members| && members[k] == (key, Get(members, key).value)
                          && forall m :: 0 <= m < k ==> members[m].0 != key
  {
    if |members| > 0 && members[0].0 != key {
      GetFindsFirstMember(members[1..], key);
      assert forall k :: 0 < k < |members| ==> members[k] == members[1..][k - 1];
      if Get(members, key).Some? {
        var k :| 0 <= k < |members[1..]| && members[1..][k] == (key, Get(members, key).value)
                 && forall m :: 0 <= m < k ==> members[1..][m].0 != key;
        assert members[k + 1] == (key, Get(members, key).value);
      }
    } else if |members| > 0 {
      assert members[0] == (key, Get(members, key).value);
    }
  }

  /** A member put in front shadows every later member of the same name. */
  lemma GetPrepend(members: seq<(string, Json)>, key: string, value: Json, k: string)
    ensures Get([(key, value)] + members, k) == if k == key then Some(value) else Get(members, k)
  {
    assert ([(key, value)] + members)[1..] == members;
  }

  /** A member appended under another name does not change a lookup. */
  lemma {:induction false} GetAppendOther(members: seq<(string, Json)>, key: string, value: Json, k: string)
    requires k != key
    ensures Get(members + [(key, value)], k) == Get(members, k)
  {
    if |members| > 0 {
      assert (members + [(key, value)])[1..] == members[1..] + [(key, value)];
      GetAppendOther(members[1..], key, value, k);
    }
  }

  /** `obj[key] = value`: the member named `key` gets the new value where it stands, or is added last. */
  function SetItem(members: seq<(string, Json)>, key: string, value: Json): seq<(string, Json)>
  {
    if |members| == 0 then [(key, value)]
    else if members[0].0 == key then [(key, value)] + members[1..]
    else [members[0]] + SetItem(members[1..], key, value)
  }

  /** No two members share a key, as in a Python dict. */
  predicate DistinctKeys(members: seq<(string, Json)>)
  {
    |members| == 0 || (Get(members[1..], members[0].0).None? && DistinctKeys(members[1..]))
  }

  /** After `obj[key] = value` the key looks up the new value and every other key is unchanged. */
  lemma {:induction false} GetSetItem(members: seq<(string, Json)>, key: string, value: Json, k: string)
    ensures Get(SetItem(members, key, value), k) == if k == key then Some(value) else Get(members, k)
  {
    if |members| > 0 && members[0].0 == key {
      assert SetItem(members, key, value)[1..] == members[1..];
    } else if |members| > 0 {
      assert SetItem(members, key, value)[1..] == SetItem(members[1..], key, value);
      GetSetItem(members[1..], key, value, k);
    }
  }

  /**
   * Assigning to a key keeps the keys distinct, and replaces rather than adds when the
   * key is already there.
   */
  lemma {:induction false} SetItemKeepsDistinctKeys(members: seq<(string, Json)>, key: string, value: Json)
    requires DistinctKeys(members)
    ensures DistinctKeys(SetItem(members, key, value))
    ensures |SetItem(members, key, value)| == if Get(members, key).Some? then |members| else |members| + 1
  {
    var r := SetItem(members, key, value);
    if |members| > 0 && members[0].0 == key {
      assert r[1..] == members[1..];
    } else if |members| > 0 {
      assert r[1..] == SetItem(members[1..], key, value);
      SetItemKeepsDistinctKeys(members[1..], key, value);
      GetSetItem(members[1..], key, value, members[0].0);
    }
  }

  /**
   * `json.dumps(v)` with the given item and key separators. How a string literal is
   * quoted and escaped (`quote`) is the JSON library's business and stays abstract; the
   * structure, the separators and the literals are rendered here.
   */
  function Dumps(j: Json, quote: string -> string, itemSep: string, keySep: string): (r: string)
    ensures j.JObject? ==> |r| >= 2 && r[0] == '{' && r[|r| - 1] == '}'
    ensures j.JArray? ==> |r| >= 2 && r[0] == '[' && r[|r| - 1] == ']'
    ensures j.JNull? ==> r == "null"
  {
    match j
    case JNull => "null"
    case JBool(b) => if b then "true" else "false"
    case JInt(i) => Text.IntToString(i)
    case JFloat(t) => t
    case JString(s) => quote(s)
    case JArray(items) =>
      "[" + Text.Join(seq(|items|, k requires 0 <= k < |items| => Dumps(items[k], quote, itemSep, keySep)), itemSep) + "]"
    case JObject(ms) =>
      "{" + Text.Join(seq(|ms|, k requires 0 <= k < |ms| => quote(ms[k].0) + keySep + Dumps(ms[k].1, quote, itemSep, keySep)), itemSep)
      + "}"
  }

  /** `json.dumps(v, separators=(",", ":"))`. */
  function Compact(j: Json, quote: string -> string): string
  {
    Dumps(j, quote, ",", ":")
  }

  /** `json.dumps(v)` with its default separators `", "` and `": "`. */
  function DefaultDumps(j: Json, quote: string -> string): string
  {
    Dumps(j, quote, ", ", ": ")
  }

  /** An empty mapping renders as `{}`, whatever the quoting. */
  lemma CompactEmptyObject(quote: string -> string)
    ensures Compact(JObject([]), quote) == "{}"
  {
  }
}
