/** Parsed JSON values as the scraper sees them after `json.loads` or the browser's
    `execute_script`: Python's None, bool, int, str, list and dict. A dict keeps its
    keys in insertion order, which is the order `dict.values()` walks them in. */
module JsonValue {
  import opened Wrappers
  import opened Text

  datatype Json =
    | JNull
    | JBool(b: bool)
    | JNum(n: int)
    | JStr(s: string)
    | JArr(items: seq<Json>)
    | JObj(fields: seq<Field>)

  datatype Field = Field(key: string, value: Json)

  /** Python truthiness: None, False, 0, '', [] and {} are falsy. */
  predicate Truthy(j: Json) {
    match j
    case JNull => false
    case JBool(b) => b
    case JNum(n) => n != 0
    case JStr(s) => s != []
    case JArr(items) => items != []
    case JObj(fields) => fields != []
  }

  /** `key in obj` for a dict. */
  predicate HasKey(fields: seq<Field>, key: string) {
    fields != [] && (fields[0].key == key || HasKey(fields[1..], key))
  }

  /** `obj[key]` for a dict, `None` when the key is missing. */
  function Lookup(fields: seq<Field>, key: string): (r: Option<Json>)
    ensures r.Some? <==> HasKey(fields, key)
    ensures r.Some? ==> Field(key, r.value) in fields
  {
    if fields == [] then None
    else if fields[0].key == key then Some(fields[0].value)
    else
      var r := Lookup(fields[1..], key);
      assert fields == [fields[0]] + fields[1..];
      r
  }

  // ---------------------------------------------------------------------------
  // str() and repr(), as an f-string renders a value

  /** `repr(j)`; inside a list or dict Python renders a string with its quotes. */
  function Repr(j: Json): string
    decreases j
  {
    match j
    case JNull => "None"
    case JBool(b) => if b then "True" else "False"
    case JNum(n) => IntToString(n)
    case JStr(s) => "'" + s + "'"
    case JArr(items) => "[" + ReprItems(items) + "]"
    case JObj(fields) => "{" + ReprFields(fields) + "}"
  }

  function ReprItems(items: seq<Json>): string
    decreases items
  {
    if items == [] then ""
    else if |items| == 1 then Repr(items[0])
    else Repr(items[0]) + ", " + ReprItems(items[1..])
  }

  function ReprFields(fields: seq<Field>): string
    decreases fields
  {
    if fields == [] then ""
    else
      var head := "'" + fields[0].key + "': " + Repr(fields[0].value);
      if |fields| == 1 then head else head + ", " + ReprFields(fields[1..])
  }

  /** A lookup finds the first field that carries the key. */
  lemma {:induction false} LookupFirstHit(fields: seq<Field>, i: nat)
    requires i < |fields|
    requires forall j :: 0 <= j < i ==> fields[j].key != fields[i].key
    ensures Lookup(fields, fields[i].key) == Some(fields[i].value)
    decreases i
  {
    if i > 0 {
      LookupFirstHit(fields[1..], i - 1);
    }
  }

  /** A key no field carries is missing. */
  lemma {:induction false} LookupMissing(fields: seq<Field>, key: string)
    requires forall j :: 0 <= j < |fields| ==> fields[j].key != key
    ensures !HasKey(fields, key)
    decreases |fields|
  {
    if fields != [] {
      LookupMissing(fields[1..], key);
    }
  }

  /** `str(j)` (what `f"{j}"` inserts): a string as it is, anything else as its repr. */
  function Str(j: Json): string {
    if j.JStr? then j.s else Repr(j)
  }

  /** An int rendered into a URL reads back as the same int. */
  lemma {:induction false} StrOfNumReadsBack(n: int)
    ensures ParseInt(Str(JNum(n))) == Some(n)
  {
    IntToStringRoundTrip(n);
  }
}
