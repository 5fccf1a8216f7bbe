/** The API payload as `response.json()` hands it to the ingestion cycle:
    a decoded JSON value. Decoding itself is not part of this model. */
module Json {
  import opened Wrappers
  import Decimal

  /** A decoded JSON value. An `Object` holds a Python dict's items in
      insertion order; its keys are distinct, as a dict's are. */
  datatype Value =
    | Null
    | Bool(b: bool)
    | Int(n: int)
    | Str(s: string)
    | Array(items: seq<Value>)
    | Object(fields: seq<(string, Value)>)

  /** `d.get(key)` without a default: the value stored under `key`, or None
      when the key is missing. An explicit JSON null comes back as `Some(Null)`. */
  function Lookup(fields: seq<(string, Value)>, key: string): (r: Option<Value>)
    ensures r.None? <==> forall k :: 0 <= k < |fields| ==> fields[k].0 != key
    ensures r.Some? ==> exists k :: 0 <= k < |fields| && fields[k] == (key, r.value)
  {
    if fields == [] then None
    else if fields[0].0 == key then Some(fields[0].1)
    else
      var r := Lookup(fields[1..], key);
      assert r.Some? ==> exists k :: 0 <= k < |fields[1..]| && fields[1..][k] == (key, r.value);
      r
  }

  /** Python's `is None` on the result of `d.get(key)`: the key is missing or holds null. */
  predicate IsNone(o: Option<Value>) {
    o.None? || o.value.Null?
  }

  function Join(parts: seq<string>): string {
    if |parts| == 0 then ""
    else if |parts| == 1 then parts[0]
    else parts[0] + ", " + Join(parts[1..])
  }

  /** Python's `str(v)` when `nested` is false and `repr(v)` when it is true;
      the two differ only on strings. */
  function Render(v: Value, nested: bool): (r: string)
    ensures v.Str? && !nested ==> r == v.s
    ensures v.Str? && nested ==> |r| == |v.s| + 2 && r[0] == '\'' && r[|r| - 1] == '\'' && r[1..|r| - 1] == v.s
    ensures v.Array? ==> |r| >= 2 && r[0] == '[' && r[|r| - 1] == ']'
    ensures v.Object? ==> |r| >= 2 && r[0] == '{' && r[|r| - 1] == '}'
    decreases v
  {
    match v
    case Null => "None"
    case Bool(b) => if b then "True" else "False"
    case Int(n) => Decimal.IntToString(n)
    case Str(s) => if nested then "'" + s + "'" else s
    case Array(items) =>
      "[" + Join(seq(|items|, k requires 0 <= k < |items| => Render(items[k], true))) + "]"
    case Object(fields) =>
      "{" + Join(seq(|fields|, k requires 0 <= k < |fields| =>
                   "'" + fields[k].0 + "': " + Render(fields[k].1, true))) + "}"
  }

  /** `str(v)`: a string prints as itself and null as "None"; no value other
      than the string "N/A" prints as "N/A". */
  function Text(v: Value): (r: string)
    ensures v.Str? ==> r == v.s
    ensures v.Null? ==> r == "None"
    ensures r == "N/A" <==> v == Str("N/A")
  {
    var r := Render(v, false);
    assert v.Int? && v.n >= 0 ==> Decimal.IsDigit(r[0]);
    r
  }

  /** `str(d.get(key, 'N/A'))`: the default applies only to a missing key,
      so a key holding null yields "None". */
  function FieldText(fields: seq<(string, Value)>, key: string): (r: string)
    ensures Lookup(fields, key).Some? ==> r == Text(Lookup(fields, key).value)
    ensures r == "N/A" <==> Lookup(fields, key).None? || Lookup(fields, key) == Some(Str("N/A"))
  {
    match Lookup(fields, key)
    case None => "N/A"
    case Some(v) => Text(v)
  }
}
