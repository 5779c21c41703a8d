/** The values `JSON.parse` produces and the JavaScript coercions the deck
    importer applies to them (truthiness, property access, `??`, `Number`). */
module Json {
  import opened Wrappers
  import Text

  /** A parsed JSON value. Numbers are integers; `JNonFinite` is what a numeral
      too large for a double becomes (Infinity or -Infinity). An object's members
      are listed in the order `Object.entries` enumerates them. */
  datatype Json =
    | JNull
    | JBool(b: bool)
    | JNumber(n: int)
    | JNonFinite
    | JString(s: string)
    | JArray(items: seq<Json>)
    | JObject(members: seq<(string, Json)>)

  /** JavaScript truthiness: `null`, `false`, `0` and `""` are falsy. */
  predicate Truthy(v: Json) {
    match v
    case JNull => false
    case JBool(b) => b
    case JNumber(n) => n != 0
    case JNonFinite => true
    case JString(s) => s != []
    case JArray(_) => true
    case JObject(_) => true
  }

  /** Truthiness of a property read that may be `undefined` (`None`). */
  predicate TruthyOpt(o: Option<Json>) {
    o.Some? && Truthy(o.value)
  }

  /** `null` or `undefined`: the values `??` skips. */
  predicate Nullish(o: Option<Json>) {
    o.None? || o.value == JNull
  }

  /** `a ?? b`. */
  function Coalesce(a: Option<Json>, b: Option<Json>): (r: Option<Json>)
    ensures !Nullish(a) ==> r == a
    ensures Nullish(a) ==> r == b
  {
    if Nullish(a) then b else a
  }

  function Lookup(members: seq<(string, Json)>, key: string): (r: Option<Json>)
    ensures r.Some? <==> exists i :: 0 <= i < |members| && members[i].0 == key
    ensures r.Some? ==> exists i :: 0 <= i < |members| && members[i] == (key, r.value)
  {
    if members == [] then None
    else if members[0].0 == key then Some(members[0].1)
    else
      var r := Lookup(members[1..], key);
      assert forall i :: 0 < i < |members| ==> members[i] == members[1..][i - 1];
      r
  }

  /** The property read `v.key`: `undefined` unless `v` is an object with that
      own property (none of the keys read here exist on arrays or prototypes). */
  function Get(v: Json, key: string): Option<Json> {
    if v.JObject? then Lookup(v.members, key) else None
  }

  /** `Number(s)` for a string: surrounding white space is ignored, the empty
      numeral is 0, a decimal numeral is its value; `None` is NaN. */
  function StringToNumber(s: string): (r: Option<int>)
    ensures Text.AllSpace(s) ==> r == Some(0)
    ensures Text.AllDigits(Text.Trim(s)) ==> r == Some(Text.ParseDigits(Text.Trim(s)))
    ensures r.None? <==> !Text.AllDigits(Text.Trim(s))
  {
    var t := Text.Trim(s);
    Text.TrimEmpty(s);
    if t == [] then Some(0)
    else if Text.AllDigits(t) then Some(Text.ParseDigits(t))
    else None
  }

  /** `Number` reads the decimal numeral of `n` back as `n`. */
  lemma NumeralNumber(n: nat)
    ensures StringToNumber(Text.NatToString(n)) == Some(n)
  {
    var d := Text.NatToString(n);
    assert Text.IsDigit(d[0]) && Text.IsDigit(d[|d| - 1]);
    Text.TrimNoop(d);
    Text.ParseNatToString(n);
  }

  /** `Number(v)`; `None` stands for NaN and for the infinities. An array
      converts through its comma-joined text, so only `[]` and one-element
      arrays of a number, a string, `null` or such an array are numerals. */
  function ToNumber(v: Json): Option<int> {
    match v
    case JNull => Some(0)
    case JBool(b) => Some(if b then 1 else 0)
    case JNumber(n) => Some(n)
    case JNonFinite => None
    case JString(s) => StringToNumber(s)
    case JObject(_) => None
    case JArray(items) =>
      if |items| == 0 then Some(0)
      else if |items| > 1 then None
      else match items[0]
        case JNull => Some(0)
        case JBool(_) => None
        case JObject(_) => None
        case _ => ToNumber(items[0])
  }
}
