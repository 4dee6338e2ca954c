/** Values shared by every part of the model: optional values, results with an
    error side, JSON documents and the decimal rendering of a number. */
module Common {

  datatype Option<+T> = None | Some(value: T) {
    function GetOr(default: T): T {
      match this
      case Some(v) => v
      case None => default
    }
  }

  datatype Result<+T, +E> = Ok(value: T) | Err(error: E)

  /** A JSON document as the persistence layer and the HTTP layer exchange it.
      Numbers are integers; floating point is not modelled. An absent property
      (JavaScript's `undefined`) is the absence of a key, never a value. */
  datatype Json =
    | JNull
    | JBool(b: bool)
    | JNum(n: int)
    | JStr(s: string)
    | JArr(items: seq<Json>)
    | JObj(fields: map<string, Json>)

  /** JavaScript truthiness of a JSON value. */
  predicate Truthy(j: Json) {
    match j
    case JNull => false
    case JBool(b) => b
    case JNum(n) => n != 0
    case JStr(s) => s != ""
    case _ => true
  }

  /** Property `k` of `j`, absent when `j` is not an object or lacks the key. */
  function Field(j: Json, k: string): (r: Option<Json>)
    ensures r.Some? <==> j.JObj? && k in j.fields
    ensures r.Some? ==> r.value == j.fields[k]
  {
    if j.JObj? && k in j.fields then Some(j.fields[k]) else None
  }

  /** The own properties that an object spread `{...x}` copies: those of an
      object, none for `undefined`, `null`, booleans and numbers. */
  function Spread(x: Option<Json>): (m: map<string, Json>)
    ensures x.Some? && x.value.JObj? ==> m == x.value.fields
    ensures !(x.Some? && x.value.JObj?) ==> m == map[]
  {
    if x.Some? && x.value.JObj? then x.value.fields else map[]
  }

  predicate IsDigit(c: char) { '0' <= c <= '9' }

  /** Base-10 rendering of a natural number, as a template literal prints it. */
  function Decimal(n: nat): (r: string)
    ensures |r| > 0
    ensures forall i :: 0 <= i < |r| ==> IsDigit(r[i])
    ensures n < 10 <==> |r| == 1
  {
    if n < 10 then [('0' as int + n) as char]
    else Decimal(n / 10) + [('0' as int + n % 10) as char]
  }

  /** The number a string of decimal digits denotes. */
  function DigitsValue(s: string): nat
    requires forall i :: 0 <= i < |s| ==> IsDigit(s[i])
  {
    if s == [] then 0
    else
      assert IsDigit(s[|s| - 1]);
      DigitsValue(s[..|s| - 1]) * 10 + (s[|s| - 1] as int - '0' as int)
  }

  /** Reading the rendering back gives the number. */
  lemma {:induction false} DecimalValue(n: nat)
    ensures DigitsValue(Decimal(n)) == n
  {
    if n >= 10 {
      var r := Decimal(n);
      assert r[..|r| - 1] == Decimal(n / 10);
      DecimalValue(n / 10);
    }
  }

  /** Distinct numbers render differently. */
  lemma DecimalInjective(a: nat, b: nat)
    ensures Decimal(a) == Decimal(b) ==> a == b
  {
    DecimalValue(a);
    DecimalValue(b);
  }
}
