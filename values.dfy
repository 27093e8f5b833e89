// JavaScript values that the calculator pages handle, and the parts of the
// JavaScript runtime they call (Number, parseFloat, number-to-string and
// JSON.parse) as abstract partial functions.

module Values {

  datatype Option<+T> = None | Some(value: T)

  /** A JavaScript number that is not NaN (NaN is `None` wherever a parse can fail). */
  datatype Num = Finite(value: real) | Infinity | NegInfinity

  /** A value produced by JSON.parse. */
  datatype Json =
    | JNull
    | JBool(b: bool)
    | JNumber(n: Num)
    | JString(s: string)
    | JArray(items: seq<Json>)
    | JObject(members: seq<(string, Json)>)

  /**
   * The foreign functions of the runtime. `number` is `Number(t)`, `parseFloat`
   * is `parseFloat(t)` (both `None` for NaN), `show` is the string a number
   * turns into inside `Array.prototype.join` and template literals, and
   * `jsonParse` is `JSON.parse` (`None` when it throws). `isDouble` tells the
   * numbers a double can hold apart from the other values of `Num`.
   */
  datatype Runtime = Runtime(
    number: string -> Option<Num>,
    parseFloat: string -> Option<Num>,
    show: Num -> string,
    jsonParse: string -> Option<Json>,
    isDouble: Num -> bool)
  {
    /** The facts about the runtime that the model relies on. */
    ghost predicate Valid()
    {
      // Number("") is 0, parseFloat("") is NaN
      && number("") == Some(Finite(0.0))
      && parseFloat("") == None
      // JSON.parse("null") is null, JSON.parse("") throws
      && jsonParse("null") == Some(JNull)
      && jsonParse("") == None
      // both parsers produce doubles
      && (forall t :: number(t).Some? ==> isDouble(number(t).value))
      && (forall t :: parseFloat(t).Some? ==> isDouble(parseFloat(t).value))
      // a number prints as a non-empty string of digits, signs, '.', 'e' or a
      // word such as "Infinity"
      && (forall x :: ShowsAsNumber(show(x)))
      // and both Number and parseFloat read a printed double back
      && (forall x :: isDouble(x) ==> number(show(x)) == Some(x) && parseFloat(show(x)) == Some(x))
    }
  }

  /** Every number in the list is one a double can hold. */
  predicate AllDoubles(js: Runtime, xs: seq<Num>)
  {
    forall k :: 0 <= k < |xs| ==> js.isDouble(xs[k])
  }

  /** The characters a printed JavaScript number can contain. */
  predicate IsNumberChar(c: char)
  {
    ('0' <= c <= '9') || ('a' <= c <= 'z') || ('A' <= c <= 'Z') || c == '.' || c == '-' || c == '+'
  }

  predicate ShowsAsNumber(t: string)
  {
    t != [] && forall i :: 0 <= i < |t| ==> IsNumberChar(t[i])
  }

  /** The JavaScript expression `v || fallback` for a string-or-null `v`. */
  function Or(v: Option<string>, fallback: string): (r: string)
    ensures v.Some? && v.value != "" ==> r == v.value
    ensures v == None || v == Some("") ==> r == fallback
  {
    if v.Some? && v.value != "" then v.value else fallback
  }

  /** The string JSON.parse sees for a string-or-null argument: null becomes "null". */
  function JsonText(v: Option<string>): string
  {
    match v
    case None => "null"
    case Some(t) => t
  }
}
