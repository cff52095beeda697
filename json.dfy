/**
 * An abstract JSON value: what `json.loads` and `JSON.parse` produce and what
 * request bodies carry. Parsing itself is not modelled: callers receive a
 * parser as a function parameter (`string -> Option<Json>`, `None` standing
 * for a parse error). Objects are field lists in insertion order; a parser
 * keeps one entry per key, and lookups take the first entry with the key.
 */
module JsonModel {
  import opened Wrappers
  import opened Strings

  datatype Json =
    | JNull
    | JBool(b: bool)
    | JNum(n: real)
    | JStr(s: string)
    | JArr(items: seq<Json>)
    | JObj(fields: seq<(string, Json)>)

  /** The keys of an object's field list, in order. */
  function Keys(fields: seq<(string, Json)>): (ks: seq<string>)
    ensures |ks| == |fields|
  {
    if fields == [] then [] else [fields[0].0] + Keys(fields[1..])
  }

  /** The value stored under `key` in a field list, if any (the first entry wins). */
  function Lookup(fields: seq<(string, Json)>, key: string): (r: Option<Json>)
    ensures r.Some? <==> key in Keys(fields)
    ensures r.Some? ==> (key, r.value) in fields
  {
    if fields == [] then None
    else if fields[0].0 == key then Some(fields[0].1)
    else Lookup(fields[1..], key)
  }

  /**
   * `v.key` / `v[key]` / `v.get(key)`: a field of an object; `None` for a
   * missing field and for any value that is not an object.
   */
  function Get(v: Json, key: string): (r: Option<Json>)
    ensures r.Some? <==> v.JObj? && key in Keys(v.fields)
  {
    if v.JObj? then Lookup(v.fields, key) else None
  }

  /** Like `Get`, but an absent value is an absent value too (`v?.key`). */
  function GetOpt(v: Option<Json>, key: string): (r: Option<Json>)
    ensures v.None? ==> r.None?
  {
    if v.Some? then Get(v.value, key) else None
  }

  /** JavaScript `Boolean(v)`; `None` is `undefined`. NaN is not a value here. */
  predicate JsTruthy(v: Option<Json>) {
    match v
    case None => false
    case Some(JNull) => false
    case Some(JBool(b)) => b
    case Some(JNum(n)) => n != 0.0
    case Some(JStr(s)) => s != ""
    case Some(JArr(_)) => true
    case Some(JObj(_)) => true
  }

  /** `.filter(Boolean)`. */
  function KeepTruthy(s: seq<Json>): (r: seq<Json>)
    ensures |r| <= |s|
    ensures forall x :: x in r <==> x in s && JsTruthy(Some(x))
  {
    if s == [] then [] else KeepTruthy(s[..|s| - 1]) + if JsTruthy(Some(s[|s| - 1])) then [s[|s| - 1]] else []
  }

  /** Python `bool(v)`. */
  predicate PyTruthy(v: Json) {
    match v
    case JNull => false
    case JBool(b) => b
    case JNum(n) => n != 0.0
    case JStr(s) => s != ""
    case JArr(items) => items != []
    case JObj(fields) => fields != []
  }

  /** `typeof v === 'string' ? v : None`. */
  function AsStr(v: Option<Json>): (r: Option<string>)
    ensures r.Some? <==> v.Some? && v.value.JStr?
  {
    if v.Some? && v.value.JStr? then Some(v.value.s) else None
  }

  /** `typeof v === 'number' ? v : None` (every modelled number is finite). */
  function AsNum(v: Option<Json>): (r: Option<real>)
    ensures r.Some? <==> v.Some? && v.value.JNum?
  {
    if v.Some? && v.value.JNum? then Some(v.value.n) else None
  }

  /** `Array.isArray(v) ? v : None`. */
  function AsArr(v: Option<Json>): (r: Option<seq<Json>>)
    ensures r.Some? <==> v.Some? && v.value.JArr?
  {
    if v.Some? && v.value.JArr? then Some(v.value.items) else None
  }

  /** The one-character strings of `s`, which is what Python yields when iterating a `str`. */
  function Chars(s: string): (r: seq<Json>)
    ensures |r| == |s|
    ensures forall i :: 0 <= i < |s| ==> r[i] == JStr([s[i]])
  {
    if s == [] then [] else [JStr([s[0]])] + Chars(s[1..])
  }

  /** The keys of an object as JSON strings: what Python yields when iterating a `dict`. */
  function KeyValues(fields: seq<(string, Json)>): (r: seq<Json>)
    ensures |r| == |fields|
    ensures forall i :: 0 <= i < |fields| ==> r[i] == JStr(fields[i].0)
  {
    if fields == [] then [] else [JStr(fields[0].0)] + KeyValues(fields[1..])
  }

  /**
   * Python `for x in v`: a list yields its items, a string its characters,
   * a dict its keys; `None`, booleans and numbers are not iterable (TypeError).
   */
  function PyIter(v: Json): (r: Result<seq<Json>>)
    ensures r.Ok? <==> v.JArr? || v.JStr? || v.JObj?
    ensures v.JArr? ==> r == Ok(v.items)
    ensures r.Ok? ==> |r.value| == (match v case JArr(xs) => |xs| case JStr(s) => |s| case JObj(fs) => |fs| case _ => 0)
  {
    match v
    case JArr(items) => Ok(items)
    case JStr(s) => Ok(Chars(s))
    case JObj(fields) => Ok(KeyValues(fields))
    case _ => Err("TypeError: object is not iterable")
  }

  /**
   * JavaScript `a === b` between two values that came out of separate parses:
   * primitives compare by value, while arrays and objects are distinct
   * references and never equal. `None` is `undefined`.
   */
  predicate StrictEq(a: Option<Json>, b: Option<Json>) {
    match (a, b)
    case (None, None) => true
    case (Some(JNull), Some(JNull)) => true
    case (Some(JBool(x)), Some(JBool(y))) => x == y
    case (Some(JNum(x)), Some(JNum(y))) => x == y
    case (Some(JStr(x)), Some(JStr(y))) => x == y
    case _ => false
  }

  /** Strict equality is symmetric. */
  lemma StrictEqSymmetric(a: Option<Json>, b: Option<Json>)
    ensures StrictEq(a, b) <==> StrictEq(b, a)
  {
  }

  // ---------------------------------------------------------------------------
  // Numbers and values as text

  /** The fraction digits of `f`, at most `fuel` of them (17 significant digits is what a double holds). */
  function FracDigits(f: real, fuel: nat): string
    requires 0.0 <= f < 1.0
    decreases fuel
  {
    if f == 0.0 || fuel == 0 then ""
    else
      var d := (f * 10.0).Floor;
      [DigitChar(d)] + FracDigits(f * 10.0 - d as real, fuel - 1)
  }

  function NonNegNumStr(n: real): string
    requires n >= 0.0
  {
    var i := n.Floor;
    var f := n - i as real;
    NatToString(i) + (if f == 0.0 then "" else "." + FracDigits(f, 17))
  }

  /**
   * The decimal text of a number as both Python and JavaScript print a
   * parsed literal: integral values without a fraction, others with their
   * fraction digits. Exponent notation is not modelled.
   */
  function NumStr(n: real): string {
    if n < 0.0 then "-" + NonNegNumStr(-n) else NonNegNumStr(n)
  }


  /**
   * JavaScript `String(v)`: `null`, booleans, numbers and strings as their
   * text, an array as its elements' texts joined by commas (with `null`
   * written as nothing) and any object as `[object Object]`.
   */
  function JsString(v: Json): (s: string)
    ensures v.JStr? ==> s == v.s
    ensures v.JBool? ==> s == (if v.b then "true" else "false")
    ensures v.JNull? ==> s == "null"
  {
    match v
    case JNull => "null"
    case JBool(b) => if b then "true" else "false"
    case JNum(n) => NumStr(n)
    case JStr(s) => s
    case JArr(items) => Join(seq(|items|, i requires 0 <= i < |items| => if items[i].JNull? then "" else JsString(items[i])), ",")
    case JObj(_) => "[object Object]"
  }


  // ---------------------------------------------------------------------------
  // JavaScript `Number(v)`

  function Pow10(n: nat): (p: nat)
    ensures p >= 1
  {
    if n == 0 then 1 else 10 * Pow10(n - 1)
  }

  /**
   * An unsigned decimal literal: digits, optionally a point and more digits,
   * with at least one digit in all; `None` for any other text.
   */
  function UnsignedDecimal(t: string): (r: Option<real>)
    ensures r.Some? ==> r.value >= 0.0
    ensures t != "" && AllDigits(t) ==> r == Some(ParseDigits(t) as real)
  {
    match FirstIndex(t, '.')
    case None => if t != "" && AllDigits(t) then Some(ParseDigits(t) as real) else None
    case Some(i) =>
      var whole := t[..i];
      var frac := t[i + 1..];
      if (whole != "" || frac != "") && AllDigits(whole) && AllDigits(frac) then
        Some(ParseDigits(whole) as real + ParseDigits(frac) as real / Pow10(|frac|) as real)
      else None
  }

  /** A trimmed numeric text: blank is 0, and a decimal literal with an optional sign is its value. */
  function SignedDecimal(t: string): (r: Option<real>)
    ensures t == "" ==> r == Some(0.0)
    ensures t != "" && t[0] != '-' && t[0] != '+' ==> r == UnsignedDecimal(t)
  {
    if t == "" then Some(0.0)
    else if t[0] == '-' then (match UnsignedDecimal(t[1..]) case Some(x) => Some(-x) case None => None)
    else if t[0] == '+' then UnsignedDecimal(t[1..])
    else UnsignedDecimal(t)
  }

  /**
   * JavaScript `Number(s)` for a string: surrounding whitespace is ignored,
   * a blank string is 0, and a decimal literal with an optional sign is its
   * value. Anything else is `NaN`, written `None`.
   */
  function StringToNumber(s: string): (r: Option<real>)
    ensures Trim(s) == "" ==> r == Some(0.0)
  {
    SignedDecimal(Trim(s))
  }

  /**
   * JavaScript `Number(v)`, which `<`, `>`, `<=` and `>=` apply to a value
   * compared with a number. `undefined` (`None`) is `NaN`, `null` is 0, a
   * boolean is 0 or 1, and arrays and objects convert through their text
   * (`String(v)`). The result is `None` for `NaN`.
   */
  function JsNumber(v: Option<Json>): (r: Option<real>)
    ensures v.Some? && v.value.JNum? ==> r == Some(v.value.n)
    ensures v.Some? && v.value.JStr? ==> r == StringToNumber(v.value.s)
    ensures v.None? ==> r.None?
  {
    match v
    case None => None
    case Some(JNull) => Some(0.0)
    case Some(JBool(b)) => Some(if b then 1.0 else 0.0)
    case Some(JNum(n)) => Some(n)
    case Some(JStr(s)) => StringToNumber(s)
    case Some(other) => StringToNumber(JsString(other))
  }

  /** `v < c` for a value and a number: false when `v` converts to `NaN`. */
  predicate JsLess(v: Option<Json>, c: real) {
    var x := JsNumber(v);
    x.Some? && x.value < c
  }

  /** `v > c` for a value and a number. */
  predicate JsGreater(v: Option<Json>, c: real) {
    var x := JsNumber(v);
    x.Some? && x.value > c
  }

  /** `v >= c` for a value and a number. */
  predicate JsAtLeast(v: Option<Json>, c: real) {
    var x := JsNumber(v);
    x.Some? && x.value >= c
  }

  /** The decimal text of an integer reads back as that integer, with or without padding. */
  lemma IntStringToNumber(i: int, w1: string, w2: string)
    requires forall k :: 0 <= k < |w1| ==> IsSpace(w1[k])
    requires forall k :: 0 <= k < |w2| ==> IsSpace(w2[k])
    ensures StringToNumber(w1 + IntToString(i) + w2) == Some(i as real)
  {
    var s := IntToString(i);
    NoSpaceInIntString(i);
    TrimPadded(w1, s, w2);
    TrimNoSpace(s);
    IntTextToNumber(i);
  }

  /** The decimal text of an integer, once trimmed, is that integer. */
  lemma IntTextToNumber(i: int)
    ensures SignedDecimal(IntToString(i)) == Some(i as real)
  {
    var t := IntToString(i);
    if i < 0 {
      var n: nat := -i;
      DigitsToNumber(n);
      assert t[1..] == NatToString(n);
    } else {
      DigitsToNumber(i);
      assert IsDigit(t[0]);
    }
  }

  lemma NoSpaceInIntString(i: int)
    ensures forall k :: 0 <= k < |IntToString(i)| ==> !IsSpace(IntToString(i)[k])
  {
    var s := IntToString(i);
    var d := NatToString(if i >= 0 then i else -i);
    forall k | 0 <= k < |s|
      ensures !IsSpace(s[k])
    {
      if i < 0 && k > 0 {
        assert s[k] == d[k - 1];
        assert IsDigit(d[k - 1]);
      } else if i >= 0 {
        assert IsDigit(d[k]);
      }
    }
  }

  /** The digits of a natural number read as an unsigned decimal give the number. */
  lemma DigitsToNumber(n: nat)
    ensures UnsignedDecimal(NatToString(n)) == Some(n as real)
  {
    ParseNatToString(n);
  }

  lemma NoPointInDigits(d: string)
    requires AllDigits(d)
    ensures FirstIndex(d, '.') == None
  {
    if FirstIndex(d, '.').Some? {
      assert IsDigit(d[FirstIndex(d, '.').value]);
    }
  }

  /** An integral number prints as its integer's decimal text. */
  lemma NumStrOfInt(i: int)
    ensures NumStr(i as real) == IntToString(i)
  {
    if i >= 0 {
      assert (i as real).Floor == i;
    } else {
      assert (-(i as real)).Floor == -i;
    }
  }

  /** An empty array and `[null]` convert through the empty text, which is 0. */
  lemma EmptyArrayToNumber()
    ensures JsNumber(Some(JArr([]))) == Some(0.0)
    ensures JsNumber(Some(JArr([JNull]))) == Some(0.0)
  {
    assert JsString(JArr([])) == "";
    assert JsString(JArr([JNull])) == "";
    TrimOfClean("");
  }

  /** A one-item array converts as `String` of its item does. */
  lemma SingletonArrayToNumber(x: Json)
    requires x != JNull
    ensures JsNumber(Some(JArr([x]))) == StringToNumber(JsString(x))
  {
    assert JsString(JArr([x])) == Join([JsString(x)], ",");
  }

  /** `[true]` converts through the text `true`, which is `NaN`. */
  lemma BoolArrayToNumber()
    ensures JsNumber(Some(JArr([JBool(true)]))) == None
  {
    var t := "true";
    WordIsNaN(t);
    assert JsString(JBool(true)) == t;
    SingletonArrayToNumber(JBool(true));
  }

  /** A text that starts with a letter or bracket is `NaN`. */
  lemma WordIsNaN(t: string)
    requires t != "" && !IsDigit(t[0]) && !IsSpace(t[0]) && !IsSpace(t[|t| - 1])
    requires t[0] != '.' && t[0] != '-' && t[0] != '+'
    ensures StringToNumber(t) == None
  {
    TrimOfClean(t);
    var dot := FirstIndex(t, '.');
    if dot.Some? {
      assert t[..dot.value][0] == t[0];
    }
  }

  /**
   * An integer written as a number, as its decimal text (blanks around it
   * allowed), or wrapped in a one-item array converts to that integer.
   */
  lemma IntLikeToNumber(i: int, w1: string, w2: string)
    requires forall k :: 0 <= k < |w1| ==> IsSpace(w1[k])
    requires forall k :: 0 <= k < |w2| ==> IsSpace(w2[k])
    ensures JsNumber(Some(JStr(w1 + IntToString(i) + w2))) == Some(i as real)
    ensures JsNumber(Some(JStr(IntToString(i)))) == Some(i as real)
    ensures JsNumber(Some(JArr([JNum(i as real)]))) == Some(i as real)
    ensures JsNumber(Some(JArr([JStr(IntToString(i))]))) == Some(i as real)
  {
    IntStringToNumber(i, w1, w2);
    IntStringToNumber(i, "", "");
    assert "" + IntToString(i) + "" == IntToString(i);
    NumStrOfInt(i);
    SingletonArrayToNumber(JNum(i as real));
    SingletonArrayToNumber(JStr(IntToString(i)));
  }

  /** An object converts through `[object Object]`, which is `NaN`. */
  lemma ObjectToNumber(fields: seq<(string, Json)>)
    ensures JsNumber(Some(JObj(fields))) == None
  {
    WordIsNaN("[object Object]");
  }

  // ---------------------------------------------------------------------------
  // JavaScript property access

  /** The array index a property name denotes: the canonical decimal text of a natural. */
  function ArrayIndex(key: string): (r: Option<nat>)
    ensures r.Some? ==> NatToString(r.value) == key
    ensures forall k: nat :: NatToString(k) == key ==> r == Some(k)
  {
    ArrayIndexComplete(key);
    if AllDigits(key) && NatToString(ParseDigits(key)) == key then Some(ParseDigits(key)) else None
  }

  lemma ArrayIndexComplete(key: string)
    ensures forall k: nat :: NatToString(k) == key ==> AllDigits(key) && ParseDigits(key) == k
  {
    forall k: nat | NatToString(k) == key
      ensures AllDigits(key) && ParseDigits(key) == k
    {
      ParseNatToString(k);
    }
  }

  /**
   * JavaScript `v[key]` on a parsed value: an object's own field, an
   * array's item at a canonical decimal index or its `length`, a string's
   * character at an index or its `length`, and `undefined` (`None`) for
   * anything else.
   */
  function Member(v: Json, key: string): (r: Option<Json>)
    ensures v.JObj? ==> r == Lookup(v.fields, key)
    ensures v.JArr? && key == "length" ==> r == Some(JNum(|v.items| as real))
    ensures v.JStr? && key == "length" ==> r == Some(JNum(|v.s| as real))
    ensures v.JArr? ==> forall k: nat :: k < |v.items| && NatToString(k) == key ==> r == Some(v.items[k])
    ensures v.JStr? ==> forall k: nat :: k < |v.s| && NatToString(k) == key ==> r == Some(JStr([v.s[k]]))
    ensures r.Some? && key != "length" ==> v.JObj? || ArrayIndex(key).Some?
    ensures v.JNull? || v.JBool? || v.JNum? ==> r.None?
  {
    match v
    case JObj(fields) => Lookup(fields, key)
    case JArr(items) =>
      if key == "length" then Some(JNum(|items| as real))
      else
        var i := ArrayIndex(key);
        if i.Some? && i.value < |items| then Some(items[i.value]) else None
    case JStr(text) =>
      if key == "length" then Some(JNum(|text| as real))
      else
        var i := ArrayIndex(key);
        if i.Some? && i.value < |text| then Some(JStr([text[i.value]])) else None
    case _ => None
  }

  /** `v?.[key]`: `undefined` for an absent value. */
  function MemberOpt(v: Option<Json>, key: string): (r: Option<Json>)
    ensures v.None? ==> r.None?
    ensures v.Some? ==> r == Member(v.value, key)
  {
    if v.None? then None else Member(v.value, key)
  }

  /** On an object, member access is the field lookup `Get` performs. */
  lemma MemberOfObject(v: Json, key: string)
    requires v.JObj?
    ensures Member(v, key) == Get(v, key)
  {
  }
}
