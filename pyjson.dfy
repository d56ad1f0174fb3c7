/**
 * The decoded JSON values the harvester inspects, and the Python operations
 * it applies to them: `key in value`, `value[key]`, `value.get(key)` and
 * `int(value)`, each with the exception Python raises where it fails.
 * Decoding itself (`json.loads`) is a parameter of the callers.
 */
module PyJson {
  import opened Text

  /** A float: its integer part when finite (all `int()` keeps), or one of the non-finite values. */
  datatype Float = Finite(whole: int) | NaN | Infinite

  datatype Json =
    | JNull
    | JBool(b: bool)
    | JInt(i: int)
    | JFloat(f: Float)
    | JString(s: string)
    | JArray(items: seq<Json>)
    | JObject(fields: map<string, Json>)

  datatype PyError = ValueError | TypeError | OverflowError | AttributeError

  datatype Outcome<T> = Ok(value: T) | Raise(error: PyError)

  predicate IsSubstring(key: string, s: string) {
    exists i :: 0 <= i <= |s| && StartsWith(s[i..], key)
  }

  /** `key in value`: dict keys, list elements, substrings; other values are not iterable. */
  function HasKey(j: Json, key: string): (r: Outcome<bool>)
    ensures r.Raise? <==> !(j.JObject? || j.JArray? || j.JString?)
    ensures j.JObject? ==> r == Ok(key in j.fields)
  {
    match j
    case JObject(fields) => Ok(key in fields)
    case JArray(items) => Ok(JString(key) in items)
    case JString(s) => Ok(IsSubstring(key, s))
    case _ => Raise(TypeError)
  }

  /** `value[key]` for a key `in` the value: only a dict can be indexed by a string. */
  function Index(j: Json, key: string): (r: Outcome<Json>)
    ensures r.Ok? <==> j.JObject? && key in j.fields
  {
    if j.JObject? && key in j.fields then Ok(j.fields[key]) else Raise(TypeError)
  }

  /** `value.get(key, default)`: only a dict has `get`. */
  function Get(j: Json, key: string, default: Json): (r: Outcome<Json>)
    ensures r.Ok? <==> j.JObject?
  {
    match j
    case JObject(fields) => Ok(if key in fields then fields[key] else default)
    case _ => Raise(AttributeError)
  }

  /**
   * Python's truth value of a decoded value: empty containers, zero, None and
   * False are false. A finite float counts by its whole part.
   */
  predicate PyTruth(j: Json) {
    match j
    case JNull => false
    case JBool(b) => b
    case JInt(i) => i != 0
    case JFloat(f) => f != Finite(0)
    case JString(s) => s != []
    case JArray(items) => items != []
    case JObject(fields) => fields != map[]
  }

  /** A value a `for` loop can iterate: a list, a dict (its keys) or a string (its characters). */
  predicate Iterable(j: Json) {
    j.JArray? || j.JObject? || j.JString?
  }

  /** The value of a string of decimal digits. */
  function DigitsValue(d: string): nat
    requires forall k :: 0 <= k < |d| ==> '0' <= d[k] <= '9'
  {
    if d == [] then 0 else DigitsValue(d[..|d| - 1]) * 10 + (d[|d| - 1] as int - '0' as int)
  }

  predicate AllDigits(d: string) {
    d != [] && forall k :: 0 <= k < |d| ==> '0' <= d[k] <= '9'
  }

  /** `s` without its leading whitespace. */
  function SkipSpaces(s: string): string {
    if s != [] && IsSpace(s[0]) then SkipSpaces(s[1..]) else s
  }

  /**
   * The number an already stripped string spells: an optional sign, then
   * decimal digits. Whitespace between the sign and the digits is skipped,
   * as `PyOS_strtoul` skips it after `PyOS_strtol` has read the sign.
   */
  function ParseSigned(t: string): Option<int> {
    if t != [] && (t[0] == '-' || t[0] == '+') then
      var d := SkipSpaces(t[1..]);
      if AllDigits(d) then
        var v: int := DigitsValue(d);
        Some(if t[0] == '-' then -v else v)
      else None
    else if AllDigits(t) then Some(DigitsValue(t))
    else None
  }

  /** `int(s)` for a string: surrounding whitespace is ignored. */
  function ParseInt(s: string): Option<int> {
    ParseSigned(Strip(s))
  }

  /** Python's `int(value)`; a float is cut toward zero, booleans are 0 and 1. */
  function PyInt(j: Json): Outcome<int> {
    match j
    case JBool(b) => Ok(if b then 1 else 0)
    case JInt(i) => Ok(i)
    case JFloat(Finite(w)) => Ok(w)
    case JFloat(NaN) => Raise(ValueError)
    case JFloat(Infinite) => Raise(OverflowError)
    case JString(s) => if ParseInt(s).Some? then Ok(ParseInt(s).value) else Raise(ValueError)
    case _ => Raise(TypeError)
  }

  lemma {:induction false} DigitsValueOfNatToString(n: nat)
    ensures DigitsValue(NatToString(n)) == n
  {
    var r := NatToString(n);
    if n < 10 {
      assert r == [DigitChar(n)] && r[..0] == [];
      assert DigitChar(n) as int - '0' as int == n by {
        assert n == 0 || n == 1 || n == 2 || n == 3 || n == 4 || n == 5 || n == 6 || n == 7 || n == 8 || n == 9;
      }
    } else {
      var d := n % 10;
      DigitsValueOfNatToString(n / 10);
      assert r[..|r| - 1] == NatToString(n / 10);
      assert DigitChar(d) as int - '0' as int == d by {
        assert d == 0 || d == 1 || d == 2 || d == 3 || d == 4 || d == 5 || d == 6 || d == 7 || d == 8 || d == 9;
      }
    }
  }

  /** A string with no whitespace at either end is its own `strip()`. */
  lemma StripUnpadded(s: string)
    requires s != [] && !IsSpace(s[0]) && !IsSpace(s[|s| - 1])
    ensures Strip(s) == s
  {
    assert StripLeft(s) == s;
  }

  /** `int(str(n))` is `n`: the decimal form of a natural number reads back as that number. */
  lemma ParseIntOfNatToString(n: nat)
    ensures ParseInt(NatToString(n)) == Some(n)
  {
    var r := NatToString(n);
    DigitsValueOfNatToString(n);
    StripUnpadded(r);
  }

  lemma StripSigned(n: nat)
    ensures Strip("-" + NatToString(n)) == "-" + NatToString(n)
  {
    var r := NatToString(n);
    var m := "-" + r;
    assert m[|m| - 1] == r[|r| - 1];
    StripUnpadded(m);
  }

  lemma ParseSignedNegated(n: nat)
    ensures ParseSigned("-" + NatToString(n)) == Some(-(n as int))
  {
    assert "-" + "" + NatToString(n) == "-" + NatToString(n);
    ParseSignedSpaced("", n);
  }

  /** Skipping whitespace in front of a string that starts with something else leaves that string. */
  lemma {:induction false} SkipSpacesOver(ws: string, r: string)
    requires forall k :: 0 <= k < |ws| ==> IsSpace(ws[k])
    requires r != [] && !IsSpace(r[0])
    ensures SkipSpaces(ws + r) == r
  {
    if ws != [] {
      assert (ws + r)[1..] == ws[1..] + r;
      SkipSpacesOver(ws[1..], r);
    } else {
      assert ws + r == r;
    }
  }

  /** `'-' + ws + str(n)` spells `-n`: the whitespace after the sign is skipped. */
  lemma ParseSignedSpaced(ws: string, n: nat)
    requires forall k :: 0 <= k < |ws| ==> IsSpace(ws[k])
    ensures ParseSigned("-" + ws + NatToString(n)) == Some(-(n as int))
  {
    var r := NatToString(n);
    var m := "-" + ws + r;
    assert m[0] == '-' && m[1..] == ws + r;
    assert !IsSpace(r[0]);
    SkipSpacesOver(ws, r);
    DigitsValueOfNatToString(n);
  }

  lemma StripSignedSpaced(ws: string, n: nat)
    ensures Strip("-" + ws + NatToString(n)) == "-" + ws + NatToString(n)
  {
    var r := NatToString(n);
    var m := "-" + ws + r;
    assert m[0] == '-' && m[|m| - 1] == r[|r| - 1];
    StripUnpadded(m);
  }

  /** `int('-' + ws + str(n))` is `-n` for any whitespace `ws` after the sign. */
  lemma ParseIntOfSpacedSign(ws: string, n: nat)
    requires forall k :: 0 <= k < |ws| ==> IsSpace(ws[k])
    ensures ParseInt("-" + ws + NatToString(n)) == Some(-(n as int))
  {
    var m := "-" + ws + NatToString(n);
    StripSignedSpaced(ws, n);
    ParseSignedSpaced(ws, n);
    assert ParseInt(m) == ParseSigned(Strip(m)) == ParseSigned(m);
  }

  /** `int('-' + str(n))` is `-n`. */
  lemma ParseIntOfNegated(n: nat)
    ensures ParseInt("-" + NatToString(n)) == Some(-(n as int))
  {
    StripSigned(n);
    ParseSignedNegated(n);
  }

  /** `int()` accepts exactly the booleans, numbers other than NaN and infinity, and numeric strings. */
  lemma PyIntSpec(j: Json)
    ensures PyInt(j).Raise? && PyInt(j).error == TypeError <==> j.JNull? || j.JArray? || j.JObject?
    ensures PyInt(j).Raise? && PyInt(j).error == ValueError <==>
      j == JFloat(NaN) || (j.JString? && ParseInt(j.s).None?)
    ensures PyInt(j).Raise? && PyInt(j).error == OverflowError <==> j == JFloat(Infinite)
  {
  }

  /** `int()` of a string is what `ParseInt` reads, or ValueError. */
  lemma PyIntOfString(s: string)
    ensures ParseInt(s).Some? ==> PyInt(JString(s)) == Ok(ParseInt(s).value)
    ensures ParseInt(s).None? ==> PyInt(JString(s)) == Raise(ValueError)
  {
  }

  lemma StripOfTwelve()
    ensures Strip("12") == "12"
  {
    StripUnpadded("12");
  }

  lemma ParseSignedOfTwelve()
    ensures ParseSigned("12") == Some(12)
  {
    assert "12"[..1] == "1" && "1"[..0] == "";
  }

  /** `int(u'12')` is 12. */
  lemma PyIntOfDigits()
    ensures PyInt(JString("12")) == Ok(12)
  {
    StripOfTwelve();
    ParseSignedOfTwelve();
    PyIntOfString("12");
  }

  lemma StripOfPaddedSeven()
    ensures Strip(" -7 ") == "-7"
  {
    assert " -7 "[1..] == "-7 ";
    assert "-7 "[..2] == "-7";
  }

  lemma ParseSignedOfMinusSeven()
    ensures ParseSigned("-7") == Some(-7)
  {
    assert "-7"[1..] == "7" && "7"[..0] == "" && !IsSpace("7"[0]);
    assert SkipSpaces("7") == "7";
  }

  /** `int(u' -7 ')` is -7: whitespace around a signed number is ignored. */
  lemma PyIntOfPaddedNegative()
    ensures PyInt(JString(" -7 ")) == Ok(-7)
  {
    StripOfPaddedSeven();
    ParseSignedOfMinusSeven();
    PyIntOfString(" -7 ");
  }

  lemma StripOfDecimal()
    ensures Strip("2.0") == "2.0"
  {
    StripUnpadded("2.0");
  }

  lemma ParseSignedOfDecimal()
    ensures ParseSigned("2.0") == None
  {
    assert "2.0"[1] == '.';
  }

  /** `int(u'2.0')` raises ValueError: a decimal point is not accepted in a string. */
  lemma PyIntOfDecimalString()
    ensures PyInt(JString("2.0")) == Raise(ValueError)
  {
    StripOfDecimal();
    ParseSignedOfDecimal();
    PyIntOfString("2.0");
  }
}
