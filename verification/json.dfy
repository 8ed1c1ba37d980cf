/**
 This module models the part of `JSON.stringify` that the response finaliser
 relies on: the compact text form of null, booleans, integers, strings, arrays
 and objects, with string escaping as in the ECMAScript QuoteJSONString
 operation (section 25.5.2.3 of ECMA-262).
 */
module Json {

  /** The JavaScript values a handler may hand to the finaliser, restricted to
      those that have a JSON form. Object members keep their insertion order.
      A JavaScript object never has two members with the same key; this type
      does not rule that out, and `Stringify` writes such members as given.
      `JInt` stands for a JavaScript number only when its magnitude is at
      most 2^53. */
  datatype JsonValue =
    | JNull
    | JBool(b: bool)
    | JInt(i: int)
    | JString(s: string)
    | JArray(items: seq<JsonValue>)
    | JObject(members: seq<(string, JsonValue)>)

  /** The compact JSON text of a value, as `JSON.stringify(v)` produces it. */
  function Stringify(v: JsonValue): string
    decreases v
  {
    match v
    case JNull => "null"
    case JBool(b) => if b then "true" else "false"
    case JInt(i) => IntToDecimal(i)
    case JString(s) => Quote(s)
    case JArray(items) => "[" + Elements(items) + "]"
    case JObject(members) => "{" + Members(members) + "}"
  }

  /** Array elements separated by commas. */
  function Elements(items: seq<JsonValue>): string
    decreases items
  {
    if |items| == 0 then ""
    else if |items| == 1 then Stringify(items[0])
    else Stringify(items[0]) + "," + Elements(items[1..])
  }

  /** Object members `"key":value` separated by commas. */
  function Members(members: seq<(string, JsonValue)>): string
    decreases members
  {
    if |members| == 0 then ""
    else if |members| == 1 then Member(members[0])
    else Member(members[0]) + "," + Members(members[1..])
  }

  function Member(m: (string, JsonValue)): string
    decreases m
  {
    Quote(m.0) + ":" + Stringify(m.1)
  }

  // ---------------------------------------------------------------------
  // Strings

  /** A string literal: the escaped contents between double quotes. */
  function Quote(s: string): string
  {
    "\"" + Escape(s) + "\""
  }

  function Escape(s: string): string
  {
    if |s| == 0 then "" else EscapeChar(s[0]) + Escape(s[1..])
  }

  /** One character of a string literal: the seven characters with a short
      escape use it, the remaining control characters below U+0020 become
      `\u00xx` with lower-case hex digits, everything else is copied. */
  function EscapeChar(c: char): string
  {
    if ' ' <= c && c != '"' && c != '\\' then [c]
    else if c == '"' then "\\\""
    else if c == '\\' then "\\\\"
    else if c == '\U{8}' then "\\b"
    else if c == '\t' then "\\t"
    else if c == '\n' then "\\n"
    else if c == '\U{C}' then "\\f"
    else if c == '\r' then "\\r"
    else "\\u00" + [HexDigit(c as int / 16), HexDigit(c as int % 16)]
  }

  function HexDigit(d: int): char
    requires 0 <= d < 16
  {
    if d < 10 then ('0' as int + d) as char else ('a' as int + d - 10) as char
  }

  /** Text that `Escape` leaves alone: no quote, backslash or control character. */
  predicate Plain(x: string)
  {
    forall i :: 0 <= i < |x| ==> ' ' <= x[i] && x[i] != '"' && x[i] != '\\'
  }

  lemma {:induction false} EscapePlain(x: string)
    requires Plain(x)
    ensures Escape(x) == x
  {
    if |x| > 0 {
      EscapePlain(x[1..]);
      assert [x[0]] + x[1..] == x;
    }
  }

  /** An object with one string member, key and value both plain, serialises
      to the key and the value in double quotes, a colon between them, inside
      braces. */
  lemma StringifySingleMember(key: string, text: string)
    requires Plain(key) && Plain(text)
    ensures Stringify(JObject([(key, JString(text))])) == "{\"" + key + "\":\"" + text + "\"}"
  {
    EscapePlain(key);
    EscapePlain(text);
    var m := (key, JString(text));
    assert Members([m]) == Member(m) == "\"" + key + "\"" + ":" + ("\"" + text + "\"");
  }

  // ---------------------------------------------------------------------
  // Integers

  function IntToDecimal(i: int): string
  {
    if i < 0 then "-" + NatToDecimal(-i) else NatToDecimal(i)
  }

  /** Decimal digits of `n`, most significant first, without leading zeros. */
  function NatToDecimal(n: nat): string
    decreases n
  {
    if n < 10 then [DecimalDigit(n)] else NatToDecimal(n / 10) + [DecimalDigit(n % 10)]
  }

  function DecimalDigit(d: nat): char
    requires d < 10
  {
    ('0' as int + d) as char
  }

  predicate IsDigit(c: char)
  {
    '0' <= c <= '9'
  }
}
