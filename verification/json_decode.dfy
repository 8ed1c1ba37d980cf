/**
 A decoder for the compact JSON text that `Stringify` produces. It is the
 partner of `Json.Stringify`: decoding the serialisation of any value gives the
 value back, so the serialised body of a response determines the value that
 produced it. Whitespace between tokens is not accepted, because the compact
 form never contains any.
 */
module JsonDecode {
  import opened Wrappers
  import opened Json

  /** Decodes a whole text; trailing characters are an error. */
  function Parse(s: string): Option<JsonValue>
  {
    match ParseValue(s)
    case Some((v, rest)) => if rest == [] then Some(v) else None
    case None => None
  }

  /** Decodes one value at the start of `s`, returning it with the unread rest. */
  function ParseValue(s: string): (r: Option<(JsonValue, string)>)
    ensures r.Some? ==> |r.value.1| < |s|
    decreases |s|, 0
  {
    if |s| == 0 then None
    else if s[0] == 'n' then Keyword(s, "null", JNull)
    else if s[0] == 't' then Keyword(s, "true", JBool(true))
    else if s[0] == 'f' then Keyword(s, "false", JBool(false))
    else if s[0] == '"' then
      match ParseString(s[1..])
      case Some((str, rest)) => Some((JString(str), rest))
      case None => None
    else if s[0] == '[' then ParseArray(s[1..])
    else if s[0] == '{' then ParseObject(s[1..])
    else ParseInt(s)
  }

  function Keyword(s: string, word: string, v: JsonValue): (r: Option<(JsonValue, string)>)
    requires |word| > 0
    ensures r.Some? ==> |r.value.1| < |s|
  {
    if |word| <= |s| && s[..|word|] == word then Some((v, s[|word|..])) else None
  }

  /** The rest of an array after its opening bracket. */
  function ParseArray(s: string): (r: Option<(JsonValue, string)>)
    ensures r.Some? ==> |r.value.1| < |s|
    decreases |s|, 2
  {
    if |s| > 0 && s[0] == ']' then Some((JArray([]), s[1..]))
    else
      match ParseElements(s)
      case Some((items, rest)) => Some((JArray(items), rest))
      case None => None
  }

  /** One or more comma-separated values followed by the closing bracket. */
  function ParseElements(s: string): (r: Option<(seq<JsonValue>, string)>)
    ensures r.Some? ==> |r.value.1| < |s|
    decreases |s|, 1
  {
    match ParseValue(s)
    case None => None
    case Some((v, rest)) =>
      if |rest| > 0 && rest[0] == ']' then Some(([v], rest[1..]))
      else if |rest| > 0 && rest[0] == ',' then
        match ParseElements(rest[1..])
        case Some((vs, rest')) => Some(([v] + vs, rest'))
        case None => None
      else None
  }

  /** The rest of an object after its opening brace. */
  function ParseObject(s: string): (r: Option<(JsonValue, string)>)
    ensures r.Some? ==> |r.value.1| < |s|
    decreases |s|, 2
  {
    if |s| > 0 && s[0] == '}' then Some((JObject([]), s[1..]))
    else
      match ParseMembers(s)
      case Some((ms, rest)) => Some((JObject(ms), rest))
      case None => None
  }

  /** One or more comma-separated `"key":value` members followed by the closing brace. */
  function ParseMembers(s: string): (r: Option<(seq<(string, JsonValue)>, string)>)
    ensures r.Some? ==> |r.value.1| < |s|
    decreases |s|, 1
  {
    if |s| == 0 || s[0] != '"' then None
    else
      match ParseString(s[1..])
      case None => None
      case Some((k, r1)) =>
        if |r1| == 0 || r1[0] != ':' then None
        else
          match ParseValue(r1[1..])
          case None => None
          case Some((v, rest)) =>
            if |rest| > 0 && rest[0] == '}' then Some(([(k, v)], rest[1..]))
            else if |rest| > 0 && rest[0] == ',' then
              match ParseMembers(rest[1..])
              case Some((ms, rest')) => Some(([(k, v)] + ms, rest'))
              case None => None
            else None
  }

  // ---------------------------------------------------------------------
  // Strings

  /** The contents of a string literal after its opening quote, up to and
      including the closing quote. Raw control characters are rejected. */
  function ParseString(s: string): (r: Option<(string, string)>)
    ensures r.Some? ==> |r.value.1| < |s|
    decreases |s|
  {
    if |s| == 0 then None
    else if s[0] == '"' then Some(([], s[1..]))
    else if s[0] == '\\' then
      match ParseEscape(s[1..])
      case None => None
      case Some((c, r1)) =>
        match ParseString(r1)
        case Some((t, rest)) => Some(([c] + t, rest))
        case None => None
    else if s[0] < ' ' then None
    else
      match ParseString(s[1..])
      case Some((t, rest)) => Some(([s[0]] + t, rest))
      case None => None
  }

  /** An escape sequence after its backslash. A `\u` escape naming a
      surrogate code unit is rejected: it denotes no character on its own. */
  function ParseEscape(s: string): (r: Option<(char, string)>)
    ensures r.Some? ==> |r.value.1| < |s|
  {
    if |s| == 0 then None
    else if s[0] == '"' then Some(('"', s[1..]))
    else if s[0] == '\\' then Some(('\\', s[1..]))
    else if s[0] == '/' then Some(('/', s[1..]))
    else if s[0] == 'b' then Some(('\U{8}', s[1..]))
    else if s[0] == 't' then Some(('\t', s[1..]))
    else if s[0] == 'n' then Some(('\n', s[1..]))
    else if s[0] == 'f' then Some(('\U{C}', s[1..]))
    else if s[0] == 'r' then Some(('\r', s[1..]))
    else if s[0] == 'u' && |s| >= 5 && IsHex(s[1]) && IsHex(s[2]) && IsHex(s[3]) && IsHex(s[4]) then
      var n := ((HexValue(s[1]) * 16 + HexValue(s[2])) * 16 + HexValue(s[3])) * 16 + HexValue(s[4]);
      if n < 0xD800 || 0xE000 <= n then Some((n as char, s[5..])) else None
    else None
  }

  predicate IsHex(c: char)
  {
    '0' <= c <= '9' || 'a' <= c <= 'f' || 'A' <= c <= 'F'
  }

  function HexValue(c: char): (d: nat)
    requires IsHex(c)
    ensures d < 16
  {
    if c <= '9' then c as int - '0' as int
    else if c <= 'F' then c as int - 'A' as int + 10
    else c as int - 'a' as int + 10
  }

  // ---------------------------------------------------------------------
  // Integers

  /** An optional minus sign and a run of digits without a leading zero. */
  function ParseInt(s: string): (r: Option<(JsonValue, string)>)
    ensures r.Some? ==> |r.value.1| < |s|
  {
    var sign := if |s| > 0 && s[0] == '-' then 1 else 0;
    var n := DigitRun(s[sign..]);
    var digits := s[sign..][..n];
    if n == 0 || (digits[0] == '0' && n > 1) then None
    else
      var m: int := DigitsValue(digits);
      Some((JInt(if sign == 1 then -m else m), s[sign + n..]))
  }

  predicate AllDigits(d: string)
  {
    forall i :: 0 <= i < |d| ==> IsDigit(d[i])
  }

  /** Length of the longest run of digits at the start of `s`. */
  function DigitRun(s: string): (n: nat)
    ensures n <= |s|
    ensures AllDigits(s[..n])
    ensures n == |s| || !IsDigit(s[n])
  {
    if |s| == 0 || !IsDigit(s[0]) then 0 else 1 + DigitRun(s[1..])
  }

  /** The number a run of decimal digits denotes. */
  function DigitsValue(d: string): nat
    requires AllDigits(d)
  {
    if |d| == 0 then 0 else DigitsValue(d[..|d| - 1]) * 10 + (d[|d| - 1] as int - '0' as int)
  }
}
