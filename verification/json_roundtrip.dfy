/**
 The serialisation round trip: every value's compact JSON text decodes back to
 the value, so two different values never serialise to the same body.
 */
module JsonRoundTrip {
  import opened Wrappers
  import opened Json
  import opened JsonDecode

  /** Text that cannot continue a number, so a digit run ends before it. */
  predicate Delimited(rest: string)
  {
    |rest| == 0 || !IsDigit(rest[0])
  }

  /** Decoding the serialisation of any value gives the value back. */
  lemma ParseStringify(v: JsonValue)
    ensures Parse(Stringify(v)) == Some(v)
  {
    ValueRoundTrip(v, []);
    assert Stringify(v) + [] == Stringify(v);
  }

  /** Distinct values have distinct serialisations. */
  lemma StringifyInjective(a: JsonValue, b: JsonValue)
    ensures Stringify(a) == Stringify(b) ==> a == b
  {
    ParseStringify(a);
    ParseStringify(b);
  }

  /** Decoding stops exactly at the end of the value's text, whatever follows
      it, as long as what follows cannot extend a number. */
  lemma {:induction false} ValueRoundTrip(v: JsonValue, rest: string)
    requires Delimited(rest)
    ensures ParseValue(Stringify(v) + rest) == Some((v, rest))
    decreases v, 2
  {
    match v
    case JNull => LiteralRoundTrip(v, rest);
    case JBool(_) => LiteralRoundTrip(v, rest);
    case JInt(i) => IntRoundTrip(i, rest);
    case JString(str) => StringRoundTrip(str, rest);
    case JArray(_) => ArrayRoundTrip(v, rest);
    case JObject(_) => ObjectRoundTrip(v, rest);
  }

  lemma LiteralRoundTrip(v: JsonValue, rest: string)
    requires v.JNull? || v.JBool?
    ensures ParseValue(Stringify(v) + rest) == Some((v, rest))
  {
    var s := Stringify(v) + rest;
    if v.JNull? || v == JBool(true) {
      assert s[..4] == Stringify(v) && s[4..] == rest;
    } else {
      assert s[..5] == "false" && s[5..] == rest;
    }
  }

  lemma StringRoundTrip(str: string, rest: string)
    ensures ParseValue(Stringify(JString(str)) + rest) == Some((JString(str), rest))
  {
    var s := Stringify(JString(str)) + rest;
    assert s[0] == '"';
    assert s[1..] == Escape(str) + "\"" + rest;
    EscapeRoundTrip(str, rest);
  }

  lemma {:induction false} ArrayRoundTrip(v: JsonValue, rest: string)
    requires v.JArray?
    ensures ParseValue(Stringify(v) + rest) == Some((v, rest))
    decreases v, 1
  {
    var s := Stringify(v) + rest;
    assert s[0] == '[';
    assert s[1..] == Elements(v.items) + "]" + rest;
    if |v.items| == 0 {
      assert s[1..] == "]" + rest;
    } else {
      ElementsStart(v.items);
      ElementsRoundTrip(v.items, rest);
    }
  }

  lemma {:induction false} ObjectRoundTrip(v: JsonValue, rest: string)
    requires v.JObject?
    ensures ParseValue(Stringify(v) + rest) == Some((v, rest))
    decreases v, 1
  {
    var s := Stringify(v) + rest;
    assert s[0] == '{';
    assert s[1..] == Members(v.members) + "}" + rest;
    if |v.members| == 0 {
      assert s[1..] == "}" + rest;
    } else {
      MembersRoundTrip(v.members, rest);
    }
  }

  /** A non-empty element list never begins with a closing bracket. */
  lemma ElementsStart(items: seq<JsonValue>)
    requires |items| > 0
    ensures |Elements(items)| > 0 && Elements(items)[0] != ']'
  {
    var first := Stringify(items[0]);
    if items[0].JInt? {
      var i := items[0].i;
      DecimalDigits(if i < 0 then -i else i);
    }
    assert |first| > 0 && first[0] != ']';
    assert Elements(items)[0] == first[0];
  }

  lemma {:induction false} ElementsRoundTrip(items: seq<JsonValue>, rest: string)
    requires |items| > 0
    ensures ParseElements(Elements(items) + "]" + rest) == Some((items, rest))
    decreases items
  {
    var after := ElementsAfter(items, rest);
    ElementsSplit(items, rest);
    ValueRoundTrip(items[0], after);
    ElementsStep(Elements(items) + "]" + rest, items[0], after);
    if |items| == 1 {
      assert [items[0]] == items;
    } else {
      ElementsRoundTrip(items[1..], rest);
      assert [items[0]] + items[1..] == items;
    }
  }

  /** What follows the first element of an array's text: the closing bracket
      or a comma and the remaining elements. */
  function ElementsAfter(items: seq<JsonValue>, rest: string): string
    requires |items| > 0
  {
    if |items| == 1 then "]" + rest else "," + (Elements(items[1..]) + "]" + rest)
  }

  lemma ElementsSplit(items: seq<JsonValue>, rest: string)
    requires |items| > 0
    ensures Elements(items) + "]" + rest == Stringify(items[0]) + ElementsAfter(items, rest)
    ensures |items| == 1 ==> ElementsAfter(items, rest)[0] == ']' && ElementsAfter(items, rest)[1..] == rest
    ensures |items| > 1 ==> ElementsAfter(items, rest)[0] == ','
    ensures |items| > 1 ==> ElementsAfter(items, rest)[1..] == Elements(items[1..]) + "]" + rest
  {
    var after := ElementsAfter(items, rest);
    var first := Stringify(items[0]);
    if |items| == 1 {
      assert Elements(items) == first;
      Assoc3(first, "]", rest);
      assert after == "]" + rest;
    } else {
      var more := Elements(items[1..]);
      assert Elements(items) == first + "," + more;
      Assoc5(first, ",", more, "]", rest);
      assert after == "," + (more + "]" + rest);
    }
  }

  /** How the decoder reads one element and decides whether more follow. */
  lemma ElementsStep(s: string, v: JsonValue, after: string)
    requires ParseValue(s) == Some((v, after))
    requires |after| > 0 && (after[0] == ']' || after[0] == ',')
    ensures after[0] == ']' ==> ParseElements(s) == Some(([v], after[1..]))
    ensures after[0] == ',' ==> ParseElements(s) == Cons(v, ParseElements(after[1..]))
  {
  }

  lemma {:induction false} MembersRoundTrip(members: seq<(string, JsonValue)>, rest: string)
    requires |members| > 0
    ensures ParseMembers(Members(members) + "}" + rest) == Some((members, rest))
    decreases members
  {
    var after := MembersAfter(members, rest);
    MembersSplit(members, rest);
    MemberRoundTrip(members[0], after);
    if |members| == 1 {
      assert [members[0]] == members;
    } else {
      MembersRoundTrip(members[1..], rest);
      assert [members[0]] + members[1..] == members;
    }
  }

  /** What follows the first member of an object's text: the closing brace or
      a comma and the remaining members. */
  function MembersAfter(members: seq<(string, JsonValue)>, rest: string): string
    requires |members| > 0
  {
    if |members| == 1 then "}" + rest else "," + (Members(members[1..]) + "}" + rest)
  }

  lemma MembersSplit(members: seq<(string, JsonValue)>, rest: string)
    requires |members| > 0
    ensures Members(members) + "}" + rest == Member(members[0]) + MembersAfter(members, rest)
    ensures |members| == 1 ==> MembersAfter(members, rest)[0] == '}' && MembersAfter(members, rest)[1..] == rest
    ensures |members| > 1 ==> MembersAfter(members, rest)[0] == ','
    ensures |members| > 1 ==> MembersAfter(members, rest)[1..] == Members(members[1..]) + "}" + rest
  {
    var after := MembersAfter(members, rest);
    var first := Member(members[0]);
    if |members| == 1 {
      assert Members(members) == first;
      Assoc3(first, "}", rest);
      assert after == "}" + rest;
    } else {
      var more := Members(members[1..]);
      assert Members(members) == first + "," + more;
      Assoc5(first, ",", more, "}", rest);
      assert after == "," + (more + "}" + rest);
    }
  }

  lemma Assoc3(a: string, b: string, c: string)
    ensures a + b + c == a + (b + c)
  {
  }

  lemma Assoc5(a: string, b: string, c: string, d: string, e: string)
    ensures a + b + c + d + e == a + (b + (c + d + e))
  {
  }

  /** How the decoder reads one member and decides whether more follow. */
  lemma MembersStep(s: string, k: string, tail: string, v: JsonValue, after: string)
    requires |s| > 0 && s[0] == '"'
    requires ParseString(s[1..]) == Some((k, tail))
    requires |tail| > 0 && tail[0] == ':'
    requires ParseValue(tail[1..]) == Some((v, after))
    requires |after| > 0 && (after[0] == '}' || after[0] == ',')
    ensures after[0] == '}' ==> ParseMembers(s) == Some(([(k, v)], after[1..]))
    ensures after[0] == ',' ==> ParseMembers(s) == Cons((k, v), ParseMembers(after[1..]))
  {
  }

  /** A member is read back whole, followed by the closing brace or by a
      comma and more members. */
  lemma {:induction false} MemberRoundTrip(m: (string, JsonValue), after: string)
    requires |after| > 0 && (after[0] == '}' || after[0] == ',')
    ensures after[0] == '}' ==> ParseMembers(Member(m) + after) == Some(([m], after[1..]))
    ensures after[0] == ',' ==> ParseMembers(Member(m) + after) == Cons(m, ParseMembers(after[1..]))
    decreases m
  {
    var s := Member(m) + after;
    var tail := ":" + (Stringify(m.1) + after);
    MemberSplit(m, after);
    assert s[1..] == Escape(m.0) + "\"" + tail;
    EscapeRoundTrip(m.0, tail);
    ValueRoundTrip(m.1, after);
    MembersStep(s, m.0, tail, m.1, after);
  }

  lemma MemberSplit(m: (string, JsonValue), after: string)
    ensures Member(m) + after == "\"" + (Escape(m.0) + "\"" + (":" + (Stringify(m.1) + after)))
  {
    var e, v := Escape(m.0), Stringify(m.1);
    assert Member(m) == "\"" + e + "\"" + ":" + v;
    AssocMember(e, v, after);
  }

  lemma AssocMember(e: string, v: string, after: string)
    ensures "\"" + e + "\"" + ":" + v + after == "\"" + (e + "\"" + (":" + (v + after)))
  {
  }


  // ---------------------------------------------------------------------
  // Strings

  /** A decoding result with `x` put in front of the decoded sequence. */
  function Cons<T>(x: T, r: Option<(seq<T>, string)>): Option<(seq<T>, string)>
  {
    match r
    case Some((xs, rest)) => Some(([x] + xs, rest))
    case None => None
  }

  /** An escaped string body, its closing quote and anything after it decode
      to the original string and that anything. */
  lemma {:induction false} EscapeRoundTrip(x: string, rest: string)
    ensures ParseString(Escape(x) + "\"" + rest) == Some((x, rest))
  {
    if |x| == 0 {
      assert Escape(x) + "\"" + rest == "\"" + rest;
    } else {
      var t := Escape(x[1..]) + "\"" + rest;
      assert Escape(x) + "\"" + rest == EscapeChar(x[0]) + t;
      EscapeCharStep(x[0], t);
      EscapeRoundTrip(x[1..], rest);
      assert [x[0]] + x[1..] == x;
    }
  }

  /** Each escaped character decodes to itself and leaves the rest unread. */
  lemma EscapeCharStep(c: char, t: string)
    ensures ParseString(EscapeChar(c) + t) == Cons(c, ParseString(t))
  {
    if ' ' <= c && c != '"' && c != '\\' {
      CopiedCharStep(c, t);
    } else if c == '"' || c == '\\' || c == '\U{8}' || c == '\t' || c == '\n' || c == '\U{C}' || c == '\r' {
      ShortEscapeStep(c, t);
    } else {
      UnicodeEscapeStep(c, t);
    }
  }

  lemma CopiedCharStep(c: char, t: string)
    requires ' ' <= c && c != '"' && c != '\\'
    ensures ParseString(EscapeChar(c) + t) == Cons(c, ParseString(t))
  {
    assert EscapeChar(c) == [c];
    assert ([c] + t)[1..] == t;
  }

  lemma ShortEscapeStep(c: char, t: string)
    requires c == '"' || c == '\\' || c == '\U{8}' || c == '\t' || c == '\n' || c == '\U{C}' || c == '\r'
    ensures ParseString(EscapeChar(c) + t) == Cons(c, ParseString(t))
  {
    var code :=
      if c == '"' then '"' else if c == '\\' then '\\' else if c == '\U{8}' then 'b'
      else if c == '\t' then 't' else if c == '\n' then 'n' else if c == '\U{C}' then 'f' else 'r';
    assert EscapeChar(c) == ['\\', code];
    assert ([code] + t)[1..] == t;
    BackslashStep(c, code, t);
  }

  /** A two-character escape decodes to its character when the decoder maps
      its second character back to it. */
  lemma BackslashStep(c: char, code: char, t: string)
    requires EscapeChar(c) == ['\\', code]
    requires ParseEscape([code] + t) == Some((c, t))
    ensures ParseString(EscapeChar(c) + t) == Cons(c, ParseString(t))
  {
    var s := ['\\', code] + t;
    assert s[1..] == [code] + t;
  }


  lemma UnicodeEscapeStep(c: char, t: string)
    requires c < ' ' && c != '\U{8}' && c != '\t' && c != '\n' && c != '\U{C}' && c != '\r'
    ensures ParseString(EscapeChar(c) + t) == Cons(c, ParseString(t))
  {
    var hi, lo := c as int / 16, c as int % 16;
    HexDigitValue(hi);
    HexDigitValue(lo);
    var e := EscapeChar(c);
    assert e == ['\\', 'u', '0', '0', HexDigit(hi), HexDigit(lo)];
    var s := e + t;
    assert s[1..] == e[1..] + t;
    assert s[1..][5..] == t;
  }


  lemma HexDigitValue(d: int)
    requires 0 <= d < 16
    ensures IsHex(HexDigit(d)) && HexValue(HexDigit(d)) == d
  {
  }

  // ---------------------------------------------------------------------
  // Integers

  lemma IntRoundTrip(i: int, rest: string)
    requires Delimited(rest)
    ensures ParseValue(IntToDecimal(i) + rest) == Some((JInt(i), rest))
  {
    var m: nat := if i < 0 then -i else i;
    var d := NatToDecimal(m);
    DecimalDigits(m);
    DigitRunStops(d, rest);
    assert (d + rest)[..|d|] == d;
    assert (d + rest)[|d|..] == rest;
    if i < 0 {
      var s := "-" + d + rest;
      assert s[1..] == d + rest;
    }
  }

  /** The decimal form of a number is a non-empty run of digits without a
      leading zero, and it denotes the number. */
  lemma {:induction false} DecimalDigits(n: nat)
    ensures |NatToDecimal(n)| > 0
    ensures AllDigits(NatToDecimal(n))
    ensures NatToDecimal(n)[0] != '0' || |NatToDecimal(n)| == 1
    ensures DigitsValue(NatToDecimal(n)) == n
    decreases n
  {
    if n >= 10 {
      DecimalDigits(n / 10);
      var d := NatToDecimal(n / 10);
      var full := NatToDecimal(n);
      assert full == d + [DecimalDigit(n % 10)];
      assert full[..|full| - 1] == d;
    }
  }

  /** A digit run stops where a delimited text begins. */
  lemma {:induction false} DigitRunStops(d: string, rest: string)
    requires AllDigits(d) && Delimited(rest)
    ensures DigitRun(d + rest) == |d|
  {
    if |d| == 0 {
      assert d + rest == rest;
    } else {
      assert (d + rest)[1..] == d[1..] + rest;
      DigitRunStops(d[1..], rest);
    }
  }
}
