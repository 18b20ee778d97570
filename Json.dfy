/** The JSON values the browser writes to and reads back from `localStorage`, with
    `JSON.stringify` and `JSON.parse`, and the few JavaScript conversions the session
    code applies to them (truthiness, `String(...)`, property access, object spread). */
module Json {
  import opened Common
  import opened Text

  /** A number is kept as the text of its literal; an object keeps its members in order,
      duplicates included (property access reads the last one, as `JSON.parse` does). */
  datatype Json =
    | JNull
    | JBool(b: bool)
    | JNum(lit: string)
    | JStr(s: string)
    | JArr(items: seq<Json>)
    | JObj(members: seq<Field>)

  /** One `key: value` member of an object. */
  datatype Field = Field(key: string, value: Json)

  // ---------------------------------------------------------------------------
  // Number literals: -?(0|[1-9][0-9]*)(\.[0-9]+)?([eE][+-]?[0-9]+)?

  function LeadingDigits(s: string): (n: nat)
    ensures n <= |s| && AllDigits(s[..n]) && (n == |s| || !IsDigit(s[n]))
  {
    if s != [] && IsDigit(s[0]) then
      var n := 1 + LeadingDigits(s[1..]);
      assert s[..n] == [s[0]] + s[1..][..n - 1];
      n
    else 0
  }

  predicate ExponentPart(s: string) {
    s == [] ||
    ((s[0] == 'e' || s[0] == 'E') &&
     var t := if |s| > 1 && (s[1] == '+' || s[1] == '-') then s[2..] else s[1..];
     t != [] && AllDigits(t))
  }

  predicate FractionAndExponent(s: string) {
    if s != [] && s[0] == '.' then
      var d := LeadingDigits(s[1..]);
      d >= 1 && ExponentPart(s[1 + d..])
    else ExponentPart(s)
  }

  predicate NumberLiteral(s: string) {
    var a := if s != [] && s[0] == '-' then s[1..] else s;
    var d := LeadingDigits(a);
    d >= 1 && (d == 1 || a[0] != '0') && FractionAndExponent(a[d..])
  }

  predicate IsNumberChar(c: char) {
    IsDigit(c) || c == '+' || c == '-' || c == '.' || c == 'e' || c == 'E'
  }

  predicate AllNumberChars(s: string) {
    forall i :: 0 <= i < |s| ==> IsNumberChar(s[i])
  }

  lemma ExponentPartChars(s: string)
    requires ExponentPart(s)
    ensures AllNumberChars(s)
  {
  }

  lemma FractionAndExponentChars(s: string)
    requires FractionAndExponent(s)
    ensures AllNumberChars(s)
  {
    if s != [] && s[0] == '.' {
      FractionChars(s, LeadingDigits(s[1..]));
    } else {
      ExponentPartChars(s);
    }
  }

  /** A point, `d` digits, then an exponent part. */
  lemma FractionChars(s: string, d: nat)
    requires 1 + d <= |s| && s[0] == '.' && AllDigits(s[1..][..d]) && ExponentPart(s[1 + d..])
    ensures AllNumberChars(s)
  {
    assert s[1..][..d] == s[1..1 + d];
    ExponentPartChars(s[1 + d..]);
    forall i | 0 <= i < |s|
      ensures IsNumberChar(s[i])
    {
      if 0 < i < 1 + d {
        assert s[i] == s[1..1 + d][i - 1];
      } else if i >= 1 + d {
        assert s[i] == s[1 + d..][i - 1 - d];
      }
    }
  }

  lemma NumberLiteralChars(s: string)
    requires NumberLiteral(s)
    ensures AllNumberChars(s) && s != [] && (s[0] == '-' || IsDigit(s[0]))
  {
    if s != [] && s[0] == '-' {
      UnsignedChars(s[1..]);
      NumberCharsAppend([s[0]], s[1..]);
      assert [s[0]] + s[1..] == s;
    } else {
      UnsignedChars(s);
    }
  }

  /** A literal without its sign: digits, then a fraction and an exponent. */
  lemma UnsignedChars(a: string)
    requires LeadingDigits(a) >= 1 && FractionAndExponent(a[LeadingDigits(a)..])
    ensures AllNumberChars(a) && IsDigit(a[0])
  {
    var d := LeadingDigits(a);
    FractionAndExponentChars(a[d..]);
    DigitsThenNumberChars(a, d);
    assert a[0] == a[..d][0];
  }

  /** Digits followed by number characters are number characters. */
  lemma DigitsThenNumberChars(a: string, d: nat)
    requires d <= |a| && AllDigits(a[..d]) && AllNumberChars(a[d..])
    ensures AllNumberChars(a)
  {
    forall i | 0 <= i < |a|
      ensures IsNumberChar(a[i])
    {
      if i < d {
        assert a[i] == a[..d][i];
      } else {
        assert a[i] == a[d..][i - d];
      }
    }
  }

  lemma NumberCharsAppend(a: string, b: string)
    requires AllNumberChars(a) && AllNumberChars(b)
    ensures AllNumberChars(a + b)
  {
    forall i | 0 <= i < |a + b|
      ensures IsNumberChar((a + b)[i])
    {
      if i < |a| {
        assert (a + b)[i] == a[i];
      } else {
        assert (a + b)[i] == b[i - |a|];
      }
    }
  }

  /** The longest prefix made of characters that can occur in a number. */
  function NumberSpan(s: string): (n: nat)
    ensures n <= |s|
  {
    if s != [] && IsNumberChar(s[0]) then 1 + NumberSpan(s[1..]) else 0
  }

  lemma {:induction false} NumberSpanOf(lit: string, rest: string)
    requires AllNumberChars(lit) && (rest == [] || !IsNumberChar(rest[0]))
    ensures NumberSpan(lit + rest) == |lit|
  {
    if lit == [] {
      assert lit + rest == rest;
    } else {
      assert (lit + rest)[1..] == lit[1..] + rest;
      NumberSpanOf(lit[1..], rest);
    }
  }

  /** Every number literal denotes a number, and every string a value. */
  predicate WellFormed(v: Json)
    decreases v
  {
    match v
    case JNum(lit) => NumberLiteral(lit)
    case JArr(items) => forall i :: 0 <= i < |items| ==> WellFormed(items[i])
    case JObj(ms) => forall i :: 0 <= i < |ms| ==> WellFormed(ms[i].value)
    case _ => true
  }

  // ---------------------------------------------------------------------------
  // JSON.stringify

  function HexLower(n: nat): (c: char)
    requires n < 16
  {
    if n < 10 then ('0' as int + n) as char else ('a' as int + n - 10) as char
  }

  /** How `JSON.stringify` writes one character inside a string. */
  function EscapeChar(c: char): string {
    if c == '"' then "\\\""
    else if c == '\\' then "\\\\"
    else if c == '\U{0008}' then "\\b"
    else if c == '\U{000C}' then "\\f"
    else if c == '\n' then "\\n"
    else if c == '\r' then "\\r"
    else if c == '\t' then "\\t"
    else if c < ' ' then "\\u00" + [HexLower(c as int / 16), HexLower(c as int % 16)]
    else [c]
  }

  function EscapeAll(s: string): string {
    if s == [] then [] else EscapeChar(s[0]) + EscapeAll(s[1..])
  }

  function Quote(s: string): string {
    "\"" + EscapeAll(s) + "\""
  }

  /** `JSON.stringify`: no white space, members in order. */
  function Stringify(v: Json): string
    decreases v
  {
    match v
    case JNull => "null"
    case JBool(b) => if b then "true" else "false"
    case JNum(lit) => lit
    case JStr(s) => Quote(s)
    case JArr(items) => "[" + Elements(items) + "]"
    case JObj(ms) => "{" + Members(ms) + "}"
  }

  function Elements(items: seq<Json>): string
    decreases items
  {
    if items == [] then ""
    else if |items| == 1 then Stringify(items[0])
    else Stringify(items[0]) + "," + Elements(items[1..])
  }

  function Members(ms: seq<Field>): string
    decreases ms
  {
    if ms == [] then ""
    else if |ms| == 1 then Member(ms[0])
    else Member(ms[0]) + "," + Members(ms[1..])
  }

  function Member(m: Field): string
    decreases m
  {
    Quote(m.key) + ":" + Stringify(m.value)
  }

  // ---------------------------------------------------------------------------
  // JSON.parse

  predicate IsJsonSpace(c: char) {
    c == ' ' || c == '\t' || c == '\n' || c == '\r'
  }

  function SkipWs(s: string): (r: string)
    ensures |r| <= |s| && r == s[|s| - |r|..]
    ensures r == [] || !IsJsonSpace(r[0])
  {
    if s != [] && IsJsonSpace(s[0]) then SkipWs(s[1..]) else s
  }

  function HexValue(c: char): (r: Option<nat>)
    ensures r.Some? ==> r.value < 16
  {
    if '0' <= c <= '9' then Some(c as int - '0' as int)
    else if 'a' <= c <= 'f' then Some(c as int - 'a' as int + 10)
    else if 'A' <= c <= 'F' then Some(c as int - 'A' as int + 10)
    else None
  }

  function Hex4(s: string): (r: Option<nat>)
    requires |s| == 4
    ensures r.Some? ==> r.value < 0x1_0000
  {
    match (HexValue(s[0]), HexValue(s[1]), HexValue(s[2]), HexValue(s[3]))
    case (Some(a), Some(b), Some(c), Some(d)) => Some(4096 * a + 256 * b + 16 * c + d)
    case _ => None
  }

  /** The character an escape sequence stands for (`s` starts after the backslash) and
      how many characters the sequence takes after the backslash. A `\u` escape into the
      surrogate range is refused: a character here is a Unicode scalar value. */
  function Unescape(s: string): (r: Option<(char, nat)>)
    ensures r.Some? ==> 1 <= r.value.1 <= |s|
  {
    if s == [] then None
    else if s[0] == '"' then Some(('"', 1))
    else if s[0] == '\\' then Some(('\\', 1))
    else if s[0] == '/' then Some(('/', 1))
    else if s[0] == 'b' then Some(('\U{0008}', 1))
    else if s[0] == 'f' then Some(('\U{000C}', 1))
    else if s[0] == 'n' then Some(('\n', 1))
    else if s[0] == 'r' then Some(('\r', 1))
    else if s[0] == 't' then Some(('\t', 1))
    else if s[0] == 'u' && |s| >= 5 then
      match Hex4(s[1..5])
      case Some(n) => if 0xD800 <= n <= 0xDFFF then None else Some((n as char, 5))
      case None => None
    else None
  }

  function Prepend(c: char, r: Option<(string, string)>): Option<(string, string)> {
    match r
    case None => None
    case Some((str, rest)) => Some(([c] + str, rest))
  }

  /** The characters of a string literal up to its closing quote (`s` starts after the
      opening quote), and what follows the quote. */
  function ParseChars(s: string): (r: Option<(string, string)>)
    ensures r.Some? ==> |r.value.1| < |s|
    decreases |s|
  {
    if s == [] then None
    else if s[0] == '"' then Some(([], s[1..]))
    else if s[0] == '\\' then
      match Unescape(s[1..])
      case None => None
      case Some((c, k)) => Prepend(c, ParseChars(s[1 + k..]))
    else if s[0] < ' ' then None
    else Prepend(s[0], ParseChars(s[1..]))
  }

  function Keyword(t: string, word: string, v: Json): (r: Option<(Json, string)>)
    requires word != []
    ensures r.Some? ==> |r.value.1| < |t|
  {
    if |word| <= |t| && t[..|word|] == word then Some((v, t[|word|..])) else None
  }

  /** One value after optional white space, and what follows it. */
  function ParseValue(s: string): (r: Option<(Json, string)>)
    ensures r.Some? ==> |r.value.1| < |s|
    decreases |s|, 3
  {
    ParseToken(SkipWs(s))
  }

  /** One value starting at the first character of `t`. */
  function ParseToken(t: string): (r: Option<(Json, string)>)
    ensures r.Some? ==> |r.value.1| < |t|
    decreases |t|, 2
  {
    if t == [] then None
    else if t[0] == 'n' then Keyword(t, "null", JNull)
    else if t[0] == 't' then Keyword(t, "true", JBool(true))
    else if t[0] == 'f' then Keyword(t, "false", JBool(false))
    else if t[0] == '"' then ParseString(t)
    else if t[0] == '[' then ParseArray(t)
    else if t[0] == '{' then ParseObject(t)
    else if t[0] == '-' || IsDigit(t[0]) then ParseNumber(t)
    else None
  }

  function ParseString(t: string): (r: Option<(Json, string)>)
    requires t != []
    ensures r.Some? ==> |r.value.1| < |t|
  {
    match ParseChars(t[1..])
    case None => None
    case Some((str, rest)) => Some((JStr(str), rest))
  }

  function ParseNumber(t: string): (r: Option<(Json, string)>)
    ensures r.Some? ==> |r.value.1| < |t|
  {
    var k := NumberSpan(t);
    if k > 0 && NumberLiteral(t[..k]) then Some((JNum(t[..k]), t[k..])) else None
  }

  function ParseArray(t: string): (r: Option<(Json, string)>)
    requires t != []
    ensures r.Some? ==> |r.value.1| < |t|
    decreases |t|, 1
  {
    var u := SkipWs(t[1..]);
    if u != [] && u[0] == ']' then Some((JArr([]), u[1..]))
    else
      match ParseElements(u)
      case None => None
      case Some((items, rest)) => Some((JArr(items), rest))
  }

  function ParseObject(t: string): (r: Option<(Json, string)>)
    requires t != []
    ensures r.Some? ==> |r.value.1| < |t|
    decreases |t|, 1
  {
    var u := SkipWs(t[1..]);
    if u != [] && u[0] == '}' then Some((JObj([]), u[1..]))
    else
      match ParseMembers(u)
      case None => None
      case Some((ms, rest)) => Some((JObj(ms), rest))
  }

  /** The elements of a non-empty array, up to and including its closing bracket. */
  function ParseElements(s: string): (r: Option<(seq<Json>, string)>)
    ensures r.Some? ==> |r.value.1| < |s|
    decreases |s|, 4
  {
    match ParseValue(s)
    case None => None
    case Some((v, rest)) =>
      var u := SkipWs(rest);
      if u != [] && u[0] == ',' then
        match ParseElements(u[1..])
        case None => None
        case Some((vs, rest2)) => Some(([v] + vs, rest2))
      else if u != [] && u[0] == ']' then Some(([v], u[1..]))
      else None
  }

  /** One `"key": value` pair, white space allowed before the key and around the colon. */
  function ParsePair(s: string): (r: Option<(Field, string)>)
    ensures r.Some? ==> |r.value.1| < |s|
    decreases |s|, 4
  {
    var t := SkipWs(s);
    if t == [] || t[0] != '"' then None
    else
      match ParseChars(t[1..])
      case None => None
      case Some((key, r1)) =>
        var r2 := SkipWs(r1);
        if r2 == [] || r2[0] != ':' then None
        else
          match ParseValue(r2[1..])
          case None => None
          case Some((v, r3)) => Some((Field(key, v), r3))
  }

  /** The members of a non-empty object, up to and including its closing brace. */
  function ParseMembers(s: string): (r: Option<(seq<Field>, string)>)
    ensures r.Some? ==> |r.value.1| < |s|
    decreases |s|, 5
  {
    match ParsePair(s)
    case None => None
    case Some((f, r3)) =>
      var u := SkipWs(r3);
      if u != [] && u[0] == ',' then
        match ParseMembers(u[1..])
        case None => None
        case Some((ms, rest)) => Some(([f] + ms, rest))
      else if u != [] && u[0] == '}' then Some(([f], u[1..]))
      else None
  }

  /** `JSON.parse`: one value, with nothing but white space around it; `None` where
      JavaScript throws a `SyntaxError`. */
  function Parse(s: string): Option<Json> {
    match ParseValue(s)
    case Some((v, rest)) => if SkipWs(rest) == [] then Some(v) else None
    case None => None
  }

  // ---------------------------------------------------------------------------
  // Round trip

  lemma ParseEscapedChar(c: char, t: string)
    ensures ParseChars(EscapeChar(c) + t) == Prepend(c, ParseChars(t))
  {
    var s := EscapeChar(c) + t;
    if c == '"' || c == '\\' || c == '\U{0008}' || c == '\U{000C}' || c == '\n' || c == '\r' || c == '\t' {
      assert s[1..][0] == EscapeChar(c)[1];
      assert s[2..] == t;
    } else if c < ' ' {
      ParseControlEscape(c, t);
    } else {
      assert s[1..] == t;
    }
  }

  /** A control character written as `\u00` and two hexadecimal digits reads back. */
  lemma ParseControlEscape(c: char, t: string)
    requires c < ' ' && c != '\U{0008}' && c != '\U{000C}' && c != '\n' && c != '\r' && c != '\t'
    ensures ParseChars(EscapeChar(c) + t) == Prepend(c, ParseChars(t))
  {
    var d := [HexLower(c as int / 16), HexLower(c as int % 16)];
    var u := "u00" + d + t;
    assert EscapeChar(c) + t == "\\" + u;
    UnescapeControl(c, d, t);
    BackslashEscape("\\" + u, c, t);
  }

  /** `\u00` and the two hexadecimal digits of a control character name that character. */
  lemma UnescapeControl(c: char, d: string, t: string)
    requires c < ' ' && d == [HexLower(c as int / 16), HexLower(c as int % 16)]
    ensures Unescape("u00" + d + t) == Some((c, 5))
  {
    var u := "u00" + d + t;
    HexDigitRoundTrip(c as int / 16);
    HexDigitRoundTrip(c as int % 16);
    assert u[1..5] == "00" + d;
    assert Hex4(u[1..5]) == Some(c as int);
  }

  /** `ParseChars` reads an escape sequence of `k` characters after the backslash. */
  lemma BackslashEscape(s: string, c: char, t: string)
    requires s != [] && s[0] == '\\' && Unescape(s[1..]) == Some((c, 5)) && s[6..] == t
    ensures ParseChars(s) == Prepend(c, ParseChars(t))
  {
  }

  lemma HexDigitRoundTrip(n: nat)
    requires n < 16
    ensures HexValue(HexLower(n)) == Some(n)
  {
  }

  lemma {:induction false} ParseEscaped(s: string, rest: string)
    ensures ParseChars(EscapeAll(s) + "\"" + rest) == Some((s, rest))
  {
    if s == [] {
      assert EscapeAll(s) + "\"" + rest == "\"" + rest;
      assert ("\"" + rest)[1..] == rest;
    } else {
      assert EscapeAll(s) + "\"" + rest == EscapeChar(s[0]) + (EscapeAll(s[1..]) + "\"" + rest);
      ParseEscapedChar(s[0], EscapeAll(s[1..]) + "\"" + rest);
      ParseEscaped(s[1..], rest);
      assert [s[0]] + s[1..] == s;
    }
  }

  /** What can follow a value inside an array, inside an object, or at the end of the text. */
  predicate Delimiter(rest: string) {
    rest == [] || rest[0] == ',' || rest[0] == ']' || rest[0] == '}'
  }

  lemma StringifyStart(v: Json)
    requires WellFormed(v)
    ensures Stringify(v) != [] && !IsJsonSpace(Stringify(v)[0])
    ensures Stringify(v)[0] != ']' && Stringify(v)[0] != '}'
  {
    if v.JNum? {
      NumberLiteralChars(v.lit);
    }
  }

  lemma {:induction false} RoundTripValue(v: Json, rest: string)
    requires WellFormed(v) && Delimiter(rest)
    ensures ParseValue(Stringify(v) + rest) == Some((v, rest))
    decreases v, 2
  {
    StringifyStart(v);
    var s := Stringify(v) + rest;
    assert s[0] == Stringify(v)[0];
    ParseValueNoSpace(s);
    match v
    case JNull => RoundTripKeyword("null", JNull, rest);
    case JBool(b) =>
      if b {
        RoundTripKeyword("true", v, rest);
      } else {
        RoundTripKeyword("false", v, rest);
      }
    case JNum(lit) => RoundTripNumber(lit, rest);
    case JStr(str) => RoundTripString(str, rest);
    case JArr(items) => RoundTripArray(items, rest);
    case JObj(ms) => RoundTripObject(ms, rest);
  }

  lemma ParseValueNoSpace(s: string)
    requires s != [] && !IsJsonSpace(s[0])
    ensures ParseValue(s) == ParseToken(s)
  {
  }

  lemma RoundTripKeyword(word: string, v: Json, rest: string)
    requires word == "null" || word == "true" || word == "false"
    requires v == (if word == "null" then JNull else JBool(word == "true"))
    ensures ParseToken(word + rest) == Some((v, rest))
  {
    var s := word + rest;
    assert s[0] == word[0];
    assert s[..|word|] == word && s[|word|..] == rest;
    assert ParseToken(s) == Keyword(s, word, v);
  }

  lemma RoundTripNumber(lit: string, rest: string)
    requires NumberLiteral(lit) && Delimiter(rest)
    ensures ParseToken(lit + rest) == Some((JNum(lit), rest))
  {
    var s := lit + rest;
    NumberLiteralChars(lit);
    NumberSpanOf(lit, rest);
    assert s[..|lit|] == lit && s[|lit|..] == rest;
    assert ParseNumber(s) == Some((JNum(lit), rest));
    assert s[0] == lit[0];
    assert ParseToken(s) == ParseNumber(s);
  }

  lemma RoundTripString(str: string, rest: string)
    ensures ParseToken(Quote(str) + rest) == Some((JStr(str), rest))
  {
    var s := Quote(str) + rest;
    assert s[0] == '"';
    assert s[1..] == EscapeAll(str) + "\"" + rest;
    ParseEscaped(str, rest);
    assert ParseToken(s) == ParseString(s);
  }

  lemma {:induction false} RoundTripArray(items: seq<Json>, rest: string)
    requires forall i :: 0 <= i < |items| ==> WellFormed(items[i])
    ensures ParseToken(Stringify(JArr(items)) + rest) == Some((JArr(items), rest))
    decreases items, 3
  {
    ArrayText(items, rest);
    if items == [] {
      TokenArray("[]" + rest);
      ParseArrayEmpty(rest);
    } else {
      TokenArray("[" + (Elements(items) + "]" + rest));
      RoundTripElements(items, rest);
      ParseArrayNonEmpty(items, rest);
    }
  }

  lemma TokenArray(s: string)
    requires s != [] && s[0] == '['
    ensures ParseToken(s) == ParseArray(s)
  {
  }

  lemma TokenObject(s: string)
    requires s != [] && s[0] == '{'
    ensures ParseToken(s) == ParseObject(s)
  {
  }

  lemma ArrayText(items: seq<Json>, rest: string)
    ensures items == [] ==> Stringify(JArr(items)) + rest == "[]" + rest
    ensures Stringify(JArr(items)) + rest == "[" + (Elements(items) + "]" + rest)
  {
  }

  lemma ParseArrayEmpty(rest: string)
    ensures ParseArray("[]" + rest) == Some((JArr([]), rest))
  {
    var u := ("[]" + rest)[1..];
    assert u == "]" + rest;
    SeparatorFacts(u);
    assert u[1..] == rest;
  }

  lemma ParseArrayNonEmpty(items: seq<Json>, rest: string)
    requires items != [] && WellFormed(items[0])
    requires ParseElements(ArrayBody(items, rest)) == Some((items, rest))
    ensures ParseArray("[" + (Elements(items) + "]" + rest)) == Some((JArr(items), rest))
  {
    ArrayBodyText(items, rest);
    ElementsStart(items);
    assert ArrayBody(items, rest)[0] == Elements(items)[0];
    ParseArrayFrom(ArrayBody(items, rest), items, rest);
  }

  /** An array whose elements, from the first character of the first one, read as `items`. */
  lemma ParseArrayFrom(body: string, items: seq<Json>, rest: string)
    requires body != [] && !IsJsonSpace(body[0]) && body[0] != ']'
    requires ParseElements(body) == Some((items, rest))
    ensures ParseArray("[" + body) == Some((JArr(items), rest))
  {
    var s := "[" + body;
    assert s[1..] == body;
    SeparatorFacts(body);
  }

  lemma {:induction false} RoundTripObject(ms: seq<Field>, rest: string)
    requires forall i :: 0 <= i < |ms| ==> WellFormed(ms[i].value)
    ensures ParseToken(Stringify(JObj(ms)) + rest) == Some((JObj(ms), rest))
    decreases ms, 3
  {
    ObjectText(ms, rest);
    if ms == [] {
      TokenObject("{}" + rest);
      ParseObjectEmpty(rest);
    } else {
      TokenObject("{" + (Members(ms) + "}" + rest));
      RoundTripMembers(ms, rest);
      ParseObjectNonEmpty(ms, rest);
    }
  }

  lemma ObjectText(ms: seq<Field>, rest: string)
    ensures ms == [] ==> Stringify(JObj(ms)) + rest == "{}" + rest
    ensures Stringify(JObj(ms)) + rest == "{" + (Members(ms) + "}" + rest)
  {
  }

  lemma ParseObjectEmpty(rest: string)
    ensures ParseObject("{}" + rest) == Some((JObj([]), rest))
  {
    var u := ("{}" + rest)[1..];
    assert u == "}" + rest;
    SeparatorFacts(u);
    assert u[1..] == rest;
  }

  lemma ParseObjectNonEmpty(ms: seq<Field>, rest: string)
    requires ms != []
    requires ParseMembers(ObjectBody(ms, rest)) == Some((ms, rest))
    ensures ParseObject("{" + (Members(ms) + "}" + rest)) == Some((JObj(ms), rest))
  {
    ObjectBodyText(ms, rest);
    ParseObjectFrom(ObjectBody(ms, rest), ms, rest);
  }

  /** An object whose members, from the opening quote of the first key, read as `ms`. */
  lemma ParseObjectFrom(body: string, ms: seq<Field>, rest: string)
    requires body != [] && body[0] == '"'
    requires ParseMembers(body) == Some((ms, rest))
    ensures ParseObject("{" + body) == Some((JObj(ms), rest))
  {
    var s := "{" + body;
    assert s[1..] == body;
    SeparatorFacts(body);
  }

  lemma MembersStart(ms: seq<Field>)
    requires ms != []
    ensures Members(ms) != [] && Members(ms)[0] == '"'
  {
    assert Member(ms[0])[0] == '"';
  }

  lemma ElementsStart(items: seq<Json>)
    requires items != [] && WellFormed(items[0])
    ensures Elements(items) != [] && !IsJsonSpace(Elements(items)[0]) && Elements(items)[0] != ']'
  {
    StringifyStart(items[0]);
  }

  lemma {:induction false} RoundTripElements(items: seq<Json>, rest: string)
    requires items != [] && forall i :: 0 <= i < |items| ==> WellFormed(items[i])
    ensures ParseElements(ArrayBody(items, rest)) == Some((items, rest))
    decreases items, 2
  {
    if |items| == 1 {
      assert ArrayBody(items, rest) == Stringify(items[0]) + ("]" + rest);
      ElementsLast(items[0], rest);
      assert [items[0]] == items;
    } else {
      RoundTripElements(items[1..], rest);
      ElementsFirst(items, rest);
    }
  }

  /** The first element of an array with at least two, given that the others read back. */
  lemma {:induction false} ElementsFirst(items: seq<Json>, rest: string)
    requires |items| >= 2 && WellFormed(items[0])
    requires ParseElements(ArrayBody(items[1..], rest)) == Some((items[1..], rest))
    ensures ParseElements(ArrayBody(items, rest)) == Some((items, rest))
    decreases items, 1
  {
    ArrayBodyCons(items, rest);
    ElementsCons(items, ArrayBody(items[1..], rest), rest);
  }

  lemma ArrayBodyCons(items: seq<Json>, rest: string)
    requires |items| >= 2
    ensures ArrayBody(items, rest) == Stringify(items[0]) + ("," + ArrayBody(items[1..], rest))
  {
  }

  /** The elements of an array and what follows its closing bracket, written element by
      element in the order the parser reads them. */
  function ArrayBody(items: seq<Json>, rest: string): string
    requires items != []
  {
    Stringify(items[0]) + (if |items| == 1 then "]" + rest else "," + ArrayBody(items[1..], rest))
  }

  lemma {:induction false} ArrayBodyText(items: seq<Json>, rest: string)
    requires items != []
    ensures Elements(items) + "]" + rest == ArrayBody(items, rest)
  {
    var a := Stringify(items[0]);
    if |items| == 1 {
      assert Elements(items) == a;
      assert a + "]" + rest == a + ("]" + rest);
    } else {
      var b := Elements(items[1..]);
      assert Elements(items) == a + "," + b;
      CommaClose(a, b, "]", rest);
      ArrayBodyText(items[1..], rest);
    }
  }

  lemma CommaClose(p: string, b: string, close: string, rest: string)
    ensures (p + "," + b) + close + rest == p + ("," + (b + close + rest))
  {
  }

  /** The last element of an array, then the closing bracket. */
  lemma {:induction false} ElementsLast(x: Json, rest: string)
    requires WellFormed(x)
    ensures ParseElements(Stringify(x) + ("]" + rest)) == Some(([x], rest))
    decreases x, 3
  {
    var after := "]" + rest;
    RoundTripValue(x, after);
    SeparatorFacts(after);
    assert after[1..] == rest;
    ElementsEnd(Stringify(x) + after, x, after, rest);
  }

  /** An element, a comma, then further elements `t` that read back as `xs`. */
  lemma {:induction false} ElementsCons(items: seq<Json>, t: string, rest: string)
    requires items != [] && WellFormed(items[0])
    requires ParseElements(t) == Some((items[1..], rest))
    ensures ParseElements(Stringify(items[0]) + ("," + t)) == Some((items, rest))
    decreases items[0], 3
  {
    var tail := "," + t;
    RoundTripValue(items[0], tail);
    assert tail[1..] == t;
    HeadAndTail(items);
    ElementsNext(Stringify(items[0]) + tail, tail, items[0], items[1..], rest);
  }

  lemma HeadAndTail<T>(s: seq<T>)
    requires s != []
    ensures [s[0]] + s[1..] == s
  {
  }

  /** `ParseElements` reads an element and the closing bracket. */
  lemma ElementsEnd(s: string, x: Json, after: string, rest: string)
    requires ParseValue(s) == Some((x, after))
    requires SkipWs(after) == after && after != [] && after[0] == ']' && after[1..] == rest
    ensures ParseElements(s) == Some(([x], rest))
  {
  }

  lemma SeparatorFacts(t: string)
    requires t != [] && !IsJsonSpace(t[0])
    ensures SkipWs(t) == t
  {
  }

  /** `ParseElements` reads an element, a comma, and the elements after the comma. */
  lemma ElementsNext(s: string, tail: string, x: Json, xs: seq<Json>, rest: string)
    requires ParseValue(s) == Some((x, tail))
    requires tail != [] && tail[0] == ','
    requires ParseElements(tail[1..]) == Some((xs, rest))
    ensures ParseElements(s) == Some(([x] + xs, rest))
  {
  }

  lemma {:induction false} RoundTripMembers(ms: seq<Field>, rest: string)
    requires ms != [] && forall i :: 0 <= i < |ms| ==> WellFormed(ms[i].value)
    ensures ParseMembers(ObjectBody(ms, rest)) == Some((ms, rest))
    decreases ms, 2
  {
    if |ms| == 1 {
      assert ObjectBody(ms, rest) == PairText(ms[0], "}" + rest);
      MembersLast(ms[0], rest);
      assert [ms[0]] == ms;
    } else {
      RoundTripMembers(ms[1..], rest);
      MembersFirst(ms, rest);
    }
  }

  /** The first pair of an object with at least two, given that the others read back. */
  lemma {:induction false} MembersFirst(ms: seq<Field>, rest: string)
    requires |ms| >= 2 && WellFormed(ms[0].value)
    requires ParseMembers(ObjectBody(ms[1..], rest)) == Some((ms[1..], rest))
    ensures ParseMembers(ObjectBody(ms, rest)) == Some((ms, rest))
    decreases ms, 0
  {
    var t, x, xs := ObjectBody(ms[1..], rest), ms[0], ms[1..];
    assert [x] + xs == ms;
    assert ObjectBody(ms, rest) == PairText(x, "," + t);
    MembersCons(x, xs, t, rest);
  }

  /** The last pair, then the closing brace. */
  lemma {:induction false} MembersLast(m: Field, rest: string)
    requires WellFormed(m.value)
    ensures ParseMembers(PairText(m, "}" + rest)) == Some(([m], rest))
    decreases m, 1
  {
    var after := "}" + rest;
    RoundTripMember(m, after);
    SeparatorFacts(after);
    assert after[1..] == rest;
    MembersEnd(PairText(m, after), m, after, rest);
  }

  /** A pair, a comma, then further pairs `t` that read back as `ms`. */
  lemma {:induction false} MembersCons(m: Field, ms: seq<Field>, t: string, rest: string)
    requires WellFormed(m.value)
    requires ParseMembers(t) == Some((ms, rest))
    ensures ParseMembers(PairText(m, "," + t)) == Some(([m] + ms, rest))
    decreases m, 1
  {
    var after := "," + t;
    RoundTripMember(m, after);
    SeparatorFacts(after);
    assert after[1..] == t;
    MembersNext(PairText(m, after), m, after, ms, rest);
  }

  /** The members of an object and what follows its closing brace, written pair by pair in
      the order the parser reads them. */
  function ObjectBody(ms: seq<Field>, rest: string): string
    requires ms != []
  {
    PairText(ms[0], if |ms| == 1 then "}" + rest else "," + ObjectBody(ms[1..], rest))
  }

  lemma {:induction false} ObjectBodyText(ms: seq<Field>, rest: string)
    requires ms != []
    ensures Members(ms) + "}" + rest == ObjectBody(ms, rest)
  {
    var e, a := EscapeAll(ms[0].key), Stringify(ms[0].value);
    var p := "\"" + e + "\"" + ":" + a;
    if |ms| == 1 {
      assert Members(ms) == p;
      PairAssoc(e, a, "}" + rest);
      assert p + "}" + rest == p + ("}" + rest);
    } else {
      var b := Members(ms[1..]);
      assert Members(ms) == p + "," + b;
      CommaClose(p, b, "}", rest);
      PairAssoc(e, a, "," + (b + "}" + rest));
      ObjectBodyText(ms[1..], rest);
    }
  }

  /** The text of one pair followed by `after`, spelled out piece by piece. */
  function PairText(m: Field, after: string): string {
    "\"" + (EscapeAll(m.key) + "\"" + (":" + Stringify(m.value) + after))
  }



  lemma PairAssoc(e: string, a: string, x: string)
    ensures ("\"" + e + "\"" + ":" + a) + x == "\"" + (e + "\"" + (":" + a + x))
  {
  }


  lemma {:induction false} RoundTripMember(m: Field, after: string)
    requires WellFormed(m.value) && Delimiter(after) && after != [] && !IsJsonSpace(after[0])
    ensures ParsePair(PairText(m, after)) == Some((m, after))
    decreases m, 0
  {
    var k, a := EscapeAll(m.key), Stringify(m.value);
    var r1 := ":" + a + after;
    var s := "\"" + (k + "\"" + r1);
    assert s[1..] == k + "\"" + r1;
    assert r1[1..] == a + after;
    ParseEscaped(m.key, r1);
    RoundTripValue(m.value, after);
    PairFromParts(s, r1, m.key, m.value, after);
  }

  /** `ParsePair` reads a quoted key, a colon and a value. */
  lemma PairFromParts(s: string, r1: string, key: string, v: Json, after: string)
    requires s != [] && s[0] == '"' && ParseChars(s[1..]) == Some((key, r1))
    requires r1 != [] && r1[0] == ':' && ParseValue(r1[1..]) == Some((v, after))
    ensures ParsePair(s) == Some((Field(key, v), after))
  {
    SeparatorFacts(s);
    SeparatorFacts(r1);
  }

  lemma MembersEnd(s: string, m: Field, after: string, rest: string)
    requires ParsePair(s) == Some((m, after))
    requires SkipWs(after) == after && after != [] && after[0] == '}' && after[1..] == rest
    ensures ParseMembers(s) == Some(([m], rest))
  {
  }

  /** `ParseMembers` reads a pair, a comma, and the pairs after the comma. */
  lemma MembersNext(s: string, m: Field, after: string, ms: seq<Field>, rest: string)
    requires ParsePair(s) == Some((m, after))
    requires SkipWs(after) == after && after != [] && after[0] == ','
    requires ParseMembers(after[1..]) == Some((ms, rest))
    ensures ParseMembers(s) == Some(([m] + ms, rest))
  {
  }

  /** What `JSON.stringify` writes, `JSON.parse` reads back as the same value. */
  lemma ParseStringify(v: Json)
    requires WellFormed(v)
    ensures Parse(Stringify(v)) == Some(v)
  {
    RoundTripValue(v, []);
    assert Stringify(v) + [] == Stringify(v);
  }

  // ---------------------------------------------------------------------------
  // JavaScript conversions on values

  /** The member `key` of an object, as property access reads it: the last binding.
      Any other value has no such property (`undefined`, here `None`). */
  function Get(v: Json, key: string): Option<Json> {
    if v.JObj? then LastBinding(v.members, key) else None
  }

  /** A member read is the value of a member with that key, and missing exactly when the
      value is no object or no member has that key. */
  lemma GetMember(v: Json, key: string)
    ensures var r := Get(v, key);
      (r.Some? ==> v.JObj? && exists i :: 0 <= i < |v.members| && v.members[i] == Field(key, r.value))
      && (r.None? && v.JObj? <==> v.JObj? && forall i :: 0 <= i < |v.members| ==> v.members[i].key != key)
  {
    if v.JObj? {
      var r := LastBinding(v.members, key);
      if r.Some? {
        var i :| 0 <= i < |v.members| && v.members[i] == Field(key, r.value);
        assert v.members[i].key == key;
      }
    }
  }

  function LastBinding(ms: seq<Field>, key: string): (r: Option<Json>)
    ensures r.Some? ==> exists i :: 0 <= i < |ms| && ms[i] == Field(key, r.value)
    ensures r.None? ==> forall i :: 0 <= i < |ms| ==> ms[i].key != key
  {
    if ms == [] then None
    else if ms[|ms| - 1].key == key then Some(ms[|ms| - 1].value)
    else LastBinding(ms[..|ms| - 1], key)
  }

  /** JavaScript truthiness: `null`, `false`, a zero and the empty string are falsy. */
  predicate Truthy(v: Json) {
    match v
    case JNull => false
    case JBool(b) => b
    case JNum(lit) => !IsZeroNumber(lit)
    case JStr(s) => s != []
    case _ => true
  }

  /** A literal whose digits before the exponent are all zeros denotes zero. */
  predicate IsZeroNumber(lit: string) {
    forall i :: 0 <= i < |lit| && IsDigit(lit[i]) && (forall j :: 0 <= j < i ==> lit[j] != 'e' && lit[j] != 'E') ==> lit[i] == '0'
  }

  /** `String(v)`: strings as they are, numbers as their literal, arrays joined by commas
      (with `null` elements empty), plain objects as `[object Object]`. */
  function JsString(v: Json): string
    decreases v
  {
    match v
    case JNull => "null"
    case JBool(b) => if b then "true" else "false"
    case JNum(lit) => lit
    case JStr(s) => s
    case JArr(items) => JoinItems(items)
    case JObj(_) => "[object Object]"
  }

  function JoinItems(items: seq<Json>): string
    decreases items
  {
    if items == [] then ""
    else
      var first := if items[0].JNull? then "" else JsString(items[0]);
      if |items| == 1 then first else first + "," + JoinItems(items[1..])
  }

  /** The members after `o[key] = v`, or after a later `key` in an object literal: a key
      already present keeps its place and takes the new value, a new key goes last. */
  function Assign(ms: seq<Field>, key: string, v: Json): (r: seq<Field>)
    ensures LastBinding(r, key) == Some(v)
    ensures forall k :: k != key ==> LastBinding(r, k) == LastBinding(ms, k)
  {
    if LastBinding(ms, key).None? then
      var r := ms + [Field(key, v)];
      assert r[..|ms|] == ms;
      r
    else Rebind(ms, key, v)
  }

  /** The assignment brings in no member but the new one. */
  lemma AssignFrom(ms: seq<Field>, key: string, v: Json)
    ensures var r := Assign(ms, key, v);
      forall i :: 0 <= i < |r| ==> r[i] == Field(key, v) || r[i] in ms
  {
    var r := Assign(ms, key, v);
    if LastBinding(ms, key).None? {
      forall i | 0 <= i < |r|
        ensures r[i] == Field(key, v) || r[i] in ms
      {
        if i < |ms| {
          assert r[i] == ms[i];
        }
      }
    }
  }

  /** Every member named `key` takes the value `v`, in place. */
  function Rebind(ms: seq<Field>, key: string, v: Json): (r: seq<Field>)
    ensures |r| == |ms|
    ensures forall i :: 0 <= i < |ms| ==> r[i].key == ms[i].key
    ensures forall i :: 0 <= i < |ms| ==> r[i] == (if ms[i].key == key then Field(key, v) else ms[i])
    ensures LastBinding(ms, key).Some? ==> LastBinding(r, key) == Some(v)
    ensures forall k :: k != key ==> LastBinding(r, k) == LastBinding(ms, k)
    decreases |ms|
  {
    if ms == [] then []
    else
      var init, last := ms[..|ms| - 1], ms[|ms| - 1];
      var r := Rebind(init, key, v) + [if last.key == key then Field(key, v) else last];
      assert r[..|ms| - 1] == Rebind(init, key, v);
      r
  }

  /** The members `{...v}` copies out of a value: an object's own members, an array's
      items and a string's characters under their indices, nothing from null, a boolean
      or a number. */
  function SpreadMembers(v: Json): (r: seq<Field>)
    ensures v.JObj? ==> r == v.members
    ensures v.JArr? ==> |r| == |v.items| && forall i :: 0 <= i < |r| ==> r[i] == Field(NatToString(i), v.items[i])
    ensures v.JStr? ==> |r| == |v.s| && forall i :: 0 <= i < |r| ==> r[i] == Field(NatToString(i), JStr([v.s[i]]))
    ensures v.JNull? || v.JBool? || v.JNum? ==> r == []
  {
    match v
    case JObj(ms) => ms
    case JArr(items) => seq(|items|, i requires 0 <= i < |items| => Field(NatToString(i), items[i]))
    case JStr(s) => seq(|s|, i requires 0 <= i < |s| => Field(NatToString(i), JStr([s[i]])))
    case _ => []
  }

  /** A member added only when its value is set: `JSON.stringify` drops a member whose
      value is `undefined`. */
  function With(ms: seq<Field>, key: string, v: Option<Json>): seq<Field> {
    if v.Some? then ms + [Field(key, v.value)] else ms
  }

  /** Reading a key after `With`: the new value for its own key, the old reading otherwise. */
  lemma WithGet(ms: seq<Field>, k: string, v: Option<Json>)
    ensures forall key :: LastBinding(With(ms, k, v), key) == if v.Some? && key == k then v else LastBinding(ms, key)
  {
    if v.Some? {
      assert (ms + [Field(k, v.value)])[..|ms|] == ms;
    }
  }
}
