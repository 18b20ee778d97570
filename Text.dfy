/** Strings as the browser handles them: trimming, case folding, substring search,
    decimal rendering of integers, zero padding and the `<` order on strings. */
module Text {

  /** The characters JavaScript's `trim` removes and the regular-expression class `\s` matches
      (white space and line terminators). */
  predicate IsSpace(c: char) {
    c == '\t' || c == '\n' || c == '\U{000B}' || c == '\U{000C}' || c == '\r' || c == ' '
    || c == '\U{00A0}' || c == '\U{1680}' || ('\U{2000}' <= c <= '\U{200A}')
    || c == '\U{2028}' || c == '\U{2029}' || c == '\U{202F}' || c == '\U{205F}'
    || c == '\U{3000}' || c == '\U{FEFF}'
  }

  predicate AllSpace(s: string) {
    forall i :: 0 <= i < |s| ==> IsSpace(s[i])
  }

  /** `trimStart`: the input without its leading white space. */
  function TrimStart(s: string): string {
    if |s| > 0 && IsSpace(s[0]) then TrimStart(s[1..]) else s
  }

  /** `trimEnd`: the input without its trailing white space. */
  function TrimEnd(s: string): string {
    if |s| > 0 && IsSpace(s[|s| - 1]) then TrimEnd(s[..|s| - 1]) else s
  }

  /** `String.prototype.trim`. Its properties are stated as lemmas below rather than as
      postconditions, so that a proof mentioning a trimmed string pays for them only when
      it asks. */
  function Trim(s: string): string {
    TrimEnd(TrimStart(s))
  }

  /** `TrimStart` drops a run of white space at the front and stops at a non-space. */
  lemma {:induction false} TrimStartShape(s: string)
    ensures var r := TrimStart(s);
      && |r| <= |s| && r == s[|s| - |r|..]
      && (r == [] || !IsSpace(r[0]))
      && AllSpace(s[..|s| - |r|])
  {
    if |s| > 0 && IsSpace(s[0]) {
      TrimStartShape(s[1..]);
      var r := TrimStart(s[1..]);
      assert s[..|s| - |r|] == [s[0]] + s[1..][..|s| - 1 - |r|];
    }
  }

  /** `TrimEnd` drops a run of white space at the back and stops at a non-space. */
  lemma {:induction false} TrimEndShape(s: string)
    ensures var r := TrimEnd(s);
      && |r| <= |s| && r == s[..|r|]
      && (r == [] || !IsSpace(r[|r| - 1]))
      && AllSpace(s[|r|..])
  {
    if |s| > 0 && IsSpace(s[|s| - 1]) {
      TrimEndShape(s[..|s| - 1]);
      var r := TrimEnd(s[..|s| - 1]);
      assert s[|r|..] == s[..|s| - 1][|r|..] + [s[|s| - 1]];
    }
  }

  /** A trimmed string neither starts nor ends with white space. */
  lemma TrimShape(s: string)
    ensures var r := Trim(s); r == [] || (!IsSpace(r[0]) && !IsSpace(r[|r| - 1]))
  {
    var t := TrimStart(s);
    TrimStartShape(s);
    TrimEndShape(t);
    var r := TrimEnd(t);
    if r != [] {
      assert r[0] == t[0];
    }
  }

  /** `Trim` keeps a contiguous piece of its input and drops only white space around it. */
  lemma TrimIsInfix(s: string)
    ensures exists a, b :: 0 <= a <= b <= |s| && Trim(s) == s[a..b]
                        && AllSpace(s[..a]) && AllSpace(s[b..])
  {
    var t := TrimStart(s);
    TrimStartShape(s);
    TrimEndShape(t);
    var a := |s| - |t|;
    var b := a + |TrimEnd(t)|;
    assert Trim(s) == s[a..b];
    assert s[b..] == t[|TrimEnd(t)|..];
  }

  /** A string trims to the empty string exactly when all of it is white space, so
      `!s.trim()` is the test "blank". */
  lemma {:induction false} TrimEmptyIff(s: string)
    ensures Trim(s) == [] <==> AllSpace(s)
  {
    var t := TrimStart(s);
    TrimStartShape(s);
    TrimEndShape(t);
    if AllSpace(s) {
      TrimStartAllSpace(s);
    }
    if Trim(s) == [] {
      assert s == s[..|s| - |t|] + t;
      assert AllSpace(t) by { assert t[|TrimEnd(t)|..] == t; }
    }
  }

  lemma {:induction false} TrimStartAllSpace(s: string)
    requires AllSpace(s)
    ensures TrimStart(s) == []
  {
    if s != [] {
      TrimStartAllSpace(s[1..]);
    }
  }

  /** Trimming twice changes nothing more. */
  lemma TrimIdempotent(s: string)
    ensures Trim(Trim(s)) == Trim(s)
  {
    var r := Trim(s);
    TrimShape(s);
    assert TrimStart(r) == r;
    assert TrimEnd(r) == r;
  }

  predicate IsBlank(s: string) {
    Trim(s) == []
  }

  /** The capitals whose `toLowerCase` is one character that this model computes: ASCII,
      Latin-1, Latin Extended-A but for `İ` (U+0130), and the basic Cyrillic capitals. In
      Latin Extended-A a capital and its small letter are neighbours, the capital first;
      `Ÿ` (U+0178) is the capital of `ÿ` (U+00FF). */
  predicate HasLower(c: char) {
    ('A' <= c <= 'Z')
    || ('\U{00C0}' <= c <= '\U{00DE}' && c != '\U{00D7}')
    || (('\U{0100}' <= c <= '\U{012E}' || '\U{0132}' <= c <= '\U{0136}' || '\U{014A}' <= c <= '\U{0176}')
        && c as int % 2 == 0)
    || (('\U{0139}' <= c <= '\U{0147}' || '\U{0179}' <= c <= '\U{017D}') && c as int % 2 == 1)
    || c == '\U{0178}'
    || ('\U{0400}' <= c <= '\U{042F}')
  }

  /** `toLowerCase` on one character. */
  function LowerChar(c: char): (r: char)
    ensures 'A' <= c <= 'Z' ==> r as int == c as int + 32
    ensures !HasLower(c) ==> r == c
    ensures HasLower(c) ==> r != c && !HasLower(r)
  {
    if 'A' <= c <= 'Z' || ('\U{00C0}' <= c <= '\U{00DE}' && c != '\U{00D7}') then (c as int + 32) as char
    else if '\U{0100}' <= c <= '\U{017D}' && c != '\U{0178}' && HasLower(c) then (c as int + 1) as char
    else if c == '\U{0178}' then '\U{00FF}'
    else if '\U{0410}' <= c <= '\U{042F}' then (c as int + 32) as char
    else if '\U{0400}' <= c <= '\U{040F}' then (c as int + 80) as char
    else c
  }

  /** Lower-casing a character twice is lower-casing it once. */
  lemma LowerCharIdempotent(c: char)
    ensures LowerChar(LowerChar(c)) == LowerChar(c)
  {
  }

  /** `œuvre` is the lower case of `Œuvre`. */
  lemma LowerOeuvre()
    ensures LowerChar('\U{0152}') == '\U{0153}' && LowerChar('\U{0178}') == '\U{00FF}'
  {
  }

  function ToLower(s: string): (r: string)
    ensures |r| == |s|
    ensures forall i :: 0 <= i < |s| ==> r[i] == LowerChar(s[i])
  {
    if s == [] then [] else [LowerChar(s[0])] + ToLower(s[1..])
  }

  lemma {:induction false} ToLowerAppend(a: string, b: string)
    ensures ToLower(a + b) == ToLower(a) + ToLower(b)
  {
    var la, lb, lab := ToLower(a), ToLower(b), ToLower(a + b);
    forall i | 0 <= i < |a + b|
      ensures lab[i] == (la + lb)[i]
    {
      if i < |a| {
        assert (a + b)[i] == a[i];
      } else {
        assert (a + b)[i] == b[i - |a|];
      }
    }
    assert lab == la + lb;
  }

  /** `s.length` in JavaScript: the UTF-16 code units, two for a character above U+FFFF. */
  function JsLength(s: string): (n: nat)
    ensures |s| <= n <= 2 * |s|
    ensures n == |s| <==> forall i :: 0 <= i < |s| ==> s[i] <= '\U{FFFF}'
  {
    if s == [] then 0
    else
      var rest := JsLength(s[1..]);
      assert forall i :: 1 <= i < |s| ==> s[i] == s[1..][i - 1];
      (if s[0] <= '\U{FFFF}' then 1 else 2) + rest
  }

  /** `"Abcdef😀"` has seven characters and JavaScript length 8. */
  lemma JsLengthEmoji()
    ensures |"Abcdef\U{1F600}"| == 7 && JsLength("Abcdef\U{1F600}") == 8
  {
    var s := "Abcdef\U{1F600}";
    assert s[1..] == "bcdef\U{1F600}";
    assert s[1..][1..] == "cdef\U{1F600}";
    assert s[1..][1..][1..] == "def\U{1F600}";
    assert s[1..][1..][1..][1..] == "ef\U{1F600}";
    assert s[1..][1..][1..][1..][1..] == "f\U{1F600}";
    assert s[1..][1..][1..][1..][1..][1..] == "\U{1F600}";
  }

  /** `hay.includes(needle)`. */
  predicate Contains(hay: string, needle: string) {
    exists i :: 0 <= i <= |hay| - |needle| && OccursAt(hay, needle, i)
  }

  predicate OccursAt(hay: string, needle: string, i: int)
    requires 0 <= i <= |hay| - |needle|
  {
    hay[i..i + |needle|] == needle
  }

  predicate StartsWith(s: string, prefix: string) {
    |prefix| <= |s| && s[..|prefix|] == prefix
  }

  // ---------------------------------------------------------------------------
  // Decimal numbers

  predicate IsDigit(c: char) {
    '0' <= c <= '9'
  }

  function DigitChar(d: nat): (c: char)
    requires d < 10
    ensures IsDigit(c) && c as int - '0' as int == d
  {
    ('0' as int + d) as char
  }

  function DigitValue(c: char): (d: nat)
    requires IsDigit(c)
    ensures d < 10 && DigitChar(d) == c
  {
    c as int - '0' as int
  }

  predicate AllDigits(s: string) {
    forall i :: 0 <= i < |s| ==> IsDigit(s[i])
  }

  /** `String(n)` for a natural number: its decimal digits, most significant first,
      with no leading zero. */
  function NatToString(n: nat): (r: string)
    ensures |r| >= 1 && AllDigits(r)
    ensures n < 10 <==> |r| == 1
    ensures |r| > 1 ==> r[0] != '0'
  {
    if n < 10 then [DigitChar(n)] else NatToString(n / 10) + [DigitChar(n % 10)]
  }

  /** `String(n)` for an integer. */
  function IntToString(n: int): (r: string)
    ensures |r| >= 1
    ensures n >= 0 ==> AllDigits(r)
    ensures n < 0 ==> r[0] == '-' && AllDigits(r[1..])
  {
    if n < 0 then "-" + NatToString(-n) else NatToString(n)
  }

  /** The value of a string of decimal digits. */
  function DigitsValue(s: string): nat
    requires AllDigits(s)
  {
    if s == [] then 0 else DigitsValue(s[..|s| - 1]) * 10 + DigitValue(s[|s| - 1])
  }

  lemma {:induction false} DigitsValueOfNatToString(n: nat)
    ensures DigitsValue(NatToString(n)) == n
  {
    if n >= 10 {
      var s := NatToString(n);
      assert s[..|s| - 1] == NatToString(n / 10);
      DigitsValueOfNatToString(n / 10);
    }
  }

  /** The rendering of an integer reads back as that integer: a sign, then the digits of
      its magnitude. */
  lemma IntToStringValue(a: int)
    ensures a < 0 ==> IntToString(a)[0] == '-' && DigitsValue(IntToString(a)[1..]) == -a
    ensures a >= 0 ==> IsDigit(IntToString(a)[0]) && DigitsValue(IntToString(a)) == a
  {
    if a < 0 {
      var t := NatToString(-a);
      DigitsValueOfNatToString(-a);
      assert IntToString(a) == "-" + t;
      assert ("-" + t)[1..] == t;
    } else {
      var t := NatToString(a);
      DigitsValueOfNatToString(a);
      assert IntToString(a) == t;
      assert IsDigit(t[0]);
    }
  }

  /** Distinct integers have distinct decimal renderings. */
  lemma IntToStringInjective(a: int, b: int)
    requires IntToString(a) == IntToString(b)
    ensures a == b
  {
    IntToStringValue(a);
    IntToStringValue(b);
  }

  /** Four-digit numbers render in exactly four characters. */
  lemma NatToStringFourDigits(n: nat)
    requires 1000 <= n <= 9999
    ensures |NatToString(n)| == 4
  {
    var a := n / 10;
    var b := a / 10;
    assert 1 <= b / 10 < 10;
    assert |NatToString(b)| == 2;
    assert |NatToString(a)| == 3;
  }

  /** `String(n).padStart(2, '0')`. */
  function Pad2(n: int): (r: string)
    ensures 0 <= n < 100 ==> |r| == 2 && AllDigits(r) && DigitsValue(r) == n
  {
    if 0 <= n < 10 then
      assert DigitsValue("0" + NatToString(n)) == n by {
        var t := "0" + NatToString(n);
        assert t[..1] == "0" && "0"[..0] == [];
        assert DigitsValue("0") == 0;
      }
      "0" + NatToString(n)
    else if 0 <= n < 100 then
      DigitsValueOfNatToString(n);
      NatToString(n)
    else IntToString(n)
  }

  // ---------------------------------------------------------------------------
  // String order

  /** JavaScript's `a < b` on strings: lexicographic on code units (code points here). */
  predicate StrLess(a: string, b: string) {
    if a == [] then b != []
    else if b == [] then false
    else if a[0] != b[0] then a[0] < b[0]
    else StrLess(a[1..], b[1..])
  }

  lemma {:induction false} StrLessIrreflexive(a: string)
    ensures !StrLess(a, a)
  {
    if a != [] {
      StrLessIrreflexive(a[1..]);
    }
  }

  lemma {:induction false} StrLessTransitive(a: string, b: string, c: string)
    requires StrLess(a, b) && StrLess(b, c)
    ensures StrLess(a, c)
  {
    if a != [] && b != [] && c != [] && a[0] == b[0] && b[0] == c[0] {
      StrLessTransitive(a[1..], b[1..], c[1..]);
    }
  }

  lemma {:induction false} StrLessTotal(a: string, b: string)
    ensures a == b || StrLess(a, b) || StrLess(b, a)
  {
    if a != [] && b != [] && a[0] == b[0] {
      StrLessTotal(a[1..], b[1..]);
      if a[1..] == b[1..] {
        assert a == [a[0]] + a[1..] && b == [b[0]] + b[1..];
      }
    }
  }

  lemma {:induction false} StrLessAsymmetric(a: string, b: string)
    requires StrLess(a, b)
    ensures !StrLess(b, a)
  {
    if a != [] && b != [] && a[0] == b[0] {
      StrLessAsymmetric(a[1..], b[1..]);
    }
  }

  /** `a >= b` on strings. */
  predicate StrGe(a: string, b: string) {
    !StrLess(a, b)
  }

  /** On strings of the same length, a common prefix decides nothing: the order is that of the rest. */
  lemma {:induction false} StrLessCommonPrefix(p: string, a: string, b: string)
    ensures StrLess(p + a, p + b) <==> StrLess(a, b)
  {
    if p != [] {
      var x, y := p + a, p + b;
      assert x != [] && y != [] && x[0] == y[0];
      assert x[1..] == p[1..] + a;
      assert y[1..] == p[1..] + b;
      assert StrLess(x, y) == StrLess(x[1..], y[1..]);
      StrLessCommonPrefix(p[1..], a, b);
    } else {
      assert p + a == a && p + b == b;
    }
  }

  /** Two strings that first differ at a position are ordered by the characters there. */
  lemma {:induction false} StrLessAtFirstDifference(a: string, b: string, k: nat)
    requires k < |a| && k < |b| && a[..k] == b[..k] && a[k] != b[k]
    ensures StrLess(a, b) <==> a[k] < b[k]
  {
    if k > 0 {
      assert a[1..][..k - 1] == a[..k][1..];
      assert b[1..][..k - 1] == b[..k][1..];
      assert a[0] == a[..k][0] && b[0] == b[..k][0];
      StrLessAtFirstDifference(a[1..], b[1..], k - 1);
    }
  }
}
