/**
 * The text transformations of the resource-string escaping tool
 * (plugins/py-cmd_gui_resources_2024/unicode_encode_strings.py):
 *
 *  - `EscapeUnicode`, the regular-expression substitution that replaces every character outside
 *    0x00..0x7f by a lowercase `\uXXXX` escape (`"\\u{:04x}".format(ord(ch))`);
 *  - `Unescape`, Python's `unicode_escape` codec, which `DecodeStringFiles` applies to the file
 *    content, modelled over a sequence of code units so that it can be fed either the UTF-8 bytes
 *    of the text (what the script does) or its code points (the corrected decoder).
 *
 * Text is `string` (Dafny characters are Unicode scalar values); decoded text is a sequence of
 * code points (`seq<int>`), because the codec can produce lone surrogates that no `char` holds.
 */
module ResourceEscape {
  import opened Wrappers

  const BACKSLASH: int := 0x5C

  // ---------------------------------------------------------------------------------------------
  // Characters, code points and UTF-8
  // ---------------------------------------------------------------------------------------------

  predicate IsAscii(s: string) {
    forall i :: 0 <= i < |s| ==> s[i] as int <= 0x7f
  }

  predicate NoBackslash(s: string) {
    forall i :: 0 <= i < |s| ==> s[i] != '\\'
  }

  /** The code points of a text, one per character. */
  function CodePoints(s: string): (r: seq<int>)
    ensures |r| == |s|
    ensures forall i :: 0 <= i < |s| ==> r[i] == s[i] as int
  {
    if s == [] then [] else [s[0] as int] + CodePoints(s[1..])
  }

  lemma CodePointsAppend(a: string, b: string)
    ensures CodePoints(a + b) == CodePoints(a) + CodePoints(b)
  {
  }

  /** The UTF-8 encoding of one character (`str.encode("utf-8")`). */
  function Utf8(c: char): (r: seq<int>)
    ensures 1 <= |r| <= 4
    ensures forall i :: 0 <= i < |r| ==> 0 <= r[i] < 256
    ensures (|r| == 1) <==> c as int <= 0x7f
    ensures c as int <= 0x7f ==> r == [c as int]
  {
    var n := c as int;
    if n < 0x80 then [n]
    else if n < 0x800 then [0xC0 + n / 64, 0x80 + n % 64]
    else if n < 0x10000 then [0xE0 + n / 4096, 0x80 + (n / 64) % 64, 0x80 + n % 64]
    else [0xF0 + n / 262144, 0x80 + (n / 4096) % 64, 0x80 + (n / 64) % 64, 0x80 + n % 64]
  }

  function Utf8Bytes(s: string): seq<int> {
    if s == [] then [] else Utf8(s[0]) + Utf8Bytes(s[1..])
  }

  /** On ASCII text the UTF-8 bytes are the code points. */
  lemma {:induction false} Utf8BytesOfAscii(s: string)
    requires IsAscii(s)
    ensures Utf8Bytes(s) == CodePoints(s)
  {
    if s != [] {
      Utf8BytesOfAscii(s[1..]);
    }
  }

  /** A decoded code-point sequence becomes text only when every code point is a scalar value. */
  predicate IsScalar(n: int) {
    (0 <= n < 0xD800) || (0xE000 <= n < 0x11_0000)
  }

  function ToText(cps: seq<int>): (r: Option<string>)
    ensures r.Some? <==> forall i :: 0 <= i < |cps| ==> IsScalar(cps[i])
    ensures r.Some? ==> CodePoints(r.value) == cps
  {
    if cps == [] then Some([])
    else if !IsScalar(cps[0]) then None
    else
      match ToText(cps[1..])
      case None => None
      case Some(rest) => Some([cps[0] as char] + rest)
  }

  // ---------------------------------------------------------------------------------------------
  // Hexadecimal numerals
  // ---------------------------------------------------------------------------------------------

  function HexDigit(d: nat): char
    requires d < 16
  {
    if d < 10 then ('0' as int + d) as char else ('a' as int + d - 10) as char
  }

  lemma HexDigitSpec(d: nat)
    requires d < 16
    ensures IsLowerHexDigit(HexDigit(d)) && HexValue(HexDigit(d) as int) == d
  {
  }

  /** The value of a hexadecimal digit (either case), or -1 for anything else. */
  function HexValue(u: int): (v: int)
    ensures -1 <= v < 16
  {
    if '0' as int <= u <= '9' as int then u - '0' as int
    else if 'a' as int <= u <= 'f' as int then u - 'a' as int + 10
    else if 'A' as int <= u <= 'F' as int then u - 'A' as int + 10
    else -1
  }

  predicate AllHex(u: seq<int>) {
    forall i :: 0 <= i < |u| ==> HexValue(u[i]) >= 0
  }

  /** The number that a sequence of hexadecimal digits denotes (most significant first). */
  function HexNumber(u: seq<int>): nat
    requires AllHex(u)
  {
    if u == [] then 0 else HexNumber(u[..|u| - 1]) * 16 + HexValue(u[|u| - 1])
  }

  /** The shortest lowercase hexadecimal numeral of `n`. */
  function Hex(n: nat): string
    decreases n
  {
    if n < 16 then [HexDigit(n)] else Hex(n / 16) + [HexDigit(n % 16)]
  }

  function Zeros(k: nat): (r: string)
    ensures |r| == k && forall i :: 0 <= i < k ==> r[i] == '0'
  {
    if k == 0 then [] else ['0'] + Zeros(k - 1)
  }

  /** Python's `"{:04x}".format(n)`: at least four lowercase digits, zero-padded on the left. */
  function Hex04(n: nat): string {
    var h := Hex(n);
    if |h| < 4 then Zeros(4 - |h|) + h else h
  }

  predicate IsLowerHexDigit(c: char) {
    ('0' <= c <= '9') || ('a' <= c <= 'f')
  }

  /** `Hex` is made of lowercase hexadecimal digits and has no leading zero. */
  lemma {:induction false} HexDigits(n: nat)
    ensures |Hex(n)| >= 1
    ensures forall i :: 0 <= i < |Hex(n)| ==> IsLowerHexDigit(Hex(n)[i])
    ensures n > 0 ==> Hex(n)[0] != '0'
    decreases n
  {
    if n >= 16 {
      HexDigits(n / 16);
      var h := Hex(n / 16);
      assert Hex(n) == h + [HexDigit(n % 16)];
      assert Hex(n)[0] == h[0];
    }
  }

  /** `HexNumber` reads `Hex(n)` back as `n`. */
  lemma {:induction false} HexValueOfHex(n: nat)
    ensures AllHex(CodePoints(Hex(n))) && HexNumber(CodePoints(Hex(n))) == n
    decreases n
  {
    if n < 16 {
      HexDigitSpec(n);
      var u := CodePoints(Hex(n));
      assert u == [HexDigit(n) as int];
      assert u[..0] == [];
    } else {
      HexValueOfHex(n / 16);
      HexDigitSpec(n % 16);
      var p := CodePoints(Hex(n / 16));
      CodePointsAppend(Hex(n / 16), [HexDigit(n % 16)]);
      var u := CodePoints(Hex(n));
      assert u == p + [HexDigit(n % 16) as int];
      assert u[..|u| - 1] == p;
      assert HexNumber(u) == HexNumber(p) * 16 + n % 16;
    }
  }

  function Pow16(k: nat): (r: nat)
    ensures r >= 1
  {
    if k == 0 then 1 else 16 * Pow16(k - 1)
  }

  /** `Hex(n)` has at most `k` digits exactly when `n` is below 16 to the `k`. */
  lemma {:induction false} HexLengthBound(n: nat, k: nat)
    requires k >= 1
    ensures |Hex(n)| <= k <==> n < Pow16(k)
    decreases k
  {
    if n >= 16 {
      assert |Hex(n)| == |Hex(n / 16)| + 1;
      if k == 1 {
        HexDigits(n / 16);
      } else {
        HexLengthBound(n / 16, k - 1);
        assert n / 16 < Pow16(k - 1) <==> n < 16 * Pow16(k - 1);
      }
    } else {
      assert Pow16(k) >= 16 by { assert Pow16(k) == 16 * Pow16(k - 1); }
    }
  }

  /** `Hex(n)` has at most four digits exactly when `n` is below 0x10000. */
  lemma HexLength(n: nat)
    ensures |Hex(n)| <= 4 <==> n < 0x1_0000
  {
    HexLengthBound(n, 4);
    assert Pow16(4) == 0x1_0000 by {
      assert Pow16(1) == 16;
      assert Pow16(2) == 256;
      assert Pow16(3) == 4096;
    }
  }

  /** `Hex` is a minimal lowercase numeral that `HexNumber` reads back as `n`. */
  lemma HexSpec(n: nat)
    ensures |Hex(n)| >= 1
    ensures forall i :: 0 <= i < |Hex(n)| ==> IsLowerHexDigit(Hex(n)[i])
    ensures AllHex(CodePoints(Hex(n))) && HexNumber(CodePoints(Hex(n))) == n
    ensures n > 0 ==> Hex(n)[0] != '0'
    ensures |Hex(n)| <= 4 <==> n < 0x1_0000
  {
    HexDigits(n);
    HexValueOfHex(n);
    HexLength(n);
  }

  /** Leading zeros do not change the value of a numeral. */
  lemma {:induction false} HexNumberLeadingZeros(k: nat, u: seq<int>)
    requires AllHex(u)
    ensures AllHex(CodePoints(Zeros(k)) + u)
    ensures HexNumber(CodePoints(Zeros(k)) + u) == HexNumber(u)
    decreases |u|
  {
    var z := CodePoints(Zeros(k));
    if u == [] {
      assert z + u == z;
      ZerosValue(k);
    } else {
      var w := z + u;
      assert w[..|w| - 1] == z + u[..|u| - 1];
      HexNumberLeadingZeros(k, u[..|u| - 1]);
    }
  }

  lemma {:induction false} ZerosValue(k: nat)
    ensures AllHex(CodePoints(Zeros(k))) && HexNumber(CodePoints(Zeros(k))) == 0
  {
    if k > 0 {
      var z := CodePoints(Zeros(k));
      assert z[..|z| - 1] == CodePoints(Zeros(k - 1));
      ZerosValue(k - 1);
    }
  }

  /** `Hex04` is a lowercase numeral of `n`, at least four digits, padded only up to four. */
  lemma Hex04Spec(n: nat)
    ensures |Hex04(n)| >= 4
    ensures forall i :: 0 <= i < |Hex04(n)| ==> IsLowerHexDigit(Hex04(n)[i])
    ensures AllHex(CodePoints(Hex04(n))) && HexNumber(CodePoints(Hex04(n))) == n
    ensures |Hex04(n)| > 4 ==> Hex04(n)[0] != '0'
    ensures |Hex04(n)| == 4 <==> n < 0x1_0000
  {
    HexSpec(n);
    Hex04Digits(n);
    Hex04Value(n);
  }

  lemma Hex04Value(n: nat)
    ensures AllHex(CodePoints(Hex04(n))) && HexNumber(CodePoints(Hex04(n))) == n
  {
    HexValueOfHex(n);
    var h := Hex(n);
    if |h| < 4 {
      CodePointsAppend(Zeros(4 - |h|), h);
      HexNumberLeadingZeros(4 - |h|, CodePoints(h));
    }
  }

  // ---------------------------------------------------------------------------------------------
  // EscapeUnicode (unicode_encode_strings.py:106-109)
  // ---------------------------------------------------------------------------------------------

  /** The replacement of one character: itself when ASCII, else `\u` and its code point. */
  function EscapeChar(c: char): string {
    if c as int <= 0x7f then [c] else "\\u" + Hex04(c as int)
  }

  function EscapeUnicode(s: string): string {
    if s == [] then [] else EscapeChar(s[0]) + EscapeUnicode(s[1..])
  }

  /** Every ASCII character is kept; every other one becomes `\u` followed by its code point as
      a lowercase hexadecimal numeral of at least four digits, with no padding beyond four. */
  lemma EscapeCharSpec(c: char)
    ensures c as int <= 0x7f ==> EscapeChar(c) == [c]
    ensures c as int > 0x7f ==>
      var e := EscapeChar(c);
      && |e| >= 6 && e[0] == '\\' && e[1] == 'u'
      && (forall i :: 2 <= i < |e| ==> IsLowerHexDigit(e[i]))
      && AllHex(CodePoints(e[2..])) && HexNumber(CodePoints(e[2..])) == c as int
      && (|e| > 6 ==> e[2] != '0')
  {
    if c as int > 0x7f {
      Hex04Spec(c as int);
      assert EscapeChar(c)[2..] == Hex04(c as int);
    }
  }

  /** Escaping works character by character: it distributes over concatenation. */
  lemma {:induction false} EscapeUnicodeAppend(a: string, b: string)
    ensures EscapeUnicode(a + b) == EscapeUnicode(a) + EscapeUnicode(b)
  {
    if a != [] {
      assert (a + b)[1..] == a[1..] + b;
      EscapeUnicodeAppend(a[1..], b);
    } else {
      assert a + b == b;
    }
  }

  lemma Hex04Digits(n: nat)
    ensures forall i :: 0 <= i < |Hex04(n)| ==> IsLowerHexDigit(Hex04(n)[i])
  {
    HexDigits(n);
    var h := Hex(n);
    if |h| < 4 {
      var z := Zeros(4 - |h|);
      assert forall i :: 0 <= i < |z + h| ==> (z + h)[i] == if i < |z| then z[i] else h[i - |z|];
    }
  }

  lemma EscapeCharAscii(c: char)
    ensures IsAscii(EscapeChar(c))
  {
    if c as int > 0x7f {
      var h := Hex04(c as int);
      Hex04Digits(c as int);
      assert IsAscii(h);
      assert IsAscii("\\u");
      var e := "\\u" + h;
      assert forall i :: 0 <= i < |e| ==> e[i] == if i < 2 then "\\u"[i] else h[i - 2];
    }
  }

  lemma AsciiAppend(a: string, b: string)
    requires IsAscii(a) && IsAscii(b)
    ensures IsAscii(a + b)
  {
    assert forall i :: 0 <= i < |a + b| ==> (a + b)[i] == if i < |a| then a[i] else b[i - |a|];
  }

  /** The escaped text is pure ASCII, so the script's ASCII write of it cannot fail. */
  lemma {:induction false} EscapeUnicodeIsAscii(s: string)
    ensures IsAscii(EscapeUnicode(s))
  {
    if s != [] {
      EscapeCharAscii(s[0]);
      EscapeUnicodeIsAscii(s[1..]);
      AsciiAppend(EscapeChar(s[0]), EscapeUnicode(s[1..]));
    }
  }

  /** ASCII text is left exactly as it is. */
  lemma {:induction false} EscapeUnicodeOfAscii(s: string)
    requires IsAscii(s)
    ensures EscapeUnicode(s) == s
  {
    if s != [] {
      EscapeUnicodeOfAscii(s[1..]);
    }
  }

  /** Escaping is idempotent: a second encode run finds nothing to escape. */
  lemma EscapeUnicodeIdempotent(s: string)
    ensures EscapeUnicode(EscapeUnicode(s)) == EscapeUnicode(s)
  {
    EscapeUnicodeIsAscii(s);
    EscapeUnicodeOfAscii(EscapeUnicode(s));
  }

  lemma {:induction false} EscapeUnicodeLength(s: string)
    ensures |EscapeUnicode(s)| >= |s|
    ensures |EscapeUnicode(s)| == |s| ==> IsAscii(s)
  {
    if s != [] {
      EscapeUnicodeLength(s[1..]);
      EscapeCharSpec(s[0]);
    }
  }

  /** The escaped text equals the original exactly when the original is ASCII, which is when
      `EncodeStringFiles` skips the file. */
  lemma EscapeUnicodeUnchangedIff(s: string)
    ensures EscapeUnicode(s) == s <==> IsAscii(s)
  {
    EscapeUnicodeLength(s);
    if IsAscii(s) {
      EscapeUnicodeOfAscii(s);
    }
  }

  // ---------------------------------------------------------------------------------------------
  // Python's unicode_escape decoder (unicode_encode_strings.py:155)
  // ---------------------------------------------------------------------------------------------

  const DECODE_ERROR := "UnicodeDecodeError"

  function Cons(x: int, r: Result<seq<int>>): Result<seq<int>> {
    if r.Err? then r else Ok([x] + r.value)
  }

  /** The character a one-letter escape stands for, or -1 when `c` is not such a letter. */
  function SimpleEscape(c: int): int {
    if c == '\\' as int then '\\' as int
    else if c == '\'' as int then '\'' as int
    else if c == '"' as int then '"' as int
    else if c == 'b' as int then 0x08
    else if c == 'f' as int then 0x0c
    else if c == 't' as int then 0x09
    else if c == 'n' as int then 0x0a
    else if c == 'r' as int then 0x0d
    else if c == 'v' as int then 0x0b
    else if c == 'a' as int then 0x07
    else -1
  }

  predicate IsOctal(u: int) {
    '0' as int <= u <= '7' as int
  }

  /** The number of octal digits (one to three) of the escape that starts at `u[0]`. */
  function OctalLength(u: seq<int>): (k: nat)
    requires |u| >= 1 && IsOctal(u[0])
    ensures 1 <= k <= 3 && k <= |u|
  {
    if |u| >= 2 && IsOctal(u[1]) then (if |u| >= 3 && IsOctal(u[2]) then 3 else 2) else 1
  }

  function OctalNumber(u: seq<int>): int {
    if u == [] then 0 else OctalNumber(u[..|u| - 1]) * 8 + (u[|u| - 1] - '0' as int)
  }

  /**
   * Python's `bytes.decode("unicode_escape")` over a sequence of code units: a unit other than a
   * backslash stands for itself (a byte is read as Latin-1); after a backslash come a line
   * continuation, a one-letter escape, one to three octal digits, `x` with exactly 2, `u` with
   * exactly 4 or `U` with exactly 8 hexadecimal digits (the last at most 0x10ffff); any other
   * unit is kept together with its backslash.  A backslash at the end or a truncated hexadecimal
   * escape is a decode error.  A named escape `\N{...}` is a decode error too: Python looks the
   * name up in the Unicode character database, which is not part of this model.
   */
  function Unescape(u: seq<int>): Result<seq<int>>
    decreases |u|
  {
    if u == [] then Ok([])
    else if u[0] != BACKSLASH then Cons(u[0], Unescape(u[1..]))
    else if |u| == 1 then Err(DECODE_ERROR)
    else
      var c := u[1];
      if c == '\n' as int then Unescape(u[2..])
      else if SimpleEscape(c) >= 0 then Cons(SimpleEscape(c), Unescape(u[2..]))
      else if IsOctal(c) then
        var k := OctalLength(u[1..]);
        Cons(OctalNumber(u[1..1 + k]), Unescape(u[1 + k..]))
      else if c == 'x' as int || c == 'u' as int || c == 'U' as int then
        var count := if c == 'x' as int then 2 else if c == 'u' as int then 4 else 8;
        if |u| < 2 + count || !AllHex(u[2..2 + count]) then Err(DECODE_ERROR)
        else if HexNumber(u[2..2 + count]) > 0x10_FFFF then Err(DECODE_ERROR)
        else Cons(HexNumber(u[2..2 + count]), Unescape(u[2 + count..]))
      else if c == 'N' as int then Err(DECODE_ERROR)
      else Cons(BACKSLASH, Cons(c, Unescape(u[2..])))
  }

  /** Text without backslashes decodes to itself. */
  lemma {:induction false} UnescapeNoBackslash(u: seq<int>)
    requires forall i :: 0 <= i < |u| ==> u[i] != BACKSLASH
    ensures Unescape(u) == Ok(u)
  {
    if u != [] {
      UnescapeNoBackslash(u[1..]);
      assert [u[0]] + u[1..] == u;
    }
  }

  /** The escape of a character below 0x10000 (other than a backslash) decodes back to it. */
  lemma UnescapeEscapeChar(c: char, rest: seq<int>)
    requires c != '\\' && c as int <= 0xFFFF
    ensures Unescape(CodePoints(EscapeChar(c)) + rest) == Cons(c as int, Unescape(rest))
  {
    var u := CodePoints(EscapeChar(c)) + rest;
    if c as int > 0x7f {
      Hex04Spec(c as int);
      CodePointsAppend("\\u", Hex04(c as int));
      assert u[2..6] == CodePoints(Hex04(c as int));
      assert u[6..] == rest;
      UnescapeFourDigits(u);
    } else {
      assert u[1..] == rest;
    }
  }

  /**
   * Decoding reverses encoding for text whose only backslashes would come from escapes, and whose
   * characters all lie below 0x10000: the four-digit escapes are then complete.
   */
  lemma {:induction false} UnescapeEscapeUnicode(s: string)
    requires NoBackslash(s)
    requires forall i :: 0 <= i < |s| ==> s[i] as int <= 0xFFFF
    ensures Unescape(CodePoints(EscapeUnicode(s))) == Ok(CodePoints(s))
  {
    if s != [] {
      UnescapeEscapeUnicode(s[1..]);
      CodePointsAppend(EscapeChar(s[0]), EscapeUnicode(s[1..]));
      UnescapeEscapeChar(s[0], CodePoints(EscapeUnicode(s[1..])));
    }
  }

  /**
   * Above 0xFFFF the round trip fails: U+1F600 is escaped to a backslash, `u` and the five digits 1f600, which the
   * decoder reads as U+1F60 followed by the digit `0`.
   */
  lemma HexOf1F600()
    ensures Hex04(0x1F600) == "1f600"
  {
    assert Hex(0x1) == "1";
    assert Hex(0x1F) == Hex(0x1) + "f";
    assert Hex(0x1F6) == Hex(0x1F) + "6";
    assert Hex(0x1F60) == Hex(0x1F6) + "0";
    assert Hex(0x1F600) == Hex(0x1F60) + "0";
  }

  lemma HexNumber1F60()
    ensures AllHex(['1' as int, 'f' as int, '6' as int, '0' as int])
    ensures HexNumber(['1' as int, 'f' as int, '6' as int, '0' as int]) == 0x1F60
  {
    var h := ['1' as int, 'f' as int, '6' as int, '0' as int];
    assert h[..3] == ['1' as int, 'f' as int, '6' as int];
    assert h[..3][..2] == ['1' as int, 'f' as int];
    assert h[..3][..2][..1] == ['1' as int];
    assert h[..3][..2][..1][..0] == [];
    assert HexNumber(h[..3][..2][..1]) == 1;
    assert HexNumber(h[..3][..2]) == 0x1F;
    assert HexNumber(h[..3]) == 0x1F6;
  }

  lemma EscapeOf1F600()
    ensures EscapeUnicode("\U{1F600}") == "\\u1f600"
  {
    HexOf1F600();
    var s := "\U{1F600}";
    assert EscapeUnicode(s) == EscapeChar(s[0]) + EscapeUnicode([]);
  }

  /** A `\u` escape with four hexadecimal digits decodes to their value. */
  lemma UnescapeFourDigits(u: seq<int>)
    requires |u| >= 6 && u[0] == BACKSLASH && u[1] == 'u' as int
    requires AllHex(u[2..6]) && HexNumber(u[2..6]) <= 0xFFFF
    ensures Unescape(u) == Cons(HexNumber(u[2..6]), Unescape(u[6..]))
  {
    assert SimpleEscape(u[1]) == -1 && !IsOctal(u[1]) && u[1] != '\n' as int;
  }

  lemma UnescapeOf1F600()
    ensures Unescape(CodePoints("\\u1f600")) == Ok([0x1F60, '0' as int])
  {
    var u := CodePoints("\\u1f600");
    assert u == [0x5C, 'u' as int, '1' as int, 'f' as int, '6' as int, '0' as int, '0' as int];
    assert u[2..6] == ['1' as int, 'f' as int, '6' as int, '0' as int];
    HexNumber1F60();
    UnescapeFourDigits(u);
    assert u[6..] == ['0' as int];
    UnescapeNoBackslash(u[6..]);
    assert [0x1F60] + ['0' as int] == [0x1F60, '0' as int];
  }

  lemma EscapeBeyondBmpDoesNotRoundTrip()
    ensures EscapeUnicode("\U{1F600}") == "\\u1f600"
    ensures Unescape(CodePoints(EscapeUnicode("\U{1F600}"))) == Ok([0x1F60, '0' as int])
  {
    EscapeOf1F600();
    UnescapeOf1F600();
  }

  // ---------------------------------------------------------------------------------------------
  // The decode step of DecodeStringFiles, as written and corrected
  // ---------------------------------------------------------------------------------------------

  /** `content.encode("utf-8").decode("unicode_escape")`: the bytes of non-ASCII characters are
      read back one by one as Latin-1 characters. */
  function DecodeAsWritten(content: string): Result<seq<int>> {
    Unescape(Utf8Bytes(content))
  }

  /** The decoder the tool evidently intends: escapes are resolved, every other character is kept. */
  function Decode(content: string): Result<seq<int>> {
    Unescape(CodePoints(content))
  }

  /** Both decoders agree on ASCII text, and so on everything the encoder writes. */
  lemma DecodeAgreesOnAscii(content: string)
    requires IsAscii(content)
    ensures DecodeAsWritten(content) == Decode(content)
  {
    Utf8BytesOfAscii(content);
  }

  /** As written, already-decoded text is decoded again into different characters: "ä" (U+00E4)
      is read back from its UTF-8 bytes C3 A4 as "Ã¤", so a second decode run rewrites the file. */
  lemma DecodeAsWrittenGarblesNonAscii()
    ensures DecodeAsWritten("ä") == Ok([0xC3, 0xA4])
    ensures Decode("ä") == Ok([0xE4])
  {
    assert Utf8Bytes("ä") == [0xC3, 0xA4];
    UnescapeNoBackslash([0xC3, 0xA4]);
    UnescapeNoBackslash([0xE4]);
  }

  /** Corrected: text without backslashes decodes to itself, so decoding twice changes nothing. */
  lemma DecodeWithoutEscapesIsIdentity(content: string)
    requires NoBackslash(content)
    ensures Decode(content) == Ok(CodePoints(content))
  {
    UnescapeNoBackslash(CodePoints(content));
  }

  /** Corrected: decoding reverses encoding (both decoders, since encoded text is ASCII). */
  lemma DecodeReversesEncode(s: string)
    requires NoBackslash(s)
    requires forall i :: 0 <= i < |s| ==> s[i] as int <= 0xFFFF
    ensures Decode(EscapeUnicode(s)) == Ok(CodePoints(s))
    ensures DecodeAsWritten(EscapeUnicode(s)) == Ok(CodePoints(s))
  {
    UnescapeEscapeUnicode(s);
    EscapeUnicodeIsAscii(s);
    DecodeAgreesOnAscii(EscapeUnicode(s));
  }
}
