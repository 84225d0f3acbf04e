/**
 * Strings as the two languages of the repository see them.
 *
 * A JavaScript string is a sequence of UTF-16 code units (what `charCodeAt`
 * returns); a Python string, and a Dafny `string`, is a sequence of code
 * points.  `Utf16` is the encoding that turns the one into the other, so the
 * same text read by a Python script and by the browser can be compared.
 */
module Text {
  /** A UTF-16 code unit. */
  type Unit = x: int | 0 <= x < 0x1_0000

  /** A JavaScript string. */
  type JsString = seq<Unit>

  /** Every code point lies in the Basic Multilingual Plane (one code unit each). */
  predicate IsBmp(s: string) {
    forall i :: 0 <= i < |s| ==> s[i] as int < 0x1_0000
  }

  /** UTF-16 encoding of one code point: itself, or a surrogate pair. */
  function EncodeChar(c: char): (u: JsString)
    ensures 1 <= |u| <= 2
    ensures |u| == 1 <==> c as int < 0x1_0000
    ensures |u| == 1 ==> u[0] == c as int
    ensures |u| == 2 ==> 0xD800 <= u[0] < 0xDC00 <= u[1] < 0xE000
  {
    var n := c as int;
    if n < 0x1_0000 then [n]
    else
      var m := n - 0x1_0000;
      [0xD800 + m / 0x400, 0xDC00 + m % 0x400]
  }

  /** UTF-16 encoding of a string: how a JSON text is seen by JavaScript. */
  function Utf16(s: string): (u: JsString)
    ensures |s| <= |u| <= 2 * |s|
    ensures IsBmp(s) ==> |u| == |s| && forall i :: 0 <= i < |s| ==> u[i] == s[i] as int
  {
    if s == [] then []
    else
      var rest := Utf16(s[1..]);
      assert IsBmp(s) ==> IsBmp(s[1..]) by {
        if IsBmp(s) {
          forall i | 0 <= i < |s[1..]| ensures s[1..][i] as int < 0x1_0000 { assert s[1..][i] == s[i + 1]; }
        }
      }
      EncodeChar(s[0]) + rest
  }

  /** A string literal of the JavaScript source, written with BMP characters only. */
  function Js(s: string): JsString
    requires IsBmp(s)
  {
    seq(|s|, i requires 0 <= i < |s| => s[i] as int)
  }

  lemma JsIsUtf16(s: string)
    requires IsBmp(s)
    ensures Js(s) == Utf16(s)
  {
  }

  lemma Utf16Single(c: char)
    ensures Utf16([c]) == EncodeChar(c)
  {
    assert [c][1..] == [];
  }

  lemma {:induction false} Utf16Append(a: string, b: string)
    ensures Utf16(a + b) == Utf16(a) + Utf16(b)
  {
    if a == [] {
      assert a + b == b;
    } else {
      assert (a + b)[0] == a[0];
      assert (a + b)[1..] == a[1..] + b;
      Utf16Append(a[1..], b);
    }
  }

  // ----- ASCII case mapping -------------------------------------------------

  function LowerUnit(c: Unit): Unit {
    if 'A' as int <= c <= 'Z' as int then c + 32 else c
  }

  function UpperUnit(c: Unit): Unit {
    if 'a' as int <= c <= 'z' as int then c - 32 else c
  }

  /** `String.prototype.toLowerCase` on the ASCII letters. */
  function ToLowerAscii(s: JsString): (r: JsString)
    ensures |r| == |s| && forall i :: 0 <= i < |s| ==> r[i] == LowerUnit(s[i])
  {
    seq(|s|, i requires 0 <= i < |s| => LowerUnit(s[i]))
  }

  /** `String.prototype.toUpperCase` on the ASCII letters. */
  function ToUpperAscii(s: JsString): (r: JsString)
    ensures |r| == |s| && forall i :: 0 <= i < |s| ==> r[i] == UpperUnit(s[i])
  {
    seq(|s|, i requires 0 <= i < |s| => UpperUnit(s[i]))
  }

  /** Python's `str.lower()` on the ASCII letters. */
  function LowerChars(s: string): (r: string)
    ensures |r| == |s|
  {
    seq(|s|, i requires 0 <= i < |s| => if 'A' <= s[i] <= 'Z' then (s[i] as int + 32) as char else s[i])
  }

  /** Upper-casing then lower-casing gives the lower-cased string back. */
  lemma LowerOfUpper(s: JsString)
    ensures ToLowerAscii(ToUpperAscii(s)) == ToLowerAscii(s)
  {
  }

  // ----- Hexadecimal and decimal rendering ---------------------------------

  predicate IsLowerHexDigit(c: char) {
    '0' <= c <= '9' || 'a' <= c <= 'f'
  }

  predicate IsLowerHex(s: string) {
    forall i :: 0 <= i < |s| ==> IsLowerHexDigit(s[i])
  }

  function DigitValue(c: char): (d: nat)
    requires IsLowerHexDigit(c)
    ensures d < 16
  {
    if c <= '9' then c as int - '0' as int else c as int - 'a' as int + 10
  }

  function HexDigit(d: nat): (c: char)
    requires d < 16
    ensures IsLowerHexDigit(c) && DigitValue(c) == d
  {
    if d < 10 then ('0' as int + d) as char else ('a' as int + d - 10) as char
  }

  /** Lower-case base-16 numeral with no leading zero: `n.toString(16)` and Python's `format(n, 'x')`. */
  function HexDigits(n: nat): (s: string)
    ensures 1 <= |s| && IsLowerHex(s)
    ensures |s| > 1 ==> s[0] != '0'
    decreases n
  {
    if n < 16 then [HexDigit(n)] else HexDigits(n / 16) + [HexDigit(n % 16)]
  }

  /** The number a base-16 numeral denotes (leading zeros allowed). */
  function HexValue(s: string): nat
    requires IsLowerHex(s)
  {
    if s == [] then 0 else HexValue(s[..|s| - 1]) * 16 + DigitValue(s[|s| - 1])
  }

  lemma {:induction false} HexRoundTrip(n: nat)
    ensures HexValue(HexDigits(n)) == n
    decreases n
  {
    if n >= 16 {
      var s := HexDigits(n);
      assert s[..|s| - 1] == HexDigits(n / 16);
      HexRoundTrip(n / 16);
    }
  }

  function Pow16(k: nat): (p: nat)
    ensures p >= 1
  {
    if k == 0 then 1 else 16 * Pow16(k - 1)
  }

  /** A numeral of at most k digits is exactly a number below 16^k. */
  lemma {:induction false} HexLength(n: nat, k: nat)
    requires k >= 1
    ensures |HexDigits(n)| <= k <==> n < Pow16(k)
    decreases n
  {
    if n >= 16 {
      if k == 1 {
        assert |HexDigits(n)| >= 2;
      } else {
        HexLength(n / 16, k - 1);
        assert n < Pow16(k) <==> n / 16 < Pow16(k - 1);
      }
    }
  }

  lemma Pow16Values()
    ensures Pow16(7) == 0x1000_0000 && Pow16(8) == 0x1_0000_0000
  {
    assert Pow16(1) == 16;
    assert Pow16(4) == 0x1_0000;
  }

  function Zeros(k: nat): (z: string)
    ensures |z| == k && IsLowerHex(z)
    ensures forall i :: 0 <= i < k ==> z[i] == '0'
  {
    if k == 0 then [] else Zeros(k - 1) + ['0']
  }

  /** A numeral of zeros denotes 0. */
  lemma {:induction false} HexValueOfZeros(k: nat)
    ensures HexValue(Zeros(k)) == 0
  {
    if k > 0 {
      assert Zeros(k)[..k - 1] == Zeros(k - 1);
      HexValueOfZeros(k - 1);
    }
  }

  /** Leading zeros do not change the value of a numeral. */
  lemma {:induction false} HexValueZeros(k: nat, s: string)
    requires IsLowerHex(s)
    ensures IsLowerHex(Zeros(k) + s) && HexValue(Zeros(k) + s) == HexValue(s)
    decreases |s|
  {
    var t := Zeros(k) + s;
    if s == [] {
      assert t == Zeros(k);
      HexValueOfZeros(k);
    } else {
      assert t[..|t| - 1] == Zeros(k) + s[..|s| - 1];
      HexValueZeros(k, s[..|s| - 1]);
    }
  }

  /** Python's `format(n, '08x')`: at least eight digits, zero-padded on the left. */
  function PadHex8(n: nat): (s: string)
    ensures IsLowerHex(s) && |s| == Max8(|HexDigits(n)|)
    ensures HexValue(s) == n
  {
    var digits := HexDigits(n);
    HexRoundTrip(n);
    HexValueZeros(Max8(|digits|) - |digits|, digits);
    Zeros(Max8(|digits|) - |digits|) + digits
  }

  function Max8(k: nat): nat { if k < 8 then 8 else k }

  predicate IsDecimalDigit(c: char) { '0' <= c <= '9' }

  /** Base-10 numeral of a non-negative integer: `String(n)` and Python's `str(n)`. */
  function DecimalDigits(n: nat): (s: string)
    ensures 1 <= |s| && forall i :: 0 <= i < |s| ==> IsDecimalDigit(s[i])
    decreases n
  {
    if n < 10 then [('0' as int + n) as char]
    else DecimalDigits(n / 10) + [('0' as int + n % 10) as char]
  }
}
