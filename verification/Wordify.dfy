/** The escape code behind discovery environment variables (properties/property.go): every character that is not an
    ASCII letter or digit becomes `_x<hex>_`. Characters are Unicode scalar values, Go's runes. */
module Wordify {
  import opened Strings

  // ---------- hexadecimal ----------

  predicate IsHex(c: char) {
    '0' <= c <= '9' || 'a' <= c <= 'f' || 'A' <= c <= 'F'
  }

  function HexValue(c: char): (d: nat)
    requires IsHex(c)
    ensures d < 16
  {
    if c <= '9' then (c - '0') as nat
    else if c <= 'F' then (c - 'A') as nat + 10
    else (c - 'a') as nat + 10
  }

  function HexDigit(d: nat): (c: char)
    requires d < 16
    ensures IsHex(c) && HexValue(c) == d && (c == '0' <==> d == 0)
  {
    if d < 10 then '0' + d as char else 'a' + (d - 10) as char
  }

  function ByteHex(b: nat): (h: string)
    requires b < 256
    ensures |h| == 2 && IsHex(h[0]) && IsHex(h[1]) && 16 * HexValue(h[0]) + HexValue(h[1]) == b
    ensures h[0] == '0' == h[1] <==> b == 0
  {
    [HexDigit(b / 16), HexDigit(b % 16)]
  }

  /** `n` as `k` big-endian bytes in hexadecimal. */
  function Padded(n: nat, k: nat): (h: string)
    ensures |h| == 2 * k
  {
    if k == 0 then "" else Padded(n / 256, k - 1) + ByteHex(n % 256)
  }

  /** `n` with as few bytes as it takes; nothing at all for zero. */
  function Hex(n: nat): (h: string)
    ensures h == "" <==> n == 0
  {
    if n == 0 then "" else Hex(n / 256) + ByteHex(n % 256)
  }

  lemma {:induction false} HexShape(n: nat)
    ensures |Hex(n)| % 2 == 0
    ensures n > 0 ==> |Hex(n)| >= 2 && !(Hex(n)[0] == '0' == Hex(n)[1])
    ensures forall c :: c in Hex(n) ==> IsHex(c)
  {
    hide ByteHex;
    if n > 0 {
      HexShape(n / 256);
      var front, last := Hex(n / 256), ByteHex(n % 256);
      assert Hex(n) == front + last;
      if n / 256 == 0 { assert Hex(n) == last && n % 256 == n; }
    }
  }

  function Pow256(k: nat): (p: nat)
    ensures p > 0
  {
    if k == 0 then 1 else 256 * Pow256(k - 1)
  }

  /** The hex text has the least even length that fits the number. */
  lemma {:induction false} HexIsLeast(n: nat, k: nat)
    ensures n < Pow256(k) <==> |Hex(n)| <= 2 * k
    decreases k
  {
    if k > 0 && n > 0 {
      HexIsLeast(n / 256, k - 1);
      assert n < 256 * Pow256(k - 1) <==> n / 256 < Pow256(k - 1);
    }
  }

  function Zeros(k: nat): (z: string)
    ensures |z| == k && forall i :: 0 <= i < k ==> z[i] == '0'
  {
    if k == 0 then "" else "0" + Zeros(k - 1)
  }

  lemma FitsFewer(n: nat, k: nat)
    requires k > 0 && n < Pow256(k)
    ensures n / 256 < Pow256(k - 1)
  {
  }

  lemma {:induction false} PaddedIsZerosHex(n: nat, k: nat)
    requires n < Pow256(k)
    ensures |Hex(n)| <= 2 * k && Padded(n, k) == Zeros(2 * k - |Hex(n)|) + Hex(n)
  {
    hide ByteHex, Zeros, Pow256;
    if k == 0 {
      NothingFits(n);
    } else {
      FitsFewer(n, k);
      PaddedIsZerosHex(n / 256, k - 1);
      if n == 0 {
        ZerosSplit(2 * k - 2);
      } else {
        JoinRight(Zeros(2 * k - 2 - |Hex(n / 256)|), Hex(n / 256), ByteHex(n % 256));
      }
    }
  }

  lemma NothingFits(n: nat)
    ensures n < Pow256(0) ==> n == 0
    ensures Zeros(0) == ""
  {
  }

  lemma JoinRight(a: string, b: string, c: string)
    ensures a + b + c == a + (b + c)
  {
  }

  lemma {:induction false} ZerosSplit(k: nat)
    ensures Zeros(k + 2) == Zeros(k) + "00"
  {
    if k == 0 {
      assert Zeros(2) == "0" + Zeros(1) && Zeros(1) == "0" + Zeros(0);
    } else {
      ZerosSplit(k - 1);
    }
  }

  /** The loop that drops leading zeros of the eight digits while keeping the length even. */
  method StripZeros(digits: string, ghost n: nat, ghost zeros: nat) returns (hex: string)
    requires |digits| % 2 == 0 && zeros % 2 == 0 && digits == Zeros(zeros) + Hex(n)
    ensures hex == Hex(n)
  {
    HexShape(n);
    assert digits[zeros..] == Hex(n);
    assert forall k :: 0 <= k < zeros ==> digits[k] == Zeros(zeros)[k];
    hex := digits;
    ghost var i := 0;
    while |hex| > 0 && hex[0] == '0'
      invariant 0 <= i <= zeros && hex == digits[i..]
    {
      if |hex| > 1 && hex[1] != '0' && |hex| % 2 == 0 { break; }
      hex := hex[1..];
      i := i + 1;
    }
  }

  // ---------- encoding ----------

  predicate IsWord(c: char) {
    '0' <= c <= '9' || 'A' <= c <= 'Z' || 'a' <= c <= 'z'
  }

  /** The test of the source; it also escapes `_`, which lies between `Z` and `a`. */
  predicate NeedsEscape(c: char): (b: bool)
    ensures b <==> !IsWord(c)
  {
    (c != '_' && c < '0') || ('9' < c && c < 'A') || ('Z' < c && c < 'a') || 'z' < c
  }

  function Encode(c: char): string {
    if NeedsEscape(c) then "_x" + Hex(c as nat) + "_" else [c]
  }

  function Wordified(s: string): string {
    if s == "" then "" else Encode(s[0]) + Wordified(s[1..])
  }

  lemma CharFitsFourBytes(c: char)
    ensures c as nat < Pow256(4)
  {
    assert Pow256(4) == 256 * (256 * (256 * 256));
  }

  method EncodeRune(c: char) returns (piece: string)
    ensures piece == Encode(c)
  {
    hide Hex, Padded;
    if NeedsEscape(c) {
      var hexEncoded := Padded(c as nat, 4);
      CharFitsFourBytes(c);
      PaddedIsZerosHex(c as nat, 4);
      HexShape(c as nat);
      var stripped := StripZeros(hexEncoded, c as nat, 8 - |Hex(c as nat)|);
      piece := "_x" + stripped + "_";
    } else {
      piece := [c];
    }
  }

  method WordifyText(text: string) returns (wordified: string)
    ensures wordified == Wordified(text)
  {
    hide Encode;
    wordified := "";
    assert text[0..] == text;
    for i := 0 to |text|
      invariant wordified + Wordified(text[i..]) == Wordified(text)
    {
      assert text[i..][1..] == text[i + 1..];
      var piece := EncodeRune(text[i]);
      wordified := wordified + piece;
    }
    assert text[|text|..] == "";
  }

  lemma {:induction false} WordifiedAppend(a: string, b: string)
    ensures Wordified(a + b) == Wordified(a) + Wordified(b)
  {
    if a == "" {
      assert a + b == b;
    } else {
      assert (a + b)[1..] == a[1..] + b;
      WordifiedAppend(a[1..], b);
    }
  }

  /** The output uses word characters only. */
  lemma {:induction false} OnlyWordCharacters(s: string)
    ensures forall c :: c in Wordified(s) ==> IsWord(c) || c == '_'
  {
    hide Hex;
    if s != "" {
      OnlyWordCharacters(s[1..]);
      HexShape(s[0] as nat);
    }
  }

  // ---------- decoding ----------

  /** Number of leading hex digits. */
  function HexSpan(s: string): (k: nat)
    ensures k <= |s|
    ensures forall i :: 0 <= i < k ==> IsHex(s[i])
  {
    if s != "" && IsHex(s[0]) then 1 + HexSpan(s[1..]) else 0
  }

  /** Length of the escape `_x<hex digits>_` at the front of `s`, or zero. */
  function MatchLength(s: string): (k: nat)
    ensures k <= |s|
    ensures k > 0 ==> k >= 4 && forall i :: 2 <= i < k - 1 ==> IsHex(s[i])
  {
    if |s| < 2 || s[0] != '_' || s[1] != 'x' then 0 else
      var k := HexSpan(s[2..]);
      if k > 0 && 2 + k < |s| && s[2 + k] == '_' then 3 + k else 0
  }

  function HexNumber(h: string): nat
    requires forall i :: 0 <= i < |h| ==> IsHex(h[i])
  {
    if h == "" then 0 else 16 * HexNumber(h[..|h| - 1]) + HexValue(h[|h| - 1])
  }

  /** The character with a given code; codes that are no character print as U+FFFD. */
  function RuneOf(code: nat): char {
    if code < 0xD800 || 0xE000 <= code < 0x11_0000 then code as char else '\U{FFFD}'
  }

  /** An escape's digits: an odd number of them is an error, and only the first four bytes count. */
  function DecodeDigits(h: string): Option<char>
    requires forall i :: 0 <= i < |h| ==> IsHex(h[i])
  {
    if |h| % 2 == 1 then None else Some(RuneOf(HexNumber(if |h| > 8 then h[..8] else h)))
  }

  /** Replaces the escapes of `s`, found leftmost first without overlap; any malformed escape fails the whole. */
  function Unwordify(s: string): Option<string> {
    if s == "" then Some("") else
      var k := MatchLength(s);
      if k == 0 then Prepend(Some(s[0]), Unwordify(s[1..]))
      else Prepend(DecodeDigits(s[2..k - 1]), Unwordify(s[k..]))
  }

  function Prepend(c: Option<char>, rest: Option<string>): Option<string> {
    if c.None? || rest.None? then None else Some([c.value] + rest.value)
  }

  // ---------- round trip ----------

  lemma {:induction false} HexNumberOfHex(n: nat)
    ensures forall i :: 0 <= i < |Hex(n)| ==> IsHex(Hex(n)[i])
    ensures HexNumber(Hex(n)) == n
  {
    hide ByteHex, HexNumber, HexValue, IsHex;
    HexShape(n);
    NumberOfNothing();
    if n > 0 {
      HexNumberOfHex(n / 256);
      NumberOfMore(Hex(n / 256), ByteHex(n % 256));
    }
  }

  lemma NumberOfNothing()
    ensures HexNumber("") == 0
  {
  }

  lemma NumberOfMore(front: string, b: string)
    requires (forall i :: 0 <= i < |front| ==> IsHex(front[i])) && |b| == 2 && IsHex(b[0]) && IsHex(b[1])
    ensures HexNumber(front + b) == 256 * HexNumber(front) + (16 * HexValue(b[0]) + HexValue(b[1]))
  {
    hide HexValue, IsHex;
    assert (front + b)[..|front| + 1] == front + [b[0]];
    assert (front + [b[0]])[..|front|] == front;
    assert HexNumber(front + [b[0]]) == 16 * HexNumber(front) + HexValue(b[0]);
  }

  lemma {:induction false} HexSpanIs(h: string, rest: string)
    requires forall i :: 0 <= i < |h| ==> IsHex(h[i])
    ensures HexSpan(h + "_" + rest) == |h|
  {
    if h == "" {
      assert h + "_" + rest == "_" + rest;
    } else {
      assert (h + "_" + rest)[1..] == h[1..] + "_" + rest;
      HexSpanIs(h[1..], rest);
    }
  }

  /** Every encoded character other than NUL is read back, whatever follows it. */
  lemma DecodeEncoded(c: char, rest: string)
    requires c != '\0'
    ensures Unwordify(Encode(c) + rest) == Prepend(Some(c), Unwordify(rest))
  {
    hide Hex, HexNumber;
    if IsWord(c) {
      assert (Encode(c) + rest)[1..] == rest;
    } else {
      var h, s := Hex(c as nat), Encode(c) + rest;
      HexShape(c as nat);
      HexNumberOfHex(c as nat);
      CharFitsFourBytes(c);
      HexIsLeast(c as nat, 4);
      assert s[2..] == h + "_" + rest;
      HexSpanIs(h, rest);
      assert MatchLength(s) == |h| + 3 && s[2..|h| + 2] == h && s[|h| + 3..] == rest;
      assert DecodeDigits(h) == Some(c);
    }
  }

  /** NUL is written `_x_`, which is not an escape: it is read back as it stands. */
  lemma DecodeNul(rest: string)
    ensures Unwordify(Encode('\0') + rest) == Prepend(Some('_'), Unwordify("x_" + rest))
  {
    var s := Encode('\0') + rest;
    assert s[2..] == "" + "_" + rest;
    HexSpanIs("", rest);
    assert s[1..] == "x_" + rest;
  }

  lemma {:induction false} DecodePrefix(s: string, rest: string)
    requires '\0' !in s
    ensures Unwordify(Wordified(s) + rest) ==
      if Unwordify(rest).None? then None else Some(s + Unwordify(rest).value)
  {
    hide Encode, Unwordify;
    if s == "" {
      assert Wordified(s) + rest == rest;
      assert Unwordify(rest).Some? ==> "" + Unwordify(rest).value == Unwordify(rest).value;
    } else {
      assert Wordified(s) + rest == Encode(s[0]) + (Wordified(s[1..]) + rest);
      DecodeEncoded(s[0], Wordified(s[1..]) + rest);
      DecodePrefix(s[1..], rest);
      if Unwordify(rest).Some? {
        assert [s[0]] + (s[1..] + Unwordify(rest).value) == s + Unwordify(rest).value;
      }
    }
  }

  lemma UnwordifyEmpty()
    ensures Unwordify("") == Some("")
  {
  }

  /** Decoding gives back what was encoded exactly when there was no NUL in it. */
  lemma WordifyRoundTrip(s: string)
    ensures Unwordify(Wordified(s)) == Some(s) <==> '\0' !in s
  {
    hide Unwordify, Encode, Wordified;
    UnwordifyEmpty();
    if '\0' !in s {
      DecodePrefix(s, "");
      assert Wordified(s) + "" == Wordified(s) && s + "" == s;
    } else {
      var k := IndexOf(s, '\0');
      NulIsLost(s[..k], s[k + 1..]);
      assert s == s[..k] + ['\0'] + s[k + 1..];
    }
  }

  lemma NulIsLost(a: string, b: string)
    requires '\0' !in a
    ensures Unwordify(Wordified(a + ['\0'] + b)) != Some(a + ['\0'] + b)
  {
    hide Unwordify, Encode, Wordified;
    var nul, tail := ['\0'] + b, Wordified(b);
    assert a + ['\0'] + b == a + nul;
    WordifiedAppend(a, nul);
    assert Wordified(nul) == Encode('\0') + tail by { WordifiedFirst('\0', b); }
    DecodePrefix(a, Encode('\0') + tail);
    DecodeNul(tail);
    var rest := Unwordify("x_" + tail);
    if rest.Some? { Differ(a, rest.value, b); }
  }

  lemma WordifiedFirst(c: char, b: string)
    ensures Wordified([c] + b) == Encode(c) + Wordified(b)
  {
    hide Encode;
    assert ([c] + b)[1..] == b;
  }

  lemma Differ(a: string, rest: string, b: string)
    ensures a + (['_'] + rest) != a + ['\0'] + b
  {
    assert (a + (['_'] + rest))[|a|] == '_' && (a + ['\0'] + b)[|a|] == '\0';
  }
}
