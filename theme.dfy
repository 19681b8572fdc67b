/**
 * `Color.init(hex:)` and the palette (Theme.swift).  The string is trimmed,
 * one leading `#` is dropped, Foundation's `Scanner.scanHexInt64` reads a
 * 64-bit value, and the number of characters left (not the number of digits
 * read) picks the layout.  Components are the bytes before the `/ 255.0`
 * scaling.
 */
module Theme {
  import opened Text

  /** A colour as four bytes: red, green, blue and opacity. */
  datatype Rgba = Rgba(red: int, green: int, blue: int, alpha: int)

  const White := Rgba(255, 255, 255, 255)

  /** `UInt64.max`, where `scanHexInt64` stops on overflow. */
  const UInt64Max: nat := 0xFFFF_FFFF_FFFF_FFFF

  const SpBackground: string := "#F5F7F3"
  const SpPrimary: string := "#3D8B7D"
  const SpSecondary: string := "#2C5F54"

  predicate IsByte(x: int)
  {
    0 <= x < 256
  }

  predicate InRange(c: Rgba)
  {
    IsByte(c.red) && IsByte(c.green) && IsByte(c.blue) && IsByte(c.alpha)
  }

  // ---- hexadecimal digits ----

  predicate IsHexDigit(c: char)
  {
    ('0' <= c <= '9') || ('a' <= c <= 'f') || ('A' <= c <= 'F')
  }

  function HexDigitValue(c: char): (v: nat)
    requires IsHexDigit(c)
    ensures v < 16
  {
    if '0' <= c <= '9' then c as int - '0' as int
    else if 'a' <= c <= 'f' then c as int - 'a' as int + 10
    else c as int - 'A' as int + 10
  }

  predicate AllHex(s: string)
  {
    forall k :: 0 <= k < |s| ==> IsHexDigit(s[k])
  }

  /** The value of a string of hexadecimal digits, most significant first. */
  function HexValue(s: string): nat
    requires AllHex(s)
  {
    if s == [] then 0
    else HexValue(s[..|s| - 1]) * 16 + HexDigitValue(s[|s| - 1])
  }

  function Pow16(n: nat): (p: nat)
    ensures p >= 1
  {
    if n == 0 then 1 else 16 * Pow16(n - 1)
  }

  /** One more digit on the right multiplies by 16 and adds it. */
  lemma HexValueSnoc(u: string, c: char)
    requires AllHex(u) && IsHexDigit(c)
    ensures AllHex(u + [c]) && HexValue(u + [c]) == HexValue(u) * 16 + HexDigitValue(c)
  {
    assert (u + [c])[..|u|] == u;
  }

  lemma ShiftDistributes(x: int, p: int, y: int, d: int)
    ensures (x * p + y) * 16 + d == x * (p * 16) + (y * 16 + d)
  {
  }

  /** Reading digits one after the other: the leading part is shifted by the trailing part's width. */
  lemma {:induction false} HexValueAppend(a: string, b: string)
    requires AllHex(a) && AllHex(b)
    ensures AllHex(a + b)
    ensures HexValue(a + b) == HexValue(a) * Pow16(|b|) + HexValue(b)
    decreases |b|
  {
    if b == [] {
      assert a + b == a;
    } else {
      var b', c := b[..|b| - 1], b[|b| - 1];
      assert b == b' + [c];
      assert a + b == (a + b') + [c];
      HexValueAppend(a, b');
      HexValueSnoc(a + b', c);
      HexValueSnoc(b', c);
      ShiftDistributes(HexValue(a), Pow16(|b'|), HexValue(b'), HexDigitValue(c));
    }
  }

  /** The length of the run of hexadecimal digits at the front of `s`. */
  function HexRunLength(s: string): (n: nat)
    ensures n <= |s| && AllHex(s[..n])
    ensures n == |s| || !IsHexDigit(s[n])
  {
    if s == [] || !IsHexDigit(s[0]) then 0
    else
      var n := 1 + HexRunLength(s[1..]);
      assert s[..n] == [s[0]] + s[1..][..n - 1];
      n
  }

  /** The run is the only prefix of digits that ends at a non-digit or at the end. */
  lemma {:induction false} HexRunUnique(s: string, n: nat)
    requires n <= |s| && AllHex(s[..n])
    requires n == |s| || !IsHexDigit(s[n])
    ensures HexRunLength(s) == n
  {
    if n > 0 {
      assert s[..n][0] == s[0];
      assert s[1..][..n - 1] == s[..n][1..];
      HexRunUnique(s[1..], n - 1);
    }
  }

  /** Where the digits start: after leading whitespace and an optional `0x` or `0X`. */
  function DigitsStart(s: string): string
  {
    var t := TrimStart(s);
    if |t| >= 2 && t[0] == '0' && (t[1] == 'x' || t[1] == 'X') then t[2..] else t
  }

  function Saturate(v: nat): (r: nat)
    ensures r <= UInt64Max
  {
    if v > UInt64Max then UInt64Max else v
  }

  /**
   * What `scanHexInt64` stores: the value of the leading digit run, or
   * `UInt64.max` when it does not fit; 0 when no digit is there (the
   * variable keeps its initial 0).
   */
  function ScannedValue(s: string): (v: nat)
    ensures v <= UInt64Max
    ensures HexRunLength(DigitsStart(s)) == 0 ==> v == 0
  {
    var d := DigitsStart(s);
    Saturate(HexValue(d[..HexRunLength(d)]))
  }

  /** The scanner's skipping of leading whitespace: the index of the first other character. */
  method SkipWhitespace(s: string) returns (i: nat)
    ensures i <= |s| && s[i..] == TrimStart(s)
  {
    i := 0;
    while i < |s| && IsWhitespace(s[i])
      invariant i <= |s|
      invariant TrimStart(s[i..]) == TrimStart(s)
    {
      assert s[i..][1..] == s[i + 1..];
      i := i + 1;
    }
  }

  /** Adding a digit to a saturated value saturates the exact value. */
  lemma SaturateStep(v: nat, d: nat)
    requires d < 16
    ensures Saturate(v * 16 + d) ==
      (if Saturate(v) * 16 + d > UInt64Max then UInt64Max else Saturate(v) * 16 + d)
  {
    if v > UInt64Max {
      assert v * 16 + d > UInt64Max;
    }
  }

  /** The scanner's reading of digits from `i`, saturating at `UInt64.max`. */
  method ScanDigits(s: string, i: nat) returns (value: nat)
    requires i <= |s|
    ensures value == Saturate(HexValue(s[i..][..HexRunLength(s[i..])]))
  {
    value := 0;
    var j := i;
    while j < |s| && IsHexDigit(s[j])
      invariant i <= j <= |s|
      invariant AllHex(s[i..j])
      invariant value == Saturate(HexValue(s[i..j]))
    {
      assert s[i..j + 1] == s[i..j] + [s[j]];
      HexValueSnoc(s[i..j], s[j]);
      SaturateStep(HexValue(s[i..j]), HexDigitValue(s[j]));
      var next := value * 16 + HexDigitValue(s[j]);
      value := if next > UInt64Max then UInt64Max else next;
      j := j + 1;
    }
    assert s[i..][..j - i] == s[i..j];
    HexRunUnique(s[i..], j - i);
  }

  lemma DigitsStartAt(s: string, t: string)
    requires t == TrimStart(s)
    ensures DigitsStart(s) == if |t| >= 2 && t[0] == '0' && (t[1] == 'x' || t[1] == 'X') then t[2..] else t
  {
  }

  /** `Scanner(string: s).scanHexInt64(&int)`: whitespace, an optional `0x`, then digits. */
  method ScanHexInt64(s: string) returns (value: nat)
    ensures value == ScannedValue(s)
  {
    var i := SkipWhitespace(s);
    DigitsStartAt(s, s[i..]);
    if i + 1 < |s| && s[i] == '0' && (s[i + 1] == 'x' || s[i + 1] == 'X') {
      assert s[i + 2..] == s[i..][2..];
      i := i + 2;
    }
    value := ScanDigits(s, i);
  }

  // ---- components ----

  /** `v >> (8 * k)`. */
  function ShiftBytes(v: nat, k: nat): nat
  {
    if k == 0 then v else ShiftBytes(v, k - 1) / 256
  }

  /** `(v >> (8 * k)) & 0xFF`. */
  function ByteAt(v: nat, k: nat): (b: nat)
    ensures IsByte(b)
  {
    ShiftBytes(v, k) % 256
  }

  /** The `switch hexColor.count`: six characters are RRGGBB, eight RRGGBBAA, any other count white. */
  function Components(count: nat, v: nat): (c: Rgba)
    ensures InRange(c)
  {
    if count == 6 then Rgba(ByteAt(v, 2), ByteAt(v, 1), ByteAt(v, 0), 255)
    else if count == 8 then Rgba(ByteAt(v, 3), ByteAt(v, 2), ByteAt(v, 1), ByteAt(v, 0))
    else White
  }

  /** The text after trimming and dropping at most one leading `#`. */
  function Stripped(hex: string): (r: string)
    ensures var t := Trim(hex);
      && |t| - 1 <= |r| <= |t| && r == t[|t| - |r|..]
      && (|r| < |t| ==> t[0] == '#')
  {
    var t := Trim(hex);
    if |t| > 0 && t[0] == '#' then t[1..] else t
  }

  /** `Color(hex:)` as bytes. */
  function HexColor(hex: string): (c: Rgba)
    ensures InRange(c)
    ensures |Stripped(hex)| != 6 && |Stripped(hex)| != 8 ==> c == White
  {
    var h := Stripped(hex);
    Components(|h|, ScannedValue(h))
  }

  /** `Color.init(hex:)`: trim, drop one `#`, scan, then pick the layout by length. */
  method ParseHexColor(hex: string) returns (c: Rgba)
    ensures c == HexColor(hex)
  {
    var hexColor := Trim(hex);
    if |hexColor| > 0 && hexColor[0] == '#' {
      hexColor := hexColor[1..];
    }
    var scanned := ScanHexInt64(hexColor);
    if |hexColor| == 6 {
      c := Rgba(ShiftBytes(scanned, 2) % 256, ShiftBytes(scanned, 1) % 256, scanned % 256, 255);
    } else if |hexColor| == 8 {
      c := Rgba(ShiftBytes(scanned, 3) % 256, ShiftBytes(scanned, 2) % 256, ShiftBytes(scanned, 1) % 256, scanned % 256);
    } else {
      c := White;
    }
  }

  // ---- writing bytes as hex, and reading them back ----

  function HexChar(d: nat): (c: char)
    requires d < 16
    ensures IsHexDigit(c) && HexDigitValue(c) == d
  {
    if d < 10 then ('0' as int + d) as char else ('A' as int + d - 10) as char
  }

  /** A byte as two upper-case hex digits. */
  function Hex2(x: nat): (s: string)
    requires x < 256
    ensures |s| == 2 && AllHex(s) && HexValue(s) == x
  {
    var s := [HexChar(x / 16), HexChar(x % 16)];
    assert s[..1] == [HexChar(x / 16)] && s[..1][..0] == [];
    assert HexValue(s[..1]) == x / 16;
    s
  }

  lemma DivModUnique(x: int, q: int, r: int)
    requires 0 <= r < 256 && x == q * 256 + r
    ensures x / 256 == q && x % 256 == r
  {
  }

  lemma {:induction false} BytesOfThree(v: nat, r: nat, g: nat, b: nat)
    requires IsByte(r) && IsByte(g) && IsByte(b) && v == (r * 256 + g) * 256 + b
    ensures ByteAt(v, 2) == r && ByteAt(v, 1) == g && ByteAt(v, 0) == b
  {
    DivModUnique(v, r * 256 + g, b);
    DivModUnique(r * 256 + g, r, g);
    DivModUnique(r, 0, r);
    assert ShiftBytes(v, 1) == r * 256 + g;
    assert ShiftBytes(v, 2) == r;
  }

  lemma {:induction false} BytesOfFour(v: nat, r: nat, g: nat, b: nat, a: nat)
    requires IsByte(r) && IsByte(g) && IsByte(b) && IsByte(a)
    requires v == ((r * 256 + g) * 256 + b) * 256 + a
    ensures ByteAt(v, 3) == r && ByteAt(v, 2) == g && ByteAt(v, 1) == b && ByteAt(v, 0) == a
  {
    var w := (r * 256 + g) * 256 + b;
    DivModUnique(v, w, a);
    BytesOfThree(w, r, g, b);
    assert ShiftBytes(v, 1) == w;
    assert ShiftBytes(v, 2) == ShiftBytes(w, 1);
    assert ShiftBytes(v, 3) == ShiftBytes(w, 2);
  }

  /** Two digits appended read as one more byte. */
  lemma HexPair(s: string, t: string)
    requires AllHex(s) && AllHex(t) && |t| == 2
    ensures AllHex(s + t) && HexValue(s + t) == HexValue(s) * 256 + HexValue(t)
  {
    HexValueAppend(s, t);
    assert Pow16(2) == 256;
  }

  /** A string that starts and ends with non-whitespace is left as it is by trimming. */
  lemma TrimNothing(s: string)
    requires s != [] && !IsWhitespace(s[0]) && !IsWhitespace(s[|s| - 1])
    ensures Trim(s) == s && TrimStart(s) == s
  {
  }

  /** Leading whitespace does not change the colour. */
  lemma LeadingWhitespaceIgnored(c: char, hex: string)
    requires IsWhitespace(c)
    ensures HexColor([c] + hex) == HexColor(hex)
  {
    TrimSkipsWhitespace(c, hex);
    assert Stripped([c] + hex) == Stripped(hex);
  }

  /** `#` followed by digits: the digits are what is scanned and counted. */
  lemma StrippedOfHash(h: string)
    requires h != [] && AllHex(h)
    ensures Stripped("#" + h) == h
  {
    TrimNothing("#" + h);
    assert ("#" + h)[1..] == h;
  }

  /** Digits read from the front: the scanner reads all of them. */
  lemma {:induction false} ScanAllDigits(h: string)
    requires h != [] && AllHex(h)
    ensures ScannedValue(h) == Saturate(HexValue(h))
  {
    TrimNothing(h);
    DigitsStartAt(h, h);
    assert h[..|h|] == h;
    HexRunUnique(h, |h|);
  }

  /** `#` and digits: the digits' count picks the layout and their value is split. */
  lemma HexColorOfDigits(h: string)
    requires h != [] && AllHex(h)
    ensures HexColor("#" + h) == Components(|h|, Saturate(HexValue(h)))
  {
    StrippedOfHash(h);
    ScanAllDigits(h);
  }

  /** Three bytes written as six digits read back as one number. */
  lemma {:induction false} SixDigits(r: nat, g: nat, b: nat)
    requires IsByte(r) && IsByte(g) && IsByte(b)
    ensures var h := Hex2(r) + Hex2(g) + Hex2(b);
      |h| == 6 && AllHex(h) && HexValue(h) == (r * 256 + g) * 256 + b
  {
    HexPair(Hex2(r), Hex2(g));
    HexPair(Hex2(r) + Hex2(g), Hex2(b));
  }

  lemma LayoutOfSix(v: nat, r: nat, g: nat, b: nat)
    requires ByteAt(v, 2) == r && ByteAt(v, 1) == g && ByteAt(v, 0) == b
    ensures Components(6, v) == Rgba(r, g, b, 255)
  {
  }

  lemma LayoutOfEight(v: nat, r: nat, g: nat, b: nat, a: nat)
    requires ByteAt(v, 3) == r && ByteAt(v, 2) == g && ByteAt(v, 1) == b && ByteAt(v, 0) == a
    ensures Components(8, v) == Rgba(r, g, b, a)
  {
  }

  /** `#RRGGBB`, as the palette writes it, gives those three bytes and full opacity. */
  lemma {:induction false} RgbRoundTrip(r: nat, g: nat, b: nat)
    requires IsByte(r) && IsByte(g) && IsByte(b)
    ensures HexColor("#" + Hex2(r) + Hex2(g) + Hex2(b)) == Rgba(r, g, b, 255)
  {
    var h := Hex2(r) + Hex2(g) + Hex2(b);
    var v := (r * 256 + g) * 256 + b;
    assert "#" + Hex2(r) + Hex2(g) + Hex2(b) == "#" + h;
    SixDigits(r, g, b);
    assert HexValue(h) == v && Saturate(v) == v;
    HexColorOfDigits(h);
    assert HexColor("#" + h) == Components(6, v);
    BytesOfThree(v, r, g, b);
    LayoutOfSix(v, r, g, b);
  }

  /** `#RRGGBBAA` gives those four bytes. */
  lemma {:induction false} RgbaRoundTrip(r: nat, g: nat, b: nat, a: nat)
    requires IsByte(r) && IsByte(g) && IsByte(b) && IsByte(a)
    ensures HexColor("#" + Hex2(r) + Hex2(g) + Hex2(b) + Hex2(a)) == Rgba(r, g, b, a)
  {
    var h6 := Hex2(r) + Hex2(g) + Hex2(b);
    var h := h6 + Hex2(a);
    assert "#" + Hex2(r) + Hex2(g) + Hex2(b) + Hex2(a) == "#" + h;
    SixDigits(r, g, b);
    HexPair(h6, Hex2(a));
    var v := ((r * 256 + g) * 256 + b) * 256 + a;
    assert HexValue(h) == v && Saturate(v) == v;
    HexColorOfDigits(h);
    BytesOfFour(v, r, g, b, a);
    LayoutOfEight(v, r, g, b, a);
  }

  /** `spBackground`. */
  lemma BackgroundColour()
    ensures HexColor(SpBackground) == Rgba(245, 247, 243, 255)
  {
    assert SpBackground == "#" + Hex2(245) + Hex2(247) + Hex2(243);
    RgbRoundTrip(245, 247, 243);
  }

  /** `spPrimary`. */
  lemma PrimaryColour()
    ensures HexColor(SpPrimary) == Rgba(61, 139, 125, 255)
  {
    assert SpPrimary == "#" + Hex2(61) + Hex2(139) + Hex2(125);
    RgbRoundTrip(61, 139, 125);
  }

  /** `spSecondary`. */
  lemma SecondaryColour()
    ensures HexColor(SpSecondary) == Rgba(44, 95, 84, 255)
  {
    assert SpSecondary == "#" + Hex2(44) + Hex2(95) + Hex2(84);
    RgbRoundTrip(44, 95, 84);
  }

  /** Only one `#` is dropped: a second one leaves seven characters, hence white. */
  lemma DoubleHashIsWhite(h: string)
    requires |h| == 6 && AllHex(h)
    ensures HexColor("##" + h) == White
  {
    var s := "##" + h;
    TrimNothing(s);
    assert Trim(s) == s && s[0] == '#';
    assert Stripped(s) == s[1..];
  }

  /**
   * The layout follows the character count, not the digits read: in
   * `#12345G` the scanner stops at `G` with 0x12345, and the six-character
   * branch still splits that value as RRGGBB.
   */
  lemma CountPicksLayout()
    ensures HexColor("#12345G") == Rgba(0x01, 0x23, 0x45, 255)
  {
    var h := "12345G";
    var s := "#" + h;
    assert "#12345G" == s;
    TrimNothing(s);
    assert s[1..] == h;
    assert Stripped(s) == h;
    ScanStopsAtG();
    var v := (0x01 * 256 + 0x23) * 256 + 0x45;
    assert HexColor(s) == Components(|h|, ScannedValue(h));
    assert HexColor(s) == Components(6, v);
    BytesOfThree(v, 0x01, 0x23, 0x45);
    LayoutOfSix(v, 0x01, 0x23, 0x45);
  }

  /** The scanner reads `12345` from `12345G` and stops at the `G`. */
  lemma ScanStopsAtG()
    ensures ScannedValue("12345G") == (0x01 * 256 + 0x23) * 256 + 0x45
  {
    var h := "12345G";
    TrimNothing(h);
    DigitsStartAt(h, h);
    var one := [HexChar(1)];
    assert one[..0] == [];
    var digits := one + Hex2(0x23) + Hex2(0x45);
    assert h[..5] == digits;
    HexRunUnique(h, 5);
    HexPair(one, Hex2(0x23));
    HexPair(one + Hex2(0x23), Hex2(0x45));
  }
}
