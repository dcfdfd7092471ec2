/** The audience page's colour decoder: `#rrggbb` to the text "r,g,b". */
module HexColor {
  import opened Messages
  import Decimal

  /** `s.replace('#', '')` with a string pattern: only the first '#' goes. */
  function StripHash(s: string): (r: string)
    ensures '#' in s ==> |r| == |s| - 1
    ensures '#' !in s ==> r == s
  {
    if s == [] then []
    else if s[0] == '#' then s[1..]
    else [s[0]] + StripHash(s[1..])
  }

  predicate IsHexDigit(c: char)
  {
    '0' <= c <= '9' || 'a' <= c <= 'f' || 'A' <= c <= 'F'
  }

  predicate AllHex(s: string)
  {
    forall i :: 0 <= i < |s| ==> IsHexDigit(s[i])
  }

  function HexDigitValue(c: char): (v: nat)
    requires IsHexDigit(c)
    ensures v < 16
  {
    if '0' <= c <= '9' then c as int - '0' as int
    else if 'a' <= c <= 'f' then c as int - 'a' as int + 10
    else c as int - 'A' as int + 10
  }

  function Pow16(k: nat): (p: nat)
    ensures p >= 1
  {
    if k == 0 then 1 else 16 * Pow16(k - 1)
  }

  /** `parseInt(s, 16)` for a string of hex digits; the empty string gives
      NaN, which the bitwise operators that follow turn into 0. */
  function HexValue(s: string): (v: nat)
    requires AllHex(s)
    ensures v < Pow16(|s|)
  {
    if s == [] then 0 else HexValue(s[..|s| - 1]) * 16 + HexDigitValue(s[|s| - 1])
  }

  /** The inputs this model covers: at most six hex digits once the first
      '#' is removed. */
  predicate InDomain(hex: string)
  {
    var s := StripHash(hex);
    |s| <= 6 && AllHex(s)
  }

  datatype Rgb = Rgb(r: nat, g: nat, b: nat)

  /** `(v >> 16) & 255`, `(v >> 8) & 255` and `v & 255`. For 0 <= v < 2^31 the
      Int32 conversion is the identity, `>> k` is floor division by 2^k and
      `& 255` keeps the remainder modulo 256. */
  function Channels(v: nat): (c: Rgb)
    requires v < 0x100_0000
    ensures c.r < 256 && c.g < 256 && c.b < 256
    ensures v == c.r * 65536 + c.g * 256 + c.b
  {
    Rgb((v / 65536) % 256, (v / 256) % 256, v % 256)
  }

  /** The template literal `${r},${g},${b}`: three decimal numerals joined
      by single commas, which reads back as the channels it was made from. */
  function RgbText(c: Rgb): (t: string)
    ensures ParseRgb(t) == Some(c)
  {
    var x, y, z := Decimal.FromNat(c.r), Decimal.FromNat(c.g), Decimal.FromNat(c.b);
    Decimal.ValueOfFromNat(c.r);
    Decimal.ValueOfFromNat(c.g);
    Decimal.ValueOfFromNat(c.b);
    ParseJoined(x, y, z);
    x + "," + y + "," + z
  }

  lemma Pow16Six(k: nat)
    requires k <= 6
    ensures Pow16(k) <= 0x100_0000
    decreases 6 - k
  {
    if k < 6 {
      Pow16Six(k + 1);
    } else {
      assert Pow16(2) == 256;
      assert Pow16(4) == 256 * 256;
    }
  }

  /** hexToRgb: the text reads back as three numbers from 0 to 255, the
      bytes of the hex value. */
  function HexToRgb(hex: string): (t: string)
    requires InDomain(hex)
    ensures ParseRgb(t).Some?
    ensures var c := ParseRgb(t).value;
            c.r < 256 && c.g < 256 && c.b < 256 && c.r * 65536 + c.g * 256 + c.b == HexValue(StripHash(hex))
  {
    var s := StripHash(hex);
    Pow16Six(|s|);
    RgbText(Channels(HexValue(s)))
  }

  // ---------------------------------------------------------------------
  // Properties

  /** The value of a concatenation of hex strings. */
  lemma {:induction false} HexValueAppend(a: string, b: string)
    requires AllHex(a) && AllHex(b)
    ensures AllHex(a + b) && HexValue(a + b) == HexValue(a) * Pow16(|b|) + HexValue(b)
    decreases |b|
  {
    if b == [] {
      assert a + b == a;
    } else {
      var b' := b[..|b| - 1];
      var x := HexDigitValue(b[|b| - 1]);
      assert (a + b)[..|a + b| - 1] == a + b';
      assert (a + b)[|a + b| - 1] == b[|b| - 1];
      HexValueAppend(a, b');
      assert HexValue(a + b) == HexValue(a + b') * 16 + x;
      assert HexValue(b) == HexValue(b') * 16 + x;
      assert Pow16(|b|) == 16 * Pow16(|b'|);
      ShiftDigit(HexValue(a), Pow16(|b'|), HexValue(b'), x);
    }
  }

  lemma ShiftDigit(a: int, p: int, b: int, x: int)
    ensures (a * p + b) * 16 + x == a * (16 * p) + (b * 16 + x)
  {
  }

  /** The channels of a 24-bit value are its three bytes. */
  lemma ChannelsUnique(v: nat, r: nat, g: nat, b: nat)
    requires r < 256 && g < 256 && b < 256 && v == r * 65536 + g * 256 + b
    ensures Channels(v) == Rgb(r, g, b)
  {
    assert v / 256 == r * 256 + g;
    assert v / 65536 == r;
  }

  /** For `#rrggbb`, each component is the value of its two-digit byte. */
  lemma {:induction false} HexToRgbBytes(d: string)
    requires |d| == 6 && AllHex(d)
    ensures InDomain("#" + d) && InDomain(d)
    ensures HexToRgb("#" + d) == HexToRgb(d)
    ensures HexToRgb(d) == RgbText(Rgb(HexValue(d[..2]), HexValue(d[2..4]), HexValue(d[4..])))
  {
    assert StripHash("#" + d) == d;
    assert '#' !in d;
    HexValueBytes(d);
    ChannelsUnique(HexValue(d), HexValue(d[..2]), HexValue(d[2..4]), HexValue(d[4..]));
  }

  lemma HexValueBytes(d: string)
    requires |d| == 6 && AllHex(d)
    ensures HexValue(d) == HexValue(d[..2]) * 65536 + HexValue(d[2..4]) * 256 + HexValue(d[4..])
  {
    var r, g, b := d[..2], d[2..4], d[4..];
    assert d[..4] == r + g && d == d[..4] + b;
    HexValueAppend(r, g);
    HexValueAppend(d[..4], b);
    assert Pow16(2) == 256;
    var rg := HexValue(d[..4]);
    assert rg == HexValue(r) * 256 + HexValue(g);
    assert HexValue(d) == rg * 256 + HexValue(b);
    Bytes(HexValue(r), HexValue(g), HexValue(b));
  }

  lemma Bytes(r: int, g: int, b: int)
    ensures (r * 256 + g) * 256 + b == r * 65536 + g * 256 + b
  {
  }

  /** Only the first '#' is removed, wherever it stands. */
  lemma StripHashFirstOnly(a: string, b: string)
    requires '#' !in a
    ensures StripHash(a + "#" + b) == a + b
    decreases |a|
  {
    if a != [] {
      assert (a + "#" + b)[1..] == a[1..] + "#" + b;
      StripHashFirstOnly(a[1..], b);
    }
  }

  // ---------------------------------------------------------------------
  // Reading "r,g,b" back

  function IndexOfComma(s: string): (i: nat)
    requires ',' in s
    ensures i < |s| && s[i] == ',' && ',' !in s[..i]
  {
    if s[0] == ',' then 0 else IndexOfComma(s[1..]) + 1
  }

  predicate IsNumeral(s: string)
  {
    |s| >= 1 && Decimal.AllDigits(s)
  }

  /** Three decimal numerals separated by single commas, nothing else. */
  function ParseRgb(s: string): Option<Rgb>
  {
    if ',' !in s then None
    else
      var i := IndexOfComma(s);
      var rest := s[i + 1..];
      if ',' !in rest then None
      else
        var j := IndexOfComma(rest);
        var a, b, c := s[..i], rest[..j], rest[j + 1..];
        if IsNumeral(a) && IsNumeral(b) && IsNumeral(c)
        then Some(Rgb(Decimal.Value(a), Decimal.Value(b), Decimal.Value(c)))
        else None
  }

  lemma {:induction false} IndexOfCommaAfter(a: string, b: string)
    requires ',' !in a
    ensures ',' in a + "," + b && IndexOfComma(a + "," + b) == |a|
    decreases |a|
  {
    var s := a + "," + b;
    assert s[|a|] == ',';
    if a != [] {
      assert s[1..] == a[1..] + "," + b;
      IndexOfCommaAfter(a[1..], b);
    }
  }

  /** The text is exactly three numerals joined by commas: it reads back as
      the channels it was made from. */
  lemma ParseJoined(x: string, y: string, z: string)
    requires IsNumeral(x) && IsNumeral(y) && IsNumeral(z)
    ensures ParseRgb(x + "," + y + "," + z) == Some(Rgb(Decimal.Value(x), Decimal.Value(y), Decimal.Value(z)))
  {
    assert ',' !in x && ',' !in y && ',' !in z;
    var s := x + "," + y + "," + z;
    var rest := y + "," + z;
    assert s == x + "," + rest;
    IndexOfCommaAfter(x, rest);
    assert s[|x| + 1..] == rest && s[..|x|] == x;
    IndexOfCommaAfter(y, z);
    assert rest[..|y|] == y && rest[|y| + 1..] == z;
  }
}
