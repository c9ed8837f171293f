/**
 * `Color` of utils.js: an immutable RGBA value, its copy-setters, and
 * `fromHex`, which reads a CSS hex colour through `Number.parseInt(hex, 16)`
 * and 32-bit signed shifts.
 */
module Colors {
  import opened Utils

  datatype Result<T> = Ok(value: T) | Err(error: string)

  /** Red, green and blue channels (0 to 255 when well formed) and an alpha. */
  datatype Color = Color(r: int, g: int, b: int, a: real)

  /** `new Color()` with every argument left to its default. */
  const Black := Color(0, 0, 0, 1.0)

  /** `c.red(x)`: a copy of `c` with the red channel replaced. */
  function Red(c: Color, x: int): (d: Color)
    ensures d.r == x && d.g == c.g && d.b == c.b && d.a == c.a
  {
    c.(r := x)
  }

  /** `c.green(x)`: a copy of `c` with the green channel replaced. */
  function Green(c: Color, x: int): (d: Color)
    ensures d.g == x && d.r == c.r && d.b == c.b && d.a == c.a
  {
    c.(g := x)
  }

  /** `c.blue(x)`: a copy of `c` with the blue channel replaced. */
  function Blue(c: Color, x: int): (d: Color)
    ensures d.b == x && d.r == c.r && d.g == c.g && d.a == c.a
  {
    c.(b := x)
  }

  /** `c.alpha(x)`: a copy of `c` with the alpha replaced. */
  function Alpha(c: Color, x: real): (d: Color)
    ensures d.a == x && d.r == c.r && d.g == c.g && d.b == c.b
  {
    c.(a := x)
  }

  /** Setting a channel to the value it already has gives back the same colour. */
  lemma SettersKeepUnchanged(c: Color)
    ensures Red(c, c.r) == c && Green(c, c.g) == c
    ensures Blue(c, c.b) == c && Alpha(c, c.a) == c
  {
  }

  /** The characters `parseInt` skips before a number (white space and line terminators). */
  predicate IsSpace(ch: char)
  {
    ch == ' ' || ch == '\t' || ch == '\n' || ch == '\r'
    || ch == '\U{000B}' || ch == '\U{000C}' || ch == '\U{00A0}' || ch == '\U{1680}'
    || ('\U{2000}' <= ch <= '\U{200A}') || ch == '\U{2028}' || ch == '\U{2029}'
    || ch == '\U{202F}' || ch == '\U{205F}' || ch == '\U{3000}' || ch == '\U{FEFF}'
  }

  predicate IsHexDigit(ch: char)
  {
    ('0' <= ch <= '9') || ('a' <= ch <= 'f') || ('A' <= ch <= 'F')
  }

  function DigitValue(ch: char): (v: nat)
    requires IsHexDigit(ch)
    ensures v < 16
  {
    if '0' <= ch <= '9' then ch as int - '0' as int
    else if 'a' <= ch <= 'f' then ch as int - 'a' as int + 10
    else ch as int - 'A' as int + 10
  }

  /** The lower-case digit for a nibble. */
  function HexChar(d: nat): (ch: char)
    requires d < 16
    ensures IsHexDigit(ch) && DigitValue(ch) == d
  {
    if d < 10 then ('0' as int + d) as char else ('a' as int + d - 10) as char
  }

  /** `s` with its leading white space removed. */
  function SkipSpace(s: string): string
  {
    if |s| > 0 && IsSpace(s[0]) then SkipSpace(s[1..]) else s
  }

  /** What `SkipSpace` drops is white space, and what it keeps starts with none. */
  lemma {:induction false} SkipSpaceSpec(s: string)
    ensures var t := SkipSpace(s);
      |t| <= |s| && t == s[|s| - |t|..]
      && (|t| > 0 ==> !IsSpace(t[0]))
      && (forall i :: 0 <= i < |s| - |t| ==> IsSpace(s[i]))
  {
    if |s| > 0 && IsSpace(s[0]) {
      SkipSpaceSpec(s[1..]);
    }
  }

  /** The longest prefix of `s` made of hex digits. */
  function HexRun(s: string): string
  {
    if |s| > 0 && IsHexDigit(s[0]) then [s[0]] + HexRun(s[1..]) else []
  }

  /** `HexRun` is a prefix of hex digits that cannot be extended. */
  lemma {:induction false} HexRunSpec(s: string)
    ensures var ds := HexRun(s);
      |ds| <= |s| && ds == s[..|ds|] && AllHex(ds)
      && (|ds| < |s| ==> !IsHexDigit(s[|ds|]))
  {
    if |s| > 0 && IsHexDigit(s[0]) {
      HexRunSpec(s[1..]);
    }
  }

  /** The value of a string of hex digits, most significant first. */
  function HexValue(ds: string): (v: nat)
    requires AllHex(ds)
  {
    if ds == [] then 0
    else HexValue(ds[..|ds| - 1]) * 16 + DigitValue(ds[|ds| - 1])
  }

  /**
   * `Number.parseInt(s, 16)`: skips leading white space, reads an optional
   * sign and an optional `0x`/`0X` prefix, then the longest run of hex
   * digits. `None` stands for NaN, returned when that run is empty.
   */
  function ParseInt16(s: string): (r: Option<int>)
    ensures |s| == 0 ==> r.None?
    ensures |s| > 0 && !IsSpace(s[0]) && !IsHexDigit(s[0]) && s[0] != '-' && s[0] != '+' ==> r.None?
  {
    var t := SkipSpace(s);
    var negative := |t| > 0 && t[0] == '-';
    var u := if |t| > 0 && (t[0] == '-' || t[0] == '+') then t[1..] else t;
    var v := if |u| >= 2 && u[0] == '0' && (u[1] == 'x' || u[1] == 'X') then u[2..] else u;
    var ds := HexRun(v);
    HexRunSpec(v);
    var value: int := HexValue(ds);
    if ds == [] then None
    else if negative then Some(-value)
    else Some(value)
  }

  /** ECMAScript ToInt32 of an integral number: wrap into [-2^31, 2^31). */
  function ToInt32(x: int): (y: int)
    ensures -0x8000_0000 <= y < 0x8000_0000
    ensures (x - y) % 0x1_0000_0000 == 0
  {
    var m := x % 0x1_0000_0000;
    if m >= 0x8000_0000 then m - 0x1_0000_0000 else m
  }

  /** ECMAScript ToUint32 of an integral number: wrap into [0, 2^32). */
  function ToUint32(x: int): (y: int)
    ensures 0 <= y < 0x1_0000_0000
    ensures (x - y) % 0x1_0000_0000 == 0
  {
    x % 0x1_0000_0000
  }

  /** `hex` with one leading `#` removed. */
  function StripHash(hex: string): (s: string)
    ensures |hex| > 0 && hex[0] == '#' ==> s == hex[1..]
    ensures !(|hex| > 0 && hex[0] == '#') ==> s == hex
  {
    if |hex| > 0 && hex[0] == '#' then hex[1..] else hex
  }

  const UnrecognisedHex := "Unrecognised hex color"

  /**
   * The channels `fromHex` takes from the parsed number `n` for each digit
   * count, before the 8-digit case's red channel: `>>` is floor division of
   * the 32-bit signed value, `& m` with a mask `m = 2^k - 1` its Euclidean
   * remainder.
   */
  function Channels(digits: nat, n: int): Color
  {
    var w := ToInt32(n);
    if digits == 3 then
      Color((w / 0x100) * 17, ((w / 0x10) % 0x10) * 17, (w % 0x10) * 17, 1.0)
    else if digits == 6 then
      Color(w / 0x1_0000, (w / 0x100) % 0x100, w % 0x100, 1.0)
    else
      Color(w / 0x100_0000, (w / 0x1_0000) % 0x100, (w / 0x100) % 0x100,
            (w % 0x100) as real / 255.0)
  }

  /** The number the bitwise operators see: NaN converts to 0. */
  function Bits(n: Option<int>): int
  {
    if n.Some? then n.value else 0
  }

  /**
   * `Color.fromHex(hex)` as written: one leading `#` is dropped, the rest is
   * parsed as hexadecimal and split by its length; the 8-digit case takes
   * red from the signed shift `n >> 24`.
   */
  function FromHex(hex: string): (r: Result<Color>)
    ensures r.Err? <==> |StripHash(hex)| !in {3, 6, 8}
    ensures r.Err? ==> r.error == UnrecognisedHex
  {
    var s := StripHash(hex);
    if |s| in {3, 6, 8} then Ok(Channels(|s|, Bits(ParseInt16(s))))
    else Err(UnrecognisedHex)
  }

  /**
   * `Color.fromHex` with the 8-digit red channel taken by the unsigned
   * shift `n >>> 24`, as the other channels' byte ranges suggest.
   */
  function FromHexUnsigned(hex: string): (r: Result<Color>)
    ensures r.Err? <==> |StripHash(hex)| !in {3, 6, 8}
    ensures r.Err? ==> r.error == UnrecognisedHex
  {
    var s := StripHash(hex);
    if |s| == 8 then
      var n := Bits(ParseInt16(s));
      Ok(Channels(8, n).(r := ToUint32(n) / 0x100_0000))
    else
      FromHex(hex)
  }

  // ---------------------------------------------------------------------
  // Encoding and the round trips.

  /** The two lower-case hex digits of a byte. */
  function Hex2(x: nat): (s: string)
    requires x < 256
    ensures |s| == 2
  {
    [HexChar(x / 16), HexChar(x % 16)]
  }

  /** `#rgb`: one digit per nibble. */
  function Css3(x: nat, y: nat, z: nat): string
    requires x < 16 && y < 16 && z < 16
  {
    "#" + [HexChar(x), HexChar(y), HexChar(z)]
  }

  /** `#rrggbb`: two digits per byte. */
  function Css6(r: nat, g: nat, b: nat): string
    requires r < 256 && g < 256 && b < 256
  {
    "#" + (Hex2(r) + Hex2(g) + Hex2(b))
  }

  /** `#rrggbbaa`: two digits per byte, alpha last. */
  function Css8(r: nat, g: nat, b: nat, a: nat): string
    requires r < 256 && g < 256 && b < 256 && a < 256
  {
    "#" + (Hex2(r) + Hex2(g) + Hex2(b) + Hex2(a))
  }

  predicate AllHex(s: string)
  {
    forall i :: 0 <= i < |s| ==> IsHexDigit(s[i])
  }

  lemma {:induction false} HexRunAll(s: string)
    requires AllHex(s)
    ensures HexRun(s) == s
  {
    if |s| > 0 {
      HexRunAll(s[1..]);
    }
  }

  /** A string of hex digits parses to its value. */
  lemma {:induction false} ParseAllHex(s: string)
    requires |s| > 0 && AllHex(s)
    ensures ParseInt16(s) == Some(HexValue(s))
  {
    assert IsHexDigit(s[0]);
    assert SkipSpace(s) == s;
    assert s[0] != '-' && s[0] != '+';
    if |s| >= 2 {
      assert IsHexDigit(s[1]);
    }
    HexRunAll(s);
  }

  lemma HexValueSnoc(ds: string, ch: char)
    requires AllHex(ds) && IsHexDigit(ch)
    ensures AllHex(ds + [ch])
    ensures HexValue(ds + [ch]) == HexValue(ds) * 16 + DigitValue(ch)
  {
    assert (ds + [ch])[..|ds|] == ds;
  }

  /** Appending the two digits of a byte shifts the value by eight bits. */
  lemma HexValueByte(ds: string, x: nat)
    requires AllHex(ds) && x < 256
    ensures AllHex(ds + Hex2(x))
    ensures HexValue(ds + Hex2(x)) == HexValue(ds) * 256 + x
  {
    var hi, lo := HexChar(x / 16), HexChar(x % 16);
    HexValueSnoc(ds, hi);
    HexValueSnoc(ds + [hi], lo);
    assert ds + Hex2(x) == ds + [hi] + [lo];
  }

  lemma Split16(q: int, x: int)
    requires 0 <= x < 0x10
    ensures (q * 0x10 + x) / 0x10 == q && (q * 0x10 + x) % 0x10 == x
  {
  }

  lemma Split256(q: int, x: int)
    requires 0 <= x < 0x100
    ensures (q * 0x100 + x) / 0x100 == q && (q * 0x100 + x) % 0x100 == x
  {
  }

  lemma Split65536(q: int, x: int)
    requires 0 <= x < 0x1_0000
    ensures (q * 0x1_0000 + x) / 0x1_0000 == q
  {
  }

  lemma Split2p24(q: int, x: int)
    requires 0 <= x < 0x100_0000
    ensures (q * 0x100_0000 + x) / 0x100_0000 == q
  {
  }

  /** The digit strings of the three supported lengths and their values. */
  lemma Parse3(x: nat, y: nat, z: nat)
    requires x < 16 && y < 16 && z < 16
    ensures ParseInt16([HexChar(x), HexChar(y), HexChar(z)]) == Some((x * 16 + y) * 16 + z)
  {
    var cx, cy, cz := HexChar(x), HexChar(y), HexChar(z);
    var s := [cx, cy, cz];
    assert AllHex([]);
    HexValueSnoc([], cx);
    assert [] + [cx] == [cx];
    assert HexValue([cx]) == x;
    HexValueSnoc([cx], cy);
    assert [cx] + [cy] == [cx, cy];
    assert HexValue([cx, cy]) == x * 16 + y;
    HexValueSnoc([cx, cy], cz);
    assert [cx, cy] + [cz] == s;
    assert HexValue(s) == (x * 16 + y) * 16 + z;
    ParseAllHex(s);
  }

  lemma Parse6(r: nat, g: nat, b: nat)
    requires r < 256 && g < 256 && b < 256
    ensures ParseInt16(Hex2(r) + Hex2(g) + Hex2(b)) == Some((r * 256 + g) * 256 + b)
  {
    var hr, hg, hb := Hex2(r), Hex2(g), Hex2(b);
    assert AllHex([]);
    HexValueByte([], r);
    assert [] + hr == hr;
    assert HexValue(hr) == r;
    HexValueByte(hr, g);
    assert HexValue(hr + hg) == r * 256 + g;
    HexValueByte(hr + hg, b);
    assert HexValue(hr + hg + hb) == (r * 256 + g) * 256 + b;
    ParseAllHex(hr + hg + hb);
  }

  lemma Parse8(r: nat, g: nat, b: nat, a: nat)
    requires r < 256 && g < 256 && b < 256 && a < 256
    ensures ParseInt16(Hex2(r) + Hex2(g) + Hex2(b) + Hex2(a))
         == Some(((r * 256 + g) * 256 + b) * 256 + a)
  {
    var hr, hg, hb, ha := Hex2(r), Hex2(g), Hex2(b), Hex2(a);
    assert AllHex([]);
    HexValueByte([], r);
    assert [] + hr == hr;
    assert HexValue(hr) == r;
    HexValueByte(hr, g);
    assert HexValue(hr + hg) == r * 256 + g;
    HexValueByte(hr + hg, b);
    assert HexValue(hr + hg + hb) == (r * 256 + g) * 256 + b;
    HexValueByte(hr + hg + hb, a);
    assert HexValue(hr + hg + hb + ha) == ((r * 256 + g) * 256 + b) * 256 + a;
    ParseAllHex(hr + hg + hb + ha);
  }

  /** The channels of three nibbles, each scaled by 17. */
  lemma Word3(x: nat, y: nat, z: nat)
    requires x < 16 && y < 16 && z < 16
    ensures Channels(3, (x * 16 + y) * 16 + z) == Color(x * 17, y * 17, z * 17, 1.0)
  {
    var n := (x * 16 + y) * 16 + z;
    assert ToInt32(n) == n;
    assert n == x * 0x100 + (y * 16 + z);
    Split256(x, y * 16 + z);
    Split16(x * 16 + y, z);
    Split16(x, y);
  }

  /** The channels of three bytes. */
  lemma Word6(r: nat, g: nat, b: nat)
    requires r < 256 && g < 256 && b < 256
    ensures Channels(6, (r * 256 + g) * 256 + b) == Color(r, g, b, 1.0)
  {
    var n := (r * 256 + g) * 256 + b;
    assert ToInt32(n) == n;
    assert n == r * 0x1_0000 + (g * 256 + b);
    Split65536(r, g * 256 + b);
    Split256(r * 256 + g, b);
    Split256(r, g);
  }

  /**
   * The channels of a 32-bit word of four bytes: red is the top byte read
   * as a signed number, so it is negative from 0x80 on.
   */
  lemma Word8(r: nat, g: nat, b: nat, a: nat)
    requires r < 256 && g < 256 && b < 256 && a < 256
    ensures var q := if r >= 128 then r - 256 else r;
      Channels(8, ((r * 256 + g) * 256 + b) * 256 + a) == Color(q, g, b, a as real / 255.0)
  {
    var n := ((r * 256 + g) * 256 + b) * 256 + a;
    var q := if r >= 128 then r - 256 else r;
    var m := ((q * 256 + g) * 256 + b) * 256 + a;
    assert ToInt32(n) == m;
    assert m == q * 0x100_0000 + ((g * 256 + b) * 256 + a);
    Split2p24(q, (g * 256 + b) * 256 + a);
    assert m / 0x100_0000 == q;
    assert m == (q * 256 + g) * 0x1_0000 + (b * 256 + a);
    Split65536(q * 256 + g, b * 256 + a);
    Split256(q, g);
    assert (m / 0x1_0000) % 0x100 == g;
    Split256((q * 256 + g) * 256 + b, a);
    Split256(q * 256 + g, b);
    assert (m / 0x100) % 0x100 == b && m % 0x100 == a;
    assert Channels(8, n) == Color(m / 0x100_0000, (m / 0x1_0000) % 0x100, (m / 0x100) % 0x100, (m % 0x100) as real / 255.0);
  }

  /** `fromHex` of `#` followed by a string of a supported length. */
  lemma FromHexHash(s: string, n: int)
    requires |s| in {3, 6, 8} && ParseInt16(s) == Some(n)
    ensures FromHex("#" + s) == Ok(Channels(|s|, n))
  {
    var h := "#" + s;
    assert h[0] == '#' && h[1..] == s;
    assert StripHash(h) == s;
    assert Bits(ParseInt16(s)) == n;
  }

  lemma FromHexUnsignedHash(s: string, n: int)
    requires |s| == 8 && ParseInt16(s) == Some(n)
    ensures FromHexUnsigned("#" + s) == Ok(Channels(8, n).(r := ToUint32(n) / 0x100_0000))
  {
    var h := "#" + s;
    assert h[0] == '#' && h[1..] == s;
    assert StripHash(h) == s;
    assert Bits(ParseInt16(s)) == n;
  }

  /** Three digits read back as three nibbles, each scaled by 17. */
  lemma {:induction false} RoundTrip3(x: nat, y: nat, z: nat)
    requires x < 16 && y < 16 && z < 16
    ensures FromHex(Css3(x, y, z)) == Ok(Color(x * 17, y * 17, z * 17, 1.0))
  {
    Parse3(x, y, z);
    FromHexHash([HexChar(x), HexChar(y), HexChar(z)], (x * 16 + y) * 16 + z);
    Word3(x, y, z);
  }

  /** Six digits read back as the three bytes they spell, with alpha 1. */
  lemma {:induction false} RoundTrip6(r: nat, g: nat, b: nat)
    requires r < 256 && g < 256 && b < 256
    ensures FromHex(Css6(r, g, b)) == Ok(Color(r, g, b, 1.0))
  {
    var s := Hex2(r) + Hex2(g) + Hex2(b);
    Parse6(r, g, b);
    FromHexHash(s, (r * 256 + g) * 256 + b);
    Word6(r, g, b);
  }

  /** Eight digits with a red byte below 0x80 read back as written. */
  lemma {:induction false} RoundTrip8(r: nat, g: nat, b: nat, a: nat)
    requires r < 128 && g < 256 && b < 256 && a < 256
    ensures FromHex(Css8(r, g, b, a)) == Ok(Color(r, g, b, a as real / 255.0))
  {
    var s := Hex2(r) + Hex2(g) + Hex2(b) + Hex2(a);
    Parse8(r, g, b, a);
    FromHexHash(s, ((r * 256 + g) * 256 + b) * 256 + a);
    Word8(r, g, b, a);
  }

  /**
   * As written, a red byte of 0x80 or more comes out negative: the signed
   * shift sees the sign bit of the 32-bit word.
   */
  lemma {:induction false} HighRedNegative(r: nat, g: nat, b: nat, a: nat)
    requires 128 <= r < 256 && g < 256 && b < 256 && a < 256
    ensures FromHex(Css8(r, g, b, a)) == Ok(Color(r - 256, g, b, a as real / 255.0))
  {
    var s := Hex2(r) + Hex2(g) + Hex2(b) + Hex2(a);
    Parse8(r, g, b, a);
    FromHexHash(s, ((r * 256 + g) * 256 + b) * 256 + a);
    Word8(r, g, b, a);
  }

  /** `#ff000080` is read as red -1, not 255. */
  lemma {:induction false} HalfRedExample()
    ensures FromHex("#ff000080") == Ok(Color(-1, 0, 0, 128.0 / 255.0))
  {
    assert Hex2(255) == "ff" && Hex2(0) == "00" && Hex2(128) == "80";
    assert "#ff000080" == Css8(255, 0, 0, 128);
    HighRedNegative(255, 0, 0, 128);
  }

  /** With the unsigned shift every 8-digit colour reads back as written. */
  lemma {:induction false} RoundTrip8Unsigned(r: nat, g: nat, b: nat, a: nat)
    requires r < 256 && g < 256 && b < 256 && a < 256
    ensures FromHexUnsigned(Css8(r, g, b, a)) == Ok(Color(r, g, b, a as real / 255.0))
  {
    var n := ((r * 256 + g) * 256 + b) * 256 + a;
    Parse8(r, g, b, a);
    FromHexUnsignedHash(Hex2(r) + Hex2(g) + Hex2(b) + Hex2(a), n);
    Word8Unsigned(r, g, b, a);
  }

  /** The unsigned shift reads the top byte of the word as it is. */
  lemma Word8Unsigned(r: nat, g: nat, b: nat, a: nat)
    requires r < 256 && g < 256 && b < 256 && a < 256
    ensures var n := ((r * 256 + g) * 256 + b) * 256 + a;
      Channels(8, n).(r := ToUint32(n) / 0x100_0000) == Color(r, g, b, a as real / 255.0)
  {
    var n := ((r * 256 + g) * 256 + b) * 256 + a;
    Word8(r, g, b, a);
    assert ToUint32(n) == n;
    assert n == r * 0x100_0000 + ((g * 256 + b) * 256 + a);
    Split2p24(r, (g * 256 + b) * 256 + a);
  }

  /** The two readings differ only in the 8-digit case. */
  lemma {:induction false} UnsignedAgreesElsewhere(hex: string)
    requires |StripHash(hex)| != 8
    ensures FromHexUnsigned(hex) == FromHex(hex)
  {
  }
}
