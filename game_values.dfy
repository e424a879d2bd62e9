/** Value computations of the game client (public/game.js): colour parsing,
    the 32-bit string hash and the sprite palette it selects. */
module GameValues {
  import opened Common

  // ---------------------------------------------------------------------------
  // 32-bit integers as JavaScript's bitwise operators see them

  const Two32 := 0x1_0000_0000

  predicate IsInt32(n: int) {
    -0x8000_0000 <= n < 0x8000_0000
  }

  /** ECMAScript ToInt32: reduce modulo 2^32 into the signed range. */
  function ToInt32(n: int): (r: int)
    ensures IsInt32(r)
    ensures IsInt32(n) ==> r == n
  {
    var m := n % Two32;
    if m >= 0x8000_0000 then m - Two32 else m
  }

  lemma ModShift(a: int, k: int)
    ensures (a + Two32 * k) % Two32 == a % Two32
  {
    var q := a / Two32;
    var r := a % Two32;
    assert a + Two32 * k == Two32 * (q + k) + r;
  }

  /** ToInt32 only sees its argument modulo 2^32. */
  lemma ToInt32Congruent(a: int, k: int)
    ensures ToInt32(a + Two32 * k) == ToInt32(a)
  {
    ModShift(a, k);
  }

  /** ToInt32 moves its argument by a multiple of 2^32. */
  lemma ToInt32Offset(n: int) returns (k: int)
    ensures ToInt32(n) == n + Two32 * k
  {
    var q := n / Two32;
    k := if n % Two32 >= 0x8000_0000 then -q - 1 else -q;
  }

  // ---------------------------------------------------------------------------
  // hashCode

  /** A UTF-16 code unit, what `charCodeAt` returns. */
  type CodeUnit = c: int | 0 <= c < 0x1_0000

  /** One step of the hash loop: `(hash << 5) - hash + char`, then
      `hash & hash`, which is ToInt32. */
  function HashStep(h: int, c: CodeUnit): int {
    ToInt32(ToInt32(h * 32) - h + c)
  }

  /** `hashCode(str)`: the loop over the code units, from 0. */
  function HashCode(s: seq<CodeUnit>): (h: int)
    ensures IsInt32(h)
    ensures s == [] ==> h == 0
  {
    if s == [] then 0 else HashStep(HashCode(s[..|s| - 1]), s[|s| - 1])
  }

  /** Each step is `31 * h + c` wrapped to 32 bits. */
  lemma HashStepIsPolynomial(h: int, c: CodeUnit)
    requires IsInt32(h)
    ensures HashStep(h, c) == ToInt32(31 * h + c)
  {
    var k := ToInt32Offset(h * 32);
    assert ToInt32(h * 32) - h + c == 31 * h + c + Two32 * k;
    ToInt32Congruent(31 * h + c, k);
  }

  /** The polynomial sum of c[i] * 31^(n-1-i) over the code units, unbounded. */
  function Polynomial(s: seq<CodeUnit>): int {
    if s == [] then 0 else 31 * Polynomial(s[..|s| - 1]) + s[|s| - 1]
  }

  /** The hash is the polynomial string hash reduced to a signed 32-bit
      value: wrapping after every step equals wrapping once at the end. */
  lemma {:induction false} HashCodeIsPolynomial(s: seq<CodeUnit>)
    ensures HashCode(s) == ToInt32(Polynomial(s))
  {
    if s != [] {
      var init := s[..|s| - 1];
      var c := s[|s| - 1];
      HashCodeIsPolynomial(init);
      var h := HashCode(init);
      HashStepIsPolynomial(h, c);
      var k := ToInt32Offset(Polynomial(init));
      assert 31 * h + c == 31 * Polynomial(init) + c + Two32 * (31 * k);
      ToInt32Congruent(31 * Polynomial(init) + c, 31 * k);
    }
  }

  // ---------------------------------------------------------------------------
  // The sprite palette (createCharacterSprite)

  function Abs(n: int): nat {
    if n < 0 then -n else n
  }

  /** `Math.abs(v) % len`. */
  function PaletteIndex(v: int, len: nat): (i: nat)
    requires len > 0
    ensures i < len
    ensures v >= 0 ==> i == v % len
  {
    Abs(v) % len
  }

  /** `h >> k` for a signed 32-bit `h`: an arithmetic shift, floor division. */
  function ShiftRight(h: int, k: nat): (r: int)
    requires IsInt32(h) && 0 < k < 32
    ensures IsInt32(r)
    ensures r * Pow2(k) <= h < (r + 1) * Pow2(k)
  {
    h / Pow2(k)
  }

  function Pow2(k: nat): (p: nat)
    ensures p >= 1
  {
    if k == 0 then 1 else 2 * Pow2(k - 1)
  }

  const SkinTones := ["#FFDBAC", "#E0AC69", "#C68642", "#8D5524"]
  const SkinColors := ["#FFE4C4", "#FFDAB9", "#F5DEB3", "#DEB887", "#D2B48C", "#C4A484", "#8D5524", "#6B4423"]
  const PantsColors := ["#4169E1", "#228B22", "#DC143C", "#FF8C00", "#9932CC", "#20B2AA", "#4682B4", "#8B0000"]
  const ShoeColors := ["#8B4513", "#2F4F4F", "#000000", "#4A4A4A", "#696969", "#8B0000", "#556B2F", "#483D8B"]

  datatype Outfit = Outfit(skin: string, pants: string, shoes: string)

  /** The skin, pants and shoe colours a player id selects: bits of the hash
      pick an entry of each eight-colour palette; a skin-tone colour is used
      as the skin itself. */
  function OutfitFor(playerId: seq<CodeUnit>, color: string): (o: Outfit)
    ensures o.skin == color || o.skin in SkinColors
    ensures color in SkinTones ==> o.skin == color
    ensures o.pants in PantsColors && o.shoes in ShoeColors
  {
    var hash := HashCode(playerId);
    var skin := if color in SkinTones then color else SkinColors[PaletteIndex(hash, |SkinColors|)];
    var pants := PantsColors[PaletteIndex(ShiftRight(hash, 8), |PantsColors|)];
    var shoes := ShoeColors[PaletteIndex(ShiftRight(hash, 16), |ShoeColors|)];
    Outfit(skin, pants, shoes)
  }

  /** Which bits of the id's hash pick each part of the outfit: the skin
      (when the colour is not a skin tone) by the hash, the pants by the hash
      shifted right by 8 and the shoes by the hash shifted right by 16, each
      taken by absolute value modulo the palette size of 8. For a
      non-negative hash these are bits 0-2, 8-10 and 16-18. */
  lemma OutfitPaletteBits(playerId: seq<CodeUnit>, color: string)
    ensures var h := HashCode(playerId);
      var o := OutfitFor(playerId, color);
      && (color !in SkinTones ==> o.skin == SkinColors[Abs(h) % 8])
      && o.pants == PantsColors[Abs(h / 256) % 8]
      && o.shoes == ShoeColors[Abs(h / 65536) % 8]
      && (h >= 0 && color !in SkinTones ==> o.skin == SkinColors[h % 8])
      && (h >= 0 ==> o.pants == PantsColors[h / 256 % 8] && o.shoes == ShoeColors[h / 65536 % 8])
  {
    assert Pow2(8) == 256 && Pow2(16) == 65536;
  }

  // ---------------------------------------------------------------------------
  // hexToRgb

  datatype Rgb = Rgb(r: int, g: int, b: int)

  /** The colour used when the input is not a hex colour. */
  const Fallback := Rgb(78, 205, 196)

  /** The value of a hexadecimal digit of either case. */
  function HexDigit(c: char): (v: Option<nat>)
    ensures v.Some? ==> v.value < 16
  {
    if '0' <= c <= '9' then Some(c as int - '0' as int)
    else if 'a' <= c <= 'f' then Some(c as int - 'a' as int + 10)
    else if 'A' <= c <= 'F' then Some(c as int - 'A' as int + 10)
    else None
  }

  /** The six digits of `#?RRGGBB`, when the whole input has that form. */
  function HexBody(s: string): (body: Option<string>)
    ensures body.Some? ==> |body.value| == 6
  {
    if |s| == 7 && s[0] == '#' then Some(s[1..])
    else if |s| == 6 then Some(s)
    else None
  }

  predicate AllHex(d: string) {
    forall i :: 0 <= i < |d| ==> HexDigit(d[i]).Some?
  }

  /** Whether `/^#?([a-f\d]{2})([a-f\d]{2})([a-f\d]{2})$/i` matches. */
  predicate IsHexColor(s: string) {
    HexBody(s).Some? && AllHex(HexBody(s).value)
  }

  function ByteAt(d: string, i: nat): (v: nat)
    requires i + 1 < |d| && HexDigit(d[i]).Some? && HexDigit(d[i + 1]).Some?
    ensures v < 256
  {
    HexDigit(d[i]).value * 16 + HexDigit(d[i + 1]).value
  }

  /** `hexToRgb(hex)`. */
  function HexToRgb(s: string): (c: Rgb)
    ensures 0 <= c.r < 256 && 0 <= c.g < 256 && 0 <= c.b < 256
    ensures !IsHexColor(s) ==> c == Fallback
  {
    if IsHexColor(s) then
      var d := HexBody(s).value;
      Rgb(ByteAt(d, 0), ByteAt(d, 2), ByteAt(d, 4))
    else Fallback
  }

  /** The digit of a value below 16, in upper or lower case. */
  function DigitChar(v: nat, upper: bool): (c: char)
    requires v < 16
    ensures HexDigit(c) == Some(v)
  {
    if v < 10 then ('0' as int + v) as char
    else ((if upper then 'A' else 'a') as int + v - 10) as char
  }

  /** Two hex digits for a byte, upper or lower case. */
  function ByteHex(v: nat, upper: bool): (d: string)
    requires v < 256
    ensures |d| == 2 && HexDigit(d[0]) == Some(v / 16) && HexDigit(d[1]) == Some(v % 16)
  {
    [DigitChar(v / 16, upper), DigitChar(v % 16, upper)]
  }

  /** `#rrggbb` (or `RRGGBB` without the hash) for a colour with byte
      components. */
  function ToHex(c: Rgb, hash: bool, upper: bool): (s: string)
    requires 0 <= c.r < 256 && 0 <= c.g < 256 && 0 <= c.b < 256
  {
    (if hash then "#" else "") + ByteHex(c.r, upper) + ByteHex(c.g, upper) + ByteHex(c.b, upper)
  }

  /** Parsing inverts formatting, with or without the `#` and in either case. */
  lemma HexToRgbRoundTrip(c: Rgb, hash: bool, upper: bool)
    requires 0 <= c.r < 256 && 0 <= c.g < 256 && 0 <= c.b < 256
    ensures IsHexColor(ToHex(c, hash, upper))
    ensures HexToRgb(ToHex(c, hash, upper)) == c
  {
    var s := ToHex(c, hash, upper);
    var x, y, z := ByteHex(c.r, upper), ByteHex(c.g, upper), ByteHex(c.b, upper);
    var d := x + y + z;
    if hash {
      assert s == "#" + d && s[1..] == d;
    } else {
      assert s == d;
    }
    assert d[0] == x[0] && d[1] == x[1] && d[2] == y[0] && d[3] == y[1] && d[4] == z[0] && d[5] == z[1];
  }

  /** Equal bytes have equal digits. */
  lemma SameByteSameDigits(d: string, e: string, j: nat)
    requires j + 1 < |d| && j + 1 < |e|
    requires HexDigit(d[j]).Some? && HexDigit(d[j + 1]).Some? && HexDigit(e[j]).Some? && HexDigit(e[j + 1]).Some?
    requires ByteAt(d, j) == ByteAt(e, j)
    ensures HexDigit(d[j]) == HexDigit(e[j]) && HexDigit(d[j + 1]) == HexDigit(e[j + 1])
  {
    var v := ByteAt(d, j);
    assert HexDigit(d[j]).value == v / 16 && HexDigit(d[j + 1]).value == v % 16;
    assert HexDigit(e[j]).value == v / 16 && HexDigit(e[j + 1]).value == v % 16;
  }

  /** Two hex colours that parse to the same bytes have the same digits up to
      case. */
  lemma HexToRgbInjective(s: string, t: string)
    requires IsHexColor(s) && IsHexColor(t) && HexToRgb(s) == HexToRgb(t)
    ensures forall i :: 0 <= i < 6 ==> HexDigit(HexBody(s).value[i]) == HexDigit(HexBody(t).value[i])
  {
    var d := HexBody(s).value;
    var e := HexBody(t).value;
    SameByteSameDigits(d, e, 0);
    SameByteSameDigits(d, e, 2);
    SameByteSameDigits(d, e, 4);
  }
}
