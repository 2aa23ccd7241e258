/** Random id generation: `nextId` renders one or two 64-bit draws of the
    shared generator as zero-padded lowercase hex (`%016x`). The generator
    itself is replaced by the stream of values it would return. */
module IdGenerator {

  const TWO_63: int := 0x8000_0000_0000_0000
  const TWO_64: int := 0x1_0000_0000_0000_0000

  /** A Kotlin `Long`: a signed 64-bit integer. */
  type Long = x: int | -TWO_63 <= x < TWO_63

  /** The values successive `random.nextLong()` calls return, in order. */
  type Random = nat -> Long

  /** The generator after `n` draws have been taken from it. */
  function Skip(rng: Random, n: nat): Random
  {
    (i: nat) => rng(i + n)
  }

  datatype IdLength = ID_64_BITS | ID_128_BITS

  /** `nextId()` without an argument produces a 64-bit id. */
  const DefaultIdLength: IdLength := ID_64_BITS

  /** Number of characters of an id of the given width. */
  function HexLength(len: IdLength): nat
  {
    match len
    case ID_64_BITS => 16
    case ID_128_BITS => 32
  }

  /** Number of draws an id of the given width consumes. */
  function DrawCount(len: IdLength): nat
  {
    match len
    case ID_64_BITS => 1
    case ID_128_BITS => 2
  }

  predicate IsHexDigit(c: char)
  {
    '0' <= c <= '9' || 'a' <= c <= 'f'
  }

  /** Every character is one of `0-9a-f`. */
  predicate IsLowerHex(s: string)
  {
    forall i :: 0 <= i < |s| ==> IsHexDigit(s[i])
  }

  function Pow16(n: nat): nat
  {
    if n == 0 then 1 else 16 * Pow16(n - 1)
  }

  lemma Pow16Sixteen()
    ensures Pow16(16) == TWO_64
  {
    assert Pow16(1) == 0x10;
    assert Pow16(2) == 0x100;
    assert Pow16(3) == 0x1000;
    assert Pow16(4) == 0x10000;
    assert Pow16(5) == 0x100000;
    assert Pow16(6) == 0x1000000;
    assert Pow16(7) == 0x10000000;
    assert Pow16(8) == 0x100000000;
    assert Pow16(9) == 0x1000000000;
    assert Pow16(10) == 0x10000000000;
    assert Pow16(11) == 0x100000000000;
    assert Pow16(12) == 0x1000000000000;
    assert Pow16(13) == 0x10000000000000;
    assert Pow16(14) == 0x100000000000000;
    assert Pow16(15) == 0x1000000000000000;
    assert Pow16(16) == 0x10000000000000000;
  }

  /** The lowercase hex digit of a value below 16. */
  function HexDigit(d: nat): (c: char)
    requires d < 16
    ensures IsHexDigit(c)
  {
    if d < 10 then ('0' as int + d) as char else ('a' as int + d - 10) as char
  }

  function DigitValue(c: char): (d: nat)
    requires IsHexDigit(c)
    ensures d < 16
    ensures HexDigit(d) == c
  {
    if c <= '9' then c as int - '0' as int else c as int - 'a' as int + 10
  }

  lemma DigitValueOfHexDigit(d: nat)
    requires d < 16
    ensures DigitValue(HexDigit(d)) == d
  {
  }

  /** `n` as exactly `width` lowercase hex digits, most significant first,
      padded on the left with zeros. */
  function ToHex(n: nat, width: nat): (s: string)
    requires n < Pow16(width)
    ensures |s| == width
    ensures IsLowerHex(s)
  {
    if width == 0 then ""
    else ToHex(n / 16, width - 1) + [HexDigit(n % 16)]
  }

  /** The value a string of hex digits denotes. */
  function HexValue(s: string): (v: nat)
    requires IsLowerHex(s)
    ensures v < Pow16(|s|)
  {
    if |s| == 0 then 0
    else 16 * HexValue(s[..|s| - 1]) + DigitValue(s[|s| - 1])
  }

  /** Reading back a rendering gives the rendered value. */
  lemma {:induction false} HexValueOfToHex(n: nat, width: nat)
    requires n < Pow16(width)
    ensures HexValue(ToHex(n, width)) == n
  {
    if width > 0 {
      var s := ToHex(n, width);
      HexValueOfToHex(n / 16, width - 1);
      assert s[..|s| - 1] == ToHex(n / 16, width - 1);
      DigitValueOfHexDigit(n % 16);
    }
  }

  lemma DivMod16(q: nat, d: nat)
    requires d < 16
    ensures (16 * q + d) / 16 == q
    ensures (16 * q + d) % 16 == d
  {
  }

  /** Rendering the value of a hex string at its own width gives the string
      back: the rendering is onto the hex strings of that width. */
  lemma {:induction false} ToHexOfHexValue(s: string)
    requires IsLowerHex(s)
    ensures ToHex(HexValue(s), |s|) == s
  {
    if |s| > 0 {
      var p := s[..|s| - 1];
      var d := DigitValue(s[|s| - 1]);
      var v := HexValue(p);
      ToHexOfHexValue(p);
      assert HexValue(s) == 16 * v + d;
      DivMod16(v, d);
      assert p + [s[|s| - 1]] == s;
    }
  }

  /** A `Long` read as an unsigned 64-bit value (two's complement). */
  function Unsigned(x: Long): (u: nat)
    ensures u < TWO_64
    ensures 0 <= x ==> u == x
    ensures x < 0 ==> u == x + TWO_64
  {
    if x < 0 then x + TWO_64 else x
  }

  /** `String.format("%016x", x)`. */
  function FormatLong(x: Long): (s: string)
    ensures |s| == 16
    ensures IsLowerHex(s)
  {
    Pow16Sixteen();
    ToHex(Unsigned(x), 16)
  }

  /** The `Long` whose rendering is the given 16-digit hex string. */
  function ParseLong(s: string): Long
    requires |s| == 16 && IsLowerHex(s)
  {
    Pow16Sixteen();
    var v := HexValue(s);
    if v < TWO_63 then v else v - TWO_64
  }

  /** Different draws render differently. */
  lemma FormatLongInjective(x: Long, y: Long)
    requires FormatLong(x) == FormatLong(y)
    ensures x == y
  {
    Pow16Sixteen();
    HexValueOfToHex(Unsigned(x), 16);
    HexValueOfToHex(Unsigned(y), 16);
  }

  /** Every 16-digit lowercase hex string is the rendering of some draw, and
      `ParseLong` finds it: rendering is a bijection from `Long` onto these
      strings. */
  lemma FormatLongOnto(s: string)
    requires |s| == 16 && IsLowerHex(s)
    ensures FormatLong(ParseLong(s)) == s
  {
    Pow16Sixteen();
    ToHexOfHexValue(s);
  }

  /** Parsing a rendering gives back the draw. */
  lemma ParseFormatLong(x: Long)
    ensures ParseLong(FormatLong(x)) == x
  {
    Pow16Sixteen();
    HexValueOfToHex(Unsigned(x), 16);
  }

  /** `nextId(idLength)`: one draw for a 64-bit id, two draws rendered one
      after the other for a 128-bit id. */
  function NextId(len: IdLength, rng: Random): (id: string)
    ensures |id| == HexLength(len)
    ensures IsLowerHex(id)
    ensures id[..16] == FormatLong(rng(0))
    ensures len == ID_128_BITS ==> id[16..] == FormatLong(rng(1))
  {
    match len
    case ID_64_BITS => FormatLong(rng(0))
    case ID_128_BITS => FormatLong(rng(0)) + FormatLong(rng(1))
  }

  /** `nextId()` with no argument renders a single draw. */
  lemma DefaultIdIs64Bits(rng: Random)
    ensures NextId(DefaultIdLength, rng) == FormatLong(rng(0))
    ensures |NextId(DefaultIdLength, rng)| == 16
  {
  }

  /** A generated id never contains the b3 delimiter `-`. */
  lemma NextIdHasNoDash(len: IdLength, rng: Random)
    ensures '-' !in NextId(len, rng)
  {
  }

  /** Two ids of the same width are equal exactly when the draws they
      consume are equal. */
  lemma NextIdInjective(len: IdLength, rng1: Random, rng2: Random)
    ensures NextId(len, rng1) == NextId(len, rng2) <==>
            (forall i :: 0 <= i < DrawCount(len) ==> rng1(i) == rng2(i))
  {
    var a := NextId(len, rng1);
    var b := NextId(len, rng2);
    if a == b {
      FormatLongInjective(rng1(0), rng2(0));
      if len == ID_128_BITS {
        assert a[16..] == b[16..];
        FormatLongInjective(rng1(1), rng2(1));
      }
    }
  }
}
