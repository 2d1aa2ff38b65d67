/**
 * Where the substitution table comes from: FIPS 197 section 5.1.1 defines it as the
 * multiplicative inverse in GF(2^8), then an affine map of the bits.
 */
module AesSBox {
  import opened Bytes
  import opened AesTables
  import opened AesUtils

  function Rotl(x: Byte, k: nat): Byte
    requires k < 8
  {
    (x << k) | (x >> (8 - k))
  }

  /** The affine map of FIPS 197 section 5.1.1: each bit is the sum of five bits and a constant. */
  function Affine(y: Byte): Byte {
    y ^ Rotl(y, 1) ^ Rotl(y, 2) ^ Rotl(y, 3) ^ Rotl(y, 4) ^ 0x63
  }

  function Unaffine(y: Byte): Byte {
    Rotl(y, 1) ^ Rotl(y, 3) ^ Rotl(y, 6) ^ 0x05
  }

  function Half(factor: Byte): Byte {
    factor >> 1
  }

  /** x if `factor` is odd */
  function IfOdd(factor: Byte, x: Byte): Byte {
    (factor & 1) * x
  }

  function Sum8(b0: Byte, b1: Byte, b2: Byte, b3: Byte, b4: Byte, b5: Byte, b6: Byte, b7: Byte): Byte {
    b0 ^ b1 ^ b2 ^ b3 ^ b4 ^ b5 ^ b6 ^ b7
  }

  /** `Product` with its eight turns written out, so that bytes can be computed with. */
  function Times(x0: Byte, y0: Byte): Byte {
    var x1, y1 := Mul2(x0), Half(y0);
    var x2, y2 := Mul2(x1), Half(y1);
    var x3, y3 := Mul2(x2), Half(y2);
    var x4, y4 := Mul2(x3), Half(y3);
    var x5, y5 := Mul2(x4), Half(y4);
    var x6, y6 := Mul2(x5), Half(y5);
    var x7, y7 := Mul2(x6), Half(y6);
    Sum8(IfOdd(y0, x0), IfOdd(y1, x1), IfOdd(y2, x2), IfOdd(y3, x3), IfOdd(y4, x4), IfOdd(y5, x5), IfOdd(y6, x6), IfOdd(y7, x7))
  }

  lemma Sum8Is(b0: Byte, b1: Byte, b2: Byte, b3: Byte, b4: Byte, b5: Byte, b6: Byte, b7: Byte)
    ensures Sum8(b0, b1, b2, b3, b4, b5, b6, b7) == Add(b0, Add(b1, Add(b2, Add(b3, Add(b4, Add(b5, Add(b6, Add(b7, 0))))))))
  {
  }

  lemma TurnIs(x: Byte, factor: Byte)
    ensures Product(x, factor) == Add(IfOdd(factor, x), Product(Mul2(x), Half(factor)))
  {
    ProductStep(x, factor);
    hide Mul2, Product, Add;
    if
    case factor & 1 == 0 =>
    case factor & 1 == 1 =>
  }

  lemma EightHalves(y: Byte)
    ensures Half(Half(Half(Half(Half(Half(Half(Half(y)))))))) == 0
  {
  }

  lemma TimesIsProduct(x0: Byte, y0: Byte)
    ensures Times(x0, y0) == Product(x0, y0)
  {
    hide Mul2, Product, Add, Sum8, IfOdd, Half;
    TurnIs(x0, y0);
    var x1, y1 := Mul2(x0), Half(y0);
    TurnIs(x1, y1);
    var x2, y2 := Mul2(x1), Half(y1);
    TurnIs(x2, y2);
    var x3, y3 := Mul2(x2), Half(y2);
    TurnIs(x3, y3);
    var x4, y4 := Mul2(x3), Half(y3);
    TurnIs(x4, y4);
    var x5, y5 := Mul2(x4), Half(y4);
    TurnIs(x5, y5);
    var x6, y6 := Mul2(x5), Half(y5);
    TurnIs(x6, y6);
    var x7, y7 := Mul2(x6), Half(y6);
    TurnIs(x7, y7);
    EightHalves(y0);
    NothingLeft(Mul2(x7));
    Sum8Is(IfOdd(y0, x0), IfOdd(y1, x1), IfOdd(y2, x2), IfOdd(y3, x3), IfOdd(y4, x4), IfOdd(y5, x5), IfOdd(y6, x6), IfOdd(y7, x7));
  }

  lemma NothingLeft(x: Byte)
    ensures Product(x, 0) == 0
  {
  }

  predicate IsInverse(x: Byte, y: Byte) {
    if x == 0 then y == 0 else Times(x, y) == 1
  }

  // Sixteen bytes a lemma, one case each.

  lemma DefinedFrom00(x: Byte)
    requires x >> 4 == 0
    ensures IsInverse(x, Unaffine(SBox(x))) && SBox(x) == Affine(Unaffine(SBox(x)))
  {
    hide SBox;
    SBoxRows();
    if
    case x == 0x00 => case x == 0x01 => case x == 0x02 => case x == 0x03 => case x == 0x04 => case x == 0x05 => case x == 0x06 => case x == 0x07 =>
    case x == 0x08 => case x == 0x09 => case x == 0x0A => case x == 0x0B => case x == 0x0C => case x == 0x0D => case x == 0x0E => case x == 0x0F =>
  }

  lemma DefinedFrom10(x: Byte)
    requires x >> 4 == 1
    ensures IsInverse(x, Unaffine(SBox(x))) && SBox(x) == Affine(Unaffine(SBox(x)))
  {
    hide SBox;
    SBoxRows();
    if
    case x == 0x10 => case x == 0x11 => case x == 0x12 => case x == 0x13 => case x == 0x14 => case x == 0x15 => case x == 0x16 => case x == 0x17 =>
    case x == 0x18 => case x == 0x19 => case x == 0x1A => case x == 0x1B => case x == 0x1C => case x == 0x1D => case x == 0x1E => case x == 0x1F =>
  }

  lemma DefinedFrom20(x: Byte)
    requires x >> 4 == 2
    ensures IsInverse(x, Unaffine(SBox(x))) && SBox(x) == Affine(Unaffine(SBox(x)))
  {
    hide SBox;
    SBoxRows();
    if
    case x == 0x20 => case x == 0x21 => case x == 0x22 => case x == 0x23 => case x == 0x24 => case x == 0x25 => case x == 0x26 => case x == 0x27 =>
    case x == 0x28 => case x == 0x29 => case x == 0x2A => case x == 0x2B => case x == 0x2C => case x == 0x2D => case x == 0x2E => case x == 0x2F =>
  }

  lemma DefinedFrom30(x: Byte)
    requires x >> 4 == 3
    ensures IsInverse(x, Unaffine(SBox(x))) && SBox(x) == Affine(Unaffine(SBox(x)))
  {
    hide SBox;
    SBoxRows();
    if
    case x == 0x30 => case x == 0x31 => case x == 0x32 => case x == 0x33 => case x == 0x34 => case x == 0x35 => case x == 0x36 => case x == 0x37 =>
    case x == 0x38 => case x == 0x39 => case x == 0x3A => case x == 0x3B => case x == 0x3C => case x == 0x3D => case x == 0x3E => case x == 0x3F =>
  }

  lemma DefinedFrom40(x: Byte)
    requires x >> 4 == 4
    ensures IsInverse(x, Unaffine(SBox(x))) && SBox(x) == Affine(Unaffine(SBox(x)))
  {
    hide SBox;
    SBoxRows();
    if
    case x == 0x40 => case x == 0x41 => case x == 0x42 => case x == 0x43 => case x == 0x44 => case x == 0x45 => case x == 0x46 => case x == 0x47 =>
    case x == 0x48 => case x == 0x49 => case x == 0x4A => case x == 0x4B => case x == 0x4C => case x == 0x4D => case x == 0x4E => case x == 0x4F =>
  }

  lemma DefinedFrom50(x: Byte)
    requires x >> 4 == 5
    ensures IsInverse(x, Unaffine(SBox(x))) && SBox(x) == Affine(Unaffine(SBox(x)))
  {
    hide SBox;
    SBoxRows();
    if
    case x == 0x50 => case x == 0x51 => case x == 0x52 => case x == 0x53 => case x == 0x54 => case x == 0x55 => case x == 0x56 => case x == 0x57 =>
    case x == 0x58 => case x == 0x59 => case x == 0x5A => case x == 0x5B => case x == 0x5C => case x == 0x5D => case x == 0x5E => case x == 0x5F =>
  }

  lemma DefinedFrom60(x: Byte)
    requires x >> 4 == 6
    ensures IsInverse(x, Unaffine(SBox(x))) && SBox(x) == Affine(Unaffine(SBox(x)))
  {
    hide SBox;
    SBoxRows();
    if
    case x == 0x60 => case x == 0x61 => case x == 0x62 => case x == 0x63 => case x == 0x64 => case x == 0x65 => case x == 0x66 => case x == 0x67 =>
    case x == 0x68 => case x == 0x69 => case x == 0x6A => case x == 0x6B => case x == 0x6C => case x == 0x6D => case x == 0x6E => case x == 0x6F =>
  }

  lemma DefinedFrom70(x: Byte)
    requires x >> 4 == 7
    ensures IsInverse(x, Unaffine(SBox(x))) && SBox(x) == Affine(Unaffine(SBox(x)))
  {
    hide SBox;
    SBoxRows();
    if
    case x == 0x70 => case x == 0x71 => case x == 0x72 => case x == 0x73 => case x == 0x74 => case x == 0x75 => case x == 0x76 => case x == 0x77 =>
    case x == 0x78 => case x == 0x79 => case x == 0x7A => case x == 0x7B => case x == 0x7C => case x == 0x7D => case x == 0x7E => case x == 0x7F =>
  }

  lemma DefinedFrom80(x: Byte)
    requires x >> 4 == 8
    ensures IsInverse(x, Unaffine(SBox(x))) && SBox(x) == Affine(Unaffine(SBox(x)))
  {
    hide SBox;
    SBoxRows();
    if
    case x == 0x80 => case x == 0x81 => case x == 0x82 => case x == 0x83 => case x == 0x84 => case x == 0x85 => case x == 0x86 => case x == 0x87 =>
    case x == 0x88 => case x == 0x89 => case x == 0x8A => case x == 0x8B => case x == 0x8C => case x == 0x8D => case x == 0x8E => case x == 0x8F =>
  }

  lemma DefinedFrom90(x: Byte)
    requires x >> 4 == 9
    ensures IsInverse(x, Unaffine(SBox(x))) && SBox(x) == Affine(Unaffine(SBox(x)))
  {
    hide SBox;
    SBoxRows();
    if
    case x == 0x90 => case x == 0x91 => case x == 0x92 => case x == 0x93 => case x == 0x94 => case x == 0x95 => case x == 0x96 => case x == 0x97 =>
    case x == 0x98 => case x == 0x99 => case x == 0x9A => case x == 0x9B => case x == 0x9C => case x == 0x9D => case x == 0x9E => case x == 0x9F =>
  }

  lemma DefinedFromA0(x: Byte)
    requires x >> 4 == 10
    ensures IsInverse(x, Unaffine(SBox(x))) && SBox(x) == Affine(Unaffine(SBox(x)))
  {
    hide SBox;
    SBoxRows();
    if
    case x == 0xA0 => case x == 0xA1 => case x == 0xA2 => case x == 0xA3 => case x == 0xA4 => case x == 0xA5 => case x == 0xA6 => case x == 0xA7 =>
    case x == 0xA8 => case x == 0xA9 => case x == 0xAA => case x == 0xAB => case x == 0xAC => case x == 0xAD => case x == 0xAE => case x == 0xAF =>
  }

  lemma DefinedFromB0(x: Byte)
    requires x >> 4 == 11
    ensures IsInverse(x, Unaffine(SBox(x))) && SBox(x) == Affine(Unaffine(SBox(x)))
  {
    hide SBox;
    SBoxRows();
    if
    case x == 0xB0 => case x == 0xB1 => case x == 0xB2 => case x == 0xB3 => case x == 0xB4 => case x == 0xB5 => case x == 0xB6 => case x == 0xB7 =>
    case x == 0xB8 => case x == 0xB9 => case x == 0xBA => case x == 0xBB => case x == 0xBC => case x == 0xBD => case x == 0xBE => case x == 0xBF =>
  }

  lemma DefinedFromC0(x: Byte)
    requires x >> 4 == 12
    ensures IsInverse(x, Unaffine(SBox(x))) && SBox(x) == Affine(Unaffine(SBox(x)))
  {
    hide SBox;
    SBoxRows();
    if
    case x == 0xC0 => case x == 0xC1 => case x == 0xC2 => case x == 0xC3 => case x == 0xC4 => case x == 0xC5 => case x == 0xC6 => case x == 0xC7 =>
    case x == 0xC8 => case x == 0xC9 => case x == 0xCA => case x == 0xCB => case x == 0xCC => case x == 0xCD => case x == 0xCE => case x == 0xCF =>
  }

  lemma DefinedFromD0(x: Byte)
    requires x >> 4 == 13
    ensures IsInverse(x, Unaffine(SBox(x))) && SBox(x) == Affine(Unaffine(SBox(x)))
  {
    hide SBox;
    SBoxRows();
    if
    case x == 0xD0 => case x == 0xD1 => case x == 0xD2 => case x == 0xD3 => case x == 0xD4 => case x == 0xD5 => case x == 0xD6 => case x == 0xD7 =>
    case x == 0xD8 => case x == 0xD9 => case x == 0xDA => case x == 0xDB => case x == 0xDC => case x == 0xDD => case x == 0xDE => case x == 0xDF =>
  }

  lemma DefinedFromE0(x: Byte)
    requires x >> 4 == 14
    ensures IsInverse(x, Unaffine(SBox(x))) && SBox(x) == Affine(Unaffine(SBox(x)))
  {
    hide SBox;
    SBoxRows();
    if
    case x == 0xE0 => case x == 0xE1 => case x == 0xE2 => case x == 0xE3 => case x == 0xE4 => case x == 0xE5 => case x == 0xE6 => case x == 0xE7 =>
    case x == 0xE8 => case x == 0xE9 => case x == 0xEA => case x == 0xEB => case x == 0xEC => case x == 0xED => case x == 0xEE => case x == 0xEF =>
  }

  lemma DefinedFromF0(x: Byte)
    requires x >> 4 == 15
    ensures IsInverse(x, Unaffine(SBox(x))) && SBox(x) == Affine(Unaffine(SBox(x)))
  {
    hide SBox;
    SBoxRows();
    if
    case x == 0xF0 => case x == 0xF1 => case x == 0xF2 => case x == 0xF3 => case x == 0xF4 => case x == 0xF5 => case x == 0xF6 => case x == 0xF7 =>
    case x == 0xF8 => case x == 0xF9 => case x == 0xFA => case x == 0xFB => case x == 0xFC => case x == 0xFD => case x == 0xFE => case x == 0xFF =>
  }

  /** Every entry of the table is the affine image of its index's inverse, and of 0 for the index 0. */
  lemma SBoxIsDefined(x: Byte) returns (inverse: Byte)
    ensures if x == 0 then inverse == 0 else Product(x, inverse) == 1
    ensures SBox(x) == Affine(inverse)
  {
    hide SBox, Affine, Times, Product, Unaffine;
    inverse := Unaffine(SBox(x));
    TimesIsProduct(x, inverse);
    var row := x >> 4;
    if
    case row == 0 => DefinedFrom00(x);
    case row == 1 => DefinedFrom10(x);
    case row == 2 => DefinedFrom20(x);
    case row == 3 => DefinedFrom30(x);
    case row == 4 => DefinedFrom40(x);
    case row == 5 => DefinedFrom50(x);
    case row == 6 => DefinedFrom60(x);
    case row == 7 => DefinedFrom70(x);
    case row == 8 => DefinedFrom80(x);
    case row == 9 => DefinedFrom90(x);
    case row == 10 => DefinedFromA0(x);
    case row == 11 => DefinedFromB0(x);
    case row == 12 => DefinedFromC0(x);
    case row == 13 => DefinedFromD0(x);
    case row == 14 => DefinedFromE0(x);
    case row == 15 => DefinedFromF0(x);
  }
}
