/**
 * The four transformations of a block in AES and their inverses: first as
 * functions on values, with the laws that let decryption undo encryption, then
 * as the in-place routines the source runs.
 */
module AesUtils {
  import opened Bytes
  import opened AesTables

  // ---- The field GF(2^8)

  /** Addition of field elements is exclusive or. */
  function Add(x: Byte, y: Byte): Byte {
    x ^ y
  }

  /** Multiplication by the polynomial x, modulo x^8 + x^4 + x^3 + x + 1. */
  function Mul2(x: Byte): Byte {
    (x << 1) ^ ((x >> 7) * 0x1B)
  }

  function Mul3(x: Byte): Byte {
    Add(Mul2(x), x)
  }

  /** The sum of x * 2^i over the bits i set in `factor`. */
  function Product(x: Byte, factor: Byte): Byte
    decreases factor
  {
    if factor == 0 then 0
    else Add(if factor & 1 == 1 then x else 0, Product(Mul2(x), factor >> 1))
  }

  lemma AddCommutes(x: Byte, y: Byte)
    ensures Add(x, y) == Add(y, x)
  {
  }

  lemma AddAssociates(x: Byte, y: Byte, z: Byte)
    ensures Add(Add(x, y), z) == Add(x, Add(y, z))
  {
  }

  lemma AddCancels(x: Byte, k: Byte)
    ensures Add(Add(x, k), k) == x
    ensures Add(x, 0) == x == Add(0, x)
  {
  }

  lemma AddRegroups(p0: Byte, q0: Byte, p1: Byte, q1: Byte)
    ensures Add(Add(p0, q0), Add(p1, q1)) == Add(Add(p0, p1), Add(q0, q1))
  {
    hide Add;
    AddAssociates(p0, q0, Add(p1, q1));
    AddAssociates(q0, p1, q1);
    AddCommutes(q0, p1);
    AddAssociates(p1, q0, q1);
    AddAssociates(p0, p1, Add(q0, q1));
  }

  lemma Mul2Linear(x: Byte, y: Byte)
    ensures Mul2(Add(x, y)) == Add(Mul2(x), Mul2(y))
  {
  }

  lemma Mul3Linear(x: Byte, y: Byte)
    ensures Mul3(Add(x, y)) == Add(Mul3(x), Mul3(y))
  {
    hide Add, Mul2;
    Mul2Linear(x, y);
    AddRegroups(Mul2(x), Mul2(y), x, y);
  }

  /** One turn of the multiplication loop. */
  lemma ProductStep(x: Byte, factor: Byte)
    ensures Product(x, factor) == Add(LowBit(x, factor), Product(Mul2(x), factor >> 1))
  {
    hide Mul2;
  }

  function LowBit(x: Byte, factor: Byte): Byte {
    if factor & 1 == 1 then x else 0
  }

  /** Multiplication by a fixed factor is linear, by induction on the bits of the factor. */
  lemma {:induction false} ProductLinear(x: Byte, y: Byte, factor: Byte)
    ensures Product(Add(x, y), factor) == Add(Product(x, factor), Product(y, factor))
    decreases factor
  {
    if factor == 0 {
    } else {
      Mul2Linear(x, y);
      ProductLinear(Mul2(x), Mul2(y), factor >> 1);
      ProductLinearStep(x, y, factor);
    }
  }

  lemma ProductLinearStep(x: Byte, y: Byte, factor: Byte)
    requires Product(Add(Mul2(x), Mul2(y)), factor >> 1) == Add(Product(Mul2(x), factor >> 1), Product(Mul2(y), factor >> 1))
    ensures Product(Add(x, y), factor) == Add(Product(x, factor), Product(y, factor))
  {
    hide Mul2, Product, Add;
    ProductStep(x, factor);
    ProductStep(y, factor);
    ProductStep(Add(x, y), factor);
    Mul2Linear(x, y);
    AddCancels(0, 0);
    AddRegroups(LowBit(x, factor), LowBit(y, factor), Product(Mul2(x), factor >> 1), Product(Mul2(y), factor >> 1));
  }

  /** A product is also linear in its factor: factors add like the polynomials they are. */
  lemma {:induction false} ProductAddsFactors(x: Byte, f: Byte, g: Byte)
    ensures Product(x, Add(f, g)) == Add(Product(x, f), Product(x, g))
    decreases f | g
  {
    if f | g == 0 {
      FactorsHalve(f, g);
    } else {
      FactorsHalve(f, g);
      ProductAddsFactors(Mul2(x), f >> 1, g >> 1);
      ProductAddsFactorsStep(x, f, g);
    }
  }

  lemma FactorsHalve(f: Byte, g: Byte)
    ensures Add(f, g) >> 1 == Add(f >> 1, g >> 1)
    ensures f | g != 0 ==> (f >> 1) | (g >> 1) < f | g
    ensures f | g == 0 ==> f == 0 && g == 0 && Add(f, g) == 0
  {
  }

  lemma LowBitAdds(x: Byte, f: Byte, g: Byte)
    ensures LowBit(x, Add(f, g)) == Add(LowBit(x, f), LowBit(x, g))
  {
  }

  lemma ProductAddsFactorsStep(x: Byte, f: Byte, g: Byte)
    requires Product(Mul2(x), Add(f >> 1, g >> 1)) == Add(Product(Mul2(x), f >> 1), Product(Mul2(x), g >> 1))
    ensures Product(x, Add(f, g)) == Add(Product(x, f), Product(x, g))
  {
    hide Mul2, Product, Add, LowBit;
    ProductStep(x, f);
    ProductStep(x, g);
    ProductStep(x, Add(f, g));
    FactorsHalve(f, g);
    LowBitAdds(x, f, g);
    AddRegroups(LowBit(x, f), LowBit(x, g), Product(Mul2(x), f >> 1), Product(Mul2(x), g >> 1));
  }

  lemma {:induction false} DoubleCommutes(x: Byte, factor: Byte)
    ensures Mul2(Product(x, factor)) == Product(Mul2(x), factor)
    decreases factor
  {
    if factor == 0 {
      Mul2Zero();
    } else {
      DoubleCommutes(Mul2(x), factor >> 1);
      DoubleCommutesStep(x, factor);
    }
  }

  lemma DoubleCommutesStep(x: Byte, factor: Byte)
    requires Mul2(Product(Mul2(x), factor >> 1)) == Product(Mul2(Mul2(x)), factor >> 1)
    ensures Mul2(Product(x, factor)) == Product(Mul2(x), factor)
  {
    hide Mul2, Product, Add;
    ProductStep(x, factor);
    ProductStep(Mul2(x), factor);
    Mul2Linear(LowBit(x, factor), Product(Mul2(x), factor >> 1));
    Mul2Zero();
  }

  lemma Mul2Zero()
    ensures Mul2(0) == 0
  {
  }

  lemma ProductOne(x: Byte)
    ensures Product(x, 0) == 0
    ensures Product(x, 1) == x
  {
    hide Mul2;
  }

  lemma DoubledLowProduct(x: Byte, factor: Byte)
    requires factor < 0x80
    ensures Mul2(Product(x, factor)) == Product(x, factor << 1)
  {
    hide Mul2, Product, Add;
    DoubleCommutes(x, factor);
    ProductStep(x, factor << 1);
    AddCancels(Product(Mul2(x), factor), 0);
  }

  /** The reduction polynomial: x^8 is x^4 + x^3 + x + 1. */
  lemma Reduction(x: Byte)
    ensures var x4 := Mul2(Mul2(Mul2(Mul2(x))));
            Mul2(Mul2(Mul2(Mul2(x4)))) == Add(Add(x, Mul2(x)), Add(Mul2(Mul2(Mul2(x))), x4))
  {
  }

  lemma DoubledTopProduct(x: Byte)
    ensures Mul2(Product(x, 0x80)) == Product(x, 0x1B)
  {
    hide Mul2, Product;
    ProductOne(x);
    DoubledLowProduct(x, 0x01);
    DoubledLowProduct(x, 0x02);
    DoubledLowProduct(x, 0x04);
    DoubledLowProduct(x, 0x08);
    DoubledLowProduct(x, 0x10);
    DoubledLowProduct(x, 0x20);
    DoubledLowProduct(x, 0x40);
    ProductAddsFactors(x, 0x01, 0x02);
    ProductAddsFactors(x, 0x08, 0x10);
    ProductAddsFactors(x, 0x03, 0x18);
    Reduction(x);
  }

  lemma Mul2ByTopBit(f: Byte)
    ensures f < 0x80 ==> Mul2(f) == f << 1
    ensures f >= 0x80 ==> f == Add(f & 0x7F, 0x80) && Mul2(f) == Add((f & 0x7F) << 1, 0x1B) && f & 0x7F < 0x80
  {
  }

  lemma DoubledProduct(x: Byte, f: Byte)
    ensures Mul2(Product(x, f)) == Product(x, Mul2(f))
  {
    hide Mul2, Product, Add;
    Mul2ByTopBit(f);
    if f < 0x80 {
      DoubledLowProduct(x, f);
    } else {
      var low := f & 0x7F;
      ProductAddsFactors(x, low, 0x80);
      Mul2Linear(Product(x, low), Product(x, 0x80));
      DoubledLowProduct(x, low);
      DoubledTopProduct(x);
      ProductAddsFactors(x, low << 1, 0x1B);
    }
  }

  /** Multiplication in the field is associative. */
  lemma {:induction false} ProductAssociates(x: Byte, f: Byte, c: Byte)
    ensures Product(Product(x, f), c) == Product(x, Product(f, c))
    decreases c
  {
    if c == 0 {
      ProductOne(x);
    } else {
      ProductAssociates(x, Mul2(f), c >> 1);
      ProductAssociatesStep(x, f, c);
    }
  }

  lemma ProductAssociatesStep(x: Byte, f: Byte, c: Byte)
    requires Product(Product(x, Mul2(f)), c >> 1) == Product(x, Product(Mul2(f), c >> 1))
    ensures Product(Product(x, f), c) == Product(x, Product(f, c))
  {
    hide Mul2, Product, Add;
    ProductStep(Product(x, f), c);
    ProductStep(f, c);
    DoubledProduct(x, f);
    ProductOne(x);
    ProductAddsFactors(x, LowBit(f, c), Product(Mul2(f), c >> 1));
  }

  // ---- Transformations of a block

  function XorBlocks(a: Block, b: Block): Block {
    seq(16, i requires 0 <= i < 16 => Add(a[i], b[i]))
  }

  function SubBytes(b: Block): Block {
    seq(16, i requires 0 <= i < 16 => SBox(b[i]))
  }

  function InvSubBytes(b: Block): Block {
    seq(16, i requires 0 <= i < 16 => InvSBox(b[i]))
  }

  function ShiftRows(b: Block): Block {
    [b[0], b[5], b[10], b[15],
     b[4], b[9], b[14], b[3],
     b[8], b[13], b[2], b[7],
     b[12], b[1], b[6], b[11]]
  }

  function InvShiftRows(b: Block): Block {
    [b[0], b[13], b[10], b[7],
     b[4], b[1], b[14], b[11],
     b[8], b[5], b[2], b[15],
     b[12], b[9], b[6], b[3]]
  }

  datatype Column = Column(a0: Byte, a1: Byte, a2: Byte, a3: Byte)

  function ColumnOf(b: Block, col: nat): Column
    requires col < 4
  {
    Column(b[4 * col], b[4 * col + 1], b[4 * col + 2], b[4 * col + 3])
  }

  /** The matrix with rows (2 3 1 1), (1 2 3 1), (1 1 2 3), (3 1 1 2). */
  function MixColumn(c: Column): Column {
    Column(
      Add(Add(Mul2(c.a0), Mul3(c.a1)), Add(c.a2, c.a3)),
      Add(Add(c.a0, Mul2(c.a1)), Add(Mul3(c.a2), c.a3)),
      Add(Add(c.a0, c.a1), Add(Mul2(c.a2), Mul3(c.a3))),
      Add(Add(Mul3(c.a0), c.a1), Add(c.a2, Mul2(c.a3))))
  }

  /** The matrix with rows (E B D 9), (9 E B D), (D 9 E B), (B D 9 E). */
  function InvMixColumn(c: Column): Column {
    Column(
      Add(Add(Product(c.a0, 0x0E), Product(c.a1, 0x0B)), Add(Product(c.a2, 0x0D), Product(c.a3, 0x09))),
      Add(Add(Product(c.a0, 0x09), Product(c.a1, 0x0E)), Add(Product(c.a2, 0x0B), Product(c.a3, 0x0D))),
      Add(Add(Product(c.a0, 0x0D), Product(c.a1, 0x09)), Add(Product(c.a2, 0x0E), Product(c.a3, 0x0B))),
      Add(Add(Product(c.a0, 0x0B), Product(c.a1, 0x0D)), Add(Product(c.a2, 0x09), Product(c.a3, 0x0E))))
  }

  function BlockOf(c: Column, d: Column, e: Column, f: Column): Block {
    [c.a0, c.a1, c.a2, c.a3, d.a0, d.a1, d.a2, d.a3, e.a0, e.a1, e.a2, e.a3, f.a0, f.a1, f.a2, f.a3]
  }

  function MixColumns(b: Block): Block {
    BlockOf(MixColumn(ColumnOf(b, 0)), MixColumn(ColumnOf(b, 1)), MixColumn(ColumnOf(b, 2)), MixColumn(ColumnOf(b, 3)))
  }

  function InvMixColumns(b: Block): Block {
    BlockOf(InvMixColumn(ColumnOf(b, 0)), InvMixColumn(ColumnOf(b, 1)),
            InvMixColumn(ColumnOf(b, 2)), InvMixColumn(ColumnOf(b, 3)))
  }

  // ---- Each transformation and its inverse cancel

  lemma XorCancels(b: Block, k: Block)
    ensures XorBlocks(XorBlocks(b, k), k) == b
  {
    hide Add;
    forall i | 0 <= i < 16
      ensures XorBlocks(XorBlocks(b, k), k)[i] == b[i]
    {
      AddCancels(b[i], k[i]);
    }
  }

  lemma SubBytesCancels(b: Block)
    ensures InvSubBytes(SubBytes(b)) == b
    ensures SubBytes(InvSubBytes(b)) == b
  {
    hide SBox, InvSBox;
    forall i | 0 <= i < 16
      ensures InvSubBytes(SubBytes(b))[i] == b[i] && SubBytes(InvSubBytes(b))[i] == b[i]
    {
      TablesInverse(b[i]);
    }
  }

  lemma ShiftRowsCancels(b: Block)
    ensures InvShiftRows(ShiftRows(b)) == b
    ensures ShiftRows(InvShiftRows(b)) == b
  {
  }

  /** Row r moves r columns to the left, the other way for the inverse. */
  lemma ShiftRowsMovesRows(b: Block, row: nat, col: nat)
    requires row < 4 && col < 4
    ensures ShiftRows(b)[4 * col + row] == b[4 * ((col + row) % 4) + row]
    ensures InvShiftRows(b)[4 * ((col + row) % 4) + row] == b[4 * col + row]
  {
    if
    case col == 0 =>
    case col == 1 =>
    case col == 2 =>
    case col == 3 =>
  }

  // The column matrices are linear over addition, so it is enough that they
  // cancel on the columns with a single byte that is not zero.

  function AddColumns(c: Column, d: Column): Column {
    Column(Add(c.a0, d.a0), Add(c.a1, d.a1), Add(c.a2, d.a2), Add(c.a3, d.a3))
  }

  lemma SumRegroups(p0: Byte, q0: Byte, p1: Byte, q1: Byte, p2: Byte, q2: Byte, p3: Byte, q3: Byte)
    ensures Add(Add(Add(p0, q0), Add(p1, q1)), Add(Add(p2, q2), Add(p3, q3)))
         == Add(Add(Add(p0, p1), Add(p2, p3)), Add(Add(q0, q1), Add(q2, q3)))
  {
    hide Add;
    AddRegroups(p0, q0, p1, q1);
    AddRegroups(p2, q2, p3, q3);
    AddRegroups(Add(p0, p1), Add(q0, q1), Add(p2, p3), Add(q2, q3));
  }

  lemma MixColumnLinear(c: Column, d: Column)
    ensures MixColumn(AddColumns(c, d)) == AddColumns(MixColumn(c), MixColumn(d))
  {
    hide Mul2, Mul3, Add;
    Mul2Linear(c.a0, d.a0); Mul3Linear(c.a0, d.a0);
    Mul2Linear(c.a1, d.a1); Mul3Linear(c.a1, d.a1);
    Mul2Linear(c.a2, d.a2); Mul3Linear(c.a2, d.a2);
    Mul2Linear(c.a3, d.a3); Mul3Linear(c.a3, d.a3);
    SumRegroups(Mul2(c.a0), Mul2(d.a0), Mul3(c.a1), Mul3(d.a1), c.a2, d.a2, c.a3, d.a3);
    SumRegroups(c.a0, d.a0, Mul2(c.a1), Mul2(d.a1), Mul3(c.a2), Mul3(d.a2), c.a3, d.a3);
    SumRegroups(c.a0, d.a0, c.a1, d.a1, Mul2(c.a2), Mul2(d.a2), Mul3(c.a3), Mul3(d.a3));
    SumRegroups(Mul3(c.a0), Mul3(d.a0), c.a1, d.a1, c.a2, d.a2, Mul2(c.a3), Mul2(d.a3));
  }

  lemma InverseRowLinear(c: Column, d: Column, f0: Byte, f1: Byte, f2: Byte, f3: Byte)
    ensures Add(Add(Product(Add(c.a0, d.a0), f0), Product(Add(c.a1, d.a1), f1)),
                Add(Product(Add(c.a2, d.a2), f2), Product(Add(c.a3, d.a3), f3)))
         == Add(Add(Add(Product(c.a0, f0), Product(c.a1, f1)), Add(Product(c.a2, f2), Product(c.a3, f3))),
                Add(Add(Product(d.a0, f0), Product(d.a1, f1)), Add(Product(d.a2, f2), Product(d.a3, f3))))
  {
    hide Product, Add;
    ProductLinear(c.a0, d.a0, f0);
    ProductLinear(c.a1, d.a1, f1);
    ProductLinear(c.a2, d.a2, f2);
    ProductLinear(c.a3, d.a3, f3);
    SumRegroups(Product(c.a0, f0), Product(d.a0, f0), Product(c.a1, f1), Product(d.a1, f1),
                Product(c.a2, f2), Product(d.a2, f2), Product(c.a3, f3), Product(d.a3, f3));
  }

  lemma InvMixColumnLinear(c: Column, d: Column)
    ensures InvMixColumn(AddColumns(c, d)) == AddColumns(InvMixColumn(c), InvMixColumn(d))
  {
    hide Product, Add;
    InverseRowLinear(c, d, 0x0E, 0x0B, 0x0D, 0x09);
    InverseRowLinear(c, d, 0x09, 0x0E, 0x0B, 0x0D);
    InverseRowLinear(c, d, 0x0D, 0x09, 0x0E, 0x0B);
    InverseRowLinear(c, d, 0x0B, 0x0D, 0x09, 0x0E);
  }

  predicate Cancels(c: Column) {
    InvMixColumn(MixColumn(c)) == c == MixColumn(InvMixColumn(c))
  }

  // They also commute with multiplication by a byte, so units are enough.

  function Multiples(x: Byte, f: Column): Column {
    Column(Product(x, f.a0), Product(x, f.a1), Product(x, f.a2), Product(x, f.a3))
  }

  lemma ProductAddsFourFactors(x: Byte, f0: Byte, f1: Byte, f2: Byte, f3: Byte)
    ensures Product(x, Add(Add(f0, f1), Add(f2, f3)))
         == Add(Add(Product(x, f0), Product(x, f1)), Add(Product(x, f2), Product(x, f3)))
  {
    hide Product, Add;
    ProductAddsFactors(x, f0, f1);
    ProductAddsFactors(x, f2, f3);
    ProductAddsFactors(x, Add(f0, f1), Add(f2, f3));
  }

  lemma MixColumnOfMultiples(x: Byte, f: Column)
    ensures MixColumn(Multiples(x, f)) == Multiples(x, MixColumn(f))
  {
    hide Mul2, Product, Add;
    DoubledProduct(x, f.a0); ProductAddsFactors(x, Mul2(f.a0), f.a0);
    DoubledProduct(x, f.a1); ProductAddsFactors(x, Mul2(f.a1), f.a1);
    DoubledProduct(x, f.a2); ProductAddsFactors(x, Mul2(f.a2), f.a2);
    DoubledProduct(x, f.a3); ProductAddsFactors(x, Mul2(f.a3), f.a3);
    ProductAddsFourFactors(x, Mul2(f.a0), Mul3(f.a1), f.a2, f.a3);
    ProductAddsFourFactors(x, f.a0, Mul2(f.a1), Mul3(f.a2), f.a3);
    ProductAddsFourFactors(x, f.a0, f.a1, Mul2(f.a2), Mul3(f.a3));
    ProductAddsFourFactors(x, Mul3(f.a0), f.a1, f.a2, Mul2(f.a3));
  }

  lemma InverseRowOfMultiples(x: Byte, f: Column, c0: Byte, c1: Byte, c2: Byte, c3: Byte)
    ensures Add(Add(Product(Product(x, f.a0), c0), Product(Product(x, f.a1), c1)),
                Add(Product(Product(x, f.a2), c2), Product(Product(x, f.a3), c3)))
         == Product(x, Add(Add(Product(f.a0, c0), Product(f.a1, c1)), Add(Product(f.a2, c2), Product(f.a3, c3))))
  {
    hide Product, Add;
    ProductAssociates(x, f.a0, c0);
    ProductAssociates(x, f.a1, c1);
    ProductAssociates(x, f.a2, c2);
    ProductAssociates(x, f.a3, c3);
    ProductAddsFourFactors(x, Product(f.a0, c0), Product(f.a1, c1), Product(f.a2, c2), Product(f.a3, c3));
  }

  lemma InvMixColumnOfMultiples(x: Byte, f: Column)
    ensures InvMixColumn(Multiples(x, f)) == Multiples(x, InvMixColumn(f))
  {
    hide Product, Add;
    InverseRowOfMultiples(x, f, 0x0E, 0x0B, 0x0D, 0x09);
    InverseRowOfMultiples(x, f, 0x09, 0x0E, 0x0B, 0x0D);
    InverseRowOfMultiples(x, f, 0x0D, 0x09, 0x0E, 0x0B);
    InverseRowOfMultiples(x, f, 0x0B, 0x0D, 0x09, 0x0E);
  }

  lemma SmallProducts(f: Byte)
    requires f < 4
    ensures Product(f, 0x0E) == Add(f << 1, Add(f << 2, f << 3))
    ensures Product(f, 0x0B) == Add(f, Add(f << 1, f << 3))
    ensures Product(f, 0x0D) == Add(f, Add(f << 2, f << 3))
    ensures Product(f, 0x09) == Add(f, f << 3)
  {
    Mul2ByTopBit(f);
    Mul2ByTopBit(f << 1);
    Mul2ByTopBit(f << 2);
    hide Mul2;
    ProductOne(f << 3);
    assert Product(f << 2, 2) == f << 3 && Product(f << 2, 3) == Add(f << 2, f << 3);
    assert Product(f << 1, 4) == f << 3 && Product(f << 1, 5) == Add(f << 1, f << 3);
    assert Product(f << 1, 6) == Add(f << 2, f << 3) && Product(f << 1, 7) == Add(f << 1, Add(f << 2, f << 3));
  }

  lemma UnitCancels(u: Column, m: Column, w: Column)
    requires (u, m, w) in {
      (Column(1, 0, 0, 0), Column(2, 1, 1, 3), Column(0x0E, 0x09, 0x0D, 0x0B)),
      (Column(0, 1, 0, 0), Column(3, 2, 1, 1), Column(0x0B, 0x0E, 0x09, 0x0D)),
      (Column(0, 0, 1, 0), Column(1, 3, 2, 1), Column(0x0D, 0x0B, 0x0E, 0x09)),
      (Column(0, 0, 0, 1), Column(1, 1, 3, 2), Column(0x09, 0x0D, 0x0B, 0x0E))}
    ensures Cancels(u)
  {
    hide Product;
    SmallProducts(0);
    SmallProducts(1);
    assert MixColumn(u) == m;
    assert MixColumn(w) == u;
    SmallProducts(2);
    SmallProducts(3);
  }

  lemma UnitsCancel()
    ensures Cancels(Column(1, 0, 0, 0)) && Cancels(Column(0, 1, 0, 0))
    ensures Cancels(Column(0, 0, 1, 0)) && Cancels(Column(0, 0, 0, 1))
  {
    hide Cancels;
    UnitCancels(Column(1, 0, 0, 0), Column(2, 1, 1, 3), Column(0x0E, 0x09, 0x0D, 0x0B));
    UnitCancels(Column(0, 1, 0, 0), Column(3, 2, 1, 1), Column(0x0B, 0x0E, 0x09, 0x0D));
    UnitCancels(Column(0, 0, 1, 0), Column(1, 3, 2, 1), Column(0x0D, 0x0B, 0x0E, 0x09));
    UnitCancels(Column(0, 0, 0, 1), Column(1, 1, 3, 2), Column(0x09, 0x0D, 0x0B, 0x0E));
  }

  lemma MultiplesCancel(x: Byte, f: Column)
    requires Cancels(f)
    ensures Cancels(Multiples(x, f))
  {
    hide MixColumn, InvMixColumn, Multiples;
    MixColumnOfMultiples(x, f);
    InvMixColumnOfMultiples(x, MixColumn(f));
    InvMixColumnOfMultiples(x, f);
    MixColumnOfMultiples(x, InvMixColumn(f));
  }

  lemma SingleByteCancels(x: Byte)
    ensures Cancels(Column(x, 0, 0, 0)) && Cancels(Column(0, x, 0, 0))
    ensures Cancels(Column(0, 0, x, 0)) && Cancels(Column(0, 0, 0, x))
  {
    hide Product, Cancels;
    ProductOne(x);
    UnitsCancel();
    MultiplesCancel(x, Column(1, 0, 0, 0));
    MultiplesCancel(x, Column(0, 1, 0, 0));
    MultiplesCancel(x, Column(0, 0, 1, 0));
    MultiplesCancel(x, Column(0, 0, 0, 1));
  }

  lemma SumCancels(c: Column, d: Column)
    requires Cancels(c) && Cancels(d)
    ensures Cancels(AddColumns(c, d))
  {
    hide MixColumn, InvMixColumn, AddColumns;
    MixColumnLinear(c, d);
    InvMixColumnLinear(MixColumn(c), MixColumn(d));
    InvMixColumnLinear(c, d);
    MixColumnLinear(InvMixColumn(c), InvMixColumn(d));
  }

  /** Over GF(2^8) the two column matrices are inverse to each other. */
  lemma MixColumnCancels(c: Column)
    ensures InvMixColumn(MixColumn(c)) == c
    ensures MixColumn(InvMixColumn(c)) == c
  {
    hide MixColumn, InvMixColumn;
    var e0, e1, e2, e3 := Column(c.a0, 0, 0, 0), Column(0, c.a1, 0, 0), Column(0, 0, c.a2, 0), Column(0, 0, 0, c.a3);
    SingleByteCancels(c.a0);
    SingleByteCancels(c.a1);
    SingleByteCancels(c.a2);
    SingleByteCancels(c.a3);
    SumCancels(e0, e1);
    SumCancels(e2, e3);
    SumCancels(AddColumns(e0, e1), AddColumns(e2, e3));
    assert c == AddColumns(AddColumns(e0, e1), AddColumns(e2, e3));
  }

  lemma ColumnsOfBlock(c: Column, d: Column, e: Column, f: Column)
    ensures ColumnOf(BlockOf(c, d, e, f), 0) == c && ColumnOf(BlockOf(c, d, e, f), 1) == d
    ensures ColumnOf(BlockOf(c, d, e, f), 2) == e && ColumnOf(BlockOf(c, d, e, f), 3) == f
  {
  }

  lemma BlockOfColumns(b: Block)
    ensures BlockOf(ColumnOf(b, 0), ColumnOf(b, 1), ColumnOf(b, 2), ColumnOf(b, 3)) == b
  {
  }

  lemma MixColumnsCancels(b: Block)
    ensures InvMixColumns(MixColumns(b)) == b
    ensures MixColumns(InvMixColumns(b)) == b
  {
    hide MixColumn, InvMixColumn, BlockOf, ColumnOf;
    var c, d, e, f := ColumnOf(b, 0), ColumnOf(b, 1), ColumnOf(b, 2), ColumnOf(b, 3);
    MixColumnCancels(c);
    MixColumnCancels(d);
    MixColumnCancels(e);
    MixColumnCancels(f);
    ColumnsOfBlock(MixColumn(c), MixColumn(d), MixColumn(e), MixColumn(f));
    ColumnsOfBlock(InvMixColumn(c), InvMixColumn(d), InvMixColumn(e), InvMixColumn(f));
    BlockOfColumns(b);
  }

  // ---- The routines themselves, which change a block in place

  method XorBlock128(value: array<Byte>, operand: Block)
    requires value.Length == 16
    modifies value
    ensures value[..] == XorBlocks(old(value[..]), operand)
  {
    for i := 0 to 16
      invariant forall j | 0 <= j < i :: value[j] == Add(old(value[j]), operand[j])
      invariant forall j | i <= j < 16 :: value[j] == old(value[j])
    {
      value[i] := value[i] ^ operand[i];
    }
  }

  method SubBytesBlock128(value: array<Byte>)
    requires value.Length == 16
    modifies value
    ensures value[..] == SubBytes(old(value[..]))
  {
    hide SBox;
    for i := 0 to 16
      invariant forall j | 0 <= j < i :: value[j] == SBox(old(value[j]))
      invariant forall j | i <= j < 16 :: value[j] == old(value[j])
    {
      value[i] := SBox(value[i]);
    }
  }

  method InvSubBytesBlock128(value: array<Byte>)
    requires value.Length == 16
    modifies value
    ensures value[..] == InvSubBytes(old(value[..]))
  {
    hide InvSBox;
    for i := 0 to 16
      invariant forall j | 0 <= j < i :: value[j] == InvSBox(old(value[j]))
      invariant forall j | i <= j < 16 :: value[j] == old(value[j])
    {
      value[i] := InvSBox(value[i]);
    }
  }

  /** Four bytes move one place along the cycle i <- j <- k <- l <- i. */
  method RotateBytes(value: array<Byte>, i: nat, j: nat, k: nat, l: nat)
    requires i < value.Length && j < value.Length && k < value.Length && l < value.Length
    requires i != j && i != k && i != l && j != k && j != l && k != l
    modifies value
    ensures var b := old(value[..]); value[..] == b[i := b[j]][j := b[k]][k := b[l]][l := b[i]]
  {
    var tmp := value[i];
    value[i] := value[j];
    value[j] := value[k];
    value[k] := value[l];
    value[l] := tmp;
  }

  method SwapBytes(value: array<Byte>, i: nat, j: nat)
    requires i < value.Length && j < value.Length && i != j
    modifies value
    ensures var b := old(value[..]); value[..] == b[i := b[j]][j := b[i]]
  {
    var tmp := value[i];
    value[i] := value[j];
    value[j] := tmp;
  }

  method ShiftRowsBlock128(value: array<Byte>)
    requires value.Length == 16
    modifies value
    ensures value[..] == ShiftRows(old(value[..]))
  {
    RotateBytes(value, 1, 5, 9, 13);   // row 1: one column to the left
    SwapBytes(value, 2, 10);           // row 2: two columns
    SwapBytes(value, 6, 14);
    RotateBytes(value, 15, 11, 7, 3);  // row 3: three to the left is one to the right
  }

  method InvShiftRowsBlock128(value: array<Byte>)
    requires value.Length == 16
    modifies value
    ensures value[..] == InvShiftRows(old(value[..]))
  {
    RotateBytes(value, 13, 9, 5, 1);   // row 1: one column to the right
    SwapBytes(value, 2, 10);           // row 2: two columns
    SwapBytes(value, 6, 14);
    RotateBytes(value, 3, 7, 11, 15);  // row 3: one to the left
  }

  /** The bit-by-bit multiplication loop computes the field product. */
  method Mul(x: Byte, factor: Byte) returns (res: Byte)
    ensures res == Product(x, factor)
  {
    hide Mul2, Product, Add;
    var multiple, rest := x, factor;
    res := 0;
    AddCancels(Product(x, factor), 0);
    while rest != 0
      invariant Product(x, factor) == Add(res, Product(multiple, rest))
      decreases rest
    {
      ProductStep(multiple, rest);
      AddAssociates(res, LowBit(multiple, rest), Product(Mul2(multiple), rest >> 1));
      AddCancels(res, 0);
      if rest & 1 != 0 {
        res := Add(res, multiple);
      }
      multiple := Mul2(multiple);
      rest := rest >> 1;
    }
    ProductOne(multiple);
    AddCancels(res, 0);
  }

  predicate ColumnsMapped(f: Column -> Column, before: Block, now: Block, done: nat)
    requires done <= 4
  {
    forall col: nat | col < 4 :: ColumnOf(now, col) == if col < done then f(ColumnOf(before, col)) else ColumnOf(before, col)
  }

  /** Writing one column leaves the other three as they are. */
  method SetColumn(block: array<Byte>, col: nat, c: Column)
    requires block.Length == 16 && col < 4
    modifies block
    ensures ColumnOf(block[..], col) == c
    ensures forall other: nat | other < 4 && other != col :: ColumnOf(block[..], other) == old(ColumnOf(block[..], other))
  {
    block[4 * col] := c.a0;
    block[4 * col + 1] := c.a1;
    block[4 * col + 2] := c.a2;
    block[4 * col + 3] := c.a3;
  }

  lemma AllColumnsMapped(b: Block, now: Block)
    ensures ColumnsMapped(MixColumn, b, now, 4) ==> now == MixColumns(b)
    ensures ColumnsMapped(InvMixColumn, b, now, 4) ==> now == InvMixColumns(b)
  {
    hide MixColumn, InvMixColumn, ColumnOf, BlockOf;
    BlockOfColumns(now);
  }

  method MixColumnsBlock128(block: array<Byte>)
    requires block.Length == 16
    modifies block
    ensures block[..] == MixColumns(old(block[..]))
  {
    hide MixColumn, MixColumns, BlockOf;
    for col := 0 to 4
      invariant ColumnsMapped(MixColumn, old(block[..]), block[..], col)
    {
      assert ColumnOf(block[..], col) == ColumnOf(old(block[..]), col);
      var a0, a1, a2, a3 := block[4 * col], block[4 * col + 1], block[4 * col + 2], block[4 * col + 3];
      var mixed := MixColumn(Column(a0, a1, a2, a3));
      SetColumn(block, col, mixed);
    }
    AllColumnsMapped(old(block[..]), block[..]);
  }

  method InverseRow(c: Column, f0: Byte, f1: Byte, f2: Byte, f3: Byte) returns (r: Byte)
    ensures r == Add(Add(Product(c.a0, f0), Product(c.a1, f1)), Add(Product(c.a2, f2), Product(c.a3, f3)))
  {
    hide Product, Mul2;
    var p0 := Mul(c.a0, f0);
    var p1 := Mul(c.a1, f1);
    var p2 := Mul(c.a2, f2);
    var p3 := Mul(c.a3, f3);
    r := Add(Add(p0, p1), Add(p2, p3));
  }

  method InvMixColumnsBlock128(block: array<Byte>)
    requires block.Length == 16
    modifies block
    ensures block[..] == InvMixColumns(old(block[..]))
  {
    hide InvMixColumns, BlockOf, Product, Add;
    for col := 0 to 4
      invariant ColumnsMapped(InvMixColumn, old(block[..]), block[..], col)
    {
      var c := Column(block[4 * col], block[4 * col + 1], block[4 * col + 2], block[4 * col + 3]);
      assert c == ColumnOf(block[..], col) == ColumnOf(old(block[..]), col);
      var c0 := InverseRow(c, 0x0E, 0x0B, 0x0D, 0x09);
      var c1 := InverseRow(c, 0x09, 0x0E, 0x0B, 0x0D);
      var c2 := InverseRow(c, 0x0D, 0x09, 0x0E, 0x0B);
      var c3 := InverseRow(c, 0x0B, 0x0D, 0x09, 0x0E);
      SetColumn(block, col, Column(c0, c1, c2, c3));
      assert Column(c0, c1, c2, c3) == InvMixColumn(c);
      hide InvMixColumn;
    }
    AllColumnsMapped(old(block[..]), block[..]);
  }
}
