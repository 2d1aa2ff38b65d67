/** Diffie-Hellman key agreement over natural numbers, with fixed-width little-endian keys. */
module Dh {
  import opened Arithmetic
  import opened Bytes

  // ---- Modular powers

  /** `mpz_powm` */
  function PowMod(b: nat, e: nat, p: nat): (r: nat)
    requires p > 0
    ensures r < p
  {
    Pow(b, e) % p
  }

  lemma {:induction false} PowAdds(b: nat, d: nat, e: nat)
    ensures Pow(b, d + e) == Pow(b, d) * Pow(b, e)
    decreases d
  {
    if d == 0 {
    } else {
      PowAdds(b, d - 1, e);
      assert Pow(b, d + e) == b * (Pow(b, d - 1) * Pow(b, e)) == (b * Pow(b, d - 1)) * Pow(b, e);
    }
  }

  lemma {:induction false} PowMultiplies(b: nat, d: nat, e: nat)
    ensures Pow(Pow(b, d), e) == Pow(b, d * e)
    decreases e
  {
    if e == 0 {
      assert d * e == 0;
    } else {
      PowMultiplies(b, d, e - 1);
      PowAdds(b, d, d * (e - 1));
      assert d + d * (e - 1) == d * e;
    }
  }

  lemma ModOfMultiple(p: nat, k: int, m: int)
    requires p > 0
    ensures (p * k + m) % p == m % p
  {
    var a, b := (p * k + m) / p, m / p;
    assert (p * k + m) - p * a == (p * k + m) % p;
    assert m - p * b == m % p;
    assert p * (k + b - a) == (p * k + m) % p - m % p by {
      assert p * (k + b - a) == p * k + p * b - p * a;
    }
    MultiplesAreFarApart(p, k + b - a);
  }

  function MulMod(a: nat, b: nat, p: nat): nat
    requires p > 0
  {
    (a * b) % p
  }

  lemma ModOfProduct(a: nat, b: nat, p: nat)
    requires p > 0
    ensures MulMod(a % p, b % p, p) == MulMod(a, b, p)
  {
    var q, r, s, t := a / p, a % p, b / p, b % p;
    assert a * b == p * (q * b + r * s) + r * t by {
      assert a == p * q + r && b == p * s + t;
      assert a * b == (p * q + r) * b == p * q * b + r * b;
      assert r * b == r * (p * s + t) == p * (r * s) + r * t;
      assert p * q * b == p * (q * b);
    }
    ModOfMultiple(p, q * b + r * s, r * t);
  }

  lemma ModTwice(b: nat, p: nat)
    requires p > 0
    ensures (b % p) % p == b % p
  {
  }

  lemma ModOfStep(b: nat, r: nat, s: nat, p: nat)
    requires p > 0 && r % p == s % p
    ensures MulMod(b % p, r, p) == MulMod(b, s, p)
  {
    hide MulMod;
    ModTwice(b, p);
    ModOfProduct(b % p, r, p);
    ModOfProduct(b, s, p);
  }

  /** A base may be reduced before it is raised. */
  lemma {:induction false} PowOfMod(b: nat, e: nat, p: nat)
    requires p > 0
    ensures Pow(b % p, e) % p == Pow(b, e) % p
  {
    if e == 0 {
    } else {
      PowOfMod(b, e - 1, p);
      ModOfStep(b, Pow(b % p, e - 1), Pow(b, e - 1), p);
    }
  }

  /** Either order of the two exponents gives the same shared value. */
  lemma PowersCommute(g: nat, x: nat, y: nat, p: nat)
    requires p > 0
    ensures PowMod(PowMod(g, x, p), y, p) == PowMod(PowMod(g, y, p), x, p) == Pow(g, x * y) % p
  {
    PowOfMod(Pow(g, x), y, p);
    PowOfMod(Pow(g, y), x, p);
    PowMultiplies(g, x, y);
    PowMultiplies(g, y, x);
    assert x * y == y * x;
  }

  // ---- Import and export

  /** `mpz_import` with the least significant byte first */
  function Import(bytes: seq<Byte>): nat {
    if bytes == [] then 0 else bytes[0] as nat + 256 * Import(bytes[1..])
  }

  /** `mpz_export`: as many bytes as the value needs, none for zero */
  function Digits(v: nat): seq<Byte> {
    if v == 0 then [] else [ByteOf(v % 256)] + Digits(v / 256)
  }

  function Export(v: nat, size: nat): (r: seq<Byte>)
    requires |Digits(v)| <= size
    ensures |r| == size
  {
    Digits(v) + Zeros(size - |Digits(v)|)
  }

  lemma {:induction false} DigitsFit(v: nat, size: nat)
    ensures v < Pow(256, size) <==> |Digits(v)| <= size
    decreases size
  {
    if size == 0 {
    } else if v == 0 {
      PowPositive(256, size);
    } else {
      DigitsFit(v / 256, size - 1);
    }
  }

  lemma {:induction false} ImportPadded(v: nat, zeros: nat)
    ensures Import(Digits(v) + Zeros(zeros)) == v
  {
    hide ByteOf;
    if v == 0 {
      assert Digits(v) + Zeros(zeros) == Zeros(zeros);
      ImportZeros(zeros);
    } else {
      ImportPadded(v / 256, zeros);
      var digits := Digits(v) + Zeros(zeros);
      assert digits[1..] == Digits(v / 256) + Zeros(zeros);
    }
  }

  lemma {:induction false} ImportZeros(n: nat)
    ensures Import(Zeros(n)) == 0
  {
    if n > 0 {
      assert Zeros(n)[1..] == Zeros(n - 1);
      ImportZeros(n - 1);
    }
  }

  /** Byte k of a number's bytes is its digit k in base 256, the lowest first. */
  lemma {:induction false} ImportDigits(bytes: seq<Byte>, k: nat)
    requires k < |bytes|
    ensures bytes[k] as nat == DigitAt(Import(bytes), k)
  {
    ByteOfValue(bytes[0]);
    DivisionIs(Import(bytes), 256, Import(bytes[1..]), bytes[0] as nat);
    if k > 0 {
      ImportDigits(bytes[1..], k - 1);
      PowPositive(256, k - 1);
      DivTwice(Import(bytes), Pow(256, k - 1));
    }
  }

  lemma {:induction false} ImportIsZero(bytes: seq<Byte>)
    ensures Import(bytes) > 0 <==> exists k :: 0 <= k < |bytes| && bytes[k] != 0
  {
    if bytes != [] {
      ImportIsZero(bytes[1..]);
      assert forall k | 0 < k < |bytes| :: bytes[k] == bytes[1..][k - 1];
    }
  }

  /** Export loses nothing, zero and short values included. */
  lemma ImportExport(v: nat, size: nat)
    requires v < Pow(256, size)
    ensures |Digits(v)| <= size && Import(Export(v, size)) == v
  {
    DigitsFit(v, size);
    ImportPadded(v, size - |Digits(v)|);
  }

  /** Every byte string is the export of the number it imports to. */
  lemma {:induction false} ExportImport(bytes: seq<Byte>)
    ensures |Digits(Import(bytes))| <= |bytes| && Export(Import(bytes), |bytes|) == bytes
  {
    hide ByteOf;
    if bytes == [] {
    } else {
      ExportImport(bytes[1..]);
      ByteOfValue(bytes[0]);
      FirstDigit(Import(bytes), bytes[0], Import(bytes[1..]), |bytes|);
    }
  }

  /** The export of a number starts with its lowest digit, and the rest is the export of the rest. */
  lemma FirstDigit(v: nat, b: Byte, rest: nat, size: nat)
    requires v == b as nat + 256 * rest && b as nat < 256 && ByteOf(b as nat) == b
    requires size > 0 && |Digits(rest)| <= size - 1
    ensures |Digits(v)| <= size && Export(v, size) == [b] + Export(rest, size - 1)
  {
    hide ByteOf;
    DivisionIs(v, 256, rest, b as nat);
    if v == 0 {
      assert b == 0 && Digits(rest) == [];
      assert Zeros(size) == [0] + Zeros(size - 1);
    } else {
      assert Digits(v) == [b] + Digits(rest);
      var zeros := Zeros(size - 1 - |Digits(rest)|);
      hide Digits, Zeros;
      assert ([b] + Digits(rest)) + zeros == [b] + (Digits(rest) + zeros);
    }
  }

  /** `export_mpz_fixed`: the exported digits, then zeros up to the full size. */
  method ExportMpzFixed(out: array<Byte>, val: nat, size: nat)
    requires size <= out.Length && val < Pow(256, size)
    modifies out
    ensures |Digits(val)| <= size && out[..size] == Export(val, size)
    ensures out[size..] == old(out[size..])
  {
    DigitsFit(val, size);
    var count := MpzExport(out, val, size);
    if count < size {
      var i := count;
      while i < size
        invariant count <= i <= size
        invariant out[..i] == Digits(val) + Zeros(i - count)
        invariant out[size..] == old(out[size..])
      {
        out[i] := 0;
        i := i + 1;
      }
    }
  }

  method MpzExport(out: array<Byte>, val: nat, ghost size: nat) returns (count: nat)
    requires |Digits(val)| <= size <= out.Length
    modifies out
    ensures count == |Digits(val)| && out[..count] == Digits(val)
    ensures out[size..] == old(out[size..])
  {
    var rest := val;
    count := 0;
    while rest > 0
      invariant count + |Digits(rest)| == |Digits(val)|
      invariant out[..count] + Digits(rest) == Digits(val)
      invariant out[size..] == old(out[size..])
    {
      out[count] := ByteOf(rest % 256);
      count := count + 1;
      rest := rest / 256;
    }
  }

  // ---- Keys

  /** The modulus and generator that all parties share; the modulus fits the key size. */
  class DhGlobals {
    var p: nat
    var g: nat

    predicate Valid()
      reads this
    {
      0 < p < Pow(256, ASYMMETRIC_KEY_BYTES)
    }

    constructor (p: nat, g: nat)
      requires 0 < p < Pow(256, ASYMMETRIC_KEY_BYTES)
      ensures Valid() && this.p == p && this.g == g
    {
      this.p := p;
      this.g := g;
    }

    /** `set_prime_dh`: any 256 bytes are taken over, and they are a modulus in range unless all are zero. */
    method SetPrimeDh(value: KeyBytes)
      modifies this
      ensures p == Import(value) && g == old(g)
      ensures Valid() <==> exists k :: 0 <= k < |value| && value[k] != 0
    {
      ExportImport(value);
      DigitsFit(Import(value), ASYMMETRIC_KEY_BYTES);
      ImportIsZero(value);
      p := Import(value);
    }

    /** `get_prime_dh` */
    method GetPrimeDh(res: array<Byte>)
      requires Valid() && res.Length == ASYMMETRIC_KEY_BYTES
      modifies res
      ensures Import(res[..]) == p
    {
      ExportMpzFixed(res, p, ASYMMETRIC_KEY_BYTES);
      ImportExport(p, ASYMMETRIC_KEY_BYTES);
      assert res[..] == res[..ASYMMETRIC_KEY_BYTES];
    }
  }

  class DhIdentityKey {
    var thisPrivate: nat
    var thisPublic: nat

    predicate Valid(globals: DhGlobals)
      reads this, globals
    {
      globals.Valid() && thisPublic == Pow(globals.g, thisPrivate) % globals.p
    }

    /** `set_dh_prime_identity_key` on freshly created storage */
    constructor (val: KeyBytes, globals: DhGlobals)
      requires globals.Valid()
      ensures Valid(globals) && thisPrivate == Import(val)
    {
      thisPrivate := Import(val);
      thisPublic := PowMod(globals.g, Import(val), globals.p);
    }

    /** `get_dh_public_identity_key` */
    method GetDhPublicIdentityKey(res: array<Byte>, ghost globals: DhGlobals)
      requires Valid(globals) && res.Length == ASYMMETRIC_KEY_BYTES
      modifies res
      ensures res[..] == PublicKeyBytes(globals.g, thisPrivate, globals.p)
      ensures Import(res[..]) == Pow(globals.g, thisPrivate) % globals.p
    {
      ImportExport(thisPublic, ASYMMETRIC_KEY_BYTES);
      ExportMpzFixed(res, thisPublic, ASYMMETRIC_KEY_BYTES);
      assert res[..] == res[..ASYMMETRIC_KEY_BYTES];
    }
  }

  class DhSessionKey {
    const identity: DhIdentityKey
    var otherPublic: nat
    var commonKey: nat

    constructor (identity: DhIdentityKey)
      ensures this.identity == identity
    {
      this.identity := identity;
      otherPublic, commonKey := 0, 0;
    }

    /** `set_dh_key_other_public` */
    method SetDhKeyOtherPublic(val: KeyBytes, globals: DhGlobals)
      requires globals.Valid()
      modifies this
      ensures otherPublic == Import(val)
      ensures commonKey == Pow(Import(val), identity.thisPrivate) % globals.p
    {
      otherPublic := Import(val);
      commonKey := PowMod(otherPublic, identity.thisPrivate, globals.p);
    }

    /** `get_dh_common_key` */
    method GetDhCommonKey(res: array<Byte>, ghost val: KeyBytes, ghost globals: DhGlobals)
      requires globals.Valid() && commonKey == Pow(Import(val), identity.thisPrivate) % globals.p
      requires res.Length == ASYMMETRIC_KEY_BYTES
      modifies res
      ensures res[..] == CommonKeyBytes(val, identity.thisPrivate, globals.p)
      ensures Import(res[..]) == Pow(Import(val), identity.thisPrivate) % globals.p
    {
      ImportExport(commonKey, ASYMMETRIC_KEY_BYTES);
      ExportMpzFixed(res, commonKey, ASYMMETRIC_KEY_BYTES);
      assert res[..] == res[..ASYMMETRIC_KEY_BYTES];
    }
  }

  function ExportKey(v: nat, p: nat): KeyBytes
    requires v < p < Pow(256, ASYMMETRIC_KEY_BYTES)
  {
    DigitsFit(v, ASYMMETRIC_KEY_BYTES);
    Export(v, ASYMMETRIC_KEY_BYTES)
  }

  function PublicKeyBytes(g: nat, x: nat, p: nat): KeyBytes
    requires 0 < p < Pow(256, ASYMMETRIC_KEY_BYTES)
  {
    ExportKey(PowMod(g, x, p), p)
  }

  function CommonKeyBytes(other: KeyBytes, x: nat, p: nat): KeyBytes
    requires 0 < p < Pow(256, ASYMMETRIC_KEY_BYTES)
  {
    ExportKey(PowMod(Import(other), x, p), p)
  }

  /** Each side, importing what the other exported, arrives at the export of g^(xy) mod p. */
  lemma KeyAgreement(g: nat, x: nat, y: nat, p: nat)
    requires 0 < p < Pow(256, ASYMMETRIC_KEY_BYTES)
    ensures CommonKeyBytes(PublicKeyBytes(g, y, p), x, p) == CommonKeyBytes(PublicKeyBytes(g, x, p), y, p)
    ensures Import(CommonKeyBytes(PublicKeyBytes(g, y, p), x, p)) == Pow(g, x * y) % p
  {
    hide Pow, PowMod, Export, Import, Digits;
    ImportExport(PowMod(g, x, p), ASYMMETRIC_KEY_BYTES);
    ImportExport(PowMod(g, y, p), ASYMMETRIC_KEY_BYTES);
    ImportExport(Pow(g, x * y) % p, ASYMMETRIC_KEY_BYTES);
    PowersCommute(g, x, y, p);
    PowersCommute(g, y, x, p);
  }
}
