/** SHA-256, FIPS 180-4: padding (section 5.1.1) and hashing (section 6.2.2). */
module Sha256 {
  import opened Arithmetic
  import opened Bytes

  const BLOCK_SIZE_BYTES := 64

  const ROUND_CONSTANTS: seq<seq<bv32>> := [
    [0x428a2f98, 0x71374491, 0xb5c0fbcf, 0xe9b5dba5, 0x3956c25b, 0x59f111f1, 0x923f82a4, 0xab1c5ed5],
    [0xd807aa98, 0x12835b01, 0x243185be, 0x550c7dc3, 0x72be5d74, 0x80deb1fe, 0x9bdc06a7, 0xc19bf174],
    [0xe49b69c1, 0xefbe4786, 0x0fc19dc6, 0x240ca1cc, 0x2de92c6f, 0x4a7484aa, 0x5cb0a9dc, 0x76f988da],
    [0x983e5152, 0xa831c66d, 0xb00327c8, 0xbf597fc7, 0xc6e00bf3, 0xd5a79147, 0x06ca6351, 0x14292967],
    [0x27b70a85, 0x2e1b2138, 0x4d2c6dfc, 0x53380d13, 0x650a7354, 0x766a0abb, 0x81c2c92e, 0x92722c85],
    [0xa2bfe8a1, 0xa81a664b, 0xc24b8b70, 0xc76c51a3, 0xd192e819, 0xd6990624, 0xf40e3585, 0x106aa070],
    [0x19a4c116, 0x1e376c08, 0x2748774c, 0x34b0bcb5, 0x391c0cb3, 0x4ed8aa4a, 0x5b9cca4f, 0x682e6ff3],
    [0x748f82ee, 0x78a5636f, 0x84c87814, 0x8cc70208, 0x90befffa, 0xa4506ceb, 0xbef9a3f7, 0xc67178f2]
  ]

  // ---- Padding

  /** `v` in n bytes, most significant first. */
  function BigEndian(v: nat, n: nat): (r: seq<Byte>)
    ensures |r| == n
  {
    if n == 0 then [] else BigEndian(v / 256, n - 1) + [ByteOf(v % 256)]
  }

  function PadLength(n: nat): (z: nat)
    ensures z < BLOCK_SIZE_BYTES && (n + 1 + z + 8) % BLOCK_SIZE_BYTES == 0
  {
    (BLOCK_SIZE_BYTES - (n + 1 + 8) % BLOCK_SIZE_BYTES) % BLOCK_SIZE_BYTES
  }

  /** The message, a one bit, zero bits up to 8 bytes short of a whole block, and the length in bits. */
  function Pad(msg: seq<Byte>): seq<Byte> {
    msg + [0x80] + Zeros(PadLength(|msg|)) + BigEndian(8 * |msg| % 0x1_0000_0000_0000_0000, 8)
  }

  /** The padded length is the least multiple of 64 with room for the one bit and the length. */
  lemma PadIsLeast(msg: seq<Byte>)
    ensures |Pad(msg)| % BLOCK_SIZE_BYTES == 0
    ensures forall n: nat | n % BLOCK_SIZE_BYTES == 0 && n >= |msg| + 1 + 8 :: |Pad(msg)| <= n
    ensures |msg| % BLOCK_SIZE_BYTES == 0 ==> |Pad(msg)| == |msg| + BLOCK_SIZE_BYTES
  {
    hide BigEndian, PadLength;
    var p := |Pad(msg)|;
    assert p == |msg| + 1 + PadLength(|msg|) + 8;
    forall n: nat | n % BLOCK_SIZE_BYTES == 0 && n >= |msg| + 1 + 8
      ensures p <= n
    {
      assert p == 64 * (p / 64) && n == 64 * (n / 64);
      assert p < n + 64;
    }
  }

  lemma {:induction false} BigEndianInjective(v: nat, w: nat, n: nat)
    requires v < Pow(256, n) && w < Pow(256, n) && BigEndian(v, n) == BigEndian(w, n)
    ensures v == w
  {
    hide ByteOf;
    if n > 0 {
      var a, b := BigEndian(v / 256, n - 1), BigEndian(w / 256, n - 1);
      assert BigEndian(v, n)[..n - 1] == a && BigEndian(w, n)[..n - 1] == b;
      assert BigEndian(v, n)[n - 1] == ByteOf(v % 256) && BigEndian(w, n)[n - 1] == ByteOf(w % 256);
      assert ByteOf(v % 256) as nat == v % 256 && ByteOf(w % 256) as nat == w % 256;
      BigEndianInjective(v / 256, w / 256, n - 1);
    }
  }

  lemma EightBytes()
    ensures Pow(256, 8) == 0x1_0000_0000_0000_0000
  {
    assert Pow(256, 2) == 0x1_0000;
    assert Pow(256, 4) == 0x1_0000_0000;
    assert Pow(256, 6) == 0x1_0000_0000_0000;
  }

  /** What bytes say with the most significant first. */
  function BigEndianValue(bytes: seq<Byte>): nat {
    if bytes == [] then 0 else 256 * BigEndianValue(bytes[..|bytes| - 1]) + bytes[|bytes| - 1] as nat
  }

  lemma {:induction false} BigEndianReads(v: nat, n: nat)
    requires v < Pow(256, n)
    ensures BigEndianValue(BigEndian(v, n)) == v
  {
    hide ByteOf;
    if n > 0 {
      BigEndianReads(v / 256, n - 1);
      assert BigEndian(v, n)[..n - 1] == BigEndian(v / 256, n - 1);
      assert ByteOf(v % 256) as nat == v % 256;
    }
  }

  /** The padded message byte by byte: the message, a one bit and zero bits, and its length in bits in the last 8. */
  lemma PadIsPadded(msg: seq<Byte>)
    ensures var p := Pad(msg);
            && |p| >= |msg| + 9 && p[..|msg|] == msg && p[|msg|] == 0x80
            && (forall k | |msg| < k < |p| - 8 :: p[k] == 0)
            && BigEndianValue(p[|p| - 8..]) == 8 * |msg| % 0x1_0000_0000_0000_0000
  {
    hide BigEndian, PadLength, BigEndianValue;
    var bits := 8 * |msg| % 0x1_0000_0000_0000_0000;
    EightBytes();
    hide Pow;
    BigEndianReads(bits, 8);
    assert Pad(msg)[|Pad(msg)| - 8..] == BigEndian(bits, 8);
  }

  /** Messages whose bit length fits 64 bits have different paddings unless they are the same. */
  lemma PadInjective(m: seq<Byte>, n: seq<Byte>)
    requires 8 * |m| < 0x1_0000_0000_0000_0000 && 8 * |n| < 0x1_0000_0000_0000_0000
    requires Pad(m) == Pad(n)
    ensures m == n
  {
    hide BigEndian, PadLength;
    LengthField(m);
    LengthField(n);
    EightBytes();
    hide Pow;
    BigEndianInjective(8 * |m|, 8 * |n|, 8);
    hide Pad;
    assert m == Pad(m)[..|m|] && n == Pad(n)[..|n|] by { MessageField(m); MessageField(n); }
  }

  lemma LengthField(m: seq<Byte>)
    requires 8 * |m| < 0x1_0000_0000_0000_0000
    ensures |Pad(m)| >= 8 && Pad(m)[|Pad(m)| - 8..] == BigEndian(8 * |m|, 8)
  {
    hide BigEndian, PadLength;
  }

  lemma MessageField(m: seq<Byte>)
    ensures |Pad(m)| >= |m| && Pad(m)[..|m|] == m
  {
    hide BigEndian, PadLength;
  }

  lemma {:induction false} BigEndianAt(v: nat, n: nat, i: nat)
    requires i < n
    ensures BigEndian(v, n)[i] == ByteOf(DigitAt(v, n - 1 - i))
  {
    hide ByteOf;
    if i == n - 1 {
    } else {
      BigEndianAt(v / 256, n - 1, i);
      assert BigEndian(v, n)[i] == BigEndian(v / 256, n - 1)[i];
      PowPositive(256, n - 2 - i);
      DivTwice(v, Pow(256, n - 2 - i));
    }
  }

  /**
   * `hash_prepare_data_sha256`: pads a message where it lies, or returns 0 and
   * leaves the buffer alone when the padded message would not fit.
   */
  method HashPrepareDataSha256(data: array<Byte>, length: nat, maxLen: nat) returns (total: nat)
    requires length <= data.Length && maxLen <= data.Length
    modifies data
    ensures var padded := Pad(old(data[..length]));
            if |padded| <= maxLen then
              total == |padded| && data[..total] == padded && data[total..] == old(data[total..])
            else
              total == 0 && data[..] == old(data[..])
  {
    hide BigEndian, PadLength, Put;
    ghost var before := data[..];
    var padLen := PadLength(length);
    var totalLen := length + 1 + padLen + 8;
    var bitlen := 8 * length % 0x1_0000_0000_0000_0000;
    assert data[..length] == before[..length] && totalLen == |Pad(before[..length])|;
    if totalLen > maxLen {
      return 0;
    }
    PutInto(data, length, [0x80]);
    PutInto(data, length + 1, Zeros(padLen));
    PutBigEndian(data, totalLen - 8, bitlen);
    PaddedInPlace(before, length, Zeros(padLen), BigEndian(bitlen, 8));
    assert data[..totalLen] == data[..][..totalLen] && data[totalLen..] == data[..][totalLen..];
    total := totalLen;
  }

  lemma PaddedInPlace(before: seq<Byte>, length: nat, zeros: seq<Byte>, bits: seq<Byte>)
    requires length + 1 + |zeros| + |bits| <= |before|
    ensures var total := length + 1 + |zeros| + |bits|;
            var padded := Put(Put(Put(before, length, [0x80]), length + 1, zeros), length + 1 + |zeros|, bits);
            padded[..total] == before[..length] + [0x80] + zeros + bits && padded[total..] == before[total..]
  {
  }

  /** The eight bytes (bitlen >> (8 * (7 - i))) & 0xFF */
  method PutBigEndian(data: array<Byte>, at: nat, bitlen: nat)
    requires at + 8 <= data.Length
    modifies data
    ensures data[..] == Put(old(data[..]), at, BigEndian(bitlen, 8))
  {
    hide BigEndian, DigitAt, ByteOf;
    ghost var before := data[..];
    for i := 0 to 8
      invariant data[..at] == old(data[..at])
      invariant data[at..at + i] == BigEndian(bitlen, 8)[..i]
      invariant data[at + 8..] == old(data[at + 8..])
    {
      BigEndianAt(bitlen, 8, i);
      data[at + i] := ByteOf(DigitAt(bitlen, 7 - i));
    }
    assert data[..] == data[..at] + data[at..at + 8] + data[at + 8..];
    assert before[..at] == old(data[..at]) && before[at + 8..] == old(data[at + 8..]);
  }

  // ---- The functions of section 4.1.2

  /** Addition modulo 2^32. */
  function Plus(x: bv32, y: bv32): bv32 {
    x + y
  }

  function Rotr(x: bv32, n: bv6): bv32
    requires 0 < n < 32
  {
    (x >> n) | (x << (32 - n))
  }

  function Ch(x: bv32, y: bv32, z: bv32): bv32 {
    (x & y) ^ (!x & z)
  }

  function Maj(x: bv32, y: bv32, z: bv32): bv32 {
    (x & y) ^ (x & z) ^ (y & z)
  }

  function BSig0(x: bv32): bv32 {
    Rotr(x, 2) ^ Rotr(x, 13) ^ Rotr(x, 22)
  }

  function BSig1(x: bv32): bv32 {
    Rotr(x, 6) ^ Rotr(x, 11) ^ Rotr(x, 25)
  }

  function SSig0(x: bv32): bv32 {
    Rotr(x, 7) ^ Rotr(x, 18) ^ (x >> 3)
  }

  function SSig1(x: bv32): bv32 {
    Rotr(x, 17) ^ Rotr(x, 19) ^ (x >> 10)
  }

  // ---- Section 6.2.2 as recursive definitions

  type MessageBlock = b: seq<Byte> | |b| == 64 witness Zeros(64)

  function BigEndianWord(b: MessageBlock, i: nat): bv32
    requires i < 16
  {
    ((b[4 * i] as bv32) << 24) | ((b[4 * i + 1] as bv32) << 16) | ((b[4 * i + 2] as bv32) << 8) | (b[4 * i + 3] as bv32)
  }

  /** Word t of the message schedule. */
  function Schedule(b: MessageBlock, t: nat): bv32
    requires t < 64
  {
    if t < 16 then BigEndianWord(b, t)
    else Plus(Plus(Plus(SSig1(Schedule(b, t - 2)), Schedule(b, t - 7)), SSig0(Schedule(b, t - 15))), Schedule(b, t - 16))
  }

  /** The eight working variables, and the eight words of a hash value. */
  datatype Words = Words(a: bv32, b: bv32, c: bv32, d: bv32, e: bv32, f: bv32, g: bv32, h: bv32)

  const INITIAL := Words(0x6a09e667, 0xbb67ae85, 0x3c6ef372, 0xa54ff53a, 0x510e527f, 0x9b05688c, 0x1f83d9ab, 0x5be0cd19)

  function RoundConstant(t: nat): bv32
    requires t < 64
  {
    ROUND_CONSTANTS[t / 8][t % 8]
  }

  function Round(v: Words, constant: bv32, word: bv32): Words {
    var t1 := Plus(Plus(Plus(Plus(v.h, BSig1(v.e)), Ch(v.e, v.f, v.g)), constant), word);
    var t2 := Plus(BSig0(v.a), Maj(v.a, v.b, v.c));
    Words(Plus(t1, t2), v.a, v.b, v.c, Plus(v.d, t1), v.e, v.f, v.g)
  }

  function Rounds(b: MessageBlock, v: Words, t: nat): Words
    requires t <= 64
  {
    if t == 0 then v else Round(Rounds(b, v, t - 1), RoundConstant(t - 1), Schedule(b, t - 1))
  }

  function AddWords(v: Words, w: Words): Words {
    Words(Plus(v.a, w.a), Plus(v.b, w.b), Plus(v.c, w.c), Plus(v.d, w.d),
          Plus(v.e, w.e), Plus(v.f, w.f), Plus(v.g, w.g), Plus(v.h, w.h))
  }

  function Compress(hash: Words, b: MessageBlock): Words {
    AddWords(hash, Rounds(b, hash, 64))
  }

  /** The hash value after the whole blocks of `data`, from the first on. */
  function HashBlocks(data: seq<Byte>): Words
    requires |data| % BLOCK_SIZE_BYTES == 0
  {
    if data == [] then INITIAL
    else Compress(HashBlocks(data[..|data| - 64]), data[|data| - 64..])
  }

  function WordBytes(w: bv32): seq<Byte> {
    [((w >> 24) & 0xFF) as Byte, ((w >> 16) & 0xFF) as Byte, ((w >> 8) & 0xFF) as Byte, (w & 0xFF) as Byte]
  }

  function Digest(v: Words): (r: seq<Byte>)
    ensures |r| == 32
  {
    WordBytes(v.a) + WordBytes(v.b) + WordBytes(v.c) + WordBytes(v.d) +
    WordBytes(v.e) + WordBytes(v.f) + WordBytes(v.g) + WordBytes(v.h)
  }

  // ---- The loops

  method PrepareSchedule(b: MessageBlock, w: array<bv32>)
    requires w.Length == 64
    modifies w
    ensures forall t: nat | t < 64 :: w[t] == Schedule(b, t)
  {
    hide Schedule, BigEndianWord, SSig0, SSig1, Plus;
    for i := 0 to 16
      invariant forall t: nat | t < i :: w[t] == Schedule(b, t)
    {
      ScheduleStart(b, i);
      w[i] := BigEndianWord(b, i);
    }
    for i := 16 to 64
      invariant forall t: nat | t < i :: w[t] == Schedule(b, t)
    {
      w[i] := Plus(Plus(Plus(SSig1(w[i - 2]), w[i - 7]), SSig0(w[i - 15])), w[i - 16]);
      ScheduleStep(b, i);
    }
  }

  lemma ScheduleStart(b: MessageBlock, t: nat)
    requires t < 16
    ensures Schedule(b, t) == BigEndianWord(b, t)
  {
    hide BigEndianWord;
  }

  lemma ScheduleStep(b: MessageBlock, t: nat)
    requires 16 <= t < 64
    ensures Schedule(b, t) ==
              Plus(Plus(Plus(SSig1(Schedule(b, t - 2)), Schedule(b, t - 7)), SSig0(Schedule(b, t - 15))), Schedule(b, t - 16))
  {
    hide BigEndianWord, SSig0, SSig1, Plus;
  }

  /** The main loop over the eight accumulators. */
  method RunRounds(ghost block: MessageBlock, hash: Words, w: array<bv32>) returns (v: Words)
    requires w.Length == 64 && forall t: nat | t < 64 :: w[t] == Schedule(block, t)
    ensures v == Rounds(block, hash, 64)
  {
    hide BSig0, BSig1, Ch, Maj, RoundConstant, Schedule, Plus;
    var a, b, c, d, e, f, g, h := hash.a, hash.b, hash.c, hash.d, hash.e, hash.f, hash.g, hash.h;
    for i := 0 to 64
      invariant Words(a, b, c, d, e, f, g, h) == Rounds(block, hash, i)
    {
      var t1 := Plus(Plus(Plus(Plus(h, BSig1(e)), Ch(e, f, g)), RoundConstant(i)), w[i]);
      var t2 := Plus(BSig0(a), Maj(a, b, c));
      h := g;
      g := f;
      f := e;
      e := Plus(d, t1);
      d := c;
      c := b;
      b := a;
      a := Plus(t1, t2);
    }
    v := Words(a, b, c, d, e, f, g, h);
  }

  /** `hash_sha256` on data whose length is a multiple of 64; on other data the source aborts. */
  method HashSha256(data: array<Byte>, length: nat, outHash: array<Byte>)
    requires length <= data.Length && length % BLOCK_SIZE_BYTES == 0
    requires outHash.Length == 32 && data != outHash
    modifies outHash
    ensures outHash[..] == Digest(HashBlocks(data[..length]))
  {
    hide Compress, HashBlocks, Digest, AddWords, Rounds, Schedule;
    NoBlocks();
    assert data[..0] == [];
    var hash := INITIAL;
    var w := new bv32[64];
    var numBlocks := length / BLOCK_SIZE_BYTES;
    for blockIndex := 0 to numBlocks
      invariant hash == HashBlocks(data[..64 * blockIndex])
    {
      var block := data[64 * blockIndex..64 * blockIndex + 64];
      PrepareSchedule(block, w);
      var v := RunRounds(block, hash, w);
      CompressIs(hash, block);
      hash := AddWords(hash, v);
      OneMoreBlock(data[..64 * blockIndex], block);
      assert data[..64 * blockIndex] + block == data[..64 * (blockIndex + 1)];
    }
    WriteDigest(hash, outHash);
  }

  lemma NoBlocks()
    ensures HashBlocks([]) == INITIAL
  {
  }

  lemma CompressIs(hash: Words, b: MessageBlock)
    ensures Compress(hash, b) == AddWords(hash, Rounds(b, hash, 64))
  {
    hide Rounds, AddWords;
  }

  lemma OneMoreBlock(done: seq<Byte>, b: MessageBlock)
    requires |done| % BLOCK_SIZE_BYTES == 0
    ensures HashBlocks(done + b) == Compress(HashBlocks(done), b)
  {
    hide Compress;
    var data := done + b;
    assert data[..|data| - 64] == done && data[|data| - 64..] == b;
  }

  method WriteDigest(hash: Words, outHash: array<Byte>)
    requires outHash.Length == 32
    modifies outHash
    ensures outHash[..] == Digest(hash)
  {
    hide WordBytes;
    WordBytesLength(hash);
    var hValues := [hash.a, hash.b, hash.c, hash.d, hash.e, hash.f, hash.g, hash.h];
    ghost var digest := Digest(hash);
    for i := 0 to 8
      invariant outHash[..4 * i] == digest[..4 * i]
    {
      DigestAt(hash, hValues, i);
      CopyInto(outHash, 4 * i, WordBytes(hValues[i]));
      assert digest[..4 * (i + 1)] == digest[..4 * i] + digest[4 * i..4 * i + 4];
      assert outHash[..4 * (i + 1)] == outHash[..4 * i] + outHash[4 * i..4 * i + 4];
    }
  }

  lemma WordBytesLength(v: Words)
    ensures forall w :: |WordBytes(w)| == 4
  {
  }

  lemma DigestAt(v: Words, values: seq<bv32>, i: nat)
    requires values == [v.a, v.b, v.c, v.d, v.e, v.f, v.g, v.h] && i < 8
    ensures Digest(v)[4 * i..4 * i + 4] == WordBytes(values[i])
  {
    hide WordBytes;
    WordBytesLength(v);
    if
    case i == 0 =>
    case i == 1 =>
    case i == 2 =>
    case i == 3 =>
    case i == 4 =>
    case i == 5 =>
    case i == 6 =>
    case i == 7 =>
  }

  /** The hash of a message, as section 6.2 defines it. */
  function Hash(msg: seq<Byte>): (r: seq<Byte>)
    ensures |r| == 32
  {
    PadIsLeast(msg);
    Digest(HashBlocks(Pad(msg)))
  }
}
