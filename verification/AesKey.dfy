/**
 * The AES-128 key schedule. The source expands the key with little-endian 32-bit
 * words; FIPS 197 section 5.2 describes it with columns of bytes. Both are here,
 * with the proof that they agree.
 */
module AesKey {
  import opened Bytes
  import opened AesTables
  import opened AesUtils

  const AES_BLOCK128_ROUNDS := 10
  const WORDS_IN_BLOCK := 4

  const ROUND_CONSTANTS: seq<bv32> := [
    0x00000001, 0x00000002, 0x00000004, 0x00000008,
    0x00000010, 0x00000020, 0x00000040, 0x00000080,
    0x0000001B, 0x00000036
  ]

  // ---- Words as the source computes with them

  function ByteAt(word: bv32, i: nat): Byte
    requires i < 4
  {
    if i == 0 then (word & 0xFF) as Byte
    else if i == 1 then ((word >> 8) & 0xFF) as Byte
    else if i == 2 then ((word >> 16) & 0xFF) as Byte
    else ((word >> 24) & 0xFF) as Byte
  }

  function WordOf(c: Column): bv32 {
    ((c.a3 as bv32) << 24) | ((c.a2 as bv32) << 16) | ((c.a1 as bv32) << 8) | (c.a0 as bv32)
  }

  function BytesOf(word: bv32): Column {
    Column(ByteAt(word, 0), ByteAt(word, 1), ByteAt(word, 2), ByteAt(word, 3))
  }

  function SubWord(word: bv32): bv32 {
    ((SBox(ByteAt(word, 3)) as bv32) << 24) |
    ((SBox(ByteAt(word, 2)) as bv32) << 16) |
    ((SBox(ByteAt(word, 1)) as bv32) << 8) |
    (SBox(ByteAt(word, 0)) as bv32)
  }

  function RotWord(word: bv32): bv32 {
    (word >> 8) | (word << 24)
  }

  datatype RoundKey = RoundKey(w0: bv32, w1: bv32, w2: bv32, w3: bv32)

  function Xor(v: bv32, w: bv32): bv32 {
    v ^ w
  }

  function NextRoundKey(prev: RoundKey, constant: bv32): RoundKey {
    var w0 := Xor(prev.w0, Xor(SubWord(RotWord(prev.w3)), constant));
    var w1 := Xor(prev.w1, w0);
    var w2 := Xor(prev.w2, w1);
    RoundKey(w0, w1, w2, Xor(prev.w3, w2))
  }

  function BaseKey(key: Block): RoundKey {
    RoundKey(WordOf(ColumnOf(key, 0)), WordOf(ColumnOf(key, 1)), WordOf(ColumnOf(key, 2)), WordOf(ColumnOf(key, 3)))
  }

  function Expand(base: RoundKey, round: nat): RoundKey
    requires round <= AES_BLOCK128_ROUNDS
  {
    if round == 0 then base else NextRoundKey(Expand(base, round - 1), RoundConstant(round))
  }

  /** A round key as the block that is added to the state. */
  function KeyBlock(k: RoundKey): Block {
    BlockOf(BytesOf(k.w0), BytesOf(k.w1), BytesOf(k.w2), BytesOf(k.w3))
  }

  function RoundKeyAt(words: seq<bv32>, round: nat): RoundKey
    requires 4 * round + 4 <= |words|
  {
    RoundKey(words[4 * round], words[4 * round + 1], words[4 * round + 2], words[4 * round + 3])
  }

  function RoundConstant(round: nat): bv32
    requires 1 <= round <= AES_BLOCK128_ROUNDS
  {
    ROUND_CONSTANTS[round - 1]
  }

  lemma ExpandStep(base: RoundKey, round: nat)
    requires 1 <= round <= AES_BLOCK128_ROUNDS
    ensures Expand(base, 0) == base
    ensures Expand(base, round) == NextRoundKey(Expand(base, round - 1), RoundConstant(round))
  {
    hide NextRoundKey, RoundConstant;
  }

  /** Every round key the loop leaves in `words` is the one the schedule defines. */
  method AesGenerateKeys128(baseKey: Block, words: array<bv32>)
    requires words.Length == 44
    modifies words
    ensures forall round: nat | round <= AES_BLOCK128_ROUNDS :: RoundKeyAt(words[..], round) == Expand(BaseKey(baseKey), round)
  {
    hide Expand, NextRoundKey, BaseKey, RoundConstant;
    CopyBaseKey(baseKey, words);
    ExpandStep(BaseKey(baseKey), 1);
    for round := 1 to 11
      invariant forall done: nat | done < round :: RoundKeyAt(words[..], done) == Expand(BaseKey(baseKey), done)
    {
      GenerateRoundKey(words, round, RoundConstant(round));
      ExpandStep(BaseKey(baseKey), round);
    }
  }

  method CopyBaseKey(baseKey: Block, words: array<bv32>)
    requires words.Length == 44
    modifies words
    ensures RoundKeyAt(words[..], 0) == BaseKey(baseKey)
  {
    hide WordOf;
    words[0] := WordOf(ColumnOf(baseKey, 0));
    words[1] := WordOf(ColumnOf(baseKey, 1));
    words[2] := WordOf(ColumnOf(baseKey, 2));
    words[3] := WordOf(ColumnOf(baseKey, 3));
  }

  /** The body of the expansion loop. */
  method GenerateRoundKey(words: array<bv32>, round: nat, constant: bv32)
    requires 1 <= round && 4 * round + 4 <= words.Length
    modifies words
    ensures RoundKeyAt(words[..], round) == NextRoundKey(old(RoundKeyAt(words[..], round - 1)), constant)
    ensures forall done: nat | done < round :: RoundKeyAt(words[..], done) == old(RoundKeyAt(words[..], done))
  {
    hide SubWord, RotWord, Xor;
    var prev := (round - 1) * WORDS_IN_BLOCK;
    var curr := round * WORDS_IN_BLOCK;
    var rotated := Xor(SubWord(RotWord(words[prev + 3])), constant);
    words[curr] := Xor(words[prev], rotated);
    words[curr + 1] := Xor(words[prev + 1], words[curr]);
    words[curr + 2] := Xor(words[prev + 2], words[curr + 1]);
    words[curr + 3] := Xor(words[prev + 3], words[curr + 2]);
  }

  // ---- Words as FIPS 197 section 5.2 describes them

  function SubColumn(c: Column): Column {
    Column(SBox(c.a0), SBox(c.a1), SBox(c.a2), SBox(c.a3))
  }

  function RotColumn(c: Column): Column {
    Column(c.a1, c.a2, c.a3, c.a0)
  }

  /** The constant of round i is x^(i-1) in GF(2^8). */
  function Rcon(i: nat): Byte
    requires i > 0
  {
    if i == 1 then 1 else Mul2(Rcon(i - 1))
  }

  function KeyExpansion(key: Block, i: nat): Column {
    if i < 4 then ColumnOf(key, i)
    else
      var temp := KeyExpansion(key, i - 1);
      var temp' := if i % 4 == 0 then AddColumns(SubColumn(RotColumn(temp)), Column(Rcon(i / 4), 0, 0, 0)) else temp;
      AddColumns(KeyExpansion(key, i - 4), temp')
  }

  lemma WordRoundTrip(c: Column)
    ensures BytesOf(WordOf(c)) == c
  {
  }

  lemma ByteOfSum(v: bv32, w: bv32, i: nat)
    requires i < 4
    ensures ByteAt(Xor(v, w), i) == Add(ByteAt(v, i), ByteAt(w, i))
  {
    if
    case i == 0 =>
    case i == 1 =>
    case i == 2 =>
    case i == 3 =>
  }

  lemma BytesOfSum(v: bv32, w: bv32)
    ensures BytesOf(Xor(v, w)) == AddColumns(BytesOf(v), BytesOf(w))
  {
    hide ByteAt, Xor, Add;
    ByteOfSum(v, w, 0);
    ByteOfSum(v, w, 1);
    ByteOfSum(v, w, 2);
    ByteOfSum(v, w, 3);
  }

  lemma BytesOfSubstitution(w: bv32)
    ensures BytesOf(SubWord(RotWord(w))) == SubColumn(RotColumn(BytesOf(w)))
  {
    hide SBox;
  }

  lemma RoundConstantsAreRcon(round: nat)
    requires 1 <= round <= AES_BLOCK128_ROUNDS
    ensures BytesOf(RoundConstant(round)) == Column(Rcon(round), 0, 0, 0)
  {
    assert Rcon(2) == 2 && Rcon(3) == 4 && Rcon(4) == 8 && Rcon(5) == 0x10;
    assert Rcon(6) == 0x20 && Rcon(7) == 0x40 && Rcon(8) == 0x80 && Rcon(9) == 0x1B && Rcon(10) == 0x36;
  }

  /** The word loop computes the byte columns of FIPS 197, four a round. */
  lemma {:induction false} ExpandIsKeyExpansion(key: Block, round: nat)
    requires round <= AES_BLOCK128_ROUNDS
    ensures var k := Expand(BaseKey(key), round);
            && BytesOf(k.w0) == KeyExpansion(key, 4 * round)
            && BytesOf(k.w1) == KeyExpansion(key, 4 * round + 1)
            && BytesOf(k.w2) == KeyExpansion(key, 4 * round + 2)
            && BytesOf(k.w3) == KeyExpansion(key, 4 * round + 3)
  {
    hide BytesOf, Expand, KeyExpansion, NextRoundKey, BaseKey, RoundConstant;
    if round == 0 {
      BaseKeyIsKeyExpansion(key);
    } else {
      ExpandIsKeyExpansion(key, round - 1);
      ExpandStep(BaseKey(key), round);
      NextRoundKeyIsKeyExpansion(key, round, Expand(BaseKey(key), round - 1));
    }
  }

  lemma BaseKeyIsKeyExpansion(key: Block)
    ensures var k := Expand(BaseKey(key), 0);
            && BytesOf(k.w0) == KeyExpansion(key, 0) && BytesOf(k.w1) == KeyExpansion(key, 1)
            && BytesOf(k.w2) == KeyExpansion(key, 2) && BytesOf(k.w3) == KeyExpansion(key, 3)
  {
    hide BytesOf, WordOf;
    WordRoundTrip(ColumnOf(key, 0));
    WordRoundTrip(ColumnOf(key, 1));
    WordRoundTrip(ColumnOf(key, 2));
    WordRoundTrip(ColumnOf(key, 3));
  }

  lemma KeyExpansionRound(key: Block, round: nat)
    requires 1 <= round
    ensures KeyExpansion(key, 4 * round) == AddColumns(KeyExpansion(key, 4 * round - 4),
              AddColumns(SubColumn(RotColumn(KeyExpansion(key, 4 * round - 1))), Column(Rcon(round), 0, 0, 0)))
    ensures KeyExpansion(key, 4 * round + 1) == AddColumns(KeyExpansion(key, 4 * round - 3), KeyExpansion(key, 4 * round))
    ensures KeyExpansion(key, 4 * round + 2) == AddColumns(KeyExpansion(key, 4 * round - 2), KeyExpansion(key, 4 * round + 1))
    ensures KeyExpansion(key, 4 * round + 3) == AddColumns(KeyExpansion(key, 4 * round - 1), KeyExpansion(key, 4 * round + 2))
  {
    hide SubColumn, RotColumn, AddColumns, Rcon;
  }

  lemma NextRoundKeyIsKeyExpansion(key: Block, round: nat, prev: RoundKey)
    requires 1 <= round <= AES_BLOCK128_ROUNDS
    requires BytesOf(prev.w0) == KeyExpansion(key, 4 * round - 4) && BytesOf(prev.w1) == KeyExpansion(key, 4 * round - 3)
    requires BytesOf(prev.w2) == KeyExpansion(key, 4 * round - 2) && BytesOf(prev.w3) == KeyExpansion(key, 4 * round - 1)
    ensures var k := NextRoundKey(prev, RoundConstant(round));
            && BytesOf(k.w0) == KeyExpansion(key, 4 * round)
            && BytesOf(k.w1) == KeyExpansion(key, 4 * round + 1)
            && BytesOf(k.w2) == KeyExpansion(key, 4 * round + 2)
            && BytesOf(k.w3) == KeyExpansion(key, 4 * round + 3)
  {
    hide BytesOf, SubWord, RotWord, SubColumn, RotColumn, AddColumns, Rcon, KeyExpansion, Xor, RoundConstant;
    var constant := RoundConstant(round);
    var k := NextRoundKey(prev, constant);
    KeyExpansionRound(key, round);
    RoundConstantsAreRcon(round);
    BytesOfSubstitution(prev.w3);
    BytesOfSum(SubWord(RotWord(prev.w3)), constant);
    BytesOfSum(prev.w0, Xor(SubWord(RotWord(prev.w3)), constant));
    BytesOfSum(prev.w1, k.w0);
    BytesOfSum(prev.w2, k.w1);
    BytesOfSum(prev.w3, k.w2);
  }

  // ---- The expansion loses nothing

  function PrevRoundKey(next: RoundKey, constant: bv32): RoundKey {
    var w3 := Xor(next.w3, next.w2);
    RoundKey(Xor(next.w0, Xor(SubWord(RotWord(w3)), constant)), Xor(next.w1, next.w0), Xor(next.w2, next.w1), w3)
  }

  lemma XorCancelsWord(v: bv32, w: bv32)
    ensures Xor(Xor(v, w), w) == v
  {
  }

  lemma RoundKeyRoundTrip(k: RoundKey, constant: bv32)
    ensures PrevRoundKey(NextRoundKey(k, constant), constant) == k
  {
    hide SubWord, RotWord, Xor;
    var next := NextRoundKey(k, constant);
    XorCancelsWord(k.w0, Xor(SubWord(RotWord(k.w3)), constant));
    XorCancelsWord(k.w1, next.w0);
    XorCancelsWord(k.w2, next.w1);
    XorCancelsWord(k.w3, next.w2);
  }

  /** Two keys that agree on any one round key are the same key. */
  lemma {:induction false} ExpandInjective(k: RoundKey, l: RoundKey, round: nat)
    requires round <= AES_BLOCK128_ROUNDS
    requires Expand(k, round) == Expand(l, round)
    ensures k == l
  {
    hide PrevRoundKey, NextRoundKey, RoundConstant;
    if round > 0 {
      RoundKeyRoundTrip(Expand(k, round - 1), RoundConstant(round));
      RoundKeyRoundTrip(Expand(l, round - 1), RoundConstant(round));
      ExpandInjective(k, l, round - 1);
    }
  }

  /** The same for the blocks the cipher adds to its state. */
  lemma KeyBlocksInjective(key: Block, other: Block, round: nat)
    requires round <= AES_BLOCK128_ROUNDS
    requires KeyBlock(Expand(BaseKey(key), round)) == KeyBlock(Expand(BaseKey(other), round))
    ensures key == other
  {
    hide BytesOf, WordOf, Expand, BlockOf, ColumnOf;
    var k, l := Expand(BaseKey(key), round), Expand(BaseKey(other), round);
    ColumnsOfBlock(BytesOf(k.w0), BytesOf(k.w1), BytesOf(k.w2), BytesOf(k.w3));
    ColumnsOfBlock(BytesOf(l.w0), BytesOf(l.w1), BytesOf(l.w2), BytesOf(l.w3));
    BlockOfColumns(key);
    BlockOfColumns(other);
    EqualBytesEqualWords(k.w0, l.w0);
    EqualBytesEqualWords(k.w1, l.w1);
    EqualBytesEqualWords(k.w2, l.w2);
    EqualBytesEqualWords(k.w3, l.w3);
    ExpandInjective(BaseKey(key), BaseKey(other), round);
    WordRoundTrip(ColumnOf(key, 0)); WordRoundTrip(ColumnOf(other, 0));
    WordRoundTrip(ColumnOf(key, 1)); WordRoundTrip(ColumnOf(other, 1));
    WordRoundTrip(ColumnOf(key, 2)); WordRoundTrip(ColumnOf(other, 2));
    WordRoundTrip(ColumnOf(key, 3)); WordRoundTrip(ColumnOf(other, 3));
  }

  lemma EqualBytesEqualWords(v: bv32, w: bv32)
    requires BytesOf(v) == BytesOf(w)
    ensures v == w
  {
    assert ByteAt(v, 0) == ByteAt(w, 0) && ByteAt(v, 1) == ByteAt(w, 1);
    assert ByteAt(v, 2) == ByteAt(w, 2) && ByteAt(v, 3) == ByteAt(w, 3);
  }
}
