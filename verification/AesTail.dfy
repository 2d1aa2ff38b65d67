/**
 * Why partial blocks are left out of every round trip: one key and one tail of 13 bytes,
 * the size that an onion layer leaves over, followed through AES round by round.
 */
module AesTail {
  import opened Bytes
  import opened AesTables
  import opened AesUtils
  import opened AesKey
  import opened Aes
  import opened Encryptions
  import opened TorCells
  import opened Onion

  /** A block by columns, so that rounds can be computed with. */
  datatype Grid = Grid(c0: Column, c1: Column, c2: Column, c3: Column)

  function Flat(g: Grid): Block {
    BlockOf(g.c0, g.c1, g.c2, g.c3)
  }

  function NextKey(k: Grid, constant: Byte): Grid {
    var c0 := AddColumns(k.c0, AddColumns(SubColumn(RotColumn(k.c3)), Column(constant, 0, 0, 0)));
    var c1 := AddColumns(k.c1, c0);
    var c2 := AddColumns(k.c2, c1);
    Grid(c0, c1, c2, AddColumns(k.c3, c2))
  }

  /** `SubBytes` and `ShiftRows` */
  function Shifted(s: Grid): Grid {
    Grid(Column(SBox(s.c0.a0), SBox(s.c1.a1), SBox(s.c2.a2), SBox(s.c3.a3)),
         Column(SBox(s.c1.a0), SBox(s.c2.a1), SBox(s.c3.a2), SBox(s.c0.a3)),
         Column(SBox(s.c2.a0), SBox(s.c3.a1), SBox(s.c0.a2), SBox(s.c1.a3)),
         Column(SBox(s.c3.a0), SBox(s.c0.a1), SBox(s.c1.a2), SBox(s.c2.a3)))
  }

  function Added(s: Grid, k: Grid): Grid {
    Grid(AddColumns(s.c0, k.c0), AddColumns(s.c1, k.c1), AddColumns(s.c2, k.c2), AddColumns(s.c3, k.c3))
  }

  function Mixed(s: Grid): Grid {
    Grid(MixColumn(s.c0), MixColumn(s.c1), MixColumn(s.c2), MixColumn(s.c3))
  }

  function NextState(s: Grid, k: Grid): Grid {
    Added(Mixed(Shifted(s)), k)
  }

  function LastState(s: Grid, k: Grid): Grid {
    Added(Shifted(s), k)
  }

  // ---- Grids compute what blocks compute

  lemma SumOfColumns(b: Block, k: Block, col: nat)
    requires col < 4
    ensures ColumnOf(XorBlocks(b, k), col) == AddColumns(ColumnOf(b, col), ColumnOf(k, col))
  {
    hide Add;
  }

  lemma AddedIs(s: Grid, k: Grid)
    ensures Flat(Added(s, k)) == XorBlocks(Flat(s), Flat(k))
  {
    hide Add, XorBlocks, ColumnOf, BlockOf, AddColumns;
    var sum := XorBlocks(Flat(s), Flat(k));
    ColumnsOfBlock(s.c0, s.c1, s.c2, s.c3);
    ColumnsOfBlock(k.c0, k.c1, k.c2, k.c3);
    SumOfColumns(Flat(s), Flat(k), 0);
    SumOfColumns(Flat(s), Flat(k), 1);
    SumOfColumns(Flat(s), Flat(k), 2);
    SumOfColumns(Flat(s), Flat(k), 3);
    BlockOfColumns(sum);
  }

  lemma ShiftedIs(s: Grid)
    ensures Flat(Shifted(s)) == ShiftRows(SubBytes(Flat(s)))
  {
    hide SBox;
  }

  lemma MixedIs(s: Grid)
    ensures Flat(Mixed(s)) == MixColumns(Flat(s))
  {
    hide MixColumn, BlockOf;
    ColumnsOfBlock(s.c0, s.c1, s.c2, s.c3);
  }

  function KeyGrid(key: Block, round: nat): Grid {
    Grid(KeyExpansion(key, 4 * round), KeyExpansion(key, 4 * round + 1), KeyExpansion(key, 4 * round + 2), KeyExpansion(key, 4 * round + 3))
  }

  lemma KeyGridIs(key: Block, round: nat)
    requires round <= AES_BLOCK128_ROUNDS
    ensures Flat(KeyGrid(key, round)) == KeyOf(key, round)
    ensures round > 0 ==> KeyGrid(key, round) == NextKey(KeyGrid(key, round - 1), Rcon(round))
  {
    hide KeyExpansion, Rcon, Expand, BaseKey, BytesOf, SubColumn, RotColumn, AddColumns;
    ExpandIsKeyExpansion(key, round);
    if round > 0 {
      KeyExpansionRound(key, round);
    }
  }

  lemma RoundIs(data: Block, key: Block, round: nat, s: Grid, k: Grid)
    requires 1 <= round <= 9 && EncryptRounds(data, key, round - 1) == Flat(s) && KeyGrid(key, round) == k
    ensures EncryptRounds(data, key, round) == Flat(NextState(s, k))
  {
    hide KeyOf, KeyGrid, Flat, Added, Mixed, Shifted, XorBlocks, MixColumns, ShiftRows, SubBytes;
    KeyGridIs(key, round);
    ShiftedIs(s);
    MixedIs(Shifted(s));
    AddedIs(Mixed(Shifted(s)), k);
  }

  lemma BlockIs(data: Block, key: Block, s: Grid, k: Grid)
    requires EncryptRounds(data, key, 9) == Flat(s) && KeyGrid(key, 10) == k
    ensures EncryptBlock(key, data) == Flat(LastState(s, k))
  {
    hide KeyOf, KeyGrid, Flat, Added, Shifted, XorBlocks, ShiftRows, SubBytes, EncryptRounds;
    KeyGridIs(key, 10);
    ShiftedIs(s);
    AddedIs(Shifted(s), k);
  }

  lemma StartIs(key: Block, data: Grid)
    ensures EncryptRounds(Flat(data), key, 0) == Flat(Added(data, KeyGrid(key, 0)))
  {
    hide KeyOf, KeyGrid, Flat, Added, XorBlocks;
    KeyGridIs(key, 0);
    AddedIs(data, KeyGrid(key, 0));
  }

  // ---- A key of zeros: the rounds of a block of zeros, and of the block that is read in its place


  const KEY0 := Grid(Column(0x00, 0x00, 0x00, 0x00), Column(0x00, 0x00, 0x00, 0x00), Column(0x00, 0x00, 0x00, 0x00), Column(0x00, 0x00, 0x00, 0x00))
  const KEY1 := Grid(Column(0x62, 0x63, 0x63, 0x63), Column(0x62, 0x63, 0x63, 0x63), Column(0x62, 0x63, 0x63, 0x63), Column(0x62, 0x63, 0x63, 0x63))
  const KEY2 := Grid(Column(0x9B, 0x98, 0x98, 0xC9), Column(0xF9, 0xFB, 0xFB, 0xAA), Column(0x9B, 0x98, 0x98, 0xC9), Column(0xF9, 0xFB, 0xFB, 0xAA))
  const KEY3 := Grid(Column(0x90, 0x97, 0x34, 0x50), Column(0x69, 0x6C, 0xCF, 0xFA), Column(0xF2, 0xF4, 0x57, 0x33), Column(0x0B, 0x0F, 0xAC, 0x99))
  const KEY4 := Grid(Column(0xEE, 0x06, 0xDA, 0x7B), Column(0x87, 0x6A, 0x15, 0x81), Column(0x75, 0x9E, 0x42, 0xB2), Column(0x7E, 0x91, 0xEE, 0x2B))
  const KEY5 := Grid(Column(0x7F, 0x2E, 0x2B, 0x88), Column(0xF8, 0x44, 0x3E, 0x09), Column(0x8D, 0xDA, 0x7C, 0xBB), Column(0xF3, 0x4B, 0x92, 0x90))
  const KEY6 := Grid(Column(0xEC, 0x61, 0x4B, 0x85), Column(0x14, 0x25, 0x75, 0x8C), Column(0x99, 0xFF, 0x09, 0x37), Column(0x6A, 0xB4, 0x9B, 0xA7))
  const KEY7 := Grid(Column(0x21, 0x75, 0x17, 0x87), Column(0x35, 0x50, 0x62, 0x0B), Column(0xAC, 0xAF, 0x6B, 0x3C), Column(0xC6, 0x1B, 0xF0, 0x9B))
  const KEY8 := Grid(Column(0x0E, 0xF9, 0x03, 0x33), Column(0x3B, 0xA9, 0x61, 0x38), Column(0x97, 0x06, 0x0A, 0x04), Column(0x51, 0x1D, 0xFA, 0x9F))
  const KEY9 := Grid(Column(0xB1, 0xD4, 0xD8, 0xE2), Column(0x8A, 0x7D, 0xB9, 0xDA), Column(0x1D, 0x7B, 0xB3, 0xDE), Column(0x4C, 0x66, 0x49, 0x41))
  const KEY10 := Grid(Column(0xB4, 0xEF, 0x5B, 0xCB), Column(0x3E, 0x92, 0xE2, 0x11), Column(0x23, 0xE9, 0x51, 0xCF), Column(0x6F, 0x8F, 0x18, 0x8E))

  const SENT := Grid(Column(0x00, 0x00, 0x00, 0x00), Column(0x00, 0x00, 0x00, 0x00), Column(0x00, 0x00, 0x00, 0x00), Column(0x00, 0x00, 0x00, 0x00))
  const SENT0 := Grid(Column(0x00, 0x00, 0x00, 0x00), Column(0x00, 0x00, 0x00, 0x00), Column(0x00, 0x00, 0x00, 0x00), Column(0x00, 0x00, 0x00, 0x00))
  const SENT1 := Grid(Column(0x01, 0x00, 0x00, 0x00), Column(0x01, 0x00, 0x00, 0x00), Column(0x01, 0x00, 0x00, 0x00), Column(0x01, 0x00, 0x00, 0x00))
  const SENT2 := Grid(Column(0xC6, 0xE4, 0xE4, 0x8B), Column(0xA4, 0x87, 0x87, 0xE8), Column(0xC6, 0xE4, 0xE4, 0x8B), Column(0xA4, 0x87, 0x87, 0xE8))
  const SENT3 := Grid(Column(0x28, 0x2D, 0xF3, 0xC4), Column(0x6A, 0xF3, 0x86, 0x25), Column(0x4A, 0x4E, 0x90, 0xA7), Column(0x08, 0x90, 0xE5, 0x46))
  const SENT4 := Grid(Column(0xAB, 0xD2, 0xCD, 0xFE), Column(0x37, 0x5A, 0xB5, 0x49), Column(0x50, 0xA0, 0xAF, 0xC0), Column(0x75, 0x9A, 0x6A, 0x5F))
  const SENT5 := Grid(Column(0xD4, 0x6F, 0x4F, 0x6C), Column(0x55, 0xB8, 0x96, 0x33), Column(0x7E, 0x05, 0xBB, 0x3D), Column(0x79, 0x79, 0xDE, 0x23))
  const SENT6 := Grid(Column(0x04, 0xF2, 0xCA, 0x97), Column(0x07, 0x78, 0x28, 0x45), Column(0xE2, 0x2F, 0x01, 0x96), Column(0x49, 0xC5, 0xD7, 0x10))
  const SENT7 := Grid(Column(0xB7, 0xAA, 0xE4, 0xC5), Column(0x1D, 0x25, 0x2D, 0x4F), Column(0x6C, 0x92, 0x0F, 0x81), Column(0x94, 0xE5, 0x81, 0x50))
  const SENT8 := Grid(Column(0x23, 0xE7, 0x8C, 0x3C), Column(0x13, 0x21, 0x63, 0xDB), Column(0xAA, 0xC0, 0xC6, 0x57), Column(0x2E, 0x03, 0xCB, 0x95))
  const SENT9 := Grid(Column(0x7F, 0xFE, 0x0E, 0x95), Column(0x51, 0xA5, 0x66, 0x35), Column(0x0E, 0x34, 0x7C, 0x47), Column(0x29, 0x29, 0xEC, 0xCB))
  const SENT10 := Grid(Column(0x66, 0xE9, 0x4B, 0xD4), Column(0xEF, 0x8A, 0x2C, 0x3B), Column(0x88, 0x4C, 0xFA, 0x59), Column(0xCA, 0x34, 0x2B, 0x2E))

  const READ := Grid(Column(0x6C, 0xCC, 0x5B, 0xA5), Column(0x07, 0x07, 0x70, 0x80), Column(0xA9, 0xE6, 0x68, 0x23), Column(0xE2, 0x6D, 0x82, 0xDB))
  const READ0 := Grid(Column(0x6C, 0xCC, 0x5B, 0xA5), Column(0x07, 0x07, 0x70, 0x80), Column(0xA9, 0xE6, 0x68, 0x23), Column(0xE2, 0x6D, 0x82, 0xDB))
  const READ1 := Grid(Column(0x6A, 0xD4, 0xAC, 0x7A), Column(0x6F, 0x92, 0x04, 0xA6), Column(0x6F, 0x4E, 0xB2, 0x89), Column(0xE3, 0xB8, 0x78, 0x86))
  const READ2 := Grid(Column(0x3D, 0x19, 0x77, 0x3F), Column(0xA5, 0x08, 0x6A, 0x75), Column(0xD1, 0x64, 0x09, 0x9F), Column(0x56, 0xD0, 0xAF, 0x76))
  const READ3 := Grid(Column(0xB7, 0xEB, 0x69, 0x78), Column(0xAC, 0x12, 0xE7, 0x20), Column(0x76, 0xB3, 0x54, 0xD5), Column(0xCC, 0xD0, 0xBB, 0x2A))
  const READ4 := Grid(Column(0x22, 0xA3, 0xCE, 0xA3), Column(0x5F, 0xB8, 0xF9, 0xCD), Column(0xDB, 0xE1, 0x21, 0x06), Column(0x5F, 0xB7, 0x7A, 0x8D))
  const READ5 := Grid(Column(0x56, 0x24, 0xD2, 0x0D), Column(0xBE, 0x1F, 0xB8, 0x75), Column(0x32, 0x11, 0xBD, 0x28), Column(0x9E, 0x4F, 0xCF, 0x97))
  const READ6 := Grid(Column(0x3C, 0x4D, 0x4D, 0xFC), Column(0x93, 0xC6, 0x34, 0xD8), Column(0x60, 0x96, 0x63, 0x42), Column(0x7E, 0x53, 0x22, 0x88))
  const READ7 := Grid(Column(0x14, 0x3F, 0xF2, 0x7D), Column(0x1E, 0xA9, 0xD8, 0x0C), Column(0xB9, 0xE1, 0x28, 0x9B), Column(0x31, 0x31, 0xA4, 0x36))
  const READ8 := Grid(Column(0xBE, 0xE7, 0x4D, 0xCB), Column(0x7A, 0x14, 0x63, 0xFA), Column(0x1E, 0xBB, 0x8B, 0x57), Column(0x2E, 0x87, 0xB6, 0xF1))
  const READ9 := Grid(Column(0x7F, 0x73, 0x0E, 0x95), Column(0x51, 0xA5, 0x34, 0x35), Column(0x0E, 0x34, 0x7C, 0xE6), Column(0x29, 0x29, 0xEC, 0xCB))
  const READ10 := Grid(Column(0x66, 0xE9, 0x4B, 0xD4), Column(0xEF, 0x8A, 0x2C, 0x3B), Column(0x88, 0x4C, 0xFA, 0x59), Column(0xCA, 0x00, 0x00, 0x00))

  lemma Round0()
    ensures Added(SENT, KEY0) == SENT0 && Added(READ, KEY0) == READ0
  {
  }

  lemma Round1()
    ensures NextKey(KEY0, 0x01) == KEY1 && NextState(SENT0, KEY1) == SENT1 && NextState(READ0, KEY1) == READ1
  {
    hide SBox;
    SBoxRows();
  }

  lemma Round2()
    ensures NextKey(KEY1, 0x02) == KEY2 && NextState(SENT1, KEY2) == SENT2 && NextState(READ1, KEY2) == READ2
  {
    hide SBox;
    SBoxRows();
  }

  lemma Round3()
    ensures NextKey(KEY2, 0x04) == KEY3 && NextState(SENT2, KEY3) == SENT3 && NextState(READ2, KEY3) == READ3
  {
    hide SBox;
    SBoxRows();
  }

  lemma Round4()
    ensures NextKey(KEY3, 0x08) == KEY4 && NextState(SENT3, KEY4) == SENT4 && NextState(READ3, KEY4) == READ4
  {
    hide SBox;
    SBoxRows();
  }

  lemma Round5()
    ensures NextKey(KEY4, 0x10) == KEY5 && NextState(SENT4, KEY5) == SENT5 && NextState(READ4, KEY5) == READ5
  {
    hide SBox;
    SBoxRows();
  }

  lemma Round6()
    ensures NextKey(KEY5, 0x20) == KEY6 && NextState(SENT5, KEY6) == SENT6 && NextState(READ5, KEY6) == READ6
  {
    hide SBox;
    SBoxRows();
  }

  lemma Round7()
    ensures NextKey(KEY6, 0x40) == KEY7 && NextState(SENT6, KEY7) == SENT7 && NextState(READ6, KEY7) == READ7
  {
    hide SBox;
    SBoxRows();
  }

  lemma Round8()
    ensures NextKey(KEY7, 0x80) == KEY8 && NextState(SENT7, KEY8) == SENT8 && NextState(READ7, KEY8) == READ8
  {
    hide SBox;
    SBoxRows();
  }

  lemma Round9()
    ensures NextKey(KEY8, 0x1B) == KEY9 && NextState(SENT8, KEY9) == SENT9 && NextState(READ8, KEY9) == READ9
  {
    hide SBox;
    SBoxRows();
  }

  lemma Round10()
    ensures NextKey(KEY9, 0x36) == KEY10 && LastState(SENT9, KEY10) == SENT10 && LastState(READ9, KEY10) == READ10
  {
    hide SBox;
    SBoxRows();
  }

  lemma Constants()
    ensures Rcon(1) == 1 && Rcon(2) == 2 && Rcon(3) == 4 && Rcon(4) == 8 && Rcon(5) == 0x10
    ensures Rcon(6) == 0x20 && Rcon(7) == 0x40 && Rcon(8) == 0x80 && Rcon(9) == 0x1B && Rcon(10) == 0x36
  {
    assert Rcon(2) == 2 && Rcon(3) == 4 && Rcon(4) == 8 && Rcon(5) == 0x10;
    assert Rcon(6) == 0x20 && Rcon(7) == 0x40 && Rcon(8) == 0x80 && Rcon(9) == 0x1B && Rcon(10) == 0x36;
  }

  /** What the two blocks encrypt to under a key of zeros. */
  lemma Encrypted()
    ensures EncryptBlock(Flat(KEY0), Flat(SENT)) == Flat(SENT10)
    ensures EncryptBlock(Flat(KEY0), Flat(READ)) == Flat(READ10)
  {
    hide Flat, KeyGrid, NextKey, Added, NextState, LastState, EncryptRounds, EncryptBlock, Rcon;
    var key := Flat(KEY0);
    Constants();
    BaseIs(KEY0);
    Round0();
    StartIs(key, SENT);
    StartIs(key, READ);
    Round1(); KeyGridIs(key, 1);
    RoundIs(Flat(SENT), key, 1, SENT0, KEY1); RoundIs(Flat(READ), key, 1, READ0, KEY1);
    Round2(); KeyGridIs(key, 2);
    RoundIs(Flat(SENT), key, 2, SENT1, KEY2); RoundIs(Flat(READ), key, 2, READ1, KEY2);
    Round3(); KeyGridIs(key, 3);
    RoundIs(Flat(SENT), key, 3, SENT2, KEY3); RoundIs(Flat(READ), key, 3, READ2, KEY3);
    Round4(); KeyGridIs(key, 4);
    RoundIs(Flat(SENT), key, 4, SENT3, KEY4); RoundIs(Flat(READ), key, 4, READ3, KEY4);
    Round5(); KeyGridIs(key, 5);
    RoundIs(Flat(SENT), key, 5, SENT4, KEY5); RoundIs(Flat(READ), key, 5, READ4, KEY5);
    Round6(); KeyGridIs(key, 6);
    RoundIs(Flat(SENT), key, 6, SENT5, KEY6); RoundIs(Flat(READ), key, 6, READ5, KEY6);
    Round7(); KeyGridIs(key, 7);
    RoundIs(Flat(SENT), key, 7, SENT6, KEY7); RoundIs(Flat(READ), key, 7, READ6, KEY7);
    Round8(); KeyGridIs(key, 8);
    RoundIs(Flat(SENT), key, 8, SENT7, KEY8); RoundIs(Flat(READ), key, 8, READ7, KEY8);
    Round9(); KeyGridIs(key, 9);
    RoundIs(Flat(SENT), key, 9, SENT8, KEY9); RoundIs(Flat(READ), key, 9, READ8, KEY9);
    Round10(); KeyGridIs(key, 10);
    BlockIs(Flat(SENT), key, SENT9, KEY10); BlockIs(Flat(READ), key, READ9, KEY10);
  }

  lemma BaseIs(k: Grid)
    ensures KeyGrid(Flat(k), 0) == k
  {
    hide BlockOf;
    ColumnsOfBlock(k.c0, k.c1, k.c2, k.c3);
  }

  lemma ReadBack(key: Block, tail: seq<Byte>, sent: Block, read: Block)
    requires 0 < |tail| <= AES_BYTES
    requires EncryptBlock(key, Padded(tail)) == sent && EncryptBlock(key, read) == Padded(sent[..|tail|])
    ensures DecryptBuffer(AES_CIPHER, key, EncryptBuffer(AES_CIPHER, key, tail)) == read[..|tail|]
  {
    hide EncryptBlock, DecryptBlock, Padded;
    DecryptUndoesEncrypt(key, read);
  }

  /** With AES itself 13 bytes need not come back: under a key of zeros, 13 zeros are read as other bytes. */
  lemma TailIsLost()
    ensures DecryptBuffer(AES_CIPHER, Zeros(16), EncryptBuffer(AES_CIPHER, Zeros(16), Zeros(13))) != Zeros(13)
  {
    Encrypted();
    hide EncryptBlock, DecryptBuffer, EncryptBuffer;
    assert Flat(KEY0) == Zeros(16) && Flat(SENT) == Padded(Zeros(13));
    assert Padded(Flat(SENT10)[..13]) == Flat(READ10);
    ReadBack(Zeros(16), Zeros(13), Flat(SENT10), Flat(READ));
    assert Flat(READ)[..13][0] != Zeros(13)[0];
  }

  lemma ZerosSplit(m: nat, n: nat)
    ensures Zeros(m + n) == Zeros(m) + Zeros(n)
  {
  }

  /** So a cell of zeros does not survive an onion layer under a key of zeros. */
  lemma CellIsChanged()
    ensures PeelOnion(AES_CIPHER, [Zeros(16)], AddOnion(AES_CIPHER, [Zeros(16)], Zeros(512))) != Zeros(512)
  {
    hide DecryptBuffer, EncryptBuffer, Zeros;
    AesIsLawful();
    TailIsLost();
    ZerosSplit(496, 13);
    ZerosSplit(HEADER, 509);
    TailDecides(AES_CIPHER, Zeros(16), Zeros(496), Zeros(13));
    OneLayer(AES_CIPHER, Zeros(16), Zeros(HEADER), Zeros(509));
  }
}
