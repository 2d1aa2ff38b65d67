/** AES-128 on one block, FIPS 197 sections 5.1 and 5.3. */
module Aes {
  import opened Bytes
  import opened AesUtils
  import opened AesKey

  function KeyOf(key: Block, round: nat): Block
    requires round <= AES_BLOCK128_ROUNDS
  {
    KeyBlock(Expand(BaseKey(key), round))
  }

  // ---- The two ciphers as functions

  /** The state after the initial key addition and rounds 1 to `round`. */
  function EncryptRounds(data: Block, key: Block, round: nat): Block
    requires round <= 9
  {
    if round == 0 then XorBlocks(data, KeyOf(key, 0))
    else Round(EncryptRounds(data, key, round - 1), KeyOf(key, round))
  }

  function Round(state: Block, roundKey: Block): Block {
    XorBlocks(MixColumns(ShiftRows(SubBytes(state))), roundKey)
  }

  function EncryptBlock(key: Block, data: Block): Block {
    XorBlocks(ShiftRows(SubBytes(EncryptRounds(data, key, 9))), KeyOf(key, 10))
  }

  /** Rounds `round` down to 1 on a state, then the last key addition. */
  function DecryptRounds(state: Block, key: Block, round: nat): Block
    requires round <= 9
    decreases round
  {
    if round == 0 then XorBlocks(state, KeyOf(key, 0))
    else DecryptRounds(InvRound(state, KeyOf(key, round)), key, round - 1)
  }

  function InvRound(state: Block, roundKey: Block): Block {
    InvSubBytes(InvShiftRows(InvMixColumns(XorBlocks(state, roundKey))))
  }

  function DecryptBlock(key: Block, data: Block): Block {
    DecryptRounds(InvSubBytes(InvShiftRows(XorBlocks(data, KeyOf(key, 10)))), key, 9)
  }

  // ---- They undo each other

  /** The descending rounds peel off what the ascending rounds put on. */
  lemma {:induction false} DecryptRoundsUndo(data: Block, key: Block, round: nat)
    requires round <= 9
    ensures DecryptRounds(EncryptRounds(data, key, round), key, round) == data
  {
    hide XorBlocks, SubBytes, InvSubBytes, ShiftRows, InvShiftRows, MixColumns, InvMixColumns, KeyOf;
    if round == 0 {
      XorCancels(data, KeyOf(key, 0));
    } else {
      var before := EncryptRounds(data, key, round - 1);
      SubBytesCancels(before);
      ShiftRowsCancels(SubBytes(before));
      MixColumnsCancels(ShiftRows(SubBytes(before)));
      XorCancels(MixColumns(ShiftRows(SubBytes(before))), KeyOf(key, round));
      DecryptRoundsUndo(data, key, round - 1);
    }
  }

  lemma {:induction false} EncryptRoundsUndo(state: Block, key: Block, round: nat)
    requires round <= 9
    ensures EncryptRounds(DecryptRounds(state, key, round), key, round) == state
    decreases round
  {
    hide XorBlocks, SubBytes, InvSubBytes, ShiftRows, InvShiftRows, MixColumns, InvMixColumns, KeyOf;
    if round == 0 {
      XorCancels(state, KeyOf(key, 0));
    } else {
      EncryptRoundsUndo(InvRound(state, KeyOf(key, round)), key, round - 1);
      var added := XorBlocks(state, KeyOf(key, round));
      SubBytesCancels(InvShiftRows(InvMixColumns(added)));
      ShiftRowsCancels(InvMixColumns(added));
      MixColumnsCancels(added);
      XorCancels(state, KeyOf(key, round));
    }
  }

  lemma DecryptUndoesEncrypt(key: Block, data: Block)
    ensures DecryptBlock(key, EncryptBlock(key, data)) == data
  {
    hide XorBlocks, SubBytes, InvSubBytes, ShiftRows, InvShiftRows, KeyOf, EncryptRounds, DecryptRounds;
    var last := EncryptRounds(data, key, 9);
    SubBytesCancels(last);
    ShiftRowsCancels(SubBytes(last));
    XorCancels(ShiftRows(SubBytes(last)), KeyOf(key, 10));
    DecryptRoundsUndo(data, key, 9);
  }

  lemma EncryptUndoesDecrypt(key: Block, data: Block)
    ensures EncryptBlock(key, DecryptBlock(key, data)) == data
  {
    hide XorBlocks, SubBytes, InvSubBytes, ShiftRows, InvShiftRows, KeyOf, EncryptRounds, DecryptRounds;
    var added := XorBlocks(data, KeyOf(key, 10));
    EncryptRoundsUndo(InvSubBytes(InvShiftRows(added)), key, 9);
    SubBytesCancels(InvShiftRows(added));
    ShiftRowsCancels(added);
    XorCancels(data, KeyOf(key, 10));
  }

  // ---- The routines that compute them in place

  /** The expanded words hold the key of every round. */
  predicate Holds(words: seq<bv32>, key: Block) {
    |words| == 44 &&
    forall round: nat | round <= AES_BLOCK128_ROUNDS :: RoundKeyAt(words, round) == Expand(BaseKey(key), round)
  }

  method AddRoundKey(result: array<Byte>, words: array<bv32>, round: nat, ghost key: Block)
    requires result.Length == 16 && words.Length == 44 && round <= AES_BLOCK128_ROUNDS
    requires Holds(words[..], key)
    modifies result
    ensures result[..] == XorBlocks(old(result[..]), KeyOf(key, round))
  {
    hide XorBlocks, KeyBlock, Expand, BaseKey;
    XorBlock128(result, KeyBlock(RoundKeyAt(words[..], round)));
  }

  method AesEncrypt128(data: Block, key: Block, result: array<Byte>)
    requires result.Length == 16
    modifies result
    ensures result[..] == EncryptBlock(key, data)
  {
    hide XorBlocks, SubBytes, ShiftRows, Round, KeyOf;
    CopyBlock(result, data);
    var words := new bv32[44];
    AesGenerateKeys128(key, words);
    assert Holds(words[..], key);
    hide Holds;

    AddRoundKey(result, words, 0, key);
    for i := 1 to 10
      invariant Holds(words[..], key)
      invariant result[..] == EncryptRounds(data, key, i - 1)
    {
      EncryptRound(result, words, i, key);
    }

    SubBytesBlock128(result);
    ShiftRowsBlock128(result);
    AddRoundKey(result, words, 10, key);
  }

  /** The body of the ascending loop. */
  method EncryptRound(result: array<Byte>, words: array<bv32>, round: nat, ghost key: Block)
    requires result.Length == 16 && words.Length == 44 && round <= AES_BLOCK128_ROUNDS
    requires Holds(words[..], key)
    modifies result
    ensures result[..] == Round(old(result[..]), KeyOf(key, round))
  {
    hide Holds, XorBlocks, SubBytes, ShiftRows, MixColumns, KeyOf;
    SubBytesBlock128(result);
    ShiftRowsBlock128(result);
    MixColumnsBlock128(result);
    AddRoundKey(result, words, round, key);
  }

  method AesDecrypt128(encrypted: Block, key: Block, result: array<Byte>)
    requires result.Length == 16
    modifies result
    ensures result[..] == DecryptBlock(key, encrypted)
  {
    hide XorBlocks, InvSubBytes, InvShiftRows, InvRound, KeyOf, DecryptRounds;
    CopyBlock(result, encrypted);
    var words := new bv32[44];
    AesGenerateKeys128(key, words);
    assert Holds(words[..], key);
    hide Holds;

    AddRoundKey(result, words, 10, key);
    InvShiftRowsBlock128(result);
    InvSubBytesBlock128(result);

    var i := 9;
    while i > 0
      invariant 0 <= i <= 9
      invariant Holds(words[..], key)
      invariant DecryptRounds(result[..], key, i) == DecryptBlock(key, encrypted)
    {
      DecryptStep(result[..], key, i);
      DecryptRound(result, words, i, key);
      i := i - 1;
    }

    DecryptEnds(result[..], key);
    AddRoundKey(result, words, 0, key);
  }

  /** The body of the descending loop. */
  method DecryptRound(result: array<Byte>, words: array<bv32>, round: nat, ghost key: Block)
    requires result.Length == 16 && words.Length == 44 && round <= AES_BLOCK128_ROUNDS
    requires Holds(words[..], key)
    modifies result
    ensures result[..] == InvRound(old(result[..]), KeyOf(key, round))
  {
    hide Holds, XorBlocks, InvSubBytes, InvShiftRows, InvMixColumns, KeyOf;
    AddRoundKey(result, words, round, key);
    InvMixColumnsBlock128(result);
    InvShiftRowsBlock128(result);
    InvSubBytesBlock128(result);
  }

  lemma DecryptStep(state: Block, key: Block, round: nat)
    requires 1 <= round <= 9
    ensures DecryptRounds(state, key, round) == DecryptRounds(InvRound(state, KeyOf(key, round)), key, round - 1)
  {
  }

  lemma DecryptEnds(state: Block, key: Block)
    ensures DecryptRounds(state, key, 0) == XorBlocks(state, KeyOf(key, 0))
  {
  }

  method CopyBlock(value: array<Byte>, operand: Block)
    requires value.Length == 16
    modifies value
    ensures value[..] == operand
  {
    for i := 0 to 16
      invariant forall j | 0 <= j < i :: value[j] == operand[j]
    {
      value[i] := operand[i];
    }
  }
}
