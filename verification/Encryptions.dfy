/**
 * Bulk encryption over a block cipher, and the onion layers made of it. What is
 * proved here holds of every cipher whose two directions cancel on blocks; AES is one.
 */
module Encryptions {
  import opened Bytes
  import opened Aes

  /** The two directions of a block cipher; the key comes first. */
  datatype Cipher = Cipher(enc: (Block, Block) -> Block, dec: (Block, Block) -> Block)

  ghost predicate Lawful(c: Cipher) {
    forall k: Block, b: Block :: c.dec(k, c.enc(k, b)) == b && c.enc(k, c.dec(k, b)) == b
  }

  const AES_CIPHER := Cipher(EncryptBlock, DecryptBlock)

  lemma AesIsLawful()
    ensures Lawful(AES_CIPHER)
  {
    hide EncryptBlock, DecryptBlock;
    forall k: Block, b: Block
      ensures AES_CIPHER.dec(k, AES_CIPHER.enc(k, b)) == b && AES_CIPHER.enc(k, AES_CIPHER.dec(k, b)) == b
    {
      DecryptUndoesEncrypt(k, b);
      EncryptUndoesDecrypt(k, b);
    }
  }

  // ---- Buffers

  function Enc(c: Cipher, key: Block): Block -> Block {
    b => c.enc(key, b)
  }

  function Dec(c: Cipher, key: Block): Block -> Block {
    b => c.dec(key, b)
  }

  function Padded(s: seq<Byte>): Block
    requires |s| <= AES_BYTES
  {
    s + Zeros(AES_BYTES - |s|)
  }

  /** Sixteen bytes at a time; a shorter last block is padded with zeros and its result cut off. */
  function Blockwise(f: Block -> Block, s: seq<Byte>): (r: seq<Byte>)
    ensures |r| == |s|
  {
    if |s| == 0 then []
    else if |s| <= AES_BYTES then f(Padded(s))[..|s|]
    else f(s[..AES_BYTES]) + Blockwise(f, s[AES_BYTES..])
  }

  function EncryptBuffer(c: Cipher, key: Block, s: seq<Byte>): (r: seq<Byte>)
    ensures |r| == |s|
  {
    Blockwise(Enc(c, key), s)
  }

  function DecryptBuffer(c: Cipher, key: Block, s: seq<Byte>): (r: seq<Byte>)
    ensures |r| == |s|
  {
    Blockwise(Dec(c, key), s)
  }

  function WholeLength(n: nat): nat {
    n / AES_BYTES * AES_BYTES
  }

  /** The part of a buffer that whole blocks cover. */
  function Whole(s: seq<Byte>): seq<Byte> {
    s[..WholeLength(|s|)]
  }

  /** What happens to the whole blocks does not depend on the bytes after them. */
  lemma {:induction false} BlockwiseWhole(f: Block -> Block, s: seq<Byte>)
    ensures Whole(Blockwise(f, s)) == Blockwise(f, Whole(s))
  {
    if |s| < AES_BYTES {
    } else if |s| == AES_BYTES {
      assert Whole(s) == s;
    } else {
      var rest := s[AES_BYTES..];
      BlockwiseWhole(f, rest);
      assert WholeLength(|s|) == AES_BYTES + WholeLength(|rest|);
      assert Whole(Blockwise(f, s)) == f(s[..AES_BYTES]) + Whole(Blockwise(f, rest));
      assert Whole(s) == s[..AES_BYTES] + Whole(rest);
      BlockwiseCons(f, s[..AES_BYTES], Whole(rest));
    }
  }

  lemma BlockwiseCons(f: Block -> Block, b: Block, s: seq<Byte>)
    ensures Blockwise(f, b + s) == f(b) + Blockwise(f, s)
  {
    if s == [] {
      assert b + s == b == Padded(b);
    } else {
      assert (b + s)[..AES_BYTES] == b;
      assert (b + s)[AES_BYTES..] == s;
    }
  }

  lemma {:induction false} BlockwiseCancels(f: Block -> Block, g: Block -> Block, s: seq<Byte>)
    requires |s| % AES_BYTES == 0
    requires forall b: Block :: g(f(b)) == b
    ensures Blockwise(g, Blockwise(f, s)) == s
  {
    if s == [] {
    } else {
      var b: Block, rest := s[..AES_BYTES], s[AES_BYTES..];
      assert s == b + rest;
      BlockwiseCons(f, b, rest);
      BlockwiseCons(g, f(b), Blockwise(f, rest));
      BlockwiseCancels(f, g, rest);
    }
  }

  /** Buffers of whole blocks survive either round trip. */
  lemma BuffersCancel(c: Cipher, key: Block, s: seq<Byte>)
    requires Lawful(c)
    requires |s| % AES_BYTES == 0
    ensures DecryptBuffer(c, key, EncryptBuffer(c, key, s)) == s
    ensures EncryptBuffer(c, key, DecryptBuffer(c, key, s)) == s
  {
    forall b: Block
      ensures Dec(c, key)(Enc(c, key)(b)) == b && Enc(c, key)(Dec(c, key)(b)) == b
    {
      assert c.dec(key, c.enc(key, b)) == b;
    }
    BlockwiseCancels(Enc(c, key), Dec(c, key), s);
    BlockwiseCancels(Dec(c, key), Enc(c, key), s);
  }

  lemma WholeIsWhole(s: seq<Byte>)
    ensures |Whole(s)| % AES_BYTES == 0
    ensures |s| % AES_BYTES == 0 ==> Whole(s) == s
  {
  }

  /** A buffer of any length gets its whole blocks back, and all of itself when it has no others. */
  lemma BufferRoundTrip(c: Cipher, key: Block, s: seq<Byte>)
    requires Lawful(c)
    ensures Whole(DecryptBuffer(c, key, EncryptBuffer(c, key, s))) == Whole(s)
    ensures |s| % AES_BYTES == 0 ==> DecryptBuffer(c, key, EncryptBuffer(c, key, s)) == s
  {
    BlockwiseWhole(Dec(c, key), EncryptBuffer(c, key, s));
    BlockwiseWhole(Enc(c, key), s);
    WholeIsWhole(s);
    BuffersCancel(c, key, Whole(s));
  }

  /**
   * A shorter last block decrypts to its padded plaintext exactly when the
   * ciphertext bytes that did not fit were all zero.
   */
  lemma TailRoundTrip(c: Cipher, key: Block, tail: seq<Byte>)
    requires Lawful(c)
    requires 0 < |tail| <= AES_BYTES
    ensures c.dec(key, Padded(EncryptBuffer(c, key, tail))) == Padded(tail)
       <==> c.enc(key, Padded(tail))[|tail|..] == Zeros(AES_BYTES - |tail|)
  {
    var sent: Block := c.enc(key, Padded(tail));
    var kept: Block := Padded(EncryptBuffer(c, key, tail));
    assert kept == sent[..|tail|] + Zeros(AES_BYTES - |tail|);
    assert sent == sent[..|tail|] + sent[|tail|..];
    assert c.dec(key, sent) == Padded(tail);
    assert c.enc(key, c.dec(key, kept)) == kept;
  }

  lemma {:induction false} BlockwiseSplit(f: Block -> Block, whole: seq<Byte>, tail: seq<Byte>)
    requires |whole| % AES_BYTES == 0
    ensures Blockwise(f, whole + tail) == Blockwise(f, whole) + Blockwise(f, tail)
  {
    if whole == [] {
      assert whole + tail == tail;
    } else {
      var b: Block, rest := whole[..AES_BYTES], whole[AES_BYTES..];
      assert whole == b + rest && whole + tail == b + (rest + tail);
      BlockwiseCons(f, b, rest);
      BlockwiseCons(f, b, rest + tail);
      BlockwiseSplit(f, rest, tail);
    }
  }

  /** A buffer comes back exactly when what is left over after its whole blocks does. */
  lemma TailDecides(c: Cipher, key: Block, whole: seq<Byte>, tail: seq<Byte>)
    requires Lawful(c) && |whole| % AES_BYTES == 0
    ensures DecryptBuffer(c, key, EncryptBuffer(c, key, whole + tail)) == whole + tail
       <==> DecryptBuffer(c, key, EncryptBuffer(c, key, tail)) == tail
  {
    hide Blockwise;
    var sent, sentTail := EncryptBuffer(c, key, whole), EncryptBuffer(c, key, tail);
    BlockwiseSplit(Enc(c, key), whole, tail);
    BlockwiseSplit(Dec(c, key), sent, sentTail);
    BuffersCancel(c, key, whole);
    var got := DecryptBuffer(c, key, sentTail);
    assert whole + got == whole + tail ==> got == (whole + got)[|whole|..] == (whole + tail)[|whole|..] == tail;
  }

  /** Some block that starts with the tail encrypts to the tail's ciphertext as a reader sees it, cut short and padded. */
  ghost predicate TailReturns(c: Cipher, key: Block, tail: seq<Byte>)
    requires |tail| <= AES_BYTES
  {
    exists read: Block :: read[..|tail|] == tail && c.enc(key, read) == Padded(c.enc(key, Padded(tail))[..|tail|])
  }

  /** The bytes of a partial block come back exactly when there is such a block, whatever else the reader decrypts with them. */
  lemma TailReturnsExactlyWhen(c: Cipher, key: Block, tail: seq<Byte>)
    requires Lawful(c) && 0 < |tail| <= AES_BYTES
    ensures DecryptBuffer(c, key, EncryptBuffer(c, key, tail)) == tail <==> TailReturns(c, key, tail)
  {
    var kept: Block := Padded(c.enc(key, Padded(tail))[..|tail|]);
    var read := c.dec(key, kept);
    assert EncryptBuffer(c, key, tail) == c.enc(key, Padded(tail))[..|tail|];
    assert DecryptBuffer(c, key, EncryptBuffer(c, key, tail)) == read[..|tail|];
    assert c.enc(key, read) == kept;
    if TailReturns(c, key, tail) {
      var other: Block :| other[..|tail|] == tail && c.enc(key, other) == kept;
      assert c.dec(key, c.enc(key, other)) == other;
    }
  }

  /** What a sender can check: if the ciphertext bytes that are cut off are all zero, the tail comes back. */
  lemma ZeroCutReturns(c: Cipher, key: Block, tail: seq<Byte>)
    requires |tail| <= AES_BYTES
    requires c.enc(key, Padded(tail))[|tail|..] == Zeros(AES_BYTES - |tail|)
    ensures TailReturns(c, key, tail)
  {
    var sent := c.enc(key, Padded(tail));
    assert sent == sent[..|tail|] + sent[|tail|..] == Padded(sent[..|tail|]);
    assert Padded(tail)[..|tail|] == tail;
  }

  /** A buffer of any length comes back exactly when 16 divides its length or the bytes after its whole blocks return. */
  lemma BufferReturnsExactlyWhen(c: Cipher, key: Block, s: seq<Byte>)
    requires Lawful(c)
    ensures var tail := s[WholeLength(|s|)..];
            && |tail| < AES_BYTES
            && (DecryptBuffer(c, key, EncryptBuffer(c, key, s)) == s <==> tail == [] || TailReturns(c, key, tail))
  {
    hide Blockwise, TailReturns;
    var tail := s[WholeLength(|s|)..];
    WholeIsWhole(s);
    assert s == Whole(s) + tail;
    TailDecides(c, key, Whole(s), tail);
    if tail == [] {
      BuffersCancel(c, key, tail);
    } else {
      TailReturnsExactlyWhen(c, key, tail);
    }
  }

  lemma SliceAfter(a: seq<Byte>, b: seq<Byte>, at: nat, n: nat)
    requires |a| <= at && at + n <= |a| + |b|
    ensures (a + b)[at..at + n] == b[at - |a|..at - |a| + n]
  {
  }

  /** Block k of a buffer goes through the cipher alone, and so do the bytes after the last whole block, with zeros after them. */
  lemma {:induction false} EachBlockAlone(f: Block -> Block, s: seq<Byte>, k: nat)
    requires AES_BYTES * k < |s|
    ensures var at := AES_BYTES * k; var n := if |s| - at < AES_BYTES then |s| - at else AES_BYTES;
            Blockwise(f, s)[at..at + n] == f(s[at..at + n] + Zeros(AES_BYTES - n))[..n]
    decreases k
  {
    hide Blockwise;
    var first := if |s| < AES_BYTES then |s| else AES_BYTES;
    BlockwiseStep(f, s, first);
    if k > 0 {
      var rest, at := s[first..], AES_BYTES * k;
      EachBlockAlone(f, rest, k - 1);
      var n := if |s| - at < AES_BYTES then |s| - at else AES_BYTES;
      SliceAfter(f(Padded(s[..first]))[..first], Blockwise(f, rest), at, n);
      SliceAfter(s[..first], rest, at, n);
      assert s[..first] + rest == s;
    }
  }

  /** So every block of a buffer is encrypted or decrypted with the key, once, wherever it lies. */
  lemma BlocksGoThroughCipher(c: Cipher, key: Block, s: seq<Byte>, k: nat)
    requires AES_BYTES * (k + 1) <= |s|
    ensures var at := AES_BYTES * k;
            && EncryptBuffer(c, key, s)[at..at + AES_BYTES] == c.enc(key, s[at..at + AES_BYTES])
            && DecryptBuffer(c, key, s)[at..at + AES_BYTES] == c.dec(key, s[at..at + AES_BYTES])
  {
    hide Blockwise;
    EachBlockAlone(Enc(c, key), s, k);
    EachBlockAlone(Dec(c, key), s, k);
    var block := s[AES_BYTES * k..AES_BYTES * k + AES_BYTES];
    assert block + Zeros(0) == block;
  }

  // ---- Onion layers

  /** Layers go on from the last key to the first, so the first key's is outermost. */
  function AddLayers(c: Cipher, keys: seq<Block>, s: seq<Byte>): (r: seq<Byte>)
    ensures |r| == |s|
  {
    if keys == [] then s else EncryptBuffer(c, keys[0], AddLayers(c, keys[1..], s))
  }

  /** Layers come off from the first key to the last. */
  function PeelLayers(c: Cipher, keys: seq<Block>, s: seq<Byte>): (r: seq<Byte>)
    ensures |r| == |s|
  {
    if keys == [] then s else PeelLayers(c, keys[1..], DecryptBuffer(c, keys[0], s))
  }

  lemma {:induction false} LayersCancel(c: Cipher, keys: seq<Block>, s: seq<Byte>)
    requires Lawful(c)
    requires |s| % AES_BYTES == 0
    ensures PeelLayers(c, keys, AddLayers(c, keys, s)) == s
  {
    if keys == [] {
    } else {
      BuffersCancel(c, keys[0], AddLayers(c, keys[1..], s));
      LayersCancel(c, keys[1..], s);
    }
  }

  lemma {:induction false} LayersWhole(c: Cipher, keys: seq<Block>, s: seq<Byte>)
    ensures Whole(AddLayers(c, keys, s)) == AddLayers(c, keys, Whole(s))
    ensures Whole(PeelLayers(c, keys, s)) == PeelLayers(c, keys, Whole(s))
    decreases |keys|
  {
    if keys == [] {
    } else {
      LayersWhole(c, keys[1..], s);
      BlockwiseWhole(Enc(c, keys[0]), AddLayers(c, keys[1..], s));
      LayersWhole(c, keys[1..], DecryptBuffer(c, keys[0], s));
      BlockwiseWhole(Dec(c, keys[0]), s);
    }
  }

  /** Any number of layers, any length: the whole blocks come back, and with them everything when 16 divides it. */
  lemma LayersRoundTrip(c: Cipher, keys: seq<Block>, s: seq<Byte>)
    requires Lawful(c)
    ensures Whole(PeelLayers(c, keys, AddLayers(c, keys, s))) == Whole(s)
    ensures |s| % AES_BYTES == 0 ==> PeelLayers(c, keys, AddLayers(c, keys, s)) == s
  {
    LayersWhole(c, keys, s);
    LayersWhole(c, keys, AddLayers(c, keys, s));
    WholeIsWhole(s);
    LayersCancel(c, keys, Whole(s));
  }

  /** `keys` split anywhere: the first part is the outer layers. */
  lemma {:induction false} PeelLayersSplit(c: Cipher, keys: seq<Block>, more: seq<Block>, s: seq<Byte>)
    ensures PeelLayers(c, keys + more, s) == PeelLayers(c, more, PeelLayers(c, keys, s))
    decreases |keys|
  {
    if keys == [] {
      assert keys + more == more;
    } else {
      assert (keys + more)[1..] == keys[1..] + more;
      PeelLayersSplit(c, keys[1..], more, DecryptBuffer(c, keys[0], s));
    }
  }

  lemma {:induction false} AddLayersSplit(c: Cipher, keys: seq<Block>, more: seq<Block>, s: seq<Byte>)
    ensures AddLayers(c, keys + more, s) == AddLayers(c, keys, AddLayers(c, more, s))
    decreases |keys|
  {
    if keys == [] {
      assert keys + more == more;
    } else {
      assert (keys + more)[1..] == keys[1..] + more;
      AddLayersSplit(c, keys[1..], more, s);
    }
  }

  lemma {:induction false} AddLayersBeside(c: Cipher, keys: seq<Block>, whole: seq<Byte>, tail: seq<Byte>)
    requires |whole| % AES_BYTES == 0
    ensures AddLayers(c, keys, whole + tail) == AddLayers(c, keys, whole) + AddLayers(c, keys, tail)
    decreases |keys|
  {
    hide Blockwise;
    if keys != [] {
      AddLayersBeside(c, keys[1..], whole, tail);
      BlockwiseSplit(Enc(c, keys[0]), AddLayers(c, keys[1..], whole), AddLayers(c, keys[1..], tail));
    }
  }

  lemma {:induction false} PeelLayersBeside(c: Cipher, keys: seq<Block>, whole: seq<Byte>, tail: seq<Byte>)
    requires |whole| % AES_BYTES == 0
    ensures PeelLayers(c, keys, whole + tail) == PeelLayers(c, keys, whole) + PeelLayers(c, keys, tail)
    decreases |keys|
  {
    hide Blockwise;
    if keys != [] {
      BlockwiseSplit(Dec(c, keys[0]), whole, tail);
      PeelLayersBeside(c, keys[1..], DecryptBuffer(c, keys[0], whole), DecryptBuffer(c, keys[0], tail));
    }
  }

  /**
   * There is a block for every key, the first encrypting to the wire's bytes padded, each
   * next to as many first bytes of the one before padded, and the last starts with what is wanted.
   */
  ghost predicate TailRead(c: Cipher, keys: seq<Block>, wire: seq<Byte>, want: seq<Byte>)
    requires |want| <= |wire| <= AES_BYTES
    decreases |keys|
  {
    if keys == [] then wire[..|want|] == want
    else exists read: Block :: c.enc(keys[0], read) == Padded(wire) && TailRead(c, keys[1..], read[..|wire|], want)
  }

  lemma {:induction false} TailReadExactlyWhen(c: Cipher, keys: seq<Block>, wire: seq<Byte>, want: seq<Byte>)
    requires Lawful(c) && |want| <= |wire| && 0 < |wire| <= AES_BYTES
    ensures PeelLayers(c, keys, wire)[..|want|] == want <==> TailRead(c, keys, wire, want)
    decreases |keys|
  {
    if keys != [] {
      var read := c.dec(keys[0], Padded(wire));
      assert c.enc(keys[0], read) == Padded(wire);
      assert DecryptBuffer(c, keys[0], wire) == read[..|wire|];
      TailReadExactlyWhen(c, keys[1..], read[..|wire|], want);
      if TailRead(c, keys, wire, want) {
        var other: Block :| c.enc(keys[0], other) == Padded(wire) && TailRead(c, keys[1..], other[..|wire|], want);
        assert c.dec(keys[0], c.enc(keys[0], other)) == other;
      }
    }
  }

  /** Any number of layers gives a buffer back exactly when the bytes after its whole blocks are read back. */
  lemma LayersReturnExactlyWhen(c: Cipher, keys: seq<Block>, whole: seq<Byte>, tail: seq<Byte>)
    requires Lawful(c) && |whole| % AES_BYTES == 0 && 0 < |tail| <= AES_BYTES
    ensures PeelLayers(c, keys, AddLayers(c, keys, whole + tail)) == whole + tail
       <==> TailRead(c, keys, AddLayers(c, keys, tail), tail)
  {
    AddLayersBeside(c, keys, whole, tail);
    PeelLayersBeside(c, keys, AddLayers(c, keys, whole), AddLayers(c, keys, tail));
    LayersCancel(c, keys, whole);
    TailReadExactlyWhen(c, keys, AddLayers(c, keys, tail), tail);
    var got := PeelLayers(c, keys, AddLayers(c, keys, tail));
    assert got[..|tail|] == got;
    assert whole + got == whole + tail ==> got == (whole + got)[|whole|..] == (whole + tail)[|whole|..] == tail;
  }

  // ---- The routines, which overwrite `length` bytes of a buffer from `start`

  /** Of a buffer, n bytes from `at` on have gone through a block, and no other byte has changed. */
  predicate IsBlockDone(f: Block -> Block, before: seq<Byte>, after: seq<Byte>, at: nat, n: nat) {
    at + n <= |before| && n <= AES_BYTES && after == Put(before, at, f(Padded(before[at..at + n]))[..n])
  }

  method EncryptAt(key: Block, data: array<Byte>, at: nat, n: nat)
    requires 0 < n <= AES_BYTES && at + n <= data.Length
    modifies data
    ensures IsBlockDone(Enc(AES_CIPHER, key), old(data[..]), data[..], at, n)
  {
    hide EncryptBlock, Padded, Put;
    var block := new Byte[16];
    AesEncrypt128(Padded(data[at..at + n]), key, block);
    assert old(data[..])[at..at + n] == data[at..at + n];
    PutInto(data, at, block[..n]);
  }

  method DecryptAt(key: Block, data: array<Byte>, at: nat, n: nat)
    requires 0 < n <= AES_BYTES && at + n <= data.Length
    modifies data
    ensures IsBlockDone(Dec(AES_CIPHER, key), old(data[..]), data[..], at, n)
  {
    hide DecryptBlock, Padded, Put;
    var block := new Byte[16];
    AesDecrypt128(Padded(data[at..at + n]), key, block);
    assert old(data[..])[at..at + n] == data[at..at + n];
    PutInto(data, at, block[..n]);
  }

  method SymmetricEncrypt(key: Block, data: array<Byte>, start: nat, length: nat)
    requires start + length <= data.Length
    modifies data
    ensures data[..start] == old(data[..start])
    ensures data[start..start + length] == EncryptBuffer(AES_CIPHER, key, old(data[start..start + length]))
    ensures data[start + length..] == old(data[start + length..])
  {
    hide Blockwise, Padded, Unfinished, IsBlockDone;
    ghost var f := Enc(AES_CIPHER, key);
    ghost var done: seq<Byte> := [];
    var index := 0;
    NothingDone(f, data[..], start, length);
    while index + AES_BYTES < length
      invariant 0 <= index <= length
      invariant Unfinished(f, old(data[..]), data[..], start, length, index, done)
    {
      ghost var before := data[..];
      EncryptAt(key, data, start + index, AES_BYTES);
      done := BlockDone(f, old(data[..]), before, data[..], start, length, index, AES_BYTES, done);
      index := index + AES_BYTES;
    }

    var remainder := length - index;
    if remainder != 0 {
      ghost var before := data[..];
      EncryptAt(key, data, start + index, remainder);
      done := BlockDone(f, old(data[..]), before, data[..], start, length, index, remainder, done);
    }
    AllDone(f, old(data[..]), data[..], start, length, done);
  }

  method SymmetricDecrypt(key: Block, data: array<Byte>, start: nat, length: nat)
    requires start + length <= data.Length
    modifies data
    ensures data[..start] == old(data[..start])
    ensures data[start..start + length] == DecryptBuffer(AES_CIPHER, key, old(data[start..start + length]))
    ensures data[start + length..] == old(data[start + length..])
  {
    hide Blockwise, Padded, Unfinished, IsBlockDone;
    ghost var f := Dec(AES_CIPHER, key);
    ghost var done: seq<Byte> := [];
    var index := 0;
    NothingDone(f, data[..], start, length);
    while index + AES_BYTES < length
      invariant 0 <= index <= length
      invariant Unfinished(f, old(data[..]), data[..], start, length, index, done)
    {
      ghost var before := data[..];
      DecryptAt(key, data, start + index, AES_BYTES);
      done := BlockDone(f, old(data[..]), before, data[..], start, length, index, AES_BYTES, done);
      index := index + AES_BYTES;
    }

    var remainder := length - index;
    if remainder != 0 {
      ghost var before := data[..];
      DecryptAt(key, data, start + index, remainder);
      done := BlockDone(f, old(data[..]), before, data[..], start, length, index, remainder, done);
    }
    AllDone(f, old(data[..]), data[..], start, length, done);
  }

  /** The loops' invariant: of `length` bytes from `start`, the first `index` have become `done` and no other byte has changed. */
  predicate Unfinished(f: Block -> Block, orig: seq<Byte>, data: seq<Byte>, start: nat, length: nat, index: nat, done: seq<Byte>) {
    && |done| == index <= length && start + length <= |orig|
    && data == orig[..start] + done + orig[start + index..]
    && Blockwise(f, orig[start..start + length]) == done + Blockwise(f, orig[start + index..start + length])
  }

  lemma NothingDone(f: Block -> Block, data: seq<Byte>, start: nat, length: nat)
    requires start + length <= |data|
    ensures Unfinished(f, data, data, start, length, 0, [])
  {
  }

  lemma AllDone(f: Block -> Block, orig: seq<Byte>, data: seq<Byte>, start: nat, length: nat, done: seq<Byte>)
    requires Unfinished(f, orig, data, start, length, length, done)
    ensures |data| == |orig| && data[..start] == orig[..start]
    ensures data[start..start + length] == Blockwise(f, orig[start..start + length])
    ensures data[start + length..] == orig[start + length..]
  {
  }

  lemma PaddedWhole(b: Block)
    ensures Padded(b) == b && b[..AES_BYTES] == b
  {
  }

  lemma BlockwiseStep(f: Block -> Block, s: seq<Byte>, n: nat)
    requires n == AES_BYTES < |s| || 0 < n == |s| <= AES_BYTES
    ensures Blockwise(f, s) == f(Padded(s[..n]))[..n] + Blockwise(f, s[n..])
  {
    hide Padded;
    if n < |s| {
      PaddedWhole(s[..n]);
      PaddedWhole(f(s[..n]));
    } else {
      assert s[..n] == s && Blockwise(f, s[n..]) == [];
    }
  }

  /** A block of n bytes written in place goes between what is done and what is left. */
  lemma PutBetween(first: seq<Byte>, done: seq<Byte>, rest: seq<Byte>, block: seq<Byte>)
    requires |block| <= |rest|
    ensures Put(first + done + rest, |first| + |done|, block) == first + (done + block) + rest[|block|..]
    ensures (first + done + rest)[|first| + |done|..|first| + |done| + |block|] == rest[..|block|]
  {
  }

  lemma SliceFrom(s: seq<Byte>, at: nat, end: nat, n: nat)
    requires at + n <= end <= |s|
    ensures s[at..][..n] == s[at..at + n] == s[at..end][..n]
    ensures s[at..][n..] == s[at + n..] && s[at..end][n..] == s[at + n..end]
  {
  }

  /** One block of n bytes: a whole one, or the shorter last one. */
  lemma BlockDone(f: Block -> Block, orig: seq<Byte>, before: seq<Byte>, after: seq<Byte>, start: nat, length: nat, index: nat, n: nat,
                  done: seq<Byte>) returns (more: seq<Byte>)
    requires Unfinished(f, orig, before, start, length, index, done)
    requires (n == AES_BYTES && index + n < length) || (0 < n <= AES_BYTES && index + n == length)
    requires IsBlockDone(f, before, after, start + index, n)
    ensures |after| == |before| && Unfinished(f, orig, after, start, length, index + n, more)
  {
    hide Blockwise, Padded, Put;
    var at, end := start + index, start + length;
    var block := f(Padded(orig[at..at + n]))[..n];
    SliceFrom(orig, at, end, n);
    PutBetween(orig[..start], done, orig[at..], block);
    BlockwiseStep(f, orig[at..end], n);
    more := done + block;
    assert done + (block + Blockwise(f, orig[at + n..end])) == more + Blockwise(f, orig[at + n..end]);
  }
}
