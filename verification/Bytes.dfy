/** Bytes and fixed-size blocks, shared by every other module. */
module Bytes {

  type Byte = bv8

  const AES_BYTES := 16

  /** The 16 bytes of an `aes_block128_t`, column after column: byte `4 * column + row`. */
  type Block = b: seq<Byte> | |b| == 16 witness [0, 0, 0, 0, 0, 0, 0, 0, 0, 0, 0, 0, 0, 0, 0, 0]

  const ASYMMETRIC_KEY_BYTES := 256

  /** A public or shared key in its fixed-width exported form. */
  type KeyBytes = k: seq<Byte> | |k| == 256 witness Zeros(256)

  function Zeros(n: nat): (z: seq<Byte>)
    ensures |z| == n
  {
    seq(n, _ => 0)
  }

  // ---- Bytes and their values

  lemma Doubled(b: Byte)
    requires b as nat < 128
    ensures b < 0x80
    ensures (b << 1) as nat == 2 * b as nat
    ensures ((b << 1) | 1) as nat == 2 * b as nat + 1
  {
  }

  /** The byte with a given value, from its binary digits. */
  function ByteOf(n: nat): (b: Byte)
    requires n < 256
    ensures b as nat == n
  {
    if n == 0 then 0
    else
      var half := ByteOf(n / 2);
      Doubled(half);
      if n % 2 == 0 then half << 1 else (half << 1) | 1
  }

  lemma SameValue(a: Byte, b: Byte)
    requires a as nat == b as nat
    ensures a == b
  {
  }

  lemma ByteOfValue(b: Byte)
    ensures b as nat < 256 && ByteOf(b as nat) == b
  {
    hide ByteOf;
    SameValue(ByteOf(b as nat), b);
  }

  /** `memcpy` of a value into a buffer. */
  method CopyInto(dst: array<Byte>, at: nat, src: seq<Byte>)
    requires at + |src| <= dst.Length
    modifies dst
    ensures dst[..at] == old(dst[..at])
    ensures dst[at..at + |src|] == src
    ensures dst[at + |src|..] == old(dst[at + |src|..])
  {
    for i := 0 to |src|
      invariant dst[..at] == old(dst[..at])
      invariant dst[at..at + i] == src[..i]
      invariant dst[at + i..] == old(dst[at + i..])
    {
      dst[at + i] := src[i];
    }
  }

  /** `s` with `bytes` written over it from position `at`. */
  function Put(s: seq<Byte>, at: nat, bytes: seq<Byte>): (r: seq<Byte>)
    requires at + |bytes| <= |s|
    ensures |r| == |s|
  {
    s[..at] + bytes + s[at + |bytes|..]
  }

  lemma PutReads(s: seq<Byte>, at: nat, bytes: seq<Byte>)
    requires at + |bytes| <= |s|
    ensures Put(s, at, bytes)[at..at + |bytes|] == bytes
    ensures forall i | 0 <= i < |s| && !(at <= i < at + |bytes|) :: Put(s, at, bytes)[i] == s[i]
  {
  }

  /** `memcpy`, as one statement about the whole buffer */
  method PutInto(buffer: array<Byte>, at: nat, bytes: seq<Byte>)
    requires at + |bytes| <= buffer.Length
    modifies buffer
    ensures buffer[..] == Put(old(buffer[..]), at, bytes)
  {
    ghost var before := buffer[..];
    CopyInto(buffer, at, bytes);
    assert buffer[..] == buffer[..at] + buffer[at..at + |bytes|] + buffer[at + |bytes|..];
    assert before[..at] == old(buffer[..at]) && before[at + |bytes|..] == old(buffer[at + |bytes|..]);
  }
}
