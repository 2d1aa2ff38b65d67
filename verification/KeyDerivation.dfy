/** How two parties come to the same AES key: encryptions/source/encryptions.c. */
module KeyDerivation {
  import opened Arithmetic
  import opened Bytes
  import opened Dh
  import opened Sha256

  const SHA_PADDING := 64

  /** The first 16 bytes of the hash of the shared value. */
  function SymmetricKey(other: KeyBytes, x: nat, p: nat): Block
    requires 0 < p < Pow(256, ASYMMETRIC_KEY_BYTES)
  {
    Hash(CommonKeyBytes(other, x, p))[..AES_BYTES]
  }

  /** The key is the first 16 bytes of the hash of the 256 bytes that b^e mod p is imported from. */
  ghost predicate IsKeyOfPower(key: Block, b: nat, e: nat, p: nat)
    requires p > 0
  {
    exists k: KeyBytes :: Import(k) == Pow(b, e) % p && key == Hash(k)[..AES_BYTES]
  }

  ghost predicate IsSharedKey(key: Block, g: nat, x: nat, y: nat, p: nat)
    requires p > 0
  {
    IsKeyOfPower(key, g, x * y, p)
  }

  /** Deriving from each other's exported public key, both sides get the same AES key, that of g^(xy) mod p. */
  lemma SharedSymmetricKey(g: nat, x: nat, y: nat, p: nat)
    requires 0 < p < Pow(256, ASYMMETRIC_KEY_BYTES)
    ensures SymmetricKey(PublicKeyBytes(g, y, p), x, p) == SymmetricKey(PublicKeyBytes(g, x, p), y, p)
    ensures IsSharedKey(SymmetricKey(PublicKeyBytes(g, y, p), x, p), g, x, y, p)
  {
    hide CommonKeyBytes, PublicKeyBytes, Hash;
    KeyAgreement(g, x, y, p);
  }

  class KeyData {
    const session: DhSessionKey
    var symmetricKey: Block

    /** `init_key` */
    constructor (identity: DhIdentityKey)
      ensures fresh(session) && session.identity == identity
      ensures symmetricKey == Zeros(16)
    {
      session := new DhSessionKey(identity);
      symmetricKey := Zeros(16);
    }

    /** `derive_symmetric_key_from_public`; its check that the hash could be prepared never fires. */
    method DeriveSymmetricKeyFromPublic(data: KeyBytes, globals: DhGlobals)
      requires globals.Valid()
      modifies this`symmetricKey, session
      ensures symmetricKey == SymmetricKey(data, session.identity.thisPrivate, globals.p)
      ensures IsKeyOfPower(symmetricKey, Import(data), session.identity.thisPrivate, globals.p)
      ensures session.otherPublic == Import(data)
    {
      hide CommonKeyBytes, Pad, HashBlocks, Digest, Pow;
      session.SetDhKeyOtherPublic(data, globals);
      var commonKey := new Byte[ASYMMETRIC_KEY_BYTES];
      session.GetDhCommonKey(commonKey, data, globals);

      var buffer := new Byte[ASYMMETRIC_KEY_BYTES + SHA_PADDING];
      CopyInto(buffer, 0, commonKey[..]);
      assert buffer[..ASYMMETRIC_KEY_BYTES] == buffer[0..0 + ASYMMETRIC_KEY_BYTES] == commonKey[..];
      PadIsLeast(commonKey[..]);
      var length := HashPrepareDataSha256(buffer, ASYMMETRIC_KEY_BYTES, ASYMMETRIC_KEY_BYTES + SHA_PADDING);
      if length == 0 || length > ASYMMETRIC_KEY_BYTES + SHA_PADDING {
        assert false;
      }

      var shaBuffer := new Byte[32];
      HashSha256(buffer, length, shaBuffer);
      symmetricKey := shaBuffer[..AES_BYTES];
    }
  }
}
