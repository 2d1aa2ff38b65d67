/** The circuit protocol with the system's own cryptography: AES below, Diffie-Hellman for the keys. */
module CircuitKeys {
  import opened Arithmetic
  import opened Bytes
  import opened Dh
  import opened KeyDerivation
  import opened Encryptions
  import opened TorCells
  import opened Circuit
  import opened CircuitTheorems

  /** The client with private exponent x and relays with private exponents ys, on the directory's g and p. */
  function PathSetup(g: nat, p: nat, x: nat, ys: seq<nat>, addrs: seq<SockAddr>, linkKeys: seq<Block>): Setup
    requires 0 < p < Pow(256, ASYMMETRIC_KEY_BYTES)
  {
    Setup(AES_CIPHER, addrs, PublicKeyBytes(g, x, p),
          seq(|ys|, i requires 0 <= i < |ys| => SymmetricKey(PublicKeyBytes(g, ys[i], p), x, p)),
          linkKeys,
          (i: nat, k: KeyBytes) => if i < |ys| then SymmetricKey(k, ys[i], p) else Zeros(16))
  }

  /** The client's list of onion keys is what the relays derive from the client's public key. */
  lemma PathSetupIsValid(g: nat, p: nat, x: nat, ys: seq<nat>, addrs: seq<SockAddr>, linkKeys: seq<Block>)
    requires 0 < p < Pow(256, ASYMMETRIC_KEY_BYTES)
    requires 0 < |ys| == |addrs| == |linkKeys|
    ensures ValidSetup(PathSetup(g, p, x, ys, addrs, linkKeys))
  {
    hide SymmetricKey, PublicKeyBytes;
    AesIsLawful();
    forall i: nat | i < |ys|
      ensures SymmetricKey(PublicKeyBytes(g, x, p), ys[i], p) == SymmetricKey(PublicKeyBytes(g, ys[i], p), x, p)
    {
      SharedSymmetricKey(g, x, ys[i], p);
    }
  }

  /**
   * Whatever the private exponents, every relay of a built circuit holds the AES key
   * that the client derived from that relay's directory entry.
   */
  lemma RelaysHoldClientKeys(g: nat, p: nat, x: nat, ys: seq<nat>, addrs: seq<SockAddr>, linkKeys: seq<Block>, run: seq<State>)
    requires 0 < p < Pow(256, ASYMMETRIC_KEY_BYTES)
    requires 0 < |ys| == |addrs| == |linkKeys|
    requires IsRun(PathSetup(g, p, x, ys, addrs, linkKeys), run) && |run| - 1 >= |ys| * (|ys| + 2)
    ensures var keys := run[|run| - 1].keys;
            |keys| == |ys| && forall i | 0 <= i < |ys| ::
              keys[i] == SymmetricKey(PublicKeyBytes(g, ys[i], p), x, p) && IsSharedKey(keys[i], g, x, ys[i], p)
  {
    hide SymmetricKey, PublicKeyBytes, IsRun, IsSharedKey;
    PathSetupIsValid(g, p, x, ys, addrs, linkKeys);
    BuiltKeysAgree(PathSetup(g, p, x, ys, addrs, linkKeys), run);
    forall i | 0 <= i < |ys|
      ensures IsSharedKey(SymmetricKey(PublicKeyBytes(g, ys[i], p), x, p), g, x, ys[i], p)
    {
      SharedSymmetricKey(g, x, ys[i], p);
    }
  }
}
