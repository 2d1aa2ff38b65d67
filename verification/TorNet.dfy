/**
 * Sending and receiving cells: client/net/send_messages.c, client/net/recv_messages.c
 * and their counterparts under relay/net. A buffer is encrypted in place, then the
 * whole of it is written to a socket; it is read whole, then decrypted in place.
 */
module TorNet {
  import opened Bytes
  import opened Encryptions
  import opened TorCells
  import opened Onion

  /** One direction of a connection, as the cells that are on their way. */
  class Channel {
    var cells: seq<Cell>

    constructor ()
      ensures cells == []
    {
      cells := [];
    }

    method Write(cell: Cell)
      modifies this
      ensures cells == old(cells) + [cell]
    {
      cells := cells + [cell];
    }

    /** Reads the next cell into a buffer; with no cell left the peer has closed the connection. */
    method Read(data: array<Byte>) returns (ok: bool)
      requires data.Length == TOR_MSG_SIZE
      modifies this, data
      ensures ok == (old(cells) != [])
      ensures ok ==> data[..] == old(cells)[0] && cells == old(cells)[1..]
      ensures !ok ==> cells == old(cells) && data[..] == old(data[..])
    {
      ok := cells != [];
      if ok {
        CopyInto(data, 0, cells[0]);
        assert data[0..TOR_MSG_SIZE] == data[..];
        cells := cells[1..];
      }
    }
  }

  lemma AddLayersLast(c: Cipher, keys: seq<Block>, i: nat, s: seq<Byte>)
    requires i < |keys|
    ensures AddLayers(c, keys[i..], s) == EncryptBuffer(c, keys[i], AddLayers(c, keys[i + 1..], s))
  {
    assert keys[i..][1..] == keys[i + 1..];
  }

  method EncryptPayload(data: array<Byte>, key: Block)
    requires data.Length == TOR_MSG_SIZE
    modifies data
    ensures data[..HEADER] == old(data[..HEADER])
    ensures data[HEADER..] == EncryptBuffer(AES_CIPHER, key, old(data[HEADER..]))
  {
    assert data[HEADER..] == data[HEADER..HEADER + (TOR_MSG_SIZE - HEADER)];
    SymmetricEncrypt(key, data, HEADER, TOR_MSG_SIZE - HEADER);
    assert data[HEADER..] == data[HEADER..HEADER + (TOR_MSG_SIZE - HEADER)];
  }

  method DecryptPayload(data: array<Byte>, key: Block)
    requires data.Length == TOR_MSG_SIZE
    modifies data
    ensures data[..HEADER] == old(data[..HEADER])
    ensures data[HEADER..] == DecryptBuffer(AES_CIPHER, key, old(data[HEADER..]))
  {
    assert data[HEADER..] == data[HEADER..HEADER + (TOR_MSG_SIZE - HEADER)];
    SymmetricDecrypt(key, data, HEADER, TOR_MSG_SIZE - HEADER);
    assert data[HEADER..] == data[HEADER..HEADER + (TOR_MSG_SIZE - HEADER)];
  }

  /** The loop of the client's `send_tor_buffer`: the last relay's layer first. */
  method AddOnionLayers(data: array<Byte>, onionKeys: seq<Block>, onionAmount: nat)
    requires data.Length == TOR_MSG_SIZE && onionAmount <= |onionKeys|
    modifies data
    ensures data[..] == AddOnion(AES_CIPHER, onionKeys[..onionAmount], old(data[..]))
  {
    hide EncryptBuffer, AddLayers;
    ghost var keys := onionKeys[..onionAmount];
    var i := onionAmount;
    assert keys[onionAmount..] == [];
    NoLayers(data[HEADER..]);
    while i > 0
      invariant 0 <= i <= onionAmount
      invariant data[..HEADER] == old(data[..HEADER])
      invariant data[HEADER..] == AddLayers(AES_CIPHER, keys[i..], old(data[HEADER..]))
    {
      i := i - 1;
      AddLayersLast(AES_CIPHER, keys, i, old(data[HEADER..]));
      EncryptPayload(data, onionKeys[i]);
    }
    assert keys[0..] == keys;
    assert data[..] == data[..HEADER] + data[HEADER..];
    assert old(data[..])[..HEADER] == old(data[..HEADER]) && old(data[..])[HEADER..] == old(data[HEADER..]);
  }

  lemma NoLayers(s: seq<Byte>)
    ensures AddLayers(AES_CIPHER, [], s) == s && PeelLayers(AES_CIPHER, [], s) == s
  {
  }

  /** The loop of the client's `recv_tor_buffer`: the first relay's layer first. */
  method PeelOnionLayers(data: array<Byte>, onionKeys: seq<Block>, onionAmount: nat)
    requires data.Length == TOR_MSG_SIZE && onionAmount <= |onionKeys|
    modifies data
    ensures data[..] == PeelOnion(AES_CIPHER, onionKeys[..onionAmount], old(data[..]))
  {
    hide DecryptBuffer, PeelLayers;
    ghost var keys := onionKeys[..onionAmount];
    assert keys[0..] == keys;
    for i := 0 to onionAmount
      invariant data[..HEADER] == old(data[..HEADER])
      invariant PeelLayers(AES_CIPHER, keys[i..], data[HEADER..]) == PeelLayers(AES_CIPHER, keys, old(data[HEADER..]))
    {
      PeelLayersFirst(AES_CIPHER, keys, i, data[HEADER..]);
      DecryptPayload(data, onionKeys[i]);
    }
    assert keys[onionAmount..] == [];
    NoLayers(data[HEADER..]);
    assert data[..] == data[..HEADER] + data[HEADER..];
    assert old(data[..])[..HEADER] == old(data[..HEADER]) && old(data[..])[HEADER..] == old(data[HEADER..]);
  }

  lemma PeelLayersFirst(c: Cipher, keys: seq<Block>, i: nat, s: seq<Byte>)
    requires i < |keys|
    ensures PeelLayers(c, keys[i..], s) == PeelLayers(c, keys[i + 1..], DecryptBuffer(c, keys[i], s))
  {
    assert keys[i..][1..] == keys[i + 1..];
  }

  method SealBuffer(data: array<Byte>, linkKey: Block)
    requires data.Length == TOR_MSG_SIZE
    modifies data
    ensures data[..] == Seal(AES_CIPHER, linkKey, old(data[..]))
  {
    SymmetricEncrypt(linkKey, data, 0, TOR_MSG_SIZE);
    assert data[..] == data[0..0 + TOR_MSG_SIZE] && old(data[..]) == old(data[0..0 + TOR_MSG_SIZE]);
  }

  method UnsealBuffer(data: array<Byte>, linkKey: Block)
    requires data.Length == TOR_MSG_SIZE
    modifies data
    ensures data[..] == Unseal(AES_CIPHER, linkKey, old(data[..]))
  {
    SymmetricDecrypt(linkKey, data, 0, TOR_MSG_SIZE);
    assert data[..] == data[0..0 + TOR_MSG_SIZE] && old(data[..]) == old(data[0..0 + TOR_MSG_SIZE]);
  }

  /** The client's `send_tor_buffer`; no onion keys is an amount of 0. */
  method ClientSendTorBuffer(sock: Channel, data: array<Byte>, linkKey: Block, onionKeys: seq<Block>, onionAmount: nat)
    requires data.Length == TOR_MSG_SIZE && onionAmount <= |onionKeys|
    modifies sock, data
    ensures sock.cells == old(sock.cells) + [Seal(AES_CIPHER, linkKey, AddOnion(AES_CIPHER, onionKeys[..onionAmount], old(data[..])))]
  {
    hide Seal, AddOnion;
    AddOnionLayers(data, onionKeys, onionAmount);
    SealBuffer(data, linkKey);
    sock.Write(data[..]);
  }

  /** The client's `recv_tor_buffer`. */
  method ClientRecvTorBuffer(sock: Channel, data: array<Byte>, linkKey: Block, onionKeys: seq<Block>, onionAmount: nat) returns (ok: bool)
    requires data.Length == TOR_MSG_SIZE && onionAmount <= |onionKeys|
    modifies sock, data
    ensures ok == (old(sock.cells) != [])
    ensures ok ==> sock.cells == old(sock.cells)[1..]
    ensures ok ==> data[..] == PeelOnion(AES_CIPHER, onionKeys[..onionAmount], Unseal(AES_CIPHER, linkKey, old(sock.cells)[0]))
    ensures !ok ==> sock.cells == old(sock.cells) && data[..] == old(data[..])
  {
    hide Unseal, PeelOnion;
    ok := sock.Read(data);
    if ok {
      UnsealBuffer(data, linkKey);
      PeelOnionLayers(data, onionKeys, onionAmount);
    }
  }

  /** A relay's `send_tor_buffer`: its layer goes on only towards the client. */
  method RelaySendTorBuffer(sock: Channel, data: array<Byte>, linkKey: Block, onionKey: Block, toClient: bool)
    requires data.Length == TOR_MSG_SIZE
    modifies sock, data
    ensures sock.cells == old(sock.cells) +
              [Seal(AES_CIPHER, linkKey, if toClient then AddOnion(AES_CIPHER, [onionKey], old(data[..])) else old(data[..]))]
  {
    hide Seal, AddOnion;
    if toClient {
      AddOnionLayers(data, [onionKey], 1);
      assert [onionKey][..1] == [onionKey];
    }
    SealBuffer(data, linkKey);
    sock.Write(data[..]);
  }

  /** A relay's `recv_tor_buffer`: its layer comes off only what the client sent. */
  method RelayRecvTorBuffer(sock: Channel, data: array<Byte>, linkKey: Block, onionKey: Block, fromClient: bool) returns (ok: bool)
    requires data.Length == TOR_MSG_SIZE
    modifies sock, data
    ensures ok == (old(sock.cells) != [])
    ensures ok ==> sock.cells == old(sock.cells)[1..]
    ensures ok ==> var raw := Unseal(AES_CIPHER, linkKey, old(sock.cells)[0]);
                   data[..] == if fromClient then PeelOnion(AES_CIPHER, [onionKey], raw) else raw
    ensures !ok ==> sock.cells == old(sock.cells) && data[..] == old(data[..])
  {
    hide Unseal, PeelOnion;
    ok := sock.Read(data);
    if ok {
      UnsealBuffer(data, linkKey);
      if fromClient {
        PeelOnionLayers(data, [onionKey], 1);
        assert [onionKey][..1] == [onionKey];
      }
    }
  }
}
