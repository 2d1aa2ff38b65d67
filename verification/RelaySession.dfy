/**
 * One relay's session, as relay/router/relay_session.c and relay_middle.c run it:
 * keys and buffers change in place. Each method is shown to do to the relay and its
 * four channels exactly what the relay's step does to the circuit.
 */
module RelaySession {
  import opened Bytes
  import opened Dh
  import opened KeyDerivation
  import opened Encryptions
  import opened TorCells
  import opened Onion
  import opened Pipeline
  import opened Circuit
  import opened TorNet

  class RelaySession {
    const onion: KeyData
    const globals: DhGlobals
    var tlsLastKey: Block
    var tlsNextKey: Block
    const lastIn: Channel
    const lastOut: Channel
    const nextIn: Channel    // the connection to the next relay, once it is made
    const nextOut: Channel
    const nextAddr: SockAddr // the address that this connection reaches

    constructor (onion: KeyData, globals: DhGlobals, tlsLastKey: Block, tlsNextKey: Block,
                 lastIn: Channel, lastOut: Channel, nextIn: Channel, nextOut: Channel, nextAddr: SockAddr)
      ensures this.onion == onion && this.globals == globals && this.nextAddr == nextAddr
      ensures this.tlsLastKey == tlsLastKey && this.tlsNextKey == tlsNextKey
      ensures this.lastIn == lastIn && this.lastOut == lastOut && this.nextIn == nextIn && this.nextOut == nextOut
    {
      this.onion, this.globals := onion, globals;
      this.tlsLastKey, this.tlsNextKey := tlsLastKey, tlsNextKey;
      this.lastIn, this.lastOut, this.nextIn, this.nextOut, this.nextAddr := lastIn, lastOut, nextIn, nextOut, nextAddr;
    }

    predicate Valid()
      reads this, globals
    {
      && globals.Valid()
      && lastIn != lastOut && lastIn != nextIn && lastIn != nextOut
      && lastOut != nextIn && lastOut != nextOut && nextIn != nextOut
    }

    /** Its private exponent and the shared modulus give the onion keys of relay i. */
    ghost predicate Derives(S: Setup, i: nat)
      requires globals.Valid()
      reads globals, onion.session, onion.session.identity
    {
      forall k: KeyBytes :: S.derive(i, k) == SymmetricKey(k, onion.session.identity.thisPrivate, globals.p)
    }

    /** The session and its channels are relay i of a circuit in state s. */
    ghost predicate Shows(S: Setup, s: State, i: nat)
      reads this, globals, onion, onion.session, onion.session.identity, lastIn, lastOut, nextIn, nextOut
    {
      && Valid() && Fits(S, s) && i < |S.addrs| && S.cipher == AES_CIPHER
      && onion.symmetricKey == s.keys[i]
      && Derives(S, i)
      && tlsLastKey == S.linkKeys[i] && lastIn.cells == s.out[i] && lastOut.cells == s.back[i]
      && (i + 1 < |S.addrs| ==>
            && nextAddr == S.addrs[i + 1] && tlsNextKey == S.linkKeys[i + 1]
            && nextOut.cells == s.out[i + 1] && nextIn.cells == s.back[i + 1])
    }

    /** `handle_create_message`: a waiting relay reads CREATE, derives its onion key and answers. */
    method HandleCreateMessage(buffer: array<Byte>, ghost S: Setup, ghost s: State, ghost i: nat) returns (ok: bool)
      requires buffer.Length == TOR_MSG_SIZE && Shows(S, s, i)
      requires s.roles[i] == Waiting
      modifies buffer, onion`symmetricKey, onion.session, lastIn, lastOut
      ensures s.out[i] == [] ==> !ok && Shows(S, s, i)
      ensures s.out[i] != [] ==> Shows(S, FromLast(S, s, i), i) && FromLast(S, s, i).roles[i] == if ok then Created else Failed
      ensures ok <==> old(lastIn.cells) != [] && Unseal(AES_CIPHER, tlsLastKey, old(lastIn.cells)[0])[CMD] == TOR_CREATE
      ensures !ok ==> lastOut.cells == old(lastOut.cells)
    {
      hide Seal, Unseal, AddOnion, PeelOnion, SymmetricKey, IsKeyOfPower, CreatedCell;
      ok := RelayRecvTorBuffer(lastIn, buffer, tlsLastKey, onion.symmetricKey, false);
      if !ok {
        return;
      }
      if buffer[CMD] != TOR_CREATE {
        return false;
      }
      var clientKey := buffer[CREATE_KEY..CREATE_KEY + ASYMMETRIC_KEY_BYTES];
      assert clientKey == KeyInCreate(buffer[..]);
      onion.DeriveSymmetricKeyFromPublic(clientKey, globals);
      MakeCreated(buffer);
      RelaySendTorBuffer(lastOut, buffer, tlsLastKey, onion.symmetricKey, false);
      return true;
    }

    /** `extend_relay` up to its blocking read: connect to the named relay and send it CREATE. */
    method ExtendRelaySend(buffer: array<Byte>, ghost S: Setup, ghost s: State, ghost i: nat) returns (ok: bool)
      requires buffer.Length == TOR_MSG_SIZE && Shows(S, s, i) && i + 1 < |S.addrs|
      modifies buffer, nextOut
      ensures Shows(S, ExtendRelay(S, s, i, old(buffer[..])), i)
      ensures ExtendRelay(S, s, i, old(buffer[..])).roles[i] == if ok then Extending else Failed
      ensures ok <==> old(buffer[EXTEND_ADDR..EXTEND_ADDR + SOCK_ADDR_SIZE]) == nextAddr
      ensures !ok ==> nextOut.cells == old(nextOut.cells)
    {
      hide Seal, AddOnion, CreateFromExtend, Derives;
      if buffer[EXTEND_ADDR..EXTEND_ADDR + SOCK_ADDR_SIZE] != nextAddr {
        assert buffer[..][EXTEND_ADDR..EXTEND_ADDR + SOCK_ADDR_SIZE] != nextAddr;
        return false;
      }
      assert buffer[..][EXTEND_ADDR..EXTEND_ADDR + SOCK_ADDR_SIZE] == nextAddr;
      MakeCreateFromExtend(buffer);
      RelaySendTorBuffer(nextOut, buffer, tlsNextKey, onion.symmetricKey, false);
      return true;
    }

    /** The rest of `extend_relay`: read CREATED and report EXTENDED to the client. */
    method ExtendRelayFinish(buffer: array<Byte>, ghost S: Setup, ghost s: State, ghost i: nat) returns (ok: bool)
      requires buffer.Length == TOR_MSG_SIZE && Shows(S, s, i) && i + 1 < |S.addrs|
      requires s.roles[i] == Extending
      modifies buffer, nextIn, lastOut
      ensures s.back[i + 1] == [] ==> !ok && Shows(S, s, i)
      ensures s.back[i + 1] != [] ==> Shows(S, FromNext(S, s, i), i) && FromNext(S, s, i).roles[i] == if ok then Middle else Failed
      ensures ok <==> old(nextIn.cells) != [] && Unseal(AES_CIPHER, tlsNextKey, old(nextIn.cells)[0])[CMD] == TOR_CREATED
      ensures !ok ==> lastOut.cells == old(lastOut.cells)
    {
      hide Seal, Unseal, AddOnion, Derives;
      ok := RelayRecvTorBuffer(nextIn, buffer, tlsNextKey, onion.symmetricKey, false);
      if !ok {
        return;
      }
      if buffer[CMD] != TOR_CREATED {
        return false;
      }
      MakeExtended(buffer);
      RelaySendTorBuffer(lastOut, buffer, tlsLastKey, onion.symmetricKey, true);
      return true;
    }

    /**
     * The first read after CREATED decides the relay's role: an EXTEND makes it a middle
     * relay, anything else the end relay, which then acts on the cell left in the buffer.
     */
    method ReceiveRole(buffer: array<Byte>, ghost S: Setup, ghost s: State, ghost i: nat) returns (ok: bool, middle: bool)
      requires buffer.Length == TOR_MSG_SIZE && Shows(S, s, i)
      requires s.roles[i] == Created
      modifies buffer, lastIn
      ensures ok == (s.out[i] != [])
      ensures !ok ==> Shows(S, s, i)
      ensures ok ==> var t := s.(out := Pop(s.out, i)); var cell := buffer[..];
              && Shows(S, t, i)
              && middle == IsRelayCell(cell, RELAY_EXTEND)
              && FromLast(S, s, i) == if middle then ExtendRelay(S, t, i, cell) else HandleClientMsg(S, t, i, cell)
    {
      hide Seal, Unseal, AddOnion, PeelOnion, ExtendRelay, HandleClientMsg, Derives;
      ok := RelayRecvTorBuffer(lastIn, buffer, tlsLastKey, onion.symmetricKey, true);
      middle := buffer[CMD] == TOR_RELAY && buffer[RELAY_CMD] == RELAY_EXTEND;
      assert IsRelayCell(buffer[..], RELAY_EXTEND) == middle;
    }

    /** `handle_fd_common`: read from one side, change layers, write to the other. */
    method HandleFdCommon(fromClient: bool, recvMsg: array<Byte>, sendMsg: array<Byte>) returns (ok: bool)
      requires Valid() && recvMsg.Length == sendMsg.Length == TOR_MSG_SIZE && recvMsg != sendMsg
      modifies recvMsg, sendMsg, lastIn, lastOut, nextIn, nextOut
      ensures ok == (old(if fromClient then lastIn.cells else nextIn.cells) != [])
      ensures !ok ==> lastIn.cells == old(lastIn.cells) && nextIn.cells == old(nextIn.cells)
                      && lastOut.cells == old(lastOut.cells) && nextOut.cells == old(nextOut.cells)
      ensures ok && fromClient ==>
                var cell := PeelOnion(AES_CIPHER, [onion.symmetricKey], Unseal(AES_CIPHER, tlsLastKey, old(lastIn.cells)[0]));
                && recvMsg[..] == cell
                && lastIn.cells == old(lastIn.cells)[1..]
                && nextOut.cells == old(nextOut.cells) + [Seal(AES_CIPHER, tlsNextKey, cell)]
                && lastOut.cells == old(lastOut.cells) && nextIn.cells == old(nextIn.cells)
      ensures ok && !fromClient ==>
                var raw := Unseal(AES_CIPHER, tlsNextKey, old(nextIn.cells)[0]);
                && recvMsg[..] == raw
                && nextIn.cells == old(nextIn.cells)[1..]
                && lastOut.cells == old(lastOut.cells) + [Seal(AES_CIPHER, tlsLastKey, AddOnion(AES_CIPHER, [onion.symmetricKey], raw))]
                && lastIn.cells == old(lastIn.cells) && nextOut.cells == old(nextOut.cells)
    {
      hide Seal, Unseal, AddOnion, PeelOnion;
      var recvSock := if fromClient then lastIn else nextIn;
      var recvKey := if fromClient then tlsLastKey else tlsNextKey;
      ok := RelayRecvTorBuffer(recvSock, recvMsg, recvKey, onion.symmetricKey, fromClient);
      if !ok {
        return false;
      }
      CopyInto(sendMsg, 0, recvMsg[..]);
      assert sendMsg[..] == sendMsg[0..0 + TOR_MSG_SIZE] == recvMsg[..];

      var sendSock := if fromClient then nextOut else lastOut;
      var sendKey := if fromClient then tlsNextKey else tlsLastKey;
      RelaySendTorBuffer(sendSock, sendMsg, sendKey, onion.symmetricKey, !fromClient);
    }

    /** `handle_last_fd`: a cell goes out; the session goes on unless it was a DESTROY. */
    method HandleLastFd(ghost S: Setup, ghost s: State, ghost i: nat) returns (goOn: bool)
      requires Shows(S, s, i) && i + 1 < |S.addrs|
      requires s.roles[i] == Middle
      modifies lastIn, lastOut, nextIn, nextOut
      ensures s.out[i] == [] ==> !goOn && Shows(S, s, i)
      ensures s.out[i] != [] ==> Shows(S, FromLast(S, s, i), i) && FromLast(S, s, i).roles[i] == if goOn then Middle else Closed
    {
      hide Seal, Unseal, AddOnion, PeelOnion, Derives;
      var recvMsg, sendMsg := new Byte[TOR_MSG_SIZE], new Byte[TOR_MSG_SIZE];
      var ok := HandleFdCommon(true, recvMsg, sendMsg);
      if !ok {
        return false;
      }
      ghost var cell := recvMsg[..];
      goOn := recvMsg[CMD] != TOR_DESTROY;
      assert goOn == !IsDestroy(cell);
    }

    /** `handle_next_fd`: a cell comes back. */
    method HandleNextFd(ghost S: Setup, ghost s: State, ghost i: nat) returns (goOn: bool)
      requires Shows(S, s, i) && i + 1 < |S.addrs|
      requires s.roles[i] == Middle
      modifies lastIn, lastOut, nextIn, nextOut
      ensures s.back[i + 1] == [] ==> !goOn && Shows(S, s, i)
      ensures s.back[i + 1] != [] ==> goOn && Shows(S, FromNext(S, s, i), i)
    {
      hide Seal, Unseal, AddOnion, PeelOnion, Derives;
      var recvMsg, sendMsg := new Byte[TOR_MSG_SIZE], new Byte[TOR_MSG_SIZE];
      goOn := HandleFdCommon(false, recvMsg, sendMsg);
      if !goOn {
        return false;
      }
    }
  }
}
