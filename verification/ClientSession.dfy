/**
 * The client's session, client/router/client_session.c: keys from the relay list, the
 * circuit extended one relay at a time, and the cells of the built circuit. Each step
 * is shown to do to the client and its two channels what the client's step does to the
 * circuit; the loop that extends is also shown correct against any answers it may read.
 */
module ClientSession {
  import opened Bytes
  import opened Dh
  import opened KeyDerivation
  import opened Encryptions
  import opened TorCells
  import opened Onion
  import opened Pipeline
  import opened Circuit
  import opened TorNet
  import opened Upload

  datatype RelayDescriptor = RelayDescriptor(sockAddr: SockAddr, publicKey: KeyBytes)

  class ClientSession {
    const clientKey: KeyBytes
    const onionKeys: seq<Block>
    const tlsKey: Block
    var curRelays: nat
    const sockIn: Channel
    const sockOut: Channel
    const relays: seq<RelayDescriptor>

    /** `init_session`: an onion key for every relay of the list, in order. */
    constructor (identity: DhIdentityKey, globals: DhGlobals, tlsKey: Block, sockIn: Channel, sockOut: Channel, relays: seq<RelayDescriptor>)
      requires identity.Valid(globals)
      ensures this.tlsKey == tlsKey && this.sockIn == sockIn && this.sockOut == sockOut && this.relays == relays
      ensures clientKey == PublicKeyBytes(globals.g, identity.thisPrivate, globals.p)
      ensures curRelays == 0 && |onionKeys| == |relays|
      ensures forall i | 0 <= i < |relays| :: onionKeys[i] == SymmetricKey(relays[i].publicKey, identity.thisPrivate, globals.p)
    {
      hide SymmetricKey, PublicKeyBytes;
      var exported := new Byte[ASYMMETRIC_KEY_BYTES];
      identity.GetDhPublicIdentityKey(exported, globals);
      var exportedKey := exported[..];
      var keys: seq<Block> := [];
      for i := 0 to |relays|
        invariant |keys| == i
        invariant forall j | 0 <= j < i :: keys[j] == SymmetricKey(relays[j].publicKey, identity.thisPrivate, globals.p)
      {
        var key := new KeyData(identity);
        key.DeriveSymmetricKeyFromPublic(relays[i].publicKey, globals);
        keys := keys + [key.symmetricKey];
      }
      clientKey := exportedKey;
      onionKeys := keys;
      curRelays := 0;
      this.tlsKey, this.sockIn, this.sockOut, this.relays := tlsKey, sockIn, sockOut, relays;
    }

    predicate Valid()
      reads this
    {
      sockIn != sockOut && |onionKeys| == |relays| && curRelays <= |relays|
    }

    /** The session's keys and its list of relays are those of the circuit. */
    ghost predicate IsPath(S: Setup) {
      && S.cipher == AES_CIPHER && clientKey == S.clientKey && onionKeys == S.onionKeys && |relays| == |S.addrs|
      && forall i | 0 <= i < |relays| :: relays[i].sockAddr == S.addrs[i]
    }

    /** The session and its channels are the client's side of a circuit in state s. */
    ghost predicate Shows(S: Setup, s: State)
      reads this, sockIn, sockOut
    {
      && Valid() && Fits(S, s) && IsPath(S) && curRelays == s.cur
      && tlsKey == S.linkKeys[0] && sockOut.cells == s.out[0] && sockIn.cells == s.back[0]
    }

    /** `handle_create_message` up to its read: CREATE to the first relay. */
    method SendCreate(buffer: array<Byte>, ghost S: Setup, ghost s: State)
      requires Valid() && buffer.Length == TOR_MSG_SIZE
      modifies buffer, sockOut
      ensures sockOut.cells == old(sockOut.cells) + [Seal(AES_CIPHER, tlsKey, CreateCell(old(buffer[..]), clientKey))]
      ensures old(Shows(S, s)) && s.phase == Starting ==> Shows(S, After(S, s, Start(old(buffer[..]))))
    {
      hide Seal, AddOnion, CreateCell;
      MakeCreate(buffer, clientKey);
      NoOnion(buffer[..]);
      assert onionKeys[..0] == [];
      ClientSendTorBuffer(sockOut, buffer, tlsKey, onionKeys, 0);
    }

    /**
     * The rest of `handle_create_message`. It does not look whether its read succeeded: on a
     * closed connection it tests what the buffer still holds.
     */
    method ReceiveCreated(buffer: array<Byte>, ghost S: Setup, ghost s: State) returns (ok: bool)
      requires Valid() && buffer.Length == TOR_MSG_SIZE && |relays| > 0
      modifies this`curRelays, buffer, sockIn
      ensures ok == if old(sockIn.cells) == [] then old(buffer[CMD]) == TOR_CREATED
                    else Unseal(AES_CIPHER, tlsKey, old(sockIn.cells)[0])[CMD] == TOR_CREATED
      ensures curRelays == if ok then 1 else old(curRelays)
      ensures sockIn.cells == if old(sockIn.cells) == [] then [] else old(sockIn.cells)[1..]
      ensures old(Shows(S, s)) && s.phase == AwaitCreated && old(sockIn.cells) != [] ==>
                Shows(S, After(S, s, Receive)) && After(S, s, Receive).phase == if ok then Ready else ClientFailed
    {
      hide Unseal, PeelOnion, ClientReceives, HandleRelayMsg;
      if Shows(S, s) && s.phase == AwaitCreated && sockIn.cells != [] {
        ReceivesIs(S, s);
      }
      assert onionKeys[..0] == [];
      if sockIn.cells != [] {
        NoOnion(Unseal(AES_CIPHER, tlsKey, sockIn.cells[0]));
      }
      var arrived := ClientRecvTorBuffer(sockIn, buffer, tlsKey, onionKeys, 0);
      ok := buffer[CMD] == TOR_CREATED;
      assert buffer[CMD] == buffer[..][CMD] && old(buffer[CMD]) == old(buffer[..])[CMD];
      if ok {
        curRelays := 1;
      }
    }

    /** An EXTEND to relay k, layered for the relays before it and sealed. */
    function Extension(k: nat, buffer: Cell): Cell
      requires |onionKeys| == |relays| && k < |relays|
    {
      Seal(AES_CIPHER, tlsKey, AddOnion(AES_CIPHER, onionKeys[..k], ExtendCell(buffer, relays[k].sockAddr, clientKey)))
    }

    ghost predicate IsExtension(k: nat, wire: Cell) {
      |onionKeys| == |relays| && k < |relays| && exists held: Cell :: wire == Extension(k, held)
    }

    /** The answer the client accepts while k relays are in the circuit. */
    predicate Accepts(k: nat, wire: Cell) {
      k <= |onionKeys| && PeelOnion(AES_CIPHER, onionKeys[..k], Unseal(AES_CIPHER, tlsKey, wire))[RELAY_CMD] == RELAY_EXTENDED
    }

    /** The cells extend a circuit of `first` relays, one relay each, in the order of the list. */
    ghost predicate AllExtensions(first: nat, sent: seq<Cell>) {
      forall j: nat | j < |sent| :: IsExtension(first + j, sent[j])
    }

    ghost predicate AllAccepted(first: nat, answers: seq<Cell>) {
      forall j: nat | j < |answers| :: Accepts(first + j, answers[j])
    }

    lemma NothingYet(first: nat)
      ensures AllExtensions(first, []) && AllAccepted(first, [])
    {
    }

    lemma OneMoreExtension(first: nat, sent: seq<Cell>, k: nat, held: Cell)
      requires |onionKeys| == |relays| && k < |relays| && k == first + |sent|
      requires AllExtensions(first, sent)
      ensures AllExtensions(first, sent + [Extension(k, held)])
    {
      hide Extension;
      assert IsExtension(k, Extension(k, held));
    }

    lemma OneMoreAccepted(first: nat, answers: seq<Cell>, k: nat)
      requires first <= k < first + |answers|
      requires AllAccepted(first, answers[..k - first]) && Accepts(k, answers[k - first])
      ensures AllAccepted(first, answers[..k - first + 1])
    {
      hide Accepts;
    }

    /** `tor_send_extend_msg` for the next relay of the list. */
    method SendExtend(buffer: array<Byte>, ghost S: Setup, ghost s: State)
      requires Valid() && buffer.Length == TOR_MSG_SIZE && curRelays < |relays|
      modifies buffer, sockOut
      ensures sockOut.cells == old(sockOut.cells) + [Extension(curRelays, old(buffer[..]))]
      ensures old(Shows(S, s)) && s.phase == Ready ==> Shows(S, After(S, s, Extend(old(buffer[..]))))
    {
      hide Seal, AddOnion, ExtendCell;
      MakeExtend(buffer, relays[curRelays].sockAddr, clientKey);
      ClientSendTorBuffer(sockOut, buffer, tlsKey, onionKeys, curRelays);
    }

    method ReceiveExtended(buffer: array<Byte>, ghost S: Setup, ghost s: State) returns (ok: bool)
      requires Valid() && buffer.Length == TOR_MSG_SIZE && curRelays < |relays|
      modifies this`curRelays, buffer, sockIn
      ensures ok == (old(sockIn.cells) != [] && Accepts(old(curRelays), old(sockIn.cells)[0]))
      ensures curRelays == old(curRelays) + (if ok then 1 else 0)
      ensures sockIn.cells == if old(sockIn.cells) == [] then [] else old(sockIn.cells)[1..]
      ensures old(Shows(S, s)) && s.phase == AwaitExtended && old(sockIn.cells) != [] ==>
                Shows(S, After(S, s, Receive)) && After(S, s, Receive).phase == if ok then Ready else ClientFailed
    {
      hide Unseal, PeelOnion, ClientReceives, HandleRelayMsg;
      if Shows(S, s) && s.phase == AwaitExtended && sockIn.cells != [] {
        ReceivesIs(S, s);
      }
      ok := ClientRecvTorBuffer(sockIn, buffer, tlsKey, onionKeys, curRelays);
      if !ok {
        return;
      }
      ok := buffer[RELAY_CMD] == RELAY_EXTENDED;
      assert buffer[RELAY_CMD] == buffer[..][RELAY_CMD];
      if ok {
        curRelays := curRelays + 1;
      }
    }

    /**
     * `create_relay_circuit`, given everything the guard is going to answer: it extends
     * for as long as the answers are accepted, one EXTEND for each, and ends with all
     * relays in the circuit or at the first answer that is missing or refused.
     */
    method CreateRelayCircuit(buffer: array<Byte>) returns (ok: bool, ghost sent: seq<Cell>)
      requires Valid() && buffer.Length == TOR_MSG_SIZE
      modifies this`curRelays, buffer, sockIn, sockOut
      ensures old(curRelays) <= curRelays <= |relays|
      ensures ok == (curRelays == |relays|)
      ensures var done := curRelays - old(curRelays); var answers := old(sockIn.cells);
              && done <= |answers|
              && AllAccepted(old(curRelays), answers[..done])
              && (!ok ==> done == |answers| || !Accepts(curRelays, answers[done]))
      ensures sockOut.cells == old(sockOut.cells) + sent
      ensures |sent| == curRelays - old(curRelays) + (if ok then 0 else 1)
      ensures AllExtensions(old(curRelays), sent)
    {
      hide Extension, Accepts, AllExtensions, AllAccepted;
      ghost var S: Setup, s: State := *, *;  // the loop is followed for answers of any origin
      ghost var first := curRelays;
      ghost var answers := sockIn.cells;
      sent := [];
      NothingYet(first);
      assert answers[..0] == [];
      while curRelays < |relays|
        invariant first <= curRelays <= |relays| && Valid()
        invariant curRelays - first <= |answers| && sockIn.cells == answers[curRelays - first..]
        invariant AllAccepted(first, answers[..curRelays - first])
        invariant sockOut.cells == old(sockOut.cells) + sent && |sent| == curRelays - first
        invariant AllExtensions(first, sent)
      {
        OneMoreExtension(first, sent, curRelays, buffer[..]);
        sent := sent + [Extension(curRelays, buffer[..])];
        SendExtend(buffer, S, s);
        assert sockIn.cells != [] ==> sockIn.cells[0] == answers[curRelays - first];
        ok := ReceiveExtended(buffer, S, s);
        if !ok {
          return;
        }
        OneMoreAccepted(first, answers, curRelays - 1);
      }
      ok := true;
    }

    /** A cell of the built circuit goes out under all layers. */
    method SendCell(buffer: array<Byte>, ghost S: Setup, ghost s: State)
      requires Valid() && buffer.Length == TOR_MSG_SIZE && curRelays == |relays|
      modifies buffer, sockOut
      ensures sockOut.cells == old(sockOut.cells) + [Seal(AES_CIPHER, tlsKey, AddOnion(AES_CIPHER, onionKeys, old(buffer[..])))]
      ensures old(Shows(S, s)) && Enabled(S, s, Send(old(buffer[..]))) ==> Shows(S, After(S, s, Send(old(buffer[..]))))
    {
      hide Seal, AddOnion;
      assert onionKeys[..curRelays] == onionKeys;
      ClientSendTorBuffer(sockOut, buffer, tlsKey, onionKeys, curRelays);
    }

    /**
     * The loop of `handle_input_send`: the input goes out in DATA cells of at most 498
     * bytes, each made over what the one before has left in the buffer.
     */
    method SendInput(buffer: array<Byte>, streamId: nat, input: seq<Byte>, ghost S: Setup, ghost s: State)
      returns (ghost cells: seq<Cell>)
      requires Valid() && buffer.Length == TOR_MSG_SIZE && curRelays == |relays|
      modifies buffer, sockOut
      ensures sockOut.cells == old(sockOut.cells) + Sealed(cells)
      ensures Carries(cells, streamId, input)
      ensures |cells| == (|input| + RELAY_DATA_MSG_SIZE - 1) / RELAY_DATA_MSG_SIZE
      ensures old(Shows(S, s)) && s.phase == Ready && streamId % 0x1_0000 in s.streams ==>
                Shows(S, AfterSends(S, s, cells)) && AllEnabled(S, s, cells)
    {
      hide Seal, AddOnion, DataCell, DataCells, Payload, AfterSends, AllEnabled, Enabled, After;
      cells := [];
      var index := 0;
      CarriesNothing(streamId);
      ghost var shown := Shows(S, s) && s.phase == Ready && streamId % 0x1_0000 in s.streams;
      if shown {
        NothingEnabled(S, s);
      }
      hide Shows;
      while index < |input|
        invariant 0 <= index <= |input|
        invariant index == if index < |input| then |cells| * RELAY_DATA_MSG_SIZE else |input|
        invariant |cells| == (index + RELAY_DATA_MSG_SIZE - 1) / RELAY_DATA_MSG_SIZE
        invariant sockOut.cells == old(sockOut.cells) + Sealed(cells)
        invariant Carries(cells, streamId, input[..index])
        invariant shown ==> Fits(S, s) && s.cur == |S.addrs| && Shows(S, AfterSends(S, s, cells)) && AllEnabled(S, s, cells)
      {
        var curDataLength := if RELAY_DATA_MSG_SIZE < |input| - index then RELAY_DATA_MSG_SIZE else |input| - index;
        var chunk := input[index..index + curDataLength];
        ghost var cell := DataCell(buffer[..], streamId, chunk);
        CarriesMore(cells, streamId, input[..index], buffer[..], chunk);
        if shown {
          OneMoreEnabled(S, s, cells, streamId, buffer[..], chunk);
        }
        MakeData(buffer, streamId, chunk);
        SendCell(buffer, S, if shown then AfterSends(S, s, cells) else s);
        cells := cells + [cell];
        assert input[..index] + chunk == input[..index + curDataLength];
        index := index + curDataLength;
      }
      assert input[..index] == input;
    }

    /** Cells as they go out on a built circuit. */
    function Sealed(cells: seq<Cell>): seq<Cell> {
      seq(|cells|, j requires 0 <= j < |cells| => Seal(AES_CIPHER, tlsKey, AddOnion(AES_CIPHER, onionKeys, cells[j])))
    }

    /** A cell of the built circuit comes in, and all layers come off; the client's own acting on it is not part of this method. */
    method ReceiveCell(buffer: array<Byte>, ghost S: Setup, ghost s: State) returns (ok: bool)
      requires Valid() && buffer.Length == TOR_MSG_SIZE && curRelays == |relays|
      modifies buffer, sockIn
      ensures ok == (old(sockIn.cells) != [])
      ensures ok ==> buffer[..] == PeelOnion(AES_CIPHER, onionKeys, Unseal(AES_CIPHER, tlsKey, old(sockIn.cells)[0]))
      ensures sockIn.cells == if ok then old(sockIn.cells)[1..] else []
      ensures !ok && old(Shows(S, s)) ==> Shows(S, s)
      ensures ok && old(Shows(S, s)) && s.phase == Ready ==>
                Shows(S, After(S, s, Receive)) && After(S, s, Receive) == HandleRelayMsg(s.(back := Pop(s.back, 0)), buffer[..])
    {
      hide Unseal, PeelOnion, ClientReceives, HandleRelayMsg;
      if Shows(S, s) && s.phase == Ready && sockIn.cells != [] {
        ReceivesIs(S, s);
      }
      assert onionKeys[..curRelays] == onionKeys;
      ok := ClientRecvTorBuffer(sockIn, buffer, tlsKey, onionKeys, curRelays);
    }
  }

  /** The circuit after the client has sent some cells one by one. */
  function AfterSends(S: Setup, s: State, cells: seq<Cell>): (t: State)
    requires Fits(S, s)
    ensures Fits(S, t)
  {
    if cells == [] then s else ClientSends(S, AfterSends(S, s, cells[..|cells| - 1]), cells[|cells| - 1])
  }

  /** Each of the cells may be sent after those before it. */
  predicate AllEnabled(S: Setup, s: State, cells: seq<Cell>)
    requires Fits(S, s)
  {
    forall k | 0 <= k < |cells| :: Enabled(S, AfterSends(S, s, cells[..k]), Send(cells[k]))
  }

  lemma NothingEnabled(S: Setup, s: State)
    requires Fits(S, s)
    ensures AllEnabled(S, s, []) && AfterSends(S, s, []) == s
  {
  }

  /** DATA for an open stream keeps the stream open, so more of it may follow. */
  lemma {:induction false} DataKeeps(S: Setup, s: State, cells: seq<Cell>, streamId: nat)
    requires Fits(S, s) && s.phase == Ready && s.cur == |S.addrs| && streamId % 0x1_0000 in s.streams
    requires DataCells(cells, streamId)
    ensures var t := AfterSends(S, s, cells);
            t.phase == Ready && t.cur == s.cur && t.streams == s.streams
  {
    hide AddOnion, Seal, Uint16At;
    if cells != [] {
      DataKeeps(S, s, cells[..|cells| - 1], streamId);
      assert IsRelayCell(cells[|cells| - 1], RELAY_DATA);
    }
  }

  lemma OneMoreEnabled(S: Setup, s: State, cells: seq<Cell>, streamId: nat, buffer: Cell, chunk: seq<Byte>)
    requires Fits(S, s) && s.phase == Ready && s.cur == |S.addrs| && streamId % 0x1_0000 in s.streams
    requires DataCells(cells, streamId) && |chunk| <= RELAY_DATA_MSG_SIZE && AllEnabled(S, s, cells)
    ensures var cell := DataCell(buffer, streamId, chunk);
            && Enabled(S, AfterSends(S, s, cells), Send(cell))
            && AfterSends(S, s, cells + [cell]) == After(S, AfterSends(S, s, cells), Send(cell))
            && AllEnabled(S, s, cells + [cell])
  {
    hide DataCell, Uint16At, DataOf, ClientSends;
    var cell := DataCell(buffer, streamId, chunk);
    var more := cells + [cell];
    DataCellReads(buffer, streamId, chunk);
    DataKeeps(S, s, cells, streamId);
    assert IdOf(cell) == Uint16At(cell, STREAM_ID);
    assert more[..|more| - 1] == cells;
    forall k | 0 <= k < |more|
      ensures Enabled(S, AfterSends(S, s, more[..k]), Send(more[k]))
    {
      assert more[..k] == cells[..k];
    }
  }

  /** What the client's reading step comes to, phase by phase. */
  lemma ReceivesIs(S: Setup, s: State)
    requires Fits(S, s) && Enabled(S, s, Receive)
    ensures var raw := Unseal(S.cipher, S.linkKeys[0], s.back[0][0]);
            var cell := PeelOnion(S.cipher, S.onionKeys[..s.cur], raw);
            var t := s.(back := Pop(s.back, 0));
            After(S, s, Receive) ==
              if s.phase == AwaitCreated then
                if raw[CMD] == TOR_CREATED then t.(phase := Ready, cur := 1) else t.(phase := ClientFailed)
              else if s.phase == AwaitExtended then
                if cell[RELAY_CMD] == RELAY_EXTENDED && s.cur < |S.addrs| then t.(phase := Ready, cur := s.cur + 1)
                else t.(phase := ClientFailed)
              else HandleRelayMsg(t, cell)
  {
    hide Unseal, PeelOnion, HandleRelayMsg;
  }

  lemma NoOnion(cell: Cell)
    ensures AddOnion(AES_CIPHER, [], cell) == cell && PeelOnion(AES_CIPHER, [], cell) == cell
  {
    assert cell[..HEADER] + cell[HEADER..] == cell;
  }
}
