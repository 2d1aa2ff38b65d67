/**
 * The end relay's handlers as relay/router/relay_end.c runs them: the table of sockets,
 * the epoll set and the cell buffer change in place, and replies go into the channel to
 * the client. Each handler is shown to be the step of the streams' state and, at the
 * same time, the step of this relay in the circuit.
 */
module RelayEndSession {
  import opened Arithmetic
  import opened Bytes
  import opened TorCells
  import opened Onion
  import opened ProbeTable
  import opened TorNet
  import opened RelayEnd
  import opened CircuitStreams
  import Pipeline
  import Circuit
  import RelaySession

  class EndRelay {
    const session: RelaySession.RelaySession
    const hashmap: HashMap<Socket>
    const lastFd: Socket
    var watched: map<Socket, nat>
    ghost var open: set<Socket>
    ghost var inserted: multiset<Socket>
    ghost var closed: multiset<Socket>
    ghost var writes: seq<Write>

    ghost function State(): Streams
      requires hashmap.Valid()
      reads this, hashmap.entries
    {
      Streams(hashmap.Contents(), watched, open, inserted, closed, writes)
    }

    ghost predicate Valid()
      reads this, hashmap.entries
    {
      hashmap.Valid() && Sound(State(), lastFd)
    }

    /** This session is relay i of the circuit, and the end of it. */
    ghost predicate IsEnd(S: Circuit.Setup, s: Circuit.State, i: nat)
      reads session, session.globals, session.onion, session.onion.session, session.onion.session.identity,
            session.lastIn, session.lastOut, session.nextIn, session.nextOut
    {
      session.Shows(S, s, i) && s.roles[i] == Circuit.End
    }

    /** `process_end_relay_session` up to its loop */
    constructor (session: RelaySession.RelaySession, lastFd: Socket)
      ensures Valid() && fresh(hashmap.entries)
      ensures this.session == session && this.lastFd == lastFd && State() == WithClient(lastFd)
    {
      this.session, this.lastFd := session, lastFd;
      hashmap := new HashMap<Socket>();
      watched := map[lastFd := CLIENT_STREAM_ID];
      open := {lastFd};
      inserted, closed, writes := multiset{}, multiset{}, [];
      new;
      StartIsSound(lastFd);
    }

    /** A reply leaves under the relay's own layer. */
    method SendReply(buffer: array<Byte>, ghost S: Circuit.Setup, ghost s: Circuit.State, ghost i: nat)
      requires buffer.Length == TOR_MSG_SIZE && IsEnd(S, s, i)
      modifies buffer, session.lastOut
      ensures IsEnd(S, Replied(S, s, i, Some(old(buffer[..]))), i)
    {
      hide Seal, AddOnion, RelaySession.RelaySession.Derives;
      RelaySendTorBuffer(session.lastOut, buffer, session.tlsLastKey, session.onion.symmetricKey, true);
    }

    /** `tor_send_end_relay_end` */
    method TorSendEndRelayEnd(buffer: array<Byte>, id: StreamId, reason: Byte, ghost S: Circuit.Setup, ghost s: Circuit.State, ghost i: nat)
      requires buffer.Length == TOR_MSG_SIZE && IsEnd(S, s, i)
      modifies buffer, session.lastOut
      ensures IsEnd(S, Replied(S, s, i, Some(EndCell(old(buffer[..]), id, reason))), i)
    {
      hide StreamCell, Replied, IsEnd;
      MakeStreamCell(buffer, id, RELAY_END);
      buffer[REASON] := reason;
      SendReply(buffer, S, s, i);
    }

    /** `tor_send_end_relay_connected` */
    method TorSendEndRelayConnected(buffer: array<Byte>, id: StreamId, ghost S: Circuit.Setup, ghost s: Circuit.State, ghost i: nat)
      requires buffer.Length == TOR_MSG_SIZE && IsEnd(S, s, i)
      modifies buffer, session.lastOut
      ensures IsEnd(S, Replied(S, s, i, Some(ConnectedCell(old(buffer[..]), id))), i)
    {
      hide StreamCell, Replied, IsEnd;
      MakeStreamCell(buffer, id, RELAY_CONNECTED);
      SendReply(buffer, S, s, i);
    }

    /** `tor_send_end_relay_data`: of a full read of 498 bytes the last goes to the byte behind the buffer. */
    method TorSendEndRelayData(buffer: array<Byte>, behind: array<Byte>, id: StreamId, data: seq<Byte>,
                               ghost S: Circuit.Setup, ghost s: Circuit.State, ghost i: nat)
      requires buffer.Length == TOR_MSG_SIZE && behind.Length == 1 && behind != buffer
      requires IsEnd(S, s, i) && |data| <= RELAY_DATA_MSG_SIZE
      modifies buffer, behind, session.lastOut
      ensures IsEnd(S, Replied(S, s, i, Some(ReceivedCell(old(buffer[..]), id, data))), i)
      ensures behind[0] == ReceivedMemory(old(buffer[..]), old(behind[0]), id, data)[TOR_MSG_SIZE]
    {
      hide ReceivedCell, ReceivedMemory, Replied, IsEnd;
      MakeReceived(buffer, behind, id, data);
      SendReply(buffer, S, s, i);
    }

    method MakeReceived(buffer: array<Byte>, behind: array<Byte>, id: StreamId, data: seq<Byte>)
      requires buffer.Length == TOR_MSG_SIZE && behind.Length == 1 && behind != buffer && |data| <= RELAY_DATA_MSG_SIZE
      modifies buffer, behind
      ensures buffer[..] == ReceivedCell(old(buffer[..]), id, data)
      ensures behind[0] == ReceivedMemory(old(buffer[..]), old(behind[0]), id, data)[TOR_MSG_SIZE]
    {
      CopyOver(ReceivedFields(buffer[..], id, |data|), behind[0], data);
      hide StreamCell, Put, Uint16;
      MakeStreamCell(buffer, id, RELAY_DATA);
      PutInto(buffer, LENGTH, Uint16(|data|));
      PutInto(buffer, END_DATA, data[..Min(|data|, END_DATA_SIZE)]);
      if |data| > END_DATA_SIZE {
        behind[0] := data[END_DATA_SIZE];
      }
    }

    /** `handle_relay_begin` */
    method HandleRelayBegin(buffer: array<Byte>, connected: Option<Socket>, ghost S: Circuit.Setup, ghost s: Circuit.State, ghost i: nat)
      requires buffer.Length == TOR_MSG_SIZE && Valid() && IsEnd(S, s, i)
      requires connected.Some? ==> connected.value !in open
      modifies this, hashmap.entries, buffer, session.lastOut
      ensures hashmap.Valid()
      ensures var r := HandleBegin(old(State()), old(buffer[..]), connected);
              State() == r.streams && IsEnd(S, Replied(S, s, i, r.reply), i)
    {
      hide EndCell, ConnectedCell, InsertPlace, Replied, IsEnd, Sound;
      assert buffer[..][STREAM_ID] == buffer[STREAM_ID] && buffer[..][STREAM_ID + 1] == buffer[STREAM_ID + 1];
      var streamId := IdOf(buffer[..]);
      if connected.None? {
        TorSendEndRelayEnd(buffer, streamId, TOR_REASON_END_FAIL_INIT, S, s, i);
        return;
      }
      var sockFd := connected.value;
      open := open + {sockFd};
      var entry := hashmap.Insert(streamId, sockFd);
      if !entry {
        TorSendEndRelayEnd(buffer, streamId, TOR_REASON_END_FAIL_INIT, S, s, i);
        return;
      }
      inserted := inserted + multiset{sockFd};
      watched := watched[sockFd := streamId];
      TorSendEndRelayConnected(buffer, streamId, S, s, i);
    }

    /** `close`, which the handlers call on open sockets only */
    method Close(sockFd: Socket)
      requires sockFd in open
      modifies this`open, this`closed
      ensures open == old(open) - {sockFd} && closed == old(closed) + multiset{sockFd}
    {
      open := open - {sockFd};
      closed := closed + multiset{sockFd};
    }

    /** `handle_relay_data`, when the `send` to the stream's socket is accepted or not */
    method HandleRelayData(buffer: array<Byte>, accepted: bool, ghost S: Circuit.Setup, ghost s: Circuit.State, ghost i: nat)
      requires buffer.Length == TOR_MSG_SIZE && Valid() && IsEnd(S, s, i)
      modifies this, hashmap.entries, buffer, session.lastOut
      ensures hashmap.Valid()
      ensures var r := HandleData(old(State()), old(buffer[..]), accepted);
              State() == r.streams && IsEnd(S, Replied(S, s, i, r.reply), i)
    {
      hide EndCell, FindPlace, Replied, IsEnd, Sound;
      assert buffer[..][STREAM_ID] == buffer[STREAM_ID] && buffer[..][STREAM_ID + 1] == buffer[STREAM_ID + 1];
      var streamId := IdOf(buffer[..]);
      var entry := hashmap.Find(streamId);
      if entry.None? {
        TorSendEndRelayEnd(buffer, streamId, TOR_REASON_END_ABSENT, S, s, i);
        return;
      }
      var sockFd := hashmap.entries[entry.value].value;
      var length := Uint16At(buffer[..], LENGTH);
      if !accepted || length == 0 {
        TorSendEndRelayEnd(buffer, streamId, TOR_REASON_END_EOF, S, s, i);
        return;
      }
      writes := writes + [Write(sockFd, buffer[..])];
      NoReply(S, s, i);
    }

    lemma NoReply(S: Circuit.Setup, s: Circuit.State, i: nat)
      requires IsEnd(S, s, i)
      ensures IsEnd(S, Replied(S, s, i, None), i)
    {
    }

    /** The part of `handle_relay_end` and `handle_internet_event` that ends a stream. */
    method DropStream(streamId: StreamId, entry: nat)
      requires Valid() && FindPlace(State().table, streamId, 0) == Some(entry)
      modifies this, hashmap.entries
      ensures Valid() && entry < HASHMAP_AMOUNT && old(State()).table[entry].Filled?
      ensures State() == Drop(old(State()), entry)
    {
      hide FindPlace, Sound;
      ghost var e := State();
      FindPlaceHas(e.table, streamId, 0);
      DropKeeps(e, lastFd, entry, streamId);
      assert hashmap.entries[entry] == e.table[entry];
      var sockFd := hashmap.entries[entry].value;
      watched := watched - {sockFd};
      Close(sockFd);
      var ok := hashmap.Remove(streamId);
      assert hashmap.Contents() == e.table[entry := Deleted];
    }

    /** `handle_relay_end` */
    method HandleRelayEnd(buffer: array<Byte>, ghost S: Circuit.Setup, ghost s: Circuit.State, ghost i: nat)
      requires buffer.Length == TOR_MSG_SIZE && Valid() && IsEnd(S, s, i)
      modifies this, hashmap.entries, buffer, session.lastOut
      ensures hashmap.Valid()
      ensures var r := HandleEnd(old(State()), old(buffer[..]));
              State() == r.streams && IsEnd(S, Replied(S, s, i, r.reply), i)
    {
      hide EndCell, FindPlace, Replied, IsEnd, Sound, Drop;
      assert buffer[..][STREAM_ID] == buffer[STREAM_ID] && buffer[..][STREAM_ID + 1] == buffer[STREAM_ID + 1];
      var streamId := IdOf(buffer[..]);
      var entry := hashmap.Find(streamId);
      if entry.None? {
        TorSendEndRelayEnd(buffer, streamId, TOR_REASON_END_ABSENT, S, s, i);
        return;
      }
      DropStream(streamId, entry.value);
      TorSendEndRelayEnd(buffer, streamId, TOR_REASON_END_DONE, S, s, i);
    }

    function Taken(s: Circuit.State, i: nat, cell: Cell): Circuit.State
      requires i < |s.roles|
    {
      Circuit.Become(s.(taken := s.taken + [cell]), i, Circuit.End)
    }

    lemma ActsAsEnd(S: Circuit.Setup, s: Circuit.State, i: nat, cell: Cell)
      requires session.Shows(S, s, i)
      ensures var t := Circuit.HandleClientMsg(S, s, i, cell);
              && (cell[CMD] == TOR_DESTROY ==> session.Shows(S, t, i) && t.roles[i] == Circuit.Closed)
              && (cell[CMD] == TOR_PADDING ==> IsEnd(S, Taken(s, i, cell), i) && t == Replied(S, Taken(s, i, cell), i, Some(cell)))
              && (cell[CMD] != TOR_DESTROY && cell[CMD] != TOR_PADDING ==> IsEnd(S, t, i) && t == Taken(s, i, cell))
    {
      hide AddOnion, Seal, RelaySession.RelaySession.Derives;
    }

    /** The switch of `handle_client_msg` over relay commands. */
    method HandleRelayMsg(buffer: array<Byte>, world: World, ghost S: Circuit.Setup, ghost s: Circuit.State, ghost i: nat)
      requires buffer.Length == TOR_MSG_SIZE && Valid() && IsEnd(S, s, i)
      requires world.connected.Some? ==> world.connected.value !in open
      modifies this, hashmap.entries, buffer, session.lastOut
      ensures hashmap.Valid()
      ensures var r := HandleRelayCell(old(State()), old(buffer[..]), world);
              State() == r.streams && IsEnd(S, Replied(S, s, i, r.reply), i)
    {
      hide Sound, HandleBegin, HandleData, HandleEnd, Replied, IsEnd;
      ghost var cell := buffer[..];
      assert cell[RELAY_CMD] == buffer[RELAY_CMD];
      if buffer[RELAY_CMD] == RELAY_BEGIN {
        HandleRelayBegin(buffer, world.connected, S, s, i);
      } else if buffer[RELAY_CMD] == RELAY_END {
        HandleRelayEnd(buffer, S, s, i);
      } else if buffer[RELAY_CMD] == RELAY_DATA {
        HandleRelayData(buffer, world.accepted, S, s, i);
      } else {
        NoReply(S, s, i);
      }
    }

    /** `handle_client_msg` on any cell but DESTROY */
    method HandleOtherMsg(buffer: array<Byte>, world: World, ghost S: Circuit.Setup, ghost s: Circuit.State, ghost i: nat)
      requires buffer.Length == TOR_MSG_SIZE && Valid() && IsEnd(S, s, i) && buffer[CMD] != TOR_DESTROY
      requires world.connected.Some? ==> world.connected.value !in open
      modifies this, hashmap.entries, buffer, session.lastOut
      ensures hashmap.Valid()
      ensures var r := HandleClientCell(old(State()), old(buffer[..]), world);
              r.Some? && State() == r.value.streams && IsEnd(S, Replied(S, s, i, r.value.reply), i)
    {
      hide Sound, HandleRelayCell, Replied, IsEnd;
      assert buffer[..][CMD] == buffer[CMD];
      if buffer[CMD] == TOR_PADDING {
        SendReply(buffer, S, s, i);
      } else if buffer[CMD] != TOR_RELAY {
        NoReply(S, s, i);
      } else {
        HandleRelayMsg(buffer, world, S, s, i);
      }
    }

    /** A cell has done to the streams what it is to do, and the circuit is in state t, or past the streams' answer in it. */
    ghost predicate HasActed(before: Streams, cell: Cell, world: World, S: Circuit.Setup, t: Circuit.State, i: nat, goOn: bool)
      requires hashmap.Valid()
      reads this, hashmap.entries
      reads session, session.globals, session.onion, session.onion.session, session.onion.session.identity,
            session.lastIn, session.lastOut, session.nextIn, session.nextOut
    {
      var r := HandleClientCell(before, cell, world);
      && goOn == r.Some?
      && (!goOn ==> State() == before && session.Shows(S, t, i) && t.roles[i] == Circuit.Closed)
      && (goOn ==> State() == r.value.streams && Circuit.Fits(S, t) && i < |S.addrs|
                   && IsEnd(S, if Circuit.IsPadding(cell) then t else Replied(S, t, i, r.value.reply), i))
    }

    /** `handle_client_msg`: what a cell does to the streams, and to the circuit together with its answer. */
    method HandleClientMsg(buffer: array<Byte>, world: World, ghost S: Circuit.Setup, ghost s: Circuit.State, ghost i: nat)
      returns (goOn: bool)
      requires buffer.Length == TOR_MSG_SIZE && Valid() && session.Shows(S, s, i)
      requires s.roles[i] in {Circuit.Created, Circuit.End}
      requires world.connected.Some? ==> world.connected.value !in open
      modifies this, hashmap.entries, buffer, session.lastOut
      ensures Valid()
      ensures HasActed(old(State()), old(buffer[..]), world, S, Circuit.HandleClientMsg(S, s, i, old(buffer[..])), i, goOn)
    {
      ghost var cell := buffer[..];
      StaysSound(cell, world);
      ActsAsEnd(S, s, i, cell);
      hide Sound, HandleRelayCell, Replied, Circuit.HandleClientMsg, IsEnd, Taken, Circuit.Fits, AddOnion, RelaySession.RelaySession.Shows;
      assert cell[CMD] == buffer[CMD];
      if buffer[CMD] == TOR_DESTROY {
        return false;
      }
      HandleOtherMsg(buffer, world, S, Taken(s, i, cell), i);
      return true;
    }

    lemma StaysSound(cell: Cell, world: World)
      requires Valid() && (world.connected.Some? ==> world.connected.value !in open)
      ensures var r := HandleClientCell(State(), cell, world);
              r.Some? ==> Sound(r.value.streams, lastFd)
    {
      hide Sound, HandleRelayCell;
      if cell[CMD] != TOR_DESTROY {
        StepIsSound(State(), lastFd, ClientCell(cell, world));
      }
    }

    /** `handle_event` for the client's side: a cell is read and acted on, as the circuit's step of this relay. */
    method HandleClientEvent(buffer: array<Byte>, world: World, ghost S: Circuit.Setup, ghost s: Circuit.State, ghost i: nat)
      returns (goOn: bool)
      requires buffer.Length == TOR_MSG_SIZE && Valid() && IsEnd(S, s, i)
      requires world.connected.Some? ==> world.connected.value !in open
      modifies this, hashmap.entries, buffer, session.lastIn, session.lastOut
      ensures Valid()
      ensures s.out[i] == [] ==> !goOn && State() == old(State()) && IsEnd(S, s, i)
      ensures s.out[i] != [] ==>
                HasActed(old(State()), CellAt(S, s, i), world, S, Circuit.FromLast(S, s, i), i, goOn)
    {
      hide Sound, HandleClientCell, HasActed, Circuit.HandleClientMsg, Unseal, PeelOnion, Seal, AddOnion, RelaySession.RelaySession.Derives;
      goOn := RelayRecvTorBuffer(session.lastIn, buffer, session.tlsLastKey, session.onion.symmetricKey, true);
      if !goOn {
        return;
      }
      ghost var t := s.(out := Pipeline.Pop(s.out, i));
      assert session.Shows(S, t, i);
      goOn := HandleClientMsg(buffer, world, S, t, i);
    }

    /** `handle_event` for a stream's socket: the entry of the reported id is looked up, and its socket's bytes or end passed on. */
    method HandleSocketEvent(id: StreamId, buffer: array<Byte>, behind: array<Byte>, received: seq<Byte>,
                             ghost S: Circuit.Setup, ghost s: Circuit.State, ghost i: nat)
      returns (goOn: bool)
      requires buffer.Length == TOR_MSG_SIZE && behind.Length == 1 && behind != buffer && Valid() && IsEnd(S, s, i) && |received| <= RELAY_DATA_MSG_SIZE
      modifies this, hashmap.entries, buffer, behind, session.lastOut
      ensures Valid()
      ensures var r := RelayEnd.HandleSocketEvent(old(State()), id, old(buffer[..]), received);
              && goOn == r.Some?
              && (!goOn ==> State() == old(State()) && IsEnd(S, s, i))
              && (goOn ==> State() == r.value.streams && IsEnd(S, Replied(S, s, i, r.value.reply), i))
      ensures behind[0] == if goOn && received != [] then ReceivedMemory(old(buffer[..]), old(behind[0]), id, received)[TOR_MSG_SIZE]
                           else old(behind[0])
    {
      hide Sound, FindPlace, Replied, EndCell, ReceivedCell, ReceivedMemory, Drop, IsEnd;
      var entry := hashmap.Find(id);
      if entry.None? {
        return false;
      }
      if received == [] {
        DropStream(id, entry.value);
        TorSendEndRelayEnd(buffer, id, TOR_REASON_END_EOF, S, s, i);
        return true;
      }
      TorSendEndRelayData(buffer, behind, id, received, S, s, i);
      return true;
    }

    /** `socket_hashmap_free`: every socket in the table is closed, each while it is open. */
    method FreeSockets()
      requires Valid()
      modifies this`open, this`closed
      ensures State() == Freed(old(State()))
      ensures closed == inserted
    {
      hide Sound, FreedUpTo, Held;
      ghost var e := State();
      FreedClosesAll(e, lastFd);
      for i := 0 to HASHMAP_AMOUNT
        invariant State() == FreedUpTo(e, i)
      {
        FreesOne(e, lastFd, i);
        assert hashmap.entries[i] == e.table[i];
        if hashmap.entries[i].Filled? {
          Close(hashmap.entries[i].value);
        }
      }
    }
  }
}
