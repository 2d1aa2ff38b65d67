/**
 * The client on a built circuit, client/router/client_session.c: its session and its table
 * of streams together, as the handlers of user commands and of received cells change them.
 */
module ClientProgram {
  import opened Bytes
  import opened TorCells
  import Pipeline
  import opened Circuit
  import opened Upload
  import ProbeTable
  import opened Inboxes
  import opened StreamIds
  import opened ClientSession

  lemma StreamsOfSend(S: Setup, s: State, cell: Cell)
    requires Fits(S, s) && s.phase == Circuit.Ready && s.cur == |S.addrs| && CanSend(s.streams, cell)
    ensures var t := After(S, s, Send(cell));
            t.streams == StreamsAfterSend(s.streams, cell) && t.phase == if IsDestroy(cell) then Gone else Circuit.Ready
  {
  }

  lemma HandledIs(s: State, cell: Cell)
    requires s.phase == Circuit.Ready
    ensures var t := HandleRelayMsg(s, cell);
            && t.received == s.received + [cell]
            && t.streams == (if IsRelayCell(cell, RELAY_END) then s.streams - {IdOf(cell)} else s.streams)
            && (t.phase != Stopped <==> !(IsRelayCell(cell, RELAY_DATA) && IdOf(cell) !in s.streams))
  {
    hide IdOf;
  }

  lemma BeginCanGo(ids: set<nat>, buffer: Cell, id: nat, addr: SockAddr)
    requires id < 0x1_0000 && forall other | other in ids :: other % ProbeTable.HASHMAP_AMOUNT != id % ProbeTable.HASHMAP_AMOUNT
    ensures var cell := BeginCell(buffer, id, addr);
            CanSend(ids, cell) && StreamsAfterSend(ids, cell) == ids + {id} && !IsDestroy(cell)
  {
    hide BeginCell, IdOf;
    BeginCellReads(buffer, id, addr);
  }

  lemma EndCanGo(ids: set<nat>, buffer: Cell, id: nat, reason: Byte)
    requires id < 0x1_0000
    ensures var cell := EndCell(buffer, id, reason);
            CanSend(ids, cell) && StreamsAfterSend(ids, cell) == ids - {id} && !IsDestroy(cell)
  {
    hide StreamCell, IdOf;
    StreamCellReads(buffer, id, RELAY_END);
    SameId(StreamCell(buffer, id, RELAY_END), EndCell(buffer, id, reason));
  }

  /** One more stream has a buffer, a new one. */
  ghost predicate Opened(before: Rings, id: ProbeTable.StreamId, after: Rings)
    requires AllInRange(before)
  {
    exists mem: NewMem :: after == RingsAfter(before, Opens(id, mem))
  }

  class Client {
    const session: ClientSession
    const streams: ClientStreams

    constructor (session: ClientSession)
      ensures this.session == session
      ensures streams.Valid() && streams.Owned() && forall id: ProbeTable.StreamId :: !streams.IsOpen(id)
      ensures fresh(streams) && fresh(streams.hashmap.entries)
    {
      this.session := session;
      streams := new ClientStreams();
    }

    ghost predicate StreamsShown(ids: set<nat>)
      reads streams, streams.hashmap.entries
    {
      && streams.Valid()
      && (forall id: ProbeTable.StreamId :: streams.IsOpen(id) <==> id in ids)
      && (forall id | id in ids :: id < 0x1_0000)
    }

    /** The client is the client's side of a circuit in state s, with the open streams of s. */
    ghost predicate Shows(S: Setup, s: State)
      reads session, session.sockIn, session.sockOut, streams, streams.hashmap.entries
    {
      session.Shows(S, s) && StreamsShown(s.streams)
    }

    /** On a built circuit, every stream with a buffer of its own, none of them the one cells are made in. */
    ghost predicate Ready(S: Setup, s: State, buffer: array<Byte>)
      reads session, session.sockIn, session.sockOut, streams, streams.hashmap.entries
      reads if streams.hashmap.Valid() then streams.Buffers() else {}
      reads if streams.hashmap.Valid() then streams.Memory() else {}
    {
      && Shows(S, s) && s.phase == Circuit.Ready && s.cur == |S.addrs|
      && streams.Owned() && Apart(buffer)
    }

    /** The buffer is the client's own: no stream's memory and not the table of streams. */
    ghost predicate Apart(buffer: array<Byte>)
      requires streams.hashmap.Valid()
      reads streams.hashmap.entries, streams.Buffers()
    {
      buffer.Length == TOR_MSG_SIZE && buffer !in streams.Memory() && (buffer as object) != streams.hashmap.entries
    }

    /** The cell in the buffer goes out, which the table of streams has no part in. */
    method SendOn(buffer: array<Byte>, ghost ids: set<nat>, ghost S: Setup, ghost s: State)
      requires StreamsShown(ids) && streams.Owned() && Apart(buffer)
      requires session.Shows(S, s) && Enabled(S, s, Send(buffer[..]))
      modifies buffer, session.sockOut
      ensures session.Shows(S, After(S, s, Send(old(buffer[..]))))
      ensures After(S, s, Send(old(buffer[..]))).streams == StreamsAfterSend(s.streams, old(buffer[..]))
      ensures StreamsShown(ids) && streams.Owned() && Apart(buffer)
      ensures streams.Rings() == old(streams.Rings())
    {
      hide After, StreamsAfterSend, CanSend, ClientStreams.Owned, ClientStreams.Rings;
      StreamsOfSend(S, s, buffer[..]);
      session.SendCell(buffer, S, s);
      assert unchanged(streams) && unchanged(streams.hashmap.entries);
      assert forall b | b in old(streams.Buffers()) :: unchanged(b);
      assert forall m | m in old(streams.Memory()) :: unchanged(m);
    }

    /** `handle_input_ping` and `handle_input_destroy`, which differ in the command */
    method HandleInputPlain(buffer: array<Byte>, cmd: Byte, ghost S: Setup, ghost s: State)
      requires Ready(S, s, buffer) && cmd in {TOR_PADDING, TOR_DESTROY}
      modifies buffer, session.sockOut
      ensures var e := Send(PlainCell(old(buffer[..]), cmd));
              Enabled(S, s, e) && Shows(S, After(S, s, e))
      ensures streams.Owned() && Apart(buffer) && streams.Valid() && streams.Rings() == old(streams.Rings())
    {
      hide After, ClientSession.Shows, ClientSession.IsPath, ClientStreams.Owned, ClientStreams.Rings;
      buffer[CMD] := cmd;
      assert buffer[..] == PlainCell(old(buffer[..]), cmd);
      SendOn(buffer, s.streams, S, s);
    }

    /** The stream part of `handle_input_connect` */
    method OpenStream(ghost ids: set<nat>) returns (id: nat)
      requires StreamsShown(ids) && streams.Owned() && !ProbeTable.Full(streams.Streams())
      modifies streams`streamId, streams.hashmap.entries
      ensures StreamsShown(ids + {Truncated(id)}) && streams.Owned() && Truncated(id) !in ids
      ensures forall other | other in ids :: other % ProbeTable.HASHMAP_AMOUNT != Truncated(id) % ProbeTable.HASHMAP_AMOUNT
      ensures forall b | b in streams.Memory() :: b in old(streams.Memory()) || fresh(b)
      ensures Opened(old(streams.Rings()), Truncated(id), streams.Rings())
    {
      hide Truncated, ClientStreams.Rings, RingsAfter;
      id := streams.Connect();
    }

    /** `handle_input_connect`: a new stream, and a BEGIN with its id. */
    method HandleInputConnect(buffer: array<Byte>, addr: SockAddr, ghost S: Setup, ghost s: State) returns (id: nat)
      requires Ready(S, s, buffer) && !ProbeTable.Full(streams.Streams())
      modifies buffer, session.sockOut, streams`streamId, streams.hashmap.entries
      ensures var e := Send(BeginCell(old(buffer[..]), id % 0x1_0000, addr));
              && Enabled(S, s, e) && Shows(S, After(S, s, e))
              && id % 0x1_0000 !in s.streams
      ensures streams.Owned() && Apart(buffer)
      ensures streams.Valid() && Opened(old(streams.Rings()), id % 0x1_0000, streams.Rings())
    {
      hide After, BeginCell, CanSend, ClientSession.Shows, ClientSession.IsPath, StreamsShown;
      id := OpenStream(s.streams);
      SendBegin(buffer, id, addr, S, s);
    }

    method SendBegin(buffer: array<Byte>, id: nat, addr: SockAddr, ghost S: Setup, ghost s: State)
      requires session.Shows(S, s) && s.phase == Circuit.Ready && s.cur == |S.addrs|
      requires StreamsShown(s.streams + {Truncated(id)}) && streams.Owned() && Apart(buffer)
      requires forall other | other in s.streams :: other % ProbeTable.HASHMAP_AMOUNT != Truncated(id) % ProbeTable.HASHMAP_AMOUNT
      modifies buffer, session.sockOut
      ensures var e := Send(BeginCell(old(buffer[..]), Truncated(id), addr));
              Enabled(S, s, e) && Shows(S, After(S, s, e))
      ensures streams.Owned() && Apart(buffer) && streams.Valid() && streams.Rings() == old(streams.Rings())
    {
      hide After, BeginCell, CanSend, StreamsAfterSend, ClientSession.IsPath, ClientStreams.Owned, ClientStreams.Rings;
      BeginCanGo(s.streams, buffer[..], Truncated(id), addr);
      MakeBegin(buffer, id, addr);
      SendOn(buffer, s.streams + {Truncated(id)}, S, s);
    }

    /** A stream is closed, by the user or by an END from the far side, if it is open. */
    method CloseStream(id: nat, ghost ids: set<nat>)
      requires StreamsShown(ids) && streams.Owned()
      modifies streams.hashmap.entries
      ensures StreamsShown(ids - {Truncated(id)}) && streams.Owned()
      ensures forall b | b in streams.Memory() :: b in old(streams.Memory())
      ensures streams.Rings() == RingsAfter(old(streams.Rings()), Closes(Truncated(id)))
    {
      hide Truncated, ClientStreams.Rings, RingsAfter;
      var wasOpen := streams.Close(id);
    }

    /** `handle_input_close`: END for any id the user names, and the stream is closed if there is one. */
    method HandleInputClose(buffer: array<Byte>, id: nat, ghost S: Setup, ghost s: State)
      requires Ready(S, s, buffer)
      modifies buffer, session.sockOut, streams.hashmap.entries
      ensures var e := Send(EndCell(old(buffer[..]), id % 0x1_0000, TOR_REASON_END_DONE));
              Enabled(S, s, e) && Shows(S, After(S, s, e))
      ensures streams.Owned() && Apart(buffer)
      ensures streams.Valid() && streams.Rings() == RingsAfter(old(streams.Rings()), Closes(id % 0x1_0000))
    {
      hide After, EndCell, CanSend, StreamsAfterSend, ClientSession.IsPath, ClientStreams.Owned, ClientStreams.Rings, RingsAfter;
      EndCanGo(s.streams, buffer[..], id % 0x1_0000, TOR_REASON_END_DONE);
      MakeEnd(buffer, id, TOR_REASON_END_DONE);
      SendOn(buffer, s.streams, S, s);
      CloseStream(id, s.streams);
    }

    /** `handle_input_send`: nothing happens for an id that is not open; else the input goes out as DATA cells. */
    method HandleInputSend(buffer: array<Byte>, id: nat, input: seq<Byte>, ghost S: Setup, ghost s: State)
      returns (ghost cells: seq<Cell>)
      requires Ready(S, s, buffer)
      modifies buffer, session.sockOut
      ensures id % 0x1_0000 !in s.streams ==> cells == [] && buffer[..] == old(buffer[..])
      ensures id % 0x1_0000 in s.streams ==> Carries(cells, id, input)
      ensures AllEnabled(S, s, cells) && Shows(S, AfterSends(S, s, cells)) && AfterSends(S, s, cells).streams == s.streams
      ensures streams.Owned() && Apart(buffer) && streams.Valid() && streams.Rings() == old(streams.Rings())
    {
      hide AfterSends, AllEnabled, DataCells, Payload, ClientStreams.Owned, ClientStreams.Rings;
      FoundAtHome(streams.Streams(), Truncated(id));
      var entry := streams.hashmap.Find(Truncated(id));
      if entry.None? {
        cells := [];
        NothingEnabled(S, s);
        return;
      }
      cells := session.SendInput(buffer, id, input, S, s);
      assert unchanged(streams) && unchanged(streams.hashmap.entries);
      assert forall b | b in old(streams.Buffers()) :: unchanged(b);
      assert forall m | m in old(streams.Memory()) :: unchanged(m);
      DataKeeps(S, s, cells, id);
    }

    /** `handle_input_recv`: a stream is read out, in which neither the session nor another stream has a part. */
    method HandleInputRecv(buffer: array<Byte>, id: nat, length: nat, ghost S: Setup, ghost s: State) returns (out: ProbeTable.Option<seq<Byte>>)
      requires Ready(S, s, buffer)
      modifies streams.Buffers()`tail, streams.Buffers()`size
      ensures Ready(S, s, buffer)
      ensures out == if id % 0x1_0000 in s.streams then ProbeTable.Some(ReadRing(old(streams.Rings())[id % 0x1_0000], length).1) else ProbeTable.None
      ensures streams.Rings() == RingsAfter(old(streams.Rings()), Reads(id % 0x1_0000, length))
    {
      hide ClientStreams.Owned, ClientSession.Shows;
      out := streams.HandleInputRecv(id, length);
    }

    /** The next cell comes in, which the table of streams has no part in yet. */
    method ReceiveOn(buffer: array<Byte>, ghost S: Setup, ghost s: State) returns (ok: bool)
      requires Ready(S, s, buffer)
      modifies buffer, session.sockIn
      ensures ok == (s.back[0] != []) && session.Shows(S, if ok then After(S, s, Receive) else s)
      ensures ok ==> After(S, s, Receive) == HandleRelayMsg(s.(back := Pipeline.Pop(s.back, 0)), buffer[..])
      ensures StreamsShown(s.streams) && streams.Owned() && Apart(buffer)
      ensures streams.Rings() == old(streams.Rings())
    {
      hide After, IsRelayCell, IdOf, HandleRelayMsg, ClientStreams.Owned, ClientStreams.Rings, ProbeTable.Searchable, AtHome;
      ok := session.ReceiveCell(buffer, S, s);
      assert unchanged(streams) && unchanged(streams.hashmap.entries);
      assert forall b | b in old(streams.Buffers()) :: unchanged(b);
      assert forall m | m in old(streams.Memory()) :: unchanged(m);
    }

    /**
     * `handle_event` for the guard's side: a cell comes in and is acted on. The session goes on
     * unless the connection is closed or the cell is DATA for a stream that is not open.
     */
    method HandleRelayEvent(buffer: array<Byte>, behind: Behind, junk: nat -> Byte, ghost S: Setup, ghost s: State)
      returns (goOn: bool)
      requires Ready(S, s, buffer)
      modifies buffer, session.sockIn, streams.hashmap.entries, streams.Buffers(), streams.Memory()
      ensures s.back[0] == [] ==> !goOn && Shows(S, s)
      ensures s.back[0] != [] ==> Shows(S, After(S, s, Receive)) && (goOn <==> After(S, s, Receive).phase != Stopped)
      ensures streams.Owned() && Apart(buffer)
      ensures s.back[0] != [] ==> After(S, s, Receive).received == s.received + [buffer[..]]
      ensures streams.Valid() && streams.Rings() == if s.back[0] == [] then old(streams.Rings())
                                 else RingsThen(old(streams.Rings()), ByReceiving(buffer[..], behind, junk))
    {
      assert Fits(S, s);
      hide After, ClientSession.Shows, ClientSession.IsPath, HandleRelayMsg, IsRelayCell, IdOf, Fits, ClientStreams.Owned, ClientStreams.Rings,
           RingsThen, ByReceiving;
      goOn := ReceiveOn(buffer, S, s);
      if !goOn {
        return;
      }
      HandledIs(s.(back := Pipeline.Pop(s.back, 0)), buffer[..]);
      goOn := HandleCell(buffer[..], behind, junk, s.streams);
    }

    /** `handle_relay_msg` */
    method HandleCell(cell: Cell, behind: Behind, junk: nat -> Byte, ghost ids: set<nat>) returns (goOn: bool)
      requires StreamsShown(ids) && streams.Owned()
      modifies streams.hashmap.entries, streams.Buffers(), streams.Memory()
      ensures goOn <==> !(IsRelayCell(cell, RELAY_DATA) && IdOf(cell) !in ids)
      ensures StreamsShown(if IsRelayCell(cell, RELAY_END) then ids - {IdOf(cell)} else ids) && streams.Owned()
      ensures streams.Rings() == RingsThen(old(streams.Rings()), ByReceiving(cell, behind, junk))
      ensures forall b | b in streams.Memory() :: b in old(streams.Memory()) || fresh(b)
    {
      if cell[CMD] != TOR_RELAY {
        return true;
      }
      hide IdOf, ClaimedData, ClientStreams.Rings;
      goOn := streams.HandleRelayRelayMsg(cell, behind, junk);
    }
  }
}
