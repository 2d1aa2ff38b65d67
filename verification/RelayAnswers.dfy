/**
 * What the end relay does with each kind of cell and event, by the fields of its answer and by
 * what becomes of its sockets: every branch of the handlers, told without their cells.
 */
module RelayAnswers {
  import opened Bytes
  import opened TorCells
  import opened ProbeTable
  import opened RelayEnd

  predicate IsStreamCell(c: Cell, id: StreamId, cmd: Byte) {
    IsRelayCell(c, cmd) && IdOf(c) == id
  }

  predicate IsEndCell(c: Cell, id: StreamId, reason: Byte) {
    IsStreamCell(c, id, RELAY_END) && c[REASON] == reason
  }

  /** The outcome leaves the streams as they are and answers with END for this reason. */
  predicate Refuses(e: Streams, r: Outcome, id: StreamId, reason: Byte) {
    r.streams == e && r.reply.Some? && IsEndCell(r.reply.value, id, reason)
  }

  /** One more socket, watched under the id and put on the id's stack. */
  predicate Pushed(e: Streams, after: Streams, id: StreamId, socket: Socket) {
    && Stack(after.table, id) == [socket] + Stack(e.table, id)
    && (forall other: StreamId | other != id :: Stack(after.table, other) == Stack(e.table, other))
    && after.watched == e.watched[socket := id] && after.open == e.open + {socket}
    && after.inserted == e.inserted + multiset{socket} && after.closed == e.closed && after.writes == e.writes
  }

  /** The last socket of the id is gone from its stack, not watched any more, and closed once. */
  predicate Popped(e: Streams, after: Streams, id: StreamId) {
    && Stack(e.table, id) != []
    && var socket := Stack(e.table, id)[0];
    && Stack(after.table, id) == Stack(e.table, id)[1..]
    && (forall other: StreamId | other != id :: Stack(after.table, other) == Stack(e.table, other))
    && after.watched == e.watched - {socket} && after.open == e.open - {socket}
    && after.closed == e.closed + multiset{socket} && after.inserted == e.inserted && after.writes == e.writes
  }

  lemma EndCellReads(buffer: Cell, id: StreamId, reason: Byte)
    ensures IsEndCell(EndCell(buffer, id, reason), id, reason)
  {
    hide Uint16At;
    StreamCellReads(buffer, id, RELAY_END);
    ReasonApart(StreamCell(buffer, id, RELAY_END), reason);
  }

  lemma ReasonApart(c: Cell, reason: Byte)
    ensures IdOf(c[REASON := reason]) == IdOf(c)
  {
  }

  /**
   * A BEGIN is always answered, for its id: with CONNECTED exactly when the connect succeeded and
   * the table is neither full nor blocked for the id, and otherwise with END for a failed start.
   * A socket that was connected is open either way, but on the id's stack and watched only then.
   */
  lemma BeginIsAnswered(e: Streams, cell: Cell, world: World)
    requires Searchable(e.table) && IsRelayCell(cell, RELAY_BEGIN)
    ensures var id := IdOf(cell); var r := HandleClientCell(e, cell, world);
            && r.Some? && r.value.reply.Some?
            && (IsStreamCell(r.value.reply.value, id, RELAY_CONNECTED) <==>
                  world.connected.Some? && !Full(e.table) && !Blocked(e.table, id))
            && if world.connected.None? then Refuses(e, r.value, id, TOR_REASON_END_FAIL_INIT)
               else if Full(e.table) || Blocked(e.table, id) then
                 Refuses(e.(open := e.open + {world.connected.value}), r.value, id, TOR_REASON_END_FAIL_INIT)
               else Pushed(e, r.value.streams, id, world.connected.value)
  {
    hide StackFrom, InsertPlace, StreamCell, EndCell, IdOf, Full, Blocked;
    var id := IdOf(cell);
    EndCellReads(cell, id, TOR_REASON_END_FAIL_INIT);
    StreamCellReads(cell, id, RELAY_CONNECTED);
    InsertFailsWhen(e.table, id);
    if world.connected.Some? && InsertPlace(e.table, id, 0).Some? {
      InsertPushes(e.table, id, world.connected.value);
    }
  }

  /** An END closes the socket that was put in last for its id and confirms; without one it is refused. */
  lemma EndIsAnswered(e: Streams, cell: Cell, world: World)
    requires Searchable(e.table) && IsRelayCell(cell, RELAY_END)
    ensures var id := IdOf(cell); var r := HandleClientCell(e, cell, world);
            && r.Some? && r.value.reply.Some?
            && if Stack(e.table, id) == [] then Refuses(e, r.value, id, TOR_REASON_END_ABSENT)
               else IsEndCell(r.value.reply.value, id, TOR_REASON_END_DONE) && Popped(e, r.value.streams, id)
  {
    hide StackFrom, FindPlace, StreamCell, EndCell, IdOf;
    var id := IdOf(cell);
    EndCellReads(cell, id, TOR_REASON_END_ABSENT);
    EndCellReads(cell, id, TOR_REASON_END_DONE);
    FindSeesTop(e.table, id);
    if FindPlace(e.table, id, 0).Some? {
      RemovePops(e.table, id);
    }
  }

  /**
   * DATA goes to the socket that was put in last for its id, which is open, and is not answered;
   * it is refused when the id has none, or when the socket does not accept it or there is no data.
   */
  lemma DataIsAnswered(e: Streams, lastFd: Socket, cell: Cell, world: World)
    requires Sound(e, lastFd) && IsRelayCell(cell, RELAY_DATA)
    ensures var id := IdOf(cell); var r := HandleClientCell(e, cell, world);
            && r.Some?
            && if Stack(e.table, id) == [] then Refuses(e, r.value, id, TOR_REASON_END_ABSENT)
               else if !world.accepted || Uint16At(cell, LENGTH) == 0 then Refuses(e, r.value, id, TOR_REASON_END_EOF)
               else
                 var socket := Stack(e.table, id)[0];
                 socket in e.open && r.value == Outcome(e.(writes := e.writes + [Write(socket, cell)]), None)
  {
    hide Sound, Stack, FindPlace, StreamCell, EndCell, IdOf, Uint16At;
    var id := IdOf(cell);
    EndCellReads(cell, id, TOR_REASON_END_ABSENT);
    EndCellReads(cell, id, TOR_REASON_END_EOF);
    TopIsOpen(e, lastFd, id);
  }

  /** Every other cell leaves the streams alone: a ping is answered with itself, a DESTROY ends the session, the rest is ignored. */
  lemma OthersLeaveStreams(e: Streams, cell: Cell, world: World)
    requires forall cmd | cmd in {RELAY_BEGIN, RELAY_END, RELAY_DATA} :: !IsRelayCell(cell, cmd)
    ensures var r := HandleClientCell(e, cell, world);
            && (r.None? <==> cell[CMD] == TOR_DESTROY)
            && (r.Some? ==> r.value == Outcome(e, if cell[CMD] == TOR_PADDING then Some(cell) else None))
  {
    assert !IsRelayCell(cell, RELAY_BEGIN) && !IsRelayCell(cell, RELAY_END) && !IsRelayCell(cell, RELAY_DATA);
  }

  /**
   * An event of a stream's socket. Bytes that came are sent on in a DATA cell for the id that the
   * socket is watched under, with their number, and with them shifted by one; the streams stay.
   * At the end of the stream the id's last socket is closed and END is sent.
   */
  lemma SocketIsAnswered(e: Streams, lastFd: Socket, socket: Socket, buffer: Cell, received: seq<Byte>)
    requires Sound(e, lastFd) && Enabled(e, lastFd, SocketReady(socket, buffer, received))
    ensures e.watched[socket] < 0x1_0000
    ensures var id := e.watched[socket]; var r := Next(e, lastFd, SocketReady(socket, buffer, received));
            && r.Some? && r.value.reply.Some? && socket in Stack(e.table, id)
            && var c := r.value.reply.value;
               if received == [] then IsEndCell(c, id, TOR_REASON_END_EOF) && Popped(e, r.value.streams, id)
               else
                 && r.value.streams == e
                 && IsStreamCell(c, id, RELAY_DATA) && Uint16At(c, LENGTH) == |received|
                 && DataOf(c) == [buffer[DATA]] + received[..|received| - 1]
  {
    hide StackFrom, FindPlace, StreamCell, EndCell, IdOf, ReceivedCell, Uint16At, Held;
    EventFindsEntry(e, lastFd, socket);
    var id := e.watched[socket];
    EndCellReads(buffer, id, TOR_REASON_END_EOF);
    FindSeesTop(e.table, id);
    RemovePops(e.table, id);
    if received != [] {
      ReceivedIsShifted(buffer, id, received);
    }
  }
}
