/**
 * The end relay's streams, relay/router/relay_end.c: a table of sockets, the epoll set
 * that watches them, and handlers for the client's cells and the sockets' events.
 * Sockets and the epoll set are plain values, and what the network answers is a parameter.
 */
module RelayEnd {
  import opened Arithmetic
  import opened Bytes
  import opened TorCells
  import opened ProbeTable

  type Socket = nat

  const CLIENT_STREAM_ID := 0xFFFF_FFFF

  const END_DATA := 15
  const END_DATA_SIZE := 497

  // ---- The cells an end relay makes over what its buffer holds

  function ConnectedCell(buffer: Cell, id: StreamId): Cell {
    StreamCell(buffer, id, RELAY_CONNECTED)
  }

  function ReceivedFields(buffer: Cell, id: StreamId, length: nat): Cell
    requires length <= RELAY_DATA_MSG_SIZE
  {
    Put(StreamCell(buffer, id, RELAY_DATA), LENGTH, Uint16(length))
  }

  /** The cell and the byte behind it, after bytes are copied in that need not all fit. */
  function ReceivedMemory(buffer: Cell, behind: Byte, id: StreamId, bytes: seq<Byte>): (m: seq<Byte>)
    requires |bytes| <= RELAY_DATA_MSG_SIZE
    ensures |m| == TOR_MSG_SIZE + 1
  {
    Put(ReceivedFields(buffer, id, |bytes|) + [behind], END_DATA, bytes)
  }

  /** The cell: the layout has room for 497 bytes of data, and the 498th of a full read goes behind it. */
  function ReceivedCell(buffer: Cell, id: StreamId, bytes: seq<Byte>): Cell
    requires |bytes| <= RELAY_DATA_MSG_SIZE
  {
    Put(ReceivedFields(buffer, id, |bytes|), END_DATA, bytes[..Min(|bytes|, END_DATA_SIZE)])
  }

  /** The copy stays inside the cell exactly for reads of at most 497 bytes. */
  lemma CopyStaysInside(buffer: Cell, id: StreamId, n: nat)
    requires n <= RELAY_DATA_MSG_SIZE
    ensures forall behind: Byte, bytes: seq<Byte> | |bytes| == n ::
              ReceivedMemory(buffer, behind, id, bytes)[..TOR_MSG_SIZE] == ReceivedCell(buffer, id, bytes)
    ensures (forall behind: Byte, bytes: seq<Byte> | |bytes| == n :: ReceivedMemory(buffer, behind, id, bytes)[TOR_MSG_SIZE] == behind)
       <==> n <= END_DATA_SIZE
  {
    forall behind: Byte, bytes: seq<Byte> | |bytes| == n
      ensures ReceivedMemory(buffer, behind, id, bytes)[..TOR_MSG_SIZE] == ReceivedCell(buffer, id, bytes)
      ensures ReceivedMemory(buffer, behind, id, bytes)[TOR_MSG_SIZE] == if n <= END_DATA_SIZE then behind else bytes[n - 1]
    {
      CopyOver(ReceivedFields(buffer, id, n), behind, bytes);
    }
    if n > END_DATA_SIZE {
      var bytes := Zeros(n);
      assert ReceivedMemory(buffer, 1, id, bytes)[TOR_MSG_SIZE] == bytes[n - 1] == 0;
    }
  }

  lemma CopyOver(fields: Cell, behind: Byte, bytes: seq<Byte>)
    requires |bytes| <= RELAY_DATA_MSG_SIZE
    ensures var m := Put(fields + [behind], END_DATA, bytes);
            && m[..TOR_MSG_SIZE] == Put(fields, END_DATA, bytes[..Min(|bytes|, END_DATA_SIZE)])
            && m[TOR_MSG_SIZE] == if |bytes| <= END_DATA_SIZE then behind else bytes[|bytes| - 1]
  {
  }

  lemma ReceivedFieldsRead(buffer: Cell, id: StreamId, length: nat)
    requires length <= RELAY_DATA_MSG_SIZE
    ensures var c := ReceivedFields(buffer, id, length);
            && IsRelayCell(c, RELAY_DATA) && IdOf(c) == id && Uint16At(c, LENGTH) == length
            && c[DATA] == buffer[DATA]
  {
    hide Uint16, Uint16At, Put, StreamCell;
    var fields := StreamCell(buffer, id, RELAY_DATA);
    StreamCellReads(buffer, id, RELAY_DATA);
    PutReads(fields, LENGTH, Uint16(length));
    Uint16RoundTrip(ReceivedFields(buffer, id, length), LENGTH, length);
    StreamCellKeeps(buffer, id, length);
  }

  lemma StreamCellKeeps(buffer: Cell, id: StreamId, length: nat)
    requires length <= RELAY_DATA_MSG_SIZE
    ensures var fields := StreamCell(buffer, id, RELAY_DATA); var c := ReceivedFields(buffer, id, length);
            && (forall k | 0 <= k < LENGTH || LENGTH + 2 <= k < TOR_MSG_SIZE :: c[k] == fields[k])
            && fields[DATA] == buffer[DATA]
            && IdOf(c) == IdOf(fields)
  {
    hide Uint16;
  }

  /** With data that starts one byte after the one before, the two are the same only if all their bytes are. */
  lemma {:induction false} ShiftedIsSame(first: Byte, bytes: seq<Byte>)
    requires bytes != []
    ensures [first] + bytes[..|bytes| - 1] == bytes <==> forall k | 0 <= k < |bytes| :: bytes[k] == first
  {
    var n := |bytes| - 1;
    var shifted := [first] + bytes[..n];
    if n > 0 {
      ShiftedIsSame(first, bytes[..n]);
      assert bytes[..n][..n - 1] == bytes[..n - 1];
      assert shifted[..n] == [first] + bytes[..n - 1];
      assert shifted[n] == bytes[n - 1];
      if shifted == bytes {
        assert shifted[..n] == bytes[..n];
        assert forall k | 0 <= k < n :: bytes[k] == bytes[..n][k] == first;
      }
    }
  }

  /**
   * What a client reads from the DATA cell for a socket's bytes: a byte that the buffer held, and
   * then all of them but the last. These are the socket's bytes exactly when each is that byte.
   */
  lemma ReceivedIsShifted(buffer: Cell, id: StreamId, bytes: seq<Byte>)
    requires 0 < |bytes| <= RELAY_DATA_MSG_SIZE
    ensures var cell := ReceivedCell(buffer, id, bytes);
            && IsRelayCell(cell, RELAY_DATA) && IdOf(cell) == id && Uint16At(cell, LENGTH) == |bytes|
            && DataOf(cell) == [buffer[DATA]] + bytes[..|bytes| - 1]
            && (DataOf(cell) == bytes <==> forall k | 0 <= k < |bytes| :: bytes[k] == buffer[DATA])
  {
    hide ReceivedFields;
    ReceivedFieldsRead(buffer, id, |bytes|);
    ShiftedIsSame(buffer[DATA], bytes);
    CopiedIn(ReceivedFields(buffer, id, |bytes|), bytes);
  }

  lemma CopiedIn(fields: Cell, bytes: seq<Byte>)
    requires 0 < |bytes| <= RELAY_DATA_MSG_SIZE
    ensures var c := Put(fields, END_DATA, bytes[..Min(|bytes|, END_DATA_SIZE)]);
            && (forall cmd: Byte :: IsRelayCell(c, cmd) == IsRelayCell(fields, cmd))
            && IdOf(c) == IdOf(fields) && Uint16At(c, LENGTH) == Uint16At(fields, LENGTH)
            && c[DATA..DATA + |bytes|] == [fields[DATA]] + bytes[..|bytes| - 1]
  {
  }

  // ---- What the handlers do

  datatype Write = Write(socket: Socket, cell: Cell)

  datatype Streams = Streams(
    table: Table<Socket>,
    watched: map<Socket, nat>,   // the epoll set: sockets, each with the id its events report
    open: set<Socket>,
    inserted: multiset<Socket>,  // sockets that were put in the table
    closed: multiset<Socket>,    // sockets as they were closed, counted
    writes: seq<Write>           // data cells that were passed on to a socket
  )

  datatype Outcome = Outcome(streams: Streams, reply: Option<Cell>)

  function WithClient(lastFd: Socket): Streams {
    Streams(EmptyTable(), map[lastFd := CLIENT_STREAM_ID], {lastFd}, multiset{}, multiset{}, [])
  }

  /** `handle_relay_begin`, for the socket that the connect returned, if it did. */
  function HandleBegin(e: Streams, cell: Cell, connected: Option<Socket>): Outcome {
    var id := IdOf(cell);
    if connected.None? then Outcome(e, Some(EndCell(cell, id, TOR_REASON_END_FAIL_INIT)))
    else
      var socket := connected.value;
      var place := InsertPlace(e.table, id, 0);
      InsertPlaceIs(e.table, id, 0);
      if place.None? then
        Outcome(e.(open := e.open + {socket}), Some(EndCell(cell, id, TOR_REASON_END_FAIL_INIT)))
      else
        Outcome(e.(table := e.table[place.value := Filled(id, socket)],
                   watched := e.watched[socket := id],
                   open := e.open + {socket},
                   inserted := e.inserted + multiset{socket}),
                Some(ConnectedCell(cell, id)))
  }

  /** `handle_relay_data`, when `send` on the stream's socket succeeds or not; sending no bytes counts as failed. */
  function HandleData(e: Streams, cell: Cell, accepted: bool): Outcome {
    var id := IdOf(cell);
    var place := FindPlace(e.table, id, 0);
    if place.None? then Outcome(e, Some(EndCell(cell, id, TOR_REASON_END_ABSENT)))
    else if !accepted || Uint16At(cell, LENGTH) == 0 then Outcome(e, Some(EndCell(cell, id, TOR_REASON_END_EOF)))
    else
      FindPlaceHas(e.table, id, 0);
      Outcome(e.(writes := e.writes + [Write(e.table[place.value].value, cell)]), None)
  }

  /** Unwatch a stream's socket, close it and free its slot. */
  function Drop(e: Streams, place: nat): Streams
    requires place < HASHMAP_AMOUNT && e.table[place].Filled?
  {
    var socket := e.table[place].value;
    e.(table := e.table[place := Deleted],
       watched := e.watched - {socket},
       open := e.open - {socket},
       closed := e.closed + multiset{socket})
  }

  /** `handle_relay_end` */
  function HandleEnd(e: Streams, cell: Cell): Outcome {
    var id := IdOf(cell);
    var place := FindPlace(e.table, id, 0);
    if place.None? then Outcome(e, Some(EndCell(cell, id, TOR_REASON_END_ABSENT)))
    else
      FindPlaceHas(e.table, id, 0);
      Outcome(Drop(e, place.value), Some(EndCell(cell, id, TOR_REASON_END_DONE)))
  }

  /** What the network answers a handler: a new socket for BEGIN, and whether DATA is accepted. */
  datatype World = World(connected: Option<Socket>, accepted: bool)

  /** The switch of `handle_client_msg` over relay commands. */
  function HandleRelayCell(e: Streams, cell: Cell, world: World): Outcome {
    if cell[RELAY_CMD] == RELAY_BEGIN then HandleBegin(e, cell, world.connected)
    else if cell[RELAY_CMD] == RELAY_END then HandleEnd(e, cell)
    else if cell[RELAY_CMD] == RELAY_DATA then HandleData(e, cell, world.accepted)
    else Outcome(e, None)
  }

  /** `handle_client_msg`; a DESTROY has no outcome, as the session then ends. */
  function HandleClientCell(e: Streams, cell: Cell, world: World): Option<Outcome> {
    if cell[CMD] == TOR_DESTROY then None
    else if cell[CMD] == TOR_PADDING then Some(Outcome(e, Some(cell)))
    else if cell[CMD] != TOR_RELAY then Some(Outcome(e, None))
    else Some(HandleRelayCell(e, cell, world))
  }

  /**
   * `handle_internet_event` by way of `handle_event`, for an event that reports `id`: the
   * bytes read from the socket, none at its end. There is no outcome when the id has no
   * entry, as the session then ends in an error.
   */
  function HandleSocketEvent(e: Streams, id: StreamId, buffer: Cell, received: seq<Byte>): Option<Outcome>
    requires |received| <= RELAY_DATA_MSG_SIZE
  {
    var place := FindPlace(e.table, id, 0);
    if place.None? then None
    else if received == [] then
      FindPlaceHas(e.table, id, 0);
      Some(Outcome(Drop(e, place.value), Some(EndCell(buffer, id, TOR_REASON_END_EOF))))
    else Some(Outcome(e, Some(ReceivedCell(buffer, id, received))))
  }

  lemma {:induction false} FindPlaceHas<V>(t: Table<V>, id: StreamId, d: nat)
    requires d <= HASHMAP_AMOUNT
    ensures FindPlace(t, id, d).Some? ==> FindPlace(t, id, d).value < HASHMAP_AMOUNT && HasId(t[FindPlace(t, id, d).value], id)
    decreases HASHMAP_AMOUNT - d
  {
    if d < HASHMAP_AMOUNT && !t[SlotAt(id, d)].Empty? && !HasId(t[SlotAt(id, d)], id) {
      FindPlaceHas(t, id, d + 1);
    }
  }

  // ---- The sockets of a table, counted

  function SocketOf(slot: Slot<Socket>): multiset<Socket> {
    if slot.Filled? then multiset{slot.value} else multiset{}
  }

  predicate Holds(slot: Slot<Socket>, s: Socket) {
    slot.Filled? && slot.value == s
  }

  function Held(t: seq<Slot<Socket>>): multiset<Socket> {
    if t == [] then multiset{} else Held(t[..|t| - 1]) + SocketOf(t[|t| - 1])
  }

  lemma SumsAgree(a: multiset<Socket>, b: multiset<Socket>, c: multiset<Socket>, d: multiset<Socket>, x: multiset<Socket>)
    requires a + b == c + d
    ensures a + x + b == c + x + d
  {
    assert a + x + b == (a + b) + x && c + x + d == (c + d) + x;
  }

  lemma {:induction false} HeldUpdate(t: seq<Slot<Socket>>, p: nat, slot: Slot<Socket>)
    requires p < |t|
    ensures Held(t[p := slot]) + SocketOf(t[p]) == Held(t) + SocketOf(slot)
    decreases |t|
  {
    hide SocketOf;
    var last := |t| - 1;
    var t' := t[p := slot];
    assert Held(t') == Held(t'[..last]) + SocketOf(t'[last]);
    if p < last {
      HeldUpdate(t[..last], p, slot);
      assert t'[..last] == t[..last][p := slot] && t[..last][p] == t[p] && t'[last] == t[last];
      SumsAgree(Held(t'[..last]), SocketOf(t[p]), Held(t[..last]), SocketOf(slot), SocketOf(t[last]));
    } else {
      assert t'[..last] == t[..last];
    }
  }

  lemma {:induction false} HeldHas(t: seq<Slot<Socket>>, s: Socket)
    ensures s in Held(t) <==> exists p :: 0 <= p < |t| && Holds(t[p], s)
  {
    if t != [] {
      var last := |t| - 1;
      HeldHas(t[..last], s);
      assert forall p | 0 <= p < last :: t[..last][p] == t[p];
      assert Holds(t[last], s) <==> s in SocketOf(t[last]);
    }
  }

  lemma {:induction false} NothingHeld(t: seq<Slot<Socket>>)
    requires forall p | 0 <= p < |t| :: !t[p].Filled?
    ensures Held(t) == multiset{}
  {
    if t != [] {
      NothingHeld(t[..|t| - 1]);
    }
  }

  lemma HeldGrows(t: seq<Slot<Socket>>, i: nat)
    requires i < |t|
    ensures Held(t[..i + 1]) == Held(t[..i]) + SocketOf(t[i])
    ensures Held(t[..i + 1]) <= Held(t)
  {
    assert t[..i + 1][..i] == t[..i];
    HeldPrefix(t, i + 1);
  }

  lemma {:induction false} HeldPrefix(t: seq<Slot<Socket>>, i: nat)
    requires i <= |t|
    ensures Held(t[..i]) <= Held(t)
    decreases |t|
  {
    if i < |t| {
      HeldPrefix(t[..|t| - 1], i);
      assert t[..|t| - 1][..i] == t[..i];
    } else {
      assert t[..i] == t;
    }
  }

  /** DATA goes to the id's last socket, which is open, and to no other; without one, or without data, the client is told so. */
  lemma DataGoesToTop(e: Streams, lastFd: Socket, cell: Cell)
    requires Sound(e, lastFd)
    ensures var id := IdOf(cell); var r := HandleData(e, cell, true);
            if Stack(e.table, id) == [] then r == Outcome(e, Some(EndCell(cell, id, TOR_REASON_END_ABSENT)))
            else if Uint16At(cell, LENGTH) == 0 then r == Outcome(e, Some(EndCell(cell, id, TOR_REASON_END_EOF)))
            else
              var socket := Stack(e.table, id)[0];
              socket in e.open && r == Outcome(e.(writes := e.writes + [Write(socket, cell)]), None)
  {
    hide Sound, Stack, FindPlace, EndCell, IdOf, Uint16At;
    TopIsOpen(e, lastFd, IdOf(cell));
  }

  /** What a search finds for an id is its last socket, which is open. */
  lemma TopIsOpen(e: Streams, lastFd: Socket, id: StreamId)
    requires Sound(e, lastFd)
    ensures var place := FindPlace(e.table, id, 0);
            if Stack(e.table, id) == [] then place == None
            else
              && place.Some? && place.value < HASHMAP_AMOUNT && e.table[place.value] == Filled(id, Stack(e.table, id)[0])
              && Stack(e.table, id)[0] in e.open
  {
    hide StackFrom, FindPlace, Held;
    FindSeesTop(e.table, id);
    var place := FindPlace(e.table, id, 0);
    if place.Some? {
      HeldHas(e.table, e.table[place.value].value);
      assert Holds(e.table[place.value], e.table[place.value].value);
    }
  }

  // ---- What every run keeps

  ghost predicate Sound(e: Streams, lastFd: Socket) {
    && Searchable(e.table)
    // the sockets in the table are distinct and open, and every other watched socket is the client's
    && (forall s: Socket :: Held(e.table)[s] <= 1)
    && (forall s: Socket :: s in e.watched <==> s == lastFd || s in Held(e.table))
    && (forall s: Socket | s in Held(e.table) :: s in e.open)
    && lastFd in e.open && lastFd !in Held(e.table) && e.watched[lastFd] == CLIENT_STREAM_ID
    // events report the id that the socket's entry carries
    && (forall p | 0 <= p < HASHMAP_AMOUNT && e.table[p].Filled? ::
          e.table[p].value in e.watched && e.watched[e.table[p].value] == e.table[p].id)
    // what was put in the table was closed or is in it
    && e.inserted == e.closed + Held(e.table)
  }

  lemma StartIsSound(lastFd: Socket)
    ensures Sound(WithClient(lastFd), lastFd)
  {
    NothingHeld(EmptyTable<Socket>());
  }

  lemma InsertKeeps(e: Streams, lastFd: Socket, place: nat, id: StreamId, socket: Socket)
    requires Sound(e, lastFd) && InsertPlace(e.table, id, 0) == Some(place) && place < HASHMAP_AMOUNT && socket !in e.open
    ensures Sound(e.(table := e.table[place := Filled(id, socket)],
                     watched := e.watched[socket := id],
                     open := e.open + {socket},
                     inserted := e.inserted + multiset{socket}), lastFd)
  {
    hide Held, StackFrom, InsertPlace, FindPlace;
    InsertPlaceIs(e.table, id, 0);
    InsertPushes(e.table, id, socket);
    var slot := Filled(id, socket);
    HeldUpdate(e.table, place, slot);
    assert Held(e.table[place := slot]) == Held(e.table) + multiset{socket};
  }

  lemma DropKeeps(e: Streams, lastFd: Socket, place: nat, id: StreamId)
    requires Sound(e, lastFd) && FindPlace(e.table, id, 0) == Some(place) && place < HASHMAP_AMOUNT && HasId(e.table[place], id)
    ensures Sound(Drop(e, place), lastFd)
    ensures e.table[place].value in e.open && e.table[place].value !in Drop(e, place).watched
  {
    hide Held, StackFrom, InsertPlace, FindPlace;
    RemovePops(e.table, id);
    var t := e.table;
    var socket := t[place].value;
    HeldUpdate(t, place, Deleted);
    assert Held(t) == Held(t[place := Deleted]) + multiset{socket};
    forall p | 0 <= p < HASHMAP_AMOUNT && p != place && t[p].Filled?
      ensures t[p].value != socket
    {
      HeldHas(t[place := Deleted], t[p].value);
      assert Holds(t[place := Deleted][p], t[p].value);
    }
    var e' := Drop(e, place);
    assert socket in Held(t) && socket !in Held(e'.table);
    forall p | 0 <= p < HASHMAP_AMOUNT && e'.table[p].Filled?
      ensures e'.table[p].value in e'.watched && e'.watched[e'.table[p].value] == e'.table[p].id
    {
      assert e'.table[p] == t[p];
    }
    assert e'.closed + Held(e'.table) == e.closed + Held(t);
    assert forall s: Socket :: Held(e'.table)[s] <= Held(t)[s];
    assert forall s: Socket :: s in Held(t) <==> s in Held(e'.table) || s == socket;
  }

  /** A watched socket's event reports an id that has an entry: the session never ends over a missing one. */
  lemma EventFindsEntry(e: Streams, lastFd: Socket, socket: Socket)
    requires Sound(e, lastFd) && socket in e.watched && socket != lastFd
    ensures e.watched[socket] < 0x1_0000
    ensures var id, place := e.watched[socket], FindPlace(e.table, e.watched[socket], 0);
            && place.Some? && place.value < HASHMAP_AMOUNT
            && socket in Stack(e.table, id)
            && e.table[place.value] == Filled(id, Stack(e.table, id)[0])
  {
    hide StackFrom, InsertPlace, FindPlace;
    HeldHas(e.table, socket);
    var p :| 0 <= p < HASHMAP_AMOUNT && Holds(e.table[p], socket);
    var id := e.table[p].id;
    EntryIsStacked(e.table, id, 0, p);
    FindSeesTop(e.table, id);
  }

  lemma {:induction false} EntryIsStacked<V>(t: Table<V>, id: StreamId, d: nat, p: nat)
    requires p < HASHMAP_AMOUNT && HasId(t[p], id) && d <= Distance(id, p)
    ensures t[p].value in StackFrom(t, id, d)
    decreases HASHMAP_AMOUNT - d
  {
    if d < Distance(id, p) {
      EntryIsStacked(t, id, d + 1, p);
    }
  }

  // ---- Runs

  datatype EndEvent =
    | ClientCell(cell: Cell, world: World)                             // a cell from the client, other than DESTROY
    | SocketReady(socket: Socket, buffer: Cell, received: seq<Byte>)  // epoll reports one of the streams' sockets

  predicate Enabled(e: Streams, lastFd: Socket, event: EndEvent) {
    match event
    case ClientCell(cell, world) =>
      cell[CMD] != TOR_DESTROY && (world.connected.Some? ==> world.connected.value !in e.open)
    case SocketReady(socket, _, received) =>
      socket in e.watched && socket != lastFd && |received| <= RELAY_DATA_MSG_SIZE
  }

  /** The outcome of a step; an id is cut to its 16 bits, which for a sound state changes nothing. */
  function Next(e: Streams, lastFd: Socket, event: EndEvent): Option<Outcome>
    requires Enabled(e, lastFd, event)
  {
    match event
    case ClientCell(cell, world) => HandleClientCell(e, cell, world)
    case SocketReady(socket, buffer, received) => HandleSocketEvent(e, e.watched[socket] % 0x1_0000, buffer, received)
  }

  lemma StepIsSound(e: Streams, lastFd: Socket, event: EndEvent)
    requires Sound(e, lastFd) && Enabled(e, lastFd, event)
    ensures Next(e, lastFd, event).Some? && Sound(Next(e, lastFd, event).value.streams, lastFd)
  {
    hide Held, FindPlace, InsertPlace, StreamCell, EndCell, ConnectedCell, ReceivedCell, Drop, Searchable, Uint16At;
    match event
    case ClientCell(cell, world) =>
      var id := IdOf(cell);
      if cell[CMD] == TOR_RELAY {
        if cell[RELAY_CMD] == RELAY_BEGIN {
          InsertPlaceIs(e.table, id, 0);
          if world.connected.Some? && InsertPlace(e.table, id, 0).Some? {
            InsertKeeps(e, lastFd, InsertPlace(e.table, id, 0).value, id, world.connected.value);
          }
        } else if cell[RELAY_CMD] == RELAY_END {
          FoundIsDropped(e, lastFd, id);
        }
      }
    case SocketReady(socket, _, received) =>
      EventFindsEntry(e, lastFd, socket);
      FoundIsDropped(e, lastFd, e.watched[socket]);
  }

  lemma FoundIsDropped(e: Streams, lastFd: Socket, id: StreamId)
    requires Sound(e, lastFd)
    ensures var place := FindPlace(e.table, id, 0);
            place.Some? ==> place.value < HASHMAP_AMOUNT && HasId(e.table[place.value], id) && Sound(Drop(e, place.value), lastFd)
  {
    FindPlaceHas(e.table, id, 0);
    if FindPlace(e.table, id, 0).Some? {
      DropKeeps(e, lastFd, FindPlace(e.table, id, 0).value, id);
    }
  }

  ghost predicate Step(e: Streams, e': Streams, lastFd: Socket) {
    exists event :: Enabled(e, lastFd, event) && Next(e, lastFd, event).Some? && e' == Next(e, lastFd, event).value.streams
  }

  /** A session of the end relay from its start, with every state in between. */
  ghost predicate IsRun(run: seq<Streams>, lastFd: Socket) {
    && run != []
    && run[0] == WithClient(lastFd)
    && forall i: nat | i + 1 < |run| :: Step(run[i], run[i + 1], lastFd)
  }

  /** On every run, however the client uses ids and whatever its cells say, the streams are sound. */
  lemma {:induction false} RunIsSound(run: seq<Streams>, lastFd: Socket, i: nat)
    requires IsRun(run, lastFd) && i < |run|
    ensures Sound(run[i], lastFd)
  {
    hide Sound, Enabled, Next;
    if i == 0 {
      StartIsSound(lastFd);
    } else {
      RunIsSound(run, lastFd, i - 1);
      assert Step(run[i - 1], run[i], lastFd);
      var event :| Enabled(run[i - 1], lastFd, event) && Next(run[i - 1], lastFd, event).Some? && run[i] == Next(run[i - 1], lastFd, event).value.streams;
      StepIsSound(run[i - 1], lastFd, event);
    }
  }

  function Without(open: set<Socket>, held: multiset<Socket>): set<Socket> {
    set s | s in open && s !in held
  }

  lemma WithoutOneMore(open: set<Socket>, held: multiset<Socket>, s: Socket)
    ensures Without(open, held + multiset{s}) == Without(open, held) - {s}
  {
  }

  /** The first i slots of the table have been gone through by `socket_hashmap_free`. */
  function FreedUpTo(e: Streams, i: nat): Streams
    requires i <= HASHMAP_AMOUNT
  {
    e.(closed := e.closed + Held(e.table[..i]), open := Without(e.open, Held(e.table[..i])))
  }

  /** `socket_hashmap_free`, when a session ends */
  function Freed(e: Streams): Streams {
    FreedUpTo(e, HASHMAP_AMOUNT)
  }

  lemma WholeTable(t: Table<Socket>)
    ensures t[..HASHMAP_AMOUNT] == t
  {
  }

  lemma FreedClosesAll(e: Streams, lastFd: Socket)
    requires Sound(e, lastFd)
    ensures FreedUpTo(e, 0) == e
    ensures Freed(e).closed == Freed(e).inserted
  {
    WholeTable(e.table);
  }

  /** Going through one more slot closes its socket, which is still open. */
  lemma FreesOne(e: Streams, lastFd: Socket, i: nat)
    requires Sound(e, lastFd) && i < HASHMAP_AMOUNT
    ensures var f, slot := FreedUpTo(e, i), e.table[i];
            if slot.Filled? then
              slot.value in f.open
              && FreedUpTo(e, i + 1) == f.(closed := f.closed + multiset{slot.value}, open := f.open - {slot.value})
            else FreedUpTo(e, i + 1) == f
  {
    hide Sound, Without, Held, SocketOf;
    var slot, held := e.table[i], Held(e.table[..i]);
    HeldGrows(e.table, i);
    SocketIsOpen(e, lastFd, i, held);
    SocketOfIs(slot);
    if slot.Filled? {
      WithoutOneMore(e.open, held, slot.value);
      assert e.closed + (held + multiset{slot.value}) == e.closed + held + multiset{slot.value};
    } else {
      assert held + multiset{} == held;
    }
  }

  lemma SocketOfIs(slot: Slot<Socket>)
    ensures SocketOf(slot) == if slot.Filled? then multiset{slot.value} else multiset{}
  {
  }

  lemma SocketIsOpen(e: Streams, lastFd: Socket, i: nat, held: multiset<Socket>)
    requires Sound(e, lastFd) && i < HASHMAP_AMOUNT && held + SocketOf(e.table[i]) <= Held(e.table)
    ensures e.table[i].Filled? ==> e.table[i].value in Without(e.open, held)
  {
    hide Searchable, Held;
    var slot := e.table[i];
    if slot.Filled? {
      var all := held + SocketOf(slot);
      assert all[slot.value] == held[slot.value] + 1;
      assert all[slot.value] <= Held(e.table)[slot.value];
    }
  }

  /**
   * However a run goes, once it ends each socket that was put in the table has been closed
   * exactly as often as it was put there, and none of the table's is left open.
   */
  lemma EachIsClosedOnce(run: seq<Streams>, lastFd: Socket)
    requires IsRun(run, lastFd)
    ensures var e := run[|run| - 1]; var end := Freed(e);
            && end.closed == end.inserted
            && (forall s: Socket | s in e.watched && s != lastFd :: s !in end.open && end.closed[s] == e.closed[s] + 1)
  {
    RunIsSound(run, lastFd, |run| - 1);
    WholeTable(run[|run| - 1].table);
  }

  /** A step never touches an open socket that is not in the table, and neither does the end of the session. */
  lemma UnheldStaysOpen(e: Streams, lastFd: Socket, event: EndEvent, s: Socket)
    requires Sound(e, lastFd) && Enabled(e, lastFd, event)
    requires s in e.open && s !in Held(e.table)
    ensures Next(e, lastFd, event).Some?
    ensures var e' := Next(e, lastFd, event).value.streams;
            s in e'.open && s !in Held(e'.table) && e'.closed[s] == e.closed[s]
  {
    hide Sound, Held, InsertPlace, EndCell, ConnectedCell, ReceivedCell, Uint16At, FindPlace, HandleBegin, Drop;
    StepIsSound(e, lastFd, event);
    match event
    case ClientCell(cell, world) =>
      var id := IdOf(cell);
      if cell[CMD] == TOR_RELAY {
        if cell[RELAY_CMD] == RELAY_BEGIN {
          BeginLeaves(e, cell, world.connected, s);
        } else if cell[RELAY_CMD] == RELAY_END {
          DropOthers(e, id, s);
        }
      }
    case SocketReady(socket, _, received) =>
      EventFindsEntry(e, lastFd, socket);
      DropOthers(e, e.watched[socket], s);
  }

  lemma BeginLeaves(e: Streams, cell: Cell, connected: Option<Socket>, s: Socket)
    requires s in e.open && s !in Held(e.table)
    requires connected.Some? ==> connected.value !in e.open
    ensures var e' := HandleBegin(e, cell, connected).streams;
            s in e'.open && s !in Held(e'.table) && e'.closed[s] == e.closed[s]
  {
    hide Held, InsertPlace, EndCell, ConnectedCell, Uint16At;
    var id := IdOf(cell);
    InsertPlaceIs(e.table, id, 0);
    if connected.Some? && InsertPlace(e.table, id, 0).Some? {
      var p, slot := InsertPlace(e.table, id, 0).value, Filled(id, connected.value);
      HeldUpdate(e.table, p, slot);
      assert s !in Held(e.table) + SocketOf(slot);
      assert s !in Held(e.table[p := slot]) + SocketOf(e.table[p]);
    }
  }

  lemma DropOthers(e: Streams, id: StreamId, s: Socket)
    requires s in e.open && s !in Held(e.table)
    ensures var place := FindPlace(e.table, id, 0);
            place.Some? ==>
              && place.value < HASHMAP_AMOUNT && HasId(e.table[place.value], id)
              && var e' := Drop(e, place.value);
                 s in e'.open && s !in Held(e'.table) && e'.closed[s] == e.closed[s]
  {
    FindPlaceHas(e.table, id, 0);
    var place := FindPlace(e.table, id, 0);
    if place.Some? {
      HeldUpdate(e.table, place.value, Deleted);
      assert s !in Held(e.table[place.value := Deleted]) + SocketOf(e.table[place.value]);
    }
  }

  /** So a socket whose insert failed is never closed, for as long as the session runs. */
  lemma {:induction false} RefusedIsNeverClosed(run: seq<Streams>, lastFd: Socket, i: nat, j: nat, s: Socket)
    requires IsRun(run, lastFd) && i <= j < |run|
    requires s in run[i].open && s !in Held(run[i].table)
    ensures s in run[j].open && s !in Held(run[j].table) && run[j].closed[s] == run[i].closed[s] && s in Freed(run[j]).open
    decreases j
  {
    hide Sound, Enabled, Next, Held;
    WholeTable(run[j].table);
    if i < j {
      RefusedIsNeverClosed(run, lastFd, i, j - 1, s);
      RunIsSound(run, lastFd, j - 1);
      assert Step(run[j - 1], run[j], lastFd);
      var event :| Enabled(run[j - 1], lastFd, event) && Next(run[j - 1], lastFd, event).Some? && run[j] == Next(run[j - 1], lastFd, event).value.streams;
      UnheldStaysOpen(run[j - 1], lastFd, event, s);
    }
  }

  /** And there are such sockets: of two BEGINs with one id, the second one's socket is refused and left open. */
  lemma RefusedIsReached(lastFd: Socket, first: Socket, second: Socket, begin: Cell) returns (run: seq<Streams>)
    requires lastFd != first && lastFd != second && first != second && IsRelayCell(begin, RELAY_BEGIN)
    ensures IsRun(run, lastFd) && |run| == 3
    ensures var e := run[2];
            && first in Held(e.table) && second !in Held(e.table) && second in e.open
            && Freed(e).closed == multiset{first} && second in Freed(e).open
  {
    hide StreamCell, IdOf, Freed;
    var e0, id := WithClient(lastFd), IdOf(begin);
    var e1 := HandleBegin(e0, begin, Some(first)).streams;
    var e2 := HandleBegin(e1, begin, Some(second)).streams;
    var p := SlotAt(id, 0);
    assert InsertPlace(e0.table, id, 0) == Some(p);
    assert e1.table == e0.table[p := Filled(id, first)];
    assert InsertPlace(e1.table, id, 0) == None;
    FirstIsHeld(p, id, first);
    run := [e0, e1, e2];
    IsBeginStep(e0, lastFd, begin, first);
    IsBeginStep(e1, lastFd, begin, second);
    RunIsSound(run, lastFd, 2);
    FreedClosesAll(e2, lastFd);
    FreedKeeps(e2, second);
  }

  lemma PlusNothing(a: multiset<Socket>, b: multiset<Socket>)
    requires a + multiset{} == multiset{} + b
    ensures a == b
  {
    assert a == a + multiset{} && b == multiset{} + b;
  }

  lemma FirstIsHeld(p: nat, id: StreamId, first: Socket)
    requires p < HASHMAP_AMOUNT
    ensures Held(EmptyTable<Socket>()[p := Filled(id, first)]) == multiset{first}
  {
    var t := EmptyTable<Socket>();
    NothingHeld(t);
    assert SocketOf(t[p]) == multiset{};
    hide Held, EmptyTable;
    HeldUpdate(t, p, Filled(id, first));
    PlusNothing(Held(t[p := Filled(id, first)]), multiset{first});
  }

  lemma IsBeginStep(e: Streams, lastFd: Socket, begin: Cell, socket: Socket)
    requires IsRelayCell(begin, RELAY_BEGIN) && socket !in e.open
    ensures Step(e, HandleBegin(e, begin, Some(socket)).streams, lastFd)
  {
    hide HandleBegin;
    var event := ClientCell(begin, World(Some(socket), true));
    assert Enabled(e, lastFd, event) && Next(e, lastFd, event).value.streams == HandleBegin(e, begin, Some(socket)).streams;
  }

  lemma FreedKeeps(e: Streams, s: Socket)
    ensures Freed(e).inserted == e.inserted
    ensures s in e.open && s !in Held(e.table) ==> s in Freed(e).open
  {
    WholeTable(e.table);
  }
}
