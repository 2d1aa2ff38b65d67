/**
 * The 512-byte cells of the circuit protocol, at the byte offsets of
 * library/include/protocol/tor_structs.h, and the in-place routines that fill them.
 */
module TorCells {
  import opened Bytes

  const TOR_MSG_SIZE := 512

  const TOR_PADDING: Byte := 0
  const TOR_CREATE: Byte := 1
  const TOR_CREATED: Byte := 2
  const TOR_RELAY: Byte := 3
  const TOR_DESTROY: Byte := 4

  const RELAY_BEGIN: Byte := 1
  const RELAY_DATA: Byte := 2
  const RELAY_END: Byte := 3
  const RELAY_CONNECTED: Byte := 4
  const RELAY_EXTEND: Byte := 6
  const RELAY_EXTENDED: Byte := 7

  const TOR_REASON_END_EOF: Byte := 1
  const TOR_REASON_END_DONE: Byte := 2
  const TOR_REASON_END_FAIL_INIT: Byte := 4
  const TOR_REASON_END_ABSENT: Byte := 4

  // Offsets of fields. The command byte of a cell is also the `relay` byte of a relay cell.
  const CMD := 2
  const HEADER := 3           // what onion layers leave alone
  const STREAM_ID := 3
  const LENGTH := 11
  const RELAY_CMD := 13
  const DATA := 14
  const REASON := 14
  const BEGIN_ADDR := 14
  const EXTEND_ADDR := 14
  const EXTEND_KEY := 34
  const CREATE_KEY := 3

  const SOCK_ADDR_SIZE := 20
  const RELAY_DATA_MSG_SIZE := 498

  /** Header and whole blocks of payload: the bytes that onion layers preserve. */
  const VIEW_SIZE := 499

  type Cell = c: seq<Byte> | |c| == 512 witness Zeros(512)

  type View = v: seq<Byte> | |v| == 499 witness Zeros(499)

  type SockAddr = a: seq<Byte> | |a| == 20 witness Zeros(20)

  function ViewOf(c: Cell): View {
    c[..VIEW_SIZE]
  }

  // ---- The cells each side builds over whatever its buffer held

  function CreateCell(buffer: Cell, clientKey: KeyBytes): Cell {
    Put(buffer[CMD := TOR_CREATE], CREATE_KEY, clientKey)
  }

  function ExtendCell(buffer: Cell, addr: SockAddr, clientKey: KeyBytes): Cell {
    Put(Put(buffer[CMD := TOR_RELAY][RELAY_CMD := RELAY_EXTEND], EXTEND_KEY, clientKey), EXTEND_ADDR, addr)
  }

  /** The CREATE cell a relay makes of the EXTEND cell it received. */
  function CreateFromExtend(extend: Cell): Cell {
    Put(extend[CMD := TOR_CREATE], CREATE_KEY, extend[EXTEND_KEY..EXTEND_KEY + ASYMMETRIC_KEY_BYTES])
  }

  /** The answer to a CREATE cell. */
  function CreatedCell(create: Cell): Cell {
    Put(create[CMD := TOR_CREATED], CREATE_KEY, Zeros(ASYMMETRIC_KEY_BYTES))
  }

  /** The EXTENDED cell a relay makes of the CREATED cell it received. */
  function ExtendedCell(created: Cell): Cell {
    created[CMD := TOR_RELAY][RELAY_CMD := RELAY_EXTENDED]
  }

  /** The two bytes of a 16-bit field, least significant first. */
  function Uint16(n: nat): (r: seq<Byte>)
    requires n < 0x1_0000
    ensures |r| == 2
  {
    [ByteOf(n % 256), ByteOf(n / 256)]
  }

  function Uint16At(v: seq<Byte>, at: nat): nat
    requires at + 2 <= |v|
  {
    v[at] as nat + 256 * v[at + 1] as nat
  }

  function IdOf(cell: Cell): (id: nat)
    ensures id < 0x1_0000
  {
    ByteOfValue(cell[STREAM_ID]);
    ByteOfValue(cell[STREAM_ID + 1]);
    Uint16At(cell, STREAM_ID)
  }

  /** A DATA cell. Its stream id is cut to 16 bits, as the field is. */
  function DataCell(buffer: Cell, streamId: nat, bytes: seq<Byte>): Cell
    requires |bytes| <= RELAY_DATA_MSG_SIZE
  {
    Put(Put(Put(buffer[CMD := TOR_RELAY][RELAY_CMD := RELAY_DATA], STREAM_ID, Uint16(streamId % 0x1_0000)),
            LENGTH, Uint16(|bytes|)), DATA, bytes)
  }

  /** The fields that all cells about a stream share. */
  function StreamCell(buffer: Cell, id: nat, cmd: Byte): Cell
    requires id < 0x1_0000
  {
    Put(buffer[CMD := TOR_RELAY][RELAY_CMD := cmd], STREAM_ID, Uint16(id))
  }

  function BeginCell(buffer: Cell, id: nat, addr: SockAddr): Cell
    requires id < 0x1_0000
  {
    Put(StreamCell(buffer, id, RELAY_BEGIN), BEGIN_ADDR, addr)
  }

  function EndCell(buffer: Cell, id: nat, reason: Byte): Cell
    requires id < 0x1_0000
  {
    StreamCell(buffer, id, RELAY_END)[REASON := reason]
  }

  /** PADDING and DESTROY, which have no fields. */
  function PlainCell(buffer: Cell, cmd: Byte): Cell {
    buffer[CMD := cmd]
  }

  // ---- Fields, which may be read from a whole cell or from its view

  function KeyInCreate(c: Cell): KeyBytes {
    c[CREATE_KEY..CREATE_KEY + ASYMMETRIC_KEY_BYTES]
  }

  /** A relay cell with the given relay command. */
  predicate IsRelayCell(v: seq<Byte>, cmd: Byte)
    requires |v| >= VIEW_SIZE
  {
    v[CMD] == TOR_RELAY && v[RELAY_CMD] == cmd
  }

  /** An EXTEND that names `addr` and carries the client's key. */
  predicate IsExtendTo(v: seq<Byte>, addr: SockAddr, clientKey: KeyBytes)
    requires |v| >= VIEW_SIZE
  {
    IsRelayCell(v, RELAY_EXTEND) && v[EXTEND_ADDR..EXTEND_ADDR + SOCK_ADDR_SIZE] == addr && v[EXTEND_KEY..EXTEND_KEY + ASYMMETRIC_KEY_BYTES] == clientKey
  }

  lemma ExtendCellReads(buffer: Cell, addr: SockAddr, clientKey: KeyBytes)
    ensures IsExtendTo(ExtendCell(buffer, addr, clientKey), addr, clientKey)
  {
    var inner := Put(buffer[CMD := TOR_RELAY][RELAY_CMD := RELAY_EXTEND], EXTEND_KEY, clientKey);
    PutReads(buffer[CMD := TOR_RELAY][RELAY_CMD := RELAY_EXTEND], EXTEND_KEY, clientKey);
    PutReads(inner, EXTEND_ADDR, addr);
    var c := ExtendCell(buffer, addr, clientKey);
    assert c[EXTEND_KEY..EXTEND_KEY + ASYMMETRIC_KEY_BYTES] == inner[EXTEND_KEY..EXTEND_KEY + ASYMMETRIC_KEY_BYTES];
  }

  /** Nothing in an EXTEND lies in the tail that onion layers damage. */
  lemma ExtendSurvivesInView(c: Cell, addr: SockAddr, clientKey: KeyBytes)
    ensures IsExtendTo(ViewOf(c), addr, clientKey) == IsExtendTo(c, addr, clientKey)
  {
    assert ViewOf(c)[EXTEND_ADDR..EXTEND_ADDR + SOCK_ADDR_SIZE] == c[EXTEND_ADDR..EXTEND_ADDR + SOCK_ADDR_SIZE];
    assert ViewOf(c)[EXTEND_KEY..EXTEND_KEY + ASYMMETRIC_KEY_BYTES] == c[EXTEND_KEY..EXTEND_KEY + ASYMMETRIC_KEY_BYTES];
  }

  lemma CreateCellReads(buffer: Cell, clientKey: KeyBytes)
    ensures CreateCell(buffer, clientKey)[CMD] == TOR_CREATE
    ensures KeyInCreate(CreateCell(buffer, clientKey)) == clientKey
  {
    PutReads(buffer[CMD := TOR_CREATE], CREATE_KEY, clientKey);
  }

  lemma CreateFromExtendReads(extend: Cell)
    ensures CreateFromExtend(extend)[CMD] == TOR_CREATE
    ensures KeyInCreate(CreateFromExtend(extend)) == extend[EXTEND_KEY..EXTEND_KEY + ASYMMETRIC_KEY_BYTES]
  {
    PutReads(extend[CMD := TOR_CREATE], CREATE_KEY, extend[EXTEND_KEY..EXTEND_KEY + ASYMMETRIC_KEY_BYTES]);
  }

  /** CREATED says so, and has no key. */
  lemma CreatedCellReads(create: Cell)
    ensures CreatedCell(create)[CMD] == TOR_CREATED && KeyInCreate(CreatedCell(create)) == Zeros(ASYMMETRIC_KEY_BYTES)
  {
    PutReads(create[CMD := TOR_CREATED], CREATE_KEY, Zeros(ASYMMETRIC_KEY_BYTES));
  }

  /** EXTENDED is a relay cell that says so, and all its other bytes are those of the CREATED it was made of. */
  lemma ExtendedCellReads(created: Cell)
    ensures IsRelayCell(ExtendedCell(created), RELAY_EXTENDED)
    ensures forall k | 0 <= k < TOR_MSG_SIZE && k != CMD && k != RELAY_CMD :: ExtendedCell(created)[k] == created[k]
  {
  }

  /** What the end relay writes to the stream's socket; `send` is given the length field as it is. */
  function DataOf(c: Cell): seq<Byte>
    requires Uint16At(c, LENGTH) <= RELAY_DATA_MSG_SIZE
  {
    c[DATA..DATA + Uint16At(c, LENGTH)]
  }

  /** What the memory behind a cell holds, as far as any length field reaches. */
  type Behind = m: seq<Byte> | |m| == 0x1_0000 witness Zeros(0x1_0000)

  /** The bytes a reader takes that trusts the length field: they may run on behind the cell. */
  function ClaimedData(c: Cell, behind: Behind): seq<Byte> {
    ClaimedLength(c);
    (c + behind)[DATA..DATA + Uint16At(c, LENGTH)]
  }

  lemma ClaimedLength(c: Cell)
    ensures Uint16At(c, LENGTH) < 0x1_0000
  {
    ByteOfValue(c[LENGTH]);
    ByteOfValue(c[LENGTH + 1]);
  }

  /** With a length field in range nothing behind the cell is touched. */
  lemma ClaimedInRange(c: Cell, behind: Behind)
    requires Uint16At(c, LENGTH) <= RELAY_DATA_MSG_SIZE
    ensures ClaimedData(c, behind) == DataOf(c)
  {
    hide Uint16At;
  }

  lemma Uint16RoundTrip(v: seq<Byte>, at: nat, n: nat)
    requires at + 2 <= |v| && n < 0x1_0000 && v[at..at + 2] == Uint16(n)
    ensures Uint16At(v, at) == n
  {
    hide ByteOf;
    assert v[at] == v[at..at + 2][0] && v[at + 1] == v[at..at + 2][1];
  }

  lemma DataCellReads(buffer: Cell, streamId: nat, bytes: seq<Byte>)
    requires |bytes| <= RELAY_DATA_MSG_SIZE
    ensures var c := DataCell(buffer, streamId, bytes);
            && IsRelayCell(c, RELAY_DATA)
            && Uint16At(c, STREAM_ID) == streamId % 0x1_0000
            && Uint16At(c, LENGTH) == |bytes|
            && DataOf(c) == bytes
  {
    hide Uint16, Uint16At, Put;
    var id, length := Uint16(streamId % 0x1_0000), Uint16(|bytes|);
    var c0 := buffer[CMD := TOR_RELAY][RELAY_CMD := RELAY_DATA];
    var c1 := Put(c0, STREAM_ID, id);
    var c2 := Put(c1, LENGTH, length);
    var c := Put(c2, DATA, bytes);
    PutReads(c0, STREAM_ID, id);
    PutReads(c1, LENGTH, length);
    PutReads(c2, DATA, bytes);
    assert c[STREAM_ID..STREAM_ID + 2] == c1[STREAM_ID..STREAM_ID + 2];
    assert c[LENGTH..LENGTH + 2] == c2[LENGTH..LENGTH + 2];
    Uint16RoundTrip(c, STREAM_ID, streamId % 0x1_0000);
    Uint16RoundTrip(c, LENGTH, |bytes|);
  }

  lemma StreamCellReads(buffer: Cell, id: nat, cmd: Byte)
    requires id < 0x1_0000
    ensures var c := StreamCell(buffer, id, cmd);
            c[CMD] == TOR_RELAY && c[RELAY_CMD] == cmd && IdOf(c) == id
  {
    hide Uint16, Uint16At, Put;
    var fields := buffer[CMD := TOR_RELAY][RELAY_CMD := cmd];
    PutReads(fields, STREAM_ID, Uint16(id));
    Uint16RoundTrip(StreamCell(buffer, id, cmd), STREAM_ID, id);
  }

  lemma BeginCellReads(buffer: Cell, id: nat, addr: SockAddr)
    requires id < 0x1_0000
    ensures var c := BeginCell(buffer, id, addr);
            && c[CMD] == TOR_RELAY && c[RELAY_CMD] == RELAY_BEGIN && IdOf(c) == id
            && c[BEGIN_ADDR..BEGIN_ADDR + SOCK_ADDR_SIZE] == addr
  {
    hide Uint16At, Put, StreamCell;
    StreamCellReads(buffer, id, RELAY_BEGIN);
    PutReads(StreamCell(buffer, id, RELAY_BEGIN), BEGIN_ADDR, addr);
    SameId(StreamCell(buffer, id, RELAY_BEGIN), BeginCell(buffer, id, addr));
  }

  // ---- The bytes of cells, as the packed structs lay them out on a little-endian machine

  lemma DataCellLayout(buffer: Cell, streamId: nat, bytes: seq<Byte>)
    requires |bytes| <= RELAY_DATA_MSG_SIZE
    ensures var c := DataCell(buffer, streamId, bytes); var id := streamId % 0x1_0000;
            && c[..2] == buffer[..2] && c[2] == 3
            && c[3] as nat == id % 256 && c[4] as nat == id / 256 && c[5..11] == buffer[5..11]
            && c[11] as nat == |bytes| % 256 && c[12] as nat == |bytes| / 256 && c[13] == 2
            && c[14..14 + |bytes|] == bytes && c[14 + |bytes|..] == buffer[14 + |bytes|..]
  {
    hide Put, Uint16;
    var id, length := Uint16(streamId % 0x1_0000), Uint16(|bytes|);
    TwoBytes(streamId % 0x1_0000);
    TwoBytes(|bytes|);
    var c0 := buffer[CMD := TOR_RELAY][RELAY_CMD := RELAY_DATA];
    var c1 := Put(c0, STREAM_ID, id);
    var c2 := Put(c1, LENGTH, length);
    PutReads(c0, STREAM_ID, id);
    PutReads(c1, LENGTH, length);
    PutReads(c2, DATA, bytes);
    assert c1[3] == c1[3..3 + 2][0] && c1[4] == c1[3..3 + 2][1];
    assert c2[11] == c2[11..11 + 2][0] && c2[12] == c2[11..11 + 2][1];
  }

  lemma TwoBytes(n: nat)
    requires n < 0x1_0000
    ensures Uint16(n)[0] as nat == n % 256 && Uint16(n)[1] as nat == n / 256
  {
  }

  lemma CreateCellLayout(buffer: Cell, clientKey: KeyBytes)
    ensures var c := CreateCell(buffer, clientKey);
            c[..2] == buffer[..2] && c[2] == 1 && c[3..259] == clientKey && c[259..] == buffer[259..]
  {
    hide Put;
    PutReads(buffer[CMD := TOR_CREATE], CREATE_KEY, clientKey);
  }

  lemma ExtendCellLayout(buffer: Cell, addr: SockAddr, clientKey: KeyBytes)
    ensures var c := ExtendCell(buffer, addr, clientKey);
            && c[..2] == buffer[..2] && c[2] == 3 && c[3..13] == buffer[3..13] && c[13] == 6
            && c[14..34] == addr && c[34..290] == clientKey && c[290..] == buffer[290..]
  {
    hide Put;
    var c0 := buffer[CMD := TOR_RELAY][RELAY_CMD := RELAY_EXTEND];
    var c1 := Put(c0, EXTEND_KEY, clientKey);
    PutReads(c0, EXTEND_KEY, clientKey);
    PutReads(c1, EXTEND_ADDR, addr);
    assert c1[34..34 + 256] == clientKey;
    assert forall k | 34 <= k < 290 :: Put(c1, EXTEND_ADDR, addr)[k] == c1[k] == clientKey[k - 34];
  }

  lemma SameId(c: Cell, d: Cell)
    requires c[STREAM_ID] == d[STREAM_ID] && c[STREAM_ID + 1] == d[STREAM_ID + 1]
    ensures IdOf(c) == IdOf(d)
  {
  }

  // ---- The same cells made in place, over whatever the buffer holds

  /** `tor_send_create_msg`, before sending */
  method MakeCreate(buffer: array<Byte>, clientKey: KeyBytes)
    requires buffer.Length == TOR_MSG_SIZE
    modifies buffer
    ensures buffer[..] == CreateCell(old(buffer[..]), clientKey)
  {
    buffer[CMD] := TOR_CREATE;
    PutInto(buffer, CREATE_KEY, clientKey);
  }

  /** `tor_send_extend_msg`, before sending */
  method MakeExtend(buffer: array<Byte>, addr: SockAddr, clientKey: KeyBytes)
    requires buffer.Length == TOR_MSG_SIZE
    modifies buffer
    ensures buffer[..] == ExtendCell(old(buffer[..]), addr, clientKey)
  {
    buffer[CMD] := TOR_RELAY;
    buffer[RELAY_CMD] := RELAY_EXTEND;
    PutInto(buffer, EXTEND_KEY, clientKey);
    PutInto(buffer, EXTEND_ADDR, addr);
  }

  /** `tor_send_middle_relay_create`, before sending: the key moves within the buffer. */
  method MakeCreateFromExtend(buffer: array<Byte>)
    requires buffer.Length == TOR_MSG_SIZE
    modifies buffer
    ensures buffer[..] == CreateFromExtend(old(buffer[..]))
  {
    ghost var extend := buffer[..];
    buffer[CMD] := TOR_CREATE;
    var clientKey := buffer[EXTEND_KEY..EXTEND_KEY + ASYMMETRIC_KEY_BYTES];
    assert clientKey == extend[EXTEND_KEY..EXTEND_KEY + ASYMMETRIC_KEY_BYTES];
    PutInto(buffer, CREATE_KEY, clientKey);
  }

  method MakeCreated(buffer: array<Byte>)
    requires buffer.Length == TOR_MSG_SIZE
    modifies buffer
    ensures buffer[..] == CreatedCell(old(buffer[..]))
  {
    buffer[CMD] := TOR_CREATED;
    PutInto(buffer, CREATE_KEY, Zeros(ASYMMETRIC_KEY_BYTES));
  }

  /** `tor_send_middle_relay_extended`, before sending */
  method MakeExtended(buffer: array<Byte>)
    requires buffer.Length == TOR_MSG_SIZE
    modifies buffer
    ensures buffer[..] == ExtendedCell(old(buffer[..]))
  {
    buffer[CMD] := TOR_RELAY;
    buffer[RELAY_CMD] := RELAY_EXTENDED;
  }

  method MakeStreamCell(buffer: array<Byte>, id: nat, cmd: Byte)
    requires buffer.Length == TOR_MSG_SIZE && id < 0x1_0000
    modifies buffer
    ensures buffer[..] == StreamCell(old(buffer[..]), id, cmd)
  {
    hide Put, Uint16;
    buffer[CMD] := TOR_RELAY;
    buffer[RELAY_CMD] := cmd;
    PutInto(buffer, STREAM_ID, Uint16(id));
  }

  /** `tor_send_begin_msg`, before sending; the id is cut to 16 bits, as the field is. */
  method MakeBegin(buffer: array<Byte>, streamId: nat, addr: SockAddr)
    requires buffer.Length == TOR_MSG_SIZE
    modifies buffer
    ensures buffer[..] == BeginCell(old(buffer[..]), streamId % 0x1_0000, addr)
  {
    hide StreamCell, Put;
    MakeStreamCell(buffer, streamId % 0x1_0000, RELAY_BEGIN);
    PutInto(buffer, BEGIN_ADDR, addr);
  }

  /** `tor_send_end_msg`, before sending */
  method MakeEnd(buffer: array<Byte>, streamId: nat, reason: Byte)
    requires buffer.Length == TOR_MSG_SIZE
    modifies buffer
    ensures buffer[..] == EndCell(old(buffer[..]), streamId % 0x1_0000, reason)
  {
    hide StreamCell;
    MakeStreamCell(buffer, streamId % 0x1_0000, RELAY_END);
    buffer[REASON] := reason;
  }

  /** `tor_send_data_msg`, before sending */
  method MakeData(buffer: array<Byte>, streamId: nat, bytes: seq<Byte>)
    requires buffer.Length == TOR_MSG_SIZE && |bytes| <= RELAY_DATA_MSG_SIZE
    modifies buffer
    ensures buffer[..] == DataCell(old(buffer[..]), streamId, bytes)
  {
    hide Uint16, Put;
    buffer[CMD] := TOR_RELAY;
    buffer[RELAY_CMD] := RELAY_DATA;
    PutInto(buffer, STREAM_ID, Uint16(streamId % 0x1_0000));
    PutInto(buffer, LENGTH, Uint16(|bytes|));
    PutInto(buffer, DATA, bytes);
  }
}
