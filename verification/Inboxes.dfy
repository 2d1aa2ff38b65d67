/**
 * The receive buffers of a client's streams, by stream id, over any history of streams opened
 * and closed, data received and bytes read out.
 */
module Inboxes {
  import opened Bytes
  import opened TorCells
  import opened StreamBuffers
  import opened ProbeTable

  const TOR_DATA_BUF_SIZE := 16

  type Rings = map<StreamId, Ring>

  type NewMem = m: seq<Byte> | |m| == 64 witness Zeros(64)

  datatype InboxEvent =
    | Opens(id: StreamId, mem: NewMem)
    | Closes(id: StreamId)
    | Data(id: StreamId, bytes: seq<Byte>, junk: nat -> Byte)
    | Reads(id: StreamId, length: nat)

  predicate AllInRange(rings: Rings) {
    forall id | id in rings :: rings[id].InRange()
  }

  /** The loop of `handle_input_recv`: at most 16 bytes a time, until there are as many as asked for or no more. */
  function ReadRing(r: Ring, length: nat): (s: (Ring, seq<Byte>))
    requires r.InRange()
    ensures s.0.InRange()
    decreases length
  {
    if length == 0 then (r, [])
    else
      var (s, data) := PopInRange(r, if TOR_DATA_BUF_SIZE < length then TOR_DATA_BUF_SIZE else length);
      if data == [] then (s, [])
      else
        var (last, rest) := ReadRing(s, length - |data|);
        (last, data + rest)
  }

  function RingsAfter(rings: Rings, e: InboxEvent): (after: Rings)
    requires AllInRange(rings)
    ensures AllInRange(after)
  {
    match e
    case Opens(id, mem) => NewIsConsistent(mem); rings[id := InitialRing(mem)]
    case Closes(id) => rings - {id}
    case Data(id, bytes, junk) => if id in rings then rings[id := PushInRange(rings[id], bytes, junk)] else rings
    case Reads(id, length) => if id in rings then rings[id := ReadRing(rings[id], length).0] else rings
  }

  /** What is read out of stream `id` in this step. */
  function Output(rings: Rings, e: InboxEvent, id: StreamId): seq<Byte>
    requires AllInRange(rings)
  {
    if e.Reads? && e.id == id && id in rings then ReadRing(rings[id], e.length).1 else []
  }

  /** The buffers after a history that begins with no stream. */
  function History(events: seq<InboxEvent>): (rings: Rings)
    ensures AllInRange(rings)
  {
    if events == [] then map[] else RingsAfter(History(events[..|events| - 1]), events[|events| - 1])
  }

  /** The data received for the stream since it was opened last. */
  function Received(events: seq<InboxEvent>, id: StreamId): seq<Byte> {
    if events == [] then []
    else
      var before, e := Received(events[..|events| - 1], id), events[|events| - 1];
      if e.id != id then before
      else match e
        case Opens(_, _) => []
        case Data(_, bytes, _) => before + bytes
        case _ => before
  }

  /** The bytes read out of the stream since it was opened last. */
  function ReadSince(events: seq<InboxEvent>, id: StreamId): seq<Byte> {
    if events == [] then []
    else
      var before, e := events[..|events| - 1], events[|events| - 1];
      if e.id == id && e.Opens? then [] else ReadSince(before, id) + Output(History(before), e, id)
  }

  /** No data received for the stream since it was opened last met its buffer full in the middle or drained at the end when it had to grow. */
  predicate SafeSince(events: seq<InboxEvent>, id: StreamId) {
    events == [] ||
    var before, e := events[..|events| - 1], events[|events| - 1];
    (e.id == id && e.Opens?) ||
    (SafeSince(before, id) &&
     (e.Data? && e.id == id && id in History(before) ==> PushesSafely(History(before)[id], |e.bytes|)))
  }

  // ---- What cells do to the buffers

  /** What a cell that the client sends does to the receive buffers. */
  function BySending(cell: Cell, mem: NewMem): Option<InboxEvent> {
    if IsRelayCell(cell, RELAY_BEGIN) then Some(Opens(IdOf(cell), mem))
    else if IsRelayCell(cell, RELAY_END) then Some(Closes(IdOf(cell)))
    else None
  }

  /** What a cell that the client receives on the built circuit does to them. */
  function ByReceiving(cell: Cell, behind: Behind, junk: nat -> Byte): Option<InboxEvent> {
    if IsRelayCell(cell, RELAY_END) then Some(Closes(IdOf(cell)))
    else if IsRelayCell(cell, RELAY_DATA) then Some(Data(IdOf(cell), ClaimedData(cell, behind), junk))
    else None
  }

  /** A history goes on with what a cell did, if it did anything. */
  function Then(inbox: seq<InboxEvent>, e: Option<InboxEvent>): seq<InboxEvent> {
    if e.None? then inbox else inbox + [e.value]
  }

  function RingsThen(rings: Rings, e: Option<InboxEvent>): Rings
    requires AllInRange(rings)
  {
    if e.None? then rings else RingsAfter(rings, e.value)
  }

  // ---- Reading out

  lemma NothingToRead(r: Ring)
    requires r.InRange()
    ensures ReadRing(r, 0) == (r, [])
  {
  }

  /** One turn of the loop, after `out` has been read. */
  lemma ReadTurn(r: Ring, length: nat, out: seq<Byte>)
    requires r.InRange() && length > 0
    ensures var (s, data) := PopData(r, if TOR_DATA_BUF_SIZE < length then TOR_DATA_BUF_SIZE else length);
            var (last, rest) := ReadRing(r, length);
            && s.InRange() && |data| <= length
            && (data == [] ==> last == s && rest == [])
            && (data != [] ==> last == ReadRing(s, length - |data|).0 && out + rest == out + data + ReadRing(s, length - |data|).1)
  {
    hide And, PowerOfTwo, PopData;
    var (s, data) := PopInRange(r, if TOR_DATA_BUF_SIZE < length then TOR_DATA_BUF_SIZE else length);
  }

  /** Reading out gives the oldest bytes, as many as asked for or there are, and leaves the others. */
  lemma {:induction false} ReadTakes(r: Ring, length: nat)
    requires r.Consistent()
    ensures var (s, out) := ReadRing(r, length);
            && out == r.Contents()[..Amount(r, length)]
            && s.Holds(r.Contents()[Amount(r, length)..])
    decreases length
  {
    hide And, PowerOfTwo, PopData, Ring.Contents;
    if length > 0 {
      var n := if TOR_DATA_BUF_SIZE < length then TOR_DATA_BUF_SIZE else length;
      PopTakes(r, n);
      var (s, data) := PopInRange(r, n);
      if data != [] {
        ReadTakes(s, length - |data|);
        var held := r.Contents();
        assert held[..|data|] + held[|data|..][..Amount(s, length - |data|)] == held[..Amount(r, length)];
        assert held[|data|..][Amount(s, length - |data|)..] == held[Amount(r, length)..];
      }
    }
  }

  lemma {:induction false} ReadHolds(r: Ring, length: nat)
    requires r.InRange()
    ensures ReadRing(r, length).0.Consistent() <==> r.Consistent()
    decreases length
  {
    hide And, PowerOfTwo, PopData, Ring.Contents;
    if length > 0 {
      var n := if TOR_DATA_BUF_SIZE < length then TOR_DATA_BUF_SIZE else length;
      PopStepHolds(r, n, _ => 0);
      var (s, data) := PopInRange(r, n);
      if data != [] {
        ReadHolds(s, length - |data|);
      }
    }
  }

  // ---- Every history

  /**
   * In every history each open stream's buffer is in order exactly when all that was received
   * for the stream was pushed safely; then what has been read out of it, and after that what
   * it holds, are the data received for the stream, whatever happened to others in between.
   */
  lemma {:induction false} InboxIsFifo(events: seq<InboxEvent>, id: StreamId)
    requires id in History(events)
    ensures var r := History(events)[id];
            && (r.Consistent() <==> SafeSince(events, id))
            && (SafeSince(events, id) ==> ReadSince(events, id) + r.Contents() == Received(events, id))
  {
    hide PowerOfTwo, PushesSafely, PushData, ReadRing, Ring.Contents, Ring.Consistent, SafeSince, ReadSince, Received;
    var before, e := events[..|events| - 1], events[|events| - 1];
    SinceStep(events, id);
    if e.id == id && e.Opens? {
      NewIsConsistent(e.mem);
      HoldsIs(InitialRing(e.mem), []);
    } else {
      InboxIsFifo(before, id);
      var r := History(before)[id];
      if e.id == id && e.Data? {
        PushedOn(r, e.bytes, e.junk, ReadSince(before, id));
      } else if e.id == id && e.Reads? {
        ReadOn(r, e.length, ReadSince(before, id));
      }
    }
  }

  /** One step of what is said of the time since the stream was opened. */
  lemma SinceStep(events: seq<InboxEvent>, id: StreamId)
    requires events != []
    ensures var before, e := events[..|events| - 1], events[|events| - 1];
            if e.id == id && e.Opens? then
              SafeSince(events, id) && ReadSince(events, id) == Received(events, id) == []
            else
              && (SafeSince(events, id) <==>
                  && SafeSince(before, id)
                  && (e.Data? && e.id == id && id in History(before) ==> PushesSafely(History(before)[id], |e.bytes|)))
              && ReadSince(events, id) == ReadSince(before, id) + Output(History(before), e, id)
              && Received(events, id) == Received(before, id) + if e.Data? && e.id == id then e.bytes else []
  {
  }

  lemma PushedOn(r: Ring, bytes: seq<Byte>, junk: nat -> Byte, read: seq<Byte>)
    requires r.InRange()
    ensures var s := PushInRange(r, bytes, junk);
            && (s.Consistent() <==> r.Consistent() && PushesSafely(r, |bytes|))
            && (s.Consistent() ==> read + s.Contents() == read + r.Contents() + bytes)
  {
    hide PowerOfTwo, PushesSafely, PushData, Ring.Contents, Ring.Consistent;
    PushStepHolds(r, bytes, junk);
    if PushInRange(r, bytes, junk).Consistent() {
      PushAppends(r, bytes, junk);
      HoldsIs(PushData(r, bytes, junk), r.Contents() + bytes);
    }
  }

  lemma ReadOn(r: Ring, length: nat, read: seq<Byte>)
    requires r.InRange()
    ensures var (s, out) := ReadRing(r, length);
            && (s.Consistent() <==> r.Consistent())
            && (s.Consistent() ==> read + out + s.Contents() == read + r.Contents())
  {
    hide PowerOfTwo, ReadRing, Ring.Contents, Ring.Consistent;
    ReadHolds(r, length);
    if r.Consistent() {
      ReadTakes(r, length);
      var n := Amount(r, length);
      HoldsIs(ReadRing(r, length).0, r.Contents()[n..]);
      assert r.Contents() == r.Contents()[..n] + r.Contents()[n..];
    }
  }

  lemma HoldsIs(r: Ring, bytes: seq<Byte>)
    requires r.Holds(bytes)
    ensures r.InRange() && r.Consistent() && r.Contents() == bytes
  {
  }
}
