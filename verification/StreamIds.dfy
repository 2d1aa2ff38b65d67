/**
 * The client's table of streams and its generator of stream ids. The generator looks
 * at one slot only; what makes that enough is that no stream ever leaves its home slot.
 */
module StreamIds {
  import opened Bytes
  import opened TorCells
  import opened ProbeTable
  import opened StreamBuffers
  import opened Inboxes

  const UINT32 := 0x1_0000_0000

  /** The 16 bits of an id that reach the table and the cells. */
  function Truncated(id: nat): StreamId {
    id % 0x1_0000
  }

  /** Every stream sits in the first slot of its own search. */
  predicate AtHome<V>(t: Table<V>) {
    forall p | 0 <= p < HASHMAP_AMOUNT && t[p].Filled? :: t[p].id % HASHMAP_AMOUNT == p
  }

  lemma TruncatedIs(id: StreamId)
    ensures Truncated(id) == id
  {
  }

  /**
   * With every stream at home, a free home slot makes an id globally fresh even after
   * truncation, and the insert that follows takes that slot without probing.
   */
  lemma FreeHomeIsFresh<V>(t: Table<V>, id: nat, value: V)
    requires AtHome(t) && !t[id % HASHMAP_AMOUNT].Filled?
    ensures Stack(t, Truncated(id)) == []
    ensures InsertPlace(t, Truncated(id), 0) == Some(id % HASHMAP_AMOUNT)
    ensures AtHome(t[id % HASHMAP_AMOUNT := Filled(Truncated(id), value)])
  {
    assert Truncated(id) % HASHMAP_AMOUNT == id % HASHMAP_AMOUNT;
    EmptyStack(t, Truncated(id), 0);
  }

  /** With every stream at home, a search finds its stream in the home slot or not at all. */
  lemma FoundAtHome<V>(t: Table<V>, id: StreamId)
    requires AtHome(t) && Searchable(t)
    ensures FindPlace(t, id, 0) == if HasId(t[id % HASHMAP_AMOUNT], id) then Some(id % HASHMAP_AMOUNT) else None
    ensures Stack(t, id) == if HasId(t[id % HASHMAP_AMOUNT], id) then [t[id % HASHMAP_AMOUNT].value] else []
  {
    hide StackFrom, FindPlace;
    FindSeesTop(t, id);
    var home := id % HASHMAP_AMOUNT;
    assert SlotAt(id, 0) == home;
    if HasId(t[home], id) {
      HomeStack(t, id);
    } else {
      EmptyStack(t, id, 0);
    }
  }

  lemma HomeStack<V>(t: Table<V>, id: StreamId)
    requires AtHome(t) && HasId(t[id % HASHMAP_AMOUNT], id)
    ensures Stack(t, id) == [t[id % HASHMAP_AMOUNT].value]
  {
    StackStep(t, id, 0);
    EmptyStack(t, id, 1);
  }

  lemma RemoveKeepsHomes<V>(t: Table<V>, p: nat)
    requires AtHome(t) && p < HASHMAP_AMOUNT
    ensures AtHome(t[p := Deleted])
  {
  }

  /** When all slots are taken, no value of the counter ends the generator's loop. */
  lemma FullTableNeverEnds<V>(t: Table<V>)
    ensures Full(t) <==> forall counter: nat :: t[counter % HASHMAP_AMOUNT].Filled?
  {
    if forall counter: nat :: t[counter % HASHMAP_AMOUNT].Filled? {
      forall p | 0 <= p < HASHMAP_AMOUNT
        ensures t[p].Filled?
      {
        assert t[p % HASHMAP_AMOUNT].Filled?;
      }
    }
  }

  /** The slot that the generator's counter comes to after k turns. */
  function SlotAfter(counter: nat, k: nat): (p: nat)
    ensures p < HASHMAP_AMOUNT
  {
    (counter + k) % HASHMAP_AMOUNT
  }

  /** The counter is a multiple of 2048 wide, so wrapping it around skips no slot. */
  lemma WrapKeepsSlots(counter: nat, k: nat)
    requires counter < UINT32 && k < HASHMAP_AMOUNT
    ensures ((counter + k) % UINT32) % HASHMAP_AMOUNT == SlotAfter(counter, k)
    ensures ((counter + k) % UINT32 + 1) % UINT32 == (counter + (k + 1)) % UINT32
  {
  }

  ghost function TurnsTo(counter: nat, free: nat): (k: nat)
    requires free < HASHMAP_AMOUNT
    ensures k < HASHMAP_AMOUNT && SlotAfter(counter, k) == free
  {
    if counter % HASHMAP_AMOUNT <= free then free - counter % HASHMAP_AMOUNT
    else free + HASHMAP_AMOUNT - counter % HASHMAP_AMOUNT
  }

  predicate IsNewRing(r: Ring) {
    |r.mem| == INITIAL_BUFFER_CAPACITY && r == InitialRing(r.mem) && r.Holds([])
  }

  class ClientStreams {
    const hashmap: HashMap<CircularBuffer?>
    var streamId: nat  // the generator's static counter

    ghost predicate Valid()
      reads this, hashmap.entries
    {
      hashmap.Valid() && streamId < UINT32 && Searchable(hashmap.Contents()) && AtHome(hashmap.Contents())
    }

    function Streams(): Table<CircularBuffer?>
      requires hashmap.Valid()
      reads hashmap.entries
    {
      hashmap.Contents()
    }

    ghost function Buffers(): set<CircularBuffer>
      requires hashmap.Valid()
      reads hashmap.entries
    {
      set p | 0 <= p < HASHMAP_AMOUNT && Streams()[p].Filled? && Streams()[p].value != null :: Streams()[p].value
    }

    ghost function Memory(): set<array<Byte>>
      requires hashmap.Valid()
      reads hashmap.entries, Buffers()
    {
      set b | b in Buffers() :: b.buffer
    }

    /** Every stream has a receive buffer of its own. */
    ghost predicate Owned()
      requires hashmap.Valid()
      reads hashmap.entries, Buffers(), Memory()
    {
      && (forall p | 0 <= p < HASHMAP_AMOUNT && Streams()[p].Filled? ::
            && Streams()[p].value != null && Streams()[p].value.Valid()
            && (Streams()[p].value.buffer as object) != hashmap.entries)
      && (forall p, q | 0 <= p < q < HASHMAP_AMOUNT && Streams()[p].Filled? && Streams()[q].Filled? ::
            Streams()[p].value != Streams()[q].value && Streams()[p].value.buffer != Streams()[q].value.buffer)
    }

    predicate IsOpen(id: StreamId)
      requires hashmap.Valid()
      reads hashmap.entries
    {
      HasId(Streams()[id % HASHMAP_AMOUNT], id)
    }

    /** The ring of the stream in slot p. */
    ghost function RingAt(p: nat): Ring
      requires hashmap.Valid() && p < HASHMAP_AMOUNT && Streams()[p].Filled? && Streams()[p].value != null
      reads hashmap.entries, Buffers(), Memory()
    {
      Streams()[p].value.State()
    }

    /** The receive buffers of the open streams. */
    ghost function Rings(): (rings: Rings)
      requires Valid() && Owned()
      reads this, hashmap.entries, Buffers(), Memory()
      ensures AllInRange(rings)
    {
      map id | 0 <= id < 0x1_0000 && IsOpen(id) :: RingAt(id % HASHMAP_AMOUNT)
    }

    ghost predicate Shows(rings: Rings)
      requires Valid() && Owned()
      reads this, hashmap.entries, Buffers(), Memory()
    {
      forall id: StreamId :: (id in rings <==> IsOpen(id)) && (IsOpen(id) ==> rings[id] == RingAt(id % HASHMAP_AMOUNT))
    }

    lemma RingsAreShown(rings: Rings)
      requires Valid() && Owned()
      ensures Shows(rings) <==> rings == Rings()
    {
      hide Owned, Searchable, AtHome, RingAt;
    }

    constructor ()
      ensures Valid() && Owned() && fresh(hashmap) && fresh(hashmap.entries)
      ensures forall id: StreamId :: !IsOpen(id)
      ensures forall id: StreamId :: Stack(Streams(), id) == []
      ensures Rings() == History([])
    {
      hashmap := new HashMap<CircularBuffer?>();
      streamId := 0;
    }

    /** `gen_stream_id`: the first counter value with a free slot, which at most 2047 others can precede. */
    method GenStreamId() returns (id: nat, ghost turns: nat)
      requires Valid() && !Full(Streams())
      modifies this`streamId
      ensures Valid() && id == streamId
      ensures !Streams()[id % HASHMAP_AMOUNT].Filled?
      ensures turns < HASHMAP_AMOUNT && id == (old(streamId) + turns) % UINT32
      ensures forall k: nat | k < turns :: Streams()[SlotAfter(old(streamId), k)].Filled?
    {
      turns := 0;
      ghost var free :| 0 <= free < HASHMAP_AMOUNT && !Streams()[free].Filled?;
      ghost var last := TurnsTo(streamId, free);
      while hashmap.entries[streamId % HASHMAP_AMOUNT].Filled?
        invariant turns <= last && streamId == (old(streamId) + turns) % UINT32
        invariant forall k: nat | k < turns :: Streams()[SlotAfter(old(streamId), k)].Filled?
        decreases last - turns
      {
        WrapKeepsSlots(old(streamId), turns);
        streamId := (streamId + 1) % UINT32;
        turns := turns + 1;
      }
      WrapKeepsSlots(old(streamId), turns);
      id := streamId;
    }

    /** `socket_hashmap_insert` of an id with a free home slot, with an empty receive buffer of its own */
    method InsertStream(id: StreamId) returns (ok: bool)
      requires Valid() && Owned() && !Streams()[id % HASHMAP_AMOUNT].Filled?
      modifies hashmap.entries
      ensures Valid() && Owned() && ok && IsOpen(id) && IsNewRing(RingAt(id % HASHMAP_AMOUNT))
      ensures fresh(Streams()[id % HASHMAP_AMOUNT].value) && fresh(Streams()[id % HASHMAP_AMOUNT].value.buffer)
      ensures forall other: StreamId :: IsOpen(other) <==> old(IsOpen(other)) || other == id
      ensures old(Stack(Streams(), id)) == [] && |Stack(Streams(), id)| == 1
      ensures forall other: StreamId | other != id :: Stack(Streams(), other) == old(Stack(Streams(), other))
      ensures forall p: nat | p < HASHMAP_AMOUNT && p != id % HASHMAP_AMOUNT ::
                Streams()[p] == old(Streams()[p]) && (Streams()[p].Filled? ==> RingAt(p) == old(RingAt(p)))
    {
      hide FindPlace, InsertPlace, StackFrom, Searchable, AtHome, Ring.Contents, Ring.Consistent, Ring.InRange;
      var buffer := new CircularBuffer();
      TruncatedIs(id);
      FreeHomeIsFresh<CircularBuffer?>(Streams(), id, buffer);
      InsertPushes<CircularBuffer?>(Streams(), id, buffer);
      ghost var before := Streams();
      ok := hashmap.Insert(id, buffer);
      assert Streams() == before[id % HASHMAP_AMOUNT := Filled(id, buffer)];
    }

    /** The part of `handle_input_connect` that opens a stream, slot by slot */
    method NewStream() returns (id: nat)
      requires Valid() && Owned() && !Full(Streams())
      modifies this`streamId, hashmap.entries
      ensures Valid() && Owned()
      ensures IsOpen(Truncated(id)) && IsNewRing(RingAt(Truncated(id) % HASHMAP_AMOUNT))
      ensures fresh(Streams()[Truncated(id) % HASHMAP_AMOUNT].value) && fresh(Streams()[Truncated(id) % HASHMAP_AMOUNT].value.buffer)
      ensures forall other: StreamId :: IsOpen(other) <==> old(IsOpen(other)) || other == Truncated(id)
      ensures forall other: StreamId | old(IsOpen(other)) :: other % HASHMAP_AMOUNT != Truncated(id) % HASHMAP_AMOUNT
      ensures old(Stack(Streams(), Truncated(id))) == [] && |Stack(Streams(), Truncated(id))| == 1
      ensures forall other: StreamId | other != Truncated(id) :: Stack(Streams(), other) == old(Stack(Streams(), other))
      ensures forall p: nat | p < HASHMAP_AMOUNT && p != Truncated(id) % HASHMAP_AMOUNT ::
                Streams()[p] == old(Streams()[p]) && (Streams()[p].Filled? ==> RingAt(p) == old(RingAt(p)))
    {
      hide FindPlace, StackFrom, Searchable, AtHome, Ring.Contents, Ring.Consistent, Ring.InRange;
      ghost var turns;
      id, turns := GenStreamId();
      assert Truncated(id) % HASHMAP_AMOUNT == id % HASHMAP_AMOUNT;
      hide Truncated, Owned;
      var ok := InsertStream(Truncated(id));
    }

    /** It opens a stream whose id was not in use, and on which nothing has been received. */
    method Connect() returns (id: nat)
      requires Valid() && Owned() && !Full(Streams())
      modifies this`streamId, hashmap.entries
      ensures Valid() && Owned()
      ensures IsOpen(Truncated(id)) && IsNewRing(RingAt(Truncated(id) % HASHMAP_AMOUNT))
      ensures fresh(Streams()[Truncated(id) % HASHMAP_AMOUNT].value) && fresh(Streams()[Truncated(id) % HASHMAP_AMOUNT].value.buffer)
      ensures forall other: StreamId :: IsOpen(other) <==> old(IsOpen(other)) || other == Truncated(id)
      ensures forall other: StreamId | old(IsOpen(other)) :: other % HASHMAP_AMOUNT != Truncated(id) % HASHMAP_AMOUNT
      ensures old(Stack(Streams(), Truncated(id))) == [] && |Stack(Streams(), Truncated(id))| == 1
      ensures forall other: StreamId | other != Truncated(id) :: Stack(Streams(), other) == old(Stack(Streams(), other))
      ensures forall p: nat | p < HASHMAP_AMOUNT && p != Truncated(id) % HASHMAP_AMOUNT ::
                Streams()[p] == old(Streams()[p]) && (Streams()[p].Filled? ==> RingAt(p) == old(RingAt(p)))
      ensures Truncated(id) in Rings() && |Rings()[Truncated(id)].mem| == INITIAL_BUFFER_CAPACITY
      ensures Rings() == RingsAfter(old(Rings()), Opens(Truncated(id), Rings()[Truncated(id)].mem))
    {
      hide StackFrom, Searchable, AtHome, Ring.Holds, Ring.InRange, Rings, Owned, RingAt, Truncated;
      ghost var rings := Rings();
      RingsAreShown(rings);
      id := NewStream();
      ghost var mem := RingAt(Truncated(id) % HASHMAP_AMOUNT).mem;
      RingsAreShown(RingsAfter(rings, Opens(Truncated(id), mem)));
    }

    /** `socket_hashmap_remove`, slot by slot */
    method RemoveStream(id: StreamId) returns (wasOpen: bool)
      requires Valid() && Owned()
      modifies hashmap.entries
      ensures Valid() && Owned()
      ensures wasOpen == old(IsOpen(id))
      ensures forall b | b in Memory() :: b in old(Memory())
      ensures forall other: StreamId :: IsOpen(other) <==> old(IsOpen(other)) && other != id
      ensures wasOpen == (old(Stack(Streams(), id)) != []) && Stack(Streams(), id) == []
      ensures forall other: StreamId | other != id :: Stack(Streams(), other) == old(Stack(Streams(), other))
      ensures forall p: nat | p < HASHMAP_AMOUNT && Streams()[p].Filled? ::
                Streams()[p] == old(Streams()[p]) && RingAt(p) == old(RingAt(p))
    {
      hide FindPlace, StackFrom, Searchable, AtHome;
      FindSeesTop(Streams(), id);
      FoundAtHome(Streams(), id);
      ghost var before := Streams();
      if FindPlace(Streams(), id, 0).Some? {
        RemovePops(Streams(), id);
        RemoveKeepsHomes(Streams(), id % HASHMAP_AMOUNT);
      }
      wasOpen := hashmap.Remove(id);
      assert Streams() == if wasOpen then before[id % HASHMAP_AMOUNT := Deleted] else before;
    }

    /** A user's close or an END from the far side: any id at all may be named. */
    method Close(id: nat) returns (wasOpen: bool)
      requires Valid() && Owned()
      modifies hashmap.entries
      ensures Valid() && Owned()
      ensures wasOpen == old(IsOpen(Truncated(id)))
      ensures forall b | b in Memory() :: b in old(Memory())
      ensures forall other: StreamId :: IsOpen(other) <==> old(IsOpen(other)) && other != Truncated(id)
      ensures wasOpen == (old(Stack(Streams(), Truncated(id))) != []) && Stack(Streams(), Truncated(id)) == []
      ensures forall other: StreamId | other != Truncated(id) :: Stack(Streams(), other) == old(Stack(Streams(), other))
      ensures forall p: nat | p < HASHMAP_AMOUNT && Streams()[p].Filled? ::
                Streams()[p] == old(Streams()[p]) && RingAt(p) == old(RingAt(p))
      ensures Rings() == RingsAfter(old(Rings()), Closes(Truncated(id)))
    {
      hide StackFrom, Searchable, AtHome, Rings, Owned, RingAt, Truncated, Memory;
      ghost var rings := Rings();
      RingsAreShown(rings);
      wasOpen := RemoveStream(Truncated(id));
      RingsAreShown(RingsAfter(rings, Closes(Truncated(id))));
    }

    /** The DATA branch of `handle_relay_relay_msg`: the bytes go into the stream's buffer, or an error when there is no such stream. */
    method HandleRelayData(id: StreamId, bytes: seq<Byte>, junk: nat -> Byte) returns (ok: bool)
      requires Valid() && Owned()
      modifies Buffers(), Memory()
      ensures Valid() && Owned() && Streams() == old(Streams())
      ensures forall b | b in Memory() :: b in old(Memory()) || fresh(b)
      ensures ok == IsOpen(id)
      ensures ok ==> RingAt(id % HASHMAP_AMOUNT) == PushData(old(RingAt(id % HASHMAP_AMOUNT)), bytes, junk)
      ensures forall p: nat | p < HASHMAP_AMOUNT && Streams()[p].Filled? && !(ok && p == id % HASHMAP_AMOUNT) ::
                RingAt(p) == old(RingAt(p))
    {
      hide PushData, PushesSafely, Ring.Contents, Ring.Consistent, Ring.InRange, FindPlace, StackFrom, Searchable, AtHome;
      FoundAtHome(Streams(), id);
      var entry := hashmap.Find(id);
      if entry.None? {
        return false;
      }
      var buffer := hashmap.entries[entry.value].value;
      ghost var before := Streams();
      assert buffer == Streams()[id % HASHMAP_AMOUNT].value;
      assert buffer in Buffers() && buffer.buffer in Memory();
      buffer.StreamPushData(bytes, junk);
      assert Streams() == before;
      return true;
    }

    /** `handle_relay_relay_msg`, the part that is about streams; only DATA for a stream that is not open is an error. */
    method HandleRelayRelayMsg(cell: Cell, behind: Behind, junk: nat -> Byte) returns (ok: bool)
      requires Valid() && Owned()
      modifies hashmap.entries, Buffers(), Memory()
      ensures Valid() && Owned()
      ensures forall b | b in Memory() :: b in old(Memory()) || fresh(b)
      ensures ok == (cell[RELAY_CMD] == RELAY_DATA ==> old(IsOpen(IdOf(cell))))
      ensures forall id: StreamId :: IsOpen(id) <==> old(IsOpen(id)) && !(cell[RELAY_CMD] == RELAY_END && id == IdOf(cell))
      ensures forall p: nat | p < HASHMAP_AMOUNT && Streams()[p].Filled? ::
                && Streams()[p] == old(Streams()[p])
                && RingAt(p) == if cell[RELAY_CMD] == RELAY_DATA && Streams()[p].id == IdOf(cell)
                                then PushData(old(RingAt(p)), ClaimedData(cell, behind), junk) else old(RingAt(p))
      ensures Rings() == if cell[RELAY_CMD] == RELAY_END then RingsAfter(old(Rings()), Closes(IdOf(cell)))
                         else if cell[RELAY_CMD] == RELAY_DATA then RingsAfter(old(Rings()), Data(IdOf(cell), ClaimedData(cell, behind), junk))
                         else old(Rings())
    {
      hide PushData, FindPlace, StackFrom, Searchable, Rings, RingAt, Owned, Memory, Buffers, Ring.InRange, IdOf, ClaimedData;
      var id := IdOf(cell);
      if cell[RELAY_CMD] == RELAY_END {
        TruncatedIs(id);
        var wasOpen := Close(id);
        return true;
      }
      if cell[RELAY_CMD] == RELAY_DATA {
        ghost var rings := Rings();
        RingsAreShown(rings);
        ok := HandleRelayData(id, ClaimedData(cell, behind), junk);
        RingsAreShown(RingsAfter(rings, Data(id, ClaimedData(cell, behind), junk)));
        return;
      }
      return true;
    }

    /** The loop of `handle_input_recv` */
    method ReadOut(buffer: CircularBuffer, length: nat) returns (out: seq<Byte>)
      requires buffer.Valid()
      modifies buffer`tail, buffer`size
      ensures buffer.Valid()
      ensures (buffer.State(), out) == ReadRing(old(buffer.State()), length)
    {
      hide PopData, Ring.Contents, Ring.InRange, Ring.Consistent, PowerOfTwo, ReadRing;
      ghost var first := buffer.State();
      var data := new Byte[TOR_DATA_BUF_SIZE];
      var left := length;
      out := [];
      assert [] + ReadRing(first, length).1 == ReadRing(first, length).1;
      while left != 0
        invariant buffer.Valid() && buffer.buffer == old(buffer.buffer)
        invariant ReadRing(first, length) == (ReadRing(buffer.State(), left).0, out + ReadRing(buffer.State(), left).1)
        decreases left
      {
        ReadTurn(buffer.State(), left, out);
        var amount := buffer.StreamPopData(data, if TOR_DATA_BUF_SIZE < left then TOR_DATA_BUF_SIZE else left);
        if amount == 0 {
          assert out + [] == out;
          return;
        }
        left := left - amount;
        out := out + data[..amount];
      }
      NothingToRead(buffer.State());
      assert out + [] == out;
    }

    /** The branches of `handle_input_recv`, on the table of streams */
    method RecvFrom(id: StreamId, length: nat) returns (out: Option<seq<Byte>>)
      requires Valid() && Owned()
      modifies Buffers()`tail, Buffers()`size
      ensures Valid() && Owned() && Streams() == old(Streams()) && Memory() == old(Memory())
      ensures out.Some? == IsOpen(id)
      ensures IsOpen(id) ==> (RingAt(id % HASHMAP_AMOUNT), out.value) == ReadRing(old(RingAt(id % HASHMAP_AMOUNT)), length)
      ensures forall p: nat | p < HASHMAP_AMOUNT && Streams()[p].Filled? && !(IsOpen(id) && p == id % HASHMAP_AMOUNT) ::
                RingAt(p) == old(RingAt(p))
    {
      hide Ring.Contents, Ring.Consistent, Ring.InRange, FindPlace, StackFrom, Searchable, AtHome, ReadRing;
      FoundAtHome(Streams(), id);
      var entry := hashmap.Find(id);
      if entry.None? {
        return None;
      }
      var buffer := hashmap.entries[entry.value].value;
      ghost var before := Streams();
      assert buffer == Streams()[id % HASHMAP_AMOUNT].value;
      assert buffer in Buffers() && buffer.buffer in Memory();
      var data := ReadOut(buffer, length);
      assert Streams() == before;
      return Some(data);
    }

    /** `handle_input_recv`: the oldest bytes of a stream's buffer, as many as asked for or there are; nothing for an id that is not open. */
    method HandleInputRecv(id: nat, length: nat) returns (out: Option<seq<Byte>>)
      requires Valid() && Owned()
      modifies Buffers()`tail, Buffers()`size
      ensures Valid() && Owned() && Streams() == old(Streams()) && Memory() == old(Memory())
      ensures out == if Truncated(id) in old(Rings()) then Some(ReadRing(old(Rings())[Truncated(id)], length).1) else None
      ensures Rings() == RingsAfter(old(Rings()), Reads(Truncated(id), length))
    {
      hide Ring.InRange, Searchable, AtHome, ReadRing, Rings, Owned, RingAt, Truncated;
      ghost var rings := Rings();
      RingsAreShown(rings);
      out := RecvFrom(Truncated(id), length);
      RingsAreShown(RingsAfter(rings, Reads(Truncated(id), length)));
    }
  }
}
