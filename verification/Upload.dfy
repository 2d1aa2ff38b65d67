/** Data on its way from the client's input to the socket at the far end. */
module Upload {
  import opened Arithmetic
  import opened Bytes
  import Encryptions
  import opened TorCells
  import opened Onion
  import opened Circuit
  import opened CircuitTheorems
  import opened CircuitStreams
  import opened CircuitWhole
  import ProbeTable
  import RelayEnd

  /** Data bytes that lie in the part of a cell that layers preserve. */
  const SAFE_DATA := 485

  predicate DataCells(cells: seq<Cell>, streamId: nat) {
    forall j | 0 <= j < |cells| ::
      IsRelayCell(cells[j], RELAY_DATA) && Uint16At(cells[j], STREAM_ID) == streamId % 0x1_0000 && Uint16At(cells[j], LENGTH) <= RELAY_DATA_MSG_SIZE
  }

  function Payload(cells: seq<Cell>): seq<Byte>
    requires forall j | 0 <= j < |cells| :: Uint16At(cells[j], LENGTH) <= RELAY_DATA_MSG_SIZE
  {
    if cells == [] then [] else Payload(cells[..|cells| - 1]) + DataOf(cells[|cells| - 1])
  }

  /** The cells carry an input, in order and completely. */
  predicate Carries(cells: seq<Cell>, streamId: nat, input: seq<Byte>) {
    DataCells(cells, streamId) && Payload(cells) == input
  }

  lemma CarriesNothing(streamId: nat)
    ensures Carries([], streamId, [])
  {
  }

  lemma CarriesMore(cells: seq<Cell>, streamId: nat, input: seq<Byte>, buffer: Cell, chunk: seq<Byte>)
    requires Carries(cells, streamId, input) && |chunk| <= RELAY_DATA_MSG_SIZE
    ensures Carries(cells + [DataCell(buffer, streamId, chunk)], streamId, input + chunk)
  {
    hide DataCell, DataOf, Uint16At;
    DataCellReads(buffer, streamId, chunk);
    var more := cells + [DataCell(buffer, streamId, chunk)];
    assert more[..|more| - 1] == cells;
  }

  /** Fields and the first 485 bytes of data can be read off a cell's view. */
  lemma ViewKeepsData(c: Cell, d: Cell)
    requires ViewOf(c) == ViewOf(d)
    ensures IsRelayCell(c, RELAY_DATA) == IsRelayCell(d, RELAY_DATA)
    ensures Uint16At(c, STREAM_ID) == Uint16At(d, STREAM_ID)
    ensures Uint16At(c, LENGTH) == Uint16At(d, LENGTH)
    ensures c[DATA..DATA + SAFE_DATA] == d[DATA..DATA + SAFE_DATA]
  {
    assert forall i | 0 <= i < VIEW_SIZE :: c[i] == ViewOf(c)[i] == ViewOf(d)[i] == d[i];
  }

  /** The data of the cell fits in view, or what of it does not is read back from what goes over the links. */
  ghost predicate DataReturns(S: Setup, cell: Cell)
    requires Uint16At(cell, LENGTH) <= RELAY_DATA_MSG_SIZE
  {
    var length := Uint16At(cell, LENGTH);
    length <= SAFE_DATA || TailComesBack(S, cell, TailOf(cell)[..length - SAFE_DATA])
  }

  /** Stream and length have arrived, the data as far as layers keep it for any keys, and all of it exactly when it returns. */
  ghost predicate SameData(S: Setup, sent: Cell, got: Cell) {
    var length := Uint16At(sent, LENGTH);
    && IsRelayCell(got, RELAY_DATA) == IsRelayCell(sent, RELAY_DATA)
    && Uint16At(got, STREAM_ID) == Uint16At(sent, STREAM_ID)
    && Uint16At(got, LENGTH) == length
    && (length <= RELAY_DATA_MSG_SIZE ==>
          && DataOf(got)[..Min(length, SAFE_DATA)] == DataOf(sent)[..Min(length, SAFE_DATA)]
          && (DataOf(got) == DataOf(sent) <==> DataReturns(S, sent)))
  }

  /**
   * A DATA cell that has arrived, at the end relay or at the client, is the DATA cell sent in the
   * same place: same stream, same length, the same data up to byte 485, and all of the
   * data exactly when it was no more than that or its last bytes return.
   */
  lemma DataArrives(S: Setup, run: seq<State>)
    requires ValidSetup(S) && IsRun(S, run) && |run| - 1 >= |S.addrs| * (|S.addrs| + 2)
    ensures var s := run[|run| - 1];
            && |s.taken| <= |s.sent| && |s.received| <= |s.replies|
            && (forall j | 0 <= j < |s.taken| :: SameData(S, s.sent[j], s.taken[j]))
            && (forall j | 0 <= j < |s.received| :: SameData(S, s.replies[j], s.received[j]))
  {
    hide IsRun, SameData, Arrival, TailComesBack;
    ArrivesWholeExactlyWhen(S, run);
    var s := run[|run| - 1];
    if |s.taken| > 0 {
      assert Arrived(S, s.sent, s.taken, |s.taken| - 1);
    }
    if |s.received| > 0 {
      assert Arrived(S, s.replies, s.received, |s.received| - 1);
    }
    forall j: nat | j < |s.taken|
      ensures SameData(S, s.sent[j], s.taken[j])
    {
      assert Arrived(S, s.sent, s.taken, j);
      ArrivalSameData(S, s.sent[j]);
    }
    forall j: nat | j < |s.received|
      ensures SameData(S, s.replies[j], s.received[j])
    {
      assert Arrived(S, s.replies, s.received, j);
      ArrivalSameData(S, s.replies[j]);
    }
  }

  lemma ArrivalSameData(S: Setup, cell: Cell)
    requires ValidSetup(S)
    ensures SameData(S, cell, Arrival(S, cell))
  {
    hide Uint16At, Through, Encryptions.TailRead;
    ComesThrough(S.cipher, S.onionKeys, cell);
    var got := Arrival(S, cell);
    ViewKeepsData(cell, got);
    var length := Uint16At(cell, LENGTH);
    if length <= SAFE_DATA {
      Prefixes(got, length, length);
      Prefixes(cell, length, length);
    } else if length <= RELAY_DATA_MSG_SIZE {
      Prefixes(got, length, SAFE_DATA);
      Prefixes(cell, length, SAFE_DATA);
      ComesThroughExactlyWhen(S.cipher, S.onionKeys, cell, length - SAFE_DATA);
      SameUpTo(got, cell, length);
    }
  }

  /** Cells with the same header agree up to the end of their data exactly when they have the same data. */
  lemma SameUpTo(c: Cell, d: Cell, length: nat)
    requires ViewOf(c) == ViewOf(d) && SAFE_DATA < length <= RELAY_DATA_MSG_SIZE
    ensures c[..DATA + length] == d[..DATA + length] <==> c[DATA..DATA + length] == d[DATA..DATA + length]
  {
    assert c[..DATA] == ViewOf(c)[..DATA] == ViewOf(d)[..DATA] == d[..DATA];
    assert c[..DATA + length] == c[..DATA] + c[DATA..DATA + length] && d[..DATA + length] == d[..DATA] + d[DATA..DATA + length];
    assert c[DATA..DATA + length] == c[..DATA + length][DATA..] && d[DATA..DATA + length] == d[..DATA + length][DATA..];
  }

  lemma Prefixes(c: Cell, length: nat, n: nat)
    requires n <= length <= RELAY_DATA_MSG_SIZE && n <= SAFE_DATA
    ensures c[DATA..DATA + length][..n] == c[DATA..DATA + SAFE_DATA][..n]
  {
  }

  /** An input of at most 498 bytes is one cell, and reaches the far end unchanged exactly when its data returns; at most 485 bytes always do. */
  lemma InputArrivesExactlyWhen(S: Setup, run: seq<State>, j: nat, streamId: nat, input: seq<Byte>)
    requires ValidSetup(S) && IsRun(S, run) && |run| - 1 >= |S.addrs| * (|S.addrs| + 2)
    requires j < |run[|run| - 1].taken| <= |run[|run| - 1].sent|
    requires Carries([run[|run| - 1].sent[j]], streamId, input)
    ensures var sent, taken := run[|run| - 1].sent[j], run[|run| - 1].taken[j];
            && IsRelayCell(taken, RELAY_DATA) && Uint16At(taken, STREAM_ID) == streamId % 0x1_0000
            && Uint16At(taken, LENGTH) == Uint16At(sent, LENGTH) == |input| <= RELAY_DATA_MSG_SIZE
            && (DataOf(taken) == input <==> DataReturns(S, sent))
  {
    hide IsRun, Uint16At, DataReturns;
    DataArrives(S, run);
    var sent := run[|run| - 1].sent[j];
    assert SameData(S, sent, run[|run| - 1].taken[j]);
    assert [sent][..0] == [];
    assert Payload([sent]) == [] + DataOf(sent) == DataOf(sent);
    assert [sent][0] == sent;
  }

  /**
   * What the end relay of a built circuit writes to sockets is, write by write and in order,
   * DATA that the client sent: the same stream and length, the same data up to byte 485, and
   * all of it exactly when it returns.
   */
  lemma WrittenWasSent(S: Setup, lastFd: RelayEnd.Socket, joint: seq<Joint>) returns (at: seq<nat>)
    requires ValidSetup(S) && joint != [] && IsJointRun(S, lastFd, joint) && IsBuilt(S, joint[|joint| - 1].circuit)
    ensures var j := joint[|joint| - 1];
            && Written(j.streams.writes, j.circuit.taken, at)
            && forall k | 0 <= k < |at| :: at[k] < |j.circuit.sent| && SameData(S, j.circuit.sent[at[k]], j.streams.writes[k].cell)
  {
    hide IsJointRun, IsRun, SameData;
    at := WritesWereTaken(S, lastFd, joint, |joint| - 1);
    var run := JointIsRun(S, lastFd, joint, |joint| - 1);
    BuildTakesExactly(S, run);
    DataArrives(S, run);
    var j := joint[|joint| - 1];
    forall k | 0 <= k < |at|
      ensures at[k] < |j.circuit.sent| && SameData(S, j.circuit.sent[at[k]], j.streams.writes[k].cell)
    {
      assert Written(j.streams.writes, j.circuit.taken, at);
    }
  }

  /**
   * When the end relay takes the cell of an input of at most 498 bytes, it writes as many bytes to
   * the socket its stream was opened on last, which is open, and they are the input exactly when
   * it returns; if the stream has no socket, or the cell no data, it writes nothing and answers so.
   */
  lemma InputIsWritten(S: Setup, lastFd: RelayEnd.Socket, joint: seq<Joint>, world: RelayEnd.World,
                            streamId: ProbeTable.StreamId, input: seq<Byte>)
    requires ValidSetup(S) && joint != [] && IsJointRun(S, lastFd, joint) && IsBuilt(S, joint[|joint| - 1].circuit)
    requires Fits(S, joint[|joint| - 1].circuit) && Possible(S, lastFd, joint[|joint| - 1], Take(world)) && world.accepted
    requires var s := joint[|joint| - 1].circuit;
             |s.taken| < |s.sent| && Carries([s.sent[|s.taken|]], streamId, input)
    ensures var j := joint[|joint| - 1]; var after := Outcome(S, lastFd, j, Take(world));
            var stack := ProbeTable.Stack(j.streams.table, streamId); var cell := NextCell(S, j.circuit);
            if stack == [] then
              after.streams == j.streams && after.circuit.replies == j.circuit.replies + [EndCell(cell, streamId, TOR_REASON_END_ABSENT)]
            else if input == [] then
              after.streams == j.streams && after.circuit.replies == j.circuit.replies + [EndCell(cell, streamId, TOR_REASON_END_EOF)]
            else
              && after.streams.writes == j.streams.writes + [RelayEnd.Write(stack[0], cell)]
              && stack[0] in j.streams.open
              && Uint16At(cell, LENGTH) == Uint16At(j.circuit.sent[|j.circuit.taken|], LENGTH) == |input| <= RELAY_DATA_MSG_SIZE
              && (DataOf(cell) == input <==> DataReturns(S, j.circuit.sent[|j.circuit.taken|]))
  {
    hide DataReturns, Uint16At, IsJointRun, IsRun, Carries, Possible, NextCell, After, Outcome, ProbeTable.StackFrom, RelayEnd.Sound, EndCell;
    var j := joint[|joint| - 1];
    assert ActsAsEnd(S, j.circuit) by { TakeActs(S, lastFd, j, world); }
    hide ActsAsEnd;
    var run := JointIsRun(S, lastFd, joint, |joint| - 1);
    BuildTakesExactly(S, run);
    InputIsTaken(S, run, streamId, input);
    var cell := NextCell(S, j.circuit);
    RelayEnd.DataGoesToTop(j.streams, lastFd, cell);
    DataOutcome(S, lastFd, j, world);
  }

  lemma TakeActs(S: Setup, lastFd: RelayEnd.Socket, j: Joint, world: RelayEnd.World)
    requires Fits(S, j.circuit) && Possible(S, lastFd, j, Take(world))
    ensures ActsAsEnd(S, j.circuit)
  {
  }

  /** The cell an input of at most 498 bytes was sent in is read with its stream and length, and with the input exactly when that returns. */
  lemma InputIsTaken(S: Setup, run: seq<State>, streamId: nat, input: seq<Byte>)
    requires ValidSetup(S) && run != [] && IsRun(S, run) && |run| - 1 >= |S.addrs| * (|S.addrs| + 2)
    requires var s := run[|run| - 1];
             Fits(S, s) && ActsAsEnd(S, s) && |s.taken| < |s.sent| && Carries([s.sent[|s.taken|]], streamId, input)
    ensures var s := run[|run| - 1]; var cell := NextCell(S, s); var sent := s.sent[|s.taken|];
            && IsRelayCell(cell, RELAY_DATA) && Uint16At(cell, STREAM_ID) == streamId % 0x1_0000
            && Uint16At(cell, LENGTH) == Uint16At(sent, LENGTH) == |input| <= RELAY_DATA_MSG_SIZE
            && (DataOf(cell) == input <==> DataReturns(S, sent))
  {
    hide DataReturns, IsRun, ActsAsEnd, NextCell, After, Enabled, Carries, Uint16At, DataOf;
    var s := run[|run| - 1];
    TakeIs(S, s);
    var t := After(S, s, Last(|S.addrs| - 1));
    assert Leads(S, s, Last(|S.addrs| - 1), t);
    RunGrows(S, run, t);
    DataArrives(S, run + [t]);
    InputArrivesExactlyWhen(S, run + [t], |s.taken|, streamId, input);
  }

  lemma DataOutcome(S: Setup, lastFd: RelayEnd.Socket, j: Joint, world: RelayEnd.World)
    requires Fits(S, j.circuit) && Possible(S, lastFd, j, Take(world)) && ActsAsEnd(S, j.circuit)
    requires IsRelayCell(NextCell(S, j.circuit), RELAY_DATA)
    ensures var r := RelayEnd.HandleData(j.streams, NextCell(S, j.circuit), world.accepted); var after := Outcome(S, lastFd, j, Take(world));
            && after.streams == r.streams
            && after.circuit.replies == j.circuit.replies + if r.reply.None? then [] else [r.reply.value]
  {
    hide NextCell, RelayEnd.HandleData, Seal, Unseal, AddOnion, PeelOnion;
    TakeReplies(S, j.circuit);
  }

  lemma TakeReplies(S: Setup, s: State)
    requires Fits(S, s) && ActsAsEnd(S, s) && IsRelayCell(NextCell(S, s), RELAY_DATA)
    ensures After(S, s, Last(|S.addrs| - 1)).replies == s.replies
  {
    hide Seal, Unseal, AddOnion, PeelOnion;
  }
}
