/**
 * Data on its way from the end relay to the client's user: a circuit, the receive buffers of
 * the client's streams, and the user who reads them out, in one system.
 */
module Download {
  import opened TorCells
  import opened Bytes
  import opened Onion
  import opened Circuit
  import opened CircuitTheorems
  import opened StreamBuffers
  import opened Inboxes
  import opened Upload
  import ProbeTable

  /** The circuit, what has happened to the receive buffers, and for each stream how many cells its client had received when it was opened last. */
  datatype User = User(circuit: State, inbox: seq<InboxEvent>, since: map<ProbeTable.StreamId, nat>)

  datatype UserEvent =
    | Inside(step: Event, mem: NewMem, behind: Behind, junk: nat -> Byte)  // a step of the circuit, and what memory holds where it matters
    | Recv(id: ProbeTable.StreamId, length: nat)                                      // the user reads a stream out

  predicate Possible(S: Setup, u: User, e: UserEvent)
    requires Fits(S, u.circuit)
  {
    match e
    case Inside(step, _, _, _) => Enabled(S, u.circuit, step)
    case Recv(_, _) => IsBuilt(S, u.circuit) && u.circuit.phase == Ready
  }

  function Outcome(S: Setup, u: User, e: UserEvent): User
    requires Fits(S, u.circuit) && Possible(S, u, e)
  {
    match e
    case Recv(id, length) => u.(inbox := u.inbox + [Reads(id, length)])
    case Inside(step, mem, behind, junk) =>
      var s, t := u.circuit, After(S, u.circuit, step);
      if step.Send? then
        User(t, Then(u.inbox, BySending(step.cell, mem)),
             if IsRelayCell(step.cell, RELAY_BEGIN) then u.since[IdOf(step.cell) := |s.received|] else u.since)
      else if |t.received| > |s.received| then
        User(t, Then(u.inbox, ByReceiving(t.received[|s.received|], behind, junk)), u.since)
      else
        u.(circuit := t)
  }

  ghost predicate UserStep(S: Setup, u: User, u': User) {
    Fits(S, u.circuit) && exists e :: Possible(S, u, e) && u' == Outcome(S, u, e)
  }

  ghost predicate IsUserRun(S: Setup, users: seq<User>) {
    && users != []
    && users[0] == User(Initial(S), [], map[])
    && forall i: nat | i + 1 < |users| :: UserStep(S, users[i], users[i + 1])
  }

  /** The circuit's part of the run is a run of the circuit. */
  lemma {:induction false} UserIsRun(S: Setup, users: seq<User>, i: nat) returns (run: seq<State>)
    requires IsUserRun(S, users) && i < |users|
    ensures run != [] && IsRun(S, run) && run[|run| - 1] == users[i].circuit
  {
    hide After, Enabled, IsRun, Initial;
    if i == 0 {
      assert IsRun(S, [Initial(S)]) by { StartIsRun(S); }
      run := [Initial(S)];
    } else {
      run := UserIsRun(S, users, i - 1);
      var u := users[i - 1];
      assert UserStep(S, u, users[i]);
      var e :| Possible(S, u, e) && users[i] == Outcome(S, u, e);
      if e.Inside? {
        var t := After(S, u.circuit, e.step);
        assert Leads(S, u.circuit, e.step, t);
        RunGrows(S, run, t);
        run := run + [t];
      }
    }
  }

  // ---- The data of a stream in a sequence of cells

  predicate IsDataFor(cell: Cell, id: nat) {
    IsRelayCell(cell, RELAY_DATA) && IdOf(cell) == id
  }

  /** No DATA cell for the stream has a length field that goes beyond the cell. */
  predicate ShortFor(cells: seq<Cell>, id: nat) {
    forall k | 0 <= k < |cells| && IsDataFor(cells[k], id) :: Uint16At(cells[k], LENGTH) <= RELAY_DATA_MSG_SIZE
  }

  function DataFor(cells: seq<Cell>, id: nat): seq<Byte>
    requires ShortFor(cells, id)
  {
    if cells == [] then []
    else
      var n := |cells| - 1;
      DataFor(cells[..n], id) + if IsDataFor(cells[n], id) then DataOf(cells[n]) else []
  }

  /** All the data that the cells have for the stream comes through the circuit's layers. */
  ghost predicate AllReturn(S: Setup, cells: seq<Cell>, id: nat)
    requires ShortFor(cells, id)
  {
    forall k | 0 <= k < |cells| && IsDataFor(cells[k], id) :: DataReturns(S, cells[k])
  }

  /** Data that arrives is the data sent exactly when every cell's is: no loss can make up for another. */
  lemma {:induction false} SameDataFor(S: Setup, sent: seq<Cell>, got: seq<Cell>, id: nat)
    requires |sent| == |got| && (forall k | 0 <= k < |sent| :: SameData(S, sent[k], got[k])) && ShortFor(sent, id)
    ensures ShortFor(got, id) && |DataFor(got, id)| == |DataFor(sent, id)|
    ensures DataFor(got, id) == DataFor(sent, id) <==> AllReturn(S, sent, id)
  {
    hide DataReturns, Uint16At;
    if sent != [] {
      var n := |sent| - 1;
      SameDataFor(S, sent[..n], got[..n], id);
      assert SameData(S, sent[n], got[n]);
      assert forall k | 0 <= k < n :: got[k] == got[..n][k] && sent[k] == sent[..n][k];
      assert AllReturn(S, sent, id) <==> AllReturn(S, sent[..n], id) && (IsDataFor(sent[n], id) ==> DataReturns(S, sent[n]));
      SameParts(DataFor(got[..n], id), DataFor(sent[..n], id), if IsDataFor(got[n], id) then DataOf(got[n]) else [],
                if IsDataFor(sent[n], id) then DataOf(sent[n]) else []);
    }
  }

  lemma SameParts(a: seq<Byte>, b: seq<Byte>, c: seq<Byte>, d: seq<Byte>)
    requires |a| == |b|
    ensures a + c == b + d <==> a == b && c == d
  {
    assert a == (a + c)[..|a|] && b == (b + d)[..|b|];
    assert c == (a + c)[|a|..] && d == (b + d)[|b|..];
  }

  // ---- The buffers follow the circuit

  /** The streams with a buffer are the circuit's, and what has come for each since it was opened is what the client has received for it since. */
  ghost predicate Follows(u: User) {
    && (forall id :: id in u.circuit.streams ==> id < 0x1_0000)
    && (forall id: ProbeTable.StreamId :: id in History(u.inbox) <==> id in u.circuit.streams)
    && (forall id: ProbeTable.StreamId | id in u.circuit.streams :: FollowsFor(u, id))
  }

  predicate FollowsFor(u: User, id: ProbeTable.StreamId) {
    && id in u.since && u.since[id] <= |u.circuit.received|
    && var cells := u.circuit.received[u.since[id]..];
       (ShortFor(cells, id) ==> Received(u.inbox, id) == DataFor(cells, id))
  }

  lemma InboxGrows(inbox: seq<InboxEvent>, e: InboxEvent, id: ProbeTable.StreamId)
    ensures History(inbox + [e]) == RingsAfter(History(inbox), e)
    ensures Received(inbox + [e], id) ==
              if e.id != id then Received(inbox, id)
              else if e.Opens? then []
              else if e.Data? then Received(inbox, id) + e.bytes
              else Received(inbox, id)
  {
    assert (inbox + [e])[..|inbox|] == inbox;
  }

  lemma CellsGrow(cells: seq<Cell>, cell: Cell, from: nat, id: nat)
    requires from <= |cells|
    ensures var now, more := cells[from..], (cells + [cell])[from..];
            && (ShortFor(more, id) <==> ShortFor(now, id) && (IsDataFor(cell, id) ==> Uint16At(cell, LENGTH) <= RELAY_DATA_MSG_SIZE))
            && (ShortFor(more, id) ==> DataFor(more, id) == DataFor(now, id) + if IsDataFor(cell, id) then DataOf(cell) else [])
  {
    hide Uint16At, IsDataFor;
    var now, more := cells[from..], (cells + [cell])[from..];
    assert more == now + [cell] && more[..|now|] == now;
    assert more[|now|] == cell && forall k | 0 <= k < |now| :: more[k] == now[k];
  }

  lemma SendFollows(u: User, t: State, cell: Cell, mem: NewMem)
    requires Follows(u) && t.received == u.circuit.received && t.streams == StreamsAfterSend(u.circuit.streams, cell)
    ensures Follows(User(t, Then(u.inbox, BySending(cell, mem)),
                         if IsRelayCell(cell, RELAY_BEGIN) then u.since[IdOf(cell) := |t.received|] else u.since))
  {
    hide IdOf, DataFor, Received, History, ShortFor, RingsAfter;
    var u' := User(t, Then(u.inbox, BySending(cell, mem)),
                   if IsRelayCell(cell, RELAY_BEGIN) then u.since[IdOf(cell) := |t.received|] else u.since);
    forall id: ProbeTable.StreamId
      ensures id in History(u'.inbox) <==> id in t.streams
      ensures id in t.streams ==> FollowsFor(u', id)
    {
      if IsRelayCell(cell, RELAY_BEGIN) {
        OneOpens(u, t, IdOf(cell), mem, id);
      } else if IsRelayCell(cell, RELAY_END) {
        OneCloses(u, IdOf(cell), id);
      }
      assert FollowsFor(u, id) || id !in u.circuit.streams;
    }
  }

  lemma OneOpens(u: User, t: State, begun: ProbeTable.StreamId, mem: NewMem, id: ProbeTable.StreamId)
    ensures id in History(u.inbox + [Opens(begun, mem)]) <==> id in History(u.inbox) || id == begun
    ensures Received(u.inbox + [Opens(begun, mem)], id) == if id == begun then [] else Received(u.inbox, id)
    ensures t.received[|t.received|..] == [] && ShortFor([], id) && DataFor([], id) == []
  {
    InboxGrows(u.inbox, Opens(begun, mem), id);
  }

  lemma OneCloses(u: User, closed: ProbeTable.StreamId, id: ProbeTable.StreamId)
    ensures id in History(u.inbox + [Closes(closed)]) <==> id in History(u.inbox) && id != closed
    ensures Received(u.inbox + [Closes(closed)], id) == Received(u.inbox, id)
  {
    InboxGrows(u.inbox, Closes(closed), id);
  }

  lemma OneData(u: User, cell: Cell, behind: Behind, junk: nat -> Byte, id: ProbeTable.StreamId)
    ensures var inbox := u.inbox + [Data(IdOf(cell), ClaimedData(cell, behind), junk)];
            && (id in History(inbox) <==> id in History(u.inbox))
            && Received(inbox, id) == Received(u.inbox, id) + if id == IdOf(cell) then ClaimedData(cell, behind) else []
  {
    hide ClaimedData, IdOf;
    InboxGrows(u.inbox, Data(IdOf(cell), ClaimedData(cell, behind), junk), id);
  }

  lemma ReceiveFollows(u: User, t: State, cell: Cell, behind: Behind, junk: nat -> Byte)
    requires Follows(u) && t.received == u.circuit.received + [cell]
    requires t.streams == if IsRelayCell(cell, RELAY_END) then u.circuit.streams - {IdOf(cell)} else u.circuit.streams
    ensures Follows(User(t, Then(u.inbox, ByReceiving(cell, behind, junk)), u.since))
  {
    hide IdOf, DataFor, Received, History, ShortFor, RingsAfter, ClaimedData, Uint16At;
    var u' := User(t, Then(u.inbox, ByReceiving(cell, behind, junk)), u.since);
    forall id: ProbeTable.StreamId
      ensures id in History(u'.inbox) <==> id in t.streams
      ensures id in t.streams ==> FollowsFor(u', id)
    {
      if IsRelayCell(cell, RELAY_END) {
        OneCloses(u, IdOf(cell), id);
      } else if IsRelayCell(cell, RELAY_DATA) {
        OneData(u, cell, behind, junk, id);
      }
      if id in t.streams {
        assert FollowsFor(u, id);
        CellsGrow(u.circuit.received, cell, u.since[id], id);
        if Uint16At(cell, LENGTH) <= RELAY_DATA_MSG_SIZE {
          ClaimedInRange(cell, behind);
        }
      }
    }
  }

  lemma RecvFollows(u: User, read: ProbeTable.StreamId, length: nat)
    requires Follows(u)
    ensures Follows(u.(inbox := u.inbox + [Reads(read, length)]))
  {
    hide DataFor, ShortFor, Received, History;
    var u' := u.(inbox := u.inbox + [Reads(read, length)]);
    forall id: ProbeTable.StreamId
      ensures id in History(u'.inbox) <==> id in u.circuit.streams
      ensures id in u.circuit.streams ==> FollowsFor(u', id)
    {
      InboxGrows(u.inbox, Reads(read, length), id);
      assert id in u.circuit.streams ==> FollowsFor(u, id);
    }
  }

  /** Which steps of a circuit its client's streams have a part in. */
  lemma StepInbox(S: Setup, s: State, e: Event)
    requires Fits(S, s) && Enabled(S, s, e)
    ensures var t := After(S, s, e);
            match e
            case Send(cell) => t.received == s.received && t.streams == StreamsAfterSend(s.streams, cell)
            case Receive =>
              || (t.received == s.received && t.streams == s.streams)
              || (|t.received| == |s.received| + 1 && var cell := t.received[|s.received|];
                  && t.received == s.received + [cell]
                  && t.streams == if IsRelayCell(cell, RELAY_END) then s.streams - {IdOf(cell)} else s.streams)
            case _ => t.received == s.received && t.streams == s.streams
  {
    hide Seal, Unseal, AddOnion, PeelOnion, IdOf, StreamsAfterSend;
  }

  lemma {:induction false} EveryStateFollows(S: Setup, users: seq<User>, i: nat)
    requires IsUserRun(S, users) && i < |users|
    ensures Follows(users[i])
  {
    hide After, Follows, Enabled, ByReceiving, BySending, IdOf, StreamsAfterSend;
    if i == 0 {
      NothingFollows(S);
    } else {
      EveryStateFollows(S, users, i - 1);
      var u := users[i - 1];
      assert UserStep(S, u, users[i]);
      var e :| Possible(S, u, e) && users[i] == Outcome(S, u, e);
      match e
      case Recv(id, length) => RecvFollows(u, id, length);
      case Inside(step, mem, behind, junk) =>
        StepInbox(S, u.circuit, step);
        var t := After(S, u.circuit, step);
        if step.Send? {
          SendFollows(u, t, step.cell, mem);
        } else if |t.received| > |u.circuit.received| {
          ReceiveFollows(u, t, t.received[|u.circuit.received|], behind, junk);
        } else {
          OthersFollow(u, t);
        }
    }
  }

  lemma NothingFollows(S: Setup)
    ensures Follows(User(Initial(S), [], map[]))
  {
  }

  lemma OthersFollow(u: User, t: State)
    requires Follows(u) && t.received == u.circuit.received && t.streams == u.circuit.streams
    ensures Follows(u.(circuit := t))
  {
    hide DataFor, ShortFor, Received, History;
    forall id: ProbeTable.StreamId | id in t.streams
      ensures FollowsFor(u.(circuit := t), id)
    {
      assert FollowsFor(u, id);
    }
  }

  // ---- From the end relay to the user

  /**
   * What a user has read out of an open stream, and then what its buffer holds, is the data
   * that the end relay has sent for the stream since it was opened, as far as it has arrived,
   * exactly when all of that comes through the layers; provided that every push since was safe.
   */
  lemma ReadIsAnswered(S: Setup, users: seq<User>, id: ProbeTable.StreamId)
    requires ValidSetup(S) && users != [] && IsUserRun(S, users)
    requires var u := users[|users| - 1]; IsBuilt(S, u.circuit) && id in u.circuit.streams
    ensures var u := users[|users| - 1]; var s := u.circuit;
            && id in History(u.inbox)
            && id in u.since && u.since[id] <= |s.received| <= |s.replies|
            && var answers := s.replies[u.since[id]..|s.received|];
               (SafeSince(u.inbox, id) && ShortFor(answers, id) ==>
                 (ReadSince(u.inbox, id) + History(u.inbox)[id].Contents() == DataFor(answers, id) <==> AllReturn(S, answers, id)))
  {
    hide IsUserRun, IsRun, SafeSince, ReadSince, Received, History, Ring.Contents, SameData, ShortFor, DataFor, AllReturn, Ring.InRange, Ring.Consistent;
    var u := users[|users| - 1];
    var s := u.circuit;
    var run := LastIsRun(S, users);
    BuildTakesExactly(S, run);
    DataArrives(S, run);
    assert FollowsFor(u, id);
    InboxIsFifo(u.inbox, id);
    var from := u.since[id];
    var answers, got := s.replies[from..|s.received|], s.received[from..];
    forall k | 0 <= k < |answers|
      ensures SameData(S, answers[k], got[k])
    {
      assert SameData(S, s.replies[from + k], s.received[from + k]);
    }
    if ShortFor(answers, id) {
      SameDataFor(S, answers, got, id);
    }
  }

  lemma LastIsRun(S: Setup, users: seq<User>) returns (run: seq<State>)
    requires ValidSetup(S) && users != [] && IsUserRun(S, users)
    ensures run != [] && IsRun(S, run) && run[|run| - 1] == users[|users| - 1].circuit
    ensures var u := users[|users| - 1];
            && (forall id: ProbeTable.StreamId :: id in History(u.inbox) <==> id in u.circuit.streams)
            && (forall id: ProbeTable.StreamId | id in u.circuit.streams :: FollowsFor(u, id))
  {
    hide IsUserRun, IsRun;
    run := UserIsRun(S, users, |users| - 1);
    EveryStateFollows(S, users, |users| - 1);
  }
}
