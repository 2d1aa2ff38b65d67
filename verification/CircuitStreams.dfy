/**
 * A circuit and the streams of its last relay in one system: what the end relay takes from
 * the circuit its streams act on, and what its streams report goes back into the circuit.
 */
module CircuitStreams {
  import opened TorCells
  import opened Onion
  import opened Circuit
  import opened CircuitBuild
  import opened CircuitData
  import opened CircuitTheorems
  import opened Bytes
  import ProbeTable
  import RelayEnd
  import opened RelayAnswers

  /** Relay i of a circuit after its answer to the client, if there is one. */
  function Replied(S: Setup, s: State, i: nat, reply: ProbeTable.Option<Cell>): (s': State)
    requires Fits(S, s) && i < |S.addrs|
    ensures Fits(S, s')
    ensures s'.roles == s.roles && s'.out == s.out && s'.keys == s.keys
  {
    if reply.None? then s
    else
      SendBack(S, s.(replies := s.replies + [reply.value]), i, AddOnion(S.cipher, [s.keys[i]], reply.value))
  }

  /** An answer about a stream is a step that the circuit allows its end relay. */
  lemma RepliesAreSteps(S: Setup, s: State, i: nat, e: RelayEnd.Streams, cell: Cell, world: RelayEnd.World)
    requires Fits(S, s) && i < |S.addrs| && s.roles[i] == End && cell[CMD] == TOR_RELAY
    ensures var reply := RelayEnd.HandleRelayCell(e, cell, world).reply;
            reply.Some? ==>
              && Enabled(S, s, Reply(i, reply.value))
              && Replied(S, s, i, reply) == After(S, s, Reply(i, reply.value))
  {
    hide Uint16At, ProbeTable.FindPlace, ProbeTable.InsertPlace, StreamCell, AddOnion, SendBack;
    var id := IdOf(cell);
    StreamCellReads(cell, id, RELAY_END);
    StreamCellReads(cell, id, RELAY_CONNECTED);
  }

  // ---- The two together

  datatype Joint = Joint(circuit: State, streams: RelayEnd.Streams)

  datatype JointEvent =
    | Elsewhere(step: Event)           // a step in which the end relay's streams have no part
    | Take(world: RelayEnd.World)      // the end relay reads a cell from the client's side and acts on it
    | Socket(event: RelayEnd.EndEvent)   // epoll reports the socket of a stream

  /** What relay i has in its hands when it reads its next cell and takes its layer off. */
  function CellAt(S: Setup, s: State, i: nat): Cell
    requires Fits(S, s) && i < |S.addrs| && s.out[i] != []
  {
    PeelOnion(S.cipher, [s.keys[i]], Unseal(S.cipher, S.linkKeys[i], s.out[i][0]))
  }

  function NextCell(S: Setup, s: State): Cell
    requires Fits(S, s) && s.out[|S.addrs| - 1] != []
  {
    CellAt(S, s, |S.addrs| - 1)
  }

  /** The last relay is an end relay, or about to be one because its next cell does not extend the circuit. */
  predicate ActsAsEnd(S: Setup, s: State)
    requires Fits(S, s)
  {
    var n := |S.addrs| - 1;
    s.out[n] != [] && (s.roles[n] == End || (s.roles[n] == Created && !IsRelayCell(NextCell(S, s), RELAY_EXTEND)))
  }

  predicate Possible(S: Setup, lastFd: RelayEnd.Socket, j: Joint, e: JointEvent)
    requires Fits(S, j.circuit)
  {
    var n := |S.addrs| - 1;
    match e
    case Elsewhere(step) => Enabled(S, j.circuit, step) && !step.Reply? && !(step == Last(n) && ActsAsEnd(S, j.circuit))
    case Take(world) => ActsAsEnd(S, j.circuit) && (world.connected.Some? ==> world.connected.value !in j.streams.open)
    case Socket(event) => j.circuit.roles[n] == End && event.SocketReady? && RelayEnd.Enabled(j.streams, lastFd, event)
  }

  function Outcome(S: Setup, lastFd: RelayEnd.Socket, j: Joint, e: JointEvent): Joint
    requires Fits(S, j.circuit) && Possible(S, lastFd, j, e)
  {
    var n := |S.addrs| - 1;
    match e
    case Elsewhere(step) => j.(circuit := After(S, j.circuit, step))
    case Take(world) =>
      var cell := NextCell(S, j.circuit);
      var t := After(S, j.circuit, Last(n));
      if cell[CMD] != TOR_RELAY then j.(circuit := t)
      else
        var r := RelayEnd.HandleRelayCell(j.streams, cell, world);
        Joint(Replied(S, t, n, r.reply), r.streams)
    case Socket(event) =>
      var r := RelayEnd.Next(j.streams, lastFd, event);
      if r.None? then j else Joint(Replied(S, j.circuit, n, r.value.reply), r.value.streams)
  }

  ghost predicate JointStep(S: Setup, lastFd: RelayEnd.Socket, j: Joint, j': Joint) {
    Fits(S, j.circuit) && exists e :: Possible(S, lastFd, j, e) && j' == Outcome(S, lastFd, j, e)
  }

  ghost predicate IsJointRun(S: Setup, lastFd: RelayEnd.Socket, joint: seq<Joint>) {
    && joint != []
    && joint[0] == Joint(Initial(S), RelayEnd.WithClient(lastFd))
    && forall i: nat | i + 1 < |joint| :: JointStep(S, lastFd, joint[i], joint[i + 1])
  }

  // ---- Joint runs are runs of both

  /** After the end relay has taken a relay cell it is the end relay, with nothing else of the circuit changed. */
  lemma TakeIs(S: Setup, s: State)
    requires Fits(S, s) && ActsAsEnd(S, s)
    ensures Enabled(S, s, Last(|S.addrs| - 1))
    ensures var n := |S.addrs| - 1; var t := After(S, s, Last(n));
            && Fits(S, t) && t.taken == s.taken + [NextCell(S, s)] && t.sent == s.sent
            && (NextCell(S, s)[CMD] == TOR_RELAY ==> t.roles[n] == End)
  {
    hide Seal, Unseal, AddOnion, PeelOnion;
  }

  lemma RepliedIsRun(S: Setup, run: seq<State>, reply: ProbeTable.Option<Cell>) returns (more: seq<State>)
    requires run != [] && IsRun(S, run) && Fits(S, run[|run| - 1]) && run[|run| - 1].roles[|S.addrs| - 1] == End
    requires reply.Some? ==> reply.value[CMD] == TOR_RELAY
    ensures more != [] && IsRun(S, more) && more[|more| - 1] == Replied(S, run[|run| - 1], |S.addrs| - 1, reply)
  {
    hide Seal, AddOnion, IsRun;
    var s := run[|run| - 1];
    if reply.None? {
      more := run;
    } else {
      var n := |S.addrs| - 1;
      var t := Replied(S, s, n, reply);
      assert Leads(S, s, Reply(n, reply.value), t);
      RunGrows(S, run, t);
      more := run + [t];
    }
  }

  /** Every state of a joint run is the last of a run of the circuit alone, and its streams are sound. */
  lemma {:induction false} JointIsRun(S: Setup, lastFd: RelayEnd.Socket, joint: seq<Joint>, i: nat) returns (run: seq<State>)
    requires IsJointRun(S, lastFd, joint) && i < |joint|
    ensures run != [] && IsRun(S, run) && run[|run| - 1] == joint[i].circuit
    ensures RelayEnd.Sound(joint[i].streams, lastFd)
  {
    hide Outcome, Possible, IsRun, Initial, RelayEnd.Sound;
    if i == 0 {
      assert IsRun(S, [Initial(S)]) by { StartIsRun(S); }
      RelayEnd.StartIsSound(lastFd);
      run := [Initial(S)];
    } else {
      run := JointIsRun(S, lastFd, joint, i - 1);
      var j := joint[i - 1];
      assert JointStep(S, lastFd, j, joint[i]);
      var e :| Possible(S, lastFd, j, e) && joint[i] == Outcome(S, lastFd, j, e);
      run := JointGrows(S, lastFd, run, j, e);
    }
  }

  lemma JointGrows(S: Setup, lastFd: RelayEnd.Socket, run: seq<State>, j: Joint, e: JointEvent) returns (more: seq<State>)
    requires run != [] && IsRun(S, run) && run[|run| - 1] == j.circuit && Fits(S, j.circuit) && Possible(S, lastFd, j, e)
    requires RelayEnd.Sound(j.streams, lastFd)
    ensures more != [] && IsRun(S, more) && more[|more| - 1] == Outcome(S, lastFd, j, e).circuit
    ensures RelayEnd.Sound(Outcome(S, lastFd, j, e).streams, lastFd)
  {
    hide IsRun, After, RelayEnd.Sound, RelayEnd.HandleRelayCell, RelayEnd.HandleSocketEvent, Replied, NextCell, ActsAsEnd;
    var n := |S.addrs| - 1;
    match e
    case Elsewhere(step) =>
      var t := After(S, j.circuit, step);
      assert Leads(S, j.circuit, step, t);
      RunGrows(S, run, t);
      more := run + [t];
    case Take(world) =>
      TakeIs(S, j.circuit);
      var cell := NextCell(S, j.circuit);
      var t := After(S, j.circuit, Last(n));
      assert Leads(S, j.circuit, Last(n), t);
      RunGrows(S, run, t);
      more := run + [t];
      if cell[CMD] == TOR_RELAY {
        RelayEnd.StepIsSound(j.streams, lastFd, RelayEnd.ClientCell(cell, world));
        RepliesAreSteps(S, t, n, j.streams, cell, world);
        more := RepliedIsRun(S, more, RelayEnd.HandleRelayCell(j.streams, cell, world).reply);
      }
    case Socket(event) =>
      RelayEnd.StepIsSound(j.streams, lastFd, event);
      EventRepliesAreRelayCells(j.streams, lastFd, event);
      more := RepliedIsRun(S, run, RelayEnd.Next(j.streams, lastFd, event).value.reply);
  }

  lemma EventRepliesAreRelayCells(e: RelayEnd.Streams, lastFd: RelayEnd.Socket, event: RelayEnd.EndEvent)
    requires RelayEnd.Enabled(e, lastFd, event) && event.SocketReady?
    ensures var r := RelayEnd.Next(e, lastFd, event);
            r.Some? && r.value.reply.Some? ==> r.value.reply.value[CMD] == TOR_RELAY
  {
    hide Uint16At, ProbeTable.FindPlace, StreamCell, RelayEnd.Drop, Uint16;
    var id := e.watched[event.socket] % 0x1_0000;
    StreamCellReads(event.buffer, id, RELAY_END);
    StreamCellReads(event.buffer, id, RELAY_DATA);
  }

  // ---- What is written to sockets is what was sent

  /** The cells written to sockets are DATA cells that the end relay has taken, in the order it took them. */
  ghost predicate Written(writes: seq<RelayEnd.Write>, taken: seq<Cell>, at: seq<nat>) {
    && |at| == |writes|
    && (forall k | 0 <= k < |at| :: at[k] < |taken| && taken[at[k]] == writes[k].cell && IsRelayCell(writes[k].cell, RELAY_DATA))
    && (forall k, l | 0 <= k < l < |at| :: at[k] < at[l])
  }

  lemma WrittenGrows(writes: seq<RelayEnd.Write>, taken: seq<Cell>, at: seq<nat>, cell: Cell, socket: RelayEnd.Socket)
    requires Written(writes, taken, at)
    ensures Written(writes, taken + [cell], at)
    ensures IsRelayCell(cell, RELAY_DATA) ==> Written(writes + [RelayEnd.Write(socket, cell)], taken + [cell], at + [|taken|])
  {
  }

  lemma {:induction false} WritesWereTaken(S: Setup, lastFd: RelayEnd.Socket, joint: seq<Joint>, i: nat) returns (at: seq<nat>)
    requires ValidSetup(S) && IsJointRun(S, lastFd, joint) && i < |joint|
    ensures Written(joint[i].streams.writes, joint[i].circuit.taken, at)
  {
    hide Outcome, Possible, Initial, RelayEnd.WithClient;
    if i == 0 {
      at := [];
      NothingWritten(S, lastFd);
    } else {
      at := WritesWereTaken(S, lastFd, joint, i - 1);
      var j := joint[i - 1];
      assert JointStep(S, lastFd, j, joint[i]);
      var e :| Possible(S, lastFd, j, e) && joint[i] == Outcome(S, lastFd, j, e);
      var run := JointIsRun(S, lastFd, joint, i - 1);
      at := StepWrites(S, lastFd, run, j, e, at);
    }
  }

  lemma NothingWritten(S: Setup, lastFd: RelayEnd.Socket)
    ensures Initial(S).taken == [] && RelayEnd.WithClient(lastFd).writes == []
  {
  }

  lemma StepWrites(S: Setup, lastFd: RelayEnd.Socket, run: seq<State>, j: Joint, e: JointEvent, at: seq<nat>) returns (at': seq<nat>)
    requires ValidSetup(S) && run != [] && IsRun(S, run) && run[|run| - 1] == j.circuit
    requires Fits(S, j.circuit) && Possible(S, lastFd, j, e)
    requires Written(j.streams.writes, j.circuit.taken, at)
    ensures var j' := Outcome(S, lastFd, j, e); Written(j'.streams.writes, j'.circuit.taken, at')
  {
    hide Written, IsRun, Replied, NextCell, ActsAsEnd, After, RelayEnd.HandleRelayCell, RelayEnd.Next;
    var j' := Outcome(S, lastFd, j, e);
    at' := at;
    match e
    case Elsewhere(step) =>
      TakesNothing(S, run, step);
    case Take(world) =>
      TakeIs(S, j.circuit);
      var cell := NextCell(S, j.circuit);
      WrittenGrows(j.streams.writes, j.circuit.taken, at, cell, 0);
      if cell[CMD] == TOR_RELAY {
        WritesOfCell(j.streams, cell, world);
        ReplyTakesNothing(S, After(S, j.circuit, Last(|S.addrs| - 1)), RelayEnd.HandleRelayCell(j.streams, cell, world).reply);
        if j'.streams.writes != j.streams.writes {
          WrittenGrows(j.streams.writes, j.circuit.taken, at, cell, j'.streams.writes[|j.streams.writes|].socket);
          at' := at + [|j.circuit.taken|];
        }
      }
    case Socket(event) =>
      WritesOfEvent(j.streams, lastFd, event);
      if RelayEnd.Next(j.streams, lastFd, event).Some? {
        ReplyTakesNothing(S, j.circuit, RelayEnd.Next(j.streams, lastFd, event).value.reply);
      }
  }

  lemma ReplyTakesNothing(S: Setup, s: State, reply: ProbeTable.Option<Cell>)
    requires Fits(S, s)
    ensures Replied(S, s, |S.addrs| - 1, reply).taken == s.taken
  {
    hide Seal, AddOnion;
  }

  lemma WritesOfCell(e: RelayEnd.Streams, cell: Cell, world: RelayEnd.World)
    requires cell[CMD] == TOR_RELAY
    ensures var writes := RelayEnd.HandleRelayCell(e, cell, world).streams.writes;
            || writes == e.writes
            || (IsRelayCell(cell, RELAY_DATA) && |writes| == |e.writes| + 1 && writes == e.writes + [RelayEnd.Write(writes[|e.writes|].socket, cell)])
  {
    hide ProbeTable.FindPlace, ProbeTable.InsertPlace, StreamCell, IdOf;
    ProbeTable.InsertPlaceIs(e.table, IdOf(cell), 0);
    RelayEnd.FindPlaceHas(e.table, IdOf(cell), 0);
  }

  lemma WritesOfEvent(e: RelayEnd.Streams, lastFd: RelayEnd.Socket, event: RelayEnd.EndEvent)
    requires RelayEnd.Enabled(e, lastFd, event) && event.SocketReady?
    ensures var r := RelayEnd.Next(e, lastFd, event);
            r.Some? ==> r.value.streams.writes == e.writes
  {
    hide ProbeTable.FindPlace, StreamCell, RelayEnd.ReceivedCell;
  }

  /** In a run only the last relay takes cells, and only as the end relay. */
  lemma TakesNothing(S: Setup, run: seq<State>, step: Event)
    requires ValidSetup(S) && run != [] && IsRun(S, run)
    requires var s := run[|run| - 1];
             && Fits(S, s) && Enabled(S, s, step) && !step.Reply?
             && !(step == Last(|S.addrs| - 1) && ActsAsEnd(S, s))
    ensures After(S, run[|run| - 1], step).taken == run[|run| - 1].taken
  {
    hide StepsLeft, ActsAsEnd, Outward, Inward, Within, After, IsRun, Enabled;
    var s := run[|run| - 1];
    EveryStateIsSound(S, run, |run| - 1);
    if |run| - 1 < |S.addrs| * (|S.addrs| + 2) {
      var stage :| Building(S, s, stage) && StepsLeft(|S.addrs|, stage, s.cur) + (|run| - 1) == |S.addrs| * (|S.addrs| + 2);
      BuildStep(S, s, stage, step);
    } else {
      var closed: nat :| Working(S, s, closed);
      WorkingTakesNothing(S, s, closed, step);
    }
  }

  lemma WorkingTakesNothing(S: Setup, s: State, closed: nat, step: Event)
    requires Working(S, s, closed) && Enabled(S, s, step) && !step.Reply?
    requires !(step == Last(|S.addrs| - 1) && ActsAsEnd(S, s))
    ensures After(S, s, step).taken == s.taken
  {
    hide Seal, Unseal, AddOnion, PeelOnion, Outward, Inward, Within, Echoes, DestroyFront, DestroyIsLast;
  }

  // ---- What sockets deliver is sent on

  /**
   * In every joint run, an event of a stream's socket has the end relay answer with one cell more:
   * the socket's bytes in a DATA cell for its stream, shifted by one, or END when there are no more,
   * and then the stream has lost its socket.
   */
  lemma SocketIsForwarded(S: Setup, lastFd: RelayEnd.Socket, joint: seq<Joint>, socket: RelayEnd.Socket, buffer: Cell, received: seq<Byte>)
    requires joint != [] && IsJointRun(S, lastFd, joint)
    requires var j := joint[|joint| - 1];
             Fits(S, j.circuit) && Possible(S, lastFd, j, Socket(RelayEnd.SocketReady(socket, buffer, received)))
    ensures var j := joint[|joint| - 1]; var id := j.streams.watched[socket];
            var after := Outcome(S, lastFd, j, Socket(RelayEnd.SocketReady(socket, buffer, received)));
            && id < 0x1_0000 && |after.circuit.replies| == |j.circuit.replies| + 1
            && var c := after.circuit.replies[|j.circuit.replies|];
            && after.circuit.replies == j.circuit.replies + [c]
            && if received == [] then
                 IsEndCell(c, id, TOR_REASON_END_EOF) && Popped(j.streams, after.streams, id)
               else
                 && after.streams == j.streams
                 && IsStreamCell(c, id, RELAY_DATA) && Uint16At(c, LENGTH) == |received|
                 && DataOf(c) == [buffer[DATA]] + received[..|received| - 1]
  {
    hide IsJointRun, IsRun, AddOnion, Seal, RelayEnd.Sound, RelayEnd.HandleSocketEvent, Uint16At, IdOf, DataOf;
    var j := joint[|joint| - 1];
    var run := JointIsRun(S, lastFd, joint, |joint| - 1);
    SocketIsAnswered(j.streams, lastFd, socket, buffer, received);
  }
}
