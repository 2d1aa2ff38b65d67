/**
 * Whole cells on a built circuit: links lose nothing and every relay does to a cell what the
 * keys say, so all 512 bytes of what arrives are known from what was sent, and with them
 * exactly which cells arrive as they were.
 */
module CircuitWhole {
  import opened Bytes
  import opened Encryptions
  import opened TorCells
  import opened Onion
  import opened Pipeline
  import opened Circuit
  import opened CircuitBuild
  import opened CircuitData
  import opened CircuitTheorems

  /** What comes of a cell that the client or the end relay sends on the built circuit. */
  function Arrival(S: Setup, cell: Cell): Cell {
    Through(S.cipher, S.onionKeys, cell)
  }

  function Arrivals(S: Setup, cells: seq<Cell>): seq<Cell> {
    seq(|cells|, j requires 0 <= j < |cells| => Arrival(S, cells[j]))
  }

  /** What will come of a cell that is on its way out, on hop i. */
  function OutArrival(S: Setup, i: nat, wire: Cell): Cell {
    if i < |S.onionKeys| == |S.linkKeys| then PeelOnion(S.cipher, S.onionKeys[i..], Unseal(S.cipher, S.linkKeys[i], wire)) else wire
  }

  /** What will come of a cell that is on its way back, on hop i. */
  function BackArrival(S: Setup, i: nat, wire: Cell): Cell {
    if i < |S.onionKeys| == |S.linkKeys| then
      PeelOnion(S.cipher, S.onionKeys, AddOnion(S.cipher, S.onionKeys[..i], Unseal(S.cipher, S.linkKeys[i], wire)))
    else
      wire
  }

  function OutArrivalAt(S: Setup): (nat, Cell) -> Cell {
    (i: nat, wire: Cell) => OutArrival(S, i, wire)
  }

  function BackArrivalAt(S: Setup): (nat, Cell) -> Cell {
    (i: nat, wire: Cell) => BackArrival(S, i, wire)
  }

  function OutArrivals(S: Setup, queues: seq<seq<Cell>>): seq<seq<Cell>> {
    Seen(OutArrivalAt(S), queues)
  }

  function BackArrivals(S: Setup, queues: seq<seq<Cell>>): seq<seq<Cell>> {
    Seen(BackArrivalAt(S), queues)
  }

  /** Both directions, byte for byte: what has arrived, then what is under way, is what comes of everything sent. */
  predicate Conserves(S: Setup, s: State)
    requires Fits(S, s)
  {
    && s.taken + Upward(OutArrivals(S, s.out)) == Arrivals(S, s.sent)
    && s.received + Downward(BackArrivals(S, s.back)) == Arrivals(S, s.replies)
  }

  // ---- One cell, one hop

  lemma SentArrives(S: Setup, cell: Cell)
    requires ValidSetup(S)
    ensures OutArrival(S, 0, Seal(S.cipher, S.linkKeys[0], AddOnion(S.cipher, S.onionKeys, cell))) == Arrival(S, cell)
  {
    hide Seal, Unseal, AddOnion, PeelOnion;
    UnsealSeal(S.cipher, S.linkKeys[0], AddOnion(S.cipher, S.onionKeys, cell));
    assert S.onionKeys[0..] == S.onionKeys;
  }

  lemma PassedOutArrives(S: Setup, i: nat, wire: Cell)
    requires ValidSetup(S) && i + 1 < |S.onionKeys|
    ensures var cell := PeelOnion(S.cipher, [S.onionKeys[i]], Unseal(S.cipher, S.linkKeys[i], wire));
            OutArrival(S, i + 1, Seal(S.cipher, S.linkKeys[i + 1], cell)) == OutArrival(S, i, wire)
  {
    hide Seal, Unseal, PeelOnion;
    var raw := Unseal(S.cipher, S.linkKeys[i], wire);
    UnsealSeal(S.cipher, S.linkKeys[i + 1], PeelOnion(S.cipher, [S.onionKeys[i]], raw));
    PeelOnionSplit(S.cipher, [S.onionKeys[i]], S.onionKeys[i + 1..], raw);
    assert [S.onionKeys[i]] + S.onionKeys[i + 1..] == S.onionKeys[i..];
  }

  lemma TakenArrives(S: Setup, wire: Cell)
    requires ValidSetup(S)
    ensures var n := |S.onionKeys| - 1;
            OutArrival(S, n, wire) == PeelOnion(S.cipher, [S.onionKeys[n]], Unseal(S.cipher, S.linkKeys[n], wire))
  {
    assert S.onionKeys[|S.onionKeys| - 1..] == [S.onionKeys[|S.onionKeys| - 1]];
  }

  /** A relay's layer on a cell that has the layers of the relays after it. */
  lemma LayeredArrives(S: Setup, i: nat, cell: Cell)
    requires ValidSetup(S) && i < |S.onionKeys|
    ensures BackArrival(S, i, Seal(S.cipher, S.linkKeys[i], AddOnion(S.cipher, [S.onionKeys[i]], cell)))
         == PeelOnion(S.cipher, S.onionKeys, AddOnion(S.cipher, S.onionKeys[..i + 1], cell))
  {
    hide Seal, Unseal, AddOnion, PeelOnion;
    UnsealSeal(S.cipher, S.linkKeys[i], AddOnion(S.cipher, [S.onionKeys[i]], cell));
    AddOnionSplit(S.cipher, S.onionKeys[..i], [S.onionKeys[i]], cell);
    assert S.onionKeys[..i] + [S.onionKeys[i]] == S.onionKeys[..i + 1];
  }

  lemma ReceivedArrives(S: Setup, wire: Cell)
    requires ValidSetup(S)
    ensures BackArrival(S, 0, wire) == PeelOnion(S.cipher, S.onionKeys, Unseal(S.cipher, S.linkKeys[0], wire))
  {
    hide Unseal, AddOnion, PeelOnion;
    NoLayers(S.cipher, Unseal(S.cipher, S.linkKeys[0], wire));
  }

  // ---- Every step

  lemma ArrivalsAppend(S: Setup, cells: seq<Cell>, cell: Cell)
    ensures Arrivals(S, cells + [cell]) == Arrivals(S, cells) + [Arrival(S, cell)]
  {
  }

  lemma SendConserves(S: Setup, s: State, cell: Cell)
    requires ValidSetup(S) && Fits(S, s) && Conserves(S, s) && Enabled(S, s, Send(cell))
    ensures Conserves(S, ClientSends(S, s, cell))
  {
    hide Arrival, Arrivals, OutArrival, BackArrival, Seal, AddOnion, Upward, Downward;
    var wire := Seal(S.cipher, S.linkKeys[0], AddOnion(S.cipher, S.onionKeys, cell));
    SentArrives(S, cell);
    SeenPush(OutArrivalAt(S), s.out, 0, wire);
    PushFirst(OutArrivals(S, s.out), Arrival(S, cell));
    ArrivalsAppend(S, s.sent, cell);
    assert s.taken + (Upward(OutArrivals(S, s.out)) + [Arrival(S, cell)]) == (s.taken + Upward(OutArrivals(S, s.out))) + [Arrival(S, cell)];
  }

  lemma PassOutConserves(S: Setup, s: State, i: nat)
    requires ValidSetup(S) && Fits(S, s) && Conserves(S, s) && s.keys == S.onionKeys
    requires i + 1 < |S.addrs| && s.out[i] != [] && s.roles[i] == Middle
    ensures Conserves(S, FromLast(S, s, i))
  {
    hide Arrivals, OutArrival, BackArrival, Seal, Unseal, PeelOnion, Upward, Downward;
    var wire := s.out[i][0];
    var cell := PeelOnion(S.cipher, [S.onionKeys[i]], Unseal(S.cipher, S.linkKeys[i], wire));
    var next := Seal(S.cipher, S.linkKeys[i + 1], cell);
    PassedOutArrives(S, i, wire);
    SeenPop(OutArrivalAt(S), s.out, i);
    SeenPush(OutArrivalAt(S), Pop(s.out, i), i + 1, next);
    MoveUp(OutArrivals(S, s.out), i);
    assert FromLast(S, s, i).out == Push(Pop(s.out, i), i + 1, next);
  }

  /** An answer of the end relay joins what will arrive at the client. */
  lemma AnswerConserves(S: Setup, s: State, cell: Cell)
    requires ValidSetup(S) && Fits(S, s) && Conserves(S, s)
    ensures var n := |S.addrs| - 1;
            var wire := Seal(S.cipher, S.linkKeys[n], AddOnion(S.cipher, [S.onionKeys[n]], cell));
            s.received + Downward(BackArrivals(S, Push(s.back, n, wire))) == Arrivals(S, s.replies + [cell])
  {
    hide Arrivals, BackArrival, Seal, AddOnion, PeelOnion, Downward;
    var n := |S.addrs| - 1;
    var wire := Seal(S.cipher, S.linkKeys[n], AddOnion(S.cipher, [S.onionKeys[n]], cell));
    LayeredArrives(S, n, cell);
    assert S.onionKeys[..n + 1] == S.onionKeys;
    SeenPush(BackArrivalAt(S), s.back, n, wire);
    PushLast(BackArrivals(S, s.back), Arrival(S, cell));
    ArrivalsAppend(S, s.replies, cell);
    assert s.received + (Downward(BackArrivals(S, s.back)) + [Arrival(S, cell)]) == (s.received + Downward(BackArrivals(S, s.back))) + [Arrival(S, cell)];
  }

  lemma TakeConserves(S: Setup, s: State)
    requires ValidSetup(S) && Fits(S, s) && Conserves(S, s) && s.keys == S.onionKeys && s.out[|S.addrs| - 1] != []
    ensures var n := |S.addrs| - 1;
            var cell := PeelOnion(S.cipher, [S.onionKeys[n]], Unseal(S.cipher, S.linkKeys[n], s.out[n][0]));
            Conserves(S, HandleClientMsg(S, s.(out := Pop(s.out, n)), n, cell))
  {
    hide Arrivals, OutArrival, BackArrival, Seal, Unseal, AddOnion, PeelOnion, Upward, Downward;
    var n := |S.addrs| - 1;
    var cell := PeelOnion(S.cipher, [S.onionKeys[n]], Unseal(S.cipher, S.linkKeys[n], s.out[n][0]));
    TakenArrives(S, s.out[n][0]);
    SeenPop(OutArrivalAt(S), s.out, n);
    PopLast(OutArrivals(S, s.out));
    var rest := Upward(OutArrivals(S, Pop(s.out, n)));
    assert (s.taken + [cell]) + rest == s.taken + ([cell] + rest);
    AnswerConserves(S, s, cell);
  }

  lemma PassBackConserves(S: Setup, s: State, i: nat)
    requires ValidSetup(S) && Fits(S, s) && Conserves(S, s) && s.keys == S.onionKeys
    requires i + 1 < |S.addrs| && s.back[i + 1] != [] && s.roles[i] == Middle
    ensures Conserves(S, FromNext(S, s, i))
  {
    hide Arrivals, OutArrival, Seal, Unseal, AddOnion, PeelOnion, Upward, Downward;
    var wire := s.back[i + 1][0];
    var raw := Unseal(S.cipher, S.linkKeys[i + 1], wire);
    var next := Seal(S.cipher, S.linkKeys[i], AddOnion(S.cipher, [S.onionKeys[i]], raw));
    LayeredArrives(S, i, raw);
    assert BackArrival(S, i, next) == BackArrival(S, i + 1, wire);
    hide BackArrival;
    SeenPop(BackArrivalAt(S), s.back, i + 1);
    SeenPush(BackArrivalAt(S), Pop(s.back, i + 1), i, next);
    MoveDown(BackArrivals(S, s.back), i);
    assert FromNext(S, s, i).back == Push(Pop(s.back, i + 1), i, next);
  }

  lemma ReceiveConserves(S: Setup, s: State)
    requires ValidSetup(S) && Fits(S, s) && Conserves(S, s) && s.cur == |S.addrs| && s.phase == Ready && s.back[0] != []
    ensures Conserves(S, ClientReceives(S, s))
  {
    hide Arrivals, OutArrival, BackArrival, Unseal, PeelOnion, Upward, Downward;
    var wire := s.back[0][0];
    assert S.onionKeys[..s.cur] == S.onionKeys;
    var cell := PeelOnion(S.cipher, S.onionKeys, Unseal(S.cipher, S.linkKeys[0], wire));
    ReceivedArrives(S, wire);
    SeenPop(BackArrivalAt(S), s.back, 0);
    PopFirst(BackArrivals(S, s.back));
    var rest := Downward(BackArrivals(S, Pop(s.back, 0)));
    assert (s.received + [cell]) + rest == s.received + ([cell] + rest);
  }

  lemma StepConserves(S: Setup, s: State, closed: nat, e: Event)
    requires ValidSetup(S) && Working(S, s, closed) && Conserves(S, s) && Enabled(S, s, e)
    ensures Fits(S, After(S, s, e)) && Conserves(S, After(S, s, e))
  {
    hide Outward, Inward, Echoes, SentIsSendable, StoppedOnData, DestroyIsLast, DestroyFront, Conserves,
         FromLast, FromNext, ClientReceives, ClientSends, HandleClientMsg;
    StepFits(S, s, closed, e);
    match e
    case Send(cell) => SendConserves(S, s, cell);
    case Receive => ReceiveConserves(S, s);
    case Last(i) =>
      if i + 1 < |S.addrs| {
        PassOutConserves(S, s, i);
      } else {
        var cell := LastActs(S, s, closed);
        TakeConserves(S, s);
      }
    case Next(i) => PassBackConserves(S, s, i);
    case Reply(i, cell) => ReplyConserves(S, s, cell);
    case Start(_) =>
    case Extend(_) =>
  }

  lemma StepFits(S: Setup, s: State, closed: nat, e: Event)
    requires ValidSetup(S) && Working(S, s, closed) && Enabled(S, s, e)
    ensures Fits(S, After(S, s, e))
  {
    hide After, Relays, Outward, Inward, Echoes, SentIsSendable, StoppedOnData, DestroyIsLast, DestroyFront;
    var closed' := WorkStep(S, s, closed, e);
  }

  lemma ReplyConserves(S: Setup, s: State, cell: Cell)
    requires ValidSetup(S) && Fits(S, s) && Conserves(S, s) && s.keys == S.onionKeys && Enabled(S, s, Reply(|S.addrs| - 1, cell))
    ensures Conserves(S, After(S, s, Reply(|S.addrs| - 1, cell)))
  {
    hide Arrivals, OutArrivals, BackArrivals, Seal, AddOnion, Upward, Downward;
    AnswerConserves(S, s, cell);
  }

  // ---- Every run

  lemma LastBuildStep(S: Setup, s: State, stage: Stage, s': State)
    requires ValidSetup(S) && Building(S, s, stage) && !IsBuilt(S, s) && Step(S, s, s') && StepsLeft(|S.addrs|, stage, s.cur) == 1
    ensures Building(S, s', Idle) && IsBuilt(S, s')
  {
    hide Building, StepsLeft, After;
    var e :| Leads(S, s, e, s');
    BuildStep(S, s, stage, e);
    StageCountsDown(S, s, stage);
    NoStepsLeft(S, s', NextStage(|S.addrs|, stage, s.cur).0);
  }

  /** When a circuit is built, nothing is under way on it and it has carried nothing. */
  lemma BuiltIsQuiet(S: Setup, run: seq<State>)
    requires ValidSetup(S) && IsRun(S, run) && |run| - 1 == |S.addrs| * (|S.addrs| + 2)
    ensures var s := run[|run| - 1];
            Fits(S, s) && AllEmpty(s.out) && AllEmpty(s.back) && s.sent == s.received == s.taken == s.replies == []
  {
    hide StepsLeft;
    var n, at := |S.addrs|, |run| - 2;
    assert n * (n + 2) > 0;
    EveryStateIsSound(S, run, at);
    assert Step(S, run[at], run[at + 1]);
    var stage :| Building(S, run[at], stage) && StepsLeft(n, stage, run[at].cur) + at == n * (n + 2);
    LastBuildStep(S, run[at], stage, run[at + 1]);
  }

  /**
   * On a built circuit every cell arrives, in order, as what layers on and off make of it: at the
   * end relay what the client sent, and at the client what the end relay answered with.
   */
  lemma {:induction false} WholeDelivery(S: Setup, run: seq<State>)
    requires ValidSetup(S) && IsRun(S, run) && |run| - 1 >= |S.addrs| * (|S.addrs| + 2)
    ensures var s := run[|run| - 1];
            && Fits(S, s)
            && s.taken + Upward(OutArrivals(S, s.out)) == Arrivals(S, s.sent)
            && s.received + Downward(BackArrivals(S, s.back)) == Arrivals(S, s.replies)
    decreases |run|
  {
    hide Working, After, OutArrival, BackArrival;
    var at := |run| - 1;
    if at == |S.addrs| * (|S.addrs| + 2) {
      BuiltIsQuiet(S, run);
      SeenEmpty(OutArrivalAt(S), run[at].out);
      SeenEmpty(BackArrivalAt(S), run[at].back);
    } else {
      WholeDelivery(S, run[..at]);
      EveryStateIsSound(S, run, at - 1);
      assert Step(S, run[at - 1], run[at]);
      var e :| Leads(S, run[at - 1], e, run[at]);
      var closed: nat :| Working(S, run[at - 1], closed);
      StepConserves(S, run[at - 1], closed, e);
    }
  }

  /** The bytes wanted, a start of the cell's last 13, are read back from what goes over the links of those 13. */
  ghost predicate TailComesBack(S: Setup, cell: Cell, want: seq<Byte>)
    requires |want| <= TOR_MSG_SIZE - VIEW_SIZE
  {
    TailRead(S.cipher, S.onionKeys, AddLayers(S.cipher, S.onionKeys, TailOf(cell)), want)
  }

  /** Cell j was sent, has arrived as layers on and off leave it, and is the cell that was sent exactly when its tail comes back. */
  ghost predicate Arrived(S: Setup, sent: seq<Cell>, got: seq<Cell>, j: nat)
    requires j < |got|
  {
    && j < |sent|
    && got[j] == Arrival(S, sent[j])
    && (got[j] == sent[j] <==> TailComesBack(S, sent[j], TailOf(sent[j])))
  }

  /** So for every cell that has arrived at either end it is known whether it is, in all its bytes, the one sent in its place. */
  lemma ArrivesWholeExactlyWhen(S: Setup, run: seq<State>)
    requires ValidSetup(S) && IsRun(S, run) && |run| - 1 >= |S.addrs| * (|S.addrs| + 2)
    ensures var s := run[|run| - 1];
            && (forall j: nat | j < |s.taken| :: Arrived(S, s.sent, s.taken, j))
            && (forall j: nat | j < |s.received| :: Arrived(S, s.replies, s.received, j))
  {
    hide IsRun, OutArrivals, BackArrivals, Upward, Downward, Through, TailRead;
    WholeDelivery(S, run);
    var s := run[|run| - 1];
    forall j: nat | j < |s.taken|
      ensures Arrived(S, s.sent, s.taken, j)
    {
      assert s.taken[j] == (s.taken + Upward(OutArrivals(S, s.out)))[j] == Arrivals(S, s.sent)[j];
      LayeredCellReturnsExactlyWhen(S.cipher, S.onionKeys, s.sent[j]);
    }
    forall j: nat | j < |s.received|
      ensures Arrived(S, s.replies, s.received, j)
    {
      assert s.received[j] == (s.received + Downward(BackArrivals(S, s.back)))[j] == Arrivals(S, s.replies)[j];
      LayeredCellReturnsExactlyWhen(S.cipher, S.onionKeys, s.replies[j]);
    }
  }
}
