/**
 * A built circuit at work: what is in flight in either direction, how far a
 * DESTROY has got, and which pings have been answered, after any steps at all.
 */
module CircuitData {
  import opened TorCells
  import opened Onion
  import opened Pipeline
  import opened Circuit
  import opened CircuitBuild

  /** A cell on hop i of the built circuit, out of its link and of all layers it still carries. */
  function Within(S: Setup, i: nat, wire: Cell): View
    requires i < |S.onionKeys| == |S.linkKeys|
  {
    Inside(S, i, |S.onionKeys|, wire)
  }

  function WithinAt(S: Setup): (nat, Cell) -> View {
    (i: nat, wire: Cell) => WithinHop(S, i, wire)
  }

  function WithinHop(S: Setup, i: nat, wire: Cell): View {
    if i < |S.onionKeys| == |S.linkKeys| then Within(S, i, wire) else ViewOf(wire)
  }

  /** All cells in flight in one direction, hop by hop, as what is within them. */
  function InFlight(S: Setup, queues: seq<seq<Cell>>): seq<seq<View>>
    requires |queues| == |S.onionKeys| == |S.linkKeys|
  {
    Seen(WithinAt(S), queues)
  }

  function Views(cells: seq<Cell>): seq<View> {
    seq(|cells|, j requires 0 <= j < |cells| => ViewOf(cells[j]))
  }

  function Paddings(views: seq<View>): seq<View> {
    if views == [] then []
    else if IsPadding(views[|views| - 1]) then Paddings(views[..|views| - 1]) + [views[|views| - 1]]
    else Paddings(views[..|views| - 1])
  }

  // ---- The invariant of a built circuit, in parts

  /** Every relay shares its key with the client; all but the last are middle relays until they close, and they close in order. */
  predicate Relays(S: Setup, s: State, closed: nat) {
    && s.keys == S.onionKeys
    && closed <= |s.roles|
    && (forall i | 0 <= i < closed :: s.roles[i] == Closed)
    && (forall i | closed <= i < |s.roles| - 1 :: s.roles[i] == Middle)
    && (closed < |s.roles| ==> s.roles[|s.roles| - 1] in {Created, End})
  }

  /** Cells the end relay has taken, then those in flight, are the cells the client sent. */
  predicate Outward(S: Setup, s: State)
    requires Fits(S, s)
  {
    Views(s.taken) + Upward(InFlight(S, s.out)) == Views(s.sent)
  }

  /** Cells the client has received, then those in flight, are the cells the end relay answered with. */
  predicate Inward(S: Setup, s: State)
    requires Fits(S, s)
  {
    Views(s.received) + Downward(InFlight(S, s.back)) == Views(s.replies)
  }

  /** A ping is answered in the step that takes it, so answers and pings taken are the same cells. */
  predicate Echoes(s: State) {
    Paddings(Views(s.taken)) == Paddings(Views(s.replies))
  }

  /** A DESTROY is the last cell the client sends. */
  predicate DestroyIsLast(s: State) {
    && (s.phase == Gone <==> s.sent != [] && IsDestroy(s.sent[|s.sent| - 1]))
    && forall i | 0 <= i < |s.sent| - 1 :: !IsDestroy(s.sent[i])
  }

  /** A client has stopped only on DATA for a stream that was not open. */
  predicate StoppedOnData(s: State) {
    s.phase == Stopped ==>
      && s.received != []
      && var cell := s.received[|s.received| - 1]; IsRelayCell(cell, RELAY_DATA) && IdOf(cell) !in s.streams
  }

  predicate SentIsSendable(s: State) {
    forall i | 0 <= i < |s.sent| :: Sendable(s.sent[i])
  }

  /** Closed relays have no cell left to read, and DESTROY ends the queue of the first open one. */
  predicate DestroyFront(S: Setup, s: State, closed: nat)
    requires Fits(S, s)
  {
    && (forall i | 0 <= i < closed && i < |s.out| :: s.out[i] == [])
    && (s.phase != Gone ==> closed == 0)
    && (s.phase == Gone && closed < |s.out| ==>
          s.out[closed] != [] && IsDestroy(Within(S, closed, s.out[closed][|s.out[closed]| - 1])))
  }

  predicate Working(S: Setup, s: State, closed: nat) {
    && Fits(S, s) && IsBuilt(S, s)
    && Relays(S, s, closed)
    && Outward(S, s)
    && Inward(S, s)
    && Echoes(s)
    && SentIsSendable(s)
    && StoppedOnData(s)
    && DestroyIsLast(s)
    && DestroyFront(S, s, closed)
  }

  lemma BuiltWorks(S: Setup, s: State)
    requires ValidSetup(S) && Building(S, s, Idle) && IsBuilt(S, s)
    ensures Working(S, s, 0)
  {
    SeenEmpty(WithinAt(S), s.out);
    SeenEmpty(WithinAt(S), s.back);
  }

  // ---- Queues seen through their seals

  lemma InFlightPush(S: Setup, queues: seq<seq<Cell>>, i: nat, wire: Cell)
    requires i < |queues| == |S.onionKeys| == |S.linkKeys|
    ensures InFlight(S, Push(queues, i, wire)) == Push(InFlight(S, queues), i, Within(S, i, wire))
  {
    hide Within;
    SeenPush(WithinAt(S), queues, i, wire);
  }

  lemma InFlightPop(S: Setup, queues: seq<seq<Cell>>, i: nat)
    requires i < |queues| == |S.onionKeys| == |S.linkKeys| && queues[i] != []
    ensures InFlight(S, queues)[i] != [] && InFlight(S, queues)[i][0] == Within(S, i, queues[i][0])
    ensures InFlight(S, Pop(queues, i)) == Pop(InFlight(S, queues), i)
  {
    hide Within;
    SeenPop(WithinAt(S), queues, i);
  }

  /** Passing a cell on to the next relay leaves the order of all cells on their way out as it was. */
  lemma PassOutward(S: Setup, queues: seq<seq<Cell>>, i: nat, wire: Cell)
    requires i + 1 < |queues| == |S.onionKeys| == |S.linkKeys| && queues[i] != []
    requires Within(S, i + 1, wire) == Within(S, i, queues[i][0])
    ensures Upward(InFlight(S, Push(Pop(queues, i), i + 1, wire))) == Upward(InFlight(S, queues))
  {
    hide Within;
    InFlightPop(S, queues, i);
    InFlightPush(S, Pop(queues, i), i + 1, wire);
    MoveUp(InFlight(S, queues), i);
  }

  lemma PassInward(S: Setup, queues: seq<seq<Cell>>, i: nat, wire: Cell)
    requires i + 1 < |queues| == |S.onionKeys| == |S.linkKeys| && queues[i + 1] != []
    requires Within(S, i, wire) == Within(S, i + 1, queues[i + 1][0])
    ensures Downward(InFlight(S, Push(Pop(queues, i + 1), i, wire))) == Downward(InFlight(S, queues))
  {
    hide Within;
    InFlightPop(S, queues, i + 1);
    InFlightPush(S, Pop(queues, i + 1), i, wire);
    MoveDown(InFlight(S, queues), i);
  }

  /** The cell at the end of the pipeline is the next one to be taken. */
  lemma TakeLast(S: Setup, queues: seq<seq<Cell>>)
    requires 0 < |queues| == |S.onionKeys| == |S.linkKeys| && queues[|queues| - 1] != []
    ensures var n := |queues| - 1;
            Upward(InFlight(S, queues)) == [Within(S, n, queues[n][0])] + Upward(InFlight(S, Pop(queues, n)))
  {
    hide Within;
    InFlightPop(S, queues, |queues| - 1);
    PopLast(InFlight(S, queues));
  }

  lemma ViewsAppend(cells: seq<Cell>, cell: Cell)
    ensures Views(cells + [cell]) == Views(cells) + [ViewOf(cell)]
  {
  }

  lemma PaddingsAppend(views: seq<View>, v: View)
    ensures Paddings(views + [v]) == Paddings(views) + if IsPadding(v) then [v] else []
  {
    assert (views + [v])[..|views|] == views;
  }

  /** In a working circuit the cell at the head of any queue is one the client sent, and a DESTROY only in the open relay next to it. */
  lemma HeadWasSent(S: Setup, s: State, closed: nat, i: nat) returns (at: nat)
    requires Working(S, s, closed) && i < |S.addrs| && s.out[i] != []
    ensures |s.taken| <= at < |s.sent| && ViewOf(s.sent[at]) == Within(S, i, s.out[i][0])
    ensures var v := Within(S, i, s.out[i][0]);
            && Sendable(v)
            && (IsDestroy(v) ==> s.phase == Gone && i == closed && |s.out[i]| == 1)
            && (i == closed && s.phase == Gone && !IsDestroy(v) ==> |s.out[i]| > 1)
  {
    hide Within;
    var q := InFlight(S, s.out);
    InFlightPop(S, s.out, i);
    var p := HeadPosition(q, i);
    at := |s.taken| + p;
    assert Views(s.sent)[at] == (Views(s.taken) + Upward(q))[at] == q[i][0];
    assert ViewOf(s.sent[at]) == q[i][0];
    if IsDestroy(q[i][0]) {
      assert IsDestroy(s.sent[at]);
      assert at == |s.sent| - 1;
      assert forall j | 0 <= j < i :: q[j] == [];
      assert forall j | 0 <= j < i :: |q[j]| == |s.out[j]|;
    }
  }

  // ---- Every step keeps the invariant

  lemma SendKeeps(S: Setup, s: State, closed: nat, cell: Cell)
    requires ValidSetup(S) && Working(S, s, closed) && Enabled(S, s, Send(cell))
    ensures Working(S, After(S, s, Send(cell)), closed)
  {
    hide Within, Seal, AddOnion, ViewOf, Paddings, Upward, Downward, Views;
    var s' := After(S, s, Send(cell));
    var wire := Seal(S.cipher, S.linkKeys[0], AddOnion(S.cipher, S.onionKeys, cell));
    assert Within(S, 0, wire) == ViewOf(cell) by { SentIsWithin(S, cell); }
    InFlightPush(S, s.out, 0, wire);
    PushFirst(InFlight(S, s.out), ViewOf(cell));
    ViewsAppend(s.sent, cell);
    assert Views(s.taken) + (Upward(InFlight(S, s.out)) + [ViewOf(cell)])
        == (Views(s.taken) + Upward(InFlight(S, s.out))) + [ViewOf(cell)];
    assert IsDestroy(cell) == IsDestroy(ViewOf(cell)) by { ViewKeepsCommands(cell); }
    assert s'.out[0][|s'.out[0]| - 1] == wire;
  }

  lemma ViewKeepsCommands(cell: Cell)
    ensures ViewOf(cell)[CMD] == cell[CMD] && ViewOf(cell)[RELAY_CMD] == cell[RELAY_CMD]
  {
  }

  lemma SentIsWithin(S: Setup, cell: Cell)
    requires ValidSetup(S)
    ensures Within(S, 0, Seal(S.cipher, S.linkKeys[0], AddOnion(S.cipher, S.onionKeys, cell))) == ViewOf(cell)
  {
    hide Inside, Seal, AddOnion, ViewOf;
    ClientLayers(S, |S.onionKeys|, cell);
    assert S.onionKeys[..|S.onionKeys|] == S.onionKeys;
  }

  lemma MiddlePassesOut(S: Setup, s: State, closed: nat, i: nat)
    requires ValidSetup(S) && Working(S, s, closed) && Enabled(S, s, Last(i)) && i + 1 < |S.addrs|
    ensures var v := Within(S, i, s.out[i][0]);
            Working(S, FromLast(S, s, i), if IsDestroy(v) then i + 1 else closed)
  {
    hide Inside, Within, Seal, Unseal, PeelOnion, Paddings, Upward, Downward, Views;
    var wire := s.out[i][0];
    var cell := PeelOnion(S.cipher, [S.onionKeys[i]], Unseal(S.cipher, S.linkKeys[i], wire));
    var next := Seal(S.cipher, S.linkKeys[i + 1], cell);
    assert Within(S, i + 1, next) == Within(S, i, wire) && IsDestroy(cell) == IsDestroy(Within(S, i, wire)) by {
      PassedIsWithin(S, i, wire);
    }
    PassOutward(S, s.out, i, next);
    var at := HeadWasSent(S, s, closed, i);
    var s' := FromLast(S, s, i);
    assert s'.out == Push(Pop(s.out, i), i + 1, next);
    assert s'.roles == s.roles[i := if IsDestroy(cell) then Closed else Middle];
    assert s'.out[i + 1][|s'.out[i + 1]| - 1] == next;
  }

  lemma PassedIsWithin(S: Setup, i: nat, wire: Cell)
    requires ValidSetup(S) && i + 1 < |S.onionKeys|
    ensures var cell := PeelOnion(S.cipher, [S.onionKeys[i]], Unseal(S.cipher, S.linkKeys[i], wire));
            && Within(S, i + 1, Seal(S.cipher, S.linkKeys[i + 1], cell)) == Within(S, i, wire)
            && IsDestroy(cell) == IsDestroy(Within(S, i, wire))
  {
    hide Inside, Seal, Unseal, PeelOnion;
    RelayOutward(S, i, |S.onionKeys|, wire);
    InsideKeepsHeader(S, i, |S.onionKeys|, wire);
  }

  lemma OpenedIsWithin(S: Setup, wire: Cell)
    requires ValidSetup(S)
    ensures var n := |S.onionKeys| - 1;
            ViewOf(PeelOnion(S.cipher, [S.onionKeys[n]], Unseal(S.cipher, S.linkKeys[n], wire))) == Within(S, n, wire)
  {
    hide Inside, Unseal, PeelOnion;
    RelayOpens(S, |S.onionKeys| - 1, wire);
  }

  /** A cell the end relay sends back joins the end of what the client is to receive. */
  lemma ReplyJoins(S: Setup, s: State, cell: Cell)
    requires ValidSetup(S) && Fits(S, s) && Inward(S, s)
    ensures var n := |S.addrs| - 1;
            var wire := Seal(S.cipher, S.linkKeys[n], AddOnion(S.cipher, [S.onionKeys[n]], cell));
            Views(s.received) + Downward(InFlight(S, Push(s.back, n, wire))) == Views(s.replies + [cell])
  {
    hide Inside, Seal, AddOnion, ViewOf, Downward, Views;
    var n := |S.addrs| - 1;
    var wire := Seal(S.cipher, S.linkKeys[n], AddOnion(S.cipher, [S.onionKeys[n]], cell));
    assert Within(S, n, wire) == ViewOf(cell) by { RelayAnswers(S, n, cell); }
    InFlightPush(S, s.back, n, wire);
    hide Within;
    PushLast(InFlight(S, s.back), ViewOf(cell));
    ViewsAppend(s.replies, cell);
    assert Views(s.received) + (Downward(InFlight(S, s.back)) + [ViewOf(cell)])
        == (Views(s.received) + Downward(InFlight(S, s.back))) + [ViewOf(cell)];
  }

  /** A cell the end relay takes leaves the pipeline at its end. */
  lemma TakenLeaves(S: Setup, s: State, cell: Cell)
    requires Fits(S, s) && Outward(S, s) && s.out[|S.addrs| - 1] != []
    requires ViewOf(cell) == Within(S, |S.addrs| - 1, s.out[|S.addrs| - 1][0])
    ensures Views(s.taken + [cell]) + Upward(InFlight(S, Pop(s.out, |S.addrs| - 1))) == Views(s.sent)
  {
    hide Within, ViewOf, Upward, Views;
    TakeLast(S, s.out);
    ViewsAppend(s.taken, cell);
    var rest := Upward(InFlight(S, Pop(s.out, |S.addrs| - 1)));
    assert (Views(s.taken) + [ViewOf(cell)]) + rest == Views(s.taken) + ([ViewOf(cell)] + rest);
  }

  /** The last relay of a working circuit never takes a cell for an EXTEND. */
  lemma LastActs(S: Setup, s: State, closed: nat) returns (cell: Cell)
    requires ValidSetup(S) && Working(S, s, closed) && Enabled(S, s, Last(|S.addrs| - 1))
    ensures var n := |S.addrs| - 1;
            && s.keys == S.onionKeys
            && cell == PeelOnion(S.cipher, [S.onionKeys[n]], Unseal(S.cipher, S.linkKeys[n], s.out[n][0]))
            && ViewOf(cell) == Within(S, n, s.out[n][0])
            && FromLast(S, s, n) == HandleClientMsg(S, s.(out := Pop(s.out, n)), n, cell)
  {
    hide Within, Seal, Unseal, PeelOnion, AddOnion, InFlight;
    var n := |S.addrs| - 1;
    cell := PeelOnion(S.cipher, [S.onionKeys[n]], Unseal(S.cipher, S.linkKeys[n], s.out[n][0]));
    OpenedIsWithin(S, s.out[n][0]);
    var at := HeadWasSent(S, s, closed, n);
    ViewKeepsCommands(cell);
  }

  /** The last relay takes the next cell the client sent, and answers it in the same step if it is a ping. */
  lemma EndTakes(S: Setup, s: State, closed: nat)
    requires ValidSetup(S) && Working(S, s, closed) && Enabled(S, s, Last(|S.addrs| - 1))
    ensures var n := |S.addrs| - 1;
            var v := Within(S, n, s.out[n][0]);
            Working(S, FromLast(S, s, n), if IsDestroy(v) then n + 1 else closed)
  {
    hide Inside, Within, Seal, Unseal, PeelOnion, AddOnion, Paddings, Upward, Downward, Views, InFlight;
    var n := |S.addrs| - 1;
    var cell := LastActs(S, s, closed);
    hide FromLast;
    var at := HeadWasSent(S, s, closed, n);
    TakenLeaves(S, s, cell);
    ViewsAppend(s.taken, cell);
    PaddingsAppend(Views(s.taken), ViewOf(cell));
    if IsPadding(cell) {
      ReplyJoins(S, s, cell);
      ViewsAppend(s.replies, cell);
      PaddingsAppend(Views(s.replies), ViewOf(cell));
    }
  }

  lemma PassedBackIsWithin(S: Setup, i: nat, wire: Cell)
    requires ValidSetup(S) && i + 1 < |S.onionKeys|
    ensures var raw := Unseal(S.cipher, S.linkKeys[i + 1], wire);
            Within(S, i, Seal(S.cipher, S.linkKeys[i], AddOnion(S.cipher, [S.onionKeys[i]], raw))) == Within(S, i + 1, wire)
  {
    hide Inside, Seal, Unseal, AddOnion;
    RelayInward(S, i, |S.onionKeys|, wire);
  }

  lemma ReceivedIsWithin(S: Setup, wire: Cell)
    requires ValidSetup(S)
    ensures ViewOf(PeelOnion(S.cipher, S.onionKeys[..|S.onionKeys|], Unseal(S.cipher, S.linkKeys[0], wire))) == Within(S, 0, wire)
  {
    hide Inside, Unseal, PeelOnion;
    ClientOpens(S, |S.onionKeys|, wire);
  }

  lemma MiddlePassesBack(S: Setup, s: State, closed: nat, i: nat)
    requires ValidSetup(S) && Working(S, s, closed) && Enabled(S, s, Next(i))
    ensures Working(S, FromNext(S, s, i), closed)
  {
    hide Within, Seal, Unseal, AddOnion, Paddings, Upward, Downward, Views;
    var wire := s.back[i + 1][0];
    var raw := Unseal(S.cipher, S.linkKeys[i + 1], wire);
    var next := Seal(S.cipher, S.linkKeys[i], AddOnion(S.cipher, [S.onionKeys[i]], raw));
    assert Within(S, i, next) == Within(S, i + 1, wire) by { PassedBackIsWithin(S, i, wire); }
    PassInward(S, s.back, i, next);
    assert FromNext(S, s, i).back == Push(Pop(s.back, i + 1), i, next);
  }

  lemma ReplyKeeps(S: Setup, s: State, closed: nat, i: nat, cell: Cell)
    requires ValidSetup(S) && Working(S, s, closed) && Enabled(S, s, Reply(i, cell))
    ensures Working(S, After(S, s, Reply(i, cell)), closed)
  {
    hide Within, Seal, AddOnion, Paddings, Upward, Downward, Views, InFlight;
    ReplyJoins(S, s, cell);
    ViewsAppend(s.replies, cell);
    PaddingsAppend(Views(s.replies), ViewOf(cell));
  }

  lemma ClientTakes(S: Setup, s: State, closed: nat)
    requires ValidSetup(S) && Working(S, s, closed) && Enabled(S, s, Receive)
    ensures Working(S, ClientReceives(S, s), closed)
  {
    hide Within, Unseal, PeelOnion, Paddings, Upward, Downward, Views, ViewOf;
    var wire := s.back[0][0];
    var cell := PeelOnion(S.cipher, S.onionKeys[..s.cur], Unseal(S.cipher, S.linkKeys[0], wire));
    assert ViewOf(cell) == Within(S, 0, wire) by { ReceivedIsWithin(S, wire); }
    InFlightPop(S, s.back, 0);
    PopFirst(InFlight(S, s.back));
    ViewsAppend(s.received, cell);
    var rest := Downward(InFlight(S, Pop(s.back, 0)));
    assert (Views(s.received) + [ViewOf(cell)]) + rest == Views(s.received) + ([ViewOf(cell)] + rest);
  }

  /** Every step of a built circuit keeps all of it, closing at most one relay. */
  lemma WorkStep(S: Setup, s: State, closed: nat, e: Event) returns (closed': nat)
    requires ValidSetup(S) && Working(S, s, closed) && Enabled(S, s, e)
    ensures Working(S, After(S, s, e), closed')
    ensures closed <= closed' <= closed + 1
    ensures closed' > closed ==> e == Last(closed)
  {
    hide Within, Outward, Inward, Echoes, Views, FromLast, FromNext, ClientReceives;
    closed' := closed;
    match e
    case Send(cell) => SendKeeps(S, s, closed, cell);
    case Receive => ClientTakes(S, s, closed);
    case Last(i) =>
      var at := HeadWasSent(S, s, closed, i);
      if IsDestroy(Within(S, i, s.out[i][0])) {
        closed' := i + 1;
      }
      if i + 1 < |S.addrs| {
        MiddlePassesOut(S, s, closed, i);
      } else {
        EndTakes(S, s, closed);
      }
    case Next(i) => MiddlePassesBack(S, s, closed, i);
    case Reply(i, cell) => ReplyKeeps(S, s, closed, i, cell);
    case Start(_) =>
    case Extend(_) =>
  }
}
