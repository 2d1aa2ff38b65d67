/**
 * A circuit does not get stuck: what is queued can be read, reading uses it up, and so all
 * that was sent arrives and all pings come back, on a circuit of any length.
 */
module CircuitProgress {
  import opened Arithmetic
  import opened TorCells
  import opened Onion
  import opened Pipeline
  import opened Circuit
  import opened CircuitBuild
  import opened CircuitData
  import opened CircuitTheorems

  // ---- Readers

  /** On a built circuit whose client is there, every queue that is not empty has a reader that can read it. */
  lemma ReadersAreEnabled(S: Setup, run: seq<State>)
    requires ValidSetup(S) && IsRun(S, run) && |run| - 1 >= |S.addrs| * (|S.addrs| + 2)
    requires run[|run| - 1].phase == Ready
    ensures var s := run[|run| - 1];
            && Fits(S, s)
            && (forall i: nat | i < |S.addrs| && s.out[i] != [] :: Enabled(S, s, Last(i)))
            && (forall i: nat | i + 1 < |S.addrs| && s.back[i + 1] != [] :: Enabled(S, s, Next(i)))
            && (s.back[0] != [] ==> Enabled(S, s, Receive))
  {
    hide StepsLeft, Outward, Inward, Within;
    EveryStateIsSound(S, run, |run| - 1);
    var s := run[|run| - 1];
    var closed: nat :| Working(S, s, closed);
  }

  // ---- What is left to read

  /** Steps towards the client that the queued cells can still cause. */
  function Homeward(q: seq<seq<Cell>>): nat {
    if q == [] then 0 else Homeward(q[..|q| - 1]) + |q| * |q[|q| - 1]|
  }

  lemma {:induction false} HomewardPush(q: seq<seq<Cell>>, i: nat, wire: Cell)
    requires i < |q|
    ensures Homeward(Push(q, i, wire)) == Homeward(q) + i + 1
    decreases |q|
  {
    var n := |q| - 1;
    if i == n {
      assert Push(q, n, wire)[..n] == q[..n];
      TimesOneMore(|q|, |q[n]|);
    } else {
      assert Push(q, i, wire)[..n] == Push(q[..n], i, wire);
      HomewardPush(q[..n], i, wire);
    }
  }

  lemma {:induction false} HomewardPop(q: seq<seq<Cell>>, i: nat)
    requires i < |q| && q[i] != []
    ensures Homeward(Pop(q, i)) == Homeward(q) - (i + 1)
    decreases |q|
  {
    var n := |q| - 1;
    if i == n {
      assert Pop(q, n)[..n] == q[..n];
      TimesOneMore(|q|, |q[n]| - 1);
    } else {
      assert Pop(q, i)[..n] == Pop(q[..n], i);
      HomewardPop(q[..n], i);
    }
  }

  /** Reads still to come: a cell on its way out may have to come all the way back. */
  function Work(S: Setup, s: State): nat
    requires Fits(S, s)
  {
    Load(s.out, |S.addrs|) + Homeward(s.back)
  }

  /** Steps that only read what is queued. */
  predicate Quiet(e: Event) {
    e.Receive? || e.Last? || e.Next?
  }

  /** What the last relay's step puts on its way back is one cell at most. */
  lemma EndAnswersOnce(S: Setup, s: State, closed: nat) returns (wire: Cell)
    requires ValidSetup(S) && Working(S, s, closed) && Enabled(S, s, Last(|S.addrs| - 1))
    ensures var n := |S.addrs| - 1; var t := FromLast(S, s, n);
            && t.out == Pop(s.out, n) && t.phase == s.phase && t.sent == s.sent
            && (t.back == s.back || t.back == Push(s.back, n, wire))
  {
    var n := |S.addrs| - 1;
    var cell := LastActs(S, s, closed);
    hide Working, FromLast, Seal, Unseal, AddOnion, PeelOnion;
    wire := Seal(S.cipher, S.linkKeys[n], AddOnion(S.cipher, [S.onionKeys[n]], cell));
  }

  /** Every such step leaves less to read. */
  lemma QuietLowersWork(S: Setup, s: State, closed: nat, e: Event)
    requires ValidSetup(S) && Working(S, s, closed) && Enabled(S, s, e) && Quiet(e)
    ensures Fits(S, After(S, s, e)) && Work(S, After(S, s, e)) < Work(S, s)
    ensures After(S, s, e).sent == s.sent
  {
    match e
    case Receive => ReceiveLowers(S, s, closed);
    case Last(i) =>
      if i + 1 < |S.addrs| {
        OutwardLowers(S, s, closed, i);
      } else {
        EndLowers(S, s, closed);
      }
    case Next(i) => InwardLowers(S, s, closed, i);
  }

  lemma ReceiveLowers(S: Setup, s: State, closed: nat)
    requires ValidSetup(S) && Working(S, s, closed) && Enabled(S, s, Receive)
    ensures var t := After(S, s, Receive); Fits(S, t) && Work(S, t) < Work(S, s) && t.sent == s.sent
  {
    assert Fits(S, s) && s.back[0] != [];
    hide Working, Seal, Unseal, AddOnion, PeelOnion, Load, Homeward;
    BuiltClientReceives(S, s, closed);
    HomewardPop(s.back, 0);
  }

  lemma BuiltClientReceives(S: Setup, s: State, closed: nat)
    requires Working(S, s, closed) && Enabled(S, s, Receive)
    ensures var t := After(S, s, Receive);
            t == s.(back := Pop(s.back, 0), received := t.received, streams := t.streams, phase := t.phase)
  {
    hide Outward, Inward, Echoes, Within, Unseal, PeelOnion, DestroyFront, DestroyIsLast, IdOf;
  }

  lemma OutwardLowers(S: Setup, s: State, closed: nat, i: nat)
    requires ValidSetup(S) && Working(S, s, closed) && Enabled(S, s, Last(i)) && i + 1 < |S.addrs|
    ensures var t := After(S, s, Last(i)); Fits(S, t) && Work(S, t) < Work(S, s) && t.sent == s.sent
  {
    hide Outward, Inward, Echoes, Within, Seal, Unseal, AddOnion, PeelOnion, Load, Homeward, DestroyFront, DestroyIsLast;
    var cell := PeelOnion(S.cipher, [s.keys[i]], Unseal(S.cipher, S.linkKeys[i], s.out[i][0]));
    LoadPop(s.out, i, |S.addrs|);
    LoadPush(Pop(s.out, i), i + 1, Seal(S.cipher, S.linkKeys[i + 1], cell), |S.addrs|);
    assert s.roles[i] == Middle;
  }

  lemma EndLowers(S: Setup, s: State, closed: nat)
    requires ValidSetup(S) && Working(S, s, closed) && Enabled(S, s, Last(|S.addrs| - 1))
    ensures var t := After(S, s, Last(|S.addrs| - 1)); Fits(S, t) && Work(S, t) < Work(S, s) && t.sent == s.sent
  {
    var n := |S.addrs| - 1;
    var wire := EndAnswersOnce(S, s, closed);
    EndKeepsRest(S, s);
    hide Working, FromLast, Load, Homeward;
    LoadPop(s.out, n, |S.addrs|);
    HomewardPush(s.back, n, wire);
  }

  lemma EndKeepsRest(S: Setup, s: State)
    requires Fits(S, s) && Enabled(S, s, Last(|S.addrs| - 1))
    ensures var t := FromLast(S, s, |S.addrs| - 1); Fits(S, t) && t.sent == s.sent
  {
    hide Seal, Unseal, AddOnion, PeelOnion, CreateFromExtend, CreatedCell, IsRelayCell;
  }

  lemma InwardLowers(S: Setup, s: State, closed: nat, i: nat)
    requires ValidSetup(S) && Working(S, s, closed) && Enabled(S, s, Next(i))
    ensures var t := After(S, s, Next(i)); Fits(S, t) && Work(S, t) < Work(S, s) && t.sent == s.sent
  {
    hide Outward, Inward, Echoes, Within, Seal, Unseal, AddOnion, PeelOnion, Load, Homeward, DestroyFront, DestroyIsLast;
    var raw := Unseal(S.cipher, S.linkKeys[i + 1], s.back[i + 1][0]);
    HomewardPop(s.back, i + 1);
    HomewardPush(Pop(s.back, i + 1), i, Seal(S.cipher, S.linkKeys[i], AddOnion(S.cipher, [s.keys[i]], raw)));
    assert s.roles[i] == Middle;
  }

  // ---- Reading without end is impossible, and where it stops everything has arrived

  predicate AllQuiet(events: seq<Event>) {
    forall k | 0 <= k < |events| :: Quiet(events[k])
  }

  /** A run goes on with steps that only read: each of them uses up work, and nothing new is sent. */
  lemma {:induction false} QuietUsesWork(S: Setup, run: seq<State>, trace: seq<State>, events: seq<Event>)
    requires ValidSetup(S) && IsRun(S, run) && |run| - 1 >= |S.addrs| * (|S.addrs| + 2)
    requires IsTrace(S, trace, events) && trace[0] == run[|run| - 1] && AllQuiet(events)
    ensures var last := trace[|events|];
            && Fits(S, trace[0]) && Fits(S, last) && last.sent == trace[0].sent
            && |events| + Work(S, last) <= Work(S, trace[0])
    decreases |events|
  {
    hide Work, Enabled, After, IsRun;
    BuildTakesExactly(S, run);
    if events != [] {
      var n := |events| - 1;
      QuietUsesWork(S, run, trace[..n + 1], events[..n]);
      TraceContinuesRun(S, run, trace[..n + 1], events[..n]);
      var before := run + trace[..n + 1][1..];
      assert before[|before| - 1] == trace[n];
      assert Leads(S, trace[n], events[n], trace[n + 1]);
      var closed := WorkingAt(S, before);
      QuietLowersWork(S, trace[n], closed, events[n]);
    }
  }

  lemma WorkingAt(S: Setup, run: seq<State>) returns (closed: nat)
    requires ValidSetup(S) && IsRun(S, run) && |run| - 1 >= |S.addrs| * (|S.addrs| + 2)
    ensures Working(S, run[|run| - 1], closed)
  {
    EveryStateIsSound(S, run, |run| - 1);
    closed :| Working(S, run[|run| - 1], closed);
  }

  /**
   * When nothing more can be read and the client is still there, the end relay has taken all
   * that was sent, the client has received all answers, and every ping is back.
   */
  lemma ReadOutIsComplete(S: Setup, run: seq<State>)
    requires ValidSetup(S) && IsRun(S, run) && |run| - 1 >= |S.addrs| * (|S.addrs| + 2)
    requires Fits(S, run[|run| - 1]) && run[|run| - 1].phase == Ready
    requires forall e | Quiet(e) :: !Enabled(S, run[|run| - 1], e)
    ensures var s := run[|run| - 1];
            && AllEmpty(s.out) && AllEmpty(s.back) && Work(S, s) == 0
            && Views(s.taken) == Views(s.sent) && Views(s.received) == Views(s.replies)
            && Paddings(Views(s.received)) == Paddings(Views(s.sent))
  {
    hide InFlight, Upward, Downward, IsRun, Enabled, Load, Homeward;
    var s := run[|run| - 1];
    ReadersAreEnabled(S, run);
    forall i: nat | i < |S.addrs|
      ensures s.out[i] == [] && s.back[i] == []
    {
      assert Quiet(Last(i)) && !Enabled(S, s, Last(i));
      if i == 0 {
        assert Quiet(Receive) && !Enabled(S, s, Receive);
      } else {
        var j: nat := i - 1;
        assert Quiet(Next(j)) && !Enabled(S, s, Next(j));
      }
    }
    PingsEcho(S, run);
    Delivery(S, run);
    NothingInFlight(S, s.out);
    NothingInFlight(S, s.back);
    assert Views(s.taken) + [] == Views(s.taken) && Views(s.received) + [] == Views(s.received);
    NoLoad(s.out, |S.addrs|);
    NoneHomeward(s.back);
  }

  lemma {:induction false} NoneHomeward(q: seq<seq<Cell>>)
    requires AllEmpty(q)
    ensures Homeward(q) == 0
  {
    if q != [] {
      NoneHomeward(q[..|q| - 1]);
    }
  }

  /** From wherever it is, a built circuit can be read out: until nothing is queued, or until its client leaves over a cell it does not want. */
  lemma {:induction false} CanBeReadOut(S: Setup, run: seq<State>) returns (more: seq<State>)
    requires ValidSetup(S) && IsRun(S, run) && |run| - 1 >= |S.addrs| * (|S.addrs| + 2)
    requires Fits(S, run[|run| - 1]) && run[|run| - 1].phase == Ready
    ensures IsRun(S, run + more)
    ensures var last := (run + more)[|run + more| - 1];
            && last.sent == run[|run| - 1].sent
            && (last.phase == Ready || last.phase == Stopped)
            && (last.phase == Ready ==>
                  && AllEmpty(last.out) && AllEmpty(last.back)
                  && Views(last.taken) == Views(last.sent) && Paddings(Views(last.received)) == Paddings(Views(last.sent)))
    decreases Work(S, run[|run| - 1])
  {
    hide IsRun, Enabled, After, Views, Paddings, Work;
    var s := run[|run| - 1];
    if e :| Quiet(e) && Enabled(S, s, e) {
      var t := After(S, s, e);
      var closed := WorkingAt(S, run);
      QuietLowersWork(S, s, closed, e);
      QuietPhase(S, s, e);
      assert Leads(S, s, e, t);
      RunGrows(S, run, t);
      if t.phase == Ready {
        var rest := CanBeReadOut(S, run + [t]);
        more := [t] + rest;
        assert run + [t] + rest == run + more;
      } else {
        more := [t];
      }
    } else {
      ReadOutIsComplete(S, run);
      more := [];
      assert run + more == run;
    }
  }

  lemma QuietPhase(S: Setup, s: State, e: Event)
    requires Fits(S, s) && s.phase == Ready && Enabled(S, s, e) && Quiet(e)
    ensures After(S, s, e).phase in {Ready, Stopped}
    ensures !e.Receive? ==> After(S, s, e).phase == Ready && After(S, s, e).streams == s.streams && After(S, s, e).received == s.received
  {
    hide Seal, Unseal, AddOnion, PeelOnion, CreateFromExtend, CreatedCell, ExtendedCell, IsRelayCell, KeyInCreate;
  }

  // ---- A run in which the client stops, for a circuit of any length

  /** A circuit that is being built can be built further, up to the last step. */
  lemma {:induction false} CanBuild(S: Setup, k: nat) returns (run: seq<State>, stage: Stage)
    requires ValidSetup(S) && k <= |S.addrs| * (|S.addrs| + 2)
    ensures IsRun(S, run) && |run| == k + 1
    ensures Building(S, run[k], stage) && StepsLeft(|S.addrs|, stage, run[k].cur) + k == |S.addrs| * (|S.addrs| + 2)
  {
    hide Building, StepsLeft, After, IsRun;
    var n := |S.addrs|;
    if k == 0 {
      run, stage := [Initial(S)], Idle;
      assert IsRun(S, run) by { StartIsRun(S); }
      InitiallyIdle(S);
      StepsFromTotal(n, 0);
      IdleSteps(n, 0);
    } else {
      run, stage := CanBuild(S, k - 1);
      var s := run[k - 1];
      NoStepsLeft(S, s, stage);
      var e := AwaitedEvent(S, s, stage);
      OnlyAwaited(S, s, stage, e);
      BuildStep(S, s, stage, e);
      StageCountsDown(S, s, stage);
      assert Leads(S, s, e, After(S, s, e)) by { BuildingFits(S, s, stage); }
      RunGrows(S, run, After(S, s, e));
      stage := NextStage(n, stage, s.cur).0;
      run := run + [After(S, s, e)];
    }
  }

  lemma BuildingFits(S: Setup, s: State, stage: Stage)
    requires Building(S, s, stage)
    ensures Fits(S, s)
  {
  }

  /** A circuit just built: the client is there, nothing is queued, nothing has been sent, no stream is open. */
  lemma CanBeBuilt(S: Setup) returns (run: seq<State>)
    requires ValidSetup(S)
    ensures IsRun(S, run) && |run| - 1 == |S.addrs| * (|S.addrs| + 2)
    ensures var s := run[|run| - 1];
            && Fits(S, s) && s.phase == Ready && s.cur == |S.addrs| && AllEmpty(s.out) && AllEmpty(s.back)
            && s.sent == s.received == s.taken == s.replies == [] && s.streams == {}
            && s.roles[|S.addrs| - 1] == Created && forall i | 0 <= i < |S.addrs| - 1 :: s.roles[i] == Middle
  {
    hide StepsLeft, IsRun;
    var stage: Stage;
    run, stage := CanBuild(S, |S.addrs| * (|S.addrs| + 2));
    NoStepsLeft(S, run[|run| - 1], stage);
  }

  /** What stays as it is while relays take cells outward. */
  predicate SameAtClient(s: State, t: State) {
    t.phase == s.phase && t.cur == s.cur && t.streams == s.streams && t.received == s.received && t.sent == s.sent
  }

  predicate NoPings(cells: seq<Cell>) {
    forall k | 0 <= k < |cells| :: !IsPadding(cells[k])
  }

  /** With no ping among them, cells on their way out can all be taken without an answer; the relay that took one is the end relay. */
  lemma {:induction false} CanTakeAll(S: Setup, run: seq<State>) returns (more: seq<State>)
    requires ValidSetup(S) && IsRun(S, run) && |run| - 1 >= |S.addrs| * (|S.addrs| + 2)
    requires Fits(S, run[|run| - 1]) && run[|run| - 1].phase == Ready
    requires NoPings(run[|run| - 1].sent)
    ensures IsRun(S, run + more)
    ensures var s, t := run[|run| - 1], (run + more)[|run + more| - 1];
            && Fits(S, t) && SameAtClient(s, t) && AllEmpty(t.out) && t.back == s.back && t.replies == s.replies
            && (t.taken == s.taken || t.roles[|S.addrs| - 1] == End)
            && (s.roles[|S.addrs| - 1] == End ==> t.roles[|S.addrs| - 1] == End)
    decreases Load(run[|run| - 1].out, 0)
  {
    hide IsRun, Enabled, After, Load;
    var s := run[|run| - 1];
    if AllEmpty(s.out) {
      more := [];
      assert run + more == run;
    } else {
      var i: nat :| i < |S.addrs| && s.out[i] != [];
      ReadersAreEnabled(S, run);
      var t := After(S, s, Last(i));
      var closed := WorkingAt(S, run);
      StepUsesBacklog(S, s, closed, Last(i));
      TakesQuietly(S, s, closed, i);
      assert Leads(S, s, Last(i), t);
      RunGrows(S, run, t);
      var rest := CanTakeAll(S, run + [t]);
      more := [t] + rest;
      assert run + [t] + rest == run + more;
    }
  }

  lemma TakesQuietly(S: Setup, s: State, closed: nat, i: nat)
    requires ValidSetup(S) && Working(S, s, closed) && s.phase == Ready && i < |S.addrs| && Enabled(S, s, Last(i))
    requires NoPings(s.sent)
    ensures var t := After(S, s, Last(i)); var n := |S.addrs| - 1;
            && Fits(S, t) && SameAtClient(s, t) && t.back == s.back && t.replies == s.replies
            && (t.taken == s.taken || t.roles[n] == End) && (s.roles[n] == End ==> t.roles[n] == End)
  {
    hide Outward, Inward, Echoes, Within, Seal, Unseal, AddOnion, PeelOnion, ViewOf, StoppedOnData;
    var at := HeadWasSent(S, s, closed, i);
    if i == |S.addrs| - 1 {
      OpenedIsWithin(S, s.out[i][0]);
      ViewKeepsCommands(PeelOnion(S.cipher, [s.keys[i]], Unseal(S.cipher, S.linkKeys[i], s.out[i][0])));
      ViewKeepsCommands(s.sent[at]);
    }
  }

  /** A cell on its way back can be brought to the client's door. */
  lemma {:induction false} CanBringBack(S: Setup, run: seq<State>, i: nat) returns (more: seq<State>)
    requires ValidSetup(S) && IsRun(S, run) && |run| - 1 >= |S.addrs| * (|S.addrs| + 2)
    requires Fits(S, run[|run| - 1]) && run[|run| - 1].phase == Ready && i < |S.addrs| && run[|run| - 1].back[i] != []
    ensures IsRun(S, run + more)
    ensures var s, t := run[|run| - 1], (run + more)[|run + more| - 1];
            Fits(S, t) && SameAtClient(s, t) && t.replies == s.replies && t.back[0] != []
    decreases i
  {
    hide IsRun, Enabled, After;
    var s := run[|run| - 1];
    if i == 0 {
      more := [];
      assert run + more == run;
    } else {
      ReadersAreEnabled(S, run);
      var j: nat := i - 1;
      var t := After(S, s, Next(j));
      var closed := WorkingAt(S, run);
      PassesBack(S, s, closed, j);
      assert Leads(S, s, Next(j), t);
      RunGrows(S, run, t);
      var rest := CanBringBack(S, run + [t], j);
      more := [t] + rest;
      assert run + [t] + rest == run + more;
    }
  }

  lemma PassesBack(S: Setup, s: State, closed: nat, i: nat)
    requires Working(S, s, closed) && s.phase == Ready && Enabled(S, s, Next(i))
    ensures var t := After(S, s, Next(i));
            Fits(S, t) && SameAtClient(s, t) && t.replies == s.replies && t.back[i] != []
  {
    hide Outward, Inward, Echoes, Within, Seal, Unseal, AddOnion;
  }

  lemma ReplyIs(S: Setup, s: State, cell: Cell)
    requires Fits(S, s) && s.roles[|S.addrs| - 1] == End && cell[CMD] == TOR_RELAY
    ensures var n := |S.addrs| - 1; var e := Reply(n, cell);
            && Enabled(S, s, e)
            && var t := After(S, s, e);
               Fits(S, t) && SameAtClient(s, t) && t.replies == s.replies + [cell] && t.back[n] != []
  {
    hide Seal, AddOnion;
  }

  lemma SendIs(S: Setup, s: State, cell: Cell)
    requires Fits(S, s) && s.phase == Ready && s.cur == |S.addrs| && s.streams == {} && IsRelayCell(cell, RELAY_BEGIN)
    ensures Enabled(S, s, Send(cell))
    ensures var t := After(S, s, Send(cell));
            && Fits(S, t) && t.phase == Ready && t.cur == s.cur && t.streams == {IdOf(cell)} && t.sent == s.sent + [cell]
            && t.received == s.received && t.taken == s.taken && t.replies == s.replies && t.back == s.back
  {
    hide Seal, AddOnion, IdOf;
  }

  /** A circuit just built goes on to a first stream: its BEGIN is sent and taken. */
  lemma AfterBegin(S: Setup, run: seq<State>, begin: Cell) returns (longer: seq<State>)
    requires ValidSetup(S) && IsRun(S, run) && |run| - 1 >= |S.addrs| * (|S.addrs| + 2) && IsRelayCell(begin, RELAY_BEGIN)
    requires var s := run[|run| - 1];
             && Fits(S, s) && s.phase == Ready && s.cur == |S.addrs|
             && s.sent == s.received == s.taken == s.replies == [] && s.streams == {}
    ensures IsRun(S, longer) && |longer| - 1 >= |S.addrs| * (|S.addrs| + 2)
    ensures var t := longer[|longer| - 1];
            && Fits(S, t) && t.phase == Ready && t.roles[|S.addrs| - 1] == End
            && t.sent == [begin] && t.received == t.replies == [] && t.streams == {IdOf(begin)}
  {
    hide IsRun, After, Enabled, IdOf;
    var s := run[|run| - 1];
    SendIs(S, s, begin);
    var t := After(S, s, Send(begin));
    assert Leads(S, s, Send(begin), t);
    RunGrows(S, run, t);
    assert !IsPadding(begin);
    var more := CanTakeAll(S, run + [t]);
    longer := run + [t] + more;
    var last := longer[|longer| - 1];
    Delivery(S, longer);
    NothingInFlight(S, last.out);
    assert |Views(last.taken)| == |Views(last.sent)| == 1;
  }

  /**
   * On a circuit of any length: the user opens a stream, data comes in on it, and the user
   * closes it before the data is read. The client then stops, though nothing has failed.
   */
  lemma StopIsReached(S: Setup, begin: Cell, data: Cell, end: Cell) returns (run: seq<State>)
    requires ValidSetup(S)
    requires IsRelayCell(begin, RELAY_BEGIN) && IsRelayCell(data, RELAY_DATA) && IsRelayCell(end, RELAY_END)
    requires IdOf(begin) == IdOf(data) == IdOf(end)
    ensures IsRun(S, run) && run[|run| - 1].phase == Stopped
    ensures var s := run[|run| - 1]; s.sent == [begin, end] && s.replies == [data]
  {
    hide IsRun, After, IdOf;
    run := CanBeBuilt(S);
    run := AfterBegin(S, run, begin);
    var n := |S.addrs| - 1;
    var s := run[|run| - 1];
    var t := After(S, s, Reply(n, data));
    ReplyIs(S, s, data);
    assert Leads(S, s, Reply(n, data), t);
    RunGrows(S, run, t);
    var more := CanBringBack(S, run + [t], n);
    run := run + [t] + more;
    more := CloseBeforeDataStops(S, run, end);
    run := run + more;
  }
}
