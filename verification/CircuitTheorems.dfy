/** What holds in every state of every run of a circuit of any length. */
module CircuitTheorems {
  import opened Arithmetic
  import opened Bytes
  import opened TorCells
  import opened Onion
  import opened Pipeline
  import opened Circuit
  import opened CircuitBuild
  import opened CircuitData

  ghost predicate UnderWay(S: Setup, s: State, stepsDone: nat) {
    exists stage ::
      Building(S, s, stage) && StepsLeft(|S.addrs|, stage, s.cur) + stepsDone == |S.addrs| * (|S.addrs| + 2)
  }

  ghost predicate AtWork(S: Setup, s: State) {
    exists closed :: Working(S, s, closed)
  }

  /** By induction on the run: either the circuit is being built, with a known number of steps to go, or it works. */
  lemma {:induction false} EveryStateIsSound(S: Setup, run: seq<State>, at: nat)
    requires ValidSetup(S) && IsRun(S, run) && at < |run|
    ensures var n := |S.addrs|;
            if at < n * (n + 2) then UnderWay(S, run[at], at) && !IsBuilt(S, run[at]) else AtWork(S, run[at])
    decreases at
  {
    hide Building, Working, StepsLeft, After;
    var n := |S.addrs|;
    assert n * (n + 2) > 0;
    if at == 0 {
      InitiallyIdle(S);
      StepsFromTotal(n, 0);
      assert StepsLeft(n, Idle, 0) == n * (n + 2) by { IdleSteps(n, 0); }
      assert !IsBuilt(S, Initial(S));
    } else {
      EveryStateIsSound(S, run, at - 1);
      var s, s' := run[at - 1], run[at];
      assert Step(S, s, s');
      var e :| Leads(S, s, e, s');
      if at - 1 < n * (n + 2) {
        var stage :| Building(S, s, stage) && StepsLeft(n, stage, s.cur) + (at - 1) == n * (n + 2);
        BuildStep(S, s, stage, e);
        StageCountsDown(S, s, stage);
        var (next, cur) := NextStage(n, stage, s.cur);
        NoStepsLeft(S, s', next);
        if at == n * (n + 2) {
          BuiltWorks(S, s');
        }
      } else {
        var closed: nat :| Working(S, s, closed);
        var closed' := WorkStep(S, s, closed, e);
      }
    }
  }

  lemma IdleSteps(n: nat, cur: nat)
    requires cur <= n
    ensures StepsLeft(n, Idle, cur) == StepsFrom(n, cur)
  {
  }

  /** The circuit is built exactly when no building step is left. */
  lemma NoStepsLeft(S: Setup, s: State, stage: Stage)
    requires Building(S, s, stage)
    ensures IsBuilt(S, s) <==> StepsLeft(|S.addrs|, stage, s.cur) == 0
    ensures IsBuilt(S, s) ==> stage == Idle
  {
    hide Inside, IsExtendTo, Unseal, KeyInCreate, NoTraffic, KeysAgree;
    StepsFromTotal(|S.addrs|, s.cur);
    if s.cur < |S.addrs| {
      StepsFromTotal(|S.addrs|, s.cur + 1);
    }
  }

  // ---- Building

  function CellsIn(q: seq<seq<Cell>>): nat {
    if q == [] then 0 else |q[0]| + CellsIn(q[1..])
  }

  lemma {:induction false} OneQueueAtMost(q: seq<seq<Cell>>, j: nat)
    requires forall i | 0 <= i < |q| :: |q[i]| <= if i == j then 1 else 0
    ensures CellsIn(q) <= 1
    ensures j >= |q| ==> CellsIn(q) == 0
  {
    if q != [] {
      assert forall i | 0 <= i < |q[1..]| :: q[1..][i] == q[i + 1];
      OneQueueAtMost(q[1..], if j == 0 then |q| else j - 1);
    }
  }

  /**
   * A circuit of n relays is built after exactly n * (n + 2) steps, not before,
   * and until then there is always a step to take.
   */
  lemma BuildTakesExactly(S: Setup, run: seq<State>)
    requires ValidSetup(S) && IsRun(S, run)
    ensures var n := |S.addrs|; var last := run[|run| - 1];
            && Fits(S, last)
            && (IsBuilt(S, last) <==> |run| - 1 >= n * (n + 2))
            && (!IsBuilt(S, last) ==> exists e :: Enabled(S, last, e))
  {
    hide StepsLeft;
    var at := |run| - 1;
    var last := run[at];
    EveryStateIsSound(S, run, at);
    if at < |S.addrs| * (|S.addrs| + 2) {
      hide Inside, Unseal;
      var stage :| Building(S, last, stage) && StepsLeft(|S.addrs|, stage, last.cur) + at == |S.addrs| * (|S.addrs| + 2);
      var e := AwaitedEvent(S, last, stage);
      OnlyAwaited(S, last, stage, e);
    }
  }

  lemma AwaitedEvent(S: Setup, s: State, stage: Stage) returns (e: Event)
    requires Building(S, s, stage)
    ensures Awaited(stage, s.cur, e)
  {
    e := match stage
    case Idle => if s.cur == 0 then Start(Zeros(512)) else Extend(Zeros(512))
    case ExtendAt(j) => Last(j)
    case CreateSent => Last(s.cur)
    case CreatedSent => if s.cur == 0 then Receive else Next(s.cur - 1)
    case ExtendedAt(j) => if j == 0 then Receive else Next(j - 1);
  }

  /** No relay ever reaches an error, and no client while it builds its circuit. */
  lemma NothingFails(S: Setup, run: seq<State>)
    requires ValidSetup(S) && IsRun(S, run)
    ensures var last := run[|run| - 1];
            last.phase != ClientFailed && forall i | 0 <= i < |last.roles| :: last.roles[i] != Failed
  {
    hide StepsLeft, Inside, Unseal, Outward, Inward, IsExtendTo, KeyInCreate;
    EveryStateIsSound(S, run, |run| - 1);
  }

  /** While a circuit is being built, one cell at most is in flight. */
  lemma OneControlCell(S: Setup, run: seq<State>)
    requires ValidSetup(S) && IsRun(S, run)
    ensures var last := run[|run| - 1];
            Fits(S, last) && (!IsBuilt(S, last) ==> CellsIn(last.out) + CellsIn(last.back) <= 1)
  {
    hide StepsLeft, Inside, Unseal, IsExtendTo, KeyInCreate, KeysAgree, Outer;
    var at := |run| - 1;
    var s := run[at];
    EveryStateIsSound(S, run, at);
    if at < |S.addrs| * (|S.addrs| + 2) {
      var stage :| Building(S, s, stage) && StepsLeft(|S.addrs|, stage, s.cur) + at == |S.addrs| * (|S.addrs| + 2);
      var none := |S.addrs|;
      var j := match stage
        case Idle => none
        case ExtendAt(j) => j
        case CreateSent => s.cur
        case CreatedSent => s.cur
        case ExtendedAt(j) => j;
      if stage.CreatedSent? || stage.ExtendedAt? {
        OneQueueAtMost(s.out, none);
        OneQueueAtMost(s.back, j);
      } else {
        OneQueueAtMost(s.out, j);
        OneQueueAtMost(s.back, none);
      }
    }
  }

  /**
   * When the client is between extensions with k relays in the circuit, relays 0 to
   * k - 2 are middle relays, relay k - 1 has not learnt its role, the others have not
   * been reached, nothing is in flight, and the first k relays have the client's keys.
   */
  lemma BetweenExtensions(S: Setup, run: seq<State>)
    requires ValidSetup(S) && IsRun(S, run)
    requires run[|run| - 1].phase == Ready && run[|run| - 1].cur < |S.addrs|
    ensures var s := run[|run| - 1]; var k := s.cur;
            && 0 < k
            && |s.roles| == |s.keys| == |S.addrs|
            && (forall i | 0 <= i < k - 1 :: s.roles[i] == Middle)
            && s.roles[k - 1] == Created
            && (forall i | k <= i < |S.addrs| :: s.roles[i] == Waiting)
            && (forall i | 0 <= i < k :: s.keys[i] == S.onionKeys[i])
            && AllEmpty(s.out) && AllEmpty(s.back)
  {
    hide StepsLeft, Inside, Unseal, Outward, Inward, IsExtendTo, KeyInCreate;
    EveryStateIsSound(S, run, |run| - 1);
  }

  /** In a built circuit every relay has the onion key the client uses for it. */
  lemma BuiltKeysAgree(S: Setup, run: seq<State>)
    requires ValidSetup(S) && IsRun(S, run) && |run| - 1 >= |S.addrs| * (|S.addrs| + 2)
    ensures run[|run| - 1].keys == S.onionKeys
  {
    hide StepsLeft, Outward, Inward;
    EveryStateIsSound(S, run, |run| - 1);
  }

  // ---- Traffic

  /**
   * What the end relay has taken, followed by what is on its way out with its
   * remaining layers off, is what the client sent; the same holds of the answers.
   */
  lemma Delivery(S: Setup, run: seq<State>)
    requires ValidSetup(S) && IsRun(S, run) && |run| - 1 >= |S.addrs| * (|S.addrs| + 2)
    ensures var s := run[|run| - 1];
            && Fits(S, s)
            && Views(s.taken) + Upward(InFlight(S, s.out)) == Views(s.sent)
            && Views(s.received) + Downward(InFlight(S, s.back)) == Views(s.replies)
  {
    hide StepsLeft;
    EveryStateIsSound(S, run, |run| - 1);
  }

  /**
   * The next cell a client receives is, in view, the next of the end relay's answers, and
   * the client stops on it exactly when it is DATA for a stream that is not open.
   */
  lemma ClientStopsExactlyWhen(S: Setup, run: seq<State>)
    requires ValidSetup(S) && IsRun(S, run) && |run| - 1 >= |S.addrs| * (|S.addrs| + 2)
    requires Fits(S, run[|run| - 1]) && run[|run| - 1].phase == Ready && run[|run| - 1].back[0] != []
    ensures var s := run[|run| - 1];
            && Fits(S, s) && Enabled(S, s, Receive) && |s.received| < |s.replies|
            && var answer := s.replies[|s.received|];
               (After(S, s, Receive).phase == Stopped <==> IsRelayCell(answer, RELAY_DATA) && IdOf(answer) !in s.streams)
  {
    hide StepsLeft, Outward, Within, Views, PeelOnion, Unseal, IdOf;
    EveryStateIsSound(S, run, |run| - 1);
    var s := run[|run| - 1];
    var closed: nat :| Working(S, s, closed);
    var cell := PeelOnion(S.cipher, S.onionKeys[..s.cur], Unseal(S.cipher, S.linkKeys[0], s.back[0][0]));
    NextAnswer(S, s, closed, cell);
    SameViewSameStream(cell, s.replies[|s.received|]);
  }

  lemma NextAnswer(S: Setup, s: State, closed: nat, cell: Cell)
    requires ValidSetup(S) && Working(S, s, closed) && s.back[0] != []
    requires cell == PeelOnion(S.cipher, S.onionKeys[..s.cur], Unseal(S.cipher, S.linkKeys[0], s.back[0][0]))
    ensures |s.received| < |s.replies| && ViewOf(cell) == ViewOf(s.replies[|s.received|])
  {
    hide Within, Unseal, PeelOnion, Downward, ViewOf;
    assert ViewOf(cell) == Within(S, 0, s.back[0][0]) by { ReceivedIsWithin(S, s.back[0][0]); }
    InFlightPop(S, s.back, 0);
    PopFirst(InFlight(S, s.back));
    var k := |s.received|;
    assert (Views(s.received) + Downward(InFlight(S, s.back)))[k] == Within(S, 0, s.back[0][0]);
    assert Views(s.replies)[k] == ViewOf(s.replies[k]);
  }

  lemma SameViewSameStream(c: Cell, d: Cell)
    requires ViewOf(c) == ViewOf(d)
    ensures forall cmd: Byte :: IsRelayCell(c, cmd) == IsRelayCell(d, cmd)
    ensures IdOf(c) == IdOf(d)
  {
    assert forall i | 0 <= i < VIEW_SIZE :: c[i] == ViewOf(c)[i] == ViewOf(d)[i] == d[i];
  }

  /** An ordinary way to stop: the user closes a stream while DATA for it is about to be read. */
  lemma CloseBeforeDataStops(S: Setup, run: seq<State>, end: Cell) returns (more: seq<State>)
    requires ValidSetup(S) && IsRun(S, run) && |run| - 1 >= |S.addrs| * (|S.addrs| + 2)
    requires Fits(S, run[|run| - 1]) && run[|run| - 1].phase == Ready && run[|run| - 1].back[0] != []
    requires |run[|run| - 1].received| < |run[|run| - 1].replies|
    requires var answer := run[|run| - 1].replies[|run[|run| - 1].received|];
             IsRelayCell(answer, RELAY_DATA) && IsRelayCell(end, RELAY_END) && IdOf(end) == IdOf(answer)
    ensures |more| == 2 && IsRun(S, run + more) && more[1].phase == Stopped
    ensures more[1].sent == run[|run| - 1].sent + [end] && more[1].replies == run[|run| - 1].replies
  {
    BuildTakesExactly(S, run);
    var s := run[|run| - 1];
    var closing := After(S, s, Send(end));
    var read := After(S, closing, Receive);
    hide StepsLeft, Seal, AddOnion, PeelOnion, Unseal, Initial;
    assert Leads(S, s, Send(end), closing) && Leads(S, closing, Receive, read);
    more := [closing, read];
    RunGrows(S, run, closing);
    RunGrows(S, run + [closing], read);
    assert run + [closing] + [read] == run + more;
    ClientStopsExactlyWhen(S, run + [closing]);
  }

  lemma StartIsRun(S: Setup)
    ensures IsRun(S, [Initial(S)])
  {
  }

  lemma RunGrows(S: Setup, run: seq<State>, next: State)
    requires IsRun(S, run) && Step(S, run[|run| - 1], next)
    ensures IsRun(S, run + [next])
  {
    hide Step, Initial;
  }

  lemma {:induction false} PaddingsOfSum(v: seq<View>, w: seq<View>)
    ensures Paddings(v + w) == Paddings(v) + Paddings(w)
    decreases |w|
  {
    if w == [] {
      assert v + w == v;
    } else {
      var n := |w| - 1;
      assert v + w == (v + w[..n]) + [w[n]];
      assert w == w[..n] + [w[n]];
      PaddingsAppend(v + w[..n], w[n]);
      PaddingsAppend(w[..n], w[n]);
      PaddingsOfSum(v, w[..n]);
    }
  }

  /**
   * Pings come back to the client in order, each as it was sent, and none that was
   * not sent; when nothing is in flight all of them have come back.
   */
  lemma PingsEcho(S: Setup, run: seq<State>)
    requires ValidSetup(S) && IsRun(S, run) && |run| - 1 >= |S.addrs| * (|S.addrs| + 2)
    ensures var s := run[|run| - 1];
            && Paddings(Views(s.received)) <= Paddings(Views(s.sent))
            && (AllEmpty(s.out) && AllEmpty(s.back) ==> Paddings(Views(s.received)) == Paddings(Views(s.sent)))
  {
    hide StepsLeft, Paddings, Views, InFlight, Upward, Downward;
    EveryStateIsSound(S, run, |run| - 1);
    var s := run[|run| - 1];
    var out, back := Upward(InFlight(S, s.out)), Downward(InFlight(S, s.back));
    PaddingsOfSum(Views(s.taken), out);
    PaddingsOfSum(Views(s.received), back);
    if AllEmpty(s.out) && AllEmpty(s.back) {
      NothingInFlight(S, s.out);
      NothingInFlight(S, s.back);
      assert Views(s.received) + [] == Views(s.received) && Views(s.taken) + [] == Views(s.taken);
    }
  }

  lemma NothingInFlight(S: Setup, q: seq<seq<Cell>>)
    requires |q| == |S.onionKeys| == |S.linkKeys| && AllEmpty(q)
    ensures Upward(InFlight(S, q)) == [] && Downward(InFlight(S, q)) == []
  {
    EmptyPipeline(InFlight(S, q));
  }

  // ---- Teardown

  /**
   * Relays close in order, a closed relay has nothing left to read, and once the
   * client has sent DESTROY it is the last cell in the queue of the first open relay.
   */
  lemma ClosedRelaysAreAPrefix(S: Setup, run: seq<State>)
    requires ValidSetup(S) && IsRun(S, run) && |run| - 1 >= |S.addrs| * (|S.addrs| + 2)
    ensures var s := run[|run| - 1];
            && Fits(S, s)
            && exists closed: nat ::
                 && closed <= |S.addrs|
                 && (forall i | 0 <= i < |S.addrs| :: s.roles[i] == Closed <==> i < closed)
                 && DestroyFront(S, s, closed)
  {
    hide StepsLeft, Outward, Inward, Within;
    EveryStateIsSound(S, run, |run| - 1);
    var s := run[|run| - 1];
    var closed: nat :| Working(S, s, closed);
    assert forall i | 0 <= i < |S.addrs| :: s.roles[i] == Closed <==> i < closed;
    assert DestroyFront(S, s, closed);
  }

  /** Queued cells, each counted with the hops it has left and `extra` more. */
  function Load(q: seq<seq<Cell>>, extra: nat): nat {
    if q == [] then 0 else (|q| + extra) * |q[0]| + Load(q[1..], extra)
  }

  /** Relay steps outward that the queued cells can still cause. */
  function Backlog(q: seq<seq<Cell>>): nat {
    Load(q, 0)
  }

  lemma {:induction false} LoadPush(q: seq<seq<Cell>>, i: nat, wire: Cell, extra: nat)
    requires i < |q|
    ensures Load(Push(q, i, wire), extra) == Load(q, extra) + |q| - i + extra
  {
    if i == 0 {
      assert Push(q, 0, wire)[1..] == q[1..];
      assert (|q| + extra) * (|q[0]| + 1) == (|q| + extra) * |q[0]| + |q| + extra;
    } else {
      assert Push(q, i, wire)[1..] == Push(q[1..], i - 1, wire);
      LoadPush(q[1..], i - 1, wire, extra);
    }
  }

  lemma {:induction false} LoadPop(q: seq<seq<Cell>>, i: nat, extra: nat)
    requires i < |q| && q[i] != []
    ensures Load(Pop(q, i), extra) == Load(q, extra) - (|q| - i + extra)
  {
    if i == 0 {
      assert Pop(q, 0)[1..] == q[1..];
      assert (|q| + extra) * (|q[0]| - 1) == (|q| + extra) * |q[0]| - (|q| + extra);
    } else {
      assert Pop(q, i)[1..] == Pop(q[1..], i - 1);
      LoadPop(q[1..], i - 1, extra);
    }
  }

  /**
   * After DESTROY each step a relay takes on a cell from the client uses up one unit
   * of backlog, and no other step adds any. As long as a relay is open, the first
   * open one has a cell to read; when none is, the end relay has taken all that was sent.
   */
  lemma TeardownDrains(S: Setup, run: seq<State>, e: Event)
    requires ValidSetup(S) && IsRun(S, run) && |run| - 1 >= |S.addrs| * (|S.addrs| + 2)
    requires run[|run| - 1].phase == Gone
    ensures var s := run[|run| - 1];
            && Fits(S, s)
            && (Enabled(S, s, e) ==>
                  After(S, s, e).phase == Gone && Backlog(After(S, s, e).out) == Backlog(s.out) - (if e.Last? then 1 else 0))
            && (if forall i | 0 <= i < |s.roles| :: s.roles[i] == Closed then Views(s.taken) == Views(s.sent)
                else exists i :: Enabled(S, s, Last(i)))
  {
    hide StepsLeft, Upward, InFlight, Within, Inward, After, Load, Views, Echoes;
    EveryStateIsSound(S, run, |run| - 1);
    var s := run[|run| - 1];
    var closed: nat :| Working(S, s, closed);
    if Enabled(S, s, e) {
      StepUsesBacklog(S, s, closed, e);
    }
    if closed == |S.addrs| {
      NothingInFlight(S, s.out);
      assert Views(s.taken) + [] == Views(s.taken);
    } else {
      assert Enabled(S, s, Last(closed));
      assert s.roles[closed] != Closed;
    }
  }

  lemma StepUsesBacklog(S: Setup, s: State, closed: nat, e: Event)
    requires ValidSetup(S) && Working(S, s, closed) && Enabled(S, s, e) && !e.Send?
    ensures s.phase == Gone ==> After(S, s, e).phase == Gone
    ensures Backlog(After(S, s, e).out) == Backlog(s.out) - (if e.Last? then 1 else 0)
  {
    hide Outward, Inward, Echoes, Within, Seal, Unseal, AddOnion, PeelOnion, Load;
    if e.Last? {
      var i := e.i;
      LoadPop(s.out, i, 0);
      if i + 1 < |S.addrs| {
        var cell := PeelOnion(S.cipher, [s.keys[i]], Unseal(S.cipher, S.linkKeys[i], s.out[i][0]));
        LoadPush(Pop(s.out, i), i + 1, Seal(S.cipher, S.linkKeys[i + 1], cell), 0);
        assert s.roles[i] == Middle;
      } else {
        var cell := LastActs(S, s, closed);
        hide FromLast;
      }
    }
  }

  lemma {:induction false} NoLoad(q: seq<seq<Cell>>, extra: nat)
    ensures Load(q, extra) == 0 <==> AllEmpty(q)
  {
    if q != [] {
      NoLoad(q[1..], extra);
      NoProduct(|q| + extra, |q[0]|);
      assert AllEmpty(q) <==> q[0] == [] && AllEmpty(q[1..]) by {
        assert forall i | 0 < i < |q| :: q[i] == q[1..][i - 1];
      }
    }
  }

  predicate AllClosed(s: State) {
    forall i | 0 <= i < |s.roles| :: s.roles[i] == Closed
  }

  /** After DESTROY all relays are closed exactly when no backlog is left. */
  lemma ClosedWhenDrained(S: Setup, run: seq<State>)
    requires ValidSetup(S) && IsRun(S, run) && |run| - 1 >= |S.addrs| * (|S.addrs| + 2)
    requires run[|run| - 1].phase == Gone
    ensures AllClosed(run[|run| - 1]) <==> Backlog(run[|run| - 1].out) == 0
  {
    hide StepsLeft, Outward, Inward, Within, Load;
    EveryStateIsSound(S, run, |run| - 1);
    var s := run[|run| - 1];
    var closed: nat :| Working(S, s, closed);
    NoLoad(s.out, 0);
    assert closed < |S.addrs| ==> s.roles[closed] != Closed && s.out[closed] != [];
  }

  /** How many of the events are relays' reads from the client's side. */
  function Reads(events: seq<Event>): nat {
    if events == [] then 0
    else Reads(events[..|events| - 1]) + if events[|events| - 1].Last? then 1 else 0
  }

  /** The events lead from the first state of the trace, one by one, to its last. */
  ghost predicate IsTrace(S: Setup, trace: seq<State>, events: seq<Event>) {
    |trace| == |events| + 1 && forall k | 0 <= k < |events| :: Leads(S, trace[k], events[k], trace[k + 1])
  }

  lemma {:induction false} TraceContinuesRun(S: Setup, run: seq<State>, trace: seq<State>, events: seq<Event>)
    requires IsRun(S, run) && IsTrace(S, trace, events) && trace[0] == run[|run| - 1]
    ensures IsRun(S, run + trace[1..])
    decreases |events|
  {
    if events == [] {
      assert run + trace[1..] == run;
    } else {
      var n := |events| - 1;
      var before := run + trace[..n + 1][1..];
      TraceContinuesRun(S, run, trace[..n + 1], events[..n]);
      assert before[|before| - 1] == trace[n];
      assert Leads(S, trace[n], events[n], trace[n + 1]);
      RunGrows(S, before, trace[n + 1]);
      assert before + [trace[n + 1]] == run + trace[1..];
    }
  }

  /**
   * From any moment after DESTROY, relays read from the client's side as many cells as the
   * backlog falls by, and all relays are closed exactly when they have read as many as the
   * whole backlog was.
   */
  lemma {:induction false} TeardownTakesExactly(S: Setup, run: seq<State>, trace: seq<State>, events: seq<Event>)
    requires ValidSetup(S) && IsRun(S, run) && |run| - 1 >= |S.addrs| * (|S.addrs| + 2)
    requires IsTrace(S, trace, events) && trace[0] == run[|run| - 1] && trace[0].phase == Gone
    ensures var last := trace[|events|];
            && last.phase == Gone
            && Reads(events) + Backlog(last.out) == Backlog(trace[0].out)
            && (AllClosed(last) <==> Reads(events) == Backlog(trace[0].out))
    decreases |events|
  {
    hide Backlog, Enabled, After, AllClosed, IsRun;
    if events != [] {
      var n := |events| - 1;
      TeardownTakesExactly(S, run, trace[..n + 1], events[..n]);
      TraceContinuesRun(S, run, trace[..n + 1], events[..n]);
      var before := run + trace[..n + 1][1..];
      assert before[|before| - 1] == trace[n];
      assert Leads(S, trace[n], events[n], trace[n + 1]);
      TeardownDrains(S, before, events[n]);
    }
    TraceContinuesRun(S, run, trace, events);
    assert (run + trace[1..])[|run| + |events| - 1] == trace[|events|];
    ClosedWhenDrained(S, run + trace[1..]);
  }
}
