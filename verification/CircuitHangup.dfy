/**
 * Leaving without a DESTROY: the client of a built circuit closes its connection, because
 * its user has typed `exit` or because it has stopped over a cell. A relay that reads the
 * end of a connection ends its session with an error, and such a session does not close its
 * connections, so the relay after it never learns of it. What does close them is a DESTROY,
 * or an end before the relay has learnt its role.
 */
module CircuitHangup {
  import opened TorCells
  import opened Onion
  import opened Pipeline
  import opened Circuit
  import opened CircuitBuild
  import opened CircuitData
  import opened CircuitTheorems
  import opened CircuitProgress

  /** A circuit, whether its client has closed the connection, and the relays that have ended over a closed connection. */
  datatype Hung = Hung(circuit: State, left: bool, ended: set<nat>)

  datatype HangupEvent =
    | Inside(step: Event)  // a step of the circuit, by a client that has not left or a relay that has not ended
    | Leave                // the client of a built circuit closes its connection
    | Ends(i: nat)         // relay i reads the end of its connection towards the client
    | EndsFar(i: nat)      // relay i reads the end of its connection to the next relay

  predicate MayAct(h: Hung, step: Event) {
    match step
    case Last(i) => i !in h.ended
    case Next(i) => i !in h.ended
    case Reply(i, _) => i !in h.ended
    case _ => !h.left
  }

  /** Relay i has closed its connections: after a DESTROY, or by an end while it was still to learn its role. */
  predicate HasClosed(h: Hung, i: nat)
    requires i < |h.circuit.roles|
  {
    h.circuit.roles[i] == Closed || (i in h.ended && h.circuit.roles[i] == Created)
  }

  predicate Possible(S: Setup, h: Hung, e: HangupEvent)
    requires Fits(S, h.circuit)
  {
    match e
    case Inside(step) => Enabled(S, h.circuit, step) && MayAct(h, step)
    case Leave => IsBuilt(S, h.circuit) && !h.left
    case Ends(i) =>
      && i < |S.addrs| && i !in h.ended && h.circuit.roles[i] in {Waiting, Created, Middle, End}
      && h.circuit.out[i] == [] && (if i == 0 then h.left else HasClosed(h, i - 1))
    case EndsFar(i) =>
      && i + 1 < |S.addrs| && i !in h.ended && h.circuit.roles[i] in {Extending, Middle}
      && h.circuit.back[i + 1] == [] && HasClosed(h, i + 1)
  }

  function Outcome(S: Setup, h: Hung, e: HangupEvent): Hung
    requires Fits(S, h.circuit) && Possible(S, h, e)
  {
    match e
    case Inside(step) => h.(circuit := After(S, h.circuit, step))
    case Leave => h.(left := true)
    case Ends(i) => h.(ended := h.ended + {i})
    case EndsFar(i) => h.(ended := h.ended + {i})
  }

  ghost predicate Moves(S: Setup, h: Hung, e: HangupEvent, h': Hung) {
    Fits(S, h.circuit) && Possible(S, h, e) && h' == Outcome(S, h, e)
  }

  /** The events lead from a circuit that has not begun to the last state of the run. */
  ghost predicate IsHangupRun(S: Setup, run: seq<Hung>, events: seq<HangupEvent>) {
    && |run| == |events| + 1
    && run[0] == Hung(Initial(S), false, {})
    && forall k | 0 <= k < |events| :: Moves(S, run[k], events[k], run[k + 1])
  }

  // ---- Only the first relay can learn that the client has left

  /** No relay but the first has ended, and that only after the client has left without a DESTROY and all it sent has been read. */
  predicate Orderly(S: Setup, h: Hung)
    requires Fits(S, h.circuit)
  {
    && h.ended <= {0}
    && (0 in h.ended ==> h.left && h.circuit.phase != Gone && h.circuit.out[0] == [])
    && (h.left ==> IsBuilt(S, h.circuit))
  }

  /** A relay past the first never reads the end of a connection, from either side, in any run. */
  lemma OnlyFirstEnds(S: Setup, inside: seq<State>, h: Hung, i: nat)
    requires ValidSetup(S) && inside != [] && IsRun(S, inside) && inside[|inside| - 1] == h.circuit
    requires Fits(S, h.circuit) && Orderly(S, h)
    ensures Possible(S, h, Ends(i)) ==> i == 0 && h.left && h.circuit.phase != Gone
    ensures !Possible(S, h, EndsFar(i))
  {
    hide IsRun, StepsLeft, Working, Building, Enabled;
    EveryStateIsSound(S, inside, |inside| - 1);
    if |inside| - 1 < |S.addrs| * (|S.addrs| + 2) {
      var stage :| Building(S, h.circuit, stage) && StepsLeft(|S.addrs|, stage, h.circuit.cur) + (|inside| - 1) == |S.addrs| * (|S.addrs| + 2);
      NoneClosedYet(S, h.circuit, stage);
    } else {
      var closed: nat :| Working(S, h.circuit, closed);
      OnlyGoneHasClosed(S, h.circuit, closed);
    }
  }

  /** In a built circuit no relay waits for its role but the last, and none is closed or has nothing to read before it closes but after a DESTROY. */
  lemma OnlyGoneHasClosed(S: Setup, s: State, closed: nat)
    requires Working(S, s, closed)
    ensures forall i | 0 <= i < |s.roles| - 1 :: s.roles[i] in {Closed, Middle}
    ensures forall i | 0 <= i < |s.roles| :: s.roles[i] == Closed <==> i < closed
    ensures s.phase != Gone ==> closed == 0
    ensures s.phase == Gone && closed < |s.out| ==> s.out[closed] != []
  {
    hide Outward, Inward, Within, Echoes, DestroyIsLast, StoppedOnData, SentIsSendable;
  }

  lemma NoneClosedYet(S: Setup, s: State, stage: Stage)
    requires Building(S, s, stage)
    ensures forall i | 0 <= i < |s.roles| :: s.roles[i] != Closed
  {
    hide CircuitBuild.Inside, IsExtendTo, Unseal, KeyInCreate, NoTraffic, KeysAgree;
  }

  /** Whatever closes and when, the circuit's state is one of its own runs, and no relay past the first has ended. */
  lemma {:induction false} HangupIsOrderly(S: Setup, run: seq<Hung>, events: seq<HangupEvent>) returns (inside: seq<State>)
    requires ValidSetup(S) && IsHangupRun(S, run, events)
    ensures inside != [] && IsRun(S, inside) && inside[|inside| - 1] == run[|events|].circuit
    ensures Fits(S, run[|events|].circuit) && Orderly(S, run[|events|])
    decreases |events|
  {
    hide IsRun, Initial, Enabled, After, Orderly, Outcome, Possible;
    if events == [] {
      inside := [Initial(S)];
      StartsOrderly(S);
    } else {
      var n := |events| - 1;
      inside := HangupIsOrderly(S, run[..n + 1], events[..n]);
      var h := run[n];
      assert Moves(S, h, events[n], run[n + 1]);
      inside := MoveIsOrderly(S, inside, h, events[n]);
    }
  }

  lemma StartsOrderly(S: Setup)
    requires ValidSetup(S)
    ensures IsRun(S, [Initial(S)]) && Fits(S, Initial(S)) && Orderly(S, Hung(Initial(S), false, {}))
  {
  }

  lemma MoveIsOrderly(S: Setup, inside: seq<State>, h: Hung, e: HangupEvent) returns (more: seq<State>)
    requires ValidSetup(S) && inside != [] && IsRun(S, inside) && inside[|inside| - 1] == h.circuit
    requires Fits(S, h.circuit) && Orderly(S, h) && Possible(S, h, e)
    ensures more != [] && IsRun(S, more) && more[|more| - 1] == Outcome(S, h, e).circuit
    ensures Fits(S, Outcome(S, h, e).circuit) && Orderly(S, Outcome(S, h, e))
  {
    hide IsRun, Enabled, After;
    match e
    case Inside(step) =>
      var t := After(S, h.circuit, step);
      assert Leads(S, h.circuit, step, t);
      RunGrows(S, inside, t);
      more := inside + [t];
      BuildTakesExactly(S, inside);
      BuildTakesExactly(S, more);
      if h.left {
        LeftAlone(S, h, step);
      }
    case Leave => more := inside;
    case Ends(i) =>
      OnlyFirstEnds(S, inside, h, i);
      more := inside;
    case EndsFar(i) =>
      OnlyFirstEnds(S, inside, h, i);
      more := inside;
  }

  /** Once the client has left, no step puts a cell where the first relay would read it, if that has ended. */
  lemma LeftAlone(S: Setup, h: Hung, step: Event)
    requires Fits(S, h.circuit) && Orderly(S, h) && h.left && Enabled(S, h.circuit, step) && MayAct(h, step)
    ensures var t := After(S, h.circuit, step);
            && Fits(S, t) && t.phase == h.circuit.phase && t.sent == h.circuit.sent
            && (0 in h.ended ==> t.out[0] == [])
  {
    hide FromLast, Seal, Unseal, AddOnion, PeelOnion, ExtendedCell;
    if step.Last? {
      LastTouches(S, h.circuit, step.i);
    }
  }

  lemma LastTouches(S: Setup, s: State, i: nat)
    requires Fits(S, s) && i < |S.addrs| && s.out[i] != []
    ensures var t := FromLast(S, s, i);
            && Fits(S, t) && t.phase == s.phase && t.sent == s.sent
            && forall j | 0 <= j < i :: t.out[j] == s.out[j]
  {
    hide Seal, Unseal, AddOnion, PeelOnion, CreatedCell, CreateFromExtend, KeyInCreate, IsRelayCell;
  }

  // ---- What still happens after the client has left

  /** A relay reads from the client's side: a cell, or the end. */
  predicate ReadsOutward(e: HangupEvent) {
    (e.Inside? && e.step.Last?) || e.Ends?
  }

  /** Reads from the client's side still to come: cells, and the end at the first relay. */
  function Remaining(S: Setup, h: Hung): nat
    requires Fits(S, h.circuit)
  {
    Backlog(h.circuit.out) + if 0 in h.ended then 0 else 1
  }

  /**
   * After a client has left without a DESTROY, every read from its side takes one off what
   * remains and no other step adds to it. Until nothing remains there is such a step; then the
   * first relay has ended, the end relay has taken everything that was sent, and all other
   * relays go on waiting, as they have all along.
   */
  lemma LeavingRuns(S: Setup, run: seq<Hung>, events: seq<HangupEvent>)
    requires ValidSetup(S) && IsHangupRun(S, run, events)
    requires run[|events|].left && run[|events|].circuit.phase != Gone
    ensures var h := run[|events|];
            && Fits(S, h.circuit)
            && (forall e | Possible(S, h, e) ::
                  && Fits(S, Outcome(S, h, e).circuit) && Outcome(S, h, e).left && Outcome(S, h, e).circuit.phase == h.circuit.phase
                  && Remaining(S, Outcome(S, h, e)) == Remaining(S, h) - (if ReadsOutward(e) then 1 else 0))
            && (Remaining(S, h) == 0 <==> 0 in h.ended && AllEmpty(h.circuit.out))
            && (if Remaining(S, h) == 0 then Views(h.circuit.taken) == Views(h.circuit.sent)
                else exists e :: Possible(S, h, e) && ReadsOutward(e))
            && (forall i | 0 <= i < |S.addrs| :: h.circuit.roles[i] != Closed && (i in h.ended ==> i == 0))
  {
    hide IsRun, Enabled, After, Load, Outward, Inward, Within, Views, InFlight, Upward, Downward;
    var inside := HangupIsOrderly(S, run, events);
    var h := run[|events|];
    BuildTakesExactly(S, inside);
    var closed := WorkingAt(S, inside);
    forall e | Possible(S, h, e)
      ensures Fits(S, Outcome(S, h, e).circuit) && Outcome(S, h, e).left && Outcome(S, h, e).circuit.phase == h.circuit.phase
      ensures Remaining(S, Outcome(S, h, e)) == Remaining(S, h) - (if ReadsOutward(e) then 1 else 0)
    {
      match e
      case Inside(step) =>
        LeftAlone(S, h, step);
        StepUsesBacklog(S, h.circuit, closed, step);
      case Leave =>
      case Ends(i) => OnlyFirstEnds(S, inside, h, i);
      case EndsFar(i) => OnlyFirstEnds(S, inside, h, i);
    }
    NoLoad(h.circuit.out, 0);
    if Remaining(S, h) > 0 {
      LeavingGoesOn(S, h, closed);
    } else {
      Delivery(S, inside);
      NothingInFlight(S, h.circuit.out);
      assert Views(h.circuit.taken) + [] == Views(h.circuit.taken);
    }
  }

  lemma LeavingGoesOn(S: Setup, h: Hung, closed: nat)
    requires Working(S, h.circuit, closed) && Orderly(S, h) && h.left && h.circuit.phase != Gone
    requires 0 !in h.ended || !AllEmpty(h.circuit.out)
    ensures exists e :: Possible(S, h, e) && ReadsOutward(e)
  {
    hide Outward, Inward, Within, Echoes, DestroyIsLast, StoppedOnData;
    if AllEmpty(h.circuit.out) {
      assert Possible(S, h, Ends(0)) && ReadsOutward(Ends(0));
    } else {
      var i: nat :| i < |S.addrs| && h.circuit.out[i] != [];
      assert Possible(S, h, Inside(Last(i))) && ReadsOutward(Inside(Last(i)));
    }
  }

  function OutwardReads(events: seq<HangupEvent>): nat {
    if events == [] then 0
    else OutwardReads(events[..|events| - 1]) + if ReadsOutward(events[|events| - 1]) then 1 else 0
  }

  /**
   * From any moment after a client has left without a DESTROY, relays read from its side as
   * often as what remains falls by, and the first relay has ended with everything taken exactly
   * when they have read as often as there was to read.
   */
  lemma {:induction false} LeavingTakesExactly(S: Setup, run: seq<Hung>, before: seq<HangupEvent>, after: seq<HangupEvent>)
    requires ValidSetup(S) && IsHangupRun(S, run, before + after)
    requires run[|before|].left && run[|before|].circuit.phase != Gone
    ensures var first, last := run[|before|], run[|before| + |after|];
            && Fits(S, first.circuit) && Fits(S, last.circuit) && last.left && last.circuit.phase == first.circuit.phase
            && OutwardReads(after) + Remaining(S, last) == Remaining(S, first)
            && (0 in last.ended && AllEmpty(last.circuit.out) <==> OutwardReads(after) == Remaining(S, first))
    decreases |after|
  {
    hide Possible, Outcome, Remaining, ReadsOutward, AllEmpty;
    if after != [] {
      var n := |after| - 1;
      var events, e := before + after[..n], after[n];
      var shorter := run[..|events| + 1];
      assert before + after == events + [e];
      PrefixOfRun(S, run, events, e);
      LeavingTakesExactly(S, shorter, before, after[..n]);
      assert Moves(S, run[|events|], e, run[|events| + 1]);
      LeavingRuns(S, shorter, events);
    } else {
      assert before + after == before;
    }
    LeavingRuns(S, run, before + after);
  }

  lemma PrefixOfRun(S: Setup, run: seq<Hung>, events: seq<HangupEvent>, e: HangupEvent)
    requires IsHangupRun(S, run, events + [e])
    ensures IsHangupRun(S, run[..|events| + 1], events)
    ensures Moves(S, run[|events|], e, run[|events| + 1])
  {
    assert (events + [e])[|events|] == e;
    forall k | 0 <= k < |events|
      ensures Moves(S, run[..|events| + 1][k], events[k], run[..|events| + 1][k + 1])
    {
      assert (events + [e])[k] == events[k];
    }
  }

  // ---- When all relays end

  /** The relay's session is over: closed by a DESTROY, or ended over a closed connection. */
  predicate IsOver(h: Hung, i: nat)
    requires i < |h.circuit.roles|
  {
    h.circuit.roles[i] == Closed || i in h.ended
  }

  /**
   * Once a client has left and everything is read out, the first relay's session is over, and
   * that of any other exactly if the client has sent a DESTROY.
   */
  lemma AllEndExactlyWhen(S: Setup, run: seq<Hung>, events: seq<HangupEvent>)
    requires ValidSetup(S) && IsHangupRun(S, run, events) && run[|events|].left
    requires Fits(S, run[|events|].circuit) && forall e | ReadsOutward(e) :: !Possible(S, run[|events|], e)
    ensures var h := run[|events|];
            && (forall i | 0 <= i < |S.addrs| :: IsOver(h, i) <==> i == 0 || h.circuit.phase == Gone)
            && ((forall i | 0 <= i < |S.addrs| :: IsOver(h, i)) <==> |S.addrs| == 1 || h.circuit.phase == Gone)
  {
    hide IsRun, After, Load, Views, InFlight, Upward, Downward;
    var inside := HangupIsOrderly(S, run, events);
    var h := run[|events|];
    BuildTakesExactly(S, inside);
    if h.circuit.phase == Gone {
      TeardownDrains(S, inside, Receive);
      forall i: nat
        ensures !Enabled(S, h.circuit, Last(i))
      {
        assert ReadsOutward(Inside(Last(i)));
        assert !Possible(S, h, Inside(Last(i)));
      }
    } else {
      LeavingRuns(S, run, events);
      assert |S.addrs| > 1 ==> !IsOver(h, 1);
    }
  }

  /** Every run of a circuit is a run in which nothing closes. */
  lemma {:induction false} NothingCloses(S: Setup, inside: seq<State>) returns (run: seq<Hung>, events: seq<HangupEvent>)
    requires inside != [] && IsRun(S, inside)
    ensures |run| == |events| + 1 && IsHangupRun(S, run, events) && run[|events|] == Hung(inside[|inside| - 1], false, {})
    decreases |inside|
  {
    hide Initial, Enabled, After;
    var n := |inside| - 1;
    if n == 0 {
      run, events := [Hung(inside[0], false, {})], [];
    } else {
      run, events := NothingCloses(S, inside[..n]);
      assert Step(S, inside[n - 1], inside[n]);
      var step :| Leads(S, inside[n - 1], step, inside[n]);
      var h := run[|events|];
      run, events := HangupRunGrows(S, run, events, Inside(step));
    }
  }

  lemma HangupRunGrows(S: Setup, run: seq<Hung>, events: seq<HangupEvent>, e: HangupEvent) returns (more: seq<Hung>, moreEvents: seq<HangupEvent>)
    requires IsHangupRun(S, run, events) && Fits(S, run[|events|].circuit) && Possible(S, run[|events|], e)
    ensures |more| == |moreEvents| + 1 && moreEvents == events + [e] && IsHangupRun(S, more, moreEvents)
    ensures more[|moreEvents|] == Outcome(S, run[|events|], e)
  {
    hide Possible, Outcome, Initial;
    more, moreEvents := run + [Outcome(S, run[|events|], e)], events + [e];
    forall k | 0 <= k < |moreEvents|
      ensures Moves(S, more[k], moreEvents[k], more[k + 1])
    {
      if k < |events| {
        assert Moves(S, run[k], events[k], run[k + 1]);
      }
    }
  }

  /**
   * With two relays or more, leaving without a DESTROY strands the others: the user of a circuit
   * just built leaves, the first relay ends, and then no relay has anything to read, ever.
   */
  lemma LeavingStrands(S: Setup) returns (run: seq<Hung>, events: seq<HangupEvent>)
    requires ValidSetup(S) && |S.addrs| > 1
    ensures IsHangupRun(S, run, events) && run[|events|].left && run[|events|].ended == {0}
    ensures var h := run[|events|];
            && Fits(S, h.circuit) && h.circuit.phase == Ready
            && (forall e :: !Possible(S, h, e))
            && forall i | 0 < i < |S.addrs| :: !IsOver(h, i)
  {
    hide IsRun, IsHangupRun, After, Enabled, Initial, Outward, Inward, Echoes;
    var inside := CanBeBuilt(S);
    run, events := NothingCloses(S, inside);
    run, events := HangupRunGrows(S, run, events, Leave);
    run, events := HangupRunGrows(S, run, events, Ends(0));
    NothingLeft(S, run[|events|]);
  }

  /** What an idle circuit that has just been built can still do when its client has left and its first relay has ended: nothing. */
  lemma NothingLeft(S: Setup, h: Hung)
    requires Fits(S, h.circuit) && h.left && h.ended == {0} && |S.addrs| > 1
    requires AllEmpty(h.circuit.out) && AllEmpty(h.circuit.back)
    requires forall i | 0 <= i < |S.addrs| :: h.circuit.roles[i] == if i + 1 < |S.addrs| then Middle else Created
    ensures forall e :: !Possible(S, h, e)
  {
    forall e
      ensures !Possible(S, h, e)
    {
      match e
      case Inside(step) => assert !Enabled(S, h.circuit, step) || !MayAct(h, step);
      case Leave =>
      case Ends(i) => assert i < |S.addrs| && i > 0 ==> !HasClosed(h, i - 1);
      case EndsFar(i) => assert i + 1 < |S.addrs| ==> !HasClosed(h, i + 1);
    }
  }
}
