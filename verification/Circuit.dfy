/**
 * A circuit as a distributed system: one client, any number of relays, and for
 * each hop one FIFO queue of sealed cells in each direction. Every `read` of a
 * whole cell and everything its reader does before the next `read` is one step,
 * and steps of different nodes interleave freely.
 */
module Circuit {
  import opened Bytes
  import opened Encryptions
  import opened TorCells
  import opened Onion
  import opened Pipeline
  import ProbeTable

  /** What a circuit is built from: hop i runs from the client (i = 0) or relay i - 1 to relay i. */
  datatype Setup = Setup(
    cipher: Cipher,
    addrs: seq<SockAddr>,            // address of each relay of the path, in order
    clientKey: KeyBytes,            // the client's exported public key
    onionKeys: seq<Block>,           // the client's onion keys
    linkKeys: seq<Block>,            // the key of each hop
    derive: (nat, KeyBytes) -> Block  // the onion key relay i derives from a public key
  )

  ghost predicate ValidSetup(S: Setup) {
    && Lawful(S.cipher)
    && 0 < |S.addrs| == |S.onionKeys| == |S.linkKeys|
    && forall i: nat | i < |S.addrs| :: S.derive(i, S.clientKey) == S.onionKeys[i]
  }

  /** Where a relay is in `process_relay_session`. */
  datatype Role = Waiting | Created | Extending | Middle | End | Closed | Failed

  /** Where the client is; on a built circuit it leaves with a DESTROY, or stops on DATA for a stream it does not have. */
  datatype Phase = Starting | AwaitCreated | Ready | AwaitExtended | Gone | Stopped | ClientFailed

  datatype State = State(
    phase: Phase,
    cur: nat,                // the client's cur_relays
    roles: seq<Role>,
    keys: seq<Block>,        // the relays' onion keys
    out: seq<seq<Cell>>,     // out[i]: on its way to relay i
    back: seq<seq<Cell>>,    // back[i]: on its way from relay i
    sent: seq<Cell>,         // cells of the built circuit, as the client made them
    received: seq<Cell>,     // cells of the built circuit, as the client got them
    taken: seq<Cell>,        // cells the end relay has acted on
    replies: seq<Cell>,      // cells the end relay has answered with
    streams: set<nat>        // ids of the client's open streams
  )

  predicate Fits(S: Setup, s: State) {
    && |S.onionKeys| == |S.linkKeys| == |S.addrs| > 0
    && |s.roles| == |s.keys| == |s.out| == |s.back| == |S.addrs|
    && s.cur <= |S.addrs|
  }

  function Initial(S: Setup): State {
    var n := |S.addrs|;
    State(Starting, 0, seq(n, _ => Waiting), seq(n, _ => Zeros(16)), seq(n, _ => []), seq(n, _ => []), [], [], [], [], {})
  }

  // ---- What nodes do with cells

  function SendOut(S: Setup, s: State, i: nat, cell: Cell): State
    requires Fits(S, s) && i < |S.addrs|
  {
    s.(out := Push(s.out, i, Seal(S.cipher, S.linkKeys[i], cell)))
  }

  function SendBack(S: Setup, s: State, i: nat, cell: Cell): State
    requires Fits(S, s) && i < |S.addrs|
  {
    s.(back := Push(s.back, i, Seal(S.cipher, S.linkKeys[i], cell)))
  }

  function Become(s: State, i: nat, role: Role): State
    requires i < |s.roles|
  {
    s.(roles := s.roles[i := role])
  }

  predicate IsDestroy(v: seq<Byte>)
    requires |v| >= VIEW_SIZE
  {
    v[CMD] == TOR_DESTROY
  }

  predicate IsPadding(v: seq<Byte>)
    requires |v| >= VIEW_SIZE
  {
    v[CMD] == TOR_PADDING
  }

  /** The cells a client sends on a built circuit: ping, destroy, begin, data and end. */
  predicate Sendable(cell: seq<Byte>)
    requires |cell| >= VIEW_SIZE
  {
    || IsPadding(cell)
    || IsDestroy(cell)
    || (cell[CMD] == TOR_RELAY && cell[RELAY_CMD] in {RELAY_BEGIN, RELAY_DATA, RELAY_END})
  }

  /** BEGIN goes out with an id whose home slot is free, DATA for an open stream only, END for any id. */
  predicate CanSend(streams: set<nat>, cell: Cell) {
    && Sendable(cell)
    && (IsRelayCell(cell, RELAY_BEGIN) ==> forall id | id in streams :: id % ProbeTable.HASHMAP_AMOUNT != IdOf(cell) % ProbeTable.HASHMAP_AMOUNT)
    && (IsRelayCell(cell, RELAY_DATA) ==> IdOf(cell) in streams)
  }

  function StreamsAfterSend(streams: set<nat>, cell: Cell): set<nat> {
    if IsRelayCell(cell, RELAY_BEGIN) then streams + {IdOf(cell)}
    else if IsRelayCell(cell, RELAY_END) then streams - {IdOf(cell)}
    else streams
  }

  /** The client acts on a cell of the built circuit: END closes a stream, and DATA for one that is not open ends the session. */
  function HandleRelayMsg(s: State, cell: Cell): (t: State)
    ensures t == s.(received := t.received, streams := t.streams, phase := t.phase)
  {
    var t := s.(received := s.received + [cell]);
    if IsRelayCell(cell, RELAY_END) then t.(streams := s.streams - {IdOf(cell)})
    else if IsRelayCell(cell, RELAY_DATA) && IdOf(cell) !in s.streams then t.(phase := Stopped)
    else t
  }

  /** The end relay acts on a cell: DESTROY ends it, PADDING is sent back, the rest is left to its streams. */
  function HandleClientMsg(S: Setup, s: State, i: nat, cell: Cell): State
    requires Fits(S, s) && i < |S.addrs|
  {
    var t := s.(taken := s.taken + [cell]);
    if IsDestroy(cell) then
      Become(t, i, Closed)
    else if IsPadding(cell) then
      SendBack(S, Become(t, i, End).(replies := s.replies + [cell]), i, AddOnion(S.cipher, [s.keys[i]], cell))
    else
      Become(t, i, End)
  }

  function ExtendRelay(S: Setup, s: State, i: nat, cell: Cell): State
    requires Fits(S, s) && i < |S.addrs|
  {
    if i + 1 < |S.addrs| && cell[EXTEND_ADDR..EXTEND_ADDR + SOCK_ADDR_SIZE] == S.addrs[i + 1] then
      SendOut(S, Become(s, i, Extending), i + 1, CreateFromExtend(cell))
    else
      Become(s, i, Failed)
  }

  /** Relay i reads the next cell from the client's side. */
  function FromLast(S: Setup, s: State, i: nat): State
    requires Fits(S, s) && i < |S.addrs| && s.out[i] != []
  {
    var raw := Unseal(S.cipher, S.linkKeys[i], s.out[i][0]);
    var t := s.(out := Pop(s.out, i));
    var cell := PeelOnion(S.cipher, [s.keys[i]], raw);
    match s.roles[i]
    case Waiting =>
      if raw[CMD] != TOR_CREATE then Become(t, i, Failed)
      else SendBack(S, Become(t, i, Created).(keys := s.keys[i := S.derive(i, KeyInCreate(raw))]), i, CreatedCell(raw))
    case Created =>
      if IsRelayCell(cell, RELAY_EXTEND) then ExtendRelay(S, t, i, cell) else HandleClientMsg(S, t, i, cell)
    case Middle =>
      if i + 1 < |S.addrs| then
        SendOut(S, Become(t, i, if IsDestroy(cell) then Closed else Middle), i + 1, cell)
      else
        Become(t, i, Failed)
    case _ =>
      HandleClientMsg(S, t, i, cell)
  }

  /** Relay i reads the next cell from the far side. */
  function FromNext(S: Setup, s: State, i: nat): State
    requires Fits(S, s) && i + 1 < |S.addrs| && s.back[i + 1] != []
  {
    var raw := Unseal(S.cipher, S.linkKeys[i + 1], s.back[i + 1][0]);
    var t := s.(back := Pop(s.back, i + 1));
    if s.roles[i] == Extending then
      if raw[CMD] != TOR_CREATED then Become(t, i, Failed)
      else SendBack(S, Become(t, i, Middle), i, AddOnion(S.cipher, [s.keys[i]], ExtendedCell(raw)))
    else
      SendBack(S, t, i, AddOnion(S.cipher, [s.keys[i]], raw))
  }

  /** A cell of the built circuit leaves the client under all layers. */
  function ClientSends(S: Setup, s: State, cell: Cell): State
    requires Fits(S, s)
  {
    SendOut(S, s.(sent := s.sent + [cell], phase := if IsDestroy(cell) then Gone else Ready,
                  streams := StreamsAfterSend(s.streams, cell)), 0,
            AddOnion(S.cipher, S.onionKeys, cell))
  }

  /** The client reads a cell: an answer it waits for, or traffic of the built circuit. */
  function ClientReceives(S: Setup, s: State): State
    requires Fits(S, s) && s.back[0] != []
  {
    var raw := Unseal(S.cipher, S.linkKeys[0], s.back[0][0]);
    var cell := PeelOnion(S.cipher, S.onionKeys[..s.cur], raw);
    var t := s.(back := Pop(s.back, 0));
    match s.phase
    case AwaitCreated =>
      if raw[CMD] == TOR_CREATED then t.(phase := Ready, cur := 1) else t.(phase := ClientFailed)
    case AwaitExtended =>
      if cell[RELAY_CMD] != RELAY_EXTENDED || s.cur == |S.addrs| then t.(phase := ClientFailed)
      else t.(phase := Ready, cur := s.cur + 1)
    case _ =>
      HandleRelayMsg(t, cell)
  }

  // ---- Steps

  datatype Event =
    | Start(buffer: Cell)        // CREATE, over any buffer contents
    | Extend(buffer: Cell)       // EXTEND to the next relay, over any buffer contents
    | Send(cell: Cell)           // a user command on the built circuit
    | Receive
    | Last(i: nat)
    | Next(i: nat)
    | Reply(i: nat, cell: Cell)  // the end relay reports on one of its streams

  predicate IsBuilt(S: Setup, s: State) {
    s.cur == |S.addrs| && s.phase in {Ready, Gone, Stopped}
  }

  predicate Enabled(S: Setup, s: State, e: Event)
    requires Fits(S, s)
  {
    match e
    case Start(_) => s.phase == Starting
    case Extend(_) => s.phase == Ready && s.cur < |S.addrs|
    case Send(cell) => s.phase == Ready && s.cur == |S.addrs| && CanSend(s.streams, cell)
    case Receive => s.back[0] != [] && (s.phase in {AwaitCreated, AwaitExtended} || (s.phase == Ready && s.cur == |S.addrs|))
    case Last(i) => i < |S.addrs| && s.out[i] != [] && s.roles[i] in {Waiting, Created, Middle, End}
    case Next(i) => i + 1 < |S.addrs| && s.back[i + 1] != [] && s.roles[i] in {Extending, Middle}
    case Reply(i, cell) => i < |S.addrs| && s.roles[i] == End && cell[CMD] == TOR_RELAY
  }

  function After(S: Setup, s: State, e: Event): (s': State)
    requires Fits(S, s) && Enabled(S, s, e)
  {
    match e
    case Start(buffer) => SendOut(S, s.(phase := AwaitCreated), 0, CreateCell(buffer, S.clientKey))
    case Extend(buffer) =>
      SendOut(S, s.(phase := AwaitExtended), 0,
              AddOnion(S.cipher, S.onionKeys[..s.cur], ExtendCell(buffer, S.addrs[s.cur], S.clientKey)))
    case Send(cell) => ClientSends(S, s, cell)
    case Receive => ClientReceives(S, s)
    case Last(i) => FromLast(S, s, i)
    case Next(i) => FromNext(S, s, i)
    case Reply(i, cell) =>
      SendBack(S, s.(replies := s.replies + [cell]), i, AddOnion(S.cipher, [s.keys[i]], cell))
  }

  ghost predicate Leads(S: Setup, s: State, e: Event, s': State) {
    Fits(S, s) && Enabled(S, s, e) && s' == After(S, s, e)
  }

  ghost predicate Step(S: Setup, s: State, s': State) {
    exists e :: Leads(S, s, e, s')
  }

  /** A finite run from the initial state, with every state in between. */
  ghost predicate IsRun(S: Setup, run: seq<State>) {
    && run != []
    && run[0] == Initial(S)
    && forall i: nat | i + 1 < |run| :: Step(S, run[i], run[i + 1])
  }
}
