/**
 * Building a circuit, hop by hop. While it is under way one control cell at most
 * is in flight, and its place and the relays' roles are known exactly; so nothing
 * can fail, and only finitely many steps are left at any time.
 */
module CircuitBuild {
  import opened Bytes
  import opened TorCells
  import opened Onion
  import opened Pipeline
  import opened Circuit

  /** A cell on hop i under the client's layers i to k - 1, with all of them and the link key taken off. */
  function Inside(S: Setup, i: nat, k: nat, wire: Cell): View
    requires i <= k <= |S.onionKeys| && i < |S.linkKeys|
  {
    PeelView(S.cipher, S.onionKeys[i..k], ViewOf(Unseal(S.cipher, S.linkKeys[i], wire)))
  }

  // ---- Moving a cell by one hop

  /** A cell the client layers for relays 0 to k - 1 reads as itself on hop 0. */
  lemma ClientLayers(S: Setup, k: nat, cell: Cell)
    requires ValidSetup(S) && k <= |S.onionKeys|
    ensures Inside(S, 0, k, Seal(S.cipher, S.linkKeys[0], AddOnion(S.cipher, S.onionKeys[..k], cell))) == ViewOf(cell)
  {
    UnsealSeal(S.cipher, S.linkKeys[0], AddOnion(S.cipher, S.onionKeys[..k], cell));
    OnionRoundTrip(S.cipher, S.onionKeys[..k], cell);
    assert S.onionKeys[0..k] == S.onionKeys[..k];
  }

  /** Taking off layer i first changes nothing about what is inside. */
  lemma OneLayerOff(S: Setup, i: nat, k: nat, wire: Cell)
    requires i < k <= |S.onionKeys| == |S.linkKeys|
    ensures PeelView(S.cipher, S.onionKeys[i + 1..k], ViewOf(PeelOnion(S.cipher, [S.onionKeys[i]], Unseal(S.cipher, S.linkKeys[i], wire))))
         == Inside(S, i, k, wire)
  {
    var raw := Unseal(S.cipher, S.linkKeys[i], wire);
    PeelOnionView(S.cipher, [S.onionKeys[i]], raw);
    PeelViewSplit(S.cipher, [S.onionKeys[i]], S.onionKeys[i + 1..k], ViewOf(raw));
    assert [S.onionKeys[i]] + S.onionKeys[i + 1..k] == S.onionKeys[i..k];
  }

  /** A middle relay peels a cell and seals it for the next hop: the same cell is inside. */
  lemma RelayOutward(S: Setup, i: nat, k: nat, wire: Cell)
    requires ValidSetup(S) && i + 1 < |S.onionKeys| && i < k <= |S.onionKeys|
    ensures var cell := PeelOnion(S.cipher, [S.onionKeys[i]], Unseal(S.cipher, S.linkKeys[i], wire));
            Inside(S, i + 1, k, Seal(S.cipher, S.linkKeys[i + 1], cell)) == Inside(S, i, k, wire)
  {
    var cell := PeelOnion(S.cipher, [S.onionKeys[i]], Unseal(S.cipher, S.linkKeys[i], wire));
    OneLayerOff(S, i, k, wire);
    UnsealSeal(S.cipher, S.linkKeys[i + 1], cell);
  }

  /** The relay a cell is meant for takes the last layer off. */
  lemma RelayOpens(S: Setup, i: nat, wire: Cell)
    requires i < |S.onionKeys| == |S.linkKeys|
    ensures ViewOf(PeelOnion(S.cipher, [S.onionKeys[i]], Unseal(S.cipher, S.linkKeys[i], wire))) == Inside(S, i, i + 1, wire)
  {
    OneLayerOff(S, i, i + 1, wire);
    assert S.onionKeys[i + 1..i + 1] == [];
    PeelViewNone(S.cipher, ViewOf(PeelOnion(S.cipher, [S.onionKeys[i]], Unseal(S.cipher, S.linkKeys[i], wire))));
  }

  /** A relay adds its layer to a cell that carries layers i + 1 to k - 1. */
  lemma OneLayerOn(S: Setup, i: nat, k: nat, cell: Cell)
    requires ValidSetup(S) && i < k <= |S.onionKeys|
    ensures Inside(S, i, k, Seal(S.cipher, S.linkKeys[i], AddOnion(S.cipher, [S.onionKeys[i]], cell)))
         == PeelView(S.cipher, S.onionKeys[i + 1..k], ViewOf(cell))
  {
    var layered := AddOnion(S.cipher, [S.onionKeys[i]], cell);
    UnsealSeal(S.cipher, S.linkKeys[i], layered);
    OnionRoundTrip(S.cipher, [S.onionKeys[i]], cell);
    PeelViewSplit(S.cipher, [S.onionKeys[i]], S.onionKeys[i + 1..k], ViewOf(layered));
    assert [S.onionKeys[i]] + S.onionKeys[i + 1..k] == S.onionKeys[i..k];
  }

  /** A relay that answers for itself puts on the only layer. */
  lemma RelayAnswers(S: Setup, i: nat, cell: Cell)
    requires ValidSetup(S) && i < |S.onionKeys|
    ensures Inside(S, i, i + 1, Seal(S.cipher, S.linkKeys[i], AddOnion(S.cipher, [S.onionKeys[i]], cell))) == ViewOf(cell)
  {
    OneLayerOn(S, i, i + 1, cell);
    assert S.onionKeys[i + 1..i + 1] == [];
    PeelViewNone(S.cipher, ViewOf(cell));
  }

  /** A middle relay layers a cell and seals it for the hop before: the same cell is inside. */
  lemma RelayInward(S: Setup, i: nat, k: nat, wire: Cell)
    requires ValidSetup(S) && i + 1 < |S.onionKeys| && i < k <= |S.onionKeys|
    ensures var raw := Unseal(S.cipher, S.linkKeys[i + 1], wire);
            Inside(S, i, k, Seal(S.cipher, S.linkKeys[i], AddOnion(S.cipher, [S.onionKeys[i]], raw))) == Inside(S, i + 1, k, wire)
  {
    OneLayerOn(S, i, k, Unseal(S.cipher, S.linkKeys[i + 1], wire));
  }

  /** The client takes off all layers of relays 0 to k - 1. */
  lemma ClientOpens(S: Setup, k: nat, wire: Cell)
    requires k <= |S.onionKeys| && 0 < |S.linkKeys|
    ensures ViewOf(PeelOnion(S.cipher, S.onionKeys[..k], Unseal(S.cipher, S.linkKeys[0], wire))) == Inside(S, 0, k, wire)
  {
    PeelOnionView(S.cipher, S.onionKeys[..k], Unseal(S.cipher, S.linkKeys[0], wire));
    assert S.onionKeys[0..k] == S.onionKeys[..k];
  }

  // ---- The stages of building

  datatype Stage =
    | Idle                 // nothing in flight
    | ExtendAt(j: nat)     // EXTEND on hop j
    | CreateSent           // CREATE on the hop to the new relay
    | CreatedSent          // CREATED on the hop from the new relay
    | ExtendedAt(j: nat)   // EXTENDED on hop j

  predicate OnlyOut(s: State, j: nat) {
    j < |s.out| && |s.out[j]| == 1 && AllEmpty(s.back) && forall i | 0 <= i < |s.out| && i != j :: s.out[i] == []
  }

  predicate OnlyBack(s: State, j: nat) {
    j < |s.back| && |s.back[j]| == 1 && AllEmpty(s.out) && forall i | 0 <= i < |s.back| && i != j :: s.back[i] == []
  }

  /** Relays below `m` are middle, relays from `w` on have not been reached. */
  predicate Outer(s: State, m: nat, w: nat) {
    && (forall i | 0 <= i < |s.roles| && i < m :: s.roles[i] == Middle)
    && (forall i | 0 <= i < |s.roles| && w <= i :: s.roles[i] == Waiting)
  }

  /** The first k relays share their onion key with the client. */
  predicate KeysAgree(S: Setup, s: State, k: nat) {
    forall i | 0 <= i < |s.keys| && i < |S.onionKeys| && i < k :: s.keys[i] == S.onionKeys[i]
  }

  /** k relays are in the circuit and the last of them has yet to learn its role. */
  predicate KRelays(S: Setup, s: State, k: nat) {
    && 0 < k <= |s.roles|
    && Outer(s, k - 1, k)
    && s.roles[k - 1] == Created
    && KeysAgree(S, s, k)
  }

  /** Relay k - 1 waits for its answer from relay k, if there is a relay k - 1. */
  predicate Extends(S: Setup, s: State, k: nat, w: nat) {
    && k < |s.roles|
    && Outer(s, if k == 0 then 0 else k - 1, w)
    && (k > 0 ==> s.roles[k - 1] == Extending)
    && KeysAgree(S, s, k)
    && s.phase == (if k == 0 then AwaitCreated else AwaitExtended)
  }

  predicate NoTraffic(s: State) {
    s.sent == [] && s.received == [] && s.taken == [] && s.replies == [] && s.streams == {}
  }

  predicate Building(S: Setup, s: State, stage: Stage) {
    var k := s.cur;
    && Fits(S, s)
    && NoTraffic(s)
    && match stage
       case Idle =>
         && AllEmpty(s.out) && AllEmpty(s.back)
         && ((s.phase == Starting && k == 0 && Outer(s, 0, 0)) || (s.phase == Ready && KRelays(S, s, k)))
       case ExtendAt(j) =>
         && OnlyOut(s, j) && j < k < |S.addrs|
         && s.phase == AwaitExtended && KRelays(S, s, k)
         && IsExtendTo(Inside(S, j, k, s.out[j][0]), S.addrs[k], S.clientKey)
       case CreateSent =>
         && OnlyOut(s, k) && Extends(S, s, k, k)
         && var create := Unseal(S.cipher, S.linkKeys[k], s.out[k][0]);
            create[CMD] == TOR_CREATE && KeyInCreate(create) == S.clientKey
       case CreatedSent =>
         && OnlyBack(s, k) && Extends(S, s, k, k + 1)
         && s.roles[k] == Created && s.keys[k] == S.onionKeys[k]
         && Unseal(S.cipher, S.linkKeys[k], s.back[k][0])[CMD] == TOR_CREATED
       case ExtendedAt(j) =>
         && OnlyBack(s, j) && j < k < |S.addrs|
         && s.phase == AwaitExtended && KRelays(S, s, k + 1)
         && Inside(S, j, k, s.back[j][0])[RELAY_CMD] == RELAY_EXTENDED
  }

  /** What happens next at a stage; there is no choice but the contents of the client's buffer. */
  function NextStage(n: nat, stage: Stage, cur: nat): (Stage, nat)
    requires cur <= n
  {
    match stage
    case Idle => (if cur == 0 then CreateSent else ExtendAt(0), cur)
    case ExtendAt(j) => (if j + 1 < cur then ExtendAt(j + 1) else CreateSent, cur)
    case CreateSent => (CreatedSent, cur)
    case CreatedSent => if cur == 0 then (Idle, 1) else (ExtendedAt(cur - 1), cur)
    case ExtendedAt(j) => if j == 0 then (Idle, cur + 1) else (ExtendedAt(j - 1), cur)
  }

  lemma InitiallyIdle(S: Setup)
    requires ValidSetup(S)
    ensures Building(S, Initial(S), Idle)
  {
  }

  /** The event a stage waits for: there is one at every stage until the circuit is built. */
  predicate Awaited(stage: Stage, cur: nat, e: Event) {
    match stage
    case Idle => if cur == 0 then e.Start? else e.Extend?
    case ExtendAt(j) => e == Last(j)
    case CreateSent => e == Last(cur)
    case CreatedSent => if cur == 0 then e == Receive else e == Next(cur - 1)
    case ExtendedAt(j) => if j == 0 then e == Receive else e == Next(j - 1)
  }

  /** No other event can happen, and the awaited one can. */
  lemma OnlyAwaited(S: Setup, s: State, stage: Stage, e: Event)
    requires ValidSetup(S) && Building(S, s, stage) && !IsBuilt(S, s)
    ensures Awaited(stage, s.cur, e) <==> Enabled(S, s, e)
  {
    hide Inside, IsExtendTo, Unseal, KeyInCreate, NoTraffic, KeysAgree;
  }

  lemma StartSendsCreate(S: Setup, s: State, buffer: Cell)
    requires ValidSetup(S) && Building(S, s, Idle) && s.phase == Starting
    ensures Building(S, After(S, s, Start(buffer)), CreateSent)
  {
    hide Seal, Unseal, CreateCell, KeyInCreate;
    UnsealSeal(S.cipher, S.linkKeys[0], CreateCell(buffer, S.clientKey));
    CreateCellReads(buffer, S.clientKey);
  }

  lemma ClientExtends(S: Setup, s: State, buffer: Cell)
    requires ValidSetup(S) && Building(S, s, Idle) && s.phase == Ready && s.cur < |S.addrs|
    ensures Building(S, After(S, s, Extend(buffer)), ExtendAt(0))
  {
    hide Seal, Unseal, ExtendCell, AddOnion, IsExtendTo, Inside;
    var extend := ExtendCell(buffer, S.addrs[s.cur], S.clientKey);
    ClientLayers(S, s.cur, extend);
    ExtendCellReads(buffer, S.addrs[s.cur], S.clientKey);
    ExtendSurvivesInView(extend, S.addrs[s.cur], S.clientKey);
  }

  /** A middle relay passes the EXTEND on. It is not a DESTROY, so it stays a middle relay. */
  lemma ExtendPasses(S: Setup, s: State, j: nat)
    requires ValidSetup(S) && Building(S, s, ExtendAt(j)) && j + 1 < s.cur
    ensures Building(S, FromLast(S, s, j), ExtendAt(j + 1)) && FromLast(S, s, j).cur == s.cur
  {
    hide Seal, Unseal, PeelOnion, Inside;
    var wire := s.out[j][0];
    var cell := PeelOnion(S.cipher, [S.onionKeys[j]], Unseal(S.cipher, S.linkKeys[j], wire));
    RelayOutward(S, j, s.cur, wire);
    InsideKeepsHeader(S, j, s.cur, wire);
    var s' := FromLast(S, s, j);
    assert s'.roles == s.roles;
    assert s'.out[j] == [] && s'.out[j + 1] == [Seal(S.cipher, S.linkKeys[j + 1], cell)];
  }

  /** Layers never touch the command byte. */
  lemma InsideKeepsHeader(S: Setup, i: nat, k: nat, wire: Cell)
    requires i < k <= |S.onionKeys| == |S.linkKeys|
    ensures var raw := Unseal(S.cipher, S.linkKeys[i], wire);
            Inside(S, i, k, wire)[CMD] == raw[CMD] == PeelOnion(S.cipher, [S.onionKeys[i]], raw)[CMD]
  {
    hide Unseal;
  }

  /** The last relay so far opens the EXTEND and sends CREATE to the relay it names. */
  lemma ExtendArrives(S: Setup, s: State, j: nat)
    requires ValidSetup(S) && Building(S, s, ExtendAt(j)) && j + 1 == s.cur
    ensures Building(S, FromLast(S, s, j), CreateSent) && FromLast(S, s, j).cur == s.cur
  {
    hide Seal, Unseal, PeelOnion, Inside, CreateFromExtend, KeyInCreate, IsExtendTo;
    var wire := s.out[j][0];
    var cell := PeelOnion(S.cipher, [S.onionKeys[j]], Unseal(S.cipher, S.linkKeys[j], wire));
    RelayOpens(S, j, wire);
    ExtendSurvivesInView(cell, S.addrs[j + 1], S.clientKey);
    ExtendToReads(cell, S.addrs[j + 1], S.clientKey);
    CreateFromExtendReads(cell);
    UnsealSeal(S.cipher, S.linkKeys[j + 1], CreateFromExtend(cell));
    var s' := FromLast(S, s, j);
    assert s' == ExtendRelay(S, s.(out := Pop(s.out, j)), j, cell);
    assert s'.roles == s.roles[j := Extending];
    assert s'.out[j] == [] && s'.out[j + 1] == [Seal(S.cipher, S.linkKeys[j + 1], CreateFromExtend(cell))];
  }

  lemma ExtendToReads(v: seq<Byte>, addr: SockAddr, clientKey: KeyBytes)
    requires |v| >= VIEW_SIZE && IsExtendTo(v, addr, clientKey)
    ensures IsRelayCell(v, RELAY_EXTEND)
    ensures v[EXTEND_ADDR..EXTEND_ADDR + SOCK_ADDR_SIZE] == addr
    ensures v[EXTEND_KEY..EXTEND_KEY + ASYMMETRIC_KEY_BYTES] == clientKey
  {
  }

  /** The new relay derives its onion key, which is the client's, and answers. */
  lemma CreateArrives(S: Setup, s: State)
    requires ValidSetup(S) && Building(S, s, CreateSent)
    ensures Building(S, FromLast(S, s, s.cur), CreatedSent) && FromLast(S, s, s.cur).cur == s.cur
  {
    hide Seal, Unseal, PeelOnion, CreatedCell, KeyInCreate;
    var k := s.cur;
    var raw := Unseal(S.cipher, S.linkKeys[k], s.out[k][0]);
    CreatedCellReads(raw);
    UnsealSeal(S.cipher, S.linkKeys[k], CreatedCell(raw));
    var s' := FromLast(S, s, k);
    assert s'.keys == s.keys[k := S.onionKeys[k]];
    assert s'.out[k] == [] && s'.back[k] == [Seal(S.cipher, S.linkKeys[k], CreatedCell(raw))];
  }

  lemma CreatedArrivesAtClient(S: Setup, s: State)
    requires ValidSetup(S) && Building(S, s, CreatedSent) && s.cur == 0
    ensures Building(S, ClientReceives(S, s), Idle) && ClientReceives(S, s).cur == 1
  {
    hide Unseal, PeelOnion;
    assert ClientReceives(S, s).back[0] == [];
  }

  /** Relay k - 1 turns CREATED into EXTENDED under its own layer and becomes a middle relay. */
  lemma CreatedArrivesAtRelay(S: Setup, s: State)
    requires ValidSetup(S) && Building(S, s, CreatedSent) && s.cur > 0
    ensures Building(S, FromNext(S, s, s.cur - 1), ExtendedAt(s.cur - 1)) && FromNext(S, s, s.cur - 1).cur == s.cur
  {
    hide Seal, Unseal, AddOnion, Inside;
    var i := s.cur - 1;
    var raw := Unseal(S.cipher, S.linkKeys[i + 1], s.back[i + 1][0]);
    RelayAnswers(S, i, ExtendedCell(raw));
    var s' := FromNext(S, s, i);
    assert s'.back[i + 1] == [] && s'.back[i] == [Seal(S.cipher, S.linkKeys[i], AddOnion(S.cipher, [S.onionKeys[i]], ExtendedCell(raw)))];
    assert s'.roles == s.roles[i := Middle];
  }

  lemma ExtendedPasses(S: Setup, s: State, j: nat)
    requires ValidSetup(S) && Building(S, s, ExtendedAt(j)) && j > 0
    ensures Building(S, FromNext(S, s, j - 1), ExtendedAt(j - 1)) && FromNext(S, s, j - 1).cur == s.cur
  {
    hide Seal, Unseal, AddOnion, Inside;
    var wire := s.back[j][0];
    RelayInward(S, j - 1, s.cur, wire);
    var s' := FromNext(S, s, j - 1);
    var raw := Unseal(S.cipher, S.linkKeys[j], wire);
    assert s'.back[j] == [] && s'.back[j - 1] == [Seal(S.cipher, S.linkKeys[j - 1], AddOnion(S.cipher, [S.onionKeys[j - 1]], raw))];
  }

  lemma ExtendedArrives(S: Setup, s: State)
    requires ValidSetup(S) && Building(S, s, ExtendedAt(0))
    ensures Building(S, ClientReceives(S, s), Idle) && ClientReceives(S, s).cur == s.cur + 1
  {
    hide Unseal, PeelOnion, Inside;
    ClientOpens(S, s.cur, s.back[0][0]);
    assert ClientReceives(S, s).back[0] == [];
  }

  lemma IdlePhase(S: Setup, s: State, stage: Stage)
    requires Building(S, s, stage) && !IsBuilt(S, s)
    ensures stage == Idle ==> (s.cur == 0 && s.phase == Starting) || (0 < s.cur < |S.addrs| && s.phase == Ready)
    ensures stage.ExtendAt? ==> stage.j < s.cur
  {
    hide Inside, IsExtendTo, Unseal, KeyInCreate, NoTraffic, KeysAgree;
  }

  /** Every step of a circuit that is being built leads to the next stage. */
  lemma BuildStep(S: Setup, s: State, stage: Stage, e: Event)
    requires ValidSetup(S) && Building(S, s, stage) && !IsBuilt(S, s)
    requires Enabled(S, s, e)
    ensures var (next, cur) := NextStage(|S.addrs|, stage, s.cur);
            Building(S, After(S, s, e), next) && After(S, s, e).cur == cur
  {
    hide FromLast, FromNext, ClientReceives, Building;
    OnlyAwaited(S, s, stage, e);
    IdlePhase(S, s, stage);
    match stage
    case Idle =>
      if s.cur == 0 {
        StartSendsCreate(S, s, e.buffer);
      } else {
        ClientExtends(S, s, e.buffer);
      }
    case ExtendAt(j) =>
      if j + 1 < s.cur {
        ExtendPasses(S, s, j);
      } else {
        ExtendArrives(S, s, j);
      }
    case CreateSent => CreateArrives(S, s);
    case CreatedSent =>
      if s.cur == 0 {
        CreatedArrivesAtClient(S, s);
      } else {
        CreatedArrivesAtRelay(S, s);
      }
    case ExtendedAt(j) =>
      if j == 0 {
        ExtendedArrives(S, s);
      } else {
        ExtendedPasses(S, s, j);
      }
  }

  // ---- Building always ends

  /** Steps left from the moment `cur` relays are in the circuit and nothing is in flight. */
  function StepsFrom(n: nat, cur: nat): nat
    requires cur <= n
    decreases n - cur
  {
    if cur == n then 0 else 2 * cur + 3 + StepsFrom(n, cur + 1)
  }

  function StepsLeft(n: nat, stage: Stage, cur: nat): int
    requires cur <= n
  {
    match stage
    case Idle => StepsFrom(n, cur)
    case ExtendAt(j) => 2 * cur + 2 - j + if cur == n then 0 else StepsFrom(n, cur + 1)
    case CreateSent => cur + 2 + if cur == n then 0 else StepsFrom(n, cur + 1)
    case CreatedSent => cur + 1 + if cur == n then 0 else StepsFrom(n, cur + 1)
    case ExtendedAt(j) => j + 1 + if cur == n then 0 else StepsFrom(n, cur + 1)
  }

  lemma {:induction false} StepsFromTotal(n: nat, cur: nat)
    requires cur <= n
    ensures StepsFrom(n, cur) == (n - cur) * (n + cur + 2)
    decreases n - cur
  {
    if cur < n {
      StepsFromTotal(n, cur + 1);
      assert (n - cur) * (n + cur + 2) == (n - cur - 1) * (n + cur + 3) + 2 * cur + 3;
    }
  }

  lemma StageCountsDown(S: Setup, s: State, stage: Stage)
    requires ValidSetup(S) && Building(S, s, stage) && !IsBuilt(S, s)
    ensures var (next, cur) := NextStage(|S.addrs|, stage, s.cur);
            cur <= |S.addrs| && StepsLeft(|S.addrs|, next, cur) == StepsLeft(|S.addrs|, stage, s.cur) - 1
    ensures StepsLeft(|S.addrs|, stage, s.cur) > 0
  {
    hide Inside, IsExtendTo, Unseal, KeyInCreate, NoTraffic, KeysAgree;
  }
}
