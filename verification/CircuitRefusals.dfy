/**
 * Which cells a node of the circuit does not accept: what makes a relay fail while the circuit is
 * extended, and what makes the client give up, for any cell that may arrive. In all these cases
 * the cell is read and nothing is sent.
 */
module CircuitRefusals {
  import opened TorCells
  import opened Onion
  import opened Pipeline
  import opened Circuit

  /** The next relay of the path is the one that the EXTEND names. */
  predicate NamesNext(S: Setup, i: nat, extend: Cell) {
    i + 1 < |S.addrs| && extend[EXTEND_ADDR..EXTEND_ADDR + SOCK_ADDR_SIZE] == S.addrs[i + 1]
  }

  /**
   * Reading from the client's side a relay fails exactly on another command than CREATE before it
   * has a key, or on an EXTEND to a relay that it does not reach as the first cell after that.
   */
  lemma RelayFailsExactlyWhen(S: Setup, s: State, i: nat)
    requires Fits(S, s) && Enabled(S, s, Last(i)) && (s.roles[i] == Middle ==> i + 1 < |S.addrs|)
    ensures var raw := Unseal(S.cipher, S.linkKeys[i], s.out[i][0]);
            var cell := PeelOnion(S.cipher, [s.keys[i]], raw);
            var t := After(S, s, Last(i));
            && |t.roles| == |s.roles|
            && (t.roles[i] == Failed <==>
                  || (s.roles[i] == Waiting && raw[CMD] != TOR_CREATE)
                  || (s.roles[i] == Created && IsRelayCell(cell, RELAY_EXTEND) && !NamesNext(S, i, cell)))
            && (t.roles[i] == Failed ==> t == s.(out := Pop(s.out, i), roles := s.roles[i := Failed]))
  {
    hide Seal, Unseal, AddOnion, PeelOnion, CreatedCell, CreateFromExtend, IsRelayCell;
  }

  /** Reading from the far side a relay fails exactly on another command than CREATED while it extends the circuit. */
  lemma ExtendingFailsExactlyWhen(S: Setup, s: State, i: nat)
    requires Fits(S, s) && Enabled(S, s, Next(i))
    ensures var raw := Unseal(S.cipher, S.linkKeys[i + 1], s.back[i + 1][0]);
            var t := After(S, s, Next(i));
            && |t.roles| == |s.roles|
            && (t.roles[i] == Failed <==> s.roles[i] == Extending && raw[CMD] != TOR_CREATED)
            && (t.roles[i] == Failed ==> t == s.(back := Pop(s.back, i + 1), roles := s.roles[i := Failed]))
  {
    hide Seal, Unseal, AddOnion, ExtendedCell;
  }

  /** The client gives up building exactly on an answer that is not CREATED or not EXTENDED, whichever it waits for. */
  lemma ClientFailsExactlyWhen(S: Setup, s: State)
    requires Fits(S, s) && Enabled(S, s, Receive) && (s.phase == AwaitExtended ==> s.cur < |S.addrs|)
    ensures var raw := Unseal(S.cipher, S.linkKeys[0], s.back[0][0]);
            var cell := PeelOnion(S.cipher, S.onionKeys[..s.cur], raw);
            var t := After(S, s, Receive);
            && (t.phase == ClientFailed <==>
                  (s.phase == AwaitCreated && raw[CMD] != TOR_CREATED) || (s.phase == AwaitExtended && cell[RELAY_CMD] != RELAY_EXTENDED))
            && (t.phase == ClientFailed ==> t == s.(back := Pop(s.back, 0), phase := ClientFailed))
  {
    hide Unseal, PeelOnion, IdOf;
  }
}
