/** What the onion layers and the link encryption of a hop do to a cell. */
module Onion {
  import opened Bytes
  import opened Encryptions
  import opened TorCells

  /** Layers on the payload; the circuit id and the command stay readable. */
  function AddOnion(c: Cipher, keys: seq<Block>, cell: Cell): Cell {
    cell[..HEADER] + AddLayers(c, keys, cell[HEADER..])
  }

  function PeelOnion(c: Cipher, keys: seq<Block>, cell: Cell): Cell {
    cell[..HEADER] + PeelLayers(c, keys, cell[HEADER..])
  }

  /** The link key covers the whole cell. */
  function Seal(c: Cipher, linkKey: Block, cell: Cell): Cell {
    EncryptBuffer(c, linkKey, cell)
  }

  function Unseal(c: Cipher, linkKey: Block, wire: Cell): Cell {
    DecryptBuffer(c, linkKey, wire)
  }

  /** Layers taken off the bytes they preserve. */
  function PeelView(c: Cipher, keys: seq<Block>, v: View): View {
    v[..HEADER] + PeelLayers(c, keys, v[HEADER..])
  }

  /** 512 is a multiple of 16, so a link loses nothing. */
  lemma UnsealSeal(c: Cipher, linkKey: Block, cell: Cell)
    requires Lawful(c)
    ensures Unseal(c, linkKey, Seal(c, linkKey, cell)) == cell
  {
    BuffersCancel(c, linkKey, cell);
  }

  lemma WholePayload(cell: Cell)
    ensures Whole(cell[HEADER..]) == ViewOf(cell)[HEADER..]
  {
  }

  /** What peeling leaves in view depends on nothing out of view. */
  lemma PeelOnionView(c: Cipher, keys: seq<Block>, cell: Cell)
    ensures ViewOf(PeelOnion(c, keys, cell)) == PeelView(c, keys, ViewOf(cell))
  {
    var peeled := PeelOnion(c, keys, cell);
    LayersWhole(c, keys, cell[HEADER..]);
    WholePayload(cell);
    WholePayload(peeled);
    assert peeled[HEADER..] == PeelLayers(c, keys, cell[HEADER..]);
    assert ViewOf(peeled) == ViewOf(peeled)[..HEADER] + ViewOf(peeled)[HEADER..];
  }

  /** All but 13 bytes of a cell come back through any number of layers. */
  lemma OnionRoundTrip(c: Cipher, keys: seq<Block>, cell: Cell)
    requires Lawful(c)
    ensures PeelView(c, keys, ViewOf(AddOnion(c, keys, cell))) == ViewOf(cell)
  {
    var layered := AddOnion(c, keys, cell);
    PeelOnionView(c, keys, layered);
    LayersRoundTrip(c, keys, cell[HEADER..]);
    assert layered[HEADER..] == AddLayers(c, keys, cell[HEADER..]);
    var peeled := PeelOnion(c, keys, layered);
    assert peeled[HEADER..] == PeelLayers(c, keys, layered[HEADER..]);
    WholePayload(cell);
    WholePayload(peeled);
    assert ViewOf(peeled) == ViewOf(peeled)[..HEADER] + ViewOf(peeled)[HEADER..];
    assert ViewOf(cell) == ViewOf(cell)[..HEADER] + ViewOf(cell)[HEADER..];
  }

  lemma PeelViewSplit(c: Cipher, keys: seq<Block>, more: seq<Block>, v: View)
    ensures PeelView(c, keys + more, v) == PeelView(c, more, PeelView(c, keys, v))
  {
    PeelLayersSplit(c, keys, more, v[HEADER..]);
    assert PeelView(c, keys, v)[HEADER..] == PeelLayers(c, keys, v[HEADER..]);
  }

  lemma PeelViewNone(c: Cipher, v: View)
    ensures PeelView(c, [], v) == v
  {
    assert v[..HEADER] + v[HEADER..] == v;
  }

  // ---- The 13 bytes out of view

  /** The payload bytes after the last whole block. */
  function TailOf(cell: Cell): seq<Byte> {
    cell[VIEW_SIZE..]
  }

  lemma OneLayer(c: Cipher, key: Block, header: seq<Byte>, payload: seq<Byte>)
    requires |header| == HEADER && |payload| == 509
    ensures PeelOnion(c, [key], AddOnion(c, [key], header + payload)) ==
              header + DecryptBuffer(c, key, EncryptBuffer(c, key, payload))
  {
    hide DecryptBuffer, EncryptBuffer;
    assert (header + payload)[..HEADER] == header && (header + payload)[HEADER..] == payload;
    assert AddLayers(c, [key], payload) == EncryptBuffer(c, key, payload);
    var sent := EncryptBuffer(c, key, payload);
    assert (header + sent)[..HEADER] == header && (header + sent)[HEADER..] == sent;
    assert PeelLayers(c, [key], sent) == DecryptBuffer(c, key, sent);
  }

  lemma PayloadTail(cell: Cell)
    ensures cell == cell[..HEADER] + cell[HEADER..]
    ensures |cell[HEADER..]| == 509 && cell[HEADER..][WholeLength(509)..] == TailOf(cell)
  {
  }

  /** One layer gives a whole cell back exactly when some block that starts with its 13 last bytes encrypts to what is read for them. */
  lemma CellReturnsExactlyWhen(c: Cipher, key: Block, cell: Cell)
    requires Lawful(c)
    ensures PeelOnion(c, [key], AddOnion(c, [key], cell)) == cell <==> TailReturns(c, key, TailOf(cell))
  {
    hide DecryptBuffer, EncryptBuffer, TailReturns;
    var header, payload := cell[..HEADER], cell[HEADER..];
    PayloadTail(cell);
    OneLayer(c, key, header, payload);
    BufferReturnsExactlyWhen(c, key, payload);
    var got := DecryptBuffer(c, key, EncryptBuffer(c, key, payload));
    assert header + got == header + payload ==> got == (header + got)[HEADER..] == (header + payload)[HEADER..] == payload;
  }

  /** A cell put under layers and out of them again. */
  function Through(c: Cipher, keys: seq<Block>, cell: Cell): Cell {
    PeelOnion(c, keys, AddOnion(c, keys, cell))
  }

  /** Layers give back the view of a cell, and treat its last 13 bytes as if they were alone. */
  lemma ComesThrough(c: Cipher, keys: seq<Block>, cell: Cell)
    requires Lawful(c)
    ensures ViewOf(Through(c, keys, cell)) == ViewOf(cell)
    ensures TailOf(Through(c, keys, cell)) == PeelLayers(c, keys, AddLayers(c, keys, TailOf(cell)))
  {
    hide AddLayers, PeelLayers;
    var payload, tail := cell[HEADER..], TailOf(cell);
    PayloadTail(cell);
    assert payload == Whole(payload) + tail;
    AddLayersBeside(c, keys, Whole(payload), tail);
    PeelLayersBeside(c, keys, AddLayers(c, keys, Whole(payload)), AddLayers(c, keys, tail));
    LayersRoundTrip(c, keys, Whole(payload));
    var layered := AddOnion(c, keys, cell);
    assert layered[..HEADER] == cell[..HEADER] && layered[HEADER..] == AddLayers(c, keys, payload);
    var got := PeelLayers(c, keys, AddLayers(c, keys, tail));
    assert Through(c, keys, cell) == cell[..HEADER] + (Whole(payload) + got);
    assert ViewOf(cell) == cell[..HEADER] + Whole(payload);
  }

  /**
   * The 499 bytes in view and any number of the 13 after them come through exactly when a chain
   * of blocks, one a layer, leads from what is on the wire to those bytes; with all 13, it is the whole cell.
   */
  lemma ComesThroughExactlyWhen(c: Cipher, keys: seq<Block>, cell: Cell, n: nat)
    requires Lawful(c) && n <= TOR_MSG_SIZE - VIEW_SIZE
    ensures Through(c, keys, cell)[..VIEW_SIZE + n] == cell[..VIEW_SIZE + n]
       <==> TailRead(c, keys, AddLayers(c, keys, TailOf(cell)), TailOf(cell)[..n])
  {
    hide AddLayers, PeelLayers, TailRead, Through;
    ComesThrough(c, keys, cell);
    TailReadExactlyWhen(c, keys, AddLayers(c, keys, TailOf(cell)), TailOf(cell)[..n]);
    SameBeyondView(Through(c, keys, cell), cell, n);
  }

  lemma SameBeyondView(got: Cell, cell: Cell, n: nat)
    requires ViewOf(got) == ViewOf(cell) && n <= TOR_MSG_SIZE - VIEW_SIZE
    ensures got[..VIEW_SIZE + n] == cell[..VIEW_SIZE + n] <==> TailOf(got)[..n] == TailOf(cell)[..n]
  {
    assert got[..VIEW_SIZE + n] == ViewOf(got) + TailOf(got)[..n];
    assert cell[..VIEW_SIZE + n] == ViewOf(cell) + TailOf(cell)[..n];
    assert TailOf(got)[..n] == got[..VIEW_SIZE + n][VIEW_SIZE..] && TailOf(cell)[..n] == cell[..VIEW_SIZE + n][VIEW_SIZE..];
  }

  /** So a whole cell comes through any number of layers exactly when there is such a chain for all 13 bytes. */
  lemma LayeredCellReturnsExactlyWhen(c: Cipher, keys: seq<Block>, cell: Cell)
    requires Lawful(c)
    ensures Through(c, keys, cell) == cell <==> TailRead(c, keys, AddLayers(c, keys, TailOf(cell)), TailOf(cell))
  {
    hide AddLayers, TailRead, Through;
    ComesThroughExactlyWhen(c, keys, cell, TOR_MSG_SIZE - VIEW_SIZE);
    assert TailOf(cell)[..TOR_MSG_SIZE - VIEW_SIZE] == TailOf(cell);
    assert cell[..TOR_MSG_SIZE] == cell && Through(c, keys, cell)[..TOR_MSG_SIZE] == Through(c, keys, cell);
  }

  // ---- Layers of some of the relays

  lemma PeelOnionSplit(c: Cipher, keys: seq<Block>, more: seq<Block>, cell: Cell)
    ensures PeelOnion(c, keys + more, cell) == PeelOnion(c, more, PeelOnion(c, keys, cell))
  {
    PeelLayersSplit(c, keys, more, cell[HEADER..]);
    assert PeelOnion(c, keys, cell)[HEADER..] == PeelLayers(c, keys, cell[HEADER..]);
  }

  lemma AddOnionSplit(c: Cipher, keys: seq<Block>, more: seq<Block>, cell: Cell)
    ensures AddOnion(c, keys + more, cell) == AddOnion(c, keys, AddOnion(c, more, cell))
  {
    AddLayersSplit(c, keys, more, cell[HEADER..]);
    assert AddOnion(c, more, cell)[HEADER..] == AddLayers(c, more, cell[HEADER..]);
  }

  lemma NoLayers(c: Cipher, cell: Cell)
    ensures PeelOnion(c, [], cell) == AddOnion(c, [], cell) == cell
  {
    assert cell[..HEADER] + cell[HEADER..] == cell;
  }
}
