/**
 * The directory's table of relays, server/services/relay_manager.c: ids from a free
 * stack, arrays that double, and a cyclic scan that hands out batches. Each operation
 * holds one mutex throughout, so every interleaving of threads is a run of operations.
 */
module RelayManager {
  import opened Arithmetic

  const RELAY_ITEMS_MIN_LENGTH := 2
  const RELAY_STACK_MIN_LENGTH := 1

  datatype RelayData<+D> = RelayData(descriptor: D, relayId: nat)

  datatype Item<+D> = Absent | Exists(data: RelayData<D>)

  /** The manager's variables: `next` is `max_item_index`, `free` the used part of the stack of removed ids. */
  datatype Manager<+D> = Manager(items: seq<Item<D>>, next: nat, free: seq<nat>)

  function Live<D>(m: Manager<D>): set<nat> {
    set id | 0 <= id < |m.items| && m.items[id].Exists?
  }

  function Distinct(s: seq<nat>): bool {
    forall i, j | 0 <= i < j < |s| :: s[i] != s[j]
  }

  /** What every operation keeps. */
  predicate Sound<D>(m: Manager<D>) {
    && m.next <= |m.items| && |m.items| > 0
    // each live slot carries its own id, and slots never handed out are not live
    && (forall id | 0 <= id < |m.items| && m.items[id].Exists? :: id < m.next && m.items[id].data.relayId == id)
    // the free stack holds, without repeats, exactly the ids handed out and not live
    && Distinct(m.free)
    && (forall id | 0 <= id < m.next :: m.items[id].Exists? <==> id !in m.free)
    && (forall id | id in m.free :: id < m.next)
  }

  // ---- Counting

  function IdsBelow(n: nat): (s: set<nat>)
    ensures |s| == n
    ensures forall id: nat :: id in s <==> id < n
  {
    if n == 0 then {} else IdsBelow(n - 1) + {n - 1}
  }

  function Elements(s: seq<nat>): (e: set<nat>) {
    set x | x in s
  }

  lemma {:induction false} DistinctCount(s: seq<nat>)
    requires Distinct(s)
    ensures |Elements(s)| == |s|
  {
    if s == [] {
    } else {
      var rest := s[..|s| - 1];
      DistinctCount(rest);
      assert s == rest + [s[|s| - 1]];
      assert Elements(s) == Elements(rest) + {s[|s| - 1]};
      assert s[|s| - 1] !in rest;
    }
  }

  /** Ids handed out so far are the live ones and those on the free stack. */
  lemma LiveAndFree<D>(m: Manager<D>)
    requires Sound(m)
    ensures |Live(m)| + |m.free| == m.next
  {
    DistinctCount(m.free);
    assert Live(m) + Elements(m.free) == IdsBelow(m.next);
    assert Live(m) !! Elements(m.free);
  }

  // ---- The operations as functions

  function InitManager<D>(): Manager<D> {
    Manager([Absent, Absent], 0, [])
  }

  function Doubled<D>(items: seq<Item<D>>): seq<Item<D>> {
    items + seq(|items|, _ => Absent)
  }

  /** `gen_relay`: the new state and the id of the new relay, whose descriptor is all zeros. */
  function AfterGen<D>(m: Manager<D>, zero: D): (Manager<D>, nat)
    requires Sound(m)
  {
    if m.free == [] then
      var items := if |m.items| <= m.next then Doubled(m.items) else m.items;
      (Manager(items[m.next := Exists(RelayData(zero, m.next))], m.next + 1, []), m.next)
    else
      var id := m.free[|m.free| - 1];
      assert id in m.free;
      (Manager(m.items[id := Exists(RelayData(zero, id))], m.next, m.free[..|m.free| - 1]), id)
  }

  /** `remove_relay`; for an id past the table the source first reads out of bounds, but then does nothing either way. */
  function AfterRemove<D>(m: Manager<D>, id: nat): (Manager<D>, bool) {
    if id >= |m.items| || m.items[id].Absent? then (m, false)
    else (Manager(m.items[id := Absent], m.next, m.free + [id]), true)
  }

  function Lookup<D>(m: Manager<D>, id: nat): Item<D> {
    if id < |m.items| then m.items[id] else Absent
  }

  /** A new relay gets an id that was not live; all other entries stay, also when the table doubles. */
  lemma GenKeeps<D>(m: Manager<D>, zero: D)
    requires Sound(m)
    ensures var (m', id) := AfterGen(m, zero);
            && Sound(m')
            && id !in Live(m) && Live(m') == Live(m) + {id}
            && Lookup(m', id) == Exists(RelayData(zero, id))
            && forall other: nat | other != id :: Lookup(m', other) == Lookup(m, other)
  {
    var (m', id) := AfterGen(m, zero);
    if m.free == [] {
    } else {
      assert m.free == m'.free + [id];
      assert id in m.free;
      assert forall x :: x in m.free <==> x in m'.free || x == id;
    }
  }

  lemma RemoveKeeps<D>(m: Manager<D>, id: nat)
    requires Sound(m)
    ensures var (m', removed) := AfterRemove(m, id);
            && Sound(m')
            && removed == (id in Live(m)) && Live(m') == Live(m) - {id}
            && forall other: nat | other != id :: Lookup(m', other) == Lookup(m, other)
  {
  }

  /** Ids are handed out again last removed first: a new relay gets the id of the one removed last, and the stack is as before. */
  lemma RemovedLastIsFirst<D>(m: Manager<D>, id: nat, zero: D)
    requires Sound(m) && AfterRemove(m, id).1
    ensures var removed := AfterRemove(m, id).0;
            && Sound(removed)
            && AfterGen(removed, zero) == (m.(items := m.items[id := Exists(RelayData(zero, id))]), id)
  {
    RemoveKeeps(m, id);
    var removed := AfterRemove(m, id).0;
    assert removed.free[|removed.free| - 1] == id && removed.free[..|removed.free| - 1] == m.free;
    assert m.items[id := Absent][id := Exists(RelayData(zero, id))] == m.items[id := Exists(RelayData(zero, id))];
  }

  /** With no id to hand out again a new relay gets the next one that never was. */
  lemma NeverRemovedIsNext<D>(m: Manager<D>, zero: D)
    requires Sound(m) && m.free == []
    ensures AfterGen(m, zero).1 == m.next == |Live(m)| && AfterGen(m, zero).0.free == []
  {
    LiveAndFree(m);
  }

  // ---- Runs

  datatype Op = Gen | Remove(id: nat)

  function Apply<D>(m: Manager<D>, op: Op, zero: D): Manager<D>
    requires Sound(m)
  {
    match op
    case Gen => AfterGen(m, zero).0
    case Remove(id) => AfterRemove(m, id).0
  }

  /** The most relays that were ever live at once in a run. */
  function Peak<D>(ops: seq<Op>, zero: D): nat {
    if ops == [] then 0
    else
      var before, now := Peak(ops[..|ops| - 1], zero), |Live(After(ops, zero))|;
      if before < now then now else before
  }

  function After<D>(ops: seq<Op>, zero: D): (m: Manager<D>)
    ensures Sound(m)
  {
    if ops == [] then
      assert Sound(InitManager<D>());
      InitManager()
    else
      var before := After(ops[..|ops| - 1], zero);
      AppliedIsSound(before, ops[|ops| - 1], zero);
      Apply(before, ops[|ops| - 1], zero)
  }

  lemma AppliedIsSound<D>(m: Manager<D>, op: Op, zero: D)
    requires Sound(m)
    ensures Sound(Apply(m, op, zero))
  {
    match op
    case Gen => GenKeeps(m, zero);
    case Remove(id) => RemoveKeeps(m, id);
  }

  /** What a history of operations calls for, without any table: the ids in use, and those to hand out again, last removed last. */
  datatype Ids = Ids(live: set<nat>, free: seq<nat>)

  function Answer(ids: Ids): nat {
    if ids.free == [] then |ids.live| else ids.free[|ids.free| - 1]
  }

  function Expected(ops: seq<Op>): Ids {
    if ops == [] then Ids({}, [])
    else
      var before := Expected(ops[..|ops| - 1]);
      match ops[|ops| - 1]
      case Gen =>
        Ids(before.live + {Answer(before)}, if before.free == [] then [] else before.free[..|before.free| - 1])
      case Remove(id) =>
        if id in before.live then Ids(before.live - {id}, before.free + [id]) else before
  }

  /** In every run the ids in use and the free stack, in its order, are what the history calls for, and so is the answer of the next `gen_relay`. */
  lemma {:induction false} RunKeepsOrder<D>(ops: seq<Op>, zero: D)
    ensures var m := After(ops, zero);
            && Live(m) == Expected(ops).live && m.free == Expected(ops).free
            && AfterGen(m, zero).1 == Answer(Expected(ops))
    decreases |ops|
  {
    hide Sound, Live;
    if ops == [] {
      NothingLive<D>();
    } else {
      var before, op := ops[..|ops| - 1], ops[|ops| - 1];
      RunKeepsOrder(before, zero);
      match op
      case Gen => GenKeeps(After(before, zero), zero);
      case Remove(id) => RemoveKeeps(After(before, zero), id);
    }
    LiveAndFree(After(ops, zero));
  }

  lemma NothingLive<D>()
    ensures Live(InitManager<D>()) == {}
  {
  }

  /** The table never hands out more ids than were needed: `max_item_index` is the peak number of live relays. */
  lemma {:induction false} NextIsPeak<D>(ops: seq<Op>, zero: D)
    ensures After(ops, zero).next == Peak(ops, zero)
    decreases |ops|
  {
    hide Sound, AfterGen, AfterRemove, Live;
    if ops == [] {
    } else {
      var before, op := ops[..|ops| - 1], ops[|ops| - 1];
      NextIsPeak(before, zero);
      PeakStep(After(before, zero), op, zero);
      LiveAndFree(After(before, zero));
      LiveAndFree(After(ops, zero));
    }
  }

  lemma PeakStep<D>(m: Manager<D>, op: Op, zero: D)
    requires Sound(m)
    ensures var m' := Apply(m, op, zero);
            (m'.next == m.next || (m'.next == m.next + 1 && m'.free == [])) && Sound(m')
  {
    AppliedIsSound(m, op, zero);
  }

  /** The least power of two, and at least 2, with room for n ids. */
  function Room(n: nat): (r: nat)
    ensures r >= n && r >= 2 && (r == 2 || r < 2 * n)
  {
    if n <= 2 then 2 else 2 * Room((n + 1) / 2)
  }

  lemma {:induction false} RoomForOneMore(n: nat)
    ensures Room(n + 1) == if Room(n) == n then 2 * n else Room(n)
  {
    if n > 2 {
      RoomForOneMore((n - 1) / 2);
      RoomForOneMore((n + 1) / 2);
    }
  }

  /** In every run the table is as long as the least power of two that holds all ids ever in use at once. */
  lemma {:induction false} RunKeepsRoom<D>(ops: seq<Op>, zero: D)
    ensures |After(ops, zero).items| == Room(Peak(ops, zero))
    decreases |ops|
  {
    hide Sound, Apply, Peak;
    NextIsPeak(ops, zero);
    if ops != [] {
      var before, op := ops[..|ops| - 1], ops[|ops| - 1];
      RunKeepsRoom(before, zero);
      NextIsPeak(before, zero);
      SizeStep(After(before, zero), op, zero);
      RoomForOneMore(After(before, zero).next);
    }
  }

  lemma SizeStep<D>(m: Manager<D>, op: Op, zero: D)
    requires Sound(m)
    ensures var m' := Apply(m, op, zero);
            && (m'.next == m.next || m'.next == m.next + 1)
            && |m'.items| == if m'.next > m.next && |m.items| == m.next then 2 * |m.items| else |m.items|
  {
    match op
    case Gen =>
      GenKeeps(m, zero);
      assert |Doubled(m.items)| == 2 * |m.items|;
    case Remove(id) =>
  }

  // ---- Batches

  /** `(i + 1) % items_length` */
  function Next(i: nat, n: nat): (r: nat)
    requires i < n
    ensures r == if i + 1 < n then i + 1 else 0
  {
    (i + 1) % n
  }

  /** One turn of the loop in `get_relay_batch` after another, `count` of them at most. */
  function Scan<D>(items: seq<Item<D>>, i: nat, count: nat, max: nat): (r: (seq<nat>, nat))
    requires i < |items|
    ensures r.1 < |items|
    decreases count
  {
    if max == 0 || count == 0 then ([], i)
    else
      var next := Next(i, |items|);
      if items[i].Exists? then
        var (ids, cursor) := Scan(items, next, count - 1, max - 1);
        ([i] + ids, cursor)
      else
        Scan(items, next, count - 1, max)
  }

  lemma ScanStep<D>(items: seq<Item<D>>, i: nat, count: nat, max: nat)
    requires i < |items| && max > 0 && count > 0
    ensures var next := Next(i, |items|);
            Scan(items, i, count, max) ==
              if items[i].Exists? then
                ([i] + Scan(items, next, count - 1, max - 1).0, Scan(items, next, count - 1, max - 1).1)
              else Scan(items, next, count - 1, max)
  {
    hide Next;
  }

  lemma ScanEnds<D>(items: seq<Item<D>>, i: nat, count: nat, max: nat)
    requires i < |items| && (max == 0 || count == 0)
    ensures Scan(items, i, count, max) == ([], i)
  {
  }

  /** `get_relay_batch`: the ids it copies descriptors of, and the new cursor. */
  function Batch<D>(items: seq<Item<D>>, start: nat, max: nat): (seq<nat>, nat)
    requires |items| > 0
  {
    Scan(items, start % |items|, |items|, max)
  }

  /** The live ids among `count` slots from slot i on, around the end of the table. */
  function LiveFrom<D>(items: seq<Item<D>>, i: nat, count: nat): seq<nat>
    requires i < |items|
    decreases count
  {
    if count == 0 then []
    else (if items[i].Exists? then [i] else []) + LiveFrom(items, Next(i, |items|), count - 1)
  }

  /** All live ids in cyclic order from a cursor. */
  function Cycle<D>(items: seq<Item<D>>, i: nat): seq<nat>
    requires i < |items|
  {
    LiveFrom(items, i, |items|)
  }

  lemma {:induction false} ScanTakes<D>(items: seq<Item<D>>, i: nat, count: nat, max: nat)
    requires i < |items|
    ensures var all := LiveFrom(items, i, count);
            Scan(items, i, count, max).0 == all[..Min(max, |all|)]
    decreases count
  {
    hide Next;
    if max == 0 || count == 0 {
    } else if items[i].Exists? {
      ScanTakes(items, Next(i, |items|), count - 1, max - 1);
    } else {
      ScanTakes(items, Next(i, |items|), count - 1, max);
    }
  }

  /** Slot k places after slot i. */
  function Step(i: nat, k: nat, n: nat): (r: nat)
    requires i < n && k <= n
    ensures r < n
  {
    if i + k < n then i + k else i + k - n
  }

  lemma {:induction false} LiveFromSplit<D>(items: seq<Item<D>>, i: nat, a: nat, b: nat)
    requires i < |items| && a <= |items|
    ensures LiveFrom(items, i, a + b) == LiveFrom(items, i, a) + LiveFrom(items, Step(i, a, |items|), b)
    decreases a
  {
    hide Next;
    if a > 0 {
      LiveFromSplit(items, Step(i, 1, |items|), a - 1, b);
    }
  }

  /** Going around once from anywhere meets the same live slots: those after the cursor, then those before it. */
  lemma CycleRotates<D>(items: seq<Item<D>>, i: nat)
    requires i < |items|
    ensures Cycle(items, 0) == LiveFrom(items, 0, i) + LiveFrom(items, i, |items| - i)
    ensures Cycle(items, i) == LiveFrom(items, i, |items| - i) + LiveFrom(items, 0, i)
  {
    LiveFromSplit(items, 0, i, |items| - i);
    LiveFromSplit(items, i, |items| - i, i);
  }

  lemma {:induction false} LiveFromAscends<D>(items: seq<Item<D>>, i: nat, count: nat)
    requires i < |items| && i + count <= |items|
    ensures var ids := LiveFrom(items, i, count);
            && (forall id: nat :: id in ids <==> i <= id < i + count && items[id].Exists?)
            && (forall j, k | 0 <= j < k < |ids| :: ids[j] < ids[k])
    decreases count
  {
    hide Next;
    if count > 0 && i + 1 < |items| {
      LiveFromAscends(items, i + 1, count - 1);
      Prepended(items, i, count, LiveFrom(items, i + 1, count - 1), LiveFrom(items, i, count));
    }
  }

  lemma Prepended<D>(items: seq<Item<D>>, i: nat, count: nat, rest: seq<nat>, ids: seq<nat>)
    requires 0 < count && i + count <= |items|
    requires ids == (if items[i].Exists? then [i] else []) + rest
    requires forall id: nat :: id in rest <==> i + 1 <= id < i + count && items[id].Exists?
    requires forall j, k | 0 <= j < k < |rest| :: rest[j] < rest[k]
    ensures forall id: nat :: id in ids <==> i <= id < i + count && items[id].Exists?
    ensures forall j, k | 0 <= j < k < |ids| :: ids[j] < ids[k]
  {
    assert forall k | 0 <= k < |rest| :: rest[k] in rest;
    if items[i].Exists? {
      assert forall k | 0 < k < |ids| :: ids[k] == rest[k - 1];
    }
  }

  lemma DistinctSum(a: seq<nat>, b: seq<nat>)
    requires Distinct(a) && Distinct(b)
    requires forall x :: !(x in a && x in b)
    ensures Distinct(a + b)
  {
    forall i, j | 0 <= i < j < |a + b|
      ensures (a + b)[i] != (a + b)[j]
    {
      if i < |a| <= j {
        assert a[i] in a && b[j - |a|] in b;
      }
    }
  }

  /** A cycle lists every live id once. */
  lemma CycleIsLive<D>(m: Manager<D>, i: nat)
    requires i < |m.items|
    ensures Distinct(Cycle(m.items, i)) && Elements(Cycle(m.items, i)) == Live(m) && |Cycle(m.items, i)| == |Live(m)|
  {
    hide LiveFrom;
    CycleRotates(m.items, i);
    LiveFromAscends(m.items, 0, i);
    LiveFromAscends(m.items, i, |m.items| - i);
    DistinctSum(LiveFrom(m.items, i, |m.items| - i), LiveFrom(m.items, 0, i));
    DistinctCount(Cycle(m.items, i));
  }

  /**
   * A batch is the first min(max, live) live ids in cyclic order from the cursor, each
   * once; the number it reports is how many there are.
   */
  lemma BatchIsCyclic<D>(m: Manager<D>, start: nat, max: nat)
    requires |m.items| > 0
    ensures var ids := Batch(m.items, start, max).0;
            && ids <= Cycle(m.items, start % |m.items|)
            && |ids| == Min(max, |Live(m)|)
            && Distinct(ids)
            && (forall id | id in ids :: id in Live(m))
  {
    var i := start % |m.items|;
    CycleIsLive(m, i);
    ScanTakes(m.items, i, |m.items|, max);
    var ids := Batch(m.items, start, max).0;
    assert ids == Cycle(m.items, i)[..Min(max, |Live(m)|)];
    assert forall id | id in ids :: id in Elements(Cycle(m.items, i));
  }

  /** Where a scan stops: after `used` slots, with all that is live among them found. */
  lemma {:induction false} ScanUses<D>(items: seq<Item<D>>, i: nat, count: nat, max: nat) returns (used: nat)
    requires i < |items| && count <= |items|
    ensures used <= count
    ensures Scan(items, i, count, max).0 == LiveFrom(items, i, used)
    ensures Scan(items, i, count, max).1 == Step(i, used, |items|)
    ensures |LiveFrom(items, i, used)| < max ==> used == count
    decreases count
  {
    hide Next;
    if max == 0 || count == 0 {
      used := 0;
    } else {
      var next := Step(i, 1, |items|);
      var rest := ScanUses(items, next, count - 1, if items[i].Exists? then max - 1 else max);
      used := rest + 1;
    }
  }

  /**
   * As long as a + b relays are live, a batch of a and then a batch of b from where it
   * stopped are one batch of a + b.
   */
  lemma BatchesCompose<D>(m: Manager<D>, start: nat, a: nat, b: nat)
    requires |m.items| > 0 && a + b <= |Live(m)|
    ensures var (first, cursor) := Batch(m.items, start, a);
            first + Batch(m.items, cursor, b).0 == Batch(m.items, start, a + b).0
  {
    hide Scan, LiveFrom, Distinct, Live;
    var n := |m.items|;
    var i := start % n;
    var used := ScanUses(m.items, i, n, a);
    var (first, cursor) := Batch(m.items, start, a);
    SmallRemainder(cursor, n);
    BatchIsCyclic(m, start, a);
    BatchIsCyclic(m, start, a + b);
    BatchIsCyclic(m, cursor, b);
    CycleIsLive(m, i);
    LiveFromSplit(m.items, i, used, n - used);
    LiveFromSplit(m.items, cursor, n - used, used);
    var rest := LiveFrom(m.items, cursor, n - used);
    PrefixesCompose(first, rest, LiveFrom(m.items, Step(cursor, n - used, n), used),
                    Batch(m.items, cursor, b).0, Batch(m.items, start, a + b).0);
  }

  lemma SmallRemainder(x: nat, n: nat)
    requires x < n
    ensures x % n == x
  {
  }

  lemma PrefixesCompose(first: seq<nat>, rest: seq<nat>, tail: seq<nat>, second: seq<nat>, both: seq<nat>)
    requires second <= rest + tail && |second| <= |rest|
    requires both <= first + rest && |both| == |first| + |second|
    ensures first + second == both
  {
    assert second == rest[..|second|];
  }

  function Descriptors<D>(items: seq<Item<D>>, ids: seq<nat>): seq<D>
    requires forall id | id in ids :: id < |items| && items[id].Exists?
  {
    seq(|ids|, k requires 0 <= k < |ids| => assert ids[k] in ids; items[ids[k]].data.descriptor)
  }

  // ---- The arrays and counters the source keeps

  class RelayTable<D(0)> {
    const zero: D  // a descriptor of zero bytes
    var items: array<Item<D>>
    var maxItemIndex: nat
    var removedIdStack: array<nat>
    var maxStackIndex: nat

    predicate InBounds()
      reads this
    {
      maxStackIndex <= removedIdStack.Length && removedIdStack.Length > 0
    }

    function State(): Manager<D>
      requires InBounds()
      reads this, items, removedIdStack
    {
      Manager(items[..], maxItemIndex, removedIdStack[..maxStackIndex])
    }

    predicate Valid()
      reads this, items, removedIdStack
    {
      InBounds() && Sound(State())
    }

    /** `init_relay_manager` */
    constructor (zero: D)
      ensures Valid() && fresh(items) && fresh(removedIdStack)
      ensures State() == InitManager() && this.zero == zero
    {
      this.zero := zero;
      items := new Item<D>[RELAY_ITEMS_MIN_LENGTH](_ => Absent);
      maxItemIndex := 0;
      removedIdStack := new nat[RELAY_STACK_MIN_LENGTH];
      maxStackIndex := 0;
      new;
      assert items[..] == [Absent, Absent];
    }

    /** `gen_relay` */
    method GenRelay() returns (id: nat)
      requires Valid()
      modifies this, items
      ensures Valid() && (items == old(items) || fresh(items)) && removedIdStack == old(removedIdStack)
      ensures (State(), id) == AfterGen(old(State()), zero)
      ensures id !in Live(old(State())) && Live(State()) == Live(old(State())) + {id}
      ensures if old(State()).free == [] then id == old(maxItemIndex) && State().free == []
              else old(State()).free == State().free + [id]
    {
      GenKeeps(State(), zero);
      hide Sound, Live;
      ghost var stack := removedIdStack[..maxStackIndex];
      if maxStackIndex == 0 {
        assert stack == [];
        if items.Length <= maxItemIndex {
          GrowItems();
        }
        id := maxItemIndex;
        MaxItemInBounds(old(State()));
        items[id] := Exists(RelayData(zero, id));
        maxItemIndex := maxItemIndex + 1;
      } else {
        maxStackIndex := maxStackIndex - 1;
        id := removedIdStack[maxStackIndex];
        FreeInBounds(old(State()), maxStackIndex);
        assert removedIdStack[..maxStackIndex] == stack[..|stack| - 1];
        items[id] := Exists(RelayData(zero, id));
      }
    }

    lemma MaxItemInBounds(m: Manager<D>)
      requires Sound(m)
      ensures m.next <= |m.items| && |m.items| > 0
    {
    }

    lemma FreeInBounds(m: Manager<D>, k: nat)
      requires Sound(m) && k < |m.free|
      ensures m.free[k] < |m.items|
    {
      assert m.free[k] in m.free;
    }

    method GrowItems()
      modifies this`items
      ensures fresh(items) && items[..] == Doubled(old(items[..]))
    {
      var newItems := new Item<D>[2 * items.Length](_ => Absent);
      for i := 0 to items.Length
        invariant items == old(items) && items[..] == old(items[..])
        invariant newItems[..i] == items[..i]
        invariant forall j | i <= j < newItems.Length :: newItems[j] == Absent
      {
        newItems[i] := items[i];
      }
      assert newItems[..items.Length] == items[..];
      assert newItems[..] == newItems[..items.Length] + newItems[items.Length..];
      items := newItems;
    }

    method GrowStack()
      requires InBounds()
      modifies this`removedIdStack
      ensures fresh(removedIdStack) && removedIdStack.Length == 2 * old(removedIdStack.Length)
      ensures removedIdStack[..maxStackIndex] == old(removedIdStack[..maxStackIndex])
    {
      var newStack := new nat[2 * removedIdStack.Length];
      for i := 0 to removedIdStack.Length
        invariant removedIdStack == old(removedIdStack) && removedIdStack[..] == old(removedIdStack[..])
        invariant newStack[..i] == removedIdStack[..i]
      {
        newStack[i] := removedIdStack[i];
      }
      assert newStack[..maxStackIndex] == newStack[..removedIdStack.Length][..maxStackIndex] == removedIdStack[..maxStackIndex];
      removedIdStack := newStack;
    }

    /** `remove_relay` */
    method RemoveRelay(id: nat) returns (removed: bool)
      requires Valid()
      modifies this, items, removedIdStack
      ensures Valid() && items == old(items) && (removedIdStack == old(removedIdStack) || fresh(removedIdStack))
      ensures (State(), removed) == AfterRemove(old(State()), id)
      ensures Live(State()) == Live(old(State())) - {id}
      ensures State().free == if removed then old(State()).free + [id] else old(State()).free
    {
      RemoveKeeps(State(), id);
      hide Sound, Live;
      if id >= items.Length || items[id].Absent? {
        return false;
      }
      items[id] := Absent;
      if maxStackIndex >= removedIdStack.Length {
        GrowStack();
      }
      ghost var stack := removedIdStack[..maxStackIndex];
      removedIdStack[maxStackIndex] := id;
      maxStackIndex := maxStackIndex + 1;
      assert removedIdStack[..maxStackIndex] == stack + [id];
      return true;
    }

    /** `get_relay` */
    method GetRelay(id: nat) returns (relay: Item<D>)
      requires Valid()
      ensures relay == Lookup(State(), id)
      ensures relay.Exists? <==> id in Live(State())
      ensures relay.Exists? ==> relay.data.relayId == id
    {
      relay := if id < items.Length && items[id].Exists? then items[id] else Absent;
    }

    /** `get_relay_batch`; the cursor is passed back instead of being overwritten. */
    method GetRelayBatch(out: array<D>, start: nat, max: nat) returns (found: nat, cursor: nat)
      requires Valid() && max <= out.Length && (out as object) != items
      modifies out
      ensures var (ids, next) := Batch(State().items, start, max);
              && found == |ids| <= out.Length && cursor == next
              && (forall id | id in ids :: id < |State().items| && State().items[id].Exists?)
              && out[..found] == Descriptors(State().items, ids)
    {
      BatchIsCyclic(State(), start, max);
      hide LiveFrom, Next, Step, Scan, Live, Sound;
      ghost var table := items[..];
      ghost var all := Batch(table, start, max);
      ghost var done: seq<nat> := [];
      found := 0;
      cursor := start % items.Length;
      var count := 0;
      while found < max && count < items.Length
        invariant count <= items.Length && found == |done| <= max && cursor < items.Length
        invariant items[..] == table
        invariant Awaits(table, all, done, cursor, items.Length - count, max - found)
        invariant Copied(table, done, out[..found])
        decreases items.Length - count
      {
        BatchStep(table, all, done, cursor, items.Length - count, max - found);
        hide Awaits, Copied;
        if items[cursor].Exists? {
          ghost var copied := out[..found];
          assert table[cursor] == items[cursor];
          out[found] := items[cursor].data.descriptor;
          CopiesOne(table, done, cursor, copied);
          done := done + [cursor];
          found := found + 1;
          assert out[..found] == copied + [out[found - 1]];
        }
        cursor := Next(cursor, items.Length);
        count := count + 1;
      }
      BatchEnds(table, all, done, cursor, items.Length - count, max - found, out[..found]);
    }

    /** The loop of `get_relay_batch` has found `done` and a scan from the cursor completes the batch. */
    ghost predicate Awaits(table: seq<Item<D>>, all: (seq<nat>, nat), done: seq<nat>, cursor: nat, count: nat, max: nat)
      requires cursor < |table|
    {
      var rest := Scan(table, cursor, count, max);
      done + rest.0 == all.0 && rest.1 == all.1
    }

    ghost predicate Copied(table: seq<Item<D>>, ids: seq<nat>, copies: seq<D>) {
      && (forall id | id in ids :: id < |table| && table[id].Exists?)
      && copies == Descriptors(table, ids)
    }

    lemma BatchStep(table: seq<Item<D>>, all: (seq<nat>, nat), done: seq<nat>, cursor: nat, count: nat, max: nat)
      requires cursor < |table| && max > 0 && count > 0
      requires Awaits(table, all, done, cursor, count, max)
      ensures var next := Next(cursor, |table|);
              if table[cursor].Exists? then Awaits(table, all, done + [cursor], next, count - 1, max - 1)
              else Awaits(table, all, done, next, count - 1, max)
    {
      ScanStep(table, cursor, count, max);
      hide Scan, Next;
      if table[cursor].Exists? {
        var rest := Scan(table, Next(cursor, |table|), count - 1, max - 1).0;
        assert done + ([cursor] + rest) == done + [cursor] + rest;
      }
    }

    lemma CopiesOne(table: seq<Item<D>>, ids: seq<nat>, id: nat, copies: seq<D>)
      requires Copied(table, ids, copies) && id < |table| && table[id].Exists?
      ensures Copied(table, ids + [id], copies + [table[id].data.descriptor])
    {
    }

    lemma BatchEnds(table: seq<Item<D>>, all: (seq<nat>, nat), done: seq<nat>, cursor: nat, count: nat, max: nat, copies: seq<D>)
      requires cursor < |table| && (max == 0 || count == 0)
      requires Awaits(table, all, done, cursor, count, max) && Copied(table, done, copies)
      ensures all == (done, cursor)
      ensures (forall id | id in all.0 :: id < |table| && table[id].Exists?) && copies == Descriptors(table, all.0)
    {
      ScanEnds(table, cursor, count, max);
      assert done + [] == done;
    }
  }
}
