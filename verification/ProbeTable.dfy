/**
 * The open-addressing table that the relays keep their sockets in and the client its
 * streams: linear probing, and a tombstone for every removed entry. Read as a map from
 * ids to stacks of values it is exact with no condition on its callers.
 */
module ProbeTable {

  const HASHMAP_AMOUNT := 2048

  type StreamId = x: nat | x < 0x1_0000

  datatype Option<+T> = None | Some(value: T)

  datatype Slot<+V> = Empty | Filled(id: StreamId, value: V) | Deleted

  type Table<+V> = t: seq<Slot<V>> | |t| == HASHMAP_AMOUNT witness seq(2048, _ => Empty)

  /** The slot that a search for `id` looks at after d others. */
  function SlotAt(id: StreamId, d: nat): (p: nat)
    requires d <= HASHMAP_AMOUNT
    ensures p < HASHMAP_AMOUNT
  {
    var home := id % HASHMAP_AMOUNT;
    if home + d < HASHMAP_AMOUNT then home + d else home + d - HASHMAP_AMOUNT
  }

  /** After how many others a search for `id` comes to slot p. */
  function Distance(id: StreamId, p: nat): (d: nat)
    requires p < HASHMAP_AMOUNT
    ensures d < HASHMAP_AMOUNT && SlotAt(id, d) == p
    ensures forall e: nat | e < HASHMAP_AMOUNT && SlotAt(id, e) == p :: e == d
  {
    var home := id % HASHMAP_AMOUNT;
    if home <= p then p - home else p + HASHMAP_AMOUNT - home
  }

  predicate HasId<V>(slot: Slot<V>, id: StreamId) {
    slot.Filled? && slot.id == id
  }

  // ---- The three searches, from probe d on

  /** Where an insert of `id` would write: the first slot not filled, unless an entry of that id comes before it. */
  function InsertPlace<V>(t: Table<V>, id: StreamId, d: nat): Option<nat>
    requires d <= HASHMAP_AMOUNT
    decreases HASHMAP_AMOUNT - d
  {
    if d == HASHMAP_AMOUNT then None
    else if !t[SlotAt(id, d)].Filled? then Some(SlotAt(id, d))
    else if t[SlotAt(id, d)].id == id then None
    else InsertPlace(t, id, d + 1)
  }

  /** The first entry of `id` before the first slot that was never used. */
  function FindPlace<V>(t: Table<V>, id: StreamId, d: nat): Option<nat>
    requires d <= HASHMAP_AMOUNT
    decreases HASHMAP_AMOUNT - d
  {
    if d == HASHMAP_AMOUNT || t[SlotAt(id, d)].Empty? then None
    else if HasId(t[SlotAt(id, d)], id) then Some(SlotAt(id, d))
    else FindPlace(t, id, d + 1)
  }

  // ---- The table as a map to stacks

  /** The values of the entries of `id`, in the order a search meets them. */
  function StackFrom<V>(t: Table<V>, id: StreamId, d: nat): seq<V>
    requires d <= HASHMAP_AMOUNT
    decreases HASHMAP_AMOUNT - d
  {
    if d == HASHMAP_AMOUNT then []
    else if HasId(t[SlotAt(id, d)], id) then [t[SlotAt(id, d)].value] + StackFrom(t, id, d + 1)
    else StackFrom(t, id, d + 1)
  }

  function Stack<V>(t: Table<V>, id: StreamId): seq<V> {
    StackFrom(t, id, 0)
  }

  /** No entry lies beyond an unused slot of its own search. */
  ghost predicate Searchable<V>(t: Table<V>) {
    forall p, d: nat | 0 <= p < HASHMAP_AMOUNT && t[p].Filled? && d < Distance(t[p].id, p) :: !t[SlotAt(t[p].id, d)].Empty?
  }

  predicate Full<V>(t: Table<V>) {
    forall p | 0 <= p < HASHMAP_AMOUNT :: t[p].Filled?
  }

  /** An entry of `id` stands before every free slot of its search. */
  predicate Blocked<V>(t: Table<V>, id: StreamId) {
    exists d: nat | d < HASHMAP_AMOUNT ::
      HasId(t[SlotAt(id, d)], id) && forall e: nat | e < d :: t[SlotAt(id, e)].Filled?
  }

  lemma {:induction false} StackIgnores<V>(t: Table<V>, p: nat, slot: Slot<V>, id: StreamId, d: nat)
    requires p < HASHMAP_AMOUNT && d <= HASHMAP_AMOUNT
    requires (!HasId(t[p], id) && !HasId(slot, id)) || d > Distance(id, p)
    ensures StackFrom(t[p := slot], id, d) == StackFrom(t, id, d)
    decreases HASHMAP_AMOUNT - d
  {
    if d < HASHMAP_AMOUNT {
      StackIgnores(t, p, slot, id, d + 1);
    }
  }

  lemma {:induction false} StackSkips<V>(t: Table<V>, id: StreamId, d: nat, e: nat)
    requires d <= e <= HASHMAP_AMOUNT
    requires forall i: nat | d <= i < e :: !HasId(t[SlotAt(id, i)], id)
    ensures StackFrom(t, id, d) == StackFrom(t, id, e)
    decreases e - d
  {
    if d < e {
      StackSkips(t, id, d + 1, e);
    }
  }

  lemma {:induction false} InsertPlaceIs<V>(t: Table<V>, id: StreamId, d: nat)
    requires d <= HASHMAP_AMOUNT
    ensures InsertPlace(t, id, d).Some? ==>
              var p := InsertPlace(t, id, d).value;
              && p < HASHMAP_AMOUNT && !t[p].Filled? && d <= Distance(id, p)
              && forall e: nat | d <= e < Distance(id, p) :: t[SlotAt(id, e)].Filled? && !HasId(t[SlotAt(id, e)], id)
    ensures InsertPlace(t, id, d).None? ==>
              || (forall e: nat | d <= e < HASHMAP_AMOUNT :: t[SlotAt(id, e)].Filled? && !HasId(t[SlotAt(id, e)], id))
              || (exists f: nat | d <= f < HASHMAP_AMOUNT ::
                    HasId(t[SlotAt(id, f)], id) && forall e: nat | d <= e < f :: t[SlotAt(id, e)].Filled?)
    decreases HASHMAP_AMOUNT - d
  {
    if d < HASHMAP_AMOUNT && t[SlotAt(id, d)].Filled? {
      if t[SlotAt(id, d)].id == id {
        assert HasId(t[SlotAt(id, d)], id);
      } else {
        InsertPlaceIs(t, id, d + 1);
      }
    }
  }

  /** An insert fails exactly when the table is full or an entry of the same id is met before a free slot. */
  lemma InsertFailsWhen<V>(t: Table<V>, id: StreamId)
    ensures InsertPlace(t, id, 0).None? <==> Full(t) || Blocked(t, id)
  {
    hide InsertPlace;
    InsertPlaceIs(t, id, 0);
    if InsertPlace(t, id, 0).None? && !Blocked(t, id) {
      forall p | 0 <= p < HASHMAP_AMOUNT
        ensures t[p].Filled?
      {
        assert SlotAt(id, Distance(id, p)) == p;
      }
    }
  }

  /** An insert that succeeds pushes on the id's stack and touches no other. */
  lemma InsertPushes<V>(t: Table<V>, id: StreamId, value: V)
    requires Searchable(t) && InsertPlace(t, id, 0).Some?
    ensures var p := InsertPlace(t, id, 0).value;
            && p < HASHMAP_AMOUNT
            && var t' := t[p := Filled(id, value)];
               && Searchable(t')
               && Stack(t', id) == [value] + Stack(t, id)
               && forall other: StreamId | other != id :: Stack(t', other) == Stack(t, other)
  {
    hide StackFrom, InsertPlace;
    InsertPlaceIs(t, id, 0);
    var p := InsertPlace(t, id, 0).value;
    var t' := t[p := Filled(id, value)];
    var d := Distance(id, p);
    StackSkips(t, id, 0, d + 1);
    StackSkips(t', id, 0, d);
    StackStep(t', id, d);
    StackIgnores(t, p, Filled(id, value), id, d + 1);
    forall other: StreamId | other != id
      ensures Stack(t', other) == Stack(t, other)
    {
      StackIgnores(t, p, Filled(id, value), other, 0);
    }
  }

  lemma StackStep<V>(t: Table<V>, id: StreamId, d: nat)
    requires d < HASHMAP_AMOUNT && HasId(t[SlotAt(id, d)], id)
    ensures StackFrom(t, id, d) == [t[SlotAt(id, d)].value] + StackFrom(t, id, d + 1)
  {
  }

  lemma {:induction false} FindPlaceIs<V>(t: Table<V>, id: StreamId, d: nat)
    requires Searchable(t) && d <= HASHMAP_AMOUNT
    requires forall e: nat | e < d :: !HasId(t[SlotAt(id, e)], id)
    ensures FindPlace(t, id, d).None? <==> StackFrom(t, id, d) == []
    ensures FindPlace(t, id, d).Some? ==>
              var p := FindPlace(t, id, d).value;
              && p < HASHMAP_AMOUNT && HasId(t[p], id) && d <= Distance(id, p)
              && StackFrom(t, id, d) == [t[p].value] + StackFrom(t, id, Distance(id, p) + 1)
              && forall e: nat | e < Distance(id, p) :: !HasId(t[SlotAt(id, e)], id)
    decreases HASHMAP_AMOUNT - d
  {
    if d < HASHMAP_AMOUNT {
      if t[SlotAt(id, d)].Empty? {
        NothingBeyondEmpty(t, id, d);
        StackSkips(t, id, d, HASHMAP_AMOUNT);
      } else if !HasId(t[SlotAt(id, d)], id) {
        FindPlaceIs(t, id, d + 1);
      } else {
        assert Distance(id, SlotAt(id, d)) == d;
      }
    }
  }

  lemma NothingBeyondEmpty<V>(t: Table<V>, id: StreamId, d: nat)
    requires Searchable(t) && d < HASHMAP_AMOUNT && t[SlotAt(id, d)].Empty?
    ensures forall e: nat | d <= e < HASHMAP_AMOUNT :: !HasId(t[SlotAt(id, e)], id)
  {
    forall e: nat | d <= e < HASHMAP_AMOUNT
      ensures !HasId(t[SlotAt(id, e)], id)
    {
      assert Distance(id, SlotAt(id, e)) == e;
    }
  }

  /** A find returns the top of the id's stack, and nothing exactly when the stack is empty. */
  lemma FindSeesTop<V>(t: Table<V>, id: StreamId)
    requires Searchable(t)
    ensures FindPlace(t, id, 0).None? <==> Stack(t, id) == []
    ensures FindPlace(t, id, 0).Some? ==>
              var p := FindPlace(t, id, 0).value;
              p < HASHMAP_AMOUNT && HasId(t[p], id) && Stack(t, id) != [] && t[p].value == Stack(t, id)[0]
  {
    FindPlaceIs(t, id, 0);
  }

  /** A remove pops the id's stack and touches no other. */
  lemma RemovePops<V>(t: Table<V>, id: StreamId)
    requires Searchable(t) && FindPlace(t, id, 0).Some?
    ensures var p := FindPlace(t, id, 0).value;
            && p < HASHMAP_AMOUNT && HasId(t[p], id)
            && var t' := t[p := Deleted];
               && Searchable(t')
               && Stack(t, id) == [t[p].value] + Stack(t', id)
               && forall other: StreamId | other != id :: Stack(t', other) == Stack(t, other)
  {
    hide StackFrom, FindPlace;
    FindPlaceIs(t, id, 0);
    var p := FindPlace(t, id, 0).value;
    var t' := t[p := Deleted];
    var d := Distance(id, p);
    StackSkips(t', id, 0, d + 1);
    StackIgnores(t, p, Deleted, id, d + 1);
    forall other: StreamId | other != id
      ensures Stack(t', other) == Stack(t, other)
    {
      StackIgnores(t, p, Deleted, other, 0);
    }
  }

  lemma {:induction false} EmptyStack<V>(t: Table<V>, id: StreamId, d: nat)
    requires d <= HASHMAP_AMOUNT
    ensures StackFrom(t, id, d) == [] <==> forall e: nat | d <= e < HASHMAP_AMOUNT :: !HasId(t[SlotAt(id, e)], id)
    decreases HASHMAP_AMOUNT - d
  {
    if d < HASHMAP_AMOUNT {
      EmptyStack(t, id, d + 1);
    }
  }

  /** An id that is not in use can be inserted unless the table is full, and is then in use once. */
  lemma FreshInsert<V>(t: Table<V>, id: StreamId, value: V)
    requires Searchable(t) && Stack(t, id) == []
    ensures InsertPlace(t, id, 0).None? <==> Full(t)
    ensures InsertPlace(t, id, 0).Some? ==>
              var p := InsertPlace(t, id, 0).value;
              p < HASHMAP_AMOUNT && Stack(t[p := Filled(id, value)], id) == [value]
  {
    EmptyStack(t, id, 0);
    InsertFailsWhen(t, id);
    if InsertPlace(t, id, 0).Some? {
      InsertPushes(t, id, value);
    }
  }

  // ---- Any run of inserts and removes

  datatype TableOp<+V> = Insert(id: StreamId, value: V) | Remove(id: StreamId)

  function EmptyTable<V>(): Table<V> {
    seq(HASHMAP_AMOUNT, _ => Empty)
  }

  function Apply<V>(t: Table<V>, op: TableOp<V>): Table<V> {
    match op
    case Insert(id, value) =>
      InsertPlaceIs(t, id, 0);
      var place := InsertPlace(t, id, 0);
      if place.Some? then t[place.value := Filled(id, value)] else t
    case Remove(id) =>
      FindPlaceInRange(t, id, 0);
      var place := FindPlace(t, id, 0);
      if place.Some? then t[place.value := Deleted] else t
  }

  lemma {:induction false} FindPlaceInRange<V>(t: Table<V>, id: StreamId, d: nat)
    requires d <= HASHMAP_AMOUNT
    ensures FindPlace(t, id, d).Some? ==> FindPlace(t, id, d).value < HASHMAP_AMOUNT
    decreases HASHMAP_AMOUNT - d
  {
    if d < HASHMAP_AMOUNT && !t[SlotAt(id, d)].Empty? && !HasId(t[SlotAt(id, d)], id) {
      FindPlaceInRange(t, id, d + 1);
    }
  }

  /** The table after a run that starts with no entries. */
  function After<V>(ops: seq<TableOp<V>>): Table<V> {
    if ops == [] then EmptyTable() else Apply(After(ops[..|ops| - 1]), ops[|ops| - 1])
  }

  /** What the stack of `id` should be: inserts that succeed push, removes pop. */
  function Expected<V>(ops: seq<TableOp<V>>, id: StreamId): seq<V> {
    if ops == [] then []
    else
      var before := Expected(ops[..|ops| - 1], id);
      var op := ops[|ops| - 1];
      if op.id != id then before
      else match op
        case Insert(_, value) =>
          var t := After(ops[..|ops| - 1]);
          if Full(t) || Blocked(t, id) then before else [value] + before
        case Remove(_) => if before == [] then before else before[1..]
  }

  /** Every table that can be reached is, id by id, the stack its history calls for. */
  lemma {:induction false} RunKeepsStacks<V>(ops: seq<TableOp<V>>, id: StreamId)
    ensures Searchable(After(ops)) && Stack(After(ops), id) == Expected(ops, id)
    decreases |ops|
  {
    if ops == [] {
      EmptyStack(EmptyTable<V>(), id, 0);
    } else {
      var before, op := ops[..|ops| - 1], ops[|ops| - 1];
      RunKeepsStacks(before, id);
      match op
      case Insert(other, value) =>
        InsertFailsWhen(After(before), other);
        if InsertPlace(After(before), other, 0).Some? {
          InsertPushes(After(before), other, value);
        }
      case Remove(other) =>
        FindSeesTop(After(before), other);
        FindSeesTop(After(before), id);
        if FindPlace(After(before), other, 0).Some? {
          RemovePops(After(before), other);
        }
    }
  }

  lemma TombstoneIsMade() returns (ops: seq<TableOp<int>>)
    ensures ops == [Insert(0, 5), Insert(2048, 7), Remove(0)]
    ensures After(ops) == EmptyTable<int>()[0 := Deleted][1 := Filled(2048, 7)]
  {
    ops := [Insert(0, 5), Insert(2048, 7), Remove(0)];
    assert ops[..2] == [Insert(0, 5), Insert(2048, 7)] && ops[..2][..1] == [Insert(0, 5)] && ops[..2][..1][..0] == [];
    var t0 := EmptyTable<int>();
    var t1 := t0[0 := Filled(0, 5)];
    var t2 := t1[1 := Filled(2048, 7)];
    assert InsertPlace(t0, 0, 0) == Some(0);
    assert InsertPlace(t1, 2048, 1) == Some(1);
    assert FindPlace(t2, 0, 0) == Some(0);
    assert After(ops[..2][..1]) == t1;
    assert After(ops[..2]) == t2;
  }

  /** A tombstone can hide a live entry from an insert: the same id is then in use twice. */
  lemma TombstoneHidesDuplicate()
    ensures var ops := [Insert(0, 5), Insert(2048, 7), Remove(0)];
            && Stack(After(ops), 2048) == [7]
            && Stack(Apply(After(ops), Insert(2048, 9)), 2048) == [9, 7]
  {
    var ops := TombstoneIsMade();
    var t := After(ops);
    assert InsertPlace(t, 2048, 0) == Some(0);
    assert StackFrom(t, 2048, 1) == [7] + StackFrom(t, 2048, 2);
    EmptyStack(t, 2048, 2);
    RunKeepsStacks(ops, 2048);
    InsertPushes(t, 2048, 9);
  }

  // ---- The table as the source keeps it

  class HashMap<V(0)> {
    const entries: array<Slot<V>>

    predicate Valid() {
      entries.Length == HASHMAP_AMOUNT
    }

    function Contents(): Table<V>
      requires Valid()
      reads entries
    {
      entries[..]
    }

    /** `socket_hashmap_init` */
    constructor ()
      ensures Valid() && fresh(entries) && Contents() == EmptyTable()
      ensures forall id: StreamId :: Stack(Contents(), id) == []
      ensures Searchable(Contents())
    {
      entries := new Slot<V>[HASHMAP_AMOUNT](_ => Empty);
      new;
      assert Contents() == EmptyTable();
      forall id: StreamId
        ensures Stack(Contents(), id) == []
      {
        EmptyStack(Contents(), id, 0);
      }
    }

    /** `socket_hashmap_insert` */
    method Insert(id: StreamId, value: V) returns (ok: bool)
      requires Valid()
      modifies entries
      ensures var t := old(Contents()); var place := InsertPlace(t, id, 0);
              && ok == place.Some?
              && (ok ==> place.value < HASHMAP_AMOUNT)
              && Contents() == if ok then t[place.value := Filled(id, value)] else t
    {
      var startIndex := id % HASHMAP_AMOUNT;
      var index := startIndex;
      ghost var d := 0;
      InsertPlaceIs(Contents(), id, 0);
      while entries[index].Filled?
        invariant d < HASHMAP_AMOUNT && index == SlotAt(id, d)
        invariant InsertPlace(Contents(), id, 0) == InsertPlace(Contents(), id, d)
        decreases HASHMAP_AMOUNT - d
      {
        if entries[index].id == id {
          return false;
        }
        index := (index + 1) % HASHMAP_AMOUNT;
        d := d + 1;
        if index == startIndex {
          return false;
        }
      }
      entries[index] := Filled(id, value);
      return true;
    }

    /** `socket_hashmap_find` */
    method Find(id: StreamId) returns (place: Option<nat>)
      requires Valid()
      ensures place == FindPlace(Contents(), id, 0)
      ensures place.Some? ==> place.value < entries.Length && HasId(entries[place.value], id)
    {
      var startIndex := id % HASHMAP_AMOUNT;
      var index := startIndex;
      ghost var d := 0;
      while !entries[index].Empty?
        invariant d < HASHMAP_AMOUNT && index == SlotAt(id, d)
        invariant FindPlace(Contents(), id, 0) == FindPlace(Contents(), id, d)
        decreases HASHMAP_AMOUNT - d
      {
        if entries[index].Filled? && entries[index].id == id {
          return Some(index);
        }
        index := (index + 1) % HASHMAP_AMOUNT;
        d := d + 1;
        if index == startIndex {
          return None;
        }
      }
      return None;
    }

    /** `socket_hashmap_remove` */
    method Remove(id: StreamId) returns (ok: bool)
      requires Valid()
      modifies entries
      ensures var t := old(Contents()); var place := FindPlace(t, id, 0);
              && ok == place.Some?
              && (ok ==> place.value < HASHMAP_AMOUNT)
              && Contents() == if ok then t[place.value := Deleted] else t
    {
      var place := Find(id);
      if place.None? {
        return false;
      }
      entries[place.value] := Deleted;
      return true;
    }
  }
}
