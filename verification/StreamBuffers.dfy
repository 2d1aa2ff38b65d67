/**
 * The growable ring buffer of client/services/stream_buffers.c, against a plain
 * sequence of bytes: when it is one, and the two states in which growing breaks it.
 */
module StreamBuffers {
  import opened Arithmetic
  import opened Bytes

  const INITIAL_BUFFER_CAPACITY := 64

  predicate PowerOfTwo(n: nat) {
    n == 1 || (n > 0 && n % 2 == 0 && PowerOfTwo(n / 2))
  }

  /** Bitwise and of two numbers. */
  function And(x: nat, y: nat): nat {
    if x == 0 || y == 0 then 0 else (x % 2) * (y % 2) + 2 * And(x / 2, y / 2)
  }

  /** Masking with one less than a power of two is the remainder. */
  lemma {:induction false} MaskIsRemainder(x: nat, n: nat)
    requires PowerOfTwo(n)
    ensures And(x, n - 1) == x % n
    decreases n
  {
    if n == 1 || x == 0 {
    } else {
      MaskIsRemainder(x / 2, n / 2);
      var m := n / 2;
      assert n == 2 * m && (n - 1) / 2 == m - 1 && (n - 1) % 2 == 1;
      RemainderDoubles(x, m);
    }
  }

  lemma RemainderDoubles(x: nat, m: nat)
    requires m > 0
    ensures x % (2 * m) == x % 2 + 2 * (x / 2 % m)
  {
    var q, r := x / 2 / m, x / 2 % m;
    assert x == (2 * m) * q + (2 * r + x % 2);
    DivisionIs(x, 2 * m, q, 2 * r + x % 2);
  }

  /** The fields of `circular_buffer_t`; `mem` is the allocated memory, so its length is the capacity. */
  datatype Ring = Ring(mem: seq<Byte>, head: nat, tail: nat, size: nat) {
    /** Every index is in range, which keeps all operations inside the memory. */
    predicate InRange() {
      PowerOfTwo(|mem|) && head <= |mem| && tail < |mem| && size <= |mem|
    }

    /** The head is where the bytes held end, up to wrap-around. */
    predicate Consistent() {
      InRange() && (head == tail + size || head == tail + size - |mem| || head == tail + size + |mem|)
    }

    /** The bytes a reader would get, oldest first. */
    function Contents(): (r: seq<Byte>)
      requires InRange()
      ensures |r| == size
    {
      if tail + size <= |mem| then mem[tail..tail + size] else mem[tail..] + mem[..tail + size - |mem|]
    }

    predicate Holds(bytes: seq<Byte>) {
      Consistent() && Contents() == bytes
    }
  }

  function InitialRing(mem: seq<Byte>): Ring
    requires |mem| == INITIAL_BUFFER_CAPACITY
  {
    Ring(mem, 0, 0, 0)
  }

  // ---- Growing

  /** `grow_buffer`; the second half of the new memory holds whatever `realloc` found there. */
  function Grow(r: Ring, junk: seq<Byte>): Ring
    requires r.InRange() && |junk| == |r.mem|
  {
    var mem := r.mem + junk;
    if r.head < r.tail then
      var n := |r.mem| - r.tail;
      Ring(Put(mem, |mem| - n, r.mem[r.tail..]), r.head, r.tail + |r.mem|, r.size)
    else
      Ring(mem, r.head, r.tail, r.size)
  }

  /** Full, with the oldest byte not at the start: head and tail meet in the middle. */
  predicate FullInTheMiddle(r: Ring) {
    r.size == |r.mem| && r.head == r.tail
  }

  /** Drained, with the head left at the very end. */
  predicate DrainedAtTheEnd(r: Ring) {
    r.size == 0 && r.head == |r.mem|
  }

  predicate GrowsSafely(r: Ring) {
    !FullInTheMiddle(r) && !DrainedAtTheEnd(r)
  }

  /** Where byte i of the contents lies. */
  function Place(r: Ring, i: nat): nat
    requires r.InRange() && i < |r.mem|
  {
    if r.tail + i < |r.mem| then r.tail + i else r.tail + i - |r.mem|
  }

  lemma ContentsAt(r: Ring, i: nat)
    requires r.InRange() && i < r.size
    ensures r.Contents()[i] == r.mem[Place(r, i)]
  {
  }

  lemma GrowShape(r: Ring, junk: seq<Byte>)
    requires r.InRange() && |junk| == |r.mem|
    ensures var g := Grow(r, junk);
            && g.InRange() && |g.mem| == 2 * |r.mem| && g.size == r.size && g.head == r.head
            && g.tail == if r.head < r.tail then r.tail + |r.mem| else r.tail
  {
  }

  lemma GrowIs(r: Ring, junk: seq<Byte>)
    requires r.InRange() && |junk| == |r.mem|
    ensures Grow(r, junk) ==
              if r.head < r.tail then
                Ring(Put(r.mem + junk, |r.mem| + r.tail, r.mem[r.tail..]), r.head, r.tail + |r.mem|, r.size)
              else
                Ring(r.mem + junk, r.head, r.tail, r.size)
  {
  }

  /** The old bytes stay, and a copy of those from the tail on moves to the new end. */
  lemma GrowWrites(r: Ring, junk: seq<Byte>, p: nat)
    requires r.InRange() && |junk| == |r.mem| && p < 2 * |r.mem|
    ensures p < |r.mem| ==> Grow(r, junk).mem[p] == r.mem[p]
    ensures r.head < r.tail && p >= r.tail + |r.mem| ==> Grow(r, junk).mem[p] == r.mem[p - |r.mem|]
  {
  }

  lemma SafeGrowth(r: Ring, junk: seq<Byte>)
    requires r.Consistent() && |junk| == |r.mem| && GrowsSafely(r)
    ensures Grow(r, junk).Holds(r.Contents())
    ensures GrowsSafely(Grow(r, junk))
  {
    hide Grow, PowerOfTwo, Ring.Contents;
    GrowShape(r, junk);
    var g := Grow(r, junk);
    forall i: nat | i < r.size
      ensures g.Contents()[i] == r.Contents()[i]
    {
      ContentsAt(r, i);
      ContentsAt(g, i);
      GrowWrites(r, junk, Place(g, i));
    }
  }

  // ---- Pushing

  /** What `realloc` finds in the memory it adds; `junk` gives the byte at each address. */
  function NewMemory(r: Ring, junk: nat -> Byte): (m: seq<Byte>)
    ensures |m| == |r.mem|
  {
    seq(|r.mem|, i requires 0 <= i => junk(|r.mem| + i))
  }

  /** Grow until `n` more bytes fit. */
  function GrowFor(r: Ring, n: nat, junk: nat -> Byte): (g: Ring)
    requires r.InRange()
    ensures g.InRange() && g.size == r.size && g.size + n <= |g.mem|
    decreases r.size + n - |r.mem|
  {
    if r.size + n > |r.mem| then
      GrowFor(Grow(r, NewMemory(r, junk)), n, junk)
    else r
  }

  /** The copy of `stream_push_data`, once there is room. */
  function Store(r: Ring, data: seq<Byte>): (s: Ring)
    requires r.InRange() && r.size + |data| <= |r.mem|
    ensures |s.mem| == |r.mem| && s.tail == r.tail && s.size == r.size + |data|
    ensures s.head == if r.head + |data| > |r.mem| then r.head + |data| - |r.mem| else r.head + |data|
  {
    if r.head + |data| > |r.mem| then
      var first := |r.mem| - r.head;
      var rest := |data| - first;
      Ring(Put(Put(r.mem, r.head, data[..first]), 0, data[first..]), rest, r.tail, r.size + |data|)
    else
      Ring(Put(r.mem, r.head, data), r.head + |data|, r.tail, r.size + |data|)
  }

  function PushData(r: Ring, data: seq<Byte>, junk: nat -> Byte): Ring
    requires r.InRange()
  {
    Store(GrowFor(r, |data|, junk), data)
  }

  /** The push need not grow the buffer, or it may grow it safely. */
  predicate PushesSafely(r: Ring, n: nat) {
    r.size + n > |r.mem| ==> GrowsSafely(r)
  }

  /** Storing writes the bytes from the head on, around the end, and nowhere else. */
  lemma StoreWrites(r: Ring, data: seq<Byte>, p: nat)
    requires r.InRange() && r.size + |data| <= |r.mem| && p < |r.mem|
    ensures Store(r, data).mem[p] ==
              if r.head <= p < r.head + |data| then data[p - r.head]
              else if p + |r.mem| < r.head + |data| then data[p + |r.mem| - r.head]
              else r.mem[p]
  {
  }

  lemma StoreShape(r: Ring, data: seq<Byte>)
    requires r.Consistent() && r.size + |data| <= |r.mem|
    ensures var s := Store(r, data);
            s.Consistent() && s.tail == r.tail && s.size == r.size + |data| && |s.mem| == |r.mem|
  {
    hide PowerOfTwo, Store;
  }

  lemma StoreAppends(r: Ring, data: seq<Byte>)
    requires r.Consistent() && r.size + |data| <= |r.mem|
    ensures Store(r, data).Holds(r.Contents() + data)
  {
    hide PowerOfTwo, Store, Ring.Contents;
    var s := Store(r, data);
    StoreShape(r, data);
    forall i: nat | i < s.size
      ensures s.Contents()[i] == (r.Contents() + data)[i]
    {
      ContentsAt(s, i);
      StoreWrites(r, data, Place(r, i));
      if i < r.size {
        ContentsAt(r, i);
      }
    }
  }

  /** Growing loses nothing more once the first doubling was safe. */
  lemma {:induction false} GrowForKeeps(r: Ring, n: nat, junk: nat -> Byte)
    requires r.Consistent() && PushesSafely(r, n)
    ensures GrowFor(r, n, junk).Holds(r.Contents())
    decreases r.size + n - |r.mem|
  {
    if r.size + n > |r.mem| {
      SafeGrowth(r, NewMemory(r, junk));
      GrowForKeeps(Grow(r, NewMemory(r, junk)), n, junk);
    }
  }

  lemma PushAppends(r: Ring, data: seq<Byte>, junk: nat -> Byte)
    requires r.Consistent() && PushesSafely(r, |data|)
    ensures PushData(r, data, junk).Holds(r.Contents() + data)
  {
    GrowForKeeps(r, |data|, junk);
    StoreAppends(GrowFor(r, |data|, junk), data);
  }

  /** The indices agree with the bytes after a push exactly when it is safe. */
  lemma PushHoldsExactlyWhen(r: Ring, data: seq<Byte>, junk: nat -> Byte)
    requires r.Consistent()
    ensures PushData(r, data, junk).Holds(r.Contents() + data) <==> PushesSafely(r, |data|)
  {
    if PushesSafely(r, |data|) {
      PushAppends(r, data, junk);
    } else {
      UnsafePushStrays(r, data, junk);
    }
  }

  /** Growing moves no index but the tail, and that only by whole capacities. */
  lemma {:induction false} GrowForIndices(r: Ring, n: nat, junk: nat -> Byte)
    requires r.InRange() && !(r.head < r.tail)
    ensures var g := GrowFor(r, n, junk);
            g.head == r.head && g.tail == r.tail && |r.mem| <= |g.mem| && g.mem[..|r.mem|] == r.mem
    decreases r.size + n - |r.mem|
  {
    if r.size + n > |r.mem| {
      var g := Grow(r, NewMemory(r, junk));
      GrowForIndices(g, n, junk);
      assert g.mem[..|r.mem|] == r.mem;
      var last := GrowFor(g, n, junk);
      assert last.mem[..|r.mem|] == last.mem[..|g.mem|][..|r.mem|];
    }
  }

  lemma UnsafePushStrays(r: Ring, data: seq<Byte>, junk: nat -> Byte)
    requires r.Consistent() && !PushesSafely(r, |data|)
    ensures !PushData(r, data, junk).Consistent()
  {
    hide PowerOfTwo, Ring.Contents, GrowFor;
    GrowForIndices(r, |data|, junk);
    GrowForDoubles(r, |data|, junk);
  }

  /** To grow at all is to double at least. */
  lemma {:induction false} GrowForDoubles(r: Ring, n: nat, junk: nat -> Byte)
    requires r.InRange()
    ensures |GrowFor(r, n, junk).mem| >= if r.size + n > |r.mem| then 2 * |r.mem| else |r.mem|
    decreases r.size + n - |r.mem|
  {
    hide Grow, PowerOfTwo;
    if r.size + n > |r.mem| {
      GrowShape(r, NewMemory(r, junk));
      GrowForDoubles(Grow(r, NewMemory(r, junk)), n, junk);
    }
  }

  // ---- What an unsafe push loses

  /** A push that grows a buffer full in the middle puts its first byte in front of all those held. */
  lemma FullInTheMiddleLoses(r: Ring, data: seq<Byte>, junk: nat -> Byte)
    requires r.Consistent() && FullInTheMiddle(r) && |data| > 0
    ensures var s := PushData(r, data, junk);
            s.InRange() && s.size == r.size + |data| && s.Contents()[0] == data[0]
  {
    hide PowerOfTwo, Store, Ring.Contents;
    GrowForIndices(r, |data|, junk);
    var g := GrowFor(r, |data|, junk);
    StoreInRange(g, data);
    StoreWrites(g, data, r.tail);
    ContentsAt(Store(g, data), 0);
  }

  /**
   * A push that grows a drained buffer leaves the reader at the start of the memory, where
   * an old byte lies, or a later one of its own bytes if they go around the end.
   */
  lemma DrainedAtTheEndLoses(r: Ring, data: seq<Byte>, junk: nat -> Byte)
    requires r.Consistent() && DrainedAtTheEnd(r) && |data| > |r.mem|
    ensures var s := PushData(r, data, junk); var capacity := |GrowFor(r, |data|, junk).mem|;
            && s.InRange() && s.size == |data| && r.tail == 0
            && capacity >= 2 * |r.mem|
            && s.Contents()[0] == if |r.mem| + |data| <= capacity then r.mem[0] else data[capacity - |r.mem|]
  {
    hide PowerOfTwo, Store, Ring.Contents, GrowFor;
    GrowForIndices(r, |data|, junk);
    GrowForDoubles(r, |data|, junk);
    var g := GrowFor(r, |data|, junk);
    StoreInRange(g, data);
    StoreWrites(g, data, 0);
    ContentsAt(Store(g, data), 0);
    assert g.mem[0] == g.mem[..|r.mem|][0];
  }

  /** Data whose first byte is not the one at the tail, and whose others are. */
  function Telling(r: Ring, n: nat): (data: seq<Byte>)
    requires r.InRange() && n > 0
    ensures |data| == n && data[0] != r.mem[r.tail] && forall i | 0 < i < n :: data[i] == r.mem[r.tail]
  {
    [if r.mem[r.tail] == 0 then 1 else 0] + seq(n - 1, _ => r.mem[r.tail])
  }

  lemma UnsafePushLoses(r: Ring, n: nat, junk: nat -> Byte)
    requires r.Consistent() && !PushesSafely(r, n)
    ensures n > 0 && PushData(r, Telling(r, n), junk).InRange()
    ensures PushData(r, Telling(r, n), junk).Contents() != r.Contents() + Telling(r, n)
  {
    hide PowerOfTwo, PushData, Ring.Contents, Telling;
    var data := Telling(r, n);
    var s := PushData(r, data, junk);
    if FullInTheMiddle(r) {
      FullInTheMiddleLoses(r, data, junk);
      ContentsAt(r, 0);
      assert (r.Contents() + data)[0] != s.Contents()[0];
    } else {
      DrainedAtTheEndLoses(r, data, junk);
      assert (r.Contents() + data)[0] == data[0];
    }
  }

  /**
   * Every push of n bytes leaves the bytes held and then its own to be read, exactly when it
   * need not grow a buffer that is full in the middle or drained at the end.
   */
  lemma PushAppendsExactlyWhen(r: Ring, n: nat, junk: nat -> Byte)
    requires r.Consistent()
    ensures (forall data: seq<Byte> | |data| == n ::
               PushData(r, data, junk).InRange() && PushData(r, data, junk).Contents() == r.Contents() + data)
       <==> PushesSafely(r, n)
  {
    hide PowerOfTwo, PushData, Ring.Contents, Telling;
    if PushesSafely(r, n) {
      forall data: seq<Byte> | |data| == n
        ensures PushData(r, data, junk).InRange() && PushData(r, data, junk).Contents() == r.Contents() + data
      {
        PushAppends(r, data, junk);
      }
    } else {
      UnsafePushLoses(r, n, junk);
      assert |Telling(r, n)| == n;
    }
  }

  /**
   * Growing is safe for the bytes held and for the next one stored, whatever it is, exactly
   * when the buffer is neither full in the middle nor drained at the end.
   */
  lemma GrowthIsSafeExactlyWhen(r: Ring, junk: seq<Byte>)
    requires r.Consistent() && |junk| == |r.mem|
    ensures var g := Grow(r, junk);
            && g.InRange() && g.size < |g.mem|
            && ((forall x: Byte :: Store(g, [x]).InRange() && Store(g, [x]).Contents() == r.Contents() + [x]) <==> GrowsSafely(r))
  {
    hide PowerOfTwo, Grow, Store, Ring.Contents;
    GrowShape(r, junk);
    var g := Grow(r, junk);
    if GrowsSafely(r) {
      SafeGrowth(r, junk);
      forall x: Byte
        ensures Store(g, [x]).InRange() && Store(g, [x]).Contents() == r.Contents() + [x]
      {
        StoreAppends(g, [x]);
      }
    } else {
      var x: Byte := if r.mem[r.tail] == 0 then 1 else 0;
      StoreInRange(g, [x]);
      StoreWrites(g, [x], r.tail);
      GrowWrites(r, junk, r.tail);
      ContentsAt(Store(g, [x]), 0);
      if FullInTheMiddle(r) {
        ContentsAt(r, 0);
      }
      assert (r.Contents() + [x])[0] != Store(g, [x]).Contents()[0];
    }
  }

  lemma StoreInRange(r: Ring, data: seq<Byte>)
    requires r.InRange() && r.size + |data| <= |r.mem|
    ensures var s := Store(r, data);
            s.InRange() && s.tail == r.tail && s.size == r.size + |data| && |s.mem| == |r.mem|
  {
    hide PowerOfTwo, Store;
  }

  // ---- Popping

  function Amount(r: Ring, n: nat): nat {
    if n < r.size then n else r.size
  }

  /** `stream_pop_data`: the new state and the bytes copied out. */
  function PopData(r: Ring, n: nat): (Ring, seq<Byte>)
    requires r.InRange()
  {
    if n == 0 || r.size == 0 then (r, [])
    else
      var read := Amount(r, n);
      (r.(tail := And(r.tail + read, |r.mem| - 1), size := r.size - read), Oldest(r, read))
  }

  function Oldest(r: Ring, read: nat): (data: seq<Byte>)
    requires r.InRange() && read <= r.size
    ensures |data| == read
  {
    if r.tail + read > |r.mem| then r.mem[r.tail..] + r.mem[..read - (|r.mem| - r.tail)]
    else r.mem[r.tail..r.tail + read]
  }

  lemma MaskWraps(r: Ring, read: nat)
    requires r.InRange() && read <= |r.mem|
    ensures And(r.tail + read, |r.mem| - 1) == if r.tail + read < |r.mem| then r.tail + read else r.tail + read - |r.mem|
  {
    hide And, PowerOfTwo;
    var x, n := r.tail + read, |r.mem|;
    MaskIsRemainder(x, n);
    DivisionIs(x, n, if x < n then 0 else 1, if x < n then x else x - n);
  }

  /** A pop returns the oldest bytes, as many as asked for or all there are, and leaves the others. */
  lemma PopTakes(r: Ring, n: nat)
    requires r.Consistent()
    ensures var (s, data) := PopData(r, n);
            && data == r.Contents()[..Amount(r, n)]
            && s.Holds(r.Contents()[Amount(r, n)..])
  {
    hide PowerOfTwo, And, PopData, Ring.Contents;
    PopShape(r, n);
    var (s, data) := PopData(r, n);
    forall i: nat | i < s.size
      ensures s.Contents()[i] == r.Contents()[Amount(r, n)..][i]
    {
      ContentsAt(s, i);
      ContentsAt(r, Amount(r, n) + i);
    }
    forall i: nat | i < Amount(r, n)
      ensures data[i] == r.Contents()[i]
    {
      PopReads(r, n, i);
      ContentsAt(r, i);
    }
  }

  lemma PopShape(r: Ring, n: nat)
    requires r.Consistent()
    ensures var (s, data) := PopData(r, n); var read := Amount(r, n);
            && s.Consistent() && s.mem == r.mem && s.size == r.size - read && |data| == read
            && s.tail == if r.tail + read < |r.mem| then r.tail + read else r.tail + read - |r.mem|
  {
    hide PowerOfTwo, And;
    MaskWraps(r, Amount(r, n));
  }

  lemma PopReads(r: Ring, n: nat, i: nat)
    requires r.InRange() && i < Amount(r, n)
    ensures |PopData(r, n).1| == Amount(r, n) && PopData(r, n).1[i] == r.mem[Place(r, i)]
  {
    hide PowerOfTwo, And;
  }

  // ---- Runs

  datatype Op = Push(data: seq<Byte>) | Pop(n: nat)

  /** A run of operations: the last state and all the bytes popped, in order. */
  function Run(r: Ring, ops: seq<Op>, junk: nat -> Byte): (Ring, seq<Byte>)
    requires r.InRange()
    decreases |ops|
  {
    if ops == [] then (r, [])
    else match ops[0]
      case Push(data) => Run(PushInRange(r, data, junk), ops[1..], junk)
      case Pop(n) =>
        var (s, popped) := PopInRange(r, n);
        var (last, rest) := Run(s, ops[1..], junk);
        (last, popped + rest)
  }

  function PushInRange(r: Ring, data: seq<Byte>, junk: nat -> Byte): (s: Ring)
    requires r.InRange()
    ensures s.InRange()
  {
    PushData(r, data, junk)
  }

  function PopInRange(r: Ring, n: nat): (s: (Ring, seq<Byte>))
    requires r.InRange()
    ensures s.0.InRange() && |s.1| <= n
  {
    MaskIsRemainder(r.tail + Amount(r, n), |r.mem|);
    PopData(r, n)
  }

  /** No push of the run grows a buffer that is full in the middle or drained at the end. */
  predicate SafeRun(r: Ring, ops: seq<Op>, junk: nat -> Byte)
    requires r.InRange()
    decreases |ops|
  {
    ops == [] ||
    match ops[0]
    case Push(data) => PushesSafely(r, |data|) && SafeRun(PushInRange(r, data, junk), ops[1..], junk)
    case Pop(n) => SafeRun(PopInRange(r, n).0, ops[1..], junk)
  }

  function Pushed(ops: seq<Op>): seq<Byte> {
    if ops == [] then []
    else if ops[0].Push? then ops[0].data + Pushed(ops[1..])
    else Pushed(ops[1..])
  }

  /** First in, first out over any safe run: bytes popped, then bytes held, are the bytes pushed. */
  lemma {:induction false} RunIsFifo(r: Ring, ops: seq<Op>, junk: nat -> Byte)
    requires r.Consistent() && SafeRun(r, ops, junk)
    ensures var (last, popped) := Run(r, ops, junk);
            last.Consistent() && popped + last.Contents() == r.Contents() + Pushed(ops)
    decreases |ops|
  {
    hide PowerOfTwo, And, PushData, PopData, Ring.Contents;
    if ops == [] {
      assert [] + r.Contents() == r.Contents() + [];
    } else {
      match ops[0]
      case Push(data) =>
        PushAppends(r, data, junk);
        var s := PushInRange(r, data, junk);
        RunIsFifo(s, ops[1..], junk);
        assert r.Contents() + data + Pushed(ops[1..]) == r.Contents() + (data + Pushed(ops[1..]));
      case Pop(n) =>
        PopTakes(r, n);
        var (s, popped) := PopInRange(r, n);
        assert (s, popped) == PopData(r, n);
        RunIsFifo(s, ops[1..], junk);
        var (last, rest) := Run(s, ops[1..], junk);
        assert r.Contents() == popped + s.Contents();
        assert popped + rest + last.Contents() == popped + (rest + last.Contents());
        assert popped + s.Contents() + Pushed(ops[1..]) == popped + (s.Contents() + Pushed(ops[1..]));
    }
  }

  // ---- An unsafe push is never made good

  lemma GrowKeepsStray(r: Ring, junk: seq<Byte>)
    requires r.InRange() && !r.Consistent() && |junk| == |r.mem|
    ensures Grow(r, junk).InRange() && !Grow(r, junk).Consistent()
  {
    hide PowerOfTwo, Grow;
    GrowShape(r, junk);
  }

  lemma {:induction false} GrowForKeepsStray(r: Ring, n: nat, junk: nat -> Byte)
    requires r.InRange() && !r.Consistent()
    ensures !GrowFor(r, n, junk).Consistent()
    decreases r.size + n - |r.mem|
  {
    hide PowerOfTwo, Grow;
    if r.size + n > |r.mem| {
      GrowShape(r, NewMemory(r, junk));
      GrowKeepsStray(r, NewMemory(r, junk));
      GrowForKeepsStray(Grow(r, NewMemory(r, junk)), n, junk);
    }
  }

  /** Once the head is not where the bytes end, no push and no pop brings it back there. */
  lemma StrayStays(r: Ring, data: seq<Byte>, n: nat, junk: nat -> Byte)
    requires r.InRange() && !r.Consistent()
    ensures !PushData(r, data, junk).Consistent() && !PopData(r, n).0.Consistent()
  {
    hide PowerOfTwo, And, Store, GrowFor, Ring.Contents;
    GrowForKeepsStray(r, |data|, junk);
    MaskWraps(r, Amount(r, n));
  }

  /** So head and contents agree at the end of a run exactly when no push of it was unsafe. */
  lemma {:induction false} RunHoldsExactlyWhen(r: Ring, ops: seq<Op>, junk: nat -> Byte)
    requires r.InRange()
    ensures Run(r, ops, junk).0.Consistent() <==> r.Consistent() && SafeRun(r, ops, junk)
    decreases |ops|
  {
    hide PowerOfTwo, And, PushData, PopData, Ring.Contents, PushesSafely;
    if ops != [] {
      match ops[0]
      case Push(data) =>
        PushStepHolds(r, data, junk);
        RunHoldsExactlyWhen(PushInRange(r, data, junk), ops[1..], junk);
      case Pop(n) =>
        PopStepHolds(r, n, junk);
        RunHoldsExactlyWhen(PopInRange(r, n).0, ops[1..], junk);
    }
  }

  lemma PushStepHolds(r: Ring, data: seq<Byte>, junk: nat -> Byte)
    requires r.InRange()
    ensures PushData(r, data, junk).Consistent() <==> r.Consistent() && PushesSafely(r, |data|)
  {
    hide PowerOfTwo, PushData, PopData, Ring.Contents;
    if !r.Consistent() {
      StrayStays(r, data, 0, junk);
    } else if PushesSafely(r, |data|) {
      PushAppends(r, data, junk);
    } else {
      UnsafePushStrays(r, data, junk);
    }
  }

  lemma PopStepHolds(r: Ring, n: nat, junk: nat -> Byte)
    requires r.InRange()
    ensures PopData(r, n).0.Consistent() <==> r.Consistent()
  {
    hide PowerOfTwo, PushData, PopData, Ring.Contents;
    if !r.Consistent() {
      StrayStays(r, [], n, junk);
    } else {
      PopTakes(r, n);
    }
  }

  // ---- Both unsafe states are reached, and bytes are lost

  lemma PowersOfTwo()
    ensures PowerOfTwo(64) && PowerOfTwo(128)
  {
    assert PowerOfTwo(2) && PowerOfTwo(4) && PowerOfTwo(8) && PowerOfTwo(16) && PowerOfTwo(32);
  }

  lemma RunPush(r: Ring, data: seq<Byte>, rest: seq<Op>, junk: nat -> Byte)
    requires r.InRange()
    ensures Run(r, [Push(data)] + rest, junk) == Run(PushInRange(r, data, junk), rest, junk)
    ensures Pushed([Push(data)] + rest) == data + Pushed(rest)
  {
    assert ([Push(data)] + rest)[1..] == rest;
  }

  lemma RunPop(r: Ring, n: nat, rest: seq<Op>, junk: nat -> Byte)
    requires r.InRange()
    ensures var (s, popped) := PopInRange(r, n);
            Run(r, [Pop(n)] + rest, junk) == (Run(s, rest, junk).0, popped + Run(s, rest, junk).1)
    ensures Pushed([Pop(n)] + rest) == Pushed(rest)
  {
    assert ([Pop(n)] + rest)[1..] == rest;
  }

  lemma RunOfNothing(r: Ring, junk: nat -> Byte)
    requires r.InRange()
    ensures Run(r, [], junk) == (r, []) && Pushed([]) == []
  {
  }

  lemma Differ(a: seq<Byte>, b: seq<Byte>, k: nat)
    requires k < |a| && k < |b| && a[k] != b[k]
    ensures a != b
  {
  }

  lemma NewIsConsistent(mem: seq<Byte>)
    requires |mem| == INITIAL_BUFFER_CAPACITY
    ensures InitialRing(mem).InRange() && InitialRing(mem).Holds([])
  {
    PowersOfTwo();
  }

  /** A new buffer that is filled, then gives up n bytes. */
  lemma FilledThenPopped(mem: seq<Byte>, n: nat, rest: seq<Op>, junk: nat -> Byte) returns (r: Ring)
    requires |mem| == INITIAL_BUFFER_CAPACITY && 0 < n <= 64
    ensures InitialRing(mem).InRange()
    ensures r.Holds(Zeros(64 - n)) && |r.mem| == 64 && r.head == 64 && r.tail == n % 64
    ensures var ops := [Push(Zeros(64))] + ([Pop(n)] + rest);
            && Run(InitialRing(mem), ops, junk) == (Run(r, rest, junk).0, Zeros(n) + Run(r, rest, junk).1)
            && Pushed(ops) == Zeros(64) + Pushed(rest)
  {
    NewIsConsistent(mem);
    hide Run, PushInRange, PopInRange, PowerOfTwo, Ring.Contents;
    var r0 := InitialRing(mem);
    RunPush(r0, Zeros(64), [Pop(n)] + rest, junk);
    var r1 := Filled(r0, junk);
    RunPop(r1, n, rest, junk);
    r := PoppedOf(r1, n);
  }

  lemma PopKeepsHead(r: Ring, n: nat)
    requires r.InRange()
    ensures PopData(r, n).0.head == r.head
  {
  }

  lemma PoppedOf(r: Ring, n: nat) returns (s: Ring)
    requires r.Holds(Zeros(64)) && |r.mem| == r.head == r.size == 64 && r.tail == 0 && 0 < n <= 64
    ensures PopInRange(r, n) == (s, Zeros(n))
    ensures s.Holds(Zeros(64 - n)) && |s.mem| == 64 && s.head == 64 && s.tail == n % 64
  {
    hide And, PowerOfTwo, Ring.Contents, PopData;
    PopTakes(r, n);
    PopShape(r, n);
    PopKeepsHead(r, n);
    s := PopInRange(r, n).0;
    assert Zeros(64)[..n] == Zeros(n) && Zeros(64)[n..] == Zeros(64 - n);
  }

  lemma Filled(r: Ring, junk: nat -> Byte) returns (s: Ring)
    requires r.Holds([]) && |r.mem| == 64 && r.head == r.tail == r.size == 0
    ensures s == PushInRange(r, Zeros(64), junk) && s.Holds(Zeros(64)) && |s.mem| == s.head == s.size == 64 && s.tail == 0
  {
    hide PowerOfTwo;
    PushAppends(r, Zeros(64), junk);
    s := PushInRange(r, Zeros(64), junk);
    assert [] + Zeros(64) == Zeros(64);
  }

  /** Filling a new buffer, popping one byte and pushing one leads to the first of the two states. */
  lemma FullInTheMiddleIsReached(mem: seq<Byte>, junk: nat -> Byte)
    requires |mem| == INITIAL_BUFFER_CAPACITY
    ensures InitialRing(mem).InRange()
    ensures FullInTheMiddle(Run(InitialRing(mem), [Push(Zeros(64))] + ([Pop(1)] + ([Push([1])] + [])), junk).0)
  {
    var r := FilledThenPopped(mem, 1, [Push([1])] + [], junk);
    hide PushData, PowerOfTwo;
    RunPush(r, [1], [], junk);
    OnePush(r, junk);
  }

  lemma OnePush(r: Ring, junk: nat -> Byte)
    requires r.Consistent() && |r.mem| == 64 && r.head == 64 && r.tail == 1 && r.size == 63
    ensures FullInTheMiddle(PushInRange(r, [1], junk)) && PushInRange(r, [1], junk).Holds(r.Contents() + [1])
  {
    hide PowerOfTwo;
    PushAppends(r, [1], junk);
  }

  /** One more byte pushed then comes out before 63 older ones. */
  lemma FullInTheMiddleRun(mem: seq<Byte>, junk: nat -> Byte)
    requires |mem| == INITIAL_BUFFER_CAPACITY
    ensures InitialRing(mem).InRange()
    ensures var ops := [Push(Zeros(64))] + ([Pop(1)] + ([Push([1])] + ([Push([2])] + [])));
            var (last, popped) := Run(InitialRing(mem), ops, junk);
            last.InRange() && popped + last.Contents() != Pushed(ops)
  {
    var r := FilledThenPopped(mem, 1, [Push([1])] + ([Push([2])] + []), junk);
    hide Run, Pushed, Ring.Contents, PowerOfTwo;
    var last := TwoPushes(r, junk);
    Differ(Zeros(1) + [] + last.Contents(), Zeros(64) + ([1] + ([2] + [])), 1);
  }

  lemma TwoPushes(r: Ring, junk: nat -> Byte) returns (last: Ring)
    requires r.Consistent() && |r.mem| == 64 && r.head == 64 && r.tail == 1 && r.size == 63
    ensures var ops := [Push([1])] + ([Push([2])] + []);
            Run(r, ops, junk) == (last, []) && Pushed(ops) == [1] + ([2] + [])
    ensures last.InRange() && last.size > 0 && last.Contents()[0] == 2
  {
    hide Run, Pushed, PushData, Ring.Contents, PowerOfTwo;
    RunPush(r, [1], [Push([2])] + [], junk);
    OnePush(r, junk);
    var full := PushInRange(r, [1], junk);
    RunPush(full, [2], [], junk);
    FullInTheMiddleLoses(full, [2], junk);
    last := PushInRange(full, [2], junk);
    RunOfNothing(last, junk);
  }

  /** Filling a new buffer and emptying it leads to the second. */
  lemma DrainedAtTheEndIsReached(mem: seq<Byte>, junk: nat -> Byte)
    requires |mem| == INITIAL_BUFFER_CAPACITY
    ensures InitialRing(mem).InRange()
    ensures DrainedAtTheEnd(Run(InitialRing(mem), [Push(Zeros(64))] + ([Pop(64)] + []), junk).0)
  {
    var r := FilledThenPopped(mem, 64, [], junk);
  }

  /** Of 65 bytes pushed then, the last comes out first. */
  lemma DrainedAtTheEndRun(mem: seq<Byte>, junk: nat -> Byte)
    requires |mem| == INITIAL_BUFFER_CAPACITY
    ensures InitialRing(mem).InRange()
    ensures var ops := [Push(Zeros(64))] + ([Pop(64)] + ([Push([1] + Zeros(64))] + []));
            var (last, popped) := Run(InitialRing(mem), ops, junk);
            last.InRange() && popped + last.Contents() != Pushed(ops)
  {
    var data := [1] + Zeros(64);
    var r := FilledThenPopped(mem, 64, [Push(data)] + [], junk);
    hide Run, Pushed, Ring.Contents, PowerOfTwo;
    var last := LastPush(r, data, junk);
    Differ(Zeros(64) + [] + last.Contents(), Zeros(64) + (data + []), 64);
  }

  lemma LastPush(r: Ring, data: seq<Byte>, junk: nat -> Byte) returns (last: Ring)
    requires r.Consistent() && DrainedAtTheEnd(r) && |r.mem| == 64 && |data| == 65
    ensures Run(r, [Push(data)] + [], junk) == (last, []) && Pushed([Push(data)] + []) == data + []
    ensures last.InRange() && last.size > 0 && last.Contents()[0] == data[64]
  {
    hide Run, Pushed, PushData, Ring.Contents, PowerOfTwo;
    RunPush(r, data, [], junk);
    DrainedAtTheEndLoses(r, data, junk);
    OneDoubling(r, junk);
    last := PushInRange(r, data, junk);
    RunOfNothing(last, junk);
  }

  lemma OneDoubling(r: Ring, junk: nat -> Byte)
    requires r.InRange() && |r.mem| == 64 && r.size == 0
    ensures |GrowFor(r, 65, junk).mem| == 128
  {
    hide PowerOfTwo, Grow;
    GrowShape(r, NewMemory(r, junk));
  }

  // ---- The buffer as the source updates it

  lemma PutTwo(s: seq<Byte>, a: seq<Byte>, b: seq<Byte>)
    requires |a| + |b| <= |s|
    ensures Put(Put(s, 0, a), |a|, b)[..|a| + |b|] == a + b
    ensures Put(Put(s, 0, a), |a|, b)[|a| + |b|..] == s[|a| + |b|..]
    ensures b == [] ==> Put(Put(s, 0, a), |a|, b) == Put(s, 0, a)
  {
  }

  class CircularBuffer {
    var buffer: array<Byte>
    var head: nat
    var tail: nat
    var size: nat
    var capacity: nat

    function State(): Ring
      reads this, buffer
    {
      Ring(buffer[..], head, tail, size)
    }

    predicate Valid()
      reads this, buffer
    {
      capacity == buffer.Length && State().InRange()
    }

    constructor ()
      ensures Valid() && fresh(buffer) && buffer.Length == INITIAL_BUFFER_CAPACITY && State() == InitialRing(buffer[..]) && State().Holds([])
    {
      buffer := new Byte[INITIAL_BUFFER_CAPACITY];
      head, tail, size, capacity := 0, 0, 0, INITIAL_BUFFER_CAPACITY;
      PowersOfTwo();
    }

    /** `realloc` of the memory to twice its size */
    method Reallocated(junk: nat -> Byte) returns (memory: array<Byte>)
      ensures fresh(memory) && memory[..] == buffer[..] + NewMemory(State(), junk)
    {
      var first := buffer;
      memory := new Byte[2 * first.Length](i requires 0 <= i reads first => if i < first.Length then first[i] else junk(i));
    }

    /** `grow_buffer`, on a `realloc` that leaves `junk` in the memory it adds */
    method GrowBuffer(junk: nat -> Byte)
      requires Valid()
      modifies this
      ensures Valid() && fresh(buffer)
      ensures State() == Grow(old(State()), NewMemory(old(State()), junk))
    {
      ghost var r := State();
      GrowShape(r, NewMemory(r, junk));
      GrowIs(r, NewMemory(r, junk));
      hide PowerOfTwo, NewMemory, Put, Grow;
      var oldCapacity, oldBuffer := capacity, buffer;
      capacity := 2 * capacity;
      buffer := Reallocated(junk);
      if head < tail {
        MoveTail(oldBuffer, oldCapacity);
      }
    }

    /** The bytes from the tail to the old end also go to the new end, and the tail with them. */
    method MoveTail(oldBuffer: array<Byte>, oldCapacity: nat)
      requires oldBuffer != buffer && buffer.Length == capacity == 2 * oldCapacity && oldBuffer.Length == oldCapacity && tail < oldCapacity
      modifies this`tail, buffer
      ensures buffer[..] == Put(old(buffer[..]), oldCapacity + old(tail), oldBuffer[..][old(tail)..])
      ensures tail == old(tail) + oldCapacity
    {
      hide Put;
      var tailToEnd := oldCapacity - tail;
      assert oldBuffer[tail..] == oldBuffer[..][tail..];
      PutInto(buffer, capacity - tailToEnd, oldBuffer[tail..]);
      tail := tail + oldCapacity;
    }

    /**
     * `stream_push_data`. Where it may lose bytes is known before the call; everywhere
     * else it appends.
     */
    method StreamPushData(data: seq<Byte>, junk: nat -> Byte)
      requires Valid()
      modifies this, buffer
      ensures Valid() && (buffer == old(buffer) || fresh(buffer))
      ensures State() == PushData(old(State()), data, junk)
      ensures old(State().Consistent()) ==>
                (State().Holds(old(State().Contents()) + data) <==> old(PushesSafely(State(), |data|)))
    {
      hide PowerOfTwo, Grow, Store, Ring.Contents;
      if State().Consistent() {
        PushHoldsExactlyWhen(State(), data, junk);
      }
      while size + |data| > capacity
        invariant Valid() && size == old(size) && (buffer == old(buffer) || fresh(buffer))
        invariant GrowFor(State(), |data|, junk) == GrowFor(old(State()), |data|, junk)
        decreases size + |data| - capacity
      {
        GrowShape(State(), NewMemory(State(), junk));
        GrowBuffer(junk);
      }
      StoreData(data);
    }

    method StoreData(data: seq<Byte>)
      requires Valid() && size + |data| <= capacity
      modifies this`head, this`size, buffer
      ensures Valid() && State() == Store(old(State()), data)
    {
      hide PowerOfTwo, Ring.Contents, Put;
      if head + |data| > capacity {
        var offset := capacity - head;
        var rest := |data| - offset;
        PutInto(buffer, head, data[..offset]);
        PutInto(buffer, 0, data[offset..]);
        head := rest;
      } else {
        PutInto(buffer, head, data);
        head := head + |data|;
      }
      size := size + |data|;
    }

    method CopyOut(data: array<Byte>, read: nat)
      requires Valid() && read <= size && read <= data.Length && data != buffer
      modifies data
      ensures data[..read] == Oldest(State(), read) && data[read..] == old(data[read..])
    {
      hide PowerOfTwo, Put, Ring.Contents;
      if tail + read > capacity {
        var first := capacity - tail;
        PutInto(data, 0, buffer[tail..]);
        PutInto(data, first, buffer[..read - first]);
        PutTwo(old(data[..]), buffer[tail..], buffer[..read - first]);
      } else {
        PutInto(data, 0, buffer[tail..tail + read]);
        PutTwo(old(data[..]), buffer[tail..tail + read], []);
      }
    }

    /** `stream_pop_data` */
    method StreamPopData(data: array<Byte>, n: nat) returns (read: nat)
      requires Valid() && n <= data.Length && data != buffer
      modifies this`tail, this`size, data
      ensures Valid() && buffer == old(buffer)
      ensures var (r, bytes) := PopData(old(State()), n);
              State() == r && read == |bytes| && data[..read] == bytes && data[read..] == old(data[read..])
      ensures read == if n < old(size) then n else old(size)
      ensures old(State().Consistent()) ==>
                data[..read] == old(State().Contents())[..read] && State().Holds(old(State().Contents())[read..])
    {
      hide PowerOfTwo, And, Ring.Contents, Oldest;
      if State().Consistent() {
        PopTakes(State(), n);
      }
      if n == 0 || size == 0 {
        return 0;
      }
      read := n;
      if n > size {
        read := size;
      }
      MaskWraps(State(), read);
      CopyOut(data, read);
      tail := And(tail + read, capacity - 1);
      size := size - read;
    }
  }
}
