/**
 * A row of FIFO queues through which items travel, seen from either end. Queue 0
 * is the client's; items move up the row in one direction and down it in the other.
 */
module Pipeline {

  /** Items moving up, oldest first: those in the last queue are ahead of all others. */
  function Upward<T>(q: seq<seq<T>>): seq<T> {
    if q == [] then [] else Upward(q[1..]) + q[0]
  }

  /** Items moving down, oldest first: those in queue 0 are ahead of all others. */
  function Downward<T>(q: seq<seq<T>>): seq<T> {
    if q == [] then [] else q[0] + Downward(q[1..])
  }

  function Push<T>(q: seq<seq<T>>, i: nat, x: T): seq<seq<T>>
    requires i < |q|
  {
    q[i := q[i] + [x]]
  }

  function Pop<T>(q: seq<seq<T>>, i: nat): seq<seq<T>>
    requires i < |q| && q[i] != []
  {
    q[i := q[i][1..]]
  }

  predicate AllEmpty<T>(q: seq<seq<T>>) {
    forall i | 0 <= i < |q| :: q[i] == []
  }

  /** Every item of every queue as `f` sees it there. */
  function Seen<T, U>(f: (nat, T) -> U, q: seq<seq<T>>): seq<seq<U>> {
    seq(|q|, i requires 0 <= i < |q| => SeenIn(f, i, q[i]))
  }

  function SeenIn<T, U>(f: (nat, T) -> U, i: nat, items: seq<T>): seq<U> {
    seq(|items|, j requires 0 <= j < |items| => f(i, items[j]))
  }

  lemma SeenPush<T, U>(f: (nat, T) -> U, q: seq<seq<T>>, i: nat, x: T)
    requires i < |q|
    ensures Seen(f, Push(q, i, x)) == Push(Seen(f, q), i, f(i, x))
  {
    assert SeenIn(f, i, q[i] + [x]) == SeenIn(f, i, q[i]) + [f(i, x)];
  }

  lemma SeenPop<T, U>(f: (nat, T) -> U, q: seq<seq<T>>, i: nat)
    requires i < |q| && q[i] != []
    ensures Seen(f, q)[i] != [] && Seen(f, q)[i][0] == f(i, q[i][0])
    ensures Seen(f, Pop(q, i)) == Pop(Seen(f, q), i)
  {
    assert SeenIn(f, i, q[i][1..]) == SeenIn(f, i, q[i])[1..];
  }

  lemma SeenEmpty<T, U>(f: (nat, T) -> U, q: seq<seq<T>>)
    requires AllEmpty(q)
    ensures Upward(Seen(f, q)) == [] && Downward(Seen(f, q)) == []
  {
    EmptyPipeline(Seen(f, q));
  }

  lemma {:induction false} EmptyPipeline<T>(q: seq<seq<T>>)
    requires AllEmpty(q)
    ensures Upward(q) == [] && Downward(q) == []
  {
    if q != [] {
      assert forall i | 0 <= i < |q[1..]| :: q[1..][i] == q[i + 1];
      EmptyPipeline(q[1..]);
    }
  }

  // ---- Upward

  lemma PushFirst<T>(q: seq<seq<T>>, x: T)
    requires |q| > 0
    ensures Upward(Push(q, 0, x)) == Upward(q) + [x]
  {
    assert Push(q, 0, x)[1..] == q[1..];
  }

  lemma {:induction false} MoveUp<T>(q: seq<seq<T>>, i: nat)
    requires i + 1 < |q| && q[i] != []
    ensures Upward(Push(Pop(q, i), i + 1, q[i][0])) == Upward(q)
  {
    var x := q[i][0];
    var r := Push(Pop(q, i), i + 1, x);
    if i == 0 {
      assert r[1..] == Push(q[1..], 0, x);
      PushFirst(q[1..], x);
      assert q[0] == [x] + r[0];
    } else {
      assert r[1..] == Push(Pop(q[1..], i - 1), i, x);
      MoveUp(q[1..], i - 1);
    }
  }

  lemma {:induction false} PopLast<T>(q: seq<seq<T>>)
    requires |q| > 0 && q[|q| - 1] != []
    ensures Upward(q) == [q[|q| - 1][0]] + Upward(Pop(q, |q| - 1))
  {
    var n := |q| - 1;
    if n == 0 {
    } else {
      assert Pop(q, n)[1..] == Pop(q[1..], n - 1);
      PopLast(q[1..]);
    }
  }

  /** The head of a queue is in the pipeline, with the rest of its queue and every lower queue after it. */
  lemma {:induction false} HeadPosition<T>(q: seq<seq<T>>, i: nat) returns (p: nat)
    requires i < |q| && q[i] != []
    ensures p < |Upward(q)| && Upward(q)[p] == q[i][0]
    ensures p == |Upward(q)| - 1 ==> |q[i]| == 1 && forall j | 0 <= j < i :: q[j] == []
  {
    if i == 0 {
      p := |Upward(q[1..])|;
    } else {
      p := HeadPosition(q[1..], i - 1);
      forall j | 0 <= j < i && p == |Upward(q)| - 1
        ensures q[j] == []
      {
        assert |Upward(q)| == |Upward(q[1..])| + |q[0]|;
        if j > 0 {
          assert q[j] == q[1..][j - 1];
        }
      }
    }
  }

  // ---- Downward

  lemma {:induction false} PushLast<T>(q: seq<seq<T>>, x: T)
    requires |q| > 0
    ensures Downward(Push(q, |q| - 1, x)) == Downward(q) + [x]
  {
    var n := |q| - 1;
    if n == 0 {
      assert Push(q, 0, x)[1..] == q[1..] == [];
    } else {
      assert Push(q, n, x)[1..] == Push(q[1..], n - 1, x);
      PushLast(q[1..], x);
    }
  }

  lemma {:induction false} MoveDown<T>(q: seq<seq<T>>, i: nat)
    requires i + 1 < |q| && q[i + 1] != []
    ensures Downward(Push(Pop(q, i + 1), i, q[i + 1][0])) == Downward(q)
  {
    var x := q[i + 1][0];
    var r := Push(Pop(q, i + 1), i, x);
    if i == 0 {
      assert r[1..] == Pop(q[1..], 0);
      assert q[1..] == [q[1]] + q[2..];
      assert Pop(q[1..], 0)[1..] == q[2..];
      assert q[1..][1..] == q[2..];
      assert q[1] == [x] + q[1][1..];
    } else {
      assert r[1..] == Push(Pop(q[1..], i), i - 1, x);
      MoveDown(q[1..], i - 1);
    }
  }

  lemma PopFirst<T>(q: seq<seq<T>>)
    requires |q| > 0 && q[0] != []
    ensures Downward(q) == [q[0][0]] + Downward(Pop(q, 0))
  {
    assert Pop(q, 0)[1..] == q[1..];
  }
}
