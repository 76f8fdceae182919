// The bounded queue of the TCP proxies: a deque with a maximum length, a closed flag, and one
// condition variable. `Queue` is its value together with a ledger of everything that was accepted.
module QueueSpec {
  import opened Chunks

  /**
   * `items` and `closed` are the fields of the source's class. The ledger numbers the accepted
   * items from 0: `pops` and `lost` are the numbers of the items that were handed out and of those
   * that were pushed out by a later `put`, with their values in `out` and `dropped`.
   */
  datatype Queue<T> = Queue(max: nat, items: seq<T>, closed: bool,
                            accepted: seq<T>, out: seq<T>, dropped: seq<T>,
                            pops: seq<int>, lost: seq<int>)
  {
    /** The number of the item at the front. */
    function Head(): int {
      |accepted| - |items|
    }

    ghost predicate Valid() {
      && |items| <= max
      && |items| <= |accepted|
      && (forall j :: 0 <= j < |items| ==> items[j] == accepted[Head() + j])
      && |dropped| == |lost|
      && (lost == [] ==> out <= accepted && |out| == Head())
    }

    /** The two lists of numbers partition the items that have left the queue. */
    ghost predicate Ledger() {
      && Listed(pops, out) && Listed(lost, dropped)
      && (forall i :: 0 <= i < Head() ==> (i in pops) != (i in lost))
    }

    /** `numbers` is strictly increasing, stays in front of the queue, and `values` are those items. */
    ghost predicate Listed(numbers: seq<int>, values: seq<T>) {
      && |numbers| == |values|
      && (forall j :: 0 <= j < |numbers| ==> 0 <= numbers[j] < Head() <= |accepted| && values[j] == accepted[numbers[j]])
      && (forall j, k :: 0 <= j < k < |numbers| ==> numbers[j] < numbers[k])
    }
  }

  function New<T>(max: nat): (q: Queue<T>)
    ensures q.Valid()
  {
    Queue(max, [], false, [], [], [], [], [])
  }

  /** `deque.append` on a deque of maximum length: the front item goes when the length is exceeded. */
  function Put<T>(q: Queue<T>, x: T): Queue<T>
  {
    if q.closed then q
    else
      var longer := q.(items := q.items + [x], accepted := q.accepted + [x]);
      if |longer.items| <= q.max then longer
      else longer.(items := longer.items[1..],
                   dropped := longer.dropped + [longer.items[0]], lost := longer.lost + [longer.Head()])
  }

  function Take<T>(q: Queue<T>): Queue<T>
    requires q.items != []
  {
    q.(items := q.items[1..], out := q.out + [q.items[0]], pops := q.pops + [q.Head()])
  }

  function Close<T>(q: Queue<T>): Queue<T>
  {
    q.(closed := true)
  }

  lemma PutKeepsValid<T>(q: Queue<T>, x: T)
    requires q.Valid()
    ensures Put(q, x).Valid()
  {
  }

  lemma TakeKeepsValid<T>(q: Queue<T>)
    requires q.Valid() && q.items != []
    ensures Take(q).Valid()
  {
  }

  lemma CloseKeepsValid<T>(q: Queue<T>)
    requires q.Valid()
    ensures Close(q).Valid()
  {
  }

  /** The front item leaves: one of the lists gets its number and value. */
  lemma LeaveKeepsListed<T>(q: Queue<T>, q': Queue<T>, numbers: seq<int>, values: seq<T>)
    requires 0 <= q.Head() < |q.accepted| && q.items[0] == q.accepted[q.Head()] && q.Listed(numbers, values)
    requires q'.accepted == q.accepted && q'.items == q.items[1..]
    ensures q'.Listed(numbers, values)
    ensures q'.Listed(numbers + [q.Head()], values + [q.items[0]])
    ensures forall i :: i in numbers + [q.Head()] <==> i in numbers || i == q.Head()
    ensures q.Head() !in numbers
  {
    assert q'.Head() == q.Head() + 1;
    var more := numbers + [q.Head()];
    assert forall j :: 0 <= j < |numbers| ==> more[j] == numbers[j] < q.Head();
    assert more[|numbers|] == q.Head();
  }

  lemma TakeKeepsLedger<T>(q: Queue<T>)
    requires q.Valid() && q.Ledger() && q.items != []
    ensures Take(q).Ledger()
  {
    LeaveKeepsListed(q, Take(q), q.pops, q.out);
    LeaveKeepsListed(q, Take(q), q.lost, q.dropped);
  }

  lemma PutKeepsLedger<T>(q: Queue<T>, x: T)
    requires q.Valid() && q.Ledger()
    ensures Put(q, x).Ledger()
  {
    var longer := q.(items := q.items + [x], accepted := q.accepted + [x]);
    assert longer.Head() == q.Head();
    assert longer.Listed(q.pops, q.out) && longer.Listed(q.lost, q.dropped);
    if !q.closed && |longer.items| > q.max {
      assert longer.items[0] == longer.accepted[longer.Head()];
      LeaveKeepsListed(longer, Put(q, x), q.pops, q.out);
      LeaveKeepsListed(longer, Put(q, x), q.lost, q.dropped);
    }
  }

  lemma CloseKeepsLedger<T>(q: Queue<T>)
    requires q.Ledger()
    ensures Close(q).Ledger()
  {
    var q' := Close(q);
    assert q'.Head() == q.Head();
    assert q'.Listed(q.pops, q.out) && q'.Listed(q.lost, q.dropped);
  }

  // Histories of calls, from a new queue.

  datatype Op<T> = OpPut(item: T) | OpGet | OpClose

  function Apply<T>(q: Queue<T>, op: Op<T>): Queue<T>
  {
    match op
    case OpPut(x) => Put(q, x)
    case OpGet => if q.items == [] then q else Take(q)
    case OpClose => Close(q)
  }

  function Run<T>(ops: seq<Op<T>>, max: nat): Queue<T>
  {
    if ops == [] then New(max) else Apply(Run(ops[..|ops| - 1], max), ops[|ops| - 1])
  }

  /** The same history applied to a given queue, first call first. */
  function Continue<T>(q: Queue<T>, ops: seq<Op<T>>): Queue<T>
    decreases |ops|
  {
    if ops == [] then q else Continue(Apply(q, ops[0]), ops[1..])
  }

  lemma {:induction false} RunIsContinue<T>(before: seq<Op<T>>, ops: seq<Op<T>>, max: nat)
    ensures Run(before + ops, max) == Continue(Run(before, max), ops)
    decreases |ops|
  {
    if ops == [] {
      assert before + ops == before;
    } else {
      var next := before + [ops[0]];
      assert next[..|before|] == before && before + ops == next + ops[1..];
      RunIsContinue(next, ops[1..], max);
    }
  }

  lemma ApplyKeepsValid<T>(q: Queue<T>, op: Op<T>)
    requires q.Valid() && q.Ledger()
    ensures var q' := Apply(q, op);
            q'.Valid() && q'.Ledger() && q'.max == q.max && q'.closed == (q.closed || op.OpClose?)
    ensures Apply(q, op).accepted == q.accepted + (if op.OpPut? && !q.closed then [op.item] else [])
  {
    match op {
      case OpPut(x) => PutKeepsValid(q, x); PutKeepsLedger(q, x);
      case OpGet => if q.items != [] { TakeKeepsValid(q); TakeKeepsLedger(q); }
      case OpClose => CloseKeepsLedger(q);
    }
  }

  /** The items put before the first `close`, read off the history from its start. */
  function PutsBeforeClose<T>(ops: seq<Op<T>>): seq<T>
  {
    if ops == [] || ops[0].OpClose? then []
    else (if ops[0].OpPut? then [ops[0].item] else []) + PutsBeforeClose(ops[1..])
  }

  lemma {:induction false} PutsSnoc<T>(ops: seq<Op<T>>, op: Op<T>)
    ensures PutsBeforeClose(ops + [op])
         == PutsBeforeClose(ops) + (if op.OpPut? && OpClose !in ops then [op.item] else [])
  {
    if ops == [] {
      assert ops + [op] == [op];
    } else {
      assert (ops + [op])[1..] == ops[1..] + [op];
      PutsSnoc(ops[1..], op);
      assert ops == [ops[0]] + ops[1..];
    }
  }

  /** Every history keeps the queue's invariant; what was accepted is exactly what was put before closing. */
  lemma {:induction false} RunIsValid<T>(ops: seq<Op<T>>, max: nat)
    ensures var q := Run(ops, max);
            q.Valid() && q.Ledger() && q.max == max && q.accepted == PutsBeforeClose(ops) && (q.closed <==> OpClose in ops)
  {
    if ops == [] {
    } else {
      var before, op := ops[..|ops| - 1], ops[|ops| - 1];
      RunIsValid(before, max);
      assert ops == before + [op];
      PutsSnoc(before, op);
      ApplyKeepsValid(Run(before, max), op);
    }
  }

  /**
   * Contents after any history: the queue holds the newest accepted items, at most `max` of them and
   * without a gap; the numbers of handed-out, lost and queued items partition 0..accepted, and both
   * lists are in increasing order.
   */
  lemma ContiguousBlock<T>(ops: seq<Op<T>>, max: nat)
    ensures var q := Run(ops, max); var puts := PutsBeforeClose(ops);
            && |q.items| <= max && |q.items| <= |puts| && |q.out| == |q.pops|
            && q.items == puts[|puts| - |q.items|..]
            && (forall i :: 0 <= i < |puts| ==>
                  (if i >= |puts| - |q.items| then i !in q.pops && i !in q.lost else (i in q.pops) != (i in q.lost)))
            && (forall j, k :: 0 <= j < k < |q.pops| ==> q.pops[j] < q.pops[k])
            && (forall j, k :: 0 <= j < k < |q.lost| ==> q.lost[j] < q.lost[k])
            && (forall j :: 0 <= j < |q.pops| ==> 0 <= q.pops[j] < |puts| && q.out[j] == puts[q.pops[j]])
  {
    RunIsValid(ops, max);
    var q, puts := Run(ops, max), PutsBeforeClose(ops);
    assert q.items == puts[|puts| - |q.items|..];
  }

  lemma {:induction false} LedgerGrows<T>(ops: seq<Op<T>>, k: nat, max: nat)
    requires k <= |ops|
    ensures Run(ops[..k], max).lost <= Run(ops, max).lost
    ensures Run(ops[..k], max).pops <= Run(ops, max).pops
    ensures Run(ops[..k], max).accepted <= Run(ops, max).accepted
  {
    if k == |ops| {
      assert ops[..k] == ops;
    } else {
      var before := ops[..|ops| - 1];
      LedgerGrows(before, k, max);
      assert before[..k] == ops[..k];
    }
  }

  /**
   * Exact loss: item `i` is lost if and only if, at some point of the history, item `i + max` has been
   * accepted while `i` has not been handed out.
   */
  lemma LossExact<T>(ops: seq<Op<T>>, max: nat, i: nat)
    ensures i in Run(ops, max).lost <==>
            exists k :: 0 <= k <= |ops| && Overtaken(ops[..k], max, i)
  {
    if i in Run(ops, max).lost {
      LostWasOvertaken(ops, max, i);
    }
    forall k | 0 <= k <= |ops| && Overtaken(ops[..k], max, i)
      ensures i in Run(ops, max).lost
    {
      RunIsValid(ops[..k], max);
      LedgerGrows(ops, k, max);
    }
  }

  ghost predicate Overtaken<T>(ops: seq<Op<T>>, max: nat, i: nat)
  {
    |PutsBeforeClose(ops)| > i + max && i !in Run(ops, max).pops
  }

  lemma {:induction false} LostWasOvertaken<T>(ops: seq<Op<T>>, max: nat, i: nat)
    requires i in Run(ops, max).lost
    ensures exists k :: 0 <= k <= |ops| && Overtaken(ops[..k], max, i)
  {
    var before, q := ops[..|ops| - 1], Run(ops[..|ops| - 1], max);
    if i in q.lost {
      LostWasOvertaken(before, max, i);
      var k :| 0 <= k <= |before| && Overtaken(before[..k], max, i);
      assert before[..k] == ops[..k];
    } else {
      RunIsValid(before, max);
      JustLost(q, ops[|ops| - 1], i);
      RunIsValid(ops, max);
      assert ops[..|ops|] == ops;
    }
  }

  lemma JustLost<T>(q: Queue<T>, op: Op<T>, i: nat)
    requires q.Valid() && q.Ledger() && i !in q.lost && i in Apply(q, op).lost
    ensures |Apply(q, op).accepted| > i + q.max && i !in Apply(q, op).pops
  {
  }
}
