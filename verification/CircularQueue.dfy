// The queue as the object the proxies mutate. Each method runs from one suspension point to the next.
module CircularQueues {
  import opened Chunks
  import Spec = QueueSpec
  import A = AtomicQueue

  /** What a task meets when it runs `get` up to its next suspension point. */
  datatype GetOutcome<T> = Item(value: T) | Ended | Waits

  class CircularQueue<T> {
    const maxsize: nat
    var queue: seq<T>
    var closed: bool
    var locked: bool
    var waiting: set<nat>
    var woken: set<nat>
    ghost var ledger: Spec.Queue<T>

    ghost predicate Valid()
      reads this
    {
      && ledger.Valid()
      && ledger.max == maxsize && ledger.items == queue && ledger.closed == closed
      && !locked
    }

    ghost function State(): A.State<T>
      reads this
    {
      A.State(ledger, waiting, woken)
    }

    constructor (maxsize: nat)
      ensures Valid()
      ensures this.maxsize == maxsize && State() == A.State(Spec.New(maxsize), {}, {})
    {
      this.maxsize := maxsize;
      queue, closed, locked := [], false, false;
      waiting, woken := {}, {};
      ledger := Spec.New(maxsize);
    }

    method Notify()
      modifies this`waiting, this`woken
      ensures A.NotifyOne(old(waiting), old(woken), waiting, woken)
    {
      if waiting != {} {
        var u :| u in waiting;
        waiting, woken := waiting - {u}, woken + {u};
      }
    }

    method Put(task: nat, item: T)
      requires Valid()
      modifies this
      ensures Valid()
      ensures A.Step(old(State()), A.PutBy(task, item), State())
    {
      locked := true;
      if !closed {
        queue := queue + [item];
        if |queue| > maxsize {
          queue := queue[1..];
        }
        Notify();
      }
      ledger := Spec.Put(ledger, item);
      locked := false;
      Spec.PutKeepsValid(old(ledger), item);
    }

    /** One pass of `get`, both for a fresh call and for a task resumed from `wait`. */
    method Get(task: nat) returns (r: GetOutcome<T>)
      requires Valid() && task !in waiting
      modifies this
      ensures Valid()
      ensures match r
              case Item(x) => A.Step(old(State()), A.GotBy(task, Some(x)), State())
              case Ended => A.Step(old(State()), A.GotBy(task, None), State())
              case Waits => A.Step(old(State()), A.ParkedBy(task), State())
    {
      woken := woken - {task};
      locked := true;
      if |queue| == 0 && !closed {
        waiting := waiting + {task};
        r := Waits;
      } else if |queue| != 0 {
        r := Item(queue[0]);
        queue := queue[1..];
        ledger := Spec.Take(ledger);
        Spec.TakeKeepsValid(old(ledger));
      } else {
        r := Ended;
      }
      locked := false;
    }

    method CloseQueue(task: nat)
      requires Valid()
      modifies this
      ensures Valid()
      ensures A.Step(old(State()), A.ClosedBy(task), State())
    {
      locked := true;
      closed := true;
      waiting, woken := {}, woken + waiting;
      ledger := Spec.Close(ledger);
      locked := false;
    }

    /** A cancelled `wait` leaves the condition's list of waiters and gives the lock back. */
    method CancelWait(task: nat)
      requires Valid() && (task in waiting || (task in woken && waiting == {}))
      modifies this
      ensures Valid()
      ensures A.Step(old(State()), A.CancelledBy(task), State())
    {
      waiting, woken := waiting - {task}, woken - {task};
      locked := true;
      locked := false;
    }
  }
}
