// The queue under asyncio. `AtomicQueue` gives put, get and close as single steps; `AsyncQueue` gives
// them as the code runs them: acquire the lock, act, wait or notify, release, with other tasks
// scheduled at suspension points.
module AtomicQueue {
  import opened Chunks
  import opened QueueSpec

  /** `waiting`: parked in `wait` and not notified. `woken`: notified, but not past its `wait` yet. */
  datatype State<T> = State(q: Queue<T>, waiting: set<nat>, woken: set<nat>)

  datatype Label<T> = PutBy(task: nat, item: T)
                    | GotBy(task: nat, result: Option<T>)
                    | ParkedBy(task: nat)
                    | ClosedBy(task: nat)
                    | CancelledBy(task: nat)

  /** `notify` moves one task that is still waiting, if there is one. */
  ghost predicate NotifyOne(waiting: set<nat>, woken: set<nat>, waiting': set<nat>, woken': set<nat>)
  {
    if waiting == {} then waiting' == waiting && woken' == woken
    else exists u :: u in waiting && waiting' == waiting - {u} && woken' == woken + {u}
  }

  ghost predicate Step<T>(a: State<T>, l: Label<T>, b: State<T>)
  {
    match l
    case PutBy(t, x) =>
      && b.q == Put(a.q, x)
      && (if a.q.closed then b.waiting == a.waiting && b.woken == a.woken
          else NotifyOne(a.waiting, a.woken, b.waiting, b.woken))
    case GotBy(t, r) =>
      && t !in a.waiting && b.waiting == a.waiting && b.woken == a.woken - {t}
      && (if a.q.items != [] then r == Some(a.q.items[0]) && b.q == Take(a.q)
          else a.q.closed && r == None && b.q == a.q)
    case ParkedBy(t) =>
      && t !in a.waiting && a.q.items == [] && !a.q.closed && b.q == a.q
      && b.waiting == a.waiting + {t} && b.woken == a.woken - {t}
    case ClosedBy(t) =>
      b.q == Close(a.q) && b.waiting == {} && b.woken == a.woken + a.waiting
    case CancelledBy(t) =>  // a cancelled waiter; a notified one only while nobody else waits
      && (t in a.waiting || (t in a.woken && a.waiting == {}))
      && b.q == a.q && b.waiting == a.waiting - {t} && b.woken == a.woken - {t}
  }

  /** An accepted put wakes exactly one waiting task if there is one, and a refused put none. */
  lemma PutWakesOne<T>(a: State<T>, t: nat, x: T, b: State<T>)
    requires Step(a, PutBy(t, x), b) && a.waiting !! a.woken
    ensures b.waiting <= a.waiting && a.woken <= b.woken && b.waiting + b.woken == a.waiting + a.woken
    ensures |b.waiting| == (if a.q.closed || a.waiting == {} then |a.waiting| else |a.waiting| - 1)
    ensures |b.woken| == (if a.q.closed || a.waiting == {} then |a.woken| else |a.woken| + 1)
  {
    if !a.q.closed && a.waiting != {} {
      var u :| u in a.waiting && b.waiting == a.waiting - {u} && b.woken == a.woken + {u};
    }
  }

  /** A close wakes all, and no other operation wakes anybody. */
  lemma OthersWake<T>(a: State<T>, l: Label<T>, b: State<T>)
    requires Step(a, l, b) && !l.PutBy?
    ensures l.ClosedBy? ==> b.waiting == {} && b.woken == a.woken + a.waiting
    ensures !l.ClosedBy? ==> b.woken <= a.woken && a.woken <= b.woken + {l.task}
    ensures !l.ClosedBy? ==> a.waiting <= b.waiting + {l.task} && b.waiting <= a.waiting + {l.task}
  {
  }

  /** The trace of labels `ls` leads from a new queue to `b`. */
  ghost predicate Reaches<T(!new)>(max: nat, ls: seq<Label<T>>, b: State<T>)
  {
    if ls == [] then b == State(New(max), {}, {})
    else
      var before, l := ls[..|ls| - 1], ls[|ls| - 1];
      exists a :: Reaches(max, before, a) && Step(a, l, b)
  }

  ghost predicate NoneForgotten<T>(a: State<T>)
  {
    && a.q.Valid()
    && a.waiting !! a.woken
    && (a.waiting != {} ==> !a.q.closed && |a.q.items| <= |a.woken|)
  }

  lemma OneFewer(s: set<nat>, t: nat)
    ensures |s - {t}| >= |s| - 1
  {
  }

  lemma PutForgetsNone<T>(a: State<T>, x: T, b: State<T>)
    requires a.q.Valid() && a.waiting !! a.woken && (a.waiting != {} ==> |a.q.items| <= |a.woken|)
    requires !a.q.closed && b.q == Put(a.q, x) && NotifyOne(a.waiting, a.woken, b.waiting, b.woken)
    ensures b.waiting !! b.woken && (b.waiting != {} ==> |b.q.items| <= |b.woken|)
  {
  }

  lemma GetForgetsNone<T>(a: State<T>, t: nat, r: Option<T>, b: State<T>)
    requires NoneForgotten(a) && Step(a, GotBy(t, r), b)
    ensures NoneForgotten(b) && b.q.max == a.q.max
  {
    if a.q.items != [] { TakeKeepsValid(a.q); }
    OneFewer(a.woken, t);
  }

  lemma CancelForgetsNone<T>(a: State<T>, t: nat, b: State<T>)
    requires NoneForgotten(a) && Step(a, CancelledBy(t), b)
    ensures NoneForgotten(b) && b.q.max == a.q.max
  {
    if t in a.waiting { assert b.woken == a.woken; }
  }

  lemma StepForgetsNone<T>(a: State<T>, l: Label<T>, b: State<T>)
    requires NoneForgotten(a) && Step(a, l, b)
    ensures NoneForgotten(b) && b.q.max == a.q.max
  {
    match l
    case PutBy(t, x) =>
      PutKeepsValid(a.q, x);
      if !a.q.closed { PutForgetsNone(a, x, b); }
    case GotBy(t, r) => GetForgetsNone(a, t, r, b);
    case CancelledBy(t) => CancelForgetsNone(a, t, b);
    case _ =>
  }

  /**
   * No lost wakeup, for any number of getters: while a task waits un-notified the queue is open and
   * holds no more items than there are notified tasks still to resume. So a task that is alone in
   * waiting, with no other task notified, waits on an open and empty queue.
   */
  lemma {:induction false} NoLostWakeup<T(!new)>(max: nat, ls: seq<Label<T>>, b: State<T>)
    requires Reaches(max, ls, b)
    ensures b.waiting != {} ==> !b.q.closed && |b.q.items| <= |b.woken|
    ensures b.waiting != {} && b.woken == {} ==> !b.q.closed && b.q.items == []
    ensures NoneForgotten(b) && b.q.max == max
  {
    if ls == [] {
    } else {
      var a :| Reaches(max, ls[..|ls| - 1], a) && Step(a, ls[|ls| - 1], b);
      NoLostWakeup(max, ls[..|ls| - 1], a);
      StepForgetsNone(a, ls[|ls| - 1], b);
    }
  }
}

module AsyncQueue {
  import opened Chunks
  import opened QueueSpec
  import A = AtomicQueue

  /** A call of the queue's methods that a task has entered. */
  datatype Call<T> = CallPut(item: T) | CallGet | CallClose

  /**
   * Where a task is. `Away`: suspended outside the queue (say, in `reader.read`). `Outside`: running
   * outside the queue. `...Enter`: about to acquire the lock. `...Blocked`: suspended because the lock
   * was taken. `...Held`: holds the lock. `Parked`: suspended in `wait`. `Leave`: about to release.
   * `Cancel...`: a cancelled `wait`, which re-acquires the lock before it raises.
   */
  datatype Pc<T> = Away | Outside
                 | PutEnter(item: T) | PutBlocked(item: T) | PutHeld(item: T)
                 | GetEnter | GetBlocked | GetHeld(again: bool) | Parked | Reenter | ReenterBlocked
                 | CloseEnter | CloseBlocked | CloseHeld
                 | CancelEnter | CancelBlocked
                 | Leave
  {
    predicate Suspended() {
      Away? || Parked? || PutBlocked? || GetBlocked? || ReenterBlocked? || CloseBlocked? || CancelBlocked?
    }

    predicate HoldsLock() {
      PutHeld? || GetHeld? || CloseHeld? || Leave?
    }

    /** The call that the task is in and that has not acted yet. */
    function Pending(): seq<Call<T>> {
      match this
      case PutEnter(x) => [CallPut(x)]
      case PutBlocked(x) => [CallPut(x)]
      case PutHeld(x) => [CallPut(x)]
      case CloseEnter => [CallClose]
      case CloseBlocked => [CallClose]
      case CloseHeld => [CallClose]
      case Away => []
      case Outside => []
      case CancelEnter => []
      case CancelBlocked => []
      case Leave => []
      case _ => [CallGet]
    }

    /** The item that the task has produced and not put yet. */
    function InHand(): seq<T> {
      match this
      case PutEnter(x) => [x]
      case PutBlocked(x) => [x]
      case PutHeld(x) => [x]
      case _ => []
    }
  }

  /**
   * One event loop. At most one task runs, and it keeps running until it suspends itself. `produced`: the
   * items that reads have returned so far. `entered`: the calls that each task has entered so far.
   */
  datatype Loop<T> = Loop(q: Queue<T>, waiting: set<nat>, woken: set<nat>, locked: bool,
                          running: Option<nat>, pc: map<nat, Pc<T>>,
                          produced: seq<T>, entered: map<nat, seq<Call<T>>>)
  {
    function Set(t: nat, p: Pc<T>): Loop<T> {
      this.(pc := pc[t := p])
    }

    function Suspend(t: nat, p: Pc<T>): Loop<T> {
      this.(pc := pc[t := p], running := None)
    }

    function Resume(t: nat, p: Pc<T>): Loop<T> {
      this.(pc := pc[t := p], running := Some(t))
    }

    /** `lock.acquire()`: at once when the lock is free, otherwise the task suspends. */
    function Acquire(t: nat, held: Pc<T>, blocked: Pc<T>): Loop<T> {
      if locked then Suspend(t, blocked) else Set(t, held).(locked := true)
    }
  }

  function Start<T>(max: nat, tasks: set<nat>): Loop<T>
  {
    Loop(New(max), {}, {}, false, None, map t | t in tasks :: Away, [], map t | t in tasks :: [])
  }

  /** One micro-step of task `t`; `l` is the effect on the queue, if the step has one. */
  ghost predicate Step<T>(s: Loop<T>, t: nat, l: Option<A.Label<T>>, s': Loop<T>)
  {
    && t in s.pc
    && s.running == (if s.pc[t].Suspended() then None else Some(t))
    && match s.pc[t] {
         case Away => l.None? && s' == s.Resume(t, Outside)
         case Outside =>
           && l.None? && t in s'.pc
           && (var p := s'.pc[t];
               if p.Away? then s' == s.Suspend(t, Away)
               else (p.PutEnter? || p.GetEnter? || p.CloseEnter?) && t in s.entered
                    && s' == s.Set(t, p).(produced := s.produced + p.InHand(),
                                          entered := s.entered[t := s.entered[t] + p.Pending()]))
         case PutEnter(x) => l.None? && s' == s.Acquire(t, PutHeld(x), PutBlocked(x))
         case GetEnter => l.None? && s' == s.Acquire(t, GetHeld(false), GetBlocked)
         case Reenter => l.None? && s' == s.Acquire(t, GetHeld(true), ReenterBlocked)
         case CloseEnter => l.None? && s' == s.Acquire(t, CloseHeld, CloseBlocked)
         case PutBlocked(x) => !s.locked && l.None? && s' == s.Resume(t, PutEnter(x))
         case GetBlocked => !s.locked && l.None? && s' == s.Resume(t, GetEnter)
         case ReenterBlocked => !s.locked && l.None? && s' == s.Resume(t, Reenter)
         case CloseBlocked => !s.locked && l.None? && s' == s.Resume(t, CloseEnter)
         case CancelBlocked => !s.locked && l.None? && s' == s.Resume(t, CancelEnter)
         case CancelEnter => l.None? && s' == s.Acquire(t, Leave, CancelBlocked)
         case PutHeld(x) =>
           && l == Some(A.PutBy(t, x))
           && s' == s.Set(t, Leave).(q := Put(s.q, x), waiting := s'.waiting, woken := s'.woken)
           && (if s.q.closed then s'.waiting == s.waiting && s'.woken == s.woken
               else A.NotifyOne(s.waiting, s.woken, s'.waiting, s'.woken))
         case GetHeld(_) =>
           if s.q.items != [] then
             l == Some(A.GotBy(t, Some(s.q.items[0]))) && s' == s.Set(t, Leave).(q := Take(s.q))
           else if s.q.closed then
             l == Some(A.GotBy(t, None)) && s' == s.Set(t, Leave)
           else  // wait: release the lock, then suspend
             l == Some(A.ParkedBy(t)) && s' == s.Suspend(t, Parked).(locked := false, waiting := s.waiting + {t})
         case Parked =>  // resumed after a notification, or cancelled
           if l.None? then t in s.woken && s' == s.Resume(t, Reenter).(woken := s.woken - {t})
           else
             && l == Some(A.CancelledBy(t)) && (t in s.waiting || (t in s.woken && s.waiting == {}))
             && s' == s.Resume(t, CancelEnter).(waiting := s.waiting - {t}, woken := s.woken - {t})
         case CloseHeld =>
           l == Some(A.ClosedBy(t))
           && s' == s.Set(t, Leave).(q := Close(s.q), waiting := {}, woken := s.woken + s.waiting)
         case Leave => l.None? && s' == s.Set(t, Outside).(locked := false)
       }
  }

  /** A task that left `wait` but has not re-acquired the lock and acted yet. */
  function Returning<T>(s: Loop<T>): set<nat>
  {
    match s.running
    case Some(t) => if t in s.pc && (s.pc[t].Reenter? || s.pc[t] == GetHeld(true)) then {t} else {}
    case None => {}
  }

  function Abs<T>(s: Loop<T>): A.State<T>
  {
    A.State(s.q, s.waiting, s.woken + Returning(s))
  }

  ghost predicate Inv<T>(s: Loop<T>)
  {
    WaitSets(s) && OneRuns(s)
  }

  ghost predicate WaitSets<T>(s: Loop<T>)
  {
    && s.waiting !! s.woken
    && (forall t :: t in s.waiting || t in s.woken <==> t in s.pc && s.pc[t].Parked?)
  }

  ghost predicate OneRuns<T>(s: Loop<T>)
  {
    && (forall t :: t in s.pc && s.running != Some(t) ==> s.pc[t].Away? || s.pc[t].Parked?)
    && (s.running.Some? ==> s.running.value in s.pc && !s.pc[s.running.value].Suspended())
    && (s.locked <==> s.running.Some? && s.pc[s.running.value].HoldsLock())
  }

  /** Steps that only move a program counter, the lock, or the running task. */
  lemma QuietStepKeepsWaitSets<T>(s: Loop<T>, t: nat, s': Loop<T>)
    requires WaitSets(s) && OneRuns(s) && Step(s, t, None, s') && !s.pc[t].Parked?
    ensures WaitSets(s')
  {
    assert s'.waiting == s.waiting && s'.woken == s.woken && t in s'.pc && !s'.pc[t].Parked?;
    assert forall u :: u != t ==> (u in s'.pc <==> u in s.pc) && (u in s.pc ==> s'.pc[u] == s.pc[u]);
  }

  lemma QuietStepKeepsInv<T>(s: Loop<T>, t: nat, s': Loop<T>)
    requires Inv(s) && Step(s, t, None, s') && !s.pc[t].Parked?
    ensures Inv(s')
  {
    QuietStepKeepsWaitSets(s, t, s');
  }

  lemma ActingStepKeepsInv<T>(s: Loop<T>, t: nat, l: A.Label<T>, s': Loop<T>)
    requires Inv(s) && Step(s, t, Some(l), s')
    ensures Inv(s')
  {
  }

  lemma StepKeepsInv<T>(s: Loop<T>, t: nat, l: Option<A.Label<T>>, s': Loop<T>)
    requires Inv(s) && Step(s, t, l, s')
    ensures Inv(s')
  {
    match l {
      case Some(effect) => ActingStepKeepsInv(s, t, effect, s');
      case None => if !s.pc[t].Parked? { QuietStepKeepsInv(s, t, s'); }
    }
  }

  lemma QuietStepRefines<T>(s: Loop<T>, t: nat, s': Loop<T>)
    requires Inv(s) && Step(s, t, None, s')
    ensures Abs(s') == Abs(s)
  {
  }

  lemma PutRefines<T>(s: Loop<T>, t: nat, l: A.Label<T>, s': Loop<T>)
    requires Inv(s) && Step(s, t, Some(l), s') && l.PutBy?
    ensures A.Step(Abs(s), l, Abs(s'))
  {
    assert s.pc[t].PutHeld? && Returning(s) == Returning(s') == {};
    if !s.q.closed && s.waiting != {} {
      var u :| u in s.waiting && s'.waiting == s.waiting - {u} && s'.woken == s.woken + {u};
    }
  }

  lemma GetRefines<T>(s: Loop<T>, t: nat, l: A.Label<T>, s': Loop<T>)
    requires Inv(s) && Step(s, t, Some(l), s') && (l.GotBy? || l.ParkedBy?)
    ensures A.Step(Abs(s), l, Abs(s'))
  {
    assert s.pc[t].GetHeld? && Returning(s') == {};
  }

  lemma StepRefines<T>(s: Loop<T>, t: nat, l: Option<A.Label<T>>, s': Loop<T>)
    requires Inv(s) && Step(s, t, l, s')
    ensures Inv(s')
    ensures l.None? ==> Abs(s') == Abs(s)
    ensures l.Some? ==> A.Step(Abs(s), l.value, Abs(s'))
  {
    StepKeepsInv(s, t, l, s');
    match l
    case None => QuietStepRefines(s, t, s');
    case Some(PutBy(_, _)) => PutRefines(s, t, l.value, s');
    case Some(GotBy(_, _)) => GetRefines(s, t, l.value, s');
    case Some(ParkedBy(_)) => GetRefines(s, t, l.value, s');
    case Some(ClosedBy(_)) => assert s.pc[t].CloseHeld?;
    case Some(CancelledBy(_)) => assert s.pc[t].Parked?;
  }

  ghost predicate Reaches<T(!new)>(max: nat, tasks: set<nat>, trace: seq<(nat, Option<A.Label<T>>)>, s: Loop<T>)
  {
    if trace == [] then s == Start(max, tasks)
    else
      var (t, l) := trace[|trace| - 1];
      exists p :: Reaches(max, tasks, trace[..|trace| - 1], p) && Step(p, t, l, s)
  }

  function Effects<T>(trace: seq<(nat, Option<A.Label<T>>)>): seq<A.Label<T>>
  {
    if trace == [] then []
    else
      Effects(trace[..|trace| - 1]) +
      (match trace[|trace| - 1].1 case None => [] case Some(l) => [l])
  }

  /**
   * Atomicity reduction: every fine-grained run has the same effects, in the same order and with the
   * same results, as a run of atomic puts, gets and closes.
   */
  lemma {:induction false} Reduction<T(!new)>(max: nat, tasks: set<nat>, trace: seq<(nat, Option<A.Label<T>>)>, s: Loop<T>)
    requires Reaches(max, tasks, trace, s)
    ensures Inv(s)
    ensures A.Reaches(max, Effects(trace), Abs(s))
  {
    if trace == [] {
    } else {
      var (t, l) := trace[|trace| - 1];
      var before := trace[..|trace| - 1];
      var p :| Reaches(max, tasks, before, p) && Step(p, t, l, s);
      Reduction(max, tasks, before, p);
      StepRefines(p, t, l, s);
      if l.Some? {
        assert Effects(trace)[..|Effects(trace)| - 1] == Effects(before);
      } else {
        assert Effects(trace) == Effects(before);
      }
    }
  }

  /** What the running task has produced and not put yet. */
  function Hand<T>(s: Loop<T>): seq<T>
  {
    match s.running
    case Some(t) => if t in s.pc then s.pc[t].InHand() else []
    case None => []
  }

  function PutItem<T>(l: Option<A.Label<T>>): seq<T>
  {
    if l.Some? && l.value.PutBy? then [l.value.item] else []
  }

  function PutItems<T>(trace: seq<(nat, Option<A.Label<T>>)>): seq<T>
  {
    if trace == [] then [] else PutItems(trace[..|trace| - 1]) + PutItem(trace[|trace| - 1].1)
  }

  lemma HandAfterStep<T>(s: Loop<T>, t: nat, l: Option<A.Label<T>>, s': Loop<T>, done: seq<T>)
    requires Inv(s) && Step(s, t, l, s') && s.produced == done + Hand(s)
    ensures s'.produced == (done + PutItem(l)) + Hand(s')
  {
    match s.pc[t]
    case Outside => assert (done + []) + s'.pc[t].InHand() == done + s'.pc[t].InHand();
    case PutHeld(x) => assert Hand(s) == [x];
    case _ =>
  }

  lemma {:induction false} ProducedIsPutOrInHand<T(!new)>(max: nat, tasks: set<nat>,
                                                          trace: seq<(nat, Option<A.Label<T>>)>, s: Loop<T>)
    requires Reaches(max, tasks, trace, s)
    ensures s.produced == PutItems(trace) + Hand(s)
  {
    if trace == [] {
    } else {
      var (t, l) := trace[|trace| - 1];
      var before := trace[..|trace| - 1];
      var p :| Reaches(max, tasks, before, p) && Step(p, t, l, s);
      ProducedIsPutOrInHand(max, tasks, before, p);
      Reduction(max, tasks, before, p);
      HandAfterStep(p, t, l, s, PutItems(before));
    }
  }

  // Every call acts.

  /** The call that a task completes by a label; parking completes none. */
  function Completes<T>(l: Option<A.Label<T>>, t: nat): seq<Call<T>>
  {
    match l
    case Some(PutBy(u, x)) => if u == t then [CallPut(x)] else []
    case Some(GotBy(u, _)) => if u == t then [CallGet] else []
    case Some(CancelledBy(u)) => if u == t then [CallGet] else []
    case Some(ClosedBy(u)) => if u == t then [CallClose] else []
    case _ => []
  }

  function Completed<T>(trace: seq<(nat, Option<A.Label<T>>)>, t: nat): seq<Call<T>>
  {
    if trace == [] then [] else Completed(trace[..|trace| - 1], t) + Completes(trace[|trace| - 1].1, t)
  }

  lemma OtherCallsAfterStep<T>(s: Loop<T>, u: nat, l: Option<A.Label<T>>, s': Loop<T>, t: nat)
    requires Step(s, u, l, s') && t in s.pc && t in s.entered && t != u
    ensures t in s'.pc && t in s'.entered
    ensures s'.entered[t] == s.entered[t] && s'.pc[t] == s.pc[t] && Completes(l, t) == []
  {
  }

  /** A task outside the queue enters a call, or suspends. */
  lemma EntersCall<T>(s: Loop<T>, t: nat, s': Loop<T>)
    requires Step(s, t, None, s') && t in s.entered && s.pc[t].Outside?
    ensures t in s'.pc && t in s'.entered && s'.entered[t] == s.entered[t] + s'.pc[t].Pending()
  {
    assert s.entered[t] + [] == s.entered[t];
  }

  lemma QuietKeepsCall<T>(s: Loop<T>, t: nat, s': Loop<T>)
    requires Step(s, t, None, s') && !s.pc[t].Outside?
    ensures t in s'.pc && s'.entered == s.entered && s'.pc[t].Pending() == s.pc[t].Pending()
  {
  }

  lemma QuietCallsAfterStep<T>(s: Loop<T>, t: nat, s': Loop<T>, done: seq<Call<T>>)
    requires Step(s, t, None, s') && t in s.entered && s.entered[t] == done + s.pc[t].Pending()
    ensures t in s'.pc && t in s'.entered && s'.entered[t] == done + s'.pc[t].Pending()
  {
    if s.pc[t].Outside? {
      EntersCall(s, t, s');
      assert done + [] == done;
    } else {
      QuietKeepsCall(s, t, s');
    }
  }

  lemma ActingCallsAfterStep<T>(s: Loop<T>, t: nat, l: A.Label<T>, s': Loop<T>)
    requires Step(s, t, Some(l), s') && t in s.entered
    ensures t in s'.pc && s'.entered == s.entered
    ensures s.pc[t].Pending() == Completes(Some(l), t) + s'.pc[t].Pending()
  {
  }

  lemma CallsAfterStep<T>(s: Loop<T>, u: nat, l: Option<A.Label<T>>, s': Loop<T>, t: nat, done: seq<Call<T>>)
    requires Step(s, u, l, s') && t in s.pc && t in s.entered && s.entered[t] == done + s.pc[t].Pending()
    ensures t in s'.pc && t in s'.entered
    ensures s'.entered[t] == (done + Completes(l, t)) + s'.pc[t].Pending()
  {
    if t != u {
      OtherCallsAfterStep(s, u, l, s', t);
      assert done + [] == done;
    } else {
      match l
      case None =>
        QuietCallsAfterStep(s, t, s', done);
        assert done + [] == done;
      case Some(effect) =>
        ActingCallsAfterStep(s, t, effect, s');
        assert done + (Completes(l, t) + s'.pc[t].Pending()) == (done + Completes(l, t)) + s'.pc[t].Pending();
    }
  }

  /**
   * Every call that a task has entered has ended in its own label, in order, and the last one has acted or
   * is still pending: none returns without acting, and none acts twice.
   */
  lemma {:induction false} EveryCallActs<T(!new)>(max: nat, tasks: set<nat>, trace: seq<(nat, Option<A.Label<T>>)>,
                                                  s: Loop<T>, t: nat)
    requires Reaches(max, tasks, trace, s) && t in tasks
    ensures t in s.pc && t in s.entered
    ensures s.entered[t] == Completed(trace, t) + s.pc[t].Pending()
    ensures s.pc[t].Outside? || s.pc[t].Away? ==> s.entered[t] == Completed(trace, t)
  {
    if trace == [] {
    } else {
      var (u, l) := trace[|trace| - 1];
      var before := trace[..|trace| - 1];
      var p :| Reaches(max, tasks, before, p) && Step(p, u, l, s);
      EveryCallActs(max, tasks, before, p, t);
      CallsAfterStep(p, u, l, s, t, Completed(before, t));
    }
  }

  /** While one task holds the lock, a step of any other one neither gets it nor touches the items. */
  lemma LockExcludes<T>(s: Loop<T>, t: nat, l: Option<A.Label<T>>, s': Loop<T>)
    requires Step(s, t, l, s') && s.locked && !s.pc[t].HoldsLock()
    ensures t in s'.pc && s'.locked && !s'.pc[t].HoldsLock() && s'.q == s.q
    ensures l.None? || l.value.CancelledBy?
  {
  }

  ghost predicate CanStep<T(!new)>(s: Loop<T>, t: nat)
  {
    exists l, s' :: Step(s, t, l, s')
  }

  /** The lock never blocks progress: a running task can go on, and so can a notified one when none runs. */
  lemma NeverStuck<T(!new)>(s: Loop<T>, t: nat)
    requires Inv(s) && t in s.pc
    requires s.running == Some(t) || (s.running.None? && (t in s.woken || s.pc[t].Away?))
    ensures CanStep(s, t)
  {
    match s.pc[t]
    case Away => assert Step(s, t, None, s.Resume(t, Outside));
    case Outside => assert Step(s, t, None, s.Suspend(t, Away));
    case PutEnter(x) => assert Step(s, t, None, s.Acquire(t, PutHeld(x), PutBlocked(x)));
    case GetEnter => assert Step(s, t, None, s.Acquire(t, GetHeld(false), GetBlocked));
    case Reenter => assert Step(s, t, None, s.Acquire(t, GetHeld(true), ReenterBlocked));
    case CloseEnter => assert Step(s, t, None, s.Acquire(t, CloseHeld, CloseBlocked));
    case CancelEnter => assert Step(s, t, None, s.Acquire(t, Leave, CancelBlocked));
    case PutHeld(x) => PutCanStep(s, t);
    case GetHeld(_) => GetCanStep(s, t);
    case Parked => assert Step(s, t, None, s.Resume(t, Reenter).(woken := s.woken - {t}));
    case CloseHeld =>
      var s' := s.Set(t, Leave).(q := Close(s.q), waiting := {}, woken := s.woken + s.waiting);
      assert Step(s, t, Some(A.ClosedBy(t)), s');
    case Leave => assert Step(s, t, None, s.Set(t, Outside).(locked := false));
    case _ =>
  }

  lemma PutCanStep<T(!new)>(s: Loop<T>, t: nat)
    requires t in s.pc && s.pc[t].PutHeld? && s.running == Some(t)
    ensures CanStep(s, t)
  {
    var x := s.pc[t].item;
    var s' := s.Set(t, Leave).(q := Put(s.q, x));
    if !s.q.closed && s.waiting != {} {
      var u :| u in s.waiting;
      s' := s'.(waiting := s.waiting - {u}, woken := s.woken + {u});
    }
    assert Step(s, t, Some(A.PutBy(t, x)), s');
  }

  lemma GetCanStep<T(!new)>(s: Loop<T>, t: nat)
    requires t in s.pc && s.pc[t].GetHeld? && s.running == Some(t)
    ensures CanStep(s, t)
  {
    if s.q.items != [] {
      assert Step(s, t, Some(A.GotBy(t, Some(s.q.items[0]))), s.Set(t, Leave).(q := Take(s.q)));
    } else if s.q.closed {
      assert Step(s, t, Some(A.GotBy(t, None)), s.Set(t, Leave));
    } else {
      assert Step(s, t, Some(A.ParkedBy(t)), s.Suspend(t, Parked).(locked := false, waiting := s.waiting + {t}));
    }
  }

  /**
   * At every suspension point, which is where a cancellation can land: the lock is free and no task is
   * queued for it; everything that `read` has returned so far has been put, in order; and while a task
   * waits un-notified, the queue is open and has at most as many items as notified tasks.
   */
  lemma SuspensionPoints<T(!new)>(max: nat, tasks: set<nat>, trace: seq<(nat, Option<A.Label<T>>)>, s: Loop<T>)
    requires Reaches(max, tasks, trace, s) && s.running.None?
    ensures !s.locked
    ensures forall t :: t in s.pc ==> s.pc[t].Away? || s.pc[t].Parked?
    ensures s.produced == PutItems(trace)
    ensures s.waiting != {} ==> !s.q.closed && |s.q.items| <= |s.woken|
  {
    Reduction(max, tasks, trace, s);
    ProducedIsPutOrInHand(max, tasks, trace, s);
    A.NoLostWakeup(max, Effects(trace), Abs(s));
    assert Abs(s).woken == s.woken;
  }
}
