/**
 The monitor queue `queuemt` as a transition system.

 A critical section runs from the moment a thread gets the mutex to the moment it waits or
 leaves, so it is one step. Producers and consumers wait on the same condition variable;
 `notify_one` wakes any one waiting thread, a wait may end without a notification, and a
 timed wait may end by time. `out` and `pushed` record what went through the queue.
 */
module ReadyQueue {
  import opened Times

  datatype Operation<T> =
    | Push(value: T)
    | TimedPush(value: T)
    | WaitAndPop
    | TimedWaitAndPop
    | TryPop
    | Suspend(clear: bool)
    | Resume

  datatype Result<T> = NotCalled | Done | Delivered(value: T) | ReturnedFalse | ThrewSuspended

  datatype Thread<T> =
    | Idle(result: Result<T>)       // outside the queue, with the result of its last call
    | Calling(op: Operation<T>)     // about to take the mutex
    | Waiting(op: Operation<T>)     // in `cond.wait` or `cond.timed_wait`
    | Woken(op: Operation<T>)       // the wait is over, the mutex not retaken yet
    | TimedOut(op: Operation<T>)    // the timed wait ended by time

  /** How a value left the queue: to a caller, or dropped by `suspend( true )`. */
  datatype Removal<T> = ToCaller(value: T) | Dropped(value: T)

  datatype State<T> = State(
    maxSize: nat,
    threads: seq<Thread<T>>,
    queue: seq<T>,
    suspended: bool,
    pushed: seq<T>,
    out: seq<Removal<T>>)
  {
    /** Room for one more value. */
    predicate HasRoom() {
      maxSize == 0 || |queue| < maxSize
    }
  }

  function Init<T>(maxSize: nat, n: nat): (s: State<T>) {
    State(maxSize, seq(n, _ => Idle(NotCalled)), [], false, [], [])
  }

  /** One step of thread t; `who` is the thread that a `notify_one` in it wakes. */
  datatype Action<T> =
    | Call(t: nat, op: Operation<T>)
    | Enter(t: nat, who: Option<nat>)      // the section from the start of the call
    | Continue(t: nat, who: Option<nat>)   // the section after the wait
    | WakeUp(t: nat)                       // a spurious wake-up
    | Timeout(t: nat)

  // ---------------------------------------------------------------- critical sections

  function NotifyOne<T>(threads: seq<Thread<T>>, who: Option<nat>): (r: seq<Thread<T>>)
    requires who.Some? ==> who.value < |threads| && threads[who.value].Waiting?
    ensures |r| == |threads|
  {
    if who.None? then threads else threads[who.value := Woken(threads[who.value].op)]
  }

  function NotifyAll<T>(threads: seq<Thread<T>>): (r: seq<Thread<T>>)
    ensures |r| == |threads|
    ensures forall i | 0 <= i < |threads| :: r[i] == if threads[i].Waiting? then Woken(threads[i].op) else threads[i]
  {
    seq(|threads|, i requires 0 <= i < |threads| => if threads[i].Waiting? then Woken(threads[i].op) else threads[i])
  }

  function Leave<T>(s: State<T>, t: nat, result: Result<T>): (r: State<T>)
    requires t < |s.threads|
  {
    s.(threads := s.threads[t := Idle(result)])
  }

  /** The end of both push operations. */
  function DoPush<T>(s: State<T>, t: nat, value: T, who: Option<nat>): (r: State<T>)
    requires t < |s.threads| && !s.threads[t].Waiting? && WhoIsWaiting(s, who)
  {
    s.(threads := NotifyOne(s.threads, who)[t := Idle(Done)], queue := s.queue + [value], pushed := s.pushed + [value])
  }

  /** The end of the pop operations: consumers notify only when the size is limited. */
  function DoPop<T>(s: State<T>, t: nat, who: Option<nat>): (r: State<T>)
    requires t < |s.threads| && !s.threads[t].Waiting? && WhoIsWaiting(s, who) && s.queue != []
  {
    var threads := if s.maxSize > 0 then NotifyOne(s.threads, who) else s.threads;
    s.(threads := threads[t := Idle(Delivered(s.queue[0]))], queue := s.queue[1..],
      out := s.out + [ToCaller(s.queue[0])])
  }

  function Drop<T>(values: seq<T>): (r: seq<Removal<T>>)
    ensures |r| == |values| && forall i | 0 <= i < |values| :: r[i] == Dropped(values[i])
  {
    seq(|values|, i requires 0 <= i < |values| => Dropped(values[i]))
  }

  predicate WhoIsWaiting<T>(s: State<T>, who: Option<nat>) {
    who.Some? ==> who.value < |s.threads| && s.threads[who.value].Waiting?
  }

  predicate SomeoneWaits<T>(s: State<T>) {
    exists i | 0 <= i < |s.threads| :: s.threads[i].Waiting?
  }

  /** `notify_one` wakes a waiting thread if there is one. */
  predicate Choice<T>(s: State<T>, who: Option<nat>) {
    WhoIsWaiting(s, who) && (who.None? ==> !SomeoneWaits(s))
  }

  /** The section from the start of the call. */
  function EnterSection<T>(s: State<T>, t: nat, who: Option<nat>): (r: State<T>)
    requires t < |s.threads| && s.threads[t].Calling? && WhoIsWaiting(s, who)
  {
    match s.threads[t].op
    case Push(v) =>
      if s.suspended then Leave(s, t, ThrewSuspended)
      else if !s.HasRoom() then s.(threads := s.threads[t := Waiting(Push(v))])
      else DoPush(s, t, v, who)
    case TimedPush(v) =>
      if s.suspended then Leave(s, t, ThrewSuspended)
      else if !s.HasRoom() then s.(threads := s.threads[t := Waiting(TimedPush(v))])
      else DoPush(s, t, v, who)
    case WaitAndPop =>
      if s.queue != [] then DoPop(s, t, who)
      else if s.suspended then Leave(s, t, ThrewSuspended)
      else s.(threads := s.threads[t := Waiting(WaitAndPop)])
    case TimedWaitAndPop =>
      if s.queue != [] then DoPop(s, t, who)
      else if s.suspended then Leave(s, t, ThrewSuspended)
      else s.(threads := s.threads[t := Waiting(TimedWaitAndPop)])
    case TryPop =>
      if s.queue != [] then DoPop(s, t, who)
      else Leave(s, t, if s.suspended then ThrewSuspended else ReturnedFalse)
    case Suspend(clear) =>
      if s.suspended then Leave(s, t, Done)
      else
        s.(threads := NotifyAll(s.threads)[t := Idle(Done)], suspended := true,
           queue := if clear then [] else s.queue,
           out := if clear then s.out + Drop(s.queue) else s.out)
    case Resume =>
      if !s.suspended then Leave(s, t, Done)
      else s.(threads := NotifyAll(s.threads)[t := Idle(Done)], suspended := false)
  }

  /** The section after the wait. The loops wait again; the timed operations look once. */
  function ContinueSection<T>(s: State<T>, t: nat, who: Option<nat>): (r: State<T>)
    requires t < |s.threads| && s.threads[t].Woken? && CanWait(s.threads[t].op) && WhoIsWaiting(s, who)
  {
    match s.threads[t].op
    case Push(v) =>
      if !s.HasRoom() then s.(threads := s.threads[t := Waiting(Push(v))]) else DoPush(s, t, v, who)
    case TimedPush(v) =>
      if !s.HasRoom() then Leave(s, t, ReturnedFalse) else DoPush(s, t, v, who)
    case WaitAndPop =>
      if s.queue != [] then DoPop(s, t, who)
      else if s.suspended then Leave(s, t, ThrewSuspended)
      else s.(threads := s.threads[t := Waiting(WaitAndPop)])
    case TimedWaitAndPop =>
      if s.queue != [] then DoPop(s, t, who) else Leave(s, t, ReturnedFalse)
  }

  predicate CanWait<T>(op: Operation<T>) {
    op.Push? || op.TimedPush? || op.WaitAndPop? || op.TimedWaitAndPop?
  }

  predicate IsTimed<T>(op: Operation<T>) {
    op.TimedPush? || op.TimedWaitAndPop?
  }

  predicate Enabled<T>(s: State<T>, a: Action<T>) {
    && a.t < |s.threads|
    && var th := s.threads[a.t];
       match a
       case Call(_, _) => th.Idle?
       case Enter(_, who) => th.Calling? && Choice(s, who)
       case Continue(_, who) => ((th.Woken? && CanWait(th.op)) || th.TimedOut?) && Choice(s, who)
       case WakeUp(_) => th.Waiting?
       case Timeout(_) => th.Waiting? && IsTimed(th.op)
  }

  function Apply<T>(s: State<T>, a: Action<T>): (r: State<T>)
    requires Enabled(s, a)
  {
    match a
    case Call(t, op) => s.(threads := s.threads[t := Calling(op)])
    case Enter(t, who) => EnterSection(s, t, who)
    case Continue(t, who) =>
      if s.threads[t].TimedOut? then Leave(s, t, ReturnedFalse) else ContinueSection(s, t, who)
    case WakeUp(t) => s.(threads := s.threads[t := Woken(s.threads[t].op)])
    case Timeout(t) => s.(threads := s.threads[t := TimedOut(s.threads[t].op)])
  }

  // ---------------------------------------------------------------- what calls come to

  predicate IsPop<T>(op: Operation<T>) {
    op.WaitAndPop? || op.TimedWaitAndPop? || op.TryPop?
  }

  predicate IsPush<T>(op: Operation<T>) {
    op.Push? || op.TimedPush?
  }

  /** A thread runs a section of a call that has not ended by time. */
  predicate RunsSection<T>(s: State<T>, a: Action<T>) {
    Enabled(s, a) && (a.Enter? || (a.Continue? && s.threads[a.t].Woken?))
  }

  /** A pop that gets the mutex delivers the oldest value if there is one, and else waits, or
      returns without a value, or throws because the queue is suspended. */
  lemma PopsDeliver<T>(s: State<T>, a: Action<T>)
    requires RunsSection(s, a) && IsPop(s.threads[a.t].op)
    ensures var r, th := Apply(s, a), Apply(s, a).threads[a.t];
            if s.queue != [] then th == Idle(Delivered(s.queue[0])) && r.queue == s.queue[1..]
            else r.queue == [] && (th == Waiting(s.threads[a.t].op) || th == Idle(ReturnedFalse)
                                   || (th == Idle(ThrewSuspended) && s.suspended))
  {
  }

  /** A push that gets the mutex appends its value if there is room, unless the queue was
      suspended when it was called; else it waits, or returns without having pushed, or throws. */
  lemma PushesAppend<T>(s: State<T>, a: Action<T>)
    requires RunsSection(s, a) && IsPush(s.threads[a.t].op)
    ensures var r, th := Apply(s, a), Apply(s, a).threads[a.t];
            if a.Enter? && s.suspended then th == Idle(ThrewSuspended) && r.queue == s.queue
            else if s.HasRoom() then th == Idle(Done) && r.queue == s.queue + [s.threads[a.t].op.value]
            else r.queue == s.queue && (th == Waiting(s.threads[a.t].op) || th == Idle(ReturnedFalse))
  {
  }

  /** Suspending and resuming leave no thread waiting, and only say so when they change
      something. */
  lemma SuspendWakesAll<T>(s: State<T>, a: Action<T>)
    requires RunsSection(s, a) && a.Enter? && (s.threads[a.t].op.Suspend? || s.threads[a.t].op.Resume?)
    ensures Apply(s, a).suspended == s.threads[a.t].op.Suspend?
    ensures Apply(s, a).suspended != s.suspended ==> !SomeoneWaits(Apply(s, a))
    ensures Apply(s, a).suspended == s.suspended ==> Apply(s, a).queue == s.queue
  {
  }

  // ---------------------------------------------------------------- runs

  /** The state after some actions, or `None` when one of them was not enabled. */
  function Execute<T>(s: State<T>, actions: seq<Action<T>>): (r: Option<State<T>>) {
    if actions == [] then Some(s)
    else
      var before := Execute(s, actions[..|actions| - 1]);
      var a := actions[|actions| - 1];
      if before.Some? && Enabled(before.value, a) then Some(Apply(before.value, a)) else None
  }

  /** A state that n threads can bring a queue of the given size into. */
  ghost predicate Reachable<T(!new)>(maxSize: nat, n: nat, s: State<T>) {
    exists actions :: Execute(Init(maxSize, n), actions) == Some(s)
  }

  lemma ReachableInit<T(!new)>(maxSize: nat, n: nat)
    ensures Reachable(maxSize, n, Init<T>(maxSize, n))
  {
    assert Execute(Init<T>(maxSize, n), []) == Some(Init<T>(maxSize, n));
  }

  lemma ReachableStep<T(!new)>(maxSize: nat, n: nat, s: State<T>, a: Action<T>)
    requires Reachable(maxSize, n, s) && Enabled(s, a)
    ensures Reachable(maxSize, n, Apply(s, a))
  {
    var actions :| Execute(Init(maxSize, n), actions) == Some(s);
    assert (actions + [a])[..|actions|] == actions;
    assert Execute(Init(maxSize, n), actions + [a]) == Some(Apply(s, a));
  }

  // ---------------------------------------------------------------- order and capacity

  function Values<T>(out: seq<Removal<T>>): (r: seq<T>)
    ensures |r| == |out| && forall i | 0 <= i < |out| :: r[i] == out[i].value
  {
    seq(|out|, i requires 0 <= i < |out| => out[i].value)
  }

  /** First in, first out, and never more than `maxSize` values. */
  predicate InOrder<T(==)>(s: State<T>) {
    && s.pushed == Values(s.out) + s.queue
    && (s.maxSize > 0 ==> |s.queue| <= s.maxSize)
    && (forall i | 0 <= i < |s.threads| :: ThreadInOrder(s.threads[i], s.out))
  }

  /** What `InOrder` says of one thread. */
  predicate ThreadInOrder<T(==)>(th: Thread<T>, out: seq<Removal<T>>) {
    && (th.Waiting? || th.Woken? ==> CanWait(th.op))
    && (th.Idle? && th.result.Delivered? ==> ToCaller(th.result.value) in out)
  }

  lemma ThreadsStayInOrder<T>(s: State<T>, r: State<T>, t: nat)
    requires InOrder(s) && |r.threads| == |s.threads| && s.out <= r.out
    requires forall i | 0 <= i < |s.threads| && i != t ::
               r.threads[i] == s.threads[i] || (s.threads[i].Waiting? && r.threads[i] == Woken(s.threads[i].op))
    requires t < |s.threads| && ThreadInOrder(r.threads[t], r.out)
    ensures forall i | 0 <= i < |r.threads| :: ThreadInOrder(r.threads[i], r.out)
  {
    forall i | 0 <= i < |r.threads| && i != t
      ensures ThreadInOrder(r.threads[i], r.out)
    {
      assert ThreadInOrder(s.threads[i], s.out);
    }
  }

  lemma LeaveInOrder<T>(s: State<T>, t: nat, th: Thread<T>)
    requires InOrder(s) && t < |s.threads| && ThreadInOrder(th, s.out)
    ensures InOrder(s.(threads := s.threads[t := th]))
  {
    ThreadsStayInOrder(s, s.(threads := s.threads[t := th]), t);
  }

  lemma PushInOrder<T>(s: State<T>, t: nat, value: T, who: Option<nat>)
    requires InOrder(s) && s.HasRoom() && t < |s.threads| && !s.threads[t].Waiting? && WhoIsWaiting(s, who)
    ensures InOrder(DoPush(s, t, value, who))
  {
    ThreadsStayInOrder(s, DoPush(s, t, value, who), t);
  }

  lemma PopInOrder<T>(s: State<T>, t: nat, who: Option<nat>)
    requires InOrder(s) && s.queue != [] && t < |s.threads| && !s.threads[t].Waiting? && WhoIsWaiting(s, who)
    ensures InOrder(DoPop(s, t, who))
  {
    var r := DoPop(s, t, who);
    assert r.out[|s.out|] == ToCaller(s.queue[0]);
    ThreadsStayInOrder(s, r, t);
    assert Values(r.out) == Values(s.out) + [s.queue[0]];
    assert Values(r.out) + r.queue == Values(s.out) + s.queue;
  }

  lemma NotifyAllInOrder<T>(s: State<T>, r: State<T>, t: nat)
    requires InOrder(s) && t < |s.threads| && !s.threads[t].Waiting?
    requires r.threads == NotifyAll(s.threads)[t := Idle(Done)]
    requires r.maxSize == s.maxSize && r.pushed == s.pushed
    requires (r.queue == s.queue && r.out == s.out) || (r.queue == [] && r.out == s.out + Drop(s.queue))
    ensures InOrder(r)
  {
    ThreadsStayInOrder(s, r, t);
    assert Values(s.out + Drop(s.queue)) == Values(s.out) + s.queue;
  }

  lemma EnterInOrder<T>(s: State<T>, t: nat, who: Option<nat>)
    requires InOrder(s) && t < |s.threads| && s.threads[t].Calling? && WhoIsWaiting(s, who)
    ensures InOrder(EnterSection(s, t, who))
  {
    var op := s.threads[t].op;
    var r := EnterSection(s, t, who);
    if r == s.(threads := r.threads) && r.threads == s.threads[t := r.threads[t]] {
      LeaveInOrder(s, t, r.threads[t]);
    } else if op.Push? || op.TimedPush? {
      PushInOrder(s, t, op.value, who);
    } else if op.Suspend? || op.Resume? {
      NotifyAllInOrder(s, r, t);
    } else {
      PopInOrder(s, t, who);
    }
  }

  lemma ContinueInOrder<T>(s: State<T>, t: nat, who: Option<nat>)
    requires InOrder(s) && t < |s.threads| && s.threads[t].Woken? && CanWait(s.threads[t].op) && WhoIsWaiting(s, who)
    ensures InOrder(ContinueSection(s, t, who))
  {
    var op := s.threads[t].op;
    var r := ContinueSection(s, t, who);
    if r == s.(threads := r.threads) && r.threads == s.threads[t := r.threads[t]] {
      LeaveInOrder(s, t, r.threads[t]);
    } else if op.Push? || op.TimedPush? {
      PushInOrder(s, t, op.value, who);
    } else {
      PopInOrder(s, t, who);
    }
  }

  lemma InOrderStep<T>(s: State<T>, a: Action<T>)
    requires InOrder(s) && Enabled(s, a)
    ensures InOrder(Apply(s, a)) && Apply(s, a).maxSize == s.maxSize && |Apply(s, a).threads| == |s.threads|
  {
    match a
    case Enter(t, who) => EnterInOrder(s, t, who);
    case Continue(t, who) =>
      if s.threads[t].TimedOut? {
        LeaveInOrder(s, t, Idle(ReturnedFalse));
      } else {
        ContinueInOrder(s, t, who);
      }
    case _ => LeaveInOrder(s, a.t, Apply(s, a).threads[a.t]);
  }

  lemma {:induction false} InOrderRun<T>(maxSize: nat, n: nat, actions: seq<Action<T>>)
    requires Execute(Init<T>(maxSize, n), actions).Some?
    ensures var s := Execute(Init<T>(maxSize, n), actions).value;
            InOrder(s) && s.maxSize == maxSize && |s.threads| == n
  {
    if actions == [] {
    } else {
      var init := actions[..|actions| - 1];
      InOrderRun(maxSize, n, init);
      InOrderStep(Execute(Init<T>(maxSize, n), init).value, actions[|actions| - 1]);
    }
  }

  /** In every interleaving: what left the queue followed by what is in it is what was
      pushed, in that order, and a limited queue never exceeds its limit. */
  lemma AlwaysInOrder<T(!new)>(maxSize: nat, n: nat, s: State<T>)
    requires Reachable(maxSize, n, s)
    ensures s.pushed == Values(s.out) + s.queue
    ensures maxSize > 0 ==> |s.queue| <= maxSize
    ensures s.maxSize == maxSize && |s.threads| == n && InOrder(s)
  {
    var actions :| Execute(Init(maxSize, n), actions) == Some(s);
    InOrderRun(maxSize, n, actions);
  }

  // ---------------------------------------------------------------- wake-ups, unbounded queue

  function CountWoken<T>(threads: seq<Thread<T>>): (n: nat) {
    if threads == [] then 0
    else CountWoken(threads[..|threads| - 1]) + (if threads[|threads| - 1].Woken? then 1 else 0)
  }

  function One(b: bool): (n: nat) {
    if b then 1 else 0
  }

  lemma {:induction false} CountUpdate<T>(threads: seq<Thread<T>>, i: nat, th: Thread<T>)
    requires i < |threads|
    ensures CountWoken(threads[i := th]) == CountWoken(threads) - One(threads[i].Woken?) + One(th.Woken?)
  {
    var n := |threads| - 1;
    var r := threads[i := th];
    if i == n {
      assert r[..n] == threads[..n];
    } else {
      CountUpdate(threads[..n], i, th);
      assert r[..n] == threads[..n][i := th];
    }
  }

  predicate Consumer<T>(op: Operation<T>) {
    op.WaitAndPop? || op.TimedWaitAndPop?
  }

  /** While a thread waits there is a woken thread for every value in the queue. */
  predicate EnoughWoken<T>(s: State<T>) {
    && (forall i | 0 <= i < |s.threads| :: s.threads[i].Waiting? || s.threads[i].Woken? ==> Consumer(s.threads[i].op))
    && (SomeoneWaits(s) ==> |s.queue| <= CountWoken(s.threads))
  }

  lemma NoWaiters<T>(s: State<T>, threads: seq<Thread<T>>)
    requires |threads| == |s.threads| && !SomeoneWaits(s)
    requires forall i | 0 <= i < |threads| :: threads[i].Waiting? ==> s.threads[i].Waiting?
    ensures !SomeoneWaits(s.(threads := threads))
  {
  }

  lemma PushWakes<T>(s: State<T>, t: nat, value: T, who: Option<nat>)
    requires s.maxSize == 0 && EnoughWoken(s) && Choice(s, who)
    requires t < |s.threads| && s.threads[t].Calling?
    ensures EnoughWoken(DoPush(s, t, value, who))
  {
    var threads := NotifyOne(s.threads, who);
    if who.Some? {
      CountUpdate(s.threads, who.value, Woken(s.threads[who.value].op));
      CountUpdate(threads, t, Idle(Done));
    } else {
      NoWaiters(s, threads[t := Idle(Done)]);
      assert !SomeoneWaits(DoPush(s, t, value, who));
    }
  }

  lemma PopKeepsWoken<T>(s: State<T>, t: nat, who: Option<nat>)
    requires s.maxSize == 0 && EnoughWoken(s) && Choice(s, who) && s.queue != []
    requires t < |s.threads| && (s.threads[t].Calling? || s.threads[t].Woken?)
    ensures EnoughWoken(DoPop(s, t, who))
  {
    var r := DoPop(s, t, who);
    CountUpdate(s.threads, t, r.threads[t]);
    if SomeoneWaits(r) {
      var i :| 0 <= i < |r.threads| && r.threads[i].Waiting?;
      assert s.threads[i].Waiting?;
    }
  }

  /** A thread that leaves or waits, with nothing taken out of the queue. */
  lemma OtherThread<T>(s: State<T>, t: nat, th: Thread<T>)
    requires EnoughWoken(s) && t < |s.threads|
    requires th.Waiting? || th.Woken? ==> Consumer(th.op)
    requires (th.Waiting? || s.threads[t].Woken?) && !th.Woken? ==> s.queue == []
    ensures EnoughWoken(s.(threads := s.threads[t := th]))
  {
    var r := s.(threads := s.threads[t := th]);
    CountUpdate(s.threads, t, th);
    if SomeoneWaits(r) && s.queue != [] {
      var i :| 0 <= i < |r.threads| && r.threads[i].Waiting?;
      assert i != t && s.threads[i].Waiting?;
    }
  }

  lemma NotifyAllLeavesNoWaiters<T>(s: State<T>, t: nat, r: State<T>)
    requires EnoughWoken(s) && t < |s.threads|
    requires r.threads == NotifyAll(s.threads)[t := Idle(Done)]
    ensures EnoughWoken(r)
  {
  }

  lemma EnterWakes<T>(s: State<T>, t: nat, who: Option<nat>)
    requires s.maxSize == 0 && EnoughWoken(s) && Choice(s, who)
    requires t < |s.threads| && s.threads[t].Calling?
    ensures EnoughWoken(EnterSection(s, t, who))
  {
    var op := s.threads[t].op;
    var r := EnterSection(s, t, who);
    if op.Suspend? || op.Resume? {
      if r.threads == NotifyAll(s.threads)[t := Idle(Done)] {
        NotifyAllLeavesNoWaiters(s, t, r);
      } else {
        OtherThread(s, t, Idle(Done));
      }
    } else if op.Push? || op.TimedPush? {
      if s.suspended {
        OtherThread(s, t, Idle(ThrewSuspended));
      } else {
        PushWakes(s, t, op.value, who);
      }
    } else if s.queue != [] {
      PopKeepsWoken(s, t, who);
    } else {
      OtherThread(s, t, r.threads[t]);
    }
  }

  lemma ContinueWakes<T>(s: State<T>, t: nat, who: Option<nat>)
    requires s.maxSize == 0 && EnoughWoken(s) && Choice(s, who)
    requires t < |s.threads| && s.threads[t].Woken? && CanWait(s.threads[t].op)
    ensures EnoughWoken(ContinueSection(s, t, who))
  {
    if s.queue != [] {
      PopKeepsWoken(s, t, who);
    } else {
      OtherThread(s, t, ContinueSection(s, t, who).threads[t]);
    }
  }

  lemma EnoughWokenStep<T>(s: State<T>, a: Action<T>)
    requires s.maxSize == 0 && EnoughWoken(s) && Enabled(s, a)
    ensures EnoughWoken(Apply(s, a)) && Apply(s, a).maxSize == 0
  {
    match a
    case Call(t, op) => OtherThread(s, t, Calling(op));
    case Enter(t, who) => EnterWakes(s, t, who);
    case Continue(t, who) =>
      if s.threads[t].TimedOut? {
        OtherThread(s, t, Idle(ReturnedFalse));
      } else {
        ContinueWakes(s, t, who);
      }
    case WakeUp(t) => OtherThread(s, t, Woken(s.threads[t].op));
    case Timeout(t) => OtherThread(s, t, TimedOut(s.threads[t].op));
  }

  lemma {:induction false} EnoughWokenRun<T>(n: nat, actions: seq<Action<T>>)
    requires Execute(Init<T>(0, n), actions).Some?
    ensures var s := Execute(Init<T>(0, n), actions).value; s.maxSize == 0 && EnoughWoken(s)
  {
    if actions == [] {
    } else {
      var init := actions[..|actions| - 1];
      EnoughWokenRun(n, init);
      EnoughWokenStep(Execute(Init<T>(0, n), init).value, actions[|actions| - 1]);
    }
  }

  /** No lost wake-up: in an unbounded queue, for any threads and any interleaving, while a
      consumer waits there are at least as many woken consumers as values in the queue. */
  lemma NoLostWakeUp<T(!new)>(n: nat, s: State<T>)
    requires Reachable(0, n, s) && SomeoneWaits(s)
    ensures |s.queue| <= CountWoken(s.threads)
    ensures forall i | 0 <= i < |s.threads| && (s.threads[i].Waiting? || s.threads[i].Woken?) ::
              Consumer(s.threads[i].op)
  {
    var actions :| Execute(Init(0, n), actions) == Some(s);
    EnoughWokenRun(n, actions);
  }

  // ---------------------------------------------------------------- wake-ups, limited queue

  predicate CouldProceed<T>(s: State<T>, th: Thread<T>) {
    th.Waiting? && if Consumer(th.op) then s.queue != [] else s.HasRoom()
  }

  /** A thread waits although it could proceed, and no thread is on its way to change that. */
  predicate Stalled<T>(s: State<T>) {
    && (forall i | 0 <= i < |s.threads| :: s.threads[i].Idle? || s.threads[i].Waiting?)
    && (exists i | 0 <= i < |s.threads| :: CouldProceed(s, s.threads[i]))
  }

  lemma {:induction false} NoneWoken<T>(threads: seq<Thread<T>>)
    requires forall i | 0 <= i < |threads| :: !threads[i].Woken?
    ensures CountWoken(threads) == 0
  {
    if threads == [] {
    } else {
      NoneWoken(threads[..|threads| - 1]);
    }
  }

  lemma UnboundedNeverStalls<T(!new)>(n: nat, s: State<T>)
    requires Reachable(0, n, s)
    ensures !Stalled(s)
  {
    if Stalled(s) {
      var i :| 0 <= i < |s.threads| && CouldProceed(s, s.threads[i]);
      assert s.threads[i].Waiting?;
      NoLostWakeUp(n, s);
      NoneWoken(s.threads);
      assert false;
    }
  }

  /** m consumers wait and are woken by m pushes; m more wait. A further producer finds the
      queue full and waits. Each woken consumer takes a value, and its notification goes to
      one of the other consumers instead of the producer; those find the queue empty. */
  function WaitingConsumers<T>(m: nat, v: T, k: nat): (s: State<T>) {
    State(m, seq(3 * m + 1, i => if i < k then Waiting(WaitAndPop) else Idle(NotCalled)), [], false, [], [])
  }

  function Copies<T>(v: T, k: nat): (r: seq<T>)
    ensures |r| == k && forall i | 0 <= i < k :: r[i] == v
  {
    seq(k, _ => v)
  }

  function Deliveries<T>(v: T, k: nat): (r: seq<Removal<T>>)
    ensures |r| == k && forall i | 0 <= i < k :: r[i] == ToCaller(v)
  {
    seq(k, _ => ToCaller(v))
  }

  function AfterPushes<T>(m: nat, v: T, k: nat): (s: State<T>) {
    State(m, seq(3 * m + 1, i => if i < k then Woken(WaitAndPop)
                                 else if i < 2 * m then Waiting(WaitAndPop)
                                 else if i < 2 * m + k then Idle(Done)
                                 else Idle(NotCalled)),
          Copies(v, k), false, Copies(v, k), [])
  }

  function AfterPops<T>(m: nat, v: T, k: nat): (s: State<T>)
    requires k <= m
  {
    State(m, seq(3 * m + 1, i => if i < k then Idle(Delivered(v))
                                 else if i < m + k then Woken(WaitAndPop)
                                 else if i < 2 * m then Waiting(WaitAndPop)
                                 else if i < 3 * m then Idle(Done)
                                 else Waiting(Push(v))),
          Copies(v, m - k), false, Copies(v, m), Deliveries(v, k))
  }

  function AfterFutileLooks<T>(m: nat, v: T, k: nat): (s: State<T>)
    requires k <= m
  {
    State(m, seq(3 * m + 1, i => if i < m then Idle(Delivered(v))
                                 else if i < m + k then Waiting(WaitAndPop)
                                 else if i < 2 * m then Woken(WaitAndPop)
                                 else if i < 3 * m then Idle(Done)
                                 else Waiting(Push(v))),
          [], false, Copies(v, m), Deliveries(v, m))
  }

  lemma {:induction false} ReachWaitingConsumers<T(!new)>(m: nat, v: T, k: nat)
    requires m > 0 && k <= 2 * m
    ensures Reachable(m, 3 * m + 1, WaitingConsumers(m, v, k))
  {
    if k == 0 {
      ReachableInit<T>(m, 3 * m + 1);
      assert WaitingConsumers(m, v, 0) == Init(m, 3 * m + 1);
    } else {
      ReachWaitingConsumers(m, v, k - 1);
      var t := k - 1;
      var who := if t > 0 then Some(0) else None;
      OneMoreWaits(m, v, t, who);
      ReachableCall(m, 3 * m + 1, WaitingConsumers(m, v, t), t, WaitAndPop, who, WaitingConsumers(m, v, k));
    }
  }

  lemma OneMoreWaits<T>(m: nat, v: T, t: nat, who: Option<nat>)
    requires m > 0 && t < 2 * m && who == if t > 0 then Some(0) else None
    ensures CallLeads(WaitingConsumers(m, v, t), t, WaitAndPop, who, WaitingConsumers(m, v, t + 1))
  {
    var s := WaitingConsumers(m, v, t);
    var r := Apply(Apply(s, Call(t, WaitAndPop)), Enter(t, who));
    assert r.threads == WaitingConsumers(m, v, t + 1).threads;
  }

  lemma {:induction false} ReachAfterPushes<T(!new)>(m: nat, v: T, k: nat)
    requires m > 0 && k <= m
    ensures Reachable(m, 3 * m + 1, AfterPushes(m, v, k))
  {
    if k == 0 {
      ReachWaitingConsumers(m, v, 2 * m);
      AllWait(m, v);
    } else {
      ReachAfterPushes(m, v, k - 1);
      ReachAfterPush(m, v, k);
    }
  }

  lemma AllWait<T>(m: nat, v: T)
    ensures AfterPushes(m, v, 0) == WaitingConsumers(m, v, 2 * m)
  {
    assert AfterPushes(m, v, 0).threads == WaitingConsumers(m, v, 2 * m).threads;
  }

  lemma ReachAfterPush<T(!new)>(m: nat, v: T, k: nat)
    requires 0 < k <= m && Reachable(m, 3 * m + 1, AfterPushes(m, v, k - 1))
    ensures Reachable(m, 3 * m + 1, AfterPushes(m, v, k))
  {
    PushWakesConsumer(m, v, k);
    ReachableCall(m, 3 * m + 1, AfterPushes(m, v, k - 1), 2 * m + k - 1, Push(v), Some(k - 1), AfterPushes(m, v, k));
  }

  /** A call of thread t and the section after it lead from one state to the other. */
  predicate CallLeads<T(==)>(s: State<T>, t: nat, op: Operation<T>, who: Option<nat>, r: State<T>) {
    && Enabled(s, Call(t, op))
    && Enabled(Apply(s, Call(t, op)), Enter(t, who))
    && Apply(Apply(s, Call(t, op)), Enter(t, who)) == r
  }

  lemma ReachableCall<T(!new)>(maxSize: nat, n: nat, s: State<T>, t: nat, op: Operation<T>, who: Option<nat>,
                               r: State<T>)
    requires Reachable(maxSize, n, s) && CallLeads(s, t, op, who, r)
    ensures Reachable(maxSize, n, r)
  {
    ReachableStep(maxSize, n, s, Call(t, op));
    ReachableStep(maxSize, n, Apply(s, Call(t, op)), Enter(t, who));
  }

  lemma PushWakesConsumer<T>(m: nat, v: T, k: nat)
    requires 0 < k <= m
    ensures CallLeads(AfterPushes(m, v, k - 1), 2 * m + k - 1, Push(v), Some(k - 1), AfterPushes(m, v, k))
  {
    var s, t := AfterPushes(m, v, k - 1), 2 * m + k - 1;
    var r := Apply(Apply(s, Call(t, Push(v))), Enter(t, Some(k - 1)));
    assert Copies(v, k - 1) + [v] == Copies(v, k);
    assert r.threads == AfterPushes(m, v, k).threads;
  }

  lemma {:induction false} ReachAfterPops<T(!new)>(m: nat, v: T, k: nat)
    requires m > 0 && k <= m
    ensures Reachable(m, 3 * m + 1, AfterPops(m, v, k))
  {
    if k == 0 {
      ReachAfterPushes(m, v, m);
      LastPushWaits(m, v);
      ReachableCall(m, 3 * m + 1, AfterPushes(m, v, m), 3 * m, Push(v), Some(m), AfterPops(m, v, 0));
    } else {
      ReachAfterPops(m, v, k - 1);
      PopWakesConsumer(m, v, k);
      ReachableStep(m, 3 * m + 1, AfterPops(m, v, k - 1), Continue(k - 1, Some(m + k - 1)));
    }
  }

  lemma LastPushWaits<T>(m: nat, v: T)
    requires m > 0
    ensures CallLeads(AfterPushes(m, v, m), 3 * m, Push(v), Some(m), AfterPops(m, v, 0))
  {
    var s, t := AfterPushes(m, v, m), 3 * m;
    assert Apply(Apply(s, Call(t, Push(v))), Enter(t, Some(m))).threads == AfterPops(m, v, 0).threads;
  }

  lemma PopWakesConsumer<T>(m: nat, v: T, k: nat)
    requires 0 < k <= m
    ensures var s, a := AfterPops(m, v, k - 1), Continue(k - 1, Some(m + k - 1));
            Enabled(s, a) && Apply(s, a) == AfterPops(m, v, k)
  {
    var s, a := AfterPops(m, v, k - 1), Continue(k - 1, Some(m + k - 1));
    assert Copies(v, m - (k - 1))[1..] == Copies(v, m - k);
    assert Deliveries(v, k - 1) + [ToCaller(v)] == Deliveries(v, k);
    assert Apply(s, a).threads == AfterPops(m, v, k).threads;
  }

  lemma {:induction false} ReachAfterFutileLooks<T(!new)>(m: nat, v: T, k: nat)
    requires m > 0 && k <= m
    ensures Reachable(m, 3 * m + 1, AfterFutileLooks(m, v, k))
  {
    if k == 0 {
      ReachAfterPops(m, v, m);
      assert AfterFutileLooks(m, v, 0) == AfterPops(m, v, m);
    } else {
      ReachAfterFutileLooks(m, v, k - 1);
      FutileLook(m, v, k);
      ReachableStep(m, 3 * m + 1, AfterFutileLooks(m, v, k - 1), Continue(m + k - 1, Some(3 * m)));
    }
  }

  lemma FutileLook<T>(m: nat, v: T, k: nat)
    requires 0 < k <= m
    ensures var s, a := AfterFutileLooks(m, v, k - 1), Continue(m + k - 1, Some(3 * m));
            Enabled(s, a) && Apply(s, a) == AfterFutileLooks(m, v, k)
  {
    var s, a := AfterFutileLooks(m, v, k - 1), Continue(m + k - 1, Some(3 * m));
    assert Apply(s, a).threads == AfterFutileLooks(m, v, k).threads;
  }

  /** Wake-ups are never lost exactly when the queue is unbounded: every limited queue has
      a run that ends with a producer waiting in front of an empty queue. */
  lemma StallsOnlyWhenLimited<T(!new)>(m: nat, v: T)
    ensures (exists n: nat, s: State<T> :: Reachable(m, n, s) && Stalled(s)) <==> m > 0
  {
    if m > 0 {
      ReachAfterFutileLooks(m, v, m);
      var s := AfterFutileLooks(m, v, m);
      assert CouldProceed(s, s.threads[3 * m]);
      assert Reachable(m, 3 * m + 1, s) && Stalled(s);
    } else {
      forall n: nat, s: State<T> | Reachable(m, n, s)
        ensures !Stalled(s)
      {
        UnboundedNeverStalls(n, s);
      }
    }
  }
}
