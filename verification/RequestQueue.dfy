/**
 The ready queue of a request: an unbounded monitor queue into which the workers push their
 ids and from which the main thread alone takes them.
 */
module RequestQueue {
  import opened Times
  import opened ReadyQueue
  import RequestProtocol

  // ---------------------------------------------------------------- the content

  /** The ids that the workers have pushed in the first k steps of a run. */
  function PushedIds(r: RequestProtocol.Run, k: nat): (ids: seq<nat>)
    requires k <= |r.events|
  {
    if k == 0 then []
    else if r.events[k - 1].Push? then PushedIds(r, k - 1) + [r.events[k - 1].id]
    else PushedIds(r, k - 1)
  }

  /** The ids that the main thread has taken. */
  function TakenIds(r: RequestProtocol.Run, k: nat): (ids: seq<nat>)
    requires k <= |r.events| && |r.states| == |r.events| + 1
  {
    if k == 0 then []
    else if r.events[k - 1].Pop? && r.states[k - 1].ready != [] then TakenIds(r, k - 1) + [r.states[k - 1].ready[0]]
    else TakenIds(r, k - 1)
  }

  lemma {:induction false} IdsInOrder(c: RequestProtocol.Config, r: RequestProtocol.Run, k: nat)
    requires RequestProtocol.IsRun(c, r) && k <= |r.events|
    ensures PushedIds(r, k) == TakenIds(r, k) + r.states[k].ready
  {
    if k == 0 {
    } else {
      IdsInOrder(c, r, k - 1);
      assert RequestProtocol.StepAt(c, r, k - 1);
      TakenInOrder(r.states[k - 1], TakenIds(r, k - 1));
    }
  }

  lemma TakenInOrder(s: RequestProtocol.State, taken: seq<nat>)
    ensures s.ready != [] ==> taken + s.ready == taken + [s.ready[0]] + s.ready[1..]
  {
  }

  /** When the same ids have gone in and come out, the monitor queue holds what the request
      protocol calls ready. */
  lemma SameContent(c: RequestProtocol.Config, r: RequestProtocol.Run, n: nat, s: State<nat>)
    requires RequestProtocol.IsRun(c, r) && Reachable(0, n, s)
    requires s.pushed == PushedIds(r, |r.events|) && Values(s.out) == TakenIds(r, |r.events|)
    ensures s.queue == r.Last().ready
  {
    AlwaysInOrder(0, n, s);
    IdsInOrder(c, r, |r.events|);
    var taken := Values(s.out);
    assert s.queue == s.pushed[|taken|..];
    assert r.Last().ready == s.pushed[|taken|..];
  }

  // ---------------------------------------------------------------- every run has a queue

  /** No thread is in the queue, which is unbounded and not suspended. */
  predicate Quiet(s: State<nat>) {
    s.maxSize == 0 && !s.suspended && forall i | 0 <= i < |s.threads| :: s.threads[i].Idle?
  }

  function AfterPush(s: State<nat>, t: nat, id: nat): (r: State<nat>)
    requires t < |s.threads|
  {
    s.(threads := s.threads[t := Idle(Done)], queue := s.queue + [id], pushed := s.pushed + [id])
  }

  function AfterTake(s: State<nat>, t: nat): (r: State<nat>)
    requires t < |s.threads| && s.queue != []
  {
    s.(threads := s.threads[t := Idle(Delivered(s.queue[0]))], queue := s.queue[1..],
       out := s.out + [ToCaller(s.queue[0])])
  }

  lemma PushLeads(s: State<nat>, t: nat, id: nat)
    requires Quiet(s) && t < |s.threads|
    ensures CallLeads(s, t, Push(id), None, AfterPush(s, t, id)) && Quiet(AfterPush(s, t, id))
  {
    var called := Apply(s, Call(t, Push(id)));
    assert !SomeoneWaits(called);
    assert Apply(called, Enter(t, None)).threads == AfterPush(s, t, id).threads;
  }

  lemma TakeLeads(s: State<nat>, t: nat)
    requires Quiet(s) && t < |s.threads| && s.queue != []
    ensures CallLeads(s, t, WaitAndPop, None, AfterTake(s, t)) && Quiet(AfterTake(s, t))
  {
    var called := Apply(s, Call(t, WaitAndPop));
    assert !SomeoneWaits(called);
    assert Apply(called, Enter(t, None)).threads == AfterTake(s, t).threads;
  }

  lemma ValuesAppend(out: seq<Removal<nat>>, id: nat)
    ensures Values(out + [ToCaller(id)]) == Values(out) + [id]
  {
  }

  /** The ids in the queue and what went in and out are those of the first k steps of a run. */
  ghost predicate Follows(c: RequestProtocol.Config, r: RequestProtocol.Run, k: nat, s: State<nat>)
    requires k <= |r.events| && |r.states| == |r.events| + 1
  {
    && Reachable(0, |c.jobs| + 1, s) && Quiet(s) && |s.threads| == |c.jobs| + 1
    && s.queue == r.states[k].ready && s.pushed == PushedIds(r, k) && Values(s.out) == TakenIds(r, k)
  }

  lemma PushFollows(c: RequestProtocol.Config, r: RequestProtocol.Run, k: nat, s: State<nat>, id: nat)
    returns (next: State<nat>)
    requires |r.states| == |r.events| + 1 && k < |r.events| && Follows(c, r, k, s) && id < |c.jobs|
    requires r.events[k] == RequestProtocol.Push(id) && r.states[k + 1] == RequestProtocol.Pushed(r.states[k], id)
    ensures Follows(c, r, k + 1, next)
  {
    next := PushReaches(|c.jobs| + 1, s, id + 1, id);
  }

  lemma PushReaches(n: nat, s: State<nat>, t: nat, id: nat) returns (next: State<nat>)
    requires Reachable(0, n, s) && Quiet(s) && t < |s.threads|
    ensures next == AfterPush(s, t, id) && Reachable(0, n, next) && Quiet(next)
  {
    PushLeads(s, t, id);
    next := AfterPush(s, t, id);
    ReachableCall(0, n, s, t, Push(id), None, next);
  }

  lemma TakeFollows(c: RequestProtocol.Config, r: RequestProtocol.Run, k: nat, s: State<nat>)
    returns (next: State<nat>)
    requires |r.states| == |r.events| + 1 && k < |r.events| && Follows(c, r, k, s) && r.states[k].ready != []
    requires r.events[k] == RequestProtocol.Pop && r.states[k + 1] == RequestProtocol.Popped(r.states[k])
    ensures Follows(c, r, k + 1, next)
  {
    TakeLeads(s, 0);
    next := AfterTake(s, 0);
    ReachableCall(0, |c.jobs| + 1, s, 0, WaitAndPop, None, next);
    ValuesAppend(s.out, s.queue[0]);
  }

  /** What a step does to the ready ids. */
  lemma StepIs(c: RequestProtocol.Config, r: RequestProtocol.Run, k: nat)
    requires RequestProtocol.IsRun(c, r) && k < |r.events|
    ensures var s, next := r.states[k], r.states[k + 1];
            match r.events[k]
            case Push(id) => id < |c.jobs| && next == RequestProtocol.Pushed(s, id)
            case Pop => s.ready != [] && next == RequestProtocol.Popped(s)
            case _ => next.ready == s.ready
  {
    assert RequestProtocol.StepAt(c, r, k);
    RequestProtocol.InvAlways(c, r, k);
  }

  /** One step of the run: a push of worker `id` is one of thread id + 1, a pop one of thread 0. */
  lemma NextFollows(c: RequestProtocol.Config, r: RequestProtocol.Run, k: nat, s: State<nat>) returns (next: State<nat>)
    requires RequestProtocol.IsRun(c, r) && k < |r.events| && Follows(c, r, k, s)
    ensures Follows(c, r, k + 1, next)
  {
    StepIs(c, r, k);
    match r.events[k]
    case Push(id) => next := PushFollows(c, r, k, s, id);
    case Pop => next := TakeFollows(c, r, k, s);
    case _ => next := s;
  }

  /** Every run of the request protocol is one of the main thread and its workers with an
      unbounded monitor queue, step by step with the same content. */
  lemma {:induction false} EveryRunHasAQueue(c: RequestProtocol.Config, r: RequestProtocol.Run, k: nat)
    returns (s: State<nat>)
    requires RequestProtocol.IsRun(c, r) && k <= |r.events|
    ensures Follows(c, r, k, s)
  {
    if k == 0 {
      s := Init(0, |c.jobs| + 1);
      ReachableInit<nat>(0, |c.jobs| + 1);
    } else {
      s := EveryRunHasAQueue(c, r, k - 1);
      s := NextFollows(c, r, k - 1, s);
    }
  }

  // ---------------------------------------------------------------- waiting and waking

  /** Thread t takes values; all others do nothing or push. */
  predicate OnlyConsumer<T>(s: State<T>, t: nat) {
    && t < |s.threads|
    && forall i | 0 <= i < |s.threads| && i != t :: s.threads[i].Idle? || s.threads[i].op.Push?
  }

  lemma OnlyOneWaits<T(!new)>(n: nat, s: State<T>, t: nat)
    requires Reachable(0, n, s) && OnlyConsumer(s, t) && s.threads[t].Waiting?
    ensures forall i | 0 <= i < |s.threads| && i != t :: !s.threads[i].Waiting? && !s.threads[i].Woken?
    ensures s.queue == []
  {
    NoLostWakeUp(n, s);
    NoneWoken(s.threads);
  }

  /** When the main thread waits, the queue is empty, and the next id that is pushed wakes the
      main thread, which can go on at once and gets that id. */
  lemma NextPushIsTaken<T(!new)>(n: nat, s: State<T>, t: nat, u: nat, v: T, who: Option<nat>)
    requires Reachable(0, n, s) && OnlyConsumer(s, t) && s.threads[t] == Waiting(WaitAndPop) && !s.suspended
    requires Enabled(s, Enter(u, who)) && s.threads[u] == Calling(Push(v))
    ensures s.queue == [] && who == Some(t)
    ensures var pushed := Apply(s, Enter(u, who));
            && pushed.queue == [v] && Enabled(pushed, Continue(t, None))
            && Apply(pushed, Continue(t, None)).threads[t] == Idle(Delivered(v))
  {
    OnlyOneWaits(n, s, t);
    AlwaysInOrder(0, n, s);
    assert SomeoneWaits(s);
    var pushed := Apply(s, Enter(u, who));
    assert !SomeoneWaits(pushed);
  }
}
