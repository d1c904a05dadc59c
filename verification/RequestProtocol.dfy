/**
 The protocol between the thread that runs a request, its worker threads and their ready
 queue, as a transition system. Worker steps may come between any two steps of the main
 thread, and a connection may be refused at any time.
 */
module RequestProtocol {
  import opened Times

  /** What the protocol depends on in a query: its barrier flag, and whether the data it
      will return ends the request. */
  datatype Job = Job(stopIfData: bool, hasForecast: bool) {
    predicate EndsRequest() {
      stopIfData && hasForecast
    }
  }

  datatype Config = Config(jobs: seq<Job>, nParallel: int)

  datatype State = State(
    next: nat,                    // list index `nextToStart` points at
    nextId: nat,                  // `nextThreadId`
    running: map<nat, nat>,       // `runningThreads`: thread id -> list index
    working: set<nat>,            // ids of workers whose query is not finished
    finished: set<nat>,           // ids of workers that have not pushed their id yet
    ready: seq<nat>,              // the ready queue
    held: Option<nat>,            // an id popped by the main thread, thread not joined yet
    written: set<nat>,            // list indices whose result has been written
    completed: set<nat>,          // list indices marked completed
    checked: set<nat>,            // list indices whose data the main thread has inspected
    stop: bool,
    returned: bool)

  datatype Event =
    | Start              // main: connection granted, worker started
    | Refuse             // main: connection refused
    | Compute(id: nat)   // worker: the query is done, its result is written
    | Push(id: nat)      // worker: pushes its id on the ready queue
    | Pop                // main: takes the oldest id from the ready queue
    | Join               // main: marks the thread completed and forgets it
    | Check              // main: inspects the data of the last started `stopIfData` query
    | Return             // main: `runRequests` returns normally

  const INIT := State(0, 0, map[], {}, {}, [], None, {}, {}, {}, false, false)

  predicate Enabled(c: Config, s: State, e: Event) {
    match e
    case Start =>
      && s.next < |c.jobs| && !s.returned && !s.stop && s.held.None?
      && (c.nParallel > 0 ==> |s.running| < c.nParallel)
      && (s.next > 0 && c.jobs[s.next - 1].stopIfData ==> s.next - 1 in s.checked)
    case Refuse => s.next < |c.jobs| && !s.returned
    case Compute(id) => id in s.working && id in s.running
    case Push(id) => id in s.finished
    case Pop => s.ready != [] && s.held.None? && !s.returned
    case Join => s.held.Some? && !s.returned
    case Check =>
      && 0 < s.next <= |c.jobs| && c.jobs[s.next - 1].stopIfData
      && s.running == map[] && s.next - 1 !in s.checked && !s.returned
    case Return => !s.returned && s.running == map[] && s.held.None? && (s.next == |c.jobs| || s.stop)
  }

  function HasReturned(s: State): (s': State) {
    s.(returned := true)
  }

  function ThreadStarted(s: State): (s': State) {
    s.(next := s.next + 1, nextId := s.nextId + 1,
       running := s.running[s.nextId := s.next], working := s.working + {s.nextId})
  }

  function Computed(s: State, id: nat): (s': State)
    requires id in s.running
  {
    s.(working := s.working - {id}, finished := s.finished + {id}, written := s.written + {s.running[id]})
  }

  function Pushed(s: State, id: nat): (s': State) {
    s.(finished := s.finished - {id}, ready := s.ready + [id])
  }

  function Popped(s: State): (s': State)
    requires s.ready != []
  {
    s.(ready := s.ready[1..], held := Some(s.ready[0]))
  }

  /** An id that is not waited for is dropped. */
  function Joined(s: State, id: nat): (s': State) {
    if id !in s.running then s.(held := None)
    else s.(held := None, running := s.running - {id}, completed := s.completed + {s.running[id]})
  }

  function Checked(s: State, stop: bool): (s': State)
    requires s.next > 0
  {
    s.(checked := s.checked + {s.next - 1}, stop := s.stop || stop)
  }

  function Apply(c: Config, s: State, e: Event): (s': State)
    requires Enabled(c, s, e)
  {
    match e
    case Start => ThreadStarted(s)
    case Refuse => s
    case Compute(id) => Computed(s, id)
    case Push(id) => Pushed(s, id)
    case Pop => Popped(s)
    case Join => Joined(s, s.held.value)
    case Check => Checked(s, s.next - 1 in s.written && c.jobs[s.next - 1].hasForecast)
    case Return => HasReturned(s)
  }

  // ---------------------------------------------------------------- runs

  /** A run from the start of a request: its events and the states between them. */
  datatype Run = Run(states: seq<State>, events: seq<Event>) {
    function Last(): State
      requires states != []
    {
      states[|states| - 1]
    }
  }

  const EMPTY_RUN := Run([INIT], [])

  predicate StepAt(c: Config, r: Run, i: nat)
    requires |r.states| == |r.events| + 1 && i < |r.events|
  {
    Enabled(c, r.states[i], r.events[i]) && r.states[i + 1] == Apply(c, r.states[i], r.events[i])
  }

  predicate IsRun(c: Config, r: Run) {
    && |r.states| == |r.events| + 1
    && r.states[0] == INIT
    && forall i: nat {:trigger StepAt(c, r, i)} | i < |r.events| :: StepAt(c, r, i)
  }

  function Extend(c: Config, r: Run, e: Event): (r': Run)
    requires r.states != [] && Enabled(c, r.Last(), e)
  {
    Run(r.states + [Apply(c, r.Last(), e)], r.events + [e])
  }

  lemma ExtendRun(c: Config, r: Run, e: Event)
    requires IsRun(c, r) && Enabled(c, r.Last(), e)
    ensures IsRun(c, Extend(c, r, e))
    ensures Extend(c, r, e).Last() == Apply(c, r.Last(), e)
  {
    var r' := Extend(c, r, e);
    forall i: nat | i < |r'.events|
      ensures StepAt(c, r', i)
    {
      if i < |r.events| {
        assert StepAt(c, r, i);
      }
    }
  }

  // ---------------------------------------------------------------- invariants

  predicate NoDuplicates(s: seq<nat>) {
    forall i, j | 0 <= i < j < |s| :: s[i] != s[j]
  }

  /** Every running thread is in exactly one place: its worker is busy, or done but not yet
      reported, or its id is in the ready queue, or the main thread holds its id. */
  ghost predicate Accounting(s: State) {
    && s.nextId == s.next
    && NoDuplicates(s.ready)
    && (forall id | id in s.running :: s.running[id] == id && id < s.next)
    && (forall id :: id in s.running <==> id in s.working || id in s.finished || id in s.ready || s.held == Some(id))
    && (forall id :: !(id in s.working && id in s.finished))
    && (forall id | id in s.working || id in s.finished :: id !in s.ready && s.held != Some(id))
    && (s.held.Some? ==> s.held.value !in s.ready)
  }

  /** A thread is completed exactly when it was started and joined, and only then is its
      result certain to be there. */
  ghost predicate Results(c: Config, s: State) {
    && s.next <= |c.jobs|
    && (forall i: nat :: i in s.completed <==> i < s.next && i !in s.running)
    && (forall i | i in s.written :: i < s.next)
    && (forall i: nat | i < s.next && i !in s.working :: i in s.written)
  }

  ghost predicate Barriers(c: Config, s: State) {
    && s.next <= |c.jobs|
    && (forall k | k in s.checked :: k < s.next && c.jobs[k].stopIfData && forall i: nat | i <= k :: i in s.completed)
    && (forall k | k in s.checked && c.jobs[k].EndsRequest() :: s.stop && k == s.next - 1)
    && (forall k: nat | k + 1 < s.next && c.jobs[k].stopIfData :: k in s.checked)
    && (s.stop ==> s.next > 0 && s.next - 1 in s.checked && c.jobs[s.next - 1].EndsRequest())
  }

  ghost predicate Bounded(c: Config, s: State) {
    && (c.nParallel > 0 ==> |s.running| <= c.nParallel)
    && (s.returned ==> s.running == map[] && (s.next == |c.jobs| || s.stop))
  }

  ghost predicate Inv(c: Config, s: State) {
    Accounting(s) && Results(c, s) && Barriers(c, s) && Bounded(c, s)
  }

  lemma AccountingStart(c: Config, s: State)
    requires Accounting(s) && Enabled(c, s, Start)
    ensures Accounting(ThreadStarted(s))
  {
  }

  lemma AccountingCompute(c: Config, s: State, id: nat)
    requires Accounting(s) && Enabled(c, s, Compute(id))
    ensures Accounting(Computed(s, id))
  {
  }

  lemma AccountingPush(c: Config, s: State, id: nat)
    requires Accounting(s) && Enabled(c, s, Push(id))
    ensures Accounting(Pushed(s, id))
  {
    assert forall x :: x in Pushed(s, id).ready <==> x in s.ready || x == id;
  }

  lemma AccountingPop(c: Config, s: State)
    requires Accounting(s) && Enabled(c, s, Pop)
    ensures Accounting(Popped(s))
  {
    assert s.ready == [s.ready[0]] + s.ready[1..];
    assert forall x :: x in s.ready <==> x in s.ready[1..] || x == s.ready[0];
  }

  lemma AccountingJoin(c: Config, s: State)
    requires Accounting(s) && Enabled(c, s, Join)
    ensures Accounting(Joined(s, s.held.value))
  {
  }

  lemma AccountingStep(c: Config, s: State, e: Event)
    requires Accounting(s) && Enabled(c, s, e)
    ensures Accounting(Apply(c, s, e))
  {
    match e
    case Start => AccountingStart(c, s);
    case Compute(id) => AccountingCompute(c, s, id);
    case Push(id) => AccountingPush(c, s, id);
    case Pop => AccountingPop(c, s);
    case Join => AccountingJoin(c, s);
    case _ =>
  }

  lemma ResultsStart(c: Config, s: State)
    requires Accounting(s) && Results(c, s) && Enabled(c, s, Start)
    ensures Results(c, ThreadStarted(s))
  {
  }

  lemma ResultsCompute(c: Config, s: State, id: nat)
    requires Accounting(s) && Results(c, s) && Enabled(c, s, Compute(id))
    ensures Results(c, Computed(s, id))
  {
  }

  lemma ResultsJoin(c: Config, s: State)
    requires Accounting(s) && Results(c, s) && Enabled(c, s, Join)
    ensures Results(c, Joined(s, s.held.value))
  {
  }

  lemma ResultsStep(c: Config, s: State, e: Event)
    requires Accounting(s) && Results(c, s) && Enabled(c, s, e)
    ensures Results(c, Apply(c, s, e))
  {
    match e
    case Start => ResultsStart(c, s);
    case Compute(id) => ResultsCompute(c, s, id);
    case Join => ResultsJoin(c, s);
    case _ =>
  }

  lemma BarrierIsWritten(c: Config, s: State)
    requires Accounting(s) && Results(c, s) && Barriers(c, s) && Enabled(c, s, Check)
    ensures s.next - 1 in s.written && !s.stop && forall i: nat | i < s.next :: i in s.completed
  {
  }

  lemma BarriersCheck(c: Config, s: State)
    requires Accounting(s) && Results(c, s) && Barriers(c, s) && Enabled(c, s, Check)
    ensures Barriers(c, Apply(c, s, Check))
  {
    BarrierIsWritten(c, s);
    BarriersChecked(c, s, Apply(c, s, Check).stop);
  }

  lemma BarriersChecked(c: Config, s: State, stop: bool)
    requires Barriers(c, s) && 0 < s.next && c.jobs[s.next - 1].stopIfData && s.next - 1 !in s.checked && !s.stop
    requires forall i: nat | i < s.next :: i in s.completed
    requires stop == c.jobs[s.next - 1].EndsRequest()
    ensures Barriers(c, Checked(s, stop))
  {
  }

  lemma BarriersStart(c: Config, s: State)
    requires Barriers(c, s) && Enabled(c, s, Start)
    ensures Barriers(c, ThreadStarted(s))
  {
  }

  lemma BarriersOther(c: Config, s: State, s': State)
    requires Barriers(c, s)
    requires s'.next == s.next && s'.checked == s.checked && s'.stop == s.stop && s.completed <= s'.completed
    ensures Barriers(c, s')
  {
  }

  lemma BarriersStep(c: Config, s: State, e: Event)
    requires Accounting(s) && Results(c, s) && Barriers(c, s) && Enabled(c, s, e)
    ensures Barriers(c, Apply(c, s, e))
  {
    match e
    case Start => BarriersStart(c, s);
    case Check => BarriersCheck(c, s);
    case _ => BarriersOther(c, s, Apply(c, s, e));
  }

  lemma BoundedStart(c: Config, s: State)
    requires Bounded(c, s) && Enabled(c, s, Start)
    ensures Bounded(c, ThreadStarted(s))
  {
    assert s.running[s.nextId := s.next].Keys == s.running.Keys + {s.nextId};
  }

  lemma BoundedJoin(c: Config, s: State)
    requires Bounded(c, s) && Enabled(c, s, Join)
    ensures Bounded(c, Joined(s, s.held.value))
  {
    assert (s.running - {s.held.value}).Keys <= s.running.Keys;
    SubsetSize((s.running - {s.held.value}).Keys, s.running.Keys);
  }

  lemma BoundedStep(c: Config, s: State, e: Event)
    requires Bounded(c, s) && Enabled(c, s, e)
    ensures Bounded(c, Apply(c, s, e))
  {
    match e
    case Start => BoundedStart(c, s);
    case Join => BoundedJoin(c, s);
    case _ =>
  }

  lemma SubsetSize(a: set<nat>, b: set<nat>)
    requires a <= b
    ensures |a| <= |b|
  {
    assert b == a + (b - a);
  }

  /** Every state of every run satisfies the invariants. */
  lemma {:induction false} InvAlways(c: Config, r: Run, i: nat)
    requires IsRun(c, r) && i <= |r.events|
    ensures Inv(c, r.states[i])
  {
    if i == 0 {
    } else {
      InvAlways(c, r, i - 1);
      assert StepAt(c, r, i - 1);
      var s, e := r.states[i - 1], r.events[i - 1];
      AccountingStep(c, s, e);
      ResultsStep(c, s, e);
      BarriersStep(c, s, e);
      BoundedStep(c, s, e);
    }
  }

  lemma InvLast(c: Config, r: Run)
    requires IsRun(c, r)
    ensures Inv(c, r.Last())
  {
    InvAlways(c, r, |r.events|);
  }

  /** The list indices below n. */
  function Indices(n: nat): (r: set<nat>)
    ensures forall i: nat :: i in r <==> i < n
    ensures |r| == n
  {
    if n == 0 then {} else Indices(n - 1) + {n - 1}
  }

  function Elements(s: seq<nat>): (r: set<nat>)
    ensures forall x :: x in r <==> x in s
  {
    set x | x in s
  }

  lemma {:induction false} SizeOfDistinct(s: seq<nat>)
    requires NoDuplicates(s)
    ensures |Elements(s)| == |s|
  {
    if s == [] {
      assert Elements(s) == {};
    } else {
      var init, last := s[..|s| - 1], s[|s| - 1];
      SizeOfDistinct(init);
      assert last !in init;
      assert Elements(s) == Elements(init) + {last};
    }
  }

  /** The main thread never meets an id it is not waiting for, and when it waits for a
      thread there is an id to take or a worker that still has to push one. */
  lemma WaitingIsSafe(c: Config, r: Run, i: nat)
    requires IsRun(c, r) && i <= |r.events|
    ensures var s := r.states[i];
            && (s.held.Some? ==> s.held.value in s.running)
            && (s.running != map[] && s.held.None? && s.ready == [] ==> s.working + s.finished != {})
            && |s.running| == |s.working| + |s.finished| + |s.ready| + (if s.held.Some? then 1 else 0)
  {
    InvAlways(c, r, i);
    RunningParts(r.states[i]);
  }

  lemma DisjointSizes(a: set<nat>, b: set<nat>, c: set<nat>, d: set<nat>)
    requires a !! b !! c !! d
    ensures |a + b + c + d| == |a| + |b| + |c| + |d|
  {
    assert |a + b + c| == |a + b| + |c|;
  }

  function HeldSet(s: State): (r: set<nat>)
    ensures forall x :: x in r <==> s.held == Some(x)
    ensures |r| == if s.held.Some? then 1 else 0
  {
    if s.held.Some? then {s.held.value} else {}
  }

  lemma PlacesOfRunning(s: State)
    requires Accounting(s)
    ensures s.working !! s.finished !! Elements(s.ready) !! HeldSet(s)
    ensures s.running.Keys == s.working + s.finished + Elements(s.ready) + HeldSet(s)
  {
  }

  lemma RunningParts(s: State)
    requires Accounting(s)
    ensures s.running != map[] && s.held.None? && s.ready == [] ==> s.working + s.finished != {}
    ensures |s.running| == |s.working| + |s.finished| + |s.ready| + (if s.held.Some? then 1 else 0)
  {
    PlacesOfRunning(s);
    SizeOfDistinct(s.ready);
    DisjointSizes(s.working, s.finished, Elements(s.ready), HeldSet(s));
    if s.running != map[] && s.held.None? && s.ready == [] {
      assert Elements(s.ready) == {} && HeldSet(s) == {};
      assert s.running.Keys != {};
    }
  }

  // ---------------------------------------------------------------- single steps of a run

  /** The last started query is a barrier whose data has not been inspected yet. */
  predicate AtBarrier(c: Config, s: State) {
    0 < s.next <= |c.jobs| && c.jobs[s.next - 1].stopIfData && s.next - 1 !in s.checked
  }

  /** Nothing but worker steps lies between two states. */
  predicate WorkersOnly(s: State, t: State) {
    t == s.(working := t.working, finished := t.finished, ready := t.ready, written := t.written)
  }

  /** Nothing but worker steps and joins lies between two states. */
  predicate WaitOnly(s: State, t: State) {
    && t.next == s.next && t.nextId == s.nextId && t.checked == s.checked
    && t.stop == s.stop && t.returned == s.returned
  }

  /** Nothing but starts and refused connections lies between two states. */
  predicate StartOnly(s: State, t: State) {
    t == s.(next := t.next, nextId := t.nextId, running := t.running, working := t.working)
  }

  /** What one pass of the main loop uses up. */
  function Left(c: Config, s: State): (n: int) {
    2 * (|c.jobs| - s.next) + |s.running|
  }

  lemma CanCompute(c: Config, r: Run, id: nat)
    requires IsRun(c, r) && id in r.Last().working
    ensures var s := r.Last();
            && id in s.running && s.running[id] < |c.jobs|
            && id !in s.finished && |s.working - {id}| == |s.working| - 1 && |s.finished + {id}| == |s.finished| + 1
            && IsRun(c, Extend(c, r, Compute(id)))
            && Extend(c, r, Compute(id)).Last() == Computed(s, id)
  {
    InvLast(c, r);
    Removed(r.Last().working, id);
    Added(r.Last().finished, id);
    ExtendRun(c, r, Compute(id));
  }

  lemma CanPush(c: Config, r: Run, id: nat)
    requires IsRun(c, r) && id in r.Last().finished
    ensures |r.Last().finished - {id}| == |r.Last().finished| - 1
    ensures IsRun(c, Extend(c, r, Push(id)))
    ensures Extend(c, r, Push(id)).Last() == Pushed(r.Last(), id)
  {
    Removed(r.Last().finished, id);
    ExtendRun(c, r, Push(id));
  }

  lemma CanJoin(c: Config, r: Run)
    requires IsRun(c, r) && Enabled(c, r.Last(), Join)
    ensures var s := r.Last();
            && s.held.value in s.running
            && |s.running - {s.held.value}| == |s.running| - 1
            && IsRun(c, Extend(c, r, Join))
            && Extend(c, r, Join).Last() == Joined(s, s.held.value)
  {
    var s := r.Last();
    WaitingIsSafe(c, r, |r.events|);
    Removed(s.running.Keys, s.held.value);
    assert (s.running - {s.held.value}).Keys == s.running.Keys - {s.held.value};
    ExtendRun(c, r, Join);
  }

  lemma CanStart(c: Config, r: Run)
    requires IsRun(c, r) && Enabled(c, r.Last(), Start)
    ensures var s := r.Last();
            && s.next !in s.checked
            && |s.running[s.nextId := s.next]| == |s.running| + 1
            && IsRun(c, Extend(c, r, Start))
            && Extend(c, r, Start).Last() == ThreadStarted(s)
  {
    var s := r.Last();
    InvLast(c, r);
    assert s.nextId !in s.running;
    assert s.running[s.nextId := s.next].Keys == s.running.Keys + {s.nextId};
    Added(s.running.Keys, s.nextId);
    ExtendRun(c, r, Start);
  }

  /** Behind a barrier that is open no thread is running. */
  lemma OpenBarrier(c: Config, r: Run)
    requires IsRun(c, r)
    ensures r.Last().next == 0 || r.Last().next - 1 in r.Last().checked ==> r.Last().running == map[]
  {
    InvLast(c, r);
  }

  /** Barrier: whenever a query is started, every query up to and including the last
      earlier `stopIfData` query has been joined, and the bound on the number of running
      threads is respected. */
  lemma BarrierBeforeStart(c: Config, r: Run, i: nat, k: nat)
    requires IsRun(c, r) && i < |r.events| && r.events[i] == Start
    requires k < r.states[i].next && k < |c.jobs| && c.jobs[k].stopIfData
    ensures forall j: nat | j <= k :: j in r.states[i].completed && j !in r.states[i].running
    ensures c.nParallel > 0 ==> |r.states[i + 1].running| <= c.nParallel
  {
    assert StepAt(c, r, i);
    InvAlways(c, r, i);
    OpenBarrierState(c, r.states[i], k);
    InvAlways(c, r, i + 1);
  }

  lemma OpenBarrierState(c: Config, s: State, k: nat)
    requires Accounting(s) && Results(c, s) && Barriers(c, s) && Enabled(c, s, Start)
    requires k < s.next && c.jobs[k].stopIfData
    ensures forall j: nat | j <= k :: j in s.completed && j !in s.running
  {
  }

  /** The main thread reads the data of a query only after joining its thread, and then
      reads all that the query returned. */
  lemma ReadAfterJoin(c: Config, r: Run, i: nat)
    requires IsRun(c, r) && i < |r.events| && r.events[i] == Check
    ensures var s := r.states[i];
            && 0 < s.next <= |c.jobs|
            && s.next - 1 in s.completed && s.next - 1 in s.written
            && s.working == {} && s.finished == {}
            && (r.states[i + 1].stop <==> c.jobs[s.next - 1].hasForecast)
  {
    assert StepAt(c, r, i);
    CheckSeesResult(c, r, i);
  }

  lemma CheckSeesResult(c: Config, r: Run, i: nat)
    requires IsRun(c, r) && i <= |r.events| && Enabled(c, r.states[i], Check)
    ensures var s := r.states[i];
            && s.next - 1 in s.completed && s.next - 1 in s.written
            && s.working == {} && s.finished == {} && !s.stop
  {
    InvAlways(c, r, i);
  }

  // ---------------------------------------------------------------- termination

  /** How much is left to do; only a refused connection leaves it as it is. */
  function Work(c: Config, s: State): (w: int) {
    5 * (|c.jobs| - s.next) + 4 * |s.working| + 3 * |s.finished| + 2 * |s.ready|
    + (if s.held.Some? then 1 else 0) + (|c.jobs| - |s.checked|) + (if s.returned then 0 else 1)
  }

  lemma WorkStart(c: Config, s: State)
    requires s.nextId !in s.working
    ensures Work(c, ThreadStarted(s)) == Work(c, s) - 1
  {
    Added(s.working, s.nextId);
  }

  lemma WorkCompute(c: Config, s: State, id: nat)
    requires id in s.running && id in s.working && id !in s.finished
    ensures Work(c, Computed(s, id)) == Work(c, s) - 1
  {
    Removed(s.working, id);
    Added(s.finished, id);
  }

  lemma WorkPush(c: Config, s: State, id: nat)
    requires id in s.finished
    ensures Work(c, Pushed(s, id)) == Work(c, s) - 1
  {
    Removed(s.finished, id);
  }

  lemma WorkCheck(c: Config, s: State, stop: bool)
    requires 0 < s.next && s.next - 1 !in s.checked
    ensures Work(c, Checked(s, stop)) == Work(c, s) - 1
  {
    Added(s.checked, s.next - 1);
  }

  lemma WorkDecreases(c: Config, s: State, e: Event)
    requires Accounting(s) && Enabled(c, s, e)
    ensures Work(c, Apply(c, s, e)) == Work(c, s) - (if e.Refuse? then 0 else 1)
  {
    match e
    case Start =>
      IdIsNew(s);
      WorkStart(c, s);
    case Compute(id) =>
      WorkerIsBusy(s, id);
      WorkCompute(c, s, id);
    case Push(id) => WorkPush(c, s, id);
    case Check => WorkCheck(c, s, Apply(c, s, Check).stop);
    case _ =>
  }

  lemma IdIsNew(s: State)
    requires Accounting(s)
    ensures s.nextId !in s.working
  {
    assert s.nextId !in s.running;
  }

  lemma WorkerIsBusy(s: State, id: nat)
    requires Accounting(s) && id in s.working
    ensures id !in s.finished
  {
  }

  lemma Removed(s: set<nat>, x: nat)
    requires x in s
    ensures |s| == |s - {x}| + 1
  {
    assert s == (s - {x}) + {x};
  }

  lemma Added(s: set<nat>, x: nat)
    ensures x !in s ==> |s + {x}| == |s| + 1
  {
  }

  lemma WorkNonNegative(c: Config, s: State)
    requires Results(c, s) && Barriers(c, s)
    ensures Work(c, s) >= 0
  {
    assert s.checked <= Indices(s.next);
    SubsetSize(s.checked, Indices(s.next));
  }

  function Refusals(log: seq<Event>): (n: nat) {
    if log == [] then 0
    else Refusals(log[..|log| - 1]) + (if log[|log| - 1].Refuse? then 1 else 0)
  }

  /** Apart from refused connections a run has at most 6n + 1 steps for n queries. */
  lemma {:induction false} RunsAreShort(c: Config, r: Run, i: nat)
    requires IsRun(c, r) && i <= |r.events|
    ensures i - Refusals(r.events[..i]) == 6 * |c.jobs| + 1 - Work(c, r.states[i])
    ensures i - Refusals(r.events[..i]) <= 6 * |c.jobs| + 1
  {
    if i > 0 {
      RunsAreShort(c, r, i - 1);
      StepWork(c, r, i - 1);
      assert r.events[..i][..i - 1] == r.events[..i - 1];
    }
    InvAlways(c, r, i);
    WorkNonNegative(c, r.states[i]);
  }

  lemma StepWork(c: Config, r: Run, i: nat)
    requires IsRun(c, r) && i < |r.events|
    ensures Work(c, r.states[i + 1]) == Work(c, r.states[i]) - (if r.events[i].Refuse? then 0 else 1)
  {
    InvAlways(c, r, i);
    assert StepAt(c, r, i);
    WorkDecreases(c, r.states[i], r.events[i]);
  }

  /** A run that has not returned can always go on without a refused connection, so every
      run can be completed. */
  lemma NeverStuck(c: Config, r: Run) returns (e: Event)
    requires IsRun(c, r) && !r.Last().returned
    ensures !e.Refuse? && Enabled(c, r.Last(), e) && IsRun(c, Extend(c, r, e))
  {
    InvLast(c, r);
    e := NextEvent(c, r.Last());
    ExtendRun(c, r, e);
  }

  lemma NextEvent(c: Config, s: State) returns (e: Event)
    requires Inv(c, s) && !s.returned
    ensures !e.Refuse? && Enabled(c, s, e)
  {
    if s.held.Some? {
      e := Join;
    } else if s.working != {} {
      var id :| id in s.working;
      e := Compute(id);
    } else if s.finished != {} {
      var id :| id in s.finished;
      e := Push(id);
    } else if s.ready != [] {
      e := Pop;
    } else {
      RunningParts(s);
      e := MainEvent(c, s);
    }
  }

  lemma MainEvent(c: Config, s: State) returns (e: Event)
    requires !s.returned && s.held.None? && s.running == map[] && s.next <= |c.jobs|
    ensures !e.Refuse? && Enabled(c, s, e)
  {
    if s.next > 0 && c.jobs[s.next - 1].stopIfData && s.next - 1 !in s.checked {
      e := Check;
    } else if s.next == |c.jobs| || s.stop {
      e := Return;
    } else {
      e := Start;
    }
  }

  // ---------------------------------------------------------------- schedule independence

  /** How many queries of the list are run: up to and including the first `stopIfData`
      query with data that varies in time. */
  function RunCount(jobs: seq<Job>): (n: nat)
    ensures n <= |jobs|
  {
    if jobs == [] then 0
    else if jobs[0].EndsRequest() then 1
    else 1 + RunCount(jobs[1..])
  }

  lemma {:induction false} RunCountIs(jobs: seq<Job>, n: nat)
    requires n <= |jobs|
    requires forall k: nat | k + 1 < n :: !jobs[k].EndsRequest()
    requires n == |jobs| || (n > 0 && jobs[n - 1].EndsRequest())
    ensures RunCount(jobs) == n
  {
    if jobs != [] && !jobs[0].EndsRequest() {
      RunCountIs(jobs[1..], n - 1);
    }
  }

  /** Every run that returns has completed exactly the queries that `RunCount` says, and
      has all their results. */
  lemma CompletedIsPrefix(c: Config, r: Run)
    requires IsRun(c, r) && r.Last().returned
    ensures r.Last().running == map[]
    ensures r.Last().completed == Indices(RunCount(c.jobs))
    ensures r.Last().completed == r.Last().written
  {
    var s := r.Last();
    InvLast(c, r);
    StartedCount(c, s);
    assert s.completed == Indices(s.next);
    assert s.completed == s.written;
  }

  lemma StartedCount(c: Config, s: State)
    requires Barriers(c, s) && (s.next == |c.jobs| || s.stop)
    ensures s.next == RunCount(c.jobs)
  {
    forall k: nat | k + 1 < s.next
      ensures !c.jobs[k].EndsRequest()
    {
      assert c.jobs[k].stopIfData ==> k in s.checked;
    }
    RunCountIs(c.jobs, s.next);
  }

  /** A request that has returned leaves no thread running and has completed, with results,
      exactly the queries it should run. */
  predicate AllDone(c: Config, s: State) {
    s.returned && s.running == map[] && s.completed == s.written == Indices(RunCount(c.jobs))
  }

  lemma CanReturn(c: Config, r: Run)
    requires IsRun(c, r) && Enabled(c, r.Last(), Return)
    ensures IsRun(c, Extend(c, r, Return)) && Extend(c, r, Return).Last() == HasReturned(r.Last())
    ensures AllDone(c, HasReturned(r.Last()))
    ensures HasReturned(r.Last()).next == r.Last().next && HasReturned(r.Last()).written == r.Last().written
  {
    ExtendRun(c, r, Return);
    CompletedIsPrefix(c, Extend(c, r, Return));
  }

  /** Two returning runs of the same queries complete the same queries, whatever the
      interleavings, the numbers of parallel threads and the refused connections were. */
  lemma SameQueriesCompleted(jobs: seq<Job>, nParallel1: int, nParallel2: int, r1: Run, r2: Run)
    requires IsRun(Config(jobs, nParallel1), r1) && r1.Last().returned
    requires IsRun(Config(jobs, nParallel2), r2) && r2.Last().returned
    ensures r1.Last().completed == r2.Last().completed == Indices(RunCount(jobs))
    ensures r1.Last().written == r2.Last().written
  {
    CompletedIsPrefix(Config(jobs, nParallel1), r1);
    CompletedIsPrefix(Config(jobs, nParallel2), r2);
  }
}
