/**
 The thread that runs a request, statement by statement. Worker threads, the connection
 pool and the clock are the environment: workers advance by any number of steps before the
 main thread looks at anything they share, a connection is granted or refused at will, and
 the clock never goes back. Every method proves that what happens is a run of the protocol
 in `RequestProtocol`, recorded in `run`.
 */
module RequestManager {
  import opened Times
  import opened PointData
  import opened Answers
  import opened RequestProtocol
  import opened RequestAnswer

  /** What asking the pool for a connection may end in. */
  datatype Connection = Granted | PoolInUse | PoolCannotCreate | OtherError

  /** What becomes of an attempt to start one more thread. */
  datatype Attempt = Going | Refused | Failed

  datatype StartResult = Started | StartFailed

  /** How `runRequests` ends; the last two are its exceptions. */
  datatype RunResult = Returned | ResourceLimit | LogicError

  const WAIT_SECONDS := 10

  /** What the environment has answered: to the question for a connection, and whether a
      thread could be created. */
  datatype Reply = Connected(connection: Connection) | Thread(created: bool) {
    predicate IsRefusal() {
      this == Connected(PoolInUse) || this == Connected(PoolCannotCreate)
    }

    predicate IsFailure() {
      this == Connected(OtherError) || this == Thread(false)
    }
  }

  predicate NoFailure(replies: seq<Reply>) {
    forall i | 0 <= i < |replies| :: !replies[i].IsFailure()
  }

  /** The last answer was a refusal. */
  predicate EndsRefused(replies: seq<Reply>) {
    replies != [] && replies[|replies| - 1].IsRefusal()
  }

  lemma OneMoreReply(replies: seq<Reply>, reply: Reply)
    ensures NoFailure(replies + [reply]) <==> NoFailure(replies) && !reply.IsFailure()
    ensures EndsRefused(replies + [reply]) <==> reply.IsRefusal()
  {
    var more := replies + [reply];
    assert more[|replies|] == reply;
    assert forall i | 0 <= i < |replies| :: more[i] == replies[i];
  }

  /** No second at which the main thread found itself waiting for a connection lies more than
      ten after the first of them. */
  predicate InTime(waits: seq<nat>) {
    forall i | 0 <= i < |waits| :: waits[i] <= waits[0] + 10
  }

  /** The main thread still waits more than ten seconds after it waited first. */
  predicate GaveUp(clock: nat, waits: seq<nat>) {
    waits != [] && !InTime(waits) && 1000 * (waits[0] + 11) <= clock
  }

  /** A request fails with `LogicError` exactly when the pool failed or a thread could not be
      created, and with `ResourceLimit` exactly when it was still refused a connection more
      than ten seconds after it first had to wait, and so more than ten seconds after it began. */
  predicate Justified(r: RunResult, replies: seq<Reply>, waits: seq<nat>, clock0: nat, clock: nat) {
    && (r.LogicError? <==> !NoFailure(replies))
    && (r.ResourceLimit? <==> !InTime(waits))
    && (r.ResourceLimit? ==> EndsRefused(replies) && clock > clock0 + 10_000)
  }

  /** Between two moments of a request the clock does not go back, and the first wait stays
      the first. */
  predicate Later(clock0: nat, waits0: seq<nat>, clock: nat, waits: seq<nat>) {
    && clock0 <= clock
    && (if waits0 == [] then waits != [] ==> clock0 / 1000 <= waits[0] else waits != [] && waits[0] == waits0[0])
  }

  lemma GivesUpLate(replies: seq<Reply>, waits: seq<nat>, clock0: nat, clock: nat)
    requires Later(clock0, [], clock, waits) && GaveUp(clock, waits) && NoFailure(replies) && EndsRefused(replies)
    ensures Justified(ResourceLimit, replies, waits, clock0, clock)
  {
  }

  lemma OneMoreWait(waits: seq<nat>, now: nat)
    requires InTime(waits)
    ensures InTime(waits + [now]) <==> waits == [] || now <= waits[0] + 10
  {
    var more := waits + [now];
    assert more[|waits|] == now;
    assert forall i | 0 <= i < |waits| :: more[i] == waits[i];
  }

  class WdbDataRequestManager {
    const queries: seq<Query>
    const config: Config
    const queueAllocated: bool

    // nextToStart, nextThreadId, runningThreads, the ready queue, the completed flags, and
    // where the worker threads are.
    var threads: State
    // What the workers have written, by list index.
    var slots: map<nat, Outcome>
    var lastStarted: Option<nat>
    var waitingForDbConnection: bool
    var toManyThreads: bool
    // Milliseconds.
    var clock: nat

    ghost var run: Run
    ghost var replies: seq<Reply>
    ghost var waits: seq<nat>

    ghost predicate Valid()
      reads this
    {
      && IsRun(config, run) && run.Last() == threads
      && |config.jobs| == |queries|
      && threads.next <= |queries|
      && lastStarted == StartedLast(threads.next)
      && slots.Keys == threads.written
      && (forall i | i in slots :: i < |queries| && slots[i] == queries[i].outcome)
    }

    constructor (queries: seq<Query>, nParallel: int, queueAllocated: bool)
      ensures Valid() && run == EMPTY_RUN && replies == [] && waits == []
      ensures this.queries == queries && this.queueAllocated == queueAllocated
      ensures config == Config(Jobs(queries), nParallel)
    {
      this.queries, this.queueAllocated := queries, queueAllocated;
      config := Config(Jobs(queries), nParallel);
      threads, slots, lastStarted := INIT, map[], None;
      waitingForDbConnection := *;
      toManyThreads := *;
      clock := *;
      run, replies, waits := EMPTY_RUN, [], [];
    }

    // ---------------------------------------------------------------- the environment

    /** Some worker that has not reported yet makes its next step: it finishes its query
        and writes the result, or it pushes its id on the ready queue. */
    method WorkerStep()
      requires Valid() && threads.working + threads.finished != {}
      modifies this`threads, this`slots, this`run
      ensures Valid() && WorkersOnly(old(threads), threads)
      ensures 2 * |threads.working| + |threads.finished| < 2 * |old(threads).working| + |old(threads).finished|
    {
      var id :| id in threads.working + threads.finished;
      if id in threads.working {
        FinishQuery(id);
      } else {
        PushId(id);
      }
    }

    /** `(*request)()` on a worker thread. */
    method FinishQuery(id: nat)
      requires Valid() && id in threads.working
      modifies this`threads, this`slots, this`run
      ensures Valid() && WorkersOnly(old(threads), threads)
      ensures |threads.working| == |old(threads).working| - 1 && |threads.finished| == |old(threads).finished| + 1
      ensures id in old(threads).running && threads == Computed(old(threads), id)
      ensures var i := old(threads).running[id]; i < |queries| && slots == old(slots)[i := queries[i].outcome]
    {
      CanCompute(config, run, id);
      var i := threads.running[id];
      slots := slots[i := queries[i].outcome];
      threads := Computed(threads, id);
      run := Extend(config, run, Compute(id));
    }

    /** `readyQueue->push( id )` on a worker thread. */
    method PushId(id: nat)
      requires Valid() && id in threads.finished
      modifies this`threads, this`run
      ensures Valid() && WorkersOnly(old(threads), threads)
      ensures threads.working == old(threads).working && |threads.finished| == |old(threads).finished| - 1
      ensures threads == Pushed(old(threads), id)
    {
      CanPush(config, run, id);
      threads := Pushed(threads, id);
      run := Extend(config, run, Push(id));
    }

    /** Any number of worker steps. */
    method WorkersRun()
      requires Valid()
      modifies this`threads, this`slots, this`run
      ensures Valid() && WorkersOnly(old(threads), threads)
    {
      var steps: nat := *;
      while steps > 0 && threads.working + threads.finished != {}
        invariant Valid() && WorkersOnly(old(threads), threads)
      {
        WorkerStep();
        steps := steps - 1;
      }
    }

    method NewConnection() returns (c: Connection)
    {
      c := *;
    }

    /** `time()`, in seconds. */
    method Time() returns (now: nat)
      modifies this`clock
      ensures clock >= old(clock) && now == clock / 1000
    {
      var passed: nat :| true;
      clock := clock + passed;
      now := clock / 1000;
    }

    method SleepOneMillisecond()
      modifies this`clock
      ensures clock > old(clock)
    {
      var passed: nat :| true;
      clock := clock + 1 + passed;
    }

    // ---------------------------------------------------------------- the ready queue

    /** `readyQueue->waitAndPop`. It is only entered when an id is sure to come. */
    method WaitAndPop() returns (tid: nat)
      requires Valid() && threads.held.None? && !threads.returned && threads.running != map[]
      modifies this`threads, this`slots, this`run
      ensures Valid() && WaitOnly(old(threads), threads)
      ensures threads.held == Some(tid) && threads.running == old(threads).running
    {
      WorkersRun();
      while threads.ready == []
        invariant Valid() && WorkersOnly(old(threads), threads)
        decreases 2 * |threads.working| + |threads.finished|
      {
        WaitingIsSafe(config, run, |run.events|);
        WorkerStep();
      }
      tid := TakeFirst();
    }

    method TryPop() returns (popped: bool, tid: nat)
      requires Valid() && threads.held.None? && !threads.returned
      modifies this`threads, this`slots, this`run
      ensures Valid() && WaitOnly(old(threads), threads) && threads.running == old(threads).running
      ensures threads.held == if popped then Some(tid) else None
    {
      WorkersRun();
      popped, tid := false, 0;
      if threads.ready != [] {
        tid := TakeFirst();
        popped := true;
      }
    }

    method TakeFirst() returns (tid: nat)
      requires Valid() && threads.held.None? && !threads.returned && threads.ready != []
      modifies this`threads, this`run
      ensures Valid() && threads.held == Some(tid) && threads == Popped(old(threads))
    {
      ExtendRun(config, run, Pop);
      tid := threads.ready[0];
      threads := Popped(threads);
      run := Extend(config, run, Pop);
    }

    /** Marks the thread completed and joins it. It has pushed its id, so this does not
        block for long. */
    method JoinThread(tid: nat)
      requires Valid() && threads.held == Some(tid) && !threads.returned
      modifies this`threads, this`run
      ensures Valid() && WaitOnly(old(threads), threads) && threads.held.None?
      ensures |threads.running| == |old(threads).running| - 1 && threads == Joined(old(threads), tid)
    {
      CanJoin(config, run);
      threads := Joined(threads, tid);
      run := Extend(config, run, Join);
    }

    // ---------------------------------------------------------------- the request

    method WaitForCompleted(waitForAtLeast: int) returns (n: nat)
      requires Valid() && threads.held.None? && !threads.returned
      modifies this`threads, this`slots, this`run
      ensures Valid() && WaitOnly(old(threads), threads) && threads.held.None?
      ensures n == |old(threads).running| - |threads.running|
      ensures waitForAtLeast == 0 ==> threads.running == map[]
      ensures waitForAtLeast > 0 ==> n >= waitForAtLeast || threads.running == map[]
    {
      n := 0;
      if threads.running == map[] {
        return;
      }
      while threads.running != map[]
        invariant Valid() && WaitOnly(old(threads), threads) && threads.held.None?
        invariant n == |old(threads).running| - |threads.running|
        decreases |threads.running|
      {
        var tid: nat;
        if waitForAtLeast == 0 || (waitForAtLeast > 0 && n < waitForAtLeast) {
          tid := WaitAndPop();
        } else {
          var popped;
          popped, tid := TryPop();
          if !popped {
            return;
          }
        }
        n := n + 1;
        if tid !in threads.running {
          // "A thread not waited for completed": never reached.
          WaitingIsSafe(config, run, |run.events|);
          assert false;
        }
        JoinThread(tid);
      }
    }

    /** Starts a worker on the next query of the list. */
    method StartNext()
      requires Valid() && Enabled(config, threads, Start)
      modifies this`threads, this`lastStarted, this`run
      ensures Valid() && StartOnly(old(threads), threads)
      ensures threads.next == old(threads).next + 1
      ensures |threads.running| == |old(threads).running| + 1
      ensures config.jobs[threads.next - 1].stopIfData <==> AtBarrier(config, threads)
    {
      CanStart(config, run);
      lastStarted := Some(threads.next);
      threads := ThreadStarted(threads);
      run := Extend(config, run, Start);
    }

    /** Asks the pool and notes whether it refused. */
    method AskForConnection() returns (c: Connection)
      requires Valid() && threads.next < |queries| && !threads.returned
      modifies this`waitingForDbConnection, this`toManyThreads, this`run, this`replies
      ensures Valid() && replies == old(replies) + [Connected(c)]
      ensures c.Granted? ==> !waitingForDbConnection && !toManyThreads
      ensures c.PoolInUse? || c.PoolCannotCreate? ==> waitingForDbConnection
    {
      c := NewConnection();
      replies := replies + [Connected(c)];
      match c {
        case Granted =>
          waitingForDbConnection := false;
          toManyThreads := false;
        case PoolInUse =>
          waitingForDbConnection := true;
        case PoolCannotCreate =>
          waitingForDbConnection := true;
        case OtherError =>
          return;
      }
      if c != Granted {
        ExtendRun(config, run, Refuse);
        run := Extend(config, run, Refuse);
      }
    }

    method CreateThread() returns (created: bool)
      modifies this`replies
      ensures replies == old(replies) + [Thread(created)]
    {
      created := *;
      replies := replies + [Thread(created)];
    }

    /** Nothing has failed so far, and the main thread waits only while it is refused. */
    ghost predicate Fine()
      reads this
    {
      NoFailure(replies) && (waitingForDbConnection ==> EndsRefused(replies))
    }

    /** Asks for a connection and starts a worker with it. */
    method StartOne() returns (attempt: Attempt)
      requires Valid() && Enabled(config, threads, Start) && Fine()
      modifies this`threads, this`lastStarted, this`waitingForDbConnection, this`toManyThreads, this`run, this`replies
      ensures Valid() && (if attempt.Failed? then !NoFailure(replies) else Fine())
      ensures !attempt.Going? ==> threads == old(threads)
      ensures attempt.Refused? ==> waitingForDbConnection
      ensures attempt.Going? ==>
                && !waitingForDbConnection && !toManyThreads && StartOnly(old(threads), threads)
                && threads.next == old(threads).next + 1 && |threads.running| == |old(threads).running| + 1
                && (config.jobs[threads.next - 1].stopIfData <==> AtBarrier(config, threads))
    {
      ghost var before := replies;
      var c := AskForConnection();
      OneMoreReply(before, Connected(c));
      if c.OtherError? {
        return Failed;
      }
      if c != Granted {
        return Refused;
      }
      var threadCreated := CreateThread();
      OneMoreReply(before + [Connected(c)], Thread(threadCreated));
      if !threadCreated {
        return Failed;
      }
      StartNext();
      attempt := Going;
    }

    method StartThreads() returns (r: StartResult)
      requires Valid() && threads.held.None? && !threads.returned && !threads.stop && !AtBarrier(config, threads)
      requires Fine()
      modifies this`threads, this`lastStarted, this`waitingForDbConnection, this`toManyThreads, this`run, this`replies
      ensures if r.Started? then Fine() else !NoFailure(replies)
      ensures Valid() && StartOnly(old(threads), threads) && threads.next >= old(threads).next
      ensures r.Started? ==>
                || threads.next == |queries| || (waitingForDbConnection && EndsRefused(replies))
                || AtBarrier(config, threads)
                || (config.nParallel > 0 && |threads.running| >= config.nParallel)
      ensures Left(config, threads) == Left(config, old(threads)) - (threads.next - old(threads).next)
      ensures r.Started? && threads.next == old(threads).next < |queries| ==>
                waitingForDbConnection || (toManyThreads && threads.running != map[])
      ensures r.Started? && AtBarrier(config, threads) ==> !waitingForDbConnection
      ensures r.Started? && !waitingForDbConnection && old(threads).next < |queries| ==>
                lastStarted.Some? && (config.jobs[lastStarted.value].stopIfData ==> AtBarrier(config, threads))
    {
      r := Started;
      while threads.next != |queries|
        invariant Valid() && StartOnly(old(threads), threads) && !AtBarrier(config, threads) && Fine()
        invariant threads.next >= old(threads).next
        invariant threads.next > old(threads).next ==> !config.jobs[threads.next - 1].stopIfData
        invariant Left(config, threads) == Left(config, old(threads)) - (threads.next - old(threads).next)
      {
        if config.nParallel > 0 && |threads.running| >= config.nParallel {
          toManyThreads := true;
          OpenBarrier(config, run);
          return;
        }
        var attempt := StartOne();
        if attempt.Failed? {
          r := StartFailed;
          return;
        }
        if attempt.Refused? {
          return;
        }
        if config.jobs[lastStarted.value].stopIfData {
          return;
        }
      }
    }

    /** Waits for the last started query and reads its data, to see whether it ends the
        request. */
    method Inspect() returns (stop: bool)
      requires Valid() && config.jobs == Jobs(queries)
      requires Enabled(config, threads, Check) && !threads.stop
      modifies this`threads, this`run
      ensures Valid() && threads == Checked(old(threads), stop)
      ensures LastStartedDecides(stop)
    {
      CheckSeesResult(config, run, |run.events|);
      ExtendRun(config, run, Check);
      stop := DataEndsRequest(slots[lastStarted.value]);
      threads := Checked(threads, stop);
      run := Extend(config, run, Check);
    }

    /** The data of the query that was started last, whose result is there, decides. */
    predicate LastStartedDecides(stop: bool)
      reads this
    {
      lastStarted.Some? && lastStarted.value in slots && stop == slots[lastStarted.value].HasForecast()
    }

    method InspectLastStarted() returns (stop: bool)
      requires Valid() && config.jobs == Jobs(queries) && threads.held.None? && !threads.returned
      requires AtBarrier(config, threads) && !threads.stop
      modifies this`threads, this`slots, this`run
      ensures Valid() && threads.held.None? && !threads.returned && !AtBarrier(config, threads)
      ensures stop == threads.stop && Left(config, threads) <= Left(config, old(threads))
      ensures threads.running == map[] && LastStartedDecides(stop)
    {
      ghost var before := threads;
      var _ := WaitForCompleted(0);
      ghost var between := threads;
      ReadyToCheck(config, before, between);
      stop := Inspect();
      AfterCheck(config, before, between, stop);
    }

    static method DataEndsRequest(command: Outcome) returns (stop: bool)
      ensures stop == command.HasForecast()
    {
      stop := false;
      if command.data != map[] {
        var onlyConst := CheckConstFields(command.data);
        if !onlyConst {
          stop := true;
        }
      }
    }

    /** The part of a pass that deals with refused connections. `waitUntil` is the deadline,
        in seconds, set at the first refusal. */
    method WaitForConnection(inWaiting: bool, waitUntil0: nat) returns (giveUp: bool, waitUntil: nat)
      requires Valid() && threads.held.None? && !threads.returned && OnTime(inWaiting, waitUntil0)
      modifies this`threads, this`slots, this`run, this`clock, this`waits
      ensures Valid() && WaitOnly(old(threads), threads) && threads.held.None?
      ensures Later(old(clock), old(waits), clock, waits)
      ensures if giveUp then GaveUp(clock, waits) else OnTime(true, waitUntil)
      ensures !AtBarrier(config, old(threads)) ==> !AtBarrier(config, threads)
      ensures !giveUp ==>
                UsesUp(Left(config, old(threads)), Left(config, threads),
                       if inWaiting then Some(TimeLeft(waitUntil0, old(clock))) else None,
                       Some(TimeLeft(waitUntil, clock)))
    {
      giveUp, waitUntil := false, waitUntil0;
      var now := Time();
      OneMoreWait(waits, now);
      waits := waits + [now];
      if !inWaiting {
        waitUntil := now + WAIT_SECONDS;
      } else if now > waitUntil {
        giveUp := true;
        return;
      }
      if |threads.running| > 0 {
        var _ := WaitForCompleted(1);
      } else {
        SleepOneMillisecond();
      }
    }

    /** One start of threads, and the wait that follows when too many are running. */
    method StartAndWait() returns (r: StartResult)
      requires Valid() && threads.held.None? && !threads.returned && !threads.stop && !AtBarrier(config, threads)
      requires threads.next < |queries| && Fine()
      modifies this`threads, this`slots, this`lastStarted, this`waitingForDbConnection, this`toManyThreads, this`run,
               this`replies
      ensures Valid() && threads.held.None? && !threads.returned && !threads.stop
      ensures if r.Started? then Fine() else !NoFailure(replies)
      ensures r.StartFailed? ==> threads.running == map[]
      ensures r.Started? ==>
                Left(config, threads) < Left(config, old(threads))
                || (waitingForDbConnection && Left(config, threads) == Left(config, old(threads)))
      ensures r.Started? && AtBarrier(config, threads) ==> !waitingForDbConnection
      ensures r.Started? && !waitingForDbConnection ==>
                lastStarted.Some? && (config.jobs[lastStarted.value].stopIfData <==> AtBarrier(config, threads))
    {
      r := StartThreads();
      if r.StartFailed? {
        var _ := WaitForCompleted(0);
        return;
      }
      if toManyThreads {
        var _ := WaitForCompleted(1);
      }
    }

    /** The deadline is the one that was set when the main thread waited first. */
    ghost predicate OnTime(inWaiting: bool, waitUntil: nat)
      reads this
    {
      InTime(waits) && (inWaiting <==> waits != []) && (inWaiting ==> waitUntil == waits[0] + 10)
    }

    /** One pass of the loop in `runRequests`; it ends the request when `failed` is set. */
    method Pass(inWaiting0: bool, waitUntil0: nat)
      returns (failed: Option<RunResult>, stop: bool, inWaiting: bool, waitUntil: nat)
      requires Valid() && config.jobs == Jobs(queries) && threads.held.None? && !threads.returned
      requires !threads.stop && !AtBarrier(config, threads) && threads.next < |queries|
      requires Fine() && OnTime(inWaiting0, waitUntil0)
      modifies this
      ensures Valid() && (failed.Some? ==> !failed.value.Returned?)
      ensures Later(old(clock), old(waits), clock, waits)
      ensures failed.None? ==> Fine() && OnTime(inWaiting, waitUntil)
      ensures failed == Some(LogicError) ==> !NoFailure(replies) && InTime(waits)
      ensures failed == Some(ResourceLimit) ==> Fine() && waitingForDbConnection && GaveUp(clock, waits)
      ensures failed == Some(LogicError) ==> threads.running == map[]
      ensures failed.None? ==>
                && threads.held.None? && !threads.returned && stop == threads.stop && !AtBarrier(config, threads)
                && (inWaiting0 ==> inWaiting && waitUntil == waitUntil0)
                && UsesUp(Left(config, old(threads)), Left(config, threads),
                          if inWaiting0 then Some(TimeLeft(waitUntil0, old(clock))) else None,
                          if inWaiting then Some(TimeLeft(waitUntil, clock)) else None)
    {
      failed, stop, inWaiting, waitUntil := None, false, inWaiting0, waitUntil0;
      var started := StartAndWait();
      if started.StartFailed? {
        failed := Some(LogicError);
        return;
      }
      if waitingForDbConnection {
        var giveUp;
        giveUp, waitUntil := WaitForConnection(inWaiting, waitUntil);
        inWaiting := true;
        if giveUp {
          failed := Some(ResourceLimit);
        }
        return;
      }
      stop := InspectIfBarrier();
    }

    /** The end of a pass: nothing more is started before the data of a barrier is known. */
    method InspectIfBarrier() returns (stop: bool)
      requires Valid() && config.jobs == Jobs(queries) && threads.held.None? && !threads.returned && !threads.stop
      requires lastStarted.Some? && (config.jobs[lastStarted.value].stopIfData <==> AtBarrier(config, threads))
      modifies this`threads, this`slots, this`run
      ensures Valid() && threads.held.None? && !threads.returned && !AtBarrier(config, threads)
      ensures stop == threads.stop && Left(config, threads) <= Left(config, old(threads))
    {
      stop := false;
      if lastStarted.Some? {
        if queries[lastStarted.value].stopIfData {
          stop := InspectLastStarted();
        }
      }
    }

    /** What a request that has not failed keeps from pass to pass. */
    ghost predicate Underway(stop: bool, inWaiting: bool, waitUntil: nat)
      reads this
    {
      && Valid() && threads.held.None? && !threads.returned && stop == threads.stop
      && !AtBarrier(config, threads) && Fine() && OnTime(inWaiting, waitUntil)
    }

    /** The loop of `runRequests`; `Returned` when it has not failed. */
    method RunPasses() returns (r: RunResult)
      requires Underway(false, false, 0) && config.jobs == Jobs(queries)
      modifies this
      ensures Valid() && Justified(r, replies, waits, old(clock), clock)
      ensures r.LogicError? ==> threads.running == map[]
      ensures r.Returned? ==> threads.held.None? && !threads.returned && (threads.next == |queries| || threads.stop)
    {
      var stop, inWaitingForDbConnection := false, false;
      var waitUntil: nat := 0;
      while threads.next != |queries| && !stop
        invariant Underway(stop, inWaitingForDbConnection, waitUntil)
        invariant Later(old(clock), [], clock, waits)
        decreases Left(config, threads), !inWaitingForDbConnection, TimeLeft(waitUntil, clock)
      {
        var failed;
        failed, stop, inWaitingForDbConnection, waitUntil := Pass(inWaitingForDbConnection, waitUntil);
        if failed.Some? {
          if failed.value.ResourceLimit? {
            GivesUpLate(replies, waits, old(clock), clock);
          }
          return failed.value;
        }
      }
      r := Returned;
    }

    /** `runRequests`. It always ends: with all threads joined unless a connection could not
        be had in time, and when it returns normally it has run exactly the queries that
        `RunCount` says, whatever the environment did. It fails only when the pool fails or a
        thread cannot be created, or more than ten seconds after a first refusal. */
    method RunRequests() returns (r: RunResult)
      requires Valid() && run == EMPTY_RUN && config.jobs == Jobs(queries) && replies == [] && waits == []
      modifies this
      ensures Valid()
      ensures if queueAllocated then Justified(r, replies, waits, old(clock), clock) else r.ResourceLimit?
      ensures r.LogicError? ==> threads.running == map[]
      ensures r.Returned? ==> AllDone(config, threads)
    {
      waitingForDbConnection := false;
      assert threads == INIT;
      if !queueAllocated {
        return ResourceLimit;
      }
      r := RunPasses();
      if r.Returned? {
        Finish();
      }
    }

    /** The normal return, with all threads joined. */
    method Finish()
      requires Valid() && threads.held.None? && !threads.returned && (threads.next == |queries| || threads.stop)
      modifies this`threads, this`slots, this`run
      ensures Valid() && AllDone(config, threads)
    {
      var _ := WaitForCompleted(0);
      Return();
    }

    method Return()
      requires Valid() && Enabled(config, threads, RequestProtocol.Return)
      modifies this`threads, this`run
      ensures Valid() && AllDone(config, threads)
    {
      CanReturn(config, run);
      threads := HasReturned(threads);
      run := Extend(config, run, RequestProtocol.Return);
    }
  }

  /** `lastStartedThread` when the first n queries have been started. */
  function StartedLast(n: nat): (r: Option<nat>) {
    if n == 0 then None else Some(n - 1)
  }

  /** A pass leaves less work, or as much of it and less time if the deadline was set. */
  predicate UsesUp(workBefore: int, work: int, timeBefore: Option<nat>, time: Option<nat>) {
    work < workBefore || (work == workBefore && time.Some? && (timeBefore.Some? ==> time.value < timeBefore.value))
  }

  /** Milliseconds until the second after the deadline. */
  function TimeLeft(waitUntil: nat, clock: nat): (t: nat) {
    if (waitUntil + 1) * 1000 >= clock then (waitUntil + 1) * 1000 - clock else 0
  }

  lemma ReadyToCheck(c: Config, before: State, s: State)
    requires AtBarrier(c, before) && !before.returned && !before.stop
    requires WaitOnly(before, s) && s.running == map[]
    ensures Enabled(c, s, Check) && !s.stop
  {
  }

  lemma AfterCheck(c: Config, before: State, s: State, stop: bool)
    requires AtBarrier(c, before) && WaitOnly(before, s) && s.running == map[] && !before.stop
    ensures !AtBarrier(c, Checked(s, stop)) && Checked(s, stop).stop == stop
    ensures Left(c, Checked(s, stop)) <= Left(c, before)
  {
  }

  /** The threads as the fields of the manager show them. */
  function ThreadInfos(queries: seq<Query>, slots: map<nat, Outcome>, completed: set<nat>): (infos: seq<ThreadInfo>) {
    seq(|queries|, i requires 0 <= i < |queries| =>
      ThreadInfo(queries[i].(outcome := if i in slots then slots[i] else Outcome(true, map[])), i in completed))
  }

  lemma SameInfos(queries: seq<Query>, slots: map<nat, Outcome>, s: State)
    requires slots.Keys == s.written
    requires forall i | i in slots :: i < |queries| && slots[i] == queries[i].outcome
    ensures ThreadInfos(queries, slots, s.completed) == Infos(queries, s)
  {
  }

  /** `requestData` from the point where the queries are known. Whenever it returns data,
      that is `Answer(queries)`; and it returns data whenever the queue could be allocated,
      nothing failed, and no connection was refused for too long. */
  method RequestData(queries: seq<Query>, nParallel: int, queueAllocated: bool)
    returns (r: RunResult, data: LocationPointData, ghost replies: seq<Reply>, ghost waits: seq<nat>)
    requires AllOneLocation(queries)
    ensures r.Returned? ==> data == Answer(queries)
    ensures r.Returned? <==> queueAllocated && NoFailure(replies) && InTime(waits)
    ensures queueAllocated && r.ResourceLimit? ==> EndsRefused(replies)
  {
    var manager := new WdbDataRequestManager(queries, nParallel, queueAllocated);
    r := manager.RunRequests();
    replies, waits := manager.replies, manager.waits;
    data := map[];
    if r.Returned? {
      SameInfos(queries, manager.slots, manager.threads);
      CompletedAnswer(queries, manager.threads);
      data := MergeData(ThreadInfos(queries, manager.slots, manager.threads.completed));
    }
  }
}
