/** The background database queue: one worker and any number of callers share a task list, a lock, a
    condition variable and a state flag. Every interleaving of their steps is a run of the machine
    below. */
module DatabaseTasks {

  /** A task and its number among the accepted ones. */
  datatype Entry = Entry(serial: nat, query: string)

  datatype ThreadState = Running | Closing | Terminated

  datatype Thread = TheWorker | Caller(i: int)

  datatype Owner = Free | HeldBy(thread: Thread)

  /** Where the worker is in threadMain. */
  datatype Worker =
    | Check                 // reads the thread state
    | WantsLock
    | AtTest                // holds the lock, looks whether the list is empty
    | Waiting               // inside taskSignal.wait, without the lock
    | Woken                 // leaving the wait, wants the lock back
    | AtPop                 // holds the lock, takes a task if there is one
    | RunsTask(task: Entry)
    | Exited

  /** Where a caller is; `shut` says that the flush belongs to a shutdown. */
  datatype Client =
    | Idle
    | AddWants(query: string)
    | AddReads(query: string)       // holds the lock, reads the thread state
    | AddPushes(query: string)      // holds the lock, has read Running
    | AddReleases(signal: bool)     // holds the lock
    | AddNotifies
    | ShutWants
    | ShutSets                      // holds the lock
    | ShutReleases                  // holds the lock
    | FlushWants(shut: bool)
    | FlushTests(shut: bool)        // holds the lock
    | FlushRuns(task: Entry, shut: bool)
    | ShutNotifies

  datatype Call = AddTask(query: string) | Flush | Shutdown

  /** The shared state, the places of the threads, and three records: accepted, popped and executed
      tasks, in order. `ended` says that Terminated has been set, `flushed` that a shutdown has seen the
      list empty after that. */
  datatype State = State(
    threadState: ThreadState, owner: Owner, tasks: seq<Entry>, worker: Worker, clients: seq<Client>,
    accepted: seq<Entry>, popped: seq<Entry>, executed: seq<Entry>, ended: bool, flushed: bool)

  /** Right after start(), with n callers. */
  predicate Init(s: State) {
    s.threadState == Running && s.owner == Free && s.tasks == [] && s.worker == Check
    && (forall i :: 0 <= i < |s.clients| ==> s.clients[i] == Idle)
    && s.accepted == [] && s.popped == [] && s.executed == [] && !s.ended && !s.flushed
  }

  // ---------- the steps ----------

  /** notify_one wakes the worker if it waits, and is lost otherwise. */
  function Notified(w: Worker): Worker {
    if w == Waiting then Woken else w
  }

  /** A step that cannot be taken because the lock is held leaves the state as it is. */
  function WorkerNext(s: State): State {
    match s.worker
    case Check => s.(worker := if s.threadState == Terminated then Exited else WantsLock)
    case WantsLock => if s.owner == Free then s.(owner := HeldBy(TheWorker), worker := AtTest) else s
    case AtTest => if s.tasks == [] then s.(owner := Free, worker := Waiting) else s.(worker := AtPop)
    case Waiting => s
    case Woken => if s.owner == Free then s.(owner := HeldBy(TheWorker), worker := AtPop) else s
    case AtPop =>
      if s.tasks == [] then s.(owner := Free, worker := Check)
      else s.(owner := Free, worker := RunsTask(s.tasks[0]), tasks := s.tasks[1..], popped := s.popped + [s.tasks[0]])
    case RunsTask(e) => s.(worker := Check, executed := s.executed + [e])
    case Exited => s
  }

  function Move(s: State, i: int, c: Client): State {
    if 0 <= i < |s.clients| then s.(clients := s.clients[i := c]) else s
  }

  function Acquire(s: State, i: int, c: Client): State {
    if s.owner == Free then Move(s, i, c).(owner := HeldBy(Caller(i))) else s
  }

  function Release(s: State, i: int, c: Client): State {
    Move(s, i, c).(owner := Free)
  }

  /** addTask. */
  function AddNext(s: State, i: int): State
    requires 0 <= i < |s.clients|
  {
    match s.clients[i]
    case AddWants(q) => Acquire(s, i, AddReads(q))
    case AddReads(q) => Move(s, i, if s.threadState == Running then AddPushes(q) else AddReleases(false))
    case AddPushes(q) =>
      var e := Entry(|s.accepted|, q);
      Move(s, i, AddReleases(s.tasks == [])).(tasks := s.tasks + [e], accepted := s.accepted + [e])
    case AddReleases(signal) => Release(s, i, if signal then AddNotifies else Idle)
    case AddNotifies => Move(s, i, Idle).(worker := Notified(s.worker))
    case _ => s
  }

  /** flush. */
  function FlushNext(s: State, i: int): State
    requires 0 <= i < |s.clients|
  {
    match s.clients[i]
    case FlushWants(shut) => Acquire(s, i, FlushTests(shut))
    case FlushTests(shut) =>
      if s.tasks == [] then Release(s, i, if shut then ShutNotifies else Idle).(flushed := s.flushed || shut)
      else Release(s, i, FlushRuns(s.tasks[0], shut)).(tasks := s.tasks[1..], popped := s.popped + [s.tasks[0]])
    case FlushRuns(e, shut) => Move(s, i, FlushWants(shut)).(executed := s.executed + [e])
    case _ => s
  }

  /** shutdown, around its flush. */
  function ShutNext(s: State, i: int): State
    requires 0 <= i < |s.clients|
  {
    match s.clients[i]
    case ShutWants => Acquire(s, i, ShutSets)
    case ShutSets => Move(s, i, ShutReleases).(threadState := Terminated, ended := true)
    case ShutReleases => Release(s, i, FlushWants(true))
    case ShutNotifies => Move(s, i, Idle).(worker := Notified(s.worker))
    case _ => s
  }

  predicate Flushing(c: Client) {
    c.FlushWants? || c.FlushTests? || c.FlushRuns?
  }

  predicate Adding(c: Client) {
    c.AddWants? || c.AddReads? || c.AddPushes? || c.AddReleases? || c.AddNotifies?
  }

  function ClientNext(s: State, i: int): State
    requires 0 <= i < |s.clients|
  {
    if Adding(s.clients[i]) then AddNext(s, i)
    else if Flushing(s.clients[i]) then FlushNext(s, i)
    else ShutNext(s, i)
  }

  /** One step: of the worker, of a caller, a new call, stop(), or a wait that returns by itself. */
  datatype Action = WorkerStep | ClientStep(i: int) | Begin(i: int, call: Call) | Stop | SpuriousWake

  function Next(s: State, a: Action): State {
    match a
    case WorkerStep => WorkerNext(s)
    case ClientStep(i) => if 0 <= i < |s.clients| then ClientNext(s, i) else s
    case Begin(i, call) =>
      if 0 <= i < |s.clients| && s.clients[i] == Idle then
        Move(s, i, match call case AddTask(q) => AddWants(q) case Flush => FlushWants(false) case Shutdown => ShutWants)
      else s
    case Stop => s.(threadState := Closing)
    case SpuriousWake => s.(worker := Notified(s.worker))
  }

  function Run(s: State, actions: seq<Action>): State
    decreases |actions|
  {
    if actions == [] then s else Run(Next(s, actions[0]), actions[1..])
  }

  // ---------- the lock ----------

  predicate Holds(c: Client) {
    c.AddReads? || c.AddPushes? || c.AddReleases? || c.ShutSets? || c.ShutReleases? || c.FlushTests?
  }

  /** The lock is held by exactly the thread that is in a critical section. */
  predicate Exclusive(s: State) {
    (s.owner == HeldBy(TheWorker) <==> s.worker.AtTest? || s.worker.AtPop?)
    && (s.owner.HeldBy? && s.owner.thread.Caller? ==> 0 <= s.owner.thread.i < |s.clients|)
    && forall i :: 0 <= i < |s.clients| ==> (s.owner == HeldBy(Caller(i)) <==> Holds(s.clients[i]))
  }

  lemma ExclusiveKeptByWorker(s: State)
    requires Exclusive(s)
    ensures Exclusive(WorkerNext(s))
  {
  }

  lemma ExclusiveKeptByAdd(s: State, i: int)
    requires Exclusive(s) && 0 <= i < |s.clients|
    ensures Exclusive(AddNext(s, i))
  {
  }

  lemma ExclusiveKeptByFlush(s: State, i: int)
    requires Exclusive(s) && 0 <= i < |s.clients|
    ensures Exclusive(FlushNext(s, i))
  {
  }

  lemma ExclusiveKeptByShut(s: State, i: int)
    requires Exclusive(s) && 0 <= i < |s.clients|
    ensures Exclusive(ShutNext(s, i))
  {
  }

  lemma ExclusiveKept(s: State, a: Action)
    requires Exclusive(s)
    ensures Exclusive(Next(s, a))
  {
    hide WorkerNext, AddNext, FlushNext, ShutNext;
    match a
    case WorkerStep => ExclusiveKeptByWorker(s);
    case ClientStep(i) =>
      if 0 <= i < |s.clients| {
        ExclusiveKeptByAdd(s, i);
        ExclusiveKeptByFlush(s, i);
        ExclusiveKeptByShut(s, i);
      }
    case _ =>
  }

  // ---------- order ----------

  /** Popped tasks followed by pending ones are the accepted ones, in order, each with its own number. */
  predicate InOrder(s: State) {
    s.popped + s.tasks == s.accepted
    && forall k :: 0 <= k < |s.accepted| ==> s.accepted[k].serial == k
  }

  lemma InOrderKeptByWorker(s: State)
    requires InOrder(s)
    ensures InOrder(WorkerNext(s))
  {
    if s.worker.AtPop? && s.tasks != [] {
      assert (s.popped + [s.tasks[0]]) + s.tasks[1..] == s.popped + s.tasks;
    }
  }

  lemma InOrderKeptByAdd(s: State, i: int)
    requires InOrder(s) && 0 <= i < |s.clients|
    ensures InOrder(AddNext(s, i))
  {
    if s.clients[i].AddPushes? {
      var e := Entry(|s.accepted|, s.clients[i].query);
      assert s.popped + (s.tasks + [e]) == (s.popped + s.tasks) + [e];
    }
  }

  lemma InOrderKeptByFlush(s: State, i: int)
    requires InOrder(s) && 0 <= i < |s.clients|
    ensures InOrder(FlushNext(s, i))
  {
    if s.clients[i].FlushTests? && s.tasks != [] {
      assert (s.popped + [s.tasks[0]]) + s.tasks[1..] == s.popped + s.tasks;
    }
  }

  lemma InOrderKeptByShut(s: State, i: int)
    requires InOrder(s) && 0 <= i < |s.clients|
    ensures InOrder(ShutNext(s, i))
  {
  }

  lemma InOrderKept(s: State, a: Action)
    requires InOrder(s)
    ensures InOrder(Next(s, a))
  {
    hide WorkerNext, AddNext, FlushNext, ShutNext;
    match a
    case WorkerStep => InOrderKeptByWorker(s);
    case ClientStep(i) =>
      if 0 <= i < |s.clients| {
        InOrderKeptByAdd(s, i);
        InOrderKeptByFlush(s, i);
        InOrderKeptByShut(s, i);
      }
    case _ =>
  }

  // ---------- every task once ----------

  predicate Runs(s: State, t: Thread, e: Entry) {
    match t
    case TheWorker => s.worker == RunsTask(e)
    case Caller(i) => 0 <= i < |s.clients| && s.clients[i].FlushRuns? && s.clients[i].task == e
  }

  predicate NoDuplicates(s: seq<Entry>) {
    forall j, k :: 0 <= j < k < |s| ==> s[j] != s[k]
  }

  /** A popped task is either executed or in the hands of exactly one thread, never both. */
  ghost predicate OnceEach(s: State) {
    NoDuplicates(s.executed)
    && (forall e :: e in s.executed ==> e in s.popped)
    && (forall t, e :: Runs(s, t, e) ==> e in s.popped && e !in s.executed)
    && (forall t, u, e :: Runs(s, t, e) && Runs(s, u, e) ==> t == u)
    && (forall e :: e in s.popped ==> e in s.executed || exists t :: Runs(s, t, e))
  }

  lemma NextIsNew(s: State)
    requires InOrder(s) && s.tasks != []
    ensures s.tasks[0] !in s.popped
  {
    assert s.accepted[|s.popped|] == s.tasks[0];
    forall k | 0 <= k < |s.popped| ensures s.popped[k] != s.tasks[0] {
      assert s.accepted[k] == s.popped[k];
    }
  }

  /** Taking a task: it is new, and so is the thread that runs it. */
  lemma TakeKeeps(s: State, s': State, u: Thread)
    requires InOrder(s) && OnceEach(s) && s.tasks != []
    requires s'.popped == s.popped + [s.tasks[0]] && s'.executed == s.executed
    requires forall t, e :: Runs(s', t, e) <==> if t == u then e == s.tasks[0] else Runs(s, t, e)
    requires forall e :: !Runs(s, u, e)
    ensures OnceEach(s')
  {
    NextIsNew(s);
    forall e | e in s'.popped && e !in s'.executed ensures exists t :: Runs(s', t, e) {
      if e == s.tasks[0] {
        assert Runs(s', u, e);
      } else {
        var t :| Runs(s, t, e);
        assert Runs(s', t, e);
      }
    }
  }

  /** Running it: out of the thread's hands and into the record. */
  lemma RunKeeps(s: State, s': State, u: Thread, e: Entry)
    requires OnceEach(s) && Runs(s, u, e)
    requires s'.popped == s.popped && s'.executed == s.executed + [e]
    requires forall t, x :: Runs(s', t, x) <==> t != u && Runs(s, t, x)
    ensures OnceEach(s')
  {
    forall x | x in s'.popped && x !in s'.executed ensures exists t :: Runs(s', t, x) {
      var t :| Runs(s, t, x);
      assert t != u;
      assert Runs(s', t, x);
    }
    assert e !in s.executed;
  }

  lemma SameHands(s: State, s': State)
    requires OnceEach(s) && s'.popped == s.popped && s'.executed == s.executed
    requires forall t, e :: Runs(s', t, e) <==> Runs(s, t, e)
    ensures OnceEach(s')
  {
    forall e | e in s'.popped && e !in s'.executed ensures exists t :: Runs(s', t, e) {
      var t :| Runs(s, t, e);
      assert Runs(s', t, e);
    }
  }

  lemma OnceEachKeptByWorker(s: State)
    requires InOrder(s) && OnceEach(s)
    ensures OnceEach(WorkerNext(s))
  {
    hide InOrder, OnceEach;
    var t := WorkerNext(s);
    if s.worker.AtPop? && s.tasks != [] {
      TakeKeeps(s, t, TheWorker);
    } else if s.worker.RunsTask? {
      RunKeeps(s, t, TheWorker, s.worker.task);
    } else {
      SameHands(s, t);
    }
  }

  lemma OnceEachKeptByAdd(s: State, i: int)
    requires InOrder(s) && OnceEach(s) && 0 <= i < |s.clients|
    ensures OnceEach(AddNext(s, i))
  {
    hide InOrder, OnceEach;
    SameHands(s, AddNext(s, i));
  }

  lemma OnceEachKeptByFlush(s: State, i: int)
    requires InOrder(s) && OnceEach(s) && 0 <= i < |s.clients|
    ensures OnceEach(FlushNext(s, i))
  {
    hide InOrder, OnceEach;
    var t := FlushNext(s, i);
    if s.clients[i].FlushTests? && s.tasks != [] {
      TakeKeeps(s, t, Caller(i));
    } else if s.clients[i].FlushRuns? {
      RunKeeps(s, t, Caller(i), s.clients[i].task);
    } else {
      SameHands(s, t);
    }
  }

  lemma OnceEachKeptByShut(s: State, i: int)
    requires InOrder(s) && OnceEach(s) && 0 <= i < |s.clients|
    ensures OnceEach(ShutNext(s, i))
  {
    hide InOrder, OnceEach;
    SameHands(s, ShutNext(s, i));
  }

  lemma OnceEachKept(s: State, a: Action)
    requires InOrder(s) && OnceEach(s)
    ensures OnceEach(Next(s, a))
  {
    hide WorkerNext, AddNext, FlushNext, ShutNext;
    match a
    case WorkerStep => OnceEachKeptByWorker(s);
    case ClientStep(i) =>
      if 0 <= i < |s.clients| {
        OnceEachKeptByAdd(s, i);
        OnceEachKeptByFlush(s, i);
        OnceEachKeptByShut(s, i);
      }
    case _ =>
      hide InOrder, OnceEach;
      SameHands(s, Next(s, a));
  }

  // ---------- termination ----------

  /** Once Terminated has been set nobody is about to push, and Running does not come back. */
  predicate Closed(s: State) {
    s.ended ==> s.threadState != Running && forall i :: 0 <= i < |s.clients| ==> !s.clients[i].AddPushes?
  }

  lemma ClosedKeptByWorker(s: State)
    requires Exclusive(s) && Closed(s)
    ensures Closed(WorkerNext(s))
  {
  }

  lemma ClosedKeptByAdd(s: State, i: int)
    requires Exclusive(s) && Closed(s) && 0 <= i < |s.clients|
    ensures Closed(AddNext(s, i))
  {
  }

  lemma ClosedKeptByFlush(s: State, i: int)
    requires Exclusive(s) && Closed(s) && 0 <= i < |s.clients|
    ensures Closed(FlushNext(s, i))
  {
  }

  lemma ClosedKeptByShut(s: State, i: int)
    requires Exclusive(s) && Closed(s) && 0 <= i < |s.clients|
    ensures Closed(ShutNext(s, i))
  {
  }

  lemma ClosedKept(s: State, a: Action)
    requires Exclusive(s) && Closed(s)
    ensures Closed(Next(s, a))
  {
    hide WorkerNext, AddNext, FlushNext, ShutNext;
    match a
    case WorkerStep => ClosedKeptByWorker(s);
    case ClientStep(i) =>
      if 0 <= i < |s.clients| {
        ClosedKeptByAdd(s, i);
        ClosedKeptByFlush(s, i);
        ClosedKeptByShut(s, i);
      }
    case _ =>
  }

  /** A flush that belongs to a shutdown comes after Terminated; once it has found the list empty the list
      stays empty. */
  predicate Flushed(s: State) {
    (forall i :: 0 <= i < |s.clients| && Shutting(s.clients[i]) ==> s.ended)
    && (forall i :: 0 <= i < |s.clients| && s.clients[i] == ShutNotifies ==> s.flushed)
    && (s.flushed ==> s.ended && s.tasks == [])
  }

  predicate Shutting(c: Client) {
    c.ShutReleases? || (c.FlushWants? && c.shut) || (c.FlushTests? && c.shut) || (c.FlushRuns? && c.shut) || c.ShutNotifies?
  }

  lemma FlushedKeptByWorker(s: State)
    requires Closed(s) && Flushed(s)
    ensures Flushed(WorkerNext(s))
  {
  }

  lemma FlushedKeptByAdd(s: State, i: int)
    requires Closed(s) && Flushed(s) && 0 <= i < |s.clients|
    ensures Flushed(AddNext(s, i))
  {
  }

  lemma FlushedKeptByFlush(s: State, i: int)
    requires Closed(s) && Flushed(s) && 0 <= i < |s.clients|
    ensures Flushed(FlushNext(s, i))
  {
  }

  lemma FlushedKeptByShut(s: State, i: int)
    requires Closed(s) && Flushed(s) && 0 <= i < |s.clients|
    ensures Flushed(ShutNext(s, i))
  {
  }

  lemma FlushedKept(s: State, a: Action)
    requires Closed(s) && Flushed(s)
    ensures Flushed(Next(s, a))
  {
    hide WorkerNext, AddNext, FlushNext, ShutNext;
    match a
    case WorkerStep => FlushedKeptByWorker(s);
    case ClientStep(i) =>
      if 0 <= i < |s.clients| {
        FlushedKeptByAdd(s, i);
        FlushedKeptByFlush(s, i);
        FlushedKeptByShut(s, i);
      }
    case _ =>
  }

  // ---------- wake-up ----------

  /** Somebody is going to notify. */
  ghost predicate NotifyDue(s: State) {
    exists i :: 0 <= i < |s.clients| && (s.clients[i] == AddNotifies || s.clients[i] == AddReleases(true))
  }

  /** The worker never sleeps on a waiting task unless a notify is on its way. */
  ghost predicate WillWake(s: State) {
    s.worker == Waiting && s.tasks != [] ==> NotifyDue(s)
  }

  lemma WillWakeKeptByWorker(s: State)
    requires WillWake(s)
    ensures WillWake(WorkerNext(s))
  {
  }

  lemma WillWakeKeptByAdd(s: State, i: int)
    requires WillWake(s) && 0 <= i < |s.clients|
    ensures WillWake(AddNext(s, i))
  {
    var t := AddNext(s, i);
    if t.worker == Waiting && t.tasks != [] {
      if s.tasks != [] {
        var j :| 0 <= j < |s.clients| && (s.clients[j] == AddNotifies || s.clients[j] == AddReleases(true));
        assert t.clients[j] == AddNotifies || t.clients[j] == AddReleases(true);
      } else {
        assert t.clients[i] == AddReleases(true);
      }
    }
  }

  /** A step that keeps the list from growing and moves no caller that owes a notify. */
  lemma StillDue(s: State, t: State)
    requires WillWake(s) && (t.worker == Waiting ==> s.worker == Waiting) && (t.tasks != [] ==> s.tasks != [])
    requires |t.clients| == |s.clients|
    requires forall j :: 0 <= j < |s.clients| && (s.clients[j] == AddNotifies || s.clients[j] == AddReleases(true)) ==>
               t.clients[j] == s.clients[j]
    ensures WillWake(t)
  {
    if t.worker == Waiting && t.tasks != [] {
      var j :| 0 <= j < |s.clients| && (s.clients[j] == AddNotifies || s.clients[j] == AddReleases(true));
      assert t.clients[j] == s.clients[j];
    }
  }

  lemma WillWakeKeptByFlush(s: State, i: int)
    requires WillWake(s) && 0 <= i < |s.clients|
    ensures WillWake(FlushNext(s, i))
  {
    hide WillWake;
    StillDue(s, FlushNext(s, i));
  }

  lemma WillWakeKeptByShut(s: State, i: int)
    requires WillWake(s) && 0 <= i < |s.clients|
    ensures WillWake(ShutNext(s, i))
  {
    hide WillWake;
    StillDue(s, ShutNext(s, i));
  }

  lemma WillWakeKept(s: State, a: Action)
    requires WillWake(s)
    ensures WillWake(Next(s, a))
  {
    hide WillWake, WorkerNext, AddNext, FlushNext, ShutNext;
    match a
    case WorkerStep => WillWakeKeptByWorker(s);
    case ClientStep(i) =>
      if 0 <= i < |s.clients| {
        WillWakeKeptByAdd(s, i);
        WillWakeKeptByFlush(s, i);
        WillWakeKeptByShut(s, i);
      }
    case Begin(i, call) => StillDue(s, Next(s, a));
    case Stop => StillDue(s, Next(s, a));
    case SpuriousWake => StillDue(s, Next(s, a));
  }

  // ---------- all runs ----------

  ghost predicate Safe(s: State) {
    Exclusive(s) && InOrder(s) && OnceEach(s) && Closed(s) && Flushed(s) && WillWake(s)
  }

  /** In every state of every interleaving. */
  lemma {:induction false} AlwaysSafe(s: State, actions: seq<Action>)
    requires Init(s) || Safe(s)
    ensures Safe(Run(s, actions))
    decreases |actions|
  {
    hide Exclusive, InOrder, OnceEach, Closed, Flushed, WillWake, Next;
    if Init(s) {
      InitSafe(s);
    }
    if actions != [] {
      var a := actions[0];
      ExclusiveKept(s, a);
      InOrderKept(s, a);
      OnceEachKept(s, a);
      ClosedKept(s, a);
      FlushedKept(s, a);
      WillWakeKept(s, a);
      AlwaysSafe(Next(s, a), actions[1..]);
    }
  }

  lemma InitSafe(s: State)
    requires Init(s)
    ensures Safe(s)
  {
    assert forall t, e :: !Runs(s, t, e);
  }

  /** Each accepted task is executed at most once, and once every thread has come to rest with an empty
      list, exactly once. */
  lemma ExactlyOnceAtRest(s: State)
    requires Safe(s)
    ensures NoDuplicates(s.executed) && forall e :: e in s.executed ==> e in s.accepted
    ensures s.tasks == [] && (forall t, e :: !Runs(s, t, e)) ==> multiset(s.executed) == multiset(s.accepted)
  {
    assert forall e :: e in s.popped ==> e in s.popped + s.tasks;
    if s.tasks == [] && (forall t, e :: !Runs(s, t, e)) {
      assert s.popped == s.accepted;
      SameMembers(s.executed, s.accepted);
    }
  }

  lemma Occurs(s: seq<Entry>, e: Entry)
    requires NoDuplicates(s)
    ensures multiset(s)[e] == if e in s then 1 else 0
  {
    if s != [] {
      var front, last := s[..|s| - 1], s[|s| - 1];
      assert s == front + [last];
      Occurs(front, e);
      assert last !in front;
    }
  }

  lemma SameMembers(s: seq<Entry>, t: seq<Entry>)
    requires NoDuplicates(s) && NoDuplicates(t)
    requires forall e :: e in s <==> e in t
    ensures multiset(s) == multiset(t)
  {
    forall e ensures multiset(s)[e] == multiset(t)[e] {
      Occurs(s, e);
      Occurs(t, e);
    }
  }

  /** After Terminated has been set nothing is accepted any more, whatever happens next. */
  lemma {:induction false} NothingAcceptedAfterShutdown(s: State, actions: seq<Action>)
    requires Safe(s) && s.ended
    ensures Run(s, actions).accepted == s.accepted && Run(s, actions).ended
    decreases |actions|
  {
    if actions != [] {
      AlwaysSafe(s, [actions[0]]);
      assert [actions[0]][1..] == [];
      assert Run(s, [actions[0]]) == Next(s, actions[0]);
      EndedStep(s, actions[0]);
      NothingAcceptedAfterShutdown(Next(s, actions[0]), actions[1..]);
    }
  }

  lemma EndedStep(s: State, a: Action)
    requires Closed(s) && s.ended
    ensures Next(s, a).accepted == s.accepted && Next(s, a).ended && (s.flushed ==> Next(s, a).flushed)
  {
    if a.ClientStep? && 0 <= a.i < |s.clients| {
      hide WorkerNext;
      if Adding(s.clients[a.i]) {
        hide FlushNext, ShutNext;
      } else if Flushing(s.clients[a.i]) {
        hide AddNext, ShutNext;
      } else {
        hide AddNext, FlushNext;
      }
    } else {
      hide ClientNext;
    }
  }

  /** Once shutdown has flushed, every task ever accepted has been taken and the list stays empty. */
  lemma {:induction false} FlushedForGood(s: State, actions: seq<Action>)
    requires Safe(s) && s.flushed
    ensures Run(s, actions).tasks == [] && Run(s, actions).popped == s.accepted
    decreases |actions|
  {
    if actions == [] {
      assert s.popped + [] == s.popped;
    } else {
      AlwaysSafe(s, [actions[0]]);
      assert [actions[0]][1..] == [];
      assert Run(s, [actions[0]]) == Next(s, actions[0]);
      EndedStep(s, actions[0]);
      FlushedForGood(Next(s, actions[0]), actions[1..]);
    }
  }

  // ---------- whether the worker ends ----------

  /** Past its state test but not yet woken: on an empty list the worker waits before it tests again. */
  predicate Missed(w: Worker) {
    w.WantsLock? || w.AtTest? || w.Waiting?
  }

  /** The caller is not shutting down and owes no notify. */
  predicate OwesNoNotify(c: Client) {
    c.Idle? || c.AddWants? || c.AddReads? || c == AddReleases(false) || (Flushing(c) && !c.shut)
  }

  /** After the last shutdown has notified. */
  predicate Dismissed(s: State) {
    s.ended && s.threadState == Terminated && s.tasks == []
    && forall i :: 0 <= i < |s.clients| ==> OwesNoNotify(s.clients[i])
  }

  /** No wait returns by itself, and no further shutdown begins. */
  predicate NoWakeUp(actions: seq<Action>) {
    forall k :: 0 <= k < |actions| ==> actions[k] != SpuriousWake && !(actions[k].Begin? && actions[k].call == Shutdown)
  }

  /** Nor does stop() overwrite Terminated. */
  predicate Undisturbed(actions: seq<Action>) {
    NoWakeUp(actions) && Stop !in actions
  }

  /** The worker's step would have to wait for the lock. */
  predicate Blocked(s: State) {
    (s.worker.WantsLock? || s.worker.Woken?) && s.owner != Free
  }

  /** How many steps the worker really takes in a run. */
  function Turns(s: State, actions: seq<Action>): nat
    decreases |actions|
  {
    if actions == [] then 0
    else (if actions[0] == WorkerStep && !Blocked(s) then 1 else 0) + Turns(Next(s, actions[0]), actions[1..])
  }

  /** How many steps lie before the end of the thread, on an empty list. */
  function StepsToEnd(w: Worker): nat {
    match w
    case Check => 1
    case AtPop => 2
    case RunsTask(_) => 2
    case Woken => 3
    case _ => 0
  }

  lemma LeavingStep(s: State, a: Action)
    requires Dismissed(s) && !Missed(s.worker) && Undisturbed([a])
    ensures Dismissed(Next(s, a)) && !Missed(Next(s, a).worker)
    ensures StepsToEnd(Next(s, a).worker) <= StepsToEnd(s.worker)
    ensures a == WorkerStep && !Blocked(s) && s.worker != Exited ==> StepsToEnd(Next(s, a).worker) < StepsToEnd(s.worker)
    ensures s.worker == Exited ==> Next(s, a).worker == Exited
  {
    assert [a][0] == a;
    if a.ClientStep? {
      hide WorkerNext;
      if 0 <= a.i < |s.clients| {
        DismissedByClient(s, a.i);
      }
    } else {
      hide ClientNext;
    }
  }

  lemma DismissedByClient(s: State, i: int)
    requires Dismissed(s) && 0 <= i < |s.clients|
    ensures Dismissed(ClientNext(s, i)) && ClientNext(s, i).worker == s.worker
  {
    assert OwesNoNotify(s.clients[i]);
  }

  lemma {:induction false} LeavesInTurn(s: State, actions: seq<Action>)
    requires Dismissed(s) && !Missed(s.worker) && Undisturbed(actions)
    requires Turns(s, actions) >= StepsToEnd(s.worker)
    ensures Run(s, actions).worker == Exited
    decreases |actions|
  {
    hide Dismissed, Next, Blocked, Missed;
    if actions == [] {
      NothingLeftToDo(s.worker);
    } else {
      assert Undisturbed([actions[0]]) && Undisturbed(actions[1..]);
      LeavingStep(s, actions[0]);
      LeavesInTurn(Next(s, actions[0]), actions[1..]);
    }
  }

  lemma NothingLeftToDo(w: Worker)
    requires !Missed(w) && StepsToEnd(w) == 0
    ensures w == Exited
  {
  }

  /** In every interleaving with at least three turns for the worker: it ends if and only if it is not
      between its state test and the end of its wait. */
  lemma WorkerEnds(s: State, actions: seq<Action>)
    requires Dismissed(s) && Undisturbed(actions) && Turns(s, actions) >= 3
    ensures Run(s, actions).worker == Exited <==> !Missed(s.worker)
  {
    if Missed(s.worker) {
      SleepsForever(s, actions);
    } else {
      LeavesInTurn(s, actions);
    }
  }

  /** The caller's next step is a notify. */
  predicate Notifies(c: Client) {
    c.ShutNotifies? || c.AddNotifies?
  }

  /** Nobody but caller i owes a notify or shuts down. */
  predicate OnlyOwing(s: State, i: int) {
    0 <= i < |s.clients| && forall j :: 0 <= j < |s.clients| && j != i ==> OwesNoNotify(s.clients[j])
  }

  /** The last notify due, of a shutdown or of an addTask that came before it: the worker ends if and only
      if it does not fall between the worker's state test and its wait. */
  lemma LastNotifyDecides(s: State, i: int, actions: seq<Action>)
    requires s.ended && s.threadState == Terminated && s.tasks == []
    requires OnlyOwing(s, i) && Notifies(s.clients[i])
    requires Undisturbed(actions) && Turns(Next(s, ClientStep(i)), actions) >= 3
    ensures Run(Next(s, ClientStep(i)), actions).worker == Exited <==> !s.worker.WantsLock? && !s.worker.AtTest?
  {
    AfterNotify(s, i);
    WorkerEnds(Next(s, ClientStep(i)), actions);
  }

  lemma AfterNotify(s: State, i: int)
    requires s.ended && s.threadState == Terminated && s.tasks == []
    requires OnlyOwing(s, i) && Notifies(s.clients[i])
    ensures Dismissed(Next(s, ClientStep(i)))
    ensures Missed(Next(s, ClientStep(i)).worker) <==> s.worker.WantsLock? || s.worker.AtTest?
  {
  }

  /** Shut down and flushed, with Terminated in place. */
  ghost predicate Down(s: State) {
    Safe(s) && s.flushed && s.threadState == Terminated
  }

  /** A run from a flushed state to one in which nobody owes a notify has a last notify, whoever owes it,
      and that one decides whether the worker ends. */
  lemma {:induction false} LastNotify(s: State, actions: seq<Action>) returns (k: nat, i: int)
    requires Down(s) && Undisturbed(actions)
    requires !Dismissed(s) && Dismissed(Run(s, actions))
    ensures k < |actions| && actions[k] == ClientStep(i)
    ensures var t := Run(s, actions[..k]);
            && OnlyOwing(t, i) && Notifies(t.clients[i])
            && (Turns(Next(t, actions[k]), actions[k + 1..]) >= 3 ==>
                  (Run(s, actions).worker == Exited <==> !t.worker.WantsLock? && !t.worker.AtTest?))
    decreases |actions|
  {
    hide Dismissed, Down, Undisturbed, OnlyOwing, Notifies, Next, Missed;
    var a, rest := actions[0], actions[1..];
    DownStep(s, actions);
    if Dismissed(Next(s, a)) {
      i := Dismisses(s, a);
      k := 0;
      assert actions[..0] == [];
      DownMeans(s);
      if Turns(Next(s, a), rest) >= 3 {
        LastNotifyDecides(s, i, rest);
      }
    } else {
      var k';
      k', i := LastNotify(Next(s, a), rest);
      k := k' + 1;
      assert actions[..k][1..] == rest[..k'] && actions[k + 1..] == rest[k' + 1..];
    }
  }

  lemma DownMeans(s: State)
    requires Down(s)
    ensures s.ended && s.threadState == Terminated && s.tasks == []
  {
    assert Flushed(s);
  }

  lemma DownStep(s: State, actions: seq<Action>)
    requires Down(s) && actions != [] && Undisturbed(actions)
    ensures Down(Next(s, actions[0])) && Undisturbed(actions[1..]) && Undisturbed([actions[0]])
  {
    hide Exclusive, InOrder, OnceEach, WillWake, Flushed, Next;
    var a := actions[0];
    assert [a][0] == a && [a][1..] == [];
    assert Run(s, [a]) == Next(s, a);
    AlwaysSafe(s, [a]);
    EndedStep(s, a) by { DownMeans(s); }
    StaysTerminated(s, a);
  }

  lemma StaysTerminated(s: State, a: Action)
    requires s.threadState == Terminated && a != Stop
    ensures Next(s, a).threadState == Terminated
  {
  }

  /** Only its own notify makes a caller owe nothing. */
  lemma Dismisses(s: State, a: Action) returns (i: int)
    requires Down(s) && !Dismissed(s) && Undisturbed([a]) && Dismissed(Next(s, a))
    ensures a == ClientStep(i) && OnlyOwing(s, i) && Notifies(s.clients[i])
  {
    DownMeans(s);
    assert [a][0] == a;
    i :| 0 <= i < |s.clients| && !OwesNoNotify(s.clients[i]);
    hide Next, OwesNoNotify, Down;
    SameCallers(s, a);
    if a == ClientStep(i) {
      LetsGo(s, i);
    }
    assert a == ClientStep(i);
  }

  /** A step moves one caller at most, and a call begins only where there was none. */
  lemma SameCallers(s: State, a: Action)
    ensures |Next(s, a).clients| == |s.clients|
    ensures forall j :: 0 <= j < |s.clients| && a != ClientStep(j) && (!OwesNoNotify(s.clients[j]) || a.ClientStep?) ==>
              Next(s, a).clients[j] == s.clients[j]
  {
    hide WorkerNext;
    if a.ClientStep? && 0 <= a.i < |s.clients| {
      OthersStay(s, a.i);
    } else {
      hide ClientNext;
      WorkerMovesNobody(s);
    }
  }

  lemma WorkerMovesNobody(s: State)
    ensures WorkerNext(s).clients == s.clients
  {
  }

  lemma OthersStay(s: State, i: int)
    requires 0 <= i < |s.clients|
    ensures |ClientNext(s, i).clients| == |s.clients|
    ensures forall j :: 0 <= j < |s.clients| && j != i ==> ClientNext(s, i).clients[j] == s.clients[j]
  {
    if Adding(s.clients[i]) {
      hide FlushNext, ShutNext;
    } else if Flushing(s.clients[i]) {
      hide AddNext, ShutNext;
    } else {
      hide AddNext, FlushNext;
    }
  }

  lemma LetsGo(s: State, i: int)
    requires 0 <= i < |s.clients| && s.tasks == [] && !OwesNoNotify(s.clients[i])
    requires OwesNoNotify(Next(s, ClientStep(i)).clients[i])
    ensures Notifies(s.clients[i])
  {
    if Adding(s.clients[i]) {
      hide FlushNext, ShutNext;
    } else if Flushing(s.clients[i]) {
      hide AddNext, ShutNext;
    } else {
      hide AddNext, FlushNext;
    }
  }

  /** For a shutdown in particular, when nobody else owes a notify. */
  lemma ShutdownEndsWorker(s: State, i: int, actions: seq<Action>)
    requires Safe(s) && s.threadState == Terminated && OnlyOwing(s, i) && s.clients[i] == ShutNotifies
    requires Undisturbed(actions) && Turns(Next(s, ClientStep(i)), actions) >= 3
    ensures Run(Next(s, ClientStep(i)), actions).worker == Exited <==> !s.worker.WantsLock? && !s.worker.AtTest?
  {
    assert Flushed(s);
    LastNotifyDecides(s, i, actions);
  }

  function Repeated(n: nat): seq<Action> {
    if n == 0 then [] else [WorkerStep] + Repeated(n - 1)
  }

  /** The worker left alone. */
  lemma WorkerAlone(s: State, n: nat)
    requires s.threadState == Terminated && s.tasks == [] && s.owner == Free && n >= 3
    requires !s.worker.AtTest? && !s.worker.AtPop?
    ensures Run(s, Repeated(n)).worker == Exited <==> !s.worker.WantsLock? && !s.worker.Waiting?
  {
    hide WorkerNext;
    ThreeSteps(s);
    OneOfMany(s, n);
    OneOfMany(WorkerNext(s), n - 1);
    OneOfMany(WorkerNext(WorkerNext(s)), n - 2);
    Settled(WorkerNext(WorkerNext(WorkerNext(s))), n - 3);
  }

  lemma OneOfMany(s: State, n: nat)
    requires n >= 1
    ensures Run(s, Repeated(n)) == Run(WorkerNext(s), Repeated(n - 1))
  {
    assert Repeated(n)[1..] == Repeated(n - 1);
  }

  lemma ThreeSteps(s: State)
    requires s.threadState == Terminated && s.tasks == [] && s.owner == Free
    requires !s.worker.AtTest? && !s.worker.AtPop?
    ensures WorkerNext(WorkerNext(WorkerNext(s))).worker == if s.worker.WantsLock? || s.worker.Waiting? then Waiting else Exited
  {
  }

  lemma {:induction false} Settled(s: State, n: nat)
    requires s.worker == Waiting || s.worker == Exited
    ensures Run(s, Repeated(n)) == s
  {
    if n > 0 {
      OneOfMany(s, n);
      Settled(s, n - 1);
    }
  }

  /** Not terminated, and nobody about to set it. */
  predicate NotTold(s: State) {
    s.threadState != Terminated && s.worker != Exited
    && forall i :: 0 <= i < |s.clients| ==> s.clients[i] != ShutWants && s.clients[i] != ShutSets
  }

  /** stop() overwrites Terminated with Closing, which the worker does not test for: whatever happens then,
      it does not end before another shutdown. */
  lemma StopKeepsWorker(s: State, actions: seq<Action>)
    requires s.worker != Exited
    requires forall i :: 0 <= i < |s.clients| ==> s.clients[i] != ShutWants && s.clients[i] != ShutSets
    requires forall k :: 0 <= k < |actions| ==> !(actions[k].Begin? && actions[k].call == Shutdown)
    ensures Run(Next(s, Stop), actions).worker != Exited
  {
    NeverTold(Next(s, Stop), actions);
  }

  lemma {:induction false} NeverTold(s: State, actions: seq<Action>)
    requires NotTold(s)
    requires forall k :: 0 <= k < |actions| ==> !(actions[k].Begin? && actions[k].call == Shutdown)
    ensures NotTold(Run(s, actions))
    decreases |actions|
  {
    hide NotTold, Next;
    if actions != [] {
      NotToldStep(s, actions[0]);
      NeverTold(Next(s, actions[0]), actions[1..]);
    }
  }

  lemma NotToldStep(s: State, a: Action)
    requires NotTold(s) && !(a.Begin? && a.call == Shutdown)
    ensures NotTold(Next(s, a))
  {
    if a.ClientStep? && 0 <= a.i < |s.clients| {
      hide WorkerNext;
      NotToldByClient(s, a.i);
    } else {
      hide ClientNext;
    }
  }

  lemma NotToldByClient(s: State, i: int)
    requires NotTold(s) && 0 <= i < |s.clients|
    ensures NotTold(ClientNext(s, i))
  {
    hide NotTold, AddNext, FlushNext, ShutNext;
    if Adding(s.clients[i]) {
      NotToldByAdd(s, i);
    } else if Flushing(s.clients[i]) {
      NotToldByFlush(s, i);
    } else {
      NotToldByShut(s, i);
    }
  }

  lemma NotToldByAdd(s: State, i: int)
    requires NotTold(s) && 0 <= i < |s.clients| && Adding(s.clients[i])
    ensures NotTold(AddNext(s, i))
  {
    hide NotTold;
    StillNotTold(s, i, AddNext(s, i));
  }

  lemma NotToldByFlush(s: State, i: int)
    requires NotTold(s) && 0 <= i < |s.clients| && Flushing(s.clients[i])
    ensures NotTold(FlushNext(s, i))
  {
    hide NotTold;
    StillNotTold(s, i, FlushNext(s, i));
  }

  lemma NotToldByShut(s: State, i: int)
    requires NotTold(s) && 0 <= i < |s.clients|
    ensures NotTold(ShutNext(s, i))
  {
    assert s.clients[i] != ShutWants && s.clients[i] != ShutSets;
    hide NotTold;
    StillNotTold(s, i, ShutNext(s, i));
  }

  lemma StillNotTold(s: State, i: int, t: State)
    requires NotTold(s) && 0 <= i < |s.clients|
    requires t.threadState == s.threadState && (t.worker == s.worker || t.worker == Notified(s.worker))
    requires |t.clients| == |s.clients| && t.clients[i] != ShutWants && t.clients[i] != ShutSets
    requires forall j :: 0 <= j < |s.clients| && j != i ==> t.clients[j] == s.clients[j]
    ensures NotTold(t)
  {
  }

  // ---------- a worker left asleep ----------

  /** Terminated, flushed, the worker asleep and no notify to come. */
  predicate AsleepForGood(s: State) {
    s.flushed && s.worker == Waiting && SleepsOn(s)
  }

  /** s' is some steps after s. */
  ghost predicate Reaches(s: State, s': State) {
    exists actions :: Run(s, actions) == s'
  }

  lemma OneMore(s: State, s': State, a: Action)
    requires Reaches(s, s')
    ensures Reaches(s, Next(s', a))
  {
    hide Next;
    var actions :| Run(s, actions) == s';
    RunConcat(s, actions, [a]);
    assert [a][1..] == [];
    assert Run(s', [a]) == Next(s', a);
    assert Run(s, actions + [a]) == Next(s', a);
  }

  lemma RunConcat(s: State, a: seq<Action>, b: seq<Action>)
    ensures Run(s, a + b) == Run(Run(s, a), b)
    decreases |a|
  {
    if a == [] {
      assert a + b == b;
    } else {
      assert (a + b)[1..] == a[1..] + b;
      RunConcat(Next(s, a[0]), a[1..], b);
    }
  }

  /** The worker has read the state before shutdown sets it and waits after shutdown has notified: a run
      ends with the list flushed and the worker asleep. */
  lemma WakeUpLost(s: State)
    requires Init(s) && |s.clients| == 1
    ensures exists s' :: Reaches(s, s') && AsleepForGood(s')
  {
    var step := ClientStep(0);
    assert Run(s, []) == s;
    var s1 := Next(s, WorkerStep);
    OneMore(s, s, WorkerStep);
    var s2 := Next(s1, Begin(0, Shutdown));
    OneMore(s, s1, Begin(0, Shutdown));
    assert s2 == s.(worker := WantsLock, clients := [ShutWants]);
    ThenTerminated(s, s2);
  }

  lemma ThenTerminated(s: State, s2: State)
    requires Init(s) && |s.clients| == 1
    requires Reaches(s, s2) && s2 == s.(worker := WantsLock, clients := [ShutWants])
    ensures exists s' :: Reaches(s, s') && AsleepForGood(s')
  {
    var step := ClientStep(0);
    var s3 := Next(s2, step);
    OneMore(s, s2, step);
    assert s3 == s2.(owner := HeldBy(Caller(0)), clients := [ShutSets]);
    var s4 := Next(s3, step);
    OneMore(s, s3, step);
    assert s4 == s3.(threadState := Terminated, ended := true, clients := [ShutReleases]);
    var s5 := Next(s4, step);
    OneMore(s, s4, step);
    assert s5.ended && s5.threadState == Terminated && s5.clients == [FlushWants(true)] && s5.worker == WantsLock && s5.owner == Free && s5.tasks == [];
    ThenAsleep(s, s5);
  }

  lemma ThenAsleep(s: State, s5: State)
    requires Reaches(s, s5)
    requires s5.ended && s5.threadState == Terminated && s5.clients == [FlushWants(true)] && s5.worker == WantsLock && s5.owner == Free && s5.tasks == []
    ensures exists s' :: Reaches(s, s') && AsleepForGood(s')
  {
    var step := ClientStep(0);
    var s6 := Next(s5, step);
    assert s6 == s5.(owner := HeldBy(Caller(0)), clients := [FlushTests(true)]);
    OneMore(s, s5, step);
    var s7 := Next(s6, step);
    assert s7 == s6.(owner := Free, clients := [ShutNotifies], flushed := true);
    OneMore(s, s6, step);
    var s8 := Next(s7, step);
    assert s8 == s7.(clients := [Idle]);
    OneMore(s, s7, step);
    WorkerWaits(s, s8);
  }

  lemma WorkerWaits(s: State, s8: State)
    requires Reaches(s, s8)
    requires s8.ended && s8.threadState == Terminated && s8.flushed && s8.clients == [Idle] && s8.worker == WantsLock && s8.owner == Free && s8.tasks == []
    ensures exists s' :: Reaches(s, s') && AsleepForGood(s')
  {
    OneMore(s, s8, WorkerStep);
    OneMore(s, Next(s8, WorkerStep), WorkerStep);
    assert AsleepForGood(Next(Next(s8, WorkerStep), WorkerStep));
  }

  /** From there new tasks are refused and nothing but a wait that returns by itself or another shutdown
      lets the worker go on: however many tasks and flushes are asked for, it stays before or in its wait. */
  predicate SleepsOn(s: State) {
    s.ended && s.threadState != Running && s.tasks == [] && Missed(s.worker)
    && forall i :: 0 <= i < |s.clients| ==> OwesNoNotify(s.clients[i])
  }

  lemma {:induction false} SleepsForever(s: State, actions: seq<Action>)
    requires SleepsOn(s) && NoWakeUp(actions)
    ensures SleepsOn(Run(s, actions))
    decreases |actions|
  {
    if actions != [] {
      SleepStep(s, actions[0]);
      SleepsForever(Next(s, actions[0]), actions[1..]);
    }
  }

  lemma SleepStep(s: State, a: Action)
    requires SleepsOn(s) && NoWakeUp([a])
    ensures SleepsOn(Next(s, a))
  {
    assert [a][0] == a;
  }
}
