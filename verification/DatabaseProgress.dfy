/** What the database queue gets done: a call made while the state is Running is accepted, a pending task is
    executed once the worker has had its turns, and flush and shutdown execute what is left. */
module DatabaseProgress {
  import opened DatabaseTasks

  // ---------- accepting ----------

  lemma {:induction false} NotRunningForGood(s: State, actions: seq<Action>)
    requires s.threadState != Running
    ensures Run(s, actions).threadState != Running
    decreases |actions|
  {
    if actions != [] {
      StateStep(s, actions[0]);
      NotRunningForGood(Next(s, actions[0]), actions[1..]);
    }
  }

  /** What no step of a caller changes. */
  lemma ClientKeeps(s: State, i: int)
    requires 0 <= i < |s.clients|
    ensures var t := ClientNext(s, i);
            && (s.threadState != Running ==> t.threadState != Running)
            && |t.clients| == |s.clients|
            && |s.accepted| <= |t.accepted| && t.accepted[..|s.accepted|] == s.accepted
            && (s.ended ==> t.ended)
            && (Alive(s) ==> Alive(t))
  {
    if Adding(s.clients[i]) {
      hide FlushNext, ShutNext;
    } else if Flushing(s.clients[i]) {
      hide AddNext, ShutNext;
    } else {
      hide AddNext, FlushNext;
    }
  }

  lemma StateStep(s: State, a: Action)
    ensures s.threadState != Running ==> Next(s, a).threadState != Running
    ensures |Next(s, a).clients| == |s.clients|
    ensures |s.accepted| <= |Next(s, a).accepted| && Next(s, a).accepted[..|s.accepted|] == s.accepted
  {
    if a.ClientStep? && 0 <= a.i < |s.clients| {
      hide ClientNext, WorkerNext;
      ClientKeeps(s, a.i);
    } else {
      hide ClientNext;
    }
  }

  lemma {:induction false} AcceptedGrows(s: State, actions: seq<Action>)
    ensures |Run(s, actions).clients| == |s.clients|
    ensures var t := Run(s, actions); |s.accepted| <= |t.accepted| && t.accepted[..|s.accepted|] == s.accepted
    decreases |actions|
  {
    if actions != [] {
      var t := Next(s, actions[0]);
      StateStep(s, actions[0]);
      AcceptedGrows(t, actions[1..]);
      assert Run(t, actions[1..]).accepted[..|s.accepted|] == t.accepted[..|s.accepted|];
    }
  }

  /** In addTask with this query, the task not yet pushed. */
  predicate BeforePush(c: Client, q: string) {
    c == AddWants(q) || c == AddReads(q) || c == AddPushes(q)
  }

  /** In addTask, past pushing, or in no call. */
  predicate AfterPush(c: Client) {
    c.AddReleases? || c.AddNotifies? || c.Idle?
  }

  /** Caller i begins no other call. */
  predicate NoCallOf(i: int, actions: seq<Action>) {
    forall k :: 0 <= k < |actions| ==> !(actions[k].Begin? && actions[k].i == i)
  }

  /** What one step does to caller i on its way to the push. */
  lemma BeforePushStep(s: State, a: Action, i: int, q: string)
    requires 0 <= i < |s.clients| && BeforePush(s.clients[i], q) && s.threadState == Running && !(a.Begin? && a.i == i)
    ensures var t := Next(s, a);
            && |t.clients| == |s.clients|
            && (a == ClientStep(i) && s.clients[i].AddPushes? ==>
                  AfterPush(t.clients[i]) && t.accepted == s.accepted + [Entry(|s.accepted|, q)] && t.tasks == s.tasks + [Entry(|s.accepted|, q)])
            && (!(a == ClientStep(i) && s.clients[i].AddPushes?) ==> BeforePush(t.clients[i], q))
            && (a == ClientStep(i) && !s.clients[i].AddPushes? ==> t.accepted == s.accepted)
  {
    if a == ClientStep(i) {
      hide WorkerNext, FlushNext, ShutNext;
    } else {
      OnlyItsOwnSteps(s, a, i);
      hide Next;
    }
  }

  lemma OnlyItsOwnSteps(s: State, a: Action, i: int)
    requires 0 <= i < |s.clients| && a != ClientStep(i) && !(a.Begin? && a.i == i)
    ensures |Next(s, a).clients| == |s.clients| && Next(s, a).clients[i] == s.clients[i]
  {
    hide WorkerNext;
    if a.ClientStep? && 0 <= a.i < |s.clients| {
      OthersStay(s, a.i);
    } else {
      hide ClientNext;
      WorkerMovesNobody(s);
    }
  }

  /** Caller i is past pushing, or in a call that comes too late. */
  predicate PushesNothing(s: State, i: int)
    requires 0 <= i < |s.clients|
  {
    AfterPush(s.clients[i]) || ((s.clients[i].AddWants? || s.clients[i].AddReads?) && s.threadState != Running)
  }

  lemma AfterPushStep(s: State, a: Action, i: int)
    requires 0 <= i < |s.clients| && PushesNothing(s, i) && !(a.Begin? && a.i == i)
    ensures |Next(s, a).clients| == |s.clients| && PushesNothing(Next(s, a), i)
    ensures a == ClientStep(i) ==> Next(s, a).accepted == s.accepted
  {
    if a == ClientStep(i) {
      hide WorkerNext, FlushNext;
    } else {
      OnlyItsOwnSteps(s, a, i);
      StateStep(s, a);
      hide Next;
    }
  }

  /** What the steps after the first accept, step k aside. */
  lemma LaterSteps(s: State, i: int, actions: seq<Action>, k: nat)
    requires actions != []
    requires var t, rest := Next(s, actions[0]), actions[1..];
             forall j :: 0 <= j < |rest| && j + 1 != k && rest[j] == ClientStep(i) ==>
               Run(t, rest[..j + 1]).accepted == Run(t, rest[..j]).accepted
    ensures forall j :: 1 <= j < |actions| && j != k && actions[j] == ClientStep(i) ==>
              Run(s, actions[..j + 1]).accepted == Run(s, actions[..j]).accepted
  {
    hide Next, Run;
    forall j | 1 <= j < |actions| && j != k && actions[j] == ClientStep(i)
      ensures Run(s, actions[..j + 1]).accepted == Run(s, actions[..j]).accepted
    {
      RunPrefix(s, actions, j);
      RunPrefix(s, actions, j - 1);
      assert actions[1..][j - 1] == ClientStep(i);
    }
  }

  lemma RunPrefix(s: State, actions: seq<Action>, j: nat)
    requires actions != [] && j < |actions|
    ensures Run(s, actions[..j + 1]) == Run(Next(s, actions[0]), actions[1..][..j])
  {
    assert actions[..j + 1][0] == actions[0] && actions[..j + 1][1..] == actions[1..][..j];
  }

  /** No step of a caller that is past pushing adds a task; nor of one that calls addTask when the state is not
      Running any more. */
  lemma {:induction false} NothingMore(s: State, i: int, actions: seq<Action>)
    requires 0 <= i < |s.clients| && PushesNothing(s, i) && NoCallOf(i, actions)
    ensures forall j :: 0 <= j < |actions| && actions[j] == ClientStep(i) ==>
              Run(s, actions[..j + 1]).accepted == Run(s, actions[..j]).accepted
    decreases |actions|
  {
    if actions != [] {
      var a, rest := actions[0], actions[1..];
      AfterPushStep(s, a, i);
      NothingMore(Next(s, a), i, rest);
      hide Next;
      LaterSteps(s, i, actions, 0);
      RunPrefix(s, actions, 0);
      assert actions[..0] == [] && rest[..0] == [];
    }
  }

  /** A call of addTask that is over while the state is still Running has been accepted: exactly one of its
      steps adds a task, with its query, at the end of the list and of the accepted ones, for good. */
  lemma {:induction false} CallAccepted(s: State, i: int, q: string, actions: seq<Action>) returns (k: nat)
    requires 0 <= i < |s.clients| && BeforePush(s.clients[i], q) && NoCallOf(i, actions)
    requires Run(s, actions).threadState == Running && i < |Run(s, actions).clients| && Run(s, actions).clients[i] == Idle
    ensures k < |actions| && actions[k] == ClientStep(i)
    ensures var t, u := Run(s, actions[..k]), Run(s, actions[..k + 1]);
            var e := Entry(|t.accepted|, q);
            && u.accepted == t.accepted + [e] && u.tasks == t.tasks + [e]
            && |t.accepted| < |Run(s, actions).accepted| && Run(s, actions).accepted[|t.accepted|] == e
    ensures forall j :: 0 <= j < |actions| && j != k && actions[j] == ClientStep(i) ==>
              Run(s, actions[..j + 1]).accepted == Run(s, actions[..j]).accepted
    decreases |actions|
  {
    var a, rest := actions[0], actions[1..];
    if s.threadState != Running {
      NotRunningForGood(s, actions);
    }
    BeforePushStep(s, a, i, q);
    hide Next;
    assert actions[..0] == [] && rest[..0] == [];
    if a == ClientStep(i) && s.clients[i].AddPushes? {
      k := 0;
      RunPrefix(s, actions, 0);
      NothingMore(Next(s, a), i, rest);
      AcceptedGrows(Next(s, a), rest);
      LaterSteps(s, i, actions, 0);
      assert Run(s, actions).accepted[..|s.accepted| + 1][|s.accepted|] == Entry(|s.accepted|, q);
    } else {
      var k' := CallAccepted(Next(s, a), i, q, rest);
      k := k' + 1;
      RunPrefix(s, actions, k);
      RunPrefix(s, actions, k');
      LaterSteps(s, i, actions, k);
      RunPrefix(s, actions, 0);
    }
  }

  /** n steps of caller i, nobody else moving. */
  function Steps(i: int, n: nat): seq<Action> {
    if n == 0 then [] else [ClientStep(i)] + Steps(i, n - 1)
  }

  lemma OneStep(s: State, i: int, n: nat)
    requires n > 0
    ensures Run(s, Steps(i, n)) == Run(Next(s, ClientStep(i)), Steps(i, n - 1))
  {
    assert Steps(i, n)[1..] == Steps(i, n - 1);
  }

  /** A call of addTask on a free lock, left alone: after five steps it is over, the task is pending, and the
      worker has been woken if the list was empty. */
  lemma CallAlone(s: State, i: int, q: string)
    requires 0 <= i < |s.clients| && s.clients[i] == Idle && s.owner == Free && s.threadState == Running
    ensures var e := Entry(|s.accepted|, q);
            var t := s.(tasks := s.tasks + [e], accepted := s.accepted + [e],
                        worker := if s.tasks == [] then Notified(s.worker) else s.worker);
            Run(Next(s, Begin(i, AddTask(q))), Steps(i, 5)) == t
  {
    var e := Entry(|s.accepted|, q);
    var s1 := Next(s, Begin(i, AddTask(q)));
    assert s1 == s.(clients := s.clients[i := AddWants(q)]);
    OneStep(s1, i, 5);
    var s2 := Next(s1, ClientStep(i));
    assert s2 == s.(clients := s.clients[i := AddReads(q)], owner := HeldBy(Caller(i)));
    OneStep(s2, i, 4);
    hide Next, Run, Steps;
    CallPushes(s, s2, i, q);
  }

  lemma CallPushes(s: State, s2: State, i: int, q: string)
    requires 0 <= i < |s.clients| && s.clients[i] == Idle && s.owner == Free && s.threadState == Running
    requires s2 == s.(clients := s.clients[i := AddReads(q)], owner := HeldBy(Caller(i)))
    ensures var e := Entry(|s.accepted|, q);
            Run(Next(s2, ClientStep(i)), Steps(i, 3))
            == s.(tasks := s.tasks + [e], accepted := s.accepted + [e],
                  worker := if s.tasks == [] then Notified(s.worker) else s.worker)
  {
    var e := Entry(|s.accepted|, q);
    var s3 := Next(s2, ClientStep(i));
    assert s3 == s.(clients := s.clients[i := AddPushes(q)], owner := HeldBy(Caller(i)));
    OneStep(s3, i, 3);
    var s4 := Next(s3, ClientStep(i));
    assert s4 == s.(clients := s.clients[i := AddReleases(s.tasks == [])], owner := HeldBy(Caller(i)),
                    tasks := s.tasks + [e], accepted := s.accepted + [e]);
    OneStep(s4, i, 2);
    hide Next, Run, Steps;
    CallReleases(s, s4, i, e);
  }

  lemma CallReleases(s: State, s4: State, i: int, e: Entry)
    requires 0 <= i < |s.clients| && s.clients[i] == Idle && s.owner == Free
    requires s4 == s.(clients := s.clients[i := AddReleases(s.tasks == [])], owner := HeldBy(Caller(i)),
                      tasks := s.tasks + [e], accepted := s.accepted + [e])
    ensures Run(Next(s4, ClientStep(i)), Steps(i, 1))
         == s.(tasks := s.tasks + [e], accepted := s.accepted + [e], worker := if s.tasks == [] then Notified(s.worker) else s.worker)
  {
    var s5 := Next(s4, ClientStep(i));
    assert s5 == s.(clients := s.clients[i := if s.tasks == [] then AddNotifies else Idle],
                    tasks := s.tasks + [e], accepted := s.accepted + [e]);
    OneStep(s5, i, 1);
    var s6 := Next(s5, ClientStep(i));
    assert s6.clients == s.clients;
    assert Steps(i, 0) == [];
  }

  // ---------- executing ----------

  /** Terminated has not been set, and the worker is still there. */
  predicate Alive(s: State) {
    !s.ended ==> s.threadState != Terminated && s.worker != Exited
  }

  /** A worker is kept from the lock exactly when it could do something and its step changes nothing. */
  lemma BlockedIff(s: State)
    ensures Blocked(s) <==> s.worker != Waiting && s.worker != Exited && Next(s, WorkerStep) == s
  {
    if s.worker.AtPop? && s.tasks != [] {
      assert |Next(s, WorkerStep).tasks| == |s.tasks| - 1;
    } else if s.worker.RunsTask? {
      assert |Next(s, WorkerStep).executed| == |s.executed| + 1;
    }
  }

  /** How many steps the worker really takes: it is neither waiting nor kept from the lock. */
  function ActiveTurns(s: State, actions: seq<Action>): nat
    decreases |actions|
  {
    if actions == [] then 0
    else (if actions[0] == WorkerStep && !Blocked(s) && s.worker != Waiting then 1 else 0)
         + ActiveTurns(Next(s, actions[0]), actions[1..])
  }

  function ToNextPop(w: Worker): nat {
    match w
    case AtPop => 1
    case AtTest => 2
    case Woken => 2
    case Waiting => 2
    case WantsLock => 3
    case Check => 4
    case RunsTask(_) => 5
    case Exited => 0
  }

  /** How many turns of the worker task number n is away from its end. */
  function Distance(s: State, n: nat): nat {
    if n >= |s.popped| then 5 * (n - |s.popped|) + ToNextPop(s.worker) + 1
    else if s.worker.RunsTask? && s.worker.task.serial == n then 1
    else 0
  }

  lemma {:induction false} EndedForGood(s: State, actions: seq<Action>)
    requires s.ended
    ensures Run(s, actions).ended
    decreases |actions|
  {
    if actions != [] {
      EndedStays(s, actions[0]);
      EndedForGood(Next(s, actions[0]), actions[1..]);
    }
  }

  lemma EndedStays(s: State, a: Action)
    ensures s.ended ==> Next(s, a).ended
    ensures Alive(s) ==> Alive(Next(s, a))
  {
    if a.ClientStep? && 0 <= a.i < |s.clients| {
      hide ClientNext, WorkerNext;
      ClientKeeps(s, a.i);
    } else {
      hide ClientNext;
    }
  }

  /** Every turn of the worker brings every unfinished task nearer to its end, and nothing takes it away. */
  lemma DistanceStep(s: State, a: Action, n: nat)
    requires InOrder(s) && Alive(s) && !s.ended && n < |s.accepted|
    ensures Distance(Next(s, a), n) <= Distance(s, n)
    ensures a == WorkerStep && !Blocked(s) && s.worker != Waiting && Distance(s, n) > 0 ==> Distance(Next(s, a), n) < Distance(s, n)
  {
    Pending(s, n);
    if a.ClientStep? && 0 <= a.i < |s.clients| {
      hide WorkerNext, InOrder;
      DistanceKept(s, a.i, n);
    } else if a == WorkerStep {
      hide ClientNext;
      WorkerNearer(s, n);
    } else {
      hide ClientNext, WorkerNext, InOrder;
    }
  }

  lemma Pending(s: State, n: nat)
    requires InOrder(s) && n < |s.accepted|
    ensures |s.popped| + |s.tasks| == |s.accepted| && (n >= |s.popped| ==> s.tasks != [])
    ensures s.tasks != [] ==> s.tasks[0].serial == |s.popped|
  {
    if s.tasks != [] {
      assert s.accepted[|s.popped|] == s.tasks[0];
    }
  }

  lemma WorkerNearer(s: State, n: nat)
    requires InOrder(s) && Alive(s) && !s.ended && n < |s.accepted| && (n >= |s.popped| ==> s.tasks != [])
    requires s.tasks != [] ==> s.tasks[0].serial == |s.popped|
    ensures Distance(WorkerNext(s), n) <= Distance(s, n)
    ensures !Blocked(s) && s.worker != Waiting && Distance(s, n) > 0 ==> Distance(WorkerNext(s), n) < Distance(s, n)
  {
    hide InOrder;
  }

  lemma DistanceKept(s: State, i: int, n: nat)
    requires 0 <= i < |s.clients| && (s.tasks != [] ==> s.tasks[0].serial == |s.popped|)
    ensures Distance(ClientNext(s, i), n) <= Distance(s, n)
  {
    if Adding(s.clients[i]) {
      hide FlushNext, ShutNext;
    } else if Flushing(s.clients[i]) {
      hide AddNext, ShutNext;
    } else {
      hide AddNext, FlushNext;
    }
  }

  lemma {:induction false} DistanceRun(s: State, n: nat, actions: seq<Action>)
    requires Safe(s) && Alive(s) && n < |s.accepted| && !Run(s, actions).ended && ActiveTurns(s, actions) >= Distance(s, n)
    ensures Distance(Run(s, actions), n) == 0 && Safe(Run(s, actions)) && n < |Run(s, actions).accepted|
    ensures Run(s, actions).accepted[n] == s.accepted[n]
    decreases |actions|
  {
    AcceptedGrows(s, actions);
    assert Run(s, actions).accepted[..|s.accepted|][n] == s.accepted[n];
    if actions != [] {
      var a, rest := actions[0], actions[1..];
      if s.ended {
        EndedForGood(s, actions);
      }
      EndedStays(s, a);
      StateStep(s, a);
      SafeStep(s, a);
      SafeOrder(s);
      hide Safe, Alive, Distance, Next, Blocked;
      DistanceStep(s, a, n);
      DistanceRun(Next(s, a), n, rest);
    }
  }

  lemma SafeOrder(s: State)
    requires Safe(s)
    ensures InOrder(s)
  {
  }

  lemma SafeStep(s: State, a: Action)
    requires Safe(s)
    ensures Safe(Next(s, a))
  {
    assert [a][1..] == [] && Run(s, [a]) == Next(s, a);
    AlwaysSafe(s, [a]);
  }

  /** Progress: in every interleaving in which no shutdown sets Terminated, an accepted task has been executed
      or is in the hands of a caller that flushes, once the worker has had five turns for each task before it
      and six more. */
  lemma TaskExecuted(s: State, n: nat, actions: seq<Action>)
    requires Safe(s) && Alive(s) && n < |s.accepted| && !Run(s, actions).ended
    requires ActiveTurns(s, actions) >= 5 * (if n > |s.popped| then n - |s.popped| else 0) + 6
    ensures n < |Run(s, actions).accepted| && Run(s, actions).accepted[n] == s.accepted[n]
    ensures var t, e := Run(s, actions), s.accepted[n];
            e in t.executed || exists i :: 0 <= i < |t.clients| && t.clients[i].FlushRuns? && t.clients[i].task == e
  {
    DistanceRun(s, n, actions);
    var t := Run(s, actions);
    hide Run, ActiveTurns;
    Finished(t, n);
  }

  lemma Finished(t: State, n: nat)
    requires Safe(t) && n < |t.accepted| && Distance(t, n) == 0
    ensures t.accepted[n] in t.executed
            || exists i :: 0 <= i < |t.clients| && t.clients[i].FlushRuns? && t.clients[i].task == t.accepted[n]
  {
    var e := t.accepted[n];
    hide Exclusive, Closed, Flushed, WillWake;
    assert (t.popped + t.tasks)[n] == e && e.serial == n;
    assert e in t.popped by { assert t.popped[n] == e; }
    if e !in t.executed {
      var u :| Runs(t, u, e);
      assert u != TheWorker;
    }
  }

  /** A worker that sleeps on a pending task is woken by the two next steps of a caller that is on its way. */
  lemma NotifierWakes(s: State)
    requires WillWake(s) && s.worker == Waiting && s.tasks != []
    ensures exists i :: 0 <= i < |s.clients| && Run(s, Steps(i, 2)).worker == Woken
  {
    var i :| 0 <= i < |s.clients| && (s.clients[i] == AddNotifies || s.clients[i] == AddReleases(true));
    hide WillWake, Run, Steps, Next;
    TwoStepsWake(s, i);
  }

  lemma TwoStepsWake(s: State, i: int)
    requires s.worker == Waiting && 0 <= i < |s.clients| && (s.clients[i] == AddNotifies || s.clients[i] == AddReleases(true))
    ensures Run(s, Steps(i, 2)).worker == Woken
  {
    var s1 := Next(s, ClientStep(i));
    assert s1.clients[i] == if s.clients[i] == AddNotifies then Idle else AddNotifies;
    assert s1.worker == if s.clients[i] == AddNotifies then Woken else Waiting;
    var s2 := Next(s1, ClientStep(i));
    assert s2.worker == Woken;
    hide Next;
    OneStep(s, i, 2);
    OneStep(s1, i, 1);
    assert Steps(i, 0) == [];
  }

  // ---------- flush and shutdown ----------

  lemma FlushRound(s: State, i: int, shut: bool)
    requires 0 <= i < |s.clients| && s.clients[i] == FlushWants(shut) && s.owner == Free && s.tasks != []
    ensures var t := s.(tasks := s.tasks[1..], popped := s.popped + [s.tasks[0]], executed := s.executed + [s.tasks[0]]);
            forall n: nat :: n >= 3 ==> Run(s, Steps(i, n)) == Run(t, Steps(i, n - 3))
  {
    var e, rest := s.tasks[0], s.tasks[1..];
    var s1 := Next(s, ClientStep(i));
    assert s1 == s.(owner := HeldBy(Caller(i)), clients := s.clients[i := FlushTests(shut)]);
    var s2 := Next(s1, ClientStep(i));
    assert s2 == s.(tasks := rest, popped := s.popped + [e], clients := s.clients[i := FlushRuns(e, shut)]);
    var s3 := Next(s2, ClientStep(i));
    assert s3 == s.(tasks := rest, popped := s.popped + [e], executed := s.executed + [e]);
    hide Next;
    forall n: nat | n >= 3
      ensures Run(s, Steps(i, n)) == Run(s3, Steps(i, n - 3))
    {
      OneStep(s, i, n);
      OneStep(s1, i, n - 1);
      OneStep(s2, i, n - 2);
    }
  }

  lemma FlushEnds(s: State, i: int, shut: bool)
    requires 0 <= i < |s.clients| && s.clients[i] == FlushWants(shut) && s.owner == Free && s.tasks == []
    ensures Run(s, Steps(i, 2)) == s.(flushed := s.flushed || shut, clients := s.clients[i := if shut then ShutNotifies else Idle])
  {
    OneStep(s, i, 2);
    var s1 := Next(s, ClientStep(i));
    assert s1 == s.(owner := HeldBy(Caller(i)), clients := s.clients[i := FlushTests(shut)]);
    OneStep(s1, i, 1);
    assert Steps(i, 0) == [];
  }

  /** A flush left alone on a free lock executes all pending tasks in order. */
  lemma {:induction false} FlushAlone(s: State, i: int, shut: bool)
    requires 0 <= i < |s.clients| && s.clients[i] == FlushWants(shut) && s.owner == Free
    ensures Run(s, Steps(i, 3 * |s.tasks| + 2))
         == s.(tasks := [], popped := s.popped + s.tasks, executed := s.executed + s.tasks, flushed := s.flushed || shut,
               clients := s.clients[i := if shut then ShutNotifies else Idle])
    decreases |s.tasks|
  {
    hide Next, Run, Steps;
    if s.tasks == [] {
      FlushEnds(s, i, shut);
      assert s.popped + [] == s.popped && s.executed + [] == s.executed;
    } else {
      var e, rest := s.tasks[0], s.tasks[1..];
      FlushRound(s, i, shut);
      FlushAlone(s.(tasks := rest, popped := s.popped + [e], executed := s.executed + [e]), i, shut);
      assert (s.popped + [e]) + rest == s.popped + s.tasks && (s.executed + [e]) + rest == s.executed + s.tasks;
    }
  }

  lemma {:induction false} StepsInTwo(i: int, a: nat, b: nat)
    ensures Steps(i, a + b) == Steps(i, a) + Steps(i, b)
  {
    if a > 0 {
      StepsInTwo(i, a - 1, b);
    }
  }

  /** A shutdown left alone sets Terminated, executes all pending tasks in order, and wakes the worker. */
  lemma ShutdownAlone(s: State, i: int)
    requires 0 <= i < |s.clients| && s.clients[i] == Idle && s.owner == Free
    ensures Run(Next(s, Begin(i, Shutdown)), Steps(i, 3 + (3 * |s.tasks| + 2 + 1)))
         == s.(threadState := Terminated, ended := true, flushed := true, tasks := [], popped := s.popped + s.tasks,
               executed := s.executed + s.tasks, worker := Notified(s.worker))
  {
    var n := 3 * |s.tasks| + 2;
    var t := s.(clients := s.clients[i := FlushWants(true)], threadState := Terminated, ended := true);
    hide Next, Run, Steps, Notified;
    ShutdownStarts(s, i, n + 1);
    ThenOneMore(t, i, n);
    ShutdownFlushes(s, i);
    ShutNotified(s, Run(t, Steps(i, n)), i);
  }

  lemma ShutdownFlushes(s: State, i: int)
    requires 0 <= i < |s.clients| && s.clients[i] == Idle && s.owner == Free
    ensures Run(s.(clients := s.clients[i := FlushWants(true)], threadState := Terminated, ended := true), Steps(i, 3 * |s.tasks| + 2))
         == s.(threadState := Terminated, ended := true, flushed := true, tasks := [], popped := s.popped + s.tasks,
               executed := s.executed + s.tasks, clients := s.clients[i := ShutNotifies])
  {
    hide Next, Run, Steps;
    FlushAlone(s.(clients := s.clients[i := FlushWants(true)], threadState := Terminated, ended := true), i, true);
    assert s.clients[i := FlushWants(true)][i := ShutNotifies] == s.clients[i := ShutNotifies];
  }

  lemma ThenOneMore(s: State, i: int, n: nat)
    ensures Run(s, Steps(i, n + 1)) == Run(Run(s, Steps(i, n)), Steps(i, 1))
  {
    hide Next;
    StepsInTwo(i, n, 1);
    RunConcat(s, Steps(i, n), Steps(i, 1));
  }

  lemma ShutdownStarts(s: State, i: int, n: nat)
    requires 0 <= i < |s.clients| && s.clients[i] == Idle && s.owner == Free
    ensures Run(Next(s, Begin(i, Shutdown)), Steps(i, 3 + n))
         == Run(s.(clients := s.clients[i := FlushWants(true)], threadState := Terminated, ended := true), Steps(i, n))
  {
    var s1 := Next(s, Begin(i, Shutdown));
    assert s1 == s.(clients := s.clients[i := ShutWants]);
    var s2 := Next(s1, ClientStep(i));
    assert s2 == s.(clients := s.clients[i := ShutSets], owner := HeldBy(Caller(i)));
    hide Next;
    OneStep(s1, i, 3 + n);
    ShutdownSets(s, i, n);
  }

  lemma ShutdownSets(s: State, i: int, n: nat)
    requires 0 <= i < |s.clients|
    ensures Run(s.(clients := s.clients[i := ShutSets], owner := HeldBy(Caller(i))), Steps(i, 2 + n))
         == Run(s.(clients := s.clients[i := FlushWants(true)], owner := Free, threadState := Terminated, ended := true), Steps(i, n))
  {
    var s2 := s.(clients := s.clients[i := ShutSets], owner := HeldBy(Caller(i)));
    var s3 := Next(s2, ClientStep(i));
    assert s3 == s.(clients := s.clients[i := ShutReleases], owner := HeldBy(Caller(i)), threadState := Terminated, ended := true);
    var s4 := Next(s3, ClientStep(i));
    assert s4 == s.(clients := s.clients[i := FlushWants(true)], owner := Free, threadState := Terminated, ended := true);
    hide Next;
    OneStep(s2, i, 2 + n);
    OneStep(s3, i, 1 + n);
  }

  lemma ShutNotified(s: State, t: State, i: int)
    requires 0 <= i < |s.clients| && s.clients[i] == Idle
    requires t == s.(threadState := Terminated, ended := true, flushed := true, tasks := [], popped := s.popped + s.tasks,
                     executed := s.executed + s.tasks, clients := s.clients[i := ShutNotifies])
    ensures Run(t, Steps(i, 1)) == t.(clients := s.clients, worker := Notified(s.worker))
  {
    OneStep(t, i, 1);
    assert Steps(i, 0) == [];
    assert Next(t, ClientStep(i)).clients == s.clients;
  }

  /** A call of flush begins it. */
  lemma FlushBegins(s: State, i: int)
    requires 0 <= i < |s.clients| && s.clients[i] == Idle && s.owner == Free
    ensures Run(Next(s, Begin(i, Flush)), Steps(i, 3 * |s.tasks| + 2))
         == s.(tasks := [], popped := s.popped + s.tasks, executed := s.executed + s.tasks)
  {
    var s1 := Next(s, Begin(i, Flush));
    assert s1 == s.(clients := s.clients[i := FlushWants(false)]);
    FlushAlone(s1, i, false);
    assert s.clients[i := Idle] == s.clients;
  }
}
