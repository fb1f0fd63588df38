/** Two runs on which the scheduler stops finding tasks: what the run discipline is needed for. */
module SchedulerLimits {
  import opened Scheduler
  import opened SchedulerRuns
  import opened SchedulerProgress

  const PLAIN := Context(0, 0, 0, 1, 0)
  const FORK := Context(2, 0, 0, 1, 0)

  function WaitCall(pid: nat): Context { Context(7, pid, 0, 1, 0) }

  /** Selection computed by hand: the slot at distance `d` is the first runnable one. */
  lemma {:induction false} PickAt(tasks: seq<Task>, current: int, from: nat, d: nat)
    requires 1 <= |tasks| && -1 <= current < |tasks| && from <= d < |tasks|
    requires Runnable(tasks, After(current, d, |tasks|))
    requires forall e: nat :: from <= e < d ==> !Runnable(tasks, After(current, e, |tasks|))
    ensures Scan(tasks, current, from) == After(current, d, |tasks|)
    decreases d - from
  {
    if from < d { PickAt(tasks, current, from + 1, d); }
  }

  lemma WaitEvent(t: Table, pid: nat)
    requires Shaped(t) && 0 <= t.current && t.current != pid && 0 < pid < |t.tasks|
    requires (forall i :: 0 <= i < |t.tasks| ==> t.tasks[i].pid == i) && !t.tasks[pid].state.Finished?
    ensures Next(t, Call(WaitCall(pid))) == Schedule(Wait(t, WaitCall(pid)), WaitCall(pid))
  {
    IndexInvertsPid(t.tasks, pid);
  }

  /** Tables of the circle below. */
  function Circle(i: nat): Table
    requires i <= 6
  {
    var init := Task(Ready, 0, NO_PID, NO_PID, true, PLAIN);
    var parent := Task(Ready, 0, NO_PID, NO_PID, true, FORK.(ecx := 1));
    var child := Task(Ready, 1, 0, NO_PID, true, FORK);
    var forked := Task(Ready, 1, 0, NO_PID, true, FORK.(ecx := 2));
    var grandchild := Task(Ready, 2, 1, NO_PID, true, FORK);
    var wait0 := Task(Waiting, 0, NO_PID, 1, true, WaitCall(1));
    var wait1 := Task(Waiting, 1, 0, 2, true, WaitCall(2));
    var wait2 := Task(Waiting, 2, 1, 1, true, WaitCall(1));
    [Table([init], -1, 1), Table([init], 0, 1), Table([parent, child], 1, 2),
     Table([parent, forked, grandchild], 2, 3), Table([parent, forked, wait2], 0, 3),
     Table([wait0, forked, wait2], 1, 3), Table([wait0, wait1, wait2], 1, 3)][i]
  }

  function CircleEvent(i: nat): Event
    requires i < 6
  {
    [Timer(PLAIN), Call(FORK), Call(FORK), Call(WaitCall(1)), Call(WaitCall(1)), Call(WaitCall(2))][i]
  }

  lemma CircleForks()
    ensures forall i :: 0 <= i < 3 ==> Shaped(Circle(i)) && Next(Circle(i), CircleEvent(i)).table == Circle(i + 1)
  {
    var t0, t1, t2, t3 := Circle(0), Circle(1), Circle(2), Circle(3);
    PickAt(t0.tasks, -1, 0, 0);
    PickAt(t2.tasks, 0, 0, 0);
    PickAt(t3.tasks, 1, 0, 0);
    assert Next(t0, CircleEvent(0)).table == t1;
    assert Fork(t1, FORK).table.tasks[0 := t2.tasks[0]] == t2.tasks;
    assert Next(t1, CircleEvent(1)).table == t2;
    assert Fork(t2, FORK).table.tasks[1 := t3.tasks[1]] == t3.tasks;
    assert Next(t2, CircleEvent(2)).table == t3;
  }

  lemma CircleWaits(i: nat)
    requires i == 3 || i == 4
    ensures Shaped(Circle(i)) && Next(Circle(i), CircleEvent(i)).table == Circle(i + 1)
  {
    var t, t' := Circle(i), Circle(i + 1);
    WaitEvent(t, 1);
    assert Wait(t, WaitCall(1)).tasks == t'.tasks;
    assert Save(Wait(t, WaitCall(1)), WaitCall(1)).tasks == t'.tasks;
    PickAt(t'.tasks, t.current, 0, 0);
  }

  lemma CircleCloses()
    ensures Shaped(Circle(5)) && Next(Circle(5), CircleEvent(5)) == Resumed(Circle(6), WaitCall(2))
    ensures !SomeRunnable(Circle(6).tasks)
  {
    var t, t' := Circle(5), Circle(6);
    WaitEvent(t, 2);
    assert Wait(t, WaitCall(2)).tasks == t'.tasks;
    assert Save(Wait(t, WaitCall(2)), WaitCall(2)).tasks == t'.tasks;
    forall k | 0 <= k < 3 ensures !Runnable(t'.tasks, k) { RunnableMeans(t'.tasks, k); }
    SchedulePicks(t'.tasks, 1);
  }

  lemma CircleSteps(i: nat)
    requires i < 6
    ensures Shaped(Circle(i)) && CanHappen(Circle(i), CircleEvent(i))
    ensures Next(Circle(i), CircleEvent(i)).table == Circle(i + 1)
  {
    hide Next;
    if i < 3 { CircleForks(); } else if i < 5 { CircleWaits(i); } else { CircleCloses(); }
  }

  lemma CircleIsReady()
    ensures Init(Circle(0)) && !CurrentReady(Circle(6))
    ensures forall i :: 0 <= i < 6 ==> CurrentReady(Circle(i))
    ensures Circle(6).current == 1 && |Circle(6).tasks| == 3
    ensures Circle(6).tasks[1].state.Waiting? && Circle(6).tasks[1].context == WaitCall(2)
  {
  }

  /**
   * `waitpidTask` does not ask whether the caller is the parent: after two forks task 1 waits for task 2
   * and task 2 for task 1, while task 0 waits for task 1.  The last of these calls misses its guard, so
   * Schedule falls through and resumes a task that is still blocked.
   */
  lemma CircularWait() returns (tables: seq<Table>, events: seq<Event>)
    ensures Run(tables, events) && |events| == 6
    ensures !Guarded(tables[5], events[5]) && !AllFind(tables, events, 6)
    ensures 0 <= tables[6].current < |tables[6].tasks| && tables[6].tasks[tables[6].current].state.Waiting?
    ensures Next(tables[5], events[5]).cpu == tables[6].tasks[tables[6].current].context
  {
    tables := seq(7, i requires 0 <= i < 7 => Circle(i));
    events := seq(6, i requires 0 <= i < 6 => CircleEvent(i));
    hide Next, Guarded, CurrentReady;
    forall i | 0 <= i < 6
      ensures Shaped(tables[i]) && CanHappen(tables[i], events[i]) && tables[i + 1] == Next(tables[i], events[i]).table
    {
      CircleSteps(i);
    }
    CircleIsReady();
    CircleCloses();
    ProgressExactly(tables, events, 6);
    ProgressExactly(tables, events, 5);
    assert AllReady(tables, 5);
    Prefixes(tables, events, 6);
  }

  // ---- a fork on a full table ----

  const EXIT := Context(1, 0, 0, 1, 0)

  /** Task 0 has forked `k` children, and each has run and exited. */
  function Filled(k: nat): Table
    requires k < MAX_TASKS
  {
    Table([Task(Ready, 0, NO_PID, NO_PID, true, if k == 0 then PLAIN else FORK.(ecx := k))] + Exited(k), 0, k + 1)
  }

  function Exited(k: nat): (r: seq<Task>)
    ensures |r| == k && forall j :: 0 <= j < k ==> r[j] == Task(Finished, j + 1, 0, NO_PID, true, EXIT)
  {
    seq(k, (j: nat) => Task(Finished, j + 1, 0, NO_PID, true, EXIT))
  }

  /** Its `k`-th child runs. */
  function ChildRuns(k: nat): Table
    requires 1 <= k < MAX_TASKS
  {
    Table([Task(Ready, 0, NO_PID, NO_PID, true, FORK.(ecx := k))]
          + Exited(k - 1) + [Task(Ready, k, 0, NO_PID, true, FORK)],
          k, k + 1)
  }

  lemma FillFork(k: nat)
    requires k + 1 < MAX_TASKS
    ensures Shaped(Filled(k)) && Next(Filled(k), Call(FORK)).table == ChildRuns(k + 1)
  {
    var t, t' := Filled(k), ChildRuns(k + 1);
    var b := Scanned(t, Call(FORK));
    assert b.tasks == t'.tasks;
    AfterIsNear(0, k, k + 2);
    var n := |b.tasks|;
    forall d: nat | d < k ensures !Runnable(b.tasks, After(0, d, n)) { AfterIsNear(0, d, n); }
    PickAt(b.tasks, 0, 0, k);
    NextIsSwitch(t, Call(FORK));
    hide Next;
    assert b.tasks[k + 1 := WakeUp(b.tasks[k + 1])] == t'.tasks;
  }

  lemma FillExit(k: nat)
    requires 1 <= k < MAX_TASKS
    ensures Shaped(ChildRuns(k)) && Next(ChildRuns(k), Call(EXIT)).table == Filled(k)
  {
    var t, t' := ChildRuns(k), Filled(k);
    var b := Scanned(t, Call(EXIT));
    assert b.tasks == t'.tasks;
    AfterIsNear(k, 0, k + 1);
    PickAt(b.tasks, k, 0, 0);
    NextIsSwitch(t, Call(EXIT));
    hide Next;
    assert b.tasks[0 := WakeUp(b.tasks[0])] == t'.tasks;
  }

  /** The table is full: fork returns 0 to task 0. */
  function ToldZero(): Table {
    var t := Filled(MAX_TASKS - 1);
    t.(tasks := t.tasks[0 := t.tasks[0].(context := FORK)])
  }

  /** It took itself for a child and exited. */
  function AllGone(): Table {
    var t := ToldZero();
    t.(tasks := t.tasks[0 := t.tasks[0].(context := EXIT, state := Finished)])
  }

  lemma FullFork()
    ensures Shaped(Filled(MAX_TASKS - 1)) && Next(Filled(MAX_TASKS - 1), Call(FORK)).table == ToldZero()
    ensures IsFork(Filled(MAX_TASKS - 1), Call(FORK), 0, 0)
  {
    var t, t', e := Filled(MAX_TASKS - 1), ToldZero(), Call(FORK);
    var b := Scanned(t, e);
    assert b.tasks == t'.tasks;
    forall d: nat | 0 <= d < MAX_TASKS ensures After(0, d, MAX_TASKS) == if d == MAX_TASKS - 1 then 0 else d + 1 {
      AfterIsNear(0, d, MAX_TASKS);
    }
    PickAt(b.tasks, 0, 0, MAX_TASKS - 1);
    NextIsSwitch(t, e);
    hide Next;
    assert b.tasks[0 := WakeUp(b.tasks[0])] == t'.tasks;
  }

  lemma LastExit()
    ensures Shaped(ToldZero()) && Next(ToldZero(), Call(EXIT)).table == AllGone()
    ensures !Guarded(ToldZero(), Call(EXIT))
  {
    var t, t', e := ToldZero(), AllGone(), Call(EXIT);
    var b := Scanned(t, e);
    assert b.tasks == t'.tasks;
    forall k | 0 <= k < MAX_TASKS ensures !Runnable(b.tasks, k) && !TakesOver(t, k, true) {}
    SchedulePicks(b.tasks, 0);
    NextIsSwitch(t, e);
    hide Next;
  }

  function FillTable(n: nat): Table
    requires n <= 513
  {
    if n == 0 then Filled(0).(current := -1)
    else if n == 513 then AllGone()
    else if n == 512 then ToldZero()
    else if n % 2 == 1 then Filled(n / 2)
    else ChildRuns(n / 2)
  }

  function FillEvent(n: nat): Event {
    if n == 0 then Timer(PLAIN) else if n % 2 == 1 then Call(FORK) else Call(EXIT)
  }

  lemma FillStart()
    ensures Shaped(FillTable(0)) && Next(FillTable(0), Timer(PLAIN)).table == FillTable(1)
  {
    PickAt(FillTable(0).tasks, -1, 0, 0);
    assert FillTable(0).tasks[0 := WakeUp(FillTable(0).tasks[0])] == FillTable(1).tasks;
  }

  lemma FillStep(n: nat)
    requires n < 513
    ensures Shaped(FillTable(n)) && CanHappen(FillTable(n), FillEvent(n))
    ensures FillTable(n + 1) == Next(FillTable(n), FillEvent(n)).table
  {
    hide Next, Exited;
    if n == 0 {
      FillStart();
    } else if n == 512 {
      LastExit();
    } else if n == 511 {
      FullFork();
    } else if n % 2 == 1 {
      FillFork(n / 2);
    } else {
      FillExit(n / 2);
    }
  }

  /**
   * Programs written as those of the kernel are can lose the discipline: after 255 forks the next one returns
   * 0 to task 0, which takes itself for a child and exits.  Nobody is left, and a finished task is resumed.
   */
  lemma FullTableStopsTheKernel() returns (tables: seq<Table>, events: seq<Event>)
    ensures AsWritten(tables, events) && |events| == 513
    ensures !NoForkOnFullTable(tables, events) && !DisciplinedRun(tables, events)
    ensures !Guarded(tables[512], events[512])
    ensures tables[513].current == 0 && 0 < |tables[513].tasks| && tables[513].tasks[0].state.Finished?
  {
    hide Next, Guarded, IsFork, Blocks;
    tables := seq(514, n requires 0 <= n < 514 => FillTable(n));
    events := seq(513, (n: nat) => FillEvent(n));
    forall n | 0 <= n < 513
      ensures Shaped(tables[n]) && CanHappen(tables[n], events[n])
      ensures tables[n + 1] == Next(tables[n], events[n]).table
    {
      FillStep(n);
    }
    assert Run(tables, events);
    FullFork();
    LastExit();
    assert IsFork(tables[511], events[511], 0, 0);
    assert !Disciplined(tables[512], events[512]);
  }
}
