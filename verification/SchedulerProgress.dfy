/** When a scheduler call finds a task: the exact condition, and the run discipline that meets it. */
module SchedulerProgress {
  import opened Scheduler
  import opened SchedulerRuns

  // ---- the exact condition ----

  /** Task `k` can take over from the current one, also because it waits for its exit. */
  predicate TakesOver(t: Table, k: nat, exiting: bool)
    requires k < |t.tasks|
  {
    && k != t.current
    && (|| Runnable(t.tasks, k)
        || (exiting && t.tasks[k].state.Waiting? && t.tasks[k].waitPid == t.current))
  }

  predicate SomeoneTakesOver(t: Table, exiting: bool) {
    exists k :: 0 <= k < |t.tasks| && TakesOver(t, k, exiting)
  }

  /** What a caller of exit or of a blocking waitpid has to make sure of. */
  ghost predicate Guarded(t: Table, e: Event)
    requires -1 <= t.current < |t.tasks| && CanHappen(t, e)
  {
    Reschedules(t, e) && e.Call? && e.cpu.eax != 2 ==> SomeoneTakesOver(t, e.cpu.eax == 1)
  }

  ghost predicate Finds(t: Table, e: Event)
    requires Shaped(t) && CanHappen(t, e)
  {
    Reschedules(t, e) ==> Selected(t, e) >= 0
  }

  ghost predicate CurrentReady(t: Table) {
    -1 <= t.current < |t.tasks| && (0 <= t.current ==> t.tasks[t.current].state.Ready?)
  }

  /** After an exit or a blocking wait the caller itself cannot run, and the others can as before. */
  lemma LeavingTasks(t: Table, e: Event, k: nat)
    requires Base(t) && CurrentReady(t) && CanHappen(t, e) && Reschedules(t, e) && k < |t.tasks|
    requires e.Call? && e.cpu.eax != 2
    ensures |Scanned(t, e).tasks| == |t.tasks|
    ensures Runnable(Scanned(t, e).tasks, k) <==> TakesOver(t, k, e.cpu.eax == 1)
  {
    ScannedTable(t, e);
    BlocksMeans(t, e.cpu.ebx);
    assert |Scanned(t, e).tasks| == |t.tasks|;
    hide Scanned, Runnable, Blocks;
    RunnableMeans(t.tasks, k);
    RunnableMeans(Scanned(t, e).tasks, k);
    assert WaitOk(t, k);
  }

  lemma StayingTask(t: Table, e: Event)
    requires Base(t) && CurrentReady(t) && CanHappen(t, e) && Reschedules(t, e)
    requires e.Timer? || e.cpu.eax == 2
    ensures SomeRunnable(Scanned(t, e).tasks)
  {
    ScannedTable(t, e);
    var k := if t.current == -1 then 0 else t.current;
    assert Runnable(Scanned(t, e).tasks, k);
  }

  lemma SomeoneLeft(t: Table, e: Event)
    requires Base(t) && CurrentReady(t) && CanHappen(t, e) && Reschedules(t, e)
    requires e.Call? && e.cpu.eax != 2
    ensures SomeRunnable(Scanned(t, e).tasks) <==> SomeoneTakesOver(t, e.cpu.eax == 1)
  {
    hide Scanned, Runnable, TakesOver, Base, Reschedules;
    var b := Scanned(t, e);
    LeavingTasks(t, e, 0);
    if SomeRunnable(b.tasks) {
      var k :| 0 <= k < |b.tasks| && Runnable(b.tasks, k);
      LeavingTasks(t, e, k);
    }
    if SomeoneTakesOver(t, e.cpu.eax == 1) {
      var k :| 0 <= k < |t.tasks| && TakesOver(t, k, e.cpu.eax == 1);
      LeavingTasks(t, e, k);
    }
  }

  /** One call: it finds a task if and only if somebody else can take over, or the caller stays ready. */
  lemma GuardIsExact(t: Table, e: Event)
    requires Base(t) && CurrentReady(t) && CanHappen(t, e)
    ensures Finds(t, e) <==> Guarded(t, e)
  {
    if Reschedules(t, e) {
      ScannedTable(t, e);
      SchedulePicks(Scanned(t, e).tasks, t.current);
      hide Scanned, Runnable, Scan, TakesOver, SomeRunnable, SomeoneTakesOver, Base, Reschedules;
      if e.Timer? || e.cpu.eax == 2 {
        StayingTask(t, e);
      } else {
        SomeoneLeft(t, e);
      }
    }
  }

  /** A call that finds nobody leaves the processor to a task that is not ready. */
  lemma WhoRunsNext(t: Table, e: Event)
    requires Base(t) && CurrentReady(t) && CanHappen(t, e)
    ensures Finds(t, e) <==> CurrentReady(Next(t, e).table)
  {
    if Reschedules(t, e) {
      ScannedTable(t, e);
      NextIsSwitch(t, e);
      SchedulePicks(Scanned(t, e).tasks, t.current);
      if e.Timer? || e.cpu.eax == 2 { StayingTask(t, e); }
      hide Scanned, Next, Scan;
    } else {
      StaysPut(t, e);
    }
  }

  // ---- over runs ----

  ghost predicate AllFind(tables: seq<Table>, events: seq<Event>, n: nat)
    requires Run(tables, events) && n <= |events|
  {
    forall i :: 0 <= i < n ==> Finds(tables[i], events[i])
  }

  ghost predicate AllGuarded(tables: seq<Table>, events: seq<Event>, n: nat)
    requires Run(tables, events) && n <= |events|
  {
    forall i :: 0 <= i < n ==> Guarded(tables[i], events[i])
  }

  ghost predicate AllReady(tables: seq<Table>, n: nat)
    requires n < |tables|
  {
    forall i :: 0 <= i <= n ==> CurrentReady(tables[i])
  }

  lemma Prefixes(tables: seq<Table>, events: seq<Event>, n: nat)
    requires Run(tables, events) && 0 < n <= |events|
    ensures AllFind(tables, events, n) <==> AllFind(tables, events, n - 1) && Finds(tables[n - 1], events[n - 1])
    ensures AllGuarded(tables, events, n)
       <==> AllGuarded(tables, events, n - 1) && Guarded(tables[n - 1], events[n - 1])
    ensures AllReady(tables, n) <==> AllReady(tables, n - 1) && CurrentReady(tables[n])
  {
    hide Finds, Guarded, CurrentReady, Next, Init;
  }

  /**
   * In every run, up to any moment: no scheduler call has fallen through, if and only if every exit
   * and every blocking wait met its guard, if and only if only ready tasks have been resumed.
   */
  lemma {:induction false} ProgressExactly(tables: seq<Table>, events: seq<Event>, n: nat)
    requires Run(tables, events) && n <= |events|
    ensures AllFind(tables, events, n) <==> AllGuarded(tables, events, n)
    ensures AllReady(tables, n) <==> AllGuarded(tables, events, n)
    decreases n
  {
    if n > 0 {
      ProgressExactly(tables, events, n - 1);
      RunKeepsBase(tables, events, n - 1);
      hide Finds, Guarded, CurrentReady, Base, Next, Reschedules, Init;
      if AllReady(tables, n - 1) {
        assert CurrentReady(tables[n - 1]);
        GuardIsExact(tables[n - 1], events[n - 1]);
        WhoRunsNext(tables[n - 1], events[n - 1]);
        assert tables[n - 1 + 1] == Next(tables[n - 1], events[n - 1]).table;
      }
      Prefixes(tables, events, n);
    }
  }

  // ---- the discipline of the kernel's programs ----

  /** Every task but the first was forked by a task in a lower slot. */
  ghost predicate ParentInv(t: Table) {
    |t.tasks| >= 1 && t.tasks[0].ppid == NO_PID
    && forall j :: 0 < j < |t.tasks| ==> t.tasks[j].ppid < j
  }

  /** A waiting task waits for a task in a higher slot. */
  ghost predicate WaitsUpward(tasks: seq<Task>) {
    forall i :: 0 <= i < |tasks| && tasks[i].state.Waiting? ==> i < tasks[i].waitPid < |tasks|
  }

  /** The tables on which a disciplined run calls the scheduler: the current task need not be ready. */
  ghost predicate ReadyToPick(t: Table) {
    Shaped(t) && PidInv(t) && ParentInv(t) && WaitsUpward(t.tasks) && !t.tasks[0].state.Finished?
  }

  ghost predicate TableInv(t: Table) {
    ReadyToPick(t) && CurrentReady(t)
  }

  /** The highest unfinished slot is always runnable: whoever it waits for is above it. */
  lemma {:induction false} HighestUnfinishedRuns(t: Table, top: nat)
    requires ReadyToPick(t) && top < |t.tasks|
    requires forall i :: top < i < |t.tasks| ==> t.tasks[i].state.Finished?
    ensures SomeRunnable(t.tasks)
    decreases top
  {
    if t.tasks[top].state.Finished? {
      HighestUnfinishedRuns(t, top - 1);
    } else {
      RunnableMeans(t.tasks, top);
      assert Runnable(t.tasks, top);
    }
  }

  lemma ScannedIsReady(t: Table, e: Event)
    requires TableInv(t) && CanHappen(t, e) && Disciplined(t, e) && Reschedules(t, e)
    ensures ReadyToPick(Scanned(t, e))
  {
    if 0 <= t.current && e.Call? && e.cpu.eax == 7 {
      IndexInvertsPid(t.tasks, e.cpu.ebx);
    }
  }

  /** The discipline meets the guard. */
  lemma DisciplineIsGuarded(t: Table, e: Event)
    requires TableInv(t) && Base(t) && CanHappen(t, e) && Disciplined(t, e)
    ensures Guarded(t, e)
  {
    if Reschedules(t, e) {
      ScannedIsReady(t, e);
      ScannedTable(t, e);
      hide Disciplined, Scanned;
      HighestUnfinishedRuns(Scanned(t, e), |Scanned(t, e).tasks| - 1);
      SchedulePicks(Scanned(t, e).tasks, t.current);
      hide Guarded;
      GuardIsExact(t, e);
    }
  }

  lemma TableKept(t: Table, e: Event)
    requires TableInv(t) && Base(t) && CanHappen(t, e) && Disciplined(t, e)
    ensures TableInv(Next(t, e).table)
  {
    DisciplineIsGuarded(t, e);
    GuardIsExact(t, e);
    WhoRunsNext(t, e);
    BaseKept(t, e);
    hide Guarded;
    if Reschedules(t, e) {
      ScannedIsReady(t, e);
      NextIsSwitch(t, e);
      hide Next, Scanned, Disciplined, Scan;
    }
  }

  lemma {:induction false} DisciplinedTable(tables: seq<Table>, events: seq<Event>, i: nat)
    requires DisciplinedRun(tables, events) && i <= |events|
    ensures TableInv(tables[i])
    ensures forall j :: 0 <= j < i ==> Guarded(tables[j], events[j])
  {
    if i > 0 {
      DisciplinedTable(tables, events, i - 1);
      RunKeepsBase(tables, events, i - 1);
      hide Guarded, Disciplined, TableInv, Base, Next;
      TableKept(tables[i - 1], events[i - 1]);
      DisciplineIsGuarded(tables[i - 1], events[i - 1]);
    }
  }

  /** Every scheduler call of a disciplined run finds a task: the fall-through is never reached. */
  lemma AlwaysProgress(tables: seq<Table>, events: seq<Event>, i: nat)
    requires DisciplinedRun(tables, events) && i < |events|
    ensures Shaped(tables[i]) && Finds(tables[i], events[i])
  {
    DisciplinedTable(tables, events, |events|);
    ProgressExactly(tables, events, |events|);
  }

  /** What runs after an interrupt is a ready task, never a finished or a blocked one. */
  lemma ResumedIsReady(tables: seq<Table>, events: seq<Event>, i: nat)
    requires DisciplinedRun(tables, events) && i <= |events| && 0 <= tables[i].current
    ensures Shaped(tables[i]) && tables[i].tasks[tables[i].current].state.Ready?
  {
    DisciplinedTable(tables, events, i);
  }

  // ---- what fork returns ----

  /** A child has the gdt of its parent, so all have that of the first task; without one there is no other. */
  ghost predicate GdtInv(tasks: seq<Task>, gdt: bool) {
    |tasks| >= 1 && (forall k :: 0 <= k < |tasks| ==> tasks[k].gdt == gdt) && (|tasks| > 1 ==> gdt)
  }

  lemma GdtScanned(t: Table, e: Event, gdt: bool)
    requires Shaped(t) && CanHappen(t, e) && Reschedules(t, e) && GdtInv(t.tasks, gdt)
    ensures GdtInv(Scanned(t, e).tasks, gdt)
  {
  }

  lemma GdtStays(t: Table, e: Event, gdt: bool)
    requires Shaped(t) && CanHappen(t, e) && !Reschedules(t, e) && GdtInv(t.tasks, gdt)
    ensures GdtInv(Next(t, e).table.tasks, gdt)
  {
  }

  lemma GdtWoken(tasks: seq<Task>, c: nat, gdt: bool)
    requires GdtInv(tasks, gdt) && c < |tasks|
    ensures GdtInv(tasks[c := WakeUp(tasks[c])], gdt)
  {
  }

  lemma GdtKept(t: Table, e: Event, gdt: bool)
    requires Shaped(t) && CanHappen(t, e) && GdtInv(t.tasks, gdt)
    ensures GdtInv(Next(t, e).table.tasks, gdt)
  {
    hide Next, Scanned, Scan, GdtInv, WakeUp;
    if Reschedules(t, e) {
      GdtScanned(t, e, gdt);
      NextIsSwitch(t, e);
      if Selected(t, e) != -1 { GdtWoken(Scanned(t, e).tasks, Selected(t, e), gdt); }
    } else {
      GdtStays(t, e, gdt);
    }
  }

  lemma {:induction false} RunKeepsGdt(tables: seq<Table>, events: seq<Event>, i: nat)
    requires Run(tables, events) && i <= |events|
    ensures GdtInv(tables[i].tasks, tables[0].tasks[0].gdt)
  {
    hide Next;
    if i > 0 {
      RunKeepsGdt(tables, events, i - 1);
      hide GdtInv;
      assert tables[i - 1 + 1] == Next(tables[i - 1], events[i - 1]).table;
      GdtKept(tables[i - 1], events[i - 1], tables[0].tasks[0].gdt);
    }
  }

  /** The three results of fork, told apart by what the caller can see and whether the first task got a gdt. */
  lemma ForkReturns(tables: seq<Table>, events: seq<Event>, i: nat, cpu: Context)
    requires Run(tables, events) && i <= |events| && 0 <= tables[i].current
    ensures tables[i].current < |tables[i].tasks| <= MAX_TASKS
    ensures var t, pid, gdt := tables[i], Fork(tables[i], cpu).pid, tables[0].tasks[0].gdt;
            && (pid == 0 <==> |t.tasks| == MAX_TASKS)
            && (pid == NO_PID <==> |t.tasks| < MAX_TASKS && (!gdt || cpu.eip == 0))
            && (0 < pid < NO_PID ==> pid == |t.tasks| && Fork(t, cpu).table.tasks[pid].ppid == t.tasks[t.current].pid)
            && (!gdt ==> |t.tasks| == 1)
  {
    RunKeepsBase(tables, events, i);
    RunKeepsGdt(tables, events, i);
  }

  /**
   * A forking task is to resume with the child's pid in ecx, -1 if none could be made, and 0 exactly on a full
   * table: there it has the whole context that the child would have had.
   */
  lemma ForkTellsApart(tables: seq<Table>, events: seq<Event>, i: nat)
    requires Run(tables, events) && i < |events| && events[i].Call? && events[i].cpu.eax == 2
    ensures var t, cpu, gdt := tables[i], events[i].cpu, tables[0].tasks[0].gdt;
            && 0 <= t.current < |t.tasks| <= |tables[i + 1].tasks|
            && var result := if |t.tasks| == 256 then 0 else if gdt && cpu.eip != 0 then |t.tasks| else 0xFFFF_FFFF;
            && tables[i + 1].tasks[t.current].context == cpu.(ecx := result)
            && (if |t.tasks| < MAX_TASKS && gdt && cpu.eip != 0 then
                  |tables[i + 1].tasks| == |t.tasks| + 1
                  && tables[i + 1].tasks[|t.tasks|].context == cpu.(ecx := 0)
                else |tables[i + 1].tasks| == |t.tasks|)
  {
    RunKeepsBase(tables, events, i);
    RunKeepsGdt(tables, events, i);
    NextIsSwitch(tables[i], events[i]);
    hide Next;
  }

  /** Slot `s` has been told `pid` by one of its forks before event `i`. */
  ghost predicate ToldByFork(tables: seq<Table>, events: seq<Event>, i: nat, s: int, pid: nat)
    requires Run(tables, events) && i <= |events|
  {
    exists m :: 0 <= m < i && IsFork(tables[m], events[m], s, pid)
  }

  predicate IsFork(t: Table, e: Event, s: int, pid: nat) {
    0 <= t.current < |t.tasks| && t.current == s && e.Call? && e.cpu.eax == 2 && Fork(t, e.cpu).pid == pid
  }

  /**
   * Runs of programs written as those of the kernel are: a task waits only for pids that its own forks
   * returned, and the first one exits only where it takes itself for a child, a fork having returned 0.
   */
  ghost predicate AsWritten(tables: seq<Table>, events: seq<Event>) {
    && Run(tables, events)
    && forall i :: 0 <= i < |events| && events[i].Call? ==>
         && (events[i].cpu.eax == 1 && tables[i].current == 0 ==> ToldByFork(tables, events, i, 0, 0))
         && (events[i].cpu.eax == 7 && Blocks(tables[i], events[i].cpu.ebx) ==>
               ToldByFork(tables, events, i, tables[i].current, events[i].cpu.ebx))
  }

  ghost predicate NoForkOnFullTable(tables: seq<Table>, events: seq<Event>) {
    |tables| == |events| + 1
    && forall i :: 0 <= i < |events| && events[i].Call? && events[i].cpu.eax == 2 ==> |tables[i].tasks| < MAX_TASKS
  }

  lemma ParentStays(t: Table, e: Event, k: nat)
    requires Shaped(t) && PidInv(t) && CanHappen(t, e) && k < |t.tasks|
    ensures k < |Next(t, e).table.tasks| && Next(t, e).table.tasks[k].ppid == t.tasks[k].ppid
  {
    if Reschedules(t, e) { NextIsSwitch(t, e); }
  }

  /** The child of a fork stays its child. */
  lemma {:induction false} ChildrenStay(tables: seq<Table>, events: seq<Event>, m: nat, i: nat, s: int, pid: nat)
    requires Run(tables, events) && m < i <= |events|
    requires IsFork(tables[m], events[m], s, pid) && 0 < pid < NO_PID
    ensures pid < |tables[i].tasks| && tables[i].tasks[pid].ppid == s
    decreases i
  {
    RunKeepsBase(tables, events, i - 1);
    if i == m + 1 {
      NextIsSwitch(tables[m], events[m]);
    } else {
      ChildrenStay(tables, events, m, i - 1, s, pid);
      hide Next, IsFork;
      ParentStays(tables[i - 1], events[i - 1], pid);
    }
  }

  /** Such programs keep the discipline as long as no fork meets a full table. */
  lemma AsWrittenIsDisciplined(tables: seq<Table>, events: seq<Event>)
    requires AsWritten(tables, events) && NoForkOnFullTable(tables, events)
    ensures DisciplinedRun(tables, events)
  {
    forall i | 0 <= i < |events| ensures Disciplined(tables[i], events[i]) {
      RunKeepsBase(tables, events, i);
      var t, e := tables[i], events[i];
      if e.Call? {
        BlocksMeans(t, e.cpu.ebx);
        IndexInvertsPid(t.tasks, e.cpu.ebx);
        if e.cpu.eax == 1 && t.current == 0 {
          var m :| 0 <= m < i && IsFork(tables[m], events[m], 0, 0);
          ForkReturns(tables, events, m, events[m].cpu);
        }
        if e.cpu.eax == 7 && Blocks(t, e.cpu.ebx) {
          var m :| 0 <= m < i && IsFork(tables[m], events[m], t.current, e.cpu.ebx);
          ChildrenStay(tables, events, m, i, t.current, e.cpu.ebx);
        }
      }
    }
  }

}
