/** What every run of the scheduler keeps, whatever the programs do: bounded waiting and wait safety. */
module SchedulerRuns {
  import opened Scheduler

  // ---- what one call of Schedule selects ----

  /** The distance at which slot `k` comes up. */
  lemma SlotComesUp(current: int, k: nat, n: nat) returns (d: nat)
    requires -1 <= current < n && k < n
    ensures d < n && After(current, d, n) == k
    ensures d == if current < k then k - current - 1 else k + n - current - 1
  {
    d := if current < k then k - current - 1 else k + n - current - 1;
    AfterIsNear(current, d, n);
  }

  ghost predicate FirstFrom(tasks: seq<Task>, current: int, from: nat, c: nat)
    requires 1 <= |tasks| && -1 <= current < |tasks|
  {
    exists d: nat :: from <= d < |tasks| && After(current, d, |tasks|) == c
      && forall e: nat :: from <= e < d ==> !Runnable(tasks, After(current, e, |tasks|))
  }

  lemma {:induction false} ScanFindsFirst(tasks: seq<Task>, current: int, from: nat)
    requires 1 <= |tasks| && -1 <= current < |tasks| && from <= |tasks|
    ensures var c := Scan(tasks, current, from);
            if c == -1 then forall e: nat :: from <= e < |tasks| ==> !Runnable(tasks, After(current, e, |tasks|))
            else Runnable(tasks, c) && FirstFrom(tasks, current, from, c)
    decreases |tasks| - from
  {
    if from < |tasks| && !Runnable(tasks, After(current, from, |tasks|)) {
      ScanFindsFirst(tasks, current, from + 1);
    }
  }

  /** Schedule takes the first runnable slot after the current one, and fails only if there is none. */
  lemma SchedulePicks(tasks: seq<Task>, current: int)
    requires 1 <= |tasks| && -1 <= current < |tasks|
    ensures var c := Scan(tasks, current, 0);
            if c == -1 then !SomeRunnable(tasks) else FirstRunnable(tasks, current, c)
  {
    ScanFindsFirst(tasks, current, 0);
    if Scan(tasks, current, 0) == -1 && SomeRunnable(tasks) {
      var k :| 0 <= k < |tasks| && Runnable(tasks, k);
      var d := SlotComesUp(current, k, |tasks|);
    }
  }

  /** Distance from the current task to slot `k` on the ring of all 256 slots. */
  function RingDistance(current: int, k: nat): nat
    requires -1 <= current < MAX_TASKS && k < MAX_TASKS
  {
    if current < k then k - current else k + MAX_TASKS - current
  }

  /** Whoever is selected before a runnable `k` lies strictly between, also on the longer ring. */
  lemma PickApproaches(tasks: seq<Task>, current: int, k: nat)
    requires 1 <= |tasks| <= MAX_TASKS && -1 <= current < |tasks| && k < |tasks| && Runnable(tasks, k)
    ensures var c := Scan(tasks, current, 0);
            c >= 0 && (c == k || RingDistance(c, k) < RingDistance(current, k))
  {
    SchedulePicks(tasks, current);
    var c := Scan(tasks, current, 0);
    var dk := SlotComesUp(current, k, |tasks|);
    var d: nat :| d < |tasks| && After(current, d, |tasks|) == c
                  && forall e: nat :: e < d ==> !Runnable(tasks, After(current, e, |tasks|));
    AfterIsNear(current, d, |tasks|);
    assert d <= dk;
  }

  // ---- the invariant of all runs ----

  /** Starting from one task, pids are handed out slot by slot. */
  ghost predicate PidInv(t: Table) {
    t.counter == |t.tasks| && forall i :: 0 <= i < |t.tasks| ==> t.tasks[i].pid == i
  }

  /** A waiting task waits for a task in the table, and not for one that has finished and still runs. */
  ghost predicate WaitOk(t: Table, k: nat)
    requires k < |t.tasks|
  {
    t.tasks[k].state.Waiting? ==>
      && t.tasks[k].waitPid < |t.tasks|
      && (t.tasks[k].waitPid == t.current ==> !t.tasks[t.current].state.Finished?)
  }

  ghost predicate Base(t: Table) {
    && Shaped(t) && PidInv(t)
    && (forall k :: 0 <= k < |t.tasks| ==> WaitOk(t, k))
    && (t.current == -1 ==> t.tasks[0].state.Ready?)
  }

  /** `getTaskIndex` inverts the pid assignment. */
  lemma IndexInvertsPid(tasks: seq<Task>, pid: nat)
    requires forall i :: 0 <= i < |tasks| ==> tasks[i].pid == i
    ensures GetTaskIndex(tasks, pid) == if pid < |tasks| then pid else -1
  {
    if pid < |tasks| { assert tasks[pid].pid == pid; }
  }

  /** Who can run, said without looking pids up. */
  lemma RunnableMeans(tasks: seq<Task>, k: nat)
    requires (forall i :: 0 <= i < |tasks| ==> tasks[i].pid == i) && k < |tasks|
    ensures Runnable(tasks, k) == (
              || tasks[k].state.Ready?
              || (tasks[k].state.Waiting? && tasks[k].waitPid < |tasks| && tasks[tasks[k].waitPid].state.Finished?))
  {
    IndexInvertsPid(tasks, tasks[k].waitPid);
  }

  // ---- one event ----

  /** The table that the scan of a rescheduling event looks at. */
  function Scanned(t: Table, e: Event): Table
    requires -1 <= t.current < |t.tasks| && CanHappen(t, e) && Reschedules(t, e)
  {
    Save(Before(t, e), CpuBefore(t, e))
  }

  /** What it selects, or -1. */
  function Selected(t: Table, e: Event): (c: int)
    requires -1 <= t.current < |t.tasks| && 1 <= |t.tasks| && CanHappen(t, e) && Reschedules(t, e)
    ensures -1 <= c < |Scanned(t, e).tasks|
  {
    Scan(Scanned(t, e).tasks, t.current, 0)
  }

  /** What the event itself does to the current task. */
  ghost predicate CurrentActs(t: Table, e: Event, me: Task, me': Task)
    requires Shaped(t) && CanHappen(t, e)
  {
    if e.Timer? || e.cpu.eax == 2 then me'.state == me.state && me'.waitPid == me.waitPid
    else if e.cpu.eax == 1 then me'.state.Finished?
    else me'.state.Waiting? && me'.waitPid == e.cpu.ebx
  }

  /** Saving and the call itself touch only the current slot, and a fork adds a ready one. */
  lemma ScannedTable(t: Table, e: Event)
    requires Shaped(t) && PidInv(t) && CanHappen(t, e) && Reschedules(t, e)
    ensures var b := Scanned(t, e);
            && Shaped(b) && PidInv(b) && b.current == t.current && |t.tasks| <= |b.tasks|
            && (forall k :: 0 <= k < |t.tasks| && k != t.current ==> b.tasks[k] == t.tasks[k])
            && (forall k :: |t.tasks| <= k < |b.tasks| ==> b.tasks[k].state.Ready?)
            && (0 <= t.current ==> CurrentActs(t, e, t.tasks[t.current], b.tasks[t.current]))
  {
  }

  /** A wait that blocks names another task, which has not finished. */
  lemma BlocksMeans(t: Table, pid: nat)
    requires Shaped(t) && PidInv(t) && 0 <= t.current
    ensures Blocks(t, pid) <==> 0 < pid < |t.tasks| && pid != t.current && !t.tasks[pid].state.Finished?
  {
    IndexInvertsPid(t.tasks, pid);
  }

  lemma NextIsSwitch(t: Table, e: Event)
    requires Shaped(t) && CanHappen(t, e) && Reschedules(t, e)
    ensures var b, c := Scanned(t, e), Selected(t, e);
            && Next(t, e).table == (if c == -1 then b else b.(tasks := b.tasks[c := WakeUp(b.tasks[c])], current := c))
            && (c == -1 ==> Next(t, e).cpu == CpuBefore(t, e))
  {
  }

  /** An event that does not reschedule changes at most the current slot, and never into another wait. */
  lemma StaysPut(t: Table, e: Event)
    requires Shaped(t) && PidInv(t) && CanHappen(t, e) && !Reschedules(t, e)
    ensures var t' := Next(t, e).table;
            && PidInv(t') && t'.current == t.current && 0 <= t.current && |t'.tasks| == |t.tasks|
            && (forall k :: 0 <= k < |t.tasks| && k != t.current ==> t'.tasks[k] == t.tasks[k])
            && (t'.tasks[t.current].state.Ready? || t'.tasks[t.current] == t.tasks[t.current])
  {
  }

  /** Slot `k` is left alone, or it is the one now selected. */
  lemma OthersKept(t: Table, e: Event, k: nat)
    requires Shaped(t) && PidInv(t) && CanHappen(t, e) && k < |t.tasks| && k != t.current
    ensures var t' := Next(t, e).table;
            && |t.tasks| <= |t'.tasks|
            && t'.tasks[k] == (if t'.current == k then WakeUp(t.tasks[k]) else t.tasks[k])
            && (t'.current == k ==>
                  Reschedules(t, e) && k < |Scanned(t, e).tasks| && Runnable(Scanned(t, e).tasks, k))
  {
    hide Next, Scanned, Runnable, WakeUp;
    if Reschedules(t, e) {
      ScannedTable(t, e);
      NextIsSwitch(t, e);
      SchedulePicks(Scanned(t, e).tasks, t.current);
      hide Scan;
    } else {
      StaysPut(t, e);
    }
  }

  /** Nobody waits for the current task when the scan finds nothing and that task has finished. */
  lemma FallThroughIsQuiet(t: Table, e: Event, k: nat)
    requires Base(t) && CanHappen(t, e) && Reschedules(t, e) && Selected(t, e) == -1
    requires k < |Scanned(t, e).tasks|
    ensures WaitOk(Scanned(t, e), k)
  {
    ScannedTable(t, e);
    var b := Scanned(t, e);
    SchedulePicks(b.tasks, t.current);
    if 0 <= t.current && e.Call? && e.cpu.eax == 7 { BlocksMeans(t, e.cpu.ebx); }
    hide Scanned, Scan;
    assert !Runnable(b.tasks, k);
    RunnableMeans(b.tasks, k);
    assert k < |t.tasks| ==> WaitOk(t, k);
  }

  lemma SwitchKeepsWaits(t: Table, e: Event, k: nat)
    requires Base(t) && CanHappen(t, e) && Reschedules(t, e) && Selected(t, e) != -1
    requires k < |Next(t, e).table.tasks|
    ensures WaitOk(Next(t, e).table, k)
  {
    ScannedTable(t, e);
    NextIsSwitch(t, e);
    SchedulePicks(Scanned(t, e).tasks, t.current);
    if 0 <= t.current && e.Call? && e.cpu.eax == 7 { BlocksMeans(t, e.cpu.ebx); }
    hide Next, Scanned, Scan;
    assert k < |t.tasks| ==> WaitOk(t, k);
  }

  /** Whatever the programs do. */
  lemma BaseKept(t: Table, e: Event)
    requires Base(t) && CanHappen(t, e)
    ensures Base(Next(t, e).table) && |t.tasks| <= |Next(t, e).table.tasks|
  {
    hide Next, Scanned, Scan;
    var t' := Next(t, e).table;
    if Reschedules(t, e) {
      ScannedTable(t, e);
      NextIsSwitch(t, e);
      forall k | 0 <= k < |t'.tasks| ensures WaitOk(t', k) {
        if Selected(t, e) == -1 { FallThroughIsQuiet(t, e, k); } else { SwitchKeepsWaits(t, e, k); }
      }
      SomebodyRuns(t, e);
    } else {
      StaysPut(t, e);
      forall k | 0 <= k < |t'.tasks| ensures WaitOk(t', k) {
        assert WaitOk(t, k);
      }
    }
  }

  /** From the first timer interrupt on there is a current task. */
  lemma SomebodyRuns(t: Table, e: Event)
    requires Base(t) && CanHappen(t, e)
    ensures 0 <= Next(t, e).table.current
  {
    hide Next, Scanned, Scan;
    if Reschedules(t, e) {
      ScannedTable(t, e);
      NextIsSwitch(t, e);
      if t.current == -1 {
        SchedulePicks(Scanned(t, e).tasks, -1);
        RunnableMeans(Scanned(t, e).tasks, 0);
      }
    } else {
      StaysPut(t, e);
    }
  }

  lemma {:induction false} RunKeepsBase(tables: seq<Table>, events: seq<Event>, i: nat)
    requires Run(tables, events) && i <= |events|
    ensures Base(tables[i])
  {
    if i > 0 {
      RunKeepsBase(tables, events, i - 1);
      BaseKept(tables[i - 1], events[i - 1]);
    }
  }

  /** Pids are the slots, so looking one up finds its own slot, and none wraps. */
  lemma PidsNameSlots(tables: seq<Table>, events: seq<Event>, i: nat, pid: nat)
    requires Run(tables, events) && i <= |events|
    ensures GetTaskIndex(tables[i].tasks, pid) == if pid < |tables[i].tasks| then pid else -1
    ensures forall j, k :: 0 <= j < k < |tables[i].tasks| ==> tables[i].tasks[j].pid < tables[i].tasks[k].pid
    ensures tables[i].counter == |tables[i].tasks| <= MAX_TASKS
  {
    RunKeepsBase(tables, events, i);
    IndexInvertsPid(tables[i].tasks, pid);
  }

  // ---- finished tasks ----

  lemma FinishedStep(t: Table, e: Event, k: nat)
    requires Base(t) && CanHappen(t, e) && k < |t.tasks|
    requires t.tasks[k].state.Finished? && t.current != k
    ensures k < |Next(t, e).table.tasks| && Next(t, e).table.tasks[k].state.Finished? && Next(t, e).table.current != k
  {
    OthersKept(t, e, k);
    hide Next;
    if Reschedules(t, e) {
      ScannedTable(t, e);
      hide Scanned;
      RunnableMeans(Scanned(t, e).tasks, k);
    }
  }

  /** A finished task that is not running stays finished and never runs again. */
  lemma {:induction false} FinishedForever(tables: seq<Table>, events: seq<Event>, i: nat, j: nat, k: nat)
    requires Run(tables, events) && i <= j <= |events|
    requires k < |tables[i].tasks| && tables[i].tasks[k].state.Finished? && tables[i].current != k
    ensures k < |tables[j].tasks| && tables[j].tasks[k].state.Finished? && tables[j].current != k
    decreases j
  {
    if i < j {
      FinishedForever(tables, events, i, j - 1, k);
      RunKeepsBase(tables, events, j - 1);
      hide Next;
      FinishedStep(tables[j - 1], events[j - 1], k);
    }
  }

  // ---- bounded waiting ----

  /** A task that is runnable, and not running, stays so until it is selected. */
  lemma RunnableStays(t: Table, e: Event, k: nat)
    requires Base(t) && CanHappen(t, e)
    requires k < |t.tasks| && k != t.current && Runnable(t.tasks, k)
    ensures k < |Next(t, e).table.tasks| && Runnable(Next(t, e).table.tasks, k)
    ensures Reschedules(t, e) ==> k < |Scanned(t, e).tasks| && Runnable(Scanned(t, e).tasks, k)
  {
    RunnableMeans(t.tasks, k);
    assert WaitOk(t, k);
    BaseKept(t, e);
    OthersKept(t, e, k);
    if t.tasks[k].state.Waiting? { FinishedStep(t, e, t.tasks[k].waitPid); }
    if Reschedules(t, e) { ScannedTable(t, e); }
    hide Next, Scanned, Runnable;
    RunnableMeans(Next(t, e).table.tasks, k);
    if Reschedules(t, e) { RunnableMeans(Scanned(t, e).tasks, k); }
  }

  /** Scheduler calls among the events from `i` to `j`. */
  ghost function Calls(tables: seq<Table>, events: seq<Event>, i: nat, j: nat): nat
    requires Run(tables, events) && i <= j <= |events|
    decreases j - i
  {
    if i == j then 0
    else (if Reschedules(tables[i], events[i]) then 1 else 0) + Calls(tables, events, i + 1, j)
  }

  /** Slot `k` is selected by one of the events from `i` to `j`. */
  ghost predicate SelectedWithin(tables: seq<Table>, events: seq<Event>, i: nat, j: nat, k: nat)
    requires Run(tables, events) && i <= j <= |events|
  {
    exists m :: i <= m < j && Reschedules(tables[m], events[m]) && tables[m + 1].current == k
  }

  /** One scheduler call selects `k` or somebody nearer to it. */
  lemma CallApproaches(t: Table, e: Event, k: nat)
    requires Base(t) && CanHappen(t, e) && Reschedules(t, e)
    requires k < |t.tasks| && k != t.current && Runnable(t.tasks, k)
    ensures var c := Next(t, e).table.current;
            c == k || (0 <= c < MAX_TASKS && RingDistance(c, k) < RingDistance(t.current, k))
  {
    RunnableStays(t, e, k);
    ScannedTable(t, e);
    NextIsSwitch(t, e);
    hide Next, Scanned, Runnable;
    PickApproaches(Scanned(t, e).tasks, t.current, k);
  }

  /**
   * Bounded waiting in every run: a runnable task comes up after at most its ring distance, hence
   * 256, scheduler calls, however many forks append tasks and whoever exits or waits meanwhile.
   */
  lemma {:induction false} BoundedWaiting(tables: seq<Table>, events: seq<Event>, i: nat, j: nat, k: nat)
    requires Run(tables, events) && i <= j <= |events|
    requires k < |tables[i].tasks| && k != tables[i].current && Runnable(tables[i].tasks, k)
    ensures k < MAX_TASKS && -1 <= tables[i].current < MAX_TASKS
    ensures RingDistance(tables[i].current, k) <= MAX_TASKS
    ensures RingDistance(tables[i].current, k) <= Calls(tables, events, i, j) ==>
              SelectedWithin(tables, events, i, j, k)
    decreases j - i
  {
    RunKeepsBase(tables, events, i);
    if i < j {
      var t, e := tables[i], events[i];
      RunnableStays(t, e, k);
      if Reschedules(t, e) { CallApproaches(t, e, k); } else { StaysPut(t, e); }
      OthersKept(t, e, k);
      hide Next, Scanned, Reschedules, Runnable;
      if tables[i + 1].current != k {
        BoundedWaiting(tables, events, i + 1, j, k);
      }
      assert tables[i + 1].current == k ==> SelectedWithin(tables, events, i, j, k);
    }
  }

  /** In particular within 256 calls. */
  lemma SelectedWithin256(tables: seq<Table>, events: seq<Event>, i: nat, j: nat, k: nat)
    requires Run(tables, events) && i <= j <= |events|
    requires k < |tables[i].tasks| && k != tables[i].current && Runnable(tables[i].tasks, k)
    requires Calls(tables, events, i, j) >= 256
    ensures SelectedWithin(tables, events, i, j, k)
  {
    BoundedWaiting(tables, events, i, j, k);
  }

  // ---- wait safety ----

  /** `k` still waits for `p` exactly as in `task`, or `p` has finished for good. */
  ghost predicate WaitingOrDone(t: Table, k: nat, task: Task) {
    && k < |t.tasks| && task.waitPid < |t.tasks|
    && ((t.tasks[task.waitPid].state.Finished? && t.current != task.waitPid)
        || (t.tasks[k] == task && t.current != k))
  }

  lemma WaitStep(t: Table, e: Event, k: nat, task: Task)
    requires Base(t) && CanHappen(t, e)
    requires task.state.Waiting? && WaitingOrDone(t, k, task)
    ensures WaitingOrDone(Next(t, e).table, k, task)
  {
    BaseKept(t, e);
    if t.tasks[task.waitPid].state.Finished? && t.current != task.waitPid {
      FinishedStep(t, e, task.waitPid);
    } else {
      OthersKept(t, e, k);
      if Next(t, e).table.current == k {
        NextIsSwitch(t, e);
        ScannedTable(t, e);
        RunnableMeans(Scanned(t, e).tasks, k);
        hide Next, Scanned, Scan, Runnable;
      }
    }
  }

  /** A task blocked in waitpid keeps waiting, with its context, until the awaited task has finished. */
  lemma {:induction false} WaitIsSafe(tables: seq<Table>, events: seq<Event>, i: nat, j: nat, k: nat)
    requires Run(tables, events) && i <= j <= |events|
    requires k < |tables[i].tasks| && tables[i].tasks[k].state.Waiting? && tables[i].current != k
    ensures WaitingOrDone(tables[j], k, tables[i].tasks[k])
    decreases j
  {
    RunKeepsBase(tables, events, i);
    if i == j {
      assert WaitOk(tables[i], k);
    } else {
      WaitIsSafe(tables, events, i, j - 1, k);
      RunKeepsBase(tables, events, j - 1);
      hide Next, WaitingOrDone, Base;
      WaitStep(tables[j - 1], events[j - 1], k, tables[i].tasks[k]);
    }
  }
}
