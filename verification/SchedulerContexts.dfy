/** Which registers run next: a task resumes with those it was interrupted with, and a call returns what it promises. */
module SchedulerContexts {
  import opened Scheduler
  import opened SchedulerRuns
  import opened SchedulerProgress

  /** What the event leaves for the interrupted task to resume with: its registers, for a fork with its result. */
  function Left(t: Table, e: Event): Context
    requires -1 <= t.current < |t.tasks| && CanHappen(t, e)
  {
    if e.Call? && e.cpu.eax == 2 then e.cpu.(ecx := Fork(t, e.cpu).pid) else e.cpu
  }

  /** A call that finds a task resumes the saved context of the task that is then the current one. */
  lemma SelectedResumes(t: Table, e: Event)
    requires Shaped(t) && CanHappen(t, e) && Reschedules(t, e) && Selected(t, e) >= 0
    ensures var r := Next(t, e);
            && 0 <= r.table.current < |r.table.tasks|
            && r.cpu == r.table.tasks[r.table.current].context
            && r.table.tasks[r.table.current].state.Ready? && r.table.current == Selected(t, e)
            && (Scanned(t, e).tasks[r.table.current].state.Waiting? ==> r.table.tasks[r.table.current].waitPid == 0)
  {
    SchedulePicks(Scanned(t, e).tasks, t.current);
    hide Scan;
  }

  /** One that finds none returns into the interrupted task. */
  lemma NoneResumesCaller(t: Table, e: Event)
    requires Shaped(t) && CanHappen(t, e) && Reschedules(t, e) && Selected(t, e) == -1
    ensures Next(t, e).cpu == Left(t, e) && Next(t, e).table.current == t.current
  {
  }

  /** The interrupted task, and a child that a fork makes, keep in the table what they are to resume with. */
  lemma EventSaves(t: Table, e: Event)
    requires Shaped(t) && CanHappen(t, e) && Reschedules(t, e)
    ensures var t' := Next(t, e).table;
            && |t.tasks| <= |t'.tasks|
            && (0 <= t.current ==> t'.tasks[t.current].context == Left(t, e))
            && (|t.tasks| < |t'.tasks| ==> t'.tasks[|t.tasks|].context == e.cpu.(ecx := 0))
  {
    ScannedSaves(t, e);
    NextIsSwitch(t, e);
    hide Next, Scanned, Scan, Left;
  }

  lemma ScannedSaves(t: Table, e: Event)
    requires Shaped(t) && CanHappen(t, e) && Reschedules(t, e)
    ensures var b := Scanned(t, e);
            && |t.tasks| <= |b.tasks|
            && (0 <= t.current ==> b.tasks[t.current].context == Left(t, e))
            && (|t.tasks| < |b.tasks| ==> b.tasks[|t.tasks|].context == e.cpu.(ecx := 0))
  {
  }

  lemma ContextKept(t: Table, e: Event, k: nat)
    requires Shaped(t) && PidInv(t) && CanHappen(t, e) && k < |t.tasks| && k != t.current
    ensures k < |Next(t, e).table.tasks| && Next(t, e).table.tasks[k].context == t.tasks[k].context
  {
    OthersKept(t, e, k);
    hide Next;
  }

  /** What slot `k` is to resume with does not change while others run. */
  lemma {:induction false} ContextStays(tables: seq<Table>, events: seq<Event>, i: nat, j: nat, k: nat)
    requires Run(tables, events) && i <= j <= |events| && k < |tables[i].tasks|
    requires forall m :: i <= m < j ==> tables[m].current != k
    ensures k < |tables[j].tasks| && tables[j].tasks[k].context == tables[i].tasks[k].context
    decreases j
  {
    if i < j {
      ContextStays(tables, events, i, j - 1, k);
      RunKeepsBase(tables, events, j - 1);
      hide Next;
      ContextKept(tables[j - 1], events[j - 1], k);
    }
  }

  /** Slot `k` is not current in the tables from `i` on, and is selected by event `j`. */
  ghost predicate NextSelected(tables: seq<Table>, events: seq<Event>, i: nat, j: nat, k: nat)
    requires Run(tables, events) && i <= j < |events|
  {
    && (forall m :: i <= m <= j ==> tables[m].current != k)
    && Reschedules(tables[j], events[j]) && Selected(tables[j], events[j]) == k
  }

  /** It then runs with the context it had in the table. */
  lemma ResumesSaved(tables: seq<Table>, events: seq<Event>, i: nat, j: nat, k: nat)
    requires Run(tables, events) && i <= j < |events| && k < |tables[i].tasks|
    requires NextSelected(tables, events, i, j, k)
    ensures Next(tables[j], events[j]).cpu == tables[i].tasks[k].context
  {
    ContextStays(tables, events, i, j + 1, k);
    RunKeepsBase(tables, events, j);
    assert tables[j + 1] == Next(tables[j], events[j]).table;
    hide Next, Base;
    SelectedResumes(tables[j], events[j]);
  }

  /**
   * In every run a task that event `i` interrupts, and that event `j` is the next to select, goes on with
   * exactly the registers it was interrupted with, a forking task with the result in ecx.
   */
  lemma ResumesWhereInterrupted(tables: seq<Table>, events: seq<Event>, i: nat, j: nat)
    requires Run(tables, events) && i <= j < |events|
    requires 0 <= tables[i].current && Reschedules(tables[i], events[i])
    requires if i == j then Selected(tables[i], events[i]) == tables[i].current
             else NextSelected(tables, events, i + 1, j, tables[i].current)
    ensures Next(tables[j], events[j]).cpu
            == if events[i].Call? && events[i].cpu.eax == 2
               then events[i].cpu.(ecx := Fork(tables[i], events[i].cpu).pid) else events[i].cpu
  {
    RunKeepsBase(tables, events, i);
    assert tables[i + 1] == Next(tables[i], events[i]).table;
    EventSaves(tables[i], events[i]);
    if i == j {
      SelectedResumes(tables[i], events[i]);
    } else {
      hide Next, NextSelected;
      ResumesSaved(tables, events, i + 1, j, tables[i].current);
    }
  }

  /** The first time a child is selected it starts with the registers its parent forked with, but ecx 0. */
  lemma ChildStartsWithZero(tables: seq<Table>, events: seq<Event>, i: nat, j: nat)
    requires Run(tables, events) && i < j < |events|
    requires events[i].Call? && events[i].cpu.eax == 2 && |tables[i].tasks| < |tables[i + 1].tasks|
    requires NextSelected(tables, events, i + 1, j, |tables[i].tasks|)
    ensures Next(tables[j], events[j]).cpu == events[i].cpu.(ecx := 0)
  {
    RunKeepsBase(tables, events, i);
    assert tables[i + 1] == Next(tables[i], events[i]).table;
    EventSaves(tables[i], events[i]);
    hide Next, NextSelected;
    ResumesSaved(tables, events, i + 1, j, |tables[i].tasks|);
  }

  /** The first timer interrupt starts the task that the kernel has added. */
  lemma FirstTaskStarts(tables: seq<Table>, events: seq<Event>)
    requires Run(tables, events) && events != []
    ensures events[0].Timer? && tables[1].current == 0
    ensures Next(tables[0], events[0]).cpu == tables[0].tasks[0].context
  {
    var t, e := tables[0], events[0];
    SchedulePicks(Scanned(t, e).tasks, -1);
    assert Runnable(Scanned(t, e).tasks, 0);
    assert tables[0 + 1] == Next(t, e).table;
    SelectedResumes(t, e);
    ResumesSaved(tables, events, 0, 0, 0);
  }

  /**
   * The calls that return at once, by their number in eax: getpid answers with the pid in ecx, execve enters the new
   * program with the pid in ecx and the other registers cleared, a wait that does not block and an unknown number
   * change nothing.  No other task is touched.
   */
  lemma CallReturns(tables: seq<Table>, events: seq<Event>, i: nat)
    requires Run(tables, events) && i < |events| && events[i].Call?
    requires !Reschedules(tables[i], events[i])
    ensures 0 <= tables[i].current < |tables[i].tasks|
    ensures var t, cpu, r := tables[i], events[i].cpu, Next(tables[i], events[i]);
            var me := t.tasks[t.current];
            if cpu.eax == 20 then r == Resumed(t, cpu.(ecx := t.current))
            else if cpu.eax == 11 then
              var started := Context(0, 0, t.current, cpu.ebx, 0);
              r == Resumed(t.(tasks := t.tasks[t.current := me.(state := Ready, context := started)]), started)
            else r == Resumed(t, cpu)
  {
    RunKeepsBase(tables, events, i);
  }

  /** The numbers of the calls, and when a wait blocks. */
  lemma CallNumbers(tables: seq<Table>, events: seq<Event>, i: nat)
    requires Run(tables, events) && i < |events| && events[i].Call?
    ensures 0 <= tables[i].current < |tables[i].tasks|
    ensures var t, cpu := tables[i], events[i].cpu;
            Reschedules(t, events[i]) <==>
              || cpu.eax == 1 || cpu.eax == 2
              || (cpu.eax == 7 && 0 < cpu.ebx < |t.tasks| && cpu.ebx != t.current
                  && !t.tasks[cpu.ebx].state.Finished?)
  {
    RunKeepsBase(tables, events, i);
    BlocksMeans(tables[i], events[i].cpu.ebx);
  }
}
