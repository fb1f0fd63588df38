/** The task manager in its imperative form, proved against the functions of Scheduler. */
module TaskManagement {
  import opened Scheduler
  import SchedulerRuns

  class TaskBlock {
    var taskState: TaskState
    var pid: nat
    var ppid: nat
    var waitPid: nat
    var gdt: bool
    var cpustate: Context

    constructor (pid: nat, gdt: bool, cpu: Context)
      ensures View() == Task(Ready, pid, NO_PID, NO_PID, gdt, cpu)
    {
      this.pid := pid;
      this.gdt := gdt;
      ppid := NO_PID;
      cpustate := cpu;
      taskState := Ready;
      waitPid := NO_PID;
    }

    function View(): Task
      reads this
    {
      Task(taskState, pid, ppid, waitPid, gdt, cpustate)
    }
  }

  class TaskManager {
    var tasks: array<TaskBlock?>
    var numTasks: nat
    var currentTask: int
    var processCounter: nat
    ghost var Blocks: set<TaskBlock>

    ghost predicate Valid()
      reads this, tasks
    {
      && tasks.Length == MAX_TASKS && numTasks <= MAX_TASKS && -1 <= currentTask < numTasks
      && (forall i :: 0 <= i < numTasks ==> tasks[i] != null && tasks[i] in Blocks)
      && (forall i, j :: 0 <= i < j < numTasks ==> tasks[i] != tasks[j])
    }

    ghost function Rows(): (rows: seq<Task>)
      reads this, tasks, Blocks
      requires Valid()
      ensures |rows| == numTasks && forall i :: 0 <= i < numTasks ==> rows[i] == tasks[i].View()
    {
      seq(numTasks, i requires 0 <= i < numTasks reads this, tasks, Blocks requires Valid() => tasks[i].View())
    }

    ghost function View(): Table
      reads this, tasks, Blocks
      requires Valid()
    {
      Table(Rows(), currentTask, processCounter)
    }

    constructor ()
      ensures Valid() && fresh(tasks) && Blocks == {}
      ensures View() == Table([], -1, 0)
    {
      tasks := new TaskBlock?[MAX_TASKS](i => null);
      numTasks := 0;
      currentTask := -1;
      processCounter := 0;
      Blocks := {};
    }

    /** `Task::Task`: an object outside the table, with the next pid and cleared registers. */
    method NewTask(gdt: bool, entry: nat) returns (task: TaskBlock)
      requires Valid()
      modifies this`processCounter
      ensures Valid() && View() == old(View()).(counter := old(processCounter) + 1)
      ensures fresh(task)
      ensures task.View() == Task(Ready, old(processCounter), NO_PID, NO_PID, gdt, Context(0, 0, 0, entry, 0))
    {
      task := new TaskBlock(processCounter, gdt, Context(0, 0, 0, entry, 0));
      processCounter := processCounter + 1;
    }

    /** The slot that `AddTask` fills is taken to be allocated; it keeps its own gdt, set or not. */
    method AddTask(task: TaskBlock, slotGdt: bool) returns (added: bool)
      requires Valid()
      modifies this, tasks
      ensures Valid() && tasks == old(tasks) && fresh(Blocks - old(Blocks))
      ensures added == (old(numTasks) < MAX_TASKS) && View() == Add(old(View()), old(task.View()), slotGdt)
    {
      if numTasks >= MAX_TASKS { return false; }
      var slot := new TaskBlock(task.pid, slotGdt, task.cpustate);
      slot.ppid := task.ppid;
      Append(slot);
      return true;
    }

    /** What the kernel does before it activates the interrupts. */
    static method Boot(init: nat, slotGdt: bool) returns (manager: TaskManager)
      ensures fresh(manager) && fresh(manager.tasks) && fresh(manager.Blocks)
      ensures manager.Valid() && Scheduler.Init(manager.View()) && manager.View().tasks[0].gdt == slotGdt
      ensures manager.View().tasks[0].context == Context(0, 0, 0, init, 0)
    {
      manager := new TaskManager();
      var task := manager.NewTask(true, init);
      var added := manager.AddTask(task, slotGdt);
    }

    method GetTaskIndex(pid: nat) returns (index: int)
      requires Valid()
      ensures index == Scheduler.GetTaskIndex(Rows(), pid)
    {
      var i := 0;
      while i < numTasks
        invariant 0 <= i <= numTasks
        invariant Scheduler.GetTaskIndex(Rows(), pid) == IndexFrom(Rows(), pid, i)
      {
        if tasks[i].pid == pid { return i; }
        i := i + 1;
      }
      return -1;
    }

    method ExitTask()
      requires Valid() && 0 <= currentTask
      modifies tasks[currentTask]
      ensures Valid() && View() == Exit(old(View()))
    {
      tasks[currentTask].taskState := Finished;
    }

    /** Put a new task into the first free slot. */
    method Append(child: TaskBlock)
      requires Valid() && numTasks < MAX_TASKS && child !in Blocks
      modifies this, tasks
      ensures Valid() && tasks == old(tasks) && Blocks == old(Blocks) + {child}
      ensures currentTask == old(currentTask) && processCounter == old(processCounter)
      ensures Rows() == old(Rows()) + [child.View()]
    {
      tasks[numTasks] := child;
      Blocks := Blocks + {child};
      numTasks := numTasks + 1;
    }

    method ForkTask(cpu: Context) returns (pid: nat)
      requires Valid() && 0 <= currentTask
      modifies this, tasks
      ensures Valid() && tasks == old(tasks) && fresh(Blocks - old(Blocks))
      ensures Forked(View(), pid) == Fork(old(View()), cpu)
    {
      if numTasks >= MAX_TASKS { return 0; }
      var me := tasks[currentTask];
      if !me.gdt || cpu.eip == 0 { return NO_PID; }
      var child := new TaskBlock(processCounter, me.gdt, cpu.(ecx := 0));
      child.ppid := me.pid;
      processCounter := processCounter + 1;
      ghost var row := child.View();
      Append(child);
      pid := child.pid;
      assert Rows() == old(Rows()) + [row];
    }

    method ExecveTask(entry: nat) returns (cpu: Context)
      requires Valid() && 0 <= currentTask
      modifies tasks[currentTask]
      ensures Valid() && View() == Execve(old(View()), entry)
      ensures cpu == View().tasks[currentTask].context
    {
      var me := tasks[currentTask];
      me.taskState := Ready;
      me.cpustate := Context(0, 0, me.pid, entry, 0);
      cpu := me.cpustate;
    }

    method WaitpidTask(cpu: Context) returns (blocked: bool)
      requires Valid() && 0 <= currentTask
      modifies tasks[currentTask]
      ensures Valid() && blocked == Scheduler.Blocks(old(View()), cpu.ebx)
      ensures View() == if blocked then Wait(old(View()), cpu) else old(View())
    {
      var pid := cpu.ebx;
      if pid == tasks[currentTask].pid || pid == 0 { return false; }
      var childIndex := GetTaskIndex(pid);
      if childIndex == -1 { return false; }
      if tasks[childIndex].taskState == Finished { return false; }
      var me := tasks[currentTask];
      me.taskState := Waiting;
      me.waitPid := pid;
      me.cpustate := cpu;
      return true;
    }

    /** One turn of the scan: wake slot `next` if what it awaits has finished, and say whether it is ready. */
    method TryTask(next: nat) returns (ready: bool)
      requires Valid() && next < numTasks
      modifies tasks[next]
      ensures Valid() && ready == old(Runnable(Rows(), next))
      ensures Rows() == if ready then old(Rows())[next := WakeUp(old(Rows())[next])] else old(Rows())
    {
      var task := tasks[next];
      if task.taskState == Waiting {
        var childIndex := GetTaskIndex(task.waitPid);
        if childIndex != -1 && tasks[childIndex].taskState == Finished {
          task.taskState := Ready;
          task.waitPid := 0;
        }
      }
      ready := task.taskState == Ready;
    }

    method SaveState(cpu: Context)
      requires Valid() && 0 <= currentTask
      modifies tasks[currentTask]
      ensures Valid() && View() == Save(old(View()), cpu)
    {
      tasks[currentTask].cpustate := cpu;
    }

    /** The round-robin loop; -1 if nobody can run. */
    method FindNext() returns (next: int)
      requires Valid() && numTasks > 0
      modifies Blocks
      ensures Valid() && next == old(Scan(Rows(), currentTask, 0))
      ensures Rows() == if next == -1 then old(Rows()) else old(Rows())[next := WakeUp(old(Rows())[next])]
    {
      ghost var rows := Rows();
      var nextTask := (currentTask + 1) % numTasks;
      var i := 0;
      while i < numTasks
        invariant 0 <= i <= numTasks
        invariant Valid() && Rows() == rows && nextTask == After(currentTask, i, numTasks)
        invariant Scan(rows, currentTask, 0) == Scan(rows, currentTask, i)
      {
        var ready := TryTask(nextTask);
        if ready { return nextTask; }
        AfterIsNear(currentTask, i, numTasks);
        nextTask := (nextTask + 1) % numTasks;
        i := i + 1;
      }
      return -1;
    }

    method Schedule(cpu: Context) returns (next: Context)
      requires Valid()
      modifies this, Blocks
      ensures Valid() && tasks == old(tasks) && Blocks == old(Blocks)
      ensures Resumed(View(), next) == Scheduler.Schedule(old(View()), cpu)
    {
      hide Scan, Runnable;
      if numTasks <= 0 { return cpu; }
      if currentTask >= 0 { SaveState(cpu); }
      var nextTask := FindNext();
      if nextTask == -1 { return cpu; }
      currentTask := nextTask;
      return tasks[nextTask].cpustate;
    }

    /** `SyscallHandler::HandleInterrupt` */
    method HandleSyscall(cpu: Context) returns (next: Context)
      requires Valid() && 0 <= currentTask
      modifies this, tasks, Blocks
      ensures Valid() && tasks == old(tasks) && fresh(Blocks - old(Blocks))
      ensures Resumed(View(), next) == Syscall(old(View()), cpu)
    {
      if cpu.eax == 1 {
        ExitTask();
        next := Schedule(cpu);
      } else if cpu.eax == 7 {
        var blocked := WaitpidTask(cpu);
        next := cpu;
        if blocked { next := Schedule(cpu); }
      } else if cpu.eax == 11 {
        next := ExecveTask(cpu.ebx);
      } else if cpu.eax == 20 {
        next := cpu.(ecx := tasks[currentTask].pid);
      } else if cpu.eax == 2 {
        var pid := ForkTask(cpu);
        next := Schedule(cpu.(ecx := pid));
      } else {
        next := cpu;
      }
    }

    /** `DoHandleInterrupt`: the timer reschedules, interrupt 0x80 is a system call. */
    method HandleInterrupt(e: Event) returns (next: Context)
      requires Valid() && (e.Call? ==> 0 <= currentTask)
      modifies this, tasks, Blocks
      ensures Valid() && tasks == old(tasks) && fresh(Blocks - old(Blocks))
      ensures Resumed(View(), next) == Next(old(View()), e)
    {
      if e.Timer? {
        next := Schedule(e.cpu);
      } else {
        next := HandleSyscall(e.cpu);
      }
    }

    /**
     * Interrupts one after the other, from the timer's first on, make a run: what holds of runs holds of the class.
     * `resumed` are the contexts that the interrupt returns enter, one after the other.
     */
    method HandleAll(events: seq<Event>)
      returns (resumed: seq<Context>, ghost tables: seq<Table>, ghost happened: seq<Event>)
      requires Valid() && Scheduler.Init(View())
      modifies this, tasks, Blocks
      ensures Valid() && Run(tables, happened) && View() == tables[|happened|]
      ensures tables[0] == old(View()) && Resumes(tables, happened, resumed)
      ensures events != [] && events[0].Timer? ==> happened == events
    {
      hide Next;
      tables, happened, resumed := [View()], [], [];
      var i := 0;
      while i < |events|
        invariant 0 <= i <= |events|
        invariant Valid() && tasks == old(tasks) && fresh(Blocks - old(Blocks))
        invariant Run(tables, happened) && tables[0] == old(View()) && View() == tables[|happened|]
        invariant Resumes(tables, happened, resumed)
        invariant events != [] && events[0].Timer? ==> happened == events[..i] && (i > 0 ==> 0 <= currentTask)
      {
        var e := events[i];
        if e.Timer? || 0 <= currentTask {
          ghost var before, earlier := tables, happened;
          SchedulerRuns.RunKeepsBase(before, earlier, |earlier|);
          SchedulerRuns.SomebodyRuns(View(), e);
          var next := HandleInterrupt(e);
          tables, happened := before + [View()], earlier + [e];
          RunGrows(before, earlier, e, View());
          ResumesGrows(before, earlier, resumed, e, View(), next);
          resumed := resumed + [next];
        }
        assert events[..i + 1] == events[..i] + [e];
        i := i + 1;
      }
    }
  }

  /** What is resumed after each event of a run. */
  ghost predicate Resumes(tables: seq<Table>, events: seq<Event>, resumed: seq<Context>)
    requires Run(tables, events)
  {
    |resumed| == |events| && forall i :: 0 <= i < |events| ==> resumed[i] == Next(tables[i], events[i]).cpu
  }

  lemma ResumesGrows(tables: seq<Table>, events: seq<Event>, resumed: seq<Context>, e: Event, next: Table, cpu: Context)
    requires Run(tables, events) && Run(tables + [next], events + [e]) && Resumes(tables, events, resumed)
    requires Shaped(tables[|events|]) && CanHappen(tables[|events|], e) && cpu == Next(tables[|events|], e).cpu
    ensures Resumes(tables + [next], events + [e], resumed + [cpu])
  {
    hide Next, Init;
    var tables', events', resumed' := tables + [next], events + [e], resumed + [cpu];
    forall i | 0 <= i < |events'| ensures resumed'[i] == Next(tables'[i], events'[i]).cpu {
      if i < |events| { assert resumed[i] == Next(tables[i], events[i]).cpu; }
    }
  }

  lemma RunGrows(tables: seq<Table>, events: seq<Event>, e: Event, next: Table)
    requires Run(tables, events)
    requires Shaped(tables[|events|]) && CanHappen(tables[|events|], e)
    requires next == Next(tables[|events|], e).table
    ensures Run(tables + [next], events + [e])
  {
    hide Next, Init;
    var tables', events' := tables + [next], events + [e];
    forall i | 0 <= i < |events'|
      ensures Shaped(tables'[i]) && CanHappen(tables'[i], events'[i])
      ensures tables'[i + 1] == Next(tables'[i], events'[i]).table
    {
      if i < |events| { assert tables[i + 1] == Next(tables[i], events[i]).table; }
    }
  }
}
