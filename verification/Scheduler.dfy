/** The process table of the kernel and its system calls, as functions on values. */
module Scheduler {
  import opened Rings

  const MAX_TASKS: nat := 256
  const NO_PID: nat := 0xFFFF_FFFF        // (uint32_t) -1

  datatype TaskState = Ready | Waiting | Finished

  /** A saved CPU state; `image` stands for the rest of the stack. */
  datatype Context = Context(eax: nat, ebx: nat, ecx: nat, eip: nat, image: int)

  /** `gdt` says whether the task's descriptor table pointer is set. */
  datatype Task = Task(state: TaskState, pid: nat, ppid: nat, waitPid: nat, gdt: bool, context: Context)

  /** `counter` is the static `processCounter`; `current` is -1 before the first Schedule. */
  datatype Table = Table(tasks: seq<Task>, current: int, counter: nat)

  ghost predicate Shaped(t: Table) {
    1 <= |t.tasks| <= MAX_TASKS && -1 <= t.current < |t.tasks|
  }

  /** First slot with this pid, or -1 (`getTaskIndex`). */
  function GetTaskIndex(tasks: seq<Task>, pid: nat): (index: int)
    ensures -1 <= index < |tasks|
    ensures 0 <= index ==> tasks[index].pid == pid && forall i :: 0 <= i < index ==> tasks[i].pid != pid
    ensures index == -1 ==> forall i :: 0 <= i < |tasks| ==> tasks[i].pid != pid
  {
    IndexFrom(tasks, pid, 0)
  }

  function IndexFrom(tasks: seq<Task>, pid: nat, from: nat): (index: int)
    requires from <= |tasks|
    ensures index == -1 || from <= index < |tasks|
    ensures 0 <= index ==> tasks[index].pid == pid && forall i :: from <= i < index ==> tasks[i].pid != pid
    ensures index == -1 ==> forall i :: from <= i < |tasks| ==> tasks[i].pid != pid
    decreases |tasks| - from
  {
    if from == |tasks| then -1
    else if tasks[from].pid == pid then from
    else IndexFrom(tasks, pid, from + 1)
  }

  /** Ready, or waiting for a task that has finished. */
  predicate Runnable(tasks: seq<Task>, k: int)
    requires 0 <= k < |tasks|
  {
    || tasks[k].state.Ready?
    || (tasks[k].state.Waiting? &&
        var child := GetTaskIndex(tasks, tasks[k].waitPid);
        child != -1 && tasks[child].state.Finished?)
  }

  predicate SomeRunnable(tasks: seq<Task>) { exists k :: 0 <= k < |tasks| && Runnable(tasks, k) }

  /** What the scan of `Schedule` does to the slot it selects. */
  function WakeUp(task: Task): Task {
    if task.state.Waiting? then task.(state := Ready, waitPid := 0) else task
  }

  /** The `d`-th slot after `current` on a ring of `n` slots. */
  function After(current: int, d: nat, n: nat): (k: nat)
    requires 1 <= n && -1 <= current < n
    ensures k < n
  {
    (current + 1 + d) % n
  }

  lemma AfterIsNear(current: int, d: nat, n: nat)
    requires 1 <= n && -1 <= current < n && d < n
    ensures After(current, d, n) == if current + 1 + d < n then current + 1 + d else current + 1 + d - n
    ensures (After(current, d, n) + 1) % n == After(current, d + 1, n)
  {
    WrapOnce(current + 1 + d, n);
    WrapOnce(current + 2 + d, n);
    WrapOnce(After(current, d, n) + 1, n);
  }

  /** `c` is the first runnable slot after `current`, going round once. */
  ghost predicate FirstRunnable(tasks: seq<Task>, current: int, c: nat)
    requires 1 <= |tasks| && -1 <= current < |tasks| && c < |tasks|
  {
    && Runnable(tasks, c)
    && exists d: nat :: d < |tasks| && After(current, d, |tasks|) == c
         && forall e: nat :: e < d ==> !Runnable(tasks, After(current, e, |tasks|))
  }

  /** The scan from distance `d` on. */
  function Scan(tasks: seq<Task>, current: int, d: nat): (c: int)
    requires 1 <= |tasks| && -1 <= current < |tasks| && d <= |tasks|
    ensures -1 <= c < |tasks|
    decreases |tasks| - d
  {
    if d == |tasks| then -1
    else if Runnable(tasks, After(current, d, |tasks|)) then After(current, d, |tasks|)
    else Scan(tasks, current, d + 1)
  }

  function Save(t: Table, cpu: Context): Table
    requires t.current < |t.tasks|
  {
    if t.current < 0 then t
    else t.(tasks := t.tasks[t.current := t.tasks[t.current].(context := cpu)])
  }

  /** A table and the context that the interrupt return resumes. */
  datatype Resumed = Resumed(table: Table, cpu: Context)

  /** `Schedule`: save, pick, switch; an empty table or one where nobody can run resumes `cpu`. */
  function Schedule(t: Table, cpu: Context): Resumed
    requires -1 <= t.current < |t.tasks|
  {
    if t.tasks == [] then Resumed(t, cpu) else Switch(t, cpu)
  }

  function Switch(t: Table, cpu: Context): Resumed
    requires 1 <= |t.tasks| && -1 <= t.current < |t.tasks|
  {
    var saved := Save(t, cpu);
    var c := Scan(saved.tasks, t.current, 0);
    if c == -1 then Resumed(saved, cpu)
    else Resumed(saved.(tasks := saved.tasks[c := WakeUp(saved.tasks[c])], current := c), saved.tasks[c].context)
  }

  /** `AddTask`: a ready copy of `task` in the next slot, if there is one; its gdt is what the slot holds. */
  function Add(t: Table, task: Task, gdt: bool): Table {
    if |t.tasks| >= MAX_TASKS then t
    else t.(tasks := t.tasks + [task.(state := Ready, waitPid := NO_PID, gdt := gdt)])
  }

  /** `exitTask` */
  function Exit(t: Table): Table
    requires 0 <= t.current < |t.tasks|
  {
    t.(tasks := t.tasks[t.current := t.tasks[t.current].(state := Finished)])
  }

  /** A table and the value returned in a register. */
  datatype Forked = Forked(table: Table, pid: nat)

  /** `forkTask`: 0 on a full table, -1 without a gdt or an entry point, else the child's pid. */
  function Fork(t: Table, cpu: Context): Forked
    requires 0 <= t.current < |t.tasks|
  {
    var me := t.tasks[t.current];
    if |t.tasks| >= MAX_TASKS then Forked(t, 0)
    else if !me.gdt || cpu.eip == 0 then Forked(t, NO_PID)
    else
      var child := Task(Ready, t.counter, me.pid, NO_PID, me.gdt, cpu.(ecx := 0));
      Forked(t.(tasks := t.tasks + [child], counter := t.counter + 1), child.pid)
  }

  /** `execveTask`: the fresh context of the new program. */
  function FreshContext(pid: nat, entry: nat): Context { Context(0, 0, pid, entry, 0) }

  function Execve(t: Table, entry: nat): Table
    requires 0 <= t.current < |t.tasks|
  {
    var me := t.tasks[t.current];
    t.(tasks := t.tasks[t.current := me.(state := Ready, context := FreshContext(me.pid, entry))])
  }

  /** Whether `waitpidTask` blocks the caller. */
  predicate Blocks(t: Table, pid: nat)
    requires 0 <= t.current < |t.tasks|
  {
    pid != t.tasks[t.current].pid && pid != 0 &&
    var child := GetTaskIndex(t.tasks, pid);
    child != -1 && !t.tasks[child].state.Finished?
  }

  function Wait(t: Table, cpu: Context): Table
    requires 0 <= t.current < |t.tasks|
  {
    t.(tasks := t.tasks[t.current := t.tasks[t.current].(state := Waiting, waitPid := cpu.ebx, context := cpu)])
  }

  /** `SyscallHandler::HandleInterrupt`, on the number in eax. */
  function Syscall(t: Table, cpu: Context): Resumed
    requires 0 <= t.current < |t.tasks|
  {
    match cpu.eax
    case 1 => Schedule(Exit(t), cpu)
    case 7 => if Blocks(t, cpu.ebx) then Schedule(Wait(t, cpu), cpu) else Resumed(t, cpu)
    case 11 => var t' := Execve(t, cpu.ebx); Resumed(t', t'.tasks[t'.current].context)
    case 20 => Resumed(t, cpu.(ecx := t.tasks[t.current].pid))
    case 2 => var f := Fork(t, cpu); Schedule(f.table, cpu.(ecx := f.pid))
    case _ => Resumed(t, cpu)
  }

  /** What interrupts the running code: the timer, or a system call with these registers. */
  datatype Event = Timer(cpu: Context) | Call(cpu: Context)

  predicate CanHappen(t: Table, e: Event) { e.Call? ==> 0 <= t.current }

  /** `DoHandleInterrupt`; the kernel's idle loop, running while current is -1, makes no calls. */
  function Next(t: Table, e: Event): Resumed
    requires -1 <= t.current < |t.tasks| && CanHappen(t, e)
  {
    if e.Timer? then Schedule(t, e.cpu) else Syscall(t, e.cpu)
  }

  /** Events that run the scheduler. */
  predicate Reschedules(t: Table, e: Event)
    requires -1 <= t.current < |t.tasks| && CanHappen(t, e)
  {
    e.Timer? || e.cpu.eax == 1 || e.cpu.eax == 2 || (e.cpu.eax == 7 && Blocks(t, e.cpu.ebx))
  }

  /** The table on which that scheduler call is made. */
  function Before(t: Table, e: Event): Table
    requires -1 <= t.current < |t.tasks| && CanHappen(t, e) && Reschedules(t, e)
  {
    if e.Timer? then t
    else if e.cpu.eax == 1 then Exit(t)
    else if e.cpu.eax == 2 then Fork(t, e.cpu).table
    else Wait(t, e.cpu)
  }

  function CpuBefore(t: Table, e: Event): Context
    requires -1 <= t.current < |t.tasks| && CanHappen(t, e)
  {
    if e.Call? && e.cpu.eax == 2 then e.cpu.(ecx := Fork(t, e.cpu).pid) else e.cpu
  }

  /** How the programs of the kernel behave: slot 0 never exits, and a task waits only for its own children. */
  ghost predicate Disciplined(t: Table, e: Event)
    requires -1 <= t.current < |t.tasks| && CanHappen(t, e)
  {
    e.Call? ==>
      && (e.cpu.eax == 1 ==> t.current != 0)
      && (e.cpu.eax == 7 && Blocks(t, e.cpu.ebx) ==>
            t.tasks[GetTaskIndex(t.tasks, e.cpu.ebx)].ppid == t.tasks[t.current].pid)
  }

  /** One task in slot 0, as after the kernel has added its init task. */
  ghost predicate Init(t: Table) {
    && |t.tasks| == 1 && t.current == -1 && t.counter == 1
    && t.tasks[0].state == Ready && t.tasks[0].pid == 0 && t.tasks[0].ppid == NO_PID
  }

  ghost predicate Run(tables: seq<Table>, events: seq<Event>) {
    && |tables| == |events| + 1
    && Init(tables[0])
    && forall i :: 0 <= i < |events| ==>
         && Shaped(tables[i]) && CanHappen(tables[i], events[i])
         && tables[i + 1] == Next(tables[i], events[i]).table
  }

  ghost predicate DisciplinedRun(tables: seq<Table>, events: seq<Event>) {
    && Run(tables, events)
    && forall i :: 0 <= i < |events| ==> Disciplined(tables[i], events[i])
  }
}
