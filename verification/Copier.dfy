/**
 * The concurrent directory copier as a step system: one manager, any number of
 * workers, one mutex, two condition variables, an asynchronous `stop` flag and a
 * final barrier.  Each program counter names the place where a thread can be
 * preempted; a step runs up to the next such place.
 */
module Copier {
  import opened FileTree
  import opened RingBuffer

  const CHUNK: nat := 4096

  /** Where a worker is (the loop of `worker_thread`). */
  datatype Worker =
    | AtLock                              // about to lock the mutex
    | AtTest                              // holds it, evaluates the wait condition
    | Asleep                              // in pthread_cond_wait(not_empty)
    | Woken                               // woken, has to lock the mutex again
    | AtCheck                             // holds it, past the wait loop
    | Copying(item: Item, off: nat)       // `off` bytes copied so far
    | Closing(item: Item, total: nat)     // about to close the pair
    | AtTally(total: nat)                 // about to lock the mutex to count the file
    | Tallying(total: nat)                // holds it
    | AtBarrier                           // left the loop
    | InBarrier
    | Finished

  /** Where the manager is; `stack` below holds the open directories. */
  datatype Manager =
    | Entering(path: Path, entries: seq<Entry>)   // calling process_directory
    | Scanning                                    // at the readdir loop
    | Visiting(dir: Path, entry: Entry)           // past the stop test, handles an entry
    | PutLock(item: Item)
    | PutTest(item: Item)                         // holds the mutex
    | PutAsleep(item: Item)                       // in pthread_cond_wait(not_full)
    | PutWoken(item: Item)
    | PutCheck(item: Item)                        // holds the mutex, tests `stop`
    | Putting(item: Item)                         // holds the mutex, past the test
    | DoneLock
    | SettingDone                                 // holds the mutex
    | Joined

  datatype Holder = Nobody | ByManager | ByWorker(i: nat)

  datatype Frame = Frame(dir: Path, todo: seq<Entry>)

  /** The printed statistics and `files_copied`, `total_files`. */
  datatype Stats = Stats(totalFiles: nat, filesCopied: nat, regularFiles: nat, fifoFiles: nat,
                         directories: nat, symlinks: nat, totalBytes: nat)

  /** Where a visit broke off: the bytes that stand in its file, and those of them that were counted. */
  datatype Break = Break(shown: nat, counted: nat)

  /**
   * What happened so far: history only, no step depends on it.  `broken` are the visits whose own creation,
   * reading or writing failed, `missed` the paths passed over because looking at them or opening them failed;
   * `clean` says that no system call has failed at all.
   */
  datatype History = History(visited: seq<Visit>, closed: seq<nat>, put: seq<Item>, taken: seq<Item>, clean: bool,
                             broken: map<nat, Break>, missed: set<Path>)

  datatype State = State(ring: Ring, done: bool, stop: bool, mutex: Holder,
                         manager: Manager, stack: seq<Frame>, workers: seq<Worker>,
                         stats: Stats, fs: FileSystem, history: History)

  /** A system call that fails: before the entry is counted, or afterwards. */
  datatype Fault = NoFault | EarlyFault | LateFault

  datatype Action =
    | Manage(woken: set<nat>, fault: Fault)       // `woken`: the workers a signal unblocks
    | Work(i: nat, n: nat, failed: bool)          // `n`: bytes of this read or write
    | SpuriousWorker(i: nat)
    | SpuriousManager
    | Interrupt                                   // SIGINT: handle_signal

  predicate Spurious(a: Action) { a.SpuriousWorker? || a.SpuriousManager? }

  predicate WorkerHolds(w: Worker) { w.AtTest? || w.AtCheck? || w.Tallying? }

  predicate ManagerHolds(m: Manager) { m.PutTest? || m.PutCheck? || m.Putting? || m.SettingDone? }

  predicate Left(w: Worker) { w.AtBarrier? || w.InBarrier? || w.Finished? }

  function Sleepers(ws: seq<Worker>): set<nat> {
    set i: nat | i < |ws| && ws[i].Asleep?
  }

  function Wake(ws: seq<Worker>, woken: set<nat>): (r: seq<Worker>)
    ensures |r| == |ws|
    ensures forall i :: 0 <= i < |ws| ==> r[i] == if i in woken then Woken else ws[i]
  {
    seq(|ws|, i requires 0 <= i < |ws| => if i in woken then Woken else ws[i])
  }

  /** pthread_cond_signal unblocks at least one of the blocked threads, if there are any. */
  predicate Signalled(ws: seq<Worker>, woken: set<nat>) {
    woken <= Sleepers(ws) && (Sleepers(ws) != {} ==> woken != {})
  }

  function Pop(stack: seq<Frame>): seq<Frame> { if stack == [] then [] else stack[1..] }

  /** `write` at the end of an open destination file. */
  function Append(fs: FileSystem, path: Path, bytes: Bytes): FileSystem {
    if path in fs && fs[path].FileImage? then fs[path := FileImage(fs[path].bytes + bytes)] else fs
  }

  function Miss(s: State, path: Path): State {
    s.(history := s.history.(clean := false, missed := s.history.missed + {path}))
  }

  function Close(s: State, item: Item): State {
    s.(history := s.history.(closed := s.history.closed + [item.id]))
  }

  /** What handling one entry changes. */
  datatype Outcome = Outcome(manager: Manager, stats: Stats, fs: FileSystem, history: History)

  /** Handling of one directory entry up to the mutex. */
  function Handle(s: State, path: Path, name: Name, node: Node, fault: Fault): Outcome {
    var skipped := Outcome(Scanning, s.stats, s.fs, s.history);
    var faulty := s.history.(clean := false, missed := s.history.missed + {path});
    var logged := s.history.(visited := s.history.visited + [Visit(path, node)]);
    var loggedFaulty := logged.(clean := false, broken := s.history.broken[|s.history.visited| := Break(0, 0)]);
    if IsDots(name) then skipped
    else if fault.EarlyFault? then skipped.(history := faulty)
    else
      match node
      case Regular(content) =>
        if fault.LateFault? then skipped.(history := faulty)
        else Outcome(PutLock(Item(|s.history.visited|, path, content)), s.stats, s.fs[path := FileImage([])], logged)
      case Directory(entries) =>
        var stats := s.stats.(directories := s.stats.directories + 1);
        if fault.LateFault? then Outcome(Entering(path, entries), stats, s.fs, loggedFaulty)
        else Outcome(Entering(path, entries), stats, s.fs[path := DirImage], logged)
      case Fifo => Outcome(Scanning, s.stats.(fifoFiles := s.stats.fifoFiles + 1), s.fs, logged)
      case Symlink(target) =>
        var stats := s.stats.(symlinks := s.stats.symlinks + 1);
        if fault.LateFault? then Outcome(Scanning, stats, s.fs, loggedFaulty)
        else Outcome(Scanning, stats, s.fs[path := LinkImage(target)], logged)
      case Special => skipped.(history := logged)
  }

  function VisitEntry(s: State, dir: Path, e: Entry, fault: Fault): State {
    var o := Handle(s, dir + [e.name], e.name, e.node, fault);
    s.(manager := o.manager, stats := o.stats, fs := o.fs, history := o.history)
  }

  predicate ManagerEnabled(s: State, woken: set<nat>) {
    match s.manager
    case PutLock(_) => s.mutex == Nobody
    case PutWoken(_) => s.mutex == Nobody
    case DoneLock => s.mutex == Nobody
    case PutAsleep(_) => false
    case Joined => false
    case Putting(_) => Signalled(s.workers, woken)
    case _ => true
  }

  function ManagerNext(s: State, woken: set<nat>, fault: Fault): State
    requires 1 <= s.ring.cap && s.ring.inn < |s.ring.cells|
  {
    match s.manager
    case Entering(path, entries) =>
      if !fault.NoFault? then Miss(s.(manager := Scanning), path)
      else s.(stack := [Frame(path, entries)] + s.stack, manager := Scanning)
    case Scanning =>
      if s.stack == [] then s.(manager := DoneLock)
      else if s.stack[0].todo == [] || s.stop then s.(stack := s.stack[1..])
      else s.(stack := [Frame(s.stack[0].dir, s.stack[0].todo[1..])] + s.stack[1..],
              manager := Visiting(s.stack[0].dir, s.stack[0].todo[0]))
    case Visiting(dir, e) => VisitEntry(s, dir, e, fault)
    case PutLock(item) => s.(mutex := ByManager, manager := PutTest(item))
    case PutTest(item) =>
      if s.ring.count == s.ring.cap && !s.stop then s.(mutex := Nobody, manager := PutAsleep(item))
      else s.(manager := PutCheck(item))
    case PutWoken(item) => s.(mutex := ByManager, manager := PutTest(item))
    case PutCheck(item) =>
      if s.stop then Close(s.(mutex := Nobody, stack := Pop(s.stack), manager := Scanning), item)
      else s.(manager := Putting(item))
    case Putting(item) =>
      s.(ring := Put(s.ring, item),
         stats := s.stats.(totalFiles := s.stats.totalFiles + 1, regularFiles := s.stats.regularFiles + 1),
         history := s.history.(put := s.history.put + [item]),
         workers := Wake(s.workers, woken), mutex := Nobody, manager := Scanning)
    case DoneLock => s.(mutex := ByManager, manager := SettingDone)
    case SettingDone =>
      s.(done := true, workers := Wake(s.workers, Sleepers(s.workers)), mutex := Nobody, manager := Joined)
    case PutAsleep(_) => s
    case Joined => s
  }

  predicate WorkerEnabled(s: State, i: nat, n: nat, failed: bool) {
    i < |s.workers| &&
    match s.workers[i]
    case AtLock => s.mutex == Nobody
    case Woken => s.mutex == Nobody
    case AtTally(_) => s.mutex == Nobody
    case Asleep => false
    case Finished => false
    case Copying(item, off) =>
      && off + n <= |item.content| && n <= CHUNK
      && (n == 0 ==> failed || off == |item.content|)
    case InBarrier => forall j :: 0 <= j < |s.workers| ==> s.workers[j].InBarrier? || s.workers[j].Finished?
    case _ => true
  }

  function WorkerNext(s: State, i: nat, n: nat, failed: bool): State
    requires i < |s.workers| && 1 <= s.ring.cap && s.ring.out < |s.ring.cells|
    requires s.workers[i].AtCheck? && s.ring.count == 0 ==> s.done || s.stop
    requires s.workers[i].Copying? ==> s.workers[i].off + n <= |s.workers[i].item.content|
  {
    match s.workers[i]
    case AtLock => s.(mutex := ByWorker(i), workers := s.workers[i := AtTest])
    case AtTest =>
      if s.ring.count == 0 && !s.done && !s.stop then s.(mutex := Nobody, workers := s.workers[i := Asleep])
      else s.(workers := s.workers[i := AtCheck])
    case Woken => s.(mutex := ByWorker(i), workers := s.workers[i := AtTest])
    case AtCheck =>
      if s.ring.count == 0 && (s.done || s.stop) then s.(mutex := Nobody, workers := s.workers[i := AtBarrier])
      else
        var item := Front(s.ring);
        s.(ring := Take(s.ring), workers := s.workers[i := Copying(item, 0)],
           history := s.history.(taken := s.history.taken + [item]),
           manager := if s.manager.PutAsleep? then PutWoken(s.manager.item) else s.manager,
           mutex := Nobody)
    case Copying(item, off) =>
      // A failing read or write ends the loop; a short write still reaches the file.
      var next := s.(fs := Append(s.fs, item.path, item.content[off..off + n]));
      if failed then
        next.(workers := s.workers[i := Closing(item, off)],
              history := s.history.(clean := false, broken := s.history.broken[item.id := Break(off + n, off)]))
      else if n == 0 then next.(workers := s.workers[i := Closing(item, off)])
      else next.(workers := s.workers[i := Copying(item, off + n)])
    case Closing(item, total) => Close(s.(workers := s.workers[i := AtTally(total)]), item)
    case AtTally(total) => s.(mutex := ByWorker(i), workers := s.workers[i := Tallying(total)])
    case Tallying(total) =>
      s.(stats := s.stats.(filesCopied := s.stats.filesCopied + 1, totalBytes := s.stats.totalBytes + total),
         mutex := Nobody, workers := s.workers[i := AtLock])
    case AtBarrier => s.(workers := s.workers[i := InBarrier])
    case InBarrier => s.(workers := s.workers[i := Finished])
    case Asleep => s
    case Finished => s
  }

  predicate Enabled(s: State, a: Action) {
    match a
    case Manage(woken, fault) => ManagerEnabled(s, woken)
    case Work(i, n, failed) => WorkerEnabled(s, i, n, failed)
    case SpuriousWorker(i) => i < |s.workers| && s.workers[i].Asleep?
    case SpuriousManager => s.manager.PutAsleep?
    case Interrupt => !s.stop
  }

  /** The C code indexes the ring without checks: these are the accesses it makes. */
  ghost predicate Accesses(s: State, a: Action) {
    && 1 <= s.ring.cap && s.ring.inn < |s.ring.cells| && s.ring.out < |s.ring.cells|
    && (a.Work? && a.i < |s.workers| && s.workers[a.i].AtCheck? && s.ring.count == 0 ==> s.done || s.stop)
  }

  ghost function Next(s: State, a: Action): State
    requires Enabled(s, a) && Accesses(s, a)
  {
    match a
    case Manage(woken, fault) => ManagerNext(s, woken, fault)
    case Work(i, n, failed) => WorkerNext(s, i, n, failed)
    case SpuriousWorker(i) => s.(workers := s.workers[i := Woken])
    case SpuriousManager => s.(manager := PutWoken(s.manager.item))
    case Interrupt => s.(stop := true)
  }

  ghost predicate Step(s: State, a: Action, s': State) {
    Enabled(s, a) && Accesses(s, a) && s' == Next(s, a)
  }

  /** `main` after argument checking: an empty buffer, every thread at its start. */
  ghost predicate Init(s: State, root: seq<Entry>) {
    && UniqueNames(root)
    && 1 <= s.ring.cap <= |s.ring.cells|
    && s.ring.inn == 0 && s.ring.out == 0 && s.ring.count == 0
    && !s.done && !s.stop && s.mutex == Nobody
    && s.manager == Entering([], root) && s.stack == []
    && |s.workers| >= 1 && (forall i :: 0 <= i < |s.workers| ==> s.workers[i] == AtLock)
    && s.stats == Stats(0, 0, 0, 0, 0, 0, 0)
    && s.fs == map[[] := DirImage]
    && s.history == History([], [], [], [], true, map[], {})
  }

  /** Both joins of `main` return: every thread has finished. */
  predicate AllJoined(s: State) {
    s.manager.Joined? && forall i :: 0 <= i < |s.workers| ==> s.workers[i].Finished?
  }

  /** A finite run from the start, with any interleaving, faults, signals and spurious wake-ups. */
  ghost predicate Run(states: seq<State>, actions: seq<Action>, root: seq<Entry>) {
    && |states| == |actions| + 1
    && Init(states[0], root)
    && forall k :: 0 <= k < |actions| ==> Step(states[k], actions[k], states[k + 1])
  }

  ghost predicate Reachable(s: State, root: seq<Entry>) {
    exists states, actions :: Run(states, actions, root) && s == states[|actions|]
  }
}
