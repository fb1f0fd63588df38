/** The copier over its shared variables, and the whole program under any schedule. */
module CopierThreads {
  import opened FileTree
  import opened RingBuffer
  import opened Copier
  import opened CopierSync
  import opened CopierTermination
  import opened CopierFiles
  import opened CopierEndToEnd
  import opened CopierTotal
  import opened CopierBounds

  lemma WorkerIsSafe(s: State, i: nat, n: nat, failed: bool)
    requires SyncInv(s) && WorkerEnabled(s, i, n, failed)
    ensures Accesses(s, Work(i, n, failed)) && SyncInv(WorkerNext(s, i, n, failed))
    ensures s.workers[i].AtCheck? && !(s.ring.count == 0 && (s.done || s.stop)) ==> s.ring.count > 0
    ensures WellFormed(s.ring)
  {
    StepsAreInBounds(s, Work(i, n, failed));
    StepKeepsSync(s, Work(i, n, failed), WorkerNext(s, i, n, failed));
  }

  lemma ManagerIsSafe(s: State, woken: set<nat>, fault: Fault)
    requires SyncInv(s) && ManagerEnabled(s, woken)
    ensures Accesses(s, Manage(woken, fault)) && SyncInv(ManagerNext(s, woken, fault))
    ensures WellFormed(s.ring) && (s.manager.Putting? ==> s.ring.count < s.ring.cap)
  {
    StepsAreInBounds(s, Manage(woken, fault));
    StepKeepsSync(s, Manage(woken, fault), ManagerNext(s, woken, fault));
  }

  /** The steps that change the ring, read off the step function. */
  lemma TakeStep(s: State, i: nat)
    requires Accesses(s, Work(i, 0, false)) && i < |s.workers| && s.workers[i].AtCheck?
    ensures WorkerNext(s, i, 0, false) ==
      if s.ring.count == 0 && (s.done || s.stop) then s.(mutex := Nobody, workers := s.workers[i := AtBarrier])
      else State(Take(s.ring), s.done, s.stop, Nobody,
                 if s.manager.PutAsleep? then PutWoken(s.manager.item) else s.manager, s.stack,
                 s.workers[i := Copying(Front(s.ring), 0)], s.stats, s.fs,
                 s.history.(taken := s.history.taken + [Front(s.ring)]))
  {
  }

  lemma PutStep(s: State, woken: set<nat>)
    requires Accesses(s, Manage(woken, NoFault)) && s.manager.Putting?
    ensures ManagerNext(s, woken, NoFault) ==
      State(Put(s.ring, s.manager.item), s.done, s.stop, Nobody, Scanning, s.stack, Wake(s.workers, woken),
            s.stats.(totalFiles := s.stats.totalFiles + 1, regularFiles := s.stats.regularFiles + 1), s.fs,
            s.history.(put := s.history.put + [s.manager.item]))
  {
  }

  lemma VisitStep(s: State, fault: Fault)
    requires Accesses(s, Manage({}, fault)) && s.manager.Visiting?
    ensures ManagerNext(s, {}, fault) == VisitEntry(s, s.manager.dir, s.manager.entry, fault)
  {
  }

  /** Chunk sizes and failures matter to a worker that copies, and to no other. */
  lemma OnlyCopiesChoose(s: State, i: nat, n: nat, failed: bool)
    requires WorkerEnabled(s, i, n, failed) && Accesses(s, Work(i, n, failed))
    ensures !s.workers[i].Copying? ==> WorkerNext(s, i, n, failed) == WorkerNext(s, i, 0, false)
  {
  }

  /** So do the signalled workers to a put, and failures to what is opened and created. */
  lemma OnlySomeChoose(s: State, woken: set<nat>, fault: Fault)
    requires ManagerEnabled(s, woken) && Accesses(s, Manage(woken, fault))
    ensures ManagerNext(s, woken, fault)
            == ManagerNext(s, if s.manager.Putting? then woken else {},
                           if s.manager.Entering? || s.manager.Visiting? then fault else NoFault)
  {
    hide Handle, Put, Wake;
  }

  class FileCopier {
    // buffer_t and the command line
    const fileBuffer: Buffer
    var done: bool
    var stop: bool
    var mutex: Holder
    // the counters
    var stats: Stats
    // where the threads are, the call stack of process_directory, and the destination
    const workers: array<Worker>
    var manager: Manager
    var stack: seq<Frame>
    var fs: FileSystem
    var history: History

    function View(): State
      reads this, fileBuffer, fileBuffer.cells, workers
    {
      State(fileBuffer.View(), done, stop, mutex,
            manager, stack, workers[..], stats, fs, history)
    }

    ghost predicate Valid()
      reads this, fileBuffer, fileBuffer.cells, workers
    {
      SyncInv(View()) && fileBuffer.cells.Length == MAX_BUFFER_SIZE
    }

    /** `main` up to the creation of the threads. */
    constructor (bufferSize: nat, numWorkers: nat, root: seq<Entry>)
      requires 1 <= bufferSize && numWorkers >= 1 && UniqueNames(root)
      ensures Init(View(), root) && Valid() && fileBuffer.size == bufferSize
      ensures fresh(fileBuffer) && fresh(fileBuffer.cells) && fresh(workers) && workers.Length == numWorkers
    {
      fileBuffer := new Buffer(bufferSize);
      done, stop, mutex := false, false, Nobody;
      stats := Stats(0, 0, 0, 0, 0, 0, 0);
      workers := new Worker[numWorkers](_ => AtLock);
      manager, stack, fs := Entering([], root), [], map[[] := DirImage];
      history := History([], [], [], [], true, map[], {});
      new;
      SyncInit(View(), root);
    }

    /** `handle_signal`, at any moment. */
    method HandleSignal()
      requires Valid()
      modifies this`stop
      ensures Valid() && stop && View() == old(View()).(stop := true)
    {
      if !stop {
        StepKeepsSync(View(), Interrupt, View().(stop := true));
      }
      hide SyncInv;
      stop := true;
    }

    // ----- worker_thread ----------------------------------------------------

    /** pthread_mutex_lock: at the head of the loop, on the way out of pthread_cond_wait, and to count a file. */
    method WorkerLocks(i: nat)
      requires Valid() && i < workers.Length && mutex == Nobody
      requires workers[i].AtLock? || workers[i].Woken? || workers[i].AtTally?
      modifies this`mutex, workers
      ensures Valid() && View() == WorkerNext(old(View()), i, 0, false)
    {
      hide SyncInv;
      WorkerIsSafe(View(), i, 0, false);
      mutex := ByWorker(i);
      workers[i] := if workers[i].AtTally? then Tallying(workers[i].total) else AtTest;
    }

    /** A spurious wake-up. */
    method WorkerWakes(i: nat)
      requires Valid() && i < workers.Length && workers[i].Asleep?
      modifies workers
      ensures Valid() && View() == old(View()).(workers := old(workers[..])[i := Woken])
    {
      StepKeepsSync(View(), SpuriousWorker(i), View().(workers := workers[..][i := Woken]));
      hide SyncInv;
      workers[i] := Woken;
    }

    /** The condition of the wait loop; waiting releases the mutex. */
    method WorkerTests(i: nat)
      requires Valid() && i < workers.Length && workers[i].AtTest?
      modifies this`mutex, workers
      ensures Valid() && View() == WorkerNext(old(View()), i, 0, false)
    {
      hide SyncInv;
      WorkerIsSafe(View(), i, 0, false);
      if fileBuffer.count == 0 && !done && !stop {
        mutex := Nobody;
        workers[i] := Asleep;
      } else {
        workers[i] := AtCheck;
      }
    }

    /** Leave the loop, or take the oldest pair and signal not_full. */
    method WorkerTakes(i: nat)
      requires Valid() && i < workers.Length && workers[i].AtCheck? && InArray(View(), Work(i, 0, false))
      modifies fileBuffer, this`mutex, this`manager, this`history, workers
      ensures Valid() && View() == WorkerNext(old(View()), i, 0, false)
    {
      hide SyncInv;
      ghost var before := View();
      WorkerIsSafe(before, i, 0, false);
      TakeStep(before, i);
      hide WorkerNext, WellFormed, Contents;
      if fileBuffer.count == 0 && (done || stop) {
        mutex := Nobody;
        workers[i] := AtBarrier;
      } else {
        var fileInfo := fileBuffer.TakeItem();
        history := history.(taken := history.taken + [fileInfo]);
        if manager.PutAsleep? {
          manager := PutWoken(manager.item);
        }
        mutex := Nobody;
        workers[i] := Copying(fileInfo, 0);
      }
      assert View() == WorkerNext(before, i, 0, false);
    }

    /** One read and write of the copy loop. */
    method WorkerCopies(i: nat, n: nat, failed: bool)
      requires Valid() && WorkerEnabled(View(), i, n, failed) && workers[i].Copying?
      modifies this`fs, this`history, workers
      ensures Valid() && View() == WorkerNext(old(View()), i, n, failed)
    {
      hide SyncInv;
      WorkerIsSafe(View(), i, n, failed);
      var item, off := workers[i].item, workers[i].off;
      fs := Append(fs, item.path, item.content[off..off + n]);
      if failed {
        history := history.(clean := false, broken := history.broken[item.id := Break(off + n, off)]);
        workers[i] := Closing(item, off);
      } else if n == 0 {
        workers[i] := Closing(item, off);
      } else {
        workers[i] := Copying(item, off + n);
      }
    }

    method WorkerCloses(i: nat)
      requires Valid() && i < workers.Length && workers[i].Closing?
      modifies this`history, workers
      ensures Valid() && View() == WorkerNext(old(View()), i, 0, false)
    {
      hide SyncInv;
      WorkerIsSafe(View(), i, 0, false);
      history := history.(closed := history.closed + [workers[i].item.id]);
      workers[i] := AtTally(workers[i].total);
    }

    /** Holding the mutex: count the file and its bytes, unlock. */
    method WorkerTallies(i: nat)
      requires Valid() && i < workers.Length && workers[i].Tallying?
      modifies this`mutex, this`stats, workers
      ensures Valid() && View() == WorkerNext(old(View()), i, 0, false)
    {
      hide SyncInv;
      WorkerIsSafe(View(), i, 0, false);
      var total := workers[i].total;
      stats := stats.(filesCopied := stats.filesCopied + 1, totalBytes := stats.totalBytes + total);
      mutex := Nobody;
      workers[i] := AtLock;
    }

    method WorkerArrives(i: nat)
      requires Valid() && i < workers.Length && workers[i].AtBarrier?
      modifies workers
      ensures Valid() && View() == WorkerNext(old(View()), i, 0, false)
    {
      hide SyncInv;
      WorkerIsSafe(View(), i, 0, false);
      workers[i] := InBarrier;
    }

    /** pthread_barrier_wait returns: every worker has arrived. */
    method WorkerPassesBarrier(i: nat)
      requires Valid() && i < workers.Length && workers[i].InBarrier?
      requires forall j :: 0 <= j < workers.Length ==> workers[j].InBarrier? || workers[j].Finished?
      modifies workers
      ensures Valid() && View() == WorkerNext(old(View()), i, 0, false)
    {
      hide SyncInv;
      WorkerIsSafe(View(), i, 0, false);
      workers[i] := Finished;
    }

    // ----- process_directory and manager_thread -----------------------------

    method OpenDirectory(fault: Fault)
      requires Valid() && manager.Entering?
      modifies this`manager, this`stack, this`history
      ensures Valid() && View() == ManagerNext(old(View()), {}, fault)
    {
      hide SyncInv;
      ManagerIsSafe(View(), {}, fault);
      if fault != NoFault {
        history := history.(clean := false, missed := history.missed + {manager.path});
      } else {
        stack := [Frame(manager.path, manager.entries)] + stack;
      }
      manager := Scanning;
    }

    /** The head of the readdir loop, and the return from a directory. */
    method ReadEntry()
      requires Valid() && manager.Scanning?
      modifies this`manager, this`stack
      ensures Valid() && View() == ManagerNext(old(View()), {}, NoFault)
    {
      hide SyncInv;
      ManagerIsSafe(View(), {}, NoFault);
      if stack == [] {
        manager := DoneLock;
      } else if stack[0].todo == [] || stop {
        stack := stack[1..];
      } else {
        manager := Visiting(stack[0].dir, stack[0].todo[0]);
        stack := [Frame(stack[0].dir, stack[0].todo[1..])] + stack[1..];
      }
    }

    /** The kinds of entry: what is created, what is counted and what the manager does next. */
    method Classify(path: Path, name: Name, node: Node, fault: Fault) returns (o: Outcome)
      ensures o == Handle(View(), path, name, node, fault)
    {
      var next, counted, files, told := Scanning, stats, fs, history;
      var skip := IsDots(name) || fault.EarlyFault? || (fault.LateFault? && node.Regular?);
      if !skip {
        told := told.(visited := told.visited + [Visit(path, node)]);
        var lost := told.(clean := false, broken := history.broken[|history.visited| := Break(0, 0)]);
        match node {
          case Regular(content) =>
            files := fs[path := FileImage([])];
            next := PutLock(Item(|history.visited|, path, content));
          case Directory(entries) =>
            if fault.NoFault? { files := fs[path := DirImage]; } else { told := lost; }
            counted := stats.(directories := stats.directories + 1);
            next := Entering(path, entries);
          case Fifo =>
            counted := stats.(fifoFiles := stats.fifoFiles + 1);
          case Symlink(target) =>
            if fault.NoFault? { files := fs[path := LinkImage(target)]; } else { told := lost; }
            counted := stats.(symlinks := stats.symlinks + 1);
          case Special =>
        }
      } else if !IsDots(name) {
        told := told.(clean := false, missed := told.missed + {path});
      }
      o := Outcome(next, counted, files, told);
    }

    /** The body of the loop up to the mutex. */
    method HandleEntry(fault: Fault)
      requires Valid() && manager.Visiting?
      modifies this`manager, this`fs, this`history, this`stats
      ensures Valid() && View() == ManagerNext(old(View()), {}, fault)
    {
      hide SyncInv;
      ghost var before := View();
      ManagerIsSafe(before, {}, fault);
      VisitStep(before, fault);
      hide ManagerNext, Handle;
      var name, node := manager.entry.name, manager.entry.node;
      var o := Classify(manager.dir + [name], name, node, fault);
      manager, stats, fs, history := o.manager, o.stats, o.fs, o.history;
      assert View() == ManagerNext(before, {}, fault);
    }

    /** pthread_mutex_lock: before a put, on the way out of pthread_cond_wait, and at the end. */
    method ManagerLocks()
      requires Valid() && mutex == Nobody && (manager.PutLock? || manager.PutWoken? || manager.DoneLock?)
      modifies this`mutex, this`manager
      ensures Valid() && View() == ManagerNext(old(View()), {}, NoFault)
    {
      hide SyncInv;
      ManagerIsSafe(View(), {}, NoFault);
      mutex := ByManager;
      manager := if manager.DoneLock? then SettingDone else PutTest(manager.item);
    }

    /** A spurious wake-up. */
    method ManagerWakes()
      requires Valid() && manager.PutAsleep?
      modifies this`manager
      ensures Valid() && View() == old(View()).(manager := PutWoken(old(manager.item)))
    {
      StepKeepsSync(View(), SpuriousManager, View().(manager := PutWoken(manager.item)));
      hide SyncInv;
      manager := PutWoken(manager.item);
    }

    method ManagerTests()
      requires Valid() && manager.PutTest?
      modifies this`mutex, this`manager
      ensures Valid() && View() == ManagerNext(old(View()), {}, NoFault)
    {
      hide SyncInv;
      ManagerIsSafe(View(), {}, NoFault);
      if fileBuffer.count == fileBuffer.size && !stop {
        mutex := Nobody;
        manager := PutAsleep(manager.item);
      } else {
        manager := PutCheck(manager.item);
      }
    }

    /** The stop test inside the critical section: close the pair and leave the directory. */
    method ManagerChecksStop()
      requires Valid() && manager.PutCheck?
      modifies this`mutex, this`manager, this`stack, this`history
      ensures Valid() && View() == ManagerNext(old(View()), {}, NoFault)
    {
      hide SyncInv;
      ManagerIsSafe(View(), {}, NoFault);
      if stop {
        history := history.(closed := history.closed + [manager.item.id]);
        mutex := Nobody;
        stack := if stack == [] then [] else stack[1..];
        manager := Scanning;
      } else {
        manager := Putting(manager.item);
      }
    }

    /** Condition variables: the blocked threads that a signal or broadcast releases. */
    method Unblock(woken: set<nat>)
      modifies workers
      ensures workers[..] == Wake(old(workers[..]), woken)
    {
      var i := 0;
      while i < workers.Length
        invariant 0 <= i <= workers.Length
        invariant forall j :: 0 <= j < i ==> workers[j] == if j in woken then Woken else old(workers[j])
        invariant forall j :: i <= j < workers.Length ==> workers[j] == old(workers[j])
      {
        if i in woken { workers[i] := Woken; }
        i := i + 1;
      }
    }

    /** Put the pair, count it, signal not_empty. */
    method ManagerPuts(woken: set<nat>)
      requires Valid() && manager.Putting? && Signalled(workers[..], woken) && InArray(View(), Manage(woken, NoFault))
      modifies fileBuffer, fileBuffer.cells, this`mutex, this`manager, this`history, this`stats, workers
      ensures Valid() && View() == ManagerNext(old(View()), woken, NoFault)
    {
      hide SyncInv;
      ghost var before := View();
      ManagerIsSafe(before, woken, NoFault);
      PutStep(before, woken);
      hide ManagerNext, WellFormed, Signalled, Sleepers, Contents;
      fileBuffer.PutItem(manager.item);
      stats := stats.(totalFiles := stats.totalFiles + 1, regularFiles := stats.regularFiles + 1);
      history := history.(put := history.put + [manager.item]);
      Unblock(woken);
      mutex := Nobody;
      manager := Scanning;
      assert View() == ManagerNext(before, woken, NoFault);
    }

    /** The end of `manager_thread`, holding the mutex: set `done`, broadcast, unlock. */
    method ManagerFinishes()
      requires Valid() && manager.SettingDone?
      modifies this`done, this`mutex, this`manager, workers
      ensures Valid() && View() == ManagerNext(old(View()), {}, NoFault)
    {
      hide SyncInv;
      ManagerIsSafe(View(), {}, NoFault);
      done := true;
      Unblock(Sleepers(workers[..]));
      mutex := Nobody;
      manager := Joined;
    }

    // ----- the threads together ---------------------------------------------

    method WorkerActs(i: nat, n: nat, failed: bool)
      requires Valid() && WorkerEnabled(View(), i, n, failed) && InArray(View(), Work(i, n, failed))
      modifies this, fileBuffer, workers
      ensures Valid()
      ensures Accesses(old(View()), Work(i, n, failed)) && View() == WorkerNext(old(View()), i, n, failed)
    {
      hide SyncInv;
      WorkerIsSafe(View(), i, n, failed);
      OnlyCopiesChoose(View(), i, n, failed);
      hide WorkerNext;
      match workers[i] {
        case AtLock => WorkerLocks(i);
        case AtTest => WorkerTests(i);
        case Woken => WorkerLocks(i);
        case AtCheck => WorkerTakes(i);
        case Copying(_, _) => WorkerCopies(i, n, failed);
        case Closing(_, _) => WorkerCloses(i);
        case AtTally(_) => WorkerLocks(i);
        case Tallying(_) => WorkerTallies(i);
        case AtBarrier => WorkerArrives(i);
        case InBarrier => WorkerPassesBarrier(i);
      }
    }

    method ManagerActs(woken: set<nat>, fault: Fault)
      requires Valid() && ManagerEnabled(View(), woken) && InArray(View(), Manage(woken, fault))
      modifies this, fileBuffer, fileBuffer.cells, workers
      ensures Valid()
      ensures Accesses(old(View()), Manage(woken, fault)) && View() == ManagerNext(old(View()), woken, fault)
    {
      hide SyncInv;
      ManagerIsSafe(View(), woken, fault);
      OnlySomeChoose(View(), woken, fault);
      hide ManagerNext;
      match manager {
        case Entering(_, _) => OpenDirectory(fault);
        case Scanning => ReadEntry();
        case Visiting(_, _) => HandleEntry(fault);
        case PutLock(_) => ManagerLocks();
        case PutTest(_) => ManagerTests();
        case PutWoken(_) => ManagerLocks();
        case PutCheck(_) => ManagerChecksStop();
        case Putting(_) => ManagerPuts(woken);
        case DoneLock => ManagerLocks();
        case SettingDone => ManagerFinishes();
      }
    }

    /** One thread takes one step, or the signal arrives. */
    method Act(a: Action)
      requires Valid() && Enabled(View(), a) && InArray(View(), a)
      modifies this, fileBuffer, fileBuffer.cells, workers
      ensures Valid() && Step(old(View()), a, View())
    {
      hide SyncInv, ManagerNext, WorkerNext, ManagerEnabled, WorkerEnabled;
      StepsAreInBounds(View(), a);
      match a {
        case Manage(woken, fault) => ManagerActs(woken, fault);
        case Work(i, n, failed) => WorkerActs(i, n, failed);
        case SpuriousWorker(i) => WorkerWakes(i);
        case SpuriousManager => ManagerWakes();
        case Interrupt => HandleSignal();
      }
    }

    /** A step that some thread can take. */
    method Choose() returns (a: Action)
      requires Valid() && OffsetInv(View()) && !AllJoined(View())
      ensures Enabled(View(), a) && Smooth(a) && !Spurious(a)
    {
      hide SyncInv;
      ghost var m := SomeoneCanMove(View());
      a := Manage(Sleepers(workers[..]), NoFault);
      if !ManagerEnabled(View(), a.woken) {
        var i := 0;
        a := WorkerMove(workers[i], i);
        while !Enabled(View(), a)
          invariant m.Work? && i <= m.i < workers.Length && Enabled(View(), m) && m == WorkerMove(workers[m.i], m.i)
          invariant a == WorkerMove(workers[i], i)
          decreases workers.Length - i
        {
          i := i + 1;
          a := WorkerMove(workers[i], i);
        }
      }
    }

    /** One turn: the wanted action if it can happen, else a step of some thread. */
    method Turn(wanted: Action, calm: bool, ghost root: seq<Entry>) returns (a: Action)
      requires Valid() && Reachable(View(), root) && !AllJoined(View()) && ArrayServes(fileBuffer.size, root)
      modifies this, fileBuffer, fileBuffer.cells, workers
      ensures Valid() && Reachable(View(), root)
      ensures calm ==> !Spurious(a)
      ensures !Spurious(a) ==> Below(RankOf(View()), RankOf(old(View())))
      ensures old(View().history.clean) && Faultless(wanted) ==> View().history.clean
      ensures old(Uncut(View())) && Smooth(wanted) ==> Uncut(View())
    {
      hide Step, Enabled, Init, SyncInv, OffsetInv, Reachable, RankOf, Below, AllJoined, InArray, ArrayServes;
      ghost var before := View();
      ReachableSync(before, root);
      ReachableOffsets(before, root);
      a := wanted;
      if !Enabled(View(), a) || (calm && Spurious(a)) { a := Choose(); }
      ServedInArray(before, a, root);
      Act(a);
      StepReaches(before, a, View(), root);
      if !Spurious(a) { StepFalls(before, a, View()); }
      if before.history.clean && Faultless(wanted) { FaultlessStep(before, a, View()); }
    }

    /**
     * The program under any schedule: at turn `n` the action `script(n)` happens if it can, with its wake-ups,
     * chunk sizes, failing calls and signal, and some thread steps otherwise; from turn `calm` on no wake-up is
     * spurious.  It comes to the joins, and there it has done what it promises.
     */
    method Execute(script: nat -> Action, calm: nat, ghost root: seq<Entry>)
      requires Valid() && Init(View(), root) && ArrayServes(fileBuffer.size, root)
      modifies this, fileBuffer, fileBuffer.cells, workers
      ensures Reachable(View(), root) && Settled(View()) && Accounted(View(), root)
      ensures (forall n: nat :: Faultless(script(n))) ==> CleanPart(View(), root)
      ensures (forall n: nat :: Smooth(script(n))) ==> Copied(View(), root)
    {
      StartReaches(View(), root);
      hide Reachable, Settled, Accounted, CleanPart, Copied, RankOf, Faultless, Smooth, SyncInv, ArrayServes;
      var n := 0;
      while !AllJoined(View())
        invariant Valid() && Reachable(View(), root)
        invariant (forall k: nat :: Faultless(script(k))) ==> View().history.clean
        invariant (forall k: nat :: Smooth(script(k))) ==> Uncut(View())
        decreases if n < calm then calm - n else 0, RankOf(View()).signals, RankOf(View()).work,
                  RankOf(View()).buffered, RankOf(View()).wait, RankOf(View()).phases
      {
        var a := Turn(script(n), calm <= n, root);
        n := n + 1;
      }
      JoinedSettles(View(), root);
    }
  }

  /** `main`: start the threads, let them run, join them. */
  method CopyTree(bufferSize: nat, numWorkers: nat, root: seq<Entry>, script: nat -> Action, calm: nat)
    returns (copier: FileCopier)
    requires 1 <= bufferSize && numWorkers >= 1 && UniqueNames(root) && ArrayServes(bufferSize, root)
    ensures fresh(copier) && Settled(copier.View()) && Accounted(copier.View(), root)
    ensures (forall n: nat :: Faultless(script(n))) ==> CleanPart(copier.View(), root)
    ensures (forall n: nat :: Smooth(script(n))) ==> Copied(copier.View(), root)
  {
    copier := new FileCopier(bufferSize, numWorkers, root);
    copier.Execute(script, calm, root);
  }
}
