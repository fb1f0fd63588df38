/** Mutual exclusion, the two waits and the barrier: no reachable state is stuck. */
module CopierSync {
  import opened FileTree
  import opened RingBuffer
  import opened Copier

  ghost predicate MutexInv(s: State) {
    && (ManagerHolds(s.manager) <==> s.mutex == ByManager)
    && (s.mutex.ByWorker? ==> s.mutex.i < |s.workers|)
    && forall i :: 0 <= i < |s.workers| ==> (WorkerHolds(s.workers[i]) <==> s.mutex == ByWorker(i))
  }

  /** A worker that will take what is buffered without anyone waking it. */
  predicate Active(w: Worker) { !w.Asleep? && !Left(w) }

  ghost predicate SomeActive(ws: seq<Worker>) { exists i :: 0 <= i < |ws| && Active(ws[i]) }

  ghost predicate SomeLeft(ws: seq<Worker>) { exists i :: 0 <= i < |ws| && Left(ws[i]) }

  ghost predicate WaitInv(s: State) {
    && (s.done <==> s.manager.Joined?)
    && (s.manager.PutAsleep? ==> s.ring.count == s.ring.cap)
    && (s.manager.PutCheck? ==> s.ring.count < s.ring.cap || s.stop)
    && (s.manager.Putting? ==> s.ring.count < s.ring.cap && !SomeLeft(s.workers))
    && (s.ring.count > 0 ==> SomeActive(s.workers))
    && (s.done ==> Sleepers(s.workers) == {})
    && (forall i :: 0 <= i < |s.workers| && s.workers[i].AtCheck? ==> s.ring.count > 0 || s.done || s.stop)
    && (SomeLeft(s.workers) ==> s.ring.count == 0 && (s.done || s.stop))
  }

  ghost predicate SyncInv(s: State) {
    WellFormed(s.ring) && |s.workers| >= 1 && MutexInv(s) && WaitInv(s)
  }

  lemma SyncInit(s: State, root: seq<Entry>)
    requires Init(s, root)
    ensures SyncInv(s)
  {
    assert Sleepers(s.workers) == {};
  }

  /** Under the invariant no step reads or writes outside the ring. */
  lemma StepsAreInBounds(s: State, a: Action)
    requires SyncInv(s) && Enabled(s, a)
    ensures Accesses(s, a)
  {
  }

  /** How one step can change the program counter of the worker that takes it. */
  predicate Edge(w: Worker, w': Worker, n: nat) {
    match w
    case AtLock => w'.AtTest?
    case AtTest => w'.Asleep? || w'.AtCheck?
    case Asleep => w'.Woken?
    case Woken => w'.AtTest?
    case AtCheck => w'.AtBarrier? || (w'.Copying? && w'.off == 0)
    case Copying(item, off) => w' == Closing(item, off) || w' == Copying(item, off + n)
    case Closing(item, total) => w' == AtTally(total)
    case AtTally(total) => w' == Tallying(total)
    case Tallying(total) => w' == AtLock
    case AtBarrier => w' == InBarrier
    case InBarrier => w' == Finished
    case Finished => false
  }

  /** Everything a step changes in the worker table: one edge, or wake-ups. */
  ghost predicate WorkersMove(s: State, a: Action, s': State) {
    && |s'.workers| == |s.workers|
    && (a.Work? ==> a.i < |s.workers| && Edge(s.workers[a.i], s'.workers[a.i], a.n)
                    && s'.workers == s.workers[a.i := s'.workers[a.i]])
    && (!a.Work? ==> forall k :: 0 <= k < |s.workers| ==>
          s'.workers[k] == s.workers[k] || (s.workers[k].Asleep? && s'.workers[k].Woken?))
  }

  lemma HandleEffect(s: State, path: Path, name: Name, node: Node, fault: Fault)
    ensures var o := Handle(s, path, name, node, fault);
            && (o.manager.Scanning? || o.manager.Entering? || o.manager.PutLock?)
            && o.history.put == s.history.put && o.history.taken == s.history.taken
            && o.history.closed == s.history.closed
            && o.stats.totalFiles == s.stats.totalFiles && o.stats.regularFiles == s.stats.regularFiles
            && o.stats.filesCopied == s.stats.filesCopied && o.stats.totalBytes == s.stats.totalBytes
  {
  }

  /** The manager's part of the shared state before and after one of its steps. */
  ghost predicate ManagerEffect(s: State, woken: set<nat>, s': State)
    requires 1 <= s.ring.cap && s.ring.inn < |s.ring.cells|
  {
    var m := s.manager;
    && s'.ring == (if m.Putting? then Put(s.ring, m.item) else s.ring)
    && s'.done == (s.done || m.SettingDone?) && s'.stop == s.stop
    && s'.workers == (if m.Putting? then Wake(s.workers, woken)
                      else if m.SettingDone? then Wake(s.workers, Sleepers(s.workers)) else s.workers)
    && s'.history.put == (if m.Putting? then s.history.put + [m.item] else s.history.put)
    && s'.history.taken == s.history.taken
    && s'.history.closed == (if m.PutCheck? && s.stop then s.history.closed + [m.item.id] else s.history.closed)
    && (!m.Visiting? ==> s'.history.visited == s.history.visited)
    && s'.stats.totalFiles == s.stats.totalFiles + (if m.Putting? then 1 else 0)
    && s'.stats.regularFiles == s.stats.regularFiles + (if m.Putting? then 1 else 0)
    && s'.stats.filesCopied == s.stats.filesCopied && s'.stats.totalBytes == s.stats.totalBytes
  }

  lemma VisitHasEffect(s: State, woken: set<nat>, fault: Fault)
    requires 1 <= s.ring.cap && s.ring.inn < |s.ring.cells| && s.manager.Visiting?
    ensures ManagerEffect(s, woken, ManagerNext(s, woken, fault))
  {
    hide Handle;
    HandleEffect(s, s.manager.dir + [s.manager.entry.name], s.manager.entry.name, s.manager.entry.node, fault);
  }

  /** All the other steps touch only the manager's own variables, the mutex and a closed pair. */
  lemma QuietManager(s: State, woken: set<nat>, fault: Fault)
    requires 1 <= s.ring.cap && s.ring.inn < |s.ring.cells|
    requires !s.manager.Visiting? && !s.manager.Putting? && !s.manager.SettingDone?
    ensures var s' := ManagerNext(s, woken, fault);
            && s'.ring == s.ring && s'.done == s.done && s'.stop == s.stop && s'.workers == s.workers
            && s'.stats == s.stats && s'.history.put == s.history.put && s'.history.taken == s.history.taken
            && s'.history.visited == s.history.visited
            && s'.history.closed == if s.manager.PutCheck? && s.stop then s.history.closed + [s.manager.item.id]
                                    else s.history.closed
  {
    hide VisitEntry, Put, Wake, Sleepers, Pop;
  }

  lemma ManagerHasEffect(s: State, woken: set<nat>, fault: Fault)
    requires 1 <= s.ring.cap && s.ring.inn < |s.ring.cells|
    ensures ManagerEffect(s, woken, ManagerNext(s, woken, fault))
  {
    hide VisitEntry;
    if s.manager.Visiting? {
      VisitHasEffect(s, woken, fault);
    } else if !s.manager.Putting? && !s.manager.SettingDone? {
      QuietManager(s, woken, fault);
    }
  }

  /** A worker's step on everything but its own program counter and the files. */
  ghost predicate WorkerEffect(s: State, i: nat, s': State)
    requires i < |s.workers|
  {
    var w := s.workers[i];
    var takes := w.AtCheck? && s.ring.count > 0;
    && (takes ==> s.ring.out < |s.ring.cells| && 1 <= s.ring.cap)
    && s'.ring == (if takes then Take(s.ring) else s.ring)
    && s'.done == s.done && s'.stop == s.stop && s'.stack == s.stack
    && s'.manager == (if takes && s.manager.PutAsleep? then PutWoken(s.manager.item) else s.manager)
    && s'.history.put == s.history.put && s'.history.visited == s.history.visited
    && s'.history.taken == (if takes then s.history.taken + [Front(s.ring)] else s.history.taken)
    && s'.history.closed == (if w.Closing? then s.history.closed + [w.item.id] else s.history.closed)
    && s'.stats == (if w.Tallying? then s.stats.(filesCopied := s.stats.filesCopied + 1,
                                                 totalBytes := s.stats.totalBytes + w.total) else s.stats)
  }

  lemma WorkerHasEffect(s: State, i: nat, n: nat, failed: bool)
    requires WorkerEnabled(s, i, n, failed) && Accesses(s, Work(i, n, failed))
    ensures WorkerEffect(s, i, WorkerNext(s, i, n, failed))
  {
  }

  lemma WorkerMoves(s: State, i: nat, n: nat, failed: bool)
    requires WorkerEnabled(s, i, n, failed) && Accesses(s, Work(i, n, failed))
    ensures var s' := WorkerNext(s, i, n, failed);
            && |s'.workers| == |s.workers| && Edge(s.workers[i], s'.workers[i], n)
            && s'.workers == s.workers[i := s'.workers[i]]
    ensures s.workers[i].AtCheck? && s.ring.count > 0 ==>
              WorkerNext(s, i, n, failed).workers[i] == Copying(Front(s.ring), 0)
    ensures s.workers[i].AtCheck? && s.ring.count == 0 ==> WorkerNext(s, i, n, failed).workers[i] == AtBarrier
  {
  }

  lemma StepMovesWorkers(s: State, a: Action, s': State)
    requires Step(s, a, s')
    ensures WorkersMove(s, a, s')
  {
    hide ManagerNext, WorkerNext;
    match a
    case Work(i, n, failed) => WorkerMoves(s, i, n, failed);
    case Manage(woken, fault) => ManagerHasEffect(s, woken, fault);
    case _ =>
  }

  lemma WakeAll(ws: seq<Worker>)
    ensures Sleepers(Wake(ws, Sleepers(ws))) == {}
    ensures SomeLeft(Wake(ws, Sleepers(ws))) ==> SomeLeft(ws)
    ensures SomeActive(ws) ==> SomeActive(Wake(ws, Sleepers(ws)))
  {
    var ws' := Wake(ws, Sleepers(ws));
    if SomeLeft(ws') {
      var i :| 0 <= i < |ws'| && Left(ws'[i]);
      assert Left(ws[i]);
    }
    if SomeActive(ws) {
      var i :| 0 <= i < |ws| && Active(ws[i]);
      assert Active(ws'[i]);
    }
  }

  lemma SignalKeepsActive(ws: seq<Worker>, woken: set<nat>)
    requires Signalled(ws, woken) && |ws| >= 1 && !SomeLeft(ws)
    ensures SomeActive(Wake(ws, woken)) && !SomeLeft(Wake(ws, woken))
  {
    var ws' := Wake(ws, woken);
    assert forall i :: 0 <= i < |ws| ==> !Left(ws[i]);
    if woken != {} {
      var i :| i in woken;
      assert i in Sleepers(ws) && ws'[i] == Woken;
    } else {
      assert ws[0].Asleep? ==> 0 in Sleepers(ws);
      assert !Left(ws[0]);
      assert Active(ws'[0]);
    }
  }

  /** Where the manager goes next, and whether it holds the mutex there. */
  lemma ManagerMoves(s: State, woken: set<nat>, fault: Fault)
    requires MutexInv(s) && ManagerEnabled(s, woken) && WellFormed(s.ring)
    ensures var s' := ManagerNext(s, woken, fault);
            && (ManagerHolds(s'.manager) <==> s'.mutex == ByManager)
            && (|| s'.mutex == s.mutex
                || (s.mutex == Nobody && s'.mutex == ByManager)
                || (s.mutex == ByManager && s'.mutex == Nobody))
            && (s'.manager.Joined? <==> s.manager.SettingDone?)
            && (s'.manager.PutAsleep? ==> s.ring.count == s.ring.cap && s.manager.PutTest?)
            && (s'.manager.PutCheck? ==> s.manager.PutTest? && (s.ring.count != s.ring.cap || s.stop))
            && (s'.manager.Putting? ==> s.manager.PutCheck? && !s.stop)
  {
    if s.manager.Visiting? {
      hide Handle;
      HandleEffect(s, s.manager.dir + [s.manager.entry.name], s.manager.entry.name, s.manager.entry.node, fault);
    } else {
      hide VisitEntry;
    }
  }

  lemma ManagerKeepsMutex(s: State, woken: set<nat>, fault: Fault)
    requires SyncInv(s) && ManagerEnabled(s, woken)
    ensures MutexInv(ManagerNext(s, woken, fault))
  {
    hide ManagerNext;
    ManagerMoves(s, woken, fault);
    ManagerHasEffect(s, woken, fault);
  }

  lemma ManagerKeepsSync(s: State, woken: set<nat>, fault: Fault)
    requires SyncInv(s) && ManagerEnabled(s, woken)
    ensures SyncInv(ManagerNext(s, woken, fault))
  {
    hide ManagerNext;
    ManagerMoves(s, woken, fault);
    ManagerHasEffect(s, woken, fault);
    ManagerKeepsMutex(s, woken, fault);
    if s.manager.Putting? {
      PutAppends(s.ring, s.manager.item);
      SignalKeepsActive(s.workers, woken);
    } else if s.manager.SettingDone? {
      WakeAll(s.workers);
    }
  }

  /** What replacing worker `i` does to the existential parts of the invariant. */
  lemma Replace(ws: seq<Worker>, i: nat, w: Worker)
    requires i < |ws|
    ensures Active(w) ==> SomeActive(ws[i := w])
    ensures SomeActive(ws) && !Active(ws[i]) ==> SomeActive(ws[i := w])
    ensures !Left(w) && SomeLeft(ws[i := w]) ==> SomeLeft(ws)
    ensures Left(ws[i]) ==> SomeLeft(ws)
    ensures !w.Asleep? && Sleepers(ws) == {} ==> Sleepers(ws[i := w]) == {}
  {
    var ws' := ws[i := w];
    if Active(w) { assert Active(ws'[i]); }
    if SomeActive(ws) && !Active(ws[i]) {
      var k :| 0 <= k < |ws| && Active(ws[k]);
      assert Active(ws'[k]);
    }
    if !Left(w) && SomeLeft(ws') {
      var k :| 0 <= k < |ws'| && Left(ws'[k]);
      assert Left(ws[k]);
    }
    assert !w.Asleep? ==> Sleepers(ws') <= Sleepers(ws);
  }

  /** A worker takes the mutex when it is free and gives it back before it stops holding it. */
  lemma WorkerLocking(s: State, i: nat, n: nat, failed: bool)
    requires WorkerEnabled(s, i, n, failed) && Accesses(s, Work(i, n, failed))
    ensures var s' := WorkerNext(s, i, n, failed);
            var had, has := WorkerHolds(s.workers[i]), WorkerHolds(s'.workers[i]);
            if has && !had then s.mutex == Nobody && s'.mutex == ByWorker(i)
            else s'.mutex == if had && !has then Nobody else s.mutex
  {
  }

  lemma WorkerKeepsMutex(s: State, i: nat, n: nat, failed: bool)
    requires SyncInv(s) && WorkerEnabled(s, i, n, failed)
    ensures MutexInv(WorkerNext(s, i, n, failed))
  {
    StepsAreInBounds(s, Work(i, n, failed));
    hide WorkerNext, WorkerEnabled, WaitInv, WellFormed;
    WorkerLocking(s, i, n, failed);
    WorkerMoves(s, i, n, failed);
    WorkerHasEffect(s, i, n, failed);
  }

  lemma TakeKeepsSync(s: State, i: nat, n: nat, failed: bool)
    requires SyncInv(s) && WorkerEnabled(s, i, n, failed) && s.workers[i].AtCheck?
    ensures SyncInv(WorkerNext(s, i, n, failed))
  {
    hide WorkerNext;
    WorkerKeepsMutex(s, i, n, failed);
    WorkerMoves(s, i, n, failed);
    WorkerHasEffect(s, i, n, failed);
    Replace(s.workers, i, WorkerNext(s, i, n, failed).workers[i]);
    if s.ring.count > 0 { TakeRemovesFirst(s.ring); }
  }

  /** A worker step that leaves the shared buffer alone and stays on its side of the loop exit. */
  lemma QuietKeepsWait(s: State, i: nat, s': State)
    requires SyncInv(s) && i < |s.workers| == |s'.workers| && s'.workers == s.workers[i := s'.workers[i]]
    requires s'.ring == s.ring && s'.done == s.done && s'.stop == s.stop && s'.manager == s.manager
    requires Left(s'.workers[i]) <==> Left(s.workers[i])
    requires s'.workers[i].Asleep? ==> s.ring.count == 0 && !s.done
    requires s'.workers[i].AtCheck? ==> s.ring.count > 0 || s.done || s.stop
    requires !s.workers[i].Asleep?
    ensures WaitInv(s')
  {
    Replace(s.workers, i, s'.workers[i]);
  }

  lemma WorkerWaits(s: State, i: nat, n: nat, failed: bool)
    requires WorkerEnabled(s, i, n, failed) && Accesses(s, Work(i, n, failed))
    ensures var w' := WorkerNext(s, i, n, failed).workers[i];
            && (w'.Asleep? ==> s.ring.count == 0 && !s.done)
            && (w'.AtCheck? ==> s.ring.count > 0 || s.done || s.stop)
  {
  }

  lemma WorkerKeepsSync(s: State, i: nat, n: nat, failed: bool)
    requires SyncInv(s) && WorkerEnabled(s, i, n, failed)
    ensures SyncInv(WorkerNext(s, i, n, failed))
  {
    if s.workers[i].AtCheck? {
      TakeKeepsSync(s, i, n, failed);
    } else {
      WorkerKeepsMutex(s, i, n, failed);
      WorkerWaits(s, i, n, failed);
      hide WorkerNext;
      WorkerMoves(s, i, n, failed);
      WorkerHasEffect(s, i, n, failed);
      QuietKeepsWait(s, i, WorkerNext(s, i, n, failed));
    }
  }

  lemma WakeUpKeepsSync(s: State, a: Action)
    requires SyncInv(s) && Enabled(s, a) && !a.Manage? && !a.Work?
    ensures SyncInv(Next(s, a))
  {
    if a.SpuriousWorker? {
      Replace(s.workers, a.i, Woken);
    }
  }

  lemma StepKeepsSync(s: State, a: Action, s': State)
    requires SyncInv(s) && Step(s, a, s')
    ensures SyncInv(s')
  {
    match a
    case Manage(woken, fault) => ManagerKeepsSync(s, woken, fault);
    case Work(i, n, failed) => WorkerKeepsSync(s, i, n, failed);
    case _ => WakeUpKeepsSync(s, a);
  }

  lemma {:induction false} RunKeepsSync(states: seq<State>, actions: seq<Action>, root: seq<Entry>, k: nat)
    requires Run(states, actions, root) && k <= |actions|
    ensures SyncInv(states[k])
  {
    hide Step;
    if k == 0 {
      SyncInit(states[0], root);
    } else {
      RunKeepsSync(states, actions, root, k - 1);
      StepKeepsSync(states[k - 1], actions[k - 1], states[k]);
    }
  }

  lemma ReachableSync(s: State, root: seq<Entry>)
    requires Reachable(s, root)
    ensures SyncInv(s)
  {
    var states, actions :| Run(states, actions, root) && s == states[|actions|];
    RunKeepsSync(states, actions, root, |actions|);
  }

  /** An enabled action of worker `i`, if it is not blocked on anything. */
  function WorkerMove(w: Worker, i: nat): Action {
    if w.Copying? && w.off < |w.item.content| then Work(i, 1, false) else Work(i, 0, false)
  }

  lemma ActiveCanMove(s: State, i: nat)
    requires SyncInv(s) && i < |s.workers|
    requires Active(s.workers[i]) && (s.mutex == Nobody || s.mutex == ByWorker(i))
    requires s.workers[i].Copying? ==> s.workers[i].off <= |s.workers[i].item.content|
    ensures Enabled(s, WorkerMove(s.workers[i], i))
  {
  }

  /** Copied never exceeds the file. */
  ghost predicate OffsetInv(s: State) {
    forall i :: 0 <= i < |s.workers| && s.workers[i].Copying? ==> s.workers[i].off <= |s.workers[i].item.content|
  }

  lemma StepKeepsOffsets(s: State, a: Action, s': State)
    requires OffsetInv(s) && Step(s, a, s')
    ensures OffsetInv(s')
  {
    hide ManagerNext, WorkerNext;
    StepMovesWorkers(s, a, s');
  }

  lemma {:induction false} RunKeepsOffsets(states: seq<State>, actions: seq<Action>, root: seq<Entry>, k: nat)
    requires Run(states, actions, root) && k <= |actions|
    ensures OffsetInv(states[k])
  {
    hide Step;
    if k > 0 {
      RunKeepsOffsets(states, actions, root, k - 1);
      StepKeepsOffsets(states[k - 1], actions[k - 1], states[k]);
    }
  }

  lemma ReachableOffsets(s: State, root: seq<Entry>)
    requires Reachable(s, root)
    ensures OffsetInv(s)
  {
    var states, actions :| Run(states, actions, root) && s == states[|actions|];
    RunKeepsOffsets(states, actions, root, |actions|);
  }

  /** `woken` chosen as everybody asleep is a legal effect of a signal. */
  function ManagerMove(s: State): Action { Manage(Sleepers(s.workers), NoFault) }

  lemma BarrierMove(s: State) returns (a: Action)
    requires SyncInv(s) && s.manager.Joined? && !AllJoined(s)
    requires forall i :: 0 <= i < |s.workers| ==> Left(s.workers[i])
    ensures Enabled(s, a) && a.Work? && a == WorkerMove(s.workers[a.i], a.i)
  {
    var i :| 0 <= i < |s.workers| && !s.workers[i].Finished?;
    if j :| 0 <= j < |s.workers| && s.workers[j].AtBarrier? {
      a := Work(j, 0, false);
    } else {
      a := Work(i, 0, false);
    }
  }

  /**
   * Deadlock freedom: as long as some thread has not finished, a thread can step
   * without a spurious wake-up, whenever `stop` is raised and however many workers run.
   */
  lemma SomeoneCanMove(s: State) returns (a: Action)
    requires SyncInv(s) && OffsetInv(s) && !AllJoined(s)
    ensures Enabled(s, a)
    ensures a == ManagerMove(s) || (a.Work? && a == WorkerMove(s.workers[a.i], a.i))
  {
    if s.mutex == ByManager {
      a := ManagerMove(s);
    } else if s.mutex.ByWorker? {
      ActiveCanMove(s, s.mutex.i);
      a := WorkerMove(s.workers[s.mutex.i], s.mutex.i);
    } else if ManagerEnabled(s, Sleepers(s.workers)) {
      a := ManagerMove(s);
    } else if SomeActive(s.workers) {
      var i :| 0 <= i < |s.workers| && Active(s.workers[i]);
      ActiveCanMove(s, i);
      a := WorkerMove(s.workers[i], i);
    } else {
      assert s.manager.Joined?;
      forall i | 0 <= i < |s.workers| ensures Left(s.workers[i]) {
        assert i !in Sleepers(s.workers);
        assert !Active(s.workers[i]);
      }
      a := BarrierMove(s);
    }
  }

  lemma DeadlockFree(s: State, root: seq<Entry>)
    requires Reachable(s, root) && !AllJoined(s)
    ensures exists a, s' :: Step(s, a, s') && !Spurious(a) && !a.Interrupt?
  {
    ReachableSync(s, root);
    ReachableOffsets(s, root);
    var a := SomeoneCanMove(s);
    StepsAreInBounds(s, a);
    assert Step(s, a, Next(s, a));
  }

  /** Two threads never hold the mutex together. */
  lemma MutualExclusion(s: State, root: seq<Entry>)
    requires Reachable(s, root)
    ensures forall i, j :: 0 <= i < j < |s.workers| ==> !(WorkerHolds(s.workers[i]) && WorkerHolds(s.workers[j]))
    ensures forall i :: 0 <= i < |s.workers| ==> !(WorkerHolds(s.workers[i]) && ManagerHolds(s.manager))
  {
    ReachableSync(s, root);
  }

  /** Once a worker has left its loop, nothing is put any more and the buffer stays empty. */
  lemma {:induction false} NothingPutAfterLeaving(states: seq<State>, actions: seq<Action>, root: seq<Entry>,
                                                  i: nat, j: nat)
    requires Run(states, actions, root) && i <= j <= |actions|
    requires SomeLeft(states[i].workers)
    ensures SomeLeft(states[j].workers) && states[j].ring.count == 0
    ensures states[j].history.put == states[i].history.put
    ensures states[j].stats.totalFiles == states[i].stats.totalFiles
    ensures states[j].stats.regularFiles == states[i].stats.regularFiles
    decreases j
  {
    hide Step;
    RunKeepsSync(states, actions, root, j);
    if i < j {
      NothingPutAfterLeaving(states, actions, root, i, j - 1);
      RunKeepsSync(states, actions, root, j - 1);
      LeavingIsFinal(states[j - 1], actions[j - 1], states[j]);
    }
  }

  lemma LeavingIsFinal(s: State, a: Action, s': State)
    requires SyncInv(s) && Step(s, a, s') && SomeLeft(s.workers)
    ensures SomeLeft(s'.workers)
    ensures s'.history.put == s.history.put
    ensures s'.stats.totalFiles == s.stats.totalFiles && s'.stats.regularFiles == s.stats.regularFiles
  {
    hide ManagerNext, WorkerNext;
    StepMovesWorkers(s, a, s');
    if a.Manage? { ManagerHasEffect(s, a.woken, a.fault); }
    if a.Work? { WorkerHasEffect(s, a.i, a.n, a.failed); }
    var k :| 0 <= k < |s.workers| && Left(s.workers[k]);
    assert Left(s'.workers[k]);
  }

  /** Past the barrier every worker has left the loop, so none holds a file. */
  ghost predicate BarrierInv(s: State) {
    (exists i :: 0 <= i < |s.workers| && s.workers[i].Finished?)
    ==> forall j :: 0 <= j < |s.workers| ==> s.workers[j].InBarrier? || s.workers[j].Finished?
  }

  lemma StepKeepsBarrier(s: State, a: Action, s': State)
    requires BarrierInv(s) && Step(s, a, s')
    ensures BarrierInv(s')
  {
    hide ManagerNext, WorkerNext;
    StepMovesWorkers(s, a, s');
    if i :| 0 <= i < |s'.workers| && s'.workers[i].Finished? {
      if a.Work? && a.i == i {
        assert s.workers[i].InBarrier?;
      } else {
        assert s.workers[i].Finished?;
      }
    }
  }

  lemma {:induction false} RunKeepsBarrier(states: seq<State>, actions: seq<Action>, root: seq<Entry>, k: nat)
    requires Run(states, actions, root) && k <= |actions|
    ensures BarrierInv(states[k])
  {
    hide Step;
    if k > 0 {
      RunKeepsBarrier(states, actions, root, k - 1);
      StepKeepsBarrier(states[k - 1], actions[k - 1], states[k]);
    }
  }
}
