/** Termination and correctness together, for whole executions. */
module CopierTotal {
  import opened FileTree
  import opened FileMembers
  import opened Copier
  import opened CopierSync
  import opened CopierAccounting
  import opened CopierFiles
  import opened CopierEndToEnd
  import opened CopierTermination

  /** No failing system call. */
  predicate Faultless(a: Action) {
    match a
    case Manage(_, fault) => fault.NoFault?
    case Work(_, _, failed) => !failed
    case _ => true
  }

  /** Neither a failing system call nor the signal. */
  predicate Smooth(a: Action) { Faultless(a) && !a.Interrupt? }

  lemma StartReaches(s: State, root: seq<Entry>)
    requires Init(s, root)
    ensures Reachable(s, root)
  {
    assert Run([s], [], root);
  }

  lemma RunExtends(states: seq<State>, actions: seq<Action>, root: seq<Entry>, a: Action, s': State)
    requires Run(states, actions, root) && Step(states[|actions|], a, s')
    ensures Run(states + [s'], actions + [a], root)
  {
    hide Step, Init;
    var states', actions' := states + [s'], actions + [a];
    assert states'[0] == states[0];
    forall k | 0 <= k < |actions'| ensures Step(states'[k], actions'[k], states'[k + 1]) {
      if k < |actions| {
        assert states'[k] == states[k] && states'[k + 1] == states[k + 1];
      }
    }
  }

  lemma StepReaches(s: State, a: Action, s': State, root: seq<Entry>)
    requires Reachable(s, root) && Step(s, a, s')
    ensures Reachable(s', root)
  {
    hide Step, Init;
    var states, actions :| Run(states, actions, root) && s == states[|actions|];
    RunExtends(states, actions, root, a, s');
    assert s' == (states + [s'])[|actions + [a]|];
  }

  lemma {:induction false} ExecutionReaches(run: nat -> State, acts: nat -> Action, root: seq<Entry>, k: nat)
    requires Execution(run, acts, root)
    ensures Reachable(run(k), root)
  {
    hide Step;
    if k == 0 {
      StartReaches(run(0), root);
    } else {
      ExecutionReaches(run, acts, root, k - 1);
      var s, a, s' := run(k - 1), acts(k - 1), run(k - 1 + 1);
      if Step(s, a, s') {
        StepReaches(s, a, s', root);
      }
    }
  }

  lemma FaultlessStep(s: State, a: Action, s': State)
    requires s.history.clean && Faultless(a) && Step(s, a, s')
    ensures s'.history.clean
    ensures !s.stop && !a.Interrupt? ==> !s'.stop
  {
    if a.Work? {
      WorkerHasEffect(s, a.i, a.n, a.failed);
      WorkerFiles(s, a.i, a.n, a.failed);
      hide WorkerNext, WorkerEnabled;
    } else {
      FaultlessManager(s, a, s');
    }
  }

  lemma FaultlessVisit(s: State, path: Path, name: Name, node: Node)
    ensures Handle(s, path, name, node, NoFault).history.clean == s.history.clean
  {
  }

  lemma FaultlessManager(s: State, a: Action, s': State)
    requires s.history.clean && Faultless(a) && Step(s, a, s') && !a.Work?
    ensures s'.history.clean
    ensures !s.stop && !a.Interrupt? ==> !s'.stop
  {
    hide Handle, Wake, Sleepers, WorkerNext;
    if a.Manage? && s.manager.Visiting? {
      var dir, e := s.manager.dir, s.manager.entry;
      FaultlessVisit(s, dir + [e.name], e.name, e.node);
    }
  }

  lemma {:induction false} FaultlessRun(run: nat -> State, acts: nat -> Action, root: seq<Entry>, k: nat)
    requires Execution(run, acts, root)
    requires forall j: nat :: Faultless(acts(j))
    ensures run(k).history.clean
    ensures (forall j: nat :: Smooth(acts(j))) ==> Uncut(run(k))
  {
    hide Step;
    if k == 0 {
    } else {
      FaultlessRun(run, acts, root, k - 1);
      var s, a, s' := run(k - 1), acts(k - 1), run(k - 1 + 1);
      if Step(s, a, s') {
        FaultlessStep(s, a, s');
      }
    }
  }

  /** What the program promises when it returns. */
  ghost predicate Copied(s: State, root: seq<Entry>) {
    && AllJoined(s)
    && IsCopyOf(s.fs, root)
    && Exact(s.stats, root)
  }

  /** What is left of it whatever fails: nothing is stuck in the buffer, no pair is open, and every file
      handed over has been counted. */
  ghost predicate Settled(s: State) {
    && AllJoined(s)
    && s.ring.count == 0
    && s.stats.filesCopied == s.stats.totalFiles == s.stats.regularFiles == |s.history.put|
    && s.history.taken == s.history.put
    && forall id: nat :: TimesClosed(s.history.closed, id) == TimesOpened(s.history.visited, id)
  }

  /** What holds at the joins, by what has happened on the way. */
  lemma JoinedSettles(s: State, root: seq<Entry>)
    requires Reachable(s, root) && AllJoined(s)
    ensures Settled(s) && Accounted(s, root)
    ensures s.history.clean ==> CleanPart(s, root)
    ensures Uncut(s) ==> Copied(s, root)
  {
    hide CleanPart, Accounted, Reachable;
    EveryCopy(s, root);
    forall id: nat
      ensures TimesClosed(s.history.closed, id) == TimesOpened(s.history.visited, id)
    {
      JoinedAccount(s, root, id);
    }
    JoinedAccount(s, root, 0);
    if s.history.clean { InterruptedCopy(s, root); }
    if Uncut(s) {
      CompleteCopy(s, root);
      StatisticsOfMembers(s, root);
    }
  }

  /**
   * Total correctness: whatever the tree, the buffer size, the number of workers and the schedule,
   * an execution without signal and without failing calls comes to an end, and there the destination
   * is the copy and the statistics are exact.
   */
  lemma TotalCorrectness(run: nat -> State, acts: nat -> Action, root: seq<Entry>, m: nat)
    requires Execution(run, acts, root) && CalmFrom(acts, m)
    requires forall k: nat :: Smooth(acts(k))
    ensures exists end: nat :: Copied(run(end), root)
  {
    hide Execution, CalmFrom, Copied;
    Terminates(run, acts, root, m);
    var end: nat :| m <= end && AllJoined(run(end));
    ExecutionReaches(run, acts, root, end);
    FaultlessRun(run, acts, root, end);
    JoinedSettles(run(end), root);
    assert Copied(run(end), root);
  }

  /** The same with the signal at any moment: a clean part of the copy. */
  lemma InterruptedExecutions(run: nat -> State, acts: nat -> Action, root: seq<Entry>, m: nat)
    requires Execution(run, acts, root) && CalmFrom(acts, m)
    requires forall k: nat :: Faultless(acts(k))
    ensures exists end: nat :: Settled(run(end)) && CleanPart(run(end), root)
  {
    hide Execution, CalmFrom, Settled, CleanPart;
    Terminates(run, acts, root, m);
    var end: nat :| m <= end && AllJoined(run(end));
    ExecutionReaches(run, acts, root, end);
    FaultlessRun(run, acts, root, end);
    JoinedSettles(run(end), root);
    assert Settled(run(end)) && CleanPart(run(end), root);
  }

  /** And with any calls failing: what is there is accounted for, entry by entry. */
  lemma EveryExecutionSettles(run: nat -> State, acts: nat -> Action, root: seq<Entry>, m: nat)
    requires Execution(run, acts, root) && CalmFrom(acts, m)
    ensures exists end: nat :: Settled(run(end)) && Accounted(run(end), root)
  {
    hide Execution, CalmFrom, Settled, Accounted;
    Terminates(run, acts, root, m);
    var end: nat :| m <= end && AllJoined(run(end));
    ExecutionReaches(run, acts, root, end);
    JoinedSettles(run(end), root);
    assert Settled(run(end)) && Accounted(run(end), root);
  }
}
