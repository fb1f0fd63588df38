/** Every run of the copier without endless spurious wake-ups reaches the joins of `main`. */
module CopierTermination {
  import opened FileTree
  import opened RingBuffer
  import opened Copier
  import opened CopierSync
  import opened Sums

  function NodeWeight(node: Node): nat
    decreases node
  {
    if node.Directory? then 15 + EntriesWeight(node.entries) else 12
  }

  function EntriesWeight(entries: seq<Entry>): nat
    decreases entries
  {
    if entries == [] then 0 else NodeWeight(entries[0].node) + EntriesWeight(entries[1..])
  }

  function StackWeight(stack: seq<Frame>): nat {
    if stack == [] then 0 else 1 + EntriesWeight(stack[0].todo) + StackWeight(stack[1..])
  }

  /** Manager work left outside the wait loop of one put. */
  function ManagerWeight(m: Manager): nat {
    match m
    case Entering(_, entries) => 5 + EntriesWeight(entries)
    case Visiting(_, e) => 2 + NodeWeight(e.node)
    case PutLock(_) => 8
    case PutTest(_) => 8
    case PutAsleep(_) => 8
    case PutWoken(_) => 8
    case PutCheck(_) => 7
    case Putting(_) => 6
    case Scanning => 3
    case DoneLock => 2
    case SettingDone => 1
    case Joined => 0
  }

  /** Manager progress inside that loop. */
  function WaitPhase(m: Manager): nat {
    if m.PutLock? || m.PutWoken? then 2 else if m.PutTest? then 1 else 0
  }

  function Phase(): Worker -> nat {
    (w: Worker) =>
      match w
      case Copying(item, off) => 10 + if off <= |item.content| then |item.content| - off else 0
      case Closing(_, _) => 9
      case AtTally(_) => 8
      case Tallying(_) => 7
      case AtLock => 6
      case Woken => 6
      case AtTest => 5
      case AtCheck => 4
      case AtBarrier => 3
      case InBarrier => 2
      case Finished => 1
      case Asleep => 0
  }

  datatype Rank = Rank(signals: nat, work: nat, buffered: nat, wait: nat, phases: nat)

  function RankOf(s: State): Rank {
    Rank(if s.stop then 0 else 1, StackWeight(s.stack) + ManagerWeight(s.manager),
         s.ring.count, WaitPhase(s.manager), Sum(s.workers, Phase()))
  }

  /** The lexicographic order, which is well-founded. */
  predicate Below(r: Rank, q: Rank) {
    if r.signals != q.signals then r.signals < q.signals
    else if r.work != q.work then r.work < q.work
    else if r.buffered != q.buffered then r.buffered < q.buffered
    else if r.wait != q.wait then r.wait < q.wait
    else r.phases < q.phases
  }

  lemma HandleLightens(s: State, path: Path, name: Name, node: Node, fault: Fault)
    ensures ManagerWeight(Handle(s, path, name, node, fault).manager) < 2 + NodeWeight(node)
  {
  }

  lemma VisitFalls(s: State, dir: Path, e: Entry, fault: Fault)
    ensures var s' := VisitEntry(s, dir, e, fault);
            s'.stack == s.stack && ManagerWeight(s'.manager) < 2 + NodeWeight(e.node)
  {
    hide Handle;
    HandleLightens(s, dir + [e.name], e.name, e.node, fault);
  }

  /** The readdir loop: an entry or a directory leaves the stack. */
  lemma ScanFalls(s: State, woken: set<nat>, fault: Fault)
    requires WellFormed(s.ring) && (s.manager.Scanning? || s.manager.Entering? || s.manager.PutCheck?)
    ensures var s' := ManagerNext(s, woken, fault);
            StackWeight(s'.stack) + ManagerWeight(s'.manager) < StackWeight(s.stack) + ManagerWeight(s.manager)
  {
    hide VisitEntry;
  }

  lemma ManagerStepFalls(s: State, woken: set<nat>, fault: Fault)
    requires SyncInv(s) && ManagerEnabled(s, woken)
    ensures var s' := ManagerNext(s, woken, fault);
            var left := StackWeight(s.stack) + ManagerWeight(s.manager);
            var left' := StackWeight(s'.stack) + ManagerWeight(s'.manager);
            left' < left || (left' == left && s'.ring == s.ring && WaitPhase(s'.manager) < WaitPhase(s.manager))
  {
    hide Handle, VisitEntry, StackWeight;
    if s.manager.Visiting? {
      VisitFalls(s, s.manager.dir, s.manager.entry, fault);
    } else if s.manager.Scanning? || s.manager.Entering? || s.manager.PutCheck? {
      ScanFalls(s, woken, fault);
    }
  }

  lemma WorkerStepFalls(s: State, i: nat, n: nat, failed: bool)
    requires SyncInv(s) && OffsetInv(s) && WorkerEnabled(s, i, n, failed)
    ensures var w, w' := s.workers[i], WorkerNext(s, i, n, failed).workers[i];
            (w.AtCheck? && s.ring.count > 0) || Phase()(w') < Phase()(w)
  {
    StepsAreInBounds(s, Work(i, n, failed));
    WorkerMoves(s, i, n, failed);
    hide WorkerNext, SyncInv;
  }

  lemma ManagerFalls(s: State, woken: set<nat>, fault: Fault, s': State)
    requires SyncInv(s) && Step(s, Manage(woken, fault), s')
    ensures Below(RankOf(s'), RankOf(s))
  {
    hide ManagerEnabled, StackWeight, ManagerWeight, WaitPhase, SyncInv;
    StepsAreInBounds(s, Manage(woken, fault));
    ManagerHasEffect(s, woken, fault);
    ManagerStepFalls(s, woken, fault);
    hide ManagerNext;
  }

  lemma WorkerRank(s: State, i: nat, s': State)
    requires i < |s.workers| == |s'.workers| && s'.workers == s.workers[i := s'.workers[i]]
    requires WorkerEffect(s, i, s')
    requires (s.workers[i].AtCheck? && s.ring.count > 0) || Phase()(s'.workers[i]) < Phase()(s.workers[i])
    ensures Below(RankOf(s'), RankOf(s))
  {
    hide Phase;
    SumReplace(s.workers, i, s'.workers[i], Phase());
    hide Sum, StackWeight;
  }

  lemma WorkerFalls(s: State, i: nat, n: nat, failed: bool, s': State)
    requires SyncInv(s) && OffsetInv(s) && Step(s, Work(i, n, failed), s')
    ensures Below(RankOf(s'), RankOf(s))
  {
    hide WorkerNext, WorkerEnabled, SyncInv, Phase, WorkerEffect, RankOf, Below, OffsetInv;
    StepsAreInBounds(s, Work(i, n, failed));
    StepMovesWorkers(s, Work(i, n, failed), s');
    WorkerHasEffect(s, i, n, failed);
    WorkerStepFalls(s, i, n, failed);
    WorkerRank(s, i, s');
  }

  /** Every step except a spurious wake-up brings the system closer to its end. */
  lemma StepFalls(s: State, a: Action, s': State)
    requires SyncInv(s) && OffsetInv(s) && Step(s, a, s') && !Spurious(a)
    ensures Below(RankOf(s'), RankOf(s))
  {
    match a
    case Manage(woken, fault) => ManagerFalls(s, woken, fault, s');
    case Work(i, n, failed) => WorkerFalls(s, i, n, failed, s');
    case Interrupt =>
  }

  /**
   * A run without end of the scheduler's choosing: in every moment some thread steps (or the signal
   * arrives), unless all threads have been joined.  By deadlock freedom nothing else can stop it.
   */
  ghost predicate Execution(run: nat -> State, acts: nat -> Action, root: seq<Entry>) {
    && Init(run(0), root)
    && forall k: nat :: Step(run(k), acts(k), run(k + 1)) || (AllJoined(run(k)) && run(k + 1) == run(k))
  }

  ghost predicate CalmFrom(acts: nat -> Action, m: nat) {
    forall k: nat :: m <= k ==> !Spurious(acts(k))
  }

  lemma {:induction false} ExecutionKeeps(run: nat -> State, acts: nat -> Action, root: seq<Entry>, k: nat)
    requires Execution(run, acts, root)
    ensures SyncInv(run(k)) && OffsetInv(run(k))
  {
    hide Step;
    if k == 0 {
      SyncInit(run(0), root);
    } else {
      ExecutionKeeps(run, acts, root, k - 1);
      var s, a, s' := run(k - 1), acts(k - 1), run(k - 1 + 1);
      if Step(s, a, s') {
        StepKeepsSync(s, a, s');
        StepKeepsOffsets(s, a, s');
      }
    }
  }

  lemma {:induction false} Descend(run: nat -> State, acts: nat -> Action, root: seq<Entry>, k: nat) returns (end: nat)
    requires Execution(run, acts, root) && CalmFrom(acts, k)
    ensures k <= end && AllJoined(run(end))
    decreases RankOf(run(k)).signals, RankOf(run(k)).work, RankOf(run(k)).buffered,
              RankOf(run(k)).wait, RankOf(run(k)).phases
  {
    hide Step, RankOf;
    if AllJoined(run(k)) {
      end := k;
    } else {
      ExecutionKeeps(run, acts, root, k);
      StepFalls(run(k), acts(k), run(k + 1));
      end := Descend(run, acts, root, k + 1);
    }
  }

  /** Termination for every finite tree, schedule, fault and moment of `stop`. */
  lemma Terminates(run: nat -> State, acts: nat -> Action, root: seq<Entry>, m: nat)
    requires Execution(run, acts, root) && CalmFrom(acts, m)
    ensures exists end: nat :: m <= end && AllJoined(run(end))
  {
    var end := Descend(run, acts, root, m);
  }
}
