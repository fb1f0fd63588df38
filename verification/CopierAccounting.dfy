/** Every opened pair is put at most once, taken in FIFO order and closed exactly once. */
module CopierAccounting {
  import opened FileTree
  import opened RingBuffer
  import opened Copier
  import opened CopierSync
  import opened Sums

  /** A weight that cond_wait and cond_signal do not affect. */
  lemma SumWorkersMove(s: State, a: Action, s': State, f: Worker -> nat)
    requires WorkersMove(s, a, s') && f(Asleep) == f(Woken)
    ensures !a.Work? ==> Sum(s'.workers, f) == Sum(s.workers, f)
    ensures a.Work? ==> Sum(s'.workers, f) + f(s.workers[a.i]) == Sum(s.workers, f) + f(s'.workers[a.i])
  {
    if a.Work? {
      SumReplace(s.workers, a.i, s'.workers[a.i], f);
    } else {
      SumSame(s.workers, s'.workers, f);
    }
  }

  function Unfinished(): Worker -> nat {
    (w: Worker) => if w.Copying? || w.Closing? || w.AtTally? || w.Tallying? then 1 else 0
  }

  function Holding(id: nat): Worker -> nat {
    (w: Worker) => if (w.Copying? || w.Closing?) && w.item.id == id then 1 else 0
  }

  predicate Carries(m: Manager) {
    m.PutLock? || m.PutTest? || m.PutAsleep? || m.PutWoken? || m.PutCheck? || m.Putting?
  }

  function Carrying(m: Manager, id: nat): nat {
    if Carries(m) && m.item.id == id then 1 else 0
  }

  function CountItems(items: seq<Item>, id: nat): nat {
    if items == [] then 0
    else CountItems(items[..|items| - 1], id) + if items[|items| - 1].id == id then 1 else 0
  }

  /** How often pair `id` has been closed. */
  function TimesClosed(closed: seq<nat>, id: nat): nat {
    if closed == [] then 0
    else TimesClosed(closed[..|closed| - 1], id) + if closed[|closed| - 1] == id then 1 else 0
  }

  /** A visit of a regular file opened pair number `id`, its place in the list of visits. */
  function TimesOpened(visited: seq<Visit>, id: nat): nat {
    if id < |visited| && visited[id].node.Regular? then 1 else 0
  }

  ghost predicate FifoInv(s: State) {
    WellFormed(s.ring) && s.history.taken + Contents(s.ring) == s.history.put
  }

  ghost predicate CountInv(s: State) {
    && s.stats.totalFiles == s.stats.regularFiles == |s.history.put|
    && s.stats.filesCopied + Sum(s.workers, Unfinished()) == |s.history.taken|
  }

  ghost predicate PairInv(s: State, id: nat) {
    TimesClosed(s.history.closed, id) + Sum(s.workers, Holding(id)) + Carrying(s.manager, id)
    + CountItems(s.history.put, id)
    == TimesOpened(s.history.visited, id) + CountItems(s.history.taken, id)
  }

  lemma HandleOpens(s: State, path: Path, name: Name, node: Node, fault: Fault, id: nat)
    ensures var o := Handle(s, path, name, node, fault);
            TimesOpened(o.history.visited, id) == TimesOpened(s.history.visited, id) + Carrying(o.manager, id)
  {
  }

  lemma EmptyHands(s: State, woken: set<nat>, fault: Fault)
    requires 1 <= s.ring.cap && s.ring.inn < |s.ring.cells| && !s.manager.Visiting? && !Carries(s.manager)
    ensures !Carries(ManagerNext(s, woken, fault).manager)
  {
    hide VisitEntry;
  }

  /** The manager's hands: the item stays the same until it is put or given up. */
  lemma ManagerHands(s: State, woken: set<nat>, fault: Fault)
    requires 1 <= s.ring.cap && s.ring.inn < |s.ring.cells| && !s.manager.Visiting?
    ensures var m, m' := s.manager, ManagerNext(s, woken, fault).manager;
            && (Carries(m') <==> Carries(m) && !m.Putting? && !(m.PutCheck? && s.stop))
            && (Carries(m') ==> m'.item == m.item)
  {
    if Carries(s.manager) {
      hide VisitEntry;
    } else {
      EmptyHands(s, woken, fault);
      hide ManagerNext;
    }
  }

  /** Only handling an entry opens a pair, and only putting it or giving up lets go of it. */
  lemma ManagerCarries(s: State, woken: set<nat>, fault: Fault, id: nat)
    requires 1 <= s.ring.cap && s.ring.inn < |s.ring.cells|
    ensures var s' := ManagerNext(s, woken, fault);
            TimesOpened(s'.history.visited, id) + Carrying(s.manager, id)
            == TimesOpened(s.history.visited, id) + Carrying(s'.manager, id)
               + if s.manager.Putting? || (s.manager.PutCheck? && s.stop) then Carrying(s.manager, id) else 0
  {
    if s.manager.Visiting? {
      hide Handle;
      HandleOpens(s, s.manager.dir + [s.manager.entry.name], s.manager.entry.name, s.manager.entry.node, fault, id);
    } else {
      hide ManagerNext;
      ManagerHands(s, woken, fault);
      ManagerHasEffect(s, woken, fault);
    }
  }

  lemma ManagerKeepsQueue(s: State, a: Action, s': State)
    requires FifoInv(s) && CountInv(s) && SyncInv(s) && Step(s, a, s') && a.Manage?
    ensures FifoInv(s') && CountInv(s')
  {
    hide ManagerNext, WorkerNext, MutexInv, ManagerEnabled, Sum;
    ManagerHasEffect(s, a.woken, a.fault);
    StepMovesWorkers(s, a, s');
    SumWorkersMove(s, a, s', Unfinished());
    if s.manager.Putting? {
      PutAppends(s.ring, s.manager.item);
      hide WellFormed, Put, Contents;
      assert s.history.taken + (Contents(s.ring) + [s.manager.item])
          == (s.history.taken + Contents(s.ring)) + [s.manager.item];
    }
  }

  lemma WorkerKeepsFifo(s: State, i: nat, s': State)
    requires FifoInv(s) && i < |s.workers| && WorkerEffect(s, i, s')
    ensures FifoInv(s')
  {
    if s.workers[i].AtCheck? && s.ring.count > 0 {
      TakeRemovesFirst(s.ring);
      var item := Front(s.ring);
      assert s.history.taken + ([item] + Contents(Take(s.ring))) == (s.history.taken + [item]) + Contents(Take(s.ring));
    }
  }

  lemma WorkerKeepsQueue(s: State, a: Action, s': State)
    requires FifoInv(s) && CountInv(s) && SyncInv(s) && Step(s, a, s') && a.Work?
    ensures FifoInv(s') && CountInv(s')
  {
    hide ManagerNext, WorkerNext, FifoInv;
    WorkerHasEffect(s, a.i, a.n, a.failed);
    WorkerMoves(s, a.i, a.n, a.failed);
    WorkerKeepsFifo(s, a.i, s');
    StepMovesWorkers(s, a, s');
    SumWorkersMove(s, a, s', Unfinished());
  }

  lemma StepKeepsQueue(s: State, a: Action, s': State)
    requires FifoInv(s) && CountInv(s) && SyncInv(s) && Step(s, a, s')
    ensures FifoInv(s') && CountInv(s')
  {
    hide ManagerNext, WorkerNext;
    if a.Manage? {
      ManagerKeepsQueue(s, a, s');
    } else if a.Work? {
      WorkerKeepsQueue(s, a, s');
    } else {
      StepMovesWorkers(s, a, s');
      SumWorkersMove(s, a, s', Unfinished());
    }
  }

  lemma CountItemsAdd(items: seq<Item>, x: Item, id: nat)
    ensures CountItems(items + [x], id) == CountItems(items, id) + if x.id == id then 1 else 0
  {
    assert (items + [x])[..|items|] == items;
  }

  lemma TimesClosedAdd(closed: seq<nat>, x: nat, id: nat)
    ensures TimesClosed(closed + [x], id) == TimesClosed(closed, id) + if x == id then 1 else 0
  {
    assert (closed + [x])[..|closed|] == closed;
  }

  lemma ManagerBalances(s: State, woken: set<nat>, s': State, id: nat)
    requires 1 <= s.ring.cap && s.ring.inn < |s.ring.cells|
    requires PairInv(s, id) && ManagerEffect(s, woken, s')
    requires Sum(s'.workers, Holding(id)) == Sum(s.workers, Holding(id))
    requires TimesOpened(s'.history.visited, id) + Carrying(s.manager, id)
             == TimesOpened(s.history.visited, id) + Carrying(s'.manager, id)
                + if s.manager.Putting? || (s.manager.PutCheck? && s.stop) then Carrying(s.manager, id) else 0
    ensures PairInv(s', id)
  {
    hide Sum, CountItems, TimesClosed, TimesOpened, Holding, Put, Wake;
    if s.manager.Putting? {
      CountItemsAdd(s.history.put, s.manager.item, id);
    } else if s.manager.PutCheck? && s.stop {
      TimesClosedAdd(s.history.closed, s.manager.item.id, id);
    }
  }

  lemma ManagerKeepsPair(s: State, a: Action, s': State, id: nat)
    requires PairInv(s, id) && SyncInv(s) && Step(s, a, s') && a.Manage?
    ensures PairInv(s', id)
  {
    hide ManagerNext, WorkerNext, PairInv, ManagerEnabled, ManagerEffect, Sum;
    StepsAreInBounds(s, a);
    ManagerHasEffect(s, a.woken, a.fault);
    ManagerCarries(s, a.woken, a.fault, id);
    StepMovesWorkers(s, a, s');
    SumWorkersMove(s, a, s', Holding(id));
    ManagerBalances(s, a.woken, s', id);
  }

  /** A worker gets hold of a pair by taking it and lets go of it by closing it. */
  lemma WorkerHolding(s: State, i: nat, n: nat, failed: bool, id: nat)
    requires WorkerEnabled(s, i, n, failed) && Accesses(s, Work(i, n, failed))
    ensures var w, w' := s.workers[i], WorkerNext(s, i, n, failed).workers[i];
            if w.AtCheck? && s.ring.count > 0 then
              Holding(id)(w) == 0 && Holding(id)(w') == if Front(s.ring).id == id then 1 else 0
            else if w.Closing? then
              Holding(id)(w') == 0 && Holding(id)(w) == if w.item.id == id then 1 else 0
            else
              Holding(id)(w') == Holding(id)(w)
  {
    WorkerMoves(s, i, n, failed);
    hide WorkerNext, WorkerEnabled;
  }

  ghost predicate HoldingMoves(s: State, i: nat, s': State, id: nat)
    requires i < |s.workers| == |s'.workers|
  {
    var w, was, now := s.workers[i], Sum(s.workers, Holding(id)), Sum(s'.workers, Holding(id));
    if w.AtCheck? && s.ring.count > 0 then
      s.ring.out < |s.ring.cells| && now == was + if Front(s.ring).id == id then 1 else 0
    else if w.Closing? then
      was == now + if w.item.id == id then 1 else 0
    else
      now == was
  }

  lemma WorkerMovesHolding(s: State, a: Action, s': State, id: nat)
    requires SyncInv(s) && Step(s, a, s') && a.Work?
    ensures a.i < |s.workers| == |s'.workers| && HoldingMoves(s, a.i, s', id)
  {
    hide ManagerNext, WorkerNext, WaitInv, MutexInv, Sum;
    WorkerHolding(s, a.i, a.n, a.failed, id);
    StepMovesWorkers(s, a, s');
    SumWorkersMove(s, a, s', Holding(id));
    hide Holding;
  }

  lemma PairBalances(s: State, i: nat, s': State, id: nat)
    requires PairInv(s, id) && i < |s.workers| == |s'.workers|
    requires WorkerEffect(s, i, s') && HoldingMoves(s, i, s', id)
    ensures PairInv(s', id)
  {
    hide Sum, CountItems, TimesClosed, TimesOpened, Holding;
    var w := s.workers[i];
    if w.AtCheck? && s.ring.count > 0 {
      CountItemsAdd(s.history.taken, Front(s.ring), id);
    } else if w.Closing? {
      TimesClosedAdd(s.history.closed, w.item.id, id);
    }
  }

  lemma WorkerKeepsPair(s: State, a: Action, s': State, id: nat)
    requires PairInv(s, id) && SyncInv(s) && Step(s, a, s') && a.Work?
    ensures PairInv(s', id)
  {
    hide ManagerNext, WorkerNext, PairInv, WorkerEffect, HoldingMoves, WorkerEnabled;
    StepsAreInBounds(s, a);
    WorkerHasEffect(s, a.i, a.n, a.failed);
    WorkerMovesHolding(s, a, s', id);
    PairBalances(s, a.i, s', id);
  }

  lemma StepKeepsPair(s: State, a: Action, s': State, id: nat)
    requires PairInv(s, id) && SyncInv(s) && Step(s, a, s')
    ensures PairInv(s', id)
  {
    hide ManagerNext, WorkerNext;
    if a.Manage? {
      ManagerKeepsPair(s, a, s', id);
    } else if a.Work? {
      WorkerKeepsPair(s, a, s', id);
    } else {
      StepMovesWorkers(s, a, s');
      SumWorkersMove(s, a, s', Holding(id));
    }
  }

  lemma {:induction false} RunKeepsAccounts(states: seq<State>, actions: seq<Action>, root: seq<Entry>, k: nat, id: nat)
    requires Run(states, actions, root) && k <= |actions|
    ensures SyncInv(states[k]) && FifoInv(states[k]) && CountInv(states[k]) && PairInv(states[k], id)
  {
    hide Step;
    RunKeepsSync(states, actions, root, k);
    if k == 0 {
      SumConstant(states[0].workers, 0, Unfinished());
      SumConstant(states[0].workers, 0, Holding(id));
    } else {
      RunKeepsAccounts(states, actions, root, k - 1, id);
      StepKeepsQueue(states[k - 1], actions[k - 1], states[k]);
      StepKeepsPair(states[k - 1], actions[k - 1], states[k], id);
    }
  }

  /** The ring is a FIFO queue: what was taken, then what is buffered, is what was put. */
  lemma RingIsQueue(s: State, root: seq<Entry>)
    requires Reachable(s, root)
    ensures WellFormed(s.ring) && s.history.taken + Contents(s.ring) == s.history.put
    ensures s.ring.count <= s.ring.cap
  {
    var states, actions :| Run(states, actions, root) && s == states[|actions|];
    RunKeepsAccounts(states, actions, root, |actions|, 0);
  }

  lemma {:induction false} CountItemsConcat(a: seq<Item>, b: seq<Item>, id: nat)
    ensures CountItems(a + b, id) == CountItems(a, id) + CountItems(b, id)
    decreases |b|
  {
    if b == [] {
      assert a + b == a;
    } else {
      assert (a + b)[..|a + b| - 1] == a + b[..|b| - 1];
      CountItemsConcat(a, b[..|b| - 1], id);
    }
  }

  /** At every moment a pair is in one place: closed, held by a worker, buffered or carried by the manager. */
  lemma OnePlace(s: State, root: seq<Entry>, id: nat)
    requires Reachable(s, root)
    ensures WellFormed(s.ring)
    ensures TimesClosed(s.history.closed, id) + Sum(s.workers, Holding(id)) + CountItems(Contents(s.ring), id)
            + Carrying(s.manager, id) == TimesOpened(s.history.visited, id)
  {
    var states, actions :| Run(states, actions, root) && s == states[|actions|];
    RunKeepsAccounts(states, actions, root, |actions|, id);
    CountItemsConcat(s.history.taken, Contents(s.ring), id);
  }

  lemma EmptyHandsAccount(s: State, id: nat)
    requires FifoInv(s) && CountInv(s) && PairInv(s, id) && s.ring.count == 0
    requires forall j :: 0 <= j < |s.workers| ==> Left(s.workers[j])
    ensures s.history.taken == s.history.put
    ensures s.stats.filesCopied == s.stats.totalFiles == s.stats.regularFiles == |s.history.put|
    ensures TimesClosed(s.history.closed, id) + Carrying(s.manager, id) == TimesOpened(s.history.visited, id)
  {
    SumConstant(s.workers, 0, Unfinished());
    SumConstant(s.workers, 0, Holding(id));
    assert Contents(s.ring) == [];
  }

  /** Both joins done, interrupted or not: nothing buffered, every file put was copied, every pair closed once. */
  lemma JoinedAccount(s: State, root: seq<Entry>, id: nat)
    requires Reachable(s, root) && AllJoined(s)
    ensures s.ring.count == 0 && s.history.taken == s.history.put
    ensures s.stats.filesCopied == s.stats.totalFiles == s.stats.regularFiles == |s.history.put|
    ensures TimesClosed(s.history.closed, id) == TimesOpened(s.history.visited, id)
  {
    var states, actions :| Run(states, actions, root) && s == states[|actions|];
    RunKeepsAccounts(states, actions, root, |actions|, id);
    assert Left(s.workers[0]);
    EmptyHandsAccount(s, id);
  }

  /** The totals that `main` prints about copied files. */
  ghost predicate SameTotals(s: State, s': State) {
    && s'.stats.totalFiles == s.stats.totalFiles && s'.stats.regularFiles == s.stats.regularFiles
    && s'.stats.filesCopied == s.stats.filesCopied && s'.stats.totalBytes == s.stats.totalBytes
  }

  ghost predicate SomeFinished(s: State) { exists i :: 0 <= i < |s.workers| && s.workers[i].Finished? }

  lemma FinishedStep(s: State, a: Action, s': State)
    requires SyncInv(s) && BarrierInv(s) && Step(s, a, s') && SomeFinished(s)
    ensures SomeFinished(s') && SameTotals(s, s')
  {
    hide ManagerNext, WorkerNext;
    StepMovesWorkers(s, a, s');
    var i :| 0 <= i < |s.workers| && s.workers[i].Finished?;
    assert Left(s.workers[i]);
    assert s'.workers[i].Finished?;
    LeavingIsFinal(s, a, s');
    if a.Manage? { ManagerHasEffect(s, a.woken, a.fault); }
    if a.Work? { WorkerHasEffect(s, a.i, a.n, a.failed); }
  }

  /**
   * After any worker has passed the barrier the totals are final, and every opened pair has been
   * closed exactly once except at most the one that the manager still carries under `stop`.
   */
  lemma {:induction false} BarrierSettles(states: seq<State>, actions: seq<Action>, root: seq<Entry>,
                                          i: nat, j: nat, id: nat)
    requires Run(states, actions, root) && i <= j <= |actions| && SomeFinished(states[i])
    ensures SomeFinished(states[j]) && SameTotals(states[i], states[j])
    ensures states[j].stats.filesCopied == states[j].stats.totalFiles
    ensures TimesClosed(states[j].history.closed, id) + Carrying(states[j].manager, id)
            == TimesOpened(states[j].history.visited, id)
    ensures Carries(states[j].manager) ==> states[j].stop
    decreases j
  {
    hide Step;
    RunKeepsBarrier(states, actions, root, j);
    RunKeepsAccounts(states, actions, root, j, id);
    if i < j {
      BarrierSettles(states, actions, root, i, j - 1, id);
      RunKeepsBarrier(states, actions, root, j - 1);
      RunKeepsSync(states, actions, root, j - 1);
      FinishedStep(states[j - 1], actions[j - 1], states[j]);
    }
    var s := states[j];
    assert Left(s.workers[0]);
    EmptyHandsAccount(s, id);
  }
}
