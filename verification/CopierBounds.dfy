/** Which buffer sizes the fixed array of the program can serve. */
module CopierBounds {
  import opened FileTree
  import opened RingBuffer
  import opened Copier
  import opened CopierSync
  import opened CopierAccounting
  import opened CopierFiles
  import opened CopierEndToEnd
  import opened CopierTotal
  import opened Rings

  /** Where `in` stands after `n` puts. */
  function Place(n: nat, cap: nat): nat
    requires 1 <= cap
  {
    if n == 0 then 0 else (Place(n - 1, cap) + 1) % cap
  }

  lemma {:induction false} PlaceMeans(n: nat, cap: nat)
    requires 1 <= cap
    ensures Place(n, cap) < cap && Place(n, cap) <= n
    ensures n < cap ==> Place(n, cap) == n
  {
    if n > 0 {
      PlaceMeans(n - 1, cap);
      WrapOnce(Place(n - 1, cap) + 1, cap);
    }
  }

  lemma PlaceNext(n: nat, cap: nat)
    requires 1 <= cap
    ensures Place(n + 1, cap) == (Place(n, cap) + 1) % cap
  {
  }

  /** `in` and `out` are the numbers of puts and takes, round the ring. */
  ghost predicate PlaceInv(s: State) {
    && 1 <= s.ring.cap
    && s.ring.inn == Place(|s.history.put|, s.ring.cap)
    && s.ring.out == Place(|s.history.taken|, s.ring.cap)
  }

  lemma ManagerKeepsPlace(s: State, woken: set<nat>, fault: Fault)
    requires PlaceInv(s) && s.ring.inn < |s.ring.cells|
    ensures var s' := ManagerNext(s, woken, fault);
            && PlaceInv(s') && s'.ring.cap == s.ring.cap
            && |s'.history.put| == |s.history.put| + if s.manager.Putting? then 1 else 0
  {
    hide Place;
    PlaceNext(|s.history.put|, s.ring.cap);
    ManagerHasEffect(s, woken, fault);
    hide ManagerNext;
  }

  lemma WorkerKeepsPlace(s: State, i: nat, s': State)
    requires PlaceInv(s) && i < |s.workers| && WorkerEffect(s, i, s')
    ensures PlaceInv(s') && s'.ring.cap == s.ring.cap && s'.history.put == s.history.put
  {
    hide Place;
    PlaceNext(|s.history.taken|, s.ring.cap);
    if s.workers[i].AtCheck? && s.ring.count > 0 {
      assert |s'.history.taken| == |s.history.taken| + 1;
    }
  }

  lemma StepKeepsPlace(s: State, a: Action, s': State)
    requires PlaceInv(s) && SyncInv(s) && Step(s, a, s')
    ensures PlaceInv(s') && s'.ring.cap == s.ring.cap
    ensures |s'.history.put| == |s.history.put| + if a.Manage? && s.manager.Putting? then 1 else 0
  {
    hide ManagerNext, WorkerNext, ManagerEnabled, WorkerEnabled, SyncInv, WorkerEffect;
    if a.Manage? { ManagerKeepsPlace(s, a.woken, a.fault); }
    if a.Work? {
      StepMovesWorkers(s, a, s');
      WorkerHasEffect(s, a.i, a.n, a.failed);
      WorkerKeepsPlace(s, a.i, s');
    }
  }

  lemma {:induction false} RunKeepsPlace(states: seq<State>, actions: seq<Action>, root: seq<Entry>, k: nat)
    requires Run(states, actions, root) && k <= |actions|
    ensures PlaceInv(states[k]) && states[k].ring.cap == states[0].ring.cap
  {
    hide Step;
    if k > 0 {
      RunKeepsPlace(states, actions, root, k - 1);
      RunKeepsSync(states, actions, root, k - 1);
      assert Step(states[k - 1], actions[k - 1], states[k - 1 + 1]);
      StepKeepsPlace(states[k - 1], actions[k - 1], states[k]);
    }
  }

  lemma {:induction false} PutsGrow(states: seq<State>, actions: seq<Action>, root: seq<Entry>, j: nat, k: nat)
    requires Run(states, actions, root) && j <= k <= |actions|
    ensures |states[j].history.put| <= |states[k].history.put|
    decreases k
  {
    hide Step, Init;
    if j < k {
      PutsGrow(states, actions, root, j, k - 1);
      RunKeepsPlace(states, actions, root, k - 1);
      RunKeepsSync(states, actions, root, k - 1);
      assert Step(states[k - 1], actions[k - 1], states[k - 1 + 1]);
      StepKeepsPlace(states[k - 1], actions[k - 1], states[k]);
    }
  }

  /** The put that comes after `n` others. */
  lemma {:induction false} PutNumber(states: seq<State>, actions: seq<Action>, root: seq<Entry>, n: nat, k: nat)
    returns (j: nat)
    requires Run(states, actions, root) && k <= |actions| && n < |states[k].history.put|
    ensures j < k && actions[j].Manage? && states[j].manager.Putting? && |states[j].history.put| == n
    decreases k
  {
    hide Step;
    RunKeepsPlace(states, actions, root, k - 1);
    RunKeepsSync(states, actions, root, k - 1);
    assert Step(states[k - 1], actions[k - 1], states[k - 1 + 1]);
    StepKeepsPlace(states[k - 1], actions[k - 1], states[k]);
    if n < |states[k - 1].history.put| {
      j := PutNumber(states, actions, root, n, k - 1);
    } else {
      j := k - 1;
    }
  }

  /** The step uses a place that the array of MAX_BUFFER_SIZE, 1024, elements has. */
  predicate InArray(s: State, a: Action) {
    && (a.Manage? && s.manager.Putting? ==> s.ring.inn < 1024)
    && (a.Work? && a.i < |s.workers| && s.workers[a.i].AtCheck? && s.ring.count > 0 ==> s.ring.out < 1024)
  }

  lemma StepInArray(states: seq<State>, actions: seq<Action>, root: seq<Entry>, k: nat)
    requires Run(states, actions, root) && k < |actions|
    requires states[0].ring.cap <= 1024 || |states[|actions|].history.put| <= 1024
    ensures InArray(states[k], actions[k])
  {
    RunKeepsPlace(states, actions, root, k);
    RunKeepsAccounts(states, actions, root, k, 0);
    StepKeepsPlace(states[k], actions[k], states[k + 1]);
    PutsGrow(states, actions, root, k, |actions|);
    PutsGrow(states, actions, root, k + 1, |actions|);
    hide Run, Step, SyncInv, CountInv, PairInv;
    var s := states[k];
    PlaceMeans(|s.history.put|, s.ring.cap);
    PlaceMeans(|s.history.taken|, s.ring.cap);
  }

  /**
   * Were the ring as long as the buffer size on the command line asks, a run would stay inside the array that
   * the program has if and only if that size is at most 1024 or the run puts at most 1024 files.
   */
  lemma ArrayServesExactly(states: seq<State>, actions: seq<Action>, root: seq<Entry>)
    requires Run(states, actions, root)
    ensures (forall k :: 0 <= k < |actions| ==> InArray(states[k], actions[k]))
       <==> (states[0].ring.cap <= 1024 || |states[|actions|].history.put| <= 1024)
  {
    if states[0].ring.cap <= 1024 || |states[|actions|].history.put| <= 1024 {
      forall k | 0 <= k < |actions| ensures InArray(states[k], actions[k]) {
        StepInArray(states, actions, root, k);
      }
    } else {
      var j := PutNumber(states, actions, root, 1024, |actions|);
      RunKeepsPlace(states, actions, root, j);
      PlaceMeans(1024, states[j].ring.cap);
      assert !InArray(states[j], actions[j]);
    }
  }

  /** For complete runs that is a condition on the tree. */
  lemma ArrayServesTree(states: seq<State>, actions: seq<Action>, root: seq<Entry>)
    requires Run(states, actions, root) && AllJoined(states[|actions|]) && Uncut(states[|actions|])
    ensures (forall k :: 0 <= k < |actions| ==> InArray(states[k], actions[k]))
       <==> (states[0].ring.cap <= 1024 || CountTree(root, IsRegular()) <= 1024)
  {
    hide Step, Init, AllJoined, InArray;
    assert Reachable(states[|actions|], root);
    ExactStatistics(states[|actions|], root);
    JoinedAccount(states[|actions|], root, 0);
    ArrayServesExactly(states, actions, root);
  }

  /** What a user can check beforehand. */
  ghost predicate ArrayServes(size: nat, root: seq<Entry>) {
    size <= 1024 || CountTree(root, IsRegular()) <= 1024
  }

  /** It suffices for every run, with the signal and failing calls at any moment. */
  lemma ArrayServesEveryRun(states: seq<State>, actions: seq<Action>, root: seq<Entry>)
    requires Run(states, actions, root) && ArrayServes(states[0].ring.cap, root)
    ensures forall k :: 0 <= k < |actions| ==> InArray(states[k], actions[k])
  {
    hide Step, Init, InArray, CountTree;
    assert Reachable(states[|actions|], root);
    PutsAreOfTree(states[|actions|], root);
    ArrayServesExactly(states, actions, root);
  }

  lemma ServedInArray(s: State, a: Action, root: seq<Entry>)
    requires Reachable(s, root) && Enabled(s, a) && ArrayServes(s.ring.cap, root)
    ensures InArray(s, a)
  {
    hide Init, InArray, SyncInv, Enabled, ArrayServes, ManagerNext, WorkerNext;
    var states, actions :| Run(states, actions, root) && s == states[|actions|];
    ReachableSync(s, root);
    StepsAreInBounds(s, a);
    var s' := Next(s, a);
    RunExtends(states, actions, root, a, s');
    var states', actions' := states + [s'], actions + [a];
    RunKeepsPlace(states, actions, root, |actions|);
    assert states'[0] == states[0];
    ArrayServesEveryRun(states', actions', root);
    assert states'[|actions|] == s && actions'[|actions|] == a;
  }
}
