/** What every step keeps of the walk, the statistics, the bytes and the files in the destination. */
module CopierFiles {
  import opened FileTree
  import opened RingBuffer
  import opened Copier
  import opened CopierSync
  import opened CopierAccounting
  import opened Sums

  /** No signal arrived and no system call failed so far. */
  ghost predicate Uncut(s: State) { s.history.clean && !s.stop }

  function IsRegular(): Node -> bool { (node: Node) => node.Regular? }
  function IsDirectory(): Node -> bool { (node: Node) => node.Directory? }
  function IsFifo(): Node -> bool { (node: Node) => node.Fifo? }
  function IsSymlink(): Node -> bool { (node: Node) => node.Symlink? }

  // ---- what the manager still has to visit ----

  ghost function Pending(stack: seq<Frame>): seq<Visit> {
    if stack == [] then [] else Flatten(stack[0].dir, stack[0].todo) + Pending(stack[1..])
  }

  ghost function Ahead(m: Manager): seq<Visit> {
    match m
    case Entering(path, entries) => Flatten(path, entries)
    case Visiting(dir, e) => FlattenNode(dir, e.name, e.node)
    case _ => []
  }

  predicate WalkOver(m: Manager) { m.DoneLock? || m.SettingDone? || m.Joined? }

  /**
   * The visits made and those still to come are the traversal of the whole tree, or under `stop` begin it;
   * whatever fails, they are entries of the tree in that order.
   */
  ghost predicate WalkInv(s: State, root: seq<Entry>) {
    && (WalkOver(s.manager) ==> s.stack == [])
    && Thinned(s.history.visited + (Ahead(s.manager) + Pending(s.stack)), Flatten([], root))
    && (s.history.clean ==> s.history.visited + Ahead(s.manager) <= Flatten([], root))
    && (Uncut(s) ==> s.history.visited + (Ahead(s.manager) + Pending(s.stack)) == Flatten([], root))
  }

  /** The entry is passed over. */
  predicate Skips(name: Name, node: Node, fault: Fault) {
    IsDots(name) || fault.EarlyFault? || (fault.LateFault? && node.Regular?)
  }

  /** It is visited, but cannot be created. */
  predicate Breaks(node: Node, fault: Fault) { fault.LateFault? && (node.Directory? || node.Symlink?) }

  lemma HandleMeans(s: State, path: Path, name: Name, node: Node, fault: Fault)
    ensures var o, skips := Handle(s, path, name, node, fault), Skips(name, node, fault);
            && o.history.visited == s.history.visited + (if skips then [] else [Visit(path, node)])
            && o.manager == (if skips then Scanning else match node
                             case Regular(content) => PutLock(Item(|s.history.visited|, path, content))
                             case Directory(entries) => Entering(path, entries)
                             case _ => Scanning)
            && o.fs == (if skips || !Kept(node) || Breaks(node, fault) then s.fs
                        else s.fs[path := if node.Regular? then FileImage([]) else ImageOf(node)])
            && o.history.broken == (if !skips && Breaks(node, fault)
                                    then s.history.broken[|s.history.visited| := Break(0, 0)] else s.history.broken)
            && o.history.missed == s.history.missed + (if skips && !IsDots(name) then {path} else {})
            && (o.history.clean ==> s.history.clean && (skips ==> IsDots(name)) && (skips || !Breaks(node, fault)))
  {
  }

  /** Parts of the manager's step that concern the walk and the files. */
  lemma ManagerWalks(s: State, woken: set<nat>, fault: Fault)
    requires 1 <= s.ring.cap && s.ring.inn < |s.ring.cells| && !s.manager.Visiting?
    ensures var s' := ManagerNext(s, woken, fault);
            && s'.fs == s.fs && s'.history.visited == s.history.visited && s'.history.broken == s.history.broken
            && s'.history.missed
               == s.history.missed + (if s.manager.Entering? && !fault.NoFault? then {s.manager.path} else {})
            && (s'.history.clean ==> s.history.clean)
            && (s'.stats.directories, s'.stats.fifoFiles, s'.stats.symlinks)
               == (s.stats.directories, s.stats.fifoFiles, s.stats.symlinks)
  {
    hide VisitEntry, Put, Wake, Sleepers, Pop;
  }

  lemma EnterKeepsWalk(s: State, woken: set<nat>, fault: Fault, root: seq<Entry>)
    requires WalkInv(s, root) && WellFormed(s.ring) && s.manager.Entering?
    ensures WalkInv(ManagerNext(s, woken, fault), root)
  {
    var s' := ManagerNext(s, woken, fault);
    var visited := s.history.visited;
    assert visited + [] == visited && [] + Pending(s'.stack) == Pending(s'.stack);
    if fault.NoFault? {
      assert s'.stack[1..] == s.stack;
    } else {
      ThinnedDrop(visited, Ahead(s.manager), Pending(s.stack), Flatten([], root));
    }
  }

  lemma PendingPush(f: Frame, stack: seq<Frame>)
    ensures Pending([f] + stack) == Flatten(f.dir, f.todo) + Pending(stack)
  {
    assert ([f] + stack)[1..] == stack;
  }

  lemma FlattenTake(dir: Path, todo: seq<Entry>)
    requires todo != []
    ensures Flatten(dir, todo) == FlattenNode(dir, todo[0].name, todo[0].node) + Flatten(dir, todo[1..])
  {
  }

  lemma Regroup<T>(a: seq<T>, b: seq<T>, c: seq<T>, d: seq<T>)
    ensures a + (b + c) == (a + b) + c
    ensures a + ((b + c) + d) == (a + b) + (c + d)
  {
  }

  lemma TakeEntry(stack: seq<Frame>, visited: seq<Visit>)
    requires stack != [] && stack[0].todo != []
    ensures var f, e := stack[0], stack[0].todo[0];
            var now, rest := FlattenNode(f.dir, e.name, e.node), Pending([Frame(f.dir, f.todo[1..])] + stack[1..]);
            now + rest == Pending(stack) && (visited + now) + rest == visited + Pending(stack)
  {
    hide *;
    var f, e, under := stack[0], stack[0].todo[0], stack[1..];
    assert stack == [f] + under;
    PendingPush(f, under);
    PendingPush(Frame(f.dir, f.todo[1..]), under);
    FlattenTake(f.dir, f.todo);
    var now := FlattenNode(f.dir, e.name, e.node);
    Regroup(now, Flatten(f.dir, f.todo[1..]), Pending(under), []);
    Regroup(visited, now, Flatten(f.dir, f.todo[1..]), Pending(under));
  }

  lemma ScanStep(s: State, woken: set<nat>, fault: Fault)
    requires WellFormed(s.ring) && s.manager.Scanning?
    ensures ManagerNext(s, woken, fault) ==
      if s.stack == [] then s.(manager := DoneLock)
      else if s.stack[0].todo == [] || s.stop then s.(stack := s.stack[1..])
      else s.(stack := [Frame(s.stack[0].dir, s.stack[0].todo[1..])] + s.stack[1..],
              manager := Visiting(s.stack[0].dir, s.stack[0].todo[0]))
  {
  }

  /** A directory left under `stop`. */
  lemma LeaveFrame(visited: seq<Visit>, stack: seq<Frame>, all: seq<Visit>)
    requires stack != [] && Thinned(visited + ([] + Pending(stack)), all)
    ensures Thinned(visited + ([] + Pending(stack[1..])), all)
  {
    var todo := Flatten(stack[0].dir, stack[0].todo);
    assert [] + Pending(stack) == todo + Pending(stack[1..]);
    ThinnedDrop(visited, todo, Pending(stack[1..]), all);
    assert [] + Pending(stack[1..]) == Pending(stack[1..]);
  }

  lemma ScanKeepsWalk(s: State, woken: set<nat>, fault: Fault, root: seq<Entry>)
    requires WalkInv(s, root) && WellFormed(s.ring) && s.manager.Scanning?
    ensures WalkInv(ManagerNext(s, woken, fault), root)
  {
    ScanStep(s, woken, fault);
    hide ManagerNext, Thinned, FlattenNode;
    assert s.history.visited + [] == s.history.visited;
    assert [] + Pending(s.stack) == Pending(s.stack);
    if s.stack != [] && s.stack[0].todo != [] && !s.stop {
      TakeEntry(s.stack, s.history.visited);
      hide Pending, Flatten;
    } else if s.stack != [] {
      LeaveFrame(s.history.visited, s.stack, Flatten([], root));
      assert s.stack[0].todo == [] ==> Pending(s.stack) == [] + Pending(s.stack[1..]);
    }
  }

  lemma PuttingWalks(s: State, woken: set<nat>, fault: Fault)
    requires 1 <= s.ring.cap && s.ring.inn < |s.ring.cells|
    requires !s.manager.Visiting? && !s.manager.Scanning? && !s.manager.Entering?
    ensures var s' := ManagerNext(s, woken, fault);
            && s'.stop == s.stop && s'.stack == (if s.manager.PutCheck? && s.stop then Pop(s.stack) else s.stack)
            && Ahead(s'.manager) == Ahead(s.manager) == []
            && (WalkOver(s'.manager) ==> WalkOver(s.manager))
  {
    hide VisitEntry, Put, Wake, Sleepers, Pop, Flatten;
  }

  lemma PuttingKeepsWalk(s: State, woken: set<nat>, fault: Fault, root: seq<Entry>)
    requires WalkInv(s, root) && WellFormed(s.ring)
    requires !s.manager.Visiting? && !s.manager.Scanning? && !s.manager.Entering?
    ensures WalkInv(ManagerNext(s, woken, fault), root)
  {
    hide ManagerNext, WalkOver, Pending, Flatten, Thinned, Ahead;
    ManagerWalks(s, woken, fault);
    PuttingWalks(s, woken, fault);
    if s.manager.PutCheck? && s.stop && s.stack != [] {
      LeaveFrame(s.history.visited, s.stack, Flatten([], root));
    }
  }

  /** What visiting an entry moves from ahead to behind. */
  lemma EntryWalk(visited: seq<Visit>, dir: Path, e: Entry, rest: seq<Visit>)
    requires !IsDots(e.name)
    ensures var path := dir + [e.name];
            var now, ahead := [Visit(path, e.node)], if e.node.Directory? then Flatten(path, e.node.entries) else [];
            && visited + FlattenNode(dir, e.name, e.node) == (visited + now) + ahead
            && visited + (FlattenNode(dir, e.name, e.node) + rest) == (visited + now) + (ahead + rest)
  {
    hide Flatten;
    var path := dir + [e.name];
    var now, ahead := [Visit(path, e.node)], if e.node.Directory? then Flatten(path, e.node.entries) else [];
    assert FlattenNode(dir, e.name, e.node) == now + ahead;
    Regroup(visited, now, ahead, rest);
  }

  lemma VisitKeepsWalk(s: State, woken: set<nat>, fault: Fault, root: seq<Entry>)
    requires WalkInv(s, root) && WellFormed(s.ring) && s.manager.Visiting?
    ensures WalkInv(ManagerNext(s, woken, fault), root)
  {
    hide Handle, Thinned, FlattenNode, Flatten, Pending;
    var dir, e := s.manager.dir, s.manager.entry;
    VisitNext(s, woken, fault);
    HandleMeans(s, dir + [e.name], e.name, e.node, fault);
    hide ManagerNext, Skips;
    var visited, rest := s.history.visited, Pending(s.stack);
    if Skips(e.name, e.node, fault) {
      ThinnedDrop(visited, Ahead(s.manager), rest, Flatten([], root));
      DotsHaveNoVisits(dir, e);
      assert visited + [] == visited && [] + rest == rest;
    } else {
      NotDots(e.name, e.node, fault);
      EntryWalk(visited, dir, e, rest);
    }
  }

  lemma DotsHaveNoVisits(dir: Path, e: Entry)
    ensures IsDots(e.name) ==> FlattenNode(dir, e.name, e.node) == []
  {
  }

  lemma NotDots(name: Name, node: Node, fault: Fault)
    ensures !Skips(name, node, fault) ==> !IsDots(name)
  {
  }

  lemma WorkerFiles(s: State, i: nat, n: nat, failed: bool)
    requires WorkerEnabled(s, i, n, failed) && Accesses(s, Work(i, n, failed))
    ensures var s', w := WorkerNext(s, i, n, failed), s.workers[i];
            && s'.fs == (if w.Copying? then Append(s.fs, w.item.path, w.item.content[w.off..w.off + n]) else s.fs)
            && s'.history.missed == s.history.missed
            && s'.history.clean == (s.history.clean && !(w.Copying? && failed))
            && s'.history.broken == (if w.Copying? && failed
                                     then s.history.broken[w.item.id := Break(w.off + n, w.off)] else s.history.broken)
  {
  }

  /** A step that leaves the walk alone, whether or not it fails. */
  lemma SameWalk(s: State, s': State, root: seq<Entry>)
    requires WalkInv(s, root)
    requires s'.stack == s.stack && s'.history.visited == s.history.visited
    requires Ahead(s'.manager) == Ahead(s.manager) && (WalkOver(s'.manager) ==> WalkOver(s.manager))
    requires (s'.history.clean ==> s.history.clean) && (s.stop ==> s'.stop)
    ensures WalkInv(s', root)
  {
    hide Ahead, Pending, Flatten, Thinned, WalkOver;
  }

  lemma WorkerKeepsWalk(s: State, i: nat, n: nat, failed: bool, root: seq<Entry>)
    requires WorkerEnabled(s, i, n, failed) && Accesses(s, Work(i, n, failed)) && WalkInv(s, root)
    ensures WalkInv(WorkerNext(s, i, n, failed), root)
  {
    hide WorkerNext, WalkInv, Flatten;
    WorkerHasEffect(s, i, n, failed);
    WorkerFiles(s, i, n, failed);
    SameWalk(s, WorkerNext(s, i, n, failed), root);
  }

  lemma StepKeepsWalk(s: State, a: Action, s': State, root: seq<Entry>)
    requires WalkInv(s, root) && SyncInv(s) && Step(s, a, s')
    ensures WalkInv(s', root)
  {
    hide ManagerNext, WorkerNext, WalkInv, Flatten, WorkerEnabled, ManagerEnabled;
    match a
    case Manage(woken, fault) =>
      if s.manager.Visiting? {
        VisitKeepsWalk(s, woken, fault, root);
      } else if s.manager.Scanning? {
        ScanKeepsWalk(s, woken, fault, root);
      } else if s.manager.Entering? {
        EnterKeepsWalk(s, woken, fault, root);
      } else {
        PuttingKeepsWalk(s, woken, fault, root);
      }
    case Work(i, n, failed) => WorkerKeepsWalk(s, i, n, failed, root);
    case _ => SameWalk(s, s', root);
  }

  // ---- nothing is passed over without a reason ----

  /** A call that failed on the path itself or on a directory above it. */
  ghost predicate Excused(missed: set<Path>, path: Path) { exists p :: p in missed && p <= path }

  /** An entry of the tree has been visited, or is still to come, or there is an excuse. */
  ghost predicate Covered(s: State, v: Visit) {
    v in s.history.visited || v in Ahead(s.manager) || v in Pending(s.stack) || Excused(s.history.missed, v.path)
  }

  /** Without `stop`. */
  ghost predicate CoverInv(s: State, root: seq<Entry>) {
    !s.stop ==> forall v :: v in Flatten([], root) ==> Covered(s, v)
  }

  lemma EntersUnder(dir: Path, entries: seq<Entry>, v: Visit)
    requires v in Flatten(dir, entries)
    ensures dir <= v.path
  {
    FlattenUnder(dir, entries, v);
  }

  lemma NodeUnder(dir: Path, name: Name, node: Node, v: Visit)
    requires v in FlattenNode(dir, name, node)
    ensures !IsDots(name) && dir + [name] <= v.path
  {
    FlattenNodeUnder(dir, name, node, v);
  }

  lemma EnterCovers(s: State, woken: set<nat>, fault: Fault, v: Visit)
    requires WellFormed(s.ring) && s.manager.Entering? && Covered(s, v)
    ensures Covered(ManagerNext(s, woken, fault), v)
  {
    var s' := ManagerNext(s, woken, fault);
    var path, entries := s.manager.path, s.manager.entries;
    PendingPush(Frame(path, entries), s.stack);
    if v in Flatten(path, entries) { EntersUnder(path, entries, v); }
    hide Flatten, Pending;
    assert fault.NoFault? || path in s'.history.missed;
    assert forall p :: p in s.history.missed ==> p in s'.history.missed;
  }

  lemma ScanCovers(s: State, woken: set<nat>, fault: Fault, v: Visit)
    requires WellFormed(s.ring) && s.manager.Scanning? && !s.stop && Covered(s, v)
    ensures Covered(ManagerNext(s, woken, fault), v)
  {
    ScanStep(s, woken, fault);
    hide ManagerNext, FlattenNode;
    if s.stack != [] && s.stack[0].todo != [] {
      TakeEntry(s.stack, []);
      hide Pending, Flatten;
    } else if s.stack != [] {
      assert Pending(s.stack) == [] + Pending(s.stack[1..]);
    }
  }

  lemma VisitCovers(s: State, woken: set<nat>, fault: Fault, v: Visit)
    requires WellFormed(s.ring) && s.manager.Visiting? && Covered(s, v)
    ensures Covered(ManagerNext(s, woken, fault), v)
  {
    hide Handle, FlattenNode, Flatten, Pending;
    var dir, e := s.manager.dir, s.manager.entry;
    VisitNext(s, woken, fault);
    HandleMeans(s, dir + [e.name], e.name, e.node, fault);
    hide ManagerNext;
    var s' := ManagerNext(s, woken, fault);
    assert forall p :: p in s.history.missed ==> p in s'.history.missed;
    if v in FlattenNode(dir, e.name, e.node) {
      NodeUnder(dir, e.name, e.node, v);
      EntryWalk([], dir, e, []);
      assert v in [] + FlattenNode(dir, e.name, e.node);
      assert Skips(e.name, e.node, fault) ==> dir + [e.name] in s'.history.missed;
    }
  }

  lemma RestCovers(s: State, s': State, v: Visit)
    requires Covered(s, v) && s'.history.visited == s.history.visited && s'.history.missed == s.history.missed
    requires s'.stack == s.stack && Ahead(s'.manager) == Ahead(s.manager)
    ensures Covered(s', v)
  {
    hide Ahead, Pending, Excused;
  }

  lemma PuttingCovers(s: State, woken: set<nat>, fault: Fault, v: Visit)
    requires WellFormed(s.ring) && !s.stop && Covered(s, v)
    requires !s.manager.Visiting? && !s.manager.Scanning? && !s.manager.Entering?
    ensures Covered(ManagerNext(s, woken, fault), v)
  {
    hide Pending, Covered, Put, Wake, Sleepers, VisitEntry;
    ManagerWalks(s, woken, fault);
    RestCovers(s, ManagerNext(s, woken, fault), v);
  }

  lemma StepCovers(s: State, a: Action, s': State, v: Visit)
    requires SyncInv(s) && Step(s, a, s') && !s'.stop && Covered(s, v)
    ensures !s.stop && Covered(s', v)
  {
    hide ManagerNext, WorkerNext, Covered, Pending, ManagerEnabled;
    match a
    case Manage(woken, fault) =>
      ManagerHasEffect(s, woken, fault);
      if s.manager.Visiting? {
        VisitCovers(s, woken, fault, v);
      } else if s.manager.Scanning? {
        ScanCovers(s, woken, fault, v);
      } else if s.manager.Entering? {
        EnterCovers(s, woken, fault, v);
      } else {
        PuttingCovers(s, woken, fault, v);
      }
    case Work(i, n, failed) =>
      WorkerHasEffect(s, i, n, failed);
      WorkerFiles(s, i, n, failed);
      RestCovers(s, s', v);
    case _ => RestCovers(s, s', v);
  }

  /** An entry is passed over only because a call failed on it or on a directory above it, or under `stop`. */
  lemma StepKeepsCover(s: State, a: Action, s': State, root: seq<Entry>)
    requires CoverInv(s, root) && SyncInv(s) && Step(s, a, s')
    ensures CoverInv(s', root)
  {
    hide Covered, Flatten, SyncInv;
    if !s'.stop {
      StopStays(s, a, s');
      hide Step;
      forall v | v in Flatten([], root) ensures Covered(s', v) { StepCovers(s, a, s', v); }
    }
  }

  lemma StopStays(s: State, a: Action, s': State)
    requires Step(s, a, s')
    ensures s.stop ==> s'.stop
  {
    hide ManagerNext, WorkerNext;
    match a
    case Manage(woken, fault) => ManagerHasEffect(s, woken, fault);
    case Work(i, n, failed) => WorkerHasEffect(s, i, n, failed);
    case _ =>
  }

  // ---- statistics over the visits ----

  lemma CountVisitsAdd(visits: seq<Visit>, v: Visit, p: Node -> bool)
    ensures CountVisits(visits + [v], p) == CountVisits(visits, p) + if p(v.node) then 1 else 0
  {
    assert (visits + [v])[..|visits|] == visits;
  }

  ghost predicate StatInv(s: State) {
    && s.stats.directories == CountVisits(s.history.visited, IsDirectory())
    && s.stats.fifoFiles == CountVisits(s.history.visited, IsFifo())
    && s.stats.symlinks == CountVisits(s.history.visited, IsSymlink())
  }

  lemma HandleKeepsStats(s: State, path: Path, name: Name, node: Node, fault: Fault)
    requires StatInv(s)
    ensures var o := Handle(s, path, name, node, fault);
            StatInv(s.(stats := o.stats, history := o.history))
  {
    CountVisitsAdd(s.history.visited, Visit(path, node), IsDirectory());
    CountVisitsAdd(s.history.visited, Visit(path, node), IsFifo());
    CountVisitsAdd(s.history.visited, Visit(path, node), IsSymlink());
    hide CountVisits;
  }

  lemma StepKeepsStats(s: State, a: Action, s': State)
    requires StatInv(s) && Step(s, a, s')
    ensures StatInv(s')
  {
    hide WorkerNext, Handle;
    match a
    case Manage(woken, fault) =>
      if s.manager.Visiting? {
        var dir, e := s.manager.dir, s.manager.entry;
        HandleKeepsStats(s, dir + [e.name], e.name, e.node, fault);
      } else {
        hide ManagerNext;
        ManagerWalks(s, woken, fault);
      }
    case Work(i, n, failed) => WorkerHasEffect(s, i, n, failed);
    case _ =>
  }

  // ---- items are what the visits say ----

  ghost predicate Genuine(visited: seq<Visit>, item: Item) {
    item.id < |visited| && visited[item.id] == Visit(item.path, Regular(item.content))
  }

  function RegularItems(visited: seq<Visit>): seq<Item> {
    if visited == [] then []
    else
      var id := |visited| - 1;
      var v := visited[id];
      RegularItems(visited[..id]) + if v.node.Regular? then [Item(id, v.path, v.node.content)] else []
  }

  function Carried(m: Manager): seq<Item> { if Carries(m) then [m.item] else [] }

  /** The files put are the regular ones visited, but for one given up under `stop` just before the walk ends. */
  ghost predicate PutsFollow(s: State) {
    var files := RegularItems(s.history.visited);
    || s.history.put + Carried(s.manager) == files
    || (s.stop && (s.manager.Scanning? || WalkOver(s.manager)) && files != [] && s.history.put == files[..|files| - 1])
  }

  ghost predicate ItemInv(s: State) {
    && (forall k :: 0 <= k < |s.history.put| ==> Genuine(s.history.visited, s.history.put[k]))
    && (forall i :: 0 <= i < |s.workers| && (s.workers[i].Copying? || s.workers[i].Closing?)
          ==> Genuine(s.history.visited, s.workers[i].item) && s.workers[i].item in s.history.put)
    && (Carries(s.manager) ==> Genuine(s.history.visited, s.manager.item))
    && PutsFollow(s)
  }

  lemma RegularItemsAdd(visited: seq<Visit>, v: Visit)
    ensures RegularItems(visited + [v])
            == RegularItems(visited) + if v.node.Regular? then [Item(|visited|, v.path, v.node.content)] else []
  {
    assert (visited + [v])[..|visited|] == visited;
  }

  lemma HandleIsGenuine(s: State, path: Path, name: Name, node: Node, fault: Fault)
    ensures var o := Handle(s, path, name, node, fault);
            && |s.history.visited| <= |o.history.visited|
            && o.history.visited[..|s.history.visited|] == s.history.visited
            && (Carries(o.manager) ==> Genuine(o.history.visited, o.manager.item))
            && (o.history.clean ==> s.history.clean)
  {
  }

  lemma VisitNext(s: State, woken: set<nat>, fault: Fault)
    requires WellFormed(s.ring) && s.manager.Visiting?
    ensures ManagerNext(s, woken, fault) == VisitEntry(s, s.manager.dir, s.manager.entry, fault)
  {
  }

  lemma GenuineGrows(visited: seq<Visit>, visited': seq<Visit>)
    requires |visited| <= |visited'| && visited'[..|visited|] == visited
    ensures forall item :: Genuine(visited, item) ==> Genuine(visited', item)
  {
  }

  lemma VisitFollows(s: State, path: Path, name: Name, node: Node, fault: Fault)
    requires PutsFollow(s) && s.manager.Visiting?
    ensures var o := Handle(s, path, name, node, fault);
            s.history.put + Carried(o.manager) == RegularItems(o.history.visited)
  {
    HandleMeans(s, path, name, node, fault);
    hide Handle;
    RegularItemsAdd(s.history.visited, Visit(path, node));
    hide RegularItems;
    assert s.history.put + [] == s.history.put;
    assert s.history.visited + [] == s.history.visited;
  }

  lemma VisitKeepsItems(s: State, woken: set<nat>, fault: Fault)
    requires ItemInv(s) && WellFormed(s.ring) && s.manager.Visiting?
    ensures ItemInv(ManagerNext(s, woken, fault))
  {
    hide Handle, ManagerNext, Genuine, RegularItems;
    VisitNext(s, woken, fault);
    var dir, e := s.manager.dir, s.manager.entry;
    var path := dir + [e.name];
    var o := Handle(s, path, e.name, e.node, fault);
    HandleEffect(s, path, e.name, e.node, fault);
    HandleIsGenuine(s, path, e.name, e.node, fault);
    VisitFollows(s, path, e.name, e.node, fault);
    GenuineGrows(s.history.visited, o.history.visited);
  }

  lemma StaysOver(s: State, woken: set<nat>, fault: Fault)
    requires 1 <= s.ring.cap && s.ring.inn < |s.ring.cells|
    requires s.stop && (s.manager.Scanning? || WalkOver(s.manager))
    ensures var m' := ManagerNext(s, woken, fault).manager; m'.Scanning? || WalkOver(m')
  {
    hide VisitEntry;
  }

  lemma GivingUp(s: State, woken: set<nat>, fault: Fault)
    requires 1 <= s.ring.cap && s.ring.inn < |s.ring.cells| && s.manager.PutCheck? && s.stop
    ensures ManagerNext(s, woken, fault).manager.Scanning?
  {
  }

  lemma ManagerKeepsFollowing(s: State, woken: set<nat>, fault: Fault)
    requires 1 <= s.ring.cap && s.ring.inn < |s.ring.cells| && !s.manager.Visiting? && PutsFollow(s)
    ensures PutsFollow(ManagerNext(s, woken, fault))
  {
    ManagerHasEffect(s, woken, fault);
    ManagerHands(s, woken, fault);
    if s.stop && s.manager.PutCheck? { GivingUp(s, woken, fault); }
    if s.stop && (s.manager.Scanning? || WalkOver(s.manager)) { StaysOver(s, woken, fault); }
    hide ManagerNext, RegularItems;
    assert s.history.put + [] == s.history.put;
    if Carries(s.manager) {
      assert (s.history.put + [s.manager.item])[..|s.history.put|] == s.history.put;
    }
  }

  lemma ManagerKeepsItems(s: State, woken: set<nat>, fault: Fault)
    requires ItemInv(s) && SyncInv(s) && !s.manager.Visiting?
    ensures ItemInv(ManagerNext(s, woken, fault))
  {
    hide ManagerNext, PutsFollow, MutexInv, WaitInv, Genuine;
    ManagerHasEffect(s, woken, fault);
    ManagerHands(s, woken, fault);
    ManagerWalks(s, woken, fault);
    var s' := ManagerNext(s, woken, fault);
    assert forall i :: 0 <= i < |s'.workers| ==> s'.workers[i] == s.workers[i] || s'.workers[i].Woken?;
    ManagerKeepsFollowing(s, woken, fault);
  }

  lemma FrontIsPut(s: State)
    requires FifoInv(s) && s.ring.count > 0
    ensures |s.history.taken| < |s.history.put| && Front(s.ring) == s.history.put[|s.history.taken|]
  {
    TakeRemovesFirst(s.ring);
    assert Front(s.ring) == Contents(s.ring)[0];
  }

  lemma HandsKeepItems(s: State, i: nat, s': State)
    requires ItemInv(s) && i < |s.workers| && WorkerEffect(s, i, s')
    requires |s'.workers| == |s.workers| && s'.workers == s.workers[i := s'.workers[i]]
    requires var w' := s'.workers[i];
             w'.Copying? || w'.Closing? ==> Genuine(s.history.visited, w'.item) && w'.item in s.history.put
    ensures ItemInv(s')
  {
    hide Genuine, RegularItems, Take, Front;
  }

  lemma WorkerKeepsItems(s: State, i: nat, n: nat, failed: bool)
    requires ItemInv(s) && FifoInv(s) && SyncInv(s) && WorkerEnabled(s, i, n, failed)
    ensures ItemInv(WorkerNext(s, i, n, failed))
  {
    hide WorkerNext, MutexInv, WaitInv, Genuine, PutsFollow, WorkerEffect;
    StepsAreInBounds(s, Work(i, n, failed));
    WorkerHasEffect(s, i, n, failed);
    WorkerMoves(s, i, n, failed);
    if s.workers[i].AtCheck? && s.ring.count > 0 { FrontIsPut(s); }
    HandsKeepItems(s, i, WorkerNext(s, i, n, failed));
  }

  lemma StepKeepsItems(s: State, a: Action, s': State)
    requires ItemInv(s) && FifoInv(s) && SyncInv(s) && Step(s, a, s')
    ensures ItemInv(s')
  {
    hide ManagerNext, WorkerNext;
    match a
    case Manage(woken, fault) =>
      if s.manager.Visiting? { VisitKeepsItems(s, woken, fault); } else { ManagerKeepsItems(s, woken, fault); }
    case Work(i, n, failed) => WorkerKeepsItems(s, i, n, failed);
    case _ =>
  }

  // ---- one pair through the accounts ----

  lemma {:induction false} CountItemsPositive(items: seq<Item>, x: Item)
    requires x in items
    ensures CountItems(items, x.id) > 0
  {
    if items[|items| - 1] != x { CountItemsPositive(items[..|items| - 1], x); }
  }

  lemma {:induction false} CountItemsMember(items: seq<Item>, id: nat) returns (x: Item)
    requires CountItems(items, id) > 0
    ensures x in items && x.id == id
  {
    x := items[|items| - 1];
    if x.id != id { x := CountItemsMember(items[..|items| - 1], id); }
  }

  /** Each regular visit is one item. */
  lemma {:induction false} RegularOnce(visited: seq<Visit>, id: nat)
    ensures CountItems(RegularItems(visited), id) == TimesOpened(visited, id)
  {
    if visited != [] {
      var last := |visited| - 1;
      RegularOnce(visited[..last], id);
      var v := visited[last];
      if v.node.Regular? { CountItemsAdd(RegularItems(visited[..last]), Item(last, v.path, v.node.content), id); }
      else { assert RegularItems(visited[..last]) + [] == RegularItems(visited[..last]); }
    }
  }

  lemma CarriedFollows(s: State)
    requires ItemInv(s) && Carries(s.manager)
    ensures s.history.put + [s.manager.item] == RegularItems(s.history.visited)
  {
    hide RegularItems, Genuine;
  }

  /** The pair in the manager's hands is still open and has not been put. */
  lemma CarriedIsNew(s: State)
    requires FifoInv(s) && ItemInv(s) && Carries(s.manager) && PairInv(s, s.manager.item.id)
    ensures TimesClosed(s.history.closed, s.manager.item.id) == 0 && CountItems(s.history.put, s.manager.item.id) == 0
  {
    hide ItemInv, CountItems, RegularItems, TimesClosed, Sum, Holding, Contents;
    var id := s.manager.item.id;
    CarriedFollows(s);
    RegularOnce(s.history.visited, id);
    CountItemsAdd(s.history.put, s.manager.item, id);
    CountItemsConcat(s.history.taken, Contents(s.ring), id);
  }

  /** From the accounts: a pair is closed or held at most once altogether. */
  lemma HeldOnce(s: State, id: nat)
    requires FifoInv(s) && PairInv(s, id)
    ensures TimesClosed(s.history.closed, id) + Sum(s.workers, Holding(id)) <= TimesOpened(s.history.visited, id)
  {
    CountItemsConcat(s.history.taken, Contents(s.ring), id);
  }

  /** A pair that nobody holds weighs nothing; one that is held is held once. */
  lemma {:induction false} HeldAlone(ws: seq<Worker>, id: nat, f: Worker -> nat)
    requires forall w :: Holding(id)(w) == 0 ==> f(w) == 0
    ensures Sum(ws, Holding(id)) == 0 ==> Sum(ws, f) == 0
    ensures Sum(ws, Holding(id)) == 1 ==>
              forall i :: 0 <= i < |ws| && Holding(id)(ws[i]) == 1 ==> Sum(ws, f) == f(ws[i])
  {
    if ws != [] {
      HeldAlone(ws[..|ws| - 1], id, f);
      forall i | 0 <= i < |ws| && Holding(id)(ws[i]) == 1 && Sum(ws, Holding(id)) == 1
        ensures Sum(ws, f) == f(ws[i])
      {
        if i < |ws| - 1 { SumAtLeastOne(ws[..|ws| - 1], i, Holding(id)); }
      }
    }
  }

  /** No file is put twice. */
  lemma PutOnce(s: State, id: nat)
    requires PutsFollow(s)
    ensures CountItems(s.history.put, id) <= TimesOpened(s.history.visited, id)
  {
    var files := RegularItems(s.history.visited);
    RegularOnce(s.history.visited, id);
    if s.history.put + Carried(s.manager) == files {
      CountItemsConcat(s.history.put, Carried(s.manager), id);
    } else {
      CountItemsAdd(s.history.put, files[|files| - 1], id);
      assert s.history.put + [files[|files| - 1]] == files;
    }
  }

  /** What a worker holds has been taken, once. */
  lemma HeldIsTaken(s: State, i: nat, item: Item)
    requires FifoInv(s) && ItemInv(s) && PairInv(s, item.id) && i < |s.workers|
    requires (s.workers[i].Copying? || s.workers[i].Closing?) && s.workers[i].item == item
    ensures item in s.history.taken && CountItems(s.history.taken, item.id) == 1
  {
    HeldOnce(s, item.id);
    SumAtLeastOne(s.workers, i, Holding(item.id));
    PutOnce(s, item.id);
    CountItemsPositive(s.history.put, item);
    CountItemsConcat(s.history.taken, Contents(s.ring), item.id);
    var x := CountItemsMember(s.history.taken, item.id);
    var k :| 0 <= k < |s.history.taken| && s.history.taken[k] == x;
    assert s.history.put[k] == x && Genuine(s.history.visited, x);
  }

  // ---- files that broke off ----

  function AtClosing(id: nat): Worker -> nat {
    (w: Worker) => if w.Closing? && w.item.id == id then 1 else 0
  }

  /** Reading and writing a pair stops where it breaks off. */
  ghost predicate BreakInv(s: State, id: nat) {
    id in s.history.broken ==>
      && id < |s.history.visited|
      && (s.history.visited[id].node.Regular? ==>
            TimesClosed(s.history.closed, id) + Sum(s.workers, AtClosing(id)) > 0)
  }

  lemma CopyingIsWhole(s: State, i: nat)
    requires i < |s.workers| && s.workers[i].Copying?
    requires FifoInv(s) && PairInv(s, s.workers[i].item.id) && BreakInv(s, s.workers[i].item.id)
    ensures s.workers[i].item.id !in s.history.broken
  {
    var id := s.workers[i].item.id;
    HeldOnce(s, id);
    SumAtLeastOne(s.workers, i, Holding(id));
    HeldAlone(s.workers, id, AtClosing(id));
  }

  lemma BufferedIsWhole(s: State)
    requires FifoInv(s) && ItemInv(s) && s.ring.count > 0
    requires PairInv(s, Front(s.ring).id) && BreakInv(s, Front(s.ring).id)
    ensures Front(s.ring).id !in s.history.broken
  {
    var item := Front(s.ring);
    FrontIsPut(s);
    assert Contents(s.ring)[0] == item;
    assert Genuine(s.history.visited, item);
    CountItemsPositive(Contents(s.ring), item);
    CountItemsConcat(s.history.taken, Contents(s.ring), item.id);
    HeldAlone(s.workers, item.id, AtClosing(item.id));
  }

  lemma WorkerKeepsBreaks(s: State, i: nat, n: nat, failed: bool, id: nat)
    requires WorkerEnabled(s, i, n, failed) && Accesses(s, Work(i, n, failed)) && BreakInv(s, id)
    requires s.workers[i].Copying? ==> Genuine(s.history.visited, s.workers[i].item)
    ensures BreakInv(WorkerNext(s, i, n, failed), id)
  {
    WorkerHasEffect(s, i, n, failed);
    WorkerMoves(s, i, n, failed);
    WorkerFiles(s, i, n, failed);
    if failed { FailingCloses(s, i, n); }
    var s' := WorkerNext(s, i, n, failed);
    hide WorkerNext, WorkerEnabled;
    SumReplace(s.workers, i, s'.workers[i], AtClosing(id));
    if s.workers[i].Closing? { TimesClosedAdd(s.history.closed, s.workers[i].item.id, id); }
    hide Sum, TimesClosed;
  }

  lemma FailingCloses(s: State, i: nat, n: nat)
    requires WorkerEnabled(s, i, n, true) && Accesses(s, Work(i, n, true))
    ensures s.workers[i].Copying? ==>
              WorkerNext(s, i, n, true).workers[i] == Closing(s.workers[i].item, s.workers[i].off)
  {
  }

  lemma ManagerKeepsBreaks(s: State, woken: set<nat>, fault: Fault, id: nat)
    requires WellFormed(s.ring) && BreakInv(s, id)
    requires Sum(ManagerNext(s, woken, fault).workers, AtClosing(id)) == Sum(s.workers, AtClosing(id))
    ensures BreakInv(ManagerNext(s, woken, fault), id)
  {
    ManagerHasEffect(s, woken, fault);
    if s.manager.Visiting? {
      var dir, e := s.manager.dir, s.manager.entry;
      VisitNext(s, woken, fault);
      HandleMeans(s, dir + [e.name], e.name, e.node, fault);
    } else {
      ManagerWalks(s, woken, fault);
    }
    if s.manager.PutCheck? && s.stop { TimesClosedAdd(s.history.closed, s.manager.item.id, id); }
    hide ManagerNext, Handle, Sum, TimesClosed;
  }

  lemma StepKeepsBreaks(s: State, a: Action, s': State, id: nat)
    requires BreakInv(s, id) && ItemInv(s) && SyncInv(s) && Step(s, a, s')
    ensures BreakInv(s', id)
  {
    hide ManagerNext, WorkerNext, BreakInv, AtClosing;
    StepMovesWorkers(s, a, s');
    match a
    case Manage(woken, fault) =>
      SumMoves(s, a, s', id);
      ManagerKeepsBreaks(s, woken, fault, id);
    case Work(i, n, failed) => WorkerKeepsBreaks(s, i, n, failed, id);
    case _ =>
      SumMoves(s, a, s', id);
      SameBreaks(s, s', id);
  }

  lemma SumMoves(s: State, a: Action, s': State, id: nat)
    requires WorkersMove(s, a, s') && !a.Work?
    ensures Sum(s'.workers, AtClosing(id)) == Sum(s.workers, AtClosing(id))
  {
    SumWorkersMove(s, a, s', AtClosing(id));
  }

  lemma SameBreaks(s: State, s': State, id: nat)
    requires BreakInv(s, id) && s'.history == s.history
    requires Sum(s'.workers, AtClosing(id)) == Sum(s.workers, AtClosing(id))
    ensures BreakInv(s', id)
  {
  }

  // ---- bytes ----

  function SizeItems(items: seq<Item>): nat {
    if items == [] then 0
    else SizeItems(items[..|items| - 1]) + |items[|items| - 1].content|
  }

  lemma SizeItemsAdd(items: seq<Item>, x: Item)
    ensures SizeItems(items + [x]) == SizeItems(items) + |x.content|
  {
    assert (items + [x])[..|items|] == items;
  }

  /** What a file adds to the total: its size, or the whole chunks before it broke off. */
  function Counted(item: Item, broken: map<nat, Break>): nat {
    if item.id in broken then broken[item.id].counted else |item.content|
  }

  function CountedBytes(items: seq<Item>, broken: map<nat, Break>): nat {
    if items == [] then 0
    else CountedBytes(items[..|items| - 1], broken) + Counted(items[|items| - 1], broken)
  }

  lemma CountedBytesAdd(items: seq<Item>, x: Item, broken: map<nat, Break>)
    ensures CountedBytes(items + [x], broken) == CountedBytes(items, broken) + Counted(x, broken)
  {
    assert (items + [x])[..|items|] == items;
  }

  lemma {:induction false} CountedBytesWhole(items: seq<Item>)
    ensures CountedBytes(items, map[]) == SizeItems(items)
  {
    if items != [] { CountedBytesWhole(items[..|items| - 1]); }
  }

  lemma {:induction false} BreakElsewhere(items: seq<Item>, broken: map<nat, Break>, id: nat, b: Break)
    requires CountItems(items, id) == 0
    ensures CountedBytes(items, broken[id := b]) == CountedBytes(items, broken)
  {
    if items != [] { BreakElsewhere(items[..|items| - 1], broken, id, b); }
  }

  lemma {:induction false} BreakOnce(items: seq<Item>, broken: map<nat, Break>, item: Item, b: Break)
    requires item in items && CountItems(items, item.id) == 1
    ensures CountedBytes(items, broken[item.id := b]) + Counted(item, broken) == CountedBytes(items, broken) + b.counted
  {
    var front, last := items[..|items| - 1], items[|items| - 1];
    if last.id == item.id {
      if last != item { CountItemsPositive(front, item); }
      BreakElsewhere(front, broken, item.id, b);
    } else {
      BreakOnce(front, broken, item, b);
    }
  }

  /** Bytes a worker will still add to the total. */
  function Owed(): Worker -> nat {
    (w: Worker) =>
      match w
      case Copying(item, _) => |item.content|
      case Closing(_, total) => total
      case AtTally(total) => total
      case Tallying(total) => total
      case _ => 0
  }

  ghost predicate ByteInv(s: State) {
    s.stats.totalBytes + Sum(s.workers, Owed()) == CountedBytes(s.history.taken, s.history.broken)
  }

  /** Without a fault the copy loop ends at the end of the file. */
  lemma CopyIsWhole(s: State, i: nat, n: nat, failed: bool)
    requires WorkerEnabled(s, i, n, failed) && Accesses(s, Work(i, n, failed)) && s.workers[i].Copying? && !failed
    ensures var w, w' := s.workers[i], WorkerNext(s, i, n, failed).workers[i];
            w' == if n == 0 then Closing(w.item, |w.item.content|) else Copying(w.item, w.off + n)
  {
  }

  /** The pair whose account a step touches. */
  function Handled(s: State, a: Action): nat {
    if a.Work? && a.i < |s.workers| then
      if s.workers[a.i].Copying? then s.workers[a.i].item.id
      else if s.workers[a.i].AtCheck? && s.ring.out < |s.ring.cells| then Front(s.ring).id
      else 0
    else 0
  }

  lemma TakeKeepsBytes(s: State, i: nat, s': State)
    requires ByteInv(s) && FifoInv(s) && ItemInv(s) && i < |s.workers| && s.workers[i].AtCheck? && s.ring.count > 0
    requires s.ring.out < |s.ring.cells|
    requires PairInv(s, Front(s.ring).id) && BreakInv(s, Front(s.ring).id)
    requires s'.workers == s.workers[i := Copying(Front(s.ring), 0)] && s'.history.broken == s.history.broken
    requires s'.history.taken == s.history.taken + [Front(s.ring)] && s'.stats.totalBytes == s.stats.totalBytes
    ensures ByteInv(s')
  {
    hide FifoInv, ItemInv, PairInv, BreakInv, Sum, CountedBytes;
    BufferedIsWhole(s);
    SumReplace(s.workers, i, s'.workers[i], Owed());
    CountedBytesAdd(s.history.taken, Front(s.ring), s.history.broken);
  }

  lemma FailKeepsBytes(s: State, i: nat, n: nat, s': State)
    requires ByteInv(s) && FifoInv(s) && ItemInv(s) && i < |s.workers| && s.workers[i].Copying?
    requires PairInv(s, s.workers[i].item.id) && BreakInv(s, s.workers[i].item.id)
    requires var w := s.workers[i];
             && s'.workers == s.workers[i := Closing(w.item, w.off)]
             && s'.history.broken == s.history.broken[w.item.id := Break(w.off + n, w.off)]
    requires s'.history.taken == s.history.taken && s'.stats.totalBytes == s.stats.totalBytes
    ensures ByteInv(s')
  {
    hide FifoInv, ItemInv, PairInv, BreakInv, Sum, CountedBytes, CountItems;
    var w := s.workers[i];
    CopyingIsWhole(s, i);
    HeldIsTaken(s, i, w.item);
    SumReplace(s.workers, i, s'.workers[i], Owed());
    BreakOnce(s.history.taken, s.history.broken, w.item, Break(w.off + n, w.off));
  }

  /** The steps on which owed bytes are at most counted. */
  lemma RestKeepsBytes(s: State, a: Action, s': State)
    requires ByteInv(s) && a.Work? && WorkersMove(s, a, s') && WorkerEffect(s, a.i, s')
    requires var w, w' := s.workers[a.i], s'.workers[a.i];
             && !(w.AtCheck? && s.ring.count > 0) && (w.AtCheck? ==> w'.AtBarrier?)
             && (w.Copying? ==> Owed()(w') == |w.item.content|)
    requires s'.history.broken == s.history.broken
    ensures ByteInv(s')
  {
    SumWorkersMove(s, a, s', Owed());
    hide Sum, CountedBytes;
  }

  lemma WorkerKeepsBytes(s: State, a: Action, s': State)
    requires ByteInv(s) && SyncInv(s) && Step(s, a, s') && a.Work?
    requires FifoInv(s) && ItemInv(s) && PairInv(s, Handled(s, a)) && BreakInv(s, Handled(s, a))
    ensures ByteInv(s')
  {
    hide ManagerNext, WorkerNext, SyncInv, PairInv, BreakInv, ItemInv, FifoInv, Sum, CountedBytes, WorkerEnabled,
      ByteInv;
    StepMovesWorkers(s, a, s');
    WorkerHasEffect(s, a.i, a.n, a.failed);
    WorkerMoves(s, a.i, a.n, a.failed);
    WorkerFiles(s, a.i, a.n, a.failed);
    var w := s.workers[a.i];
    if w.AtCheck? && s.ring.count > 0 {
      TakeKeepsBytes(s, a.i, s');
    } else if w.Copying? && a.failed {
      FailingCloses(s, a.i, a.n);
      FailKeepsBytes(s, a.i, a.n, s');
    } else {
      if w.Copying? { CopyIsWhole(s, a.i, a.n, a.failed); }
      RestKeepsBytes(s, a, s');
    }
  }

  lemma VisitKeepsBytes(s: State, woken: set<nat>, fault: Fault)
    requires ByteInv(s) && FifoInv(s) && ItemInv(s) && WellFormed(s.ring) && s.manager.Visiting?
    ensures ByteInv(ManagerNext(s, woken, fault))
  {
    var dir, e := s.manager.dir, s.manager.entry;
    ManagerHasEffect(s, woken, fault);
    VisitNext(s, woken, fault);
    HandleMeans(s, dir + [e.name], e.name, e.node, fault);
    NewIsUntaken(s);
    BreakElsewhere(s.history.taken, s.history.broken, |s.history.visited|, Break(0, 0));
    hide ManagerNext, Handle, CountedBytes, Sum;
  }

  lemma {:induction false} NotCounted(items: seq<Item>, id: nat)
    requires forall k :: 0 <= k < |items| ==> items[k].id != id
    ensures CountItems(items, id) == 0
  {
    if items != [] { NotCounted(items[..|items| - 1], id); }
  }

  lemma NewIsUntaken(s: State)
    requires FifoInv(s) && ItemInv(s)
    ensures CountItems(s.history.taken, |s.history.visited|) == 0
  {
    forall k | 0 <= k < |s.history.taken| ensures s.history.taken[k].id != |s.history.visited| {
      assert s.history.put[k] == s.history.taken[k];
      assert Genuine(s.history.visited, s.history.put[k]);
    }
    NotCounted(s.history.taken, |s.history.visited|);
  }

  lemma StepKeepsBytes(s: State, a: Action, s': State)
    requires ByteInv(s) && SyncInv(s) && Step(s, a, s')
    requires FifoInv(s) && ItemInv(s) && PairInv(s, Handled(s, a)) && BreakInv(s, Handled(s, a))
    ensures ByteInv(s')
  {
    hide ManagerNext, WorkerNext, ByteInv, PairInv, BreakInv, ItemInv, FifoInv, ManagerEnabled, WorkerEnabled;
    if a.Work? {
      WorkerKeepsBytes(s, a, s');
    } else if a.Manage? && s.manager.Visiting? {
      VisitKeepsBytes(s, a.woken, a.fault);
    } else {
      StepMovesWorkers(s, a, s');
      if a.Manage? {
        ManagerHasEffect(s, a.woken, a.fault);
        ManagerWalks(s, a.woken, a.fault);
      }
      OwedStays(s, a, s');
    }
  }

  lemma OwedStays(s: State, a: Action, s': State)
    requires ByteInv(s) && WorkersMove(s, a, s') && !a.Work?
    requires s'.stats.totalBytes == s.stats.totalBytes
    requires s'.history.taken == s.history.taken && s'.history.broken == s.history.broken
    ensures ByteInv(s')
  {
    SumWorkersMove(s, a, s', Owed());
    hide Sum, CountedBytes;
  }

  // ---- the destination files ----

  /** Bytes of pair `id` that a worker has written. */
  function Written(id: nat): Worker -> nat {
    (w: Worker) =>
      if w.Copying? && w.item.id == id then w.off
      else if w.Closing? && w.item.id == id then |w.item.content|
      else 0
  }

  ghost function Progress(s: State, id: nat): nat
    requires id < |s.history.visited| && s.history.visited[id].node.Regular?
  {
    if id in s.history.broken then s.history.broken[id].shown
    else if TimesClosed(s.history.closed, id) > 0 && CountItems(s.history.put, id) > 0
    then |s.history.visited[id].node.content|
    else Sum(s.workers, Written(id))
  }

  /** Visit number `id` shows in the destination: a file as far as it has been copied, the rest if created. */
  ghost predicate Shown(s: State, id: nat)
    requires id < |s.history.visited|
  {
    var v := s.history.visited[id];
    if v.node.Regular? then
      && v.path in s.fs && Progress(s, id) <= |v.node.content|
      && s.fs[v.path] == FileImage(v.node.content[..Progress(s, id)])
    else Kept(v.node) ==>
      if id in s.history.broken then v.path !in s.fs else v.path in s.fs && s.fs[v.path] == ImageOf(v.node)
  }

  ghost predicate ShownInv(s: State, id: nat) {
    id < |s.history.visited| ==> Shown(s, id)
  }

  /** Nothing else exists in the destination. */
  ghost predicate KnownPath(visited: seq<Visit>, path: Path) {
    path == [] || exists id :: 0 <= id < |visited| && visited[id].path == path && Kept(visited[id].node)
  }

  ghost predicate FsInv(s: State) {
    && [] in s.fs && s.fs[[]] == DirImage
    && (s.history.clean ==> s.history.broken == map[])
    && forall path :: path in s.fs ==> KnownPath(s.history.visited, path)
  }

  lemma WalkIsDistinct(s: State, root: seq<Entry>)
    requires WalkInv(s, root) && UniqueNames(root)
    ensures DistinctPaths(s.history.visited)
  {
    VisitsAreEntries(s, root);
    FlattenDistinct([], root);
    ThinnedDistinct(s.history.visited, Flatten([], root));
  }

  lemma VisitsAreEntries(s: State, root: seq<Entry>)
    requires WalkInv(s, root)
    ensures Thinned(s.history.visited, Flatten([], root))
  {
    var ahead := Ahead(s.manager) + Pending(s.stack);
    hide Ahead, Pending, Thinned;
    assert s.history.visited + (ahead + []) == s.history.visited + ahead;
    ThinnedDrop(s.history.visited, ahead, [], Flatten([], root));
    assert s.history.visited + [] == s.history.visited;
  }

  lemma HolderProgress(s: State, i: nat, id: nat)
    requires FifoInv(s) && PairInv(s, id) && i < |s.workers| && Holding(id)(s.workers[i]) == 1
    requires id !in s.history.broken
    ensures id < |s.history.visited| && s.history.visited[id].node.Regular?
    ensures TimesClosed(s.history.closed, id) == 0 && Progress(s, id) == Written(id)(s.workers[i])
  {
    HeldOnce(s, id);
    SumAtLeastOne(s.workers, i, Holding(id));
    HeldAlone(s.workers, id, Written(id));
  }

  /** How far a file has come when its holder has read and written the next chunk, or failed to. */
  lemma ChunkProgress(s: State, i: nat, n: nat, failed: bool)
    requires WorkerEnabled(s, i, n, failed) && Accesses(s, Work(i, n, failed)) && s.workers[i].Copying?
    requires FifoInv(s) && PairInv(s, s.workers[i].item.id) && BreakInv(s, s.workers[i].item.id)
    requires Genuine(s.history.visited, s.workers[i].item)
    ensures var s', w := WorkerNext(s, i, n, failed), s.workers[i];
            && s'.history.visited == s.history.visited
            && Progress(s, w.item.id) == w.off && Progress(s', w.item.id) == w.off + n
  {
    CopyingIsWhole(s, i);
    var w := s.workers[i];
    var id := w.item.id;
    HolderProgress(s, i, id);
    hide FifoInv, PairInv, BreakInv;
    var s' := WorkerNext(s, i, n, failed);
    WorkerFiles(s, i, n, failed);
    if !failed { CopyIsWhole(s, i, n, failed); }
    WorkerMoves(s, i, n, failed);
    WorkerHasEffect(s, i, n, failed);
    hide WorkerNext;
    SumReplace(s.workers, i, s'.workers[i], Written(id));
    hide Sum, TimesClosed, CountItems;
  }

  /** The bytes of that file. */
  lemma ChunkShown(s: State, i: nat, n: nat, failed: bool)
    requires WorkerEnabled(s, i, n, failed) && Accesses(s, Work(i, n, failed)) && s.workers[i].Copying?
    requires FifoInv(s) && PairInv(s, s.workers[i].item.id) && BreakInv(s, s.workers[i].item.id)
    requires Genuine(s.history.visited, s.workers[i].item) && Shown(s, s.workers[i].item.id)
    ensures var s' := WorkerNext(s, i, n, failed);
            s'.history.visited == s.history.visited && Shown(s', s.workers[i].item.id)
  {
    var w := s.workers[i];
    ChunkProgress(s, i, n, failed);
    WorkerFiles(s, i, n, failed);
    hide WorkerNext, Progress, FifoInv, PairInv, BreakInv;
    assert w.item.content[..w.off] + w.item.content[w.off..w.off + n] == w.item.content[..w.off + n];
  }

  lemma CloseKeepsProgress(s: State, i: nat, n: nat, failed: bool, id: nat)
    requires WorkerEnabled(s, i, n, failed) && Accesses(s, Work(i, n, failed)) && !s.workers[i].Copying?
    requires FifoInv(s) && PairInv(s, id)
    requires s.workers[i].Closing? ==>
               Genuine(s.history.visited, s.workers[i].item) && s.workers[i].item in s.history.put
    requires id < |s.history.visited| && s.history.visited[id].node.Regular?
    ensures var s' := WorkerNext(s, i, n, failed);
            s'.history.visited == s.history.visited && Progress(s', id) == Progress(s, id)
  {
    hide WorkerNext, FifoInv, PairInv;
    WorkerHasEffect(s, i, n, failed);
    WorkerMoves(s, i, n, failed);
    WorkerFiles(s, i, n, failed);
    var s' := WorkerNext(s, i, n, failed);
    SumReplace(s.workers, i, s'.workers[i], Written(id));
    var w := s.workers[i];
    if w.Closing? {
      TimesClosedAdd(s.history.closed, w.item.id, id);
      if w.item.id == id && id !in s.history.broken {
        HolderProgress(s, i, id);
        CountItemsPositive(s.history.put, w.item);
      }
    }
  }

  lemma OtherCopyShown(s: State, i: nat, n: nat, failed: bool, id: nat)
    requires WorkerEnabled(s, i, n, failed) && Accesses(s, Work(i, n, failed)) && s.workers[i].Copying?
    requires id < |s.history.visited| && s.workers[i].item.id != id && DistinctPaths(s.history.visited)
    requires Genuine(s.history.visited, s.workers[i].item) && Shown(s, id)
    ensures var s' := WorkerNext(s, i, n, failed);
            s'.history.visited == s.history.visited && Shown(s', id)
  {
    hide WorkerNext;
    WorkerHasEffect(s, i, n, failed);
    WorkerMoves(s, i, n, failed);
    WorkerFiles(s, i, n, failed);
    var s' := WorkerNext(s, i, n, failed);
    SumReplace(s.workers, i, s'.workers[i], Written(id));
    var k := s.workers[i].item.id;
    assert s.history.visited[k].path != s.history.visited[id].path;
  }

  lemma WorkerKeepsShown(s: State, a: Action, s': State, root: seq<Entry>, id: nat)
    requires ShownInv(s, id) && Step(s, a, s') && a.Work?
    requires SyncInv(s) && FifoInv(s) && PairInv(s, id) && BreakInv(s, id) && ItemInv(s)
    requires WalkInv(s, root) && UniqueNames(root)
    ensures ShownInv(s', id)
  {
    hide WorkerNext, ManagerNext, Shown, Progress, PairInv, FifoInv, BreakInv;
    WorkerHasEffect(s, a.i, a.n, a.failed);
    WorkerFiles(s, a.i, a.n, a.failed);
    if id < |s.history.visited| {
      WalkIsDistinct(s, root);
      if !s.workers[a.i].Copying? {
        QuietShown(s, a.i, a.n, a.failed, id);
      } else if s.workers[a.i].item.id == id {
        ChunkShown(s, a.i, a.n, a.failed);
      } else {
        OtherCopyShown(s, a.i, a.n, a.failed, id);
      }
    }
  }

  lemma QuietShown(s: State, i: nat, n: nat, failed: bool, id: nat)
    requires WorkerEnabled(s, i, n, failed) && Accesses(s, Work(i, n, failed)) && !s.workers[i].Copying?
    requires ItemInv(s) && FifoInv(s) && PairInv(s, id) && id < |s.history.visited| && Shown(s, id)
    ensures var s' := WorkerNext(s, i, n, failed);
            s'.history.visited == s.history.visited && Shown(s', id)
  {
    hide WorkerNext, FifoInv, PairInv;
    WorkerHasEffect(s, i, n, failed);
    WorkerFiles(s, i, n, failed);
    if s.history.visited[id].node.Regular? { CloseKeepsProgress(s, i, n, failed, id); }
  }

  /** Wake-ups and signals leave files and progress alone, and so do a put and giving up. */
  lemma RestShown(s: State, s': State, id: nat)
    requires id < |s.history.visited| && Shown(s, id)
    requires s'.fs == s.fs && s'.history.visited == s.history.visited && s'.history.broken == s.history.broken
    requires s.history.visited[id].node.Regular? ==> Progress(s', id) == Progress(s, id)
    ensures Shown(s', id)
  {
  }

  lemma PutKeepsProgress(s: State, s': State, id: nat)
    requires Carries(s.manager) && FifoInv(s) && ItemInv(s) && PairInv(s, id)
    requires id < |s.history.visited| && s.history.visited[id].node.Regular?
    requires s'.history.visited == s.history.visited && s'.history.broken == s.history.broken
    requires Sum(s'.workers, Written(id)) == Sum(s.workers, Written(id))
    requires
      || (s'.history.put == s.history.put + [s.manager.item] && s'.history.closed == s.history.closed)
      || (s'.history.put == s.history.put && s'.history.closed == s.history.closed + [s.manager.item.id])
    ensures Progress(s', id) == Progress(s, id)
  {
    hide Sum, ItemInv, FifoInv, PairInv, CountItems, TimesClosed;
    if s.manager.item.id == id { CarriedIsNew(s); }
    CountItemsAdd(s.history.put, s.manager.item, id);
    TimesClosedAdd(s.history.closed, s.manager.item.id, id);
  }

  lemma ManagerKeepsProgress(s: State, woken: set<nat>, fault: Fault, id: nat)
    requires ManagerEnabled(s, woken) && !s.manager.Visiting?
    requires FifoInv(s) && ItemInv(s) && PairInv(s, id)
    requires id < |s.history.visited| && s.history.visited[id].node.Regular?
    requires Sum(ManagerNext(s, woken, fault).workers, Written(id)) == Sum(s.workers, Written(id))
    ensures ManagerNext(s, woken, fault).history.visited == s.history.visited
    ensures Progress(ManagerNext(s, woken, fault), id) == Progress(s, id)
  {
    ManagerHasEffect(s, woken, fault);
    ManagerWalks(s, woken, fault);
    hide ManagerNext, ManagerEnabled, ItemInv, PairInv, Sum, Written, CountItems, TimesClosed;
    if s.manager.Putting? || (s.manager.PutCheck? && s.stop) {
      PutKeepsProgress(s, ManagerNext(s, woken, fault), id);
    }
  }

  lemma VisitShows(s: State, woken: set<nat>, fault: Fault, root: seq<Entry>, id: nat)
    requires s.manager.Visiting? && WellFormed(s.ring) && ShownInv(s, id) && FsInv(s)
    requires FifoInv(s) && PairInv(s, id) && BreakInv(s, id) && WalkInv(s, root) && UniqueNames(root)
    ensures ShownInv(ManagerNext(s, woken, fault), id)
  {
    hide Handle, Shown, FsInv, FifoInv, PairInv, BreakInv, WalkInv, DistinctPaths;
    var dir, e := s.manager.dir, s.manager.entry;
    var path := dir + [e.name];
    var s' := ManagerNext(s, woken, fault);
    VisitKeepsWalk(s, woken, fault, root);
    WalkIsDistinct(s', root);
    VisitNext(s, woken, fault);
    HandleMeans(s, path, e.name, e.node, fault);
    hide ManagerNext;
    if id < |s.history.visited| {
      HandleEffect(s, path, e.name, e.node, fault);
      OldShown(s, s', path, e.name, e.node, fault, id);
    } else if id < |s'.history.visited| {
      HandleEffect(s, path, e.name, e.node, fault);
      NewShown(s, s', path, e.name, e.node, fault);
    }
  }

  /** What handling an entry does to the visits, the files and the breaks. */
  ghost predicate Visits(s: State, s': State, path: Path, name: Name, node: Node, fault: Fault) {
    var skips := Skips(name, node, fault);
    && s'.history.visited == s.history.visited + (if skips then [] else [Visit(path, node)])
    && s'.fs == (if skips || !Kept(node) || Breaks(node, fault) then s.fs
                 else s.fs[path := if node.Regular? then FileImage([]) else ImageOf(node)])
    && s'.history.broken == (if !skips && Breaks(node, fault)
                             then s.history.broken[|s.history.visited| := Break(0, 0)] else s.history.broken)
    && s'.workers == s.workers && s'.history.put == s.history.put && s'.history.closed == s.history.closed
  }

  lemma OldShown(s: State, s': State, path: Path, name: Name, node: Node, fault: Fault, id: nat)
    requires Visits(s, s', path, name, node, fault)
    requires DistinctPaths(s'.history.visited) && id < |s.history.visited| && Shown(s, id)
    ensures Shown(s', id)
  {
    hide Sum, TimesClosed, CountItems, Skips;
    assert s'.history.visited[id] == s.history.visited[id];
    if !Skips(name, node, fault) {
      assert s'.history.visited[|s.history.visited|].path == path;
      assert s.history.visited[id].path != path;
    }
  }

  lemma NewShown(s: State, s': State, path: Path, name: Name, node: Node, fault: Fault)
    requires Visits(s, s', path, name, node, fault) && !Skips(name, node, fault)
    requires DistinctPaths(s'.history.visited) && path != [] && FsInv(s)
    requires FifoInv(s) && PairInv(s, |s.history.visited|) && BreakInv(s, |s.history.visited|)
    ensures Shown(s', |s.history.visited|)
  {
    hide Skips;
    var id := |s.history.visited|;
    assert s'.history.visited[id] == Visit(path, node);
    NewPath(s, s'.history.visited, path);
    hide FsInv, DistinctPaths;
    HeldOnce(s, id);
    HeldAlone(s.workers, id, Written(id));
    hide FifoInv, PairInv, Sum, TimesClosed, CountItems;
  }

  /** A path visited for the first time does not exist. */
  lemma NewPath(s: State, visited': seq<Visit>, path: Path)
    requires FsInv(s) && DistinctPaths(visited') && path != []
    requires |visited'| == |s.history.visited| + 1 && visited'[..|s.history.visited|] == s.history.visited
    requires visited'[|s.history.visited|].path == path
    ensures path !in s.fs
  {
    forall k | 0 <= k < |s.history.visited| ensures s.history.visited[k].path != path {
      assert visited'[k] == s.history.visited[k];
      assert visited'[k].path != visited'[|s.history.visited|].path;
    }
    assert !KnownPath(s.history.visited, path);
  }

  lemma StepKeepsShown(s: State, a: Action, s': State, root: seq<Entry>, id: nat)
    requires ShownInv(s, id) && FsInv(s) && Step(s, a, s')
    requires SyncInv(s) && FifoInv(s) && PairInv(s, id) && BreakInv(s, id) && ItemInv(s)
    requires WalkInv(s, root) && UniqueNames(root)
    ensures ShownInv(s', id)
  {
    hide WorkerNext, ManagerNext, Shown;
    if a.Work? {
      WorkerKeepsShown(s, a, s', root, id);
    } else if a.Manage? && s.manager.Visiting? {
      VisitShows(s, a.woken, a.fault, root, id);
    } else {
      StepMovesWorkers(s, a, s');
      SumWorkersMove(s, a, s', Written(id));
      if a.Manage? { ManagerWalks(s, a.woken, a.fault); }
      if id < |s'.history.visited| {
        if a.Manage? && s.history.visited[id].node.Regular? { ManagerKeepsProgress(s, a.woken, a.fault, id); }
        RestShown(s, s', id);
      }
    }
  }

  // ---- nothing but the copy ----

  lemma VisitKeepsStrays(s: State, woken: set<nat>, fault: Fault)
    requires FsInv(s) && WellFormed(s.ring) && s.manager.Visiting?
    ensures FsInv(ManagerNext(s, woken, fault))
  {
    hide Handle;
    var dir, e := s.manager.dir, s.manager.entry;
    var path := dir + [e.name];
    var s' := ManagerNext(s, woken, fault);
    VisitNext(s, woken, fault);
    hide ManagerNext;
    HandleMeans(s, path, e.name, e.node, fault);
    forall p | p in s'.fs ensures KnownPath(s'.history.visited, p) {
      if p == path && !Skips(e.name, e.node, fault) && Kept(e.node) {
        assert s'.history.visited[|s.history.visited|] == Visit(path, e.node);
      } else if p != [] {
        var id :| 0 <= id < |s.history.visited| && s.history.visited[id].path == p
                  && Kept(s.history.visited[id].node);
        assert s'.history.visited[id] == s.history.visited[id];
      }
    }
    assert s.fs[[]] == DirImage && path != [];
  }

  lemma StepKeepsStrays(s: State, a: Action, s': State)
    requires FsInv(s) && SyncInv(s) && Step(s, a, s')
    ensures FsInv(s')
  {
    hide WorkerNext, ManagerNext, KnownPath;
    match a
    case Manage(woken, fault) =>
      if s.manager.Visiting? {
        VisitKeepsStrays(s, woken, fault);
      } else {
        ManagerHasEffect(s, woken, fault);
        ManagerWalks(s, woken, fault);
      }
    case Work(i, n, failed) =>
      WorkerHasEffect(s, i, n, failed);
      WorkerFiles(s, i, n, failed);
    case _ =>
  }

  // ---- after the signal ----

  function ToVisit(m: Manager): nat { if m.Visiting? then 1 else 0 }

  function ToPut(m: Manager): nat { if m.Putting? then 1 else 0 }

  lemma ManagerStops(s: State, woken: set<nat>, fault: Fault)
    requires WellFormed(s.ring) && s.stop && !s.manager.Visiting?
    ensures var m' := ManagerNext(s, woken, fault).manager; !m'.Visiting? && !m'.Putting?
  {
    hide VisitEntry, Wake, Sleepers, Pop;
  }

  lemma LastVisit(s: State, woken: set<nat>, fault: Fault)
    requires WellFormed(s.ring) && s.manager.Visiting?
    ensures var s' := ManagerNext(s, woken, fault);
            && !s'.manager.Visiting? && !s'.manager.Putting?
            && |s.history.visited| <= |s'.history.visited| <= |s.history.visited| + 1
  {
    hide Handle;
    var dir, e := s.manager.dir, s.manager.entry;
    VisitNext(s, woken, fault);
    HandleMeans(s, dir + [e.name], e.name, e.node, fault);
    hide ManagerNext;
  }

  /** Once `stop` is raised nothing more is begun: only the entry in hand is visited, only the put under way is made. */
  lemma StopStep(s: State, a: Action, s': State)
    requires SyncInv(s) && Step(s, a, s') && s.stop
    ensures s'.stop
    ensures |s'.history.visited| + ToVisit(s'.manager) <= |s.history.visited| + ToVisit(s.manager)
    ensures |s'.history.put| + ToPut(s'.manager) <= |s.history.put| + ToPut(s.manager)
  {
    hide ManagerNext, WorkerNext, ManagerEnabled, WorkerEnabled;
    StopStays(s, a, s');
    match a
    case Manage(woken, fault) =>
      ManagerHasEffect(s, woken, fault);
      if s.manager.Visiting? { LastVisit(s, woken, fault); } else { ManagerStops(s, woken, fault); }
    case Work(i, n, failed) => WorkerHasEffect(s, i, n, failed);
    case _ =>
  }
}
