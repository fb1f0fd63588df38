/** A run leaves a copy of the tree and exact statistics, under SIGINT and failing calls an exactly known part. */
module CopierEndToEnd {
  import opened FileTree
  import opened FileMembers
  import opened RingBuffer
  import opened Copier
  import opened CopierSync
  import opened CopierAccounting
  import opened CopierFiles
  import opened Sums
  import opened Wrappers

  // ---- the whole run ----

  ghost predicate CopyInv(s: State, root: seq<Entry>, id: nat) {
    && SyncInv(s) && FifoInv(s) && CountInv(s) && PairInv(s, id) && BreakInv(s, id)
    && WalkInv(s, root) && CoverInv(s, root) && StatInv(s) && ItemInv(s) && ByteInv(s) && ShownInv(s, id) && FsInv(s)
  }

  lemma InitCopies(s: State, root: seq<Entry>, id: nat)
    requires Init(s, root) && SyncInv(s) && FifoInv(s) && CountInv(s) && PairInv(s, id)
    ensures CopyInv(s, root, id)
  {
    SumConstant(s.workers, 0, Owed());
    ThinnedSame(Flatten([], root));
    assert [] + (Flatten([], root) + []) == Flatten([], root);
  }

  lemma StepCopies(s: State, a: Action, s': State, root: seq<Entry>, id: nat)
    requires CopyInv(s, root, id) && CopyInv(s, root, Handled(s, a)) && Step(s, a, s') && UniqueNames(root)
    ensures CopyInv(s', root, id)
  {
    StepKeepsSync(s, a, s');
    StepKeepsQueue(s, a, s');
    StepKeepsPair(s, a, s', id);
    StepKeepsBreaks(s, a, s', id);
    StepKeepsWalk(s, a, s', root);
    StepKeepsCover(s, a, s', root);
    StepKeepsStats(s, a, s');
    StepKeepsItems(s, a, s');
    StepKeepsBytes(s, a, s');
    StepKeepsShown(s, a, s', root, id);
    StepKeepsStrays(s, a, s');
    hide *;
  }

  lemma {:induction false} RunCopies(states: seq<State>, actions: seq<Action>, root: seq<Entry>, k: nat, id: nat)
    requires Run(states, actions, root) && k <= |actions|
    ensures CopyInv(states[k], root, id)
    decreases k
  {
    hide Step, CopyInv, SyncInv, FifoInv, CountInv, PairInv;
    RunKeepsAccounts(states, actions, root, k, id);
    if k == 0 {
      InitCopies(states[0], root, id);
    } else {
      hide Init;
      RunCopies(states, actions, root, k - 1, id);
      RunCopies(states, actions, root, k - 1, Handled(states[k - 1], actions[k - 1]));
      assert Step(states[k - 1], actions[k - 1], states[k - 1 + 1]) && UniqueNames(root);
      StepCopies(states[k - 1], actions[k - 1], states[k], root, id);
    }
  }

  lemma ReachableCopies(s: State, root: seq<Entry>, id: nat)
    requires Reachable(s, root)
    ensures CopyInv(s, root, id) && UniqueNames(root)
  {
    var states, actions :| Run(states, actions, root) && s == states[|actions|];
    RunCopies(states, actions, root, |actions|, id);
  }

  /**
   * From the moment `stop` is raised at most the one entry in hand is still visited and the one put under way still
   * made, however long the run goes on.
   */
  lemma {:induction false} StopStops(states: seq<State>, actions: seq<Action>, root: seq<Entry>, i: nat, j: nat)
    requires Run(states, actions, root) && i <= j <= |actions| && states[i].stop
    ensures states[j].stop
    ensures |states[j].history.visited| + ToVisit(states[j].manager)
            <= |states[i].history.visited| + ToVisit(states[i].manager)
    ensures |states[j].history.put| + ToPut(states[j].manager)
            <= |states[i].history.put| + ToPut(states[i].manager)
    decreases j
  {
    hide Step, Init;
    if i < j {
      StopStops(states, actions, root, i, j - 1);
      RunKeepsSync(states, actions, root, j - 1);
      hide SyncInv;
      assert Step(states[j - 1], actions[j - 1], states[j - 1 + 1]);
      StopStep(states[j - 1], actions[j - 1], states[j]);
    }
  }

  /** How much of a regular visit stands at the joins: up to where it broke off, nothing if it was given up, or all. */
  function Standing(s: State, id: nat): nat
    requires id < |s.history.visited| && s.history.visited[id].node.Regular?
  {
    if id in s.history.broken then s.history.broken[id].shown
    else if CountItems(s.history.put, id) == 0 then 0
    else |s.history.visited[id].node.content|
  }

  /** What stands for one visit. */
  ghost predicate Stands(s: State, id: nat)
    requires id < |s.history.visited|
  {
    var v := s.history.visited[id];
    if v.node.Regular? then
      && v.path in s.fs && Standing(s, id) <= |v.node.content|
      && s.fs[v.path] == FileImage(v.node.content[..Standing(s, id)])
    else Kept(v.node) ==>
      if id in s.history.broken then v.path !in s.fs else v.path in s.fs && s.fs[v.path] == ImageOf(v.node)
  }

  /** At the joins of any run. */
  lemma VisitStands(s: State, root: seq<Entry>, id: nat)
    requires Reachable(s, root) && AllJoined(s) && id < |s.history.visited|
    ensures Stands(s, id)
  {
    ReachableCopies(s, root, id);
    JoinedAccount(s, root, id);
    var v := s.history.visited[id];
    if v.node.Regular? {
      SumConstant(s.workers, 0, Written(id));
      assert Progress(s, id) == Standing(s, id);
    }
    hide CopyInv, Reachable;
  }

  /** Without failing calls each visited entry that is recreated stands complete, or empty if it was given up. */
  lemma VisitIsComplete(s: State, root: seq<Entry>, id: nat)
    requires Reachable(s, root) && AllJoined(s) && s.history.clean && id < |s.history.visited|
    requires Kept(s.history.visited[id].node)
    ensures var v := s.history.visited[id];
            && v.path in s.fs
            && s.fs[v.path] == if v.node.Regular? && CountItems(s.history.put, id) == 0 then FileImage([])
                               else ImageOf(v.node)
  {
    NothingBroke(s, root);
    VisitStands(s, root, id);
    var v := s.history.visited[id];
    if v.node.Regular? { assert v.node.content[..|v.node.content|] == v.node.content; }
    hide Reachable;
  }

  lemma NothingBroke(s: State, root: seq<Entry>)
    requires Reachable(s, root)
    ensures s.history.clean ==> s.history.broken == map[]
    ensures [] in s.fs && s.fs[[]] == DirImage
  {
    ReachableCopies(s, root, 0);
  }

  // ---- what the joins leave, whatever failed ----

  lemma JoinedVisits(s: State, root: seq<Entry>)
    requires Reachable(s, root) && AllJoined(s)
    ensures Thinned(s.history.visited, Flatten([], root))
    ensures s.history.clean ==> s.history.visited <= Flatten([], root)
    ensures Uncut(s) ==> s.history.visited == Flatten([], root)
    ensures !s.stop ==>
              forall v :: v in Flatten([], root) ==> v in s.history.visited || Excused(s.history.missed, v.path)
  {
    hide ByteInv, ItemInv, Thinned, Flatten, Reachable, Excused;
    ReachableCopies(s, root, 0);
    VisitsAreEntries(s, root);
    assert s.history.visited + [] == s.history.visited;
    assert s.history.visited + ([] + []) == s.history.visited;
  }

  lemma JoinedPuts(s: State, root: seq<Entry>)
    requires Reachable(s, root) && AllJoined(s)
    ensures var files := RegularItems(s.history.visited);
            || s.history.put == files
            || (s.stop && files != [] && s.history.put == files[..|files| - 1])
    ensures forall item :: item in s.history.put ==> Genuine(s.history.visited, item)
  {
    hide SyncInv, FifoInv, CountInv, PairInv, BreakInv, WalkInv, StatInv, ByteInv, ShownInv, FsInv, RegularItems,
      Reachable, Genuine;
    ReachableCopies(s, root, 0);
    assert s.history.put + [] == s.history.put;
  }

  lemma JoinedStatistics(s: State, root: seq<Entry>)
    requires Reachable(s, root) && AllJoined(s)
    ensures s.stats.regularFiles == s.stats.totalFiles == s.stats.filesCopied == |s.history.put|
    ensures s.stats.directories == CountVisits(s.history.visited, IsDirectory())
    ensures s.stats.fifoFiles == CountVisits(s.history.visited, IsFifo())
    ensures s.stats.symlinks == CountVisits(s.history.visited, IsSymlink())
    ensures s.stats.totalBytes == CountedBytes(s.history.put, s.history.broken)
  {
    ReachableCopies(s, root, 0);
    JoinedAccount(s, root, 0);
    hide ItemInv, WalkInv, ShownInv, FsInv, PairInv, BreakInv, CountVisits, CountedBytes, Reachable;
    SumConstant(s.workers, 0, Owed());
  }

  lemma EntryLookup(visited: seq<Visit>, root: seq<Entry>, id: nat)
    requires Thinned(visited, Flatten([], root)) && UniqueNames(root) && id < |visited|
    ensures Lookup(root, visited[id].path) == Some(visited[id].node)
  {
    var at :| ThinnedBy(visited, Flatten([], root), at);
    var v := visited[id];
    assert [] + v.path == v.path;
    assert Flatten([], root)[at[id]] == Visit([] + v.path, v.node);
    FlattenIsLookup([], root, v.path, v.node);
  }

  lemma PathIsVisited(s: State, root: seq<Entry>, path: Path) returns (id: nat)
    requires Reachable(s, root) && AllJoined(s) && path in s.fs && path != []
    ensures id < |s.history.visited| && s.history.visited[id].path == path && Kept(s.history.visited[id].node)
    ensures Stands(s, id) && Lookup(root, path) == Some(s.history.visited[id].node)
  {
    ReachableCopies(s, root, 0);
    id :| 0 <= id < |s.history.visited| && s.history.visited[id].path == path && Kept(s.history.visited[id].node);
    hide CopyInv, Lookup, Reachable, Stands, Thinned;
    JoinedVisits(s, root);
    EntryLookup(s.history.visited, root, id);
    VisitStands(s, root, id);
  }

  /** An entry of the tree that a path can have: a directory, a file or a link. */
  ghost predicate FromTree(root: seq<Entry>, path: Path) {
    Lookup(root, path).Some? && Kept(Lookup(root, path).value)
  }

  /**
   * What a run leaves, whatever the signal and the failing calls did: the visits are entries of the tree in the
   * order of the traversal; each stands as far as its own calls succeeded; nothing else exists; all regular
   * files visited were put but for one given up under `stop`; and the statistics say so.
   */
  ghost predicate Accounted(s: State, root: seq<Entry>) {
    var files := RegularItems(s.history.visited);
    && Thinned(s.history.visited, Flatten([], root))
    && (!s.stop ==> forall v :: v in Flatten([], root) ==> v in s.history.visited || Excused(s.history.missed, v.path))
    && (forall id :: 0 <= id < |s.history.visited| ==> Stands(s, id))
    && [] in s.fs && s.fs[[]] == DirImage
    && (forall path :: path in s.fs && path != [] ==> FromTree(root, path))
    && (s.history.put == files || (s.stop && files != [] && s.history.put == files[..|files| - 1]))
    && s.stats == Stats(|s.history.put|, |s.history.put|, |s.history.put|,
                        CountVisits(s.history.visited, IsFifo()), CountVisits(s.history.visited, IsDirectory()),
                        CountVisits(s.history.visited, IsSymlink()),
                        CountedBytes(s.history.put, s.history.broken))
  }

  /** The joins of any run. */
  lemma EveryCopy(s: State, root: seq<Entry>)
    requires Reachable(s, root) && AllJoined(s)
    ensures Accounted(s, root)
  {
    hide Reachable, AllJoined, Stands, Thinned, Lookup, Excused, Flatten;
    JoinedVisits(s, root);
    JoinedPuts(s, root);
    JoinedStatistics(s, root);
    NothingBroke(s, root);
    forall id | 0 <= id < |s.history.visited| ensures Stands(s, id) { VisitStands(s, root, id); }
    forall path | path in s.fs && path != [] ensures FromTree(root, path) {
      var id := PathIsVisited(s, root, path);
    }
  }

  /** A file that was put holds a prefix of its source, and all of it unless one of its own calls failed. */
  lemma PutHoldsPrefix(s: State, root: seq<Entry>, item: Item)
    requires Reachable(s, root) && AllJoined(s) && item in s.history.put
    ensures item.path in s.fs && s.fs[item.path].FileImage? && s.fs[item.path].bytes <= item.content
    ensures item.id !in s.history.broken ==> s.fs[item.path].bytes == item.content
    ensures Lookup(root, item.path) == Some(Regular(item.content))
  {
    hide Reachable, AllJoined, Lookup, Thinned;
    JoinedVisits(s, root);
    JoinedPuts(s, root);
    CountItemsPositive(s.history.put, item);
    VisitStands(s, root, item.id);
    ReachableCopies(s, root, 0);
    EntryLookup(s.history.visited, root, item.id);
    hide CopyInv, CountItems, RegularItems;
  }

  lemma EntryIsVisited(s: State, root: seq<Entry>, path: Path, node: Node) returns (id: nat)
    requires Reachable(s, root) && AllJoined(s) && !s.stop
    requires path != [] && Lookup(root, path) == Some(node) && !Excused(s.history.missed, path)
    ensures id < |s.history.visited| && s.history.visited[id] == Visit(path, node)
  {
    UniqueRoot(s, root);
    hide *;
    FlattenIsLookup([], root, path, node);
    assert [] + path == path;
    JoinedVisits(s, root);
    id :| 0 <= id < |s.history.visited| && s.history.visited[id] == Visit(path, node);
  }

  lemma WholeUnlessBroken(s: State, root: seq<Entry>, id: nat)
    requires Reachable(s, root) && AllJoined(s) && !s.stop
    requires id < |s.history.visited| && id !in s.history.broken && Kept(s.history.visited[id].node)
    ensures var v := s.history.visited[id]; v.path in s.fs && s.fs[v.path] == ImageOf(v.node)
  {
    hide Reachable, AllJoined, CountItems, RegularItems;
    VisitStands(s, root, id);
    JoinedPuts(s, root);
    RegularOnce(s.history.visited, id);
    var v := s.history.visited[id];
    if v.node.Regular? { assert v.node.content[..|v.node.content|] == v.node.content; }
  }

  /**
   * Whatever else fails: without a signal, an entry is copied as soon as the calls on it and those on the directories
   * above it succeed.
   */
  lemma EntryArrives(s: State, root: seq<Entry>, path: Path, node: Node) returns (id: nat)
    requires Reachable(s, root) && AllJoined(s) && !s.stop
    requires Member(root, path, node) && (node.Regular? || node.Directory? || node.Symlink?)
    requires !Excused(s.history.missed, path)
    ensures id < |s.history.visited| && s.history.visited[id] == Visit(path, node)
    ensures id !in s.history.broken ==> Recreated(s.fs, path, node)
  {
    hide Reachable, AllJoined, Lookup, Excused, Member;
    NoMemberAtRoot(root, node);
    UniqueRoot(s, root);
    LookupIsMember(root, path, node);
    id := EntryIsVisited(s, root, path, node);
    if id !in s.history.broken { WholeUnlessBroken(s, root, id); }
  }

  // ---- without failing calls ----

  /**
   * What a signal leaves: entries from the start of the traversal, each complete, but for at most one file
   * that was opened and given up, which is empty; and nothing else.
   */
  ghost predicate CleanPart(s: State, root: seq<Entry>) {
    var files := RegularItems(s.history.visited);
    && s.history.visited <= Flatten([], root)
    && (s.history.visited == Flatten([], root) || s.stop)
    && (|| s.history.put == files
        || (s.stop && files != [] && s.history.put == files[..|files| - 1]
            && files[|files| - 1].path in s.fs && s.fs[files[|files| - 1].path] == FileImage([])))
    && [] in s.fs && s.fs[[]] == DirImage
    && (forall item :: item in s.history.put ==> item.path in s.fs && s.fs[item.path] == FileImage(item.content))
    && (forall path :: path in s.fs && path != [] ==> FromTree(root, path) && Faithful(s.fs, root, path))
  }

  ghost predicate Faithful(fs: FileSystem, root: seq<Entry>, path: Path)
    requires path in fs && FromTree(root, path)
  {
    var node := Lookup(root, path).value;
    fs[path] == ImageOf(node) || (node.Regular? && fs[path] == FileImage([]))
  }

  lemma LastGivenUp(s: State, root: seq<Entry>)
    requires Reachable(s, root) && AllJoined(s) && s.history.clean
    requires s.history.put != RegularItems(s.history.visited)
    ensures var files := RegularItems(s.history.visited);
            && s.stop && files != [] && s.history.put == files[..|files| - 1]
            && files[|files| - 1].path in s.fs && s.fs[files[|files| - 1].path] == FileImage([])
  {
    hide Reachable, AllJoined;
    JoinedPuts(s, root);
    var files := RegularItems(s.history.visited);
    var last := files[|files| - 1];
    ItemsAreGenuine(s.history.visited, last);
    RegularOnce(s.history.visited, last.id);
    CountItemsAdd(s.history.put, last, last.id);
    assert s.history.put + [last] == files;
    VisitIsComplete(s, root, last.id);
  }

  lemma {:induction false} ItemsAreGenuine(visited: seq<Visit>, item: Item)
    requires item in RegularItems(visited)
    ensures Genuine(visited, item)
  {
    var id := |visited| - 1;
    var v := visited[id];
    if !(v.node.Regular? && item == Item(id, v.path, v.node.content)) { ItemsAreGenuine(visited[..id], item); }
  }

  lemma PutIsComplete(s: State, root: seq<Entry>, item: Item)
    requires Reachable(s, root) && AllJoined(s) && s.history.clean && item in s.history.put
    ensures item.path in s.fs && s.fs[item.path] == FileImage(item.content)
  {
    hide Reachable, AllJoined;
    JoinedPuts(s, root);
    CountItemsPositive(s.history.put, item);
    VisitIsComplete(s, root, item.id);
  }

  lemma PathIsFaithful(s: State, root: seq<Entry>, path: Path)
    requires Reachable(s, root) && AllJoined(s) && s.history.clean && path in s.fs && path != []
    ensures FromTree(root, path) && Faithful(s.fs, root, path)
  {
    hide Reachable, AllJoined, Lookup;
    var id := PathIsVisited(s, root, path);
    VisitIsComplete(s, root, id);
  }

  /** The joins of any run without failing calls, interrupted or not. */
  lemma InterruptedCopy(s: State, root: seq<Entry>)
    requires Reachable(s, root) && AllJoined(s) && s.history.clean
    ensures CleanPart(s, root)
    ensures s.stats.regularFiles == s.stats.totalFiles == s.stats.filesCopied == |s.history.put|
    ensures s.stats.directories == CountVisits(s.history.visited, IsDirectory())
    ensures s.stats.fifoFiles == CountVisits(s.history.visited, IsFifo())
    ensures s.stats.symlinks == CountVisits(s.history.visited, IsSymlink())
    ensures s.stats.totalBytes == SizeItems(s.history.put)
  {
    hide *;
    CleanPaths(s, root);
    CleanStatistics(s, root);
  }

  lemma CleanStatistics(s: State, root: seq<Entry>)
    requires Reachable(s, root) && AllJoined(s) && s.history.clean
    ensures s.stats.regularFiles == s.stats.totalFiles == s.stats.filesCopied == |s.history.put|
    ensures s.stats.directories == CountVisits(s.history.visited, IsDirectory())
    ensures s.stats.fifoFiles == CountVisits(s.history.visited, IsFifo())
    ensures s.stats.symlinks == CountVisits(s.history.visited, IsSymlink())
    ensures s.stats.totalBytes == SizeItems(s.history.put)
  {
    hide *;
    NothingBroke(s, root);
    JoinedStatistics(s, root);
    CountedBytesWhole(s.history.put);
  }

  lemma CleanPaths(s: State, root: seq<Entry>)
    requires Reachable(s, root) && AllJoined(s) && s.history.clean
    ensures CleanPart(s, root)
  {
    hide Reachable, AllJoined, FromTree, Faithful, RegularItems, Flatten, Thinned, Genuine;
    JoinedVisits(s, root);
    JoinedPuts(s, root);
    NothingBroke(s, root);
    if s.history.put != RegularItems(s.history.visited) { LastGivenUp(s, root); }
    forall item | item in s.history.put ensures item.path in s.fs && s.fs[item.path] == FileImage(item.content) {
      PutIsComplete(s, root, item);
    }
    forall path | path in s.fs && path != [] ensures FromTree(root, path) && Faithful(s.fs, root, path) {
      PathIsFaithful(s, root, path);
    }
  }

  // ---- without signal and failing calls ----

  lemma AllPut(s: State, root: seq<Entry>, id: nat)
    requires Reachable(s, root) && AllJoined(s) && Uncut(s)
    ensures CountItems(s.history.put, id) == TimesOpened(s.history.visited, id)
  {
    hide Reachable, AllJoined;
    JoinedPuts(s, root);
    RegularOnce(s.history.visited, id);
  }

  lemma UniqueRoot(s: State, root: seq<Entry>)
    requires Reachable(s, root)
    ensures UniqueNames(root)
  {
    ReachableCopies(s, root, 0);
  }

  lemma EntryIsCopied(s: State, root: seq<Entry>, path: Path)
    requires Reachable(s, root) && AllJoined(s) && Uncut(s) && FromTree(root, path)
    ensures path in s.fs && s.fs[path] == ImageOf(Lookup(root, path).value)
  {
    hide Reachable, AllJoined, Lookup;
    var node := Lookup(root, path).value;
    JoinedVisits(s, root);
    assert [] + path == path;
    UniqueRoot(s, root);
    FlattenIsLookup([], root, path, node);
    var id :| 0 <= id < |s.history.visited| && s.history.visited[id] == Visit(path, node);
    VisitIsComplete(s, root, id);
    AllPut(s, root, id);
  }

  lemma MemberIsCopied(s: State, root: seq<Entry>, path: Path, node: Node)
    requires Reachable(s, root) && AllJoined(s) && Uncut(s) && Member(root, path, node)
    ensures Recreated(s.fs, path, node)
  {
    hide Reachable, AllJoined, Lookup, Member;
    UniqueRoot(s, root);
    LookupIsMember(root, path, node);
    if FromTree(root, path) {
      EntryIsCopied(s, root, path);
    } else if path in s.fs {
      assert path != [] by { NoMemberAtRoot(root, node); }
      PathIsFaithful(s, root, path);
    }
  }

  lemma NoMemberAtRoot(root: seq<Entry>, node: Node)
    ensures !Member(root, [], node)
  {
  }

  /** The main result: the destination is the source restricted to directories, files and links. */
  lemma CompleteCopy(s: State, root: seq<Entry>)
    requires Reachable(s, root) && AllJoined(s) && Uncut(s)
    ensures IsCopyOf(s.fs, root)
  {
    hide Reachable, AllJoined, Lookup, Member, Recreated;
    NothingBroke(s, root);
    UniqueRoot(s, root);
    forall path, node | Member(root, path, node) ensures Recreated(s.fs, path, node) {
      MemberIsCopied(s, root, path, node);
    }
    forall path | path in s.fs && path != [] ensures exists node :: Member(root, path, node) {
      PathIsFaithful(s, root, path);
      LookupIsMember(root, path, Lookup(root, path).value);
    }
  }

  lemma {:induction false} RegularItemsMeasure(visited: seq<Visit>)
    ensures |RegularItems(visited)| == CountVisits(visited, IsRegular())
    ensures SizeItems(RegularItems(visited)) == SizeVisits(visited)
  {
    if visited != [] {
      var id := |visited| - 1;
      RegularItemsMeasure(visited[..id]);
      var v := visited[id];
      if v.node.Regular? { SizeItemsAdd(RegularItems(visited[..id]), Item(id, v.path, v.node.content)); }
      else { assert RegularItems(visited[..id]) + [] == RegularItems(visited[..id]); }
    }
  }

  /** The printed statistics are the counts of the tree and the sum of its file sizes. */
  lemma ExactStatistics(s: State, root: seq<Entry>)
    requires Reachable(s, root) && AllJoined(s) && Uncut(s)
    ensures s.stats.regularFiles == s.stats.totalFiles == s.stats.filesCopied == CountTree(root, IsRegular())
    ensures s.stats.directories == CountTree(root, IsDirectory())
    ensures s.stats.fifoFiles == CountTree(root, IsFifo())
    ensures s.stats.symlinks == CountTree(root, IsSymlink())
    ensures s.stats.totalBytes == SizeTree(root)
  {
    hide Reachable, AllJoined, RegularItems, CountVisits, CountTree, SizeItems, SizeTree;
    JoinedVisits(s, root);
    JoinedPuts(s, root);
    JoinedStatistics(s, root);
    NothingBroke(s, root);
    CountedBytesWhole(s.history.put);
    RegularItemsMeasure(s.history.visited);
    FlattenCounts([], root, IsRegular());
    FlattenCounts([], root, IsDirectory());
    FlattenCounts([], root, IsFifo());
    FlattenCounts([], root, IsSymlink());
    FlattenSizes([], root);
  }

  /** The counters of main for a list of entries: the number of each kind, and the bytes of the regular files. */
  function Totals(all: seq<Visit>): Stats {
    var files := CountVisits(all, IsRegular());
    Stats(files, files, files, CountVisits(all, IsFifo()), CountVisits(all, IsDirectory()),
          CountVisits(all, IsSymlink()), SizeVisits(all))
  }

  /** They count the members of the tree. */
  ghost predicate Exact(stats: Stats, root: seq<Entry>) {
    (exists all :: Lists(all, root)) && forall all :: Lists(all, root) ==> stats == Totals(all)
  }

  lemma StatisticsOfMembers(s: State, root: seq<Entry>)
    requires Reachable(s, root) && AllJoined(s) && Uncut(s)
    ensures Exact(s.stats, root)
  {
    hide Reachable, AllJoined, Lists, CountVisits, SizeVisits, CountTree, SizeTree;
    UniqueRoot(s, root);
    FlattenLists(root);
    ExactStatistics(s, root);
    var flat := Flatten([], root);
    FlattenCounts([], root, IsRegular());
    FlattenCounts([], root, IsDirectory());
    FlattenCounts([], root, IsFifo());
    FlattenCounts([], root, IsSymlink());
    FlattenSizes([], root);
    forall all | Lists(all, root) ensures s.stats == Totals(all) {
      ListsAgree(all, flat, root, IsRegular());
      ListsAgree(all, flat, root, IsFifo());
      ListsAgree(all, flat, root, IsDirectory());
      ListsAgree(all, flat, root, IsSymlink());
    }
    assert Lists(flat, root);
  }

  /** No run puts more files than the tree has. */
  lemma PutsAreOfTree(s: State, root: seq<Entry>)
    requires Reachable(s, root)
    ensures |s.history.put| <= CountTree(root, IsRegular())
  {
    hide SyncInv, FifoInv, CountInv, PairInv, BreakInv, WalkInv, StatInv, ByteInv, ShownInv, FsInv, Reachable, Genuine,
      RegularItems, CountVisits, CountTree, Flatten;
    ReachableCopies(s, root, 0);
    VisitsAreEntries(s, root);
    var at :| ThinnedBy(s.history.visited, Flatten([], root), at);
    ThinnedCount(s.history.visited, Flatten([], root), at, IsRegular());
    FlattenCounts([], root, IsRegular());
    RegularItemsMeasure(s.history.visited);
  }
}
