/** Source trees and destination file systems of the directory copiers. */
module FileTree {

  import opened Words
  import opened Wrappers

  type Name = string
  type Path = seq<Name>
  type Bytes = seq<uint8>

  /** What `lstat` and the contents of a source entry amount to. */
  datatype Node =
    | Regular(content: Bytes)
    | Directory(entries: seq<Entry>)
    | Fifo
    | Symlink(target: string)
    | Special

  datatype Entry = Entry(name: Name, node: Node)

  /** One entry met by the traversal, with its path below the copied root. */
  datatype Visit = Visit(path: Path, node: Node)

  /** What can exist at a destination path. */
  datatype Image = DirImage | FileImage(bytes: Bytes) | LinkImage(target: string)

  type FileSystem = map<Path, Image>

  predicate IsDots(name: Name) { name == "." || name == ".." }

  /** Kinds of source entry that the copier recreates; a FIFO is only counted. */
  predicate Kept(node: Node) { node.Regular? || node.Directory? || node.Symlink? }

  function ImageOf(node: Node): Image
    requires Kept(node)
  {
    match node
    case Regular(content) => FileImage(content)
    case Directory(_) => DirImage
    case Symlink(target) => LinkImage(target)
  }

  /** No directory lists a name twice. */
  ghost predicate UniqueNames(entries: seq<Entry>)
    decreases entries
  {
    && (forall i, j :: 0 <= i < j < |entries| ==> entries[i].name != entries[j].name)
    && (forall i :: 0 <= i < |entries| && entries[i].node.Directory? ==> UniqueNames(entries[i].node.entries))
  }

  /** The depth-first order in which a traversal meets the entries. */
  function Flatten(dir: Path, entries: seq<Entry>): seq<Visit>
    decreases entries
  {
    if entries == [] then []
    else FlattenNode(dir, entries[0].name, entries[0].node) + Flatten(dir, entries[1..])
  }

  function FlattenNode(dir: Path, name: Name, node: Node): seq<Visit>
    decreases node
  {
    if IsDots(name) then []
    else
      [Visit(dir + [name], node)]
      + if node.Directory? then Flatten(dir + [name], node.entries) else []
  }

  /** Reference meaning of a path: walk down the tree one name at a time. */
  function Find(entries: seq<Entry>, name: Name): Option<Node> {
    if entries == [] || IsDots(name) then None
    else if entries[0].name == name then Some(entries[0].node)
    else Find(entries[1..], name)
  }

  function Lookup(entries: seq<Entry>, path: Path): Option<Node>
    decreases |path|
  {
    if path == [] then None
    else
      var found := Find(entries, path[0]);
      if |path| == 1 || found.None? then found
      else if found.value.Directory? then Lookup(found.value.entries, path[1..])
      else None
  }

  /** Entries of a tree satisfying `p`, counted by structure. */
  function CountTree(entries: seq<Entry>, p: Node -> bool): nat
    decreases entries
  {
    if entries == [] then 0
    else CountNode(entries[0].name, entries[0].node, p) + CountTree(entries[1..], p)
  }

  function CountNode(name: Name, node: Node, p: Node -> bool): nat
    decreases node
  {
    if IsDots(name) then 0
    else (if p(node) then 1 else 0) + if node.Directory? then CountTree(node.entries, p) else 0
  }

  function SizeTree(entries: seq<Entry>): nat
    decreases entries
  {
    if entries == [] then 0
    else SizeNode(entries[0].name, entries[0].node) + SizeTree(entries[1..])
  }

  function SizeNode(name: Name, node: Node): nat
    decreases node
  {
    if IsDots(name) then 0
    else if node.Regular? then |node.content|
    else if node.Directory? then SizeTree(node.entries)
    else 0
  }

  /** The same two sums over a list of visits, newest last. */
  function CountVisits(visits: seq<Visit>, p: Node -> bool): nat {
    if visits == [] then 0
    else CountVisits(visits[..|visits| - 1], p) + if p(visits[|visits| - 1].node) then 1 else 0
  }

  function VisitSize(v: Visit): nat { if v.node.Regular? then |v.node.content| else 0 }

  function SizeVisits(visits: seq<Visit>): nat {
    if visits == [] then 0
    else SizeVisits(visits[..|visits| - 1]) + VisitSize(visits[|visits| - 1])
  }

  lemma {:induction false} CountVisitsConcat(a: seq<Visit>, b: seq<Visit>, p: Node -> bool)
    ensures CountVisits(a + b, p) == CountVisits(a, p) + CountVisits(b, p)
    decreases |b|
  {
    if b == [] {
      assert a + b == a;
    } else {
      assert (a + b)[..|a + b| - 1] == a + b[..|b| - 1];
      CountVisitsConcat(a, b[..|b| - 1], p);
    }
  }

  lemma {:induction false} SizeVisitsConcat(a: seq<Visit>, b: seq<Visit>)
    ensures SizeVisits(a + b) == SizeVisits(a) + SizeVisits(b)
    decreases |b|
  {
    if b == [] {
      assert a + b == a;
    } else {
      assert (a + b)[..|a + b| - 1] == a + b[..|b| - 1];
      SizeVisitsConcat(a, b[..|b| - 1]);
    }
  }

  lemma CountVisitsOne(v: Visit, p: Node -> bool)
    ensures CountVisits([v], p) == if p(v.node) then 1 else 0
  {
    assert [v][..0] == [];
  }

  lemma SizeVisitsOne(v: Visit)
    ensures SizeVisits([v]) == VisitSize(v)
  {
    assert [v][..0] == [];
  }

  /** Counting along the traversal agrees with counting over the tree. */
  lemma {:induction false} FlattenCounts(dir: Path, entries: seq<Entry>, p: Node -> bool)
    ensures CountVisits(Flatten(dir, entries), p) == CountTree(entries, p)
    decreases entries
  {
    if entries != [] {
      var e := entries[0];
      FlattenNodeCounts(dir, e.name, e.node, p);
      FlattenCounts(dir, entries[1..], p);
      CountVisitsConcat(FlattenNode(dir, e.name, e.node), Flatten(dir, entries[1..]), p);
    }
  }

  lemma {:induction false} FlattenNodeCounts(dir: Path, name: Name, node: Node, p: Node -> bool)
    ensures CountVisits(FlattenNode(dir, name, node), p) == CountNode(name, node, p)
    decreases node
  {
    if !IsDots(name) {
      var here := Visit(dir + [name], node);
      var below := if node.Directory? then Flatten(dir + [name], node.entries) else [];
      if node.Directory? { FlattenCounts(dir + [name], node.entries, p); }
      CountVisitsConcat([here], below, p);
      CountVisitsOne(here, p);
    }
  }

  lemma {:induction false} FlattenSizes(dir: Path, entries: seq<Entry>)
    ensures SizeVisits(Flatten(dir, entries)) == SizeTree(entries)
    decreases entries
  {
    if entries != [] {
      var e := entries[0];
      FlattenNodeSizes(dir, e.name, e.node);
      FlattenSizes(dir, entries[1..]);
      SizeVisitsConcat(FlattenNode(dir, e.name, e.node), Flatten(dir, entries[1..]));
    }
  }

  lemma {:induction false} FlattenNodeSizes(dir: Path, name: Name, node: Node)
    ensures SizeVisits(FlattenNode(dir, name, node)) == SizeNode(name, node)
    decreases node
  {
    if !IsDots(name) {
      var here := Visit(dir + [name], node);
      var below := if node.Directory? then Flatten(dir + [name], node.entries) else [];
      if node.Directory? { FlattenSizes(dir + [name], node.entries); }
      SizeVisitsConcat([here], below);
      SizeVisitsOne(here);
    }
  }

  /** Entries come in the order in which their directory lists them. */
  lemma {:induction false} FlattenInOrder(dir: Path, a: seq<Entry>, b: seq<Entry>)
    ensures Flatten(dir, a + b) == Flatten(dir, a) + Flatten(dir, b)
    decreases |a|
  {
    if a == [] {
      assert a + b == b;
    } else {
      assert (a + b)[1..] == a[1..] + b;
      FlattenInOrder(dir, a[1..], b);
      hide FlattenNode;
    }
  }

  /** A directory comes before what it holds. */
  lemma FlattenOne(dir: Path, e: Entry)
    requires e.name != "." && e.name != ".."
    ensures Flatten(dir, [e])
            == [Visit(dir + [e.name], e.node)]
               + if e.node.Directory? then Flatten(dir + [e.name], e.node.entries) else []
  {
    assert [e][1..] == [];
    assert FlattenNode(dir, e.name, e.node) + [] == FlattenNode(dir, e.name, e.node);
  }

  /** `path` lies strictly below `dir`, through the name `name`. */
  predicate Under(dir: Path, name: Name, path: Path) {
    |dir| < |path| && path[..|dir|] == dir && path[|dir|] == name
  }

  lemma FindInRest(entries: seq<Entry>, name: Name)
    requires entries != []
    ensures entries[0].name != name ==> Find(entries, name) == Find(entries[1..], name)
  {
  }

  lemma {:induction false} FindSome(entries: seq<Entry>, name: Name)
    ensures Find(entries, name).Some? ==>
              exists i :: 0 <= i < |entries| && entries[i].name == name && entries[i].node == Find(entries, name).value
    ensures (forall i :: 0 <= i < |entries| ==> entries[i].name != name) ==> Find(entries, name).None?
  {
    if entries != [] && entries[0].name != name {
      FindSome(entries[1..], name);
      if !IsDots(name) && Find(entries, name).Some? {
        var rest := entries[1..];
        var i :| 0 <= i < |rest| && rest[i].name == name && rest[i].node == Find(rest, name).value;
        assert entries[i + 1].name == name && entries[i + 1].node == Find(entries, name).value;
      }
    }
  }

  /** Every visit of a subtree lies under the name of that subtree. */
  lemma {:induction false} FlattenUnder(dir: Path, entries: seq<Entry>, v: Visit)
    requires v in Flatten(dir, entries)
    ensures exists i :: 0 <= i < |entries| && !IsDots(entries[i].name) && Under(dir, entries[i].name, v.path)
    decreases entries
  {
    var e := entries[0];
    if v in FlattenNode(dir, e.name, e.node) {
      FlattenNodeUnder(dir, e.name, e.node, v);
    } else {
      FlattenUnder(dir, entries[1..], v);
      var i :| 0 <= i < |entries[1..]| && !IsDots(entries[1..][i].name) && Under(dir, entries[1..][i].name, v.path);
      assert entries[i + 1] == entries[1..][i];
    }
  }

  lemma {:induction false} FlattenNodeUnder(dir: Path, name: Name, node: Node, v: Visit)
    requires v in FlattenNode(dir, name, node)
    ensures !IsDots(name) && Under(dir, name, v.path)
    decreases node
  {
    if v != Visit(dir + [name], node) {
      FlattenUnder(dir + [name], node.entries, v);
      var sub := dir + [name];
      assert v.path[..|sub|] == sub;
      assert v.path[|dir|] == sub[|dir|];
      assert v.path[..|dir|] == sub[..|dir|];
    }
  }

  lemma UniqueNamesTail(entries: seq<Entry>)
    requires UniqueNames(entries) && entries != []
    ensures UniqueNames(entries[1..])
    ensures entries[0].node.Directory? ==> UniqueNames(entries[0].node.entries)
  {
    var rest := entries[1..];
    assert forall i :: 0 <= i < |rest| ==> rest[i] == entries[i + 1];
  }

  /** The traversal meets exactly the paths of the tree, each with its own node. */
  lemma {:induction false} FlattenIsLookup(dir: Path, entries: seq<Entry>, below: Path, node: Node)
    requires UniqueNames(entries)
    ensures Visit(dir + below, node) in Flatten(dir, entries) <==> Lookup(entries, below) == Some(node)
    decreases entries
  {
    var v := Visit(dir + below, node);
    if entries == [] {
    } else if below == [] {
      if v in Flatten(dir, entries) { FlattenUnder(dir, entries, v); }
    } else {
      var e, rest := entries[0], entries[1..];
      UniqueNamesTail(entries);
      FlattenIsLookup(dir, rest, below, node);
      assert (dir + below)[|dir|] == below[0];
      if below[0] == e.name {
        FlattenNodeIsLookup(dir, e, below, node);
        if v in Flatten(dir, rest) {
          FlattenUnder(dir, rest, v);
        }
        assert v !in Flatten(dir, rest);
        assert !IsDots(e.name) ==> Find(entries, below[0]) == Some(e.node);
      } else {
        if v in FlattenNode(dir, e.name, e.node) { FlattenNodeUnder(dir, e.name, e.node, v); }
        FindInRest(entries, below[0]);
      }
    }
  }

  lemma {:induction false} FlattenNodeIsLookup(dir: Path, e: Entry, below: Path, node: Node)
    requires below != [] && below[0] == e.name
    requires e.node.Directory? ==> UniqueNames(e.node.entries)
    ensures Visit(dir + below, node) in FlattenNode(dir, e.name, e.node) <==>
              !IsDots(e.name) && if |below| == 1 then node == e.node
                                 else e.node.Directory? && Lookup(e.node.entries, below[1..]) == Some(node)
    decreases e
  {
    if !IsDots(e.name) {
      var sub := dir + [e.name];
      assert dir + below == sub + below[1..];
      if e.node.Directory? {
        FlattenIsLookup(sub, e.node.entries, below[1..], node);
        if |below| == 1 { assert sub + below[1..] == sub; }
      }
      assert |below| == 1 <==> dir + below == sub by {
        assert |dir + below| == |dir| + |below|;
      }
    }
  }

  ghost predicate DistinctPaths(visits: seq<Visit>) {
    forall i, j :: 0 <= i < j < |visits| ==> visits[i].path != visits[j].path
  }

  /** `a` is `b` with some elements left out; `at` tells where those that stay come from. */
  ghost predicate ThinnedBy(a: seq<Visit>, b: seq<Visit>, at: seq<nat>) {
    && |at| == |a|
    && (forall k :: 0 <= k < |a| ==> at[k] < |b| && a[k] == b[at[k]])
    && (forall j, k :: 0 <= j < k < |a| ==> at[j] < at[k])
  }

  ghost predicate Thinned(a: seq<Visit>, b: seq<Visit>) { exists at :: ThinnedBy(a, b, at) }

  lemma ThinnedSame(b: seq<Visit>)
    ensures Thinned(b, b)
  {
    assert ThinnedBy(b, b, seq(|b|, (k: nat) => k));
  }

  lemma ThinnedDrop(a: seq<Visit>, x: seq<Visit>, c: seq<Visit>, b: seq<Visit>)
    requires Thinned(a + (x + c), b)
    ensures Thinned(a + c, b)
  {
    var at :| ThinnedBy(a + (x + c), b, at);
    var at' := at[..|a|] + at[|a| + |x|..];
    forall k | 0 <= k < |a + c| ensures at'[k] < |b| && (a + c)[k] == b[at'[k]] {
      var from := if k < |a| then k else k + |x|;
      assert at'[k] == at[from] && (a + c)[k] == (a + (x + c))[from];
    }
    assert ThinnedBy(a + c, b, at');
  }

  lemma ThinnedDistinct(a: seq<Visit>, b: seq<Visit>)
    requires Thinned(a, b) && DistinctPaths(b)
    ensures DistinctPaths(a)
  {
  }

  lemma {:induction false} CountPrefix(b: seq<Visit>, n: nat, p: Node -> bool)
    requires n <= |b|
    ensures CountVisits(b[..n], p) <= CountVisits(b, p)
    decreases |b|
  {
    if n == |b| {
      assert b[..n] == b;
    } else {
      assert b[..|b| - 1][..n] == b[..n];
      CountPrefix(b[..|b| - 1], n, p);
    }
  }

  lemma {:induction false} ThinnedCount(a: seq<Visit>, b: seq<Visit>, at: seq<nat>, p: Node -> bool)
    requires ThinnedBy(a, b, at)
    ensures CountVisits(a, p) <= CountVisits(b, p)
    decreases |a|
  {
    if a != [] {
      var last := |a| - 1;
      var j := at[last];
      ThinnedCount(a[..last], b[..j], at[..last], p);
      CountPrefix(b, j + 1, p);
      assert b[..j + 1][..j] == b[..j];
    }
  }

  lemma DistinctConcat(a: seq<Visit>, b: seq<Visit>)
    requires DistinctPaths(a) && DistinctPaths(b)
    requires forall v, w :: v in a && w in b ==> v.path != w.path
    ensures DistinctPaths(a + b)
  {
    forall i, j | 0 <= i < j < |a + b| ensures (a + b)[i].path != (a + b)[j].path {
      if i < |a| <= j {
        assert a[i] in a && b[j - |a|] in b;
      }
    }
  }

  /** No path is met twice. */
  lemma {:induction false} FlattenDistinct(dir: Path, entries: seq<Entry>)
    requires UniqueNames(entries)
    ensures DistinctPaths(Flatten(dir, entries))
    decreases entries
  {
    if entries != [] {
      var e, rest := entries[0], entries[1..];
      UniqueNamesTail(entries);
      FlattenNodeDistinct(dir, e);
      FlattenDistinct(dir, rest);
      forall v, w | v in FlattenNode(dir, e.name, e.node) && w in Flatten(dir, rest)
        ensures v.path != w.path
      {
        FlattenNodeUnder(dir, e.name, e.node, v);
        FlattenUnder(dir, rest, w);
      }
      DistinctConcat(FlattenNode(dir, e.name, e.node), Flatten(dir, rest));
    }
  }

  lemma {:induction false} FlattenNodeDistinct(dir: Path, e: Entry)
    requires e.node.Directory? ==> UniqueNames(e.node.entries)
    ensures DistinctPaths(FlattenNode(dir, e.name, e.node))
    decreases e
  {
    if !IsDots(e.name) && e.node.Directory? {
      var sub := dir + [e.name];
      FlattenDistinct(sub, e.node.entries);
      forall w | w in Flatten(sub, e.node.entries)
        ensures w.path != sub
      {
        FlattenUnder(sub, e.node.entries, w);
      }
      DistinctConcat([Visit(sub, e.node)], Flatten(sub, e.node.entries));
    }
  }
}
