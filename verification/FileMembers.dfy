/** What a tree holds, said by list membership alone: the meaning of a complete copy and of exact counts. */
module FileMembers {
  import opened FileTree
  import opened Wrappers

  /** `path` leads to `node` through names listed by the directories on the way, none of them "." or "..". */
  ghost predicate Member(entries: seq<Entry>, path: Path, node: Node)
    decreases |path|, 1
  {
    && path != [] && path[0] != "." && path[0] != ".."
    && exists i :: 0 <= i < |entries| && Leads(entries[i], path, node)
  }

  ghost predicate Leads(e: Entry, path: Path, node: Node)
    requires path != []
    decreases |path|, 0
  {
    && e.name == path[0]
    && if |path| == 1 then e.node == node else e.node.Directory? && Member(e.node.entries, path[1..], node)
  }

  /** Directories, files and links are recreated, other entries are not. */
  ghost predicate Recreated(fs: FileSystem, path: Path, node: Node) {
    match node
    case Regular(content) => path in fs && fs[path] == FileImage(content)
    case Directory(_) => path in fs && fs[path] == DirImage
    case Symlink(target) => path in fs && fs[path] == LinkImage(target)
    case Fifo => path !in fs
    case Special => path !in fs
  }

  /** The destination that a complete copy of `entries` leaves behind. */
  ghost predicate IsCopyOf(fs: FileSystem, entries: seq<Entry>) {
    && [] in fs && fs[[]] == DirImage
    && (forall path, node :: Member(entries, path, node) ==> Recreated(fs, path, node))
    && (forall path :: path in fs && path != [] ==> exists node :: Member(entries, path, node))
  }

  /** Looking a name up finds the entry of that name, and neither "." nor "..". */
  lemma {:induction false} FindIsMember(entries: seq<Entry>, name: Name)
    requires UniqueNames(entries)
    ensures Find(entries, name).Some?
       <==> name != "." && name != ".." && exists i :: 0 <= i < |entries| && entries[i].name == name
    ensures forall i :: 0 <= i < |entries| && entries[i].name == name && Find(entries, name).Some? ==>
              entries[i].node == Find(entries, name).value
  {
    FindSome(entries, name);
    if name != "." && name != ".." && exists i :: 0 <= i < |entries| && entries[i].name == name {
      FindListed(entries, name);
    }
  }

  lemma {:induction false} FindListed(entries: seq<Entry>, name: Name)
    requires name != "." && name != ".." && exists i :: 0 <= i < |entries| && entries[i].name == name
    ensures Find(entries, name).Some?
  {
    if entries[0].name != name {
      var i :| 0 <= i < |entries| && entries[i].name == name;
      assert entries[1..][i - 1].name == name;
      FindListed(entries[1..], name);
    }
  }

  /** Walking a path down name by name is membership. */
  lemma {:induction false} LookupIsMember(entries: seq<Entry>, path: Path, node: Node)
    requires UniqueNames(entries)
    ensures Lookup(entries, path) == Some(node) <==> Member(entries, path, node)
    decreases |path|
  {
    if path != [] {
      FindIsMember(entries, path[0]);
      if i :| 0 <= i < |entries| && entries[i].name == path[0] {
        var e := entries[i];
        if |path| > 1 && e.node.Directory? { LookupIsMember(e.node.entries, path[1..], node); }
        hide Find;
        assert Member(entries, path, node) <==>
               path[0] != "." && path[0] != ".." && Leads(e, path, node) by {
          assert forall j :: 0 <= j < |entries| && Leads(entries[j], path, node) ==> j == i;
        }
      }
    }
  }

  /** `all` names each entry of the tree once. */
  ghost predicate Lists(all: seq<Visit>, root: seq<Entry>) {
    && DistinctPaths(all)
    && forall path, node :: Visit(path, node) in all <==> Member(root, path, node)
  }

  /** The traversal does. */
  lemma FlattenLists(root: seq<Entry>)
    requires UniqueNames(root)
    ensures Lists(Flatten([], root), root)
  {
    hide Lookup;
    FlattenDistinct([], root);
    forall path, node ensures Visit(path, node) in Flatten([], root) <==> Member(root, path, node) {
      assert [] + path == path;
      FlattenIsLookup([], root, path, node);
      LookupIsMember(root, path, node);
    }
  }

  lemma CountWithout(all: seq<Visit>, i: nat, p: Node -> bool)
    requires i < |all|
    ensures CountVisits(all, p) == CountVisits(all[..i] + all[i + 1..], p) + if p(all[i].node) then 1 else 0
  {
    hide CountVisits;
    assert all == (all[..i] + [all[i]]) + all[i + 1..];
    CountVisitsConcat(all[..i] + [all[i]], all[i + 1..], p);
    CountVisitsConcat(all[..i], [all[i]], p);
    CountVisitsConcat(all[..i], all[i + 1..], p);
    CountVisitsOne(all[i], p);
  }

  lemma SizeWithout(all: seq<Visit>, i: nat)
    requires i < |all|
    ensures SizeVisits(all) == SizeVisits(all[..i] + all[i + 1..]) + VisitSize(all[i])
  {
    hide SizeVisits;
    assert all == (all[..i] + [all[i]]) + all[i + 1..];
    SizeVisitsConcat(all[..i] + [all[i]], all[i + 1..]);
    SizeVisitsConcat(all[..i], [all[i]]);
    SizeVisitsConcat(all[..i], all[i + 1..]);
    SizeVisitsOne(all[i]);
  }

  /** Counts and sizes do not depend on the order. */
  lemma {:induction false} SameCounts(a: seq<Visit>, b: seq<Visit>, p: Node -> bool)
    requires DistinctPaths(a) && DistinctPaths(b) && forall v :: v in a <==> v in b
    ensures CountVisits(a, p) == CountVisits(b, p) && SizeVisits(a) == SizeVisits(b)
    decreases |a|
  {
    if a == [] {
      assert forall k :: 0 <= k < |b| ==> b[k] in a;
    } else {
      var last := |a| - 1;
      var v := a[last];
      assert v in a;
      var i :| 0 <= i < |b| && b[i] == v;
      var a', b' := a[..last], b[..i] + b[i + 1..];
      hide CountVisits, SizeVisits;
      forall w ensures w in a' <==> w in b' { WithoutLast(a, w); WithoutAt(b, i, w); }
      SameCounts(a', b', p);
      assert a' == a[..last] + a[last + 1..];
      CountWithout(a, last, p);
      CountWithout(b, i, p);
      SizeWithout(a, last);
      SizeWithout(b, i);
    }
  }

  lemma WithoutLast(a: seq<Visit>, w: Visit)
    requires a != [] && DistinctPaths(a)
    ensures w in a[..|a| - 1] <==> w in a && w != a[|a| - 1]
  {
  }

  lemma WithoutAt(b: seq<Visit>, i: nat, w: Visit)
    requires i < |b| && DistinctPaths(b)
    ensures w in b[..i] + b[i + 1..] <==> w in b && w != b[i]
    ensures DistinctPaths(b[..i] + b[i + 1..])
  {
    var b' := b[..i] + b[i + 1..];
    assert forall k :: 0 <= k < |b'| ==> b'[k] == b[if k < i then k else k + 1];
    if w in b && w != b[i] {
      var k :| 0 <= k < |b| && b[k] == w;
      assert b'[if k < i then k else k - 1] == w;
    }
  }

  /** Any two lists of the tree agree on all counts. */
  lemma ListsAgree(a: seq<Visit>, b: seq<Visit>, root: seq<Entry>, p: Node -> bool)
    requires Lists(a, root) && Lists(b, root)
    ensures CountVisits(a, p) == CountVisits(b, p) && SizeVisits(a) == SizeVisits(b)
  {
    forall v ensures v in a <==> v in b {
      assert Visit(v.path, v.node) == v;
    }
    SameCounts(a, b, p);
  }
}
