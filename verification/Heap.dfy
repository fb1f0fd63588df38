/** The chunk list of the kernel heap, as a value: first-fit allocation and merging release. */
module Heap {

  /** sizeof(MemoryChunk) on i386: two pointers, a padded bool and a 32-bit size. */
  const HEADER: nat := 16

  datatype Chunk = Chunk(addr: nat, size: nat, used: bool)

  function EndOf(c: Chunk): nat { c.addr + HEADER + c.size }

  /** Chunk `i` ends where its successor begins. */
  ghost predicate Abuts(cs: seq<Chunk>, i: int)
    requires 0 <= i < |cs| - 1
  {
    cs[i + 1].addr == EndOf(cs[i])
  }

  /** Chunk `i` and its successor are not both free. */
  ghost predicate Apart(cs: seq<Chunk>, i: int)
    requires 0 <= i < |cs| - 1
  {
    cs[i].used || cs[i + 1].used
  }

  /** The chunks fill the addresses from `start` to `end` without gap or overlap. */
  ghost predicate Tiles(cs: seq<Chunk>, start: nat, end: nat) {
    && cs != [] && cs[0].addr == start && EndOf(cs[|cs| - 1]) == end
    && forall i :: 0 <= i < |cs| - 1 ==> Abuts(cs, i)
  }

  /** No two neighbours are both free. */
  ghost predicate Merged(cs: seq<Chunk>) {
    forall i :: 0 <= i < |cs| - 1 ==> Apart(cs, i)
  }

  ghost predicate HeapInv(cs: seq<Chunk>, start: nat, end: nat) {
    Tiles(cs, start, end) && Merged(cs)
  }

  /** Address and size of every allocated chunk. */
  ghost function Live(cs: seq<Chunk>): set<(nat, nat)> {
    set c | c in cs && c.used :: (c.addr, c.size)
  }

  // ---- operations ----

  /** `x` put in after position `k`. */
  function Insert<T>(s: seq<T>, k: nat, x: T): (r: seq<T>)
    requires k < |s|
    ensures |r| == |s| + 1
    ensures forall i {:trigger r[i]} :: 0 <= i < |r| ==>
              r[i] == if i <= k then s[i] else if i == k + 1 then x else s[i - 1]
  {
    s[..k + 1] + [x] + s[k + 1..]
  }

  /** The element after position `k` taken out. */
  function RemoveNext<T>(s: seq<T>, k: nat): (r: seq<T>)
    requires k + 1 < |s|
    ensures |r| == |s| - 1
    ensures forall i {:trigger r[i]} :: 0 <= i < |r| ==> r[i] == if i <= k then s[i] else s[i + 1]
  {
    s[..k + 1] + s[k + 2..]
  }

  function FirstFit(cs: seq<Chunk>, n: nat): (i: nat)
    ensures i <= |cs|
  {
    if cs == [] || (cs[0].size > n && !cs[0].used) then 0 else 1 + FirstFit(cs[1..], n)
  }

  /** A chunk of `n` bytes and a free chunk for the rest in place of chunk `i`. */
  function Cut(cs: seq<Chunk>, i: nat, n: nat): (r: seq<Chunk>)
    requires i < |cs| && n + HEADER <= cs[i].size
    ensures |r| == |cs| + 1
  {
    Insert(cs[i := cs[i].(size := n)], i, Chunk(cs[i].addr + HEADER + n, cs[i].size - n - HEADER, false))
  }

  /** Take the free chunk `i`, cut if a header and at least one more byte remain. */
  function Occupy(cs: seq<Chunk>, i: nat, n: nat): seq<Chunk>
    requires i < |cs|
  {
    var cut := if cs[i].size >= n + HEADER + 1 then Cut(cs, i, n) else cs;
    cut[i := cut[i].(used := true)]
  }

  datatype Allocation = Allocation(chunks: seq<Chunk>, ptr: nat)

  /** `malloc`: 0 when nothing fits. */
  function Malloc(cs: seq<Chunk>, n: nat): Allocation {
    var i := FirstFit(cs, n);
    if i == |cs| then Allocation(cs, 0) else Allocation(Occupy(cs, i, n), cs[i].addr + HEADER)
  }

  /** Chunk `k` swallows its successor. */
  function Swallow(cs: seq<Chunk>, k: nat): seq<Chunk>
    requires k + 1 < |cs|
  {
    RemoveNext(cs[k := cs[k].(size := cs[k].size + cs[k + 1].size + HEADER)], k)
  }

  function SwallowNext(cs: seq<Chunk>, k: nat): seq<Chunk>
    requires k < |cs|
  {
    if k + 1 < |cs| && !cs[k + 1].used then Swallow(cs, k) else cs
  }

  /** Release of chunk number `k`: first into its predecessor, then its successor into it. */
  function FreeAt(cs: seq<Chunk>, k: nat): seq<Chunk>
    requires k < |cs|
  {
    var freed := cs[k := cs[k].(used := false)];
    if 0 < k && !cs[k - 1].used then SwallowNext(Swallow(freed, k - 1), k - 1)
    else SwallowNext(freed, k)
  }

  function IndexAt(cs: seq<Chunk>, addr: nat): (i: nat)
    ensures i <= |cs|
    ensures i < |cs| ==> cs[i].addr == addr
  {
    if cs == [] || cs[0].addr == addr then 0 else 1 + IndexAt(cs[1..], addr)
  }

  ghost predicate LivePtr(cs: seq<Chunk>, ptr: nat) {
    exists k :: 0 <= k < |cs| && cs[k].used && ptr == cs[k].addr + HEADER
  }

  /** `free` of a live pointer. */
  function Free(cs: seq<Chunk>, ptr: nat): seq<Chunk>
    requires HEADER <= ptr && IndexAt(cs, ptr - HEADER) < |cs|
  {
    FreeAt(cs, IndexAt(cs, ptr - HEADER))
  }

  // ---- order of addresses ----

  lemma {:induction false} Ordered(cs: seq<Chunk>, start: nat, end: nat, i: nat, j: nat)
    requires Tiles(cs, start, end) && i < j < |cs|
    ensures EndOf(cs[i]) <= cs[j].addr
  {
    assert Abuts(cs, j - 1);
    if i + 1 < j { Ordered(cs, start, end, i, j - 1); }
  }

  lemma Bounds(cs: seq<Chunk>, start: nat, end: nat, i: nat)
    requires Tiles(cs, start, end) && i < |cs|
    ensures start <= cs[i].addr && EndOf(cs[i]) <= end
  {
    if 0 < i { Ordered(cs, start, end, 0, i); }
    if i < |cs| - 1 { Ordered(cs, start, end, i, |cs| - 1); }
  }

  /** Live payloads are disjoint from each other and from every header. */
  lemma PayloadsDisjoint(cs: seq<Chunk>, start: nat, end: nat, i: nat, j: nat)
    requires Tiles(cs, start, end) && i < |cs| && j < |cs| && i != j
    ensures cs[i].addr + HEADER + cs[i].size <= cs[j].addr || cs[j].addr + HEADER + cs[j].size <= cs[i].addr
    ensures start <= cs[i].addr && EndOf(cs[i]) <= end
  {
    Bounds(cs, start, end, i);
    if i < j { Ordered(cs, start, end, i, j); } else { Ordered(cs, start, end, j, i); }
  }

  lemma TilesTail(cs: seq<Chunk>, start: nat, end: nat)
    requires Tiles(cs, start, end) && |cs| > 1
    ensures Tiles(cs[1..], EndOf(cs[0]), end)
    ensures Merged(cs) ==> Merged(cs[1..])
  {
    var rest := cs[1..];
    assert Abuts(cs, 0);
    forall i | 0 <= i < |rest| - 1 ensures Abuts(rest, i) && (Merged(cs) ==> Apart(rest, i)) {
      assert Abuts(cs, i + 1);
      assert Merged(cs) ==> Apart(cs, i + 1);
    }
  }

  lemma {:induction false} IndexIsUnique(cs: seq<Chunk>, start: nat, end: nat, k: nat)
    requires Tiles(cs, start, end) && k < |cs|
    ensures IndexAt(cs, cs[k].addr) == k
  {
    if 0 < k {
      Ordered(cs, start, end, 0, k);
      TilesTail(cs, start, end);
      IndexIsUnique(cs[1..], EndOf(cs[0]), end, k - 1);
    }
  }

  // ---- every operation keeps the invariant ----

  /** First fit: the chunk found is large enough and free, and no earlier one is. */
  lemma {:induction false} FirstFitMeans(cs: seq<Chunk>, n: nat)
    ensures var i := FirstFit(cs, n);
            && (i < |cs| ==> cs[i].size > n && !cs[i].used)
            && forall j :: 0 <= j < i ==> cs[j].size <= n || cs[j].used
  {
    if cs != [] && !(cs[0].size > n && !cs[0].used) {
      FirstFitMeans(cs[1..], n);
      assert forall j :: 0 < j < FirstFit(cs, n) ==> cs[j] == cs[1..][j - 1];
    }
  }

  /** `malloc` fails exactly when no free chunk is larger than the request. */
  lemma MallocComplete(cs: seq<Chunk>, n: nat)
    ensures Malloc(cs, n).ptr == 0 <==> forall c :: c in cs && !c.used ==> c.size <= n
    ensures Malloc(cs, n).ptr == 0 ==> Malloc(cs, n).chunks == cs
  {
    FirstFitMeans(cs, n);
    var i := FirstFit(cs, n);
    if i < |cs| { assert cs[i] in cs; }
  }

  /** What `malloc` hands out: a live chunk at a new address, of at least `n` bytes. */
  lemma MallocKeeps(cs: seq<Chunk>, start: nat, end: nat, n: nat) returns (size: nat)
    requires HeapInv(cs, start, end)
    ensures HeapInv(Malloc(cs, n).chunks, start, end)
    ensures n <= size <= n + HEADER
    ensures Malloc(cs, n).ptr != 0 ==>
              && HEADER <= Malloc(cs, n).ptr
              && (forall block :: block in Live(cs) ==> block.0 + HEADER != Malloc(cs, n).ptr)
              && Live(Malloc(cs, n).chunks) == Live(cs) + {(Malloc(cs, n).ptr - HEADER, size)}
  {
    FirstFitMeans(cs, n);
    var i := FirstFit(cs, n);
    size := n;
    if i < |cs| {
      OccupyKeeps(cs, start, end, i, n);
      OccupyLive(cs, i, n);
      FreeIsNotLive(cs, start, end, i);
      if cs[i].size < n + HEADER + 1 { size := cs[i].size; }
      hide Occupy, FirstFit, Live, HeapInv;
    }
  }

  /**
   * Where and how much: the first free chunk larger than the request, in the order of addresses, and of it exactly the
   * bytes asked for if a header of 16 bytes and at least one more remain, else all of it.
   */
  lemma MallocMeans(cs: seq<Chunk>, start: nat, end: nat, n: nat) returns (i: nat)
    requires HeapInv(cs, start, end) && Malloc(cs, n).ptr != 0
    ensures i < |cs| && !cs[i].used && cs[i].size > n && Malloc(cs, n).ptr == cs[i].addr + 16
    ensures forall j :: 0 <= j < |cs| && !cs[j].used && cs[j].size > n ==> cs[i].addr <= cs[j].addr
    ensures Live(Malloc(cs, n).chunks)
            == Live(cs) + {(cs[i].addr, if cs[i].size > n + 16 then n else cs[i].size)}
  {
    FirstFitMeans(cs, n);
    i := FirstFit(cs, n);
    OccupyLive(cs, i, n);
    forall j | 0 <= j < |cs| && !cs[j].used && cs[j].size > n ensures cs[i].addr <= cs[j].addr {
      if i < j { Ordered(cs, start, end, i, j); }
    }
  }

  lemma FreeIsNotLive(cs: seq<Chunk>, start: nat, end: nat, i: nat)
    requires Tiles(cs, start, end) && i < |cs| && !cs[i].used
    ensures forall block :: block in Live(cs) ==> block.0 != cs[i].addr
  {
    forall c | c in cs && c.used ensures c.addr != cs[i].addr {
      var j :| 0 <= j < |cs| && cs[j] == c;
      PayloadsDisjoint(cs, start, end, i, j);
    }
  }

  lemma OccupyKeeps(cs: seq<Chunk>, start: nat, end: nat, i: nat, n: nat)
    requires HeapInv(cs, start, end) && i < |cs| && cs[i].size > n && !cs[i].used
    ensures HeapInv(Occupy(cs, i, n), start, end)
  {
    hide Insert;
    var cs' := Occupy(cs, i, n);
    forall j | 0 <= j < |cs'| - 1 ensures Abuts(cs', j) && Apart(cs', j) {
      var k := if j <= i || |cs'| == |cs| then j else j - 1;
      assert k < |cs| - 1 ==> Abuts(cs, k) && Apart(cs, k);
    }
  }

  lemma OccupyLive(cs: seq<Chunk>, i: nat, n: nat)
    requires i < |cs| && cs[i].size > n && !cs[i].used
    ensures Live(Occupy(cs, i, n))
            == Live(cs) + {(cs[i].addr, if cs[i].size >= n + HEADER + 1 then n else cs[i].size)}
  {
    var cs' := Occupy(cs, i, n);
    var c := cs'[i];
    assert c.used && c in cs';
    forall d | d in cs && d.used ensures d in cs' {
      var j :| 0 <= j < |cs| && cs[j] == d;
      assert d == if j < i || |cs'| == |cs| then cs'[j] else cs'[j + 1];
    }
    forall d | d in cs' && d.used && d != c ensures d in cs {
      var j :| 0 <= j < |cs'| && cs'[j] == d;
      assert d == if j < i || |cs'| == |cs| then cs[j] else cs[j - 1];
    }
  }

  lemma SwallowKeeps(cs: seq<Chunk>, start: nat, end: nat, k: nat)
    requires Tiles(cs, start, end) && k + 1 < |cs|
    ensures Tiles(Swallow(cs, k), start, end)
  {
    hide RemoveNext;
    var cs' := Swallow(cs, k);
    assert Abuts(cs, k);
    forall j | 0 <= j < |cs'| - 1 ensures Abuts(cs', j) {
      assert Abuts(cs, if j < k then j else j + 1);
    }
  }

  lemma SwallowLive(cs: seq<Chunk>, k: nat)
    requires k + 1 < |cs| && !cs[k].used && !cs[k + 1].used
    ensures Live(Swallow(cs, k)) == Live(cs)
  {
    hide RemoveNext;
    var cs' := Swallow(cs, k);
    forall d | d in cs && d.used ensures d in cs' {
      var j :| 0 <= j < |cs| && cs[j] == d;
      assert d == cs'[if j < k then j else j - 1];
    }
    forall d | d in cs' && d.used ensures d in cs {
      var j :| 0 <= j < |cs'| && cs'[j] == d;
      assert d == cs[if j < k then j else j + 1];
    }
  }

  /** Every pair of neighbours is merged, except possibly the pairs around chunk `k`. */
  ghost predicate MergedBut(cs: seq<Chunk>, k: nat) {
    forall i :: 0 <= i < |cs| - 1 && i != k && i + 1 != k ==> Apart(cs, i)
  }

  lemma SwallowMerges(cs: seq<Chunk>, k: nat)
    requires k + 1 < |cs| && MergedBut(cs, k) && !cs[k].used && !cs[k + 1].used
    requires 0 < k ==> cs[k - 1].used
    requires k + 2 < |cs| ==> cs[k + 2].used
    ensures Merged(Swallow(cs, k))
  {
    hide RemoveNext;
    var cs' := Swallow(cs, k);
    forall j | 0 <= j < |cs'| - 1 ensures Apart(cs', j) {
      var i := if j < k then j else j + 1;
      assert i != k && i + 1 != k ==> Apart(cs, i);
    }
  }

  /** The second merge completes the release of the free chunk `k`, whose predecessor is in use. */
  lemma SwallowNextKeeps(cs: seq<Chunk>, start: nat, end: nat, k: nat)
    requires Tiles(cs, start, end) && k < |cs| && !cs[k].used && MergedBut(cs, k)
    requires 0 < k ==> cs[k - 1].used
    ensures HeapInv(SwallowNext(cs, k), start, end) && Live(SwallowNext(cs, k)) == Live(cs)
  {
    if k + 1 < |cs| && !cs[k + 1].used {
      assert k + 2 < |cs| ==> Apart(cs, k + 1);
      SwallowKeeps(cs, start, end, k);
      SwallowLive(cs, k);
      SwallowMerges(cs, k);
    } else {
      forall j | 0 <= j < |cs| - 1 ensures Apart(cs, j) {
        assert j != k && j + 1 != k ==> Apart(cs, j);
      }
    }
  }

  lemma MarkFree(cs: seq<Chunk>, start: nat, end: nat, k: nat)
    requires Tiles(cs, start, end) && Merged(cs) && k < |cs| && cs[k].used
    ensures var freed := cs[k := cs[k].(used := false)];
            Tiles(freed, start, end) && MergedBut(freed, k) && Live(freed) == Live(cs) - {(cs[k].addr, cs[k].size)}
  {
    var freed := cs[k := cs[k].(used := false)];
    forall j | 0 <= j < |freed| - 1 ensures Abuts(freed, j) && (j != k && j + 1 != k ==> Apart(freed, j)) {
      assert Abuts(cs, j) && Apart(cs, j);
    }
    forall c | c in cs && c.used && c != cs[k] ensures c in freed {
      var j :| 0 <= j < |cs| && cs[j] == c;
      assert freed[j] == c;
    }
    forall c | c in freed && c.used ensures c in cs && (c.addr, c.size) != (cs[k].addr, cs[k].size) {
      var j :| 0 <= j < |freed| && freed[j] == c;
      assert cs[j] == c;
      PayloadsDisjoint(cs, start, end, j, k);
    }
  }

  /** The release when the predecessor is free too. */
  lemma FreeIntoPrevious(cs: seq<Chunk>, freed: seq<Chunk>, start: nat, end: nat, k: nat)
    requires Merged(cs) && Tiles(freed, start, end) && MergedBut(freed, k) && 0 < k < |cs|
    requires freed == cs[k := cs[k].(used := false)] && !cs[k - 1].used
    ensures HeapInv(SwallowNext(Swallow(freed, k - 1), k - 1), start, end)
    ensures Live(SwallowNext(Swallow(freed, k - 1), k - 1)) == Live(freed)
  {
    hide RemoveNext;
    SwallowKeeps(freed, start, end, k - 1);
    SwallowLive(freed, k - 1);
    var s := Swallow(freed, k - 1);
    assert k > 1 ==> Apart(cs, k - 2) && s[k - 2] == cs[k - 2];
    forall j | 0 <= j < |s| - 1 && j != k - 1 && j + 1 != k - 1 ensures Apart(s, j) {
      assert Apart(freed, if j < k - 1 then j else j + 1);
    }
    hide Swallow, Live;
    SwallowNextKeeps(s, start, end, k - 1);
  }

  lemma FreeAtKeeps(cs: seq<Chunk>, start: nat, end: nat, k: nat)
    requires HeapInv(cs, start, end) && k < |cs| && cs[k].used
    ensures HeapInv(FreeAt(cs, k), start, end)
    ensures Live(FreeAt(cs, k)) == Live(cs) - {(cs[k].addr, cs[k].size)}
  {
    var freed := cs[k := cs[k].(used := false)];
    MarkFree(cs, start, end, k);
    hide Live, Swallow, SwallowNext;
    if 0 < k && !cs[k - 1].used {
      FreeIntoPrevious(cs, freed, start, end, k);
    } else {
      SwallowNextKeeps(freed, start, end, k);
    }
  }

  lemma InLive(cs: seq<Chunk>, k: nat)
    requires k < |cs| && cs[k].used
    ensures (cs[k].addr, cs[k].size) in Live(cs)
  {
    assert cs[k] in cs;
  }

  /** `free` of a live pointer removes exactly its chunk from the live ones. */
  lemma FreeKeeps(cs: seq<Chunk>, start: nat, end: nat, ptr: nat) returns (size: nat)
    requires HeapInv(cs, start, end) && LivePtr(cs, ptr)
    ensures HEADER <= ptr && IndexAt(cs, ptr - HEADER) < |cs|
    ensures HeapInv(Free(cs, ptr), start, end)
    ensures (ptr - HEADER, size) in Live(cs) && Live(Free(cs, ptr)) == Live(cs) - {(ptr - HEADER, size)}
  {
    hide IndexAt, FreeAt, Live;
    var k :| 0 <= k < |cs| && cs[k].used && ptr == cs[k].addr + HEADER;
    IndexIsUnique(cs, start, end, k);
    size := cs[k].size;
    InLive(cs, k);
    FreeAtKeeps(cs, start, end, k);
  }

  // ---- the canonical form ----

  lemma LiveTail(cs: seq<Chunk>, start: nat, end: nat)
    requires Tiles(cs, start, end) && |cs| > 1
    ensures Live(cs[1..]) == Live(cs) - {(cs[0].addr, cs[0].size)}
  {
    var rest := cs[1..];
    forall c | c in rest && c.used ensures c in cs && c.addr != cs[0].addr {
      var j :| 0 <= j < |rest| && rest[j] == c;
      assert cs[j + 1] == c;
      Ordered(cs, start, end, 0, j + 1);
    }
    forall c | c in cs && c.used && (c.addr, c.size) != (cs[0].addr, cs[0].size) ensures c in rest {
      var j :| 0 <= j < |cs| && cs[j] == c;
      assert rest[j - 1] == c;
    }
  }

  lemma LiveAt(cs: seq<Chunk>, start: nat, end: nat, block: (nat, nat)) returns (j: nat)
    requires Tiles(cs, start, end) && block in Live(cs)
    ensures j < |cs| && cs[j] == Chunk(block.0, block.1, true)
    ensures block.0 == start ==> j == 0
  {
    var c :| c in cs && c.used && block == (c.addr, c.size);
    j :| 0 <= j < |cs| && cs[j] == c;
    if 0 < j { Ordered(cs, start, end, 0, j); }
  }

  /** The first chunk of one list cannot end before the first chunk of the other. */
  lemma HeadNotShorter(a: seq<Chunk>, b: seq<Chunk>, start: nat, end: nat)
    requires HeapInv(a, start, end) && HeapInv(b, start, end) && Live(a) == Live(b)
    requires !a[0].used && !b[0].used
    ensures b[0].size <= a[0].size
  {
    if a[0].size < b[0].size {
      Bounds(b, start, end, 0);
      assert |a| > 1 && Abuts(a, 0) && Apart(a, 0);
      assert a[1] in a;
      assert (a[1].addr, a[1].size) in Live(a);
      var j := LiveAt(b, start, end, (a[1].addr, a[1].size));
      Ordered(b, start, end, 0, j);
    }
  }

  lemma SameHead(a: seq<Chunk>, b: seq<Chunk>, start: nat, end: nat)
    requires HeapInv(a, start, end) && HeapInv(b, start, end) && Live(a) == Live(b)
    ensures a[0] == b[0]
  {
    if a[0].used {
      assert a[0] in a;
      var j := LiveAt(b, start, end, (a[0].addr, a[0].size));
    } else if b[0].used {
      assert b[0] in b;
      var j := LiveAt(a, start, end, (b[0].addr, b[0].size));
    } else {
      HeadNotShorter(a, b, start, end);
      HeadNotShorter(b, a, start, end);
    }
  }

  /** Canonical form: the bounds and the live chunks determine the whole list. */
  lemma {:induction false} Canonical(a: seq<Chunk>, b: seq<Chunk>, start: nat, end: nat)
    requires HeapInv(a, start, end) && HeapInv(b, start, end) && Live(a) == Live(b)
    ensures a == b
    decreases |a|
  {
    SameHead(a, b, start, end);
    if |a| > 1 { Ordered(a, start, end, 0, |a| - 1); }
    if |b| > 1 { Ordered(b, start, end, 0, |b| - 1); }
    if |a| > 1 {
      TilesTail(a, start, end);
      TilesTail(b, start, end);
      LiveTail(a, start, end);
      LiveTail(b, start, end);
      Canonical(a[1..], b[1..], EndOf(a[0]), end);
      assert a == [a[0]] + a[1..] && b == [b[0]] + b[1..];
    }
  }

  /** The heap that the constructor builds. */
  function Fresh(start: nat, size: nat): seq<Chunk>
    requires HEADER <= size
  {
    [Chunk(start, size - HEADER, false)]
  }

  lemma LiveNow(cs: seq<Chunk>, start: nat, end: nat, addr: nat, size: nat)
    requires Tiles(cs, start, end) && (addr, size) in Live(cs)
    ensures LivePtr(cs, addr + HEADER)
  {
    var j := LiveAt(cs, start, end, (addr, size));
  }

  /** The constructor: no chunk at all in a region without room for a header. */
  function Initial(start: nat, size: nat): (cs: seq<Chunk>)
    ensures cs != [] ==> HeapInv(cs, start, start + size)
    ensures cs == [] ==> forall n: nat :: Malloc(cs, n).ptr == 0
  {
    if size < HEADER then [] else Fresh(start, size)
  }

  /** A successful `malloc` followed by `free` of its result restores the list, split or not. */
  lemma FreeUndoesMalloc(cs: seq<Chunk>, start: nat, end: nat, n: nat)
    requires HeapInv(cs, start, end) && Malloc(cs, n).ptr != 0
    ensures var m := Malloc(cs, n);
            LivePtr(m.chunks, m.ptr) && HEADER <= m.ptr && IndexAt(m.chunks, m.ptr - HEADER) < |m.chunks|
            && Free(m.chunks, m.ptr) == cs
  {
    hide Malloc, Free, Live, HeapInv, LivePtr, IndexAt;
    var m := Malloc(cs, n);
    var size := MallocKeeps(cs, start, end, n);
    UnpackInv(m.chunks, start, end);
    LiveNow(m.chunks, start, end, m.ptr - HEADER, size);
    var size' := FreeKeeps(m.chunks, start, end, m.ptr);
    SizeIsUnique(m.chunks, start, end, m.ptr - HEADER, size, size');
    Canonical(Free(m.chunks, m.ptr), cs, start, end);
  }

  lemma UnpackInv(cs: seq<Chunk>, start: nat, end: nat)
    requires HeapInv(cs, start, end)
    ensures Tiles(cs, start, end)
  {
  }

  lemma SizeIsUnique(cs: seq<Chunk>, start: nat, end: nat, addr: nat, size: nat, size': nat)
    requires Tiles(cs, start, end) && (addr, size) in Live(cs) && (addr, size') in Live(cs)
    ensures size == size'
  {
    var j := LiveAt(cs, start, end, (addr, size));
    var j' := LiveAt(cs, start, end, (addr, size'));
    if j != j' { PayloadsDisjoint(cs, start, end, j, j'); }
  }

  /** Releasing one pointer leaves the others live. */
  lemma StillLive(cs: seq<Chunk>, start: nat, end: nat, p: nat, q: nat)
    requires HeapInv(cs, start, end) && LivePtr(cs, p) && LivePtr(cs, q) && p != q
    ensures HEADER <= p && IndexAt(cs, p - HEADER) < |cs| && LivePtr(Free(cs, p), q)
  {
    var size := FreeKeeps(cs, start, end, p);
    var k :| 0 <= k < |cs| && cs[k].used && q == cs[k].addr + HEADER;
    assert cs[k] in cs;
    var j := LiveAt(Free(cs, p), start, end, (cs[k].addr, cs[k].size));
  }

  /** Two releases commute. */
  lemma FreesCommute(cs: seq<Chunk>, start: nat, end: nat, p: nat, q: nat)
    requires HeapInv(cs, start, end) && LivePtr(cs, p) && LivePtr(cs, q) && p != q
    ensures HEADER <= p && HEADER <= q && IndexAt(cs, p - HEADER) < |cs| && IndexAt(cs, q - HEADER) < |cs|
    ensures IndexAt(Free(cs, p), q - HEADER) < |Free(cs, p)| && IndexAt(Free(cs, q), p - HEADER) < |Free(cs, q)|
    ensures Free(Free(cs, p), q) == Free(Free(cs, q), p)
  {
    hide Free, Live, LivePtr, Tiles, Merged;
    StillLive(cs, start, end, p, q);
    StillLive(cs, start, end, q, p);
    var sp := FreeKeeps(cs, start, end, p);
    var sq := FreeKeeps(cs, start, end, q);
    var sq' := FreeKeeps(Free(cs, p), start, end, q);
    var sp' := FreeKeeps(Free(cs, q), start, end, p);
    SizeIsUnique(cs, start, end, q - HEADER, sq, sq');
    SizeIsUnique(cs, start, end, p - HEADER, sp, sp');
    Canonical(Free(Free(cs, p), q), Free(Free(cs, q), p), start, end);
  }

  /** `ptrs` can be released one after the other. */
  ghost predicate Releasable(cs: seq<Chunk>, ptrs: seq<nat>) {
    && (forall i :: 0 <= i < |ptrs| ==> LivePtr(cs, ptrs[i]))
    && forall i, j :: 0 <= i < j < |ptrs| ==> ptrs[i] != ptrs[j]
  }

  /** `ptrs` names every live block. */
  ghost predicate NamesAll(cs: seq<Chunk>, ptrs: seq<nat>) {
    forall block :: block in Live(cs) ==> block.0 + HEADER in ptrs
  }

  function FreeAll(cs: seq<Chunk>, ptrs: seq<nat>): seq<Chunk>
    decreases |ptrs|
  {
    if ptrs == [] then cs
    else if HEADER <= ptrs[0] && IndexAt(cs, ptrs[0] - HEADER) < |cs| then FreeAll(Free(cs, ptrs[0]), ptrs[1..])
    else cs
  }

  /** A block that stays live is named among the pointers still to be released. */
  lemma StillNamed(cs: seq<Chunk>, start: nat, end: nat, ptrs: seq<nat>, size: nat, block: (nat, nat))
    requires HeapInv(cs, start, end) && NamesAll(cs, ptrs) && ptrs != [] && HEADER <= ptrs[0]
    requires (ptrs[0] - HEADER, size) in Live(cs)
    requires block in Live(cs) && block != (ptrs[0] - HEADER, size)
    ensures block.0 + HEADER in ptrs[1..]
  {
    UnpackInv(cs, start, end);
    hide Live, HeapInv;
    if block.0 == ptrs[0] - HEADER { SizeIsUnique(cs, start, end, block.0, block.1, size); }
    var i :| 0 <= i < |ptrs| && ptrs[i] == block.0 + HEADER;
    assert ptrs[1..][i - 1] == ptrs[i];
  }

  ghost predicate Freed(cs: seq<Chunk>, ptr: nat, cs': seq<Chunk>) {
    HEADER <= ptr && IndexAt(cs, ptr - HEADER) < |cs| && cs' == Free(cs, ptr)
  }

  /** What is left to release after the first release. */
  lemma ReleaseOne(cs: seq<Chunk>, start: nat, end: nat, ptrs: seq<nat>) returns (cs': seq<Chunk>)
    requires HeapInv(cs, start, end) && Releasable(cs, ptrs) && ptrs != []
    requires NamesAll(cs, ptrs)
    ensures Freed(cs, ptrs[0], cs')
    ensures HeapInv(cs', start, end) && Releasable(cs', ptrs[1..]) && NamesAll(cs', ptrs[1..])
  {
    hide Free, Live, HeapInv, LivePtr, IndexAt;
    var p, rest := ptrs[0], ptrs[1..];
    var size := FreeKeeps(cs, start, end, p);
    cs' := Free(cs, p);
    forall i | 0 <= i < |rest| ensures LivePtr(cs', rest[i]) {
      StillLive(cs, start, end, p, ptrs[i + 1]);
    }
    forall block | block in Live(cs') ensures block.0 + HEADER in rest {
      hide NamesAll, Releasable;
      StillNamed(cs, start, end, ptrs, size, block);
    }
  }

  /** Releasing all live blocks, in any order, restores the initial single chunk. */
  lemma {:induction false} FreeAllRestores(cs: seq<Chunk>, start: nat, size: nat, ptrs: seq<nat>)
    requires HEADER <= size && HeapInv(cs, start, start + size) && Releasable(cs, ptrs)
    requires NamesAll(cs, ptrs)
    ensures FreeAll(cs, ptrs) == Fresh(start, size)
    decreases |ptrs|
  {
    if ptrs == [] {
      assert Live(cs) == {};
      Canonical(cs, Fresh(start, size), start, start + size);
    } else {
      hide Free, Live, HeapInv, Releasable, IndexAt;
      var cs' := ReleaseOne(cs, start, start + size, ptrs);
      FreeAllRestores(cs', start, size, ptrs[1..]);
    }
  }

  // ---- whole runs ----

  datatype Request = Allocate(n: nat) | Release(ptr: nat)

  ghost predicate Serves(cs: seq<Chunk>, r: Request, cs': seq<Chunk>) {
    match r
    case Allocate(n) => cs' == Malloc(cs, n).chunks
    case Release(ptr) => LivePtr(cs, ptr) && HEADER <= ptr && IndexAt(cs, ptr - HEADER) < |cs| && cs' == Free(cs, ptr)
  }

  ghost predicate Run(heaps: seq<seq<Chunk>>, requests: seq<Request>, start: nat, size: nat)
    requires HEADER <= size
  {
    && |heaps| == |requests| + 1 && heaps[0] == Fresh(start, size)
    && forall i :: 0 <= i < |requests| ==> Serves(heaps[i], requests[i], heaps[i + 1])
  }

  lemma {:induction false} RunKeeps(heaps: seq<seq<Chunk>>, requests: seq<Request>, start: nat, size: nat, i: nat)
    requires HEADER <= size && Run(heaps, requests, start, size) && i <= |requests|
    ensures HeapInv(heaps[i], start, start + size)
  {
    if i > 0 {
      RunKeeps(heaps, requests, start, size, i - 1);
      match requests[i - 1]
      case Allocate(n) => var s := MallocKeeps(heaps[i - 1], start, start + size, n);
      case Release(ptr) => var s := FreeKeeps(heaps[i - 1], start, start + size, ptr);
    }
  }

  /** Two histories that leave the same blocks live leave the same list. */
  lemma HistoryIsForgotten(heaps: seq<seq<Chunk>>, requests: seq<Request>, heaps': seq<seq<Chunk>>,
                           requests': seq<Request>, start: nat, size: nat)
    requires HEADER <= size && Run(heaps, requests, start, size) && Run(heaps', requests', start, size)
    requires Live(heaps[|requests|]) == Live(heaps'[|requests'|])
    ensures heaps[|requests|] == heaps'[|requests'|]
  {
    RunKeeps(heaps, requests, start, size, |requests|);
    RunKeeps(heaps', requests', start, size, |requests'|);
    Canonical(heaps[|requests|], heaps'[|requests'|], start, start + size);
  }

  function Total(cs: seq<Chunk>): nat {
    if cs == [] then 0 else HEADER + cs[0].size + Total(cs[1..])
  }

  /** Sum of size plus header over the chunks is the heap. */
  lemma {:induction false} TilingTotal(cs: seq<Chunk>, start: nat, end: nat)
    requires Tiles(cs, start, end)
    ensures start + Total(cs) == end
    decreases |cs|
  {
    if |cs| > 1 {
      TilesTail(cs, start, end);
      TilingTotal(cs[1..], EndOf(cs[0]), end);
    }
  }
}
