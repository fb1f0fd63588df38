/** The heap manager in its imperative form: linked chunks rewritten in place, with 32-bit sizes. */
module MemoryManagement {
  import opened Heap
  import opened Words    // size_t of the i386 kernel is uint32: no operation below leaves its range

  const SIZEOF_CHUNK: uint32 := HEADER as uint32

  class MemoryChunk {
    const addr: uint32          // where this header lies in memory
    var next: MemoryChunk?
    var prev: MemoryChunk?
    var inUse: bool             // `allocated`
    var size: uint32

    constructor (addr: uint32, size: uint32)
      ensures this.addr == addr && this.size == size && !inUse && next == null && prev == null
    {
      this.addr := addr;
      this.size := size;
      inUse := false;
      next := null;
      prev := null;
    }

    function View(): Chunk
      reads this`size, this`inUse
    {
      Chunk(addr as nat, size as nat, inUse)
    }
  }

  ghost function Views(chunks: seq<MemoryChunk>): (cs: seq<Chunk>)
    reads chunks`size, chunks`inUse
    ensures |cs| == |chunks| && forall i :: 0 <= i < |cs| ==> cs[i] == chunks[i].View()
  {
    if chunks == [] then [] else Views(chunks[..|chunks| - 1]) + [chunks[|chunks| - 1].View()]
  }

  class MemoryManager {
    var first: MemoryChunk?
    /** Which header object a cast of an address yields. */
    var memory: map<uint32, MemoryChunk>
    ghost var chunks: seq<MemoryChunk>
    ghost const start: nat
    ghost const end: nat

    ghost function View(): (cs: seq<Chunk>)
      reads this`chunks, chunks`size, chunks`inUse
      ensures |cs| == |chunks| && forall i :: 0 <= i < |cs| ==> cs[i] == chunks[i].View()
    {
      Views(chunks)
    }

    /** The chunk at place `k` of the list, null off either end. */
    ghost function At(k: int): MemoryChunk?
      reads this`chunks
    {
      if 0 <= k < |chunks| then chunks[k] else null
    }

    /** `next` and `prev` of chunk `i` lead to its neighbours. */
    ghost predicate LinkedAt(i: int)
      reads this`chunks, chunks`next, chunks`prev
      requires 0 <= i < |chunks|
    {
      chunks[i].next == At(i + 1) && chunks[i].prev == At(i - 1)
    }

    /** `next` and `prev` are mutually inverse along the list. */
    ghost predicate Linked()
      reads this`first, this`chunks, chunks`next, chunks`prev
    {
      first == At(0) && forall i :: 0 <= i < |chunks| ==> LinkedAt(i)
    }

    ghost predicate Addressed()
      reads this`chunks, this`memory
    {
      && (forall i :: 0 <= i < |chunks| ==> chunks[i].addr in memory && memory[chunks[i].addr] == chunks[i])
      && (forall i, j :: 0 <= i < j < |chunks| ==> chunks[i] != chunks[j])
    }

    ghost predicate Valid()
      reads this, chunks
    {
      && Linked() && Addressed() && end < 0x1_0000_0000
      && (chunks != [] ==> HeapInv(View(), start, end))
    }

    /** A region too small for a header leaves `first` null. */
    constructor (start: uint32, size: uint32)
      requires start as int + size as int < 0x1_0000_0000
      ensures Valid() && fresh(chunks)
      ensures View() == Initial(start as nat, size as nat)
      ensures |chunks| == if size < 16 then 0 else 1
      ensures size >= 16 ==> chunks[0].addr == start && chunks[0].size == size - 16 && !chunks[0].inUse
      ensures this.start == start as nat && this.end == start as nat + size as nat
    {
      this.start := start as nat;
      this.end := start as nat + size as nat;
      if size < SIZEOF_CHUNK {
        first := null;
        memory := map[];
        chunks := [];
      } else {
        var chunk := new MemoryChunk(start, size - SIZEOF_CHUNK);
        first := chunk;
        memory := map[start := chunk];
        chunks := [chunk];
      }
    }

    /** The search loop of `malloc`. */
    method FindFit(size: uint32) returns (result: MemoryChunk?, ghost k: nat)
      requires Valid()
      ensures k == FirstFit(View(), size as nat)
      ensures result == At(k)
    {
      var chunk := first;
      k := 0;
      while chunk != null
        invariant 0 <= k <= |chunks| && chunk == At(k)
        invariant FirstFit(View(), size as nat) == k + FirstFit(View()[k..], size as nat)
        decreases |chunks| - k
      {
        if chunk.size > size && !chunk.inUse { return chunk, k; }
        assert View()[k..][1..] == View()[k + 1..];
        assert LinkedAt(k);
        chunk := chunk.next;
        k := k + 1;
      }
      return null, k;
    }

    /** Link the new header `temp` in after chunk `k`. */
    method InsertAfter(result: MemoryChunk, temp: MemoryChunk, ghost k: nat)
      requires Linked() && k < |chunks| && result == chunks[k] && temp !in chunks
      requires forall i, j :: 0 <= i < j < |chunks| ==> chunks[i] != chunks[j]
      modifies this`chunks, chunks`next, chunks`prev, temp`next, temp`prev
      ensures Linked() && chunks == Insert(old(chunks), k, temp)
    {
      assert LinkedAt(k);
      temp.prev := result;
      temp.next := result.next;
      if temp.next != null { temp.next.prev := temp; }
      result.next := temp;
      hide Insert;
      chunks := Insert(chunks, k, temp);
      forall i | 0 <= i < |chunks| ensures LinkedAt(i) {
        assert old(LinkedAt(if i <= k then i else if i == k + 1 then k else i - 1));
      }
    }

    /** Unlink the successor of chunk `k`. */
    method RemoveAfter(chunk: MemoryChunk, ghost k: nat)
      requires Linked() && k + 1 < |chunks| && chunk == chunks[k]
      requires forall i, j :: 0 <= i < j < |chunks| ==> chunks[i] != chunks[j]
      modifies this`chunks, chunks`next, chunks`prev
      ensures Linked() && chunks == RemoveNext(old(chunks), k)
    {
      assert LinkedAt(k) && LinkedAt(k + 1);
      chunk.next := chunk.next.next;
      if chunk.next != null { chunk.next.prev := chunk; }
      hide RemoveNext, Views;
      chunks := RemoveNext(chunks, k);
      forall i | 0 <= i < |chunks| ensures LinkedAt(i) {
        assert old(LinkedAt(if i <= k then i else i + 1));
      }
    }

    method SetUse(chunk: MemoryChunk, inUse: bool, ghost k: nat)
      requires Addressed() && k < |chunks| && chunk == chunks[k]
      modifies chunk`inUse
      ensures View() == old(View())[k := old(View())[k].(used := inUse)]
    {
      chunk.inUse := inUse;
    }

    method SetSize(chunk: MemoryChunk, size: uint32, ghost k: nat)
      requires Addressed() && k < |chunks| && chunk == chunks[k]
      modifies chunk`size
      ensures View() == old(View())[k := old(View())[k].(size := size as nat)]
    {
      chunk.size := size;
    }

    lemma RoomToCut(k: nat)
      requires Valid() && k < |chunks|
      ensures View()[k] == chunks[k].View()
      ensures chunks[k].addr as int + HEADER + chunks[k].size as int < 0x1_0000_0000
    {
      Bounds(View(), start, end, k);
    }

    /** A header for the rest of chunk `k` after its first `size` bytes. */
    method Split(result: MemoryChunk, size: uint32, ghost k: nat)
      requires Valid() && k < |chunks| && result == chunks[k]
      requires View()[k] == result.View() && result.size as int >= size as int + HEADER + 1
      modifies this`chunks, this`memory, chunks
      ensures fresh(set c | c in chunks && c !in old(chunks))
      ensures |chunks| == |old(chunks)| + 1 && chunks[k] == result
      ensures Linked() && Addressed()
      ensures View() == Cut(old(View()), k, size as nat)
    {
      hide Merged, Insert, Views, View;
      ghost var before := View();
      RoomToCut(k);
      hide Tiles;
      var temp := NewHeader(result, size, k);
      hide HeapInv, Addressed, Linked;
      SetSize(result, size, k);
      Hook(result, temp, k);
    }

    method NewHeader(result: MemoryChunk, size: uint32, ghost k: nat) returns (temp: MemoryChunk)
      requires Valid() && k < |chunks| && result == chunks[k] && View()[k] == result.View()
      requires result.size as int >= size as int + HEADER + 1
      ensures fresh(temp) && forall i :: 0 <= i < |chunks| ==> chunks[i].addr != temp.addr
      ensures temp.View() == Chunk(View()[k].addr + HEADER + size as nat, View()[k].size - size as nat - HEADER, false)
    {
      RoomToCut(k);
      temp := new MemoryChunk(result.addr + SIZEOF_CHUNK + size, result.size - size - SIZEOF_CHUNK);
      SplitAddressIsNew(temp.addr, k);
    }

    method Hook(result: MemoryChunk, temp: MemoryChunk, ghost k: nat)
      requires Linked() && Addressed() && k < |chunks| && result == chunks[k] && temp !in chunks
      requires forall i :: 0 <= i < |chunks| ==> chunks[i].addr != temp.addr
      modifies this`chunks, this`memory, chunks`next, chunks`prev, temp`next, temp`prev
      ensures chunks == Insert(old(chunks), k, temp) && Linked() && Addressed()
      ensures View() == Insert(old(View()), k, old(temp.View()))
    {
      hide Insert;
      InsertAfter(result, temp, k);
      memory := memory[temp.addr := temp];
    }

    method Unhook(chunk: MemoryChunk, ghost k: nat)
      requires Linked() && Addressed() && k + 1 < |chunks| && chunk == chunks[k]
      modifies this`chunks, chunks`next, chunks`prev
      ensures chunks == RemoveNext(old(chunks), k) && Linked() && Addressed()
      ensures View() == RemoveNext(old(View()), k)
    {
      hide RemoveNext, Linked;
      RemoveAfter(chunk, k);
    }

    /** No live header lies where the new one goes. */
    lemma SplitAddressIsNew(addr: uint32, k: nat)
      requires Valid() && k < |chunks| && chunks[k].addr < addr
      requires addr as int < EndOf(View()[k])
      ensures forall i :: 0 <= i < |chunks| ==> chunks[i].addr != addr
    {
      forall i | 0 <= i < |chunks| ensures chunks[i].addr != addr {
        if i != k { PayloadsDisjoint(View(), start, end, i, k); }
        assert View()[i] == chunks[i].View();
      }
    }

    method Take(result: MemoryChunk, size: uint32, ghost k: nat)
      requires Valid() && k < |chunks| && result == chunks[k] && View()[k] == result.View() && size < result.size
      requires result.size as int + HEADER < 0x1_0000_0000
      modifies this`chunks, this`memory, chunks
      ensures Linked() && Addressed() && fresh(set c | c in chunks && c !in old(chunks))
      ensures View() == Occupy(old(View()), k, size as nat)
    {
      hide HeapInv, Views, Cut, Linked, Addressed;
      if result.size >= size + SIZEOF_CHUNK + 1 {
        Split(result, size, k);
      }
      SetUse(result, true, k);
    }

    method Malloc(size: uint32) returns (ptr: uint32)
      requires Valid()
      modifies this`chunks, this`memory, chunks
      ensures Valid() && fresh(set c | c in chunks && c !in old(chunks))
      ensures Allocation(View(), ptr as nat) == Heap.Malloc(old(View()), size as nat)
    {
      hide HeapInv, Views, Occupy, FirstFit;
      var result, k := FindFit(size);
      if result == null { return 0; }
      FirstFitMeans(View(), size as nat);
      RoomToCut(k);
      OccupyKeeps(View(), start, end, k, size as nat);
      hide Linked, Addressed;
      Take(result, size, k);
      ptr := result.addr + SIZEOF_CHUNK;
    }

    /** Two neighbours and the header between them fit the heap, hence 32 bits. */
    lemma RoomToGrow(k: nat)
      requires k + 1 < |chunks| && Tiles(View(), start, end) && end < 0x1_0000_0000
      ensures View()[k] == chunks[k].View() && View()[k + 1] == chunks[k + 1].View()
      ensures chunks[k].size as int + chunks[k + 1].size as int + HEADER < 0x1_0000_0000
    {
      Bounds(View(), start, end, k + 1);
      Bounds(View(), start, end, k);
      assert Abuts(View(), k);
    }

    /** Add the room of the successor of chunk `k` to `k`, and unlink it. */
    method Absorb(chunk: MemoryChunk, ghost k: nat)
      requires Linked() && Addressed() && k + 1 < |chunks| && chunk == chunks[k]
      requires Tiles(View(), start, end) && end < 0x1_0000_0000
      modifies this`chunks, chunks
      ensures |chunks| == |old(chunks)| - 1 && chunks[k] == chunk
      ensures forall i :: 0 <= i < |chunks| ==> chunks[i] in old(chunks)
      ensures Linked() && Addressed() && View() == Swallow(old(View()), k)
    {
      hide RemoveNext, Views;
      RoomToGrow(k);
      assert LinkedAt(k);
      hide Tiles, Addressed, Linked;
      SetSize(chunk, chunk.size + (chunk.next.size + SIZEOF_CHUNK), k);
      Unhook(chunk, k);
    }

    static ghost predicate Among(now: seq<MemoryChunk>, was: seq<MemoryChunk>) {
      forall i :: 0 <= i < |now| ==> now[i] in was
    }

    /** The first merge of `free`, into the predecessor. */
    method FreePrev(chunk: MemoryChunk, ghost k: nat) returns (merged: MemoryChunk, ghost j: nat)
      requires Linked() && Addressed() && k < |chunks| && chunk == chunks[k]
      requires Tiles(View(), start, end) && end < 0x1_0000_0000
      modifies this`chunks, chunks
      ensures Linked() && Addressed() && j < |chunks| && merged == chunks[j] && Tiles(View(), start, end)
      ensures var v := old(View());
              if 0 < k && !v[k - 1].used then j == k - 1 && View() == Swallow(v, k - 1) else j == k && View() == v
      ensures Among(chunks, old(chunks))
    {
      merged, j := chunk, k;
      assert LinkedAt(k);
      assert 0 < k ==> View()[k - 1] == chunks[k - 1].View();
      if chunk.prev != null && !chunk.prev.inUse {
        SwallowKeeps(View(), start, end, k - 1);
        hide Tiles, Swallow;
        merged, j := chunk.prev, k - 1;
        Absorb(merged, j);
      }
    }

    /** The second merge, of the successor. */
    method FreeNext(chunk: MemoryChunk, ghost k: nat, ghost was: seq<MemoryChunk>)
      requires Linked() && Addressed() && k < |chunks| && chunk == chunks[k]
      requires Tiles(View(), start, end) && end < 0x1_0000_0000 && Among(chunks, was)
      modifies this`chunks, was
      ensures Linked() && Addressed() && View() == SwallowNext(old(View()), k) && Among(chunks, was)
    {
      assert LinkedAt(k);
      assert k + 1 < |chunks| ==> View()[k + 1] == chunks[k + 1].View();
      if chunk.next != null && !chunk.next.inUse {
        Absorb(chunk, k);
      }
    }

    /** Both merges of `free`. */
    method Merge(chunk: MemoryChunk, ghost k: nat)
      requires Linked() && Addressed() && k < |chunks| && chunk == chunks[k]
      requires Tiles(View(), start, end) && end < 0x1_0000_0000
      modifies this`chunks, chunks
      ensures Linked() && Addressed()
      ensures var v := old(View());
              View() == if 0 < k && !v[k - 1].used then SwallowNext(Swallow(v, k - 1), k - 1) else SwallowNext(v, k)
      ensures Among(chunks, old(chunks))
    {
      hide *;
      ghost var was := chunks;
      var merged, j := FreePrev(chunk, k);
      FreeNext(merged, j, was);
    }

    /** Mark chunk `k` free and merge it both ways. */
    method Release(chunk: MemoryChunk, ghost k: nat)
      requires Linked() && Addressed() && k < |chunks| && chunk == chunks[k] && end < 0x1_0000_0000
      requires Tiles(View()[k := View()[k].(used := false)], start, end)
      modifies this`chunks, chunks
      ensures Linked() && Addressed() && View() == FreeAt(old(View()), k)
      ensures Among(chunks, old(chunks))
    {
      hide Swallow, SwallowNext, Views, Tiles, Linked, Addressed;
      SetUse(chunk, false, k);
      Merge(chunk, k);
    }

    /** The cast of a live pointer yields its header. */
    lemma Cast(ptr: uint32) returns (k: nat)
      requires Valid() && LivePtr(View(), ptr as nat)
      ensures k < |chunks| && HEADER <= ptr as nat && k == IndexAt(View(), ptr as nat - HEADER)
      ensures ptr - SIZEOF_CHUNK in memory && memory[ptr - SIZEOF_CHUNK] == chunks[k]
      ensures Tiles(View()[k := View()[k].(used := false)], start, end)
    {
      LiveIndex(View(), start, end, ptr as nat);
      k := IndexAt(View(), ptr as nat - HEADER);
      MarkFree(View(), start, end, k);
      assert View()[k] == chunks[k].View();
    }

    method Free(ptr: uint32)
      requires Valid() && LivePtr(View(), ptr as nat)
      modifies this`chunks, chunks
      ensures Valid() && forall i :: 0 <= i < |chunks| ==> chunks[i] in old(chunks)
      ensures HEADER <= ptr as nat && IndexAt(old(View()), ptr as nat - HEADER) < |old(View())|
      ensures View() == Heap.Free(old(View()), ptr as nat)
    {
      assert View() != [];
      ghost var k := Cast(ptr);
      ghost var size := FreeKeeps(View(), start, end, ptr as nat);
      hide Live, HeapInv, LivePtr, Views, Tiles, Linked, Addressed, FreeAt, IndexAt;
      Release(memory[ptr - SIZEOF_CHUNK], k);
    }
  }

  lemma LiveIndex(cs: seq<Chunk>, start: nat, end: nat, ptr: nat)
    requires Tiles(cs, start, end) && LivePtr(cs, ptr)
    ensures HEADER <= ptr && IndexAt(cs, ptr - HEADER) < |cs| && cs[IndexAt(cs, ptr - HEADER)].used
  {
    var k :| 0 <= k < |cs| && cs[k].used && ptr == cs[k].addr + HEADER;
    IndexIsUnique(cs, start, end, k);
  }
}
