/** The bounded buffer of open file pairs: `buffer`, `in`, `out` and `count`. */
module RingBuffer {
  import opened FileTree
  import opened Rings

  const MAX_BUFFER_SIZE: nat := 1024

  /** An open (source, destination) pair; `id` numbers the pairs in the order they were opened. */
  datatype Item = Item(id: nat, path: Path, content: Bytes)

  /** The buffer as a value: `cap` is the `buffer_size` given on the command line. */
  datatype Ring = Ring(cells: seq<Item>, cap: nat, inn: nat, out: nat, count: nat)

  ghost predicate WellFormed(r: Ring) {
    && 1 <= r.cap <= |r.cells|
    && r.inn < r.cap && r.out < r.cap && r.count <= r.cap
    && r.inn == (r.out + r.count) % r.cap
  }

  /** The queue that the ring stands for, oldest first. */
  ghost function Contents(r: Ring): (queue: seq<Item>)
    requires WellFormed(r)
    ensures |queue| == r.count
  {
    seq(r.count, k requires 0 <= k < r.count => CellAt(r, k))
  }

  ghost function CellAt(r: Ring, k: nat): Item
    requires WellFormed(r) && k < r.count
  {
    WrapOnce(r.out + k, r.cap);
    r.cells[(r.out + k) % r.cap]
  }

  function Put(r: Ring, x: Item): Ring
    requires 1 <= r.cap && r.inn < |r.cells|
  {
    r.(cells := r.cells[r.inn := x], inn := (r.inn + 1) % r.cap, count := r.count + 1)
  }

  function Front(r: Ring): Item
    requires r.out < |r.cells|
  {
    r.cells[r.out]
  }

  function Take(r: Ring): Ring
    requires 1 <= r.cap && r.count > 0
  {
    r.(out := (r.out + 1) % r.cap, count := r.count - 1)
  }

  lemma PutAppends(r: Ring, x: Item)
    requires WellFormed(r) && r.count < r.cap
    ensures WellFormed(Put(r, x)) && Contents(Put(r, x)) == Contents(r) + [x]
  {
    var r' := Put(r, x);
    WrapOnce(r.out + r.count, r.cap);
    WrapOnce(r.inn + 1, r.cap);
    WrapOnce(r.out + r.count + 1, r.cap);
    forall k | 0 <= k < r'.count
      ensures Contents(r')[k] == (Contents(r) + [x])[k]
    {
      WrapOnce(r.out + k, r.cap);
    }
  }

  lemma TakeRemovesFirst(r: Ring)
    requires WellFormed(r) && r.count > 0
    ensures WellFormed(Take(r)) && Contents(r) == [Front(r)] + Contents(Take(r))
  {
    var r' := Take(r);
    WrapOnce(r.out, r.cap);
    WrapOnce(r.out + 1, r.cap);
    WrapOnce(r.out + r.count, r.cap);
    WrapOnce(r'.out + r'.count, r.cap);
    forall k | 0 <= k < r.count
      ensures Contents(r)[k] == ([Front(r)] + Contents(r'))[k]
    {
      WrapOnce(r.out + k, r.cap);
      if k > 0 { WrapOnce(r'.out + (k - 1), r.cap); }
    }
  }

  /**
   * The ring fields of `buffer_t`, updated in place.  The array has MAX_BUFFER_SIZE places whatever the size on the
   * command line; the ring goes round as many places as that size says.
   */
  class Buffer {
    const cells: array<Item>
    const size: nat
    var inn: nat
    var out: nat
    var count: nat

    function View(): Ring
      reads this, cells
    {
      Ring(cells[..] + Missing(), size, inn, out, count)
    }

    /** Places that the ring would need and the array does not have. */
    function Missing(): seq<Item> {
      seq(if size <= cells.Length then 0 else size - cells.Length, _ => Item(0, [], []))
    }

    ghost predicate Valid()
      reads this, cells
    {
      WellFormed(View())
    }

    constructor (size: nat)
      requires 1 <= size
      ensures this.size == size && cells.Length == MAX_BUFFER_SIZE && fresh(cells)
      ensures inn == 0 && out == 0 && count == 0 && Valid() && Contents(View()) == []
    {
      cells := new Item[MAX_BUFFER_SIZE](_ => Item(0, [], []));
      this.size := size;
      inn, out, count := 0, 0, 0;
    }

    method PutItem(x: Item)
      requires Valid() && count < size && inn < cells.Length
      modifies this, cells
      ensures Valid() && View() == Put(old(View()), x)
      ensures Contents(View()) == old(Contents(View())) + [x]
    {
      PutAppends(View(), x);
      ghost var before := cells[..];
      cells[inn] := x;
      assert cells[..] + Missing() == (before + Missing())[inn := x];
      inn := (inn + 1) % size;
      count := count + 1;
    }

    method TakeItem() returns (x: Item)
      requires Valid() && count > 0 && out < cells.Length
      modifies this
      ensures Valid() && View() == Take(old(View())) && x == Front(old(View()))
      ensures old(Contents(View())) == [x] + Contents(View())
    {
      TakeRemovesFirst(View());
      x := cells[out];
      out := (out + 1) % size;
      count := count - 1;
    }
  }
}
