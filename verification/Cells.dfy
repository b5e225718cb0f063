/** Byte strings and hash lists in chains of TVM cells. A cell holds at most 127 whole bytes and
    four references; only whole bytes are ever stored here. */
module Cells {
  import opened Wrappers
  import opened ByteCodec

  datatype Cell = Cell(data: Bytes, refs: seq<Cell>)

  class Builder {
    var data: Bytes
    var refs: seq<Cell>

    constructor ()
      ensures data == [] && refs == []
    {
      data := [];
      refs := [];
    }

    function BitsLeft(): nat
      requires |data| <= 127
      reads this
    {
      1023 - 8 * |data|
    }

    function EndCell(): Cell
      reads this
    {
      Cell(data, refs)
    }

    /** Panics in Go when the bytes do not fit: hence the requirement. */
    method MustStoreSlice(slice: Bytes)
      requires |data| + |slice| <= 127
      modifies this`data
      ensures data == old(data) + slice
    {
      data := data + slice;
    }

    method MustStoreRef(c: Cell)
      requires |refs| < 4
      modifies this`refs
      ensures refs == old(refs) + [c]
    {
      refs := refs + [c];
    }
  }

  method BeginCellWith(slice: Bytes) returns (b: Builder)
    requires |slice| <= 127
    ensures fresh(b) && b.data == slice && b.refs == []
  {
    b := new Builder();
    b.MustStoreSlice(slice);
  }

  // ----- reading -----

  /** The bytes along the chain of first references. */
  function Flatten(c: Cell): Bytes {
    if c.refs == [] then c.data else c.data + Flatten(c.refs[0])
  }

  method WriteSlicesToBuffer(c: Cell) returns (bytes: Bytes)
    ensures bytes == Flatten(c)
  {
    var slice := c;
    bytes := slice.data;
    while |slice.refs| > 0
      invariant bytes + (if slice.refs == [] then [] else Flatten(slice.refs[0])) == Flatten(c)
      decreases slice
    {
      slice := slice.refs[0];
      bytes := bytes + slice.data;
    }
  }

  // ----- splitting -----

  function Chunks(buf: Bytes, capacity: nat): (chunks: seq<Bytes>)
    requires capacity > 0
    ensures chunks != []
  {
    if |buf| <= capacity then [buf] else [buf[..capacity]] + Chunks(buf[capacity..], capacity)
  }

  function Linked(chunks: seq<Bytes>): Cell
    requires chunks != []
  {
    Cell(chunks[0], if |chunks| == 1 then [] else [Linked(chunks[1..])])
  }

  function Chain(buf: Bytes, capacity: nat): Cell
    requires capacity > 0
  {
    Linked(Chunks(buf, capacity))
  }

  /** The largest multiple of `size` that fits in a cell. */
  function Capacity(size: nat): (capacity: nat)
    requires 1 <= size <= 127
    ensures 64 <= capacity == 127 - 127 % size
  {
    CapacityBounds(size);
    (127 / size) * size
  }

  lemma CapacityBounds(size: nat)
    requires 1 <= size <= 127
    ensures 64 <= (127 / size) * size == 127 - 127 % size
  {
    assert 127 == (127 / size) * size + 127 % size;
    if size >= 64 {
      assert 127 / size == 1;
    }
  }

  /** Links the chunks from the last to the first. */
  method LinkBackwards(cells: seq<Builder>, ghost chunks: seq<Bytes>) returns (c: Cell)
    requires |cells| == |chunks| > 0
    requires forall i, j | 0 <= i < j < |cells| :: cells[i] != cells[j]
    requires forall i | 0 <= i < |cells| :: cells[i].data == chunks[i] && cells[i].refs == []
    modifies cells
    ensures c == Linked(chunks)
  {
    var i := |cells| - 1;
    while i >= 1
      invariant 0 <= i < |cells|
      invariant forall k | 0 <= k < |cells| :: cells[k].data == chunks[k]
      invariant forall k | 0 <= k < i :: cells[k].refs == []
      invariant cells[i].EndCell() == Linked(chunks[i..])
      decreases i
    {
      assert chunks[i - 1..][1..] == chunks[i..];
      cells[i - 1].MustStoreRef(cells[i].EndCell());
      i := i - 1;
    }
    assert chunks[0..] == chunks;
    return cells[0].EndCell();
  }

  lemma ChunksStep(buf: Bytes, capacity: nat, offset: nat, chunks: seq<Bytes>)
    requires 0 < capacity && offset + capacity < |buf|
    requires chunks + Chunks(buf[offset..], capacity) == Chunks(buf, capacity)
    ensures chunks + [buf[offset..offset + capacity]] + Chunks(buf[offset + capacity..], capacity) == Chunks(buf, capacity)
  {
    var rest := buf[offset..];
    assert rest[..capacity] == buf[offset..offset + capacity];
    assert rest[capacity..] == buf[offset + capacity..];
  }

  function CellCount(length: nat, capacity: nat): nat
    requires capacity > 0
  {
    (length + capacity - 1) / capacity
  }

  lemma MulGap(a: nat, b: nat, c: nat)
    requires a < b
    ensures a * c + c <= b * c
  {
    assert b * c == (a + 1) * c + (b - a - 1) * c;
  }

  lemma DivUnique(x: nat, c: nat, q: nat)
    requires c > 0 && q * c <= x < q * c + c
    ensures x / c == q
  {
    var d := x / c;
    assert x == d * c + x % c;
    if d > q {
      MulGap(q, d, c);
    } else if d < q {
      MulGap(d, q, c);
    }
  }

  lemma CellCountStep(length: nat, capacity: nat)
    requires capacity > 0
    ensures CellCount(length, capacity) > 1 <==> length > capacity
    ensures length > capacity ==> CellCount(length - capacity, capacity) == CellCount(length, capacity) - 1
  {
    if length > capacity {
      var x := length - 1;
      var q := x / capacity;
      assert x == q * capacity + x % capacity;
      assert (q + 1) * capacity == q * capacity + capacity;
      DivUnique(x + capacity, capacity, q + 1);
    } else if length > 0 {
      DivUnique(length + capacity - 1, capacity, 1);
    } else {
      DivUnique(capacity - 1, capacity, 0);
    }
  }

  /** The chunks of one full cell each, and the rest in the last. */
  method ChainByIndex(buffer: Bytes, cellCapacity: nat) returns (c: Cell)
    requires 1 <= cellCapacity <= 127
    ensures c == Chain(buffer, cellCapacity)
  {
    var cellsCount := CellCount(|buffer|, cellCapacity);
    CellCountStep(|buffer|, cellCapacity);
    if cellsCount <= 1 {
      var builder := BeginCellWith(buffer);
      return builder.EndCell();
    }
    var cells := new Builder?[cellsCount];
    ghost var chunks: seq<Bytes> := [];
    var offset: nat := 0;
    for i := 0 to cellsCount - 1
      invariant offset <= |buffer| && CellCount(|buffer| - offset, cellCapacity) == cellsCount - i
      invariant |chunks| == i && chunks + Chunks(buffer[offset..], cellCapacity) == Chunks(buffer, cellCapacity)
      invariant forall k | 0 <= k < i :: cells[k] != null && fresh(cells[k]) && cells[k].data == chunks[k] && cells[k].refs == []
      invariant forall j, k | 0 <= j < k < i :: cells[j] != cells[k]
    {
      CellCountStep(|buffer| - offset, cellCapacity);
      ChunksStep(buffer, cellCapacity, offset, chunks);
      var chunk := buffer[offset..offset + cellCapacity];
      cells[i] := BeginCellWith(chunk);
      chunks := chunks + [chunk];
      offset := offset + cellCapacity;
    }
    CellCountStep(|buffer| - offset, cellCapacity);
    var remaining := buffer[offset..];
    cells[cellsCount - 1] := BeginCellWith(remaining);
    chunks := chunks + [remaining];
    c := LinkBackwards(cells[..], chunks);
  }

  /** Sizes below one mean one here. */
  method SplitBufferToCells(buffer: Bytes, splitSize: Option<int>) returns (c: Cell)
    ensures c == Chain(buffer, Capacity(Clamp(if splitSize.None? then 1 else splitSize.value)))
  {
    var sz := 1;
    if splitSize.Some? && splitSize.value > 0 {
      sz := splitSize.value;
    }
    if sz > 127 {
      sz := 127;
    }
    c := ChainByIndex(buffer, Capacity(sz));
  }

  function Clamp(size: int): (sz: nat)
    ensures 1 <= sz <= 127
  {
    if size < 1 then 1 else if size > 127 then 127 else size
  }

  method ChainByAppend(buf: Bytes, cellCapacity: nat) returns (c: Cell)
    requires 1 <= cellCapacity <= 127
    ensures c == Chain(buf, cellCapacity)
  {
    var cellsCount: int := CellCount(|buf|, cellCapacity);
    CellCountStep(|buf|, cellCapacity);
    var cells: seq<Builder> := [];
    ghost var chunks: seq<Bytes> := [];
    var offset: nat := 0;
    var i: int := 0;
    while i < cellsCount - 1
      invariant 0 <= i && (i == 0 || i <= cellsCount - 1)
      invariant offset <= |buf| && CellCount(|buf| - offset, cellCapacity) == cellsCount - i
      invariant |cells| == |chunks| == i && chunks + Chunks(buf[offset..], cellCapacity) == Chunks(buf, cellCapacity)
      invariant forall k | 0 <= k < i :: fresh(cells[k]) && cells[k].data == chunks[k] && cells[k].refs == []
      invariant forall j, k | 0 <= j < k < i :: cells[j] != cells[k]
    {
      CellCountStep(|buf| - offset, cellCapacity);
      ChunksStep(buf, cellCapacity, offset, chunks);
      var end := offset + cellCapacity;
      if end > |buf| {
        end := |buf|;
      }
      var builder := BeginCellWith(buf[offset..end]);
      cells := cells + [builder];
      chunks := chunks + [buf[offset..end]];
      offset := offset + cellCapacity;
      i := i + 1;
    }
    CellCountStep(|buf| - offset, cellCapacity);
    var lastBuilder := BeginCellWith(buf[offset..]);
    cells := cells + [lastBuilder];
    chunks := chunks + [buf[offset..]];
    c := LinkBackwards(cells, chunks);
  }

  /** Go panics when the size is below one. */
  method SplitBytesToCells(buf: Bytes, splitSize: Option<int>) returns (c: Cell)
    requires splitSize.Some? ==> splitSize.value >= 1
    ensures c == Chain(buf, Capacity(Clamp(if splitSize.None? then 1 else splitSize.value)))
  {
    var size := if splitSize.Some? then splitSize.value else 1;
    if size > 127 {
      size := 127;
    }
    c := ChainByAppend(buf, Capacity(size));
  }

  /** A chain in which every cell but the last is full, and the last is only empty if it is alone. */
  ghost predicate Packed(c: Cell, capacity: nat) {
    if c.refs == [] then |c.data| <= capacity
    else |c.data| == capacity && |c.refs| == 1 && Packed(c.refs[0], capacity) && c.refs[0].data != []
  }

  /** Splitting and flattening are inverse: there is one packed chain for each byte string. */
  lemma {:induction false} ChainIsTheOnlyOne(c: Cell, buf: Bytes, capacity: nat)
    requires capacity > 0
    ensures c == Chain(buf, capacity) <==> Packed(c, capacity) && Flatten(c) == buf
    decreases c
  {
    ChainFlattens(buf, capacity);
    if Packed(c, capacity) && Flatten(c) == buf && c.refs != [] {
      ChainIsTheOnlyOne(c.refs[0], buf[capacity..], capacity);
      FlattenNotEmpty(c.refs[0]);
      assert buf == c.data + Flatten(c.refs[0]);
      assert buf[..capacity] == c.data && buf[capacity..] == Flatten(c.refs[0]);
      ChainUnfolds(buf, capacity);
    }
  }

  lemma FlattenNotEmpty(c: Cell)
    requires c.data != []
    ensures Flatten(c) != []
  {
  }

  lemma ChainUnfolds(buf: Bytes, capacity: nat)
    requires 0 < capacity < |buf|
    ensures Chain(buf, capacity) == Cell(buf[..capacity], [Chain(buf[capacity..], capacity)])
  {
    assert Chunks(buf, capacity)[1..] == Chunks(buf[capacity..], capacity);
  }

  lemma {:induction false} ChainFlattens(buf: Bytes, capacity: nat)
    requires capacity > 0
    ensures Flatten(Chain(buf, capacity)) == buf
    ensures Packed(Chain(buf, capacity), capacity)
    ensures buf != [] ==> Chain(buf, capacity).data != []
    decreases |buf|
  {
    if |buf| > capacity {
      ChainUnfolds(buf, capacity);
      ChainFlattens(buf[capacity..], capacity);
      assert buf == buf[..capacity] + buf[capacity..];
    }
  }

  // ----- hash lists -----

  function Room(data: Bytes): nat {
    if |data| > 127 then 0 else (1023 - 8 * |data|) / 256
  }

  function Fit(data: Bytes, hashes: seq<Bytes>): (n: nat)
    ensures n <= |hashes|
  {
    if Room(data) < |hashes| then Room(data) else |hashes|
  }

  /** What a cell under construction becomes when the hashes are added to it. */
  function WithHashes(data: Bytes, refs: seq<Cell>, hashes: seq<Bytes>): Cell
    decreases |hashes|, if Room(data) > 0 then 0 else 1
  {
    var n := Fit(data, hashes);
    Cell(data + Concat(hashes[..n]), if n < |hashes| then refs + [WithHashes([], [], hashes[n..])] else refs)
  }

  ghost predicate AllHashes(hashes: seq<Bytes>) {
    forall i | 0 <= i < |hashes| :: |hashes[i]| == 32
  }

  method StoreHashesToCell(hashes: seq<Bytes>, builder: Builder)
    requires AllHashes(hashes)
    requires |builder.data| <= 127 && |builder.refs| < 4
    modifies builder
    ensures builder.EndCell() == WithHashes(old(builder.data), old(builder.refs), hashes)
    decreases |hashes|, if Room(builder.data) > 0 then 0 else 1
  {
    ghost var data := builder.data;
    if |hashes| == 0 {
      assert data + Concat([]) == data;
      return;
    }
    var space := builder.BitsLeft() / 256;
    var n := if space < |hashes| then space else |hashes|;
    var i := 0;
    while i < space && i < |hashes|
      invariant 0 <= i <= n
      invariant builder.data == data + Concat(hashes[..i]) && |builder.data| == |data| + 32 * i
      invariant builder.refs == old(builder.refs)
    {
      assert hashes[..i + 1] == hashes[..i] + [hashes[i]];
      ConcatSnoc(hashes[..i], hashes[i]);
      builder.MustStoreSlice(hashes[i]);
      i := i + 1;
    }
    WithHashesUnfolds(data, old(builder.refs), hashes, n);
    if n < |hashes| {
      var refCell := new Builder();
      StoreHashesToCell(hashes[n..], refCell);
      builder.MustStoreRef(refCell.EndCell());
    }
  }

  lemma WithHashesUnfolds(data: Bytes, refs: seq<Cell>, hashes: seq<Bytes>, n: nat)
    requires n == Fit(data, hashes)
    ensures WithHashes(data, refs, hashes)
         == Cell(data + Concat(hashes[..n]), if n < |hashes| then refs + [WithHashes([], [], hashes[n..])] else refs)
  {
  }

  /** Three hashes in every cell but the last, which has the one, two or three left over. */
  ghost predicate ThreePerCell(c: Cell, count: nat)
    decreases count
  {
    if count <= 3 then |c.data| == 32 * count && c.refs == []
    else |c.data| == 96 && |c.refs| == 1 && ThreePerCell(c.refs[0], count - 3)
  }

  /** Whatever the builder holds already: it takes as many hashes as fit in its 127 bytes; its references
      stay in front; and its data, then what hangs off it in the one new reference, is the old data and
      the whole list in order. */
  lemma HashesComeBack(data: Bytes, refs: seq<Cell>, hashes: seq<Bytes>) returns (n: nat)
    requires AllHashes(hashes) && |data| <= 127
    ensures n <= |hashes| && |data| + 32 * n <= 127 && (n < |hashes| ==> |data| + 32 * (n + 1) > 127)
    ensures var c := WithHashes(data, refs, hashes);
            && c.data == data + Concat(hashes[..n]) && |c.data| == |data| + 32 * n
            && |c.refs| == |refs| + (if n < |hashes| then 1 else 0) && c.refs[..|refs|] == refs
            && data + Concat(hashes) == c.data + (if n < |hashes| then Flatten(c.refs[|refs|]) else [])
            && (n < |hashes| ==> ThreePerCell(c.refs[|refs|], |hashes| - n))
  {
    n := Fit(data, hashes);
    WithHashesUnfolds(data, refs, hashes, n);
    UniformLength(hashes[..n]);
    InTwoParts(data, hashes, n);
    if n < |hashes| {
      HashChain(hashes[n..]);
      OneMoreRef(refs, WithHashes([], [], hashes[n..]));
    }
  }

  lemma OneMoreRef(refs: seq<Cell>, c: Cell)
    ensures |refs + [c]| == |refs| + 1 && (refs + [c])[..|refs|] == refs && (refs + [c])[|refs|] == c
  {
  }

  lemma InTwoParts(data: Bytes, hashes: seq<Bytes>, n: nat)
    requires n <= |hashes|
    ensures data + Concat(hashes) == data + Concat(hashes[..n]) + Concat(hashes[n..])
    ensures n == |hashes| ==> Concat(hashes[n..]) == []
  {
    assert hashes == hashes[..n] + hashes[n..];
    ConcatSplit(hashes[..n], hashes[n..]);
  }

  /** From an empty builder, the list comes back in order, three to a cell. */
  lemma {:induction false} HashChain(hashes: seq<Bytes>)
    requires AllHashes(hashes)
    ensures Flatten(WithHashes([], [], hashes)) == Concat(hashes)
    ensures ThreePerCell(WithHashes([], [], hashes), |hashes|)
    decreases |hashes|
  {
    var n := Fit([], hashes);
    assert Room([]) == 3;
    assert [] + Concat(hashes[..n]) == Concat(hashes[..n]);
    UniformLength(hashes[..n]);
    assert hashes == hashes[..n] + hashes[n..];
    ConcatSplit(hashes[..n], hashes[n..]);
    if n < |hashes| {
      HashChain(hashes[n..]);
    }
  }

  lemma {:induction false} UniformLength(hashes: seq<Bytes>)
    requires AllHashes(hashes)
    ensures |Concat(hashes)| == 32 * |hashes|
  {
    if hashes != [] {
      UniformLength(hashes[1..]);
    }
  }
}
