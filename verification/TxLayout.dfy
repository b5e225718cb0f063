/** The serialization format of BIP 144, and what the cell serializer makes of it: on every input
    nothing is lost; on a well-formed transaction every section is found where it is. */
module TxLayout {
  import opened Wrappers
  import opened ByteCodec
  import opened Cells
  import opened TxSerializer

  // ----- the format -----

  predicate SizeOk(c: CompactSize) {
    || (c.width == 1 && c.value < 0xfd)
    || (c.width == 3 && c.value < 0x1_0000)
    || (c.width == 5 && c.value < 0x1_0000_0000)
    || (c.width == 9 && c.value < TWO_64)
  }

  function EncodeSize(c: CompactSize): (b: Bytes)
    requires SizeOk(c)
    ensures |b| == c.width
  {
    if c.width == 1 then [c.value]
    else [if c.width == 3 then 0xfd else if c.width == 5 then 0xfe else 0xff] + LE(c.value, c.width - 1)
  }

  /** An input, an output or a witness item: a fixed head, a script with its length, a fixed tail. */
  datatype Entry = Entry(head: Bytes, size: CompactSize, script: Bytes, tail: Bytes) {
    predicate Ok(before: nat, after: nat) {
      |head| == before && |tail| == after && SizeOk(size) && size.value == |script|
    }
  }

  function EncodeEntry(e: Entry, before: nat, after: nat): Bytes
    requires e.Ok(before, after)
  {
    Concat([e.head, EncodeSize(e.size), e.script, e.tail])
  }

  datatype Table = Table(count: CompactSize, entries: seq<Entry>) {
    predicate Ok(before: nat, after: nat) {
      && SizeOk(count) && count.value == |entries|
      && forall i | 0 <= i < |entries| :: entries[i].Ok(before, after)
    }
  }

  function EncodeEntries(entries: seq<Entry>, before: nat, after: nat): Bytes
    requires forall i | 0 <= i < |entries| :: entries[i].Ok(before, after)
    decreases |entries|
  {
    if entries == [] then [] else EncodeEntry(entries[0], before, after) + EncodeEntries(entries[1..], before, after)
  }

  function EncodeTable(t: Table, before: nat, after: nat): Bytes
    requires t.Ok(before, after)
  {
    EncodeSize(t.count) + EncodeEntries(t.entries, before, after)
  }

  predicate StacksOk(stacks: seq<Table>) {
    stacks == [] || (stacks[0].Ok(0, 0) && StacksOk(stacks[1..]))
  }

  function EncodeStacks(stacks: seq<Table>): Bytes
    requires StacksOk(stacks)
  {
    if stacks == [] then [] else EncodeTable(stacks[0], 0, 0) + EncodeStacks(stacks[1..])
  }

  /** `flag` zero is the legacy form; otherwise a marker precedes it, and its lowest bit announces
      one witness stack for each input. */
  datatype Tx = Tx(
    version: Bytes,
    flag: byte,
    inputs: Table,
    outputs: Table,
    witnesses: seq<Table>,
    lockTime: Bytes
  ) {
    predicate Ok() {
      && |version| == 4 && |lockTime| == 4
      && inputs.Ok(36, 4) && outputs.Ok(8, 0)
      && |witnesses| == (if flag % 2 == 0 then 0 else |inputs.entries|)
      && StacksOk(witnesses)
    }

    function Marker(): Bytes {
      if flag == 0 then [] else [0, flag]
    }

    function Ins(): Bytes
      requires Ok()
    {
      EncodeTable(inputs, 36, 4)
    }

    function Outs(): Bytes
      requires Ok()
    {
      EncodeTable(outputs, 8, 0)
    }

    function Encode(): Bytes
      requires Ok()
    {
      version + Marker() + Ins() + Outs() + EncodeStacks(witnesses) + lockTime
    }

    /** The cells the serializer is meant to build. */
    function AsCells(): Cell
      requires Ok()
    {
      Cell(version + Marker() + lockTime,
           [Chain(Ins(), 127), Chain(Outs(), 127)] + if flag % 2 == 0 then [] else [Chain(EncodeStacks(witnesses), 127)])
    }

    /** Written without a marker, no inputs and some outputs look like a marker. */
    predicate LooksSegwit()
      requires Ok()
    {
      flag == 0 && Ins() == [0] && Outs()[0] != 0
    }
  }

  // ----- conservation on every input -----

  function FlattenAll(refs: seq<Cell>): Bytes {
    if refs == [] then [] else Flatten(refs[0]) + FlattenAll(refs[1..])
  }

  /** Everything but the last four bytes of the root, the references in order, those four bytes. */
  function Reassembled(root: Cell): Bytes
    requires |root.data| >= 4
  {
    root.data[..|root.data| - 4] + FlattenAll(root.refs) + root.data[|root.data| - 4..]
  }

  lemma FlattenTwo(a: Cell, b: Cell)
    ensures FlattenAll([a, b]) == Flatten(a) + Flatten(b)
  {
    assert [a, b][1..] == [b] && [b][1..] == [];
    assert FlattenAll([b]) == Flatten(b) + FlattenAll([]) == Flatten(b);
  }

  lemma FlattenThree(a: Cell, b: Cell, c: Cell)
    ensures FlattenAll([a, b, c]) == Flatten(a) + Flatten(b) + Flatten(c)
  {
    assert [a, b, c][1..] == [b, c];
    FlattenTwo(b, c);
  }

  lemma FlattenSections(refs: seq<Cell>, a: Bytes, b: Bytes, c: Bytes)
    requires (refs == [Chain(a, 127), Chain(b, 127)] && c == []) || refs == [Chain(a, 127), Chain(b, 127), Chain(c, 127)]
    ensures FlattenAll(refs) == a + b + c
  {
    ChainFlattens(a, 127);
    ChainFlattens(b, 127);
    ChainFlattens(c, 127);
    if |refs| == 2 {
      FlattenTwo(refs[0], refs[1]);
      assert a + b + [] == a + b;
    } else {
      FlattenThree(refs[0], refs[1], refs[2]);
    }
  }

  lemma CutInFive(b: Bytes, i: nat, j: nat, k: nat, l: nat)
    requires i <= j <= k <= l <= |b|
    ensures b[..i] + (b[i..j] + b[j..k] + b[k..l]) + b[l..] == b
  {
    assert b[i..j] + b[j..k] == b[i..k];
    assert b[i..k] + b[k..l] == b[i..l];
  }

  /** Whatever the bytes are: if there is a result, it holds them all, in order, and nothing else. */
  lemma NothingIsLost(b: Bytes)
    requires Serialize(b).Serialized?
    ensures |Serialize(b).root.data| >= 8
    ensures Reassembled(Serialize(b).root) == b
  {
    var ins := FindInputs(b).value;
    var outsEnd := TableEnd(b, ins.end, 8, 0).value;
    AssembledHoldsAll(b, ins, outsEnd);
  }

  lemma AssembledHoldsAll(b: Bytes, ins: Inputs, outsEnd: int64)
    requires 4 <= ins.start <= ins.end <= outsEnd <= |b|
    requires Assemble(b, ins, outsEnd).Serialized?
    ensures |Assemble(b, ins, outsEnd).root.data| >= 8
    ensures Reassembled(Assemble(b, ins, outsEnd).root) == b
  {
    var end := WitnessEnd(b, outsEnd, ins).value;
    var root := Assemble(b, ins, outsEnd).root;
    FlattenSections(root.refs, b[ins.start..ins.end], b[ins.end..outsEnd], b[outsEnd..end]);
    CutInFive(b, ins.start, ins.end, outsEnd, end);
    assert root.data[..|root.data| - 4] == b[..ins.start];
    assert root.data[|root.data| - 4..] == b[end..];
  }

  // ----- the parser on the format -----

  ghost predicate At(b: Bytes, o: int, s: Bytes) {
    0 <= o && o + |s| <= |b| && b[o..o + |s|] == s
  }

  lemma AtSplit(b: Bytes, o: int, s: Bytes, t: Bytes)
    requires At(b, o, s + t)
    ensures At(b, o, s) && At(b, o + |s|, t)
  {
    assert b[o..o + |s|] == (s + t)[..|s|];
    assert b[o + |s|..o + |s| + |t|] == (s + t)[|s|..];
  }

  lemma ReadsSize(b: Bytes, o: int, c: CompactSize)
    requires SizeOk(c) && At(b, o, EncodeSize(c))
    ensures ReadCompactSize(b, o) == Some(c)
  {
    var e := EncodeSize(c);
    assert b[o] == b[o..o + |e|][0];
    if c.width > 1 {
      assert b[o + 1..o + c.width] == e[1..] == LE(c.value, c.width - 1);
      Pow256Values();
      LERoundTrip(c.value, c.width - 1);
    }
  }

  lemma FourAt(b: Bytes, o: int, h: Bytes, s: Bytes, c: Bytes, t: Bytes)
    requires At(b, o, Concat([h, s, c, t]))
    ensures At(b, o + |h|, s)
    ensures |Concat([h, s, c, t])| == |h| + |s| + |c| + |t|
  {
    assert [h, s, c, t][1..] == [s, c, t] && [s, c, t][1..] == [c, t] && [c, t][1..] == [t];
    ConcatSplit([c], [t]);
    AtSplit(b, o, h, Concat([s, c, t]));
    AtSplit(b, o + |h|, s, Concat([c, t]));
  }

  // The sizes are all the parser looks at. The predicates say that they are in their places; the
  // lengths say how far that is.

  function EntriesLength(entries: seq<Entry>, before: nat, after: nat): nat
    decreases |entries|
  {
    if entries == [] then 0
    else before + entries[0].size.width + entries[0].size.value + after + EntriesLength(entries[1..], before, after)
  }

  ghost predicate EntriesAt(b: Bytes, o: int, entries: seq<Entry>, before: nat, after: nat)
    decreases |entries|
  {
    entries == [] ||
    (var size := entries[0].size;
     ReadCompactSize(b, o + before) == Some(size)
     && EntriesAt(b, o + before + size.width + size.value + after, entries[1..], before, after))
  }

  function TableLength(t: Table, before: nat, after: nat): nat {
    t.count.width + EntriesLength(t.entries, before, after)
  }

  ghost predicate TableAt(b: Bytes, o: int, t: Table, before: nat, after: nat) {
    ReadCompactSize(b, o) == Some(t.count) && EntriesAt(b, o + t.count.width, t.entries, before, after)
  }

  function StacksLength(stacks: seq<Table>): nat {
    if stacks == [] then 0 else TableLength(stacks[0], 0, 0) + StacksLength(stacks[1..])
  }

  ghost predicate StacksAt(b: Bytes, o: int, stacks: seq<Table>)
    decreases |stacks|
  {
    stacks == [] || (TableAt(b, o, stacks[0], 0, 0) && StacksAt(b, o + TableLength(stacks[0], 0, 0), stacks[1..]))
  }

  lemma EntryIsAt(b: Bytes, o: int, e: Entry, before: nat, after: nat)
    requires e.Ok(before, after) && At(b, o, EncodeEntry(e, before, after))
    ensures ReadCompactSize(b, o + before) == Some(e.size)
    ensures |EncodeEntry(e, before, after)| == before + e.size.width + e.size.value + after
  {
    FourAt(b, o, e.head, EncodeSize(e.size), e.script, e.tail);
    ReadsSize(b, o + before, e.size);
  }

  lemma {:induction false} EntriesAreAt(b: Bytes, o: int, entries: seq<Entry>, before: nat, after: nat)
    requires forall i | 0 <= i < |entries| :: entries[i].Ok(before, after)
    requires At(b, o, EncodeEntries(entries, before, after))
    ensures EntriesAt(b, o, entries, before, after)
    ensures |EncodeEntries(entries, before, after)| == EntriesLength(entries, before, after)
    decreases |entries|
  {
    if entries != [] {
      var next := EntryThen(b, o, entries[0], before, after, EncodeEntries(entries[1..], before, after));
      EntriesAreAt(b, next, entries[1..], before, after);
      EntriesMore(b, o, entries, before, after, next);
    }
  }

  lemma EntriesMore(b: Bytes, o: int, entries: seq<Entry>, before: nat, after: nat, next: int)
    requires entries != [] && ReadCompactSize(b, o + before) == Some(entries[0].size)
    requires next == o + before + entries[0].size.width + entries[0].size.value + after
    requires EntriesAt(b, next, entries[1..], before, after)
    ensures EntriesAt(b, o, entries, before, after)
    ensures o + EntriesLength(entries, before, after) == next + EntriesLength(entries[1..], before, after)
  {
  }

  lemma EntryThen(b: Bytes, o: int, e: Entry, before: nat, after: nat, rest: Bytes) returns (next: int)
    requires e.Ok(before, after) && At(b, o, EncodeEntry(e, before, after) + rest)
    ensures ReadCompactSize(b, o + before) == Some(e.size) && At(b, next, rest)
    ensures next == o + before + e.size.width + e.size.value + after
    ensures |EncodeEntry(e, before, after)| == before + e.size.width + e.size.value + after
  {
    AtSplit(b, o, EncodeEntry(e, before, after), rest);
    EntryIsAt(b, o, e, before, after);
    next := o + |EncodeEntry(e, before, after)|;
  }

  lemma TableIsAt(b: Bytes, o: int, t: Table, before: nat, after: nat)
    requires t.Ok(before, after) && At(b, o, EncodeTable(t, before, after))
    ensures TableAt(b, o, t, before, after) && |EncodeTable(t, before, after)| == TableLength(t, before, after)
  {
    AtSplit(b, o, EncodeSize(t.count), EncodeEntries(t.entries, before, after));
    ReadsSize(b, o, t.count);
    EntriesAreAt(b, o + t.count.width, t.entries, before, after);
  }

  lemma FirstStackAt(b: Bytes, o: int, stacks: seq<Table>) returns (next: int)
    requires stacks != [] && StacksOk(stacks)
    requires At(b, o, EncodeStacks(stacks))
    ensures TableAt(b, o, stacks[0], 0, 0) && next == o + TableLength(stacks[0], 0, 0)
    ensures At(b, next, EncodeStacks(stacks[1..]))
    ensures |EncodeStacks(stacks)| == TableLength(stacks[0], 0, 0) + |EncodeStacks(stacks[1..])|
  {
    next := TableThen(b, o, stacks[0], EncodeStacks(stacks[1..]));
  }

  lemma TableThen(b: Bytes, o: int, t: Table, rest: Bytes) returns (next: int)
    requires t.Ok(0, 0) && At(b, o, EncodeTable(t, 0, 0) + rest)
    ensures TableAt(b, o, t, 0, 0) && next == o + TableLength(t, 0, 0) && At(b, next, rest)
    ensures |EncodeTable(t, 0, 0)| == TableLength(t, 0, 0)
  {
    AtSplit(b, o, EncodeTable(t, 0, 0), rest);
    TableIsAt(b, o, t, 0, 0);
    next := o + |EncodeTable(t, 0, 0)|;
  }

  lemma {:induction false} StacksAreAt(b: Bytes, o: int, stacks: seq<Table>)
    requires StacksOk(stacks)
    requires At(b, o, EncodeStacks(stacks))
    ensures StacksAt(b, o, stacks) && |EncodeStacks(stacks)| == StacksLength(stacks)
    decreases |stacks|
  {
    if stacks != [] {
      var next := FirstStackAt(b, o, stacks);
      StacksAreAt(b, next, stacks[1..]);
      StacksMore(b, o, stacks, next);
    }
  }

  lemma StacksMore(b: Bytes, o: int, stacks: seq<Table>, next: int)
    requires stacks != [] && TableAt(b, o, stacks[0], 0, 0) && next == o + TableLength(stacks[0], 0, 0)
    requires StacksAt(b, next, stacks[1..])
    ensures StacksAt(b, o, stacks) && StacksLength(stacks) == TableLength(stacks[0], 0, 0) + StacksLength(stacks[1..])
  {
  }

  lemma {:induction false} SkipsEntries(b: Bytes, o: int64, entries: seq<Entry>, before: nat, after: nat)
    requires 0 <= o && o + EntriesLength(entries, before, after) < TWO_63
    requires EntriesAt(b, o, entries, before, after)
    ensures SkipEntries(b, o, |entries|, before, after) == Some(o + EntriesLength(entries, before, after))
    decreases |entries|
  {
    if entries != [] {
      var next := FirstEntry(b, o, entries, before, after);
      SkipsEntries(b, next, entries[1..], before, after);
    }
  }

  lemma FirstEntry(b: Bytes, o: int64, entries: seq<Entry>, before: nat, after: nat) returns (next: int64)
    requires entries != []
    requires 0 <= o && o + EntriesLength(entries, before, after) < TWO_63
    requires EntriesAt(b, o, entries, before, after)
    ensures 0 <= next && EntriesAt(b, next, entries[1..], before, after)
    ensures next + EntriesLength(entries[1..], before, after) == o + EntriesLength(entries, before, after)
    ensures SkipEntries(b, o, |entries|, before, after) == SkipEntries(b, next, |entries| - 1, before, after)
  {
    var size := entries[0].size;
    next := o + before + size.width + size.value + after;
    assert SkipEntry(b, o, before, after) == Some(next);
  }

  lemma SkipsTable(b: Bytes, o: int64, t: Table, before: nat, after: nat)
    requires 0 <= o && o + TableLength(t, before, after) < TWO_63
    requires TableAt(b, o, t, before, after) && t.count.value == |t.entries|
    ensures SkipTable(b, o, before, after) == Some(o + TableLength(t, before, after))
  {
    SkipsEntries(b, o + t.count.width, t.entries, before, after);
  }

  lemma FirstStack(b: Bytes, o: int64, stacks: seq<Table>) returns (next: int64)
    requires stacks != [] && stacks[0].Ok(0, 0)
    requires 0 <= o && o + StacksLength(stacks) < TWO_63 && StacksAt(b, o, stacks)
    ensures 0 <= next && next + StacksLength(stacks[1..]) == o + StacksLength(stacks) && StacksAt(b, next, stacks[1..])
    ensures SkipStacks(b, o, |stacks|) == SkipStacks(b, next, |stacks| - 1)
  {
    next := o + TableLength(stacks[0], 0, 0);
    SkipsTable(b, o, stacks[0], 0, 0);
  }

  lemma {:induction false} SkipsStacks(b: Bytes, o: int64, stacks: seq<Table>)
    requires StacksOk(stacks)
    requires 0 <= o && o + StacksLength(stacks) < TWO_63
    requires StacksAt(b, o, stacks)
    ensures SkipStacks(b, o, |stacks|) == Some(o + StacksLength(stacks))
    decreases |stacks|
  {
    if stacks != [] {
      var next := FirstStack(b, o, stacks);
      SkipsStacks(b, next, stacks[1..]);
    }
  }

  lemma SevenParts(v: Bytes, m: Bytes, i: Bytes, o: Bytes, w: Bytes, l: Bytes, x: Bytes)
    ensures v + m + i + o + w + l + x == v + (m + (i + (o + (w + (l + x)))))
  {
    assert v + m + i + o + w + l + x == v + m + i + o + w + (l + x);
    assert v + m + i + o + w + (l + x) == v + m + i + o + (w + (l + x));
    assert v + m + i + o + (w + (l + x)) == v + m + i + (o + (w + (l + x)));
  }

  lemma SevenAt(v: Bytes, m: Bytes, i: Bytes, o: Bytes, w: Bytes, l: Bytes, x: Bytes, b: Bytes)
    requires b == v + m + i + o + w + l + x
    ensures At(b, 0, v) && At(b, |v|, m) && At(b, |v| + |m|, i) && At(b, |v| + |m| + |i|, o)
    ensures At(b, |v| + |m| + |i| + |o|, w) && At(b, |v| + |m| + |i| + |o| + |w|, l)
    ensures |b| == |v| + |m| + |i| + |o| + |w| + |l| + |x|
  {
    SevenParts(v, m, i, o, w, l, x);
    var rest := o + (w + (l + x));
    ThreeAt(b, 0, v, m, i + rest);
    var p := |v| + |m|;
    ThreeAt(b, p, i, o, w + (l + x));
    ThreeAt(b, p + |i| + |o|, w, l, x);
  }

  lemma ThreeAt(b: Bytes, o: int, s: Bytes, t: Bytes, rest: Bytes)
    requires At(b, o, s + (t + rest))
    ensures At(b, o, s) && At(b, o + |s|, t) && At(b, o + |s| + |t|, rest)
  {
    AtSplit(b, o, s, t + rest);
    AtSplit(b, o + |s|, t, rest);
  }

  lemma SevenSlices(v: Bytes, m: Bytes, i: Bytes, o: Bytes, w: Bytes, l: Bytes, x: Bytes, b: Bytes)
    requires b == v + m + i + o + w + l + x
    ensures var p := |v| + |m|; var q := p + |i|; var r := q + |o|; var t := r + |w|;
            && t + |l| + |x| == |b|
            && b[..p] == v + m && b[p..q] == i && b[q..r] == o && b[r..t] == w && b[t..t + |l|] == l
  {
    SevenAt(v, m, i, o, w, l, x, b);
    assert b[..|v| + |m|] == b[..|v|] + b[|v|..|v| + |m|];
  }

  /** Where the sections of an encoded transaction are: marker, inputs, outputs, witnesses, lock time. */
  datatype Places = Places(ins: int64, outs: int64, wits: int64, lock: int64)

  function PlacesOf(tx: Tx): (p: Places)
    requires tx.Ok() && |tx.Encode()| < TWO_63
  {
    EncodedLength(tx, []);
    var m := 4 + |tx.Marker()|;
    var o := m + |tx.Ins()|;
    var w := o + |tx.Outs()|;
    Places(m, o, w, w + |EncodeStacks(tx.witnesses)|)
  }

  lemma EncodedLength(tx: Tx, extra: Bytes)
    requires tx.Ok()
    ensures |tx.Encode() + extra| ==
            8 + |tx.Marker()| + |tx.Ins()| + |tx.Outs()| + |EncodeStacks(tx.witnesses)| + |extra|
  {
  }

  /** The sections of `tx` are at their places in `b`. */
  ghost predicate Laid(b: Bytes, tx: Tx, p: Places)
    requires tx.Ok()
  {
    && p.ins == 4 + |tx.Marker()| && p.ins <= p.outs <= p.wits <= p.lock && p.lock + 4 <= |b|
    && b[..p.ins] == tx.version + tx.Marker() && b[p.ins..p.outs] == tx.Ins() && b[p.outs..p.wits] == tx.Outs()
    && b[p.wits..p.lock] == EncodeStacks(tx.witnesses) && b[p.lock..p.lock + 4] == tx.lockTime
  }

  lemma Sections(tx: Tx, extra: Bytes)
    requires tx.Ok() && |tx.Encode() + extra| < TWO_63
    ensures Laid(tx.Encode() + extra, tx, PlacesOf(tx)) && PlacesOf(tx).lock + 4 + |extra| == |tx.Encode() + extra|
  {
    EncodedLength(tx, extra);
    SlicesPlaced(tx.version, tx.Marker(), tx.Ins(), tx.Outs(), EncodeStacks(tx.witnesses), tx.lockTime, extra,
                 tx.Encode() + extra, PlacesOf(tx));
  }

  lemma SlicesPlaced(v: Bytes, m: Bytes, i: Bytes, o: Bytes, w: Bytes, l: Bytes, x: Bytes, b: Bytes, p: Places)
    requires b == v + m + i + o + w + l + x
    requires p.ins == |v| + |m| && p.outs == p.ins + |i| && p.wits == p.outs + |o| && p.lock == p.wits + |w|
    ensures 0 <= p.ins <= p.outs <= p.wits <= p.lock && p.lock + |l| + |x| == |b|
    ensures b[..p.ins] == v + m && b[p.ins..p.outs] == i && b[p.outs..p.wits] == o && b[p.wits..p.lock] == w
    ensures b[p.lock..p.lock + |l|] == l
  {
    SevenSlices(v, m, i, o, w, l, x, b);
  }

  /** The sizes of all sections are where the parser looks for them. */
  ghost predicate SizesInPlace(b: Bytes, tx: Tx, p: Places) {
    && TableAt(b, p.ins, tx.inputs, 36, 4) && p.outs == p.ins + TableLength(tx.inputs, 36, 4)
    && TableAt(b, p.outs, tx.outputs, 8, 0) && p.wits == p.outs + TableLength(tx.outputs, 8, 0)
    && StacksAt(b, p.wits, tx.witnesses) && p.lock == p.wits + StacksLength(tx.witnesses)
  }

  lemma TablePlaced(b: Bytes, start: int64, end: int64, t: Table, before: nat, after: nat)
    requires t.Ok(before, after) && 0 <= start <= end <= |b| && b[start..end] == EncodeTable(t, before, after)
    ensures TableAt(b, start, t, before, after) && end == start + TableLength(t, before, after)
  {
    TableIsAt(b, start, t, before, after);
  }

  lemma StacksPlaced(b: Bytes, start: int64, end: int64, stacks: seq<Table>)
    requires StacksOk(stacks)
    requires 0 <= start <= end <= |b| && b[start..end] == EncodeStacks(stacks)
    ensures StacksAt(b, start, stacks) && end == start + StacksLength(stacks)
  {
    StacksAreAt(b, start, stacks);
  }

  lemma LaidInPlace(b: Bytes, tx: Tx, p: Places)
    requires tx.Ok() && Laid(b, tx, p)
    ensures SizesInPlace(b, tx, p)
  {
    TablePlaced(b, p.ins, p.outs, tx.inputs, 36, 4);
    TablePlaced(b, p.outs, p.wits, tx.outputs, 8, 0);
    StacksPlaced(b, p.wits, p.lock, tx.witnesses);
  }

  lemma ReadsZero(b: Bytes)
    requires |b| > 4 && b[4] == 0
    ensures TableEnd(b, 4, 36, 4) == Some(5)
  {
  }

  lemma FindsLegacy(b: Bytes, end: int64)
    requires 4 < end < |b| && TableEnd(b, 4, 36, 4) == Some(end)
    requires end == 5 && b[4] == 0 ==> |b| > 5 && b[5] == 0
    ensures FindInputs(b) == Some(Inputs(0, 4, end))
  {
  }

  lemma FindsSegwit(b: Bytes, flag: byte, end: int64)
    requires 6 < end < |b| && b[4] == 0 && b[5] == flag != 0 && TableEnd(b, 6, 36, 4) == Some(end)
    ensures FindInputs(b) == Some(Inputs(flag, 6, end))
  {
    ReadsZero(b);
  }

  lemma FirstOf(b: Bytes, i: nat, j: nat, s: Bytes)
    requires i < j <= |b| && b[i..j] == s
    ensures |s| == j - i && b[i] == s[0]
  {
  }

  lemma FindsInputs(b: Bytes, tx: Tx, p: Places)
    requires tx.Ok() && Laid(b, tx, p) && !tx.LooksSegwit()
    requires TableEnd(b, p.ins, 36, 4) == Some(p.outs)
    ensures FindInputs(b) == Some(Inputs(tx.flag, p.ins, p.outs))
  {
    if tx.flag == 0 {
      FirstOf(b, p.ins, p.outs, tx.Ins());
      FirstOf(b, p.outs, p.wits, tx.Outs());
      if |tx.Ins()| == 1 && b[4] == 0 {
        assert tx.Ins() == [0];
      }
      FindsLegacy(b, p.outs);
    } else {
      assert (tx.version + tx.Marker())[4..] == [0, tx.flag];
      assert b[4] == b[..p.ins][4] && b[5] == b[..p.ins][5];
      FindsSegwit(b, tx.flag, p.outs);
    }
  }

  lemma ReadsCount(txIn: Bytes, t: Table)
    requires t.Ok(36, 4) && txIn == EncodeTable(t, 36, 4)
    ensures ReadCompactSize(txIn, 0) == Some(t.count)
  {
    AtSplit(txIn, 0, EncodeSize(t.count), EncodeEntries(t.entries, 36, 4));
    ReadsSize(txIn, 0, t.count);
  }

  lemma FindsWitnesses(b: Bytes, tx: Tx, p: Places)
    requires tx.Ok() && Laid(b, tx, p)
    requires SkipStacks(b, p.wits, |tx.witnesses|) == Some(p.lock)
    ensures WitnessEnd(b, p.wits, Inputs(tx.flag, p.ins, p.outs)) == Some(p.lock)
  {
    if tx.flag % 2 == 1 {
      ReadsCount(tx.Ins(), tx.inputs);
    }
  }

  lemma Assembles(b: Bytes, ins: Inputs, outsEnd: int64, end: int64, head: Bytes, i: Bytes, o: Bytes, w: Bytes, lock: Bytes)
    requires 0 <= ins.start <= ins.end <= outsEnd <= end && end + 4 <= |b|
    requires WitnessEnd(b, outsEnd, ins) == Some(end)
    requires b[..ins.start] == head && b[ins.start..ins.end] == i && b[ins.end..outsEnd] == o
    requires b[outsEnd..end] == w && b[end..end + 4] == lock
    ensures Assemble(b, ins, outsEnd) ==
            if end + 4 != |b| then TrailingBytes
            else Serialized(Cell(head + lock, [Chain(i, 127), Chain(o, 127)]
                                 + if ins.flags % 2 == 0 then [] else [Chain(w, 127)]))
  {
    if end + 4 == |b| {
      assert b[end..] == lock;
    }
  }

  lemma Composes(b: Bytes, ins: Inputs, outsEnd: int64)
    requires FindInputs(b) == Some(ins) && TableEnd(b, ins.end, 8, 0) == Some(outsEnd)
    ensures 0 <= ins.start <= ins.end <= outsEnd <= |b| && Serialize(b) == Assemble(b, ins, outsEnd)
  {
  }

  lemma EndsTable(b: Bytes, t: Table, before: nat, after: nat, start: int64, end: int64)
    requires t.count.value == |t.entries| && TableAt(b, start, t, before, after)
    requires end == start + TableLength(t, before, after) && 0 <= start <= end <= |b|
    ensures TableEnd(b, start, before, after) == Some(end)
  {
    SkipsTable(b, start, t, before, after);
  }

  lemma EndsStacks(b: Bytes, stacks: seq<Table>, start: int64, end: int64)
    requires StacksOk(stacks)
    requires StacksAt(b, start, stacks) && end == start + StacksLength(stacks) && 0 <= start
    ensures SkipStacks(b, start, |stacks|) == Some(end)
  {
    SkipsStacks(b, start, stacks);
  }

  lemma SplitsLaid(b: Bytes, tx: Tx, p: Places)
    requires tx.Ok() && Laid(b, tx, p)
    requires FindInputs(b) == Some(Inputs(tx.flag, p.ins, p.outs)) && TableEnd(b, p.outs, 8, 0) == Some(p.wits)
    requires WitnessEnd(b, p.wits, Inputs(tx.flag, p.ins, p.outs)) == Some(p.lock)
    ensures Serialize(b) == if p.lock + 4 == |b| then Serialized(tx.AsCells()) else TrailingBytes
  {
    Composes(b, Inputs(tx.flag, p.ins, p.outs), p.wits);
    Assembles(b, Inputs(tx.flag, p.ins, p.outs), p.wits, p.lock, tx.version + tx.Marker(), tx.Ins(), tx.Outs(),
              EncodeStacks(tx.witnesses), tx.lockTime);
  }

  /** A well-formed transaction becomes its cells; with bytes after it, it is refused. */
  lemma SplitsWellFormed(tx: Tx, extra: Bytes)
    requires tx.Ok() && !tx.LooksSegwit() && |tx.Encode() + extra| < TWO_63
    ensures Serialize(tx.Encode() + extra) == if extra == [] then Serialized(tx.AsCells()) else TrailingBytes
  {
    var b := tx.Encode() + extra;
    var p := PlacesOf(tx);
    Sections(tx, extra);
    LaidInPlace(b, tx, p);
    EndsTable(b, tx.inputs, 36, 4, p.ins, p.outs);
    EndsTable(b, tx.outputs, 8, 0, p.outs, p.wits);
    EndsStacks(b, tx.witnesses, p.wits, p.lock);
    FindsInputs(b, tx, p);
    FindsWitnesses(b, tx, p);
    SplitsLaid(b, tx, p);
  }

  /** The serializer is right about a transaction exactly when it does not look like segwit without
      being it. */
  lemma SplitsExactly(tx: Tx)
    requires tx.Ok() && |tx.Encode()| < TWO_63
    ensures Serialize(tx.Encode()) == Serialized(tx.AsCells()) <==> !tx.LooksSegwit()
  {
    var b := tx.Encode();
    assert b + [] == b;
    if tx.LooksSegwit() {
      Sections(tx, []);
      var p := PlacesOf(tx);
      FirstOf(b, 4, p.outs, tx.Ins());
      FirstOf(b, 5, p.wits, tx.Outs());
      ReadsZero(b);
      if Serialize(b).Serialized? {
        assert |Serialize(b).root.data| == 10 && |tx.AsCells().data| == 8;
      }
    } else {
      SplitsWellFormed(tx, []);
    }
  }
}
