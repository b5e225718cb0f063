/** A Bitcoin transaction as a tree of cells: version, marker and lock time at the root, the
    input, output and witness sections in chains below it.

    The parser is modelled on every byte string, with Go's wrapping `int`. Where Go would index
    outside the buffer the outcome is `OutOfRange`. */
module TxSerializer {
  import opened Wrappers
  import opened ByteCodec
  import opened Cells
  import Hex

  datatype Outcome = Serialized(root: Cell) | BadHex | OutOfRange | TrailingBytes

  // ----- the parser -----

  /** A number and the bytes it takes: 1, 3, 5 or 9, longer than necessary or not. */
  datatype CompactSize = CompactSize(value: nat, width: nat)

  function Width(v: byte): nat {
    if v == 0xfd then 3 else if v == 0xfe then 5 else if v == 0xff then 9 else 1
  }

  function ReadCompactSize(b: Bytes, o: int): Option<CompactSize> {
    if !(0 <= o < |b|) || o + Width(b[o]) > |b| then None
    else Some(CompactSize(if Width(b[o]) == 1 then b[o] else FromLE(b[o + 1..o + Width(b[o])]), Width(b[o])))
  }

  /** Past `before` bytes, a script with its length, and `after` bytes. */
  function SkipEntry(b: Bytes, o: int64, before: nat, after: nat): Option<int64> {
    match ReadCompactSize(b, Int64(o + before))
    case None => None
    case Some(size) => Some(Int64(o + before + size.width + size.value + after))
  }

  function SkipEntries(b: Bytes, o: int64, n: nat, before: nat, after: nat): Option<int64>
    decreases n
  {
    if n == 0 then Some(o)
    else
      match SkipEntry(b, o, before, after)
      case None => None
      case Some(o1) => SkipEntries(b, o1, n - 1, before, after)
  }

  /** Past a counted list of entries. */
  function SkipTable(b: Bytes, o: int64, before: nat, after: nat): Option<int64> {
    match ReadCompactSize(b, o)
    case None => None
    case Some(n) => SkipEntries(b, Int64(o + n.width), n.value, before, after)
  }

  /** The end of the table at `o`, if the table is a slice of the buffer. */
  function TableEnd(b: Bytes, o: int64, before: nat, after: nat): (end: Option<int64>)
    ensures end.Some? ==> 0 <= o <= end.value <= |b|
  {
    match SkipTable(b, o, before, after)
    case None => None
    case Some(end) => if 0 <= o <= end <= |b| then Some(end) else None
  }

  function SkipStacks(b: Bytes, o: int64, n: nat): Option<int64>
    decreases n
  {
    if n == 0 then Some(o)
    else
      match SkipTable(b, o, 0, 0)
      case None => None
      case Some(o1) => SkipStacks(b, o1, n - 1)
  }

  /** Where the inputs are; the marker, if there is one, is between byte 4 and `start`. */
  datatype Inputs = Inputs(flags: byte, start: nat, end: int64)

  function FindInputs(b: Bytes): (r: Option<Inputs>)
    ensures r.Some? ==> 4 <= r.value.start <= r.value.end <= |b|
  {
    if |b| < 4 then None
    else
      match TableEnd(b, 4, 36, 4)
      case None => None
      case Some(end) =>
        if end == 5 && b[4] == 0 then
          if |b| <= 5 then None
          else if b[5] == 0 then Some(Inputs(0, 4, end))
          else
            match TableEnd(b, 6, 36, 4)
            case None => None
            case Some(end) => Some(Inputs(b[5], 6, end))
        else Some(Inputs(0, 4, end))
  }

  function WitnessEnd(b: Bytes, o: int64, ins: Inputs): (end: Option<int64>)
    requires ins.start <= ins.end <= |b|
    ensures end.Some? ==> o <= end.value && (o <= |b| ==> end.value <= |b|)
  {
    if ins.flags % 2 == 0 then Some(o)
    else
      match ReadCompactSize(b[ins.start..ins.end], 0)
      case None => None
      case Some(inCount) =>
        match SkipStacks(b, o, inCount.value)
        case None => None
        case Some(end) => if o <= end <= |b| then Some(end) else None
  }

  /** The rest, once inputs and outputs are found. */
  function Assemble(b: Bytes, ins: Inputs, outsEnd: int64): Outcome
    requires 0 <= ins.start <= ins.end <= outsEnd <= |b|
  {
    match WitnessEnd(b, outsEnd, ins)
    case None => OutOfRange
    case Some(end) =>
      if end + 4 > |b| then OutOfRange
      else if end + 4 != |b| then TrailingBytes
      else
        Serialized(Cell(b[..ins.start] + b[end..],
                        [Chain(b[ins.start..ins.end], 127), Chain(b[ins.end..outsEnd], 127)]
                        + if ins.flags % 2 == 0 then [] else [Chain(b[outsEnd..end], 127)]))
  }

  function Serialize(b: Bytes): Outcome {
    match FindInputs(b)
    case None => OutOfRange
    case Some(ins) =>
      match TableEnd(b, ins.end, 8, 0)
      case None => OutOfRange
      case Some(outsEnd) => Assemble(b, ins, outsEnd)
  }

  lemma WrappedBy(x: int) returns (k: int)
    ensures Int64(x) == x + k * 0x1_0000_0000_0000_0000
  {
    var q := x / TWO_64;
    assert x == q * 0x1_0000_0000_0000_0000 + x % TWO_64;
    k := if Int64(x) == x then 0 else if U64(x) < TWO_63 then -q else -q - 1;
  }

  lemma SameWrap(x: int, y: int, k: int)
    requires x == y + k * 0x1_0000_0000_0000_0000
    ensures Int64(x) == Int64(y)
  {
    var i := WrappedBy(x);
    var j := WrappedBy(y);
    assert (i + k - j) * 0x1_0000_0000_0000_0000 == Int64(x) - Int64(y);
  }

  /** Go adds step by step, wrapping each time; the sum wraps to the same value. */
  lemma WrapOnce(x: int, width: int, value: int, after: int)
    ensures Int64(Int64(Int64(Int64(x) + width) + Int64(value)) + after) == Int64(x + width + value + after)
  {
    var a, v := Int64(x), Int64(value);
    var i := WrappedBy(x);
    var j := WrappedBy(a + width);
    var k := WrappedBy(value);
    var l := WrappedBy(Int64(a + width) + v);
    SameWrap(Int64(Int64(a + width) + v) + after, x + width + value + after, i + j + k + l);
  }

  /** `x` is the offset before it wrapped. */
  method Advance(ghost x: int, offset: int64, size: CompactSize, after: nat) returns (o: int64)
    requires offset == Int64(x)
    ensures o == Int64(x + size.width + size.value + after)
  {
    o := Int64(offset + size.width);
    o := Int64(o + Int64(size.value));
    o := Int64(o + after);
    WrapOnce(x, size.width, size.value, after);
  }

  lemma EntryRead(b: Bytes, o: int64, n: nat, before: nat, after: nat, next: int64)
    requires n > 0 && SkipEntry(b, o, before, after) == Some(next)
    ensures SkipEntries(b, o, n, before, after) == SkipEntries(b, next, n - 1, before, after)
  {
  }

  /** The loop over inputs, outputs or witness items. */
  method ReadEntries(txbuffer: Bytes, offset: int64, count: nat, before: nat, after: nat) returns (r: Option<int64>)
    ensures r == SkipEntries(txbuffer, offset, count, before, after)
  {
    var o: int64 := offset;
    for i := 0 to count
      invariant SkipEntries(txbuffer, offset, count, before, after) == SkipEntries(txbuffer, o, count - i, before, after)
    {
      var script := ReadCompactSize(txbuffer, Int64(o + before));
      if script == None {
        return None;
      }
      ghost var was := o;
      o := Advance(o + before, Int64(o + before), script.value, after);
      EntryRead(txbuffer, was, count - i, before, after, o);
    }
    return Some(o);
  }

  method ReadTxIn(txbuffer: Bytes, offset: int64) returns (r: Option<(Bytes, int64)>)
    ensures match TableEnd(txbuffer, offset, 36, 4)
            case None => r == None
            case Some(end) => r == Some((txbuffer[offset..end], end))
  {
    var count := ReadCompactSize(txbuffer, offset);
    if count == None {
      return None;
    }
    var end := ReadEntries(txbuffer, Int64(offset + count.value.width), count.value.value, 36, 4);
    if end == None || !(offset <= end.value <= |txbuffer|) {
      return None;
    }
    return Some((txbuffer[offset..end.value], end.value));
  }

  method ReadTxOut(txbuffer: Bytes, offset: int64) returns (r: Option<(Bytes, int64)>)
    ensures match TableEnd(txbuffer, offset, 8, 0)
            case None => r == None
            case Some(end) => r == Some((txbuffer[offset..end], end))
  {
    var count := ReadCompactSize(txbuffer, offset);
    if count == None {
      return None;
    }
    var end := ReadEntries(txbuffer, Int64(offset + count.value.width), count.value.value, 8, 0);
    if end == None || !(offset <= end.value <= |txbuffer|) {
      return None;
    }
    return Some((txbuffer[offset..end.value], end.value));
  }

  lemma StackRead(b: Bytes, o: int64, n: nat, next: Option<int64>)
    requires n > 0 && SkipTable(b, o, 0, 0) == next
    ensures SkipStacks(b, o, n) == if next == None then None else SkipStacks(b, next.value, n - 1)
  {
  }

  method ReadWitnesses(txbuffer: Bytes, offset: int64, inCount: nat) returns (r: Option<int64>)
    ensures r == SkipStacks(txbuffer, offset, inCount)
  {
    var o: int64 := offset;
    for txin := 0 to inCount
      invariant SkipStacks(txbuffer, offset, inCount) == SkipStacks(txbuffer, o, inCount - txin)
    {
      var count := ReadCompactSize(txbuffer, o);
      if count == None {
        return None;
      }
      var next := ReadEntries(txbuffer, Int64(o + count.value.width), count.value.value, 0, 0);
      StackRead(txbuffer, o, inCount - txin, next);
      if next == None {
        return None;
      }
      o := next.value;
    }
    return Some(o);
  }

  method FindWitnessEnd(txbuffer: Bytes, offset: int64, ins: Inputs) returns (r: Option<int64>)
    requires 0 <= ins.start <= ins.end <= |txbuffer|
    ensures r == WitnessEnd(txbuffer, offset, ins)
  {
    if ins.flags % 2 == 0 {
      return Some(offset);
    }
    var count := ReadCompactSize(txbuffer[ins.start..ins.end], 0);
    if count == None {
      return None;
    }
    r := ReadWitnesses(txbuffer, offset, count.value.value);
    if r.Some? && !(offset <= r.value <= |txbuffer|) {
      return None;
    }
  }

  method Finish(txbuffer: Bytes, txbuilder: Builder, ins: Inputs, outsEnd: int64) returns (r: Outcome)
    requires 0 <= ins.start <= ins.end <= outsEnd <= |txbuffer| && ins.start <= 6
    requires txbuilder.data == txbuffer[..ins.start] && txbuilder.refs == []
    modifies txbuilder
    ensures r == Assemble(txbuffer, ins, outsEnd)
  {
    var txInCell := SplitBufferToCells(txbuffer[ins.start..ins.end], None);
    txbuilder.MustStoreRef(txInCell);
    var txOutCell := SplitBufferToCells(txbuffer[ins.end..outsEnd], None);
    txbuilder.MustStoreRef(txOutCell);
    var end := FindWitnessEnd(txbuffer, outsEnd, ins);
    if end == None {
      return OutOfRange;
    }
    var offset := end.value;
    if ins.flags % 2 != 0 {
      var witnessCell := SplitBufferToCells(txbuffer[outsEnd..offset], None);
      txbuilder.MustStoreRef(witnessCell);
    }
    if offset + 4 > |txbuffer| {
      return OutOfRange;
    }
    txbuilder.MustStoreSlice(txbuffer[offset..offset + 4]);
    if |txbuffer| != offset + 4 {
      return TrailingBytes;
    }
    return Serialized(txbuilder.EndCell());
  }

  /** The input section; what looks like no inputs at all may be a marker before it. */
  method ReadInputs(txbuffer: Bytes, txbuilder: Builder) returns (r: Option<Inputs>)
    requires |txbuffer| >= 4 && txbuilder.data == txbuffer[..4]
    modifies txbuilder`data
    ensures r == FindInputs(txbuffer)
    ensures r.Some? ==> r.value.start <= 6 && txbuilder.data == txbuffer[..r.value.start]
  {
    var txIn := ReadTxIn(txbuffer, 4);
    if txIn == None {
      return None;
    }
    var offset := txIn.value.1;
    assert txIn.value.0 == txbuffer[4..offset];
    if |txIn.value.0| != 1 || txIn.value.0[0] != 0 {
      return Some(Inputs(0, 4, offset));
    }
    if offset >= |txbuffer| {
      return None;
    }
    if txbuffer[offset] == 0 {
      return Some(Inputs(0, 4, offset));
    }
    var flags := txbuffer[offset];
    offset := offset + 1;
    txbuilder.MustStoreSlice(txbuffer[offset - 2..offset]);
    assert txbuffer[..6] == txbuffer[..4] + txbuffer[4..6];
    txIn := ReadTxIn(txbuffer, offset);
    if txIn == None {
      return None;
    }
    return Some(Inputs(flags, offset, txIn.value.1));
  }

  method SerializeTransaction(txHex: string) returns (r: Outcome)
    ensures r == match Hex.Decode(txHex)
                 case None => BadHex
                 case Some(b) => Serialize(b)
  {
    var decoded := Hex.Decode(txHex);
    if decoded == None {
      return BadHex;
    }
    var txbuffer := decoded.value;
    if |txbuffer| < 4 {
      return OutOfRange;
    }
    var txbuilder := BeginCellWith(txbuffer[..4]);
    var ins := ReadInputs(txbuffer, txbuilder);
    if ins == None {
      return OutOfRange;
    }
    var txOut := ReadTxOut(txbuffer, ins.value.end);
    if txOut == None {
      return OutOfRange;
    }
    r := Finish(txbuffer, txbuilder, ins.value, txOut.value.1);
  }
}
