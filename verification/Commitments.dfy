/** Nonce commitments on the wire: one validator sends a count byte and a fixed-size record per
    transaction input; signing input i needs column i of everybody's records. */
module Commitments {
  import opened Wrappers
  import opened ByteCodec

  const FROST_COMMITMENT_LENGTH: nat := 71

  datatype CodecError = WrongLength | Empty | WrongCount | Insufficient

  function Serialized(commitments: seq<Bytes>, expectedLength: nat): Result<Bytes, CodecError> {
    if exists i | 0 <= i < |commitments| :: |commitments[i]| != expectedLength then Err(WrongLength)
    else Ok([|commitments| % 256] + Concat(commitments))
  }

  /** The count is stored in one byte and wraps there. */
  method SerializeCommitments(commitments: seq<Bytes>, expectedLength: nat)
    returns (r: Result<Bytes, CodecError>)
    ensures r == Serialized(commitments, expectedLength)
  {
    var serialized: Bytes := [|commitments| % 256];
    for i := 0 to |commitments|
      invariant forall k | 0 <= k < i :: |commitments[k]| == expectedLength
      invariant serialized == [|commitments| % 256] + Concat(commitments[..i])
    {
      if |commitments[i]| != expectedLength {
        return Err(WrongLength);
      }
      ConcatSnoc(commitments[..i], commitments[i]);
      assert commitments[..i + 1] == commitments[..i] + [commitments[i]];
      serialized := serialized + commitments[i];
    }
    assert commitments[..|commitments|] == commitments;
    return Ok(serialized);
  }

  /** The first `count` records of `width` bytes. */
  function Records(b: Bytes, count: nat, width: nat): (rs: seq<Bytes>)
    requires count * width <= |b|
    ensures |rs| == count
  {
    if count == 0 then []
    else
      assert count * width == width + (count - 1) * width;
      [b[..width]] + Records(b[width..], count - 1, width)
  }

  function Deserialized(serialized: Bytes, expectedCount: int, expectedLength: nat)
    : (r: Result<seq<Bytes>, CodecError>)
    ensures r.Ok? ==> |r.value| == expectedCount
  {
    if serialized == [] then Err(Empty)
    else if serialized[0] != expectedCount then Err(WrongCount)
    else if |serialized| < 1 + serialized[0] * expectedLength then Err(Insufficient)
    else Ok(Records(serialized[1..], serialized[0], expectedLength))
  }

  lemma Products(count: nat, width: nat, i: nat)
    requires i < count
    ensures 0 <= i * width <= (i + 1) * width <= count * width
    ensures count * width == width + (count - 1) * width && (i + 1) * width == width + i * width
  {
    var after := count - 1 - i;
    assert count * width == (i + 1) * width + after * width;
    assert after * width >= 0 && i * width >= 0;
  }

  lemma Shifted(b: Bytes, width: nat, lo: nat, hi: nat)
    requires lo <= hi && width + hi <= |b|
    ensures b[width..][lo..hi] == b[width + lo..width + hi]
  {
  }

  lemma {:induction false} RecordAt(b: Bytes, count: nat, width: nat, i: nat)
    requires count * width <= |b| && i < count
    ensures 0 <= i * width <= (i + 1) * width <= |b|
    ensures Records(b, count, width)[i] == b[i * width..(i + 1) * width]
  {
    Products(count, width, i);
    if i > 0 {
      Products(count, width, i - 1);
      RecordAt(b[width..], count - 1, width, i - 1);
      Shifted(b, width, (i - 1) * width, i * width);
    }
  }

  method DeserializeCommitments(serialized: Bytes, expectedCount: int, expectedLength: nat)
    returns (r: Result<seq<Bytes>, CodecError>)
    ensures r == Deserialized(serialized, expectedCount, expectedLength)
  {
    if |serialized| == 0 {
      return Err(Empty);
    }
    var count := serialized[0];
    if count != expectedCount {
      return Err(WrongCount);
    }
    if |serialized| < 1 + count * expectedLength {
      return Err(Insufficient);
    }
    ghost var all := Records(serialized[1..], count, expectedLength);
    var commitments: seq<Bytes> := [];
    for i := 0 to count
      invariant commitments == all[..i]
    {
      RecordAt(serialized[1..], count, expectedLength, i);
      assert serialized[1..][i * expectedLength..(i + 1) * expectedLength]
          == serialized[1 + i * expectedLength..1 + (i + 1) * expectedLength];
      commitments := commitments + [serialized[1 + i * expectedLength..1 + (i + 1) * expectedLength]];
    }
    assert all[..count] == all;
    return Ok(commitments);
  }

  lemma {:induction false} RecordsOfConcat(parts: seq<Bytes>, width: nat)
    requires forall i | 0 <= i < |parts| :: |parts[i]| == width
    ensures |Concat(parts)| == |parts| * width
    ensures Records(Concat(parts), |parts|, width) == parts
  {
    if parts != [] {
      RecordsOfConcat(parts[1..], width);
      assert Concat(parts)[width..] == Concat(parts[1..]);
      assert |parts| * width == width + (|parts| - 1) * width;
    }
  }

  /** The count byte makes the codec exact up to 255 records, and a rejection above. */
  lemma CommitmentsRoundTrip(commitments: seq<Bytes>, length: nat)
    requires forall i | 0 <= i < |commitments| :: |commitments[i]| == length
    ensures Serialized(commitments, length).Ok?
    ensures var r := Deserialized(Serialized(commitments, length).value, |commitments|, length);
            && (r == Ok(commitments) <==> |commitments| <= 255)
            && (r == Err(WrongCount) <==> |commitments| > 255)
  {
    RecordsOfConcat(commitments, length);
    var wire := Serialized(commitments, length).value;
    assert wire[1..] == Concat(commitments);
  }

  /** Column `inputIndex` of the validator-by-input matrix, if every row parses. */
  function InputColumn(rows: map<uint16, Bytes>, totalInputs: int, inputIndex: int)
    : (column: Option<map<uint16, Bytes>>)
    ensures column.Some? ==> column.value.Keys == rows.Keys
  {
    if inputIndex < 0 || inputIndex >= totalInputs then None
    else if exists v | v in rows :: Deserialized(rows[v], totalInputs, FROST_COMMITMENT_LENGTH).Err? then None
    else Some(map v | v in rows :: Deserialized(rows[v], totalInputs, FROST_COMMITMENT_LENGTH).value[inputIndex])
  }

  /** The rows are visited in map order; which malformed row is met first does not show. */
  method DeserializeInputCommitmentForAll(rows: map<uint16, Bytes>, totalInputs: int, inputIndex: int)
    returns (column: Option<map<uint16, Bytes>>)
    ensures column == InputColumn(rows, totalInputs, inputIndex)
  {
    if inputIndex < 0 || inputIndex >= totalInputs {
      return None;
    }
    var todo := rows.Keys;
    var commitmentsMap: map<uint16, Bytes> := map[];
    while todo != {}
      invariant todo <= rows.Keys && commitmentsMap.Keys == rows.Keys - todo
      invariant forall v | v in commitmentsMap ::
                  var row := Deserialized(rows[v], totalInputs, FROST_COMMITMENT_LENGTH);
                  row.Ok? && commitmentsMap[v] == row.value[inputIndex]
      decreases |todo|
    {
      var v :| v in todo;
      todo := todo - {v};
      var row := DeserializeCommitments(rows[v], totalInputs, FROST_COMMITMENT_LENGTH);
      if row.Err? {
        return None;
      }
      commitmentsMap := commitmentsMap[v := row.value[inputIndex]];
    }
    forall v | v in rows
      ensures Deserialized(rows[v], totalInputs, FROST_COMMITMENT_LENGTH).Ok?
    {
      assert v in commitmentsMap;
    }
    assert InputColumn(rows, totalInputs, inputIndex).Some?;
    assert commitmentsMap == InputColumn(rows, totalInputs, inputIndex).value;
    return Some(commitmentsMap);
  }

  /** What the senders wrote is what the signer reads, one column at a time. */
  lemma ColumnOfMatrix(matrix: map<uint16, seq<Bytes>>, inputs: nat, i: nat)
    requires i < inputs <= 255
    requires forall v | v in matrix :: |matrix[v]| == inputs
    requires forall v, k | v in matrix && 0 <= k < inputs :: |matrix[v][k]| == FROST_COMMITMENT_LENGTH
    ensures forall v | v in matrix :: Serialized(matrix[v], FROST_COMMITMENT_LENGTH).Ok?
    ensures InputColumn(map v | v in matrix :: Serialized(matrix[v], FROST_COMMITMENT_LENGTH).value, inputs, i)
         == Some(map v | v in matrix :: matrix[v][i])
  {
    forall v | v in matrix
      ensures Serialized(matrix[v], FROST_COMMITMENT_LENGTH).Ok?
      ensures Deserialized(Serialized(matrix[v], FROST_COMMITMENT_LENGTH).value, inputs, FROST_COMMITMENT_LENGTH) == Ok(matrix[v])
    {
      CommitmentsRoundTrip(matrix[v], FROST_COMMITMENT_LENGTH);
    }
    var rows := map v | v in matrix :: Serialized(matrix[v], FROST_COMMITMENT_LENGTH).value;
    assert InputColumn(rows, inputs, i).value == map v | v in matrix :: matrix[v][i];
  }
}
