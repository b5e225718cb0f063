/** Validator indices as FROST participant identifiers.

    An identifier is the 32-byte big-endian scalar of the index with bit 7 set, so that index 0
    is never the zero scalar; reading an index back clears that bit. */
module FrostIds {
  import opened ByteCodec
  import opened Sorting

  type Identifier = id: Bytes | |id| == 32 witness Zeros(32)

  function GetIdentifier(key: uint16): Identifier {
    Zeros(30) + BE(key, 2)
  }

  predicate Bit7(idx: uint16) {
    idx % 0x100 >= 0x80
  }

  function SetBit7(idx: uint16): uint16 {
    if Bit7(idx) then idx else idx + 0x80
  }

  function ClearBit7(idx: uint16): uint16 {
    if Bit7(idx) then idx - 0x80 else idx
  }

  function ValidatorIdxToFrost(idx: uint16): Identifier {
    GetIdentifier(SetBit7(idx))
  }

  function FrostToValidatorIdx(id: Identifier): uint16 {
    ClearBit7(U16(id[30..32]))
  }

  /** The identifier, byte by byte: 30 zeros, the high byte of the index, the low byte with bit 7 set. */
  lemma IdentifierSpelled(idx: uint16)
    ensures var id := ValidatorIdxToFrost(idx);
            && (forall i | 0 <= i < 30 :: id[i] == 0)
            && id[30] == idx / 256 && id[31] == 0x80 + idx % 128
  {
    var key := SetBit7(idx);
    assert BE(key / 256, 1) == BE(key / 256 / 256, 0) + [key / 256 % 256];
    assert BE(key, 2) == BE(key / 256, 1) + [key % 256];
  }

  lemma BitAlgebra(idx: uint16)
    ensures Bit7(SetBit7(idx)) && !Bit7(ClearBit7(idx))
    ensures ClearBit7(SetBit7(idx)) == ClearBit7(idx)
    ensures SetBit7(ClearBit7(idx)) == SetBit7(idx)
  {
  }

  /** Only bit 7 is lost: an index survives the trip exactly when that bit was clear. */
  lemma FrostRoundTrip(idx: uint16)
    ensures FrostToValidatorIdx(ValidatorIdxToFrost(idx)) == ClearBit7(idx)
    ensures FrostToValidatorIdx(ValidatorIdxToFrost(idx)) == idx <==> !Bit7(idx)
  {
    BitAlgebra(idx);
    U16RoundTrip(SetBit7(idx));
    assert GetIdentifier(SetBit7(idx))[30..32] == BE(SetBit7(idx), 2);
  }

  /** Two validators share an identifier exactly when they differ in bit 7 at most. */
  lemma FrostCollision(i: uint16, j: uint16)
    ensures ValidatorIdxToFrost(i) == ValidatorIdxToFrost(j) <==> ClearBit7(i) == ClearBit7(j)
  {
    FrostRoundTrip(i);
    FrostRoundTrip(j);
    BitAlgebra(i);
    BitAlgebra(j);
  }

  // ----- maps keyed by validator, re-keyed by participant -----

  predicate Ascending(i: uint16, j: uint16) {
    i <= j
  }

  /** The keys of a map in ascending order. */
  ghost function SortedKeys<V>(m: map<uint16, V>): (keys: seq<uint16>)
    ensures forall i | 0 <= i < |keys| :: keys[i] in m
  {
    var keys := SortSet(m.Keys, Ascending);
    SortSetSorts(m.Keys, Ascending);
    assert forall i | 0 <= i < |keys| :: keys[i] in Elements(keys);
    keys
  }

  lemma SortedKeysSort<V>(m: map<uint16, V>)
    ensures IsSortOf(SortedKeys(m), m.Keys, Ascending)
    ensures |SortedKeys(m)| == |m|
  {
    SortSetSorts(m.Keys, Ascending);
  }

  lemma SortedKeyOf<V>(m: map<uint16, V>, v: uint16) returns (i: nat)
    requires v in m
    ensures i < |SortedKeys(m)| && SortedKeys(m)[i] == v
  {
    SortedKeysSort(m);
    assert v in Elements(SortedKeys(m));
    i :| 0 <= i < |SortedKeys(m)| && SortedKeys(m)[i] == v;
  }

  lemma SortedKeysDistinct<V>(m: map<uint16, V>, i: nat, j: nat)
    requires i < j < |SortedKeys(m)|
    ensures SortedKeys(m)[i] < SortedKeys(m)[j]
  {
    SortedKeysSort(m);
  }

  ghost function LeastIdx(s: set<uint16>): uint16
    requires s != {}
  {
    Least(s, Ascending)
  }

  /** A walk over the keys in ascending order meets the least bad one first. */
  lemma FirstBadIsLeast<V>(m: map<uint16, V>, i: nat, bad: set<uint16>)
    requires i < |SortedKeys(m)| && forall v | v in bad :: v in m
    requires forall k | 0 <= k < i :: SortedKeys(m)[k] !in bad
    requires SortedKeys(m)[i] in bad
    ensures LeastIdx(bad) == SortedKeys(m)[i]
  {
    forall v | v in bad ensures SortedKeys(m)[i] <= v {
      var j := SortedKeyOf(m, v);
      if i < j {
        SortedKeysDistinct(m, i, j);
      }
    }
    LeastUnique(bad, Ascending, SortedKeys(m)[i]);
  }

  /** Go ranges over the map in an order of its own choosing, then sorts. */
  method ExtractSortedKeysFromMap<V>(m: map<uint16, V>) returns (keys: seq<uint16>)
    ensures keys == SortedKeys(m)
  {
    var todo := m.Keys;
    var listed: seq<uint16> := [];
    while todo != {}
      invariant todo <= m.Keys && Elements(listed) == m.Keys - todo && Distinct(listed)
      decreases |todo|
    {
      var k :| k in todo;
      ListMore(listed, k);
      listed := listed + [k];
      todo := todo - {k};
    }
    keys := Sort(listed, Ascending);
    SortIsSortSet(keys, m.Keys, Ascending);
  }

  /** Entries with one identifier overwrite each other in ascending order of their indices. */
  function ByIdentifier(keys: seq<uint16>, m: map<uint16, Bytes>): map<Identifier, Bytes>
    requires forall i | 0 <= i < |keys| :: keys[i] in m
  {
    if keys == [] then map[]
    else
      var last := keys[|keys| - 1];
      ByIdentifier(keys[..|keys| - 1], m)[ValidatorIdxToFrost(last) := m[last]]
  }

  ghost function FrostMap(m: map<uint16, Bytes>): map<Identifier, Bytes> {
    ByIdentifier(SortedKeys(m), m)
  }

  /** Without bit 7 in play nothing is overwritten. */
  lemma {:induction false} ByIdentifierExact(keys: seq<uint16>, m: map<uint16, Bytes>)
    requires forall i | 0 <= i < |keys| :: keys[i] in m && !Bit7(keys[i])
    ensures forall i | 0 <= i < |keys| ::
              && ValidatorIdxToFrost(keys[i]) in ByIdentifier(keys, m)
              && ByIdentifier(keys, m)[ValidatorIdxToFrost(keys[i])] == m[keys[i]]
    ensures forall id | id in ByIdentifier(keys, m) :: exists i :: 0 <= i < |keys| && id == ValidatorIdxToFrost(keys[i])
  {
    if keys != [] {
      var init, last := keys[..|keys| - 1], keys[|keys| - 1];
      ByIdentifierExact(init, m);
      forall i | 0 <= i < |init| && ValidatorIdxToFrost(keys[i]) == ValidatorIdxToFrost(last) ensures keys[i] == last {
        FrostCollision(keys[i], last);
      }
    }
  }

  /** Each identifier in use has the package of one of its validators. */
  ghost predicate Rekeyed(m: map<uint16, Bytes>, packages: map<Identifier, Bytes>) {
    && (forall k | k in m :: ValidatorIdxToFrost(k) in packages)
    && (forall id | id in packages :: exists k | k in m :: id == ValidatorIdxToFrost(k) && packages[id] == m[k])
  }

  lemma RekeyedMore(m: map<uint16, Bytes>, packages: map<Identifier, Bytes>, v: uint16, pkg: Bytes)
    requires Rekeyed(m, packages) && v !in m
    ensures Rekeyed(m[v := pkg], packages[ValidatorIdxToFrost(v) := pkg])
  {
    var m1, packages1 := m[v := pkg], packages[ValidatorIdxToFrost(v) := pkg];
    forall id | id in packages1 ensures exists k | k in m1 :: id == ValidatorIdxToFrost(k) && packages1[id] == m1[k] {
      if id == ValidatorIdxToFrost(v) {
        assert v in m1 && packages1[id] == m1[v];
      } else {
        var k :| k in m && id == ValidatorIdxToFrost(k) && packages[id] == m[k];
        assert k in m1 && packages1[id] == m1[k];
      }
    }
  }

  /** With no collision the re-keyed map does not depend on the order it was filled in. */
  lemma FrostMapUnique(m: map<uint16, Bytes>, packages: map<Identifier, Bytes>)
    requires forall k | k in m :: !Bit7(k)
    requires Rekeyed(m, packages)
    ensures packages == FrostMap(m)
  {
    FrostMapExact(m);
    forall k | k in m ensures packages[ValidatorIdxToFrost(k)] == FrostMap(m)[ValidatorIdxToFrost(k)] {
      var j :| j in m && ValidatorIdxToFrost(k) == ValidatorIdxToFrost(j) && packages[ValidatorIdxToFrost(k)] == m[j];
      FrostCollision(k, j);
    }
  }

  lemma FrostMapExact(m: map<uint16, Bytes>)
    requires forall k | k in m :: !Bit7(k)
    ensures FrostMap(m).Keys == set k | k in m :: ValidatorIdxToFrost(k)
    ensures forall k | k in m :: FrostMap(m)[ValidatorIdxToFrost(k)] == m[k]
  {
    ByIdentifierExact(SortedKeys(m), m);
    forall k | k in m ensures ValidatorIdxToFrost(k) in FrostMap(m) && FrostMap(m)[ValidatorIdxToFrost(k)] == m[k] {
      var i := SortedKeyOf(m, k);
    }
  }

  /** Leaving one participant out leaves out that one and no other. */
  lemma FrostMapWithout(m: map<uint16, Bytes>, v: uint16, u: uint16)
    requires !Bit7(v) && u in m && forall k | k in m :: !Bit7(k)
    ensures ValidatorIdxToFrost(u) in FrostMap(m) - {ValidatorIdxToFrost(v)} <==> u != v
    ensures ValidatorIdxToFrost(u) in FrostMap(m) && FrostMap(m)[ValidatorIdxToFrost(u)] == m[u]
  {
    FrostMapExact(m);
    FrostCollision(u, v);
  }

  method ConvertMapToFrostPackages(m: map<uint16, Bytes>) returns (r: map<Identifier, Bytes>)
    ensures r == FrostMap(m)
  {
    var keys := ExtractSortedKeysFromMap(m);
    r := map[];
    for i := 0 to |keys|
      invariant r == ByIdentifier(keys[..i], m)
    {
      assert keys[..i + 1][..i] == keys[..i];
      r := r[ValidatorIdxToFrost(keys[i]) := m[keys[i]]];
    }
    assert keys[..|keys|] == keys;
  }
}
