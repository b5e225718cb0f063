/** Round-one and round-two packages of the key ceremony, as bytes that strangers may have written.

    Parsing a round either succeeds for all senders or names one culprit, always the least
    malformed sender, so that every honest oracle claims the same validator. */
module DkgPackages {
  import opened Wrappers
  import opened ByteCodec
  import opened FrostIds
  import opened Sorting

  const FROST_DKG_R2_PACKAGE_SIZE: nat := 37
  const ENCRYPTED_R2_SIZE: nat := 87 // nonce 24, box header 16, DKG until 8, sender 2, package 37

  // ----- round one -----

  datatype R1Outcome =
    | R1Parsed(packages: map<Identifier, Bytes>, publicKeys: map<uint16, Bytes>)
    | R1Culprit(r1Culprit: uint16)

  /** A 32-byte X25519 public key followed by at least one byte of FROST package. */
  predicate R1Ok(b: Bytes) {
    |b| >= 33
  }

  ghost function R1Bad(published: map<uint16, Bytes>): set<uint16> {
    set v: uint16 | v in published && !R1Ok(published[v])
  }

  function Tails(published: map<uint16, Bytes>): map<uint16, Bytes>
    requires forall v: uint16 | v in published :: R1Ok(published[v])
  {
    map v: uint16 | v in published :: assert R1Ok(published[v]); published[v][32..]
  }

  function PublicKeys(published: map<uint16, Bytes>): map<uint16, Bytes>
    requires forall v: uint16 | v in published :: R1Ok(published[v])
  {
    map v: uint16 | v in published :: assert R1Ok(published[v]); published[v][..32]
  }

  ghost function R1Parse(published: map<uint16, Bytes>): R1Outcome {
    if R1Bad(published) != {} then R1Culprit(LeastIdx(R1Bad(published)))
    else
      assert forall v: uint16 | v in published :: v !in R1Bad(published);
      R1Parsed(FrostMap(Tails(published)), PublicKeys(published))
  }

  method DeserializeDkgR1(published: map<uint16, Bytes>) returns (r: R1Outcome)
    ensures r == R1Parse(published)
  {
    var keys := ExtractSortedKeysFromMap(published);
    var tails: map<uint16, Bytes> := map[];
    var publicKeys: map<uint16, Bytes> := map[];
    for i := 0 to |keys|
      invariant forall k | 0 <= k < i :: keys[k] in publicKeys && keys[k] in tails
      invariant forall v | v in publicKeys :: v in published && R1Ok(published[v]) && publicKeys[v] == published[v][..32]
      invariant forall v | v in tails :: v in published && R1Ok(published[v]) && tails[v] == published[v][32..]
    {
      var v := keys[i];
      if |published[v]| < 33 {
        FirstBadIsLeast(published, i, R1Bad(published));
        return R1Culprit(v);
      }
      publicKeys := publicKeys[v := published[v][..32]];
      tails := tails[v := published[v][32..]];
    }
    forall v | v in published ensures v in publicKeys && v in tails {
      var k := SortedKeyOf(published, v);
    }
    assert R1Bad(published) == {};
    assert tails == Tails(published);
    assert publicKeys == PublicKeys(published);
    var packages := ConvertMapToFrostPackages(tails);
    return R1Parsed(packages, publicKeys);
  }

  /** Acceptance is exact: 33 bytes or more from everybody, of which the first 32 are the key; or else the
      least sender of fewer is the culprit. */
  lemma R1Exactly(published: map<uint16, Bytes>)
    ensures R1Parse(published).R1Parsed? <==> forall v: uint16 | v in published :: |published[v]| >= 33
    ensures R1Parse(published).R1Parsed? ==>
              var keys := R1Parse(published).publicKeys;
              keys.Keys == published.Keys && forall v | v in published :: keys[v] == published[v][..32]
    ensures R1Parse(published).R1Parsed? && (forall v | v in published :: !Bit7(v)) ==>
              var packages := R1Parse(published).packages;
              && (forall v | v in published ::
                    ValidatorIdxToFrost(v) in packages && packages[ValidatorIdxToFrost(v)] == published[v][32..])
              && forall id | id in packages :: exists v | v in published :: id == ValidatorIdxToFrost(v)
    ensures R1Parse(published).R1Culprit? ==>
              var culprit := R1Parse(published).r1Culprit;
              culprit in published && |published[culprit]| < 33
              && forall v | v in published && v < culprit :: |published[v]| >= 33
  {
    var bad := R1Bad(published);
    if bad == {} {
      forall v: uint16 | v in published ensures |published[v]| >= 33 {
        assert v !in bad;
      }
      if forall v | v in published :: !Bit7(v) {
        FrostMapExact(Tails(published));
      }
    } else {
      assert LeastIdx(bad) in bad;
      forall v | v in published && v < LeastIdx(bad) ensures |published[v]| >= 33 {
        assert v !in bad;
      }
    }
  }

  // ----- round two -----

  datatype R2Outcome =
    | R2Parsed(received: map<uint16, map<uint16, Bytes>>) // from sender, to recipient
    | R2Culprit(r2Culprit: uint16)
    | R2Nothing

  function Count(b: Bytes): uint16
    requires |b| >= 2
  {
    U16(b[..2])
  }

  /** A record is the recipient's index in two bytes and 87 bytes of ciphertext. */
  function RecordStart(k: nat): nat {
    2 + 89 * k
  }

  predicate HasRecord(b: Bytes, k: nat) {
    RecordStart(k + 1) <= |b|
  }

  function To(b: Bytes, k: nat): uint16
    requires HasRecord(b, k)
  {
    U16(b[RecordStart(k)..RecordStart(k) + 2])
  }

  function Pkg(b: Bytes, k: nat): Bytes
    requires HasRecord(b, k)
  {
    b[RecordStart(k) + 2..RecordStart(k + 1)]
  }

  /** The first `n` records, by recipient. */
  function Entries(b: Bytes, n: nat): (m: map<uint16, Bytes>)
    requires n > 0 ==> HasRecord(b, n - 1)
  {
    if n == 0 then map[] else Entries(b, n - 1)[To(b, n - 1) := Pkg(b, n - 1)]
  }

  predicate SizeOk(b: Bytes) {
    |b| >= 2 && |b| == RecordStart(Count(b))
  }

  /** One package for every validator of the set except the sender, and nothing else. */
  ghost predicate SenderOk(from: uint16, b: Bytes, vset: set<uint16>) {
    && from in vset
    && SizeOk(b)
    && (forall k | 0 <= k < Count(b) :: To(b, k) in vset && To(b, k) != from)
    && DistinctRecipients(b, Count(b))
    && Count(b) == |vset| - 1
  }

  ghost function R2Bad(published: map<uint16, Bytes>, vset: set<uint16>): set<uint16> {
    set v: uint16 | v in published && !SenderOk(v, published[v], vset)
  }

  ghost function AllEntries(published: map<uint16, Bytes>): map<uint16, map<uint16, Bytes>>
    requires forall v: uint16 | v in published :: SizeOk(published[v])
  {
    map v: uint16 | v in published :: assert SizeOk(published[v]); Entries(published[v], Count(published[v]))
  }

  ghost function R2Parse(published: map<uint16, Bytes>, vset: set<uint16>): R2Outcome {
    if published == map[] then R2Nothing
    else if R2Bad(published, vset) != {} then R2Culprit(LeastIdx(R2Bad(published, vset)))
    else
      assert forall v: uint16 | v in published :: v !in R2Bad(published, vset);
      R2Parsed(AllEntries(published))
  }

  ghost predicate Addressed(b: Bytes, n: nat, v: uint16)
    requires n > 0 ==> HasRecord(b, n - 1)
  {
    exists k :: 0 <= k < n && To(b, k) == v
  }

  ghost predicate DistinctRecipients(b: Bytes, n: nat)
    requires n > 0 ==> HasRecord(b, n - 1)
  {
    forall j, k | 0 <= j < k < n :: To(b, j) != To(b, k)
  }

  lemma {:induction false} EntriesKeys(b: Bytes, n: nat)
    requires n > 0 ==> HasRecord(b, n - 1)
    ensures forall v :: v in Entries(b, n) <==> Addressed(b, n, v)
  {
    if n > 0 {
      EntriesKeys(b, n - 1);
      forall v: uint16 ensures Addressed(b, n, v) <==> Addressed(b, n - 1, v) || v == To(b, n - 1) {
        if v == To(b, n - 1) {
          assert To(b, n - 1) == v;
        }
      }
    }
  }

  lemma {:induction false} EntryOf(b: Bytes, n: nat, j: nat)
    requires j < n && HasRecord(b, n - 1)
    ensures HasRecord(b, j) && To(b, j) in Entries(b, n)
  {
    if j < n - 1 {
      EntryOf(b, n - 1, j);
    }
  }

  lemma {:induction false} EntriesDistinct(b: Bytes, n: nat)
    requires n > 0 ==> HasRecord(b, n - 1)
    requires DistinctRecipients(b, n)
    ensures |Entries(b, n)| == n
    ensures forall k | 0 <= k < n :: To(b, k) in Entries(b, n) && Entries(b, n)[To(b, k)] == Pkg(b, k)
  {
    if n > 0 {
      EntriesDistinct(b, n - 1);
      EntriesKeys(b, n - 1);
      assert !Addressed(b, n - 1, To(b, n - 1));
      forall k | 0 <= k < n ensures To(b, k) in Entries(b, n) && Entries(b, n)[To(b, k)] == Pkg(b, k) {
        LastEntryFor(b, n, k);
      }
    }
  }

  /** The last record for a recipient is its entry. */
  lemma {:induction false} LastEntryFor(b: Bytes, n: nat, k: nat)
    requires k < n && HasRecord(b, n - 1) && forall j | k < j < n :: To(b, j) != To(b, k)
    ensures HasRecord(b, k) && To(b, k) in Entries(b, n) && Entries(b, n)[To(b, k)] == Pkg(b, k)
  {
    if k < n - 1 {
      LastEntryFor(b, n - 1, k);
      assert To(b, n - 1) != To(b, k);
    }
  }

  /** Pigeonhole: distinct recipients, all in the set, none the sender, one fewer than the set. */
  lemma RecipientsExact(from: uint16, b: Bytes, vset: set<uint16>)
    requires SenderOk(from, b, vset)
    ensures Entries(b, Count(b)).Keys == vset - {from}
  {
    EntriesKeys(b, Count(b));
    EntriesDistinct(b, Count(b));
    SubsetSize(Entries(b, Count(b)).Keys, vset - {from});
  }

  /** The first `n` records are for different validators of the set, none of them the sender. */
  ghost predicate RecordsOk(from: uint16, b: Bytes, n: nat, vset: set<uint16>)
    requires n > 0 ==> HasRecord(b, n - 1)
  {
    (forall k | 0 <= k < n :: To(b, k) in vset && To(b, k) != from) && DistinctRecipients(b, n)
  }

  lemma RecordsNext(from: uint16, b: Bytes, k: nat, vset: set<uint16>)
    requires HasRecord(b, k) && RecordsOk(from, b, k, vset)
    ensures RecordsOk(from, b, k + 1, vset) <==> To(b, k) in vset && To(b, k) != from && To(b, k) !in Entries(b, k)
  {
    if To(b, k) in Entries(b, k) {
      EntriesKeys(b, k);
      var j :| 0 <= j < k && To(b, j) == To(b, k);
    } else {
      forall j | 0 <= j < k ensures To(b, j) != To(b, k) {
        EntryOf(b, k, j);
      }
    }
  }

  lemma RecordsPrefix(from: uint16, b: Bytes, k: nat, n: nat, vset: set<uint16>)
    requires k <= n && (n > 0 ==> HasRecord(b, n - 1)) && RecordsOk(from, b, n, vset)
    ensures RecordsOk(from, b, k, vset)
  {
  }

  method ParseRecords(from: uint16, b: Bytes, vset: set<uint16>, packagesCount: nat) returns (r: Option<map<uint16, Bytes>>)
    requires |b| == RecordStart(packagesCount)
    ensures r.Some? <==> RecordsOk(from, b, packagesCount, vset)
    ensures r.Some? ==> r.value == Entries(b, packagesCount)
  {
    var toValidatorData: map<uint16, Bytes> := map[];
    var readOffset := 2;
    for k := 0 to packagesCount
      invariant readOffset == RecordStart(k)
      invariant k > 0 ==> HasRecord(b, k - 1)
      invariant toValidatorData == Entries(b, k) && RecordsOk(from, b, k, vset)
    {
      assert HasRecord(b, k);
      RecordsNext(from, b, k, vset);
      var to := U16(b[readOffset..readOffset + 2]);
      readOffset := readOffset + 2;
      if to !in vset || to == from || to in toValidatorData {
        if RecordsOk(from, b, packagesCount, vset) {
          RecordsPrefix(from, b, k + 1, packagesCount, vset);
        }
        return None;
      }
      toValidatorData := toValidatorData[to := b[readOffset..readOffset + ENCRYPTED_R2_SIZE]];
      readOffset := readOffset + ENCRYPTED_R2_SIZE;
    }
    return Some(toValidatorData);
  }

  /** One sender's packages; `None` makes the sender the culprit. Never reads outside `b`. */
  method ParseSender(from: uint16, b: Bytes, vset: set<uint16>) returns (r: Option<map<uint16, Bytes>>)
    ensures r.Some? <==> SenderOk(from, b, vset)
    ensures r.Some? ==> r.value == Entries(b, Count(b))
  {
    if from !in vset || |b| < 2 {
      return None;
    }
    var packagesCount := U16(b[0..2]);
    if |b| - 2 != packagesCount * (2 + ENCRYPTED_R2_SIZE) {
      return None;
    }
    r := ParseRecords(from, b, vset, packagesCount);
    if r == None {
      return None;
    }
    EntriesDistinct(b, packagesCount);
    if |r.value| != |vset| - 1 {
      return None;
    }
  }

  lemma AllReceived(published: map<uint16, Bytes>, vset: set<uint16>, received: map<uint16, map<uint16, Bytes>>)
    requires published != map[] && forall v | v in published :: v in received
    requires forall v | v in received ::
               && v in published && SenderOk(v, published[v], vset)
               && received[v] == Entries(published[v], Count(published[v]))
    ensures R2Parse(published, vset) == R2Parsed(received)
  {
    assert R2Bad(published, vset) == {};
    assert received == AllEntries(published);
  }

  method DeserializeDkgR2(published: map<uint16, Bytes>, vset: set<uint16>) returns (r: R2Outcome)
    ensures r == R2Parse(published, vset)
  {
    if published == map[] {
      return R2Nothing;
    }
    var keys := ExtractSortedKeysFromMap(published);
    var received: map<uint16, map<uint16, Bytes>> := map[];
    for i := 0 to |keys|
      invariant forall k | 0 <= k < i :: keys[k] in received
      invariant forall v | v in received ::
                  && v in published && SenderOk(v, published[v], vset)
                  && received[v] == Entries(published[v], Count(published[v]))
    {
      var from := keys[i];
      var toPackages := ParseSender(from, published[from], vset);
      if toPackages == None {
        FirstBadIsLeast(published, i, R2Bad(published, vset));
        return R2Culprit(from);
      }
      received := received[from := toPackages.value];
    }
    forall v | v in published ensures v in received {
      var k := SortedKeyOf(published, v);
    }
    AllReceived(published, vset, received);
    return R2Parsed(received);
  }

  /** Acceptance is exact, and then everybody's packages reach exactly everybody else. */
  lemma R2Exact(published: map<uint16, Bytes>, vset: set<uint16>)
    requires published != map[]
    ensures R2Parse(published, vset).R2Parsed? <==> forall v: uint16 | v in published :: SenderOk(v, published[v], vset)
    ensures R2Parse(published, vset).R2Parsed? ==>
              var received := R2Parse(published, vset).received;
              received.Keys == published.Keys && forall v | v in received :: received[v].Keys == vset - {v}
    ensures R2Parse(published, vset).R2Culprit? ==>
              var culprit := R2Parse(published, vset).r2Culprit;
              culprit in published && !SenderOk(culprit, published[culprit], vset)
              && forall v | v in published && v < culprit :: SenderOk(v, published[v], vset)
  {
    var bad := R2Bad(published, vset);
    if bad == {} {
      forall v | v in published ensures SenderOk(v, published[v], vset) {
        assert v !in bad;
      }
      forall v | v in published ensures Entries(published[v], Count(published[v])).Keys == vset - {v} {
        RecipientsExact(v, published[v], vset);
      }
    } else {
      assert LeastIdx(bad) in bad;
      forall v | v in published && v < LeastIdx(bad) ensures SenderOk(v, published[v], vset) {
        assert v !in bad;
      }
    }
  }

  // ----- what an honest sender writes -----

  function Records(keys: seq<uint16>, m: map<uint16, Bytes>): seq<Bytes>
    requires forall i | 0 <= i < |keys| :: keys[i] in m
  {
    seq(|keys|, i requires 0 <= i < |keys| => BE(keys[i], 2) + m[keys[i]])
  }

  ghost function Serialized(m: map<uint16, Bytes>): Bytes {
    BE(|m|, 2) + Concat(Records(SortedKeys(m), m))
  }

  method SerializeR2Packages(m: map<uint16, Bytes>) returns (b: Bytes)
    ensures b == Serialized(m)
  {
    b := BE(|m|, 2);
    var keys := ExtractSortedKeysFromMap(m);
    ghost var records := Records(keys, m);
    for i := 0 to |keys|
      invariant b == BE(|m|, 2) + Concat(records[..i])
    {
      ConcatSnoc(records[..i], records[i]);
      assert records[..i + 1] == records[..i] + [records[i]];
      b := b + BE(keys[i], 2);
      b := b + m[keys[i]];
    }
    assert records[..|keys|] == records;
  }

  lemma SerializedRecord(m: map<uint16, Bytes>, k: nat)
    requires |m| < 0x1_0000 && k < |m|
    requires forall v | v in m :: |m[v]| == ENCRYPTED_R2_SIZE
    ensures |SortedKeys(m)| == |m| && |Serialized(m)| == RecordStart(|m|)
    ensures HasRecord(Serialized(m), k)
    ensures SortedKeys(m)[k] in m
    ensures To(Serialized(m), k) == SortedKeys(m)[k]
    ensures Pkg(Serialized(m), k) == m[SortedKeys(m)[k]]
  {
    var keys := SortedKeys(m);
    SortedKeysSort(m);
    var records := Records(keys, m);
    ConcatUniform(records, 89, k);
    var b := Serialized(m);
    var record := records[k];
    assert b[2..] == Concat(records);
    assert b[RecordStart(k)..RecordStart(k + 1)] == record;
    assert b[RecordStart(k)..RecordStart(k) + 2] == record[..2] == BE(keys[k], 2);
    assert Pkg(b, k) == record[2..] == m[keys[k]];
    U16RoundTrip(keys[k]);
  }

  lemma SerializedRecords(m: map<uint16, Bytes>)
    requires |m| < 0x1_0000
    requires forall v | v in m :: |m[v]| == ENCRYPTED_R2_SIZE
    ensures |SortedKeys(m)| == |m| && |Serialized(m)| == RecordStart(|m|)
    ensures SizeOk(Serialized(m)) && Count(Serialized(m)) == |m|
    ensures forall k | 0 <= k < |m| ::
              && SortedKeys(m)[k] in m
              && To(Serialized(m), k) == SortedKeys(m)[k]
              && Pkg(Serialized(m), k) == m[SortedKeys(m)[k]]
    ensures DistinctRecipients(Serialized(m), |m|)
  {
    SortedKeysSort(m);
    U16RoundTrip(|m|);
    assert Serialized(m)[..2] == BE(|m|, 2);
    if m == map[] {
      assert Records(SortedKeys(m), m) == [];
    }
    forall k | 0 <= k < |m|
      ensures HasRecord(Serialized(m), k) && |Serialized(m)| == RecordStart(|m|)
      ensures SortedKeys(m)[k] in m && To(Serialized(m), k) == SortedKeys(m)[k]
      ensures Pkg(Serialized(m), k) == m[SortedKeys(m)[k]]
    {
      SerializedRecord(m, k);
    }
    forall j, k | 0 <= j < k < |m| ensures To(Serialized(m), j) != To(Serialized(m), k) {
      SortedKeysDistinct(m, j, k);
    }
  }

  /** The wire, byte by byte: the count high byte first, then for each recipient, ascending, its index high
      byte first and its 87 bytes. */
  lemma WireSpelled(m: map<uint16, Bytes>, k: nat) returns (v: uint16)
    requires |m| < 0x1_0000 && k < |m|
    requires forall v | v in m :: |m[v]| == 87
    ensures var b := Serialized(m);
            && |b| == 2 + 89 * |m| && b[0] == |m| / 256 && b[1] == |m| % 256
            && v in m && b[2 + 89 * k] == v / 256 && b[3 + 89 * k] == v % 256
            && b[4 + 89 * k..91 + 89 * k] == m[v]
            && (k > 0 ==> 256 * b[2 + 89 * (k - 1)] + b[3 + 89 * (k - 1)] < v)
  {
    RecordSpelled(m, k);
    v := SortedKeys(m)[k];
    TwoBytes(|m|);
    assert Serialized(m)[..2] == BE(|m|, 2);
    if k > 0 {
      RecordSpelled(m, k - 1);
      SortedKeysDistinct(m, k - 1, k);
    }
  }

  lemma RecordSpelled(m: map<uint16, Bytes>, k: nat)
    requires |m| < 0x1_0000 && k < |m|
    requires forall v | v in m :: |m[v]| == 87
    ensures |SortedKeys(m)| == |m| && |Serialized(m)| == 2 + 89 * |m|
    ensures var v := SortedKeys(m)[k]; var b := Serialized(m);
            v in m && b[2 + 89 * k] == v / 256 && b[3 + 89 * k] == v % 256 && b[4 + 89 * k..91 + 89 * k] == m[v]
  {
    SerializedRecord(m, k);
    var b := Serialized(m);
    var head := b[RecordStart(k)..RecordStart(k) + 2];
    BEOfFromBE(head);
    TwoBytes(SortedKeys(m)[k]);
    assert head[0] == b[2 + 89 * k] && head[1] == b[3 + 89 * k];
  }

  lemma TwoBytes(n: uint16)
    ensures BE(n, 2) == [n / 256, n % 256]
  {
    assert BE(n / 256, 1) == BE(n / 256 / 256, 0) + [n / 256 % 256];
    assert BE(n, 2) == BE(n / 256, 1) + [n % 256];
  }

  /** Reading the records back gives the map that was written. */
  lemma SerializedRoundTrip(m: map<uint16, Bytes>)
    requires |m| < 0x1_0000
    requires forall v | v in m :: |m[v]| == ENCRYPTED_R2_SIZE
    ensures SizeOk(Serialized(m)) && Count(Serialized(m)) == |m|
    ensures Entries(Serialized(m), |m|) == m
  {
    var b, keys := Serialized(m), SortedKeys(m);
    SerializedRecords(m);
    EntriesKeys(b, |m|);
    EntriesDistinct(b, |m|);
    forall v | v in m ensures v in Entries(b, |m|) && Entries(b, |m|)[v] == m[v] {
      var k := SortedKeyOf(m, v);
      assert To(b, k) == v;
    }
    forall v | v in Entries(b, |m|) ensures v in m {
      assert Addressed(b, |m|, v);
    }
  }

  /** A sender who wrote one package for each other validator is never malformed. */
  lemma HonestSenderOk(from: uint16, m: map<uint16, Bytes>, vset: set<uint16>)
    requires from in vset && m.Keys == vset - {from} && |m| < 0x1_0000
    requires forall v | v in m :: |m[v]| == ENCRYPTED_R2_SIZE
    ensures SenderOk(from, Serialized(m), vset)
  {
    SerializedRecords(m);
    assert |m.Keys| == |vset| - 1;
  }
}
