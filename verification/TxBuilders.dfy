/** The oracle and the indexer each build the pegout transaction from the same parts: one to know
    what to sign, the other to send it. The inputs come in a map, listed in any order. */
module TxBuilders {
  import opened Wrappers
  import opened ByteCodec
  import opened Sorting
  import Hex

  const VERSION: nat := 2
  const SEQUENCE: nat := 0xFFFF_FFFD

  datatype TxPartsInput = TxPartsInput(amount: nat, index: nat, merkleRoot: Bytes, script: Bytes)

  datatype TxPartsOutput = TxPartsOutput(amount: nat, script: Bytes)

  datatype TxParts = TxParts(
    inputs: map<string, TxPartsInput>,
    outputs: seq<TxPartsOutput>,
    signatures: map<string, Bytes>,
    internalKey: Bytes
  )

  datatype TxInput = TxInput(hash: Bytes, data: TxPartsInput)

  datatype OutPoint = OutPoint(hash: Bytes, index: nat)

  datatype TxIn = TxIn(prev: OutPoint, sequence: nat)

  datatype TxOut = TxOut(value: int64, script: Bytes)

  datatype MsgTx = MsgTx(version: nat, ins: seq<TxIn>, outs: seq<TxOut>)

  datatype PInput = PInput(utxo: TxOut, internalKey: Bytes, merkleRoot: Option<Bytes>, signature: Bytes)

  /** What a taproot signature hash depends on: the transaction, the outputs spent, the position. */
  type SigHash = (MsgTx, map<OutPoint, TxOut>, nat) -> Option<Bytes>

  // ----- order -----

  /** `bytes.Compare(a, b) <= 0`. */
  predicate LexLe(a: seq<int>, b: seq<int>) {
    a == [] || (b != [] && (a[0] < b[0] || (a[0] == b[0] && LexLe(a[1..], b[1..]))))
  }

  lemma {:induction false} LexTotal(a: seq<int>, b: seq<int>)
    ensures LexLe(a, b) || LexLe(b, a)
    ensures LexLe(a, b) && LexLe(b, a) ==> a == b
    decreases |a|
  {
    if a != [] && b != [] && a[0] == b[0] {
      LexTotal(a[1..], b[1..]);
      assert a == [a[0]] + a[1..] && b == [b[0]] + b[1..];
    }
  }

  lemma {:induction false} LexTransitive(a: seq<int>, b: seq<int>, c: seq<int>)
    requires LexLe(a, b) && LexLe(b, c)
    ensures LexLe(a, c)
    decreases |a|
  {
    if a != [] && a[0] == b[0] == c[0] {
      LexTransitive(a[1..], b[1..], c[1..]);
    }
  }

  function HashLe(): (Bytes, Bytes) -> bool {
    (a: Bytes, b: Bytes) => LexLe(a, b)
  }

  lemma HashTotal(s: set<Bytes>)
    ensures TotalOn(HashLe(), s)
  {
    var le := HashLe();
    forall a, b | a in s && b in s ensures (le(a, b) || le(b, a)) && (le(a, b) && le(b, a) ==> a == b) {
      LexTotal(a, b);
    }
    forall a, b, c | a in s && b in s && c in s && le(a, b) && le(b, c) ensures le(a, c) {
      LexTransitive(a, b, c);
    }
  }

  // ----- the parsed dictionary -----

  /** How the parser writes a 256-bit dictionary key: in lower-case hex. */
  function ParseKey(hash: Bytes): string {
    Hex.Encode(hash)
  }

  ghost predicate IsKey(k: string) {
    Hex.Decode(k).Some? && |Hex.Decode(k).value| == 32 && ParseKey(Hex.Decode(k).value) == k
  }

  /** A map as the parser makes it. */
  ghost predicate Canonical(inputs: map<string, TxPartsInput>) {
    forall k | k in inputs :: IsKey(k)
  }

  ghost function Hashes(inputs: map<string, TxPartsInput>): (s: set<Bytes>)
    requires Canonical(inputs)
    ensures forall k | k in inputs :: Hex.Decode(k).value in s
    ensures forall h | h in s :: ParseKey(h) in inputs && Hex.Decode(ParseKey(h)) == Some(h) && |h| == 32
  {
    set k | k in inputs :: Hex.Decode(k).value
  }

  /** The dictionary it was made from. */
  ghost function DictOf(inputs: map<string, TxPartsInput>): map<Bytes, TxPartsInput>
    requires Canonical(inputs)
  {
    map h | h in Hashes(inputs) :: inputs[ParseKey(h)]
  }

  /** Whatever was parsed is canonical, and stands for what it was parsed from. */
  lemma ParsedIsCanonical(dict: map<Bytes, TxPartsInput>, inputs: map<string, TxPartsInput>)
    requires forall h | h in dict :: |h| == 32 && ParseKey(h) in inputs && inputs[ParseKey(h)] == dict[h]
    requires forall k | k in inputs :: exists h | h in dict :: ParseKey(h) == k
    ensures Canonical(inputs) && DictOf(inputs) == dict
  {
    forall h | h in dict ensures Hex.Decode(ParseKey(h)) == Some(h) {
      Hex.RoundTrip(h);
    }
    assert Canonical(inputs);
    forall h ensures h in Hashes(inputs) <==> h in dict {
      if h in Hashes(inputs) {
        var h' :| h' in dict && ParseKey(h') == ParseKey(h);
      }
    }
  }

  ghost function SortedHashes(dict: map<Bytes, TxPartsInput>): seq<Bytes> {
    HashTotal(dict.Keys);
    SortSet(dict.Keys, HashLe())
  }

  lemma SortedHashesSort(dict: map<Bytes, TxPartsInput>)
    ensures IsSortOf(SortedHashes(dict), dict.Keys, HashLe())
    ensures forall i | 0 <= i < |SortedHashes(dict)| :: SortedHashes(dict)[i] in dict
  {
    HashTotal(dict.Keys);
    SortSetSorts(dict.Keys, HashLe());
    forall i | 0 <= i < |SortedHashes(dict)| ensures SortedHashes(dict)[i] in dict {
      assert SortedHashes(dict)[i] in Elements(SortedHashes(dict));
    }
  }

  // ----- the inputs in order -----

  function ByHash(): (TxInput, TxInput) -> bool {
    (a: TxInput, b: TxInput) => LexLe(a.hash, b.hash)
  }

  ghost function SortedInputs(dict: map<Bytes, TxPartsInput>): seq<TxInput> {
    SortedHashesSort(dict);
    var hashes := SortedHashes(dict);
    seq(|hashes|, i requires 0 <= i < |hashes| => TxInput(hashes[i], dict[hashes[i]]))
  }

  ghost function InputSet(dict: map<Bytes, TxPartsInput>): set<TxInput> {
    set h | h in dict :: TxInput(h, dict[h])
  }

  lemma InputsTotal(dict: map<Bytes, TxPartsInput>)
    ensures TotalOn(ByHash(), InputSet(dict))
  {
    HashTotal(dict.Keys);
    var le := HashLe();
    var s := InputSet(dict);
    forall x, y | x in s && y in s
      ensures (ByHash()(x, y) || ByHash()(y, x)) && (ByHash()(x, y) && ByHash()(y, x) ==> x == y)
    {
      assert le(x.hash, y.hash) || le(y.hash, x.hash);
    }
    forall x, y, z | x in s && y in s && z in s && ByHash()(x, y) && ByHash()(y, z) ensures ByHash()(x, z) {
      assert le(x.hash, y.hash) && le(y.hash, z.hash);
    }
  }

  lemma SortedInputsSort(dict: map<Bytes, TxPartsInput>)
    ensures IsSortOf(SortedInputs(dict), InputSet(dict), ByHash())
  {
    SortedHashesSort(dict);
    var hashes := SortedHashes(dict);
    var xs := SortedInputs(dict);
    forall x | x in InputSet(dict) ensures x in Elements(xs) {
      assert x.hash in Elements(hashes);
      var i :| 0 <= i < |hashes| && hashes[i] == x.hash;
      assert xs[i] == x;
    }
    forall i, j | 0 <= i < j < |xs| ensures ByHash()(xs[i], xs[j]) {
      assert HashLe()(hashes[i], hashes[j]);
    }
  }

  // ----- the transaction both are meant to build -----

  function InputOf(x: TxInput): TxIn {
    TxIn(OutPoint(x.hash, x.data.index), SEQUENCE)
  }

  function Spent(data: TxPartsInput): TxOut {
    TxOut(Int64(data.amount), data.script)
  }

  function OutputsOf(outputs: seq<TxPartsOutput>): seq<TxOut> {
    seq(|outputs|, i requires 0 <= i < |outputs| => TxOut(Int64(outputs[i].amount), outputs[i].script))
  }

  function TxOf(sorted: seq<TxInput>, outputs: seq<TxPartsOutput>): MsgTx {
    MsgTx(VERSION, seq(|sorted|, i requires 0 <= i < |sorted| => InputOf(sorted[i])), OutputsOf(outputs))
  }

  ghost function UnsignedTx(dict: map<Bytes, TxPartsInput>, outputs: seq<TxPartsOutput>): MsgTx {
    TxOf(SortedInputs(dict), outputs)
  }

  function PrevOf(sorted: seq<TxInput>): map<OutPoint, TxOut> {
    if sorted == [] then map[]
    else
      var x := sorted[|sorted| - 1];
      PrevOf(sorted[..|sorted| - 1])[OutPoint(x.hash, x.data.index) := Spent(x.data)]
  }

  /** Every output spent, by what spends it. */
  ghost function PrevOuts(dict: map<Bytes, TxPartsInput>): map<OutPoint, TxOut> {
    PrevOf(SortedInputs(dict))
  }

  lemma {:induction false} PrevOfExact(sorted: seq<TxInput>)
    requires forall i, j | 0 <= i < j < |sorted| :: sorted[i].hash != sorted[j].hash
    ensures forall i | 0 <= i < |sorted| ::
              var p := InputOf(sorted[i]).prev; p in PrevOf(sorted) && PrevOf(sorted)[p] == Spent(sorted[i].data)
    ensures forall p | p in PrevOf(sorted) :: exists i | 0 <= i < |sorted| :: InputOf(sorted[i]).prev == p
  {
    if sorted != [] {
      var n := |sorted| - 1;
      PrevOfExact(sorted[..n]);
      forall p | p in PrevOf(sorted) ensures exists i | 0 <= i < |sorted| :: InputOf(sorted[i]).prev == p {
        if p != InputOf(sorted[n]).prev {
          assert p in PrevOf(sorted[..n]);
          var i :| 0 <= i < |sorted[..n]| && InputOf(sorted[..n][i]).prev == p;
          assert InputOf(sorted[i]).prev == p;
        }
      }
      forall i | 0 <= i < |sorted|
        ensures var p := InputOf(sorted[i]).prev; p in PrevOf(sorted) && PrevOf(sorted)[p] == Spent(sorted[i].data)
      {
        if i < n {
          assert sorted[..n][i] == sorted[i];
        }
      }
    }
  }

  // ----- the oracle -----

  lemma ListedAreInputs(inputs: map<string, TxPartsInput>, listed: seq<TxInput>)
    requires Canonical(inputs)
    requires forall k | k in inputs :: TxInput(Hex.Decode(k).value, inputs[k]) in listed
    requires forall x | x in listed :: x.hash in Hashes(inputs) && x.data == inputs[ParseKey(x.hash)]
    ensures Elements(listed) == InputSet(DictOf(inputs))
  {
    var dict := DictOf(inputs);
    forall x | x in InputSet(dict) ensures x in Elements(listed) {
      var k := ParseKey(x.hash);
      assert k in inputs && TxInput(Hex.Decode(k).value, inputs[k]) in listed;
    }
    forall x | x in Elements(listed) ensures x in InputSet(dict) {
      assert x.hash in dict && x == TxInput(x.hash, dict[x.hash]);
    }
  }

  /** Entries of the map, none twice, none of those still to come. */
  ghost predicate ListedOnce(inputs: map<string, TxPartsInput>, listed: seq<TxInput>, todo: set<string>)
    requires Canonical(inputs)
  {
    && Distinct(listed)
    && forall x | x in listed ::
         ParseKey(x.hash) !in todo && x.hash in Hashes(inputs) && x.data == inputs[ParseKey(x.hash)]
  }

  lemma ListNext(inputs: map<string, TxPartsInput>, listed: seq<TxInput>, todo: set<string>, k: string)
    requires Canonical(inputs) && k in inputs && k !in todo && ListedOnce(inputs, listed, todo + {k})
    ensures ListedOnce(inputs, listed + [TxInput(Hex.Decode(k).value, inputs[k])], todo)
  {
    assert IsKey(k);
    var x := TxInput(Hex.Decode(k).value, inputs[k]);
    forall y | y in listed ensures y != x {
      assert ParseKey(y.hash) != k && ParseKey(x.hash) == k;
    }
    ListMore(listed, x);
  }

  method ListInputs(inputs: map<string, TxPartsInput>) returns (r: Option<seq<TxInput>>)
    ensures r.None? <==> exists k | k in inputs :: Hex.Decode(k).None?
    ensures r.Some? ==> forall k | k in inputs :: TxInput(Hex.Decode(k).value, inputs[k]) in r.value
    ensures Canonical(inputs) ==> Distinct(r.value) && Elements(r.value) == InputSet(DictOf(inputs))
  {
    var listed: seq<TxInput> := [];
    var todo := inputs.Keys;
    while todo != {}
      invariant todo <= inputs.Keys
      invariant forall k | k in inputs && k !in todo ::
                  Hex.Decode(k).Some? && TxInput(Hex.Decode(k).value, inputs[k]) in listed
      invariant Canonical(inputs) ==> ListedOnce(inputs, listed, todo)
      decreases |todo|
    {
      var k :| k in todo;
      assert todo == todo - {k} + {k};
      todo := todo - {k};
      var hash := Hex.Decode(k);
      if hash == None {
        return None;
      }
      if Canonical(inputs) {
        ListNext(inputs, listed, todo, k);
      }
      listed := listed + [TxInput(hash.value, inputs[k])];
    }
    if Canonical(inputs) {
      ListedAreInputs(inputs, listed);
    }
    return Some(listed);
  }

  method ToSortedSlice(inputs: map<string, TxPartsInput>) returns (r: Option<seq<TxInput>>)
    ensures r.None? <==> exists k | k in inputs :: Hex.Decode(k).None?
    ensures r.Some? ==> forall k | k in inputs :: TxInput(Hex.Decode(k).value, inputs[k]) in r.value
    ensures Canonical(inputs) ==> r == Some(SortedInputs(DictOf(inputs)))
  {
    var listed := ListInputs(inputs);
    if listed == None {
      return None;
    }
    var sorted := Sort(listed.value, ByHash());
    forall x | x in listed.value ensures x in sorted {
      assert x in multiset(listed.value) && x in multiset(sorted);
    }
    if Canonical(inputs) {
      SortedIs(sorted, DictOf(inputs));
    }
    return Some(sorted);
  }

  lemma SortedIs(sorted: seq<TxInput>, dict: map<Bytes, TxPartsInput>)
    requires TotalOn(ByHash(), InputSet(dict)) ==> IsSortOf(sorted, InputSet(dict), ByHash())
    ensures sorted == SortedInputs(dict)
  {
    InputsTotal(dict);
    SortedInputsSort(dict);
    SortUnique(sorted, SortedInputs(dict), InputSet(dict), ByHash());
  }

  /** The hash constructor takes 32 bytes and nothing else. */
  ghost predicate BadKey(k: string) {
    Hex.Decode(k).None? || |Hex.Decode(k).value| != 32
  }

  method BuildTx(sorted: seq<TxInput>, outputs: seq<TxPartsOutput>) returns (r: Option<(MsgTx, map<OutPoint, TxOut>)>)
    ensures r == if exists i | 0 <= i < |sorted| :: |sorted[i].hash| != 32 then None
                 else Some((TxOf(sorted, outputs), PrevOf(sorted)))
    ensures r.Some? ==>
              var tx := r.value.0;
              && |tx.ins| == |sorted| && |tx.outs| == |outputs|
              && (forall i | 0 <= i < |sorted| ::
                    tx.ins[i] == TxIn(OutPoint(sorted[i].hash, sorted[i].data.index), 0xFFFF_FFFD))
              && forall i | 0 <= i < |outputs| ::
                   Carries(tx.outs[i].value, outputs[i].amount) && tx.outs[i].script == outputs[i].script
  {
    var tx := MsgTx(VERSION, [], []);
    var prevOutputFetcher: map<OutPoint, TxOut> := map[];
    for i := 0 to |sorted|
      invariant tx == TxOf(sorted[..i], []) && prevOutputFetcher == PrevOf(sorted[..i])
      invariant forall j | 0 <= j < i :: |sorted[j].hash| == 32
    {
      var x := sorted[i];
      if |x.hash| != 32 {
        return None;
      }
      var outPoint := OutPoint(x.hash, x.data.index);
      tx := tx.(ins := tx.ins + [TxIn(outPoint, SEQUENCE)]);
      prevOutputFetcher := prevOutputFetcher[outPoint := Spent(x.data)];
      assert sorted[..i + 1] == sorted[..i] + [x];
      assert sorted[..i + 1][..i] == sorted[..i];
    }
    assert sorted[..|sorted|] == sorted;
    for i := 0 to |outputs|
      invariant tx == TxOf(sorted, outputs[..i])
    {
      tx := tx.(outs := tx.outs + [TxOut(Int64(outputs[i].amount), outputs[i].script)]);
    }
    assert outputs[..|outputs|] == outputs;
    return Some((tx, prevOutputFetcher));
  }

  /** One digest for each input; none at all if one cannot be computed. */
  ghost function Digests(sighash: SigHash, tx: MsgTx, prev: map<OutPoint, TxOut>): Option<seq<Bytes>> {
    if exists i | 0 <= i < |tx.ins| :: sighash(tx, prev, i).None? then None
    else
      Some(seq(|tx.ins|, i requires 0 <= i < |tx.ins| => sighash(tx, prev, i).value))
  }

  method SignAll(sighash: SigHash, tx: MsgTx, prev: map<OutPoint, TxOut>) returns (r: Option<seq<Bytes>>)
    ensures r == Digests(sighash, tx, prev)
  {
    var sigHashes: seq<Bytes> := [];
    for i := 0 to |tx.ins|
      invariant |sigHashes| == i
      invariant forall j | 0 <= j < i :: sighash(tx, prev, j) == Some(sigHashes[j])
    {
      var sigHash := sighash(tx, prev, i);
      if sigHash == None {
        return None;
      }
      sigHashes := sigHashes + [sigHash.value];
    }
    assert Digests(sighash, tx, prev).value == sigHashes;
    return Some(sigHashes);
  }

  lemma NoBadKeys(inputs: map<string, TxPartsInput>, sorted: seq<TxInput>)
    requires forall k | k in inputs :: Hex.Decode(k).Some? && TxInput(Hex.Decode(k).value, inputs[k]) in sorted
    requires forall i | 0 <= i < |sorted| :: |sorted[i].hash| == 32
    ensures forall k | k in inputs :: !BadKey(k)
  {
    forall k | k in inputs ensures !BadKey(k) {
      var i :| 0 <= i < |sorted| && sorted[i] == TxInput(Hex.Decode(k).value, inputs[k]);
    }
  }

  lemma HashesAre32(inputs: map<string, TxPartsInput>)
    requires Canonical(inputs)
    ensures forall i | 0 <= i < |SortedInputs(DictOf(inputs))| :: |SortedInputs(DictOf(inputs))[i].hash| == 32
  {
    var dict := DictOf(inputs);
    SortedHashesSort(dict);
    forall i | 0 <= i < |SortedHashes(dict)| ensures |SortedHashes(dict)[i]| == 32 {
      assert SortedHashes(dict)[i] in Hashes(inputs);
    }
  }

  method BuildTaprootSigningHashes(inputs: map<string, TxPartsInput>, outputs: seq<TxPartsOutput>, sighash: SigHash)
    returns (r: Option<seq<Bytes>>)
    ensures (exists k | k in inputs :: BadKey(k)) ==> r.None?
    ensures Canonical(inputs) ==>
              r == Digests(sighash, UnsignedTx(DictOf(inputs), outputs), PrevOuts(DictOf(inputs)))
  {
    var sorted := ToSortedSlice(inputs);
    if sorted == None {
      return None;
    }
    if Canonical(inputs) {
      HashesAre32(inputs);
    }
    var built := BuildTx(sorted.value, outputs);
    if built == None {
      return None;
    }
    NoBadKeys(inputs, sorted.value);
    r := SignAll(sighash, built.value.0, built.value.1);
  }

  // ----- the indexer -----

  function Itoa(n: nat): string {
    (if n < 10 then "" else Itoa(n / 10)) + [('0' as int + n % 10) as char]
  }

  /** The signature the contract holds for position `i`; empty if there is none. */
  function SignatureAt(signatures: map<string, Bytes>, i: nat): Bytes {
    if Itoa(i) in signatures then signatures[Itoa(i)] else []
  }

  function Codes(s: string): seq<int> {
    seq(|s|, i requires 0 <= i < |s| => s[i] as int)
  }

  /** By the bytes the keys stand for; as text when one of them stands for none. */
  function ByTxID(): (string, string) -> bool {
    (a: string, b: string) =>
      match (Hex.Decode(a), Hex.Decode(b))
      case (Some(x), Some(y)) => LexLe(x, y)
      case _ => LexLe(Codes(a), Codes(b))
  }

  ghost function SortedIDs(dict: map<Bytes, TxPartsInput>): seq<string> {
    var hashes := SortedHashes(dict);
    seq(|hashes|, i requires 0 <= i < |hashes| => ParseKey(hashes[i]))
  }

  lemma IDsCompare(inputs: map<string, TxPartsInput>, a: string, b: string)
    requires Canonical(inputs) && a in inputs && b in inputs
    ensures ByTxID()(a, b) == LexLe(Hex.Decode(a).value, Hex.Decode(b).value)
    ensures Hex.Decode(a) == Hex.Decode(b) ==> a == b
  {
    assert IsKey(a) && IsKey(b);
  }

  lemma IDsTotal(inputs: map<string, TxPartsInput>)
    requires Canonical(inputs)
    ensures TotalOn(ByTxID(), inputs.Keys)
  {
    var le := ByTxID();
    forall a, b | a in inputs.Keys && b in inputs.Keys ensures (le(a, b) || le(b, a)) && (le(a, b) && le(b, a) ==> a == b) {
      IDsCompare(inputs, a, b);
      IDsCompare(inputs, b, a);
      LexTotal(Hex.Decode(a).value, Hex.Decode(b).value);
    }
    forall a, b, c | a in inputs.Keys && b in inputs.Keys && c in inputs.Keys && le(a, b) && le(b, c) ensures le(a, c) {
      IDsCompare(inputs, a, b);
      IDsCompare(inputs, b, c);
      IDsCompare(inputs, a, c);
      LexTransitive(Hex.Decode(a).value, Hex.Decode(b).value, Hex.Decode(c).value);
    }
  }

  lemma SortedIDAt(inputs: map<string, TxPartsInput>, i: nat)
    requires Canonical(inputs) && i < |SortedIDs(DictOf(inputs))|
    ensures var id := SortedIDs(DictOf(inputs))[i];
            Hex.Decode(id) == Some(SortedHashes(DictOf(inputs))[i]) && id in inputs
  {
    SortedHashesSort(DictOf(inputs));
    assert SortedHashes(DictOf(inputs))[i] in Hashes(inputs);
  }

  lemma SortedIDsInOrder(inputs: map<string, TxPartsInput>, i: nat, j: nat)
    requires Canonical(inputs) && i < j < |SortedIDs(DictOf(inputs))|
    ensures var ids := SortedIDs(DictOf(inputs)); ByTxID()(ids[i], ids[j]) && ids[i] != ids[j]
  {
    var hashes := SortedHashes(DictOf(inputs));
    SortedHashesSort(DictOf(inputs));
    SortedIDAt(inputs, i);
    SortedIDAt(inputs, j);
    assert HashLe()(hashes[i], hashes[j]) && hashes[i] != hashes[j];
  }

  lemma SortedIDsComplete(inputs: map<string, TxPartsInput>, k: string)
    requires Canonical(inputs) && k in inputs
    ensures k in SortedIDs(DictOf(inputs))
  {
    var hashes := SortedHashes(DictOf(inputs));
    SortedHashesSort(DictOf(inputs));
    assert Hex.Decode(k).value in Elements(hashes);
    var i :| 0 <= i < |hashes| && hashes[i] == Hex.Decode(k).value;
    assert SortedIDs(DictOf(inputs))[i] == k;
  }

  lemma SortedIDsSort(inputs: map<string, TxPartsInput>)
    requires Canonical(inputs)
    ensures IsSortOf(SortedIDs(DictOf(inputs)), inputs.Keys, ByTxID())
  {
    var ids := SortedIDs(DictOf(inputs));
    var le := ByTxID();
    forall i | 0 <= i < |ids| ensures ids[i] in inputs.Keys {
      SortedIDAt(inputs, i);
    }
    forall k | k in inputs ensures k in ids {
      SortedIDsComplete(inputs, k);
    }
    forall i, j | 0 <= i < j < |ids| ensures le(ids[i], ids[j]) && ids[i] != ids[j] {
      SortedIDsInOrder(inputs, i, j);
    }
    MakeSort(ids, inputs.Keys, le);
  }

  method ListKeys(inputs: map<string, TxPartsInput>) returns (listed: seq<string>)
    ensures Distinct(listed) && Elements(listed) == inputs.Keys
  {
    listed := [];
    var todo := inputs.Keys;
    while todo != {}
      invariant todo <= inputs.Keys
      invariant Distinct(listed) && Elements(listed) == inputs.Keys - todo
      decreases |todo|
    {
      var k :| k in todo;
      todo := todo - {k};
      ListMore(listed, k);
      listed := listed + [k];
    }
  }

  method SortTxIDs(inputs: map<string, TxPartsInput>) returns (ids: seq<string>)
    ensures forall k :: k in ids <==> k in inputs
    ensures Canonical(inputs) ==> ids == SortedIDs(DictOf(inputs))
  {
    var listed := ListKeys(inputs);
    ids := Sort(listed, ByTxID());
    forall k ensures k in ids <==> k in inputs {
      assert k in ids <==> k in multiset(ids);
      assert k in listed <==> k in multiset(listed);
      assert k in listed <==> k in Elements(listed);
    }
    if Canonical(inputs) {
      IDsTotal(inputs);
      SortedIDsSort(inputs);
      SortUnique(ids, SortedIDs(DictOf(inputs)), inputs.Keys, ByTxID());
    }
  }

  datatype Packet = Packet(unsigned: MsgTx, inputs: seq<PInput>)

  datatype SignedTx = SignedTx(tx: MsgTx, witnesses: seq<seq<Bytes>>)

  /** Finalizing and extracting, which the PSBT library does or refuses to do. */
  type Extractor = Packet -> Option<SignedTx>

  /** What is assumed of it: the unsigned transaction stays, and the one witness of a key spend is the
      signature (BIP 341). */
  ghost predicate KeySpends(extract: Extractor) {
    forall p | extract(p).Some? :: Finalized(p, extract(p).value)
  }

  ghost predicate Finalized(p: Packet, signed: SignedTx) {
    && signed.tx == p.unsigned && |signed.witnesses| == |p.inputs|
    && forall i | 0 <= i < |p.inputs| :: signed.witnesses[i] == [p.inputs[i].signature]
  }

  /** The packet input at position `i`, whose signature is long enough. */
  function PInputOf(parts: TxParts, data: TxPartsInput, i: nat): PInput
    requires |SignatureAt(parts.signatures, i)| >= 64
  {
    var signature := SignatureAt(parts.signatures, i);
    PInput(Spent(data), parts.internalKey, if |data.merkleRoot| > 0 then Some(data.merkleRoot) else None,
           signature[|signature| - 64..])
  }

  ghost predicate AllSigned(parts: TxParts, n: nat) {
    forall i: nat | i < n :: |SignatureAt(parts.signatures, i)| >= 64
  }

  ghost function PacketOf(parts: TxParts, sorted: seq<TxInput>): Packet
    requires AllSigned(parts, |sorted|)
  {
    Packet(TxOf(sorted, parts.outputs),
           seq(|sorted|, i requires 0 <= i < |sorted| => PInputOf(parts, sorted[i].data, i)))
  }

  /** `None` if a signature is missing or short, or the library cannot finalize. */
  ghost function PegoutTx(parts: TxParts, dict: map<Bytes, TxPartsInput>, extract: Extractor): Option<SignedTx> {
    var sorted := SortedInputs(dict);
    if AllSigned(parts, |sorted|) then extract(PacketOf(parts, sorted)) else None
  }

  /** The inputs listed by `ids`, with the hashes their keys stand for. */
  ghost predicate Listed(inputs: map<string, TxPartsInput>, ids: seq<string>, xs: seq<TxInput>) {
    && |xs| == |ids|
    && forall i | 0 <= i < |ids| ::
         Hex.Decode(ids[i]) == Some(xs[i].hash) && |xs[i].hash| == 32 && ids[i] in inputs && xs[i].data == inputs[ids[i]]
  }

  lemma ListedIs(inputs: map<string, TxPartsInput>, xs: seq<TxInput>)
    requires Canonical(inputs) && Listed(inputs, SortedIDs(DictOf(inputs)), xs)
    ensures xs == SortedInputs(DictOf(inputs))
  {
    var dict := DictOf(inputs);
    SortedHashesSort(dict);
    forall i | 0 <= i < |xs| ensures xs[i] == SortedInputs(dict)[i] {
      assert SortedHashes(dict)[i] in Hashes(inputs);
    }
  }

  method AddInputs(parts: TxParts, ids: seq<string>) returns (r: Option<Packet>, ghost xs: seq<TxInput>)
    requires forall i | 0 <= i < |ids| :: ids[i] in parts.inputs
    ensures r.Some? ==> Listed(parts.inputs, ids, xs) && AllSigned(parts, |ids|) && r.value == PacketOf(parts, xs)
    ensures r.None? ==> !AllSigned(parts, |ids|) || exists i | 0 <= i < |ids| :: BadKey(ids[i])
  {
    var packet := Packet(MsgTx(VERSION, [], OutputsOf(parts.outputs)), []);
    xs := [];
    for i := 0 to |ids|
      invariant Listed(parts.inputs, ids[..i], xs) && AllSigned(parts, i)
      invariant packet == PacketOf(parts, xs)
    {
      var input := parts.inputs[ids[i]];
      var hash := Hex.Decode(ids[i]);
      if hash == None || |hash.value| != 32 {
        return None, xs;
      }
      var signature := SignatureAt(parts.signatures, i);
      if |signature| < 64 {
        return None, xs;
      }
      var pInput := PInput(Spent(input), parts.internalKey,
                           if |input.merkleRoot| > 0 then Some(input.merkleRoot) else None, signature[|signature| - 64..]);
      xs := xs + [TxInput(hash.value, input)];
      packet := Packet(packet.unsigned.(ins := packet.unsigned.ins + [TxIn(OutPoint(hash.value, input.index), SEQUENCE)]),
                       packet.inputs + [pInput]);
    }
    assert ids[..|ids|] == ids;
    return Some(packet), xs;
  }

  method BuildPegoutTx(parts: TxParts, extract: Extractor) returns (r: Option<SignedTx>)
    ensures (exists k | k in parts.inputs :: BadKey(k)) ==> r.None?
    ensures Canonical(parts.inputs) ==> r == PegoutTx(parts, DictOf(parts.inputs), extract)
  {
    var ids := SortTxIDs(parts.inputs);
    ghost var xs;
    var packet;
    packet, xs := AddInputs(parts, ids);
    if Canonical(parts.inputs) {
      assert |SortedInputs(DictOf(parts.inputs))| == |ids|;
    }
    if packet == None {
      return None;
    }
    if Canonical(parts.inputs) {
      ListedIs(parts.inputs, xs);
    }
    return extract(packet.value);
  }

  // ----- agreement -----

  /** The transaction is good if each witness is one signature over that input's digest. */
  ghost predicate Validates(signed: SignedTx, prev: map<OutPoint, TxOut>, sighash: SigHash, verify: (Bytes, Bytes) -> bool) {
    && |signed.witnesses| == |signed.tx.ins|
    && forall i | 0 <= i < |signed.witnesses| ::
         && |signed.witnesses[i]| == 1
         && sighash(signed.tx, prev, i).Some?
         && verify(sighash(signed.tx, prev, i).value, signed.witnesses[i][0])
  }

  /** If the contract holds, at each position, a signature over the digest the oracle computed for
      that position, then the transaction the indexer sends is signed on every input. */
  lemma SignaturesLand(parts: TxParts, sighash: SigHash, extract: Extractor, verify: (Bytes, Bytes) -> bool)
    requires Canonical(parts.inputs)
    requires Digests(sighash, UnsignedTx(DictOf(parts.inputs), parts.outputs), PrevOuts(DictOf(parts.inputs))).Some?
    requires KeySpends(extract) && PegoutTx(parts, DictOf(parts.inputs), extract).Some?
    requires var ds := Digests(sighash, UnsignedTx(DictOf(parts.inputs), parts.outputs), PrevOuts(DictOf(parts.inputs))).value;
             forall i: nat, k | i < |ds| && HasSignature(parts.signatures, i, k) ::
               verify(ds[i], parts.signatures[k][|parts.signatures[k]| - 64..])
    ensures var signed := PegoutTx(parts, DictOf(parts.inputs), extract).value;
            && signed.tx == UnsignedTx(DictOf(parts.inputs), parts.outputs)
            && Validates(signed, PrevOuts(DictOf(parts.inputs)), sighash, verify)
  {
    var dict := DictOf(parts.inputs);
    var signed := PegoutTx(parts, dict, extract).value;
    var ds := Digests(sighash, UnsignedTx(dict, parts.outputs), PrevOuts(dict)).value;
    assert Finalized(PacketOf(parts, SortedInputs(dict)), signed);
    forall i | 0 <= i < |signed.witnesses|
      ensures |signed.witnesses[i]| == 1 && sighash(signed.tx, PrevOuts(dict), i) == Some(ds[i])
      ensures verify(ds[i], signed.witnesses[i][0])
    {
      var k := SignedUnderKey(parts.signatures, i);
      assert HasSignature(parts.signatures, i, k);
    }
  }

  /** Go's `int64` of an amount: below 2^63 the amount itself, above it what is left of 64 bits. */
  ghost predicate Carries(value: int64, amount: nat) {
    && (amount < 0x8000_0000_0000_0000 ==> value == amount)
    && (0x8000_0000_0000_0000 <= amount < 0x1_0000_0000_0000_0000 ==> value == amount - 0x1_0000_0000_0000_0000)
  }

  lemma AmountsCarry(amount: nat)
    ensures Carries(Int64(amount), amount)
  {
  }

  /** Input `i` spends an entry of the dictionary, and the digests commit to what the entry says. */
  ghost predicate Spends(tx: MsgTx, prev: map<OutPoint, TxOut>, dict: map<Bytes, TxPartsInput>, i: nat)
    requires i < |tx.ins|
  {
    var input := tx.ins[i];
    && input.sequence == 0xFFFF_FFFD && input.prev.hash in dict && input.prev in prev
    && input.prev.index == dict[input.prev.hash].index
    && Carries(prev[input.prev].value, dict[input.prev.hash].amount)
    && prev[input.prev].script == dict[input.prev.hash].script
  }

  /** The transaction spends every entry of the dictionary once, in ascending order of hash, signalling
      replaceability; and it pays every receiver, in the order given, the amount given. */
  lemma SpendsTheDictionary(dict: map<Bytes, TxPartsInput>, outputs: seq<TxPartsOutput>)
    ensures var tx := UnsignedTx(dict, outputs);
            && tx.version == 2 && |tx.ins| == |dict| && |tx.outs| == |outputs|
            && (forall i, j | 0 <= i < j < |tx.ins| ::
                  LexLe(tx.ins[i].prev.hash, tx.ins[j].prev.hash) && tx.ins[i].prev.hash != tx.ins[j].prev.hash)
            && (forall i: nat | i < |tx.ins| :: Spends(tx, PrevOuts(dict), dict, i))
            && (forall i | 0 <= i < |outputs| ::
                  Carries(tx.outs[i].value, outputs[i].amount) && tx.outs[i].script == outputs[i].script)
  {
    var xs := SortedInputs(dict);
    HashesCount(dict);
    HashesAscend(dict);
    forall i: nat | i < |xs| ensures Spends(UnsignedTx(dict, outputs), PrevOuts(dict), dict, i) {
      SpendsOne(dict, outputs, i);
    }
  }

  lemma HashesAscend(dict: map<Bytes, TxPartsInput>)
    ensures var xs := SortedInputs(dict);
            forall i, j | 0 <= i < j < |xs| :: LexLe(xs[i].hash, xs[j].hash) && xs[i].hash != xs[j].hash
  {
    SortedHashesSort(dict);
    var hashes := SortedHashes(dict);
    forall i, j | 0 <= i < j < |hashes| ensures LexLe(hashes[i], hashes[j]) && hashes[i] != hashes[j] {
      assert HashLe()(hashes[i], hashes[j]);
    }
  }

  lemma SpendsOne(dict: map<Bytes, TxPartsInput>, outputs: seq<TxPartsOutput>, i: nat)
    requires i < |SortedInputs(dict)|
    ensures Spends(UnsignedTx(dict, outputs), PrevOuts(dict), dict, i)
  {
    SortedHashesSort(dict);
    HashesAscend(dict);
    PrevOfExact(SortedInputs(dict));
    assert InputOf(SortedInputs(dict)[i]) == UnsignedTx(dict, outputs).ins[i];
  }

  lemma HashesCount(dict: map<Bytes, TxPartsInput>)
    ensures |SortedHashes(dict)| == |dict|
  {
    HashTotal(dict.Keys);
    SortSetSorts(dict.Keys, HashLe());
    assert |dict| == |dict.Keys|;
  }

  // ----- the packet, entry by entry -----

  /** How `strconv.Itoa` writes a number: its decimal digits without leading zeros. */
  ghost predicate IsDecimal(k: string) {
    k != "" && (forall i | 0 <= i < |k| :: '0' <= k[i] <= '9') && (k[0] == '0' ==> |k| == 1)
  }

  ghost function Number(k: string): int {
    if k == "" then 0 else 10 * Number(k[..|k| - 1]) + (k[|k| - 1] as int - '0' as int)
  }

  lemma {:induction false} ItoaIsDecimal(n: nat)
    ensures IsDecimal(Itoa(n)) && Number(Itoa(n)) == n && (Itoa(n)[0] == '0' ==> n == 0)
    decreases n
  {
    if n >= 10 {
      ItoaIsDecimal(n / 10);
      var k := Itoa(n);
      assert k[..|k| - 1] == Itoa(n / 10);
    } else {
      assert Itoa(n) == [('0' as int + n) as char];
      assert Number(Itoa(n)[..0]) == 0;
    }
  }

  lemma {:induction false} NumberPositive(k: string)
    requires IsDecimal(k)
    ensures Number(k) >= 0 && (Number(k) == 0 ==> k == "0")
    decreases |k|
  {
    if |k| > 1 {
      NumberPositive(k[..|k| - 1]);
    }
  }

  /** There is one decimal key for each number. */
  lemma {:induction false} DecimalIsItoa(k: string)
    requires IsDecimal(k)
    ensures Number(k) >= 0 && k == Itoa(Number(k))
    decreases |k|
  {
    NumberPositive(k);
    var n := Number(k);
    if |k| == 1 {
      assert Number(k[..0]) == 0;
    } else {
      var init := k[..|k| - 1];
      DecimalIsItoa(init);
      NumberPositive(init);
      assert n / 10 == Number(init) && n >= 10;
      assert k == init + [k[|k| - 1]];
    }
  }

  /** The contract's entry for position `i` is under the decimal key of `i`. */
  lemma SignatureUnderKey(signatures: map<string, Bytes>, i: nat, k: string)
    requires IsDecimal(k) && Number(k) == i && k in signatures
    ensures SignatureAt(signatures, i) == signatures[k]
  {
    DecimalIsItoa(k);
  }

  /** A signature of at least 64 bytes under the decimal key of `i`. */
  ghost predicate HasSignature(signatures: map<string, Bytes>, i: nat, k: string) {
    IsDecimal(k) && Number(k) == i && k in signatures && |signatures[k]| >= 64
  }

  lemma SignedUnderKey(signatures: map<string, Bytes>, i: nat) returns (k: string)
    ensures |SignatureAt(signatures, i)| >= 64 <==> HasSignature(signatures, i, k)
    ensures k in signatures ==> SignatureAt(signatures, i) == signatures[k]
  {
    k := Itoa(i);
    ItoaIsDecimal(i);
  }

  ghost predicate Signable(signatures: map<string, Bytes>, i: nat) {
    exists k :: HasSignature(signatures, i, k)
  }

  lemma SignableExactly(signatures: map<string, Bytes>, i: nat)
    ensures Signable(signatures, i) <==> |SignatureAt(signatures, i)| >= 64
  {
    var k := SignedUnderKey(signatures, i);
    if k' :| HasSignature(signatures, i, k') {
      SignatureUnderKey(signatures, i, k');
    }
  }

  /** The packet the indexer finalizes: the unsigned transaction of the oracles, and for each input what
      it spends, the keys of its taproot output, and the last 64 bytes of the signature under its decimal
      key. There is one exactly when each input has such a signature. */
  lemma PacketExactly(parts: TxParts, dict: map<Bytes, TxPartsInput>, extract: Extractor) returns (p: Packet)
    ensures if forall i: nat | i < |dict| :: Signable(parts.signatures, i)
            then IsPacket(parts, dict, p) && PegoutTx(parts, dict, extract) == extract(p)
            else PegoutTx(parts, dict, extract) == None
  {
    var sorted := SortedInputs(dict);
    HashesCount(dict);
    forall i: nat | i < |dict| ensures Signable(parts.signatures, i) <==> |SignatureAt(parts.signatures, i)| >= 64 {
      SignableExactly(parts.signatures, i);
    }
    if AllSigned(parts, |sorted|) {
      p := PacketOf(parts, sorted);
      IsPacketOf(parts, dict);
    } else {
      var i: nat :| i < |sorted| && |SignatureAt(parts.signatures, i)| < 64;
      assert !Signable(parts.signatures, i);
      p := Packet(MsgTx(0, [], []), []);
    }
  }

  ghost predicate IsPacket(parts: TxParts, dict: map<Bytes, TxPartsInput>, p: Packet) {
    && p.unsigned == UnsignedTx(dict, parts.outputs) && |p.inputs| == |p.unsigned.ins| == |dict|
    && forall i: nat | i < |p.inputs| :: IsPInput(parts, dict, p, i)
  }

  ghost predicate IsPInput(parts: TxParts, dict: map<Bytes, TxPartsInput>, p: Packet, i: nat)
    requires i < |p.inputs| && i < |p.unsigned.ins|
  {
    var h := p.unsigned.ins[i].prev.hash;
    && h in dict
    && Carries(p.inputs[i].utxo.value, dict[h].amount) && p.inputs[i].utxo.script == dict[h].script
    && p.inputs[i].internalKey == parts.internalKey
    && p.inputs[i].merkleRoot == (if dict[h].merkleRoot == [] then None else Some(dict[h].merkleRoot))
    && exists k | HasSignature(parts.signatures, i, k) ::
         p.inputs[i].signature == parts.signatures[k][|parts.signatures[k]| - 64..]
  }

  lemma IsPacketOf(parts: TxParts, dict: map<Bytes, TxPartsInput>)
    requires AllSigned(parts, |SortedInputs(dict)|)
    ensures IsPacket(parts, dict, PacketOf(parts, SortedInputs(dict)))
  {
    var p := PacketOf(parts, SortedInputs(dict));
    HashesCount(dict);
    forall i: nat | i < |p.inputs| ensures IsPInput(parts, dict, p, i) {
      IsPInputOf(parts, dict, p, i);
    }
  }

  lemma IsPInputOf(parts: TxParts, dict: map<Bytes, TxPartsInput>, p: Packet, i: nat)
    requires AllSigned(parts, |SortedInputs(dict)|) && p == PacketOf(parts, SortedInputs(dict)) && i < |p.inputs|
    ensures IsPInput(parts, dict, p, i)
  {
    SortedHashesSort(dict);
    var x := SortedInputs(dict)[i];
    assert p.unsigned.ins[i] == InputOf(x) && x.hash in dict && x.data == dict[x.hash];
    assert p.inputs[i] == PInputOf(parts, x.data, i);
    var k := SignedUnderKey(parts.signatures, i);
    assert HasSignature(parts.signatures, i, k);
  }
}
