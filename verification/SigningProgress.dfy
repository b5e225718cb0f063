/** A signing round always finishes: the oracles, each ticking as in `SigningSpec`, and a coordinator
    that records what they send, form a closed world whose every fair run signs the pegout.

    The coordinator contract is not part of the repository. `Accept` states what the oracles rely
    on: it takes commitments until the threshold, sets the deadline with the first one, and takes one
    share and one signature list from each accepted signer. */
module SigningProgress {
  import opened Wrappers
  import opened ByteCodec
  import opened Threshold
  import opened Sorting
  import opened SigningSpec
  import Commitments
  import Keystore

  datatype Round = Round(
    id: nat,
    addr: string,
    tx: TxParts,
    validators: set<uint16>,  // the signing mask: one oracle each
    keyOf: uint16 -> Bytes,
    commitmentOf: Bytes -> Bytes, // what `frost.Commit` publishes of a nonce
    maxSigners: uint16,
    dkgUntil: int,            // which ceremony's session keys are in force
    deadline: nat
  ) {
    function Min(): nat
      requires CalcMinSigners(maxSigners).Some?
    {
      CalcMinSigners(maxSigners).value
    }

    function Inputs(): nat {
      |tx.merkleRoots|
    }

    ghost predicate Valid() {
      && 1 <= Inputs() <= 255
      && deadline != 0
      && (forall nonce: Bytes :: |commitmentOf(nonce)| == Commitments.FROST_COMMITMENT_LENGTH)
      && CalcMinSigners(maxSigners).Some?
      && Min() <= |validators|
    }
  }

  datatype World = World(record: PegoutRecord, oracles: map<uint16, State>)

  datatype Move = Move(idx: uint16, tick: Tick)

  // ----- the coordinator -----

  function SharesByInput(shares: seq<Bytes>): map<uint16, Bytes> {
    map i: uint16 | 0 <= i < |shares| :: shares[i]
  }

  function Accept(r: Round, rec: PegoutRecord, msg: Msg): PegoutRecord
    requires CalcMinSigners(r.maxSigners).Some?
  {
    match msg
    case CommitmentsMsg(id, until, idx, payload) =>
      if id != rec.id || until != rec.expiredAt || idx !in rec.signingMask
         || idx in rec.commitments || idx in rec.commitmentsOther then rec
      else if |rec.commitments| < r.Min() then
        rec.(commitments := rec.commitments[idx := payload],
             expiredAt := if rec.expiredAt == 0 then r.deadline else rec.expiredAt)
      else rec.(commitmentsOther := rec.commitmentsOther + {idx})
    case ShareMsg(id, until, idx, shares) =>
      if id != rec.id || until != rec.expiredAt || |rec.commitments| < r.Min()
         || idx !in rec.commitments || idx in rec.signingShares then rec
      else rec.(signingShares := rec.signingShares[idx := SharesByInput(shares)])
    case SignaturesMsg(id, until, idx, _) =>
      if id != rec.id || until != rec.expiredAt || |rec.signingShares| < r.Min() || idx !in rec.signingShares then rec
      else rec.(signaturesMask := rec.signaturesMask + {idx})
    case ClaimMsg(_, _, _, _) => rec
    case ResetMsg(_, _) => rec
  }

  function AcceptAll(r: Round, rec: PegoutRecord, msgs: seq<Msg>): PegoutRecord
    requires CalcMinSigners(r.maxSigners).Some?
    decreases |msgs|
  {
    if msgs == [] then rec else AcceptAll(r, Accept(r, rec, msgs[0]), msgs[1..])
  }

  /** The record once everything sent between two states of an oracle has been delivered. */
  function Recorded(r: Round, rec: PegoutRecord, st: State, st1: State): PegoutRecord
    requires CalcMinSigners(r.maxSigners).Some?
  {
    AcceptAll(r, rec, if |st.ledger.sent| <= |st1.ledger.sent| then st1.ledger.sent[|st.ledger.sent|..] else [])
  }

  /** One oracle ticks; what it sends is recorded before anybody else moves. */
  function Step(r: Round, w: World, m: Move): World
    requires CalcMinSigners(r.maxSigners).Some?
  {
    if m.idx !in w.oracles then w
    else
      var st1 := Next(w.oracles[m.idx], m.tick);
      World(Recorded(r, w.record, w.oracles[m.idx], st1), w.oracles[m.idx := st1])
  }

  // ----- a fault-free tick -----

  ghost predicate Aggregates(tk: Tick, inputs: seq<Bytes>, hashes: seq<Bytes>, rec: PegoutRecord, i: nat) {
    var call := AggregateArgs(inputs, hashes, rec, i);
    call.Some? ==> tk.aggregate(call.value).Signature?
  }

  /** FROST signs with a nonce exactly when the signer's own commitment in the column is the nonce's. */
  ghost predicate SignsOwn(r: Round, m: Move) {
    forall call: SignCall ::
      m.tick.sign(call).Share? <==> m.idx in call.column && call.column[m.idx] == r.commitmentOf(call.nonce)
  }

  ghost predicate FaultFree(r: Round, rec: PegoutRecord, m: Move) {
    var tk := m.tick;
    && tk.records.Some? && tk.records.value != [] && tk.records.value[0] == rec
    && tk.maxSigners == r.maxSigners && tk.dkgUntil == r.dkgUntil
    && tk.session == Some(r.keyOf(m.idx)) && tk.findValidatorIdx(r.keyOf(m.idx)) == Some(m.idx)
    && (rec.expiredAt == 0 || tk.now <= rec.expiredAt)
    && tk.txParts == Some(r.tx) && tk.hasSecret && tk.lost == {}
    && (forall i: nat | i < r.Inputs() ::
          && tk.commit(i).Some? && tk.commit(i).value.1 == r.commitmentOf(tk.commit(i).value.0)
          && Aggregates(tk, r.tx.merkleRoots, r.tx.signingHashes, rec, i))
    && SignsOwn(r, m)
    && tk.sendSignaturesExitCode != DIFFERENT_PEGOUT_SIGNATURES
  }

  // ----- the invariant -----

  ghost predicate RecordOk(r: Round, rec: PegoutRecord) {
    && r.Valid()
    && rec.id == r.id && rec.addr == r.addr && rec.signingMask == r.validators
    && (forall v | v in rec.commitments :: v in r.validators && v !in rec.commitmentsOther)
    && (forall v | v in rec.commitmentsOther :: v in r.validators)
    && (forall v | v in rec.signingShares :: v in rec.commitments)
    && (forall v | v in rec.signaturesMask :: v in rec.signingShares)
    && |rec.commitments| <= r.Min()
    && (rec.commitmentsOther != {} || rec.signingShares != map[] ==> |rec.commitments| == r.Min())
    && (rec.signaturesMask != {} ==> |rec.signingShares| == r.Min())
    && rec.expiredAt == (if rec.commitments == map[] then 0 else r.deadline)
    && (forall v | v in rec.commitments ::
          Commitments.Deserialized(rec.commitments[v], r.Inputs(), Commitments.FROST_COMMITMENT_LENGTH).Ok?)
  }

  /** The cache is of another pegout, or of this one at a deadline that has passed. */
  ghost predicate Stale(r: Round, c: Cached) {
    c.id != r.id || (c.artifacts.expiredAt != 0 && c.artifacts.expiredAt != r.deadline)
  }

  ghost predicate SameTx(r: Round, c: Cached) {
    c.addr == r.addr && c.inputs == r.tx.merkleRoots && c.signingHashes == r.tx.signingHashes
  }

  /** The process knows nothing of the round: it has just started, or its cache is stale. */
  ghost predicate Forgot(r: Round, st: State) {
    st.cached.None? || Stale(r, st.cached.value)
  }

  ghost predicate CacheOk(r: Round, rec: PegoutRecord, v: uint16, c: Cached) {
    && c.id == r.id && SameTx(r, c)
    && (c.artifacts.expiredAt == 0 || c.artifacts.expiredAt == rec.expiredAt)
    && (c.commitments.Some? && c.nonces.None? ==> v in rec.commitments)
    && (c.nonces.Some? ==> c.commitments.Some? && Paired(r, c.nonces.value, c.commitments.value))
  }

  ghost predicate Paired(r: Round, nonces: seq<Bytes>, commitments: seq<Bytes>) {
    && |nonces| == |commitments| == r.Inputs()
    && forall i | 0 <= i < r.Inputs() :: commitments[i] == r.commitmentOf(nonces[i])
  }

  /** The nonces are those of the commitments on record. */
  ghost predicate Matches(r: Round, payload: Bytes, nonces: seq<Bytes>) {
    var row := Commitments.Deserialized(payload, r.Inputs(), Commitments.FROST_COMMITMENT_LENGTH);
    && r.Inputs() <= |nonces| && row.Ok?
    && forall i | 0 <= i < r.Inputs() :: row.value[i] == r.commitmentOf(nonces[i])
  }

  /** An accepted signer has its share on file, or the nonces to make one. */
  ghost predicate CanShare(r: Round, rec: PegoutRecord, v: uint16, st: State)
    requires st.cached.Some? && v in rec.commitments
  {
    var c := st.cached.value;
    LoadShares(st, r.addr).Some? || (c.nonces.Some? && Matches(r, rec.commitments[v], c.nonces.value))
  }

  /** A share that is still owed can be sent. */
  ghost predicate Owes(r: Round, rec: PegoutRecord, v: uint16, st: State)
    requires st.cached.Some?
  {
    v in rec.commitments && v !in rec.signingShares ==> CanShare(r, rec, v, st)
  }

  /** A session key of an earlier ceremony is reloaded, so only the present one's must be right. */
  ghost predicate SessionOk(r: Round, v: uint16, st: State) {
    st.sessionSigner.Some? && st.dkgUntil == r.dkgUntil ==> st.sessionSigner.value == r.keyOf(v)
  }

  ghost predicate OracleOk(r: Round, rec: PegoutRecord, v: uint16, st: State) {
    && SessionOk(r, v, st)
    && if Forgot(r, st)
       then (v in rec.commitments ==> v in rec.signingShares)
            && (st.cached.Some? && st.cached.value.id == r.id ==> SameTx(r, st.cached.value))
       else CacheOk(r, rec, v, st.cached.value) && Owes(r, rec, v, st)
  }

  /** Past the cache check of a tick. */
  ghost predicate Current(r: Round, rec: PegoutRecord, v: uint16, st: State) {
    && SessionOk(r, v, st)
    && st.cached.Some? && st.cached.value.artifacts == rec && CacheOk(r, rec, v, st.cached.value)
    && Owes(r, rec, v, st)
  }

  ghost predicate WorldOk(r: Round, w: World) {
    && RecordOk(r, w.record)
    && w.oracles.Keys == r.validators
    && forall v | v in w.oracles :: OracleOk(r, w.record, v, w.oracles[v])
  }

  /** The round has begun and nobody has sent anything. A process may have just started, or hold
      whatever other pegouts or earlier deadlines of this one have left in it. */
  ghost predicate Start(r: Round, w: World) {
    && r.Valid()
    && w.record.id == r.id && w.record.addr == r.addr && w.record.signingMask == r.validators
    && w.record.commitments == map[] && w.record.commitmentsOther == {}
    && w.record.signingShares == map[] && w.record.signaturesMask == {} && w.record.expiredAt == 0
    && w.oracles.Keys == r.validators
    && forall v | v in w.oracles :: OracleOk(r, w.record, v, w.oracles[v])
  }

  lemma StartOk(r: Round, w: World)
    requires Start(r, w)
    ensures WorldOk(r, w)
  {
  }

  // ----- who can move the round forward -----

  ghost predicate CanCommit(r: Round, rec: PegoutRecord, v: uint16) {
    v in r.validators && v !in rec.commitments && v !in rec.commitmentsOther
  }

  ghost predicate CanSign(r: Round, rec: PegoutRecord, v: uint16)
    requires r.Valid()
  {
    v in rec.commitments && v !in rec.signingShares && |rec.commitments| == r.Min()
  }

  ghost predicate CanAggregate(r: Round, rec: PegoutRecord, v: uint16)
    requires r.Valid()
  {
    v in rec.signingShares && v !in rec.signaturesMask && |rec.signingShares| == r.Min()
  }

  ghost predicate Enabled(r: Round, rec: PegoutRecord, v: uint16)
    requires r.Valid()
  {
    CanCommit(r, rec, v) || CanSign(r, rec, v) || CanAggregate(r, rec, v)
  }

  /** The threshold was met and every accepted signer's signatures are recorded. */
  ghost predicate Done(r: Round, rec: PegoutRecord)
    requires r.Valid()
  {
    |rec.commitments| == r.Min() && forall v | v in rec.commitments :: v in rec.signaturesMask
  }

  ghost function Waiting(r: Round, rec: PegoutRecord): set<uint16> {
    set v | v in r.validators && v !in rec.commitments && v !in rec.commitmentsOther
  }

  /** How many messages the coordinator is still to record. */
  ghost function Measure(r: Round, rec: PegoutRecord): int
    requires r.Valid()
  {
    |Waiting(r, rec)| + (r.Min() - |rec.signingShares|) + (r.Min() - |rec.signaturesMask|)
  }

  lemma SharesWithinThreshold(r: Round, rec: PegoutRecord)
    requires RecordOk(r, rec)
    ensures |rec.signaturesMask| <= |rec.signingShares| <= |rec.commitments| <= r.Min()
  {
    SubsetSize(rec.signingShares.Keys, rec.commitments.Keys);
    SubsetSize(rec.signaturesMask, rec.signingShares.Keys);
  }

  // ----- one fault-free tick of one oracle -----

  /** Up to the rounds: session, mask, deadline and cache checks all pass. */
  lemma Enter(r: Round, rec: PegoutRecord, m: Move, st: State) returns (st1: State)
    requires RecordOk(r, rec) && m.idx in r.validators
    requires OracleOk(r, rec, m.idx, st) && FaultFree(r, rec, m)
    ensures Current(r, rec, m.idx, st1)
    ensures Next(st, m.tick) == RunRounds(st1, m.idx, r.Min(), m.tick)
    ensures st1.ledger.sent == st.ledger.sent
  {
    var st2 := Reload(r, rec, m, st);
    st1 := CacheCurrent(r, rec, m.idx, st2, m.tick);
  }

  /** A session key of an earlier ceremony, or none, is replaced; the record is then processed. */
  lemma Reload(r: Round, rec: PegoutRecord, m: Move, st: State) returns (st1: State)
    requires SessionOk(r, m.idx, st) && FaultFree(r, rec, m)
    ensures Next(st, m.tick) == ProcessRecord(st1, m.idx, rec, m.tick)
    ensures st1 == st.(sessionSigner := st1.sessionSigner, dkgUntil := st1.dkgUntil) && SessionOk(r, m.idx, st1)
  {
    var tk := m.tick;
    var st0 := st.(files := st.files - tk.lost);
    assert st0 == st;
    var reload := st.dkgUntil != tk.dkgUntil || st.sessionSigner.None?;
    st1 := if reload then st.(sessionSigner := tk.session, dkgUntil := tk.dkgUntil) else st;
  }

  lemma CacheCurrent(r: Round, rec: PegoutRecord, v: uint16, st: State, tk: Tick) returns (st1: State)
    requires RecordOk(r, rec) && OracleOk(r, rec, v, st) && tk.txParts == Some(r.tx)
    ensures CachePegout(st, rec, tk) == Some(st1) && st1.ledger.sent == st.ledger.sent
    ensures Current(r, rec, v, st1)
  {
    st1 := CachePegout(st, rec, tk).value;
  }

  lemma {:induction false} CommitAllSucceeds(r: Round, rec: PegoutRecord, m: Move, n: nat)
    requires FaultFree(r, rec, m) && n <= r.Inputs()
    ensures CommitAll(m.tick, n).Some?
    ensures |CommitAll(m.tick, n).value.0| == n && |CommitAll(m.tick, n).value.1| == n
    ensures forall i | 0 <= i < n :: CommitAll(m.tick, n).value.1[i] == r.commitmentOf(CommitAll(m.tick, n).value.0[i])
  {
    if n > 0 {
      CommitAllSucceeds(r, rec, m, n - 1);
      assert m.tick.commit(n - 1).Some?;
    }
  }

  lemma CommitTick(r: Round, rec: PegoutRecord, m: Move, st: State) returns (payload: Bytes)
    requires RecordOk(r, rec) && FaultFree(r, rec, m) && CanCommit(r, rec, m.idx)
    requires Current(r, rec, m.idx, st)
    ensures var st1 := RunRounds(st, m.idx, r.Min(), m.tick);
            && st1.ledger.sent == st.ledger.sent + [CommitmentsMsg(r.id, rec.expiredAt, m.idx, payload)]
            && Current(r, rec, m.idx, st1)
            && st1.cached.value.commitments.Some? && st1.cached.value.nonces.Some?
    ensures Matches(r, payload, RunRounds(st, m.idx, r.Min(), m.tick).cached.value.nonces.value)
  {
    CommitAllSucceeds(r, rec, m, r.Inputs());
    var made := GenerateCommitments(st, m.tick).value;
    payload := PairedMatches(r, made.cached.value.nonces.value, made.cached.value.commitments.value);
  }

  lemma PairedMatches(r: Round, nonces: seq<Bytes>, commitments: seq<Bytes>) returns (payload: Bytes)
    requires r.Valid() && Paired(r, nonces, commitments)
    ensures Commitments.Serialized(commitments, Commitments.FROST_COMMITMENT_LENGTH) == Ok(payload)
    ensures Matches(r, payload, nonces)
  {
    forall i | 0 <= i < |commitments| ensures |commitments[i]| == Commitments.FROST_COMMITMENT_LENGTH {
      assert commitments[i] == r.commitmentOf(nonces[i]);
    }
    Commitments.CommitmentsRoundTrip(commitments, Commitments.FROST_COMMITMENT_LENGTH);
    payload := Commitments.Serialized(commitments, Commitments.FROST_COMMITMENT_LENGTH).value;
  }

  lemma AllReadable(r: Round, rec: PegoutRecord, c: Cached)
    requires RecordOk(r, rec) && c.artifacts == rec && c.inputs == r.tx.merkleRoots
    ensures Readable(c)
  {
  }

  ghost predicate Readable(c: Cached) {
    forall i | 0 <= i < |c.inputs| :: Commitments.InputColumn(c.artifacts.commitments, |c.inputs|, i).Some?
  }

  ghost predicate Signs(c: Cached, epoch: nat, tk: Tick, i: nat) {
    var use := PrepareInput(c, epoch, tk, i);
    use.Some? && tk.sign(use.value.Call()).Share?
  }

  lemma {:induction false} SignFromExactly(c: Cached, epoch: nat, tk: Tick, i: nat)
    ensures SignFrom(c, epoch, tk, i).shares.Some? <==> forall k | i <= k < |c.inputs| :: Signs(c, epoch, tk, k)
    ensures SignFrom(c, epoch, tk, i).shares.Some? ==> SignFrom(c, epoch, tk, i).culprit.None?
    decreases |c.inputs| - i
  {
    if i < |c.inputs| {
      SignFromExactly(c, epoch, tk, i + 1);
      assert (forall k | i <= k < |c.inputs| :: Signs(c, epoch, tk, k)) <==>
             Signs(c, epoch, tk, i) && (forall k | i + 1 <= k < |c.inputs| :: Signs(c, epoch, tk, k));
    }
  }

  /** What FROST is asked to sign for one input, and whether it does. */
  lemma SignsExactly(r: Round, rec: PegoutRecord, m: Move, c: Cached, epoch: nat, i: nat)
    requires r.Valid() && SignsOwn(r, m) && m.tick.hasSecret && m.idx in rec.commitments && i < r.Inputs()
    requires SameTx(r, c) && c.artifacts == rec && Readable(c)
    ensures Commitments.Deserialized(rec.commitments[m.idx], r.Inputs(), Commitments.FROST_COMMITMENT_LENGTH).Ok?
    ensures Signs(c, epoch, m.tick, i) <==> OwnNonce(r, rec.commitments[m.idx], c.nonces, i)
  {
    var column := Commitments.InputColumn(rec.commitments, r.Inputs(), i);
    assert column.Some?;
  }

  /** Shares can be made exactly from the nonces of the commitments on record. */
  lemma SharesExactly(r: Round, rec: PegoutRecord, m: Move, c: Cached, epoch: nat)
    requires RecordOk(r, rec) && SignsOwn(r, m) && m.tick.hasSecret && m.idx in rec.commitments
    requires SameTx(r, c) && c.artifacts == rec
    ensures SignFrom(c, epoch, m.tick, 0).shares.Some? <==>
            c.nonces.Some? && Matches(r, rec.commitments[m.idx], c.nonces.value)
    ensures SignFrom(c, epoch, m.tick, 0).shares.Some? ==> SignFrom(c, epoch, m.tick, 0).culprit.None?
  {
    AllReadable(r, rec, c);
    SignFromExactly(c, epoch, m.tick, 0);
    forall i: nat | i < r.Inputs() ensures Signs(c, epoch, m.tick, i) <==> OwnNonce(r, rec.commitments[m.idx], c.nonces, i) {
      SignsExactly(r, rec, m, c, epoch, i);
    }
    MatchesEach(r, rec.commitments[m.idx], c.nonces);
  }

  ghost predicate OwnNonce(r: Round, payload: Bytes, nonces: Option<seq<Bytes>>, i: nat) {
    var row := Commitments.Deserialized(payload, r.Inputs(), Commitments.FROST_COMMITMENT_LENGTH);
    && row.Ok? && i < |row.value|
    && nonces.Some? && i < |nonces.value| && row.value[i] == r.commitmentOf(nonces.value[i])
  }

  lemma MatchesEach(r: Round, payload: Bytes, nonces: Option<seq<Bytes>>)
    requires 1 <= r.Inputs()
    ensures nonces.Some? && Matches(r, payload, nonces.value) <==> forall i: nat | i < r.Inputs() :: OwnNonce(r, payload, nonces, i)
  {
    if forall i: nat | i < r.Inputs() :: OwnNonce(r, payload, nonces, i) {
      assert OwnNonce(r, payload, nonces, r.Inputs() - 1);
      var row := Commitments.Deserialized(payload, r.Inputs(), Commitments.FROST_COMMITMENT_LENGTH);
      forall i | 0 <= i < r.Inputs() ensures row.value[i] == r.commitmentOf(nonces.value[i]) {
        assert OwnNonce(r, payload, nonces, i);
      }
    }
  }

  lemma SignTick(r: Round, rec: PegoutRecord, m: Move, st: State) returns (shares: seq<Bytes>)
    requires RecordOk(r, rec) && FaultFree(r, rec, m) && CanSign(r, rec, m.idx)
    requires Current(r, rec, m.idx, st)
    ensures var st1 := RunRounds(st, m.idx, r.Min(), m.tick);
            && st1.ledger.sent == st.ledger.sent + [ShareMsg(r.id, rec.expiredAt, m.idx, shares)]
            && st1.cached == st.cached && st1.sessionSigner == st.sessionSigner && st1.dkgUntil == st.dkgUntil
  {
    var c := st.cached.value;
    assert DoCommit(st, m.idx, r.Min(), m.tick) == (st, true);
    match LoadShares(st, c.addr)
    case Some(stored) => shares := stored;
    case None =>
      SharesExactly(r, rec, m, c, st.ledger.Epoch());
      shares := SignFrom(c, st.ledger.Epoch(), m.tick, 0).shares.value;
  }

  lemma {:induction false} AggregateFromSucceeds(c: Cached, tk: Tick, i: nat)
    requires Readable(c)
    requires forall k: nat | k < |c.inputs| :: Aggregates(tk, c.inputs, c.signingHashes, c.artifacts, k)
    ensures AggregateFrom(c, tk, i).signatures.Some?
    decreases |c.inputs| - i
  {
    if i < |c.inputs| {
      assert Aggregates(tk, c.inputs, c.signingHashes, c.artifacts, i);
      AggregateFromSucceeds(c, tk, i + 1);
    }
  }

  lemma AggregateTick(r: Round, rec: PegoutRecord, m: Move, st: State) returns (signatures: seq<Bytes>)
    requires RecordOk(r, rec) && FaultFree(r, rec, m) && CanAggregate(r, rec, m.idx)
    requires Current(r, rec, m.idx, st)
    ensures var st1 := RunRounds(st, m.idx, r.Min(), m.tick);
            && st1.ledger.sent == st.ledger.sent + [SignaturesMsg(r.id, rec.expiredAt, m.idx, signatures)]
            && OracleOk(r, rec, m.idx, st1)
  {
    assert DoCommit(st, m.idx, r.Min(), m.tick) == (st, true);
    assert DoSign(st, m.idx, r.Min(), m.tick) == (st, true);
    var c := DropNonces(st).cached.value;
    AllReadable(r, rec, c);
    AggregateFromSucceeds(c, m.tick, 0);
    signatures := AggregateFrom(c, m.tick, 0).signatures.value;
  }

  lemma WaitTick(r: Round, rec: PegoutRecord, v: uint16, tk: Tick, st: State)
    requires r.Valid() && st.cached.Some? && st.cached.value.artifacts == rec
    requires if v in rec.commitments
             then |rec.commitments| <= r.Min()
                  && (|rec.commitments| == r.Min() ==> v in rec.signingShares && |rec.signingShares| < r.Min())
             else v in rec.commitmentsOther
    ensures RunRounds(st, v, r.Min(), tk) == st
  {
    if v in rec.commitments && |rec.commitments| == r.Min() {
      assert DoCommit(st, v, r.Min(), tk) == (st, true);
      assert DoSign(st, v, r.Min(), tk) == (st, false);
    } else {
      assert DoCommit(st, v, r.Min(), tk) == (st, false);
    }
  }

  lemma RestTick(r: Round, rec: PegoutRecord, m: Move, st: State)
    requires RecordOk(r, rec) && FaultFree(r, rec, m) && m.idx in rec.signaturesMask
    requires Current(r, rec, m.idx, st)
    ensures RunRounds(st, m.idx, r.Min(), m.tick) == DropNonces(st)
    ensures OracleOk(r, rec, m.idx, DropNonces(st))
  {
    assert DoCommit(st, m.idx, r.Min(), m.tick) == (st, true);
    assert DoSign(st, m.idx, r.Min(), m.tick) == (st, true);
  }

  /** An oracle with nothing to contribute stays silent. */
  lemma IdleTick(r: Round, rec: PegoutRecord, m: Move, st: State)
    requires RecordOk(r, rec) && FaultFree(r, rec, m) && m.idx in r.validators && !Enabled(r, rec, m.idx)
    requires Current(r, rec, m.idx, st)
    ensures var st1 := RunRounds(st, m.idx, r.Min(), m.tick);
            st1.ledger.sent == st.ledger.sent && OracleOk(r, rec, m.idx, st1)
  {
    SharesWithinThreshold(r, rec);
    if m.idx in rec.signaturesMask {
      RestTick(r, rec, m, st);
    } else {
      WaitTick(r, rec, m.idx, m.tick, st);
    }
  }

  // ----- the world moves -----

  /** Only `v` may have appeared in the record. */
  ghost predicate Grew(rec: PegoutRecord, rec1: PegoutRecord, v: uint16) {
    && (forall u | u in rec1.commitments :: u in rec.commitments || u == v)
    && (forall u | u in rec.commitments :: u in rec1.commitments && rec1.commitments[u] == rec.commitments[u])
    && (forall u | u != v :: u in rec1.signingShares <==> u in rec.signingShares)
    && (rec.expiredAt == 0 || rec1.expiredAt == rec.expiredAt)
  }

  lemma AcceptCommitments(r: Round, rec: PegoutRecord, v: uint16, payload: Bytes)
    requires RecordOk(r, rec) && CanCommit(r, rec, v) && |rec.commitments| < r.Min()
    requires Commitments.Deserialized(payload, r.Inputs(), Commitments.FROST_COMMITMENT_LENGTH).Ok?
    ensures var rec1 := Accept(r, rec, CommitmentsMsg(r.id, rec.expiredAt, v, payload));
            rec1 == rec.(commitments := rec.commitments[v := payload], expiredAt := r.deadline)
            && RecordOk(r, rec1) && Grew(rec, rec1, v)
  {
  }

  lemma CommitmentsCounted(r: Round, rec: PegoutRecord, rec1: PegoutRecord, v: uint16)
    requires RecordOk(r, rec) && CanCommit(r, rec, v)
    requires rec1 == rec.(commitments := rec1.commitments, expiredAt := rec1.expiredAt)
          || rec1 == rec.(commitmentsOther := rec1.commitmentsOther)
    requires forall u :: u in rec1.commitments || u in rec1.commitmentsOther
                    <==> u in rec.commitments || u in rec.commitmentsOther || u == v
    ensures Measure(r, rec1) == Measure(r, rec) - 1
  {
    assert v in Waiting(r, rec);
    assert Waiting(r, rec1) == Waiting(r, rec) - {v};
  }

  lemma AcceptLateCommitments(r: Round, rec: PegoutRecord, v: uint16, payload: Bytes)
    requires RecordOk(r, rec) && CanCommit(r, rec, v) && |rec.commitments| == r.Min()
    ensures var rec1 := Accept(r, rec, CommitmentsMsg(r.id, rec.expiredAt, v, payload));
            rec1 == rec.(commitmentsOther := rec.commitmentsOther + {v})
            && RecordOk(r, rec1) && Grew(rec, rec1, v)
  {
  }

  lemma AcceptShare(r: Round, rec: PegoutRecord, v: uint16, shares: seq<Bytes>)
    requires RecordOk(r, rec) && CanSign(r, rec, v)
    ensures var rec1 := Accept(r, rec, ShareMsg(r.id, rec.expiredAt, v, shares));
            && RecordOk(r, rec1) && Grew(rec, rec1, v)
            && rec1.commitments == rec.commitments
            && Measure(r, rec1) == Measure(r, rec) - 1
  {
    var rec1 := Accept(r, rec, ShareMsg(r.id, rec.expiredAt, v, shares));
    SubsetSize(rec1.signingShares.Keys, rec.commitments.Keys);
    SubsetSize(rec.signingShares.Keys, rec.commitments.Keys);
  }

  /** What a signer sent for an input is what is aggregated for it. */
  lemma ShareArrives(r: Round, rec: PegoutRecord, v: uint16, shares: seq<Bytes>, i: nat)
    requires RecordOk(r, rec) && CanSign(r, rec, v) && |shares| == r.Inputs() && i < r.Inputs()
    ensures var rec1 := Accept(r, rec, ShareMsg(r.id, rec.expiredAt, v, shares));
            && ShareColumn(rec1.signingShares, i).Keys == ShareColumn(rec.signingShares, i).Keys + {v}
            && ShareColumn(rec1.signingShares, i)[v] == shares[i]
            && forall u | u in rec.signingShares :: ShareColumn(rec1.signingShares, i)[u] == ShareColumn(rec.signingShares, i)[u]
  {
  }

  lemma AcceptSignatures(r: Round, rec: PegoutRecord, v: uint16, signatures: seq<Bytes>)
    requires RecordOk(r, rec) && CanAggregate(r, rec, v)
    ensures var rec1 := Accept(r, rec, SignaturesMsg(r.id, rec.expiredAt, v, signatures));
            && RecordOk(r, rec1) && Grew(rec, rec1, v)
            && rec1 == rec.(signaturesMask := rec.signaturesMask + {v})
            && Measure(r, rec1) == Measure(r, rec) - 1
  {
    var rec1 := Accept(r, rec, SignaturesMsg(r.id, rec.expiredAt, v, signatures));
    assert rec1 == rec.(signaturesMask := rec.signaturesMask + {v});
    assert |rec1.signaturesMask| == |rec.signaturesMask| + 1;
    assert Waiting(r, rec1) == Waiting(r, rec);
  }

  lemma OthersKeep(r: Round, rec: PegoutRecord, rec1: PegoutRecord, v: uint16, u: uint16, st: State)
    requires RecordOk(r, rec) && RecordOk(r, rec1) && u != v
    requires OracleOk(r, rec, u, st)
    requires Grew(rec, rec1, v)
    ensures OracleOk(r, rec1, u, st)
  {
  }

  /** What one tick of oracle `v` does to the record and to that oracle. */
  ghost predicate Moved(r: Round, rec: PegoutRecord, rec1: PegoutRecord, v: uint16, st1: State)
    requires RecordOk(r, rec)
  {
    && RecordOk(r, rec1) && Grew(rec, rec1, v) && OracleOk(r, rec1, v, st1)
    && (Enabled(r, rec, v) ==> Measure(r, rec1) == Measure(r, rec) - 1)
    && (!Enabled(r, rec, v) ==> rec1 == rec)
    && (Done(r, rec) ==> Done(r, rec1))
  }

  ghost predicate RecordMoved(r: Round, rec: PegoutRecord, rec1: PegoutRecord, v: uint16)
    requires RecordOk(r, rec)
  {
    && RecordOk(r, rec1) && Grew(rec, rec1, v)
    && Measure(r, rec1) == Measure(r, rec) - 1
    && (Done(r, rec) ==> Done(r, rec1))
  }

  lemma CommitmentsAccepted(r: Round, rec: PegoutRecord, v: uint16, payload: Bytes)
    requires RecordOk(r, rec) && CanCommit(r, rec, v)
    requires Commitments.Deserialized(payload, r.Inputs(), Commitments.FROST_COMMITMENT_LENGTH).Ok?
    ensures var rec1 := Accept(r, rec, CommitmentsMsg(r.id, rec.expiredAt, v, payload));
            RecordMoved(r, rec, rec1, v) && rec1.signingShares == rec.signingShares
  {
    var rec1 := Accept(r, rec, CommitmentsMsg(r.id, rec.expiredAt, v, payload));
    if |rec.commitments| < r.Min() {
      AcceptCommitments(r, rec, v, payload);
    } else {
      AcceptLateCommitments(r, rec, v, payload);
    }
    CommitmentsCounted(r, rec, rec1, v);
  }

  lemma CommitMoved(r: Round, rec: PegoutRecord, m: Move, st: State)
    requires RecordOk(r, rec) && FaultFree(r, rec, m) && CanCommit(r, rec, m.idx)
    requires Current(r, rec, m.idx, st)
    ensures var st1 := RunRounds(st, m.idx, r.Min(), m.tick);
            Moved(r, rec, Recorded(r, rec, st, st1), m.idx, st1)
  {
    var payload := CommitTick(r, rec, m, st);
    var st1 := RunRounds(st, m.idx, r.Min(), m.tick);
    var msg := CommitmentsMsg(r.id, rec.expiredAt, m.idx, payload);
    OneMessage(r, rec, st, st1, msg);
    CommitmentsAccepted(r, rec, m.idx, payload);
    CommitterOk(r, rec, Accept(r, rec, msg), m.idx, st1);
  }

  lemma CommitterOk(r: Round, rec: PegoutRecord, rec1: PegoutRecord, v: uint16, st: State)
    requires RecordOk(r, rec) && RecordOk(r, rec1) && Grew(rec, rec1, v)
    requires Current(r, rec, v, st) && st.cached.value.commitments.Some? && st.cached.value.nonces.Some?
    requires v in rec1.commitments ==> Matches(r, rec1.commitments[v], st.cached.value.nonces.value)
    ensures OracleOk(r, rec1, v, st)
  {
  }

  lemma SignMoved(r: Round, rec: PegoutRecord, m: Move, st: State)
    requires RecordOk(r, rec) && FaultFree(r, rec, m) && CanSign(r, rec, m.idx)
    requires Current(r, rec, m.idx, st)
    ensures var st1 := RunRounds(st, m.idx, r.Min(), m.tick);
            Moved(r, rec, Recorded(r, rec, st, st1), m.idx, st1)
  {
    var shares := SignTick(r, rec, m, st);
    var st1 := RunRounds(st, m.idx, r.Min(), m.tick);
    var msg := ShareMsg(r.id, rec.expiredAt, m.idx, shares);
    OneMessage(r, rec, st, st1, msg);
    AcceptShare(r, rec, m.idx, shares);
    SignerOk(r, rec, Accept(r, rec, msg), m.idx, st, st1);
  }

  lemma SignerOk(r: Round, rec: PegoutRecord, rec1: PegoutRecord, v: uint16, st: State, st1: State)
    requires RecordOk(r, rec) && RecordOk(r, rec1) && Grew(rec, rec1, v) && v in rec1.signingShares
    requires Current(r, rec, v, st)
    requires st1.cached == st.cached && st1.sessionSigner == st.sessionSigner && st1.dkgUntil == st.dkgUntil
    ensures OracleOk(r, rec1, v, st1)
  {
  }

  lemma AggregateMoved(r: Round, rec: PegoutRecord, m: Move, st: State)
    requires RecordOk(r, rec) && FaultFree(r, rec, m) && CanAggregate(r, rec, m.idx)
    requires Current(r, rec, m.idx, st)
    ensures var st1 := RunRounds(st, m.idx, r.Min(), m.tick);
            Moved(r, rec, Recorded(r, rec, st, st1), m.idx, st1)
  {
    var signatures := AggregateTick(r, rec, m, st);
    OneMessage(r, rec, st, RunRounds(st, m.idx, r.Min(), m.tick), SignaturesMsg(r.id, rec.expiredAt, m.idx, signatures));
    AcceptSignatures(r, rec, m.idx, signatures);
  }

  lemma IdleMoved(r: Round, rec: PegoutRecord, m: Move, st: State)
    requires RecordOk(r, rec) && FaultFree(r, rec, m) && m.idx in r.validators && !Enabled(r, rec, m.idx)
    requires Current(r, rec, m.idx, st)
    ensures var st1 := RunRounds(st, m.idx, r.Min(), m.tick);
            Moved(r, rec, Recorded(r, rec, st, st1), m.idx, st1)
  {
    IdleTick(r, rec, m, st);
    assert st.ledger.sent[|st.ledger.sent|..] == [];
  }

  lemma TickMoved(r: Round, rec: PegoutRecord, m: Move, st: State)
    requires RecordOk(r, rec) && m.idx in r.validators && FaultFree(r, rec, m) && OracleOk(r, rec, m.idx, st)
    ensures Moved(r, rec, Recorded(r, rec, st, Next(st, m.tick)), m.idx, Next(st, m.tick))
  {
    var st1 := Enter(r, rec, m, st);
    if CanCommit(r, rec, m.idx) {
      CommitMoved(r, rec, m, st1);
    } else if CanSign(r, rec, m.idx) {
      SignMoved(r, rec, m, st1);
    } else if CanAggregate(r, rec, m.idx) {
      AggregateMoved(r, rec, m, st1);
    } else {
      IdleMoved(r, rec, m, st1);
    }
  }

  /** Either the oracle was enabled and one more message is on record, or the record stays put. */
  lemma StepOk(r: Round, w: World, m: Move)
    requires WorldOk(r, w) && m.idx in r.validators && FaultFree(r, w.record, m)
    ensures WorldOk(r, Step(r, w, m))
    ensures Enabled(r, w.record, m.idx) ==> Measure(r, Step(r, w, m).record) == Measure(r, w.record) - 1
    ensures !Enabled(r, w.record, m.idx) ==> Step(r, w, m).record == w.record
    ensures Done(r, w.record) ==> Done(r, Step(r, w, m).record)
  {
    var st := w.oracles[m.idx];
    TickMoved(r, w.record, m, st);
    WorldAfter(r, w, Recorded(r, w.record, st, Next(st, m.tick)), m.idx, Next(st, m.tick));
  }

  lemma WorldAfter(r: Round, w: World, rec1: PegoutRecord, v: uint16, st1: State)
    requires WorldOk(r, w) && v in r.validators
    requires RecordOk(r, rec1) && Grew(w.record, rec1, v) && OracleOk(r, rec1, v, st1)
    ensures WorldOk(r, World(rec1, w.oracles[v := st1]))
  {
    var w1 := World(rec1, w.oracles[v := st1]);
    assert w1.oracles.Keys == r.validators;
    forall u | u in w1.oracles ensures OracleOk(r, rec1, u, w1.oracles[u]) {
      if u != v {
        assert OracleOk(r, w.record, u, w.oracles[u]);
        OthersKeep(r, w.record, rec1, v, u, w.oracles[u]);
      }
    }
  }

  lemma OneMessage(r: Round, rec: PegoutRecord, st: State, st1: State, msg: Msg)
    requires CalcMinSigners(r.maxSigners).Some?
    requires st1.ledger.sent == st.ledger.sent + [msg]
    ensures Recorded(r, rec, st, st1) == Accept(r, rec, msg)
  {
    assert (st.ledger.sent + [msg])[|st.ledger.sent|..] == [msg];
    assert AcceptAll(r, rec, [msg]) == AcceptAll(r, Accept(r, rec, msg), [msg][1..]);
  }

  /** Nobody is stuck: while the round is not signed, some oracle's next tick adds to the record. */
  lemma SomeoneEnabled(r: Round, rec: PegoutRecord) returns (v: uint16)
    requires RecordOk(r, rec) && !Done(r, rec)
    ensures v in r.validators && Enabled(r, rec, v)
  {
    SharesWithinThreshold(r, rec);
    if |rec.commitments| < r.Min() {
      if r.validators <= rec.commitments.Keys {
        SubsetSize(r.validators, rec.commitments.Keys);
      }
      v :| v in r.validators && v !in rec.commitments;
    } else if rec.commitments.Keys <= rec.signingShares.Keys {
      assert rec.signingShares.Keys == rec.commitments.Keys;
      assert |rec.signingShares.Keys| == r.Min();
      v :| v in rec.commitments.Keys && v !in rec.signaturesMask;
    } else {
      v :| v in rec.commitments.Keys && v !in rec.signingShares;
    }
  }

  // ----- runs -----

  function RunMoves(r: Round, w: World, moves: seq<Move>): World
    requires CalcMinSigners(r.maxSigners).Some?
    decreases |moves|
  {
    if moves == [] then w else RunMoves(r, Step(r, w, moves[0]), moves[1..])
  }

  /** Every tick of the run is fault-free against the record it meets. */
  ghost predicate FaultFreeRun(r: Round, w: World, moves: seq<Move>)
    requires CalcMinSigners(r.maxSigners).Some?
    decreases |moves|
  {
    moves != [] ==>
      && moves[0].idx in r.validators
      && FaultFree(r, w.record, moves[0])
      && FaultFreeRun(r, Step(r, w, moves[0]), moves[1..])
  }

  ghost predicate Covers(moves: seq<Move>, validators: set<uint16>) {
    forall v | v in validators :: HasTurn(moves, v)
  }

  predicate HasTurn(moves: seq<Move>, v: uint16) {
    moves != [] && (moves[0].idx == v || HasTurn(moves[1..], v))
  }

  lemma {:induction false} RunOk(r: Round, w: World, moves: seq<Move>)
    requires WorldOk(r, w) && FaultFreeRun(r, w, moves)
    ensures WorldOk(r, RunMoves(r, w, moves))
    ensures Measure(r, RunMoves(r, w, moves).record) <= Measure(r, w.record)
    ensures Done(r, w.record) ==> Done(r, RunMoves(r, w, moves).record)
    decreases |moves|
  {
    if moves != [] {
      StepOk(r, w, moves[0]);
      RunOk(r, Step(r, w, moves[0]), moves[1..]);
    }
  }

  /** An enabled oracle stays enabled until the record grows, so its turn is never wasted. */
  lemma {:induction false} TurnLowers(r: Round, w: World, moves: seq<Move>, v: uint16)
    requires WorldOk(r, w) && FaultFreeRun(r, w, moves)
    requires HasTurn(moves, v) && Enabled(r, w.record, v)
    ensures Measure(r, RunMoves(r, w, moves).record) < Measure(r, w.record)
    decreases |moves|
  {
    var w1 := Step(r, w, moves[0]);
    StepOk(r, w, moves[0]);
    if Enabled(r, w.record, moves[0].idx) {
      RunOk(r, w1, moves[1..]);
    } else {
      TurnLowers(r, w1, moves[1..], v);
    }
  }

  lemma MeasureNatural(r: Round, rec: PegoutRecord)
    requires RecordOk(r, rec)
    ensures Measure(r, rec) >= 0
  {
    SharesWithinThreshold(r, rec);
  }

  /** One sweep over all oracles makes progress unless there is none left to make. */
  lemma SweepLowers(r: Round, w: World, sweep: seq<Move>)
    requires WorldOk(r, w) && FaultFreeRun(r, w, sweep) && Covers(sweep, r.validators)
    requires !Done(r, w.record)
    ensures WorldOk(r, RunMoves(r, w, sweep))
    ensures 0 <= Measure(r, RunMoves(r, w, sweep).record) < Measure(r, w.record)
  {
    var v := SomeoneEnabled(r, w.record);
    RunOk(r, w, sweep);
    TurnLowers(r, w, sweep, v);
    MeasureNatural(r, RunMoves(r, w, sweep).record);
  }

  /** A run cut into sweeps. */
  function RunSweeps(r: Round, w: World, sweeps: seq<seq<Move>>): World
    requires CalcMinSigners(r.maxSigners).Some?
    decreases |sweeps|
  {
    if sweeps == [] then w else RunSweeps(r, RunMoves(r, w, sweeps[0]), sweeps[1..])
  }

  /** No tick fails, and each sweep gives every oracle a turn. */
  ghost predicate FairAndFaultFree(r: Round, w: World, sweeps: seq<seq<Move>>)
    requires CalcMinSigners(r.maxSigners).Some?
    decreases |sweeps|
  {
    sweeps != [] ==>
      && FaultFreeRun(r, w, sweeps[0]) && Covers(sweeps[0], r.validators)
      && FairAndFaultFree(r, RunMoves(r, w, sweeps[0]), sweeps[1..])
  }

  /** Every fair fault-free run signs the pegout: as many sweeps over all oracles as there are
      messages still to record suffice, in whatever order each sweep visits them. */
  lemma {:induction false} FairRunFinishes(r: Round, w: World, sweeps: seq<seq<Move>>)
    requires WorldOk(r, w) && FairAndFaultFree(r, w, sweeps)
    requires |sweeps| >= Measure(r, w.record) || Done(r, w.record)
    ensures Done(r, RunSweeps(r, w, sweeps).record)
    decreases |sweeps|
  {
    if sweeps == [] {
      if !Done(r, w.record) {
        NotDoneCounts(r, w.record);
      }
    } else {
      RunOk(r, w, sweeps[0]);
      if !Done(r, w.record) {
        SweepLowers(r, w, sweeps[0]);
      }
      FairRunFinishes(r, RunMoves(r, w, sweeps[0]), sweeps[1..]);
    }
  }

  /** Nothing in a round rules a fault-free tick out. */
  lemma FaultFreeMove(r: Round, rec: PegoutRecord, v: uint16) returns (m: Move)
    requires r.Valid()
    ensures m.idx == v && FaultFree(r, rec, m)
  {
    m := Move(v, Tick(Some([rec]), r.dkgUntil, r.maxSigners, Some(r.keyOf(v)), _ => Some(v), 0, Some(r.tx), true,
                      _ => Some(([], r.commitmentOf([]))),
                      (call: SignCall) => if v in call.column && call.column[v] == r.commitmentOf(call.nonce) then Share([])
                                        else SignFailed(None),
                      Keystore.Written, _ => Signature([]), 0, {}));
  }

  lemma {:induction false} FaultFreeSweep(r: Round, w: World, todo: set<uint16>) returns (sweep: seq<Move>)
    requires WorldOk(r, w) && todo <= r.validators
    ensures FaultFreeRun(r, w, sweep) && Covers(sweep, todo)
    decreases |todo|
  {
    sweep := [];
    if todo != {} {
      var v :| v in todo;
      var m := FaultFreeMove(r, w.record, v);
      StepOk(r, w, m);
      var rest := FaultFreeSweep(r, Step(r, w, m), todo - {v});
      sweep := [m] + rest;
      assert sweep[1..] == rest;
      forall u | u in todo ensures HasTurn(sweep, u) {
        assert u == v || HasTurn(rest, u);
      }
    }
  }

  lemma {:induction false} FaultFreeSweeps(r: Round, w: World, n: nat) returns (sweeps: seq<seq<Move>>)
    requires WorldOk(r, w)
    ensures |sweeps| == n && FairAndFaultFree(r, w, sweeps)
    decreases n
  {
    sweeps := [];
    if n > 0 {
      var sweep := FaultFreeSweep(r, w, r.validators);
      RunOk(r, w, sweep);
      var rest := FaultFreeSweeps(r, RunMoves(r, w, sweep), n - 1);
      sweeps := [sweep] + rest;
      assert sweeps[1..] == rest;
    }
  }

  /** From wherever a round is, it can still be signed. */
  lemma CanAlwaysFinish(r: Round, w: World) returns (sweeps: seq<seq<Move>>)
    requires WorldOk(r, w)
    ensures FairAndFaultFree(r, w, sweeps) && Done(r, RunSweeps(r, w, sweeps).record)
  {
    MeasureNatural(r, w.record);
    sweeps := FaultFreeSweeps(r, w, Measure(r, w.record));
    FairRunFinishes(r, w, sweeps);
  }

  // ----- signers that forget -----

  /** An accepted signer whose nonces are gone before its share is recorded, with no share on file: the
      process has restarted, or taken up another pegout in between. New nonces are as bad as none. */
  ghost predicate Lost(r: Round, rec: PegoutRecord, v: uint16, st: State) {
    && SessionOk(r, v, st)
    && v in rec.commitments && v !in rec.signingShares
    && (st.cached.Some? && st.cached.value.id == r.id ==> SameTx(r, st.cached.value))
    && (!Forgot(r, st) ==> !CanShare(r, rec, v, st))
  }

  /** Like `WorldOk`, but processes may have restarted at any time. */
  ghost predicate WorldLikely(r: Round, w: World) {
    && RecordOk(r, w.record)
    && w.oracles.Keys == r.validators
    && forall v | v in w.oracles :: OracleOk(r, w.record, v, w.oracles[v]) || Lost(r, w.record, v, w.oracles[v])
  }

  /** A restart, whatever share files it leaves, loses what has not been sent. */
  lemma RestartLoses(r: Round, rec: PegoutRecord, v: uint16, leftover: map<string, string>)
    ensures if v in rec.commitments && v !in rec.signingShares then Lost(r, rec, v, Initial(leftover))
            else OracleOk(r, rec, v, Initial(leftover))
  {
  }

  lemma CacheLost(r: Round, rec: PegoutRecord, v: uint16, st: State, tk: Tick) returns (st1: State)
    requires RecordOk(r, rec) && Lost(r, rec, v, st) && tk.txParts == Some(r.tx)
    ensures CachePegout(st, rec, tk) == Some(st1) && st1.ledger.sent == st.ledger.sent
    ensures Lost(r, rec, v, st1) && st1.cached.Some? && st1.cached.value.artifacts == rec
    ensures SameTx(r, st1.cached.value) && !Forgot(r, st1)
  {
    st1 := CachePegout(st, rec, tk).value;
  }

  lemma EnterLost(r: Round, rec: PegoutRecord, m: Move, st: State) returns (st1: State)
    requires RecordOk(r, rec) && Lost(r, rec, m.idx, st) && FaultFree(r, rec, m)
    ensures Lost(r, rec, m.idx, st1) && st1.cached.Some? && st1.cached.value.artifacts == rec
    ensures SameTx(r, st1.cached.value) && !Forgot(r, st1)
    ensures Next(st, m.tick) == RunRounds(st1, m.idx, r.Min(), m.tick)
    ensures st1.ledger.sent == st.ledger.sent
  {
    var st2 := Reload(r, rec, m, st);
    st1 := CacheLost(r, rec, m.idx, st2, m.tick);
  }

  /** Without its nonces an accepted signer sends no share, at most a claim. */
  lemma RoundsWithoutNonces(st: State, idx: uint16, minSigners: uint16, tk: Tick)
    requires st.cached.Some? && SignFrom(st.cached.value, st.ledger.Epoch(), tk, 0).shares.None?
    requires LoadShares(st, st.cached.value.addr).None?
    requires idx in st.cached.value.artifacts.commitments && idx !in st.cached.value.artifacts.signingShares
    ensures var st1 := RunRounds(st, idx, minSigners, tk);
            && st1.cached == st.cached && st1.files == st.files
            && st1.sessionSigner == st.sessionSigner && st1.dkgUntil == st.dkgUntil
            && (st1.ledger.sent == st.ledger.sent || exists m: Msg :: m.ClaimMsg? && st1.ledger.sent == st.ledger.sent + [m])
  {
    MakesNoShares(st, idx, tk);
    if st.cached.value.artifacts.CommitmentsCount() >= minSigners && st.cached.value.signingHashes != [] {
      assert DoSign(st, idx, minSigners, tk) == (MakeShares(st, idx, tk), false);
    }
  }

  lemma MakesNoShares(st: State, idx: uint16, tk: Tick)
    requires st.cached.Some? && SignFrom(st.cached.value, st.ledger.Epoch(), tk, 0).shares.None?
    ensures var st1 := MakeShares(st, idx, tk);
            && st1.cached == st.cached && st1.files == st.files
            && st1.sessionSigner == st.sessionSigner && st1.dkgUntil == st.dkgUntil
            && (st1.ledger.sent == st.ledger.sent || exists m: Msg :: m.ClaimMsg? && st1.ledger.sent == st.ledger.sent + [m])
  {
  }

  lemma LostTick(r: Round, rec: PegoutRecord, m: Move, st: State)
    requires RecordOk(r, rec) && Lost(r, rec, m.idx, st) && FaultFree(r, rec, m)
    ensures Lost(r, rec, m.idx, Next(st, m.tick))
    ensures Recorded(r, rec, st, Next(st, m.tick)) == rec
  {
    var st1 := EnterLost(r, rec, m, st);
    SharesExactly(r, rec, m, st1.cached.value, st1.ledger.Epoch());
    RoundsWithoutNonces(st1, m.idx, r.Min(), m.tick);
    NothingRecorded(r, rec, st, RunRounds(st1, m.idx, r.Min(), m.tick));
  }

  lemma NothingRecorded(r: Round, rec: PegoutRecord, st: State, st1: State)
    requires CalcMinSigners(r.maxSigners).Some?
    requires st1.ledger.sent == st.ledger.sent || exists m: Msg :: m.ClaimMsg? && st1.ledger.sent == st.ledger.sent + [m]
    ensures Recorded(r, rec, st, st1) == rec
  {
    if st1.ledger.sent == st.ledger.sent {
      assert st.ledger.sent[|st.ledger.sent|..] == [];
    } else {
      var m: Msg :| m.ClaimMsg? && st1.ledger.sent == st.ledger.sent + [m];
      OneMessage(r, rec, st, st1, m);
    }
  }

  lemma OthersStay(r: Round, rec: PegoutRecord, rec1: PegoutRecord, v: uint16, u: uint16, st: State)
    requires RecordOk(r, rec) && RecordOk(r, rec1) && u != v && Grew(rec, rec1, v)
    requires OracleOk(r, rec, u, st) || Lost(r, rec, u, st)
    ensures OracleOk(r, rec, u, st) ==> OracleOk(r, rec1, u, st)
    ensures Lost(r, rec, u, st) ==> Lost(r, rec1, u, st)
  {
    if OracleOk(r, rec, u, st) {
      OthersKeep(r, rec, rec1, v, u, st);
    }
  }

  lemma LikelyAfter(r: Round, w: World, rec1: PegoutRecord, v: uint16, st1: State)
    requires WorldLikely(r, w) && v in r.validators
    requires RecordOk(r, rec1) && Grew(w.record, rec1, v)
    requires OracleOk(r, rec1, v, st1) || Lost(r, rec1, v, st1)
    ensures WorldLikely(r, World(rec1, w.oracles[v := st1]))
  {
    forall u | u in w.oracles && u != v
      ensures OracleOk(r, rec1, u, w.oracles[u]) || Lost(r, rec1, u, w.oracles[u])
    {
      OthersStay(r, w.record, rec1, v, u, w.oracles[u]);
    }
  }

  lemma LostAfter(r: Round, w: World, rec1: PegoutRecord, v: uint16, u: uint16)
    requires WorldLikely(r, w) && v in r.validators && u in w.oracles && u != v
    requires RecordOk(r, rec1) && Grew(w.record, rec1, v)
    requires Lost(r, w.record, u, w.oracles[u])
    ensures Lost(r, rec1, u, w.oracles[u])
  {
    OthersStay(r, w.record, rec1, v, u, w.oracles[u]);
  }

  lemma LikelyMoved(r: Round, rec: PegoutRecord, m: Move, st: State) returns (rec1: PegoutRecord, st1: State)
    requires RecordOk(r, rec) && m.idx in r.validators && FaultFree(r, rec, m)
    requires OracleOk(r, rec, m.idx, st) || Lost(r, rec, m.idx, st)
    ensures st1 == Next(st, m.tick) && rec1 == Recorded(r, rec, st, st1)
    ensures RecordOk(r, rec1) && Grew(rec, rec1, m.idx)
    ensures if Lost(r, rec, m.idx, st) then Lost(r, rec1, m.idx, st1) else OracleOk(r, rec1, m.idx, st1)
  {
    st1 := Next(st, m.tick);
    rec1 := Recorded(r, rec, st, st1);
    if Lost(r, rec, m.idx, st) {
      LostTick(r, rec, m, st);
    } else {
      TickMoved(r, rec, m, st);
    }
  }

  /** A step brings back nobody's nonces. */
  lemma LostStay(r: Round, w: World, m: Move)
    requires WorldLikely(r, w) && m.idx in r.validators && FaultFree(r, w.record, m)
    ensures WorldLikely(r, Step(r, w, m))
    ensures forall v | v in w.oracles && Lost(r, w.record, v, w.oracles[v]) ::
              Lost(r, Step(r, w, m).record, v, Step(r, w, m).oracles[v])
  {
    var rec1, st1 := LikelyMoved(r, w.record, m, w.oracles[m.idx]);
    LikelyAfter(r, w, rec1, m.idx, st1);
    forall u | u in w.oracles && u != m.idx && Lost(r, w.record, u, w.oracles[u])
      ensures Lost(r, rec1, u, w.oracles[u])
    {
      LostAfter(r, w, rec1, m.idx, u);
    }
  }

  lemma {:induction false} LostInRun(r: Round, w: World, moves: seq<Move>, v: uint16)
    requires WorldLikely(r, w) && FaultFreeRun(r, w, moves)
    requires v in w.oracles && Lost(r, w.record, v, w.oracles[v])
    ensures var w1 := RunMoves(r, w, moves);
            WorldLikely(r, w1) && Lost(r, w1.record, v, w1.oracles[v])
    decreases |moves|
  {
    if moves != [] {
      LostStay(r, w, moves[0]);
      LostInRun(r, Step(r, w, moves[0]), moves[1..], v);
    }
  }

  lemma {:induction false} LostInSweeps(r: Round, w: World, sweeps: seq<seq<Move>>, v: uint16)
    requires WorldLikely(r, w) && FairAndFaultFree(r, w, sweeps)
    requires v in w.oracles && Lost(r, w.record, v, w.oracles[v])
    ensures !Done(r, RunSweeps(r, w, sweeps).record)
    decreases |sweeps|
  {
    if sweeps != [] {
      LostInRun(r, w, sweeps[0], v);
      LostInSweeps(r, RunMoves(r, w, sweeps[0]), sweeps[1..], v);
    }
  }

  /** A continuation that signs the pegout. */
  ghost predicate Finishes(r: Round, w: World, sweeps: seq<seq<Move>>)
    requires r.Valid()
  {
    FairAndFaultFree(r, w, sweeps) && Done(r, RunSweeps(r, w, sweeps).record)
  }

  lemma NobodyLost(r: Round, w: World)
    requires WorldLikely(r, w) && forall v | v in w.oracles :: !Lost(r, w.record, v, w.oracles[v])
    ensures WorldOk(r, w)
  {
  }

  /** Wherever a round is, it can be signed before its deadline exactly when no accepted signer has lost
      its nonces. */
  lemma FinishesUnlessLost(r: Round, w: World)
    requires WorldLikely(r, w)
    ensures (exists sweeps :: Finishes(r, w, sweeps)) <==> forall v | v in w.oracles :: !Lost(r, w.record, v, w.oracles[v])
  {
    if v :| v in w.oracles && Lost(r, w.record, v, w.oracles[v]) {
      forall sweeps ensures !Finishes(r, w, sweeps) {
        if Finishes(r, w, sweeps) {
          LostInSweeps(r, w, sweeps, v);
        }
      }
    } else {
      NobodyLost(r, w);
      var sweeps := CanAlwaysFinish(r, w);
      assert Finishes(r, w, sweeps);
    }
  }

  lemma NotDoneCounts(r: Round, rec: PegoutRecord)
    requires RecordOk(r, rec) && !Done(r, rec)
    ensures Measure(r, rec) > 0
  {
    var v := SomeoneEnabled(r, rec);
    NothingLeft(r, rec, v);
  }

  /** Whoever is enabled is counted by the measure. */
  lemma NothingLeft(r: Round, rec: PegoutRecord, v: uint16)
    requires RecordOk(r, rec) && Enabled(r, rec, v)
    ensures Measure(r, rec) > 0
  {
    SharesWithinThreshold(r, rec);
    if CanCommit(r, rec, v) {
      assert v in Waiting(r, rec);
      assert |Waiting(r, rec)| > 0;
    } else if CanSign(r, rec, v) {
      OneMissing(rec.signingShares.Keys, rec.commitments.Keys, v);
    } else {
      OneMissing(rec.signaturesMask, rec.signingShares.Keys, v);
    }
  }

  lemma OneMissing(some: set<uint16>, all: set<uint16>, v: uint16)
    requires some <= all && v in all && v !in some
    ensures |some| < |all|
  {
    SubsetSize(some + {v}, all);
  }
}
