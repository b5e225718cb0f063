/** One tick of the threshold-signing service, as a function of the state and of what the tick sees.

    A tick sees a snapshot of the coordinator's records and the answers of the libraries it calls
    (key store, FROST, the TON client). The ledger is bookkeeping for the proofs: it lists what
    left the process or was handed to FROST, and no branch depends on it. */
module SigningSpec {
  import opened Wrappers
  import opened ByteCodec
  import opened Threshold
  import Commitments
  import Keystore

  const DIFFERENT_PEGOUT_SIGNATURES: int := 168

  datatype PegoutRecord = PegoutRecord(
    id: nat,
    addr: string,
    commitments: map<uint16, Bytes>,
    commitmentsOther: set<uint16>,
    signingShares: map<uint16, map<uint16, Bytes>>,
    signaturesMask: set<uint16>,
    claimsMask: set<uint16>,
    expiredAt: nat, // 0 is the Unix epoch: no deadline set yet
    signingMask: set<uint16>
  ) {
    predicate HasCommitment(idx: uint16) {
      idx in commitments
    }

    predicate HasCommitmentOther(idx: uint16) {
      idx in commitmentsOther
    }

    function CommitmentsCount(): uint16 {
      |commitments| % 0x1_0000
    }

    predicate HasSigningShare(idx: uint16) {
      idx in signingShares
    }

    function SigningSharesCount(): nat {
      |signingShares|
    }

    predicate CheckSigningMask(idx: uint16) {
      idx in signingMask
    }
  }

  datatype PegoutTx = PegoutTx(internalKey: Bytes, merkleRoots: seq<Bytes>, signingHashes: seq<Bytes>)

  /** What the pegout contract and the signing-hash builder yield: one hash for each sorted input. */
  type TxParts = tx: PegoutTx | |tx.merkleRoots| == |tx.signingHashes| witness PegoutTx([], [], [])

  datatype Cached = Cached(
    id: nat,
    addr: string,
    inputs: seq<Bytes>, // the Merkle root of each input
    signingHashes: seq<Bytes>,
    artifacts: PegoutRecord,
    nonces: Option<seq<Bytes>>,
    commitments: Option<seq<Bytes>>
  )

  datatype SignOutcome = Share(share: Bytes) | SignFailed(signCulprit: Option<uint16>)

  /** What `frost.SignWithTweak` is given besides the key package; the column is by validator. */
  datatype SignCall = SignCall(
    input: nat,
    nonce: Bytes,
    hash: Bytes,
    merkleRoot: Bytes,
    column: map<uint16, Bytes>
  )

  /** What `frost.AggregateWithTweak` is given besides the public key package; maps are by validator. */
  datatype AggregateCall = AggregateCall(
    input: nat,
    hash: Bytes,
    merkleRoot: Bytes,
    column: map<uint16, Bytes>,
    shares: map<uint16, Bytes>
  )

  datatype AggregateOutcome = Signature(signature: Bytes) | AggregateFailed(culprit: Option<uint16>)

  datatype Tick = Tick(
    records: Option<seq<PegoutRecord>>,             // GetUnsignedPegouts
    dkgUntil: int,
    maxSigners: uint16,
    session: Option<Bytes>,                         // LoadSessionSigner: the session's public key
    findValidatorIdx: Bytes -> Option<uint16>,      // FindValidatorIdx among the session keys
    now: int,
    txParts: Option<TxParts>,
    hasSecret: bool,                                // LoadSecret finds the key package
    commit: nat -> Option<(Bytes, Bytes)>,          // frost.Commit for input i
    sign: SignCall -> SignOutcome,                  // frost.SignWithTweak
    write: Keystore.Write,                          // how the share file gets written
    aggregate: AggregateCall -> AggregateOutcome,   // frost.AggregateWithTweak
    sendSignaturesExitCode: int,
    lost: set<string>                               // share files that vanished before the tick
  )

  datatype Msg =
    | CommitmentsMsg(id: nat, until: nat, idx: uint16, payload: Bytes)
    | ShareMsg(id: nat, until: nat, idx: uint16, shares: seq<Bytes>)
    | SignaturesMsg(id: nat, until: nat, idx: uint16, signatures: seq<Bytes>)
    | ClaimMsg(id: nat, until: nat, idx: uint16, culprit: uint16)
    | ResetMsg(id: nat, idx: uint16)

  /** One call of `frost.SignWithTweak`: everything it is given, and the round it was made in. */
  datatype SignUse = SignUse(
    epoch: nat, // which run of `Commit` made the nonce
    input: nat,
    nonce: Bytes,
    hash: Bytes,
    merkleRoot: Bytes,
    column: map<uint16, Bytes>,
    id: nat,
    until: nat,
    commitments: map<uint16, Bytes>
  ) {
    function Call(): SignCall {
      SignCall(input, nonce, hash, merkleRoot, column)
    }
  }

  datatype Ledger = Ledger(
    life: nat,                    // how often the nonce slot was emptied together with its commitments
    commits: seq<nat>,            // the life in which each run of `Commit` happened
    uses: seq<SignUse>,
    fileEpoch: map<string, nat>,  // whose nonces signed the shares in each file
    sent: seq<Msg>
  ) {
    function Epoch(): nat {
      |commits|
    }
  }

  datatype State = State(
    cached: Option<Cached>,
    files: map<string, string>,
    dkgUntil: int,
    sessionSigner: Option<Bytes>,
    ledger: Ledger
  ) {
    function Send(msg: Msg): State {
      this.(ledger := ledger.(sent := ledger.sent + [msg]))
    }
  }

  /** A fresh process; an earlier one may have left share files behind. */
  function Initial(leftover: map<string, string>): State {
    State(None, leftover, 0, None, Ledger(0, [], [], map[], []))
  }

  // ----- caching -----

  /** The round changed under a cached pegout: forget its nonces, commitments and share files. */
  function DropRound(st: State): State
    requires st.cached.Some?
  {
    st.(cached := Some(st.cached.value.(nonces := None, commitments := None)),
        files := map[],
        ledger := st.ledger.(life := st.ledger.life + 1, fileEpoch := map[]))
  }

  function CachePegout(st: State, rec: PegoutRecord, tk: Tick): Option<State> {
    if st.cached.Some? && st.cached.value.id == rec.id then
      var was := st.cached.value.artifacts.expiredAt;
      var st1 := if was != 0 && was != rec.expiredAt then DropRound(st) else st;
      Some(st1.(cached := Some(st1.cached.value.(artifacts := rec))))
    else if tk.txParts.None? then None
    else
      var tx := tk.txParts.value;
      Some(st.(cached := Some(Cached(rec.id, rec.addr, tx.merkleRoots, tx.signingHashes, rec, None, None)),
               files := map[],
               ledger := st.ledger.(life := st.ledger.life + 1, fileEpoch := map[])))
  }

  // ----- round one: commitments -----

  function CommitAll(tk: Tick, count: nat): Option<(seq<Bytes>, seq<Bytes>)> {
    if count == 0 then Some(([], []))
    else
      match (CommitAll(tk, count - 1), tk.commit(count - 1))
      case (Some((nonces, commitments)), Some((n, c))) => Some((nonces + [n], commitments + [c]))
      case _ => None
  }

  function GenerateCommitments(st: State, tk: Tick): Option<State>
    requires st.cached.Some?
  {
    var c := st.cached.value;
    if c.nonces.Some? && c.commitments.Some? then Some(st)
    else if c.nonces.Some? || c.commitments.Some? || !tk.hasSecret then None
    else
      match CommitAll(tk, |c.inputs|)
      case None => None
      case Some((nonces, commitments)) =>
        Some(st.(cached := Some(c.(nonces := Some(nonces), commitments := Some(commitments))),
                 ledger := st.ledger.(commits := st.ledger.commits + [st.ledger.life])))
  }

  function SendCommitments(st: State, idx: uint16): State
    requires st.cached.Some? && st.cached.value.commitments.Some?
  {
    var c := st.cached.value;
    match Commitments.Serialized(c.commitments.value, Commitments.FROST_COMMITMENT_LENGTH)
    case Ok(payload) => st.Send(CommitmentsMsg(c.id, c.artifacts.expiredAt, idx, payload))
    case Err(_) => st
  }

  function DoCommit(st: State, idx: uint16, minSigners: uint16, tk: Tick): (State, bool)
    requires st.cached.Some?
  {
    var record := st.cached.value.artifacts;
    if record.HasCommitment(idx) then (st, record.CommitmentsCount() >= minSigners)
    else if record.HasCommitmentOther(idx) then (st, false)
    else
      match GenerateCommitments(st, tk)
      case None => (st, false)
      case Some(st1) => (SendCommitments(st1, idx), false)
  }

  // ----- round two: signature shares -----

  function ExecuteClaim(st: State, idx: uint16, culprit: Option<uint16>): State
    requires st.cached.Some?
  {
    var record := st.cached.value.artifacts;
    if culprit.None? || idx in record.claimsMask then st
    else st.Send(ClaimMsg(st.cached.value.id, record.expiredAt, idx, culprit.value))
  }

  /** What signing the inputs from some index on hands to FROST, and how it ends. */
  datatype SignRun = SignRun(uses: seq<SignUse>, shares: Option<seq<Bytes>>, culprit: Option<uint16>)

  /** SignInput's checks, in the source's order, up to the call of FROST. */
  function PrepareInput(c: Cached, epoch: nat, tk: Tick, i: nat): Option<SignUse> {
    var column := Commitments.InputColumn(c.artifacts.commitments, |c.inputs|, i);
    if column.None? || |c.signingHashes| <= i || c.nonces.None? || |c.nonces.value| <= i
       || |c.inputs| <= i || !tk.hasSecret then None
    else Some(SignUse(epoch, i, c.nonces.value[i], c.signingHashes[i], c.inputs[i], column.value,
                      c.id, c.artifacts.expiredAt, c.artifacts.commitments))
  }

  function SignFrom(c: Cached, epoch: nat, tk: Tick, i: nat): SignRun
    decreases |c.inputs| - i
  {
    if i >= |c.inputs| then SignRun([], Some([]), None)
    else
      match PrepareInput(c, epoch, tk, i)
      case None => SignRun([], None, None)
      case Some(use) =>
        match tk.sign(use.Call())
        case SignFailed(culprit) => SignRun([use], None, culprit)
        case Share(share) =>
          var rest := SignFrom(c, epoch, tk, i + 1);
          SignRun([use] + rest.uses,
                  if rest.shares.Some? then Some([share] + rest.shares.value) else None,
                  rest.culprit)
  }

  /** Whether the write succeeded is not looked at. */
  function StoreShares(st: State, addr: string, shares: seq<Bytes>, write: Keystore.Write): State {
    var st1 := st.(files := Keystore.AfterWrite(st.files, addr, Keystore.ShareText(shares), write));
    if write.Written? || write.Cut?
    then st1.(ledger := st.ledger.(fileEpoch := st.ledger.fileEpoch[addr := st.ledger.Epoch()]))
    else st1
  }

  function SendShares(st: State, idx: uint16, shares: seq<Bytes>): State
    requires st.cached.Some?
  {
    var c := st.cached.value;
    st.Send(ShareMsg(c.id, c.artifacts.expiredAt, idx, shares))
  }

  function LoadShares(st: State, addr: string): Option<seq<Bytes>> {
    if addr in st.files then Keystore.SharesOf(st.files[addr]) else None
  }

  function MakeShares(st: State, idx: uint16, tk: Tick): State
    requires st.cached.Some?
  {
    var c := st.cached.value;
    var run := SignFrom(c, st.ledger.Epoch(), tk, 0);
    var st1 := ExecuteClaim(st.(ledger := st.ledger.(uses := st.ledger.uses + run.uses)), idx, run.culprit);
    if run.shares.None? then st1
    else SendShares(StoreShares(st1, c.addr, run.shares.value, tk.write), idx, run.shares.value)
  }

  function DoSign(st: State, idx: uint16, minSigners: uint16, tk: Tick): (State, bool)
    requires st.cached.Some?
  {
    var c := st.cached.value;
    if !c.artifacts.HasCommitment(idx) then (st, false)
    else if c.artifacts.HasSigningShare(idx) then (st, c.artifacts.SigningSharesCount() >= minSigners)
    else if c.signingHashes == [] then (st, false)
    else
      match LoadShares(st, c.addr)
      case Some(shares) => (SendShares(st, idx, shares), false)
      case None => (MakeShares(st, idx, tk), false)
  }

  // ----- aggregation -----

  datatype AggregateRun = AggregateRun(signatures: Option<seq<Bytes>>, culprit: Option<uint16>)

  /** Everybody's share for one input; a signer that sent too few counts with an empty one. */
  function ShareColumn(shares: map<uint16, map<uint16, Bytes>>, index: uint16): map<uint16, Bytes> {
    map v: uint16 | v in shares :: if index in shares[v] then shares[v][index] else []
  }

  /** There are as many hashes as inputs; Go would panic beyond the end of either. */
  function At(xs: seq<Bytes>, i: nat): Bytes {
    if i < |xs| then xs[i] else []
  }

  function AggregateArgs(inputs: seq<Bytes>, hashes: seq<Bytes>, rec: PegoutRecord, i: nat): Option<AggregateCall> {
    match Commitments.InputColumn(rec.commitments, |inputs|, i)
    case None => None
    case Some(column) =>
      Some(AggregateCall(i, At(hashes, i), At(inputs, i), column, ShareColumn(rec.signingShares, i % 0x1_0000)))
  }

  function AggregateFrom(c: Cached, tk: Tick, i: nat): AggregateRun
    decreases |c.inputs| - i
  {
    if i >= |c.inputs| then AggregateRun(Some([]), None)
    else
      match AggregateArgs(c.inputs, c.signingHashes, c.artifacts, i)
      case None => AggregateRun(None, None)
      case Some(call) =>
        match tk.aggregate(call)
        case AggregateFailed(culprit) => AggregateRun(None, culprit)
        case Signature(signature) =>
          var rest := AggregateFrom(c, tk, i + 1);
          AggregateRun(if rest.signatures.Some? then Some([signature] + rest.signatures.value) else None, rest.culprit)
  }

  /** The highest set bit below `n`. */
  function HighestBit(mask: set<uint16>, n: nat): Option<uint16>
    requires n <= 0x1_0000
  {
    if n == 0 then None else if n - 1 in mask then Some(n - 1) else HighestBit(mask, n - 1)
  }

  function SendSignatures(st: State, idx: uint16, signatures: seq<Bytes>, tk: Tick): State
    requires st.cached.Some?
  {
    var c := st.cached.value;
    var st1 := st.Send(SignaturesMsg(c.id, c.artifacts.expiredAt, idx, signatures));
    if tk.sendSignaturesExitCode == DIFFERENT_PEGOUT_SIGNATURES
    then ExecuteClaim(st1, idx, HighestBit(c.artifacts.signaturesMask, 0x1_0000))
    else st1
  }

  function DropNonces(st: State): State
    requires st.cached.Some?
  {
    st.(cached := Some(st.cached.value.(nonces := None)))
  }

  function DoAggregate(st: State, idx: uint16, tk: Tick): State
    requires st.cached.Some?
  {
    var st1 := DropNonces(st);
    var c := st1.cached.value;
    if idx in c.artifacts.signaturesMask then st1
    else
      var run := AggregateFrom(c, tk, 0);
      if run.signatures.None? then ExecuteClaim(st1, idx, run.culprit)
      else SendSignatures(st1, idx, run.signatures.value, tk)
  }

  // ----- the tick -----

  function RunRounds(st: State, idx: uint16, minSigners: uint16, tk: Tick): State
    requires st.cached.Some?
  {
    var (st1, committed) := DoCommit(st, idx, minSigners, tk);
    if !committed then st1
    else
      var (st2, signed) := DoSign(st1, idx, minSigners, tk);
      if !signed then st2 else DoAggregate(st2, idx, tk)
  }

  /** Once the session is known: the oldest record, for validator `idx`. */
  function ProcessRecord(st: State, idx: uint16, rec: PegoutRecord, tk: Tick): State {
    if !rec.CheckSigningMask(idx) then st
    else if rec.expiredAt != 0 && rec.expiredAt < tk.now then st.Send(ResetMsg(rec.id, idx)).(cached := None)
    else
      match (CachePegout(st, rec, tk), CalcMinSigners(tk.maxSigners))
      case (Some(st1), Some(minSigners)) => RunRounds(st1, idx, minSigners, tk)
      case (Some(st1), None) => st1
      case (None, _) => st
  }

  function Execute(st: State, tk: Tick): State {
    if tk.records.None? || tk.records.value == [] then st
    else
      var reload := st.dkgUntil != tk.dkgUntil || st.sessionSigner.None?;
      if reload && tk.session.None? then st
      else
        var st1 := if reload then st.(sessionSigner := tk.session, dkgUntil := tk.dkgUntil) else st;
        match tk.findValidatorIdx(st1.sessionSigner.value)
        case None => st1
        case Some(idx) => ProcessRecord(st1, idx, tk.records.value[0], tk)
  }

  /** A step of a run: share files may vanish, then the service ticks. */
  function Next(st: State, tk: Tick): State {
    Execute(st.(files := st.files - tk.lost), tk)
  }

  function Run(leftover: map<string, string>, ticks: seq<Tick>): State {
    if ticks == [] then Initial(leftover)
    else Next(Run(leftover, ticks[..|ticks| - 1]), ticks[|ticks| - 1])
  }
}
