/** One step of the key-ceremony executor, as a function of its state, of the coordinator snapshot it
    is given, and of what the native library, the random source and the key store answer.

    The ledger is bookkeeping for the proofs: which native secrets are allocated, which messages
    left, which private keys were used. No branch depends on it. */
module DkgSpec {
  import opened Wrappers
  import opened ByteCodec
  import opened Threshold
  import opened FrostIds
  import opened DkgPackages
  import opened DkgCrypto

  const DIFFERENT_PUBKEY_PACKAGES: int := 152

  datatype DkgState = Finished | InProgress | Part1Finished | Part2Finished

  datatype Dkg = Dkg(
    state: DkgState,
    until: nat,
    maxSigners: uint16,
    vsetMask: set<uint16>,
    r1Mask: set<uint16>,
    r2Mask: set<uint16>,
    r3Mask: set<uint16>,
    claimsMask: set<uint16>,
    r1Packages: map<uint16, Bytes>,
    r2Packages: map<uint16, Bytes>
  ) {
    predicate Round1Completed() {
      !state.InProgress?
    }

    predicate Round2Completed() {
      state.Finished? || state.Part2Finished?
    }

    predicate Round3Completed() {
      state.Finished?
    }
  }

  datatype KeyPair = KeyPair(public: Bytes, private: Bytes)

  datatype Part2Answer = Part2Ok(packages: OurPackages, secret2: nat) | Part2Failed(culprit2: Option<uint16>)

  datatype Part3Answer = Part3Ok(keyPackage: Bytes, publicKeyPackage: Bytes) | Part3Failed(culprit3: Option<uint16>)

  datatype Tick = Tick(
    dkg: Dkg,
    newSession: Option<Bytes>,           // NewSessionSigner
    keyInfo: Option<uint16>,             // FindKeyInfo: our index in the validator set, if any
    part1: Option<(Bytes, nat)>,         // frost.DkgPart1: package and native secret
    keyPair: Option<KeyPair>,            // box.GenerateKey
    part2: (nat, map<Identifier, Bytes>) -> Part2Answer, // frost.DkgPart2, by secret and the others' packages
    rand: Identifier -> Option<Nonce>,
    part3: (nat, map<Identifier, Bytes>, map<Identifier, Bytes>) -> Part3Answer, // frost.DkgPart3
    publicKey: Option<Bytes>,            // frost.ExtractPublicKeyFromPackage
    stored: bool,                        // StoreSecret succeeded
    sendExitCode: int                    // of SendPubkeyPackage; 0 is success
  )

  datatype Round1 = Round1(pkg: Bytes, secret: nat, keys: KeyPair)

  datatype Round2 = Round2(packages: Bytes, secret: nat)

  datatype Round3 = Round3(secretPackage: Bytes, publicKeyPackage: Bytes)

  datatype Msg =
    | R1Msg(until: nat, idx: uint16, pkg: Bytes, public: Bytes)
    | R2Msg(until: nat, idx: uint16, packages: Bytes)
    | R3Msg(until: nat, idx: uint16, signer: Option<Bytes>, publicKeyPackage: Bytes)
    | ClaimMsg(until: nat, idx: uint16, culprit: uint16)

  /** A call of Encrypt or Decrypt: the private key as it stood, and the public key sent in round one. */
  datatype KeyUse = KeyUse(until: nat, private: Bytes, public: Bytes)

  /** A ceremony's public key package; the ceremony is told by how often the artifacts were dropped before. */
  datatype CeremonyResult = CeremonyResult(ceremony: nat, publicKeyPackage: Bytes)

  datatype Ledger = Ledger(
    live1: set<nat>,
    live2: set<nat>,
    fault: bool, // a native secret was used or freed while not allocated
    sent: seq<Msg>,
    keyUses: seq<KeyUse>,
    dropped: nat,            // how often the artifacts were dropped
    persisted: set<CeremonyResult>,  // results whose secret package the key store took
    announced: set<CeremonyResult>   // results sent in round three
  )

  datatype State = State(
    until: nat,
    r1: Option<Round1>,
    r2: Option<Round2>,
    r3: Option<Round3>,
    sessionSigner: Option<Bytes>,
    idx: uint16,
    ledger: Ledger
  ) {
    function Send(msg: Msg): State {
      this.(ledger := ledger.(sent := ledger.sent + [msg]))
    }

    function Alloc1(h: nat): State {
      this.(ledger := ledger.(live1 := ledger.live1 + {h}))
    }

    function Alloc2(h: nat): State {
      this.(ledger := ledger.(live2 := ledger.live2 + {h}))
    }

    function Use1(h: nat): State {
      this.(ledger := ledger.(fault := ledger.fault || h !in ledger.live1))
    }

    function Use2(h: nat): State {
      this.(ledger := ledger.(fault := ledger.fault || h !in ledger.live2))
    }

    function Free1(h: nat): State {
      if h == 0 then this
      else this.(ledger := ledger.(fault := ledger.fault || h !in ledger.live1, live1 := ledger.live1 - {h}))
    }

    function Free2(h: nat): State {
      if h == 0 then this
      else this.(ledger := ledger.(fault := ledger.fault || h !in ledger.live2, live2 := ledger.live2 - {h}))
    }

    function Persist(publicKeyPackage: Bytes): State {
      this.(ledger := ledger.(persisted := ledger.persisted + {CeremonyResult(ledger.dropped, publicKeyPackage)}))
    }

    function Announce(): State
      requires r3.Some?
    {
      this.(ledger := ledger.(announced := ledger.announced + {CeremonyResult(ledger.dropped, r3.value.publicKeyPackage)}))
    }

    function UseKey(keys: KeyPair): State {
      this.(ledger := ledger.(keyUses := ledger.keyUses + [KeyUse(until, keys.private, keys.public)]))
    }
  }

  const INITIAL: State := State(0, None, None, None, None, 255, Ledger({}, {}, false, [], [], 0, {}, {}))

  // ----- sessions -----

  function Cleanup(st: State): State {
    var st1 := if st.r1.Some? then st.Free1(st.r1.value.secret) else st;
    var st2 := if st.r2.Some? then st1.Free2(st.r2.value.secret) else st1;
    st2.(r1 := None, r2 := None, r3 := None, sessionSigner := None,
         ledger := st2.ledger.(dropped := st2.ledger.dropped + 1))
  }

  function WipeKey(st: State): State {
    if st.r1.None? then st
    else st.(r1 := Some(st.r1.value.(keys := st.r1.value.keys.(private := Zeros(|st.r1.value.keys.private|)))))
  }

  function ExecuteClaim(st: State, dkg: Dkg, culprit: Option<uint16>): State {
    if culprit.None? || st.idx in dkg.claimsMask then st
    else st.Send(ClaimMsg(dkg.until, st.idx, culprit.value))
  }

  // ----- round one -----

  function MakeR1(st: State, tk: Tick): (State, bool) {
    if CalcMinSigners(tk.dkg.maxSigners).None? || tk.part1.None? then (st, false)
    else
      var st1 := st.Alloc1(tk.part1.value.1);
      if tk.keyPair.None? then (st1, false)
      else (st1.(r1 := Some(Round1(tk.part1.value.0, tk.part1.value.1, tk.keyPair.value))), true)
  }

  function ExecuteR1(st: State, tk: Tick): (State, bool) {
    if tk.dkg.Round1Completed() then (st, true)
    else if st.idx in tk.dkg.r1Mask then (st, false)
    else
      var (st1, ok) := if st.r1.None? then MakeR1(st, tk) else (st, true);
      if !ok || st1.r1.None? then (st1, false)
      else (st1.Send(R1Msg(tk.dkg.until, st1.idx, st1.r1.value.pkg, st1.r1.value.keys.public)), false)
  }

  // ----- round two -----

  function SessionOf(box: Box, st: State, keys: map<uint16, Bytes>, until: nat): Session
    requires st.r1.Some?
  {
    Session(box, keys, st.r1.value.keys.private, until, st.idx)
  }

  ghost function SealR2(box: Box, st: State, packages: OurPackages, secret: nat, keys: map<uint16, Bytes>,
                        tk: Tick): (State, bool)
    requires st.r1.Some?
  {
    var st1 := st.Alloc2(secret).UseKey(st.r1.value.keys);
    match SealAll(SessionOf(box, st, keys, tk.dkg.until), packages, tk.rand)
    case None => (st1, false)
    case Some(sealed) => (st1.(r2 := Some(Round2(Serialized(sealed), secret))), true)
  }

  /** Everybody's first-round packages but our own. */
  function Others(st: State, packages: map<Identifier, Bytes>): map<Identifier, Bytes> {
    packages - {ValidatorIdxToFrost(st.idx)}
  }

  ghost function MakeR2(box: Box, st: State, tk: Tick): (State, bool) {
    if st.r1.None? then (st, false)
    else
      match R1Parse(tk.dkg.r1Packages)
      case R1Culprit(culprit) => (ExecuteClaim(st, tk.dkg, Some(culprit)), false)
      case R1Parsed(r1Packages, keys) =>
        var st1 := st.Use1(st.r1.value.secret);
        match tk.part2(st.r1.value.secret, Others(st, r1Packages))
        case Part2Failed(culprit) => (ExecuteClaim(st1, tk.dkg, culprit), false)
        case Part2Ok(packages, secret) => SealR2(box, st1, packages, secret, keys, tk)
  }

  ghost function ExecuteR2(box: Box, st: State, tk: Tick): (State, bool) {
    if tk.dkg.Round2Completed() then (st, true)
    else if st.idx in tk.dkg.r2Mask then (st, false)
    else
      var (st1, ok) := if st.r2.None? then MakeR2(box, st, tk) else (st, true);
      if !ok || st1.r2.None? then (st1, false)
      else (st1.Send(R2Msg(tk.dkg.until, st1.idx, st1.r2.value.packages)), false)
  }

  // ----- round three -----

  /** What follows DkgPart3; the key pair is wiped as soon as its result is held, stored or not. */
  function FinishR3(st: State, answer: Part3Answer, tk: Tick): (State, bool)
    requires st.r2.Some?
  {
    var st1 := st.Use2(st.r2.value.secret);
    match answer
    case Part3Failed(culprit) => (ExecuteClaim(st1, tk.dkg, culprit), false)
    case Part3Ok(keyPackage, publicKeyPackage) =>
      if tk.publicKey.None? then (st1, false)
      else
        var st2 := WipeKey(st1.(r3 := Some(Round3(keyPackage, publicKeyPackage))));
        (if tk.stored then st2.Persist(publicKeyPackage) else st2, tk.stored)
  }

  function AfterOpen(st: State, r1Packages: map<Identifier, Bytes>, opening: DecryptOutcome, tk: Tick): (State, bool)
    requires st.r2.Some?
  {
    match opening
    case DecryptCulprit(culprit) => (ExecuteClaim(st, tk.dkg, Some(culprit)), false)
    case KeyMissing(_) => (st, false)
    case Decrypted(r2Packages) => FinishR3(st, tk.part3(st.r2.value.secret, r1Packages, r2Packages), tk)
  }

  ghost function OpenR2(box: Box, st: State, r1Packages: map<Identifier, Bytes>, keys: map<uint16, Bytes>,
                        received: map<uint16, map<uint16, Bytes>>, tk: Tick): (State, bool)
    requires st.r1.Some? && st.r2.Some?
  {
    AfterOpen(st.UseKey(st.r1.value.keys), r1Packages, OpenAll(SessionOf(box, st, keys, tk.dkg.until), received), tk)
  }

  ghost function MakeR3(box: Box, st: State, tk: Tick): (State, bool) {
    if st.r2.None? || st.r1.None? then (st, false)
    else
      match R1Parse(tk.dkg.r1Packages)
      case R1Culprit(culprit) => (ExecuteClaim(st, tk.dkg, Some(culprit)), false)
      case R1Parsed(r1Packages, keys) =>
        match R2Parse(tk.dkg.r2Packages, tk.dkg.vsetMask)
        case R2Culprit(culprit) => (ExecuteClaim(st, tk.dkg, Some(culprit)), false)
        case R2Nothing => (st, false)
        case R2Parsed(received) => OpenR2(box, st, Others(st, r1Packages), keys, received, tk)
  }

  /** The lowest bit of the mask below `n`, starting at `i`. */
  function LowestBit(mask: set<uint16>, i: uint16, n: uint16): Option<uint16>
    decreases n - i
  {
    if i >= n then None else if i in mask then Some(i) else LowestBit(mask, i + 1, n)
  }

  function SendR3(st: State, tk: Tick): State
    requires st.r3.Some?
  {
    var st1 := st.Announce().Send(R3Msg(tk.dkg.until, st.idx, st.sessionSigner, st.r3.value.publicKeyPackage));
    if tk.sendExitCode == DIFFERENT_PUBKEY_PACKAGES
    then ExecuteClaim(st1, tk.dkg, LowestBit(tk.dkg.r3Mask, 0, tk.dkg.maxSigners))
    else st1
  }

  ghost function ExecuteR3(box: Box, st: State, tk: Tick): State {
    if tk.dkg.Round3Completed() then WipeKey(st)
    else if st.idx in tk.dkg.r3Mask then st
    else
      var (st1, ok) := if st.r3.None? then MakeR3(box, st, tk) else (st, true);
      if !ok || st1.r3.None? then st1 else SendR3(st1, tk)
  }

  // ----- the step -----

  ghost function Rounds(box: Box, st: State, tk: Tick): State {
    var (st1, done1) := ExecuteR1(st, tk);
    if !done1 then st1
    else
      var (st2, done2) := ExecuteR2(box, st1, tk);
      if !done2 then st2 else ExecuteR3(box, st2, tk)
  }

  /** A later deadline starts a new ceremony; `None` when its session key cannot be made. */
  function StartIfNew(st: State, tk: Tick): (State, bool) {
    if tk.dkg.until <= st.until then (st, true)
    else if tk.newSession.None? then (Cleanup(st), false)
    else (Cleanup(st).(sessionSigner := tk.newSession, until := tk.dkg.until), true)
  }

  ghost function Execute(box: Box, st: State, tk: Tick): State {
    if tk.dkg.state.Finished? then Cleanup(st)
    else
      var (st1, started) := StartIfNew(st, tk);
      if !started || tk.keyInfo.None? then st1
      else
        var st2 := st1.(idx := tk.keyInfo.value);
        if st2.idx !in tk.dkg.vsetMask then st2 else Rounds(box, st2, tk)
  }

  ghost function Run(box: Box, ticks: seq<Tick>): State {
    if ticks == [] then INITIAL else Execute(box, Run(box, ticks[..|ticks| - 1]), ticks[|ticks| - 1])
  }
}
