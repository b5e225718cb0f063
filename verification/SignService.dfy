/** The signing service as the objects it is made of, each method proved against its part of the
    tick. Nonces are byte arrays, because the service wipes them where they stand. */
module SignService {
  import opened Wrappers
  import opened ByteCodec
  import opened Threshold
  import opened SigningSpec
  import Spec = SigningSpec
  import Safety = SigningSafety
  import Commitments
  import Keystore
  import opened FrostIds

  function Contents(arrays: seq<array<byte>>): (c: seq<Bytes>)
    reads arrays
    ensures |c| == |arrays|
    ensures forall i | 0 <= i < |arrays| :: c[i] == arrays[i][..]
  {
    if arrays == [] then [] else [arrays[0][..]] + Contents(arrays[1..])
  }

  lemma ContentsMore(arrays: seq<array<byte>>, a: array<byte>)
    ensures Contents(arrays + [a]) == Contents(arrays) + [a[..]]
  {
  }

  method NewArray(b: Bytes) returns (a: array<byte>)
    ensures fresh(a) && a[..] == b
  {
    a := new byte[|b|](k requires 0 <= k < |b| => b[k]);
  }

  class CachedPegout {
    const id: nat
    const addrStr: string
    const inputs: seq<Bytes>
    const signingHashes: seq<Bytes>
    var artifacts: PegoutRecord
    var nonces: Option<seq<array<byte>>>
    var commitments: Option<seq<Bytes>>

    constructor (unsignedPegout: PegoutRecord, tx: TxParts)
      ensures nonces.None? && commitments.None?
      ensures Value() == Cached(unsignedPegout.id, unsignedPegout.addr, tx.merkleRoots, tx.signingHashes,
                                unsignedPegout, None, None)
    {
      id := unsignedPegout.id;
      addrStr := unsignedPegout.addr;
      inputs := tx.merkleRoots;
      signingHashes := tx.signingHashes;
      artifacts := unsignedPegout;
      nonces := None;
      commitments := None;
    }

    ghost function Arrays(): set<object>
      reads this
    {
      if nonces.Some? then set a | a in nonces.value else {}
    }

    ghost function Value(): Cached
      reads this, Arrays()
    {
      Cached(id, addrStr, inputs, signingHashes, artifacts,
             if nonces.Some? then Some(Contents(nonces.value)) else None,
             commitments)
    }
  }

  lemma OneLess<V>(m: map<uint16, V>, todo: set<uint16>, k: uint16)
    requires k in m && k in todo
    ensures m - (todo - {k}) == (m - todo)[k := m[k]]
  {
  }

  /** The signers are visited in map order, and two with one identifier would overwrite each other in
      that order; without bit 7 the packages are those of the validators, re-keyed. */
  method FilterSharesByHashIndex(shares: map<uint16, map<uint16, Bytes>>, index: uint16)
    returns (byValidator: map<uint16, Bytes>, packages: map<Identifier, Bytes>)
    ensures byValidator == ShareColumn(shares, index)
    ensures (forall v | v in shares :: !Bit7(v)) ==> packages == FrostMap(byValidator)
    ensures Rekeyed(byValidator, packages)
  {
    byValidator, packages := map[], map[];
    var todo := shares.Keys;
    while todo != {}
      invariant todo <= shares.Keys
      invariant byValidator == ShareColumn(shares, index) - todo
      invariant Rekeyed(byValidator, packages)
      decreases |todo|
    {
      var v :| v in todo;
      var share := if index in shares[v] then shares[v][index] else [];
      OneLess(ShareColumn(shares, index), todo, v);
      todo := todo - {v};
      RekeyedMore(byValidator, packages, v, share);
      byValidator := byValidator[v := share];
      packages := packages[ValidatorIdxToFrost(v) := share];
    }
    if forall v | v in shares :: !Bit7(v) {
      FrostMapUnique(byValidator, packages);
    }
  }

  class SignService {
    const keyStore: Keystore.FileKeystore
    var cachedPegout: CachedPegout?
    var dkgUntil: int
    var sessionSigner: Option<Bytes>
    ghost var ledger: Ledger

    constructor (keyStore: Keystore.FileKeystore)
      ensures this.keyStore == keyStore
      ensures Abs() == Spec.Initial(keyStore.temp)
      ensures cachedPegout == null
    {
      this.keyStore := keyStore;
      cachedPegout := null;
      dkgUntil := 0;
      sessionSigner := None;
      ledger := Ledger(0, [], [], map[], []);
    }

    ghost function Footprint(): set<object>
      reads this, cachedPegout
    {
      {this, keyStore} + if cachedPegout == null then {} else {cachedPegout} + cachedPegout.Arrays()
    }

    ghost function Abs(): State
      reads this, keyStore, cachedPegout, if cachedPegout == null then {} else cachedPegout.Arrays()
    {
      State(if cachedPegout == null then None else Some(cachedPegout.Value()),
            keyStore.temp, dkgUntil, sessionSigner, ledger)
    }

    /** A message leaves the process. */
    method Send(msg: Msg)
      modifies this`ledger
      ensures Abs() == old(Abs()).Send(msg)
    {
      ledger := ledger.(sent := ledger.sent + [msg]);
    }

    /** Overwrites every nonce with zeros, in place, before letting go of it. */
    method CleanupNonces()
      requires cachedPegout != null
      modifies cachedPegout`nonces, cachedPegout.Arrays()
      ensures Abs() == Spec.DropNonces(old(Abs()))
      ensures cachedPegout.nonces.None?
      ensures old(cachedPegout.nonces).Some? ==>
                forall i, j | 0 <= i < |old(cachedPegout.nonces).value| && 0 <= j < old(cachedPegout.nonces).value[i].Length ::
                  old(cachedPegout.nonces).value[i][j] == 0
    {
      if cachedPegout.nonces == None {
        return;
      }
      var nonces := cachedPegout.nonces.value;
      for i := 0 to |nonces|
        modifies cachedPegout.Arrays()
        invariant forall k, j | 0 <= k < i && 0 <= j < nonces[k].Length :: nonces[k][j] == 0
      {
        for j := 0 to nonces[i].Length
          modifies nonces[i]
          invariant forall k, l | 0 <= k < i && 0 <= l < nonces[k].Length :: nonces[k][l] == 0
          invariant forall l | 0 <= l < j :: nonces[i][l] == 0
        {
          nonces[i][j] := 0;
        }
      }
      cachedPegout.nonces := None;
    }

    method CleanupCommitments()
      requires cachedPegout != null
      modifies cachedPegout`commitments
      ensures cachedPegout.Value() == old(cachedPegout.Value()).(commitments := None)
    {
      cachedPegout.commitments := None;
    }

    /** The round changed under the cached pegout. */
    method DropRound()
      requires cachedPegout != null
      modifies cachedPegout`nonces, cachedPegout`commitments, cachedPegout.Arrays(), keyStore, this`ledger
      ensures Abs() == Spec.DropRound(old(Abs()))
      ensures cachedPegout.nonces.None?
    {
      CleanupNonces();
      CleanupCommitments();
      keyStore.Cleanup();
      ledger := ledger.(life := ledger.life + 1, fileEpoch := map[]);
    }

    method CachePegout(unsignedPegout: PegoutRecord, tk: Tick) returns (ok: bool)
      modifies Footprint()
      ensures fresh(Footprint() - old(Footprint()))
      ensures ok == Spec.CachePegout(old(Abs()), unsignedPegout, tk).Some?
      ensures Abs() == if ok then Spec.CachePegout(old(Abs()), unsignedPegout, tk).value else old(Abs())
      ensures ok ==> cachedPegout != null
    {
      if cachedPegout != null && cachedPegout.id == unsignedPegout.id {
        if cachedPegout.artifacts.expiredAt != 0 && cachedPegout.artifacts.expiredAt != unsignedPegout.expiredAt {
          DropRound();
        }
        cachedPegout.artifacts := unsignedPegout;
        return true;
      }
      if tk.txParts == None {
        return false;
      }
      keyStore.Cleanup();
      cachedPegout := new CachedPegout(unsignedPegout, tk.txParts.value);
      ledger := ledger.(life := ledger.life + 1, fileEpoch := map[]);
      return true;
    }

    /** One FROST commitment per input; the first failure discards them all. */
    method Commit(inputsCount: nat, tk: Tick)
      returns (r: Option<(seq<array<byte>>, seq<Bytes>)>)
      ensures r.Some? == (tk.hasSecret && CommitAll(tk, inputsCount).Some?)
      ensures r.Some? ==> forall a | a in r.value.0 :: fresh(a)
      ensures r.Some? ==> CommitAll(tk, inputsCount) == Some((Contents(r.value.0), r.value.1))
    {
      if !tk.hasSecret {
        return None;
      }
      var nonces: seq<array<byte>> := [];
      var commitments: seq<Bytes> := [];
      ghost var drawn: seq<Bytes> := [];
      for i := 0 to inputsCount
        invariant forall a | a in nonces :: fresh(a)
        invariant Contents(nonces) == drawn
        invariant CommitAll(tk, i) == Some((drawn, commitments))
      {
        var made := tk.commit(i);
        CommitAllNext(tk, i, drawn, commitments);
        if made == None {
          CommitAllPrefix(tk, i + 1, inputsCount);
          return None;
        }
        var nonce := NewArray(made.value.0);
        ContentsMore(nonces, nonce);
        drawn := drawn + [made.value.0];
        nonces := nonces + [nonce];
        commitments := commitments + [made.value.1];
      }
      return Some((nonces, commitments));
    }

    method GenerateCommitments(tk: Tick) returns (ok: bool)
      requires cachedPegout != null
      modifies cachedPegout, this`ledger
      ensures fresh(Footprint() - old(Footprint()))
      ensures ok == Spec.GenerateCommitments(old(Abs()), tk).Some?
      ensures Abs() == if ok then Spec.GenerateCommitments(old(Abs()), tk).value else old(Abs())
      ensures ok ==> cachedPegout.commitments.Some?
    {
      if cachedPegout.nonces == None || cachedPegout.commitments == None {
        if cachedPegout.nonces == None && cachedPegout.commitments == None {
          var made := Commit(|cachedPegout.inputs|, tk);
          if made == None {
            return false;
          }
          cachedPegout.nonces := Some(made.value.0);
          cachedPegout.commitments := Some(made.value.1);
          ledger := ledger.(commits := ledger.commits + [ledger.life]);
        } else {
          return false;
        }
      }
      return true;
    }

    method SendCommitments(validatorIdx: uint16)
      requires cachedPegout != null && cachedPegout.commitments.Some?
      modifies this`ledger
      ensures Abs() == Spec.SendCommitments(old(Abs()), validatorIdx)
    {
      var packed := Commitments.SerializeCommitments(cachedPegout.commitments.value, Commitments.FROST_COMMITMENT_LENGTH);
      if packed.Ok? {
        Send(CommitmentsMsg(cachedPegout.id, cachedPegout.artifacts.expiredAt, validatorIdx, packed.value));
      }
    }

    method DoCommit(validatorIdx: uint16, minSigners: uint16, tk: Tick) returns (goOn: bool)
      requires cachedPegout != null
      modifies cachedPegout, this`ledger
      ensures fresh(Footprint() - old(Footprint()))
      ensures (Abs(), goOn) == Spec.DoCommit(old(Abs()), validatorIdx, minSigners, tk)
    {
      var record := cachedPegout.artifacts;
      if record.HasCommitment(validatorIdx) {
        return record.CommitmentsCount() >= minSigners;
      }
      if record.HasCommitmentOther(validatorIdx) {
        return false;
      }
      var ok := GenerateCommitments(tk);
      if ok {
        SendCommitments(validatorIdx);
      }
      return false;
    }

    method ExecuteClaim(validatorIdx: uint16, culprit: Option<uint16>)
      requires cachedPegout != null
      modifies this`ledger
      ensures Abs() == Spec.ExecuteClaim(old(Abs()), validatorIdx, culprit)
    {
      if culprit.Some? && validatorIdx !in cachedPegout.artifacts.claimsMask {
        Send(ClaimMsg(cachedPegout.id, cachedPegout.artifacts.expiredAt, validatorIdx, culprit.value));
      }
    }

    ghost method Record(use: SignUse)
      modifies this`ledger
      ensures Abs() == old(Abs()).(ledger := old(ledger).(uses := old(ledger).uses + [use]))
    {
      ledger := ledger.(uses := ledger.uses + [use]);
    }

    /** Hands input `i` to FROST if everything it needs is there, and names the culprit if FROST does. */
    method SignInput(validatorIdx: uint16, i: nat, tk: Tick) returns (share: Option<Bytes>)
      requires cachedPegout != null
      modifies this`ledger
      ensures match PrepareInput(old(Abs()).cached.value, old(ledger).Epoch(), tk, i)
              case None => share == None && Abs() == old(Abs())
              case Some(use) =>
                var st := old(Abs()).(ledger := old(ledger).(uses := old(ledger).uses + [use]));
                match tk.sign(use.Call())
                case Share(s) => share == Some(s) && Abs() == st
                case SignFailed(culprit) => share == None && Abs() == Spec.ExecuteClaim(st, validatorIdx, culprit)
    {
      var pegout := cachedPegout;
      var column := Commitments.DeserializeInputCommitmentForAll(pegout.artifacts.commitments, |pegout.inputs|, i);
      if column == None || |pegout.signingHashes| <= i {
        return None;
      }
      if pegout.nonces == None || |pegout.nonces.value| <= i || |pegout.inputs| <= i {
        return None;
      }
      if !tk.hasSecret {
        return None;
      }
      var nonce := pegout.nonces.value[i][..];
      Record(SignUse(ledger.Epoch(), i, nonce, pegout.signingHashes[i], pegout.inputs[i],
                     column.value, pegout.id, pegout.artifacts.expiredAt, pegout.artifacts.commitments));
      match tk.sign(SignCall(i, nonce, pegout.signingHashes[i], pegout.inputs[i], column.value))
      case Share(s) =>
        return Some(s);
      case SignFailed(culprit) =>
        ExecuteClaim(validatorIdx, culprit);
        return None;
    }

    /** Signs the inputs in order and stops at the first that fails. */
    method SignInputs(validatorIdx: uint16, tk: Tick) returns (signShares: Option<seq<Bytes>>)
      requires cachedPegout != null
      modifies this`ledger
      ensures var run := SignFrom(old(Abs()).cached.value, old(ledger).Epoch(), tk, 0);
              && signShares == run.shares
              && Abs() == Spec.ExecuteClaim(old(Abs()).(ledger := old(ledger).(uses := old(ledger).uses + run.uses)),
                                            validatorIdx, run.culprit)
    {
      ghost var ledger0 := ledger;
      ghost var c := cachedPegout.Value();
      ghost var e := ledger.Epoch();
      ghost var run := SignFrom(c, e, tk, 0);
      ghost var done: seq<SignUse> := [];
      var shares: seq<Bytes> := [];
      JoinedAtStart(run);
      assert ledger0.uses + done == ledger0.uses;
      for i := 0 to |cachedPegout.inputs|
        modifies this`ledger
        invariant ledger == ledger0.(uses := ledger0.uses + done)
        invariant Joined(run, done, shares, SignFrom(c, e, tk, i))
      {
        JoinNext(run, done, shares, c, e, tk, i);
        var share := SignInput(validatorIdx, i, tk);
        ghost var use := PrepareInput(c, e, tk, i);
        if use.Some? {
          assert ledger0.uses + done + [use.value] == ledger0.uses + (done + [use.value]);
          done := done + [use.value];
        }
        if share == None {
          return None;
        }
        shares := shares + [share.value];
      }
      assert done + [] == done && shares + [] == shares;
      return Some(shares);
    }

    method StoreShares(signShares: seq<Bytes>, tk: Tick)
      requires cachedPegout != null
      modifies keyStore, this`ledger
      ensures Abs() == Spec.StoreShares(old(Abs()), cachedPegout.addrStr, signShares, tk.write)
    {
      keyStore.StoreSigningShares(cachedPegout.addrStr, signShares, tk.write);
      if tk.write.Written? || tk.write.Cut? {
        ledger := ledger.(fileEpoch := ledger.fileEpoch[cachedPegout.addrStr := ledger.Epoch()]);
      }
    }

    method MakeShares(validatorIdx: uint16, tk: Tick)
      requires cachedPegout != null
      modifies keyStore, this`ledger
      ensures Abs() == Spec.MakeShares(old(Abs()), validatorIdx, tk)
    {
      var signShares := SignInputs(validatorIdx, tk);
      if signShares == None {
        return;
      }
      StoreShares(signShares.value, tk);
      Send(ShareMsg(cachedPegout.id, cachedPegout.artifacts.expiredAt, validatorIdx, signShares.value));
    }

    method DoSign(validatorIdx: uint16, minSigners: uint16, tk: Tick) returns (goOn: bool)
      requires cachedPegout != null
      modifies keyStore, this`ledger
      ensures (Abs(), goOn) == Spec.DoSign(old(Abs()), validatorIdx, minSigners, tk)
    {
      var record := cachedPegout.artifacts;
      if !record.HasCommitment(validatorIdx) {
        return false;
      }
      if record.HasSigningShare(validatorIdx) {
        return record.SigningSharesCount() >= minSigners;
      }
      if |cachedPegout.signingHashes| == 0 {
        return false;
      }
      var signShares := keyStore.LoadSigningShares(cachedPegout.addrStr);
      if signShares == None {
        MakeShares(validatorIdx, tk);
      } else {
        Send(ShareMsg(cachedPegout.id, record.expiredAt, validatorIdx, signShares.value));
      }
      return false;
    }

    method SendSignatures(validatorIdx: uint16, signatures: seq<Bytes>, tk: Tick)
      requires cachedPegout != null
      modifies this`ledger
      ensures Abs() == Spec.SendSignatures(old(Abs()), validatorIdx, signatures, tk)
    {
      Send(SignaturesMsg(cachedPegout.id, cachedPegout.artifacts.expiredAt, validatorIdx, signatures));
      if tk.sendSignaturesExitCode == DIFFERENT_PEGOUT_SIGNATURES {
        ExecuteClaim(validatorIdx, HighestBit(cachedPegout.artifacts.signaturesMask, 0x1_0000));
      }
    }

    /** Aggregates the inputs in order and stops at the first that fails. */
    method AggregateInputs(tk: Tick) returns (signatures: Option<seq<Bytes>>, culprit: Option<uint16>)
      requires cachedPegout != null
      ensures AggregateRun(signatures, culprit) == AggregateFrom(cachedPegout.Value(), tk, 0)
    {
      ghost var c := cachedPegout.Value();
      ghost var run := AggregateFrom(c, tk, 0);
      var sigs: seq<Bytes> := [];
      for i := 0 to |cachedPegout.inputs|
        invariant var rest := AggregateFrom(c, tk, i);
                  && run.culprit == rest.culprit
                  && (run.signatures.Some? <==> rest.signatures.Some?)
                  && (rest.signatures.Some? ==> run.signatures.value == sigs + rest.signatures.value)
      {
        var column := Commitments.DeserializeInputCommitmentForAll(
          cachedPegout.artifacts.commitments, |cachedPegout.inputs|, i);
        if column == None {
          return None, None;
        }
        var shares, _ := FilterSharesByHashIndex(cachedPegout.artifacts.signingShares, i % 0x1_0000);
        match tk.aggregate(AggregateCall(i, At(cachedPegout.signingHashes, i), At(cachedPegout.inputs, i), column.value, shares))
        case AggregateFailed(blamed) =>
          return None, blamed;
        case Signature(signature) =>
          sigs := sigs + [signature];
      }
      assert sigs + [] == sigs;
      return Some(sigs), None;
    }

    method DoAggregate(validatorIdx: uint16, tk: Tick)
      requires cachedPegout != null
      modifies cachedPegout`nonces, cachedPegout.Arrays(), this`ledger
      ensures Abs() == Spec.DoAggregate(old(Abs()), validatorIdx, tk)
      ensures cachedPegout.nonces.None?
    {
      CleanupNonces();
      if validatorIdx in cachedPegout.artifacts.signaturesMask {
        return;
      }
      var signatures, culprit := AggregateInputs(tk);
      if signatures == None {
        ExecuteClaim(validatorIdx, culprit);
      } else {
        SendSignatures(validatorIdx, signatures.value, tk);
      }
    }

    method RunRounds(validatorIdx: uint16, minSigners: uint16, tk: Tick)
      requires cachedPegout != null
      modifies Footprint()
      ensures Abs() == Spec.RunRounds(old(Abs()), validatorIdx, minSigners, tk)
      ensures fresh(Footprint() - old(Footprint()))
    {
      var committed := DoCommit(validatorIdx, minSigners, tk);
      if committed {
        var signed := DoSign(validatorIdx, minSigners, tk);
        if signed {
          DoAggregate(validatorIdx, tk);
        }
      }
    }

    method ResetPegoutSigning(pegoutId: nat, validatorIdx: uint16)
      modifies this
      ensures Abs() == old(Abs()).Send(ResetMsg(pegoutId, validatorIdx)).(cached := None)
      ensures cachedPegout == null
    {
      Send(ResetMsg(pegoutId, validatorIdx));
      cachedPegout := null;
    }

    method CacheAndRun(validatorIdx: uint16, unsignedPegout: PegoutRecord, tk: Tick)
      modifies Footprint()
      ensures Abs() ==
        match (Spec.CachePegout(old(Abs()), unsignedPegout, tk), CalcMinSigners(tk.maxSigners))
        case (Some(st1), Some(minSigners)) => Spec.RunRounds(st1, validatorIdx, minSigners, tk)
        case (Some(st1), None) => st1
        case (None, _) => old(Abs())
      ensures fresh(Footprint() - old(Footprint()))
    {
      var ok := CachePegout(unsignedPegout, tk);
      if !ok {
        return;
      }
      var minSigners := CalcMinSigners(tk.maxSigners);
      if minSigners.Some? {
        RunRounds(validatorIdx, minSigners.value, tk);
      }
    }

    method ProcessRecord(validatorIdx: uint16, unsignedPegout: PegoutRecord, tk: Tick)
      modifies Footprint()
      ensures Abs() == Spec.ProcessRecord(old(Abs()), validatorIdx, unsignedPegout, tk)
      ensures fresh(Footprint() - old(Footprint()))
    {
      if !unsignedPegout.CheckSigningMask(validatorIdx) {
        return;
      }
      if unsignedPegout.expiredAt != 0 && unsignedPegout.expiredAt < tk.now {
        ResetPegoutSigning(unsignedPegout.id, validatorIdx);
        return;
      }
      CacheAndRun(validatorIdx, unsignedPegout, tk);
    }

    method Execute(tk: Tick)
      modifies Footprint()
      ensures Abs() == Spec.Execute(old(Abs()), tk)
      ensures fresh(Footprint() - old(Footprint()))
    {
      if tk.records == None || |tk.records.value| == 0 {
        return;
      }
      if dkgUntil != tk.dkgUntil || sessionSigner == None {
        if tk.session == None {
          return;
        }
        sessionSigner := tk.session;
        dkgUntil := tk.dkgUntil;
      }
      var idx := tk.findValidatorIdx(sessionSigner.value);
      if idx == None {
        return;
      }
      ProcessRecord(idx.value, tk.records.value[0], tk);
    }

    /** Between two ticks share files may vanish. */
    method Step(tk: Tick)
      modifies Footprint()
      ensures Abs() == Spec.Next(old(Abs()), tk)
      ensures fresh(Footprint() - old(Footprint()))
    {
      keyStore.Vanish(tk.lost);
      Execute(tk);
    }

    /** The ticker loop of a new process. Whatever the ticks are, no nonce serves two messages. */
    method Work(ticks: seq<Tick>)
      requires Abs() == Spec.Initial(keyStore.temp)
      modifies Footprint()
      ensures Abs() == Spec.Run(old(keyStore.temp), ticks)
      ensures Safety.CoordinatorKeepsPromises(ticks) ==> Safety.UsesAgree(ledger.uses)
    {
      for i := 0 to |ticks|
        invariant fresh(Footprint() - old(Footprint()))
        invariant Abs() == Spec.Run(old(keyStore.temp), ticks[..i])
      {
        assert ticks[..i + 1][..i] == ticks[..i];
        Step(ticks[i]);
      }
      assert ticks[..|ticks|] == ticks;
      if Safety.CoordinatorKeepsPromises(ticks) {
        Safety.NonceSingleUse(old(keyStore.temp), ticks);
      }
    }
  }

  /** A signing loop part-way: what is behind it and what lies ahead make up the whole. */
  ghost predicate Joined(run: SignRun, done: seq<SignUse>, shares: seq<Bytes>, rest: SignRun) {
    && run.uses == done + rest.uses && run.culprit == rest.culprit
    && run.shares == if rest.shares.Some? then Some(shares + rest.shares.value) else None
  }

  lemma JoinedAtStart(run: SignRun)
    ensures Joined(run, [], [], run)
  {
    assert [] + run.uses == run.uses;
    assert run.shares.Some? ==> [] + run.shares.value == run.shares.value;
  }

  lemma JoinNext(run: SignRun, done: seq<SignUse>, shares: seq<Bytes>, c: Cached, e: nat, tk: Tick, i: nat)
    requires i < |c.inputs| && Joined(run, done, shares, SignFrom(c, e, tk, i))
    ensures match PrepareInput(c, e, tk, i)
            case None => run == SignRun(done, None, None)
            case Some(use) =>
              match tk.sign(use.Call())
              case SignFailed(culprit) => run == SignRun(done + [use], None, culprit)
              case Share(share) => Joined(run, done + [use], shares + [share], SignFrom(c, e, tk, i + 1))
  {
    var rest := SignFrom(c, e, tk, i + 1);
    match PrepareInput(c, e, tk, i)
    case None =>
    case Some(use) =>
      match tk.sign(use.Call())
      case SignFailed(_) =>
      case Share(share) =>
        assert done + ([use] + rest.uses) == done + [use] + rest.uses;
        if rest.shares.Some? {
          assert shares + ([share] + rest.shares.value) == shares + [share] + rest.shares.value;
        }
  }

  lemma CommitAllNext(tk: Tick, i: nat, nonces: seq<Bytes>, commitments: seq<Bytes>)
    requires CommitAll(tk, i) == Some((nonces, commitments))
    ensures CommitAll(tk, i + 1) ==
      match tk.commit(i) { case None => None case Some((n, c)) => Some((nonces + [n], commitments + [c])) }
  {
  }

  lemma {:induction false} CommitAllPrefix(tk: Tick, i: nat, n: nat)
    requires i <= n && CommitAll(tk, i).None?
    ensures CommitAll(tk, n).None?
    decreases n
  {
    if i < n {
      CommitAllPrefix(tk, i, n - 1);
    }
  }
}
