/** Nonces are used once: the safety argument of two-round FROST (sections 5.1 and 5.2 of RFC 9591)
    for every run of the signing service. */
module SigningSafety {
  import opened Wrappers
  import opened ByteCodec
  import opened Threshold
  import opened SigningSpec
  import Commitments
  import Keystore

  // ----- what the coordinator contract promises -----

  ghost predicate SeesRecord(tk: Tick) {
    tk.records.Some? && tk.records.value != []
  }

  ghost predicate SeesThreshold(tk: Tick) {
    && SeesRecord(tk)
    && CalcMinSigners(tk.maxSigners).Some?
    && tk.records.value[0].CommitmentsCount() >= CalcMinSigners(tk.maxSigners).value
  }

  /** A round that holds a commitment has a deadline. */
  ghost predicate CommittedRoundHasDeadline(tk: Tick) {
    SeesRecord(tk) && tk.records.value[0].commitments != map[] ==> tk.records.value[0].expiredAt != 0
  }

  /** A pegout and a deadline name one round, whose commitments are frozen once enough are in. */
  ghost predicate FrozenBetween(a: Tick, b: Tick) {
    SeesThreshold(a) && SeesThreshold(b)
    && a.records.value[0].id == b.records.value[0].id
    && a.records.value[0].expiredAt == b.records.value[0].expiredAt
    ==> a.records.value[0].commitments == b.records.value[0].commitments
  }

  ghost predicate CoordinatorKeepsPromises(ticks: seq<Tick>) {
    && (forall i | 0 <= i < |ticks| :: CommittedRoundHasDeadline(ticks[i]))
    && (forall i, j | 0 <= i < |ticks| && 0 <= j < |ticks| :: FrozenBetween(ticks[i], ticks[j]))
  }

  // ----- the invariant -----

  /** `u` was made from what tick `tk` saw. */
  ghost predicate MadeFrom(u: SignUse, tk: Tick) {
    && SeesThreshold(tk)
    && u.id == tk.records.value[0].id
    && u.until == tk.records.value[0].expiredAt
    && u.commitments == tk.records.value[0].commitments
    && u.until != 0
  }

  /** The cached pegout still holds the nonces `u` used, in the round it used them in. */
  ghost predicate StillCurrent(u: SignUse, c: Cached) {
    && c.nonces.Some?
    && u.id == c.id
    && u.until == c.artifacts.expiredAt
    && u.input < |c.signingHashes| && u.hash == c.signingHashes[u.input]
    && u.input < |c.nonces.value| && u.nonce == c.nonces.value[u.input]
    && u.input < |c.inputs| && u.merkleRoot == c.inputs[u.input]
    && Commitments.InputColumn(u.commitments, |c.inputs|, u.input) == Some(u.column)
  }

  /** The two calls gave FROST the same nonce for the same message in the same signing package. */
  ghost predicate SameInput(u: SignUse, v: SignUse) {
    u.hash == v.hash && u.column == v.column && u.merkleRoot == v.merkleRoot && u.nonce == v.nonce
  }

  ghost predicate UsesAgree(uses: seq<SignUse>) {
    forall i, j | 0 <= i < |uses| && 0 <= j < |uses| ::
      uses[i].epoch == uses[j].epoch && uses[i].input == uses[j].input ==> SameInput(uses[i], uses[j])
  }

  ghost predicate NoncesOk(st: State) {
    && (st.cached.Some? && st.cached.value.nonces.Some? ==> st.cached.value.commitments.Some?)
    && (st.cached.Some? ==> |st.cached.value.inputs| == |st.cached.value.signingHashes|)
  }

  ghost predicate UsesOk(st: State) {
    && (forall u | u in st.ledger.uses :: u.epoch <= st.ledger.Epoch())
    && (st.cached.Some? && st.cached.value.nonces.Some? ==>
          forall u | u in st.ledger.uses && u.epoch == st.ledger.Epoch() :: StillCurrent(u, st.cached.value))
    && UsesAgree(st.ledger.uses)
  }

  /** Each life of the nonce slot sees at most one run of `Commit`. */
  ghost predicate LivesOk(st: State) {
    && (forall i, j | 0 <= i < j < |st.ledger.commits| :: st.ledger.commits[i] < st.ledger.commits[j])
    && (forall i | 0 <= i < |st.ledger.commits| :: st.ledger.commits[i] <= st.ledger.life)
    && (st.cached.Some? && st.cached.value.commitments.None? ==>
          forall i | 0 <= i < |st.ledger.commits| :: st.ledger.commits[i] < st.ledger.life)
  }

  /** Stored shares belong to the cached pegout and were signed with its present nonces. */
  ghost predicate FilesOk(st: State) {
    && (st.cached.Some? ==>
          forall f | f in st.files ::
            && f == st.cached.value.addr
            && st.cached.value.commitments.Some?
            && st.cached.value.artifacts.expiredAt != 0
            && f in st.ledger.fileEpoch && st.ledger.fileEpoch[f] == st.ledger.Epoch())
  }

  ghost predicate Known(u: SignUse, ticks: seq<Tick>) {
    exists k :: 0 <= k < |ticks| && MadeFrom(u, ticks[k])
  }

  ghost predicate Invariant(st: State, ticks: seq<Tick>) {
    && NoncesOk(st) && UsesOk(st) && LivesOk(st) && FilesOk(st)
    && (forall u | u in st.ledger.uses :: Known(u, ticks))
  }

  // ----- every part of a tick keeps it -----

  lemma CachePegoutKeeps(st: State, rec: PegoutRecord, tk: Tick, ticks: seq<Tick>)
    requires Invariant(st, ticks)
    requires rec.commitments != map[] ==> rec.expiredAt != 0
    ensures CachePegout(st, rec, tk).Some? ==>
              var st1 := CachePegout(st, rec, tk).value;
              Invariant(st1, ticks) && st1.cached.Some? && st1.cached.value.artifacts == rec
              && st1.cached.value.id == rec.id
  {
    if st.cached.Some? && st.cached.value.id == rec.id {
      var c := st.cached.value;
      var st1 := CachePegout(st, rec, tk).value;
      if c.artifacts.expiredAt == 0 || c.artifacts.expiredAt == rec.expiredAt {
        forall u | c.nonces.Some? && u in st.ledger.uses && u.epoch == st.ledger.Epoch()
          ensures StillCurrent(u, st1.cached.value)
        {
          var k :| 0 <= k < |ticks| && MadeFrom(u, ticks[k]);
          assert StillCurrent(u, c);
        }
      }
    }
  }

  lemma GenerateKeeps(st: State, tk: Tick, ticks: seq<Tick>)
    requires Invariant(st, ticks) && st.cached.Some?
    ensures GenerateCommitments(st, tk).Some? ==>
              var st1 := GenerateCommitments(st, tk).value;
              Invariant(st1, ticks) && st1.cached.Some? && st1.cached.value.commitments.Some?
  {
  }

  /** Every call made by one signing loop uses the cached nonces in the cached round. */
  lemma {:induction false} SignFromCurrent(c: Cached, epoch: nat, tk: Tick, i: nat)
    ensures forall u | u in SignFrom(c, epoch, tk, i).uses ::
              && u.epoch == epoch && StillCurrent(u, c)
              && u.commitments == c.artifacts.commitments
    ensures SignFrom(c, epoch, tk, i).shares.Some? && i < |c.inputs| ==> c.nonces.Some?
    decreases |c.inputs| - i
  {
    if i < |c.inputs| {
      SignFromCurrent(c, epoch, tk, i + 1);
    }
  }

  lemma AgreeWhenCurrent(u: SignUse, v: SignUse, c: Cached, ticks: seq<Tick>)
    requires CoordinatorKeepsPromises(ticks)
    requires StillCurrent(u, c) && StillCurrent(v, c) && u.input == v.input
    requires Known(u, ticks) && Known(v, ticks)
    ensures SameInput(u, v)
  {
    var j :| 0 <= j < |ticks| && MadeFrom(u, ticks[j]);
    var k :| 0 <= k < |ticks| && MadeFrom(v, ticks[k]);
    assert FrozenBetween(ticks[j], ticks[k]);
  }

  lemma UsesKept(st: State, c: Cached, more: seq<SignUse>, ticks: seq<Tick>)
    requires CoordinatorKeepsPromises(ticks)
    requires Invariant(st, ticks) && st.cached == Some(c)
    requires forall u | u in more :: u.epoch == st.ledger.Epoch() && StillCurrent(u, c)
    requires forall u | u in more :: Known(u, ticks)
    ensures Invariant(st.(ledger := st.ledger.(uses := st.ledger.uses + more)), ticks)
  {
    var uses := st.ledger.uses + more;
    forall i, j | 0 <= i < |uses| && 0 <= j < |uses| && uses[i].epoch == uses[j].epoch && uses[i].input == uses[j].input
      ensures SameInput(uses[i], uses[j])
    {
      if i < |st.ledger.uses| && j < |st.ledger.uses| {
      } else {
        var one := if i < |st.ledger.uses| then j else i;
        assert uses[one] in more;
        assert uses[i] in uses && uses[j] in uses;
        AgreeWhenCurrent(uses[i], uses[j], c, ticks);
      }
    }
  }

  lemma SendKeeps(st: State, msg: Msg, ticks: seq<Tick>)
    requires Invariant(st, ticks)
    ensures Invariant(st.Send(msg), ticks)
  {
  }

  lemma ClaimKeeps(st: State, idx: uint16, culprit: Option<uint16>, ticks: seq<Tick>)
    requires Invariant(st, ticks) && st.cached.Some?
    ensures Invariant(ExecuteClaim(st, idx, culprit), ticks)
    ensures ExecuteClaim(st, idx, culprit).(ledger := st.ledger) == st
    ensures ExecuteClaim(st, idx, culprit).ledger.(sent := st.ledger.sent) == st.ledger
  {
    if culprit.Some? {
      SendKeeps(st, ClaimMsg(st.cached.value.id, st.cached.value.artifacts.expiredAt, idx, culprit.value), ticks);
    }
  }

  lemma StoreKeeps(st: State, shares: seq<Bytes>, write: Keystore.Write, ticks: seq<Tick>)
    requires Invariant(st, ticks) && st.cached.Some?
    requires st.cached.value.commitments.Some? && st.cached.value.artifacts.expiredAt != 0
    ensures Invariant(StoreShares(st, st.cached.value.addr, shares, write), ticks)
  {
  }

  lemma MakeSharesKeeps(st: State, idx: uint16, tk: Tick, ticks: seq<Tick>)
    requires CoordinatorKeepsPromises(ticks) && tk in ticks
    requires Invariant(st, ticks) && st.cached.Some? && SeesThreshold(tk)
    requires st.cached.value.artifacts == tk.records.value[0] && st.cached.value.id == tk.records.value[0].id
    requires st.cached.value.artifacts.expiredAt != 0 && st.cached.value.signingHashes != []
    ensures Invariant(MakeShares(st, idx, tk), ticks)
  {
    var c := st.cached.value;
    var run := SignFrom(c, st.ledger.Epoch(), tk, 0);
    SignFromCurrent(c, st.ledger.Epoch(), tk, 0);
    var k :| 0 <= k < |ticks| && ticks[k] == tk;
    forall u | u in run.uses ensures Known(u, ticks) {
      assert StillCurrent(u, c);
      assert MadeFrom(u, ticks[k]);
    }
    UsesKept(st, c, run.uses, ticks);
    var st0 := st.(ledger := st.ledger.(uses := st.ledger.uses + run.uses));
    ClaimKeeps(st0, idx, run.culprit, ticks);
    var st1 := ExecuteClaim(st0, idx, run.culprit);
    if run.shares.Some? {
      StoreKeeps(st1, run.shares.value, tk.write, ticks);
      var st2 := StoreShares(st1, c.addr, run.shares.value, tk.write);
      SendKeeps(st2, ShareMsg(c.id, c.artifacts.expiredAt, idx, run.shares.value), ticks);
    }
  }

  lemma DoSignKeeps(st: State, idx: uint16, minSigners: uint16, tk: Tick, ticks: seq<Tick>)
    requires CoordinatorKeepsPromises(ticks) && tk in ticks
    requires Invariant(st, ticks) && st.cached.Some? && SeesThreshold(tk)
    requires st.cached.value.artifacts == tk.records.value[0] && st.cached.value.id == tk.records.value[0].id
    ensures Invariant(DoSign(st, idx, minSigners, tk).0, ticks)
    ensures DoSign(st, idx, minSigners, tk).0.cached.Some?
  {
    var c := st.cached.value;
    if c.artifacts.HasCommitment(idx) {
      var k :| 0 <= k < |ticks| && ticks[k] == tk;
      assert CommittedRoundHasDeadline(ticks[k]);
      assert idx in c.artifacts.commitments && c.artifacts.expiredAt != 0;
      match LoadShares(st, c.addr)
      case Some(shares) => SendKeeps(st, ShareMsg(c.id, c.artifacts.expiredAt, idx, shares), ticks);
      case None =>
        if c.signingHashes != [] {
          MakeSharesKeeps(st, idx, tk, ticks);
        }
    }
  }

  lemma DoCommitKeeps(st: State, idx: uint16, minSigners: uint16, tk: Tick, ticks: seq<Tick>)
    requires Invariant(st, ticks) && st.cached.Some?
    ensures Invariant(DoCommit(st, idx, minSigners, tk).0, ticks)
    ensures DoCommit(st, idx, minSigners, tk).1 ==>
              DoCommit(st, idx, minSigners, tk).0 == st && st.cached.value.artifacts.CommitmentsCount() >= minSigners
  {
    GenerateKeeps(st, tk, ticks);
    match GenerateCommitments(st, tk)
    case None =>
    case Some(st1) =>
      var c := st1.cached.value;
      match Commitments.Serialized(c.commitments.value, Commitments.FROST_COMMITMENT_LENGTH)
      case Ok(payload) => SendKeeps(st1, CommitmentsMsg(c.id, c.artifacts.expiredAt, idx, payload), ticks);
      case Err(_) =>
  }

  lemma DoAggregateKeeps(st: State, idx: uint16, tk: Tick, ticks: seq<Tick>)
    requires Invariant(st, ticks) && st.cached.Some?
    ensures Invariant(DoAggregate(st, idx, tk), ticks)
  {
    var st1 := DropNonces(st);
    assert Invariant(st1, ticks);
    var c := st1.cached.value;
    var run := AggregateFrom(c, tk, 0);
    ClaimKeeps(st1, idx, run.culprit, ticks);
    if run.signatures.Some? {
      var msg := SignaturesMsg(c.id, c.artifacts.expiredAt, idx, run.signatures.value);
      SendKeeps(st1, msg, ticks);
      ClaimKeeps(st1.Send(msg), idx, HighestBit(c.artifacts.signaturesMask, 0x1_0000), ticks);
    }
  }

  lemma RunRoundsKeeps(st: State, idx: uint16, minSigners: uint16, tk: Tick, ticks: seq<Tick>)
    requires CoordinatorKeepsPromises(ticks) && tk in ticks
    requires Invariant(st, ticks) && st.cached.Some?
    requires SeesRecord(tk) && CalcMinSigners(tk.maxSigners) == Some(minSigners)
    requires st.cached.value.artifacts == tk.records.value[0] && st.cached.value.id == tk.records.value[0].id
    ensures Invariant(RunRounds(st, idx, minSigners, tk), ticks)
  {
    DoCommitKeeps(st, idx, minSigners, tk, ticks);
    if DoCommit(st, idx, minSigners, tk).1 {
      DoSignKeeps(st, idx, minSigners, tk, ticks);
      var (st2, signed) := DoSign(st, idx, minSigners, tk);
      if signed {
        DoAggregateKeeps(st2, idx, tk, ticks);
      }
    }
  }

  lemma ProcessKeeps(st: State, idx: uint16, tk: Tick, ticks: seq<Tick>)
    requires CoordinatorKeepsPromises(ticks) && tk in ticks
    requires Invariant(st, ticks) && SeesRecord(tk)
    ensures Invariant(ProcessRecord(st, idx, tk.records.value[0], tk), ticks)
  {
    var rec := tk.records.value[0];
    var k :| 0 <= k < |ticks| && ticks[k] == tk;
    assert CommittedRoundHasDeadline(ticks[k]);
    SendKeeps(st, ResetMsg(rec.id, idx), ticks);
    CachePegoutKeeps(st, rec, tk, ticks);
    match (CachePegout(st, rec, tk), CalcMinSigners(tk.maxSigners))
    case (Some(st1), Some(minSigners)) => RunRoundsKeeps(st1, idx, minSigners, tk, ticks);
    case (Some(_), None) =>
    case (None, _) =>
  }

  lemma NextKeeps(st: State, tk: Tick, ticks: seq<Tick>)
    requires CoordinatorKeepsPromises(ticks) && tk in ticks
    requires Invariant(st, ticks)
    ensures Invariant(Next(st, tk), ticks)
  {
    var st0 := st.(files := st.files - tk.lost);
    assert Invariant(st0, ticks);
    if SeesRecord(tk) {
      var reload := st0.dkgUntil != tk.dkgUntil || st0.sessionSigner.None?;
      if !(reload && tk.session.None?) {
        var st1 := if reload then st0.(sessionSigner := tk.session, dkgUntil := tk.dkgUntil) else st0;
        assert Invariant(st1, ticks);
        var idx := tk.findValidatorIdx(st1.sessionSigner.value);
        if idx.Some? {
          ProcessKeeps(st1, idx.value, tk, ticks);
        }
      }
    }
  }

  lemma {:induction false} RunKeeps(leftover: map<string, string>, done: seq<Tick>, ticks: seq<Tick>)
    requires CoordinatorKeepsPromises(ticks)
    requires forall tk | tk in done :: tk in ticks
    ensures Invariant(Run(leftover, done), ticks)
  {
    if done != [] {
      var last := |done| - 1;
      RunKeeps(leftover, done[..last], ticks);
      NextKeeps(Run(leftover, done[..last]), done[last], ticks);
    }
  }

  // ----- the results -----

  /** Over every run: ID changes, restarts, expiry, failed or partial signing, lost or unwritable
      share files. All calls of FROST that consume one nonce sign one message in one signing package. */
  lemma NonceSingleUse(leftover: map<string, string>, ticks: seq<Tick>)
    requires CoordinatorKeepsPromises(ticks)
    ensures var uses := Run(leftover, ticks).ledger.uses;
            forall i, j | 0 <= i < |uses| && 0 <= j < |uses|
                          && uses[i].epoch == uses[j].epoch && uses[i].input == uses[j].input ::
              SameInput(uses[i], uses[j])
  {
    RunKeeps(leftover, ticks, ticks);
  }

  /** At every moment of every run: nonces never stand without their commitments, one life of the
      nonce slot sees one run of `Commit`, and the share files on disk are the cached pegout's own,
      signed with the latest nonces. */
  lemma CachedPegoutInvariant(leftover: map<string, string>, ticks: seq<Tick>)
    requires CoordinatorKeepsPromises(ticks)
    ensures var st := Run(leftover, ticks);
            && (st.cached.Some? && st.cached.value.nonces.Some? ==> st.cached.value.commitments.Some?)
            && (forall i, j | 0 <= i < j < |st.ledger.commits| :: st.ledger.commits[i] < st.ledger.commits[j])
            && (st.cached.Some? ==>
                  forall f | f in st.files ::
                    f == st.cached.value.addr
                    && f in st.ledger.fileEpoch && st.ledger.fileEpoch[f] == st.ledger.Epoch())
  {
    RunKeeps(leftover, ticks, ticks);
  }
}
