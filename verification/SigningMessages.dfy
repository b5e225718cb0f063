/** Everything a tick of the signing service sends, and whom its claims name, told from the snapshot, the
    answers and the cached pegout alone. */
module SigningMessages {
  import opened Wrappers
  import opened ByteCodec
  import opened Threshold
  import opened SigningSpec
  import Commitments
  import Keystore

  // ----- what FROST is to be given -----

  /** Everybody's commitments can be read. */
  ghost predicate Readable(commitments: map<uint16, Bytes>, inputs: nat) {
    forall v | v in commitments :: Commitments.Deserialized(commitments[v], inputs, 71).Ok?
  }

  /** Everybody's commitment for input `i`. */
  ghost function TheColumn(commitments: map<uint16, Bytes>, inputs: nat, i: nat): map<uint16, Bytes>
    requires Readable(commitments, inputs) && i < inputs
  {
    map v | v in commitments :: Commitments.Deserialized(commitments[v], inputs, 71).value[i]
  }

  /** Everybody's share for input `i`; nothing where somebody sent too few. */
  ghost function TheShares(shares: map<uint16, map<uint16, Bytes>>, i: uint16): map<uint16, Bytes> {
    map v | v in shares :: if i in shares[v] then shares[v][i] else []
  }

  /** Nonce, hash, Merkle root and commitments of input `i` are all there, and so is our secret. */
  ghost predicate CanSign(c: Cached, tk: Tick, i: nat) {
    && i < |c.inputs| && i < |c.signingHashes| && c.nonces.Some? && i < |c.nonces.value|
    && Readable(c.artifacts.commitments, |c.inputs|) && tk.hasSecret
  }

  ghost function TheSignCall(c: Cached, tk: Tick, i: nat): SignCall
    requires CanSign(c, tk, i)
  {
    SignCall(i, c.nonces.value[i], c.signingHashes[i], c.inputs[i],
             TheColumn(c.artifacts.commitments, |c.inputs|, i))
  }

  ghost predicate CanAggregate(c: Cached, i: nat) {
    i < |c.inputs| && i < |c.signingHashes| && Readable(c.artifacts.commitments, |c.inputs|)
  }

  ghost function TheAggregateCall(c: Cached, i: nat): AggregateCall
    requires CanAggregate(c, i)
  {
    AggregateCall(i, c.signingHashes[i], c.inputs[i], TheColumn(c.artifacts.commitments, |c.inputs|, i),
                  TheShares(c.artifacts.signingShares, i % 0x1_0000))
  }

  // ----- what it answers -----

  ghost predicate Shared(c: Cached, tk: Tick, i: nat, share: Bytes) {
    CanSign(c, tk, i) && tk.sign(TheSignCall(c, tk, i)) == Share(share)
  }

  ghost predicate Aggregated(c: Cached, tk: Tick, i: nat, signature: Bytes) {
    CanAggregate(c, i) && tk.aggregate(TheAggregateCall(c, i)) == Signature(signature)
  }

  /** One share for each input, in the order of the inputs. */
  ghost predicate SharesAre(c: Cached, tk: Tick, shares: seq<Bytes>) {
    |shares| == |c.inputs| && forall i: nat | i < |shares| :: Shared(c, tk, i, shares[i])
  }

  /** One signature for each input, in the order of the inputs. */
  ghost predicate SignaturesAre(c: Cached, tk: Tick, signatures: seq<Bytes>) {
    |signatures| == |c.inputs| && forall i: nat | i < |signatures| :: Aggregated(c, tk, i, signatures[i])
  }

  /** The first input from `i` on for which FROST makes no share fails on account of `v`. */
  ghost predicate SignBlames(c: Cached, tk: Tick, i: nat, v: uint16)
    decreases |c.inputs| - i
  {
    && CanSign(c, tk, i)
    && match tk.sign(TheSignCall(c, tk, i))
       case SignFailed(culprit) => culprit == Some(v)
       case Share(_) => SignBlames(c, tk, i + 1, v)
  }

  ghost predicate AggregateBlames(c: Cached, tk: Tick, i: nat, v: uint16)
    decreases |c.inputs| - i
  {
    && CanAggregate(c, i)
    && match tk.aggregate(TheAggregateCall(c, i))
       case AggregateFailed(culprit) => culprit == Some(v)
       case Signature(_) => AggregateBlames(c, tk, i + 1, v)
  }

  lemma PrepareIs(c: Cached, epoch: nat, tk: Tick, i: nat)
    requires i < |c.inputs|
    ensures PrepareInput(c, epoch, tk, i).Some? <==> CanSign(c, tk, i)
    ensures CanSign(c, tk, i) ==> PrepareInput(c, epoch, tk, i).value.Call() == TheSignCall(c, tk, i)
  {
    ColumnIs(c.artifacts.commitments, |c.inputs|, i);
  }

  lemma ColumnIs(commitments: map<uint16, Bytes>, inputs: nat, i: nat)
    requires i < inputs
    ensures Commitments.InputColumn(commitments, inputs, i)
         == if Readable(commitments, inputs) then Some(TheColumn(commitments, inputs, i)) else None
  {
  }

  /** From input `i` on. */
  ghost predicate SharesFrom(c: Cached, tk: Tick, i: nat, shares: seq<Bytes>) {
    i + |shares| == |c.inputs| && forall k: nat | k < |shares| :: Shared(c, tk, i + k, shares[k])
  }

  lemma SharesFromNext(c: Cached, tk: Tick, i: nat, share: Bytes, rest: seq<Bytes>)
    requires Shared(c, tk, i, share) && SharesFrom(c, tk, i + 1, rest)
    ensures SharesFrom(c, tk, i, [share] + rest)
  {
    var shares := [share] + rest;
    forall k: nat | k < |shares| ensures Shared(c, tk, i + k, shares[k]) {
      if k > 0 {
        assert Shared(c, tk, i + 1 + (k - 1), rest[k - 1]);
      }
    }
  }

  lemma {:induction false} SignFromIs(c: Cached, epoch: nat, tk: Tick, i: nat)
    requires i <= |c.inputs|
    ensures var run := SignFrom(c, epoch, tk, i);
            && (run.shares.Some? ==> SharesFrom(c, tk, i, run.shares.value) && run.culprit.None?)
            && (run.shares.None? ==> exists k: nat :: i <= k < |c.inputs| && NotShared(c, tk, k))
            && (forall v: uint16 :: run.culprit == Some(v) <==> SignBlames(c, tk, i, v))
    decreases |c.inputs| - i
  {
    if i < |c.inputs| {
      PrepareIs(c, epoch, tk, i);
      SignFromIs(c, epoch, tk, i + 1);
      var rest := SignFrom(c, epoch, tk, i + 1);
      if CanSign(c, tk, i) {
        match tk.sign(TheSignCall(c, tk, i))
        case SignFailed(_) => assert NotShared(c, tk, i);
        case Share(share) =>
          if rest.shares.Some? {
            SharesFromNext(c, tk, i, share, rest.shares.value);
          }
      } else {
        assert NotShared(c, tk, i);
      }
    }
  }

  ghost predicate NotShared(c: Cached, tk: Tick, i: nat) {
    forall share: Bytes :: !Shared(c, tk, i, share)
  }

  ghost predicate NotAggregated(c: Cached, tk: Tick, i: nat) {
    forall signature: Bytes :: !Aggregated(c, tk, i, signature)
  }

  ghost predicate SignaturesFrom(c: Cached, tk: Tick, i: nat, signatures: seq<Bytes>) {
    i + |signatures| == |c.inputs| && forall k: nat | k < |signatures| :: Aggregated(c, tk, i + k, signatures[k])
  }

  lemma SignaturesFromNext(c: Cached, tk: Tick, i: nat, signature: Bytes, rest: seq<Bytes>)
    requires Aggregated(c, tk, i, signature) && SignaturesFrom(c, tk, i + 1, rest)
    ensures SignaturesFrom(c, tk, i, [signature] + rest)
  {
    var signatures := [signature] + rest;
    forall k: nat | k < |signatures| ensures Aggregated(c, tk, i + k, signatures[k]) {
      if k > 0 {
        assert Aggregated(c, tk, i + 1 + (k - 1), rest[k - 1]);
      }
    }
  }

  lemma ArgsAre(c: Cached, i: nat)
    requires i < |c.inputs| == |c.signingHashes|
    ensures AggregateArgs(c.inputs, c.signingHashes, c.artifacts, i)
         == if CanAggregate(c, i) then Some(TheAggregateCall(c, i)) else None
  {
    ColumnIs(c.artifacts.commitments, |c.inputs|, i);
    assert ShareColumn(c.artifacts.signingShares, i % 0x1_0000) == TheShares(c.artifacts.signingShares, i % 0x1_0000);
  }

  lemma {:induction false} AggregateFromIs(c: Cached, tk: Tick, i: nat)
    requires i <= |c.inputs| == |c.signingHashes|
    ensures var run := AggregateFrom(c, tk, i);
            && (run.signatures.Some? ==> SignaturesFrom(c, tk, i, run.signatures.value) && run.culprit.None?)
            && (run.signatures.None? ==> exists k: nat :: i <= k < |c.inputs| && NotAggregated(c, tk, k))
            && (forall v: uint16 :: run.culprit == Some(v) <==> AggregateBlames(c, tk, i, v))
    decreases |c.inputs| - i
  {
    if i < |c.inputs| {
      ArgsAre(c, i);
      AggregateFromIs(c, tk, i + 1);
      var rest := AggregateFrom(c, tk, i + 1);
      if CanAggregate(c, i) {
        match tk.aggregate(TheAggregateCall(c, i))
        case AggregateFailed(_) => assert NotAggregated(c, tk, i);
        case Signature(signature) =>
          if rest.signatures.Some? {
            SignaturesFromNext(c, tk, i, signature, rest.signatures.value);
          }
      } else {
        assert NotAggregated(c, tk, i);
      }
    }
  }

  lemma SharesUnique(c: Cached, tk: Tick, a: seq<Bytes>, b: seq<Bytes>)
    requires SharesAre(c, tk, a) && SharesAre(c, tk, b)
    ensures a == b
  {
    forall i: nat | i < |a| ensures a[i] == b[i] {
      assert Shared(c, tk, i, a[i]) && Shared(c, tk, i, b[i]);
    }
  }

  lemma SignaturesUnique(c: Cached, tk: Tick, a: seq<Bytes>, b: seq<Bytes>)
    requires SignaturesAre(c, tk, a) && SignaturesAre(c, tk, b)
    ensures a == b
  {
    forall i: nat | i < |a| ensures a[i] == b[i] {
      assert Aggregated(c, tk, i, a[i]) && Aggregated(c, tk, i, b[i]);
    }
  }

  lemma NoShares(c: Cached, tk: Tick, k: nat, shares: seq<Bytes>)
    requires k < |c.inputs| && NotShared(c, tk, k)
    ensures !SharesAre(c, tk, shares)
  {
    if |shares| == |c.inputs| {
      assert !Shared(c, tk, k, shares[k]);
    }
  }

  lemma NoSignatures(c: Cached, tk: Tick, k: nat, signatures: seq<Bytes>)
    requires k < |c.inputs| && NotAggregated(c, tk, k)
    ensures !SignaturesAre(c, tk, signatures)
  {
    if |signatures| == |c.inputs| {
      assert !Aggregated(c, tk, k, signatures[k]);
    }
  }

  /** What signing all inputs comes to. */
  lemma SignsAll(c: Cached, epoch: nat, tk: Tick)
    ensures var run := SignFrom(c, epoch, tk, 0);
            && (forall shares :: run.shares == Some(shares) <==> SharesAre(c, tk, shares))
            && (run.shares.Some? ==> run.culprit.None?)
            && (forall v: uint16 :: run.culprit == Some(v) <==> SignBlames(c, tk, 0, v))
  {
    var run := SignFrom(c, epoch, tk, 0);
    SignFromIs(c, epoch, tk, 0);
    forall shares ensures run.shares == Some(shares) <==> SharesAre(c, tk, shares) {
      if run.shares.Some? {
        assert SharesFrom(c, tk, 0, run.shares.value);
        assert SharesAre(c, tk, run.shares.value);
        if SharesAre(c, tk, shares) {
          SharesUnique(c, tk, shares, run.shares.value);
        }
      } else {
        var k: nat :| 0 <= k < |c.inputs| && NotShared(c, tk, k);
        NoShares(c, tk, k, shares);
      }
    }
  }

  /** What aggregating all inputs comes to. */
  lemma AggregatesAll(c: Cached, tk: Tick)
    requires |c.inputs| == |c.signingHashes|
    ensures var run := AggregateFrom(c, tk, 0);
            && (forall signatures :: run.signatures == Some(signatures) <==> SignaturesAre(c, tk, signatures))
            && (run.signatures.Some? ==> run.culprit.None?)
            && (forall v: uint16 :: run.culprit == Some(v) <==> AggregateBlames(c, tk, 0, v))
  {
    var run := AggregateFrom(c, tk, 0);
    AggregateFromIs(c, tk, 0);
    forall signatures ensures run.signatures == Some(signatures) <==> SignaturesAre(c, tk, signatures) {
      if run.signatures.Some? {
        assert SignaturesFrom(c, tk, 0, run.signatures.value);
        assert SignaturesAre(c, tk, run.signatures.value);
        if SignaturesAre(c, tk, signatures) {
          SignaturesUnique(c, tk, signatures, run.signatures.value);
        }
      } else {
        var k: nat :| 0 <= k < |c.inputs| && NotAggregated(c, tk, k);
        NoSignatures(c, tk, k, signatures);
      }
    }
  }

  // ----- what a tick sends -----

  ghost predicate Sent(st: State, st1: State, msgs: seq<Msg>) {
    st1.ledger.sent == st.ledger.sent + msgs
  }

  /** The round is still collecting commitments from `idx`. */
  ghost predicate InCommit(rec: PegoutRecord, idx: uint16) {
    idx !in rec.commitments && idx !in rec.commitmentsOther
  }

  ghost predicate InSign(rec: PegoutRecord, idx: uint16, min: uint16) {
    idx in rec.commitments && |rec.commitments| % 0x1_0000 >= min && idx !in rec.signingShares
  }

  ghost predicate InAggregate(rec: PegoutRecord, idx: uint16, min: uint16) {
    && idx in rec.commitments && |rec.commitments| % 0x1_0000 >= min
    && idx in rec.signingShares && |rec.signingShares| >= min && idx !in rec.signaturesMask
  }

  /** The coordinator has other signatures on record: the greatest sender of those. */
  ghost predicate BlamedByCode(rec: PegoutRecord, tk: Tick, v: uint16) {
    tk.sendSignaturesExitCode == 168 && v in rec.signaturesMask && forall u | u in rec.signaturesMask :: u <= v
  }

  /** Shares on file are sent again; otherwise they are made. */
  ghost predicate SharesToSend(st: State, c: Cached, tk: Tick, shares: seq<Bytes>) {
    match (if c.addr in st.files then Keystore.SharesOf(st.files[c.addr]) else None)
    case Some(stored) => shares == stored
    case None => SharesAre(c, tk, shares)
  }

  /** Whom a tick that runs the rounds from `st` blames. */
  ghost predicate Blamed(st: State, idx: uint16, min: uint16, tk: Tick, v: uint16)
    requires st.cached.Some?
  {
    var c := st.cached.value;
    || (InSign(c.artifacts, idx, min) && c.signingHashes != [] && (c.addr in st.files ==> Keystore.SharesOf(st.files[c.addr]).None?)
        && SignBlames(c, tk, 0, v))
    || (InAggregate(c.artifacts, idx, min)
        && (AggregateBlames(c, tk, 0, v)
            || ((exists signatures :: SignaturesAre(c, tk, signatures)) && BlamedByCode(c.artifacts, tk, v))))
  }

  /** A message of a tick that runs the rounds from `st` and ends in `st1`. */
  ghost predicate Sends(st: State, idx: uint16, min: uint16, tk: Tick, st1: State, msg: Msg)
    requires st.cached.Some?
  {
    var c := st.cached.value;
    match msg
    case CommitmentsMsg(id, until, from, payload) =>
      && id == c.id && until == c.artifacts.expiredAt && from == idx && InCommit(c.artifacts, idx)
      && st1.cached.Some? && st1.cached.value.nonces.Some? && st1.cached.value.commitments.Some?
      && var made := st1.cached.value.commitments.value;
      && (forall i | 0 <= i < |made| :: |made[i]| == 71) && payload == [|made| % 256] + Concat(made)
    case ShareMsg(id, until, from, shares) =>
      && id == c.id && until == c.artifacts.expiredAt && from == idx && InSign(c.artifacts, idx, min)
      && c.signingHashes != [] && SharesToSend(st, c, tk, shares)
    case SignaturesMsg(id, until, from, signatures) =>
      && id == c.id && until == c.artifacts.expiredAt && from == idx && InAggregate(c.artifacts, idx, min)
      && SignaturesAre(c, tk, signatures)
    case ClaimMsg(id, until, from, culprit) =>
      && id == c.id && until == c.artifacts.expiredAt && from == idx
      && idx !in c.artifacts.claimsMask && Blamed(st, idx, min, tk, culprit)
    case ResetMsg(_, _) => false
  }

  ghost function ClaimOf(c: Cached, idx: uint16, culprit: Option<uint16>): (msgs: seq<Msg>)
    ensures forall m :: m in msgs <==>
              culprit.Some? && idx !in c.artifacts.claimsMask && m == ClaimMsg(c.id, c.artifacts.expiredAt, idx, culprit.value)
  {
    if culprit.None? || idx in c.artifacts.claimsMask then [] else [ClaimMsg(c.id, c.artifacts.expiredAt, idx, culprit.value)]
  }

  lemma ClaimSent(st: State, idx: uint16, culprit: Option<uint16>) returns (msgs: seq<Msg>)
    requires st.cached.Some?
    ensures Sent(st, ExecuteClaim(st, idx, culprit), msgs) && msgs == ClaimOf(st.cached.value, idx, culprit)
  {
    msgs := ClaimOf(st.cached.value, idx, culprit);
    assert st.ledger.sent + [] == st.ledger.sent;
  }

  lemma CommitSends(st: State, idx: uint16, min: uint16, tk: Tick) returns (msgs: seq<Msg>)
    requires st.cached.Some? && InCommit(st.cached.value.artifacts, idx)
    ensures var (st1, goOn) := DoCommit(st, idx, min, tk);
            && Sent(st, st1, msgs) && |msgs| <= 1 && !goOn
            && forall m :: m in msgs <==> Sends(st, idx, min, tk, st1, m)
  {
    var st1 := DoCommit(st, idx, min, tk).0;
    msgs := [];
    assert st.ledger.sent + [] == st.ledger.sent;
    if st1.cached.value.nonces.Some? && st1.cached.value.commitments.Some? {
      var made := st1.cached.value.commitments.value;
      if forall i | 0 <= i < |made| :: |made[i]| == 71 {
        msgs := [CommitmentsMsg(st.cached.value.id, st.cached.value.artifacts.expiredAt, idx, [|made| % 256] + Concat(made))];
      }
    }
  }

  lemma SignSends(st: State, idx: uint16, min: uint16, tk: Tick) returns (msgs: seq<Msg>)
    requires st.cached.Some? && InSign(st.cached.value.artifacts, idx, min)
    ensures var (st1, goOn) := DoSign(st, idx, min, tk);
            && Sent(st, st1, msgs) && |msgs| <= 1 && !goOn && st1.cached == st.cached
            && forall m :: m in msgs <==> Sends(st, idx, min, tk, st1, m)
  {
    var c := st.cached.value;
    msgs := [];
    assert st.ledger.sent + [] == st.ledger.sent;
    if c.signingHashes != [] {
      match LoadShares(st, c.addr)
      case Some(stored) => msgs := [ShareMsg(c.id, c.artifacts.expiredAt, idx, stored)];
      case None => msgs := MakeSends(st, idx, min, tk);
    }
  }

  lemma MakeSends(st: State, idx: uint16, min: uint16, tk: Tick) returns (msgs: seq<Msg>)
    requires st.cached.Some? && InSign(st.cached.value.artifacts, idx, min)
    requires st.cached.value.signingHashes != [] && LoadShares(st, st.cached.value.addr).None?
    ensures Sent(st, MakeShares(st, idx, tk), msgs) && |msgs| <= 1 && MakeShares(st, idx, tk).cached == st.cached
    ensures forall m :: m in msgs <==> Sends(st, idx, min, tk, MakeShares(st, idx, tk), m)
  {
    var c := st.cached.value;
    var run := SignFrom(c, st.ledger.Epoch(), tk, 0);
    SignsAll(c, st.ledger.Epoch(), tk);
    msgs := MakeSharesSends(st, idx, tk, run);
    forall m ensures m in msgs <==> Sends(st, idx, min, tk, MakeShares(st, idx, tk), m) {
      ShareOrClaim(st, idx, min, tk, MakeShares(st, idx, tk), run, m);
    }
  }

  lemma ShareOrClaim(st: State, idx: uint16, min: uint16, tk: Tick, st1: State, run: SignRun, m: Msg)
    requires st.cached.Some? && InSign(st.cached.value.artifacts, idx, min)
    requires st.cached.value.signingHashes != [] && LoadShares(st, st.cached.value.addr).None?
    requires var c := st.cached.value;
             && (forall shares :: run.shares == Some(shares) <==> SharesAre(c, tk, shares))
             && (run.shares.Some? ==> run.culprit.None?)
             && forall v: uint16 :: run.culprit == Some(v) <==> SignBlames(c, tk, 0, v)
    ensures var c := st.cached.value;
            Sends(st, idx, min, tk, st1, m) <==>
              m in if run.shares.Some? then [ShareMsg(c.id, c.artifacts.expiredAt, idx, run.shares.value)]
                   else ClaimOf(c, idx, run.culprit)
  {
  }

  lemma MakeSharesSends(st: State, idx: uint16, tk: Tick, run: SignRun) returns (msgs: seq<Msg>)
    requires st.cached.Some? && run == SignFrom(st.cached.value, st.ledger.Epoch(), tk, 0)
    requires run.shares.Some? ==> run.culprit.None?
    ensures var c := st.cached.value; var st1 := MakeShares(st, idx, tk);
            && Sent(st, st1, msgs) && st1.cached == st.cached
            && msgs == if run.shares.Some? then [ShareMsg(c.id, c.artifacts.expiredAt, idx, run.shares.value)]
                       else ClaimOf(c, idx, run.culprit)
  {
    var c := st.cached.value;
    var st0 := st.(ledger := st.ledger.(uses := st.ledger.uses + run.uses));
    var claims := ClaimSent(st0, idx, run.culprit);
    msgs := if run.shares.Some? then [ShareMsg(c.id, c.artifacts.expiredAt, idx, run.shares.value)] else claims;
    assert st.ledger.sent + [] == st.ledger.sent;
  }

  lemma {:induction false} HighestBitIs(mask: set<uint16>, n: nat)
    requires n <= 0x1_0000 && forall u | u in mask :: u < n
    ensures forall v: uint16 :: HighestBit(mask, n) == Some(v) <==> v in mask && forall u | u in mask :: u <= v
    decreases n
  {
    if n > 0 && n - 1 !in mask {
      HighestBitIs(mask, n - 1);
    }
  }

  lemma SendSignaturesSends(st: State, idx: uint16, signatures: seq<Bytes>, tk: Tick) returns (msgs: seq<Msg>)
    requires st.cached.Some?
    ensures var c := st.cached.value;
            && Sent(st, SendSignatures(st, idx, signatures, tk), msgs) && |msgs| <= 2
            && forall m :: m in msgs <==>
                 || m == SignaturesMsg(c.id, c.artifacts.expiredAt, idx, signatures)
                 || (m.ClaimMsg? && m.id == c.id && m.until == c.artifacts.expiredAt && m.idx == idx
                     && idx !in c.artifacts.claimsMask && BlamedByCode(c.artifacts, tk, m.culprit))
  {
    var c := st.cached.value;
    HighestBitIs(c.artifacts.signaturesMask, 0x1_0000);
    var culprit := if tk.sendSignaturesExitCode == 168 then HighestBit(c.artifacts.signaturesMask, 0x1_0000) else None;
    var st0 := st.Send(SignaturesMsg(c.id, c.artifacts.expiredAt, idx, signatures));
    var claims := ClaimSent(st0, idx, culprit);
    msgs := [SignaturesMsg(c.id, c.artifacts.expiredAt, idx, signatures)] + claims;
    assert SendSignatures(st, idx, signatures, tk) == ExecuteClaim(st0, idx, culprit);
    assert st.ledger.sent + msgs == st0.ledger.sent + claims;
  }

  /** Signatures and claims do not depend on the nonces, which are gone by then. */
  lemma {:induction false} WithoutNonces(c: Cached, tk: Tick, i: nat, v: uint16)
    ensures AggregateBlames(c.(nonces := None), tk, i, v) <==> AggregateBlames(c, tk, i, v)
    decreases |c.inputs| - i
  {
    if CanAggregate(c, i) {
      assert TheAggregateCall(c.(nonces := None), i) == TheAggregateCall(c, i);
      WithoutNonces(c, tk, i + 1, v);
    }
  }

  lemma SameSignatures(c: Cached, tk: Tick, signatures: seq<Bytes>)
    ensures SignaturesAre(c.(nonces := None), tk, signatures) <==> SignaturesAre(c, tk, signatures)
  {
    forall i: nat | i < |signatures|
      ensures Aggregated(c.(nonces := None), tk, i, signatures[i]) <==> Aggregated(c, tk, i, signatures[i])
    {
      if CanAggregate(c, i) {
        assert TheAggregateCall(c.(nonces := None), i) == TheAggregateCall(c, i);
      }
    }
  }

  /** If a tick sends signatures, there is one for each input, in order, each what FROST makes of the
      hash, the Merkle root, the commitments and the shares of its own input. */
  lemma AggregateSends(st: State, idx: uint16, min: uint16, tk: Tick) returns (msgs: seq<Msg>)
    requires st.cached.Some? && InAggregate(st.cached.value.artifacts, idx, min)
    requires |st.cached.value.inputs| == |st.cached.value.signingHashes|
    ensures var st1 := DoAggregate(st, idx, tk);
            && Sent(st, st1, msgs) && |msgs| <= 2
            && forall m :: m in msgs <==> Sends(st, idx, min, tk, st1, m)
  {
    var c := st.cached.value;
    var st0 := DropNonces(st);
    var run := AggregateFrom(st0.cached.value, tk, 0);
    AggregatesAll(st0.cached.value, tk);
    forall signatures ensures SignaturesAre(st0.cached.value, tk, signatures) <==> SignaturesAre(c, tk, signatures) {
      SameSignatures(c, tk, signatures);
    }
    forall v: uint16 ensures AggregateBlames(st0.cached.value, tk, 0, v) <==> AggregateBlames(c, tk, 0, v) {
      WithoutNonces(c, tk, 0, v);
    }
    if run.signatures.Some? {
      msgs := SendSignaturesSends(st0, idx, run.signatures.value, tk);
    } else {
      msgs := ClaimSent(st0, idx, run.culprit);
    }
    forall m ensures m in msgs <==> Sends(st, idx, min, tk, DoAggregate(st, idx, tk), m) {
      SignaturesOrClaim(st, idx, min, tk, DoAggregate(st, idx, tk), run, m);
    }
  }

  lemma SignaturesOrClaim(st: State, idx: uint16, min: uint16, tk: Tick, st1: State, run: AggregateRun, m: Msg)
    requires st.cached.Some? && InAggregate(st.cached.value.artifacts, idx, min)
    requires var c := st.cached.value;
             && (forall signatures :: run.signatures == Some(signatures) <==> SignaturesAre(c, tk, signatures))
             && (run.signatures.Some? ==> run.culprit.None?)
             && forall v: uint16 :: run.culprit == Some(v) <==> AggregateBlames(c, tk, 0, v)
    ensures var c := st.cached.value;
            Sends(st, idx, min, tk, st1, m) <==>
              if run.signatures.Some?
              then || m == SignaturesMsg(c.id, c.artifacts.expiredAt, idx, run.signatures.value)
                   || (m.ClaimMsg? && m.id == c.id && m.until == c.artifacts.expiredAt && m.idx == idx
                       && idx !in c.artifacts.claimsMask && BlamedByCode(c.artifacts, tk, m.culprit))
              else m in ClaimOf(c, idx, run.culprit)
  {
    if run.signatures.Some? {
      assert SignaturesAre(st.cached.value, tk, run.signatures.value);
    }
  }

  /** The rounds, from wherever the pegout has been cached: what is sent is exactly that. */
  lemma RoundsSend(st: State, idx: uint16, min: uint16, tk: Tick) returns (msgs: seq<Msg>)
    requires st.cached.Some? && |st.cached.value.inputs| == |st.cached.value.signingHashes|
    ensures var st1 := RunRounds(st, idx, min, tk);
            && Sent(st, st1, msgs) && |msgs| <= 2
            && forall m :: m in msgs <==> Sends(st, idx, min, tk, st1, m)
  {
    var rec := st.cached.value.artifacts;
    if InCommit(rec, idx) {
      msgs := CommitSends(st, idx, min, tk);
    } else if InSign(rec, idx, min) {
      assert DoCommit(st, idx, min, tk) == (st, true);
      msgs := SignSends(st, idx, min, tk);
    } else if InAggregate(rec, idx, min) {
      assert DoCommit(st, idx, min, tk) == (st, true);
      assert DoSign(st, idx, min, tk) == (st, true);
      msgs := AggregateSends(st, idx, min, tk);
    } else {
      msgs := [];
      assert st.ledger.sent + [] == st.ledger.sent;
    }
  }

  // ----- whole ticks -----

  /** Validator `idx` takes part in the oldest record: its session key, reloaded if the ceremony changed, is
      known, and it is among the signers. */
  ghost predicate TakesPart(st: State, tk: Tick, idx: uint16, rec: PegoutRecord) {
    && tk.records.Some? && tk.records.value != [] && rec == tk.records.value[0]
    && var key := if st.dkgUntil != tk.dkgUntil || st.sessionSigner.None? then tk.session else st.sessionSigner;
    && key.Some? && tk.findValidatorIdx(key.value) == Some(idx) && idx in rec.signingMask
  }

  ghost predicate Expired(rec: PegoutRecord, tk: Tick) {
    rec.expiredAt != 0 && rec.expiredAt < tk.now
  }

  ghost predicate SamePegout(st: State, rec: PegoutRecord) {
    st.cached.Some? && st.cached.value.id == rec.id
  }

  /** `at` is `st` with the record cached: the same pegout keeps its nonces, commitments and share files
      unless its deadline changed, and another one starts with none. */
  ghost predicate CachedAs(st: State, tk: Tick, rec: PegoutRecord, at: State) {
    && at.ledger.sent == st.ledger.sent && at.cached.Some?
    && if SamePegout(st, rec) then
         var was := st.cached.value.artifacts.expiredAt;
         var over := was != 0 && was != rec.expiredAt;
         && at.cached.value == st.cached.value.(artifacts := rec,
                                                nonces := if over then None else st.cached.value.nonces,
                                                commitments := if over then None else st.cached.value.commitments)
         && at.files == if over then map[] else st.files - tk.lost
       else
         && tk.txParts.Some? && at.files == map[]
         && at.cached.value == Cached(rec.id, rec.addr, tk.txParts.value.merkleRoots, tk.txParts.value.signingHashes,
                                      rec, None, None)
  }

  /** An expired round is reset, a live one is cached and its rounds run, and that is all that is sent. */
  lemma TickSends(st: State, tk: Tick, idx: uint16, rec: PegoutRecord) returns (msgs: seq<Msg>, at: State)
    requires st.cached.Some? ==> |st.cached.value.inputs| == |st.cached.value.signingHashes|
    requires TakesPart(st, tk, idx, rec)
    ensures Sent(st, Next(st, tk), msgs) && |msgs| <= 2
    ensures if Expired(rec, tk) then msgs == [ResetMsg(rec.id, idx)] && Next(st, tk).cached.None?
            else if !SamePegout(st, rec) && tk.txParts.None? then msgs == []
            else CachedAs(st, tk, rec, at) &&
                 match CalcMinSigners(tk.maxSigners)
                 case None => msgs == []
                 case Some(min) => forall m :: m in msgs <==> Sends(at, idx, min, tk, Next(st, tk), m)
  {
    var st2 := Reaches(st, tk, idx, rec);
    at := st2;
    msgs := [];
    assert st.ledger.sent + [] == st.ledger.sent;
    if Expired(rec, tk) {
      msgs := [ResetMsg(rec.id, idx)];
    } else if SamePegout(st, rec) || tk.txParts.Some? {
      at := Caches(st, st2, tk, rec);
      if CalcMinSigners(tk.maxSigners).Some? {
        msgs := RoundsSend(at, idx, CalcMinSigners(tk.maxSigners).value, tk);
      }
    }
  }

  /** The record is processed, in a state that differs in its session at most. */
  lemma Reaches(st: State, tk: Tick, idx: uint16, rec: PegoutRecord) returns (st2: State)
    requires TakesPart(st, tk, idx, rec)
    ensures Next(st, tk) == ProcessRecord(st2, idx, rec, tk) && idx in rec.signingMask
    ensures st2.cached == st.cached && st2.files == st.files - tk.lost && st2.ledger == st.ledger
  {
    var st0 := st.(files := st.files - tk.lost);
    var reload := st.dkgUntil != tk.dkgUntil || st.sessionSigner.None?;
    st2 := if reload then st0.(sessionSigner := tk.session, dkgUntil := tk.dkgUntil) else st0;
  }

  lemma Caches(st: State, st2: State, tk: Tick, rec: PegoutRecord) returns (at: State)
    requires st2.cached == st.cached && st2.files == st.files - tk.lost && st2.ledger == st.ledger
    requires SamePegout(st, rec) || tk.txParts.Some?
    ensures CachePegout(st2, rec, tk) == Some(at) && CachedAs(st, tk, rec, at)
  {
    at := CachePegout(st2, rec, tk).value;
  }

  /** Whoever takes part in nothing sends nothing. */
  lemma OthersSendNothing(st: State, tk: Tick)
    requires forall idx, rec :: !TakesPart(st, tk, idx, rec)
    ensures Next(st, tk).ledger.sent == st.ledger.sent
  {
    var st0 := st.(files := st.files - tk.lost);
    var reload := st.dkgUntil != tk.dkgUntil || st.sessionSigner.None?;
    var key := if reload then tk.session else st.sessionSigner;
    if tk.records.Some? && tk.records.value != [] && key.Some? && tk.findValidatorIdx(key.value).Some? {
      assert !TakesPart(st, tk, tk.findValidatorIdx(key.value).value, tk.records.value[0]);
    }
  }

  ghost predicate SameSession(a: State, b: State) {
    a.sessionSigner == b.sessionSigner && a.dkgUntil == b.dkgUntil
  }

  lemma RoundsKeepSession(st: State, idx: uint16, min: uint16, tk: Tick)
    requires st.cached.Some?
    ensures SameSession(RunRounds(st, idx, min, tk), st)
  {
    var st1 := DoCommit(st, idx, min, tk).0;
    assert SameSession(st1, st) && st1.cached.Some?;
    var st2 := DoSign(st1, idx, min, tk).0;
    assert SameSession(st2, st) && st2.cached.Some?;
  }

  lemma ProcessKeepsSession(st: State, idx: uint16, rec: PegoutRecord, tk: Tick)
    ensures SameSession(ProcessRecord(st, idx, rec, tk), st)
  {
    var at := CachePegout(st, rec, tk);
    if at.Some? {
      forall min ensures SameSession(RunRounds(at.value, idx, min, tk), st) {
        RoundsKeepSession(at.value, idx, min, tk);
      }
    }
  }

  /** With a record to sign, the session key of another ceremony, or none, is replaced by the present one's,
      unless that cannot be loaded. */
  lemma SessionAfter(st: State, tk: Tick)
    ensures var st1 := Next(st, tk);
            if tk.records.Some? && tk.records.value != [] && (st.dkgUntil != tk.dkgUntil || st.sessionSigner.None?)
               && tk.session.Some?
            then st1.sessionSigner == tk.session && st1.dkgUntil == tk.dkgUntil
            else SameSession(st1, st)
  {
    var st0 := st.(files := st.files - tk.lost);
    var reload := st.dkgUntil != tk.dkgUntil || st.sessionSigner.None?;
    var st2 := if reload then st0.(sessionSigner := tk.session, dkgUntil := tk.dkgUntil) else st0;
    forall idx, rec ensures SameSession(ProcessRecord(st2, idx, rec, tk), st2) {
      ProcessKeepsSession(st2, idx, rec, tk);
    }
  }

  /** Every process has one hash for each input. */
  lemma {:induction false} HashesMatch(leftover: map<string, string>, ticks: seq<Tick>)
    ensures var st := Run(leftover, ticks);
            st.cached.Some? ==> |st.cached.value.inputs| == |st.cached.value.signingHashes|
    decreases |ticks|
  {
    if ticks != [] {
      var n := |ticks| - 1;
      HashesMatch(leftover, ticks[..n]);
      NextMatches(Run(leftover, ticks[..n]), ticks[n]);
    }
  }

  ghost predicate Matches(st: State) {
    st.cached.Some? ==> |st.cached.value.inputs| == |st.cached.value.signingHashes|
  }

  lemma NextMatches(st: State, tk: Tick)
    requires Matches(st)
    ensures Matches(Next(st, tk))
  {
    var st0 := st.(files := st.files - tk.lost);
    var reload := st.dkgUntil != tk.dkgUntil || st.sessionSigner.None?;
    var st2 := if reload then st0.(sessionSigner := tk.session, dkgUntil := tk.dkgUntil) else st0;
    forall idx, rec ensures Matches(ProcessRecord(st2, idx, rec, tk)) {
      ProcessMatches(st2, idx, rec, tk);
    }
  }

  lemma ProcessMatches(st: State, idx: uint16, rec: PegoutRecord, tk: Tick)
    requires Matches(st)
    ensures Matches(ProcessRecord(st, idx, rec, tk))
  {
    var at := CachePegout(st, rec, tk);
    if at.Some? {
      forall min ensures Matches(RunRounds(at.value, idx, min, tk)) {
        RoundsMatch(at.value, idx, min, tk);
      }
    }
  }

  lemma RoundsMatch(st: State, idx: uint16, min: uint16, tk: Tick)
    requires st.cached.Some? && Matches(st)
    ensures Matches(RunRounds(st, idx, min, tk))
  {
    var st1 := DoCommit(st, idx, min, tk).0;
    assert Matches(st1) && st1.cached.Some?;
    var st2 := DoSign(st1, idx, min, tk).0;
    assert Matches(st2) && st2.cached.Some?;
  }

  // ----- what is kept for later -----

  /** Nonces and commitments are those drawn for their own input. */
  lemma {:induction false} DrawnInOrder(tk: Tick, count: nat)
    requires CommitAll(tk, count).Some?
    ensures var (nonces, commitments) := CommitAll(tk, count).value;
            && |nonces| == |commitments| == count
            && forall i: nat | i < count :: tk.commit(i) == Some((nonces[i], commitments[i]))
    decreases count
  {
    if count > 0 {
      DrawnInOrder(tk, count - 1);
    }
  }

  lemma {:induction false} DrawsExactly(tk: Tick, count: nat)
    ensures CommitAll(tk, count).Some? <==> forall i: nat | i < count :: tk.commit(i).Some?
    decreases count
  {
    if count > 0 {
      DrawsExactly(tk, count - 1);
      assert tk.commit(count - 1).Some? && CommitAll(tk, count - 1).Some? ==> CommitAll(tk, count).Some?;
    }
  }

  /** There are commitments to send exactly when there were both commitments and nonces, or neither, and
      then our secret and an answer for every input. */
  lemma CommitsExactly(st: State, tk: Tick)
    requires st.cached.Some?
    ensures var c := st.cached.value;
            GenerateCommitments(st, tk).Some? <==>
              || (c.nonces.Some? && c.commitments.Some?)
              || (c.nonces.None? && c.commitments.None? && tk.hasSecret && forall i: nat | i < |c.inputs| :: tk.commit(i).Some?)
    ensures var c := st.cached.value;
            c.nonces.Some? && c.commitments.Some? ==> GenerateCommitments(st, tk) == Some(st)
  {
    DrawsExactly(tk, |st.cached.value.inputs|);
  }

  /** Once enough shares are on record, ours among them, the nonces are gone whatever aggregation brings. */
  lemma NoncesGone(st: State, idx: uint16, min: uint16, tk: Tick)
    requires st.cached.Some?
    requires var rec := st.cached.value.artifacts;
             idx in rec.commitments && |rec.commitments| % 0x1_0000 >= min && idx in rec.signingShares && |rec.signingShares| >= min
    ensures RunRounds(st, idx, min, tk).cached == Some(st.cached.value.(nonces := None))
  {
    assert DoCommit(st, idx, min, tk) == (st, true);
    assert DoSign(st, idx, min, tk) == (st, true);
  }

  /** Fresh nonces and commitments are drawn, one for each input, exactly when there are none of either,
      and kept side by side. */
  lemma CommitsInOrder(st: State, tk: Tick)
    requires st.cached.Some? && st.cached.value.nonces.None? && st.cached.value.commitments.None?
    requires GenerateCommitments(st, tk).Some?
    ensures var c := GenerateCommitments(st, tk).value.cached.value;
            && c == st.cached.value.(nonces := c.nonces, commitments := c.commitments)
            && c.nonces.Some? && c.commitments.Some?
            && |c.nonces.value| == |c.commitments.value| == |c.inputs|
            && forall i: nat | i < |c.inputs| :: tk.commit(i) == Some((c.nonces.value[i], c.commitments.value[i]))
  {
    DrawnInOrder(tk, |st.cached.value.inputs|);
  }

  /** Shares that were made, sent and written are the ones that are sent again. */
  lemma StoredForLater(st: State, idx: uint16, tk: Tick, shares: seq<Bytes>)
    requires st.cached.Some? && SharesAre(st.cached.value, tk, shares) && tk.write.Written?
    requires shares != [] && forall i | 0 <= i < |shares| :: shares[i] != []
    ensures LoadShares(MakeShares(st, idx, tk), st.cached.value.addr) == Some(shares)
  {
    SignsAll(st.cached.value, st.ledger.Epoch(), tk);
    Keystore.StoreLoadRoundTrip(shares);
  }
}
