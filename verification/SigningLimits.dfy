/** What the one-byte count of the commitment wire format costs: a pegout with more than 255 inputs
    never gets a signature, whatever happens. */
module SigningLimits {
  import opened Wrappers
  import opened ByteCodec
  import opened SigningSpec
  import Commitments

  /** Every transaction the ticks see is too large for the count byte. */
  ghost predicate TooManyInputs(ticks: seq<Tick>) {
    forall i | 0 <= i < |ticks| && ticks[i].txParts.Some? :: |ticks[i].txParts.value.merkleRoots| > 255
  }

  predicate OnlyAsks(msg: Msg) {
    !msg.ShareMsg? && !msg.SignaturesMsg?
  }

  /** Nothing was handed to FROST, and neither a share nor a signature was sent. */
  ghost predicate NothingSigned(ledger: Ledger) {
    ledger.uses == [] && forall m | m in ledger.sent :: OnlyAsks(m)
  }

  /** Only the cached pegout is ever signed; its share files went when it was cached. */
  ghost predicate NeverSigns(st: State) {
    && NothingSigned(st.ledger)
    && (st.cached.Some? ==> |st.cached.value.inputs| > 255 && st.files == map[])
  }

  /** One row too many for its count byte is enough for a signer to read no column. */
  lemma NoColumn(rows: map<uint16, Bytes>, inputs: nat, i: int)
    requires rows != map[] && inputs > 255
    ensures Commitments.InputColumn(rows, inputs, i).None?
  {
    var v :| v in rows;
    assert Commitments.Deserialized(rows[v], inputs, Commitments.FROST_COMMITMENT_LENGTH).Err?;
  }

  lemma CacheNeverSigns(st: State, rec: PegoutRecord, tk: Tick)
    requires NeverSigns(st) && (tk.txParts.Some? ==> |tk.txParts.value.merkleRoots| > 255)
    ensures var st1 := CachePegout(st, rec, tk); st1.Some? ==> NeverSigns(st1.value)
  {
  }

  lemma ClaimNeverSigns(st: State, idx: uint16, culprit: Option<uint16>)
    requires NeverSigns(st) && st.cached.Some?
    ensures NeverSigns(ExecuteClaim(st, idx, culprit))
  {
  }

  lemma CommitNeverSigns(st: State, idx: uint16, minSigners: uint16, tk: Tick)
    requires NeverSigns(st) && st.cached.Some?
    ensures var st1 := DoCommit(st, idx, minSigners, tk);
            NeverSigns(st1.0) && st1.0.cached.Some? && (st1.1 ==> st1.0 == st && idx in st.cached.value.artifacts.commitments)
  {
  }

  lemma SignNeverSigns(st: State, idx: uint16, minSigners: uint16, tk: Tick)
    requires NeverSigns(st) && st.cached.Some? && idx in st.cached.value.artifacts.commitments
    ensures var st1 := DoSign(st, idx, minSigners, tk); NeverSigns(st1.0) && (st1.1 ==> st1.0 == st)
  {
    var c := st.cached.value;
    NoColumn(c.artifacts.commitments, |c.inputs|, 0);
    assert SignFrom(c, st.ledger.Epoch(), tk, 0) == SignRun([], None, None);
    assert st.ledger.uses + [] == st.ledger.uses;
  }

  lemma AggregateNeverSigns(st: State, idx: uint16, tk: Tick)
    requires NeverSigns(st) && st.cached.Some? && idx in st.cached.value.artifacts.commitments
    ensures NeverSigns(DoAggregate(st, idx, tk))
  {
    var c := DropNonces(st).cached.value;
    NoColumn(c.artifacts.commitments, |c.inputs|, 0);
  }

  lemma RoundsNeverSign(st: State, idx: uint16, minSigners: uint16, tk: Tick)
    requires NeverSigns(st) && st.cached.Some?
    ensures NeverSigns(RunRounds(st, idx, minSigners, tk))
  {
    CommitNeverSigns(st, idx, minSigners, tk);
    if DoCommit(st, idx, minSigners, tk).1 {
      SignNeverSigns(st, idx, minSigners, tk);
      if DoSign(st, idx, minSigners, tk).1 {
        AggregateNeverSigns(st, idx, tk);
      }
    }
  }

  lemma TickNeverSigns(st: State, tk: Tick)
    requires NeverSigns(st) && (tk.txParts.Some? ==> |tk.txParts.value.merkleRoots| > 255)
    ensures NeverSigns(Next(st, tk))
  {
    var st0 := st.(files := st.files - tk.lost);
    var reload := st0.dkgUntil != tk.dkgUntil || st0.sessionSigner.None?;
    var st2 := if reload then st0.(sessionSigner := tk.session, dkgUntil := tk.dkgUntil) else st0;
    if st2.sessionSigner.Some? && tk.records.Some? && tk.records.value != [] {
      var idx := tk.findValidatorIdx(st2.sessionSigner.value);
      if idx.Some? {
        ProcessNeverSigns(st2, idx.value, tk.records.value[0], tk);
      }
    }
  }

  lemma ProcessNeverSigns(st: State, idx: uint16, rec: PegoutRecord, tk: Tick)
    requires NeverSigns(st) && (tk.txParts.Some? ==> |tk.txParts.value.merkleRoots| > 255)
    ensures NeverSigns(ProcessRecord(st, idx, rec, tk))
  {
    CacheNeverSigns(st, rec, tk);
    var st1 := CachePegout(st, rec, tk);
    if st1.Some? {
      forall minSigners ensures NeverSigns(RunRounds(st1.value, idx, minSigners, tk)) {
        RoundsNeverSign(st1.value, idx, minSigners, tk);
      }
    }
  }

  /** Above 255 inputs a process uses no nonce and sends neither a share nor a signature, over every
      run and whatever commitments, shares or leftover files it is shown. */
  lemma {:induction false} TooLargeToSign(leftover: map<string, string>, ticks: seq<Tick>)
    requires TooManyInputs(ticks)
    ensures NothingSigned(Run(leftover, ticks).ledger)
    ensures NeverSigns(Run(leftover, ticks))
    decreases |ticks|
  {
    if ticks != [] {
      var n := |ticks| - 1;
      forall i | 0 <= i < n && ticks[..n][i].txParts.Some? ensures |ticks[..n][i].txParts.value.merkleRoots| > 255 {
        assert ticks[..n][i] == ticks[i];
      }
      TooLargeToSign(leftover, ticks[..n]);
      TickNeverSigns(Run(leftover, ticks[..n]), ticks[n]);
    }
  }
}
