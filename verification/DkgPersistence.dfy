/** Is the secret package stored before the public key package is announced? Exactly in the runs in
    which no failed write is followed by another tick of the same ceremony. */
module DkgPersistence {
  import opened Wrappers
  import opened ByteCodec
  import opened FrostIds
  import opened DkgPackages
  import opened DkgCrypto
  import opened DkgSpec
  import opened DkgSafety

  // ----- the ticks that matter -----

  /** DkgPart3 is called: its packages parse and open, and there is no result yet. */
  ghost predicate CallsPart3(box: Box, st: State, tk: Tick) {
    && tk.dkg.Round2Completed() && !tk.dkg.Round3Completed() && st.idx !in tk.dkg.r3Mask
    && st.r3.None? && st.r2.Some? && st.r1.Some?
    && R1Parse(tk.dkg.r1Packages).R1Parsed?
    && R2Parse(tk.dkg.r2Packages, tk.dkg.vsetMask).R2Parsed?
    && Opened(box, st, tk).Decrypted?
  }

  ghost function Opened(box: Box, st: State, tk: Tick): DecryptOutcome
    requires st.r1.Some? && R1Parse(tk.dkg.r1Packages).R1Parsed?
    requires R2Parse(tk.dkg.r2Packages, tk.dkg.vsetMask).R2Parsed?
  {
    OpenAll(SessionOf(box, st, R1Parse(tk.dkg.r1Packages).publicKeys, tk.dkg.until),
            R2Parse(tk.dkg.r2Packages, tk.dkg.vsetMask).received)
  }

  ghost function Answer(box: Box, st: State, tk: Tick): Part3Answer
    requires CallsPart3(box, st, tk)
  {
    tk.part3(st.r2.value.secret, Others(st, R1Parse(tk.dkg.r1Packages).packages), Opened(box, st, tk).packages)
  }

  ghost predicate Fails(box: Box, st: State, tk: Tick) {
    CallsPart3(box, st, tk) && Answer(box, st, tk).Part3Ok? && tk.publicKey.Some? && !tk.stored
  }

  /** The ceremony has its result, but the key store does not take the secret package. */
  ghost predicate FailsToStore(box: Box, st: State, tk: Tick) {
    var at := AtRounds(st, tk);
    at.Some? && Fails(box, at.value, tk)
  }

  /** The tick announces a result that is already held. */
  ghost predicate AnnouncesHeld(st: State, tk: Tick) {
    var at := AtRounds(st, tk);
    at.Some? && tk.dkg.Round2Completed() && at.value.idx !in tk.dkg.r3Mask && at.value.r3.Some?
  }

  // ----- what is announced and what is stored -----

  ghost function Held(st: State): CeremonyResult
    requires st.r3.Some?
  {
    CeremonyResult(st.ledger.dropped, st.r3.value.publicKeyPackage)
  }

  ghost predicate Unpersisted(st: State) {
    st.r3.Some? && Held(st) !in st.ledger.persisted
  }

  /** Results of the present ceremony are the one that is held. */
  ghost predicate ResultsOk(st: State) {
    forall x | x in st.ledger.persisted || x in st.ledger.announced ::
      x.ceremony < st.ledger.dropped || (st.r3.Some? && x == Held(st))
  }

  /** Nothing happens to results. */
  ghost predicate SameResults(st: State, st1: State) {
    && st1.r3 == st.r3 && st1.ledger.dropped == st.ledger.dropped
    && st1.ledger.persisted == st.ledger.persisted && st1.ledger.announced == st.ledger.announced
  }

  lemma R1Results(st: State, tk: Tick)
    ensures SameResults(st, ExecuteR1(st, tk).0)
  {
  }

  lemma R2Results(box: Box, st: State, tk: Tick)
    ensures SameResults(st, ExecuteR2(box, st, tk).0)
  {
    MakeR2Results(box, st, tk);
  }

  lemma MakeR2Results(box: Box, st: State, tk: Tick)
    ensures SameResults(st, MakeR2(box, st, tk).0)
  {
  }

  lemma SendResults(st: State, tk: Tick)
    requires st.r3.Some?
    ensures SameResults(st.Announce(), SendR3(st, tk))
  {
  }

  /** Without a call of DkgPart3, or when it or the key extraction fails, there is no result. */
  lemma NoResult(box: Box, st: State, tk: Tick)
    requires st.r3.None? && tk.dkg.Round2Completed() && !tk.dkg.Round3Completed() && st.idx !in tk.dkg.r3Mask
    requires CallsPart3(box, st, tk) ==> !(Answer(box, st, tk).Part3Ok? && tk.publicKey.Some?)
    ensures SameResults(st, MakeR3(box, st, tk).0) && !MakeR3(box, st, tk).1
  {
    if st.r2.Some? && st.r1.Some? {
      match R1Parse(tk.dkg.r1Packages)
      case R1Culprit(culprit) => ClaimResults(st, tk.dkg, Some(culprit));
      case R1Parsed(r1Packages, keys) =>
        match R2Parse(tk.dkg.r2Packages, tk.dkg.vsetMask)
        case R2Culprit(culprit) => ClaimResults(st, tk.dkg, Some(culprit));
        case R2Nothing =>
        case R2Parsed(received) =>
          NothingOpened(st.UseKey(st.r1.value.keys), Others(st, r1Packages),
                        OpenAll(SessionOf(box, st, keys, tk.dkg.until), received), tk);
    }
  }

  lemma ClaimResults(st: State, dkg: Dkg, culprit: Option<uint16>)
    ensures SameResults(st, ExecuteClaim(st, dkg, culprit))
  {
  }

  lemma NothingOpened(st: State, r1Packages: map<Identifier, Bytes>, opening: DecryptOutcome, tk: Tick)
    requires st.r2.Some? && st.r3.None?
    requires opening.Decrypted? ==>
               !(tk.part3(st.r2.value.secret, r1Packages, opening.packages).Part3Ok? && tk.publicKey.Some?)
    ensures SameResults(st, AfterOpen(st, r1Packages, opening, tk).0) && !AfterOpen(st, r1Packages, opening, tk).1
  {
  }

  lemma NewResult(box: Box, st: State, tk: Tick) returns (made: State)
    requires CallsPart3(box, st, tk) && Answer(box, st, tk).Part3Ok? && tk.publicKey.Some?
    ensures MakeR3(box, st, tk) == (made, tk.stored)
    ensures made.r3.Some? && made.ledger.dropped == st.ledger.dropped && made.ledger.announced == st.ledger.announced
    ensures made.ledger.persisted == st.ledger.persisted + (if tk.stored then {Held(made)} else {})
  {
    assert MakeR3(box, st, tk) == FinishR3(st.UseKey(st.r1.value.keys), Answer(box, st, tk), tk);
    made := MakeR3(box, st, tk).0;
  }

  // ----- one step -----

  /** A failed write opens the question, another tick of the ceremony that announces decides it. */
  ghost predicate StepDecides(st: State, st1: State, fails: bool, announces: bool) {
    && ResultsOk(st1) && st.ledger.dropped <= st1.ledger.dropped
    && (fails ==> st1.ledger.dropped == st.ledger.dropped)
    && (Unpersisted(st1) <==> fails || (Unpersisted(st) && st1.ledger.dropped == st.ledger.dropped))
    && (st1.ledger.announced <= st1.ledger.persisted <==>
          st.ledger.announced <= st.ledger.persisted && !(Unpersisted(st) && announces))
  }

  lemma NothingDecided(st: State, st1: State)
    requires ResultsOk(st) && SameResults(st, st1)
    ensures StepDecides(st, st1, false, false)
  {
  }

  lemma AnnounceDecides(st: State, st1: State)
    requires ResultsOk(st) && st.r3.Some? && SameResults(st.Announce(), st1)
    ensures StepDecides(st, st1, false, true)
  {
    assert Held(st) in st1.ledger.announced;
  }

  lemma StoreDecides(st: State, made: State)
    requires ResultsOk(st) && st.r3.None?
    requires made.r3.Some? && made.ledger.dropped == st.ledger.dropped && made.ledger.announced == st.ledger.announced
    requires made.ledger.persisted == st.ledger.persisted + {Held(made)}
    ensures StepDecides(st, made, false, false) && !Unpersisted(made)
  {
    assert Held(made) !in st.ledger.announced;
  }

  lemma FailDecides(st: State, made: State)
    requires ResultsOk(st) && st.r3.None?
    requires made.r3.Some? && made.ledger.dropped == st.ledger.dropped && made.ledger.announced == st.ledger.announced
    requires made.ledger.persisted == st.ledger.persisted
    ensures StepDecides(st, made, true, false)
  {
    assert Held(made) !in st.ledger.persisted;
  }

  lemma HeldDecides(box: Box, st: State, tk: Tick)
    requires ResultsOk(st) && !tk.dkg.Round3Completed() && st.idx !in tk.dkg.r3Mask && st.r3.Some?
    ensures StepDecides(st, ExecuteR3(box, st, tk), false, true)
  {
    SendResults(st, tk);
    AnnounceDecides(st, SendR3(st, tk));
  }

  lemma NewDecides(box: Box, st: State, tk: Tick)
    requires ResultsOk(st) && CallsPart3(box, st, tk) && Answer(box, st, tk).Part3Ok? && tk.publicKey.Some?
    ensures StepDecides(st, ExecuteR3(box, st, tk), !tk.stored, false)
  {
    var made := NewResult(box, st, tk);
    if tk.stored {
      StoreDecides(st, made);
      SendResults(made, tk);
      AnnounceDecides(made, SendR3(made, tk));
    } else {
      FailDecides(st, made);
    }
  }

  lemma NoneDecides(box: Box, st: State, tk: Tick)
    requires ResultsOk(st) && st.r3.None? && tk.dkg.Round2Completed() && !tk.dkg.Round3Completed()
    requires st.idx !in tk.dkg.r3Mask
    requires CallsPart3(box, st, tk) ==> !(Answer(box, st, tk).Part3Ok? && tk.publicKey.Some?)
    ensures StepDecides(st, ExecuteR3(box, st, tk), false, false)
  {
    NoResult(box, st, tk);
    NothingDecided(st, MakeR3(box, st, tk).0);
  }

  /** Round three, from where the first two have let it through. */
  lemma R3Decides(box: Box, st: State, tk: Tick)
    requires ResultsOk(st) && tk.dkg.Round2Completed() && !tk.dkg.Round3Completed()
    ensures StepDecides(st, ExecuteR3(box, st, tk), Fails(box, st, tk), st.idx !in tk.dkg.r3Mask && st.r3.Some?)
  {
    if st.idx in tk.dkg.r3Mask {
      NothingDecided(st, st);
    } else if st.r3.Some? {
      HeldDecides(box, st, tk);
    } else if CallsPart3(box, st, tk) && Answer(box, st, tk).Part3Ok? && tk.publicKey.Some? {
      NewDecides(box, st, tk);
    } else {
      NoneDecides(box, st, tk);
    }
  }

  lemma RoundsDecide(box: Box, st: State, tk: Tick)
    requires ResultsOk(st) && !tk.dkg.state.Finished?
    ensures StepDecides(st, Rounds(box, st, tk), Fails(box, st, tk),
                        tk.dkg.Round2Completed() && st.idx !in tk.dkg.r3Mask && st.r3.Some?)
  {
    if tk.dkg.Round2Completed() {
      assert Rounds(box, st, tk) == ExecuteR3(box, st, tk);
      R3Decides(box, st, tk);
    } else {
      R1Results(st, tk);
      R2Results(box, st, tk);
      assert Rounds(box, st, tk) == if tk.dkg.Round1Completed() then ExecuteR2(box, st, tk).0 else ExecuteR1(st, tk).0;
      NothingDecided(st, Rounds(box, st, tk));
    }
  }

  lemma DropDecides(st: State, st1: State)
    requires ResultsOk(st) && st1.r3.None? && st1.ledger.dropped == st.ledger.dropped + 1
    requires st1.ledger.persisted == st.ledger.persisted && st1.ledger.announced == st.ledger.announced
    ensures StepDecides(st, st1, false, false)
  {
  }

  lemma Compose(st: State, st1: State, st2: State, fails: bool, announces: bool)
    requires ResultsOk(st) && StepDecides(st, st1, false, false) && StepDecides(st1, st2, fails, announces)
    requires st1.r3.None? && st1.ledger.dropped == st.ledger.dropped + 1 && !fails
    ensures StepDecides(st, st2, false, announces && Unpersisted(st1))
  {
  }

  lemma ExecuteDecides(box: Box, st: State, tk: Tick)
    requires ResultsOk(st)
    ensures StepDecides(st, Execute(box, st, tk), FailsToStore(box, st, tk), AnnouncesHeld(st, tk))
  {
    var at := AtRounds(st, tk);
    if at.None? {
      Untouched(box, st, tk);
    } else if tk.dkg.until <= st.until {
      RoundsDecide(box, at.value, tk);
    } else {
      DropDecides(st, at.value);
      RoundsDecide(box, at.value, tk);
      Compose(st, at.value, Rounds(box, at.value, tk), false, false);
    }
  }

  lemma Untouched(box: Box, st: State, tk: Tick)
    requires ResultsOk(st) && AtRounds(st, tk).None?
    ensures StepDecides(st, Execute(box, st, tk), false, false)
  {
    var st1 := Execute(box, st, tk);
    if st1.ledger.dropped == st.ledger.dropped {
      NothingDecided(st, st1);
    } else {
      DropDecides(st, st1);
    }
  }

  // ----- every run -----

  /** Tick `i` fails to store, no tick before `j` drops the artifacts, and tick `j` announces. */
  ghost predicate Gap(box: Box, ticks: seq<Tick>, i: nat, j: nat)
    requires i < j < |ticks|
  {
    && FailsToStore(box, Run(box, ticks[..i]), ticks[i])
    && Run(box, ticks[..i + 1]).ledger.dropped == Run(box, ticks[..j]).ledger.dropped
    && AnnouncesHeld(Run(box, ticks[..j]), ticks[j])
  }

  lemma {:induction false} RunResultsOk(box: Box, ticks: seq<Tick>)
    ensures ResultsOk(Run(box, ticks))
    decreases |ticks|
  {
    if ticks != [] {
      var n := |ticks| - 1;
      RunResultsOk(box, ticks[..n]);
      ExecuteDecides(box, Run(box, ticks[..n]), ticks[n]);
    }
  }

  /** The last tick of `ticks[..n + 1]`. */
  lemma TickDecides(box: Box, ticks: seq<Tick>, n: nat)
    requires n < |ticks|
    ensures StepDecides(Run(box, ticks[..n]), Run(box, ticks[..n + 1]),
                        FailsToStore(box, Run(box, ticks[..n]), ticks[n]), AnnouncesHeld(Run(box, ticks[..n]), ticks[n]))
  {
    assert ticks[..n + 1][..n] == ticks[..n];
    RunResultsOk(box, ticks[..n]);
    ExecuteDecides(box, Run(box, ticks[..n]), ticks[n]);
  }

  /** A run reduced to what matters here: for each tick whether it fails to store and whether it
      announces; for each state the ceremony, whether an unstored result is held, and whether all is well. */
  datatype Trace = Trace(fails: seq<bool>, announces: seq<bool>, dropped: seq<nat>, unpersisted: seq<bool>, ok: seq<bool>) {
    ghost predicate Valid(n: nat) {
      && |fails| == |announces| == n && |dropped| == |unpersisted| == |ok| == n + 1
      && !unpersisted[0] && ok[0]
      && forall k | 0 <= k < n :: StepOk(k)
    }

    ghost predicate StepOk(k: nat)
      requires k < |fails| && k < |announces| && k + 1 < |dropped| && k + 1 < |unpersisted| && k + 1 < |ok|
    {
      && dropped[k] <= dropped[k + 1] && (fails[k] ==> dropped[k + 1] == dropped[k])
      && (unpersisted[k + 1] <==> fails[k] || (unpersisted[k] && dropped[k + 1] == dropped[k]))
      && (ok[k + 1] <==> ok[k] && !(unpersisted[k] && announces[k]))
    }

    lemma {:induction false} Grows(n: nat, i: nat, j: nat)
      requires Valid(n) && i <= j <= n
      ensures dropped[i] <= dropped[j]
      decreases j
    {
      if i < j {
        Grows(n, i, j - 1);
        assert StepOk(j - 1);
      }
    }

    ghost predicate FailsBefore(i: nat, k: nat)
      requires i < k < |dropped| && i < |fails|
    {
      fails[i] && dropped[i + 1] == dropped[k]
    }

    /** An unstored result is held exactly after a failed write in the same ceremony. */
    lemma {:induction false} UnpersistedExactly(n: nat, k: nat)
      requires Valid(n) && k <= n
      ensures unpersisted[k] <==> exists i: nat | i < k :: FailsBefore(i, k)
      decreases k
    {
      if k > 0 {
        UnpersistedExactly(n, k - 1);
        assert StepOk(k - 1);
        if fails[k - 1] {
          assert FailsBefore(k - 1, k);
        } else if unpersisted[k] {
          var i: nat :| i < k - 1 && FailsBefore(i, k - 1);
          assert FailsBefore(i, k);
        }
        if i: nat :| i < k && FailsBefore(i, k) {
          if i < k - 1 {
            FailedAlready(n, i, k);
          }
        }
      }
    }

    lemma FailedAlready(n: nat, i: nat, k: nat)
      requires Valid(n) && k <= n && i < k - 1 && FailsBefore(i, k)
      ensures FailsBefore(i, k - 1) && dropped[k] == dropped[k - 1]
    {
      Grows(n, i + 1, k - 1);
      assert StepOk(k - 1);
    }

    ghost predicate Gap(i: nat, j: nat)
      requires i < j < |dropped| && i < |fails| && j < |announces|
    {
      FailsBefore(i, j) && announces[j]
    }

    lemma {:induction false} OkExactly(n: nat, k: nat)
      requires Valid(n) && k <= n
      ensures ok[k] <==> forall i: nat, j: nat | i < j < k :: !Gap(i, j)
      decreases k
    {
      if k > 0 {
        OkExactly(n, k - 1);
        assert StepOk(k - 1);
        UnpersistedExactly(n, k - 1);
        if unpersisted[k - 1] && announces[k - 1] {
          var i: nat :| i < k - 1 && FailsBefore(i, k - 1);
          assert Gap(i, k - 1);
        }
      }
    }
  }

  lemma TraceOf(box: Box, ticks: seq<Tick>) returns (tr: Trace)
    ensures tr.Valid(|ticks|)
    ensures forall i: nat, j: nat | i < j < |ticks| :: tr.Gap(i, j) <==> Gap(box, ticks, i, j)
    ensures tr.ok[|ticks|] <==> Run(box, ticks).ledger.announced <= Run(box, ticks).ledger.persisted
  {
    var n := |ticks|;
    tr := Trace(seq(n, k requires 0 <= k < n => FailsToStore(box, Run(box, ticks[..k]), ticks[k])),
                seq(n, k requires 0 <= k < n => AnnouncesHeld(Run(box, ticks[..k]), ticks[k])),
                seq(n + 1, k requires 0 <= k <= n => Run(box, ticks[..k]).ledger.dropped),
                seq(n + 1, k requires 0 <= k <= n => Unpersisted(Run(box, ticks[..k]))),
                seq(n + 1, k requires 0 <= k <= n =>
                      Run(box, ticks[..k]).ledger.announced <= Run(box, ticks[..k]).ledger.persisted));
    assert ticks[..0] == [] && ticks[..n] == ticks;
    forall k: nat | k < n ensures tr.StepOk(k) {
      TickDecides(box, ticks, k);
    }
  }

  // ----- announced is sent -----

  function SentPackages(sent: seq<Msg>): set<Bytes> {
    set m | m in sent && m.R3Msg? :: m.publicKeyPackage
  }

  function Packages(results: set<CeremonyResult>): set<Bytes> {
    set x | x in results :: x.publicKeyPackage
  }

  /** The round-three messages carry the announced results and no others. */
  ghost predicate AnnouncedIsSent(ledger: Ledger) {
    SentPackages(ledger.sent) == Packages(ledger.announced)
  }

  lemma SentMore(sent: seq<Msg>, m: Msg)
    ensures SentPackages(sent + [m]) == SentPackages(sent) + (if m.R3Msg? then {m.publicKeyPackage} else {})
  {
  }

  lemma ClaimSent(st: State, dkg: Dkg, culprit: Option<uint16>)
    requires AnnouncedIsSent(st.ledger)
    ensures AnnouncedIsSent(ExecuteClaim(st, dkg, culprit).ledger)
  {
    if culprit.Some? {
      SentMore(st.ledger.sent, ClaimMsg(dkg.until, st.idx, culprit.value));
    }
  }

  lemma R1Sent(st: State, tk: Tick)
    requires AnnouncedIsSent(st.ledger)
    ensures AnnouncedIsSent(ExecuteR1(st, tk).0.ledger)
  {
    var (st1, ok) := if st.r1.None? then MakeR1(st, tk) else (st, true);
    if ok && st1.r1.Some? {
      SentMore(st.ledger.sent, R1Msg(tk.dkg.until, st1.idx, st1.r1.value.pkg, st1.r1.value.keys.public));
    }
  }

  lemma MakeR2Sent(box: Box, st: State, tk: Tick)
    requires AnnouncedIsSent(st.ledger)
    ensures AnnouncedIsSent(MakeR2(box, st, tk).0.ledger)
  {
    if st.r1.Some? {
      match R1Parse(tk.dkg.r1Packages)
      case R1Culprit(culprit) => ClaimSent(st, tk.dkg, Some(culprit));
      case R1Parsed(r1Packages, _) =>
        match tk.part2(st.r1.value.secret, Others(st, r1Packages))
        case Part2Failed(culprit) => ClaimSent(st.Use1(st.r1.value.secret), tk.dkg, culprit);
        case Part2Ok(_, _) =>
    }
  }

  lemma R2Sent(box: Box, st: State, tk: Tick)
    requires AnnouncedIsSent(st.ledger)
    ensures AnnouncedIsSent(ExecuteR2(box, st, tk).0.ledger)
  {
    if st.r2.None? {
      MakeR2Sent(box, st, tk);
      SendR2Sent(MakeR2(box, st, tk).0, tk);
    } else {
      SendR2Sent(st, tk);
    }
  }

  lemma SendR2Sent(st: State, tk: Tick)
    requires AnnouncedIsSent(st.ledger)
    ensures st.r2.Some? ==> AnnouncedIsSent(st.Send(R2Msg(tk.dkg.until, st.idx, st.r2.value.packages)).ledger)
  {
    if st.r2.Some? {
      SentMore(st.ledger.sent, R2Msg(tk.dkg.until, st.idx, st.r2.value.packages));
    }
  }

  lemma AfterOpenSent(st: State, r1Packages: map<Identifier, Bytes>, opening: DecryptOutcome, tk: Tick)
    requires AnnouncedIsSent(st.ledger) && st.r2.Some?
    ensures AnnouncedIsSent(AfterOpen(st, r1Packages, opening, tk).0.ledger)
  {
    match opening
    case DecryptCulprit(culprit) => ClaimSent(st, tk.dkg, Some(culprit));
    case KeyMissing(_) =>
    case Decrypted(r2Packages) =>
      var answer := tk.part3(st.r2.value.secret, r1Packages, r2Packages);
      if answer.Part3Failed? {
        ClaimSent(st.Use2(st.r2.value.secret), tk.dkg, answer.culprit3);
      }
  }

  lemma MakeR3Sent(box: Box, st: State, tk: Tick)
    requires AnnouncedIsSent(st.ledger)
    ensures AnnouncedIsSent(MakeR3(box, st, tk).0.ledger)
  {
    if st.r2.Some? && st.r1.Some? {
      match R1Parse(tk.dkg.r1Packages)
      case R1Culprit(culprit) => ClaimSent(st, tk.dkg, Some(culprit));
      case R1Parsed(r1Packages, keys) =>
        match R2Parse(tk.dkg.r2Packages, tk.dkg.vsetMask)
        case R2Culprit(culprit) => ClaimSent(st, tk.dkg, Some(culprit));
        case R2Nothing =>
        case R2Parsed(received) =>
          AfterOpenSent(st.UseKey(st.r1.value.keys), Others(st, r1Packages),
                        OpenAll(SessionOf(box, st, keys, tk.dkg.until), received), tk);
    }
  }

  lemma SendR3Sent(st: State, tk: Tick)
    requires AnnouncedIsSent(st.ledger) && st.r3.Some?
    ensures AnnouncedIsSent(SendR3(st, tk).ledger)
  {
    var msg := R3Msg(tk.dkg.until, st.idx, st.sessionSigner, st.r3.value.publicKeyPackage);
    SentMore(st.ledger.sent, msg);
    assert Packages(st.ledger.announced + {Held(st)}) == Packages(st.ledger.announced) + {msg.publicKeyPackage};
    ClaimSent(st.Announce().Send(msg), tk.dkg, LowestBit(tk.dkg.r3Mask, 0, tk.dkg.maxSigners));
  }

  lemma RoundsSent(box: Box, st: State, tk: Tick)
    requires AnnouncedIsSent(st.ledger)
    ensures AnnouncedIsSent(Rounds(box, st, tk).ledger)
  {
    R1Sent(st, tk);
    var (st1, done1) := ExecuteR1(st, tk);
    if done1 {
      R2Sent(box, st1, tk);
      var (st2, done2) := ExecuteR2(box, st1, tk);
      if done2 {
        R3Sent(box, st2, tk);
      }
    }
  }

  lemma R3Sent(box: Box, st: State, tk: Tick)
    requires AnnouncedIsSent(st.ledger)
    ensures AnnouncedIsSent(ExecuteR3(box, st, tk).ledger)
  {
    if !tk.dkg.Round3Completed() && st.idx !in tk.dkg.r3Mask {
      MakeR3Sent(box, st, tk);
      var (st1, ok) := if st.r3.None? then MakeR3(box, st, tk) else (st, true);
      if ok && st1.r3.Some? {
        SendR3Sent(st1, tk);
      }
    }
  }

  lemma {:induction false} RunSent(box: Box, ticks: seq<Tick>)
    ensures AnnouncedIsSent(Run(box, ticks).ledger)
    decreases |ticks|
  {
    if ticks != [] {
      var n := |ticks| - 1;
      RunSent(box, ticks[..n]);
      var at := AtRounds(Run(box, ticks[..n]), ticks[n]);
      if at.Some? {
        RoundsSent(box, at.value, ticks[n]);
      }
    }
  }

  /** Over every run: the announced results, which are those of the round-three messages, were all
      stored if and only if no tick failed to store its result and was followed, before the artifacts
      were dropped, by a tick that announced it. */
  lemma PersistedBeforeAnnounced(box: Box, ticks: seq<Tick>)
    ensures var ledger := Run(box, ticks).ledger;
            && SentPackages(ledger.sent) == Packages(ledger.announced)
            && (ledger.announced <= ledger.persisted <==>
                  !exists i: nat, j: nat | i < j < |ticks| :: Gap(box, ticks, i, j))
  {
    RunSent(box, ticks);
    var tr := TraceOf(box, ticks);
    tr.OkExactly(|ticks|, |ticks|);
  }
}
