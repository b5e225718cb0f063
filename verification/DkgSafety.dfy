/** What holds of the key ceremony over every run: the native secrets and the key pair are handled
    in a disciplined way, and two messages of the same ceremony never contradict each other. */
module DkgSafety {
  import opened Wrappers
  import opened ByteCodec
  import opened Threshold
  import opened FrostIds
  import opened DkgPackages
  import opened DkgCrypto
  import opened DkgSpec

  // ----- artifacts and handles -----

  ghost predicate Partners(box: Box, private: Bytes, public: Bytes) {
    box.publicOf(private) == public
  }

  ghost predicate Healthy(box: Box, st: State) {
    && (st.r3.Some? ==> st.r2.Some?)
    && (st.r2.Some? ==> st.r1.Some?)
    && (st.r1.Some? ==> st.r1.value.secret in st.ledger.live1)
    && (st.r2.Some? ==> st.r2.value.secret in st.ledger.live2)
    && !st.ledger.fault
    && (st.r1.Some? && st.r3.None? ==> Partners(box, st.r1.value.keys.private, st.r1.value.keys.public))
    && (forall u | u in st.ledger.keyUses :: Partners(box, u.private, u.public))
  }

  ghost predicate GoodKeyPair(box: Box, tk: Tick) {
    tk.keyPair.Some? ==> Partners(box, tk.keyPair.value.private, tk.keyPair.value.public)
  }

  lemma MakeR2Healthy(box: Box, st: State, tk: Tick)
    requires Healthy(box, st) && st.r2.None?
    ensures Healthy(box, MakeR2(box, st, tk).0)
  {
  }

  lemma FinishR3Healthy(box: Box, st: State, answer: Part3Answer, tk: Tick)
    requires Healthy(box, st) && st.r2.Some? && st.r3.None?
    ensures Healthy(box, FinishR3(st, answer, tk).0)
  {
  }

  lemma MakeR3Healthy(box: Box, st: State, tk: Tick)
    requires Healthy(box, st) && st.r3.None?
    ensures Healthy(box, MakeR3(box, st, tk).0)
  {
    if st.r2.Some? {
      var st1 := st.UseKey(st.r1.value.keys);
      forall r1Packages, opening ensures Healthy(box, AfterOpen(st1, r1Packages, opening, tk).0) {
        if opening.Decrypted? {
          FinishR3Healthy(box, st1, tk.part3(st1.r2.value.secret, r1Packages, opening.packages), tk);
        }
      }
    }
  }

  lemma R2Healthy(box: Box, st: State, tk: Tick)
    requires Healthy(box, st)
    ensures Healthy(box, ExecuteR2(box, st, tk).0)
  {
    if st.r2.None? {
      MakeR2Healthy(box, st, tk);
    }
  }

  lemma R3Healthy(box: Box, st: State, tk: Tick)
    requires Healthy(box, st) && !tk.dkg.state.Finished?
    ensures Healthy(box, ExecuteR3(box, st, tk))
  {
    if st.r3.None? {
      MakeR3Healthy(box, st, tk);
    }
  }

  lemma RoundsHealthy(box: Box, st: State, tk: Tick)
    requires Healthy(box, st) && GoodKeyPair(box, tk) && !tk.dkg.state.Finished?
    ensures Healthy(box, Rounds(box, st, tk))
  {
    var (st1, done1) := ExecuteR1(st, tk);
    assert Healthy(box, st1);
    if done1 {
      R2Healthy(box, st1, tk);
      R3Healthy(box, ExecuteR2(box, st1, tk).0, tk);
    }
  }

  lemma ExecuteHealthy(box: Box, st: State, tk: Tick)
    requires Healthy(box, st) && GoodKeyPair(box, tk)
    ensures Healthy(box, Execute(box, st, tk))
  {
    assert Healthy(box, Cleanup(st));
    if !tk.dkg.state.Finished? && tk.keyInfo.Some? {
      RoundsHealthy(box, StartIfNew(st, tk).0.(idx := tk.keyInfo.value), tk);
    }
  }

  /** In every reachable state the artifacts appear in order, no native secret has been used or freed
      while not allocated, and every private key that was used was the one generated with the public
      key, never the wiped one. */
  lemma {:induction false} ArtifactDiscipline(box: Box, ticks: seq<Tick>)
    requires forall tk | tk in ticks :: GoodKeyPair(box, tk)
    ensures Healthy(box, Run(box, ticks))
    decreases |ticks|
  {
    if ticks != [] {
      ArtifactDiscipline(box, ticks[..|ticks| - 1]);
      ExecuteHealthy(box, Run(box, ticks[..|ticks| - 1]), ticks[|ticks| - 1]);
    }
  }

  // ----- leaks -----

  /** Every allocated native secret is one the executor holds, and can therefore free. */
  ghost predicate NothingLeaked(st: State) {
    && st.ledger.live1 == (if st.r1.Some? then {st.r1.value.secret} else {})
    && st.ledger.live2 == (if st.r2.Some? then {st.r2.value.secret} else {})
    && (st.r1.Some? ==> st.r1.value.secret != 0)
    && (st.r2.Some? ==> st.r2.value.secret != 0)
  }

  /** The native library never hands out a null pointer. */
  ghost predicate GoodPointers(tk: Tick) {
    && (tk.part1.Some? ==> tk.part1.value.1 != 0)
    && (forall h, m :: tk.part2(h, m).Part2Ok? ==> tk.part2(h, m).secret2 != 0)
  }

  /** The state in which the rounds of a tick run, if they do. */
  ghost function AtRounds(st: State, tk: Tick): Option<State> {
    var (st1, started) := StartIfNew(st, tk);
    if tk.dkg.state.Finished? || !started || tk.keyInfo.None? || tk.keyInfo.value !in tk.dkg.vsetMask then None
    else Some(st1.(idx := tk.keyInfo.value))
  }

  /** The first-round secret is there, but its key pair cannot be generated. */
  ghost predicate LosesR1(st: State, tk: Tick) {
    && !tk.dkg.Round1Completed() && st.idx !in tk.dkg.r1Mask && st.r1.None?
    && CalcMinSigners(tk.dkg.maxSigners).Some? && tk.part1.Some? && tk.keyPair.None?
  }

  /** What DkgPart2 says to what was published. */
  ghost function Answer2(st: State, tk: Tick): Part2Answer
    requires st.r1.Some? && R1Parse(tk.dkg.r1Packages).R1Parsed?
  {
    tk.part2(st.r1.value.secret, Others(st, R1Parse(tk.dkg.r1Packages).packages))
  }

  /** The second-round secret is there, but its packages cannot be sealed. */
  ghost predicate LosesR2(box: Box, st: State, tk: Tick) {
    && tk.dkg.Round1Completed() && !tk.dkg.Round2Completed() && st.idx !in tk.dkg.r2Mask && st.r2.None? && st.r1.Some?
    && R1Parse(tk.dkg.r1Packages).R1Parsed? && Answer2(st, tk).Part2Ok?
    && SealAll(SessionOf(box, st, R1Parse(tk.dkg.r1Packages).publicKeys, tk.dkg.until), Answer2(st, tk).packages, tk.rand).None?
  }

  ghost predicate Loses(box: Box, st: State, tk: Tick) {
    var at := AtRounds(st, tk);
    at.Some? && (LosesR1(at.value, tk) || LosesR2(box, at.value, tk))
  }

  lemma SealR2Leaks(box: Box, st: State, packages: OurPackages, secret: nat, keys: map<uint16, Bytes>, tk: Tick)
    requires NothingLeaked(st) && st.r1.Some? && st.r2.None? && secret != 0
    ensures NothingLeaked(SealR2(box, st, packages, secret, keys, tk).0) <==>
            SealAll(SessionOf(box, st, keys, tk.dkg.until), packages, tk.rand).Some?
  {
    assert secret in SealR2(box, st, packages, secret, keys, tk).0.ledger.live2;
  }

  lemma MakeR2Leaks(box: Box, st: State, tk: Tick)
    requires Healthy(box, st) && NothingLeaked(st) && GoodPointers(tk)
    requires tk.dkg.Round1Completed() && !tk.dkg.Round2Completed() && st.idx !in tk.dkg.r2Mask && st.r2.None?
    ensures NothingLeaked(MakeR2(box, st, tk).0) <==> !LosesR2(box, st, tk)
  {
    var parsed := R1Parse(tk.dkg.r1Packages);
    if st.r1.Some? && parsed.R1Parsed? && Answer2(st, tk).Part2Ok? {
      var st1 := st.Use1(st.r1.value.secret);
      SealR2Leaks(box, st1, Answer2(st, tk).packages, Answer2(st, tk).secret2, parsed.publicKeys, tk);
      assert SessionOf(box, st1, parsed.publicKeys, tk.dkg.until) == SessionOf(box, st, parsed.publicKeys, tk.dkg.until);
    }
  }

  lemma AfterOpenLeaksNothing(st: State, r1Packages: map<Identifier, Bytes>, opening: DecryptOutcome, tk: Tick)
    requires NothingLeaked(st) && st.r2.Some? && st.r3.None?
    ensures NothingLeaked(AfterOpen(st, r1Packages, opening, tk).0)
  {
  }

  lemma MakeR3LeaksNothing(box: Box, st: State, tk: Tick)
    requires NothingLeaked(st) && st.r3.None?
    ensures NothingLeaked(MakeR3(box, st, tk).0)
  {
    if st.r2.Some? && st.r1.Some? {
      forall r1Packages, opening ensures NothingLeaked(AfterOpen(st.UseKey(st.r1.value.keys), r1Packages, opening, tk).0) {
        AfterOpenLeaksNothing(st.UseKey(st.r1.value.keys), r1Packages, opening, tk);
      }
    }
  }

  lemma R3LeaksNothing(box: Box, st: State, tk: Tick)
    requires NothingLeaked(st) && !tk.dkg.state.Finished?
    ensures NothingLeaked(ExecuteR3(box, st, tk))
  {
    if st.r3.None? {
      MakeR3LeaksNothing(box, st, tk);
    }
  }

  lemma R1Leaks(st: State, tk: Tick)
    requires NothingLeaked(st) && GoodPointers(tk)
    ensures NothingLeaked(ExecuteR1(st, tk).0) <==> !LosesR1(st, tk)
  {
    if LosesR1(st, tk) {
      assert tk.part1.value.1 in ExecuteR1(st, tk).0.ledger.live1;
    }
  }

  lemma R2Leaks(box: Box, st: State, tk: Tick)
    requires Healthy(box, st) && NothingLeaked(st) && GoodPointers(tk) && tk.dkg.Round1Completed()
    ensures NothingLeaked(ExecuteR2(box, st, tk).0) <==> !LosesR2(box, st, tk)
  {
    if !tk.dkg.Round2Completed() && st.idx !in tk.dkg.r2Mask && st.r2.None? {
      MakeR2Leaks(box, st, tk);
    }
  }

  lemma RoundsLeak(box: Box, st: State, tk: Tick)
    requires Healthy(box, st) && NothingLeaked(st) && GoodPointers(tk) && !tk.dkg.state.Finished?
    ensures NothingLeaked(Rounds(box, st, tk)) <==> !LosesR1(st, tk) && !LosesR2(box, st, tk)
  {
    if tk.dkg.Round2Completed() {
      R3LeaksNothing(box, st, tk);
    } else if tk.dkg.Round1Completed() {
      R2Leaks(box, st, tk);
    } else {
      R1Leaks(st, tk);
    }
  }

  /** A tick loses a native secret exactly when a step fails between allocating it and keeping it. */
  lemma LeaksExactly(box: Box, st: State, tk: Tick)
    requires Healthy(box, st) && NothingLeaked(st) && GoodKeyPair(box, tk) && GoodPointers(tk)
    ensures NothingLeaked(Execute(box, st, tk)) <==> !Loses(box, st, tk)
  {
    assert NothingLeaked(Cleanup(st)) && Healthy(box, Cleanup(st));
    var at := AtRounds(st, tk);
    if at.Some? {
      RoundsLeak(box, at.value, tk);
    }
  }

  /** A run that never fails in between leaks nothing: what is allocated is what is held. */
  lemma {:induction false} RunLeaksNothing(box: Box, ticks: seq<Tick>)
    requires forall tk | tk in ticks :: GoodKeyPair(box, tk) && GoodPointers(tk)
    requires forall i | 0 <= i < |ticks| :: !Loses(box, Run(box, ticks[..i]), ticks[i])
    ensures NothingLeaked(Run(box, ticks))
    decreases |ticks|
  {
    if ticks != [] {
      var before := ticks[..|ticks| - 1];
      forall i | 0 <= i < |before| ensures !Loses(box, Run(box, before[..i]), before[i]) {
        assert before[..i] == ticks[..i];
      }
      RunLeaksNothing(box, before);
      ArtifactDiscipline(box, before);
      LeaksExactly(box, Run(box, before), ticks[|ticks| - 1]);
    }
  }

  /** The first tick of a fresh process can lose its first-round secret for good. */
  lemma LeakHappens(box: Box, h: nat)
    ensures var dkg := Dkg(InProgress, 1, 2, {0}, {}, {}, {}, {}, map[], map[]);
            var tk := Tick(dkg, Some([]), Some(0), Some(([], h)), None, (_, _) => Part2Failed(None), _ => None,
                           (_, _, _) => Part3Failed(None), None, false, 0);
            Run(box, [tk]).ledger.live1 == {h} && Run(box, [tk]).r1.None?
  {
    var dkg := Dkg(InProgress, 1, 2, {0}, {}, {}, {}, {}, map[], map[]);
    var tk := Tick(dkg, Some([]), Some(0), Some(([], h)), None, (_, _) => Part2Failed(None), _ => None,
                   (_, _, _) => Part3Failed(None), None, false, 0);
    assert [tk][..|[tk]| - 1] == [];
    assert Run(box, [tk]) == Execute(box, INITIAL, tk);
  }

  // ----- no equivocation -----

  ghost predicate SameKind(a: Msg, b: Msg) {
    || (a.R1Msg? && b.R1Msg?)
    || (a.R2Msg? && b.R2Msg?)
    || (a.R3Msg? && b.R3Msg?)
  }

  ghost predicate Agree(a: Msg, b: Msg) {
    a.until == b.until && SameKind(a, b) ==> a == b
  }

  /** The private key used in a ceremony belongs to the public key sent in it. */
  ghost predicate KeyAgrees(m: Msg, u: KeyUse) {
    m.R1Msg? && m.until == u.until ==> m.public == u.public
  }

  ghost predicate Consistent(ledger: Ledger) {
    && (forall a, b | a in ledger.sent && b in ledger.sent :: Agree(a, b))
    && (forall m, u | m in ledger.sent && u in ledger.keyUses :: KeyAgrees(m, u))
  }

  /** The environment: deadlines do not go back, a finished ceremony stays finished, and our index
      in the validator set of a ceremony is `idxOf` its deadline. */
  ghost predicate Orderly(ticks: seq<Tick>, idxOf: nat -> uint16) {
    && (forall i, j | 0 <= i < j < |ticks| :: ticks[i].dkg.until <= ticks[j].dkg.until)
    && (forall i, j | 0 <= i < j < |ticks| ::
          ticks[i].dkg.until == ticks[j].dkg.until && ticks[i].dkg.state.Finished? ==> ticks[j].dkg.state.Finished?)
    && (forall i | 0 <= i < |ticks| :: ticks[i].keyInfo.Some? ==> ticks[i].keyInfo.value == idxOf(ticks[i].dkg.until))
  }

  function Latest(ticks: seq<Tick>): nat {
    if ticks == [] then 0 else ticks[|ticks| - 1].dkg.until
  }

  /** The ceremony the executor is in can still go on. */
  ghost predicate IsOpen(st: State, ticks: seq<Tick>) {
    Latest(ticks) == st.until && forall tk | tk in ticks :: tk.dkg.until == st.until ==> !tk.dkg.state.Finished?
  }

  /** A message of the current ceremony carries what the executor still holds. */
  ghost predicate IsHeld(st: State, m: Msg) {
    match m
    case R1Msg(_, _, pkg, public) => st.r1.Some? && st.r1.value.pkg == pkg && st.r1.value.keys.public == public
    case R2Msg(_, _, packages) => st.r2.Some? && st.r2.value.packages == packages
    case R3Msg(_, _, signer, pkg) => st.r3.Some? && st.r3.value.publicKeyPackage == pkg && st.sessionSigner == signer
    case ClaimMsg(_, _, _) => true
  }

  ghost predicate AllHeld(st: State) {
    && (forall m | m in st.ledger.sent && m.until == st.until :: IsHeld(st, m))
    && (forall u | u in st.ledger.keyUses && u.until == st.until :: st.r1.Some? && st.r1.value.keys.public == u.public)
  }

  ghost predicate PastOnly(st: State, idxOf: nat -> uint16) {
    && (forall m | m in st.ledger.sent :: m.until <= st.until && m.idx == idxOf(m.until))
    && (forall u | u in st.ledger.keyUses :: u.until <= st.until)
  }

  /** What the rounds of one ceremony keep. */
  ghost predicate InCeremony(st: State, idxOf: nat -> uint16) {
    && AllHeld(st) && PastOnly(st, idxOf) && Consistent(st.ledger)
    && (st.r3.Some? ==> st.r2.Some?) && (st.r2.Some? ==> st.r1.Some?)
  }

  lemma SendKeeps(st: State, msg: Msg, idxOf: nat -> uint16)
    requires InCeremony(st, idxOf)
    requires msg.until == st.until && msg.idx == idxOf(st.until) && IsHeld(st, msg)
    ensures InCeremony(st.Send(msg), idxOf)
  {
    forall m | m in st.ledger.sent ensures Agree(m, msg) && Agree(msg, m) {
    }
  }

  lemma UseKeyKeeps(st: State, idxOf: nat -> uint16)
    requires InCeremony(st, idxOf) && st.r1.Some?
    ensures InCeremony(st.UseKey(st.r1.value.keys), idxOf)
  {
    var u := KeyUse(st.until, st.r1.value.keys.private, st.r1.value.keys.public);
    forall m | m in st.ledger.sent ensures KeyAgrees(m, u) {
    }
  }

  lemma ClaimKeeps(st: State, dkg: Dkg, culprit: Option<uint16>, idxOf: nat -> uint16)
    requires InCeremony(st, idxOf) && dkg.until == st.until && st.idx == idxOf(st.until)
    ensures InCeremony(ExecuteClaim(st, dkg, culprit), idxOf)
  {
    if culprit.Some? {
      SendKeeps(st, ClaimMsg(dkg.until, st.idx, culprit.value), idxOf);
    }
  }

  /** The artifacts may be filled in, never replaced. */
  ghost predicate Extends(st: State, st': State) {
    && st'.ledger.sent == st.ledger.sent && st'.ledger.keyUses == st.ledger.keyUses
    && st'.until == st.until && st'.idx == st.idx && st'.sessionSigner == st.sessionSigner
    && (st.r1.Some? ==> st'.r1.Some? && st'.r1.value.pkg == st.r1.value.pkg
                        && st'.r1.value.keys.public == st.r1.value.keys.public)
    && (st.r2.Some? ==> st'.r2 == st.r2)
    && (st.r3.Some? ==> st'.r3 == st.r3)
  }

  lemma ExtendsKeeps(st: State, st': State, idxOf: nat -> uint16)
    requires InCeremony(st, idxOf) && Extends(st, st')
    requires (st'.r3.Some? ==> st'.r2.Some?) && (st'.r2.Some? ==> st'.r1.Some?)
    ensures InCeremony(st', idxOf)
  {
    forall m | m in st'.ledger.sent && m.until == st'.until ensures IsHeld(st', m) {
      assert IsHeld(st, m);
    }
  }

  lemma R1Keeps(st: State, tk: Tick, idxOf: nat -> uint16)
    requires InCeremony(st, idxOf) && tk.dkg.until == st.until && st.idx == idxOf(st.until)
    ensures InCeremony(ExecuteR1(st, tk).0, idxOf) && ExecuteR1(st, tk).0.until == st.until
    ensures ExecuteR1(st, tk).1 ==> ExecuteR1(st, tk).0 == st
  {
    if !tk.dkg.Round1Completed() && st.idx !in tk.dkg.r1Mask {
      var (st1, ok) := if st.r1.None? then MakeR1(st, tk) else (st, true);
      ExtendsKeeps(st, st1, idxOf);
      if ok {
        SendKeeps(st1, R1Msg(tk.dkg.until, st1.idx, st1.r1.value.pkg, st1.r1.value.keys.public), idxOf);
      }
    }
  }

  lemma MakeR2Keeps(box: Box, st: State, tk: Tick, idxOf: nat -> uint16)
    requires InCeremony(st, idxOf) && tk.dkg.until == st.until && st.idx == idxOf(st.until)
    requires st.r2.None?
    ensures var (st1, ok) := MakeR2(box, st, tk);
            InCeremony(st1, idxOf) && st1.until == st.until && st1.idx == st.idx && (ok ==> st1.r2.Some?)
  {
    if st.r1.None? {
      return;
    }
    match R1Parse(tk.dkg.r1Packages)
    case R1Culprit(culprit) =>
      ClaimKeeps(st, tk.dkg, Some(culprit), idxOf);
    case R1Parsed(r1Packages, keys) =>
      var st1 := st.Use1(st.r1.value.secret);
      ExtendsKeeps(st, st1, idxOf);
      match tk.part2(st.r1.value.secret, Others(st, r1Packages))
      case Part2Failed(culprit) =>
        ClaimKeeps(st1, tk.dkg, culprit, idxOf);
      case Part2Ok(packages, secret) =>
        var st2 := st1.Alloc2(secret);
        ExtendsKeeps(st1, st2, idxOf);
        UseKeyKeeps(st2, idxOf);
        var st3 := st2.UseKey(st1.r1.value.keys);
        if SealAll(SessionOf(box, st, keys, tk.dkg.until), packages, tk.rand).Some? {
          var (st4, _) := MakeR2(box, st, tk);
          ExtendsKeeps(st3, st4, idxOf);
        }
  }

  lemma R2Keeps(box: Box, st: State, tk: Tick, idxOf: nat -> uint16)
    requires InCeremony(st, idxOf) && tk.dkg.until == st.until && st.idx == idxOf(st.until)
    ensures InCeremony(ExecuteR2(box, st, tk).0, idxOf) && ExecuteR2(box, st, tk).0.until == st.until
    ensures ExecuteR2(box, st, tk).1 ==> ExecuteR2(box, st, tk).0 == st
  {
    if !tk.dkg.Round2Completed() && st.idx !in tk.dkg.r2Mask {
      if st.r2.None? {
        MakeR2Keeps(box, st, tk, idxOf);
        SendR2Keeps(MakeR2(box, st, tk).0, tk, idxOf);
      } else {
        SendR2Keeps(st, tk, idxOf);
      }
    }
  }

  lemma SendR2Keeps(st: State, tk: Tick, idxOf: nat -> uint16)
    requires InCeremony(st, idxOf) && tk.dkg.until == st.until && st.idx == idxOf(st.until)
    ensures st.r2.Some? ==> InCeremony(st.Send(R2Msg(tk.dkg.until, st.idx, st.r2.value.packages)), idxOf)
  {
    if st.r2.Some? {
      SendKeeps(st, R2Msg(tk.dkg.until, st.idx, st.r2.value.packages), idxOf);
    }
  }

  lemma FinishR3Keeps(st: State, answer: Part3Answer, tk: Tick, idxOf: nat -> uint16)
    requires InCeremony(st, idxOf) && tk.dkg.until == st.until && st.idx == idxOf(st.until)
    requires st.r2.Some? && st.r3.None?
    ensures var (st1, ok) := FinishR3(st, answer, tk);
            InCeremony(st1, idxOf) && st1.until == st.until && st1.idx == st.idx && (ok ==> st1.r3.Some?)
  {
    var st1 := st.Use2(st.r2.value.secret);
    ExtendsKeeps(st, st1, idxOf);
    match answer
    case Part3Failed(culprit) =>
      ClaimKeeps(st1, tk.dkg, culprit, idxOf);
    case Part3Ok(_, _) =>
      if tk.publicKey.Some? {
        ExtendsKeeps(st1, FinishR3(st, answer, tk).0, idxOf);
      }
  }

  lemma AfterOpenKeeps(st: State, r1Packages: map<Identifier, Bytes>, opening: DecryptOutcome, tk: Tick, idxOf: nat -> uint16)
    requires InCeremony(st, idxOf) && tk.dkg.until == st.until && st.idx == idxOf(st.until)
    requires st.r2.Some? && st.r3.None?
    ensures var (st1, ok) := AfterOpen(st, r1Packages, opening, tk);
            InCeremony(st1, idxOf) && st1.until == st.until && st1.idx == st.idx && (ok ==> st1.r3.Some?)
  {
    match opening
    case DecryptCulprit(culprit) =>
      ClaimKeeps(st, tk.dkg, Some(culprit), idxOf);
    case KeyMissing(_) =>
    case Decrypted(r2Packages) =>
      FinishR3Keeps(st, tk.part3(st.r2.value.secret, r1Packages, r2Packages), tk, idxOf);
  }

  lemma MakeR3Keeps(box: Box, st: State, tk: Tick, idxOf: nat -> uint16)
    requires InCeremony(st, idxOf) && tk.dkg.until == st.until && st.idx == idxOf(st.until)
    requires st.r3.None?
    ensures var (st1, ok) := MakeR3(box, st, tk);
            InCeremony(st1, idxOf) && st1.until == st.until && st1.idx == st.idx && (ok ==> st1.r3.Some?)
  {
    if st.r2.None? {
      return;
    }
    match R1Parse(tk.dkg.r1Packages)
    case R1Culprit(culprit) =>
      ClaimKeeps(st, tk.dkg, Some(culprit), idxOf);
    case R1Parsed(r1Packages, keys) =>
      match R2Parse(tk.dkg.r2Packages, tk.dkg.vsetMask)
      case R2Culprit(culprit) =>
        ClaimKeeps(st, tk.dkg, Some(culprit), idxOf);
      case R2Nothing =>
      case R2Parsed(received) =>
        UseKeyKeeps(st, idxOf);
        var st1 := st.UseKey(st.r1.value.keys);
        AfterOpenKeeps(st1, Others(st, r1Packages), OpenAll(SessionOf(box, st, keys, tk.dkg.until), received), tk, idxOf);
  }

  lemma SendR3Keeps(st: State, tk: Tick, idxOf: nat -> uint16)
    requires InCeremony(st, idxOf) && tk.dkg.until == st.until && st.idx == idxOf(st.until)
    requires st.r3.Some?
    ensures InCeremony(SendR3(st, tk), idxOf) && SendR3(st, tk).until == st.until
  {
    var msg := R3Msg(tk.dkg.until, st.idx, st.sessionSigner, st.r3.value.publicKeyPackage);
    ExtendsKeeps(st, st.Announce(), idxOf);
    SendKeeps(st.Announce(), msg, idxOf);
    ClaimKeeps(st.Announce().Send(msg), tk.dkg, LowestBit(tk.dkg.r3Mask, 0, tk.dkg.maxSigners), idxOf);
  }

  lemma R3Keeps(box: Box, st: State, tk: Tick, idxOf: nat -> uint16)
    requires InCeremony(st, idxOf) && tk.dkg.until == st.until && st.idx == idxOf(st.until)
    requires !tk.dkg.state.Finished?
    ensures InCeremony(ExecuteR3(box, st, tk), idxOf) && ExecuteR3(box, st, tk).until == st.until
  {
    if st.idx in tk.dkg.r3Mask {
      return;
    }
    if st.r3.None? {
      MakeR3Keeps(box, st, tk, idxOf);
    }
    var (st1, ok) := if st.r3.None? then MakeR3(box, st, tk) else (st, true);
    if ok {
      SendR3Keeps(st1, tk, idxOf);
    }
  }

  lemma RoundsKeep(box: Box, st: State, tk: Tick, idxOf: nat -> uint16)
    requires InCeremony(st, idxOf) && tk.dkg.until == st.until && st.idx == idxOf(st.until)
    requires !tk.dkg.state.Finished?
    ensures InCeremony(Rounds(box, st, tk), idxOf)
    ensures Rounds(box, st, tk).until == st.until
  {
    R1Keeps(st, tk, idxOf);
    R2Keeps(box, st, tk, idxOf);
    R3Keeps(box, st, tk, idxOf);
  }

  /** The state after `ticks`; only while its ceremony is open must it account for what was sent. */
  ghost predicate Faithful(st: State, ticks: seq<Tick>, idxOf: nat -> uint16) {
    && st.until <= Latest(ticks)
    && PastOnly(st, idxOf) && Consistent(st.ledger)
    && (st.r3.Some? ==> st.r2.Some?) && (st.r2.Some? ==> st.r1.Some?)
    && (IsOpen(st, ticks) ==> AllHeld(st))
  }

  lemma StaysOpen(st: State, ticks: seq<Tick>, tk: Tick, idxOf: nat -> uint16)
    requires Orderly(ticks + [tk], idxOf)
    requires st.until <= Latest(ticks) && tk.dkg.until <= st.until && !tk.dkg.state.Finished?
    ensures IsOpen(st, ticks) && tk.dkg.until == st.until
  {
    var all := ticks + [tk];
    if ticks != [] {
      assert all[|ticks| - 1].dkg.until <= all[|ticks|].dkg.until;
    }
    forall was | was in ticks && was.dkg.until == st.until ensures !was.dkg.state.Finished? {
      var i :| 0 <= i < |ticks| && ticks[i] == was;
      assert all[i] == was && all[|ticks|] == tk;
    }
  }

  lemma LatestGrows(ticks: seq<Tick>, tk: Tick, idxOf: nat -> uint16)
    requires Orderly(ticks + [tk], idxOf)
    ensures Latest(ticks) <= tk.dkg.until == Latest(ticks + [tk])
    ensures tk.keyInfo.Some? ==> tk.keyInfo.value == idxOf(tk.dkg.until)
  {
    var all := ticks + [tk];
    assert all[|ticks|] == tk;
    if ticks != [] {
      assert all[|ticks| - 1].dkg.until <= all[|ticks|].dkg.until;
    }
  }

  lemma StartKeeps(st: State, tk: Tick, idxOf: nat -> uint16)
    requires PastOnly(st, idxOf) && Consistent(st.ledger)
    requires (st.r3.Some? ==> st.r2.Some?) && (st.r2.Some? ==> st.r1.Some?)
    requires tk.dkg.until <= st.until ==> AllHeld(st) && tk.dkg.until == st.until
    ensures var (st1, started) := StartIfNew(st, tk);
            started ==> InCeremony(st1, idxOf) && st1.until == tk.dkg.until
  {
  }

  lemma SetIdxKeeps(st: State, idx: uint16, idxOf: nat -> uint16)
    requires InCeremony(st, idxOf)
    ensures InCeremony(st.(idx := idx), idxOf)
  {
    var st1 := st.(idx := idx);
    forall m | m in st1.ledger.sent && m.until == st1.until ensures IsHeld(st1, m) {
      assert IsHeld(st, m);
    }
  }

  lemma ExecuteKeeps(box: Box, st: State, ticks: seq<Tick>, tk: Tick, idxOf: nat -> uint16)
    requires Faithful(st, ticks, idxOf) && Orderly(ticks + [tk], idxOf)
    ensures Faithful(Execute(box, st, tk), ticks + [tk], idxOf)
  {
    LatestGrows(ticks, tk, idxOf);
    if tk.dkg.state.Finished? {
      assert tk in ticks + [tk];
      return;
    }
    if tk.dkg.until <= st.until {
      StaysOpen(st, ticks, tk, idxOf);
    }
    StartKeeps(st, tk, idxOf);
    var (st1, started) := StartIfNew(st, tk);
    if started {
      var st2 := st1;
      if tk.keyInfo.Some? {
        SetIdxKeeps(st1, tk.keyInfo.value, idxOf);
        st2 := st1.(idx := tk.keyInfo.value);
        if tk.keyInfo.value in tk.dkg.vsetMask {
          RoundsKeep(box, st2, tk, idxOf);
          st2 := Rounds(box, st2, tk);
        }
      }
      CeremonyFaithful(st2, ticks + [tk], idxOf);
      assert Execute(box, st, tk) == st2;
    }
  }

  lemma CeremonyFaithful(st: State, ticks: seq<Tick>, idxOf: nat -> uint16)
    requires InCeremony(st, idxOf) && st.until == Latest(ticks)
    ensures Faithful(st, ticks, idxOf)
  {
  }

  /** Two first-round, second-round or third-round messages of one ceremony are the same message, and
      its private key is the partner of the public key it sent, whatever fails and is tried again. */
  lemma {:induction false} NoEquivocation(box: Box, ticks: seq<Tick>, idxOf: nat -> uint16)
    requires Orderly(ticks, idxOf)
    ensures Consistent(Run(box, ticks).ledger)
    ensures Faithful(Run(box, ticks), ticks, idxOf)
    decreases |ticks|
  {
    if ticks != [] {
      var before := ticks[..|ticks| - 1];
      assert before + [ticks[|ticks| - 1]] == ticks;
      NoEquivocation(box, before, idxOf);
      ExecuteKeeps(box, Run(box, before), before, ticks[|ticks| - 1], idxOf);
    }
  }
}
