/** A whole ceremony among executors: what each sends is what the others parse, and it ends with
    everybody's key package and nobody claimed. */
module DkgCeremony {
  import opened Wrappers
  import opened ByteCodec
  import opened Threshold
  import opened FrostIds
  import opened DkgPackages
  import opened DkgCrypto
  import opened DkgExchange
  import opened DkgSpec
  import Safety = DkgSafety

  /** One validator's three ticks: round one in progress, then finished, then round two finished. */
  datatype Script = Script(first: Tick, second: Tick, third: Tick)

  /** The first-round packages `v` hands to FROST: everybody's but its own. */
  ghost function Heard(c: Ceremony, v: uint16): map<Identifier, Bytes> {
    FrostMap(R1Packages(c)) - {ValidatorIdxToFrost(v)}
  }

  /** What DkgPart2 answers to them. */
  ghost function Answer2(c: Ceremony, v: uint16, s: Script): Part2Answer
    requires s.first.part1.Some?
  {
    s.second.part2(s.first.part1.value.1, Heard(c, v))
  }

  /** What DkgPart3 answers to them and to the packages made for `v`. */
  ghost function Answer3(c: Ceremony, v: uint16, s: Script): Part3Answer
    requires c.Valid() && v in c.vset && s.first.part1.Some? && Answer2(c, v, s).Part2Ok?
  {
    s.third.part3(Answer2(c, v, s).secret2, Heard(c, v), FrostMap(MadeFor(c, v)))
  }

  /** The native library, the random source and the key generator serve `v` as its party in `c` says. */
  ghost predicate Answers(c: Ceremony, v: uint16, s: Script)
    requires c.Valid() && v in c.vset
  {
    && s.first.newSession.Some? && s.first.part1.Some? && s.first.keyPair.Some?
    && CalcMinSigners(s.first.dkg.maxSigners).Some?
    && Safety.Partners(c.box, s.first.keyPair.value.private, s.first.keyPair.value.public)
    && Answer2(c, v, s).Part2Ok?
    && c.parties[v] ==
       Party(s.first.keyPair.value.private, s.first.part1.value.0, Answer2(c, v, s).packages, s.second.rand)
    && Answer3(c, v, s).Part3Ok? && s.third.publicKey.Some? && s.third.sendExitCode == 0
  }

  /** The coordinator's snapshots of one round, for a member that is not on record yet. */
  ghost predicate Sees(tk: Tick, v: uint16, c: Ceremony, state: DkgState, mask: set<uint16>) {
    && tk.dkg.until == c.until && tk.dkg.state == state && tk.dkg.vsetMask == c.vset
    && tk.keyInfo == Some(v) && v in c.vset && v !in mask
  }

  /** Everybody's answers are good, and the coordinator shows what everybody published. */
  ghost predicate Plays(c: Ceremony, v: uint16, s: Script) {
    && c.Valid() && c.until > 0 && v in c.vset && Answers(c, v, s)
    && Sees(s.first, v, c, InProgress, s.first.dkg.r1Mask)
    && Sees(s.second, v, c, Part1Finished, s.second.dkg.r2Mask)
    && Sees(s.third, v, c, Part2Finished, s.third.dkg.r3Mask)
    && s.second.dkg.r1Packages == c.Published1() && s.third.dkg.r1Packages == c.Published1()
    && s.third.dkg.r2Packages == c.Published2()
  }

  /** What is on the wire for a first-round message: the public key and the package behind it. */
  function R1Wire(m: Msg): Bytes
    requires m.R1Msg?
  {
    m.public + m.pkg
  }

  function FirstMsg(v: uint16, s: Script): (m: Msg)
    requires s.first.part1.Some? && s.first.keyPair.Some?
    ensures m.R1Msg?
  {
    R1Msg(s.first.dkg.until, v, s.first.part1.value.0, s.first.keyPair.value.public)
  }

  ghost function AfterFirst(v: uint16, s: Script): State
    requires s.first.part1.Some? && s.first.keyPair.Some?
  {
    var r1 := Round1(s.first.part1.value.0, s.first.part1.value.1, s.first.keyPair.value);
    State(s.first.dkg.until, Some(r1), None, None, s.first.newSession, v,
          Ledger({r1.secret}, {}, false, [FirstMsg(v, s)], [], 1, {}, {}))
  }

  lemma FirstTick(c: Ceremony, v: uint16, s: Script)
    requires Plays(c, v, s)
    ensures Execute(c.box, INITIAL, s.first) == AfterFirst(v, s)
  {
    assert {} + {s.first.part1.value.1} == {s.first.part1.value.1};
    assert [] + AfterFirst(v, s).ledger.sent == AfterFirst(v, s).ledger.sent;
  }

  lemma FirstWire(c: Ceremony, v: uint16, s: Script)
    requires Plays(c, v, s)
    ensures v in c.Published1() && R1Wire(FirstMsg(v, s)) == c.Published1()[v]
  {
  }

  /** A snapshot of the ceremony `st` is in, for a member of its set. */
  ghost predicate Current(st: State, tk: Tick, v: uint16) {
    st.until == tk.dkg.until && tk.keyInfo == Some(v) && v in tk.dkg.vsetMask && st.idx == v
  }

  lemma MakesR2(box: Box, st: State, tk: Tick, r1Packages: map<Identifier, Bytes>, keys: map<uint16, Bytes>,
                packages: OurPackages, secret: nat, sealed: map<uint16, Bytes>)
    requires st.r1.Some? && R1Parse(tk.dkg.r1Packages) == R1Parsed(r1Packages, keys)
    requires tk.part2(st.r1.value.secret, Others(st, r1Packages)) == Part2Ok(packages, secret)
    requires SealAll(Session(box, keys, st.r1.value.keys.private, tk.dkg.until, st.idx), packages, tk.rand) == Some(sealed)
    ensures var (made, ok) := MakeR2(box, st, tk);
            && ok && made.r2 == Some(Round2(Serialized(sealed), secret))
            && made.ledger.sent == st.ledger.sent && made.ledger.persisted == st.ledger.persisted
            && made.(r2 := st.r2, ledger := st.ledger) == st
  {
    assert MakeR2(box, st, tk) == SealR2(box, st.Use1(st.r1.value.secret), packages, secret, keys, tk);
  }

  lemma RunsR2(box: Box, st: State, tk: Tick, v: uint16, made: State)
    requires Current(st, tk, v) && tk.dkg.state.Part1Finished? && v !in tk.dkg.r2Mask && st.r2.None?
    requires MakeR2(box, st, tk) == (made, true) && made.r2.Some?
    ensures Execute(box, st, tk) == made.Send(R2Msg(tk.dkg.until, made.idx, made.r2.value.packages))
  {
    assert st.(idx := v) == st;
    assert Rounds(box, st, tk) == ExecuteR2(box, st, tk).0;
  }

  lemma MembersSeal(c: Ceremony, v: uint16)
    requires c.Valid() && v in c.vset
    ensures OurIdentifiers(c.parties[v].r2)
    ensures v in c.Published2() && SealAll(c.SessionOf(v), c.parties[v].r2, c.parties[v].rand).Some?
    ensures Serialized(SealAll(c.SessionOf(v), c.parties[v].r2, c.parties[v].rand).value) == c.Published2()[v]
  {
    assert Honest(c.SessionOf(v), c.parties[v], c.vset);
    HonestSeals(c.SessionOf(v), c.parties[v], c.vset);
  }

  /** FROST is given, for every other member, the package that member's FROST made for all. */
  lemma HeardExact(c: Ceremony, v: uint16, u: uint16)
    requires c.Valid() && v in c.vset && u in c.vset
    ensures ValidatorIdxToFrost(u) in Heard(c, v) <==> u != v
    ensures u != v ==> Heard(c, v)[ValidatorIdxToFrost(u)] == c.parties[u].r1
  {
    var m := R1Packages(c);
    assert u in m && m[u] == c.parties[u].r1;
    FrostMapWithout(m, v, u);
  }

  lemma MembersOpen(c: Ceremony, v: uint16)
    requires c.Valid() && v in c.vset
    ensures R2Parse(c.Published2(), c.vset).R2Parsed?
    ensures OpenAll(c.SessionOf(v), R2Parse(c.Published2(), c.vset).received) == Decrypted(FrostMap(MadeFor(c, v)))
  {
    RoundTwoParses(c);
    AllJudgedGood(c, v);
  }

  /** In round two an executor seals with the keys it parsed, and sends what the exchange expects. */
  lemma SecondTick(c: Ceremony, v: uint16, s: Script) returns (st1: State)
    requires Plays(c, v, s)
    ensures st1 == Execute(c.box, AfterFirst(v, s), s.second)
    ensures v in c.Published2() && st1.ledger.sent == [FirstMsg(v, s)] + [R2Msg(c.until, v, c.Published2()[v])]
    ensures st1.ledger.persisted == {}
    ensures st1.(r2 := None, ledger := AfterFirst(v, s).ledger) == AfterFirst(v, s)
    ensures st1.r2.Some? && st1.r2.value.secret == Answer2(c, v, s).secret2
  {
    var st := AfterFirst(v, s);
    RoundOneParses(c);
    MembersSeal(c, v);
    MakesR2(c.box, st, s.second, FrostMap(R1Packages(c)), c.Keys(), Answer2(c, v, s).packages, Answer2(c, v, s).secret2,
            SealAll(c.SessionOf(v), c.parties[v].r2, c.parties[v].rand).value);
    var made := MakeR2(c.box, st, s.second).0;
    RunsR2(c.box, st, s.second, v, made);
    st1 := made.Send(R2Msg(s.second.dkg.until, made.idx, made.r2.value.packages));
  }

  lemma MakesR3(box: Box, st: State, tk: Tick, r1Packages: map<Identifier, Bytes>, keys: map<uint16, Bytes>,
                r2Packages: map<Identifier, Bytes>)
    requires st.r1.Some? && st.r2.Some?
    requires R1Parse(tk.dkg.r1Packages) == R1Parsed(r1Packages, keys)
    requires R2Parse(tk.dkg.r2Packages, tk.dkg.vsetMask).R2Parsed?
    requires OpenAll(Session(box, keys, st.r1.value.keys.private, tk.dkg.until, st.idx),
                     R2Parse(tk.dkg.r2Packages, tk.dkg.vsetMask).received) == Decrypted(r2Packages)
    ensures MakeR3(box, st, tk) ==
            FinishR3(st.UseKey(st.r1.value.keys), tk.part3(st.r2.value.secret, Others(st, r1Packages), r2Packages), tk)
  {
    assert MakeR3(box, st, tk) ==
           OpenR2(box, st, Others(st, r1Packages), keys, R2Parse(tk.dkg.r2Packages, tk.dkg.vsetMask).received, tk);
  }

  lemma RunsR3(box: Box, st: State, tk: Tick, v: uint16, made: State, ok: bool)
    requires Current(st, tk, v) && tk.dkg.state.Part2Finished? && v !in tk.dkg.r3Mask
    requires if st.r3.None? then MakeR3(box, st, tk) == (made, ok) else made == st && ok
    requires made.r3.Some?
    ensures Execute(box, st, tk) == if ok then SendR3(made, tk) else made
  {
    assert st.(idx := v) == st;
    assert Rounds(box, st, tk) == ExecuteR3(box, st, tk);
  }

  lemma FinishesR3(st: State, answer: Part3Answer, tk: Tick)
    requires st.r2.Some? && answer.Part3Ok? && tk.publicKey.Some?
    ensures var (made, ok) := FinishR3(st, answer, tk);
            && ok == tk.stored && made.r3 == Some(Round3(answer.keyPackage, answer.publicKeyPackage))
            && made.ledger.sent == st.ledger.sent
            && made.ledger.persisted ==
               st.ledger.persisted + (if tk.stored then {CeremonyResult(st.ledger.dropped, answer.publicKeyPackage)} else {})
            && made.sessionSigner == st.sessionSigner && made.until == st.until && made.idx == st.idx
  {
  }

  lemma SendsR3(st: State, tk: Tick)
    requires st.r3.Some? && tk.sendExitCode == 0
    ensures var st1 := SendR3(st, tk);
            && st1.r3 == st.r3 && st1.ledger.persisted == st.ledger.persisted
            && st1.sessionSigner == st.sessionSigner && st1.until == st.until && st1.idx == st.idx
            && st1.ledger.sent == st.ledger.sent + [R3Msg(tk.dkg.until, st.idx, st.sessionSigner, st.r3.value.publicKeyPackage)]
  {
  }

  lemma MakesResult(c: Ceremony, v: uint16, s: Script, st: State) returns (made: State)
    requires Plays(c, v, s)
    requires st.until == c.until && st.idx == v && st.r1.Some? && st.r2.Some?
    requires st.r1.value.keys == s.first.keyPair.value && st.r2.value.secret == Answer2(c, v, s).secret2
    ensures MakeR3(c.box, st, s.third) == (made, s.third.stored)
    ensures made.r3 == Some(Round3(Answer3(c, v, s).keyPackage, Answer3(c, v, s).publicKeyPackage))
    ensures made.ledger.sent == st.ledger.sent
    ensures !s.third.stored ==> made.ledger.persisted == st.ledger.persisted
    ensures made.sessionSigner == st.sessionSigner && made.until == st.until && made.idx == st.idx
  {
    RoundOneParses(c);
    MembersOpen(c, v);
    var st0 := st.UseKey(st.r1.value.keys);
    MakesR3(c.box, st, s.third, FrostMap(R1Packages(c)), c.Keys(), FrostMap(MadeFor(c, v)));
    FinishesR3(st0, Answer3(c, v, s), s.third);
    made := FinishR3(st0, Answer3(c, v, s), s.third).0;
  }

  /** In round three nobody is claimed: parsing and opening succeed, DkgPart3 is given exactly what the
      others made for this member, and its result is held; announced only if it could be stored. */
  lemma ThirdTick(c: Ceremony, v: uint16, s: Script, st: State) returns (st1: State)
    requires Plays(c, v, s)
    requires st.until == c.until && st.idx == v && st.r1.Some? && st.r2.Some? && st.r3.None?
    requires st.r1.value.keys == s.first.keyPair.value && st.r2.value.secret == Answer2(c, v, s).secret2
    ensures st1 == Execute(c.box, st, s.third)
    ensures st1.ledger.sent == st.ledger.sent +
            (if s.third.stored then [R3Msg(c.until, v, st.sessionSigner, Answer3(c, v, s).publicKeyPackage)] else [])
    ensures st1.r3 == Some(Round3(Answer3(c, v, s).keyPackage, Answer3(c, v, s).publicKeyPackage))
    ensures !s.third.stored ==> st1.ledger.persisted == st.ledger.persisted
    ensures st1.sessionSigner == st.sessionSigner
    ensures st1.until == c.until && st1.idx == v
  {
    var made := MakesResult(c, v, s, st);
    st1 := Announces(c.box, st, s.third, v, made, s.third.stored);
  }

  lemma Announces(box: Box, st: State, tk: Tick, v: uint16, made: State, ok: bool) returns (st1: State)
    requires Current(st, tk, v) && tk.dkg.state.Part2Finished? && v !in tk.dkg.r3Mask && tk.sendExitCode == 0
    requires if st.r3.None? then MakeR3(box, st, tk) == (made, ok) else made == st && ok
    requires made.r3.Some?
    ensures st1 == Execute(box, st, tk)
    ensures st1.ledger.sent == made.ledger.sent +
            (if ok then [R3Msg(tk.dkg.until, made.idx, made.sessionSigner, made.r3.value.publicKeyPackage)] else [])
    ensures st1.ledger.persisted == made.ledger.persisted && st1.r3 == made.r3
    ensures st1.sessionSigner == made.sessionSigner && st1.until == made.until && st1.idx == made.idx
  {
    RunsR3(box, st, tk, v, made, ok);
    if ok {
      SendsR3(made, tk);
      st1 := SendR3(made, tk);
    } else {
      assert made.ledger.sent + [] == made.ledger.sent;
      st1 := made;
    }
  }

  lemma RunMore(box: Box, past: seq<Tick>, tk: Tick, all: seq<Tick>)
    requires all == past + [tk]
    ensures Run(box, all) == Execute(box, Run(box, past), tk)
  {
    assert all[..|all| - 1] == past;
  }

  lemma First(box: Box, a: Tick)
    ensures Run(box, [a]) == Execute(box, INITIAL, a)
  {
    RunMore(box, [], a, [a]);
  }

  lemma Second(box: Box, a: Tick, b: Tick)
    ensures Run(box, [a, b]) == Execute(box, Run(box, [a]), b)
  {
    RunMore(box, [a], b, [a, b]);
  }

  lemma Third(box: Box, a: Tick, b: Tick, c: Tick)
    ensures Run(box, [a, b, c]) == Execute(box, Run(box, [a, b]), c)
  {
    RunMore(box, [a, b], c, [a, b, c]);
  }

  lemma Fourth(box: Box, a: Tick, b: Tick, c: Tick, d: Tick)
    ensures Run(box, [a, b, c, d]) == Execute(box, Run(box, [a, b, c]), d)
  {
    RunMore(box, [a, b, c], d, [a, b, c, d]);
  }

  lemma RunOne(c: Ceremony, v: uint16, s: Script)
    requires Plays(c, v, s)
    ensures Run(c.box, [s.first]) == AfterFirst(v, s)
  {
    First(c.box, s.first);
    FirstTick(c, v, s);
  }

  lemma RunTwo(c: Ceremony, v: uint16, s: Script) returns (st: State)
    requires Plays(c, v, s)
    ensures st == Run(c.box, [s.first, s.second])
    ensures st.ledger.sent == [FirstMsg(v, s)] + [R2Msg(c.until, v, c.Published2()[v])]
    ensures st.ledger.persisted == {}
    ensures st.(r2 := None, ledger := AfterFirst(v, s).ledger) == AfterFirst(v, s)
    ensures st.r2.Some? && st.r2.value.secret == Answer2(c, v, s).secret2
  {
    RunOne(c, v, s);
    Second(c.box, s.first, s.second);
    st := SecondTick(c, v, s);
  }

  lemma RunThree(c: Ceremony, v: uint16, s: Script) returns (st: State)
    requires Plays(c, v, s)
    ensures st == Run(c.box, [s.first, s.second, s.third])
    ensures st.ledger.sent == [FirstMsg(v, s)] + [R2Msg(c.until, v, c.Published2()[v])] +
            (if s.third.stored then [R3Msg(c.until, v, s.first.newSession, Answer3(c, v, s).publicKeyPackage)] else [])
    ensures st.r3 == Some(Round3(Answer3(c, v, s).keyPackage, Answer3(c, v, s).publicKeyPackage))
    ensures st.sessionSigner == s.first.newSession
    ensures st.until == c.until && st.idx == v && (!s.third.stored ==> st.ledger.persisted == {})
  {
    var st2 := RunTwo(c, v, s);
    Third(c.box, s.first, s.second, s.third);
    st := ThirdTick(c, v, s, st2);
  }

  /** Three ticks of every member's executor complete the ceremony: what the coordinator showed in
      the later rounds is what the executors sent in the earlier ones, and nobody sends a claim. */
  lemma CeremonyCompletes(c: Ceremony, v: uint16, s: Script) returns (st: State)
    requires Plays(c, v, s) && s.third.stored
    ensures st == Run(c.box, [s.first, s.second, s.third])
    ensures v in c.Published1() && v in c.Published2() && R1Wire(FirstMsg(v, s)) == c.Published1()[v]
    ensures st.ledger.sent ==
            [FirstMsg(v, s), R2Msg(c.until, v, c.Published2()[v]),
             R3Msg(c.until, v, s.first.newSession, Answer3(c, v, s).publicKeyPackage)]
    ensures st.r3 == Some(Round3(Answer3(c, v, s).keyPackage, Answer3(c, v, s).publicKeyPackage))
  {
    FirstWire(c, v, s);
    st := RunThree(c, v, s);
    ThreeMessages(FirstMsg(v, s), R2Msg(c.until, v, c.Published2()[v]),
                  R3Msg(c.until, v, s.first.newSession, Answer3(c, v, s).publicKeyPackage));
  }

  lemma ThreeMessages(a: Msg, b: Msg, c: Msg)
    ensures [a] + [b] + [c] == [a, b, c]
  {
  }

  // ----- a secret that was never stored -----

  lemma SendsAgain(box: Box, st: State, tk: Tick, v: uint16) returns (st1: State)
    requires Current(st, tk, v) && tk.dkg.state.Part2Finished? && v !in tk.dkg.r3Mask
    requires st.r3.Some? && tk.sendExitCode == 0
    ensures st1 == Execute(box, st, tk) && st1.ledger.persisted == st.ledger.persisted
    ensures st1.ledger.sent == st.ledger.sent + [R3Msg(tk.dkg.until, st.idx, st.sessionSigner, st.r3.value.publicKeyPackage)]
  {
    st1 := Announces(box, st, tk, v, st, true);
  }

  /** If the write fails in round three, one more tick announces the key; nothing was ever stored. */
  lemma AnnouncedUnstored(c: Ceremony, v: uint16, s: Script, fourth: Tick) returns (st: State)
    requires Plays(c, v, s) && !s.third.stored
    requires Sees(fourth, v, c, Part2Finished, fourth.dkg.r3Mask) && fourth.sendExitCode == 0
    ensures st == Run(c.box, [s.first, s.second, s.third, fourth])
    ensures st.ledger.persisted == {}
    ensures R3Msg(c.until, v, s.first.newSession, Answer3(c, v, s).publicKeyPackage) in st.ledger.sent
  {
    var st3 := RunThree(c, v, s);
    Fourth(c.box, s.first, s.second, s.third, fourth);
    st := SendsAgain(c.box, st3, fourth, v);
  }

  /** Ticks in which every answer is as `c` has it. */
  function TickFor(c: Ceremony, v: uint16, p: Party, pkgs: OurPackages, stored: bool, state: DkgState,
                   r1Packages: map<uint16, Bytes>, r2Packages: map<uint16, Bytes>): Tick
    requires c.until >= 0
  {
    Tick(Dkg(state, c.until, 2, c.vset, {}, {}, {}, {}, r1Packages, r2Packages), Some([]), Some(v), Some((p.r1, 1)),
         Some(KeyPair(c.box.publicOf(p.private), p.private)), (_, _) => Part2Ok(pkgs, 1), p.rand,
         (_, _, _) => Part3Ok([], []), Some([]), stored, 0)
  }

  lemma TicksAnswer(c: Ceremony, v: uint16, pkgs: OurPackages, stored: bool, p1: map<uint16, Bytes>, p2: map<uint16, Bytes>)
    returns (s: Script)
    requires c.Valid() && v in c.vset && pkgs == c.parties[v].r2 && c.until >= 0
    ensures s == Script(TickFor(c, v, c.parties[v], pkgs, stored, InProgress, map[], map[]),
                        TickFor(c, v, c.parties[v], pkgs, stored, Part1Finished, p1, map[]),
                        TickFor(c, v, c.parties[v], pkgs, stored, Part2Finished, p1, p2))
    ensures Answers(c, v, s)
  {
    var p := c.parties[v];
    s := Script(TickFor(c, v, p, pkgs, stored, InProgress, map[], map[]),
                TickFor(c, v, p, pkgs, stored, Part1Finished, p1, map[]),
                TickFor(c, v, p, pkgs, stored, Part2Finished, p1, p2));
    assert Answer2(c, v, s) == Part2Ok(pkgs, 1);
    assert Answer3(c, v, s) == Part3Ok([], []);
  }

  /** Every member of every honest ceremony has a script. */
  lemma EveryMemberCanPlay(c: Ceremony, v: uint16, stored: bool) returns (s: Script)
    requires c.Valid() && c.until > 0 && v in c.vset
    ensures Plays(c, v, s) && s.third.stored == stored
  {
    assert OurIdentifiers(c.parties[v].r2) by { MembersSeal(c, v); }
    s := TicksAnswer(c, v, c.parties[v].r2, stored, c.Published1(), c.Published2());
  }

  /** Two validators, four ticks from a fresh process: the announced key's secret is nowhere. */
  lemma SecretIsLost() returns (box: Box, ticks: seq<Tick>, st: State)
    ensures |ticks| == 4 && st == Run(box, ticks)
    ensures st.ledger.persisted == {} && exists m | m in st.ledger.sent :: m.R3Msg?
  {
    box := LawsCanBeMet();
    var c := EverySetCanMeet(box, {0, 1}, 1);
    var s := EveryMemberCanPlay(c, 0, false);
    ticks := [s.first, s.second, s.third, s.third];
    st := AnnouncedUnstored(c, 0, s, s.third);
  }
}
