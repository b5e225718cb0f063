/** The members of an honest ceremony carry out one plan: what each comes to hold and to publish does
    not depend on which of its ticks fail, so `DkgProgress` applies to them. */
module DkgCompletion {
  import opened Wrappers
  import opened ByteCodec
  import opened Threshold
  import opened FrostIds
  import opened DkgPackages
  import opened DkgCrypto
  import opened DkgExchange
  import opened DkgSpec
  import opened DkgProgress
  import Ceremonies = DkgCeremony

  ghost function At(m: map<uint16, Bytes>): uint16 -> Bytes {
    v => if v in m then m[v] else []
  }

  ghost function Privates(c: Ceremony): map<uint16, Bytes> {
    map v: uint16 | v in c.parties :: c.parties[v].private
  }

  ghost function PlanOf(c: Ceremony): Plan
    requires c.Valid() && c.until > 0
  {
    Plan(c.box, c.vset, c.until, At(Privates(c)), At(c.Published1()), At(c.Published2()))
  }

  // ----- what the libraries answer -----

  /** FROST answers the packages of the ceremony with those of the party, or fails and blames nobody. */
  ghost predicate Answers2(c: Ceremony, v: uint16, p: Party, answer: Part2Answer) {
    match answer
    case Part2Failed(culprit) => culprit.None?
    case Part2Ok(packages, _) => packages == p.r2
  }

  /** The box seals them as in the ceremony, or fails for want of a nonce. */
  ghost predicate SealsAlike(c: Ceremony, v: uint16, p: Party, rand: Identifier -> Option<Nonce>)
    requires v in c.parties && OurIdentifiers(p.r2)
  {
    SealAll(c.SessionOf(v), p.r2, rand).Some? ==> SealAll(c.SessionOf(v), p.r2, rand) == SealAll(c.SessionOf(v), p.r2, p.rand)
  }

  /** A tick of member `v` in which anything may fail. What part one and the key generator answer only
      matters when both do, and is then what the ceremony says. */
  ghost predicate Honours(c: Ceremony, v: uint16, tk: Tick)
    requires c.Valid()
  {
    && v in c.vset && (tk.keyInfo.Some? ==> tk.keyInfo.value == v)
    && var p := c.parties[v];
    && (tk.part1.Some? && tk.keyPair.Some? ==>
          tk.part1.value.0 == p.r1 && tk.keyPair.value == KeyPair(c.box.publicOf(p.private), p.private))
    && OurIdentifiers(p.r2) && SealsAlike(c, v, p, tk.rand)
    && (forall h: nat :: Answers2(c, v, p, tk.part2(h, Ceremonies.Heard(c, v))))
    && (forall h: nat :: tk.part3(h, Ceremonies.Heard(c, v), FrostMap(MadeFor(c, v))).Part3Failed? ==>
          tk.part3(h, Ceremonies.Heard(c, v), FrostMap(MadeFor(c, v))).culprit3.None?)
    && tk.sendExitCode != DIFFERENT_PUBKEY_PACKAGES
  }

  /** Nothing fails. */
  ghost predicate Succeeds(c: Ceremony, v: uint16, tk: Tick)
    requires c.Valid()
  {
    && Honours(c, v, tk)
    && tk.keyInfo.Some? && tk.newSession.Some? && tk.part1.Some? && tk.keyPair.Some?
    && SealAll(c.SessionOf(v), c.parties[v].r2, tk.rand).Some?
    && (forall h: nat :: tk.part2(h, Ceremonies.Heard(c, v)).Part2Ok?)
    && (forall h: nat :: tk.part3(h, Ceremonies.Heard(c, v), FrostMap(MadeFor(c, v))).Part3Ok?)
    && tk.publicKey.Some? && tk.stored
  }

  // ----- the rounds of a member -----

  lemma ShowsAll(packages: map<uint16, Bytes>, vset: set<uint16>, published: map<uint16, Bytes>)
    requires Shows(packages, vset, At(published)) && vset == published.Keys
    ensures packages == published
  {
  }

  /** Making the second round, with all that the ceremony says put in. */
  lemma SealsSecond(box: Box, st: State, tk: Tick, r1Packages: map<Identifier, Bytes>, keys: map<uint16, Bytes>)
    returns (made: State, ok: bool)
    requires st.r1.Some? && st.r2.None? && R1Parse(tk.dkg.r1Packages) == R1Parsed(r1Packages, keys)
    requires var answer := tk.part2(st.r1.value.secret, Others(st, r1Packages)); answer.Part2Failed? ==> answer.culprit2.None?
    ensures MakeR2(box, st, tk) == (made, ok)
    ensures made.ledger.sent == st.ledger.sent && made.(r2 := st.r2, ledger := st.ledger) == st
    ensures var answer := tk.part2(st.r1.value.secret, Others(st, r1Packages));
            var sealed := if answer.Part2Ok?
                          then SealAll(Session(box, keys, st.r1.value.keys.private, tk.dkg.until, st.idx), answer.packages, tk.rand)
                          else None;
            && (ok <==> sealed.Some?) && (ok <==> made.r2.Some?)
            && (ok ==> made.r2.value.packages == Serialized(sealed.value))
  {
    var r := MakeR2(box, st, tk);
    made, ok := r.0, r.1;
    match tk.part2(st.r1.value.secret, Others(st, r1Packages))
    case Part2Failed(culprit) =>
      assert r == (ExecuteClaim(st.Use1(st.r1.value.secret), tk.dkg, culprit), false);
    case Part2Ok(packages, secret) =>
      assert r == SealR2(box, st.Use1(st.r1.value.secret), packages, secret, keys, tk);
  }

  lemma PlannedFirst(c: Ceremony, v: uint16, st: State, tk: Tick)
    requires c.Valid() && c.until > 0 && v in c.vset && InC(PlanOf(c), v, st) && HasFirst(PlanOf(c), tk.dkg)
    requires st.r1.Some? && st.r3.None? && st.idx == v
    ensures R1Parse(tk.dkg.r1Packages) == R1Parsed(FrostMap(R1Packages(c)), c.Keys())
    ensures Others(st, FrostMap(R1Packages(c))) == Ceremonies.Heard(c, v)
    ensures Session(c.box, c.Keys(), st.r1.value.keys.private, tk.dkg.until, st.idx) == c.SessionOf(v)
  {
    ParsesFirst(c, tk.dkg);
    PrivatePlanned(c, v, st);
    SessionIs(c, v, st, tk.dkg.until);
  }

  lemma PrivatePlanned(c: Ceremony, v: uint16, st: State)
    requires c.Valid() && c.until > 0 && v in c.vset && InC(PlanOf(c), v, st) && st.r1.Some? && st.r3.None?
    ensures v in c.parties && st.r1.value.keys.private == c.parties[v].private
  {
    FirstPlanned(c, v);
  }

  lemma SessionIs(c: Ceremony, v: uint16, st: State, until: int)
    requires v in c.parties && st.r1.Some? && st.r1.value.keys.private == c.parties[v].private
    requires st.idx == v && until == c.until
    ensures Session(c.box, c.Keys(), st.r1.value.keys.private, until, st.idx) == c.SessionOf(v)
    ensures Others(st, FrostMap(R1Packages(c))) == Ceremonies.Heard(c, v)
  {
  }

  lemma ParsesFirst(c: Ceremony, dkg: Dkg)
    requires c.Valid() && c.until > 0 && HasFirst(PlanOf(c), dkg)
    ensures R1Parse(dkg.r1Packages) == R1Parsed(FrostMap(R1Packages(c)), c.Keys())
    ensures dkg.until == c.until
  {
    RoundOneParses(c);
    FirstIs(c, dkg.r1Packages);
  }

  lemma SecondPlanned(c: Ceremony, v: uint16, st: State, tk: Tick)
    requires c.Valid() && c.until > 0 && Honours(c, v, tk) && ReadyForR2(PlanOf(c), v, st, tk)
    ensures R2Planned(PlanOf(c), v, st, tk)
    ensures Succeeds(c, v, tk) ==> MakeR2(c.box, st, tk).1
  {
    PlannedFirst(c, v, st, tk);
    Ceremonies.MembersSeal(c, v);
    assert Answers2(c, v, c.parties[v], tk.part2(st.r1.value.secret, Ceremonies.Heard(c, v)));
    var made, ok := SealsSecond(c.box, st, tk, FrostMap(R1Packages(c)), c.Keys());
  }

  lemma FinishesThird(st: State, answer: Part3Answer, tk: Tick) returns (made: State, ok: bool)
    requires st.r1.Some? && st.r2.Some? && st.r3.None? && (answer.Part3Failed? ==> answer.culprit3.None?)
    ensures FinishR3(st.UseKey(st.r1.value.keys), answer, tk) == (made, ok)
    ensures made.r1.Some? && made.r2 == st.r2 && made.idx == st.idx && made.until == st.until
    ensures made.r1.value.pkg == st.r1.value.pkg && made.r1.value.keys.public == st.r1.value.keys.public
    ensures made.r3.None? ==> made.r1 == st.r1
    ensures made.ledger.sent == st.ledger.sent && (ok ==> made.r3.Some?)
    ensures answer.Part3Ok? && tk.publicKey.Some? && tk.stored ==> ok
  {
    var r := FinishR3(st.UseKey(st.r1.value.keys), answer, tk);
    made, ok := r.0, r.1;
  }

  lemma OpensSecond(c: Ceremony, v: uint16, st: State, tk: Tick)
    requires c.Valid() && c.until > 0 && v in c.vset && ReadyForR3(PlanOf(c), v, st, tk)
    ensures st.r1.Some?
    ensures MakeR3(c.box, st, tk) ==
            FinishR3(st.UseKey(st.r1.value.keys),
                     tk.part3(st.r2.value.secret, Ceremonies.Heard(c, v), FrostMap(MadeFor(c, v))), tk)
  {
    PlannedFirst(c, v, st, tk);
    SecondIs(c, tk.dkg.r2Packages);
    Ceremonies.MembersOpen(c, v);
    Ceremonies.MakesR3(c.box, st, tk, FrostMap(R1Packages(c)), c.Keys(), FrostMap(MadeFor(c, v)));
  }

  lemma ThirdPlanned(c: Ceremony, v: uint16, st: State, tk: Tick)
    requires c.Valid() && c.until > 0 && Honours(c, v, tk) && ReadyForR3(PlanOf(c), v, st, tk)
    ensures R3Planned(PlanOf(c), v, st, tk)
    ensures Succeeds(c, v, tk) ==> MakeR3(c.box, st, tk).1
  {
    OpensSecond(c, v, st, tk);
    var made, ok := FinishesThird(st, tk.part3(st.r2.value.secret, Ceremonies.Heard(c, v), FrostMap(MadeFor(c, v))), tk);
  }

  lemma FirstPlanned(c: Ceremony, v: uint16)
    requires c.Valid() && c.until > 0 && v in c.vset
    ensures PlanOf(c).private(v) == c.parties[v].private
    ensures PlanOf(c).first(v) == c.box.publicOf(c.parties[v].private) + c.parties[v].r1
  {
  }

  /** A tick of an honest member serves the plan, and is good if nothing fails. */
  lemma HonoursServes(c: Ceremony, v: uint16, tk: Tick)
    requires c.Valid() && c.until > 0 && Honours(c, v, tk)
    ensures Serves(PlanOf(c), v, tk)
    ensures Succeeds(c, v, tk) ==> GoodMove(PlanOf(c), Move(v, tk, true))
  {
    var pl := PlanOf(c);
    FirstPlanned(c, v);
    forall st | ReadyForR2(pl, v, st, tk)
      ensures R2Planned(pl, v, st, tk) && (Succeeds(c, v, tk) ==> MakeR2(pl.box, st, tk).1)
    {
      SecondPlanned(c, v, st, tk);
    }
    forall st | ReadyForR3(pl, v, st, tk)
      ensures R3Planned(pl, v, st, tk) && (Succeeds(c, v, tk) ==> MakeR3(pl.box, st, tk).1)
    {
      ThirdPlanned(c, v, st, tk);
    }
  }

  // ----- whole ceremonies -----

  /** Each tick is shown the record as it stands. */
  ghost predicate Snapshots(pl: Plan, w: World, moves: seq<Move>)
    decreases |moves|
  {
    moves != [] ==> moves[0].tick.dkg == w.dkg && Snapshots(pl, Step(pl, w, moves[0]), moves[1..])
  }

  /** Among any number of ticks that fail or are lost, every member has one in which nothing fails. */
  ghost predicate FairSweep(c: Ceremony, moves: seq<Move>)
    requires c.Valid()
  {
    && (forall m | m in moves :: Honours(c, m.v, m.tick))
    && forall v | v in c.vset :: exists m | m in moves :: m.v == v && m.delivered && Succeeds(c, v, m.tick)
  }

  ghost predicate FairSweeps(c: Ceremony, w: World, sweeps: seq<seq<Move>>)
    requires c.Valid() && c.until > 0
    decreases |sweeps|
  {
    sweeps != [] ==>
      && Snapshots(PlanOf(c), w, sweeps[0]) && FairSweep(c, sweeps[0])
      && FairSweeps(c, RunMoves(PlanOf(c), w, sweeps[0]), sweeps[1..])
  }

  lemma {:induction false} SnapshotsPermitted(pl: Plan, w: World, moves: seq<Move>)
    requires Snapshots(pl, w, moves) && forall m | m in moves :: Serves(pl, m.v, m.tick)
    ensures PermittedRun(pl, w, moves)
    decreases |moves|
  {
    if moves != [] {
      SnapshotsPermitted(pl, Step(pl, w, moves[0]), moves[1..]);
    }
  }

  lemma {:induction false} GoodTurn(pl: Plan, moves: seq<Move>, m: Move)
    requires m in moves && GoodMove(pl, m)
    ensures HasGoodTurn(pl, moves, m.v)
    decreases |moves|
  {
    if moves[0] != m {
      GoodTurn(pl, moves[1..], m);
    }
  }

  lemma SweepIsFair(c: Ceremony, w: World, sweep: seq<Move>)
    requires c.Valid() && c.until > 0 && Snapshots(PlanOf(c), w, sweep) && FairSweep(c, sweep)
    ensures PermittedRun(PlanOf(c), w, sweep) && Covers(PlanOf(c), sweep)
  {
    var pl := PlanOf(c);
    forall m | m in sweep ensures Serves(pl, m.v, m.tick) {
      HonoursServes(c, m.v, m.tick);
    }
    SnapshotsPermitted(pl, w, sweep);
    forall v | v in pl.vset ensures HasGoodTurn(pl, sweep, v) {
      var m :| m in sweep && m.v == v && m.delivered && Succeeds(c, v, m.tick);
      HonoursServes(c, v, m.tick);
      assert m == Move(v, m.tick, true);
      GoodTurn(pl, sweep, m);
    }
  }

  lemma {:induction false} SweepsAreFair(c: Ceremony, w: World, sweeps: seq<seq<Move>>)
    requires c.Valid() && c.until > 0 && FairSweeps(c, w, sweeps)
    ensures Fair(PlanOf(c), w, sweeps)
    decreases |sweeps|
  {
    if sweeps != [] {
      SweepIsFair(c, w, sweeps[0]);
      SweepsAreFair(c, RunMoves(PlanOf(c), w, sweeps[0]), sweeps[1..]);
    }
  }

  lemma CompleteIs(c: Ceremony, dkg: Dkg)
    requires c.Valid() && c.until > 0 && Complete(PlanOf(c), dkg)
    ensures dkg.state.Finished? && dkg.r3Mask == c.vset
    ensures dkg.r1Packages == c.Published1() && dkg.r2Packages == c.Published2()
  {
    FirstIs(c, dkg.r1Packages);
    SecondIs(c, dkg.r2Packages);
  }

  lemma FirstKeys(c: Ceremony)
    requires c.Valid()
    ensures c.vset == c.Published1().Keys
  {
  }

  lemma SecondKeys(c: Ceremony)
    requires c.Valid()
    ensures c.vset == c.Published2().Keys
  {
  }

  lemma FirstIs(c: Ceremony, packages: map<uint16, Bytes>)
    requires c.Valid() && Shows(packages, c.vset, At(c.Published1()))
    ensures packages == c.Published1()
  {
    FirstKeys(c);
    ShowsAll(packages, c.vset, c.Published1());
  }

  lemma SecondIs(c: Ceremony, packages: map<uint16, Bytes>)
    requires c.Valid() && Shows(packages, c.vset, At(c.Published2()))
    ensures packages == c.Published2()
  {
    SecondKeys(c);
    ShowsAll(packages, c.vset, c.Published2());
  }

  /** Honest members complete every ceremony: whatever fails and whatever is lost, after three sweeps for
      each member the record is what the members made for each other, and all have announced a result. */
  lemma CompletesDespiteFailures(c: Ceremony, w: World, sweeps: seq<seq<Move>>)
    requires c.Valid() && c.until > 0 && Start(PlanOf(c), w)
    requires FairSweeps(c, w, sweeps) && |sweeps| >= 3 * |c.vset|
    ensures var dkg := RunSweeps(PlanOf(c), w, sweeps).dkg;
            && dkg.state.Finished? && dkg.r3Mask == c.vset
            && dkg.r1Packages == c.Published1() && dkg.r2Packages == c.Published2()
  {
    StartOk(PlanOf(c), w);
    SweepsAreFair(c, w, sweeps);
    FairRunCompletes(PlanOf(c), w, sweeps);
    CompleteIs(c, RunSweeps(PlanOf(c), w, sweeps).dkg);
  }

  // ----- there are such runs -----

  function TickOf(box: Box, v: uint16, p: Party, pkgs: OurPackages, dkg: Dkg): Tick {
    Tick(dkg, Some([]), Some(v), Some((p.r1, 1)), Some(KeyPair(box.publicOf(p.private), p.private)),
         (_, _) => Part2Ok(pkgs, 1), p.rand, (_, _, _) => Part3Ok([], []), Some([]), true, 0)
  }

  ghost function PackagesOf(c: Ceremony, v: uint16): OurPackages {
    if v in c.parties && OurIdentifiers(c.parties[v].r2) then c.parties[v].r2 else map[]
  }

  ghost function MoveOf(c: Ceremony, dkg: Dkg, v: uint16): Move {
    Move(v, TickOf(c.box, v, if v in c.parties then c.parties[v] else Party([], [], map[], _ => None), PackagesOf(c, v), dkg),
         true)
  }

  lemma MemberSucceeds(c: Ceremony, v: uint16, dkg: Dkg)
    requires c.Valid() && v in c.vset
    ensures Succeeds(c, v, MoveOf(c, dkg, v).tick)
  {
    Ceremonies.MembersSeal(c, v);
    TickHonours(c, v, c.parties[v], PackagesOf(c, v), dkg);
    assert MoveOf(c, dkg, v).tick == TickOf(c.box, v, c.parties[v], PackagesOf(c, v), dkg);
  }

  lemma TickHonours(c: Ceremony, v: uint16, p: Party, pkgs: OurPackages, dkg: Dkg)
    requires c.Valid() && v in c.vset && p == c.parties[v] && pkgs == p.r2
    ensures Honours(c, v, TickOf(c.box, v, p, pkgs, dkg))
  {
    var tk := TickOf(c.box, v, p, pkgs, dkg);
    forall h: nat ensures Answers2(c, v, p, tk.part2(h, Ceremonies.Heard(c, v))) {
      assert tk.part2(h, Ceremonies.Heard(c, v)) == Part2Ok(pkgs, 1);
    }
  }

  /** From wherever an honest ceremony is, it can be completed. */
  lemma CanComplete(c: Ceremony, w: World) returns (sweeps: seq<seq<Move>>)
    requires c.Valid() && c.until > 0 && WorldOk(PlanOf(c), w)
    ensures Fair(PlanOf(c), w, sweeps) && Complete(PlanOf(c), RunSweeps(PlanOf(c), w, sweeps).dkg)
  {
    MembersMove(c);
    sweeps := CanAlwaysComplete(PlanOf(c), w, MoverOf(c));
  }

  ghost function MoverOf(c: Ceremony): Mover {
    (dkg: Dkg, v: uint16) => MoveOf(c, dkg, v)
  }

  lemma MembersMove(c: Ceremony)
    requires c.Valid() && c.until > 0
    ensures MovesWell(PlanOf(c), MoverOf(c))
  {
    var pl, mover := PlanOf(c), MoverOf(c);
    forall dkg: Dkg, v: uint16 | DkgOk(pl, dkg) && v in pl.vset
      ensures mover(dkg, v).v == v && mover(dkg, v).tick.dkg == dkg && GoodMove(pl, mover(dkg, v))
    {
      MemberMoves(c, v, dkg);
    }
  }

  lemma MemberMoves(c: Ceremony, v: uint16, dkg: Dkg)
    requires c.Valid() && c.until > 0 && v in c.vset
    ensures MoveOf(c, dkg, v).v == v && MoveOf(c, dkg, v).tick.dkg == dkg && GoodMove(PlanOf(c), MoveOf(c, dkg, v))
  {
    MemberSucceeds(c, v, dkg);
    HonoursServes(c, v, MoveOf(c, dkg, v).tick);
  }
}
