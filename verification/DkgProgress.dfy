/** A ceremony always completes: executors that may fail at every step, and sends that may be lost,
    finish the key ceremony within a bounded number of sweeps in which each has one good tick.

    The coordinator contract is not part of the repository. `Accept` states what the executors rely on:
    it takes one package of each kind from each member, and moves on when it has everybody's. */
module DkgProgress {
  import opened Wrappers
  import opened ByteCodec
  import opened Threshold
  import opened DkgCrypto
  import opened DkgSpec

  /** What the members of a ceremony come to hold and to publish, whichever of their ticks succeed. */
  datatype Plan = Plan(
    box: Box,
    vset: set<uint16>,
    until: nat,
    private: uint16 -> Bytes,  // the X25519 key
    first: uint16 -> Bytes,    // what is published in round one, and in round two
    second: uint16 -> Bytes
  )

  datatype World = World(dkg: Dkg, executors: map<uint16, State>)

  /** A tick, and whether what it sends arrives. */
  datatype Move = Move(v: uint16, tick: Tick, delivered: bool)

  // ----- the coordinator -----

  function Accept(dkg: Dkg, msg: Msg): Dkg {
    match msg
    case R1Msg(until, idx, pkg, public) =>
      if until != dkg.until || !dkg.state.InProgress? || idx !in dkg.vsetMask || idx in dkg.r1Mask then dkg
      else
        var mask := dkg.r1Mask + {idx};
        dkg.(r1Mask := mask, r1Packages := dkg.r1Packages[idx := public + pkg],
             state := if mask == dkg.vsetMask then Part1Finished else InProgress)
    case R2Msg(until, idx, packages) =>
      if until != dkg.until || !dkg.state.Part1Finished? || idx !in dkg.vsetMask || idx in dkg.r2Mask then dkg
      else
        var mask := dkg.r2Mask + {idx};
        dkg.(r2Mask := mask, r2Packages := dkg.r2Packages[idx := packages],
             state := if mask == dkg.vsetMask then Part2Finished else Part1Finished)
    case R3Msg(until, idx, _, _) =>
      if until != dkg.until || !dkg.state.Part2Finished? || idx !in dkg.vsetMask || idx in dkg.r3Mask then dkg
      else
        var mask := dkg.r3Mask + {idx};
        dkg.(r3Mask := mask, state := if mask == dkg.vsetMask then Finished else Part2Finished)
    case ClaimMsg(_, _, _) => dkg
  }

  function AcceptAll(dkg: Dkg, msgs: seq<Msg>): Dkg
    decreases |msgs|
  {
    if msgs == [] then dkg else AcceptAll(Accept(dkg, msgs[0]), msgs[1..])
  }

  /** The record once everything sent between two states of an executor has been delivered. */
  function Recorded(dkg: Dkg, st: State, st1: State): Dkg {
    AcceptAll(dkg, if |st.ledger.sent| <= |st1.ledger.sent| then st1.ledger.sent[|st.ledger.sent|..] else [])
  }

  ghost function Step(pl: Plan, w: World, m: Move): World {
    if m.v !in w.executors then w
    else
      var st1 := Execute(pl.box, w.executors[m.v], m.tick);
      World(if m.delivered then Recorded(w.dkg, w.executors[m.v], st1) else w.dkg, w.executors[m.v := st1])
  }

  // ----- the invariant -----

  ghost predicate Shows(packages: map<uint16, Bytes>, mask: set<uint16>, published: uint16 -> Bytes) {
    && (forall v | v in packages :: v in mask && packages[v] == published(v))
    && (forall v | v in mask :: v in packages)
  }

  ghost predicate DkgOk(pl: Plan, dkg: Dkg) {
    && dkg.until == pl.until && dkg.vsetMask == pl.vset && CalcMinSigners(dkg.maxSigners).Some?
    && MasksOk(pl.vset, dkg.state, dkg.r1Mask, dkg.r2Mask, dkg.r3Mask)
    && Shows(dkg.r1Packages, dkg.r1Mask, pl.first) && Shows(dkg.r2Packages, dkg.r2Mask, pl.second)
  }

  /** One round is filled after the other. */
  ghost predicate MasksOk(vset: set<uint16>, state: DkgState, r1: set<uint16>, r2: set<uint16>, r3: set<uint16>) {
    match state
    case InProgress => r1 < vset && r2 == {} && r3 == {}
    case Part1Finished => r1 == vset && r2 < vset && r3 == {}
    case Part2Finished => r1 == vset && r2 == vset && r3 < vset
    case Finished => r1 == vset && r2 == vset && r3 == vset
  }

  /** The artifacts are the planned ones. */
  ghost predicate InC(pl: Plan, v: uint16, st: State) {
    && st.until == pl.until
    && (st.r1.Some? ==>
          && st.r1.value.keys.public + st.r1.value.pkg == pl.first(v)
          && (st.r3.None? ==> st.r1.value.keys.private == pl.private(v)))
    && (st.r2.Some? ==> st.r1.Some? && st.r2.value.packages == pl.second(v))
    && (st.r3.Some? ==> st.r2.Some?)
  }

  /** What is on record of a member is still held. */
  ghost predicate OnRecord(dkg: Dkg, v: uint16, st: State) {
    && (v in dkg.r1Mask ==> st.until == dkg.until && st.r1.Some?)
    && (v in dkg.r2Mask ==> st.r2.Some?)
    && (v in dkg.r3Mask ==> st.r3.Some?)
  }

  ghost predicate ExecOk(pl: Plan, dkg: Dkg, v: uint16, st: State) {
    st.until <= pl.until && (st.until == pl.until ==> InC(pl, v, st)) && OnRecord(dkg, v, st)
  }

  ghost predicate WorldOk(pl: Plan, w: World) {
    && DkgOk(pl, w.dkg) && w.executors.Keys == pl.vset
    && (!w.dkg.state.Finished? ==> forall v | v in w.executors :: ExecOk(pl, w.dkg, v, w.executors[v]))
  }

  /** A new ceremony: nobody is on record, and each executor has only seen earlier deadlines. */
  ghost predicate Start(pl: Plan, w: World) {
    && pl.vset != {} && w.dkg.until == pl.until && w.dkg.vsetMask == pl.vset && w.dkg.state.InProgress?
    && CalcMinSigners(w.dkg.maxSigners).Some?
    && w.dkg.r1Mask == w.dkg.r2Mask == w.dkg.r3Mask == {}
    && w.dkg.r1Packages == w.dkg.r2Packages == map[]
    && w.executors.Keys == pl.vset && forall v | v in w.executors :: w.executors[v].until < pl.until
  }

  lemma StartOk(pl: Plan, w: World)
    requires Start(pl, w)
    ensures WorldOk(pl, w) && Measure(pl, w.dkg) == 3 * |pl.vset|
  {
    assert pl.vset - {} == pl.vset;
  }

  // ----- ticks -----

  /** Everybody's packages of round one are there, or of both rounds. */
  ghost predicate HasFirst(pl: Plan, dkg: Dkg) {
    dkg.until == pl.until && dkg.vsetMask == pl.vset && Shows(dkg.r1Packages, pl.vset, pl.first)
  }

  ghost predicate HasBoth(pl: Plan, dkg: Dkg) {
    HasFirst(pl, dkg) && Shows(dkg.r2Packages, pl.vset, pl.second)
  }

  ghost predicate ReadyForR2(pl: Plan, v: uint16, st: State, tk: Tick) {
    InC(pl, v, st) && st.idx == v && st.r1.Some? && st.r2.None? && HasFirst(pl, tk.dkg)
  }

  ghost predicate ReadyForR3(pl: Plan, v: uint16, st: State, tk: Tick) {
    InC(pl, v, st) && st.idx == v && st.r2.Some? && st.r3.None? && HasBoth(pl, tk.dkg)
  }

  /** The second round comes out as planned or not at all; nobody is claimed. */
  ghost predicate R2Planned(pl: Plan, v: uint16, st: State, tk: Tick) {
    var (made, ok) := MakeR2(pl.box, st, tk);
    && InC(pl, v, made) && made.idx == v && made.r1 == st.r1 && made.r3 == st.r3
    && made.ledger.sent == st.ledger.sent && (ok <==> made.r2.Some?)
  }

  /** The third round has a result or none; nobody is claimed. */
  ghost predicate R3Planned(pl: Plan, v: uint16, st: State, tk: Tick) {
    var (made, ok) := MakeR3(pl.box, st, tk);
    && InC(pl, v, made) && made.idx == v && made.r1.Some? && made.r2 == st.r2
    && made.ledger.sent == st.ledger.sent && (ok ==> made.r3.Some?)
  }

  /** What a tick that may fail anywhere still keeps to: what is kept is what was planned, nobody is
      blamed, and the coordinator finds no disagreement. */
  ghost predicate Serves(pl: Plan, v: uint16, tk: Tick) {
    && v in pl.vset && (tk.keyInfo.Some? ==> tk.keyInfo.value == v)
    && (tk.part1.Some? && tk.keyPair.Some? ==>
          tk.keyPair.value.public + tk.part1.value.0 == pl.first(v) && tk.keyPair.value.private == pl.private(v))
    && (forall st | ReadyForR2(pl, v, st, tk) :: R2Planned(pl, v, st, tk))
    && (forall st | ReadyForR3(pl, v, st, tk) :: R3Planned(pl, v, st, tk))
    && tk.sendExitCode != DIFFERENT_PUBKEY_PACKAGES
  }

  /** Nothing fails, and what is sent arrives. */
  ghost predicate GoodMove(pl: Plan, m: Move) {
    var tk := m.tick;
    && Serves(pl, m.v, tk) && m.delivered
    && tk.keyInfo.Some? && tk.newSession.Some? && tk.part1.Some? && tk.keyPair.Some?
    && (forall st | ReadyForR2(pl, m.v, st, tk) :: MakeR2(pl.box, st, tk).1)
    && (forall st | ReadyForR3(pl, m.v, st, tk) :: MakeR3(pl.box, st, tk).1)
  }

  ghost predicate Permitted(pl: Plan, dkg: Dkg, m: Move) {
    m.tick.dkg == dkg && Serves(pl, m.v, m.tick)
  }

  // ----- one tick -----

  /** Up to the rounds: a tick that gets no further changes nothing on record. */
  lemma Enter(pl: Plan, dkg: Dkg, m: Move, st: State) returns (st1: State, goesOn: bool)
    requires Permitted(pl, dkg, m) && DkgOk(pl, dkg) && !dkg.state.Finished?
    requires ExecOk(pl, dkg, m.v, st)
    ensures ExecOk(pl, dkg, m.v, st1) && st1.ledger.sent == st.ledger.sent
    ensures if goesOn then Execute(pl.box, st, m.tick) == Rounds(pl.box, st1, m.tick) && st1.until == pl.until && st1.idx == m.v
            else Execute(pl.box, st, m.tick) == st1
    ensures GoodMove(pl, m) ==> goesOn
  {
    var (started, ok) := StartIfNew(st, m.tick);
    goesOn := ok && m.tick.keyInfo.Some?;
    st1 := if goesOn then started.(idx := m.v) else started;
  }

  /** What a tick may send: the package that its round asks for, and that it holds. */
  ghost predicate Says(pl: Plan, dkg: Dkg, v: uint16, st: State, msgs: seq<Msg>)
    requires v in pl.vset
  {
    msgs == [] || (|msgs| == 1 && SaysOne(pl, dkg, v, st, msgs[0]))
  }

  ghost predicate SaysOne(pl: Plan, dkg: Dkg, v: uint16, st: State, msg: Msg)
    requires v in pl.vset
  {
    match msg
    case R1Msg(until, idx, pkg, public) =>
      && dkg.state.InProgress? && v !in dkg.r1Mask && until == pl.until && idx == v
      && st.r1.Some? && public + pkg == pl.first(v)
    case R2Msg(until, idx, packages) =>
      && dkg.state.Part1Finished? && v !in dkg.r2Mask && until == pl.until && idx == v
      && st.r2.Some? && packages == pl.second(v)
    case R3Msg(until, idx, _, _) =>
      dkg.state.Part2Finished? && v !in dkg.r3Mask && until == pl.until && idx == v && st.r3.Some?
    case ClaimMsg(_, _, _) => false
  }

  /** What a round does to an executor of the ceremony. */
  ghost predicate Plays(pl: Plan, dkg: Dkg, v: uint16, st: State, st1: State, msgs: seq<Msg>)
    requires v in pl.vset
  {
    && st1.ledger.sent == st.ledger.sent + msgs && InC(pl, v, st1) && Says(pl, dkg, v, st1, msgs)
    && (st.r1.Some? ==> st1.r1.Some?) && (st.r2.Some? ==> st1.r2.Some?) && (st.r3.Some? ==> st1.r3.Some?)
  }

  ghost predicate Wanted(dkg: Dkg, v: uint16) {
    match dkg.state
    case InProgress => v !in dkg.r1Mask
    case Part1Finished => v !in dkg.r2Mask
    case Part2Finished => v !in dkg.r3Mask
    case Finished => false
  }

  lemma Silent(pl: Plan, dkg: Dkg, v: uint16, st: State, st1: State)
    requires v in pl.vset && InC(pl, v, st1) && st1.ledger.sent == st.ledger.sent
    requires (st.r1.Some? ==> st1.r1.Some?) && (st.r2.Some? ==> st1.r2.Some?) && (st.r3.Some? ==> st1.r3.Some?)
    ensures Plays(pl, dkg, v, st, st1, [])
  {
    assert st.ledger.sent + [] == st.ledger.sent;
  }

  lemma SendsR1(pl: Plan, dkg: Dkg, v: uint16, st: State, made: State) returns (msgs: seq<Msg>)
    requires v in pl.vset && DkgOk(pl, dkg) && dkg.state.InProgress? && v !in dkg.r1Mask
    requires InC(pl, v, made) && made.idx == v && made.r1.Some? && made.ledger.sent == st.ledger.sent
    requires (st.r2.Some? ==> made.r2.Some?) && (st.r3.Some? ==> made.r3.Some?)
    ensures Plays(pl, dkg, v, st, made.Send(R1Msg(dkg.until, v, made.r1.value.pkg, made.r1.value.keys.public)), msgs)
    ensures msgs != []
  {
    msgs := [R1Msg(dkg.until, v, made.r1.value.pkg, made.r1.value.keys.public)];
  }

  lemma R1Tick(pl: Plan, dkg: Dkg, m: Move, st: State) returns (st1: State, msgs: seq<Msg>)
    requires Permitted(pl, dkg, m) && DkgOk(pl, dkg) && dkg.state.InProgress?
    requires InC(pl, m.v, st) && st.idx == m.v
    ensures st1 == ExecuteR1(st, m.tick).0 && !ExecuteR1(st, m.tick).1
    ensures Plays(pl, dkg, m.v, st, st1, msgs)
    ensures GoodMove(pl, m) && m.v !in dkg.r1Mask ==> msgs != []
  {
    st1 := ExecuteR1(st, m.tick).0;
    msgs := [];
    var made := if st.r1.None? then MakeR1(st, m.tick).0 else st;
    if m.v !in dkg.r1Mask && made.r1.Some? {
      msgs := SendsR1(pl, dkg, m.v, st, made);
    } else {
      Silent(pl, dkg, m.v, st, st1);
    }
  }

  lemma SendsR2(pl: Plan, dkg: Dkg, v: uint16, st: State, made: State) returns (msgs: seq<Msg>)
    requires v in pl.vset && DkgOk(pl, dkg) && dkg.state.Part1Finished? && v !in dkg.r2Mask
    requires InC(pl, v, made) && made.idx == v && made.r2.Some? && made.ledger.sent == st.ledger.sent
    requires st.r3.Some? ==> made.r3.Some?
    ensures Plays(pl, dkg, v, st, made.Send(R2Msg(dkg.until, v, made.r2.value.packages)), msgs)
    ensures msgs != []
  {
    msgs := [R2Msg(dkg.until, v, made.r2.value.packages)];
  }

  lemma R2Tick(pl: Plan, dkg: Dkg, m: Move, st: State) returns (st1: State, msgs: seq<Msg>)
    requires Permitted(pl, dkg, m) && DkgOk(pl, dkg) && dkg.state.Part1Finished?
    requires InC(pl, m.v, st) && st.idx == m.v && st.r1.Some?
    ensures st1 == ExecuteR2(pl.box, st, m.tick).0 && !ExecuteR2(pl.box, st, m.tick).1
    ensures Plays(pl, dkg, m.v, st, st1, msgs)
    ensures GoodMove(pl, m) && m.v !in dkg.r2Mask ==> msgs != []
  {
    st1 := ExecuteR2(pl.box, st, m.tick).0;
    msgs := [];
    if m.v in dkg.r2Mask {
      Silent(pl, dkg, m.v, st, st);
    } else {
      var made, ok := st, true;
      if st.r2.None? {
        assert R2Planned(pl, m.v, st, m.tick);
        made, ok := MakeR2(pl.box, st, m.tick).0, MakeR2(pl.box, st, m.tick).1;
      }
      if ok {
        msgs := SendsR2(pl, dkg, m.v, st, made);
      } else {
        Silent(pl, dkg, m.v, st, made);
      }
    }
  }

  lemma SendsThird(pl: Plan, dkg: Dkg, v: uint16, st: State, made: State, tk: Tick) returns (msgs: seq<Msg>)
    requires v in pl.vset && DkgOk(pl, dkg) && dkg.state.Part2Finished? && v !in dkg.r3Mask
    requires tk.dkg == dkg && tk.sendExitCode != DIFFERENT_PUBKEY_PACKAGES
    requires InC(pl, v, made) && made.idx == v && made.r3.Some? && made.ledger.sent == st.ledger.sent
    ensures Plays(pl, dkg, v, st, SendR3(made, tk), msgs) && msgs != []
  {
    msgs := [R3Msg(dkg.until, v, made.sessionSigner, made.r3.value.publicKeyPackage)];
  }

  lemma R3Tick(pl: Plan, dkg: Dkg, m: Move, st: State) returns (st1: State, msgs: seq<Msg>)
    requires Permitted(pl, dkg, m) && DkgOk(pl, dkg) && dkg.state.Part2Finished?
    requires InC(pl, m.v, st) && st.idx == m.v && st.r2.Some?
    ensures st1 == ExecuteR3(pl.box, st, m.tick)
    ensures Plays(pl, dkg, m.v, st, st1, msgs)
    ensures GoodMove(pl, m) && m.v !in dkg.r3Mask ==> msgs != []
  {
    st1 := ExecuteR3(pl.box, st, m.tick);
    msgs := [];
    if m.v in dkg.r3Mask {
      Silent(pl, dkg, m.v, st, st);
    } else {
      var made, ok := st, true;
      if st.r3.None? {
        assert R3Planned(pl, m.v, st, m.tick);
        made, ok := MakeR3(pl.box, st, m.tick).0, MakeR3(pl.box, st, m.tick).1;
      }
      if ok {
        msgs := SendsThird(pl, dkg, m.v, st, made, m.tick);
      } else {
        Silent(pl, dkg, m.v, st, made);
      }
    }
  }

  lemma RoundsTick(pl: Plan, dkg: Dkg, m: Move, st: State) returns (st1: State, msgs: seq<Msg>)
    requires Permitted(pl, dkg, m) && DkgOk(pl, dkg) && !dkg.state.Finished?
    requires ExecOk(pl, dkg, m.v, st) && st.until == pl.until && st.idx == m.v
    ensures st1 == Rounds(pl.box, st, m.tick)
    ensures Plays(pl, dkg, m.v, st, st1, msgs)
    ensures GoodMove(pl, m) && Wanted(dkg, m.v) ==> msgs != []
  {
    if dkg.state.InProgress? {
      st1, msgs := R1Tick(pl, dkg, m, st);
    } else if dkg.state.Part1Finished? {
      st1, msgs := R2Tick(pl, dkg, m, st);
    } else {
      st1, msgs := R3Tick(pl, dkg, m, st);
    }
  }

  // ----- the record -----

  /** How many packages the coordinator is still to record. */
  ghost function Measure(pl: Plan, dkg: Dkg): nat {
    |pl.vset - dkg.r1Mask| + |pl.vset - dkg.r2Mask| + |pl.vset - dkg.r3Mask|
  }

  /** Only `v` may have come on record. */
  ghost predicate Grew(dkg: Dkg, dkg1: Dkg, v: uint16) {
    && dkg1.until == dkg.until
    && (forall u | u in dkg1.r1Mask :: u in dkg.r1Mask || u == v)
    && (forall u | u in dkg1.r2Mask :: u in dkg.r2Mask || u == v)
    && (forall u | u in dkg1.r3Mask :: u in dkg.r3Mask || u == v)
  }

  lemma OneMore(all: set<uint16>, mask: set<uint16>, v: uint16)
    requires v in all && mask < all
    ensures mask + {v} == all || mask + {v} < all
  {
  }

  lemma OneLess(all: set<uint16>, mask: set<uint16>, v: uint16)
    requires v in all && v !in mask
    ensures |all - (mask + {v})| == |all - mask| - 1
  {
    assert all - (mask + {v}) == (all - mask) - {v};
  }

  ghost predicate AcceptedOk(pl: Plan, dkg: Dkg, dkg1: Dkg, v: uint16, st: State) {
    GrewBy(pl, dkg, dkg1, v) && OnRecord(dkg1, v, st)
  }

  lemma AcceptOk(pl: Plan, dkg: Dkg, v: uint16, st: State, msg: Msg)
    requires v in pl.vset && DkgOk(pl, dkg) && InC(pl, v, st) && OnRecord(dkg, v, st)
    requires SaysOne(pl, dkg, v, st, msg)
    ensures AcceptedOk(pl, dkg, Accept(dkg, msg), v, st)
  {
    match msg
    case R1Msg(_, _, pkg, public) => AcceptR1(pl, dkg, v, st, msg);
    case R2Msg(_, _, packages) => AcceptR2(pl, dkg, v, st, msg);
    case R3Msg(_, _, _, _) => AcceptR3(pl, dkg, v, st, msg);
  }

  lemma AcceptR1(pl: Plan, dkg: Dkg, v: uint16, st: State, msg: Msg)
    requires v in pl.vset && DkgOk(pl, dkg) && OnRecord(dkg, v, st)
    requires msg.R1Msg? && SaysOne(pl, dkg, v, st, msg) && st.until == pl.until
    ensures AcceptedOk(pl, dkg, Accept(dkg, msg), v, st)
  {
    var mask, packages := dkg.r1Mask + {v}, dkg.r1Packages[v := pl.first(v)];
    var dkg1 := dkg.(r1Mask := mask, r1Packages := packages,
                     state := if mask == dkg.vsetMask then Part1Finished else InProgress);
    assert Accept(dkg, msg) == dkg1;
    ShowsMore(dkg.r1Packages, dkg.r1Mask, pl.first, v);
    R1Grown(pl, dkg, dkg1, v);
  }

  lemma AcceptR2(pl: Plan, dkg: Dkg, v: uint16, st: State, msg: Msg)
    requires v in pl.vset && DkgOk(pl, dkg) && OnRecord(dkg, v, st)
    requires msg.R2Msg? && SaysOne(pl, dkg, v, st, msg)
    ensures AcceptedOk(pl, dkg, Accept(dkg, msg), v, st)
  {
    var mask, packages := dkg.r2Mask + {v}, dkg.r2Packages[v := pl.second(v)];
    var dkg1 := dkg.(r2Mask := mask, r2Packages := packages,
                     state := if mask == dkg.vsetMask then Part2Finished else Part1Finished);
    assert Accept(dkg, msg) == dkg1;
    ShowsMore(dkg.r2Packages, dkg.r2Mask, pl.second, v);
    R2Grown(pl, dkg, dkg1, v);
  }

  lemma AcceptR3(pl: Plan, dkg: Dkg, v: uint16, st: State, msg: Msg)
    requires v in pl.vset && DkgOk(pl, dkg) && OnRecord(dkg, v, st)
    requires msg.R3Msg? && SaysOne(pl, dkg, v, st, msg)
    ensures AcceptedOk(pl, dkg, Accept(dkg, msg), v, st)
  {
    var mask := dkg.r3Mask + {v};
    var dkg1 := dkg.(r3Mask := mask, state := if mask == dkg.vsetMask then Finished else Part2Finished);
    assert Accept(dkg, msg) == dkg1;
    R3Grown(pl, dkg, dkg1, v);
  }

  lemma ShowsMore(packages: map<uint16, Bytes>, mask: set<uint16>, published: uint16 -> Bytes, v: uint16)
    requires Shows(packages, mask, published)
    ensures Shows(packages[v := published(v)], mask + {v}, published)
  {
  }

  ghost predicate GrewBy(pl: Plan, dkg: Dkg, dkg1: Dkg, v: uint16) {
    DkgOk(pl, dkg1) && Grew(dkg, dkg1, v) && Measure(pl, dkg1) == Measure(pl, dkg) - 1
  }

  lemma R1Grown(pl: Plan, dkg: Dkg, dkg1: Dkg, v: uint16)
    requires v in pl.vset && DkgOk(pl, dkg) && dkg.state.InProgress? && v !in dkg.r1Mask
    requires Shows(dkg1.r1Packages, dkg.r1Mask + {v}, pl.first)
    requires dkg1 == dkg.(r1Mask := dkg.r1Mask + {v}, r1Packages := dkg1.r1Packages,
                          state := if dkg.r1Mask + {v} == dkg.vsetMask then Part1Finished else InProgress)
    ensures GrewBy(pl, dkg, dkg1, v)
  {
    OneMore(pl.vset, dkg.r1Mask, v);
    R1Counted(pl, dkg, dkg1, v);
  }

  lemma R1Counted(pl: Plan, dkg: Dkg, dkg1: Dkg, v: uint16)
    requires v in pl.vset && v !in dkg.r1Mask
    requires dkg1 == dkg.(r1Mask := dkg.r1Mask + {v}, r1Packages := dkg1.r1Packages, state := dkg1.state)
    ensures Measure(pl, dkg1) == Measure(pl, dkg) - 1
  {
    OneLess(pl.vset, dkg.r1Mask, v);
  }

  lemma R2Grown(pl: Plan, dkg: Dkg, dkg1: Dkg, v: uint16)
    requires v in pl.vset && DkgOk(pl, dkg) && dkg.state.Part1Finished? && v !in dkg.r2Mask
    requires Shows(dkg1.r2Packages, dkg.r2Mask + {v}, pl.second)
    requires dkg1 == dkg.(r2Mask := dkg.r2Mask + {v}, r2Packages := dkg1.r2Packages,
                          state := if dkg.r2Mask + {v} == dkg.vsetMask then Part2Finished else Part1Finished)
    ensures GrewBy(pl, dkg, dkg1, v)
  {
    OneMore(pl.vset, dkg.r2Mask, v);
    R2Counted(pl, dkg, dkg1, v);
  }

  lemma R2Counted(pl: Plan, dkg: Dkg, dkg1: Dkg, v: uint16)
    requires v in pl.vset && v !in dkg.r2Mask
    requires dkg1 == dkg.(r2Mask := dkg.r2Mask + {v}, r2Packages := dkg1.r2Packages, state := dkg1.state)
    ensures Measure(pl, dkg1) == Measure(pl, dkg) - 1
  {
    OneLess(pl.vset, dkg.r2Mask, v);
  }

  lemma R3Grown(pl: Plan, dkg: Dkg, dkg1: Dkg, v: uint16)
    requires v in pl.vset && DkgOk(pl, dkg) && dkg.state.Part2Finished? && v !in dkg.r3Mask
    requires dkg1 == dkg.(r3Mask := dkg.r3Mask + {v},
                          state := if dkg.r3Mask + {v} == dkg.vsetMask then Finished else Part2Finished)
    ensures GrewBy(pl, dkg, dkg1, v)
  {
    OneMore(pl.vset, dkg.r3Mask, v);
    R3Counted(pl, dkg, dkg1, v);
  }

  lemma R3Counted(pl: Plan, dkg: Dkg, dkg1: Dkg, v: uint16)
    requires v in pl.vset && v !in dkg.r3Mask
    requires dkg1 == dkg.(r3Mask := dkg.r3Mask + {v}, state := dkg1.state)
    ensures Measure(pl, dkg1) == Measure(pl, dkg) - 1
  {
    OneLess(pl.vset, dkg.r3Mask, v);
  }

  lemma AcceptMsgs(pl: Plan, dkg: Dkg, v: uint16, st: State, st1: State, msgs: seq<Msg>)
    requires v in pl.vset && DkgOk(pl, dkg) && InC(pl, v, st1) && OnRecord(dkg, v, st1)
    requires st1.ledger.sent == st.ledger.sent + msgs && Says(pl, dkg, v, st1, msgs)
    ensures var dkg1 := Recorded(dkg, st, st1);
            && DkgOk(pl, dkg1) && Grew(dkg, dkg1, v) && OnRecord(dkg1, v, st1)
            && (if msgs == [] then dkg1 == dkg else Measure(pl, dkg1) == Measure(pl, dkg) - 1)
  {
    assert st1.ledger.sent[|st.ledger.sent|..] == msgs;
    if msgs != [] {
      assert AcceptAll(dkg, msgs) == AcceptAll(Accept(dkg, msgs[0]), msgs[1..]);
      AcceptOk(pl, dkg, v, st1, msgs[0]);
    }
  }

  /** What a permitted tick of `v` does: at most one package comes on record, and one does if the tick is
      good and the package is wanted. */
  lemma TickOk(pl: Plan, dkg: Dkg, m: Move, st: State) returns (dkg1: Dkg, st1: State)
    requires Permitted(pl, dkg, m) && DkgOk(pl, dkg) && !dkg.state.Finished?
    requires ExecOk(pl, dkg, m.v, st)
    ensures st1 == Execute(pl.box, st, m.tick) && dkg1 == if m.delivered then Recorded(dkg, st, st1) else dkg
    ensures DkgOk(pl, dkg1) && Grew(dkg, dkg1, m.v) && ExecOk(pl, dkg1, m.v, st1)
    ensures dkg1 == dkg || Measure(pl, dkg1) == Measure(pl, dkg) - 1
    ensures GoodMove(pl, m) && Wanted(dkg, m.v) ==> Measure(pl, dkg1) == Measure(pl, dkg) - 1
  {
    var at, goesOn := Enter(pl, dkg, m, st);
    if goesOn {
      var msgs;
      st1, msgs := RoundsTick(pl, dkg, m, at);
      AcceptMsgs(pl, dkg, m.v, st, st1, msgs);
    } else {
      st1 := at;
      assert st1.ledger.sent[|st.ledger.sent|..] == [];
    }
    dkg1 := if m.delivered then Recorded(dkg, st, st1) else dkg;
  }

  // ----- runs -----

  lemma WorldAfter(pl: Plan, w: World, dkg1: Dkg, v: uint16, st1: State)
    requires WorldOk(pl, w) && !w.dkg.state.Finished? && v in pl.vset
    requires DkgOk(pl, dkg1) && Grew(w.dkg, dkg1, v) && ExecOk(pl, dkg1, v, st1)
    ensures WorldOk(pl, World(dkg1, w.executors[v := st1]))
  {
    forall u | u in w.executors && u != v ensures ExecOk(pl, dkg1, u, w.executors[u]) {
      assert ExecOk(pl, w.dkg, u, w.executors[u]);
    }
  }

  /** Nothing more comes on record of a finished ceremony. */
  lemma {:induction false} FinishedStays(dkg: Dkg, msgs: seq<Msg>)
    requires dkg.state.Finished?
    ensures AcceptAll(dkg, msgs) == dkg
    decreases |msgs|
  {
    if msgs != [] {
      assert Accept(dkg, msgs[0]) == dkg;
      FinishedStays(dkg, msgs[1..]);
    }
  }

  /** Every permitted tick, failing or not, delivered or not, keeps the invariant and undoes nothing. */
  lemma StepOk(pl: Plan, w: World, m: Move)
    requires WorldOk(pl, w) && Permitted(pl, w.dkg, m)
    ensures WorldOk(pl, Step(pl, w, m))
    ensures Step(pl, w, m).dkg == w.dkg || Measure(pl, Step(pl, w, m).dkg) < Measure(pl, w.dkg)
    ensures GoodMove(pl, m) && Wanted(w.dkg, m.v) ==> Measure(pl, Step(pl, w, m).dkg) < Measure(pl, w.dkg)
  {
    var st := w.executors[m.v];
    if w.dkg.state.Finished? {
      var st1 := Execute(pl.box, st, m.tick);
      FinishedStays(w.dkg, if |st.ledger.sent| <= |st1.ledger.sent| then st1.ledger.sent[|st.ledger.sent|..] else []);
    } else {
      var dkg1, st1 := TickOk(pl, w.dkg, m, st);
      WorldAfter(pl, w, dkg1, m.v, st1);
    }
  }

  ghost function RunMoves(pl: Plan, w: World, moves: seq<Move>): World
    decreases |moves|
  {
    if moves == [] then w else RunMoves(pl, Step(pl, w, moves[0]), moves[1..])
  }

  ghost predicate PermittedRun(pl: Plan, w: World, moves: seq<Move>)
        decreases |moves|
  {
    moves != [] ==> Permitted(pl, w.dkg, moves[0]) && PermittedRun(pl, Step(pl, w, moves[0]), moves[1..])
  }

  /** Among whatever else happens, `v` has one tick in which nothing fails. */
  ghost predicate HasGoodTurn(pl: Plan, moves: seq<Move>, v: uint16)
    requires v in pl.vset
  {
    moves != [] && ((moves[0].v == v && GoodMove(pl, moves[0])) || HasGoodTurn(pl, moves[1..], v))
  }

  ghost predicate Covers(pl: Plan, moves: seq<Move>)
      {
    forall v | v in pl.vset :: HasGoodTurn(pl, moves, v)
  }

  lemma {:induction false} RunOk(pl: Plan, w: World, moves: seq<Move>)
    requires WorldOk(pl, w) && PermittedRun(pl, w, moves)
    ensures WorldOk(pl, RunMoves(pl, w, moves))
    ensures Measure(pl, RunMoves(pl, w, moves).dkg) <= Measure(pl, w.dkg)
    decreases |moves|
  {
    if moves != [] {
      StepOk(pl, w, moves[0]);
      RunOk(pl, Step(pl, w, moves[0]), moves[1..]);
    }
  }

  /** A good tick is never wasted on a member that is wanted, whatever comes before it. */
  lemma {:induction false} TurnLowers(pl: Plan, w: World, moves: seq<Move>, v: uint16)
    requires WorldOk(pl, w) && PermittedRun(pl, w, moves)
    requires v in pl.vset && HasGoodTurn(pl, moves, v) && Wanted(w.dkg, v)
    ensures Measure(pl, RunMoves(pl, w, moves).dkg) < Measure(pl, w.dkg)
    decreases |moves|
  {
    var w1 := Step(pl, w, moves[0]);
    StepOk(pl, w, moves[0]);
    if w1.dkg != w.dkg || (moves[0].v == v && GoodMove(pl, moves[0])) {
      RunOk(pl, w1, moves[1..]);
    } else {
      TurnLowers(pl, w1, moves[1..], v);
    }
  }

  /** While the ceremony goes on, somebody's package is wanted. */
  lemma SomeoneWanted(pl: Plan, dkg: Dkg) returns (v: uint16)
    requires DkgOk(pl, dkg) && !dkg.state.Finished?
    ensures v in pl.vset && Wanted(dkg, v)
  {
    var mask := if dkg.state.InProgress? then dkg.r1Mask else if dkg.state.Part1Finished? then dkg.r2Mask else dkg.r3Mask;
    v :| v in pl.vset && v !in mask;
  }

  ghost function RunSweeps(pl: Plan, w: World, sweeps: seq<seq<Move>>): World
    decreases |sweeps|
  {
    if sweeps == [] then w else RunSweeps(pl, RunMoves(pl, w, sweeps[0]), sweeps[1..])
  }

  /** Each sweep gives every member a good tick, among any number of failing ones. */
  ghost predicate Fair(pl: Plan, w: World, sweeps: seq<seq<Move>>)
        decreases |sweeps|
  {
    sweeps != [] ==>
      PermittedRun(pl, w, sweeps[0]) && Covers(pl, sweeps[0]) && Fair(pl, RunMoves(pl, w, sweeps[0]), sweeps[1..])
  }

  /** Everybody's packages are on record, as they were made. */
  ghost predicate Complete(pl: Plan, dkg: Dkg)
      {
    && dkg.state.Finished? && dkg.r3Mask == pl.vset
    && Shows(dkg.r1Packages, pl.vset, pl.first) && Shows(dkg.r2Packages, pl.vset, pl.second)
  }

  lemma FinishedComplete(pl: Plan, dkg: Dkg)
    requires DkgOk(pl, dkg) && dkg.state.Finished?
    ensures Complete(pl, dkg)
  {
  }

  lemma NotDoneCounts(pl: Plan, dkg: Dkg)
    requires DkgOk(pl, dkg) && !dkg.state.Finished?
    ensures Measure(pl, dkg) > 0
  {
    var v :| v in pl.vset && v !in dkg.r3Mask;
    assert v in pl.vset - dkg.r3Mask;
  }

  lemma SweepLowers(pl: Plan, w: World, sweep: seq<Move>)
    requires WorldOk(pl, w) && PermittedRun(pl, w, sweep) && Covers(pl, sweep) && !w.dkg.state.Finished?
    ensures WorldOk(pl, RunMoves(pl, w, sweep)) && Measure(pl, RunMoves(pl, w, sweep).dkg) < Measure(pl, w.dkg)
  {
    var v := SomeoneWanted(pl, w.dkg);
    RunOk(pl, w, sweep);
    TurnLowers(pl, w, sweep, v);
  }

  lemma {:induction false} FinishedRun(pl: Plan, w: World, moves: seq<Move>)
    requires WorldOk(pl, w) && PermittedRun(pl, w, moves) && w.dkg.state.Finished?
    ensures RunMoves(pl, w, moves).dkg == w.dkg
    decreases |moves|
  {
    if moves != [] {
      var st, st1 := w.executors[moves[0].v], Execute(pl.box, w.executors[moves[0].v], moves[0].tick);
      FinishedStays(w.dkg, if |st.ledger.sent| <= |st1.ledger.sent| then st1.ledger.sent[|st.ledger.sent|..] else []);
      StepOk(pl, w, moves[0]);
      FinishedRun(pl, Step(pl, w, moves[0]), moves[1..]);
    }
  }

  /** With failures and losses in every sweep the ceremony completes, in as many sweeps as there are
      packages still to record: three for each member from the start. */
  lemma {:induction false} FairRunCompletes(pl: Plan, w: World, sweeps: seq<seq<Move>>)
    requires WorldOk(pl, w) && Fair(pl, w, sweeps)
    requires |sweeps| >= Measure(pl, w.dkg) || w.dkg.state.Finished?
    ensures Complete(pl, RunSweeps(pl, w, sweeps).dkg)
    decreases |sweeps|
  {
    if sweeps == [] {
      if !w.dkg.state.Finished? {
        NotDoneCounts(pl, w.dkg);
      }
      FinishedComplete(pl, w.dkg);
    } else {
      RunOk(pl, w, sweeps[0]);
      if w.dkg.state.Finished? {
        FinishedRun(pl, w, sweeps[0]);
      } else {
        SweepLowers(pl, w, sweeps[0]);
      }
      FairRunCompletes(pl, RunMoves(pl, w, sweeps[0]), sweeps[1..]);
    }
  }

  /** A good tick for every record and member. */
  type Mover = (Dkg, uint16) -> Move

  ghost predicate MovesWell(pl: Plan, mover: Mover) {
    forall dkg, v | DkgOk(pl, dkg) && v in pl.vset ::
      mover(dkg, v).v == v && mover(dkg, v).tick.dkg == dkg && GoodMove(pl, mover(dkg, v))
  }

  lemma {:induction false} FairSweep(pl: Plan, w: World, mover: Mover, todo: set<uint16>) returns (sweep: seq<Move>)
    requires WorldOk(pl, w) && MovesWell(pl, mover) && todo <= pl.vset
    ensures PermittedRun(pl, w, sweep) && forall v | v in todo :: HasGoodTurn(pl, sweep, v)
    decreases |todo|
  {
    sweep := [];
    if todo != {} {
      var v :| v in todo;
      var m := mover(w.dkg, v);
      StepOk(pl, w, m);
      var rest := FairSweep(pl, Step(pl, w, m), mover, todo - {v});
      sweep := [m] + rest;
      assert sweep[1..] == rest;
      forall u | u in todo ensures HasGoodTurn(pl, sweep, u) {
        assert u == v || HasGoodTurn(pl, rest, u);
      }
    }
  }

  lemma {:induction false} FairSweeps(pl: Plan, w: World, mover: Mover, n: nat) returns (sweeps: seq<seq<Move>>)
    requires WorldOk(pl, w) && MovesWell(pl, mover)
    ensures |sweeps| == n && Fair(pl, w, sweeps)
    decreases n
  {
    sweeps := [];
    if n > 0 {
      var sweep := FairSweep(pl, w, mover, pl.vset);
      RunOk(pl, w, sweep);
      var rest := FairSweeps(pl, RunMoves(pl, w, sweep), mover, n - 1);
      sweeps := [sweep] + rest;
      assert sweeps[1..] == rest;
    }
  }

  /** From wherever a ceremony is, it can be completed. */
  lemma CanAlwaysComplete(pl: Plan, w: World, mover: Mover) returns (sweeps: seq<seq<Move>>)
    requires WorldOk(pl, w) && MovesWell(pl, mover)
    ensures Fair(pl, w, sweeps) && Complete(pl, RunSweeps(pl, w, sweeps).dkg)
  {
    sweeps := FairSweeps(pl, w, mover, Measure(pl, w.dkg));
    FairRunCompletes(pl, w, sweeps);
  }
}
