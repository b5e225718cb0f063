/** Everything a step of the key-ceremony executor sends, and whom its claims name, told from the
    snapshot, the answers and the artifacts alone. */
module DkgMessages {
  import opened Wrappers
  import opened ByteCodec
  import opened FrostIds
  import opened DkgPackages
  import opened DkgCrypto
  import opened DkgExchange
  import opened DkgSpec

  // ----- what a step meets -----

  /** The step gets as far as the rounds: there is a session for the ceremony, and we are in its set. */
  ghost predicate TakesPart(st: State, tk: Tick) {
    && !tk.dkg.state.Finished?
    && (tk.dkg.until <= st.until || tk.newSession.Some?)
    && tk.keyInfo.Some? && tk.keyInfo.value in tk.dkg.vsetMask
  }

  /** The artifacts that are left, which is none when the ceremony is new, and our index. */
  datatype Met = Met(r1: Option<Round1>, r2: Option<Round2>, r3: Option<Round3>, idx: uint16)

  ghost function MetBy(st: State, tk: Tick): Met
    requires tk.keyInfo.Some?
  {
    if tk.dkg.until > st.until then Met(None, None, None, tk.keyInfo.value)
    else Met(st.r1, st.r2, st.r3, tk.keyInfo.value)
  }

  /** Everybody's first packages but that of `idx`. */
  ghost function OthersOf(packages: map<Identifier, Bytes>, idx: uint16): map<Identifier, Bytes> {
    map id | id in packages && id != ValidatorIdxToFrost(idx) :: packages[id]
  }

  // ----- whom it blames -----

  /** Round two: the parser's culprit, or else FROST's. */
  ghost predicate BlamedInR2(tk: Tick, idx: uint16, r1: Round1, v: uint16) {
    match R1Parse(tk.dkg.r1Packages)
    case R1Culprit(culprit) => v == culprit
    case R1Parsed(packages, _) => tk.part2(r1.secret, OthersOf(packages, idx)) == Part2Failed(Some(v))
  }

  /** Round three: the culprit of the first parser, of the second, of opening, or else FROST's. */
  ghost predicate BlamedInR3(box: Box, tk: Tick, idx: uint16, r1: Round1, r2: Round2, v: uint16) {
    match R1Parse(tk.dkg.r1Packages)
    case R1Culprit(culprit) => v == culprit
    case R1Parsed(packages, keys) =>
      match R2Parse(tk.dkg.r2Packages, tk.dkg.vsetMask)
      case R2Culprit(culprit) => v == culprit
      case R2Nothing => false
      case R2Parsed(received) =>
        match OpenAll(Session(box, keys, r1.keys.private, tk.dkg.until, idx), received)
        case DecryptCulprit(culprit) => v == culprit
        case KeyMissing(_) => false
        case Decrypted(r2Packages) => tk.part3(r2.secret, OthersOf(packages, idx), r2Packages) == Part3Failed(Some(v))
  }

  /** The coordinator has another key package on record: the least member that announced one. */
  ghost predicate BlamedByCode(tk: Tick, v: uint16) {
    && tk.sendExitCode == 152
    && v in tk.dkg.r3Mask && v < tk.dkg.maxSigners && forall u | u in tk.dkg.r3Mask :: v <= u
  }

  /** There is a result to announce: held before, or made now and stored. */
  ghost predicate Announces(met: Met, tk: Tick, st1: State) {
    st1.r3.Some? && (met.r3.Some? || tk.stored)
  }

  ghost predicate Blamed(box: Box, met: Met, tk: Tick, st1: State, v: uint16) {
    match tk.dkg.state
    case Part1Finished =>
      met.idx !in tk.dkg.r2Mask && met.r2.None? && met.r1.Some? && BlamedInR2(tk, met.idx, met.r1.value, v)
    case Part2Finished =>
      && met.idx !in tk.dkg.r3Mask
      && ((met.r3.None? && met.r2.Some? && met.r1.Some? && BlamedInR3(box, tk, met.idx, met.r1.value, met.r2.value, v))
          || (Announces(met, tk, st1) && BlamedByCode(tk, v)))
    case _ => false
  }

  // ----- what it sends -----

  /** A message of the step: the package of the running round, if it is held and not on record yet, or a
      claim, if we have made none, naming whoever is blamed. */
  ghost predicate Sends(box: Box, met: Met, tk: Tick, st1: State, msg: Msg) {
    && msg.until == tk.dkg.until && msg.idx == met.idx
    && match msg
       case R1Msg(_, idx, pkg, public) =>
         && tk.dkg.state.InProgress? && idx !in tk.dkg.r1Mask
         && st1.r1.Some? && pkg == st1.r1.value.pkg && public == st1.r1.value.keys.public
       case R2Msg(_, idx, packages) =>
         && tk.dkg.state.Part1Finished? && idx !in tk.dkg.r2Mask
         && st1.r2.Some? && packages == st1.r2.value.packages
       case R3Msg(_, idx, signer, publicKeyPackage) =>
         && tk.dkg.state.Part2Finished? && idx !in tk.dkg.r3Mask && Announces(met, tk, st1)
         && signer == st1.sessionSigner && publicKeyPackage == st1.r3.value.publicKeyPackage
       case ClaimMsg(_, idx, culprit) => idx !in tk.dkg.claimsMask && Blamed(box, met, tk, st1, culprit)
  }

  ghost predicate Sent(st: State, st1: State, msgs: seq<Msg>) {
    st1.ledger.sent == st.ledger.sent + msgs
  }

  ghost function ClaimOf(dkg: Dkg, idx: uint16, culprit: Option<uint16>): (msgs: seq<Msg>)
    ensures forall m :: m in msgs <==> culprit.Some? && idx !in dkg.claimsMask && m == ClaimMsg(dkg.until, idx, culprit.value)
  {
    if culprit.None? || idx in dkg.claimsMask then [] else [ClaimMsg(dkg.until, idx, culprit.value)]
  }

  lemma ClaimSent(st: State, dkg: Dkg, culprit: Option<uint16>) returns (msgs: seq<Msg>)
    ensures Sent(st, ExecuteClaim(st, dkg, culprit), msgs) && msgs == ClaimOf(dkg, st.idx, culprit)
    ensures var st1 := ExecuteClaim(st, dkg, culprit);
            st1.r1 == st.r1 && st1.r2 == st.r2 && st1.r3 == st.r3 && st1.sessionSigner == st.sessionSigner
  {
    msgs := ClaimOf(dkg, st.idx, culprit);
    assert st.ledger.sent + [] == st.ledger.sent;
  }

  /** The state in which the rounds run. */
  lemma Enter(box: Box, st: State, tk: Tick) returns (at: State)
    ensures !TakesPart(st, tk) ==> Execute(box, st, tk).ledger.sent == st.ledger.sent
    ensures TakesPart(st, tk) ==>
              && Execute(box, st, tk) == Rounds(box, at, tk) && at.ledger.sent == st.ledger.sent
              && Met(at.r1, at.r2, at.r3, at.idx) == MetBy(st, tk)
  {
    at := StartIfNew(st, tk).0;
    if tk.keyInfo.Some? {
      at := at.(idx := tk.keyInfo.value);
    }
  }

  lemma R1Sends(st: State, tk: Tick) returns (msgs: seq<Msg>)
    requires tk.dkg.state.InProgress?
    ensures var st1 := ExecuteR1(st, tk).0;
            && Sent(st, st1, msgs) && |msgs| <= 1
            && forall m :: m in msgs <==>
                 st.idx !in tk.dkg.r1Mask && st1.r1.Some?
                 && m == R1Msg(tk.dkg.until, st.idx, st1.r1.value.pkg, st1.r1.value.keys.public)
  {
    var st1 := ExecuteR1(st, tk).0;
    msgs := if st.idx !in tk.dkg.r1Mask && st1.r1.Some?
            then [R1Msg(tk.dkg.until, st.idx, st1.r1.value.pkg, st1.r1.value.keys.public)] else [];
    assert st.ledger.sent + [] == st.ledger.sent;
  }

  lemma OthersAre(st: State, packages: map<Identifier, Bytes>)
    ensures Others(st, packages) == OthersOf(packages, st.idx)
  {
  }

  /** Making the second round: packages and no claim, or none and a claim on whoever is blamed. */
  lemma MakesR2(box: Box, st: State, tk: Tick) returns (made: State, ok: bool, blamed: Option<uint16>)
    requires st.r2.None?
    ensures (made, ok) == MakeR2(box, st, tk) && made.idx == st.idx && made.r1 == st.r1 && made.r3 == st.r3
    ensures Sent(st, made, ClaimOf(tk.dkg, st.idx, blamed)) && (ok <==> made.r2.Some?) && (ok ==> blamed.None?)
    ensures forall v: uint16 :: blamed == Some(v) <==> st.r1.Some? && BlamedInR2(tk, st.idx, st.r1.value, v)
  {
    var r := MakeR2(box, st, tk);
    made, ok, blamed := r.0, r.1, None;
    assert st.ledger.sent + [] == st.ledger.sent;
    if st.r1.Some? {
      match R1Parse(tk.dkg.r1Packages)
      case R1Culprit(culprit) =>
        blamed := Some(culprit);
        var msgs := ClaimSent(st, tk.dkg, blamed);
      case R1Parsed(packages, keys) =>
        OthersAre(st, packages);
        var st1 := st.Use1(st.r1.value.secret);
        match tk.part2(st.r1.value.secret, OthersOf(packages, st.idx))
        case Part2Failed(culprit) =>
          blamed := culprit;
          var msgs := ClaimSent(st1, tk.dkg, blamed);
        case Part2Ok(ours, secret) =>
          assert r == SealR2(box, st1, ours, secret, keys, tk);
    }
  }

  lemma R2Sends(box: Box, st: State, tk: Tick) returns (msgs: seq<Msg>)
    requires tk.dkg.state.Part1Finished?
    ensures var st1 := ExecuteR2(box, st, tk).0;
            && st1.r1 == st.r1 && st1.r3 == st.r3 && Sent(st, st1, msgs) && |msgs| <= 1
            && (forall m: Msg | !m.ClaimMsg? :: m in msgs <==>
                  st.idx !in tk.dkg.r2Mask && st1.r2.Some? && m == R2Msg(tk.dkg.until, st.idx, st1.r2.value.packages))
            && (forall m: Msg | m.ClaimMsg? :: m in msgs <==>
                  m.until == tk.dkg.until && m.idx == st.idx && st.idx !in tk.dkg.claimsMask
                  && st.idx !in tk.dkg.r2Mask && st.r2.None? && st.r1.Some? && BlamedInR2(tk, st.idx, st.r1.value, m.culprit))
  {
    assert st.ledger.sent + [] == st.ledger.sent;
    msgs := [];
    if st.idx !in tk.dkg.r2Mask {
      if st.r2.Some? {
        msgs := [R2Msg(tk.dkg.until, st.idx, st.r2.value.packages)];
      } else {
        var made, ok, blamed := MakesR2(box, st, tk);
        msgs := if ok then [R2Msg(tk.dkg.until, st.idx, made.r2.value.packages)] else ClaimOf(tk.dkg, st.idx, blamed);
        assert ok ==> made.ledger.sent == st.ledger.sent;
      }
    }
  }

  /** What follows opening: FROST's result, or a claim on whoever is blamed. */
  lemma AfterOpenSends(st: State, packages: map<Identifier, Bytes>, opening: DecryptOutcome, tk: Tick)
    returns (made: State, ok: bool, blamed: Option<uint16>)
    requires st.r2.Some? && st.r3.None?
    ensures (made, ok) == AfterOpen(st, packages, opening, tk) && made.idx == st.idx && made.sessionSigner == st.sessionSigner
    ensures Sent(st, made, ClaimOf(tk.dkg, st.idx, blamed)) && (ok ==> made.r3.Some? && tk.stored)
    ensures made.r3.Some? ==> blamed.None? && (ok <==> tk.stored)
    ensures forall v: uint16 :: blamed == Some(v) <==>
              match opening
              case DecryptCulprit(culprit) => v == culprit
              case KeyMissing(_) => false
              case Decrypted(r2Packages) => tk.part3(st.r2.value.secret, packages, r2Packages) == Part3Failed(Some(v))
  {
    var r := AfterOpen(st, packages, opening, tk);
    made, ok, blamed := r.0, r.1, None;
    assert st.ledger.sent + [] == st.ledger.sent;
    match opening
    case DecryptCulprit(culprit) =>
      blamed := Some(culprit);
      var msgs := ClaimSent(st, tk.dkg, blamed);
    case KeyMissing(_) =>
    case Decrypted(r2Packages) =>
      match tk.part3(st.r2.value.secret, packages, r2Packages)
      case Part3Failed(culprit) =>
        blamed := culprit;
        var msgs := ClaimSent(st.Use2(st.r2.value.secret), tk.dkg, blamed);
      case Part3Ok(_, _) =>
  }

  lemma MakesR3(box: Box, st: State, tk: Tick) returns (made: State, ok: bool, blamed: Option<uint16>)
    requires st.r3.None?
    ensures (made, ok) == MakeR3(box, st, tk) && made.idx == st.idx && made.sessionSigner == st.sessionSigner
    ensures Sent(st, made, ClaimOf(tk.dkg, st.idx, blamed)) && (ok ==> made.r3.Some? && tk.stored)
    ensures made.r3.Some? ==> blamed.None? && (ok <==> tk.stored)
    ensures forall v: uint16 :: blamed == Some(v) <==>
              st.r2.Some? && st.r1.Some? && BlamedInR3(box, tk, st.idx, st.r1.value, st.r2.value, v)
  {
    var r := MakeR3(box, st, tk);
    made, ok, blamed := r.0, r.1, None;
    assert st.ledger.sent + [] == st.ledger.sent;
    if st.r2.Some? && st.r1.Some? {
      match R1Parse(tk.dkg.r1Packages)
      case R1Culprit(culprit) =>
        blamed := Some(culprit);
        var msgs := ClaimSent(st, tk.dkg, blamed);
      case R1Parsed(packages, keys) =>
        OthersAre(st, packages);
        match R2Parse(tk.dkg.r2Packages, tk.dkg.vsetMask)
        case R2Culprit(culprit) =>
          blamed := Some(culprit);
          var msgs := ClaimSent(st, tk.dkg, blamed);
        case R2Nothing =>
        case R2Parsed(received) =>
          made, ok, blamed :=
            AfterOpenSends(st.UseKey(st.r1.value.keys), OthersOf(packages, st.idx),
                           OpenAll(Session(box, keys, st.r1.value.keys.private, tk.dkg.until, st.idx), received), tk);
    }
  }

  lemma {:induction false} LowestBitIs(mask: set<uint16>, i: uint16, n: uint16)
    requires forall u | u in mask :: i <= u
    ensures forall v: uint16 :: LowestBit(mask, i, n) == Some(v) <==> v in mask && v < n && forall u | u in mask :: v <= u
    decreases n - i
  {
    if i < n && i !in mask {
      LowestBitIs(mask, i + 1, n);
    }
  }

  /** Announcing, with what the coordinator answers. */
  lemma SendR3Sends(st: State, tk: Tick) returns (msgs: seq<Msg>)
    requires st.r3.Some?
    ensures var st1 := SendR3(st, tk);
            && Sent(st, st1, msgs) && |msgs| <= 2 && st1.r3 == st.r3 && st1.sessionSigner == st.sessionSigner
            && (forall m: Msg | !m.ClaimMsg? :: m in msgs <==>
                  m == R3Msg(tk.dkg.until, st.idx, st.sessionSigner, st.r3.value.publicKeyPackage))
            && (forall m: Msg | m.ClaimMsg? :: m in msgs <==>
                  m.until == tk.dkg.until && m.idx == st.idx && st.idx !in tk.dkg.claimsMask && BlamedByCode(tk, m.culprit))
  {
    var msg := R3Msg(tk.dkg.until, st.idx, st.sessionSigner, st.r3.value.publicKeyPackage);
    LowestBitIs(tk.dkg.r3Mask, 0, tk.dkg.maxSigners);
    var culprit := if tk.sendExitCode == 152 then LowestBit(tk.dkg.r3Mask, 0, tk.dkg.maxSigners) else None;
    var st0 := st.Announce().Send(msg);
    var claims := ClaimSent(st0, tk.dkg, culprit);
    msgs := [msg] + claims;
    assert SendR3(st, tk) == ExecuteClaim(st0, tk.dkg, culprit);
    assert st.ledger.sent + msgs == st.ledger.sent + [msg] + claims;
  }

  /** A result held before, or made now and stored, is announced. */
  ghost predicate Ready(st: State, tk: Tick, st1: State) {
    st1.r3.Some? && (st.r3.Some? || tk.stored)
  }

  lemma R3Sends(box: Box, st: State, tk: Tick) returns (msgs: seq<Msg>)
    requires tk.dkg.state.Part2Finished?
    ensures var st1 := ExecuteR3(box, st, tk);
            && Sent(st, st1, msgs) && |msgs| <= 2
            && (forall m: Msg | !m.ClaimMsg? :: m in msgs <==>
                  st.idx !in tk.dkg.r3Mask && Ready(st, tk, st1)
                  && m == R3Msg(tk.dkg.until, st.idx, st1.sessionSigner, st1.r3.value.publicKeyPackage))
            && (forall m: Msg | m.ClaimMsg? :: m in msgs <==>
                  m.until == tk.dkg.until && m.idx == st.idx && st.idx !in tk.dkg.claimsMask && st.idx !in tk.dkg.r3Mask
                  && ((st.r3.None? && st.r2.Some? && st.r1.Some?
                         && BlamedInR3(box, tk, st.idx, st.r1.value, st.r2.value, m.culprit))
                      || (Ready(st, tk, st1) && BlamedByCode(tk, m.culprit))))
  {
    assert st.ledger.sent + [] == st.ledger.sent;
    msgs := [];
    if st.idx !in tk.dkg.r3Mask {
      if st.r3.Some? {
        msgs := SendR3Sends(st, tk);
      } else {
        var made, ok, blamed := MakesR3(box, st, tk);
        if ok {
          msgs := SendR3Sends(made, tk);
          assert made.ledger.sent == st.ledger.sent;
        } else {
          msgs := ClaimOf(tk.dkg, st.idx, blamed);
        }
      }
    }
  }

  lemma RoundsSend(box: Box, st: State, tk: Tick) returns (msgs: seq<Msg>)
    requires !tk.dkg.state.Finished?
    ensures Sent(st, Rounds(box, st, tk), msgs) && |msgs| <= 2
    ensures forall m :: m in msgs <==> Sends(box, Met(st.r1, st.r2, st.r3, st.idx), tk, Rounds(box, st, tk), m)
  {
    match tk.dkg.state
    case InProgress => msgs := R1Sends(st, tk);
    case Part1Finished => msgs := R2Sends(box, st, tk);
    case Part2Finished => msgs := R3Sends(box, st, tk);
  }

  /** Every step, whatever its state: what it sends is exactly that. */
  lemma StepSends(box: Box, st: State, tk: Tick) returns (msgs: seq<Msg>)
    ensures Sent(st, Execute(box, st, tk), msgs) && |msgs| <= 2
    ensures forall m :: m in msgs <==> TakesPart(st, tk) && Sends(box, MetBy(st, tk), tk, Execute(box, st, tk), m)
  {
    var at := Enter(box, st, tk);
    if TakesPart(st, tk) {
      msgs := RoundsSend(box, at, tk);
    } else {
      msgs := [];
      assert st.ledger.sent + [] == st.ledger.sent;
    }
  }

  // ----- honest members are not claimed -----

  /** FROST or the coordinator blames `v` in this tick. */
  ghost predicate BlamedFromOutside(tk: Tick, v: uint16) {
    || (exists h: nat, packages :: tk.part2(h, packages) == Part2Failed(Some(v)))
    || (exists h: nat, packages, r2Packages :: tk.part3(h, packages, r2Packages) == Part3Failed(Some(v)))
    || BlamedByCode(tk, v)
  }

  /** What is on record of an honest `from` is what this code makes, with the keys on record. */
  ghost predicate PublishedBy(box: Box, tk: Tick, vset: set<uint16>, from: uint16, p: Party)
    requires box.Laws() && ValidatorSet(vset) && from in vset && HonestParty(p, from, vset)
    requires forall v | v in vset :: v in tk.dkg.r1Packages
  {
    && tk.dkg.r1Packages[from] == R1Bytes(box, p)
    && (R1Parse(tk.dkg.r1Packages).R1Parsed? ==>
          var s := SessionAfter(box, tk.dkg.r1Packages, p, tk.dkg.until, from);
          && Honest(s, p, vset)
          && (tk.dkg.state.Part2Finished? ==> from in tk.dkg.r2Packages && tk.dkg.r2Packages[from] == R2Bytes(s, p, vset)))
  }

  /** No parsing and no opening makes an executor blame an honest member. */
  lemma HonestNotBlamedInR3(box: Box, tk: Tick, vset: set<uint16>, from: uint16, p: Party, to: uint16, q: Party,
                        r1: Round1, r2: Round2)
    requires box.Laws() && ValidatorSet(vset) && from in vset && to in vset && HonestParty(p, from, vset)
    requires forall v | v in vset :: v in tk.dkg.r1Packages
    requires PublishedBy(box, tk, vset, from, p) && tk.dkg.r1Packages[to] == R1Bytes(box, q)
    requires tk.dkg.vsetMask == vset && r1.keys.private == q.private
    requires tk.dkg.state.Part2Finished? && BlamedInR3(box, tk, to, r1, r2, from)
    ensures BlamedFromOutside(tk, from)
  {
    HonestNeverBlamed(box, vset, tk.dkg.until, from, p, to, q, tk.dkg.r1Packages, tk.dkg.r2Packages);
  }

  /** Among members that publish anything at all: an executor whose key is the one on record never sends a
      claim that names an honest member, unless FROST or the coordinator blames it. */
  lemma HonestNeverClaimed(box: Box, st: State, tk: Tick, vset: set<uint16>, from: uint16, p: Party, to: uint16, q: Party)
    returns (msgs: seq<Msg>)
    requires box.Laws() && ValidatorSet(vset) && from in vset && to in vset && HonestParty(p, from, vset)
    requires forall v | v in vset :: v in tk.dkg.r1Packages
    requires PublishedBy(box, tk, vset, from, p) && tk.dkg.r1Packages[to] == R1Bytes(box, q)
    requires tk.dkg.vsetMask == vset && tk.keyInfo == Some(to)
    requires MetBy(st, tk).r1.Some? && MetBy(st, tk).r3.None? ==> MetBy(st, tk).r1.value.keys.private == q.private
    ensures Sent(st, Execute(box, st, tk), msgs)
    ensures forall m: Msg | m in msgs && m.ClaimMsg? && m.culprit == from :: BlamedFromOutside(tk, from)
  {
    msgs := StepSends(box, st, tk);
    if m: Msg :| m in msgs && m.ClaimMsg? && m.culprit == from {
      assert Sends(box, MetBy(st, tk), tk, Execute(box, st, tk), m);
      BlamedIsOutside(box, MetBy(st, tk), tk, Execute(box, st, tk), vset, from, p, q);
    }
  }

  lemma BlamedIsOutside(box: Box, met: Met, tk: Tick, st1: State, vset: set<uint16>, from: uint16, p: Party, q: Party)
    requires box.Laws() && ValidatorSet(vset) && from in vset && met.idx in vset && HonestParty(p, from, vset)
    requires forall v | v in vset :: v in tk.dkg.r1Packages
    requires PublishedBy(box, tk, vset, from, p) && tk.dkg.r1Packages[met.idx] == R1Bytes(box, q)
    requires tk.dkg.vsetMask == vset
    requires met.r1.Some? && met.r3.None? ==> met.r1.value.keys.private == q.private
    requires Blamed(box, met, tk, st1, from)
    ensures BlamedFromOutside(tk, from)
  {
    if tk.dkg.state.Part1Finished? {
      HonestNotBlamedInR2(box, tk, vset, from, p, met.idx, q, met.r1.value);
    } else if !BlamedByCode(tk, from) {
      HonestNotBlamedInR3(box, tk, vset, from, p, met.idx, q, met.r1.value, met.r2.value);
    }
  }

  lemma HonestNotBlamedInR2(box: Box, tk: Tick, vset: set<uint16>, from: uint16, p: Party, to: uint16, q: Party, r1: Round1)
    requires box.Laws() && ValidatorSet(vset) && from in vset && to in vset && HonestParty(p, from, vset)
    requires forall v | v in vset :: v in tk.dkg.r1Packages
    requires tk.dkg.r1Packages[from] == R1Bytes(box, p) && tk.dkg.r1Packages[to] == R1Bytes(box, q)
    ensures BlamedInR2(tk, to, r1, from) ==> BlamedFromOutside(tk, from)
  {
    HonestNeverBlamed(box, vset, tk.dkg.until, from, p, to, q, tk.dkg.r1Packages, tk.dkg.r2Packages);
  }

  // ----- what it makes -----

  /** Round one: a package and a key pair, or nothing. */
  lemma R1Made(st: State, tk: Tick)
    requires tk.dkg.state.InProgress? && st.idx !in tk.dkg.r1Mask && st.r1.None?
    ensures ExecuteR1(st, tk).0.r1 ==
            if tk.dkg.maxSigners >= 2 && tk.part1.Some? && tk.keyPair.Some?
            then Some(Round1(tk.part1.value.0, tk.part1.value.1, tk.keyPair.value)) else None
  {
  }

  /** Round two: what FROST made of the others' packages, sealed with the keys that came with them. */
  ghost function TheR2(box: Box, r1: Round1, idx: uint16, tk: Tick): Option<Round2> {
    match R1Parse(tk.dkg.r1Packages)
    case R1Culprit(_) => None
    case R1Parsed(packages, keys) =>
      match tk.part2(r1.secret, OthersOf(packages, idx))
      case Part2Failed(_) => None
      case Part2Ok(ours, secret) =>
        match SealAll(Session(box, keys, r1.keys.private, tk.dkg.until, idx), ours, tk.rand)
        case None => None
        case Some(sealed) => Some(Round2(Serialized(sealed), secret))
  }

  lemma R2Made(box: Box, st: State, tk: Tick)
    requires tk.dkg.state.Part1Finished? && st.idx !in tk.dkg.r2Mask && st.r2.None?
    ensures ExecuteR2(box, st, tk).0.r2 == if st.r1.Some? then TheR2(box, st.r1.value, st.idx, tk) else None
  {
    MakeR2Made(box, st, tk);
    var made, ok, blamed := MakesR2(box, st, tk);
  }

  lemma MakeR2Made(box: Box, st: State, tk: Tick)
    requires st.r2.None?
    ensures MakeR2(box, st, tk).0.r2 == if st.r1.Some? then TheR2(box, st.r1.value, st.idx, tk) else None
  {
    if st.r1.Some? {
      match R1Parse(tk.dkg.r1Packages)
      case R1Culprit(_) =>
      case R1Parsed(packages, keys) => OthersAre(st, packages);
    }
  }

  /** Round three: what FROST made of the others' first packages and of those opened. */
  ghost function TheR3(box: Box, r1: Round1, r2: Round2, idx: uint16, tk: Tick): Option<Round3> {
    match R1Parse(tk.dkg.r1Packages)
    case R1Culprit(_) => None
    case R1Parsed(packages, keys) =>
      match R2Parse(tk.dkg.r2Packages, tk.dkg.vsetMask)
      case R2Culprit(_) => None
      case R2Nothing => None
      case R2Parsed(received) =>
        match OpenAll(Session(box, keys, r1.keys.private, tk.dkg.until, idx), received)
        case DecryptCulprit(_) => None
        case KeyMissing(_) => None
        case Decrypted(r2Packages) =>
          match tk.part3(r2.secret, OthersOf(packages, idx), r2Packages)
          case Part3Failed(_) => None
          case Part3Ok(keyPackage, publicKeyPackage) =>
            if tk.publicKey.None? then None else Some(Round3(keyPackage, publicKeyPackage))
  }

  lemma AfterOpenMade(st: State, packages: map<Identifier, Bytes>, opening: DecryptOutcome, tk: Tick)
    requires st.r2.Some? && st.r3.None?
    ensures AfterOpen(st, packages, opening, tk).0.r3 ==
            match opening
            case DecryptCulprit(_) => None
            case KeyMissing(_) => None
            case Decrypted(r2Packages) =>
              match tk.part3(st.r2.value.secret, packages, r2Packages)
              case Part3Failed(_) => None
              case Part3Ok(keyPackage, publicKeyPackage) =>
                if tk.publicKey.None? then None else Some(Round3(keyPackage, publicKeyPackage))
  {
  }

  lemma R3Made(box: Box, st: State, tk: Tick)
    requires tk.dkg.state.Part2Finished? && st.idx !in tk.dkg.r3Mask && st.r3.None?
    ensures ExecuteR3(box, st, tk).r3 ==
            if st.r1.Some? && st.r2.Some? then TheR3(box, st.r1.value, st.r2.value, st.idx, tk) else None
  {
    MakeR3Made(box, st, tk);
  }

  lemma MakeR3Made(box: Box, st: State, tk: Tick)
    requires st.r3.None?
    ensures MakeR3(box, st, tk).0.r3 ==
            if st.r1.Some? && st.r2.Some? then TheR3(box, st.r1.value, st.r2.value, st.idx, tk) else None
  {
    if st.r1.Some? && st.r2.Some? {
      match R1Parse(tk.dkg.r1Packages)
      case R1Culprit(_) =>
      case R1Parsed(packages, keys) =>
        OthersAre(st, packages);
        match R2Parse(tk.dkg.r2Packages, tk.dkg.vsetMask)
        case R2Culprit(_) =>
        case R2Nothing =>
        case R2Parsed(received) =>
          AfterOpenMade(st.UseKey(st.r1.value.keys), OthersOf(packages, st.idx),
                        OpenAll(Session(box, keys, st.r1.value.keys.private, tk.dkg.until, st.idx), received), tk);
    }
  }

  ghost predicate SameSession(a: State, b: State) {
    a.sessionSigner == b.sessionSigner && a.until == b.until
  }

  lemma R2KeepsSession(box: Box, st: State, tk: Tick)
    ensures SameSession(ExecuteR2(box, st, tk).0, st)
  {
    var made := MakeR2(box, st, tk).0;
    assert SameSession(made, st);
  }

  lemma R3KeepsSession(box: Box, st: State, tk: Tick)
    ensures SameSession(ExecuteR3(box, st, tk), st)
  {
    if st.r2.Some? && st.r1.Some? {
      forall packages, opening ensures SameSession(AfterOpen(st.UseKey(st.r1.value.keys), packages, opening, tk).0, st) {
        AfterOpenKeepsSession(st.UseKey(st.r1.value.keys), packages, opening, tk);
      }
    }
    var made := MakeR3(box, st, tk).0;
    assert SameSession(made, st);
  }

  lemma AfterOpenKeepsSession(st: State, packages: map<Identifier, Bytes>, opening: DecryptOutcome, tk: Tick)
    requires st.r2.Some?
    ensures SameSession(AfterOpen(st, packages, opening, tk).0, st)
  {
  }

  lemma RoundsKeepSession(box: Box, st: State, tk: Tick)
    requires !tk.dkg.state.Finished?
    ensures SameSession(Rounds(box, st, tk), st)
  {
    match tk.dkg.state
    case InProgress =>
    case Part1Finished => R2KeepsSession(box, st, tk);
    case Part2Finished => R3KeepsSession(box, st, tk);
  }

  /** A later deadline starts a ceremony with a session key of its own, once one can be made. */
  lemma SessionKept(box: Box, st: State, tk: Tick)
    ensures var st1 := Execute(box, st, tk);
            if tk.dkg.state.Finished? then st1.until == st.until && st1.sessionSigner.None?
            else if tk.dkg.until <= st.until then SameSession(st1, st)
            else st1.sessionSigner == tk.newSession && st1.until == if tk.newSession.Some? then tk.dkg.until else st.until
  {
    var at := StartIfNew(st, tk).0;
    if tk.keyInfo.Some? {
      at := at.(idx := tk.keyInfo.value);
    }
    if TakesPart(st, tk) {
      RoundsKeepSession(box, at, tk);
    }
  }

  /** Over every run: a finished ceremony leaves no artifact, no session key, and no secret that was held. */
  lemma FinishedLeavesNothing(box: Box, ticks: seq<Tick>, tk: Tick)
    requires tk.dkg.state.Finished?
    ensures var st, st1 := Run(box, ticks), Run(box, ticks + [tk]);
            && st1.r1.None? && st1.r2.None? && st1.r3.None? && st1.sessionSigner.None?
            && (st.r1.Some? && st.r1.value.secret != 0 ==> st.r1.value.secret !in st1.ledger.live1)
            && (st.r2.Some? && st.r2.value.secret != 0 ==> st.r2.value.secret !in st1.ledger.live2)
            && st1.ledger.sent == st.ledger.sent
  {
    assert (ticks + [tk])[..|ticks|] == ticks;
  }

  // ----- the private key goes with the result -----

  ghost predicate AllZero(b: Bytes) {
    forall i | 0 <= i < |b| :: b[i] == 0
  }

  ghost predicate WipedIfHeld(st: State) {
    st.r3.Some? && st.r1.Some? ==> AllZero(st.r1.value.keys.private)
  }

  /** As long as an executor holds a result, its private key is gone. */
  lemma {:induction false} WipedOnceHeld(box: Box, ticks: seq<Tick>)
    ensures WipedIfHeld(Run(box, ticks))
    ensures Run(box, ticks).r3.Some? ==> Run(box, ticks).r1.Some?
    decreases |ticks|
  {
    if ticks != [] {
      var n := |ticks| - 1;
      WipedOnceHeld(box, ticks[..n]);
      StepWipes(box, Run(box, ticks[..n]), ticks[n]);
    }
  }

  lemma StepWipes(box: Box, st: State, tk: Tick)
    requires WipedIfHeld(st) && (st.r3.Some? ==> st.r1.Some?)
    ensures var st1 := Execute(box, st, tk); WipedIfHeld(st1) && (st1.r3.Some? ==> st1.r1.Some?)
  {
    var at := Enter(box, st, tk);
    if TakesPart(st, tk) {
      RoundsWipe(box, at, tk);
    }
  }

  lemma RoundsWipe(box: Box, st: State, tk: Tick)
    requires !tk.dkg.state.Finished? && WipedIfHeld(st) && (st.r3.Some? ==> st.r1.Some?)
    ensures var st1 := Rounds(box, st, tk); WipedIfHeld(st1) && (st1.r3.Some? ==> st1.r1.Some?)
  {
    match tk.dkg.state
    case InProgress => R1Wipes(st, tk);
    case Part1Finished =>
      var msgs := R2Sends(box, st, tk);
    case Part2Finished => R3Wipes(box, st, tk);
  }

  lemma R1Wipes(st: State, tk: Tick)
    requires WipedIfHeld(st) && (st.r3.Some? ==> st.r1.Some?)
    ensures var st1 := ExecuteR1(st, tk).0; WipedIfHeld(st1) && (st1.r3.Some? ==> st1.r1.Some?)
  {
  }

  lemma R3Wipes(box: Box, st: State, tk: Tick)
    requires WipedIfHeld(st) && (st.r3.Some? ==> st.r1.Some?)
    ensures var st1 := ExecuteR3(box, st, tk); WipedIfHeld(st1) && (st1.r3.Some? ==> st1.r1.Some?)
  {
    if st.r3.None? && st.r2.Some? && st.r1.Some? {
      forall packages, opening
        ensures var st1 := AfterOpen(st.UseKey(st.r1.value.keys), packages, opening, tk).0;
                WipedIfHeld(st1) && (st1.r3.Some? ==> st1.r1.Some?)
      {
        AfterOpenWipes(st.UseKey(st.r1.value.keys), packages, opening, tk);
      }
    }
  }

  lemma AfterOpenWipes(st: State, packages: map<Identifier, Bytes>, opening: DecryptOutcome, tk: Tick)
    requires st.r2.Some? && st.r1.Some? && st.r3.None?
    ensures var st1 := AfterOpen(st, packages, opening, tk).0; WipedIfHeld(st1) && (st1.r3.Some? ==> st1.r1.Some?)
  {
  }
}
