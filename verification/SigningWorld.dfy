/** The coordinator of the progress proof keeps the promises the safety proof asks for, whatever the
    oracles do and whatever fails: the two sets of hypotheses have a common model, and in it no
    oracle ever uses a nonce for two messages. */
module SigningWorld {
  import opened Wrappers
  import opened ByteCodec
  import opened Threshold
  import opened SigningSpec
  import opened SigningProgress
  import Safety = SigningSafety

  /** Ticks may fail in every way, but a snapshot that is read is the current record. */
  ghost predicate SeesCurrent(r: Round, w: World, moves: seq<Move>)
    requires CalcMinSigners(r.maxSigners).Some?
    decreases |moves|
  {
    moves != [] ==>
      && moves[0].tick.maxSigners == r.maxSigners
      && (Safety.SeesRecord(moves[0].tick) ==> moves[0].tick.records.value[0] == w.record)
      && SeesCurrent(r, Step(r, w, moves[0]), moves[1..])
  }

  /** A later record of the same round. */
  ghost predicate After(r: Round, rec: PegoutRecord, later: PegoutRecord)
    requires CalcMinSigners(r.maxSigners).Some?
  {
    && (rec.commitments != map[] ==> rec.expiredAt != 0)
    && (later.commitments != map[] ==> later.expiredAt != 0)
    && (|rec.commitments| >= r.Min() ==> later.commitments == rec.commitments)
  }

  lemma AcceptFreezes(r: Round, rec: PegoutRecord, msg: Msg)
    requires CalcMinSigners(r.maxSigners).Some? && r.deadline != 0
    requires rec.commitments != map[] ==> rec.expiredAt != 0
    ensures After(r, rec, Accept(r, rec, msg))
  {
  }

  lemma {:induction false} AcceptAllFreezes(r: Round, rec: PegoutRecord, msgs: seq<Msg>)
    requires CalcMinSigners(r.maxSigners).Some? && r.deadline != 0
    requires rec.commitments != map[] ==> rec.expiredAt != 0
    ensures After(r, rec, AcceptAll(r, rec, msgs))
    decreases |msgs|
  {
    if msgs != [] {
      AcceptFreezes(r, rec, msgs[0]);
      AcceptAllFreezes(r, Accept(r, rec, msgs[0]), msgs[1..]);
    }
  }

  lemma StepFreezes(r: Round, w: World, m: Move)
    requires CalcMinSigners(r.maxSigners).Some? && r.deadline != 0
    requires w.record.commitments != map[] ==> w.record.expiredAt != 0
    ensures After(r, w.record, Step(r, w, m).record)
  {
    if m.idx in w.oracles {
      var st, st1 := w.oracles[m.idx], Next(w.oracles[m.idx], m.tick);
      AcceptAllFreezes(r, w.record,
                       if |st.ledger.sent| <= |st1.ledger.sent| then st1.ledger.sent[|st.ledger.sent|..] else []);
    }
  }

  lemma {:induction false} SeenLater(r: Round, w: World, moves: seq<Move>, k: nat)
    requires CalcMinSigners(r.maxSigners).Some? && r.deadline != 0 && k < |moves|
    requires w.record.commitments != map[] ==> w.record.expiredAt != 0
    requires SeesCurrent(r, w, moves)
    ensures moves[k].tick.maxSigners == r.maxSigners
    ensures Safety.SeesRecord(moves[k].tick) ==> After(r, w.record, moves[k].tick.records.value[0])
    decreases k
  {
    if k > 0 {
      StepFreezes(r, w, moves[0]);
      SeenLater(r, Step(r, w, moves[0]), moves[1..], k - 1);
    }
  }

  lemma TicksAgree(r: Round, rec: PegoutRecord, a: Tick, b: Tick)
    requires CalcMinSigners(r.maxSigners).Some? && a.maxSigners == b.maxSigners == r.maxSigners
    requires rec.commitments != map[] ==> rec.expiredAt != 0
    requires Safety.SeesRecord(a) ==> a.records.value[0] == rec
    requires Safety.SeesRecord(b) ==> After(r, rec, b.records.value[0])
    ensures Safety.CommittedRoundHasDeadline(a)
    ensures Safety.FrozenBetween(a, b) && Safety.FrozenBetween(b, a)
  {
  }

  /** Any two snapshots of one run agree as far as the safety proof needs it. */
  lemma {:induction false} RunKeepsPromises(r: Round, w: World, moves: seq<Move>, i: nat, j: nat)
    requires CalcMinSigners(r.maxSigners).Some? && r.deadline != 0 && i <= j < |moves|
    requires w.record.commitments != map[] ==> w.record.expiredAt != 0
    requires SeesCurrent(r, w, moves)
    ensures Safety.CommittedRoundHasDeadline(moves[i].tick)
    ensures Safety.FrozenBetween(moves[i].tick, moves[j].tick) && Safety.FrozenBetween(moves[j].tick, moves[i].tick)
    decreases i
  {
    if i > 0 {
      StepFreezes(r, w, moves[0]);
      RunKeepsPromises(r, Step(r, w, moves[0]), moves[1..], i - 1, j - 1);
    } else {
      SeenLater(r, w, moves, j);
      TicksAgree(r, w.record, moves[0].tick, moves[j].tick);
    }
  }

  /** The ticks of one oracle. */
  function TicksOf(moves: seq<Move>, v: uint16): seq<Tick>
    decreases |moves|
  {
    if moves == [] then []
    else (if moves[0].idx == v then [moves[0].tick] else []) + TicksOf(moves[1..], v)
  }

  lemma {:induction false} TickOfMove(moves: seq<Move>, v: uint16, i: nat) returns (k: nat)
    requires i < |TicksOf(moves, v)|
    ensures k < |moves| && moves[k].tick == TicksOf(moves, v)[i]
    decreases |moves|
  {
    if moves[0].idx == v && i == 0 {
      k := 0;
    } else {
      k := TickOfMove(moves[1..], v, if moves[0].idx == v then i - 1 else i);
      k := k + 1;
    }
  }

  lemma PromisesKept(r: Round, w: World, moves: seq<Move>, v: uint16)
    requires Start(r, w) && SeesCurrent(r, w, moves)
    ensures Safety.CoordinatorKeepsPromises(TicksOf(moves, v))
  {
    var ticks := TicksOf(moves, v);
    forall a: nat, b: nat | a < |ticks| && b < |ticks|
      ensures Safety.CommittedRoundHasDeadline(ticks[a]) && Safety.FrozenBetween(ticks[a], ticks[b])
    {
      var i := TickOfMove(moves, v, a);
      var j := TickOfMove(moves, v, b);
      RunKeepsPromises(r, w, moves, i, i);
      if i < j {
        RunKeepsPromises(r, w, moves, i, j);
      } else {
        RunKeepsPromises(r, w, moves, j, i);
      }
    }
  }

  lemma RunMore(leftover: map<string, string>, past: seq<Tick>, tk: Tick)
    ensures Next(Run(leftover, past), tk) == Run(leftover, past + [tk])
  {
    assert (past + [tk])[..|past|] == past;
  }

  lemma OracleMoves(r: Round, w: World, m: Move, leftover: map<string, string>, past: seq<Tick>)
    requires CalcMinSigners(r.maxSigners).Some? && m.idx in w.oracles && w.oracles[m.idx] == Run(leftover, past)
    ensures m.idx in Step(r, w, m).oracles && Step(r, w, m).oracles[m.idx] == Run(leftover, past + [m.tick])
  {
    RunMore(leftover, past, m.tick);
  }

  lemma OthersStay(r: Round, w: World, m: Move, v: uint16)
    requires CalcMinSigners(r.maxSigners).Some? && v in w.oracles && v != m.idx
    ensures v in Step(r, w, m).oracles && Step(r, w, m).oracles[v] == w.oracles[v]
  {
  }

  lemma MovesUnfold(r: Round, w: World, moves: seq<Move>) returns (w1: World)
    requires CalcMinSigners(r.maxSigners).Some? && moves != []
    ensures w1 == Step(r, w, moves[0]) && RunMoves(r, w, moves) == RunMoves(r, w1, moves[1..])
  {
    w1 := Step(r, w, moves[0]);
  }

  lemma TicksUnfold(moves: seq<Move>, v: uint16, past: seq<Tick>)
    requires moves != []
    ensures past + TicksOf(moves, v) == (if moves[0].idx == v then past + [moves[0].tick] else past) + TicksOf(moves[1..], v)
  {
  }

  lemma FirstMove(r: Round, w: World, moves: seq<Move>, v: uint16, leftover: map<string, string>, past: seq<Tick>)
    returns (w1: World, next: seq<Tick>)
    requires CalcMinSigners(r.maxSigners).Some? && moves != []
    requires v in w.oracles && w.oracles[v] == Run(leftover, past)
    ensures v in w1.oracles && w1.oracles[v] == Run(leftover, next)
    ensures RunMoves(r, w, moves) == RunMoves(r, w1, moves[1..])
    ensures next + TicksOf(moves[1..], v) == past + TicksOf(moves, v)
  {
    w1 := MovesUnfold(r, w, moves);
    next := if moves[0].idx == v then past + [moves[0].tick] else past;
    TicksUnfold(moves, v, past);
    if moves[0].idx == v {
      OracleMoves(r, w, moves[0], leftover, past);
    } else {
      OthersStay(r, w, moves[0], v);
    }
  }

  /** Each oracle of the world is a signing service on its own ticks. */
  lemma {:induction false} OracleRuns(r: Round, w: World, moves: seq<Move>, v: uint16, leftover: map<string, string>, past: seq<Tick>)
    requires CalcMinSigners(r.maxSigners).Some?
    requires v in w.oracles && w.oracles[v] == Run(leftover, past)
    ensures v in RunMoves(r, w, moves).oracles
    ensures RunMoves(r, w, moves).oracles[v] == Run(leftover, past + TicksOf(moves, v))
    decreases |moves|
  {
    if moves == [] {
      assert past + [] == past;
    } else {
      var w1, next := FirstMove(r, w, moves, v, leftover, past);
      OracleRuns(r, w1, moves[1..], v, leftover, next);
    }
  }

  /** In the closed world, under any faults and in any order of ticks, every oracle uses each of its
      nonces for one message. */
  lemma WorldUsesNoncesOnce(r: Round, w: World, moves: seq<Move>, v: uint16, leftover: map<string, string>)
    requires Start(r, w) && SeesCurrent(r, w, moves)
    requires v in w.oracles && w.oracles[v] == Initial(leftover)
    ensures v in RunMoves(r, w, moves).oracles && Safety.UsesAgree(RunMoves(r, w, moves).oracles[v].ledger.uses)
  {
    PromisesKept(r, w, moves, v);
    OracleRuns(r, w, moves, v, leftover, []);
    assert [] + TicksOf(moves, v) == TicksOf(moves, v);
    Safety.NonceSingleUse(leftover, TicksOf(moves, v));
  }
}
