/** Many pegouts, each in as many rounds as it takes, over a network that delivers anything at any time:
    as long as the coordinator only moves a record as `Changes` allows, every process uses each of its
    nonces for one message, across deadlines, pegouts and restarts. */
module SigningRounds {
  import opened Wrappers
  import opened ByteCodec
  import opened Threshold
  import opened SigningSpec
  import Progress = SigningProgress
  import Safety = SigningSafety

  /** A process: the share files it found, and its ticks. */
  datatype Life = Life(leftover: map<string, string>, ticks: seq<Tick>) {
    function Now(): State {
      Run(leftover, ticks)
    }
  }

  /** The unsigned pegouts by id, every record that was ever to be read, and the running processes. */
  datatype World = World(records: map<nat, PegoutRecord>, shown: set<PegoutRecord>, lives: map<uint16, Life>)

  datatype Event =
    | Change(rec: PegoutRecord)
    | Signed(id: nat)
    | Ticks(v: uint16, tick: Tick)
    | Restart(v: uint16)

  /** The validator-set size each pegout is signed with. */
  type Sizes = nat -> uint16

  // ----- what the coordinator may do -----

  ghost predicate Full(sizes: Sizes, rec: PegoutRecord) {
    CalcMinSigners(sizes(rec.id)).Some? && |rec.commitments| >= CalcMinSigners(sizes(rec.id)).value
  }

  /** Later than every deadline the pegout ever had. */
  ghost predicate Later(shown: set<PegoutRecord>, id: nat, deadline: nat) {
    deadline != 0 && forall a | a in shown && a.id == id :: a.expiredAt < deadline
  }

  /** Below the threshold commitments may change under the deadline or under a new one; at any time the
      round may be reset; everything but commitments and deadline may change as it will. */
  ghost predicate Changes(sizes: Sizes, shown: set<PegoutRecord>, rec: PegoutRecord, rec1: PegoutRecord) {
    && rec1.id == rec.id
    && (|| (rec1.commitments == rec.commitments && rec1.expiredAt == rec.expiredAt)
        || (rec1.commitments == map[] && rec1.expiredAt == 0)
        || (!Full(sizes, rec) && rec1.expiredAt != 0
            && (rec1.expiredAt == rec.expiredAt || Later(shown, rec.id, rec1.expiredAt))))
  }

  ghost predicate Opens(rec: PegoutRecord) {
    rec.commitments == map[] && rec.expiredAt == 0
  }

  /** An oracle may read any record there ever was, or none, and everything else in a tick may fail. */
  ghost predicate Reads(sizes: Sizes, shown: set<PegoutRecord>, tk: Tick) {
    Safety.SeesRecord(tk) ==> tk.records.value[0] in shown && tk.maxSigners == sizes(tk.records.value[0].id)
  }

  ghost predicate Allowed(sizes: Sizes, w: World, e: Event) {
    match e
    case Change(rec) => if rec.id in w.records then Changes(sizes, w.shown, w.records[rec.id], rec) else Opens(rec)
    case Signed(_) => true
    case Ticks(v, tk) => v in w.lives && Reads(sizes, w.shown, tk)
    case Restart(v) => v in w.lives
  }

  function Step(w: World, e: Event): World {
    match e
    case Change(rec) => w.(records := w.records[rec.id := rec], shown := w.shown + {rec})
    case Signed(id) => w.(records := w.records - {id})
    case Ticks(v, tk) =>
      if v in w.lives then w.(lives := w.lives[v := w.lives[v].(ticks := w.lives[v].ticks + [tk])]) else w
    case Restart(v) =>
      if v in w.lives then w.(lives := w.lives[v := Life(w.lives[v].Now().files, [])]) else w
  }

  function After(w: World, events: seq<Event>): World {
    if events == [] then w else Step(After(w, events[..|events| - 1]), events[|events| - 1])
  }

  ghost predicate AllAllowed(sizes: Sizes, w: World, events: seq<Event>) {
    events != [] ==>
      && AllAllowed(sizes, w, events[..|events| - 1])
      && Allowed(sizes, After(w, events[..|events| - 1]), events[|events| - 1])
  }

  /** New processes with whatever share files, and no pegout yet. */
  ghost predicate Start(w: World) {
    w.records == map[] && w.shown == {} && forall v | v in w.lives :: w.lives[v].ticks == []
  }

  // ----- what stays true -----

  ghost predicate HasDeadline(rec: PegoutRecord) {
    rec.commitments != map[] ==> rec.expiredAt != 0
  }

  ghost predicate SameRound(a: PegoutRecord, b: PegoutRecord) {
    a.id == b.id && a.expiredAt == b.expiredAt
  }

  ghost predicate Frozen(sizes: Sizes, shown: set<PegoutRecord>) {
    && (forall a | a in shown :: HasDeadline(a))
    && (forall a, b | a in shown && b in shown && SameRound(a, b) && Full(sizes, a) && Full(sizes, b) ::
          a.commitments == b.commitments)
  }

  /** What is on record has been shown, and is what its round was when it was full. */
  ghost predicate Latest(sizes: Sizes, shown: set<PegoutRecord>, rec: PegoutRecord) {
    && rec in shown
    && forall a | a in shown && SameRound(a, rec) && Full(sizes, a) :: rec.commitments == a.commitments
  }

  ghost predicate CoordinatorOk(sizes: Sizes, w: World) {
    && Frozen(sizes, w.shown)
    && forall id | id in w.records :: w.records[id].id == id && Latest(sizes, w.shown, w.records[id])
  }

  ghost predicate LivesOk(sizes: Sizes, w: World) {
    forall v, tk | v in w.lives && tk in w.lives[v].ticks :: Reads(sizes, w.shown, tk)
  }

  lemma FullHasSome(sizes: Sizes, rec: PegoutRecord)
    requires Full(sizes, rec)
    ensures rec.commitments != map[]
  {
  }

  lemma ChangeLatest(sizes: Sizes, shown: set<PegoutRecord>, rec: PegoutRecord, rec1: PegoutRecord)
    requires Frozen(sizes, shown) && Latest(sizes, shown, rec) && Changes(sizes, shown, rec, rec1)
    ensures HasDeadline(rec1)
    ensures forall a | a in shown && SameRound(a, rec1) && Full(sizes, a) :: rec1.commitments == a.commitments
  {
    forall a | a in shown && SameRound(a, rec1) && Full(sizes, a) ensures rec1.commitments == a.commitments {
      FullHasSome(sizes, a);
      assert a.expiredAt != 0;
      if a.expiredAt == rec.expiredAt {
        assert SameRound(a, rec);
      }
    }
  }

  lemma OpenLatest(sizes: Sizes, shown: set<PegoutRecord>, rec: PegoutRecord)
    requires Frozen(sizes, shown) && Opens(rec)
    ensures forall a | a in shown && SameRound(a, rec) && Full(sizes, a) :: rec.commitments == a.commitments
  {
    forall a | a in shown && Full(sizes, a) ensures a.expiredAt != 0 {
      FullHasSome(sizes, a);
    }
  }

  lemma ShowMore(sizes: Sizes, shown: set<PegoutRecord>, rec: PegoutRecord)
    requires Frozen(sizes, shown) && HasDeadline(rec)
    requires forall a | a in shown && SameRound(a, rec) && Full(sizes, a) :: rec.commitments == a.commitments
    ensures Frozen(sizes, shown + {rec}) && Latest(sizes, shown + {rec}, rec)
  {
  }

  lemma ChangeKeeps(sizes: Sizes, w: World, rec: PegoutRecord)
    requires CoordinatorOk(sizes, w) && Allowed(sizes, w, Change(rec))
    ensures CoordinatorOk(sizes, Step(w, Change(rec)))
  {
    if rec.id in w.records {
      ChangeLatest(sizes, w.shown, w.records[rec.id], rec);
    } else {
      OpenLatest(sizes, w.shown, rec);
    }
    ShowMore(sizes, w.shown, rec);
    var w1 := Step(w, Change(rec));
    forall id | id in w1.records ensures w1.records[id].id == id && Latest(sizes, w1.shown, w1.records[id]) {
      if id != rec.id {
        assert Latest(sizes, w.shown, w.records[id]);
      }
    }
  }

  lemma StepKeeps(sizes: Sizes, w: World, e: Event)
    requires CoordinatorOk(sizes, w) && LivesOk(sizes, w) && Allowed(sizes, w, e)
    ensures CoordinatorOk(sizes, Step(w, e)) && LivesOk(sizes, Step(w, e))
  {
    if e.Change? {
      ChangeKeeps(sizes, w, e.rec);
    }
    LivesStay(sizes, w, e);
  }

  lemma LivesStay(sizes: Sizes, w: World, e: Event)
    requires LivesOk(sizes, w) && Allowed(sizes, w, e)
    ensures LivesOk(sizes, Step(w, e))
  {
    var w1 := Step(w, e);
    forall v, tk | v in w1.lives && tk in w1.lives[v].ticks ensures Reads(sizes, w1.shown, tk) {
      if tk in w.lives[v].ticks {
        assert Reads(sizes, w.shown, tk);
      } else {
        assert e.Ticks? && tk == e.tick;
      }
    }
  }

  lemma {:induction false} RunKeeps(sizes: Sizes, w: World, events: seq<Event>)
    requires Start(w) && AllAllowed(sizes, w, events)
    ensures CoordinatorOk(sizes, After(w, events)) && LivesOk(sizes, After(w, events))
    decreases |events|
  {
    if events != [] {
      RunKeeps(sizes, w, events[..|events| - 1]);
      StepKeeps(sizes, After(w, events[..|events| - 1]), events[|events| - 1]);
    }
  }

  /** What each process has read keeps the promises the safety proof asks for. */
  lemma PromisesKept(sizes: Sizes, w: World, v: uint16)
    requires CoordinatorOk(sizes, w) && LivesOk(sizes, w) && v in w.lives
    ensures Safety.CoordinatorKeepsPromises(w.lives[v].ticks)
  {
    var ticks := w.lives[v].ticks;
    forall i | 0 <= i < |ticks| ensures Safety.CommittedRoundHasDeadline(ticks[i]) {
      assert Reads(sizes, w.shown, ticks[i]);
    }
    forall i, j | 0 <= i < |ticks| && 0 <= j < |ticks| ensures Safety.FrozenBetween(ticks[i], ticks[j]) {
      assert Reads(sizes, w.shown, ticks[i]) && Reads(sizes, w.shown, ticks[j]);
      FrozenTicks(sizes, w.shown, ticks[i], ticks[j]);
    }
  }

  lemma FrozenTicks(sizes: Sizes, shown: set<PegoutRecord>, a: Tick, b: Tick)
    requires Frozen(sizes, shown) && Reads(sizes, shown, a) && Reads(sizes, shown, b)
    ensures Safety.FrozenBetween(a, b)
  {
    if Safety.SeesThreshold(a) && Safety.SeesThreshold(b) && SameRound(a.records.value[0], b.records.value[0]) {
      assert Full(sizes, a.records.value[0]) && Full(sizes, b.records.value[0]);
    }
  }

  /** Whatever is delivered, delayed, lost or forged, whoever restarts, and however often a round is
      reset: no process ever uses a nonce for two messages. */
  lemma NoncesOnceInAllRounds(sizes: Sizes, w: World, events: seq<Event>, v: uint16)
    requires Start(w) && AllAllowed(sizes, w, events) && v in After(w, events).lives
    ensures Safety.CoordinatorKeepsPromises(After(w, events).lives[v].ticks)
    ensures Safety.UsesAgree(After(w, events).lives[v].Now().ledger.uses)
  {
    RunKeeps(sizes, w, events);
    PromisesKept(sizes, After(w, events), v);
    UsesOnce(After(w, events).lives[v]);
  }

  lemma UsesOnce(life: Life)
    requires Safety.CoordinatorKeepsPromises(life.ticks)
    ensures Safety.UsesAgree(life.Now().ledger.uses)
  {
    Safety.NonceSingleUse(life.leftover, life.ticks);
    assert Safety.UsesAgree(Run(life.leftover, life.ticks).ledger.uses);
  }

  // ----- a contract with a clock -----

  function Reset(rec: PegoutRecord): PegoutRecord {
    rec.(commitments := map[], commitmentsOther := {}, signingShares := map[], signaturesMask := {},
         claimsMask := {}, expiredAt := 0)
  }

  /** `Accept`, with a deadline some time from now and with resets once it has passed. */
  function Receive(r: Progress.Round, rec: PegoutRecord, msg: Msg, now: nat, period: nat): PegoutRecord
    requires CalcMinSigners(r.maxSigners).Some?
  {
    if msg.ResetMsg? then
      if msg.id == rec.id && rec.expiredAt != 0 && rec.expiredAt < now then Reset(rec) else rec
    else Progress.Accept(r.(deadline := now + period), rec, msg)
  }

  /** Before a round has a deadline all earlier ones have passed; then it has the latest. */
  ghost predicate Clocked(shown: set<PegoutRecord>, rec: PegoutRecord, now: nat) {
    forall a | a in shown && a.id == rec.id :: a.expiredAt <= if rec.expiredAt == 0 then now else rec.expiredAt
  }

  /** The clock alone makes deadlines new, so every delivery, of any message at any time, is a change the
      safety proof allows. */
  lemma ReceiveChanges(sizes: Sizes, shown: set<PegoutRecord>, r: Progress.Round, rec: PegoutRecord, msg: Msg,
                       now: nat, period: nat)
    requires CalcMinSigners(r.maxSigners).Some? && r.maxSigners == sizes(rec.id) && period > 0
    requires HasDeadline(rec) && Clocked(shown, rec, now)
    ensures var rec1 := Receive(r, rec, msg, now, period);
            && Changes(sizes, shown, rec, rec1) && HasDeadline(rec1)
            && forall later: nat | now <= later :: Clocked(shown + {rec1}, rec1, later)
  {
  }
}
