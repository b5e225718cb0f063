/** The two workers of the indexer that drive one status column. Each cycle is a query and then one
    goroutine for each row; every access to the table, and every hold of the mutex, is one atomic
    step, and the steps of the two workers and of whoever inserts rows interleave in any way. */
module PegoutManager {
  import opened Wrappers

  const PEGOUT_QUERY_LIMIT: nat := 1024
  const TWO_WEEKS: int := 14 * 24 * 3600 * 1_000_000_000
  const BAD_TXNS_INPUTS: string := "bad-txns-inputs-missingorspent"
  const UNSPENDABLE_OUTPUT: string := "unspendable output exceeds maximum configured by user"

  // ----- the table -----

  datatype Status = Signing | Signed | Confirmed {
    function Rank(): nat {
      match this
      case Signing => 0
      case Signed => 1
      case Confirmed => 2
    }
  }

  datatype Row = Row(status: Status, addr: Option<string>, txRaw: string, txId: Option<string>, blockHash: string) {
    predicate HasAddress() {
      addr.Some? && addr.value != "NONE" && addr.value != "NONE1" && addr.value != ""
    }
  }

  type Table = map<int, Row>

  function NewRow(addr: Option<string>): Row {
    Row(Signing, addr, "", None, "")
  }

  // ----- what the handlers make of what they are told -----

  /** The answers a signing handler gets, in order; the last is whether the update succeeded. */
  datatype SigningAnswers = SigningAnswers(
    addrParsed: bool,
    active: Option<bool>,
    txParts: bool,
    built: Option<string>, // the id of the transaction
    hex: Option<string>,
    updated: bool
  )

  /** The contract is active, its parts are read, the transaction is built and encoded, the row is updated. */
  ghost predicate AllSucceed(ans: SigningAnswers) {
    ans.addrParsed && ans.active == Some(true) && ans.txParts && ans.built.Some? && ans.hex.Some? && ans.updated
  }

  /** The raw transaction and its id, if it gets as far as updating the row. */
  function SignedTx(ans: SigningAnswers): Option<(string, string)> {
    if !ans.addrParsed || ans.active != Some(true) || !ans.txParts || ans.built == None || ans.hex == None || !ans.updated
    then None
    else Some((ans.hex.value, ans.built.value))
  }

  datatype SignedAnswers = SignedAnswers(
    hashParsed: bool,
    blockHash: Option<string>,     // the transaction is known to the node
    updated: bool,
    hexParsed: bool,
    sendError: Option<string>,
    fetched: bool,
    burnAge: Option<int>,
    reinitAge: Option<int>
  )

  datatype Effect = Confirm(hash: string) | Exclude | Nothing

  function ToLower(s: string): string {
    seq(|s|, i requires 0 <= i < |s| => if 'A' <= s[i] <= 'Z' then (s[i] as int + 32) as char else s[i])
  }

  predicate Contains(s: string, sub: string) {
    sub <= s || (s != "" && Contains(s[1..], sub))
  }

  /** The node says that the inputs are gone, or that the output burns too much. */
  predicate Hopeless(error: string) {
    Contains(ToLower(error), BAD_TXNS_INPUTS) || Contains(ToLower(error), UNSPENDABLE_OUTPUT)
  }

  function Age(ans: SignedAnswers): Option<int> {
    if ans.burnAge.Some? then ans.burnAge else ans.reinitAge
  }

  function EffectOf(ans: SignedAnswers): Effect {
    if !ans.hashParsed then Nothing
    else if ans.blockHash.Some? then if ans.updated then Confirm(ans.blockHash.value) else Nothing
    else if !ans.hexParsed || ans.sendError == None then Nothing
    else if !Hopeless(ans.sendError.value) || !ans.fetched then Nothing
    else if Age(ans).Some? && Age(ans).value > TWO_WEEKS then Exclude
    else Nothing
  }

  /** The node knows the transaction, and the row is updated. */
  ghost predicate Confirms(ans: SignedAnswers) {
    ans.hashParsed && ans.blockHash.Some? && ans.updated
  }

  /** `l` is `c` in lower case. */
  predicate Lowers(c: char, l: char) {
    if 'A' <= c <= 'Z' then l as int == c as int + 32 else l == c
  }

  ghost predicate Begins(error: string, text: string) {
    |text| <= |error| && forall j | 0 <= j < |text| :: Lowers(error[j], text[j])
  }

  /** `text` stands somewhere in the error, in whatever case. */
  ghost predicate Mentions(error: string, text: string) {
    exists i | 0 <= i <= |error| :: Begins(error[i..], text)
  }

  /** The node does not know the transaction and refuses it for one of two reasons, and its burn, or its
      reinitialization if it has no burn, is more than fourteen days old. Times are in nanoseconds. */
  ghost predicate GivesUp(ans: SignedAnswers) {
    && ans.hashParsed && ans.blockHash.None? && ans.hexParsed && ans.sendError.Some?
    && (Mentions(ans.sendError.value, "bad-txns-inputs-missingorspent")
        || Mentions(ans.sendError.value, "unspendable output exceeds maximum configured by user"))
    && ans.fetched
    && (|| (ans.burnAge.Some? && ans.burnAge.value > 1_209_600_000_000_000)
        || (ans.burnAge.None? && ans.reinitAge.Some? && ans.reinitAge.value > 1_209_600_000_000_000))
  }

  lemma BeginsExactly(error: string, text: string)
    ensures text <= ToLower(error) <==> Begins(error, text)
  {
    var lower := ToLower(error);
    assert forall j | 0 <= j < |error| :: Lowers(error[j], lower[j]);
    if Begins(error, text) {
      assert forall j | 0 <= j < |text| :: Lowers(error[j], text[j]) && text[j] == lower[j];
    }
  }

  lemma {:induction false} MentionsExactly(error: string, text: string)
    ensures Contains(ToLower(error), text) <==> Mentions(error, text)
    decreases |error|
  {
    BeginsExactly(error, text);
    assert error[0..] == error;
    if error != "" {
      assert ToLower(error)[1..] == ToLower(error[1..]);
      MentionsExactly(error[1..], text);
      forall i | 0 <= i < |error| ensures error[1..][i..] == error[i + 1..] {
      }
      if i :| 0 <= i <= |error| && Begins(error[i..], text) {
        if i > 0 {
          assert error[1..][i - 1..] == error[i..];
        }
      }
    }
  }

  /** A handler confirms, excludes or leaves alone exactly on these answers. */
  lemma EffectExactly(ans: SignedAnswers)
    ensures Confirms(ans) <==> EffectOf(ans).Confirm?
    ensures Confirms(ans) ==> EffectOf(ans).hash == ans.blockHash.value
    ensures GivesUp(ans) <==> EffectOf(ans).Exclude?
  {
    if ans.sendError.Some? {
      MentionsExactly(ans.sendError.value, BAD_TXNS_INPUTS);
      MentionsExactly(ans.sendError.value, UNSPENDABLE_OUTPUT);
    }
  }

  function SetSigned(rows: Table, id: int, tx: (string, string)): Table {
    if id !in rows then rows
    else rows[id := rows[id].(status := Signed, txRaw := tx.0, txId := Some(tx.1))]
  }

  function SetConfirmed(rows: Table, id: int, blockHash: string): Table {
    if id !in rows then rows else rows[id := rows[id].(status := Confirmed, blockHash := blockHash)]
  }

  // ----- the manager -----

  class Manager {
    var rows: Table
    var excludedSignedPegoutIDs: set<int>

    constructor (rows: Table)
      ensures this.rows == rows && excludedSignedPegoutIDs == {}
    {
      this.rows := rows;
      excludedSignedPegoutIDs := {};
    }

    method HandleSigningPegout(id: int, ans: SigningAnswers)
      modifies this`rows
      ensures rows == match SignedTx(ans)
                      case None => old(rows)
                      case Some(tx) => SetSigned(old(rows), id, tx)
      ensures if AllSucceed(ans) && id in old(rows)
              then rows == old(rows)[id := Row(Signed, old(rows)[id].addr, ans.hex.value, Some(ans.built.value),
                                               old(rows)[id].blockHash)]
              else rows == old(rows)
    {
      if !ans.addrParsed {
        return;
      }
      if ans.active == None || !ans.active.value {
        return;
      }
      if !ans.txParts {
        return;
      }
      if ans.built == None {
        return;
      }
      if ans.hex == None {
        return;
      }
      if ans.updated && id in rows {
        rows := rows[id := rows[id].(status := Signed, txRaw := ans.hex.value, txId := Some(ans.built.value))];
      }
    }

    method HandleSignedPegout(id: int, ans: SignedAnswers)
      modifies this
      ensures if Confirms(ans) && id in old(rows)
              then rows == old(rows)[id := old(rows)[id].(status := Confirmed, blockHash := ans.blockHash.value)]
              else rows == old(rows)
      ensures excludedSignedPegoutIDs == if GivesUp(ans) then old(excludedSignedPegoutIDs) + {id} else old(excludedSignedPegoutIDs)
      ensures rows == match EffectOf(ans) case Confirm(hash) => SetConfirmed(old(rows), id, hash) case _ => old(rows)
      ensures excludedSignedPegoutIDs == old(excludedSignedPegoutIDs) + if EffectOf(ans).Exclude? then {id} else {}
    {
      EffectExactly(ans);
      if !ans.hashParsed {
        return;
      }
      if ans.blockHash.Some? {
        if ans.updated && id in rows {
          rows := rows[id := rows[id].(status := Confirmed, blockHash := ans.blockHash.value)];
        }
        return;
      }
      if !ans.hexParsed {
        return;
      }
      if ans.sendError.Some? {
        var sendErrStr := ToLower(ans.sendError.value);
        if Contains(sendErrStr, BAD_TXNS_INPUTS) || Contains(sendErrStr, UNSPENDABLE_OUTPUT) {
          if ans.fetched {
            var relevant: Option<int> := None;
            if ans.burnAge.Some? {
              relevant := ans.burnAge;
            } else if ans.reinitAge.Some? {
              relevant := ans.reinitAge;
            }
            if relevant.Some? && relevant.value > TWO_WEEKS {
              excludedSignedPegoutIDs := excludedSignedPegoutIDs + {id};
            }
          }
        }
      }
    }

    /** What is left of a query result once the exclusions are looked at again. */
    method ProcessList(allPegouts: seq<int>) returns (list: seq<int>)
      ensures list == Kept(allPegouts, excludedSignedPegoutIDs)
    {
      list := [];
      for i := 0 to |allPegouts|
        invariant list == Kept(allPegouts[..i], excludedSignedPegoutIDs)
      {
        assert allPegouts[..i + 1][..i] == allPegouts[..i];
        if allPegouts[i] !in excludedSignedPegoutIDs {
          list := list + [allPegouts[i]];
        }
      }
      assert allPegouts[..|allPegouts|] == allPegouts;
    }
  }

  function Kept(ids: seq<int>, excluded: set<int>): (kept: seq<int>)
    ensures forall id :: id in kept <==> id in ids && id !in excluded
  {
    if ids == [] then []
    else
      var last := ids[|ids| - 1];
      assert ids == ids[..|ids| - 1] + [last];
      Kept(ids[..|ids| - 1], excluded) + if last in excluded then [] else [last]
  }

  // ----- the system -----

  /** The signing worker: the rows whose goroutines have not finished. */
  datatype SigningWorker = SigningIdle | SigningRunning(left: set<int>)

  /** The signed worker: it copies the exclusions, queries, filters, and runs. Rows are as queried. */
  datatype SignedWorker =
    | SignedIdle
    | Copied(copy: set<int>)
    | Queried(ids: seq<int>, rows: Table)
    | SignedRunning(left: set<int>, rows: Table)

  datatype Event = Processed(id: int, cycle: nat) | Excluded(id: int, cycle: nat)

  datatype State = State(
    rows: Table,
    excluded: set<int>,
    signing: SigningWorker,
    signed: SignedWorker,
    cycle: nat,
    events: set<Event>
  )

  datatype Step =
    | Insert(id: int, addr: Option<string>)
    | QuerySigning(ids: set<int>)
    | FinishSigning(id: int, signing: SigningAnswers)
    | CopyExclusions
    | QuerySigned(list: seq<int>)
    | QuerySignedFails
    | Filter
    | FinishSigned(id: int, signed: SignedAnswers)

  ghost predicate Matches(rows: Table, id: int, status: Status) {
    id in rows && rows[id].status == status && rows[id].HasAddress()
  }

  ghost predicate Enabled(st: State, step: Step) {
    match step
    case Insert(id, _) => id !in st.rows
    case QuerySigning(ids) =>
      st.signing.SigningIdle? && |ids| <= PEGOUT_QUERY_LIMIT && forall id | id in ids :: Matches(st.rows, id, Signing)
    case FinishSigning(id, _) => st.signing.SigningRunning? && id in st.signing.left
    case CopyExclusions => st.signed.SignedIdle?
    case QuerySigned(ids) =>
      && st.signed.Copied? && |ids| <= PEGOUT_QUERY_LIMIT
      && (forall i, j | 0 <= i < j < |ids| :: ids[i] != ids[j])
      && forall id | id in ids :: Matches(st.rows, id, Signed) && id !in st.signed.copy
    case QuerySignedFails => st.signed.Copied?
    case Filter => st.signed.Queried?
    case FinishSigned(id, _) => st.signed.SignedRunning? && id in st.signed.left
  }

  function AfterSigning(left: set<int>): SigningWorker {
    if left == {} then SigningIdle else SigningRunning(left)
  }

  function AfterSigned(left: set<int>, rows: Table): SignedWorker {
    if left == {} then SignedIdle else SignedRunning(left, rows)
  }

  ghost function FinishSignedRow(st: State, id: int, ans: SignedAnswers): State
    requires st.signed.SignedRunning?
  {
    var worker := AfterSigned(st.signed.left - {id}, st.signed.rows);
    match EffectOf(ans)
    case Confirm(hash) => st.(rows := SetConfirmed(st.rows, id, hash), signed := worker)
    case Exclude =>
      st.(excluded := st.excluded + {id}, signed := worker, events := st.events + {Excluded(id, st.cycle)})
    case Nothing => st.(signed := worker)
  }

  ghost function RunFilter(st: State): State
    requires st.signed.Queried?
  {
    var list := Kept(st.signed.ids, st.excluded);
    st.(signed := AfterSigned((set id | id in list), st.signed.rows),
        cycle := st.cycle + 1,
        events := st.events + (set id | id in list :: Processed(id, st.cycle + 1)))
  }

  /** A step that is not enabled changes nothing. */
  ghost function Next(st: State, step: Step): State {
    if !Enabled(st, step) then st
    else
      match step
      case Insert(id, addr) => st.(rows := st.rows[id := NewRow(addr)])
      case QuerySigning(ids) => st.(signing := AfterSigning(ids))
      case FinishSigning(id, ans) =>
        st.(rows := if SignedTx(ans).Some? then SetSigned(st.rows, id, SignedTx(ans).value) else st.rows,
            signing := AfterSigning(st.signing.left - {id}))
      case CopyExclusions => st.(signed := Copied(st.excluded))
      case QuerySigned(ids) => st.(signed := if ids == [] then SignedIdle else Queried(ids, st.rows))
      case QuerySignedFails => st.(signed := SignedIdle)
      case Filter => RunFilter(st)
      case FinishSigned(id, ans) => FinishSignedRow(st, id, ans)
  }

  /** A fresh process over a table that an earlier one may have left. */
  ghost function Run(rows: Table, steps: seq<Step>): State {
    if steps == [] then State(rows, {}, SigningIdle, SignedIdle, 0, {})
    else Next(Run(rows, steps[..|steps| - 1]), steps[|steps| - 1])
  }

  // ----- what every step keeps -----

  /** A row in a worker's hands is still what the worker was given it for. */
  ghost predicate Inv(st: State) {
    && (st.signing.SigningRunning? ==> forall id | id in st.signing.left :: id in st.rows && st.rows[id].status.Signing?)
    && (st.signed.Copied? ==> st.signed.copy == st.excluded)
    && (st.signed.Queried? ==> forall id | id in st.signed.ids ::
          id !in st.excluded && id in st.rows && st.rows[id].status.Signed? && id in st.signed.rows && st.rows[id] == st.signed.rows[id])
    && (st.signed.SignedRunning? ==> forall id | id in st.signed.left ::
          && id in st.rows && st.rows[id].status.Signed? && id in st.signed.rows && st.rows[id] == st.signed.rows[id]
          && id !in st.excluded)
    && (forall id | id in st.excluded :: id in st.rows && st.rows[id].status.Signed?)
    && (forall e | e in st.events :: e.cycle <= st.cycle && (e.Excluded? ==> e.id in st.excluded))
    && (forall e, f | e in st.events && f in st.events && e.Processed? && f.Excluded? && e.id == f.id :: e.cycle <= f.cycle)
  }

  /** A row keeps its address, moves at most one status ahead, and its transaction is written on the
      way from SIGNING to SIGNED and at no other time. */
  ghost predicate RowStep(r: Row, s: Row) {
    && r.addr == s.addr
    && (s == r
        || (r.status.Signing? && s == r.(status := Signed, txRaw := s.txRaw, txId := s.txId))
        || (r.status.Signed? && s == r.(status := Confirmed, blockHash := s.blockHash)))
  }

  ghost predicate TableStep(before: State, after: State) {
    && (forall id | id in before.rows :: id in after.rows && RowStep(before.rows[id], after.rows[id]))
    && (forall id | id in after.rows && id !in before.rows :: after.rows[id].status.Signing?)
    && before.excluded <= after.excluded
    && (forall id | id in before.excluded && id in before.rows :: after.rows[id] == before.rows[id])
  }

  lemma FilterKeeps(st: State)
    requires Inv(st) && st.signed.Queried?
    ensures Inv(RunFilter(st)) && TableStep(st, RunFilter(st))
  {
  }

  lemma FinishSignedKeeps(st: State, id: int, ans: SignedAnswers)
    requires Inv(st) && st.signed.SignedRunning? && id in st.signed.left
    ensures Inv(FinishSignedRow(st, id, ans)) && TableStep(st, FinishSignedRow(st, id, ans))
  {
  }

  lemma StepKeeps(st: State, step: Step)
    requires Inv(st)
    ensures Inv(Next(st, step)) && TableStep(st, Next(st, step))
  {
    if Enabled(st, step) {
      match step
      case Filter => FilterKeeps(st);
      case FinishSigned(id, ans) => FinishSignedKeeps(st, id, ans);
      case _ =>
    }
  }

  lemma {:induction false} Reachable(rows: Table, steps: seq<Step>)
    ensures Inv(Run(rows, steps))
    decreases |steps|
  {
    if steps != [] {
      Reachable(rows, steps[..|steps| - 1]);
      StepKeeps(Run(rows, steps[..|steps| - 1]), steps[|steps| - 1]);
    }
  }

  /** Between two moments of a run. */
  ghost predicate Later(r: Row, s: Row) {
    && r.status.Rank() <= s.status.Rank()
    && r.addr == s.addr
    && (!r.status.Signing? ==> s.txRaw == r.txRaw && s.txId == r.txId)
    && (r.status.Confirmed? ==> s == r)
  }

  /** Under every interleaving a status only goes forward, one step at a time, and once a row has
      left SIGNING its raw transaction and its id never change again. */
  lemma {:induction false} StatusMonotone(rows: Table, steps: seq<Step>, i: nat, j: nat, id: int)
    requires i <= j <= |steps| && id in Run(rows, steps[..i]).rows
    ensures id in Run(rows, steps[..j]).rows
    ensures Later(Run(rows, steps[..i]).rows[id], Run(rows, steps[..j]).rows[id])
    ensures j == i + 1 ==> Run(rows, steps[..j]).rows[id].status.Rank() <= Run(rows, steps[..i]).rows[id].status.Rank() + 1
    decreases j
  {
    if i < j {
      StatusMonotone(rows, steps, i, j - 1, id);
      assert steps[..j][..j - 1] == steps[..j - 1];
      Reachable(rows, steps[..j - 1]);
      StepKeeps(Run(rows, steps[..j - 1]), steps[j - 1]);
    }
  }

  /** Whatever a signed handler is about to look up or send is what the row still holds. */
  lemma SnapshotIsCurrent(rows: Table, steps: seq<Step>, id: int)
    requires Run(rows, steps).signed.SignedRunning? && id in Run(rows, steps).signed.left
    ensures id in Run(rows, steps).rows && id in Run(rows, steps).signed.rows
    ensures Run(rows, steps).signed.rows[id] == Run(rows, steps).rows[id]
    ensures Run(rows, steps).rows[id].status.Signed?
  {
    Reachable(rows, steps);
  }

  /** A pegout that was excluded in one cycle is in no later one, whenever the two workers and the
      handlers run; and its row stays as it was. */
  lemma ExcludedForGood(rows: Table, steps: seq<Step>, id: int, processed: nat, excluded: nat)
    requires Processed(id, processed) in Run(rows, steps).events && Excluded(id, excluded) in Run(rows, steps).events
    ensures processed <= excluded
  {
    Reachable(rows, steps);
  }

  lemma {:induction false} KeptAll(ids: seq<int>, excluded: set<int>)
    requires forall id | id in ids :: id !in excluded
    ensures Kept(ids, excluded) == ids
  {
    if ids != [] {
      assert ids == ids[..|ids| - 1] + [ids[|ids| - 1]];
      KeptAll(ids[..|ids| - 1], excluded);
    }
  }

  /** Nothing is excluded between the copy and the second look at the exclusions: only handlers
      exclude, and they run after it. The second look finds nothing. */
  lemma SecondLookFindsNothing(rows: Table, steps: seq<Step>)
    requires Run(rows, steps).signed.Queried?
    ensures Kept(Run(rows, steps).signed.ids, Run(rows, steps).excluded) == Run(rows, steps).signed.ids
  {
    Reachable(rows, steps);
    KeptAll(Run(rows, steps).signed.ids, Run(rows, steps).excluded);
  }

  lemma {:induction false} ExcludedRowStays(rows: Table, steps: seq<Step>, i: nat, j: nat, id: int)
    requires i <= j <= |steps| && id in Run(rows, steps[..i]).excluded
    ensures id in Run(rows, steps[..i]).rows && id in Run(rows, steps[..j]).excluded && id in Run(rows, steps[..j]).rows
    ensures Run(rows, steps[..j]).rows[id] == Run(rows, steps[..i]).rows[id]
    decreases j
  {
    Reachable(rows, steps[..i]);
    if i < j {
      ExcludedRowStays(rows, steps, i, j - 1, id);
      assert steps[..j][..j - 1] == steps[..j - 1];
      Reachable(rows, steps[..j - 1]);
      StepKeeps(Run(rows, steps[..j - 1]), steps[j - 1]);
    }
  }

  // ----- what is written -----

  /** Row `id` while `step` is taken: signed with what was built, confirmed with what the node said, and
      otherwise as it was. */
  ghost predicate Written(st: State, step: Step, id: int, r: Row, s: Row) {
    if step.FinishSigning? && step.id == id && Enabled(st, step) && AllSucceed(step.signing)
    then s == Row(Signed, r.addr, step.signing.hex.value, Some(step.signing.built.value), r.blockHash)
    else if step.FinishSigned? && step.id == id && Enabled(st, step) && Confirms(step.signed)
    then s == Row(Confirmed, r.addr, r.txRaw, r.txId, step.signed.blockHash.value)
    else s == r
  }

  /** Every step writes exactly that, and excludes exactly what a handler gives up. */
  lemma StepWrites(st: State, step: Step, id: int)
    requires id in st.rows
    ensures id in Next(st, step).rows && Written(st, step, id, st.rows[id], Next(st, step).rows[id])
    ensures id in Next(st, step).excluded <==>
            id in st.excluded || (step.FinishSigned? && step.id == id && Enabled(st, step) && GivesUp(step.signed))
  {
    if Enabled(st, step) {
      match step
      case FinishSigned(_, ans) => EffectExactly(ans);
      case _ =>
    }
  }

  /** A signing handler of this run built the transaction that the row holds. */
  ghost predicate BuiltAt(rows: Table, steps: seq<Step>, id: int, row: Row, i: nat)
    requires i < |steps|
  {
    && steps[i].FinishSigning? && steps[i].id == id && AllSucceed(steps[i].signing)
    && Enabled(Run(rows, steps[..i]), steps[i])
    && row.txRaw == steps[i].signing.hex.value && row.txId == Some(steps[i].signing.built.value)
  }

  lemma BuiltBefore(rows: Table, steps: seq<Step>, id: int, row: Row, i: nat)
    requires steps != [] && i < |steps| - 1 && BuiltAt(rows, steps[..|steps| - 1], id, row, i)
    ensures BuiltAt(rows, steps, id, row, i)
  {
    assert steps[..|steps| - 1][..i] == steps[..i];
  }

  /** Over every run: a row that this run took out of SIGNING holds, as raw transaction and as id, what
      the handler that did it had built, encoded and identified. */
  lemma {:induction false} SignedWithWhatWasBuilt(rows: Table, steps: seq<Step>, id: int)
    requires id in Run(rows, steps).rows && !Run(rows, steps).rows[id].status.Signing?
    requires id in rows ==> rows[id].status.Signing?
    ensures exists i: nat | i < |steps| :: BuiltAt(rows, steps, id, Run(rows, steps).rows[id], i)
    decreases |steps|
  {
    if steps != [] {
      var n := |steps| - 1;
      var before, step := Run(rows, steps[..n]), steps[n];
      var row := Run(rows, steps).rows[id];
      if id in before.rows {
        StepWrites(before, step, id);
        if step.FinishSigning? && step.id == id && Enabled(before, step) && AllSucceed(step.signing) {
          assert BuiltAt(rows, steps, id, row, n);
        } else {
          Reachable(rows, steps[..n]);
          SignedWithWhatWasBuilt(rows, steps[..n], id);
          var i: nat :| i < n && BuiltAt(rows, steps[..n], id, before.rows[id], i);
          BuiltBefore(rows, steps, id, before.rows[id], i);
          assert BuiltAt(rows, steps, id, row, i);
        }
      }
    }
  }

  ghost predicate Queryable(r: Row) {
    r.addr.Some? && r.addr.value !in {"NONE", "NONE1", ""}
  }

  ghost function IdsOf(ids: seq<int>): set<int> {
    set id | id in ids
  }

  ghost predicate AllQueryable(rows: Table, ids: set<int>) {
    forall id | id in ids :: id in rows && Queryable(rows[id])
  }

  /** What a worker holds has an address, and is at most what one query returns. */
  ghost predicate InHand(st: State) {
    && (st.signing.SigningRunning? ==> |st.signing.left| <= 1024 && AllQueryable(st.rows, st.signing.left))
    && (st.signed.Queried? ==> AllQueryable(st.rows, IdsOf(st.signed.ids)))
    && (st.signed.SignedRunning? ==> AllQueryable(st.rows, st.signed.left))
  }

  lemma StillQueryable(before: State, after: State, ids: set<int>, fewer: set<int>)
    requires TableStep(before, after) && AllQueryable(before.rows, ids) && fewer <= ids
    ensures AllQueryable(after.rows, fewer)
  {
    forall id | id in fewer ensures id in after.rows && Queryable(after.rows[id]) {
      assert RowStep(before.rows[id], after.rows[id]);
    }
  }

  lemma FewerLeft(left: set<int>, id: int)
    requires id in left
    ensures |left - {id}| <= |left|
  {
  }

  lemma SigningInHand(st: State, step: Step)
    requires Inv(st) && InHand(st)
    ensures var st1 := Next(st, step);
            st1.signing.SigningRunning? ==> |st1.signing.left| <= 1024 && AllQueryable(st1.rows, st1.signing.left)
  {
    StepKeeps(st, step);
    var st1 := Next(st, step);
    if step.QuerySigning? && Enabled(st, step) {
      assert forall id | id in step.ids :: Matches(st.rows, id, Signing);
    } else if st1.signing.SigningRunning? {
      StillQueryable(st, st1, st.signing.left, st1.signing.left);
      if step.FinishSigning? && Enabled(st, step) {
        FewerLeft(st.signing.left, step.id);
      }
    }
  }

  lemma SignedInHand(st: State, step: Step)
    requires Inv(st) && InHand(st)
    ensures var st1 := Next(st, step);
            && (st1.signed.Queried? ==> AllQueryable(st1.rows, IdsOf(st1.signed.ids)))
            && (st1.signed.SignedRunning? ==> AllQueryable(st1.rows, st1.signed.left))
  {
    StepKeeps(st, step);
    var st1 := Next(st, step);
    if step.QuerySigned? && Enabled(st, step) {
      assert forall id | id in step.list :: Matches(st.rows, id, Signed);
    } else if st1.signed.Queried? {
      StillQueryable(st, st1, IdsOf(st.signed.ids), IdsOf(st1.signed.ids));
    } else if st1.signed.SignedRunning? {
      if st.signed.SignedRunning? {
        StillQueryable(st, st1, st.signed.left, st1.signed.left);
      } else {
        StillQueryable(st, st1, IdsOf(st.signed.ids), st1.signed.left);
      }
    }
  }

  lemma StepInHand(st: State, step: Step)
    requires Inv(st) && InHand(st)
    ensures InHand(Next(st, step))
  {
    SigningInHand(st, step);
    SignedInHand(st, step);
  }

  /** Rows without an address are never handled. */
  lemma {:induction false} HandledHaveAddresses(rows: Table, steps: seq<Step>)
    ensures InHand(Run(rows, steps))
    decreases |steps|
  {
    if steps != [] {
      HandledHaveAddresses(rows, steps[..|steps| - 1]);
      Reachable(rows, steps[..|steps| - 1]);
      StepInHand(Run(rows, steps[..|steps| - 1]), steps[|steps| - 1]);
    }
  }
}
