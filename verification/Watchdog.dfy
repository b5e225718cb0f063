/** The heartbeat watchdog. Each operation is one atomic step under the lock, with the clock readings
    it took as parameters. */
module Watchdog {
  import opened Wrappers
  import opened Sorting

  datatype Target = Target(lastHeartbeat: int, lastFire: int, period: int)

  /** A callback: for whom, at which scan, and by how much the target was late. `at` is what the scan
      read before it took the lock, which is the time the throttle compares; the callback itself runs
      later in the scan. */
  datatype Call = Call(id: string, at: int, overdue: int)

  datatype Config = Config(scanPeriod: int, firePeriod: int, selfHeartbeatPeriod: int) {
    predicate Accepted() {
      0 < scanPeriod < firePeriod
    }
  }

  /** `now` is read when an operation starts; a scan reads the clock again for each target, and once
      more when it is done. */
  datatype Op =
    | Watch(id: string, period: int, now: int)
    | Unwatch(id: string)
    | Heartbeat(id: string, now: int)
    | Scan(now: int, reading: string -> int, end: int)

  datatype State = State(targets: map<string, Target>, calls: multiset<Call>, selfLastHeartbeat: int)

  function Lateness(t: Target, reading: int): int {
    reading - t.lastHeartbeat
  }

  predicate Due(firePeriod: int, t: Target, now: int, reading: int) {
    Lateness(t, reading) > t.period && now - t.lastFire > firePeriod
  }

  function DueIDs(targets: map<string, Target>, firePeriod: int, now: int, reading: string -> int): set<string> {
    set id | id in targets && Due(firePeriod, targets[id], now, reading(id))
  }

  function Fired(targets: map<string, Target>, due: set<string>, now: int): map<string, Target> {
    map id | id in targets :: if id in due then targets[id].(lastFire := now) else targets[id]
  }

  function CallsFor(targets: map<string, Target>, due: set<string>, now: int, reading: string -> int): set<Call>
    requires due <= targets.Keys
  {
    set id | id in due :: Call(id, now, Lateness(targets[id], reading(id)))
  }

  function ScanStep(c: Config, st: State, now: int, reading: string -> int, end: int): State {
    var due := DueIDs(st.targets, c.firePeriod, now, reading);
    State(Fired(st.targets, due, now),
          st.calls + multiset(CallsFor(st.targets, due, now, reading)),
          if end - st.selfLastHeartbeat > c.selfHeartbeatPeriod then now else st.selfLastHeartbeat)
  }

  function Next(c: Config, st: State, op: Op): State {
    match op
    case Watch(id, period, now) => st.(targets := st.targets[id := Target(now, now, period)])
    case Unwatch(id) => st.(targets := st.targets - {id})
    case Heartbeat(id, now) =>
      if id in st.targets then st.(targets := st.targets[id := st.targets[id].(lastHeartbeat := now)]) else st
    case Scan(now, reading, end) => ScanStep(c, st, now, reading, end)
  }

  function Run(c: Config, start: int, ops: seq<Op>): State {
    if ops == [] then State(map[], multiset{}, start) else Next(c, Run(c, start, ops[..|ops| - 1]), ops[|ops| - 1])
  }

  /** The object behind the lock; `calls` is what the callback was called with, in order. */
  class Dog {
    const config: Config
    var targets: map<string, Target>
    var selfLastHeartbeat: int
    var calls: seq<Call>

    constructor (config: Config, now: int)
      requires config.Accepted()
      ensures this.config == config && Abs() == State(map[], multiset{}, now) && calls == []
    {
      this.config := config;
      targets := map[];
      selfLastHeartbeat := now;
      calls := [];
    }

    ghost function Abs(): State
      reads this
    {
      State(targets, multiset(calls), selfLastHeartbeat)
    }

    method WatchTarget(id: string, period: int, now: int)
      modifies this`targets
      ensures Abs() == Next(config, old(Abs()), Watch(id, period, now))
    {
      var target := Target(now, now, period);
      targets := targets[id := target];
    }

    method UnwatchTarget(id: string)
      modifies this`targets
      ensures Abs() == Next(config, old(Abs()), Unwatch(id))
    {
      targets := targets - {id};
    }

    method Beat(id: string, now: int)
      modifies this`targets
      ensures Abs() == Next(config, old(Abs()), Heartbeat(id, now))
    {
      if id in targets {
        targets := targets[id := targets[id].(lastHeartbeat := now)];
      }
    }

    /** Visits the targets in map order and lists those to report, each once. */
    method Overdue(now: int, reading: string -> int) returns (ids: seq<string>, overdues: seq<int>)
      ensures Distinct(ids) && Elements(ids) == DueIDs(targets, config.firePeriod, now, reading)
      ensures |overdues| == |ids| && forall i | 0 <= i < |ids| ::
                ids[i] in targets && overdues[i] == Lateness(targets[ids[i]], reading(ids[i]))
    {
      ids, overdues := [], [];
      ghost var due := DueIDs(targets, config.firePeriod, now, reading);
      var todo := targets.Keys;
      while todo != {}
        invariant todo <= targets.Keys
        invariant Distinct(ids) && Elements(ids) == due - todo
        invariant |overdues| == |ids| && forall i | 0 <= i < |ids| ::
                    ids[i] in targets && overdues[i] == Lateness(targets[ids[i]], reading(ids[i]))
        decreases |todo|
      {
        var id :| id in todo;
        RemoveOne(due, todo, id);
        todo := todo - {id};
        var target := targets[id];
        assert id in due <==> Due(config.firePeriod, target, now, reading(id));
        var dt := reading(id) - target.lastHeartbeat;
        if dt > target.period {
          var fd := now - target.lastFire;
          if fd > config.firePeriod {
            ListMore(ids, id);
            ids := ids + [id];
            overdues := overdues + [dt];
          }
        }
      }
    }

    /** Calls back for each, and remembers when. */
    method Fire(ids: seq<string>, overdues: seq<int>, now: int, ghost reading: string -> int)
      requires Distinct(ids) && Elements(ids) <= targets.Keys
      requires |overdues| == |ids| && forall i | 0 <= i < |ids| ::
                 ids[i] in targets && overdues[i] == Lateness(targets[ids[i]], reading(ids[i]))
      modifies this`targets, this`calls
      ensures targets == Fired(old(targets), Elements(ids), now)
      ensures multiset(calls) == multiset(old(calls)) + multiset(CallsFor(old(targets), Elements(ids), now, reading))
      ensures old(calls) <= calls && |calls| == |old(calls)| + |ids|
    {
      for i := 0 to |ids|
        invariant targets == Fired(old(targets), Elements(ids[..i]), now)
        invariant old(calls) <= calls && |calls| == |old(calls)| + i
        invariant Elements(ids[..i]) <= old(targets).Keys
        invariant multiset(calls)
                  == multiset(old(calls)) + multiset(CallsFor(old(targets), Elements(ids[..i]), now, reading))
      {
        PrefixSet(ids, i);
        var call := Call(ids[i], now, overdues[i]);
        FireNext(old(targets), Elements(ids[..i]), ids[i], now, reading);
        calls := calls + [call];
        targets := targets[ids[i] := targets[ids[i]].(lastFire := now)];
      }
      assert ids[..|ids|] == ids;
    }

    /** A scan calls back exactly once for each target that is due. */
    method ScanTargets(now: int, reading: string -> int, end: int)
      modifies this
      ensures Abs() == Next(config, old(Abs()), Scan(now, reading, end))
      ensures |calls| == |old(calls)| + |DueIDs(old(targets), config.firePeriod, now, reading)|
    {
      var ids, overdues := Overdue(now, reading);
      DistinctLength(ids);
      Fire(ids, overdues, now, reading);
      if end - selfLastHeartbeat > config.selfHeartbeatPeriod {
        selfLastHeartbeat := now;
      }
    }
  }

  lemma RemoveOne(due: set<string>, todo: set<string>, id: string)
    requires id in todo
    ensures due - (todo - {id}) == if id in due then due - todo + {id} else due - todo
  {
  }

  lemma {:induction false} DistinctLength<T(!new)>(xs: seq<T>)
    requires Distinct(xs)
    ensures |xs| == |Elements(xs)|
  {
    if xs != [] {
      var n := |xs| - 1;
      DistinctLength(xs[..n]);
      PrefixSet(xs, n);
      assert xs[..n + 1] == xs;
    }
  }

  lemma FireNext(targets: map<string, Target>, done: set<string>, id: string, now: int, reading: string -> int)
    requires done <= targets.Keys && id in targets && id !in done
    ensures Fired(targets, done, now)[id := targets[id].(lastFire := now)] == Fired(targets, done + {id}, now)
    ensures multiset(CallsFor(targets, done + {id}, now, reading))
            == multiset(CallsFor(targets, done, now, reading)) + multiset{Call(id, now, Lateness(targets[id], reading(id)))}
  {
    var call := Call(id, now, Lateness(targets[id], reading(id)));
    assert CallsFor(targets, done + {id}, now, reading) == CallsFor(targets, done, now, reading) + {call};
    assert call !in CallsFor(targets, done, now, reading);
  }

  // ----- throttling -----

  /** The scans, which one loop makes one after the other, read the clock in order. */
  ghost predicate ScansInOrder(ops: seq<Op>) {
    forall i, j | 0 <= i < j < |ops| && ops[i].Scan? && ops[j].Scan? :: ops[i].now <= ops[j].now
  }

  /** What the last scan read; with no scan, anything. */
  ghost function LatestScan(ops: seq<Op>): int {
    if ops == [] then 0
    else if ops[|ops| - 1].Scan? then ops[|ops| - 1].now
    else LatestScan(ops[..|ops| - 1])
  }

  ghost predicate Apart(firePeriod: int, a: Call, b: Call) {
    a.id == b.id ==> a.at - b.at > firePeriod || b.at - a.at > firePeriod
  }

  /** Any two callbacks for one target are more than a fire period apart. */
  ghost predicate SpacedOut(firePeriod: int, calls: multiset<Call>) {
    && (forall a | a in calls :: calls[a] == 1)
    && (forall a, b | a in calls && b in calls && a != b :: Apart(firePeriod, a, b))
  }

  /** The same, read off the callbacks in order. */
  lemma SpacedOutInOrder(firePeriod: int, calls: seq<Call>)
    requires 0 < firePeriod
    ensures SpacedOut(firePeriod, multiset(calls))
            <==> forall i, j | 0 <= i < j < |calls| :: Apart(firePeriod, calls[i], calls[j])
  {
    if SpacedOut(firePeriod, multiset(calls)) {
      forall i, j | 0 <= i < j < |calls| ensures Apart(firePeriod, calls[i], calls[j]) {
        assert calls[i] in multiset(calls) && calls[j] in multiset(calls);
        if calls[i] == calls[j] {
          TwiceCounted(calls, i, j);
        }
      }
    } else if forall i, j | 0 <= i < j < |calls| :: Apart(firePeriod, calls[i], calls[j]) {
      forall a | a in multiset(calls) ensures multiset(calls)[a] == 1 {
        var i :| 0 <= i < |calls| && calls[i] == a;
        CountedOnce(calls, i);
      }
    }
  }

  lemma TwiceCounted(calls: seq<Call>, i: nat, j: nat)
    requires i < j < |calls| && calls[i] == calls[j]
    ensures multiset(calls)[calls[i]] >= 2
  {
    assert calls == calls[..j] + calls[j..];
    assert calls[i] in multiset(calls[..j]) by {
      assert calls[..j][i] == calls[i];
    }
    assert calls[j] in multiset(calls[j..]) by {
      assert calls[j..][0] == calls[j];
    }
  }

  lemma CountedOnce(calls: seq<Call>, i: nat)
    requires i < |calls| && forall j | 0 <= j < |calls| && j != i :: calls[j] != calls[i]
    ensures multiset(calls)[calls[i]] == 1
  {
    assert calls == calls[..i] + [calls[i]] + calls[i + 1..];
    assert calls[i] !in calls[..i] && calls[i] !in calls[i + 1..];
  }

  /** A Watch that can make the throttle forget a callback: it read the clock before the callback's
      scan, and no scan since is more than a fire period later. */
  ghost predicate Forgets(c: Config, before: State, latest: int, op: Op, a: Call) {
    op.Watch? && a in before.calls && a.id == op.id && op.now < a.at && latest - a.at <= c.firePeriod
  }

  ghost predicate NoneForgotten(c: Config, start: int, ops: seq<Op>) {
    forall j, a | 0 <= j < |ops| && a in Run(c, start, ops[..j]).calls ::
      !Forgets(c, Run(c, start, ops[..j]), LatestScan(ops[..j]), ops[j], a)
  }

  /** A callback that the throttle of its target does not remember is long past. */
  ghost predicate Throttled(c: Config, st: State, latest: int) {
    && SpacedOut(c.firePeriod, st.calls)
    && forall a | a in st.calls && a.id in st.targets ::
         a.at <= st.targets[a.id].lastFire || latest - a.at > c.firePeriod
  }

  lemma ScanThrottled(c: Config, st: State, latest: int, now: int, reading: string -> int, end: int)
    requires c.Accepted() && Throttled(c, st, latest)
    requires forall a | a in st.calls :: a.at <= latest <= now
    ensures Throttled(c, ScanStep(c, st, now, reading, end), now)
  {
    var due := DueIDs(st.targets, c.firePeriod, now, reading);
    var made := CallsFor(st.targets, due, now, reading);
    var st' := ScanStep(c, st, now, reading, end);
    forall a, b | a in made && b in st.calls ensures Apart(c.firePeriod, a, b) {
    }
    forall a | a in st'.calls ensures st'.calls[a] == 1 {
      assert !(a in made && a in st.calls);
    }
  }

  lemma {:induction false} LatestIsLatest(ops: seq<Op>)
    requires ScansInOrder(ops)
    ensures forall i | 0 <= i < |ops| && ops[i].Scan? :: ops[i].now <= LatestScan(ops)
    decreases |ops|
  {
    if ops != [] {
      var n := |ops| - 1;
      LatestIsLatest(ops[..n]);
      forall i | 0 <= i < n && ops[i].Scan? ensures ops[i].now <= LatestScan(ops) {
        assert ops[..n][i].now <= LatestScan(ops[..n]);
      }
    }
  }

  lemma {:induction false} LatestIsOne(ops: seq<Op>)
    requires exists i :: 0 <= i < |ops| && ops[i].Scan?
    ensures exists i :: 0 <= i < |ops| && ops[i].Scan? && ops[i].now == LatestScan(ops)
    decreases |ops|
  {
    var n := |ops| - 1;
    if !ops[n].Scan? {
      var i :| 0 <= i < |ops| && ops[i].Scan?;
      assert ops[..n][i].Scan?;
      LatestIsOne(ops[..n]);
      var k :| 0 <= k < n && ops[..n][k].Scan? && ops[..n][k].now == LatestScan(ops[..n]);
      assert ops[k].Scan?;
    }
  }

  /** Callbacks are made by scans, the latest of which is no earlier. */
  lemma {:induction false} CallsAreMade(c: Config, start: int, ops: seq<Op>)
    requires ScansInOrder(ops)
    ensures forall a | a in Run(c, start, ops).calls :: a.at <= LatestScan(ops)
    ensures Run(c, start, ops).calls != multiset{} ==> exists i :: 0 <= i < |ops| && ops[i].Scan?
    decreases |ops|
  {
    if ops != [] {
      var n := |ops| - 1;
      CallsAreMade(c, start, ops[..n]);
      if ops[n].Scan? {
        if Run(c, start, ops[..n]).calls != multiset{} {
          LatestIsOne(ops[..n]);
        }
      } else if Run(c, start, ops).calls != multiset{} {
        var i :| 0 <= i < n && ops[..n][i].Scan?;
        assert ops[i].Scan?;
      }
    }
  }

  lemma FewerForgotten(c: Config, start: int, ops: seq<Op>, k: nat)
    requires NoneForgotten(c, start, ops) && k <= |ops|
    ensures NoneForgotten(c, start, ops[..k])
  {
    forall j | 0 <= j < k ensures ops[..k][..j] == ops[..j] {
    }
  }

  /** Whatever is watched, unwatched and watched again. */
  lemma {:induction false} RunThrottled(c: Config, start: int, ops: seq<Op>)
    requires c.Accepted() && ScansInOrder(ops) && NoneForgotten(c, start, ops)
    ensures Throttled(c, Run(c, start, ops), LatestScan(ops))
    decreases |ops|
  {
    if ops != [] {
      var n := |ops| - 1;
      var st := Run(c, start, ops[..n]);
      var latest := LatestScan(ops[..n]);
      FewerForgotten(c, start, ops, n);
      RunThrottled(c, start, ops[..n]);
      CallsAreMade(c, start, ops[..n]);
      match ops[n]
      case Scan(now, reading, end) =>
        if st.calls == multiset{} {
          ScanThrottled(c, st, now, now, reading, end);
        } else {
          LatestIsOne(ops[..n]);
          ScanThrottled(c, st, latest, now, reading, end);
        }
      case Watch(id, _, now) =>
        forall a | a in st.calls && a.id == id ensures a.at <= now || latest - a.at > c.firePeriod {
          assert !Forgets(c, st, latest, ops[n], a);
        }
      case Unwatch(_) =>
      case Heartbeat(_, _) =>
    }
  }

  /** A scan's other readings are made after its first. */
  ghost predicate InItself(scan: Op) {
    scan.Scan? && scan.now <= scan.end && forall id: string :: scan.now <= scan.reading(id)
  }

  ghost predicate ScansOnly(ops: seq<Op>) {
    forall i | 0 <= i < |ops| :: InItself(ops[i])
  }

  /** While a forgotten callback is not long past, some scan calls back too soon. */
  lemma ForgottenFiresTwice(c: Config, st: State, latest: int, a: Call) returns (scan: Op)
    requires c.Accepted() && a in st.calls && a.id in st.targets && st.targets[a.id].lastFire < a.at <= latest
    requires latest - a.at <= c.firePeriod
    ensures InItself(scan) && latest <= scan.now && !SpacedOut(c.firePeriod, Next(c, st, scan).calls)
  {
    var t := st.targets[a.id];
    var now := if latest <= t.lastFire + c.firePeriod then t.lastFire + c.firePeriod + 1 else latest;
    var late := t.lastHeartbeat + t.period + 1;
    var reading := if late < now then now else late;
    scan := Scan(now, (id: string) => reading, reading);
    FiresOne(c, st, a.id, now, scan.reading, scan.end);
    var b := Call(a.id, now, Lateness(t, scan.reading(a.id)));
    var calls := Next(c, st, scan).calls;
    assert a in calls && b in calls && !Apart(c.firePeriod, a, b);
    if a == b {
      assert b in CallsFor(st.targets, DueIDs(st.targets, c.firePeriod, now, scan.reading), now, scan.reading);
      assert calls[a] >= 2;
    }
  }

  /** Wherever the run is cut, any scans may follow: the callbacks for a target are more than a fire
      period apart. */
  ghost predicate AlwaysSpacedOut(c: Config, start: int, ops: seq<Op>) {
    forall k: nat, more | k <= |ops| && ScansOnly(more) && ScansInOrder(ops[..k] + more) ::
      SpacedOut(c.firePeriod, Run(c, start, ops[..k] + more).calls)
  }

  lemma ScansForgetNothing(c: Config, start: int, ops: seq<Op>, k: nat, more: seq<Op>)
    requires NoneForgotten(c, start, ops) && k <= |ops| && ScansOnly(more)
    ensures NoneForgotten(c, start, ops[..k] + more)
  {
    var all := ops[..k] + more;
    forall j, a | 0 <= j < |all| && a in Run(c, start, all[..j]).calls
      ensures !Forgets(c, Run(c, start, all[..j]), LatestScan(all[..j]), all[j], a)
    {
      if j < k {
        assert all[..j] == ops[..j] && all[j] == ops[j];
      } else {
        assert all[j] == more[j - k];
      }
    }
  }

  lemma OneMoreScan(c: Config, start: int, ops: seq<Op>, k: nat, scan: Op)
    requires ScansInOrder(ops) && k <= |ops| && InItself(scan)
    requires forall i | 0 <= i < k && ops[i].Scan? :: ops[i].now <= scan.now
    requires !SpacedOut(c.firePeriod, Next(c, Run(c, start, ops[..k]), scan).calls)
    ensures !AlwaysSpacedOut(c, start, ops)
  {
    var more := [scan];
    assert (ops[..k] + more)[..k] == ops[..k];
    assert ScansOnly(more) && ScansInOrder(ops[..k] + more);
  }

  lemma ForgottenAt(c: Config, start: int, ops: seq<Op>, j: nat, a: Call)
    requires c.Accepted() && ScansInOrder(ops) && j < |ops|
    requires Forgets(c, Run(c, start, ops[..j]), LatestScan(ops[..j]), ops[j], a)
    ensures !AlwaysSpacedOut(c, start, ops)
  {
    var upTo := ops[..j + 1];
    var latest := LatestScan(ops[..j]);
    assert upTo[..j] == ops[..j];
    assert Run(c, start, upTo) == Next(c, Run(c, start, ops[..j]), ops[j]);
    CallsAreMade(c, start, ops[..j]);
    LatestIsLatest(ops[..j]);
    var scan := ForgottenFiresTwice(c, Run(c, start, upTo), latest, a);
    forall i | 0 <= i <= j && ops[i].Scan? ensures ops[i].now <= scan.now {
      assert i < j && ops[..j][i].now <= latest;
    }
    OneMoreScan(c, start, ops, j + 1, scan);
  }

  /** Callbacks for one target stay more than a fire period apart, whatever scans follow, exactly when
      no Watch forgets one of its own target. */
  lemma CallsApart(c: Config, start: int, ops: seq<Op>)
    requires c.Accepted() && ScansInOrder(ops)
    ensures NoneForgotten(c, start, ops) <==> AlwaysSpacedOut(c, start, ops)
  {
    if NoneForgotten(c, start, ops) {
      forall k: nat, more | k <= |ops| && ScansOnly(more) && ScansInOrder(ops[..k] + more)
        ensures SpacedOut(c.firePeriod, Run(c, start, ops[..k] + more).calls)
      {
        ScansForgetNothing(c, start, ops, k, more);
        RunThrottled(c, start, ops[..k] + more);
      }
    } else {
      var j, a :| 0 <= j < |ops| && a in Run(c, start, ops[..j]).calls
                  && Forgets(c, Run(c, start, ops[..j]), LatestScan(ops[..j]), ops[j], a);
      ForgottenAt(c, start, ops, j, a);
    }
  }

  /** A Watch that read the clock before a scan and got the lock after it breaks the throttle. */
  lemma StaleWatchFiresTwice(id: string, first: string -> int, second: string -> int)
    requires first(id) == 10 && second(id) == 12
    ensures var ops := [Watch(id, 1, 0), Scan(10, first, 10), Watch(id, 1, 0), Scan(12, second, 12)];
            var calls := Run(Config(1, 5, 100), 0, ops).calls;
            Call(id, 10, 10) in calls && Call(id, 12, 12) in calls
  {
    var c := Config(1, 5, 100);
    var ops := [Watch(id, 1, 0), Scan(10, first, 10), Watch(id, 1, 0), Scan(12, second, 12)];
    assert ops[..3][..2] == ops[..2] && ops[..2][..1] == ops[..1] && ops[..1][..0] == [];
    assert Run(c, 0, ops[..1]) == Next(c, Run(c, 0, ops[..1][..0]), ops[..1][0]);
    var st1 := Run(c, 0, ops[..1]);
    assert st1.targets[id] == Target(0, 0, 1);
    var st2 := Run(c, 0, ops[..2]);
    assert st2 == ScanStep(c, st1, 10, first, 10);
    FiresOne(c, st1, id, 10, first, 10);
    var st3 := Run(c, 0, ops[..3]);
    assert st3 == Next(c, st2, Watch(id, 1, 0));
    FiresOne(c, st3, id, 12, second, 12);
    assert Run(c, 0, ops) == ScanStep(c, st3, 12, second, 12);
  }

  lemma FiresOne(c: Config, st: State, id: string, now: int, reading: string -> int, end: int)
    requires id in st.targets && Due(c.firePeriod, st.targets[id], now, reading(id))
    ensures Call(id, now, Lateness(st.targets[id], reading(id))) in ScanStep(c, st, now, reading, end).calls
  {
    assert id in DueIDs(st.targets, c.firePeriod, now, reading);
  }

  // ----- reports -----

  ghost predicate Beats(op: Op, id: string) {
    (op.Watch? || op.Heartbeat?) && op.id == id
  }

  /** The beats of a target are read from a clock that does not go back. */
  ghost predicate BeatsInOrder(ops: seq<Op>, id: string) {
    forall i, j | 0 <= i < j < |ops| && Beats(ops[i], id) && Beats(ops[j], id) :: ops[i].now <= ops[j].now
  }

  lemma StepBeats(c: Config, st: State, op: Op, id: string)
    requires id in Next(c, st, op).targets
    ensures if Beats(op, id) then Next(c, st, op).targets[id].lastHeartbeat == op.now
            else id in st.targets && Next(c, st, op).targets[id].lastHeartbeat == st.targets[id].lastHeartbeat
  {
  }

  lemma {:induction false} LastBeatCounts(c: Config, start: int, ops: seq<Op>, id: string)
    requires BeatsInOrder(ops, id) && id in Run(c, start, ops).targets
    ensures forall i | 0 <= i < |ops| && Beats(ops[i], id) :: ops[i].now <= Run(c, start, ops).targets[id].lastHeartbeat
    decreases |ops|
  {
    if ops != [] {
      var n := |ops| - 1;
      var before := ops[..n];
      StepBeats(c, Run(c, start, before), ops[n], id);
      if !Beats(ops[n], id) {
        LastBeatCounts(c, start, before, id);
        forall i | 0 <= i < n && Beats(ops[i], id)
          ensures ops[i].now <= Run(c, start, ops).targets[id].lastHeartbeat
        {
          assert Beats(before[i], id);
        }
      }
    }
  }

  /** At every scan that sees the target, some beat before it is no older than the target's period. */
  ghost predicate KeepsBeating(c: Config, start: int, ops: seq<Op>, id: string) {
    forall j | 0 <= j < |ops| && ops[j].Scan? && id in Run(c, start, ops[..j]).targets ::
      exists i | 0 <= i < j ::
        Beats(ops[i], id) && ops[j].reading(id) - ops[i].now <= Run(c, start, ops[..j]).targets[id].period
  }

  lemma KeptBeating(c: Config, start: int, ops: seq<Op>, id: string)
    requires ops != [] && KeepsBeating(c, start, ops, id)
    ensures KeepsBeating(c, start, ops[..|ops| - 1], id)
  {
    var before := ops[..|ops| - 1];
    forall j | 0 <= j < |before| && before[j].Scan? && id in Run(c, start, before[..j]).targets
      ensures exists i | 0 <= i < j ::
                Beats(before[i], id) && before[j].reading(id) - before[i].now <= Run(c, start, before[..j]).targets[id].period
    {
      assert before[..j] == ops[..j];
      var i :| 0 <= i < j && Beats(ops[i], id) && ops[j].reading(id) - ops[i].now <= Run(c, start, ops[..j]).targets[id].period;
      assert Beats(before[i], id);
    }
  }

  /** A target that keeps beating is never reported. */
  lemma {:induction false} NeverReported(c: Config, start: int, ops: seq<Op>, id: string)
    requires BeatsInOrder(ops, id) && KeepsBeating(c, start, ops, id)
    ensures forall a | a in Run(c, start, ops).calls :: a.id != id
    decreases |ops|
  {
    if ops != [] {
      var n := |ops| - 1;
      var before := ops[..n];
      KeptBeating(c, start, ops, id);
      NeverReported(c, start, before, id);
      var st := Run(c, start, before);
      if ops[n].Scan? && id in st.targets {
        LastBeatCounts(c, start, before, id);
        var i :| 0 <= i < n && Beats(ops[i], id) && ops[n].reading(id) - ops[i].now <= st.targets[id].period;
        assert Beats(before[i], id);
        assert !Due(c.firePeriod, st.targets[id], ops[n].now, ops[n].reading(id));
      }
    }
  }

  // ----- every late target is reported -----

  // The history of one target, read off the operations alone.

  /** Watched last, and not unwatched since. */
  ghost predicate IsWatched(ops: seq<Op>, id: string) {
    ops != [] &&
      var op := ops[|ops| - 1];
      if op.Watch? && op.id == id then true
      else if op.Unwatch? && op.id == id then false
      else IsWatched(ops[..|ops| - 1], id)
  }

  /** The period it was last watched with. */
  ghost function Period(ops: seq<Op>, id: string): int
    requires IsWatched(ops, id)
  {
    var op := ops[|ops| - 1];
    if op.Watch? && op.id == id then op.period else Period(ops[..|ops| - 1], id)
  }

  /** What its last Watch or Heartbeat read. */
  ghost function LastBeat(ops: seq<Op>, id: string): int
    requires IsWatched(ops, id)
  {
    var op := ops[|ops| - 1];
    if Beats(op, id) then op.now else LastBeat(ops[..|ops| - 1], id)
  }

  /** The last operation is a scan that called it back. */
  ghost predicate JustCalled(c: Config, start: int, ops: seq<Op>, id: string) {
    && ops != [] && ops[|ops| - 1].Scan?
    && exists a: Call :: a.id == id && Run(c, start, ops).calls[a] > Run(c, start, ops[..|ops| - 1]).calls[a]
  }

  /** What its last Watch read, or the last scan since that called it back. */
  ghost function LastMark(c: Config, start: int, ops: seq<Op>, id: string): int
    requires IsWatched(ops, id)
  {
    var op := ops[|ops| - 1];
    if op.Watch? && op.id == id then op.now
    else if JustCalled(c, start, ops, id) then op.now
    else LastMark(c, start, ops[..|ops| - 1], id)
  }

  /** Watched, silent for longer than its period, and neither watched nor called back within the last fire
      period: to be reported by this scan. */
  ghost predicate IsLate(c: Config, start: int, before: seq<Op>, id: string, scan: Op)
    requires scan.Scan?
  {
    && IsWatched(before, id)
    && scan.reading(id) - LastBeat(before, id) > Period(before, id)
    && scan.now - LastMark(c, start, before, id) > c.firePeriod
  }

  ghost function Report(before: seq<Op>, id: string, scan: Op): Call
    requires scan.Scan? && IsWatched(before, id)
  {
    Call(id, scan.now, scan.reading(id) - LastBeat(before, id))
  }

  /** What is known of a target is its history. */
  ghost predicate TargetIs(c: Config, start: int, ops: seq<Op>, id: string) {
    var targets := Run(c, start, ops).targets;
    && (id in targets <==> IsWatched(ops, id))
    && (id in targets ==> targets[id] == Target(LastBeat(ops, id), LastMark(c, start, ops, id), Period(ops, id)))
  }

  /** One scan, one target: exactly one more callback, with the right lateness, or none. */
  ghost predicate Reports(c: Config, start: int, before: seq<Op>, scan: Op, id: string, calls: multiset<Call>, calls1: multiset<Call>)
    requires scan.Scan?
  {
    forall a: Call | a.id == id ::
      calls1[a] == calls[a] + if IsLate(c, start, before, id, scan) && a == Report(before, id, scan) then 1 else 0
  }

  lemma ScanStepReports(c: Config, st: State, now: int, reading: string -> int, end: int, id: string)
    ensures var st1 := ScanStep(c, st, now, reading, end);
            var late := id in st.targets && reading(id) - st.targets[id].lastHeartbeat > st.targets[id].period
                        && now - st.targets[id].lastFire > c.firePeriod;
            && (forall a: Call | a.id == id ::
                  st1.calls[a] == st.calls[a]
                                  + if late && a == Call(id, now, reading(id) - st.targets[id].lastHeartbeat) then 1 else 0)
            && (id in st1.targets <==> id in st.targets)
            && (id in st.targets ==>
                  st1.targets[id] == Target(st.targets[id].lastHeartbeat, if late then now else st.targets[id].lastFire,
                                            st.targets[id].period))
  {
    var due := DueIDs(st.targets, c.firePeriod, now, reading);
    var made := CallsFor(st.targets, due, now, reading);
    forall a: Call | a.id == id
      ensures a in made <==> id in due && a == Call(id, now, reading(id) - st.targets[id].lastHeartbeat)
    {
    }
  }

  lemma ScanKeepsTarget(c: Config, start: int, ops: seq<Op>, id: string)
    requires ops != [] && ops[|ops| - 1].Scan? && TargetIs(c, start, ops[..|ops| - 1], id)
    ensures TargetIs(c, start, ops, id)
    ensures Reports(c, start, ops[..|ops| - 1], ops[|ops| - 1], id, Run(c, start, ops[..|ops| - 1]).calls, Run(c, start, ops).calls)
  {
    var before, scan := ops[..|ops| - 1], ops[|ops| - 1];
    var st := Run(c, start, before);
    ScanStepReports(c, st, scan.now, scan.reading, scan.end, id);
    if IsLate(c, start, before, id, scan) {
      var a := Report(before, id, scan);
      assert Run(c, start, ops).calls[a] > st.calls[a];
      assert JustCalled(c, start, ops, id);
    } else {
      assert !JustCalled(c, start, ops, id);
    }
  }

  lemma {:induction false} TargetIsItsHistory(c: Config, start: int, ops: seq<Op>, id: string)
    ensures TargetIs(c, start, ops, id)
    decreases |ops|
  {
    if ops != [] {
      TargetIsItsHistory(c, start, ops[..|ops| - 1], id);
      if ops[|ops| - 1].Scan? {
        ScanKeepsTarget(c, start, ops, id);
      }
    }
  }

  /** Over every run: a scan calls back once for each late target, telling by how much it is late, and for
      no other; nothing but a scan calls back. */
  lemma LateIsReported(c: Config, start: int, ops: seq<Op>, id: string)
    requires ops != []
    ensures var before, op := ops[..|ops| - 1], ops[|ops| - 1];
            if op.Scan? then Reports(c, start, before, op, id, Run(c, start, before).calls, Run(c, start, ops).calls)
            else Run(c, start, ops).calls == Run(c, start, before).calls
  {
    if ops[|ops| - 1].Scan? {
      TargetIsItsHistory(c, start, ops[..|ops| - 1], id);
      ScanKeepsTarget(c, start, ops, id);
    }
  }

  /** A scan that finds its own heartbeat too old renews it. */
  lemma SelfHeartbeat(c: Config, start: int, ops: seq<Op>)
    requires ops != [] && ops[|ops| - 1].Scan?
    ensures var scan := ops[|ops| - 1];
            var was, after := Run(c, start, ops[..|ops| - 1]).selfLastHeartbeat, Run(c, start, ops).selfLastHeartbeat;
            if scan.end > was + c.selfHeartbeatPeriod then after == scan.now else after == was
  {
  }
}
