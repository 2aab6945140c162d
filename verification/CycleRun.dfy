/** The dispatch cycle of the service is a run of the protocol, so what holds of every run holds
    of it. */
module CycleRun {
  import opened Types
  import opened Table
  import opened Dispatch
  import opened Protocol
  import opened LedgerSafety
  import opened Recovery

  // ---- the steps of a cycle

  function HandleActions(c: Config, counters: Counters, item: Item, spawn: nat -> Option<nat>, now: nat): seq<Action> {
    [Dispatcher(Scan(now))]
    + if !Decide(c.ledger, counters, item.row).Grant? then []
      else match spawn(item.id)
           case Some(pid) => [Dispatcher(SpawnOk(pid)), Dispatcher(CommitDispatched(now))]
           case None => [Dispatcher(SpawnError), Dispatcher(CommitSpawnError(now))]
  }

  function CycleActions(c: Config, counters: Counters, items: seq<Item>, spawn: nat -> Option<nat>,
                        now: nat): seq<Action>
    decreases |items|
  {
    if items == [] then [Dispatcher(Scan(now))]
    else HandleActions(c, counters, items[0], spawn, now)
         + CycleActions(c, NextCounters(c.ledger, counters, items[0], spawn), items[1..], spawn, now)
  }

  function DispatchActions(c: Config, rows: seq<Slot>, spawn: nat -> Option<nat>, now: nat): seq<Action> {
    [Dispatcher(ListActive), Dispatcher(ListAccepted)]
    + CycleActions(c, Snapshot(c.ledger, rows), Take(Select(rows, IsAccepted), c.maxQueued), spawn, now)
  }

  // ---- and what they do

  lemma ExecTwo(c: Config, s: State, a: Action, b: Action)
    ensures Exec(c, s, [a, b]) == Step(c, Step(c, s, a), b)
  {
    assert [a, b] == [a] + [b];
    ExecSplits(c, s, [a], [b]);
    ExecOne(c, s, a);
    ExecOne(c, Step(c, s, a), b);
  }

  predicate AllLive(rows: seq<Slot>, queue: seq<Item>) {
    forall i :: 0 <= i < |queue| ==> Live(rows, queue[i].id)
  }

  function Spawns(d: Decision, id: nat, spawn: nat -> Option<nat>): seq<Shim> {
    if d.Grant? && spawn(id).Some? then [Shim(id, spawn(id).value, Begin, false)] else []
  }

  /** The protocol steps of one loop iteration. */
  lemma HandleIsRun(c: Config, s: State, spawn: nat -> Option<nat>, now: nat)
    requires s.disp.Scanning? && s.disp.queue != [] && Live(s.rows, s.disp.queue[0].id)
    ensures var t := Exec(c, s, HandleActions(c, s.disp.counters, s.disp.queue[0], spawn, now));
            && t.rows == Handle(c.ledger, s.disp.counters, s.rows, s.disp.queue[0], spawn, now)
            && t.disp == Scanning(NextCounters(c.ledger, s.disp.counters, s.disp.queue[0], spawn), s.disp.queue[1..])
            && t.shims == s.shims
                 + Spawns(Decide(c.ledger, s.disp.counters, s.disp.queue[0].row), s.disp.queue[0].id, spawn)
  {
    var item, scan := s.disp.queue[0], Dispatcher(Scan(now));
    assert s.shims + [] == s.shims;
    var actions := HandleActions(c, s.disp.counters, item, spawn, now);
    ExecOne(c, s, scan);
    if Decide(c.ledger, s.disp.counters, item.row).Grant? {
      ExecSplits(c, s, [scan], actions[1..]);
      assert actions == [scan] + actions[1..];
      if spawn(item.id).Some? {
        ExecTwo(c, Step(c, s, scan), Dispatcher(SpawnOk(spawn(item.id).value)), Dispatcher(CommitDispatched(now)));
      } else {
        ExecTwo(c, Step(c, s, scan), Dispatcher(SpawnError), Dispatcher(CommitSpawnError(now)));
      }
    } else {
      assert actions == [scan];
    }
  }

  lemma {:induction false} CycleIsRun(c: Config, s: State, spawn: nat -> Option<nat>, now: nat)
    requires s.disp.Scanning? && AllLive(s.rows, s.disp.queue)
    ensures var t := Exec(c, s, CycleActions(c, s.disp.counters, s.disp.queue, spawn, now));
            t.disp.Idle? && t.rows == Cycle(c.ledger, s.disp.counters, s.rows, s.disp.queue, spawn, now)
    decreases |s.disp.queue|
  {
    if s.disp.queue == [] {
      ExecOne(c, s, Dispatcher(Scan(now)));
    } else {
      var first := HandleActions(c, s.disp.counters, s.disp.queue[0], spawn, now);
      var next := Exec(c, s, first);
      HandleIsRun(c, s, spawn, now);
      QueueStaysLive(c, s, spawn, now);
      CycleIsRun(c, next, spawn, now);
      ExecSplits(c, s, first, CycleActions(c, next.disp.counters, next.disp.queue, spawn, now));
    }
  }

  lemma {:induction false} CycleKeepsShims(c: Config, s: State, counters: Counters, items: seq<Item>,
                                           spawn: nat -> Option<nat>, now: nat)
    ensures s.shims <= Exec(c, s, CycleActions(c, counters, items, spawn, now)).shims
  {
    NoShimActs(c, counters, items, spawn, now);
    DispatcherKeepsShims(c, s, CycleActions(c, counters, items, spawn, now));
  }

  lemma {:induction false} NoShimActs(c: Config, counters: Counters, items: seq<Item>, spawn: nat -> Option<nat>,
                                      now: nat)
    ensures forall a :: a in CycleActions(c, counters, items, spawn, now) ==> a.Dispatcher?
    decreases |items|
  {
    if items != [] {
      NoShimActs(c, NextCounters(c.ledger, counters, items[0], spawn), items[1..], spawn, now);
    }
  }

  lemma {:induction false} DispatcherKeepsShims(c: Config, s: State, run: seq<Action>)
    requires forall a :: a in run ==> a.Dispatcher?
    ensures s.shims <= Exec(c, s, run).shims
    decreases |run|
  {
    if run != [] {
      assert run[0] in run;
      DispatcherKeepsShims(c, Step(c, s, run[0]), run[1..]);
    }
  }

  /** The cycle gives a new shim to every listed row that is granted and spawned. */
  lemma {:induction false} CycleSpawns(c: Config, s: State, spawn: nat -> Option<nat>, now: nat, i: nat)
    returns (j: nat)
    requires s.disp.Scanning? && AllLive(s.rows, s.disp.queue) && i < |s.disp.queue|
    requires Decisions(c.ledger, s.disp.counters, s.disp.queue, spawn)[i].Grant? && spawn(s.disp.queue[i].id).Some?
    ensures var t := Exec(c, s, CycleActions(c, s.disp.counters, s.disp.queue, spawn, now));
            s.shims <= t.shims && |s.shims| <= j < |t.shims| && t.shims[j].task == s.disp.queue[i].id
    decreases i
  {
    var first := HandleActions(c, s.disp.counters, s.disp.queue[0], spawn, now);
    var next := Exec(c, s, first);
    assert s.disp.queue[0] == s.disp.queue[..][0] && Live(s.rows, s.disp.queue[0].id);
    HandleIsRun(c, s, spawn, now);
    var rest := CycleActions(c, next.disp.counters, next.disp.queue, spawn, now);
    ExecSplits(c, s, first, rest);
    if i == 0 {
      j := |s.shims|;
      CycleKeepsShims(c, next, next.disp.counters, next.disp.queue, spawn, now);
    } else {
      QueueStaysLive(c, s, spawn, now);
      j := CycleSpawns(c, next, spawn, now, i - 1);
    }
  }

  lemma QueueStaysLive(c: Config, s: State, spawn: nat -> Option<nat>, now: nat)
    requires s.disp.Scanning? && s.disp.queue != [] && AllLive(s.rows, s.disp.queue)
    ensures AllLive(Handle(c.ledger, s.disp.counters, s.rows, s.disp.queue[0], spawn, now), s.disp.queue[1..])
  {
    var after := Handle(c.ledger, s.disp.counters, s.rows, s.disp.queue[0], spawn, now);
    forall i | 0 <= i < |s.disp.queue[1..]| ensures Live(after, s.disp.queue[1..][i].id) {
      assert Live(s.rows, s.disp.queue[i + 1].id);
    }
  }

  lemma ListingIsLive(rows: seq<Slot>, limit: nat)
    ensures AllLive(rows, Take(Select(rows, IsAccepted), limit))
  {
    SelectIsExact(rows, IsAccepted);
    var items := Take(Select(rows, IsAccepted), limit);
    forall i | 0 <= i < |items| ensures Live(rows, items[i].id) {
      assert items[i] == Select(rows, IsAccepted)[i] && items[i] in Select(rows, IsAccepted);
    }
  }

  /** A whole cycle, from any state in which the dispatcher is idle. */
  lemma DispatchIsRun(c: Config, s: State, spawn: nat -> Option<nat>, now: nat)
    requires s.disp.Idle?
    ensures var t := Exec(c, s, DispatchActions(c, s.rows, spawn, now));
            t.disp.Idle? && t.rows == DispatchTable(c.ledger, s.rows, c.maxQueued, spawn, now)
  {
    var listing := [Dispatcher(ListActive), Dispatcher(ListAccepted)];
    ExecTwo(c, s, Dispatcher(ListActive), Dispatcher(ListAccepted));
    var t := Exec(c, s, listing);
    ListingIsLive(s.rows, c.maxQueued);
    CycleIsRun(c, t, spawn, now);
    ExecSplits(c, s, listing, CycleActions(c, t.disp.counters, t.disp.queue, spawn, now));
  }

  /** ... and every row it grants and spawns has a new shim. */
  lemma DispatchSpawns(c: Config, s: State, spawn: nat -> Option<nat>, now: nat, i: nat) returns (j: nat)
    requires s.disp.Idle?
    requires var items := Take(Select(s.rows, IsAccepted), c.maxQueued);
             && i < |items| && spawn(items[i].id).Some?
             && Decisions(c.ledger, Snapshot(c.ledger, s.rows), items, spawn)[i].Grant?
    ensures var t := Exec(c, s, DispatchActions(c, s.rows, spawn, now));
            && s.shims <= t.shims && |s.shims| <= j < |t.shims|
            && t.shims[j].task == Take(Select(s.rows, IsAccepted), c.maxQueued)[i].id
  {
    var listing := [Dispatcher(ListActive), Dispatcher(ListAccepted)];
    ExecTwo(c, s, Dispatcher(ListActive), Dispatcher(ListAccepted));
    var t := Exec(c, s, listing);
    ListingIsLive(s.rows, c.maxQueued);
    j := CycleSpawns(c, t, spawn, now, i);
    ExecSplits(c, s, listing, CycleActions(c, t.disp.counters, t.disp.queue, spawn, now));
  }

  /** So the service's dispatch method never takes a table over an enforced limit. */
  lemma DispatchKeepsLimits(c: Config, rows: seq<Slot>, spawn: nat -> Option<nat>, now: nat, scope: Scope, d: Dim)
    requires Capped(c.ledger, scope, d) && Usage(rows, scope, d) <= LimitOf(c.ledger, scope, d).value
    ensures Usage(DispatchTable(c.ledger, rows, c.maxQueued, spawn, now), scope, d) <= LimitOf(c.ledger, scope, d).value
  {
    DispatchIsRun(c, Boot(rows, []), spawn, now);
    LedgerIsSafe(c, Boot(rows, []), DispatchActions(c, rows, spawn, now), scope, d);
  }
}
