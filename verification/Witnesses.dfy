/** Concrete runs: what each excluded race breaks, and that the other bounds are attained. */
module Witnesses {
  import opened Types
  import opened Ledger
  import opened Table
  import opened Dispatch
  import opened DispatchLaws
  import opened Drain
  import opened Protocol
  import opened AuditLog
  import opened Recovery

  const PLAIN_LIMITS := Limits(1000, None, None, None)
  const PLAIN := Submission("job", None, PLAIN_LIMITS, false)
  const SETUP := Config(ResourceLedger(Capacity(2, None, None), map[]), 4)
  const ONE_SLOT := Reservation(1, None, None)
  const WAITING_ROW: Row := NewRow(PLAIN, 0)
  const EMPTY := Boot([], [])

  /** Row 0 exists at the end of the run and satisfies `p`. */
  predicate Row0(run: seq<Action>, p: Row -> bool) {
    var rows := Exec(SETUP, EMPTY, run).rows;
    Live(rows, 0) && p(rows[0].value)
  }

  predicate IsCancelled(row: Row) { row.status.Cancelled? }

  predicate Reaches(run: seq<Action>, s: State) { Exec(SETUP, EMPTY, run) == s }

  // ---- the states the runs pass through

  const LISTED: State :=
    Boot([Some(WAITING_ROW)], []).(disp := Scanning(Counters(UNCAPPED, map[]), [Item(0, WAITING_ROW)]))

  function Reserved0(): Row { Apply(WAITING_ROW, Reserve(ONE_SLOT), 1) }

  /** Row 0 reserved, in the dispatcher's block. */
  function BlockState(stage: Stage, shims: seq<Shim>): State {
    Boot([Some(Reserved0())], shims).(disp :=
      InBlock(Counters(Capacity(1, None, None), map[]), Item(0, WAITING_ROW), ONE_SLOT, stage, []))
  }

  /** ... with the shim of row 0 at `pc`. */
  function ShimState(pc: ShimPc, launched: bool): State {
    BlockState(Spawned(70), [Shim(0, 70, pc, launched)])
  }

  /** A kill handler has set the flag of row 0 and read the row as still accepted. */
  function KillSeen(s: State): State {
    s.(rows := Commit(s.rows, 0, RequestKill, 2), kills := [KillHandler(0, CancelTask)])
  }

  lemma ListOne(s0: State)
    requires s0 == Boot([Some(WAITING_ROW)], [])
    ensures Step(SETUP, Step(SETUP, s0, Dispatcher(ListActive)), Dispatcher(ListAccepted)) == LISTED
    ensures Decide(SETUP.ledger, LISTED.disp.counters, WAITING_ROW) == Grant(ONE_SLOT)
  {
    NothingHeld(s0.rows);
    assert Snapshot(SETUP.ledger, s0.rows) == Counters(UNCAPPED, map[]);
    assert s0.rows[..0] == [];
    assert Select(s0.rows, IsAccepted) == [Item(0, WAITING_ROW)];
  }

  lemma ToListed() returns (run: seq<Action>)
    ensures Reaches(run, LISTED)
  {
    var s;
    run, s := Then(SETUP, EMPTY, [], EMPTY, SubmitCheck(PLAIN));
    assert s.submitters == [PLAIN];
    run, s := Then(SETUP, EMPTY, run, s, SubmitInsert(0, 0));
    assert s == Boot([Some(WAITING_ROW)], []);
    ListOne(s);
    run, s := Then(SETUP, EMPTY, run, s, Dispatcher(ListActive));
    run, s := Then(SETUP, EMPTY, run, s, Dispatcher(ListAccepted));
  }

  /** The dispatcher reserves for row 0 as it listed it, whatever has become of the row. */
  lemma ScanListed(s: State, now: nat)
    requires s.disp == LISTED.disp && Live(s.rows, 0)
    ensures Step(SETUP, s, Dispatcher(Scan(now)))
         == s.(rows := Commit(s.rows, 0, Reserve(ONE_SLOT), now), disp := BlockState(Unspawned, []).disp)
  {
    ListOne(Boot([Some(WAITING_ROW)], []));
    assert s.disp.queue[1..] == [];
    assert Charge(SETUP.ledger, s.disp.counters, Held(None, ONE_SLOT)) == Counters(Capacity(1, None, None), map[]);
  }

  lemma ToReserved() returns (run: seq<Action>)
    ensures Reaches(run, BlockState(Unspawned, []))
  {
    run := ToListed();
    ScanListed(LISTED, 1);
    var s;
    run, s := Then(SETUP, EMPTY, run, LISTED, Dispatcher(Scan(1)));
  }

  lemma ToSpawned() returns (run: seq<Action>)
    ensures Reaches(run, ShimState(Begin, false))
  {
    run := ToReserved();
    var s;
    run, s := Then(SETUP, EMPTY, run, BlockState(Unspawned, []), Dispatcher(SpawnOk(70)));
    assert s.shims == [Shim(0, 70, Begin, false)];
  }

  lemma ToLaunching() returns (run: seq<Action>)
    ensures Reaches(run, ShimState(Launching, false))
  {
    run := ToSpawned();
    var s;
    run, s := Then(SETUP, EMPTY, run, ShimState(Begin, false), ShimActs(0, ReadRow));
    assert s.shims == [Shim(0, 70, Launching, false)];
  }

  lemma ToLaunched() returns (run: seq<Action>)
    ensures Reaches(run, ShimState(Launched(71), true))
  {
    run := ToLaunching();
    var s;
    run, s := Then(SETUP, EMPTY, run, ShimState(Launching, false), ShimActs(0, LaunchOk(71)));
    assert s.shims == [Shim(0, 70, Launched(71), true)];
  }

  lemma Kill(run0: seq<Action>, s0: State) returns (run: seq<Action>)
    requires Reaches(run0, s0) && Live(s0.rows, 0) && s0.rows[0].value.status.Accepted? && s0.kills == []
    ensures Reaches(run, KillSeen(s0))
  {
    var s;
    run, s := Then(SETUP, EMPTY, run0, s0, KillArrives(0));
    assert s.kills == [KillHandler(0, FlagPending)];
    run, s := Then(SETUP, EMPTY, run, s, KillCommitFlag(0, 2));
    assert s.kills == [KillHandler(0, Reread)];
    run, s := Then(SETUP, EMPTY, run, s, KillReadsAgain(0));
    assert s.kills == [KillHandler(0, CancelTask)];
  }

  function Cancelled(s: State): State {
    s.(rows := Commit(s.rows, 0, CancelAccepted, 3), kills := [KillHandler(0, Over)])
  }

  /** The kill handler's second transaction. */
  lemma Cancel(run0: seq<Action>, s0: State) returns (run: seq<Action>)
    requires Reaches(run0, s0) && s0.kills == [KillHandler(0, CancelTask)]
    ensures Reaches(run, Cancelled(s0))
  {
    var s;
    run, s := Then(SETUP, EMPTY, run0, s0, KillCommitCancel(0, 3));
    assert s.kills == [KillHandler(0, Over)];
  }

  // ---- what the excluded races break

  /** Without the exclusion of reservation races a cancelled row ends up holding a reservation. */
  lemma ReserveRaceLeaks() returns (run: seq<Action>)
    ensures Row0(run, (row: Row) => row.status.Cancelled? && row.Active())
  {
    run := ToListed();
    run := Kill(run, LISTED);
    var s;
    run := Cancel(run, KillSeen(LISTED));
    ScanListed(Cancelled(KillSeen(LISTED)), 4);
    run, s := Then(SETUP, EMPTY, run, Cancelled(KillSeen(LISTED)), Dispatcher(Scan(4)));
  }

  /** Without the exclusion of launch races a cancelled row runs again, with no reservation. */
  lemma LaunchRaceRevives() returns (before: seq<Action>, run: seq<Action>)
    ensures before <= run && Row0(before, IsCancelled)
    ensures Row0(run, (row: Row) => row.status.Running? && !row.Active())
  {
    var s;
    run := ToLaunched();
    var launched := ShimState(Launched(71), true);
    run := Kill(run, launched);
    run := Cancel(run, KillSeen(launched));
    before := run;
    run, s := Then(SETUP, EMPTY, run, Cancelled(KillSeen(launched)), ShimActs(0, CommitStarted(4)));
  }

  /** ... and a launch that fails overwrites Cancelled by Failed. */
  lemma LaunchErrorOverwrites() returns (before: seq<Action>, run: seq<Action>)
    ensures before <= run && Row0(before, IsCancelled)
    ensures Row0(run, (row: Row) => row.status.Failed?)
  {
    var s;
    var broken := ShimState(LaunchBroken(SandboxSetupFailed), true);
    run := ToLaunching();
    run, s := Then(SETUP, EMPTY, run, ShimState(Launching, false), ShimActs(0, LaunchError(SandboxSetupFailed, true)));
    assert s.shims == broken.shims;
    run := Kill(run, broken);
    run := Cancel(run, KillSeen(broken));
    before := run;
    run, s := Then(SETUP, EMPTY, run, Cancelled(KillSeen(broken)), ShimActs(0, CommitLaunchError(4)));
  }

  /** ... and a shim that read the flag of a still accepted row moves its finish time. */
  lemma CancelledTwice() returns (before: seq<Action>, run: seq<Action>)
    ensures before <= run && Row0(before, (row: Row) => row.status.Cancelled? && row.finishedAt == Some(3))
    ensures Row0(run, (row: Row) => row.finishedAt == Some(4))
  {
    var s;
    var killed := KillSeen(ShimState(Begin, false));
    run := ToSpawned();
    run := Kill(run, ShimState(Begin, false));
    var pending := killed.(shims := [Shim(0, 70, CancelPending, false)]);
    run, s := Then(SETUP, EMPTY, run, killed, ShimActs(0, ReadRow));
    assert s.shims == pending.shims;
    run := Cancel(run, pending);
    before := run;
    run, s := Then(SETUP, EMPTY, run, Cancelled(pending), ShimActs(0, CommitCancel(4)));
  }

  /** Without the exclusion of spawn-error races Cancelled is overwritten by Failed. */
  lemma SpawnErrorRaceOverwrites() returns (before: seq<Action>, run: seq<Action>)
    ensures before <= run && Row0(before, IsCancelled)
    ensures Row0(run, (row: Row) => row.status.Failed?)
  {
    var s;
    run := ToReserved();
    var failed := BlockState(SpawnFailed, []);
    run, s := Then(SETUP, EMPTY, run, BlockState(Unspawned, []), Dispatcher(SpawnError));
    run := Kill(run, failed);
    run := Cancel(run, KillSeen(failed));
    before := run;
    run, s := Then(SETUP, EMPTY, run, Cancelled(KillSeen(failed)), Dispatcher(CommitSpawnError(4)));
  }

  lemma KilledRowLog()
    ensures LogOk(KilledRunning())
  {
    NewRowLog(PLAIN, 0);
    WriteKeepsLog(WAITING_ROW, Reserve(ONE_SLOT), 1);
    WriteKeepsLog(Reserved0(), RequestKill, 2);
    WriteKeepsLog(Apply(Reserved0(), RequestKill, 2), Dispatched(70), 3);
  }

  function KilledRunning(): Row { Apply(Apply(Reserved0(), RequestKill, 2), Dispatched(70), 3) }

  /** Row 0 marked dispatched between a kill handler's two transactions. */
  function KilledState(): State {
    KillSeen(ShimState(Launched(71), true)).(rows := [Some(KilledRunning())],
      disp := Scanning(Counters(Capacity(1, None, None), map[]), []))
  }

  lemma ToKilledRunning() returns (run: seq<Action>)
    ensures Reaches(run, KilledState())
  {
    var s;
    run := ToLaunched();
    run := Kill(run, ShimState(Launched(71), true));
    run, s := Then(SETUP, EMPTY, run, KillSeen(ShimState(Launched(71), true)), Dispatcher(CommitDispatched(3)));
    assert s.rows == [Some(KilledRunning())];
  }

  lemma MisledLog()
    ensures var row := Apply(KilledRunning(), CancelAccepted, 3);
            row.status.Running? && row.Active() && Replay(row.log) == Some(None)
  {
    KilledRowLog();
    ApplyAppends(KilledRunning(), CancelAccepted, 3);
    ReplayAppended(KilledRunning(), CancelAccepted);
  }

  /** A surplus release: the dispatch commits between the kill handler's two transactions, and
      the log then says the reservation of a row that still holds it was released. */
  lemma SurplusReleaseMisleads() returns (run: seq<Action>)
    ensures Row0(run, (row: Row) => row.status.Running? && row.Active() && Replay(row.log) == Some(None))
  {
    run := ToKilledRunning();
    run := Cancel(run, KilledState());
    MisledLog();
  }

  // ---- restarts

  /** A shim is supervising the running row 0, which recovery will nevertheless fail. */
  predicate DeclaredLost(run: seq<Action>, alive: nat -> bool) {
    var t := Exec(SETUP, EMPTY, run);
    && |t.shims| == 1 && t.shims[0].pc.Supervising? && t.shims[0].task == 0 && alive(t.shims[0].osPid)
    && Live(t.rows, 0) && t.rows[0].value.status.Running?
    && RecoverRow(t.rows[0].value, alive, 9).status.Failed?
  }

  /** The start commits before the dispatch is marked: the row never learns its shim's process
      id, and a later recovery declares the supervised task lost. */
  lemma LiveTaskDeclaredLost(alive: nat -> bool) returns (run: seq<Action>)
    requires alive(70)
    ensures DeclaredLost(run, alive)
  {
    var s;
    run := ToLaunched();
    run, s := Then(SETUP, EMPTY, run, ShimState(Launched(71), true), ShimActs(0, CommitStarted(3)));
    run, s := Then(SETUP, EMPTY, run, s, Dispatcher(CommitDispatched(4)));
  }

  /** A run up to a crash, recovery, and a second run after which two shims have the same row. */
  predicate SpawnsTwice(run: seq<Action>, again: seq<Action>, alive: nat -> bool) {
    var crashed := Exec(SETUP, EMPTY, run);
    var t := Exec(SETUP, Boot(RecoverTable(crashed.rows, alive, 9), crashed.shims), again);
    |t.shims| == 2 && t.shims[0].task == t.shims[1].task && t.shims[0].launched
  }

  function Freed0(): Row { Apply(Reserved0(), Release, 9) }

  const RESTARTED := Boot([Some(Freed0())], [Shim(0, 70, Launched(71), true)])

  lemma SpawnAgain() returns (again: seq<Action>)
    ensures Exec(SETUP, RESTARTED, again).shims == RESTARTED.shims + [Shim(0, 80, Begin, false)]
  {
    var s := RESTARTED;
    NothingHeld(s.rows);
    assert Snapshot(SETUP.ledger, s.rows) == Counters(UNCAPPED, map[]);
    again, s := Then(SETUP, RESTARTED, [], s, Dispatcher(ListActive));
    assert s.rows[..0] == [];
    assert Select(s.rows, IsAccepted) == [Item(0, Freed0())];
    again, s := Then(SETUP, RESTARTED, again, s, Dispatcher(ListAccepted));
    assert Decide(SETUP.ledger, s.disp.counters, Freed0()) == Grant(ONE_SLOT);
    again, s := Then(SETUP, RESTARTED, again, s, Dispatcher(Scan(10)));
    again, s := Then(SETUP, RESTARTED, again, s, Dispatcher(SpawnOk(80)));
  }

  /** A crash between the spawn and its mark: recovery frees the reservation and the next
      dispatcher spawns a second shim for the same row. */
  lemma CrashSpawnsTwice(alive: nat -> bool) returns (run: seq<Action>, again: seq<Action>)
    ensures SpawnsTwice(run, again, alive)
  {
    run := ToLaunched();
    again := SpawnAgain();
    var crashed := ShimState(Launched(71), true);
    assert Boot(RecoverTable(crashed.rows, alive, 9), crashed.shims) == RESTARTED by {
      assert RecoverTable(crashed.rows, alive, 9) == [Some(Freed0())];
    }
  }

  // ---- the side conditions of maximality

  lemma CycleOfTwo(l: ResourceLedger, c: Counters, rows: seq<Slot>, x: Item, y: Item, spawn: nat -> Option<nat>,
                   now: nat)
    ensures Cycle(l, c, rows, [x, y], spawn, now)
         == Handle(l, NextCounters(l, c, x, spawn), Handle(l, c, rows, x, spawn, now), y, spawn, now)
  {
    assert [x, y][1..] == [y] && [y][1..] == [];
    assert Cycle(l, NextCounters(l, c, x, spawn), Handle(l, c, rows, x, spawn, now), [y], spawn, now)
        == Handle(l, NextCounters(l, c, x, spawn), Handle(l, c, rows, x, spawn, now), y, spawn, now);
  }

  const ACME := ResourceLedger(Capacity(4, None, None), map["acme" := Capacity(1, None, None)])
  const ACME_ROW := WAITING_ROW.(tenant := Some("acme"))
  const ACME_ROWS := [Some(ACME_ROW), Some(ACME_ROW)]

  lemma AcmeCounters(spawn: nat -> Option<nat>)
    requires spawn(0).None?
    ensures Snapshot(ACME, ACME_ROWS) == Counters(UNCAPPED, map[])
    ensures Decide(ACME, Snapshot(ACME, ACME_ROWS), ACME_ROW) == Grant(ONE_SLOT)
    ensures Decide(ACME, NextCounters(ACME, Snapshot(ACME, ACME_ROWS), Item(0, ACME_ROW), spawn), ACME_ROW) == SkipIt
  {
    NothingHeld(ACME_ROWS);
    var c := NextCounters(ACME, Snapshot(ACME, ACME_ROWS), Item(0, ACME_ROW), spawn);
    assert c.tenants == map["acme" := Capacity(1, None, None)];
  }

  lemma AcmeCycle(spawn: nat -> Option<nat>)
    requires spawn(0).None?
    ensures DispatchTable(ACME, ACME_ROWS, 4, spawn, 1)
         == [Some(Carried(ACME_ROW, Grant(ONE_SLOT), None, 1)), Some(ACME_ROW)]
  {
    SelectTwo(ACME_ROW, ACME_ROW);
    var c := Snapshot(ACME, ACME_ROWS);
    assert Take(Select(ACME_ROWS, IsAccepted), 4) == [Item(0, ACME_ROW), Item(1, ACME_ROW)];
    CycleOfTwo(ACME, c, ACME_ROWS, Item(0, ACME_ROW), Item(1, ACME_ROW), spawn, 1);
    AcmeCounters(spawn);
    HandleCarries(ACME, c, ACME_ROWS, Item(0, ACME_ROW), spawn, 1);
  }

  /** A failed spawn stays charged to its tenant until the next cycle, so a task that would fit
      the resulting table is left waiting: maximality needs its tenant's spawns to succeed. */
  lemma FailedSpawnBlocksTenant(spawn: nat -> Option<nat>)
    requires spawn(0).None?
    ensures var after := DispatchTable(ACME, ACME_ROWS, 4, spawn, 1);
            after[1] == Some(ACME_ROW) && FitsTable(ACME, after, Held(Some("acme"), ONE_SLOT))
  {
    AcmeCycle(spawn);
    SelectTwo(Carried(ACME_ROW, Grant(ONE_SLOT), None, 1), ACME_ROW);
  }

  /** A flagged accepted row that still holds a reservation frees it when the cycle reaches it,
      after an earlier task was turned away: maximality needs that there is none. */
  lemma LateReleaseLeavesRoom(spawn: nat -> Option<nat>)
    ensures var l := ResourceLedger(Capacity(1, None, None), map[]);
            var held := Apply(Apply(WAITING_ROW, Reserve(ONE_SLOT), 0), RequestKill, 0);
            var after := DispatchTable(l, [Some(WAITING_ROW), Some(held)], 4, spawn, 1);
            after[0] == Some(WAITING_ROW) && FitsTable(l, after, Held(None, ONE_SLOT))
  {
    var l := ResourceLedger(Capacity(1, None, None), map[]);
    var held := Apply(Apply(WAITING_ROW, Reserve(ONE_SLOT), 0), RequestKill, 0);
    var rows := [Some(WAITING_ROW), Some(held)];
    SelectTwo(WAITING_ROW, held);
    var c := Snapshot(l, rows);
    SnapshotTracks(l, rows);
    UsageIsHeldUsage(rows, Everyone, Slots);
    assert Level(c.global, Slots) == Some(1);
    var items := Take(Select(rows, IsAccepted), 4);
    assert items == [Item(0, WAITING_ROW), Item(1, held)];
    CycleOfTwo(l, c, rows, items[0], items[1], spawn, 1);
    assert Decide(l, c, WAITING_ROW) == SkipIt;
    assert Decide(l, c, held) == CancelIt;
    var after := Commit(rows, 1, CancelAccepted, 1);
    assert Handle(l, c, rows, items[0], spawn, 1) == rows && NextCounters(l, c, items[0], spawn) == c;
    assert after == [Some(WAITING_ROW), Some(after[1].value)] && !after[1].value.Active();
    SelectTwo(WAITING_ROW, after[1].value);
  }
}
