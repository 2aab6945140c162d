/** Capacity and tenant quotas are never exceeded, in every interleaving. */
module LedgerSafety {
  import opened Types
  import opened Ledger
  import opened Table
  import opened Dispatch
  import opened Protocol
  import opened SpawnOnce

  function CounterOf(l: ResourceLedger, c: Counters, scope: Scope): Capacity {
    match scope
    case Everyone => c.global
    case Tenant(t) => TenantCounter(l, c.tenants, Some(t))
  }

  function Owed(tenant: Option<string>, r: Reservation, scope: Scope, d: Dim): nat {
    if InScope(tenant, scope) then Amount(r, d) else 0
  }

  /** Exact use, excluding the row in the dispatcher's block, which is counted at full charge. */
  function Committed(s: State, scope: Scope, d: Dim): nat {
    match s.disp
    case InBlock(_, item, r, _, _) =>
      Usage(if item.id < |s.rows| then s.rows[item.id := None] else s.rows, scope, d)
      + Owed(item.row.tenant, r, scope, d)
    case _ => Usage(s.rows, scope, d)
  }

  /** table <= dispatcher's counter <= limit, in one dimension of one capped scope. */
  predicate ScopeOk(c: Config, s: State, scope: Scope, d: Dim)
    requires LimitOf(c.ledger, scope, d).Some?
  {
    var limit := LimitOf(c.ledger, scope, d).value;
    if s.disp.Idle? then Committed(s, scope, d) <= limit
    else
      var level := Level(CounterOf(c.ledger, s.disp.counters, scope), d);
      level.Some? && Committed(s, scope, d) <= level.value <= limit
  }

  /** A limit that saturating counters can enforce. */
  predicate Capped(l: ResourceLedger, scope: Scope, d: Dim) {
    LimitOf(l, scope, d).Some? && LimitOf(l, scope, d).value < U64_MAX
  }

  /** The table's active reservations respect every limit. */
  ghost predicate WithinLimits(c: Config, rows: seq<Slot>) {
    forall scope, d :: LimitOf(c.ledger, scope, d).Some? ==> Usage(rows, scope, d) <= LimitOf(c.ledger, scope, d).value
  }

  // ---- what the dispatcher knows of its rows, whichever shims there are

  predicate DispatchInv(s: State) {
    DispatcherOk(s.(shims := []))
  }

  lemma OthersKeepDispatchInv(c: Config, s: State, a: Action)
    requires DispatchInv(s) && !a.Dispatcher?
    ensures DispatchInv(Step(c, s, a))
  {
    var t := Step(c, s, a);
    OthersAreQuiet(c, s, a);
    match s.disp
    case Scanning(_, queue) => QuietKeepsQueue(s.rows, t.rows, [], [], queue);
    case InBlock(_, item, r, stage, queue) =>
      QuietKeepsQueue(s.rows, t.rows, [], [], queue);
      QuietKeepsBlock(s.rows, t.rows, [], [], item, r, stage, queue);
    case _ =>
  }

  /** The dispatcher reads no shim. */
  lemma DispatchIgnoresShims(c: Config, s: State, a: DispatchAction)
    ensures var t, bare := DispatchStep(c, s, a), DispatchStep(c, s.(shims := []), a);
            t.rows == bare.rows && t.disp == bare.disp
  {
  }

  lemma FewerShims(s: State)
    requires SpawnInv(s)
    ensures DispatchInv(s)
  {
  }

  lemma SameForDispatch(s: State, t: State)
    requires DispatchInv(s) && t.rows == s.rows && t.disp == s.disp
    ensures DispatchInv(t)
  {
  }

  lemma StepKeepsDispatchInv(c: Config, s: State, a: Action)
    requires DispatchInv(s)
    ensures DispatchInv(Step(c, s, a))
  {
    if a.Dispatcher? {
      var bare := DispatchStep(c, s.(shims := []), a.d);
      DispatcherKeepsSpawnInv(c, s.(shims := []), a.d);
      FewerShims(bare);
      DispatchIgnoresShims(c, s, a.d);
      SameForDispatch(bare, Step(c, s, a));
    } else {
      OthersKeepDispatchInv(c, s, a);
    }
  }

  lemma {:induction false} RunKeepsDispatchInv(c: Config, s: State, run: seq<Action>)
    requires DispatchInv(s)
    ensures DispatchInv(Exec(c, s, run))
    decreases |run|
  {
    if run != [] {
      StepKeepsDispatchInv(c, s, run[0]);
      RunKeepsDispatchInv(c, Step(c, s, run[0]), run[1..]);
    }
  }

  lemma BlockCoversUsage(s: State, scope: Scope, d: Dim)
    requires DispatchInv(s)
    ensures Usage(s.rows, scope, d) <= Committed(s, scope, d)
  {
    if s.disp.InBlock? {
      UsageUpdate(s.rows, s.disp.item.id, None, scope, d);
    }
  }

  lemma OthersKeepScope(c: Config, s: State, a: Action, scope: Scope, d: Dim)
    requires DispatchInv(s) && !a.Dispatcher?
    requires Capped(c.ledger, scope, d) && ScopeOk(c, s, scope, d)
    ensures ScopeOk(c, Step(c, s, a), scope, d)
  {
    OthersAreQuiet(c, s, a);
    var t := Step(c, s, a);
    if s.disp.InBlock? {
      var id := s.disp.item.id;
      assert QuietTable(s.rows[id := None], t.rows[id := None]);
      QuietUsage(s.rows[id := None], t.rows[id := None], scope, d);
    } else {
      QuietUsage(s.rows, t.rows, scope, d);
    }
  }

  lemma SnapshotLevel(l: ResourceLedger, rows: seq<Slot>, scope: Scope, d: Dim)
    requires Capped(l, scope, d)
    ensures Level(CounterOf(l, Snapshot(l, rows), scope), d) == Some(Sat(Usage(rows, scope, d)))
  {
    SnapshotTracks(l, rows);
    UsageIsHeldUsage(rows, scope, d);
    match scope
    case Everyone => assert Enforced(l.capacity, d);
    case Tenant(t) => assert Enforced(l.tenantQuotas[t], d);
  }

  lemma SnapshotScope(c: Config, s: State, scope: Scope, d: Dim)
    requires Capped(c.ledger, scope, d) && ScopeOk(c, s, scope, d)
    ensures ScopeOk(c, DispatchStep(c, s, ListActive), scope, d)
  {
    if s.disp.Idle? { SnapshotLevel(c.ledger, s.rows, scope, d); }
  }

  /** A granted reservation raises the counter by what it owes and keeps it within the limit. */
  lemma GrantScope(l: ResourceLedger, c: Counters, row: Row, scope: Scope, d: Dim)
    requires Capped(l, scope, d)
    requires Decide(l, c, row).Grant?
    requires var level := Level(CounterOf(l, c, scope), d);
             level.Some? && level.value <= LimitOf(l, scope, d).value
    ensures var r := Wanted(row);
            var level := Level(CounterOf(l, Charge(l, c, Held(row.tenant, r)), scope), d);
            && level == Some(Level(CounterOf(l, c, scope), d).value + Owed(row.tenant, r, scope, d))
            && level.value <= LimitOf(l, scope, d).value
  {
  }

  lemma ScanKeepsScope(c: Config, s: State, now: nat, scope: Scope, d: Dim)
    requires DispatchInv(s) && s.disp.Scanning? && s.disp.queue != []
    requires Capped(c.ledger, scope, d) && ScopeOk(c, s, scope, d)
    ensures ScopeOk(c, ScanStep(c, s, now), scope, d)
  {
    var item := s.disp.queue[0];
    match Decide(c.ledger, s.disp.counters, item.row)
    case SkipIt =>
    case CancelIt =>
      CommitIsForward(s.rows, item.id, CancelAccepted, now);
      QuietUsage(s.rows, Commit(s.rows, item.id, CancelAccepted, now), scope, d);
    case Grant(r) =>
      if Live(s.rows, item.id) {
        GrantScope(c.ledger, s.disp.counters, item.row, scope, d);
        UsageUpdate(s.rows, item.id, None, scope, d);
        assert Commit(s.rows, item.id, Reserve(r), now)[item.id := None] == s.rows[item.id := None];
      }
  }

  lemma RefundScope(c: Counters, r: Reservation, d: Dim)
    requires Level(c.global, d).Some? && Level(c.global, d).value >= Amount(r, d)
    ensures Level(Refund(c, r).global, d) == Some(Level(c.global, d).value - Amount(r, d))
  {
  }

  lemma DispatchedKeepsScope(c: Config, s: State, now: nat, scope: Scope, d: Dim)
    requires DispatchInv(s) && s.disp.InBlock? && s.disp.stage.Spawned?
    requires Capped(c.ledger, scope, d) && ScopeOk(c, s, scope, d)
    ensures ScopeOk(c, DispatchStep(c, s, CommitDispatched(now)), scope, d)
  {
    var id := s.disp.item.id;
    BlockCoversUsage(s, scope, d);
    CommitIsForward(s.rows, id, Dispatched(s.disp.stage.shimPid), now);
    QuietUsage(s.rows, Commit(s.rows, id, Dispatched(s.disp.stage.shimPid), now), scope, d);
  }

  /** After a failed spawn the row holds nothing, so the table alone is what was committed less
      what the row in the block owed. */
  lemma SpawnErrorFrees(s: State, now: nat, scope: Scope, d: Dim)
    requires s.disp.InBlock? && Live(s.rows, s.disp.item.id)
    ensures Usage(Commit(s.rows, s.disp.item.id, Complete(LaunchFailure(now)), now), scope, d)
          + Owed(s.disp.item.row.tenant, s.disp.r, scope, d) == Committed(s, scope, d)
  {
    var id := s.disp.item.id;
    var after := Commit(s.rows, id, Complete(LaunchFailure(now)), now);
    assert Share(after[id], scope, d) == 0;
    assert after[id := None] == s.rows[id := None];
    UsageUpdate(after, id, None, scope, d);
  }

  /** ... and the refunded counter still covers the table. */
  lemma SpawnErrorKeepsScope(c: Config, s: State, now: nat, scope: Scope, d: Dim)
    requires DispatchInv(s) && s.disp.InBlock? && s.disp.stage.SpawnFailed?
    requires Capped(c.ledger, scope, d) && ScopeOk(c, s, scope, d)
    ensures ScopeOk(c, DispatchStep(c, s, CommitSpawnError(now)), scope, d)
  {
    if Live(s.rows, s.disp.item.id) {
      SpawnErrorFrees(s, now, scope, d);
      if scope.Everyone? { RefundScope(s.disp.counters, s.disp.r, d); }
    } else {
      BlockCoversUsage(s, scope, d);
    }
  }

  lemma DispatcherKeepsScope(c: Config, s: State, a: DispatchAction, scope: Scope, d: Dim)
    requires DispatchInv(s)
    requires Capped(c.ledger, scope, d) && ScopeOk(c, s, scope, d)
    ensures ScopeOk(c, DispatchStep(c, s, a), scope, d)
  {
    match a
    case ListActive => if s.disp.Idle? { SnapshotScope(c, s, scope, d); }
    case Scan(now) => if s.disp.Scanning? && s.disp.queue != [] { ScanKeepsScope(c, s, now, scope, d); }
    case CommitDispatched(now) =>
      if s.disp.InBlock? && s.disp.stage.Spawned? { DispatchedKeepsScope(c, s, now, scope, d); }
    case CommitSpawnError(now) =>
      if s.disp.InBlock? && s.disp.stage.SpawnFailed? { SpawnErrorKeepsScope(c, s, now, scope, d); }
    case AbortCycle => BlockCoversUsage(s, scope, d);
    case _ =>
  }

  /** table <= counter <= limit is kept by every step, scope by scope and dimension by dimension. */
  lemma StepKeepsBound(c: Config, s: State, a: Action, scope: Scope, d: Dim)
    requires DispatchInv(s) && Capped(c.ledger, scope, d) && ScopeOk(c, s, scope, d)
    ensures ScopeOk(c, Step(c, s, a), scope, d)
  {
    if a.Dispatcher? {
      DispatcherKeepsScope(c, s, a.d, scope, d);
    } else {
      OthersKeepScope(c, s, a, scope, d);
    }
  }

  lemma {:induction false} RunKeepsBound(c: Config, s: State, run: seq<Action>, scope: Scope, d: Dim)
    requires DispatchInv(s) && Capped(c.ledger, scope, d) && ScopeOk(c, s, scope, d)
    ensures DispatchInv(Exec(c, s, run)) && ScopeOk(c, Exec(c, s, run), scope, d)
    decreases |run|
  {
    if run != [] {
      StepKeepsDispatchInv(c, s, run[0]);
      StepKeepsBound(c, s, run[0], scope, d);
      RunKeepsBound(c, Step(c, s, run[0]), run[1..], scope, d);
    }
  }

  /** Ledger safety, for capacity and for each configured tenant, in each dimension with a limit
      below 2^64 - 1, whatever the other limits are: from any table within that limit and any
      set of surviving shims, every reachable table is within it, races included. */
  lemma LedgerIsSafe(c: Config, s: State, run: seq<Action>, scope: Scope, d: Dim)
    requires s.disp.Idle?
    requires Capped(c.ledger, scope, d) && Usage(s.rows, scope, d) <= LimitOf(c.ledger, scope, d).value
    ensures Usage(Exec(c, s, run).rows, scope, d) <= LimitOf(c.ledger, scope, d).value
  {
    RunKeepsBound(c, s, run, scope, d);
    BlockCoversUsage(Exec(c, s, run), scope, d);
  }
}
