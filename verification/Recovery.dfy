/** Start-up recovery (src/runtime.rs:482-526) with no shim acting during it. */
module Recovery {
  import opened Types
  import opened Table
  import opened Dispatch
  import opened Repository
  import opened Protocol
  import opened SpawnOnce
  import opened LedgerSafety
  import opened Lifecycle
  import opened AuditLog

  function RecoveryLost(now: nat): CompletionUpdate {
    CompletionUpdate(Failed, now, Some(0), None, None, Some(Internal))
  }

  predicate ShimAlive(row: Row, alive: nat -> bool) {
    row.shimPid.Some? && alive(row.shimPid.value)
  }

  /** One non-terminal row; `alive` answers whether a process id exists. */
  function RecoverRow(row: Row, alive: nat -> bool, now: nat): Row {
    match row.status
    case Accepted => Apply(row, Release, now)
    case Running =>
      if ShimAlive(row, alive) then
        Apply(if row.Active() then row else Apply(row, Reserve(FromLimits(row.limits)), now), MarkRecovered, now)
      else Apply(row, Complete(RecoveryLost(now)), now)
    case _ => row
  }

  function RecoverSlot(slot: Slot, alive: nat -> bool, now: nat): Slot {
    match slot
    case None => None
    case Some(row) => Some(RecoverRow(row, alive, now))
  }

  function RecoverTable(rows: seq<Slot>, alive: nat -> bool, now: nat): (after: seq<Slot>)
    ensures |after| == |rows|
    ensures forall i :: 0 <= i < |rows| ==> after[i] == RecoverSlot(rows[i], alive, now)
  {
    seq(|rows|, i requires 0 <= i < |rows| => RecoverSlot(rows[i], alive, now))
  }

  /** The recovery loop over a listing of the non-terminal rows. */
  method Recover(repo: Repository, alive: nat -> bool, now: nat)
    modifies repo
    ensures repo.tasks == RecoverTable(old(repo.tasks), alive, now)
  {
    var items := repo.ListWhere(IsNonTerminal);
    ghost var before := repo.tasks;
    ghost var f := (j: nat, slot: Slot) => RecoverSlot(slot, alive, now);
    MappedFirst(before, IsNonTerminal, f);
    for i := 0 to |items|
      invariant MappedUpTo(before, repo.tasks, Bound(before, items, i), f)
    {
      MappedNext(before, repo.tasks, IsNonTerminal, f, i);
      RecoverOne(repo, items[i], alive, now);
    }
  }

  method RecoverOne(repo: Repository, item: Item, alive: nat -> bool, now: nat)
    requires Live(repo.tasks, item.id) && repo.tasks[item.id].value == item.row
    modifies repo
    ensures repo.tasks == old(repo.tasks)[item.id := Some(RecoverRow(item.row, alive, now))]
  {
    var id, task := item.id, item.row;
    match task.status {
      case Accepted =>
        if task.Active() {
          repo.ReleaseResources(id, now);
        }
      case Running =>
        if task.shimPid.Some? && alive(task.shimPid.value) {
          if !task.Active() {
            var _ := repo.ReserveResources(id, FromLimits(task.limits), now);
          }
          var _ := repo.MarkRecoveredTask(id, now);
        } else {
          var _ := repo.CompleteTask(id, RecoveryLost(now));
        }
      case _ =>
    }
  }

  // ---- what recovery establishes

  /** Afterwards no accepted row holds a reservation, every running row has a live recorded shim
      and a reservation, and finished rows are untouched. */
  lemma RecoveryEstablishes(rows: seq<Slot>, alive: nat -> bool, now: nat, id: nat)
    requires id < |rows|
    ensures var after := RecoverTable(rows, alive, now)[id];
            && (after.Some? <==> rows[id].Some?)
            && (after.Some? ==>
                  && (after.value.status.Accepted? ==> rows[id].value.status.Accepted? && !after.value.Active())
                  && (after.value.status.Running? ==> ShimAlive(after.value, alive) && after.value.Active())
                  && (rows[id].value.status.IsTerminal() ==> after == rows[id])
                  && (after.value.status.Failed? && !rows[id].value.status.IsTerminal() ==>
                        rows[id].value.status.Running? && !ShimAlive(rows[id].value, alive)
                        && !after.value.Active() && after.value.error == Some(Internal)))
  {
  }

  /** Equal but for the update time and further Recovered events. */
  predicate SameButTouched(o: Slot, n: Slot) {
    match (o, n)
    case (None, None) => true
    case (Some(before), Some(after)) =>
      && after == before.(updatedAt := after.updatedAt, log := after.log)
      && (after.log == before.log || after.log == before.log + [RecoveredEvent])
      && (!before.status.Running? ==> after == before)
    case _ => false
  }

  /** A second recovery against the same processes only touches update times and adds events. */
  lemma RecoveryIsIdempotent(rows: seq<Slot>, alive: nat -> bool, now: nat, later: nat, id: nat)
    requires id < |rows|
    ensures SameButTouched(RecoverTable(rows, alive, now)[id],
                           RecoverTable(RecoverTable(rows, alive, now), alive, later)[id])
  {
    if rows[id].Some? {
      var once := RecoverRow(rows[id].value, alive, now);
      assert once.status.Running? ==> ShimAlive(once, alive) && once.Active();
    }
  }

  // ---- the capacity bound

  /** Every running row whose recorded shim is alive already held a reservation. */
  predicate SurvivorsHold(rows: seq<Slot>, alive: nat -> bool) {
    forall i :: 0 <= i < |rows| && rows[i].Some? && rows[i].value.status.Running? && ShimAlive(rows[i].value, alive)
      ==> rows[i].value.Active()
  }

  lemma RecoveryShare(slot: Slot, alive: nat -> bool, now: nat, scope: Scope, d: Dim)
    requires slot.Some? && slot.value.status.Running? && ShimAlive(slot.value, alive) ==> slot.value.Active()
    ensures Share(RecoverSlot(slot, alive, now), scope, d) <= Share(slot, scope, d)
  {
  }

  lemma {:induction false} RecoveryUsage(rows: seq<Slot>, alive: nat -> bool, now: nat, scope: Scope, d: Dim)
    requires SurvivorsHold(rows, alive)
    ensures Usage(RecoverTable(rows, alive, now), scope, d) <= Usage(rows, scope, d)
  {
    if rows != [] {
      var n := |rows| - 1;
      assert SurvivorsHold(rows[..n], alive);
      RecoveryUsage(rows[..n], alive, now, scope, d);
      assert RecoverTable(rows, alive, now)[..n] == RecoverTable(rows[..n], alive, now);
      RecoveryShare(rows[n], alive, now, scope, d);
    }
  }

  lemma RecoveryKeepsLimits(c: Config, rows: seq<Slot>, alive: nat -> bool, now: nat)
    requires WithinLimits(c, rows) && SurvivorsHold(rows, alive)
    ensures WithinLimits(c, RecoverTable(rows, alive, now))
  {
    forall scope, d | LimitOf(c.ledger, scope, d).Some?
      ensures Usage(RecoverTable(rows, alive, now), scope, d) <= LimitOf(c.ledger, scope, d).value
    {
      RecoveryUsage(rows, alive, now, scope, d);
    }
  }

  /** What recovery leaves reserved, row by row: the held or reconstructed reservation of each
      running survivor, and whatever finished rows still held. */
  function Surviving(slot: Slot, alive: nat -> bool, scope: Scope, d: Dim): nat {
    if slot.None? || !InScope(slot.value.tenant, scope) then 0
    else
      var row := slot.value;
      if row.status.Running? && ShimAlive(row, alive) then
        Amount(if row.Active() then row.reservation.value else FromLimits(row.limits), d)
      else if row.status.IsTerminal() && row.Active() then Amount(row.reservation.value, d)
      else 0
  }

  function SurvivingUsage(rows: seq<Slot>, alive: nat -> bool, scope: Scope, d: Dim): nat {
    if rows == [] then 0
    else SurvivingUsage(rows[..|rows| - 1], alive, scope, d) + Surviving(rows[|rows| - 1], alive, scope, d)
  }

  lemma {:induction false} RecoveryUsageIsExact(rows: seq<Slot>, alive: nat -> bool, now: nat, scope: Scope, d: Dim)
    ensures Usage(RecoverTable(rows, alive, now), scope, d) == SurvivingUsage(rows, alive, scope, d)
  {
    if rows != [] {
      var n := |rows| - 1;
      RecoveryUsageIsExact(rows[..n], alive, now, scope, d);
      assert RecoverTable(rows, alive, now)[..n] == RecoverTable(rows[..n], alive, now);
      SurvivingShare(rows[n], alive, now, scope, d);
    }
  }

  lemma LiveShare(row: Row, alive: nat -> bool, now: nat, scope: Scope, d: Dim)
    requires row.status.Running? && ShimAlive(row, alive)
    ensures Share(Some(RecoverRow(row, alive, now)), scope, d) == Surviving(Some(row), alive, scope, d)
  {
  }

  lemma OtherShare(row: Row, alive: nat -> bool, now: nat, scope: Scope, d: Dim)
    requires !(row.status.Running? && ShimAlive(row, alive))
    ensures Share(Some(RecoverRow(row, alive, now)), scope, d) == Surviving(Some(row), alive, scope, d)
  {
  }

  lemma SurvivingShare(slot: Slot, alive: nat -> bool, now: nat, scope: Scope, d: Dim)
    ensures Share(RecoverSlot(slot, alive, now), scope, d) == Surviving(slot, alive, scope, d)
  {
    match slot
    case None =>
    case Some(row) =>
      if row.status.Running? && ShimAlive(row, alive) {
        LiveShare(row, alive, now, scope, d);
      } else {
        OtherShare(row, alive, now, scope, d);
      }
  }

  /** The limits hold after recovery exactly when they hold of the survivors' reservations. */
  lemma RecoveryLimitsExactly(c: Config, rows: seq<Slot>, alive: nat -> bool, now: nat)
    ensures WithinLimits(c, RecoverTable(rows, alive, now)) <==>
      forall scope, d :: LimitOf(c.ledger, scope, d).Some? ==>
        SurvivingUsage(rows, alive, scope, d) <= LimitOf(c.ledger, scope, d).value
  {
    forall scope, d ensures Usage(RecoverTable(rows, alive, now), scope, d) == SurvivingUsage(rows, alive, scope, d) {
      RecoveryUsageIsExact(rows, alive, now, scope, d);
    }
  }

  // ---- a recovered table starts a new lifetime

  /** The state in which a server begins to serve: recovery done, `shims` the surviving processes. */
  function Boot(rows: seq<Slot>, shims: seq<Shim>): State {
    State(rows, Idle, shims, [], [], [], {})
  }

  /** A surviving shim with which the lifecycle can go on: its row is waiting only if the shim is
      gone and the row flagged, running with a live recorded process unless the shim is gone or has
      not read it yet, and finished only if the shim has nothing more to write, or a kill did it. */
  predicate SurvivorOk(rows: seq<Slot>, shim: Shim, alive: nat -> bool) {
    && shim.task < |rows|
    && (rows[shim.task].Some? ==>
          var row := rows[shim.task].value;
          match row.status
          case Accepted => shim.pc.Gone? && row.killRequested
          case Running => shim.pc.Gone? || shim.pc.Begin? || ShimAlive(row, alive)
          case _ => shim.pc.Gone? || shim.pc.Begin? || (!shim.pc.Supervising? && !shim.pc.Exited? && Killed(row)))
  }

  predicate FinishedHoldNothing(rows: seq<Slot>) {
    forall i :: 0 <= i < |rows| && rows[i].Some? && rows[i].value.status.IsTerminal() ==> !rows[i].value.Active()
  }

  lemma SurvivorAfter(rows: seq<Slot>, shim: Shim, alive: nat -> bool, now: nat)
    ensures var after := RecoverTable(rows, alive, now);
            Taken(after, shim.task) && ShimRowOk(after, shim) <==> SurvivorOk(rows, shim, alive)
  {
    if shim.task < |rows| { RecoveryEstablishes(rows, alive, now, shim.task); }
  }

  lemma RowAfter(rows: seq<Slot>, shims: seq<Shim>, alive: nat -> bool, now: nat, id: nat)
    requires id < |rows|
    ensures var s := Boot(RecoverTable(rows, alive, now), shims);
            RowOk(s.rows[id]) && HolderOk(s, id) <==>
              (Live(rows, id) && rows[id].value.status.IsTerminal() ==> !rows[id].value.Active())
  {
    RecoveryEstablishes(rows, alive, now, id);
  }

  /** Recovery of any table, with any survivors caught anywhere, establishes the lifecycle
      invariant exactly when no finished row holds a reservation, the survivors have distinct
      rows, and the lifecycle can go on with each of them. */
  lemma {:induction false} RecoveryBoots(rows: seq<Slot>, shims: seq<Shim>, alive: nat -> bool, now: nat)
    ensures var s := Boot(RecoverTable(rows, alive, now), shims);
            SpawnInv(s) && LifeInv(s) <==>
              && FinishedHoldNothing(rows)
              && (forall i, j :: 0 <= i < j < |shims| ==> shims[i].task != shims[j].task)
              && (forall k :: 0 <= k < |shims| ==> SurvivorOk(rows, shims[k], alive))
  {
    var s := Boot(RecoverTable(rows, alive, now), shims);
    forall i: nat | i < |rows|
      ensures RowOk(s.rows[i]) && HolderOk(s, i) <==>
        (Live(rows, i) && rows[i].value.status.IsTerminal() ==> !rows[i].value.Active())
    {
      RowAfter(rows, shims, alive, now, i);
    }
    forall k | 0 <= k < |shims|
      ensures Taken(s.rows, shims[k].task) && ShimRowOk(s.rows, shims[k]) <==> SurvivorOk(rows, shims[k], alive)
    {
      SurvivorAfter(rows, shims[k], alive, now);
    }
  }

  /** Recovery keeps logs and rows in agreement. */
  lemma RecoveryKeepsLogs(rows: seq<Slot>, alive: nat -> bool, now: nat)
    requires LogsOk(rows)
    ensures LogsOk(RecoverTable(rows, alive, now))
  {
    forall i | 0 <= i < |rows| && rows[i].Some? ensures LogOk(RecoverRow(rows[i].value, alive, now)) {
      var row := rows[i].value;
      WriteKeepsLog(row, Release, now);
      WriteKeepsLog(row, Complete(RecoveryLost(now)), now);
      if row.status.Running? && ShimAlive(row, alive) {
        if row.Active() {
          WriteKeepsLog(row, MarkRecovered, now);
        } else {
          WriteKeepsLog(row, Reserve(FromLimits(row.limits)), now);
          WriteKeepsLog(Apply(row, Reserve(FromLimits(row.limits)), now), MarkRecovered, now);
        }
      }
    }
  }
}
