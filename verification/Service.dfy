/** The service's own loops over the repository (src/runtime.rs). */
module Service {
  import opened Types
  import opened Ledger
  import opened Table
  import opened Repository
  import opened Dispatch
  import opened Drain
  import opened Policy
  import opened Resources

  datatype TaskRequest = TaskRequest(name: string, tenant: Option<string>, plan: PlanRequest)

  datatype SubmitError =
    | Invalid | Unsupported(lacking: Shortfall) | InsufficientResources(d: Dim)
    | QueueFull | FilesFailed | NameConflict

  /** What submission inserts once the plan is resolved. */
  function Accepting(request: TaskRequest, degraded: bool): Submission {
    Submission(request.name, request.tenant, request.plan.limits, degraded)
  }

  /** The row a kill of a task leaves when nothing else runs. */
  function KilledRow(row: Row, now: nat): Row {
    if row.status.IsTerminal() then row
    else if row.status.Accepted? then Apply(Apply(row, RequestKill, now), CancelAccepted, now)
    else Apply(row, RequestKill, now)
  }

  datatype KillOutcome = NoSuchTask | Denied | AlreadyFinished | CancelledAtOnce | Signalled

  /** What a kill of the row found in `slot` comes to. */
  function KillOutcomeOf(slot: Slot, permitted: Row -> bool): KillOutcome {
    if slot.None? then NoSuchTask
    else if !permitted(slot.value) then Denied
    else if slot.value.status.IsTerminal() then AlreadyFinished
    else if slot.value.status.Accepted? then CancelledAtOnce
    else Signalled
  }

  /** Finished at or before the cutoff. */
  predicate Expired(row: Row, cutoff: nat) {
    row.status.IsTerminal() && row.finishedAt.Some? && row.finishedAt.value <= cutoff
  }

  function Collected(id: nat, slot: Slot, cutoff: nat, removable: nat -> bool): Slot {
    if slot.Some? && Expired(slot.value, cutoff) && removable(id) then None else slot
  }

  class RuntimeService {
    const ledger: ResourceLedger
    const maxQueued: nat
    const repo: Repository

    constructor (ledger: ResourceLedger, maxQueued: nat, repo: Repository)
      ensures this.ledger == ledger && this.maxQueued == maxQueued && this.repo == repo
    {
      this.ledger := ledger;
      this.maxQueued := maxQueued;
      this.repo := repo;
    }

    /** One dispatch cycle with nothing else running. */
    method DispatchOnceSync(spawn: nat -> Option<nat>, now: nat)
      modifies repo
      ensures repo.tasks == DispatchTable(ledger, old(repo.tasks), maxQueued, spawn, now)
    {
      var held := repo.ListActiveReservations();
      var current := ledger.ReservedCapacity(Scoped(held, Everyone));
      var tenants := AggregateTenants(held);
      var items := repo.ListAccepted(maxQueued);
      ghost var goal := DispatchTable(ledger, repo.tasks, maxQueued, spawn, now);
      ghost var size := |repo.tasks|;
      for i := 0 to |items|
        invariant |repo.tasks| == size
        invariant Cycle(ledger, Counters(current, tenants), repo.tasks, items[i..], spawn, now) == goal
      {
        assert items[i..][0] == items[i] && items[i..][1..] == items[i + 1..];
        current, tenants := HandleListed(current, tenants, items[i], spawn, now);
      }
      assert items[|items|..] == [];
    }

    /** The body of the dispatch loop for one listed row. */
    method HandleListed(current: Capacity, tenants: map<string, Capacity>, item: Item, spawn: nat -> Option<nat>,
                        now: nat)
      returns (current': Capacity, tenants': map<string, Capacity>)
      modifies repo
      ensures repo.tasks == Handle(ledger, Counters(current, tenants), old(repo.tasks), item, spawn, now)
      ensures Counters(current', tenants') == NextCounters(ledger, Counters(current, tenants), item, spawn)
    {
      var id, row := item.id, item.row;
      current', tenants' := current, tenants;
      if row.killRequested {
        var _ := repo.CancelAcceptedTask(id, now);
        return;
      }
      if row.Active() {
        return;
      }
      var reservation := if row.reservation.Some? then row.reservation.value else FromLimits(row.limits);
      if !ledger.CanReserve(current, reservation) {
        return;
      }
      var counter := if row.tenant.Some? && row.tenant.value in tenants then tenants[row.tenant.value]
                     else EmptyTenant(ledger, row.tenant);
      if !ledger.CanReserveForTenant(row.tenant, counter, reservation) {
        return;
      }
      var _ := repo.ReserveResources(id, reservation, now);
      current' := AddReservation(current', reservation);
      if row.tenant.Some? {
        tenants' := tenants'[row.tenant.value := AddReservation(counter, reservation)];
      }
      var spawned := spawn(id);
      if spawned.Some? {
        repo.MarkDispatched(id, spawned.value, now);
      } else {
        var _ := repo.CompleteTask(id, LaunchFailure(now));
        current' := SubtractReservation(current', reservation);
      }
    }

    method AggregateTenants(held: seq<Held>) returns (tenants: map<string, Capacity>)
      ensures tenants == TenantCounters(ledger, held)
    {
      tenants := map[];
      for i := 0 to |held|
        invariant tenants == TenantCounters(ledger, held[..i])
      {
        assert held[..i + 1][..i] == held[..i];
        if held[i].tenant.Some? {
          var t := held[i].tenant.value;
          var entry := if t in tenants then tenants[t] else EmptyTenant(ledger, Some(t));
          tenants := tenants[t := AddReservation(entry, held[i].r)];
        }
      }
      assert held[..|held|] == held;
    }

    /** Submission with nothing else running; `valid` is the outcome of field validation, `filed`
        tells whether the task directory could be written. The first failing check is reported. */
    method SubmitTask(request: TaskRequest, caps: Capabilities, defaultMode: CapabilityMode, valid: bool, filed: bool,
                      now: nat)
      returns (r: Result<nat, SubmitError>)
      modifies repo
      ensures r.Ok? <==>
        && valid && Negotiated(request.plan, caps, defaultMode).Ok?
        && Admitted(ledger, request.tenant, request.plan.limits)
        && AcceptedCount(old(repo.tasks)) < maxQueued
        && filed && !NameTaken(old(repo.tasks), request.name)
      ensures r.Ok? ==>
        && r.value == |old(repo.tasks)|
        && repo.tasks == old(repo.tasks)
             + [Some(NewRow(Accepting(request, Negotiated(request.plan, caps, defaultMode).value.degraded), now))]
      ensures r.Ok? ==>
        && |repo.tasks| == |old(repo.tasks)| + 1 && repo.tasks[..|old(repo.tasks)|] == old(repo.tasks)
        && repo.tasks[r.value].Some?
        && var row := repo.tasks[r.value].value;
           && row.name == request.name && row.tenant == request.tenant && row.limits == request.plan.limits
           && row.degraded == Negotiated(request.plan, caps, defaultMode).value.degraded
           && row.status.Accepted? && row.reservation.None? && row.releasedAt.None?
           && !row.killRequested && !row.timeoutTriggered && row.shimPid.None? && row.pid.None?
           && row.startedAt.None? && row.finishedAt.None? && row.error.None? && row.updatedAt == now
      ensures r.Err? ==> repo.tasks == old(repo.tasks)
      ensures r.Err? ==>
        var plan := Negotiated(request.plan, caps, defaultMode);
        var admitted := Admitted(ledger, request.tenant, request.plan.limits);
        var full := AcceptedCount(old(repo.tasks)) >= maxQueued;
        match r.error
        case Invalid => !valid
        case Unsupported(lacking) => valid && plan == Err(lacking)
        case InsufficientResources(d) =>
          && valid && plan.Ok? && !admitted
          && var asked, quota := FromLimits(request.plan.limits), ledger.QuotaOf(request.tenant);
             if Within(ledger.capacity, asked).Err? then Within(ledger.capacity, asked) == Err(d)
             else quota.Some? && Within(quota.value, asked) == Err(d)
        case QueueFull => valid && plan.Ok? && admitted && full
        case FilesFailed => valid && plan.Ok? && admitted && !full && !filed
        case NameConflict => valid && plan.Ok? && admitted && !full && filed && NameTaken(old(repo.tasks), request.name)
    {
      if !valid {
        return Err(Invalid);
      }
      var plan := ResolveExecutionPlan(request.plan, caps, defaultMode);
      if plan.Err? {
        return Err(Unsupported(plan.error));
      }
      var reservation := FromLimits(request.plan.limits);
      var within := ledger.EnsureWithinCapacity(reservation);
      if within.Err? {
        return Err(InsufficientResources(within.error));
      }
      within := ledger.EnsureWithinTenantQuota(request.tenant, reservation);
      if within.Err? {
        return Err(InsufficientResources(within.error));
      }
      var count := repo.CountAccepted();
      if count >= maxQueued {
        return Err(QueueFull);
      }
      if !filed {
        return Err(FilesFailed);
      }
      var inserted := repo.InsertTask(Accepting(request, plan.value.degraded), now);
      match inserted {
        case Ok(id) => r := Ok(id);
        case Err(_) => r := Err(NameConflict);
      }
    }

    /** A kill with nothing else running; `permitted(row)` is the outcome of the owner check. A
        running workload is left to the signals and to its shim. */
    method KillTask(id: nat, permitted: Row -> bool, now: nat) returns (r: KillOutcome)
      modifies repo
      ensures r == KillOutcomeOf(if Live(old(repo.tasks), id) then old(repo.tasks)[id] else None, permitted)
      ensures repo.tasks ==
        if r.CancelledAtOnce? || r.Signalled?
        then old(repo.tasks)[id := Some(KilledRow(old(repo.tasks)[id].value, now))] else old(repo.tasks)
      ensures |repo.tasks| == |old(repo.tasks)|
      ensures forall i :: 0 <= i < |repo.tasks| && i != id ==> repo.tasks[i] == old(repo.tasks)[i]
      ensures Live(old(repo.tasks), id) ==>
        var o := old(repo.tasks)[id].value;
        && repo.tasks[id].Some?
        && var n := repo.tasks[id].value;
           && (!permitted(o) || o.status.IsTerminal() ==> n == o)
           && (permitted(o) && !o.status.IsTerminal() ==> n.killRequested && n.killRequestedAt == Some(now))
           && (permitted(o) && o.status.Accepted? ==>
                 n.status.Cancelled? && n.error == Some(KillError) && n.finishedAt == Some(now)
                 && !(n.reservation.Some? && n.releasedAt.None?))
           && (permitted(o) && o.status.Running? ==>
                 n.status.Running? && n.reservation == o.reservation && n.releasedAt == o.releasedAt
                 && n.finishedAt == o.finishedAt && n.error == o.error)
      ensures r.Denied? <==> Live(old(repo.tasks), id) && !permitted(old(repo.tasks)[id].value)
      ensures r.NoSuchTask? <==> !Live(old(repo.tasks), id)
    {
      var task := repo.GetTask(id);
      if task.Err? {
        return NoSuchTask;
      }
      if !permitted(task.value) {
        return Denied;
      }
      if task.value.status.IsTerminal() {
        return AlreadyFinished;
      }
      var _ := repo.SetCancelRequested(id, now);
      var updated := repo.GetTask(id);
      if updated.value.status == Accepted {
        var _ := repo.CancelAcceptedTask(id, now);
        r := CancelledAtOnce;
      } else {
        r := Signalled;
      }
    }

    /** What the ledger holds, who holds it, how many tasks wait, and each tenant's part. */
    method RuntimeResources() returns (view: ResourceView)
      ensures var hs := ActiveHeld(repo.tasks);
              && view.reserved == Reserved(ledger.capacity, Scoped(hs, Everyone))
              && view.available == ledger.AvailableCapacity(view.reserved)
              && (forall t :: t in view.tenants <==> Uses(hs, t) || t in ledger.tenantQuotas)
              && (forall t :: t in view.tenants ==> view.tenants[t] == ViewOf(ledger, hs, t))
      ensures view.active == ActiveTasks(Select(repo.tasks, IsActive))
      ensures view.waiting == |Select(repo.tasks, IsWaiting)|
      ensures view.waiting == |Idling(repo.tasks)|
      ensures forall t, d: Dim :: t in ledger.tenantQuotas && Level(ledger.tenantQuotas[t], d).Some? ==>
                && t in view.tenants
                && Balances(view.tenants[t], ledger.tenantQuotas[t],
                            HeldUsage(ActiveHeld(repo.tasks), Tenant(t), d), d)
      ensures forall t :: t in view.tenants && t !in ledger.tenantQuotas ==>
                view.tenants[t].quota.None? && view.tenants[t].available.None?
    {
      var items := repo.ListWhere(IsActive);
      var held, active := ReadListing(items);
      ActiveHeldIsListed(repo.tasks);
      var reserved := ledger.ReservedCapacity(Scoped(held, Everyone));
      var tenants := TenantViews(ledger, held);
      var waiting := repo.CountAcceptedWaiting();
      WaitingCount(repo.tasks);
      forall t, d: Dim | t in ledger.tenantQuotas && Level(ledger.tenantQuotas[t], d).Some?
        ensures Balances(ViewOf(ledger, held, t), ledger.tenantQuotas[t], HeldUsage(held, Tenant(t), d), d)
      {
        ViewBalances(ledger, held, t, d);
      }
      view := ResourceView(reserved, ledger.AvailableCapacity(reserved), active, waiting, tenants);
    }

    /** One garbage collection pass; `removable(id)` tells whether the task directory could be
        removed. Only expired finished rows are deleted, and every removable one is. */
    method CollectGarbage(cutoff: nat, removable: nat -> bool)
      modifies repo
      ensures |repo.tasks| == |old(repo.tasks)|
      ensures forall i :: 0 <= i < |old(repo.tasks)| ==>
                repo.tasks[i] == Collected(i, old(repo.tasks)[i], cutoff, removable)
      ensures forall i :: 0 <= i < |old(repo.tasks)| && old(repo.tasks)[i].Some? ==>
                var row := old(repo.tasks)[i].value;
                var goes := && (row.status.Success? || row.status.Failed? || row.status.Cancelled?)
                            && row.finishedAt.Some? && row.finishedAt.value <= cutoff && removable(i);
                repo.tasks[i] == if goes then None else Some(row)
    {
      var p := (row: Row) => Expired(row, cutoff);
      var items := repo.ListWhere(p);
      ghost var before := repo.tasks;
      ghost var f := (j: nat, slot: Slot) => Collected(j, slot, cutoff, removable);
      MappedFirst(before, p, f);
      for i := 0 to |items|
        invariant MappedUpTo(before, repo.tasks, Bound(before, items, i), f)
      {
        MappedNext(before, repo.tasks, p, f, i);
        ghost var id := items[i].id;
        assert repo.tasks[id := repo.tasks[id]] == repo.tasks;
        if removable(items[i].id) {
          repo.DeleteTask(items[i].id);
        }
      }
    }
  }

  /** A killed row keeps its flag, is cancelled at once if it was still waiting, and then holds
      nothing; a running row is left to its shim. */
  lemma KilledRowFacts(row: Row, now: nat)
    requires !row.status.IsTerminal()
    ensures KilledRow(row, now).killRequested
    ensures row.status.Accepted? ==> KilledRow(row, now).status.Cancelled? && !KilledRow(row, now).Active()
    ensures row.status.Running? ==> KilledRow(row, now).status.Running? && KilledRow(row, now).Active() == row.Active()
  {
  }
}
