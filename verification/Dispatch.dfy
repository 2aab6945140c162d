/** One dispatch cycle (src/runtime.rs:549-707): the local counters, the decision taken for a
    listed row, and the table a cycle leaves when nothing else runs. */
module Dispatch {
  import opened Types
  import opened Ledger
  import opened Table

  // ---- the dispatcher's local counters

  datatype Counters = Counters(global: Capacity, tenants: map<string, Capacity>)

  function QuotaBase(l: ResourceLedger, tenant: Option<string>): Capacity {
    match l.QuotaOf(tenant)
    case None => UNCAPPED
    case Some(quota) => quota
  }

  /** A zero counter that tracks the dimensions the tenant's quota caps. */
  function EmptyTenant(l: ResourceLedger, tenant: Option<string>): Capacity {
    var base := QuotaBase(l, tenant);
    Capacity(0,
             if base.memoryBytes.Some? then Some(0) else None,
             if base.pids.Some? then Some(0) else None)
  }

  function TenantCounter(l: ResourceLedger, tenants: map<string, Capacity>, tenant: Option<string>): Capacity {
    if tenant.Some? && tenant.value in tenants then tenants[tenant.value] else EmptyTenant(l, tenant)
  }

  function ChargeTenant(l: ResourceLedger, tenants: map<string, Capacity>, h: Held): map<string, Capacity> {
    match h.tenant
    case None => tenants
    case Some(t) => tenants[t := AddReservation(TenantCounter(l, tenants, h.tenant), h.r)]
  }

  function Charge(l: ResourceLedger, c: Counters, h: Held): Counters {
    Counters(AddReservation(c.global, h.r), ChargeTenant(l, c.tenants, h))
  }

  /** After a failed spawn only the global counter is given back. */
  function Refund(c: Counters, r: Reservation): Counters {
    c.(global := SubtractReservation(c.global, r))
  }

  function TenantCounters(l: ResourceLedger, hs: seq<Held>): map<string, Capacity> {
    if hs == [] then map[] else ChargeTenant(l, TenantCounters(l, hs[..|hs| - 1]), hs[|hs| - 1])
  }

  function Snapshot(l: ResourceLedger, rows: seq<Slot>): Counters {
    var hs := ActiveHeld(rows);
    Counters(Reserved(l.capacity, Scoped(hs, Everyone)), TenantCounters(l, hs))
  }

  // ---- the decision for one listed row

  datatype Decision = CancelIt | SkipIt | Grant(r: Reservation)

  function Wanted(row: Row): Reservation {
    match row.reservation
    case None => FromLimits(row.limits)
    case Some(r) => r
  }

  function Decide(l: ResourceLedger, c: Counters, row: Row): Decision {
    if row.killRequested then CancelIt
    else if row.Active() then SkipIt
    else if !l.CanReserve(c.global, Wanted(row)) then SkipIt
    else if !l.CanReserveForTenant(row.tenant, TenantCounter(l, c.tenants, row.tenant), Wanted(row)) then SkipIt
    else Grant(Wanted(row))
  }

  function LaunchFailure(now: nat): CompletionUpdate {
    CompletionUpdate(Failed, now, Some(0), None, None, Some(LaunchFailed))
  }

  /** The counters after handling one listed row; `spawn(id)` is the process id of the shim
      started for row `id`, or None when starting it fails. */
  function NextCounters(l: ResourceLedger, c: Counters, item: Item, spawn: nat -> Option<nat>): Counters {
    match Decide(l, c, item.row)
    case CancelIt => c
    case SkipIt => c
    case Grant(r) =>
      var charged := Charge(l, c, Held(item.row.tenant, r));
      if spawn(item.id).Some? then charged else Refund(charged, r)
  }

  /** The table after handling one listed row. */
  function Handle(l: ResourceLedger, c: Counters, rows: seq<Slot>, item: Item,
                  spawn: nat -> Option<nat>, now: nat): (after: seq<Slot>)
    ensures |after| == |rows|
  {
    match Decide(l, c, item.row)
    case CancelIt => Commit(rows, item.id, CancelAccepted, now)
    case SkipIt => rows
    case Grant(r) =>
      var reserved := Commit(rows, item.id, Reserve(r), now);
      match spawn(item.id)
      case Some(pid) => Commit(reserved, item.id, Dispatched(pid), now)
      case None => Commit(reserved, item.id, Complete(LaunchFailure(now)), now)
  }

  function Cycle(l: ResourceLedger, c: Counters, rows: seq<Slot>, items: seq<Item>,
                 spawn: nat -> Option<nat>, now: nat): (after: seq<Slot>)
    ensures |after| == |rows|
    decreases |items|
  {
    if items == [] then rows
    else Cycle(l, NextCounters(l, c, items[0], spawn), Handle(l, c, rows, items[0], spawn, now), items[1..], spawn, now)
  }

  function DispatchTable(l: ResourceLedger, rows: seq<Slot>, limit: nat,
                         spawn: nat -> Option<nat>, now: nat): seq<Slot> {
    Cycle(l, Snapshot(l, rows), rows, Take(Select(rows, IsAccepted), limit), spawn, now)
  }

  /** A listed row once its decision has been carried out. */
  function Carried(row: Row, d: Decision, spawned: Option<nat>, now: nat): Row {
    match d
    case CancelIt => Apply(row, CancelAccepted, now)
    case SkipIt => row
    case Grant(r) =>
      match spawned
      case Some(pid) => Apply(Apply(row, Reserve(r), now), Dispatched(pid), now)
      case None => Apply(Apply(row, Reserve(r), now), Complete(LaunchFailure(now)), now)
  }

  /** The decisions the code takes, counters threaded through. */
  function Decisions(l: ResourceLedger, c: Counters, items: seq<Item>, spawn: nat -> Option<nat>): (ds: seq<Decision>)
    ensures |ds| == |items|
    decreases |items|
  {
    if items == [] then []
    else [Decide(l, c, items[0].row)] + Decisions(l, NextCounters(l, c, items[0], spawn), items[1..], spawn)
  }

  // ---- the reference: first fit with exact sums over lists

  function LimitOf(l: ResourceLedger, scope: Scope, d: Dim): Option<U64> {
    match scope
    case Everyone => Level(l.capacity, d)
    case Tenant(t) => if t in l.tenantQuotas then Level(l.tenantQuotas[t], d) else None
  }

  /** `h` fits within capacity next to `charged` and, when it has a quota, within it next to
      its tenant's part of `tenantCharged`; a limit of 2^64 - 1 is no limit. */
  ghost predicate Fits(l: ResourceLedger, charged: seq<Held>, tenantCharged: seq<Held>, h: Held) {
    && (forall d: Dim :: Room(l.capacity, Scoped(charged, Everyone), h.r, d))
    && (l.QuotaOf(h.tenant).Some? ==>
          forall d: Dim :: Room(l.QuotaOf(h.tenant).value, Scoped(tenantCharged, Tenant(h.tenant.value)), h.r, d))
  }

  /** First fit in list order. A failed spawn stays charged to its tenant for the rest of the
      cycle and is not charged globally. */
  ghost function FirstFit(l: ResourceLedger, charged: seq<Held>, tenantCharged: seq<Held>, items: seq<Item>,
                          spawn: nat -> Option<nat>): (ds: seq<Decision>)
    ensures |ds| == |items|
    decreases |items|
  {
    if items == [] then []
    else
      var row := items[0].row;
      var h := Held(row.tenant, Wanted(row));
      if row.killRequested then [CancelIt] + FirstFit(l, charged, tenantCharged, items[1..], spawn)
      else if !row.Active() && Fits(l, charged, tenantCharged, h) then
        [Grant(h.r)] + FirstFit(l, if spawn(items[0].id).Some? then charged + [h] else charged,
                                tenantCharged + [h], items[1..], spawn)
      else [SkipIt] + FirstFit(l, charged, tenantCharged, items[1..], spawn)
  }

  /** The counters are the saturated exact sums in every dimension with an enforced limit. */
  ghost predicate Tracks(l: ResourceLedger, c: Counters, charged: seq<Held>, tenantCharged: seq<Held>) {
    && (forall d: Dim :: Enforced(l.capacity, d) ==>
          Level(c.global, d) == Some(Sat(HeldUsage(charged, Everyone, d))))
    && (forall t, d: Dim :: t in l.tenantQuotas && Enforced(l.tenantQuotas[t], d) ==>
          Level(TenantCounter(l, c.tenants, Some(t)), d) == Some(Sat(HeldUsage(tenantCharged, Tenant(t), d))))
  }

  lemma AddLevel(c: Capacity, r: Reservation, d: Dim, used: nat)
    requires Level(c, d) == Some(Sat(used))
    ensures Level(AddReservation(c, r), d) == Some(Sat(used + Amount(r, d)))
  {
  }

  lemma ChargeTracks(l: ResourceLedger, c: Counters, charged: seq<Held>, tenantCharged: seq<Held>, h: Held)
    requires Tracks(l, c, charged, tenantCharged)
    ensures Tracks(l, Charge(l, c, h), charged + [h], tenantCharged + [h])
  {
    forall d: Dim | Enforced(l.capacity, d)
      ensures Level(Charge(l, c, h).global, d) == Some(Sat(HeldUsage(charged + [h], Everyone, d)))
    {
      AddLevel(c.global, h.r, d, HeldUsage(charged, Everyone, d));
      HeldUsageAppend(charged, h, Everyone, d);
    }
    forall t, d: Dim | t in l.tenantQuotas && Enforced(l.tenantQuotas[t], d)
      ensures Level(TenantCounter(l, Charge(l, c, h).tenants, Some(t)), d)
           == Some(Sat(HeldUsage(tenantCharged + [h], Tenant(t), d)))
    {
      HeldUsageAppend(tenantCharged, h, Tenant(t), d);
      if h.tenant == Some(t) {
        AddLevel(TenantCounter(l, c.tenants, h.tenant), h.r, d, HeldUsage(tenantCharged, Tenant(t), d));
      }
    }
  }

  /** Filling the tenant map one reservation at a time gives, for each tenant, the aggregate of
      its own reservations. */
  lemma {:induction false} TenantCounterIsBatch(l: ResourceLedger, hs: seq<Held>, t: string)
    ensures TenantCounter(l, TenantCounters(l, hs), Some(t)) == Reserved(QuotaBase(l, Some(t)), Scoped(hs, Tenant(t)))
    ensures t in TenantCounters(l, hs) <==> exists i :: 0 <= i < |hs| && hs[i].tenant == Some(t)
  {
    if hs != [] {
      var n := |hs| - 1;
      TenantCounterIsBatch(l, hs[..n], t);
      assert hs == hs[..n] + [hs[n]];
      assert (exists i :: 0 <= i < |hs| && hs[i].tenant == Some(t)) <==>
        (exists i :: 0 <= i < n && hs[..n][i].tenant == Some(t)) || hs[n].tenant == Some(t);
      if hs[n].tenant == Some(t) {
        IncrementalIsBatch(QuotaBase(l, Some(t)), Scoped(hs[..n], Tenant(t)), hs[n].r);
      } else {
        assert Scoped(hs, Tenant(t)) == Scoped(hs[..n], Tenant(t));
      }
    }
  }

  lemma SnapshotTracks(l: ResourceLedger, rows: seq<Slot>)
    ensures Tracks(l, Snapshot(l, rows), ActiveHeld(rows), ActiveHeld(rows))
  {
    var hs := ActiveHeld(rows);
    forall d: Dim | Enforced(l.capacity, d)
      ensures Level(Snapshot(l, rows).global, d) == Some(Sat(HeldUsage(hs, Everyone, d)))
    {
      ReservedLevel(l.capacity, Scoped(hs, Everyone), d);
    }
    forall t, d: Dim | t in l.tenantQuotas && Enforced(l.tenantQuotas[t], d)
      ensures Level(TenantCounter(l, Snapshot(l, rows).tenants, Some(t)), d) == Some(Sat(HeldUsage(hs, Tenant(t), d)))
    {
      TenantCounterIsBatch(l, hs, t);
      ReservedLevel(l.tenantQuotas[t], Scoped(hs, Tenant(t)), d);
    }
  }

  lemma DecideIsExact(l: ResourceLedger, c: Counters, charged: seq<Held>, tenantCharged: seq<Held>, row: Row)
    requires Tracks(l, c, charged, tenantCharged)
    ensures Decide(l, c, row) ==
      if row.killRequested then CancelIt
      else if !row.Active() && Fits(l, charged, tenantCharged, Held(row.tenant, Wanted(row))) then Grant(Wanted(row))
      else SkipIt
  {
    var r := Wanted(row);
    AdmitsTracked(l.capacity, c.global, Scoped(charged, Everyone), r);
    if l.QuotaOf(row.tenant).Some? {
      var t := row.tenant.value;
      AdmitsTracked(l.tenantQuotas[t], TenantCounter(l, c.tenants, row.tenant), Scoped(tenantCharged, Tenant(t)), r);
    }
  }

  /** A refund after a failed spawn restores the exact global sum, because a granted
      reservation cannot have saturated an enforced counter. */
  lemma RefundTracks(l: ResourceLedger, c: Counters, charged: seq<Held>, tenantCharged: seq<Held>, h: Held)
    requires Tracks(l, c, charged, tenantCharged)
    requires Fits(l, charged, tenantCharged, h)
    ensures Tracks(l, Refund(Charge(l, c, h), h.r), charged, tenantCharged + [h])
  {
    ChargeTracks(l, c, charged, tenantCharged, h);
    forall d: Dim | Enforced(l.capacity, d)
      ensures Level(Refund(Charge(l, c, h), h.r).global, d) == Some(Sat(HeldUsage(charged, Everyone, d)))
    {
      assert Room(l.capacity, Scoped(charged, Everyone), h.r, d);
      match d case Slots => case Memory => case Pids =>
    }
  }

  /** The cycle's decisions with saturating, incrementally updated counters are those of first
      fit with exact sums: for every table, listing and outcome of the spawns. */
  lemma {:induction false} DecisionsAreFirstFit(l: ResourceLedger, c: Counters, charged: seq<Held>,
                                                tenantCharged: seq<Held>,
                                                items: seq<Item>, spawn: nat -> Option<nat>)
    requires Tracks(l, c, charged, tenantCharged)
    ensures Decisions(l, c, items, spawn) == FirstFit(l, charged, tenantCharged, items, spawn)
    decreases |items|
  {
    if items != [] {
      var row := items[0].row;
      var h := Held(row.tenant, Wanted(row));
      DecideIsExact(l, c, charged, tenantCharged, row);
      if Decide(l, c, row).Grant? {
        if spawn(items[0].id).Some? {
          ChargeTracks(l, c, charged, tenantCharged, h);
          DecisionsAreFirstFit(l, Charge(l, c, h), charged + [h], tenantCharged + [h], items[1..], spawn);
        } else {
          RefundTracks(l, c, charged, tenantCharged, h);
          DecisionsAreFirstFit(l, Refund(Charge(l, c, h), h.r), charged, tenantCharged + [h], items[1..], spawn);
        }
      } else {
        DecisionsAreFirstFit(l, c, charged, tenantCharged, items[1..], spawn);
      }
    }
  }
}
