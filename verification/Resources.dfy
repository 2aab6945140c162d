/** The resource view (src/runtime.rs:383-466) and the partition of the ledger by tenant. */
module Resources {
  import opened Types
  import opened Ledger
  import opened Table
  import opened Dispatch

  datatype TenantView = TenantView(quota: Option<Capacity>, reserved: Capacity, available: Option<Capacity>)

  datatype ActiveTask = ActiveTask(id: nat, status: TaskStatus, reservation: Reservation, reservedAt: Option<nat>)

  datatype ResourceView = ResourceView(reserved: Capacity, available: Capacity, active: seq<ActiveTask>, waiting: nat,
                                       tenants: map<string, TenantView>)

  function ActiveTasks(items: seq<Item>): seq<ActiveTask> {
    if items == [] then []
    else
      var x := items[|items| - 1];
      ActiveTasks(items[..|items| - 1])
      + if x.row.reservation.None? then []
        else [ActiveTask(x.id, x.row.status, x.row.reservation.value, x.row.reservedAt)]
  }

  /** Of a listing of the active rows nothing is left out. */
  lemma {:induction false} EveryActiveTaskIsShown(items: seq<Item>)
    requires forall i :: 0 <= i < |items| ==> items[i].row.Active()
    ensures |ActiveTasks(items)| == |items|
    ensures forall i :: 0 <= i < |items| ==>
              var x, shown := items[i], ActiveTasks(items)[i];
              && shown.id == x.id && shown.status == x.row.status && shown.reservedAt == x.row.reservedAt
              && Some(shown.reservation) == x.row.reservation
  {
    if items != [] {
      EveryActiveTaskIsShown(items[..|items| - 1]);
    }
  }

  /** The two views of one listing that the resource response is built from. */
  method ReadListing(items: seq<Item>) returns (held: seq<Held>, active: seq<ActiveTask>)
    ensures held == HeldBy(items) && active == ActiveTasks(items)
  {
    held, active := [], [];
    for i := 0 to |items|
      invariant held == HeldBy(items[..i]) && active == ActiveTasks(items[..i])
    {
      assert items[..i + 1][..i] == items[..i];
      var row := items[i].row;
      if row.reservation.Some? {
        held := held + [Held(row.tenant, row.reservation.value)];
        active := active + [ActiveTask(items[i].id, row.status, row.reservation.value, row.reservedAt)];
      }
    }
    assert items[..|items|] == items;
  }

  predicate Uses(hs: seq<Held>, t: string) {
    exists i :: 0 <= i < |hs| && hs[i].tenant == Some(t)
  }

  /** What the view says of one tenant. */
  function ViewOf(l: ResourceLedger, hs: seq<Held>, t: string): TenantView {
    var quota := l.QuotaOf(Some(t));
    var reserved := Reserved(UNCAPPED, Scoped(hs, Tenant(t)));
    TenantView(quota, reserved, if quota.Some? then Some(Remaining(quota.value, reserved)) else None)
  }

  /** Every tenant that holds a reservation or has a quota appears exactly once, with the
      aggregate of its own reservations. */
  method TenantViews(l: ResourceLedger, hs: seq<Held>) returns (tenants: map<string, TenantView>)
    ensures forall t :: t in tenants <==> Uses(hs, t) || t in l.tenantQuotas
    ensures forall t :: t in tenants ==> tenants[t] == ViewOf(l, hs, t)
  {
    var perTenant: map<string, Capacity> := map[];
    for i := 0 to |hs|
      invariant Aggregates(hs, i, perTenant)
    {
      perTenant := AddToTenant(hs, i, perTenant);
    }
    assert hs[..|hs|] == hs;
    var quotas := l.tenantQuotas.Keys;
    while quotas != {}
      invariant quotas <= l.tenantQuotas.Keys
      invariant forall t :: t in perTenant <==> Uses(hs, t) || (t in l.tenantQuotas && t !in quotas)
      invariant forall t :: t in perTenant ==> perTenant[t] == Reserved(UNCAPPED, Scoped(hs, Tenant(t)))
      decreases |quotas|
    {
      var t :| t in quotas;
      quotas := quotas - {t};
      if t !in perTenant {
        UnusedIsEmpty(hs, t);
        perTenant := perTenant[t := UNCAPPED];
      }
    }
    tenants := map t | t in perTenant ::
      var quota := l.QuotaOf(Some(t));
      TenantView(quota, perTenant[t], if quota.Some? then Some(Remaining(quota.value, perTenant[t])) else None);
  }

  /** `perTenant` holds the aggregate of every tenant among the first `i` reservations. */
  ghost predicate Aggregates(hs: seq<Held>, i: nat, perTenant: map<string, Capacity>)
    requires i <= |hs|
  {
    && (forall t :: t in perTenant <==> Uses(hs[..i], t))
    && (forall t :: t in perTenant ==> perTenant[t] == Reserved(UNCAPPED, Scoped(hs[..i], Tenant(t))))
  }

  method AddToTenant(hs: seq<Held>, i: nat, perTenant: map<string, Capacity>) returns (next: map<string, Capacity>)
    requires i < |hs| && Aggregates(hs, i, perTenant)
    ensures Aggregates(hs, i + 1, next)
  {
    next := perTenant;
    if hs[i].tenant.Some? {
      var t := hs[i].tenant.value;
      var entry := if t in perTenant then perTenant[t] else UNCAPPED;
      if t !in perTenant { UnusedIsEmpty(hs[..i], t); }
      next := next[t := AddReservation(entry, hs[i].r)];
    }
    forall t ensures t in next <==> Uses(hs[..i + 1], t) { UsesNext(hs, i, t); }
    forall t | t in next ensures next[t] == Reserved(UNCAPPED, Scoped(hs[..i + 1], Tenant(t))) {
      AggregateNext(hs, i, t);
    }
  }

  /** How one tenant's aggregate changes with the next reservation. */
  lemma AggregateNext(hs: seq<Held>, i: nat, t: string)
    requires i < |hs|
    ensures Reserved(UNCAPPED, Scoped(hs[..i + 1], Tenant(t))) ==
      if hs[i].tenant == Some(t) then AddReservation(Reserved(UNCAPPED, Scoped(hs[..i], Tenant(t))), hs[i].r)
      else Reserved(UNCAPPED, Scoped(hs[..i], Tenant(t)))
  {
    assert hs[..i + 1] == hs[..i] + [hs[i]];
    ScopedAppend(hs[..i], hs[i], Tenant(t));
    IncrementalIsBatch(UNCAPPED, Scoped(hs[..i], Tenant(t)), hs[i].r);
    assert Scoped(hs[..i], Tenant(t)) + [] == Scoped(hs[..i], Tenant(t));
  }

  lemma UsesNext(hs: seq<Held>, i: nat, t: string)
    requires i < |hs|
    ensures Uses(hs[..i + 1], t) <==> Uses(hs[..i], t) || hs[i].tenant == Some(t)
  {
  }

  lemma {:induction false} UnusedIsEmpty(hs: seq<Held>, t: string)
    requires !Uses(hs, t)
    ensures Scoped(hs, Tenant(t)) == [] && Reserved(UNCAPPED, Scoped(hs, Tenant(t))) == UNCAPPED
  {
    if hs != [] {
      var n := |hs| - 1;
      assert forall k :: 0 <= k < n ==> hs[..n][k] == hs[k];
      assert hs[n].tenant != Some(t);
      UnusedIsEmpty(hs[..n], t);
    }
  }

  /** The view and the dispatcher agree on every tenant, absent counting as zero. */
  lemma ViewAgreesWithDispatcher(l: ResourceLedger, hs: seq<Held>, t: string, d: Dim)
    ensures OrZero(Level(ViewOf(l, hs, t).reserved, d))
         == OrZero(Level(TenantCounter(l, TenantCounters(l, hs), Some(t)), d))
  {
    TenantCounterIsBatch(l, hs, t);
    ReservedLevel(UNCAPPED, Scoped(hs, Tenant(t)), d);
    ReservedLevel(QuotaBase(l, Some(t)), Scoped(hs, Tenant(t)), d);
  }

  /** The tenant's entry shows its quota, what it uses, and what is left: together the quota in
      exact sums while the use is within it, and else nothing left. */
  predicate Balances(view: TenantView, quota: Capacity, used: nat, d: Dim)
    requires Level(quota, d).Some?
  {
    var limit := Level(quota, d).value;
    && view.quota == Some(quota) && view.available.Some? && Level(view.available.value, d).Some?
    && var left := Level(view.available.value, d).value;
       && (used <= limit ==> OrZero(Level(view.reserved, d)) == used && used + left == limit)
       && (used > limit ==> left == 0)
  }

  lemma ViewBalances(l: ResourceLedger, hs: seq<Held>, t: string, d: Dim)
    requires t in l.tenantQuotas && Level(l.tenantQuotas[t], d).Some?
    ensures Balances(ViewOf(l, hs, t), l.tenantQuotas[t], HeldUsage(hs, Tenant(t), d), d)
  {
    ReservedLevel(UNCAPPED, Scoped(hs, Tenant(t)), d);
    ReservedPlusAvailable(l.tenantQuotas[t], Reserved(UNCAPPED, Scoped(hs, Tenant(t))), d);
  }

  // ---- tenants partition the ledger

  function SumOver(hs: seq<Held>, tenants: seq<string>, d: Dim): nat {
    if tenants == [] then 0
    else SumOver(hs, tenants[..|tenants| - 1], d) + HeldUsage(hs, Tenant(tenants[|tenants| - 1]), d)
  }

  function Untenanted(hs: seq<Held>, d: Dim): nat {
    if hs == [] then 0
    else Untenanted(hs[..|hs| - 1], d) + if hs[|hs| - 1].tenant.None? then Amount(hs[|hs| - 1].r, d) else 0
  }

  predicate Distinct(tenants: seq<string>) {
    forall i, j :: 0 <= i < j < |tenants| ==> tenants[i] != tenants[j]
  }

  lemma {:induction false} SumOverAppend(hs: seq<Held>, h: Held, tenants: seq<string>, d: Dim)
    requires Distinct(tenants)
    ensures SumOver(hs + [h], tenants, d) == SumOver(hs, tenants, d)
      + if h.tenant.Some? && h.tenant.value in tenants then Amount(h.r, d) else 0
  {
    if tenants != [] {
      var n := |tenants| - 1;
      SumOverAppend(hs, h, tenants[..n], d);
      HeldUsageAppend(hs, h, Tenant(tenants[n]), d);
      assert tenants == tenants[..n] + [tenants[n]];
    }
  }

  lemma {:induction false} NothingSumsToZero(tenants: seq<string>, d: Dim)
    ensures SumOver([], tenants, d) == 0
  {
    if tenants != [] {
      NothingSumsToZero(tenants[..|tenants| - 1], d);
    }
  }

  /** The tenants' exact shares and the untenanted rest add up to the whole. */
  lemma {:induction false} TenantsPartition(hs: seq<Held>, tenants: seq<string>, d: Dim)
    requires Distinct(tenants)
    requires forall i :: 0 <= i < |hs| && hs[i].tenant.Some? ==> hs[i].tenant.value in tenants
    ensures SumOver(hs, tenants, d) + Untenanted(hs, d) == HeldUsage(hs, Everyone, d)
  {
    if hs == [] {
      NothingSumsToZero(tenants, d);
    } else {
      var n := |hs| - 1;
      assert hs == hs[..n] + [hs[n]];
      TenantsPartition(hs[..n], tenants, d);
      SumOverAppend(hs[..n], hs[n], tenants, d);
      HeldUsageAppend(hs[..n], hs[n], Everyone, d);
    }
  }

  function ReportedSum(l: ResourceLedger, hs: seq<Held>, tenants: seq<string>, d: Dim): nat {
    if tenants == [] then 0
    else
      ReportedSum(l, hs, tenants[..|tenants| - 1], d)
      + OrZero(Level(ViewOf(l, hs, tenants[|tenants| - 1]).reserved, d))
  }

  lemma {:induction false} ReportedIsExact(l: ResourceLedger, hs: seq<Held>, tenants: seq<string>, d: Dim)
    requires forall i :: 0 <= i < |tenants| ==> HeldUsage(hs, Tenant(tenants[i]), d) <= U64_MAX
    ensures ReportedSum(l, hs, tenants, d) == SumOver(hs, tenants, d)
  {
    if tenants != [] {
      var n := |tenants| - 1;
      ReportedIsExact(l, hs, tenants[..n], d);
      ReservedLevel(UNCAPPED, Scoped(hs, Tenant(tenants[n])), d);
    }
  }

  lemma {:induction false} ShareAtMostWhole(hs: seq<Held>, t: string, d: Dim)
    ensures HeldUsage(hs, Tenant(t), d) <= HeldUsage(hs, Everyone, d)
  {
    if hs != [] {
      var n := |hs| - 1;
      assert hs == hs[..n] + [hs[n]];
      ShareAtMostWhole(hs[..n], t, d);
      HeldUsageAppend(hs[..n], hs[n], Tenant(t), d);
      HeldUsageAppend(hs[..n], hs[n], Everyone, d);
    }
  }

  /** When the whole does not saturate, the reported tenant amounts plus the untenanted rest are
      the reported global amount. */
  lemma {:induction false} ReportedPartition(l: ResourceLedger, hs: seq<Held>, tenants: seq<string>, d: Dim)
    requires Distinct(tenants)
    requires forall i :: 0 <= i < |hs| && hs[i].tenant.Some? ==> hs[i].tenant.value in tenants
    requires HeldUsage(hs, Everyone, d) <= U64_MAX
    ensures ReportedSum(l, hs, tenants, d) + Untenanted(hs, d)
         == OrZero(Level(Reserved(l.capacity, Scoped(hs, Everyone)), d))
  {
    forall i | 0 <= i < |tenants| ensures HeldUsage(hs, Tenant(tenants[i]), d) <= U64_MAX {
      ShareAtMostWhole(hs, tenants[i], d);
    }
    ReportedIsExact(l, hs, tenants, d);
    TenantsPartition(hs, tenants, d);
    ReservedLevel(l.capacity, Scoped(hs, Everyone), d);
  }
}
