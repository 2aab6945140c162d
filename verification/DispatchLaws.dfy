/** What a dispatch cycle guarantees when no other actor runs during it: fairness in list
    order, and no listed task left waiting that would still fit. */
module DispatchLaws {
  import opened Types
  import opened Ledger
  import opened Table
  import opened Dispatch

  predicate NoLarger(a: Reservation, b: Reservation) {
    forall d: Dim :: Request(a, d).Some? ==> Request(b, d).Some? && Amount(a, d) <= Amount(b, d)
  }

  lemma FitsIsMonotone(l: ResourceLedger, charged: seq<Held>, tenantCharged: seq<Held>,
                       more: seq<Held>, tenantMore: seq<Held>, h: Held, bigger: Held)
    requires forall scope, d :: HeldUsage(charged, scope, d) <= HeldUsage(more, scope, d)
    requires forall scope, d :: HeldUsage(tenantCharged, scope, d) <= HeldUsage(tenantMore, scope, d)
    requires h.tenant == bigger.tenant && NoLarger(h.r, bigger.r)
    requires Fits(l, more, tenantMore, bigger)
    ensures Fits(l, charged, tenantCharged, h)
  {
    forall d: Dim ensures Room(l.capacity, Scoped(charged, Everyone), h.r, d) {
      assert Room(l.capacity, Scoped(more, Everyone), bigger.r, d);
      assert HeldUsage(charged, Everyone, d) <= HeldUsage(more, Everyone, d);
    }
    if l.QuotaOf(h.tenant).Some? {
      var quota, scope := l.QuotaOf(h.tenant).value, Tenant(h.tenant.value);
      forall d: Dim ensures Room(quota, Scoped(tenantCharged, scope), h.r, d) {
        assert Room(quota, Scoped(tenantMore, scope), bigger.r, d);
        assert HeldUsage(tenantCharged, scope, d) <= HeldUsage(tenantMore, scope, d);
      }
    }
  }

  lemma AppendGrows(hs: seq<Held>, h: Held)
    ensures forall scope, d :: HeldUsage(hs, scope, d) <= HeldUsage(hs + [h], scope, d)
  {
    forall scope, d ensures HeldUsage(hs, scope, d) <= HeldUsage(hs + [h], scope, d) {
      HeldUsageAppend(hs, h, scope, d);
    }
  }

  /** What did not fit once does not fit, nor anything larger, later in the same cycle. */
  lemma {:induction false} StaysTooBig(l: ResourceLedger, charged: seq<Held>, tenantCharged: seq<Held>,
                                       items: seq<Item>, spawn: nat -> Option<nat>, h: Held, k: nat)
    requires k < |items|
    requires !Fits(l, charged, tenantCharged, h)
    requires items[k].row.tenant == h.tenant && NoLarger(h.r, Wanted(items[k].row))
    ensures !FirstFit(l, charged, tenantCharged, items, spawn)[k].Grant?
    decreases k
  {
    var row := items[0].row;
    var first := Held(row.tenant, Wanted(row));
    AppendGrows(charged, first);
    AppendGrows(tenantCharged, first);
    if k == 0 {
      if Fits(l, charged, tenantCharged, first) {
        FitsIsMonotone(l, charged, tenantCharged, charged, tenantCharged, h, first);
      }
    } else {
      assert items[1..][k - 1] == items[k];
      if !row.killRequested && !row.Active() && Fits(l, charged, tenantCharged, first) {
        var next := if spawn(items[0].id).Some? then charged + [first] else charged;
        if Fits(l, next, tenantCharged + [first], h) {
          assert NoLarger(h.r, h.r);
          FitsIsMonotone(l, charged, tenantCharged, next, tenantCharged + [first], h, h);
        }
        StaysTooBig(l, next, tenantCharged + [first], items[1..], spawn, h, k - 1);
      } else {
        StaysTooBig(l, charged, tenantCharged, items[1..], spawn, h, k - 1);
      }
    }
  }

  lemma {:induction false} FirstFitIsFair(l: ResourceLedger, charged: seq<Held>, tenantCharged: seq<Held>,
                                          items: seq<Item>, spawn: nat -> Option<nat>, i: nat, j: nat)
    requires i < j < |items|
    requires !items[i].row.killRequested && !items[i].row.Active()
    requires items[i].row.tenant == items[j].row.tenant
    requires NoLarger(Wanted(items[i].row), Wanted(items[j].row))
    requires FirstFit(l, charged, tenantCharged, items, spawn)[j].Grant?
    ensures FirstFit(l, charged, tenantCharged, items, spawn)[i].Grant?
    decreases i
  {
    var row := items[0].row;
    var first := Held(row.tenant, Wanted(row));
    if i == 0 {
      if !Fits(l, charged, tenantCharged, first) {
        StaysTooBig(l, charged, tenantCharged, items, spawn, first, j);
      }
    } else {
      assert items[1..][i - 1] == items[i] && items[1..][j - 1] == items[j];
      if !row.killRequested && !row.Active() && Fits(l, charged, tenantCharged, first) {
        FirstFitIsFair(l, if spawn(items[0].id).Some? then charged + [first] else charged,
                       tenantCharged + [first], items[1..], spawn, i - 1, j - 1);
      } else {
        FirstFitIsFair(l, charged, tenantCharged, items[1..], spawn, i - 1, j - 1);
      }
    }
  }

  // ---- the table a cycle leaves

  /** `items` are accepted rows of the table, oldest first. */
  predicate Listed(rows: seq<Slot>, items: seq<Item>) {
    && Ascending(items)
    && forall x :: x in items ==> Live(rows, x.id) && rows[x.id].value == x.row && x.row.status.Accepted?
  }

  lemma WindowIsListed(rows: seq<Slot>, limit: nat)
    ensures Listed(rows, Take(Select(rows, IsAccepted), limit))
  {
    SelectIsExact(rows, IsAccepted);
    var items := Take(Select(rows, IsAccepted), limit);
    assert forall x :: x in items ==> x in Select(rows, IsAccepted);
  }

  lemma HandleCarries(l: ResourceLedger, c: Counters, rows: seq<Slot>, item: Item, spawn: nat -> Option<nat>, now: nat)
    requires Live(rows, item.id)
    ensures Handle(l, c, rows, item, spawn, now)
         == rows[item.id := Some(Carried(rows[item.id].value, Decide(l, c, item.row), spawn(item.id), now))]
  {
  }

  lemma HeadIsApart(items: seq<Item>)
    requires items != [] && Ascending(items)
    ensures forall x :: x in items[1..] ==> x.id != items[0].id
  {
    forall x | x in items[1..] ensures x.id != items[0].id {
      var k :| 0 <= k < |items[1..]| && items[1..][k] == x;
      assert items[0].id < items[k + 1].id;
    }
  }

  lemma ListedAfter(rows: seq<Slot>, items: seq<Item>, x: Slot)
    requires items != [] && Listed(rows, items)
    ensures Listed(rows[items[0].id := x], items[1..])
  {
    HeadIsApart(items);
    forall y | y in items[1..] ensures y in items {
    }
  }

  lemma {:induction false} CycleLeavesOthers(l: ResourceLedger, c: Counters, rows: seq<Slot>, items: seq<Item>,
                                             spawn: nat -> Option<nat>, now: nat, id: nat)
    requires id < |rows|
    requires forall x :: x in items ==> x.id != id
    ensures Cycle(l, c, rows, items, spawn, now)[id] == rows[id]
    decreases |items|
  {
    if items != [] {
      assert items[0] in items;
      CycleLeavesOthers(l, NextCounters(l, c, items[0], spawn), Handle(l, c, rows, items[0], spawn, now),
                        items[1..], spawn, now, id);
    }
  }

  /** A cycle carries out its decisions: each listed row ends as the decision taken for it says. */
  lemma {:induction false} CycleCarriesDecisions(l: ResourceLedger, c: Counters, rows: seq<Slot>, items: seq<Item>,
                                                 spawn: nat -> Option<nat>, now: nat, k: nat)
    requires Listed(rows, items) && k < |items|
    ensures Cycle(l, c, rows, items, spawn, now)[items[k].id]
         == Some(Carried(items[k].row, Decisions(l, c, items, spawn)[k], spawn(items[k].id), now))
    decreases k
  {
    assert items[0] in items;
    var next, counters := Handle(l, c, rows, items[0], spawn, now), NextCounters(l, c, items[0], spawn);
    HandleCarries(l, c, rows, items[0], spawn, now);
    if k == 0 {
      HeadIsApart(items);
      CycleLeavesOthers(l, counters, next, items[1..], spawn, now, items[0].id);
    } else {
      ListedAfter(rows, items, next[items[0].id]);
      CycleCarriesDecisions(l, counters, next, items[1..], spawn, now, k - 1);
    }
  }

  predicate LogsReservation(before: Row, after: Row) {
    before.log + [ReservedEvent(Wanted(before))] <= after.log
  }

  /** The cycle reserved for this row: its log goes on with the reservation it asks for. */
  predicate ReservedNow(x: Item, after: seq<Slot>) {
    Live(after, x.id) && LogsReservation(x.row, after[x.id].value)
  }

  lemma GrantsReserve(row: Row, d: Decision, spawned: Option<nat>, now: nat)
    requires d.Grant? ==> d.r == Wanted(row)
    ensures LogsReservation(row, Carried(row, d, spawned, now)) <==> d.Grant?
  {
    var after := Carried(row, d, spawned, now).log;
    if d.CancelIt? {
      assert after == row.log + (FreedBy(row) + [CancelledEvent]);
      assert !(FreedBy(row) + [CancelledEvent])[0].ReservedEvent?;
      assert after[|row.log|] == (FreedBy(row) + [CancelledEvent])[0];
    }
  }

  lemma {:induction false} GrantsAreWanted(l: ResourceLedger, c: Counters, items: seq<Item>,
                                           spawn: nat -> Option<nat>, k: nat)
    requires k < |items|
    ensures var d := Decisions(l, c, items, spawn)[k]; d.Grant? ==> d.r == Wanted(items[k].row)
    decreases k
  {
    if k > 0 { GrantsAreWanted(l, NextCounters(l, c, items[0], spawn), items[1..], spawn, k - 1); }
  }

  /** A cycle reserves for exactly the listed rows that first fit with exact sums admits. */
  lemma CycleReservesFirstFit(l: ResourceLedger, rows: seq<Slot>, limit: nat, spawn: nat -> Option<nat>, now: nat,
                              k: nat)
    requires k < |Take(Select(rows, IsAccepted), limit)|
    ensures var items, held := Take(Select(rows, IsAccepted), limit), ActiveHeld(rows);
            ReservedNow(items[k], DispatchTable(l, rows, limit, spawn, now)) <==>
              FirstFit(l, held, held, items, spawn)[k].Grant?
  {
    var items, c := Take(Select(rows, IsAccepted), limit), Snapshot(l, rows);
    WindowIsListed(rows, limit);
    SnapshotTracks(l, rows);
    DecisionsAreFirstFit(l, c, ActiveHeld(rows), ActiveHeld(rows), items, spawn);
    CycleCarriesDecisions(l, c, rows, items, spawn, now, k);
    GrantsAreWanted(l, c, items, spawn, k);
    GrantsReserve(items[k].row, Decisions(l, c, items, spawn)[k], spawn(items[k].id), now);
  }

  /** Of two waiting tasks of one tenant, the one listed later and asking for at least as much
      is reserved only if the earlier one is, whatever else is listed and whichever spawns fail. */
  lemma {:induction false} OrderFairness(l: ResourceLedger, rows: seq<Slot>, limit: nat, spawn: nat -> Option<nat>,
                                         now: nat,
                                         i: nat, j: nat)
    requires i < j < |Take(Select(rows, IsAccepted), limit)|
    requires var items := Take(Select(rows, IsAccepted), limit);
             && !items[i].row.killRequested && !items[i].row.Active()
             && items[i].row.tenant == items[j].row.tenant
             && NoLarger(Wanted(items[i].row), Wanted(items[j].row))
    ensures var items, after := Take(Select(rows, IsAccepted), limit), DispatchTable(l, rows, limit, spawn, now);
            ReservedNow(items[j], after) ==> ReservedNow(items[i], after)
  {
    var items, held := Take(Select(rows, IsAccepted), limit), ActiveHeld(rows);
    CycleReservesFirstFit(l, rows, limit, spawn, now, i);
    CycleReservesFirstFit(l, rows, limit, spawn, now, j);
    if FirstFit(l, held, held, items, spawn)[j].Grant? {
      FirstFitIsFair(l, held, held, items, spawn, i, j);
    }
  }

  // ---- maximality

  ghost predicate FitsTable(l: ResourceLedger, rows: seq<Slot>, h: Held) {
    && (forall d: Dim :: DimFits(l.capacity, Usage(rows, Everyone, d), h.r, d))
    && (l.QuotaOf(h.tenant).Some? ==>
          forall d: Dim :: DimFits(l.QuotaOf(h.tenant).value, Usage(rows, Tenant(h.tenant.value), d), h.r, d))
  }

  ghost predicate UsageIs(rows: seq<Slot>, charged: seq<Held>, scope: Scope) {
    forall d :: Usage(rows, scope, d) == HeldUsage(charged, scope, d)
  }

  /** No listed row is flagged while it holds a reservation. */
  predicate NoneFlaggedHolding(items: seq<Item>) {
    forall x :: x in items ==> !(x.row.killRequested && x.row.Active())
  }

  /** What handling the head adds to the table: its reservation if it is granted and spawned. */
  lemma HandleUsage(l: ResourceLedger, c: Counters, rows: seq<Slot>, items: seq<Item>, spawn: nat -> Option<nat>,
                    now: nat,
                    scope: Scope, d: Dim)
    requires items != [] && Listed(rows, items) && NoneFlaggedHolding(items)
    ensures var row := items[0].row;
            Usage(Handle(l, c, rows, items[0], spawn, now), scope, d) == Usage(rows, scope, d)
              + if Decide(l, c, row).Grant? && spawn(items[0].id).Some? && InScope(row.tenant, scope)
                then Amount(Wanted(row), d) else 0
  {
    assert items[0] in items;
    var id, row := items[0].id, items[0].row;
    var after := Some(Carried(row, Decide(l, c, row), spawn(id), now));
    HandleCarries(l, c, rows, items[0], spawn, now);
    UsageUpdate(rows, id, after, scope, d);
  }

  lemma {:induction false} CycleUsageGrows(l: ResourceLedger, c: Counters, rows: seq<Slot>, items: seq<Item>,
                                           spawn: nat -> Option<nat>, now: nat, scope: Scope, d: Dim)
    requires Listed(rows, items) && NoneFlaggedHolding(items)
    ensures Usage(rows, scope, d) <= Usage(Cycle(l, c, rows, items, spawn, now), scope, d)
    decreases |items|
  {
    if items != [] {
      assert items[0] in items;
      var next := Handle(l, c, rows, items[0], spawn, now);
      HandleUsage(l, c, rows, items, spawn, now, scope, d);
      HandleCarries(l, c, rows, items[0], spawn, now);
      ListedAfter(rows, items, next[items[0].id]);
      CycleUsageGrows(l, NextCounters(l, c, items[0], spawn), next, items[1..], spawn, now, scope, d);
    }
  }

  /** What is charged after the head: globally if it is granted and spawned, to its tenant if granted. */
  function NextCharged(l: ResourceLedger, c: Counters, charged: seq<Held>, item: Item, kept: bool): seq<Held> {
    if Decide(l, c, item.row).Grant? && kept then charged + [Held(item.row.tenant, Wanted(item.row))] else charged
  }

  lemma HandleTracks(l: ResourceLedger, c: Counters, charged: seq<Held>, tenantCharged: seq<Held>, item: Item,
                     spawn: nat -> Option<nat>)
    requires Tracks(l, c, charged, tenantCharged)
    ensures Tracks(l, NextCounters(l, c, item, spawn), NextCharged(l, c, charged, item, spawn(item.id).Some?),
                   NextCharged(l, c, tenantCharged, item, true))
  {
    var h := Held(item.row.tenant, Wanted(item.row));
    DecideIsExact(l, c, charged, tenantCharged, item.row);
    if Decide(l, c, item.row).Grant? {
      if spawn(item.id).Some? {
        ChargeTracks(l, c, charged, tenantCharged, h);
      } else {
        RefundTracks(l, c, charged, tenantCharged, h);
      }
    }
  }

  /** Every spawn of a listed row of this tenant succeeds. */
  predicate SpawnsWork(items: seq<Item>, tenant: Option<string>, spawn: nat -> Option<nat>) {
    forall x :: x in items && x.row.tenant == tenant ==> spawn(x.id).Some?
  }

  lemma HandleUsageIs(l: ResourceLedger, c: Counters, charged: seq<Held>, rows: seq<Slot>, items: seq<Item>,
                      spawn: nat -> Option<nat>, now: nat, scope: Scope, kept: bool)
    requires items != [] && Listed(rows, items) && NoneFlaggedHolding(items) && UsageIs(rows, charged, scope)
    requires InScope(items[0].row.tenant, scope) ==> kept == spawn(items[0].id).Some?
    ensures UsageIs(Handle(l, c, rows, items[0], spawn, now), NextCharged(l, c, charged, items[0], kept), scope)
  {
    forall d ensures Usage(Handle(l, c, rows, items[0], spawn, now), scope, d)
                  == HeldUsage(NextCharged(l, c, charged, items[0], kept), scope, d)
    {
      HandleUsage(l, c, rows, items, spawn, now, scope, d);
      HeldUsageAppend(charged, Held(items[0].row.tenant, Wanted(items[0].row)), scope, d);
    }
  }

  lemma FitsTableIsMonotone(l: ResourceLedger, charged: seq<Held>, tenantCharged: seq<Held>, after: seq<Slot>, h: Held)
    requires forall d :: HeldUsage(charged, Everyone, d) <= Usage(after, Everyone, d)
    requires l.QuotaOf(h.tenant).Some? ==>
      forall d :: HeldUsage(tenantCharged, Tenant(h.tenant.value), d) <= Usage(after, Tenant(h.tenant.value), d)
    requires FitsTable(l, after, h)
    ensures Fits(l, charged, tenantCharged, h)
  {
    forall d: Dim ensures Room(l.capacity, Scoped(charged, Everyone), h.r, d) {
      assert DimFits(l.capacity, Usage(after, Everyone, d), h.r, d);
    }
    if l.QuotaOf(h.tenant).Some? {
      forall d: Dim
        ensures Room(l.QuotaOf(h.tenant).value, Scoped(tenantCharged, Tenant(h.tenant.value)), h.r, d)
      {
        assert DimFits(l.QuotaOf(h.tenant).value, Usage(after, Tenant(h.tenant.value), d), h.r, d);
      }
    }
  }

  /** The head, if the cycle leaves it waiting, does not fit next to what the cycle leaves. */
  lemma HeadIsMaximal(l: ResourceLedger, c: Counters, charged: seq<Held>, tenantCharged: seq<Held>, rows: seq<Slot>,
                      items: seq<Item>, spawn: nat -> Option<nat>, now: nat)
    requires items != [] && Listed(rows, items) && NoneFlaggedHolding(items) && Tracks(l, c, charged, tenantCharged)
    requires UsageIs(rows, charged, Everyone)
    requires l.QuotaOf(items[0].row.tenant).Some? ==> UsageIs(rows, tenantCharged, Tenant(items[0].row.tenant.value))
    requires Decide(l, c, items[0].row).SkipIt? && !items[0].row.Active()
    ensures !FitsTable(l, Cycle(l, c, rows, items, spawn, now), Held(items[0].row.tenant, Wanted(items[0].row)))
  {
    var after, h := Cycle(l, c, rows, items, spawn, now), Held(items[0].row.tenant, Wanted(items[0].row));
    DecideIsExact(l, c, charged, tenantCharged, items[0].row);
    forall scope, d ensures Usage(rows, scope, d) <= Usage(after, scope, d) {
      CycleUsageGrows(l, c, rows, items, spawn, now, scope, d);
    }
    if FitsTable(l, after, h) { FitsTableIsMonotone(l, charged, tenantCharged, after, h); }
  }

  lemma {:induction false} CycleIsMaximalFrom(l: ResourceLedger, c: Counters, charged: seq<Held>,
                                              tenantCharged: seq<Held>,
                                              rows: seq<Slot>, items: seq<Item>, spawn: nat -> Option<nat>, now: nat,
                                              k: nat)
    requires k < |items| && Listed(rows, items) && NoneFlaggedHolding(items) && Tracks(l, c, charged, tenantCharged)
    requires UsageIs(rows, charged, Everyone)
    requires var tenant := items[k].row.tenant;
             l.QuotaOf(tenant).Some? ==>
               UsageIs(rows, tenantCharged, Tenant(tenant.value)) && SpawnsWork(items, tenant, spawn)
    requires Decisions(l, c, items, spawn)[k].SkipIt? && !items[k].row.Active()
    ensures !FitsTable(l, Cycle(l, c, rows, items, spawn, now), Held(items[k].row.tenant, Wanted(items[k].row)))
    decreases k
  {
    if k == 0 {
      HeadIsMaximal(l, c, charged, tenantCharged, rows, items, spawn, now);
    } else {
      assert items[0] in items;
      var tenant, next := items[k].row.tenant, Handle(l, c, rows, items[0], spawn, now);
      HandleTracks(l, c, charged, tenantCharged, items[0], spawn);
      HandleUsageIs(l, c, charged, rows, items, spawn, now, Everyone, spawn(items[0].id).Some?);
      if l.QuotaOf(tenant).Some? {
        HandleUsageIs(l, c, tenantCharged, rows, items, spawn, now, Tenant(tenant.value), true);
      }
      HandleCarries(l, c, rows, items[0], spawn, now);
      ListedAfter(rows, items, next[items[0].id]);
      CycleIsMaximalFrom(l, NextCounters(l, c, items[0], spawn),
                         NextCharged(l, c, charged, items[0], spawn(items[0].id).Some?),
                         NextCharged(l, c, tenantCharged, items[0], true), next, items[1..], spawn, now, k - 1);
    }
  }

  lemma SkippedIsMaximal(l: ResourceLedger, rows: seq<Slot>, limit: nat, spawn: nat -> Option<nat>, now: nat, k: nat)
    requires k < |Take(Select(rows, IsAccepted), limit)| && NoneFlaggedHolding(Take(Select(rows, IsAccepted), limit))
    requires var items := Take(Select(rows, IsAccepted), limit);
             && (l.QuotaOf(items[k].row.tenant).Some? ==> SpawnsWork(items, items[k].row.tenant, spawn))
             && Decisions(l, Snapshot(l, rows), items, spawn)[k].SkipIt? && !items[k].row.Active()
    ensures var x := Take(Select(rows, IsAccepted), limit)[k];
            !FitsTable(l, DispatchTable(l, rows, limit, spawn, now), Held(x.row.tenant, Wanted(x.row)))
  {
    var held := ActiveHeld(rows);
    WindowIsListed(rows, limit);
    SnapshotTracks(l, rows);
    forall scope, d ensures Usage(rows, scope, d) == HeldUsage(held, scope, d) {
      UsageIsHeldUsage(rows, scope, d);
    }
    CycleIsMaximalFrom(l, Snapshot(l, rows), held, held, rows, Take(Select(rows, IsAccepted), limit), spawn, now, k);
  }

  lemma WaitingWasSkipped(row: Row, d: Decision, spawned: Option<nat>, now: nat)
    requires row.status.Accepted?
    ensures var after := Carried(row, d, spawned, now);
            after.status.Accepted? && !after.Active() ==> d.SkipIt? && !row.Active()
  {
  }

  /** A task the cycle leaves accepted and unreserved could not be added to the resulting table
      within both capacity and tenant quota, unless its tenant has a quota and a failed spawn. */
  lemma CycleIsMaximal(l: ResourceLedger, rows: seq<Slot>, limit: nat, spawn: nat -> Option<nat>, now: nat, k: nat)
    requires k < |Take(Select(rows, IsAccepted), limit)| && NoneFlaggedHolding(Take(Select(rows, IsAccepted), limit))
    requires var items := Take(Select(rows, IsAccepted), limit);
             l.QuotaOf(items[k].row.tenant).Some? ==> SpawnsWork(items, items[k].row.tenant, spawn)
    ensures var x, after := Take(Select(rows, IsAccepted), limit)[k], DispatchTable(l, rows, limit, spawn, now);
            && Live(after, x.id)
            && (after[x.id].value.status.Accepted? && !after[x.id].value.Active() ==>
                  !FitsTable(l, after, Held(x.row.tenant, Wanted(x.row))))
  {
    var items, c := Take(Select(rows, IsAccepted), limit), Snapshot(l, rows);
    var x, d := items[k], Decisions(l, c, items, spawn)[k];
    WindowIsListed(rows, limit);
    assert x in items;
    CycleCarriesDecisions(l, c, rows, items, spawn, now, k);
    WaitingWasSkipped(x.row, d, spawn(x.id), now);
    if d.SkipIt? && !x.row.Active() { SkippedIsMaximal(l, rows, limit, spawn, now, k); }
  }
}
