/** The queue drains: rounds of "every active task completes, then one dispatch cycle" empty
    a queue of n tasks in n rounds. */
module Drain {
  import opened Types
  import opened Ledger
  import opened Table
  import opened Dispatch

  /** What submission checks before it inserts a row (src/runtime.rs:185-193). */
  predicate Admitted(l: ResourceLedger, tenant: Option<string>, limits: Limits) {
    && l.EnsureWithinCapacity(FromLimits(limits)).Ok?
    && l.EnsureWithinTenantQuota(tenant, FromLimits(limits)).Ok?
  }

  predicate Waiting(l: ResourceLedger, row: Row) {
    && Admitted(l, row.tenant, row.limits)
    && Wanted(row) == FromLimits(row.limits)
    && !row.Active()
  }

  predicate Drainable(l: ResourceLedger, rows: seq<Slot>) {
    forall i :: 0 <= i < |rows| && rows[i].Some? && rows[i].value.status.Accepted? ==> Waiting(l, rows[i].value)
  }

  /** No row becomes accepted and the accepted ones are as they were. */
  predicate AcceptedUntouched(rows: seq<Slot>, after: seq<Slot>) {
    && |rows| == |after|
    && forall i :: 0 <= i < |rows| && after[i].Some? && after[i].value.status.Accepted? ==> after[i] == rows[i]
  }

  lemma {:induction false} FewerAccepted(rows: seq<Slot>, after: seq<Slot>)
    requires AcceptedUntouched(rows, after)
    ensures AcceptedCount(after) <= AcceptedCount(rows)
    decreases |rows|
  {
    if rows != [] {
      var n := |rows| - 1;
      FewerAccepted(rows[..n], after[..n]);
    }
  }

  lemma HandleUntouched(l: ResourceLedger, c: Counters, rows: seq<Slot>, item: Item, spawn: nat -> Option<nat>,
                        now: nat)
    ensures AcceptedUntouched(rows, Handle(l, c, rows, item, spawn, now))
  {
  }

  lemma {:induction false} CycleUntouched(l: ResourceLedger, c: Counters, rows: seq<Slot>, items: seq<Item>,
                                          spawn: nat -> Option<nat>, now: nat)
    ensures AcceptedUntouched(rows, Cycle(l, c, rows, items, spawn, now))
    decreases |items|
  {
    if items != [] {
      HandleUntouched(l, c, rows, items[0], spawn, now);
      CycleUntouched(l, NextCounters(l, c, items[0], spawn), Handle(l, c, rows, items[0], spawn, now),
                     items[1..], spawn, now);
    }
  }

  /** With an empty ledger the first listed task is never skipped. */
  lemma FirstIsHandled(l: ResourceLedger, rows: seq<Slot>, item: Item)
    requires ActiveHeld(rows) == []
    requires Waiting(l, item.row)
    ensures !Decide(l, Snapshot(l, rows), item.row).SkipIt?
  {
  }

  lemma {:induction false} NothingHeld(rows: seq<Slot>)
    requires forall i :: 0 <= i < |rows| && rows[i].Some? ==> !rows[i].value.Active()
    ensures ActiveHeld(rows) == []
  {
    if rows != [] {
      NothingHeld(rows[..|rows| - 1]);
    }
  }

  lemma {:induction false} HandledLeavesQueue(l: ResourceLedger, c: Counters, rows: seq<Slot>, item: Item,
                                              spawn: nat -> Option<nat>, now: nat)
    requires Live(rows, item.id) && rows[item.id].value.status.Accepted?
    requires !Decide(l, c, item.row).SkipIt?
    ensures AcceptedCount(Handle(l, c, rows, item, spawn, now)) < AcceptedCount(rows)
  {
    var after := Handle(l, c, rows, item, spawn, now);
    assert after[item.id].Some? && !after[item.id].value.status.Accepted?;
    assert after == rows[item.id := after[item.id]];
    AcceptedCountUpdate(rows, item.id, after[item.id]);
  }

  lemma CycleShortens(l: ResourceLedger, c: Counters, rows: seq<Slot>, items: seq<Item>, spawn: nat -> Option<nat>,
                      now: nat)
    requires items != []
    requires Live(rows, items[0].id) && rows[items[0].id].value.status.Accepted?
    requires !Decide(l, c, items[0].row).SkipIt?
    ensures AcceptedCount(Cycle(l, c, rows, items, spawn, now)) < AcceptedCount(rows)
  {
    HandledLeavesQueue(l, c, rows, items[0], spawn, now);
    var next, counters := Handle(l, c, rows, items[0], spawn, now), NextCounters(l, c, items[0], spawn);
    CycleUntouched(l, counters, next, items[1..], spawn, now);
    FewerAccepted(next, Cycle(l, counters, next, items[1..], spawn, now));
  }

  lemma HeadIsWaiting(l: ResourceLedger, rows: seq<Slot>, limit: nat)
    requires Drainable(l, rows) && limit >= 1 && AcceptedCount(rows) > 0
    ensures var items := Take(Select(rows, IsAccepted), limit);
            && items != [] && Live(rows, items[0].id)
            && rows[items[0].id].value == items[0].row
            && items[0].row.status.Accepted? && Waiting(l, items[0].row)
  {
    AcceptedCountIsListLength(rows);
    SelectIsExact(rows, IsAccepted);
    assert Take(Select(rows, IsAccepted), limit)[0] in Select(rows, IsAccepted);
  }

  /** A cycle that starts from an empty ledger and a non-empty queue shortens the queue. */
  lemma CycleShortensQueue(l: ResourceLedger, rows: seq<Slot>, limit: nat, spawn: nat -> Option<nat>, now: nat)
    requires forall i :: 0 <= i < |rows| && rows[i].Some? ==> !rows[i].value.Active()
    requires Drainable(l, rows)
    requires limit >= 1 && AcceptedCount(rows) > 0
    ensures AcceptedCount(DispatchTable(l, rows, limit, spawn, now)) < AcceptedCount(rows)
  {
    NothingHeld(rows);
    HeadIsWaiting(l, rows, limit);
    var items := Take(Select(rows, IsAccepted), limit);
    FirstIsHandled(l, rows, items[0]);
    CycleShortens(l, Snapshot(l, rows), rows, items, spawn, now);
  }

  // ---- rounds

  /** Every row holding a reservation completes; `outcome(i)` is how row i ends. */
  function CompleteActive(rows: seq<Slot>, outcome: nat -> CompletionUpdate): (after: seq<Slot>)
    ensures |after| == |rows|
    ensures forall i :: 0 <= i < |rows| ==> after[i] == CompleteSlot(rows[i], outcome(i))
  {
    seq(|rows|, i requires 0 <= i < |rows| => CompleteSlot(rows[i], outcome(i)))
  }

  function CompleteSlot(slot: Slot, u: CompletionUpdate): Slot {
    if slot.Some? && slot.value.Active() then Some(Apply(slot.value, Complete(u), u.finishedAt)) else slot
  }

  datatype Round = Round(outcome: nat -> CompletionUpdate, spawn: nat -> Option<nat>, now: nat)

  function RunRound(l: ResourceLedger, rows: seq<Slot>, limit: nat, round: Round): seq<Slot> {
    DispatchTable(l, CompleteActive(rows, round.outcome), limit, round.spawn, round.now)
  }

  function RunRounds(l: ResourceLedger, rows: seq<Slot>, limit: nat, rounds: seq<Round>): seq<Slot>
    decreases |rounds|
  {
    if rounds == [] then rows else RunRounds(l, RunRound(l, rows, limit, rounds[0]), limit, rounds[1..])
  }

  predicate EndsTasks(round: Round, size: nat) {
    forall i :: 0 <= i < size ==> round.outcome(i).status.IsTerminal()
  }

  /** Rows that are still accepted are as they were, so they can still drain. */
  lemma UntouchedIsDrainable(l: ResourceLedger, rows: seq<Slot>, after: seq<Slot>)
    requires Drainable(l, rows) && AcceptedUntouched(rows, after)
    ensures Drainable(l, after)
  {
  }

  lemma {:induction false} RoundMakesProgress(l: ResourceLedger, rows: seq<Slot>, limit: nat, round: Round)
    requires Drainable(l, rows) && limit >= 1 && EndsTasks(round, |rows|)
    ensures Drainable(l, RunRound(l, rows, limit, round))
    ensures |RunRound(l, rows, limit, round)| == |rows|
    ensures AcceptedCount(RunRound(l, rows, limit, round)) < AcceptedCount(rows)
         || AcceptedCount(RunRound(l, rows, limit, round)) == AcceptedCount(rows) == 0
  {
    var idle, after := CompleteActive(rows, round.outcome), RunRound(l, rows, limit, round);
    CompletionLeavesIdle(rows, round);
    UntouchedIsDrainable(l, rows, idle);
    FewerAccepted(rows, idle);
    CycleUntouched(l, Snapshot(l, idle), idle, Take(Select(idle, IsAccepted), limit), round.spawn, round.now);
    UntouchedIsDrainable(l, idle, after);
    FewerAccepted(idle, after);
    if AcceptedCount(idle) > 0 {
      CycleShortensQueue(l, idle, limit, round.spawn, round.now);
    }
  }

  lemma CompletionLeavesIdle(rows: seq<Slot>, round: Round)
    requires EndsTasks(round, |rows|)
    ensures AcceptedUntouched(rows, CompleteActive(rows, round.outcome))
    ensures var idle := CompleteActive(rows, round.outcome);
            forall i :: 0 <= i < |idle| && idle[i].Some? ==> !idle[i].value.Active()
  {
  }

  /** n rounds empty a queue of n, whatever the completions and spawn results are. */
  lemma {:induction false} QueueDrains(l: ResourceLedger, rows: seq<Slot>, limit: nat, rounds: seq<Round>)
    requires Drainable(l, rows) && limit >= 1
    requires forall k :: 0 <= k < |rounds| ==> EndsTasks(rounds[k], |rows|)
    requires |rounds| >= AcceptedCount(rows)
    ensures AcceptedCount(RunRounds(l, rows, limit, rounds)) == 0
    decreases |rounds|
  {
    if rounds != [] {
      RoundMakesProgress(l, rows, limit, rounds[0]);
      QueueDrains(l, RunRound(l, rows, limit, rounds[0]), limit, rounds[1..]);
    }
  }
}
