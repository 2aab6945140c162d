/** What each transaction of the repository does to a row, field by field, and what it leaves. */
module TransactionLaws {
  import opened Types
  import opened Ledger
  import opened Table
  import opened Dispatch
  import opened DispatchLaws
  import opened Drain
  import opened Protocol
  import opened Recovery

  // ---- groups of fields

  predicate SameLife(o: Row, n: Row) {
    && n.status == o.status && n.startedAt == o.startedAt && n.finishedAt == o.finishedAt
    && n.durationMs == o.durationMs && n.exitCode == o.exitCode && n.exitSignal == o.exitSignal && n.error == o.error
  }

  predicate SameProcesses(o: Row, n: Row) { n.shimPid == o.shimPid && n.pid == o.pid }

  predicate SameSignals(o: Row, n: Row) {
    && n.killRequested == o.killRequested && n.killRequestedAt == o.killRequestedAt
    && n.timeoutTriggered == o.timeoutTriggered
  }

  predicate SameHold(o: Row, n: Row) {
    n.reservation == o.reservation && n.reservedAt == o.reservedAt && n.releasedAt == o.releasedAt
  }

  /** Nothing is held afterwards; a reservation that was held is released now, and the log says so
      before it goes on with `last`. */
  predicate Lets(o: Row, n: Row, now: nat, last: seq<Event>) {
    && n.reservation == o.reservation && n.reservedAt == o.reservedAt
    && (o.reservation.Some? && o.releasedAt.None? ==>
          n.releasedAt == Some(now) && n.log == o.log + [ReleasedEvent(o.reservation.value)] + last)
    && (o.reservation.None? || o.releasedAt.Some? ==> n.releasedAt == o.releasedAt && n.log == o.log + last)
  }

  // ---- the transactions

  lemma DispatchedMeans(o: Row, shimPid: nat, now: nat)
    ensures var n := Apply(o, Dispatched(shimPid), now);
            && (o.status == Accepted ==>
                  && n.status == Running && n.shimPid == Some(shimPid) && n.pid == o.pid && n.updatedAt == now
                  && n.startedAt == o.startedAt && n.finishedAt == o.finishedAt && n.error == o.error
                  && SameTask(o, n) && SameSignals(o, n) && SameHold(o, n) && n.log == o.log)
            && (o.status != Accepted ==> n == o)
  {
  }

  lemma StartedMeans(o: Row, pid: nat, now: nat)
    ensures var n := Apply(o, Started(pid), now);
            && n.status == Running && n.pid == Some(pid) && n.startedAt == Some(now) && n.updatedAt == now
            && n.shimPid == o.shimPid && n.finishedAt == o.finishedAt && n.durationMs == o.durationMs
            && n.exitCode == o.exitCode && n.exitSignal == o.exitSignal && n.error == o.error
            && SameTask(o, n) && SameSignals(o, n) && SameHold(o, n) && n.log == o.log + [StartedEvent]
  {
  }

  lemma ReserveMeans(o: Row, r: Reservation, now: nat)
    ensures var n := Apply(o, Reserve(r), now);
            && n.reservation == Some(r) && n.reservedAt == Some(now) && n.releasedAt == None && n.updatedAt == now
            && SameTask(o, n) && SameLife(o, n) && SameProcesses(o, n) && SameSignals(o, n)
            && n.log == o.log + [ReservedEvent(r)]
  {
  }

  lemma ReleaseMeans(o: Row, now: nat)
    ensures var n := Apply(o, Release, now);
            && Lets(o, n, now, [])
            && SameTask(o, n) && SameLife(o, n) && SameProcesses(o, n) && SameSignals(o, n)
            && n.updatedAt == (if o.reservation.Some? && o.releasedAt.None? then now else o.updatedAt)
  {
  }

  lemma RequestKillMeans(o: Row, now: nat)
    ensures var n := Apply(o, RequestKill, now);
            && n.killRequested && n.killRequestedAt == Some(now) && n.updatedAt == now
            && n.timeoutTriggered == o.timeoutTriggered
            && SameTask(o, n) && SameLife(o, n) && SameProcesses(o, n) && SameHold(o, n)
            && n.log == o.log + [KillRequestedEvent]
  {
  }

  lemma HitTimeoutMeans(o: Row, now: nat)
    ensures var n := Apply(o, HitTimeout, now);
            && n.timeoutTriggered && n.updatedAt == now
            && n.killRequested == o.killRequested && n.killRequestedAt == o.killRequestedAt
            && SameTask(o, n) && SameLife(o, n) && SameProcesses(o, n) && SameHold(o, n)
            && n.log == o.log + [TimeoutEvent]
  {
  }

  /** Only an accepted row is cancelled; the log is written all the same. */
  lemma CancelAcceptedMeans(o: Row, now: nat)
    ensures var n := Apply(o, CancelAccepted, now);
            && SameTask(o, n) && SameProcesses(o, n) && SameSignals(o, n)
            && (o.status == Accepted ==>
                  && n.status == Cancelled && n.finishedAt == Some(now) && n.updatedAt == now
                  && n.error == Some(KillError) && n.durationMs == Some(0)
                  && n.startedAt == o.startedAt && n.exitCode == o.exitCode && n.exitSignal == o.exitSignal
                  && Lets(o, n, now, [CancelledEvent]))
            && (o.status != Accepted ==>
                  && SameLife(o, n) && SameHold(o, n) && n.updatedAt == o.updatedAt
                  && n.log == o.log + (if o.reservation.Some? && o.releasedAt.None?
                                       then [ReleasedEvent(o.reservation.value)] else []) + [CancelledEvent])
  {
  }

  lemma CompleteMeans(o: Row, u: CompletionUpdate, now: nat)
    requires u.status.IsTerminal()
    ensures var n := Apply(o, Complete(u), now);
            && n.status == u.status && n.finishedAt == Some(u.finishedAt) && n.updatedAt == u.finishedAt
            && n.durationMs == u.durationMs && n.exitCode == u.exitCode && n.exitSignal == u.exitSignal
            && n.error == u.error && n.startedAt == o.startedAt
            && SameTask(o, n) && SameProcesses(o, n) && SameSignals(o, n)
            && Lets(o, n, u.finishedAt, [match u.status
                                         case Success => FinishedEvent
                                         case Failed => FailedEvent
                                         case _ => CancelledEvent])
  {
  }

  lemma MarkRecoveredMeans(o: Row, now: nat)
    ensures var n := Apply(o, MarkRecovered, now);
            && n.updatedAt == (if o.status == Running then now else o.updatedAt)
            && SameTask(o, n) && SameLife(o, n) && SameProcesses(o, n) && SameSignals(o, n) && SameHold(o, n)
            && n.log == o.log + [RecoveredEvent]
  {
  }

  /** A transaction touches its own row, if that is there, and no other. */
  lemma CommitTouchesOne(rows: seq<Slot>, id: nat, w: Write, now: nat, i: nat)
    requires i < |rows|
    ensures var after := Commit(rows, id, w, now);
            && |after| == |rows|
            && (after[i].Some? <==> rows[i].Some?)
            && (i != id ==> after[i] == rows[i])
            && (i == id && rows[i].Some? ==> after[i].value == Apply(rows[i].value, w, now))
  {
  }

  // ---- the outcomes written without a workload's exit

  /** A task that ends without its workload having run: its error, no duration and no exit. */
  predicate EndsUnrun(u: CompletionUpdate, status: TaskStatus, error: ErrorCode, now: nat) {
    && u.status == status && u.error == Some(error) && u.finishedAt == now
    && u.durationMs == Some(0) && u.exitCode == None && u.exitSignal == None
  }

  lemma UnrunOutcomes(error: ErrorCode, now: nat)
    ensures EndsUnrun(LaunchFailure(now), Failed, LaunchFailed, now)
    ensures EndsUnrun(CancelledBeforeLaunch(now), Cancelled, KillError, now)
    ensures EndsUnrun(LaunchErrorUpdate(error, now), Failed, error, now)
    ensures EndsUnrun(RecoveryLost(now), Failed, Internal, now)
  {
  }

  // ---- a dispatch cycle, row by row

  /** What a listed row ends as: cancelled if it was flagged, running under its new shim with the
      reservation it wanted or failed with nothing held if the cycle reserved for it, and else as
      it was. */
  predicate Ends(x: Item, after: seq<Slot>, spawned: Option<nat>, now: nat) {
    && Live(after, x.id)
    && var o, n := x.row, after[x.id].value;
       && (o.killRequested ==>
             && n.status == Cancelled && n.error == Some(KillError) && n.finishedAt == Some(now)
             && Lets(o, n, now, [CancelledEvent]))
       && (!o.killRequested && ReservedNow(x, after) && spawned.Some? ==>
             && n.status == Running && n.shimPid == spawned && n.error == o.error && n.finishedAt == o.finishedAt
             && n.reservation == Some(Wanted(o)) && n.reservedAt == Some(now) && n.releasedAt == None)
       && (!o.killRequested && ReservedNow(x, after) && spawned.None? ==>
             && n.status == Failed && n.error == Some(LaunchFailed) && n.finishedAt == Some(now)
             && n.reservation == Some(Wanted(o)) && n.releasedAt == Some(now))
       && (!o.killRequested && !ReservedNow(x, after) ==> n == o)
  }

  lemma CarriedEnds(x: Item, d: Decision, after: seq<Slot>, spawned: Option<nat>, now: nat)
    requires x.row.status.Accepted? && (d.CancelIt? <==> x.row.killRequested) && (d.Grant? ==> d.r == Wanted(x.row))
    requires Live(after, x.id) && after[x.id].value == Carried(x.row, d, spawned, now)
    ensures Ends(x, after, spawned, now)
  {
    GrantsReserve(x.row, d, spawned, now);
  }

  lemma {:induction false} FlaggedAreCancelled(l: ResourceLedger, c: Counters, items: seq<Item>,
                                               spawn: nat -> Option<nat>, k: nat)
    requires k < |items|
    ensures Decisions(l, c, items, spawn)[k].CancelIt? <==> items[k].row.killRequested
    decreases k
  {
    if k > 0 { FlaggedAreCancelled(l, NextCounters(l, c, items[0], spawn), items[1..], spawn, k - 1); }
  }

  /** Every listed row of the table a cycle leaves. */
  lemma {:induction false} CycleEnds(l: ResourceLedger, rows: seq<Slot>, limit: nat, spawn: nat -> Option<nat>,
                                     now: nat, k: nat)
    requires k < |Take(Select(rows, IsAccepted), limit)|
    ensures var x := Take(Select(rows, IsAccepted), limit)[k];
            Ends(x, DispatchTable(l, rows, limit, spawn, now), spawn(x.id), now)
  {
    var items, c := Take(Select(rows, IsAccepted), limit), Snapshot(l, rows);
    WindowIsListed(rows, limit);
    assert items[k] in items;
    CycleCarriesDecisions(l, c, rows, items, spawn, now, k);
    GrantsAreWanted(l, c, items, spawn, k);
    FlaggedAreCancelled(l, c, items, spawn, k);
    CarriedEnds(items[k], Decisions(l, c, items, spawn)[k], DispatchTable(l, rows, limit, spawn, now),
                spawn(items[k].id), now);
  }

  /** ... and every other row is as it was. */
  lemma {:induction false} CycleLeavesTheRest(l: ResourceLedger, rows: seq<Slot>, limit: nat, spawn: nat -> Option<nat>,
                                              now: nat, id: nat)
    requires id < |rows| && forall x :: x in Take(Select(rows, IsAccepted), limit) ==> x.id != id
    ensures DispatchTable(l, rows, limit, spawn, now)[id] == rows[id]
  {
    CycleLeavesOthers(l, Snapshot(l, rows), rows, Take(Select(rows, IsAccepted), limit), spawn, now, id);
  }

  /** The window holds the oldest accepted rows, as many as there are up to the limit. */
  lemma WindowIsOldest(rows: seq<Slot>, limit: nat)
    ensures var all, window := Select(rows, IsAccepted), Take(Select(rows, IsAccepted), limit);
            window <= all && |window| == if |all| < limit then |all| else limit
  {
  }

  // ---- recovery, row by row

  /** A waiting row lets go of what it held, and a finished one is left alone. */
  lemma RecoveredIdle(o: Row, alive: nat -> bool, now: nat)
    requires o.status != Running
    ensures var n := RecoverRow(o, alive, now);
            && (o.status == Accepted ==>
                  SameTask(o, n) && SameProcesses(o, n) && SameSignals(o, n) && SameLife(o, n) && Lets(o, n, now, []))
            && (o.status != Accepted ==> n == o)
  {
    ReleaseMeans(o, now);
  }

  /** A running row with a live recorded shim stays, its reservation reconstructed if it has none,
      and its log says so. */
  lemma RecoveredAlive(o: Row, alive: nat -> bool, now: nat)
    requires o.status == Running && o.shimPid.Some? && alive(o.shimPid.value)
    ensures var n := RecoverRow(o, alive, now);
            && SameTask(o, n) && SameProcesses(o, n) && SameSignals(o, n) && SameLife(o, n)
            && (o.Active() ==> SameHold(o, n) && n.log == o.log + [RecoveredEvent])
            && (!o.Active() ==>
                  && n.reservation.Some? && AsksFor(n.reservation.value, o.limits)
                  && n.reservedAt == Some(now) && n.releasedAt == None
                  && n.log == o.log + [ReservedEvent(n.reservation.value)] + [RecoveredEvent])
  {
    var held := if o.Active() then o else Apply(o, Reserve(FromLimits(o.limits)), now);
    ReserveMeans(o, FromLimits(o.limits), now);
    MarkRecoveredMeans(held, now);
  }

  /** Any other running row is failed and lets go of what it held. */
  lemma RecoveredLost(o: Row, alive: nat -> bool, now: nat)
    requires o.status == Running && !(o.shimPid.Some? && alive(o.shimPid.value))
    ensures var n := RecoverRow(o, alive, now);
            && SameTask(o, n) && SameProcesses(o, n) && SameSignals(o, n)
            && n.status == Failed && n.error == Some(Internal) && n.finishedAt == Some(now)
            && n.durationMs == Some(0) && n.startedAt == o.startedAt && Lets(o, n, now, [FailedEvent])
  {
    CompleteMeans(o, RecoveryLost(now), now);
  }

  // ---- refusals of admission

  /** A refused request exceeds the limit in the dimension named, and in none before it. */
  lemma RefusalNames(limit: Capacity, limits: Limits, d: Dim)
    ensures Within(limit, FromLimits(limits)) == Err(d) <==>
      match d
      case Slots => limit.taskSlots < 1
      case Memory =>
        && limit.taskSlots >= 1 && limits.memoryBytes.Some? && limit.memoryBytes.Some?
        && limits.memoryBytes.value > limit.memoryBytes.value
      case Pids =>
        && limit.taskSlots >= 1 && limits.pidsMax.Some? && limit.pids.Some? && limits.pidsMax.value > limit.pids.value
        && !(limits.memoryBytes.Some? && limit.memoryBytes.Some? && limits.memoryBytes.value > limit.memoryBytes.value)
  {
  }
}
