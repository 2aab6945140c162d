/** The task table as a value: what each transaction of src/repo.rs does to one row, the
    list queries, and how much of the ledger the active rows use. */
module Table {
  import opened Types
  import opened Ledger

  // ---- transactions

  datatype Write =
    | Dispatched(shimPid: nat)
    | Started(pid: nat)
    | Reserve(r: Reservation)
    | Release
    | RequestKill
    | HitTimeout
    | CancelAccepted
    | Complete(update: CompletionUpdate)
    | MarkRecovered

  function FreedBy(row: Row): seq<Event> {
    if row.Active() then [ReleasedEvent(row.reservation.value)] else []
  }

  function ReleasedAt(row: Row, now: nat): Option<nat> {
    if row.Active() then Some(now) else row.releasedAt
  }

  function CompletionEvent(status: TaskStatus): Event {
    match status
    case Failed => FailedEvent
    case Cancelled => CancelledEvent
    case _ => FinishedEvent
  }

  /** The row after one committed transaction that found it. */
  function Apply(row: Row, w: Write, now: nat): Row {
    match w
    case Dispatched(shimPid) =>
      if row.status.Accepted?
      then row.(status := Running, shimPid := Some(shimPid), updatedAt := now)
      else row
    case Started(pid) =>
      row.(status := Running, pid := Some(pid), startedAt := Some(now), updatedAt := now,
           log := row.log + [StartedEvent])
    case Reserve(r) =>
      row.(reservation := Some(r), reservedAt := Some(now), releasedAt := None, updatedAt := now,
           log := row.log + [ReservedEvent(r)])
    case Release =>
      if row.Active()
      then row.(releasedAt := Some(now), updatedAt := now, log := row.log + FreedBy(row))
      else row
    case RequestKill =>
      row.(killRequested := true, killRequestedAt := Some(now), updatedAt := now,
           log := row.log + [KillRequestedEvent])
    case HitTimeout =>
      row.(timeoutTriggered := true, updatedAt := now, log := row.log + [TimeoutEvent])
    case CancelAccepted =>
      var cancelled :=
        if row.status.Accepted?
        then row.(status := Cancelled, updatedAt := now, finishedAt := Some(now),
                  releasedAt := ReleasedAt(row, now), error := Some(KillError), durationMs := Some(0))
        else row;
      cancelled.(log := row.log + FreedBy(row) + [CancelledEvent])
    case Complete(u) =>
      row.(status := u.status, updatedAt := u.finishedAt, finishedAt := Some(u.finishedAt),
           releasedAt := ReleasedAt(row, u.finishedAt), durationMs := u.durationMs,
           exitCode := u.exitCode, exitSignal := u.exitSignal, error := u.error,
           log := row.log + FreedBy(row) + [CompletionEvent(u.status)])
    case MarkRecovered =>
      if row.status.Running?
      then row.(updatedAt := now, log := row.log + [RecoveredEvent])
      else row.(log := row.log + [RecoveredEvent])
  }

  predicate Live(rows: seq<Slot>, id: nat) {
    id < |rows| && rows[id].Some?
  }

  /** A transaction on row `id`; on a deleted row it changes nothing. */
  function Commit(rows: seq<Slot>, id: nat, w: Write, now: nat): (after: seq<Slot>)
    ensures |after| == |rows|
  {
    if Live(rows, id) then rows[id := Some(Apply(rows[id].value, w, now))] else rows
  }

  datatype Submission = Submission(name: string, tenant: Option<string>, limits: Limits, degraded: bool)

  function NewRow(s: Submission, now: nat): Row {
    Row(s.name, s.tenant, s.limits, s.degraded, Accepted, now, None, None, None, None, None, None, None, None,
        false, None, false, None, None, None,
        [SubmittedEvent, AcceptedEvent, PlannedEvent] + if s.degraded then [DegradedEvent] else [])
  }

  predicate NameTaken(rows: seq<Slot>, name: string) {
    exists i :: 0 <= i < |rows| && rows[i].Some? && rows[i].value.name == name
  }

  // ---- list queries

  datatype Item = Item(id: nat, row: Row)

  predicate IsAccepted(row: Row) { row.status.Accepted? }
  predicate IsNonTerminal(row: Row) { !row.status.IsTerminal() }
  predicate IsActive(row: Row) { row.Active() }
  predicate IsWaiting(row: Row) { row.status.Accepted? && !row.Active() }

  /** Rows satisfying `p`, oldest insertion first. */
  function Select(rows: seq<Slot>, p: Row -> bool): seq<Item> {
    if rows == [] then []
    else
      var n := |rows| - 1;
      Select(rows[..n], p)
      + if rows[n].Some? && p(rows[n].value) then [Item(n, rows[n].value)] else []
  }

  function Take(items: seq<Item>, limit: nat): seq<Item> {
    if |items| <= limit then items else items[..limit]
  }

  predicate Ascending(items: seq<Item>) {
    forall i, j :: 0 <= i < j < |items| ==> items[i].id < items[j].id
  }

  lemma {:induction false} SelectIsExact(rows: seq<Slot>, p: Row -> bool)
    ensures Ascending(Select(rows, p))
    ensures forall x :: x in Select(rows, p) <==> (Live(rows, x.id) && rows[x.id].value == x.row && p(x.row))
  {
    if rows != [] {
      var n := |rows| - 1;
      SelectIsExact(rows[..n], p);
      forall x
        ensures x in Select(rows, p) <==> (Live(rows, x.id) && rows[x.id].value == x.row && p(x.row))
      {
        if x.id == n {
          assert x !in Select(rows[..n], p);
        } else {
          assert x in Select(rows, p) <==> x in Select(rows[..n], p);
          assert Live(rows, x.id) <==> Live(rows[..n], x.id);
        }
      }
      assert Ascending(Select(rows, p)) by {
        var before := Select(rows[..n], p);
        forall i | 0 <= i < |before| ensures before[i].id < n {
          assert before[i] in before;
        }
      }
    }
  }

  /** An accepted row without a reservation in force. */
  predicate Idles(slot: Slot) {
    slot.Some? && slot.value.status.Accepted? && (slot.value.reservation.None? || slot.value.releasedAt.Some?)
  }

  function Idling(rows: seq<Slot>): set<nat> {
    set i: nat | i < |rows| && Idles(rows[i])
  }

  lemma IdlingNext(rows: seq<Slot>)
    requires rows != []
    ensures var n := |rows| - 1;
            Idling(rows) == Idling(rows[..n]) + (if Idles(rows[n]) then {n} else {}) && n !in Idling(rows[..n])
  {
  }

  lemma {:induction false} WaitingCount(rows: seq<Slot>)
    ensures |Select(rows, IsWaiting)| == |Idling(rows)|
  {
    if rows != [] {
      var n := |rows| - 1;
      IdlingNext(rows);
      WaitingCount(rows[..n]);
      assert Idles(rows[n]) <==> rows[n].Some? && IsWaiting(rows[n].value);
    }
  }

  /** A window at least as wide as the list is the whole list. */
  lemma TakeAll(items: seq<Item>, limit: nat)
    requires |items| <= limit
    ensures Take(items, limit) == items
  {
  }

  function AcceptedCount(rows: seq<Slot>): nat {
    if rows == [] then 0
    else
      var n := |rows| - 1;
      AcceptedCount(rows[..n]) + if rows[n].Some? && IsAccepted(rows[n].value) then 1 else 0
  }

  lemma {:induction false} AcceptedCountIsListLength(rows: seq<Slot>)
    ensures AcceptedCount(rows) == |Select(rows, IsAccepted)|
  {
    if rows != [] {
      AcceptedCountIsListLength(rows[..|rows| - 1]);
    }
  }

  lemma {:induction false} AcceptedCountUpdate(rows: seq<Slot>, id: nat, x: Slot)
    requires id < |rows|
    ensures AcceptedCount(rows[id := x]) + (if rows[id].Some? && IsAccepted(rows[id].value) then 1 else 0)
         == AcceptedCount(rows) + (if x.Some? && IsAccepted(x.value) then 1 else 0)
  {
    var n := |rows| - 1;
    if id == n {
      assert rows[id := x][..n] == rows[..n];
    } else {
      assert rows[id := x][..n] == rows[..n][id := x];
      AcceptedCountUpdate(rows[..n], id, x);
    }
  }

  // ---- ledger usage of the active rows

  datatype Scope = Everyone | Tenant(name: string)

  predicate InScope(tenant: Option<string>, scope: Scope) {
    scope.Everyone? || tenant == Some(scope.name)
  }

  function Share(slot: Slot, scope: Scope, d: Dim): nat {
    if slot.Some? && slot.value.Active() && InScope(slot.value.tenant, scope)
    then Amount(slot.value.reservation.value, d) else 0
  }

  /** Exact sum, in one dimension, of the active reservations in a scope. */
  function Usage(rows: seq<Slot>, scope: Scope, d: Dim): nat {
    if rows == [] then 0 else Usage(rows[..|rows| - 1], scope, d) + Share(rows[|rows| - 1], scope, d)
  }

  lemma {:induction false} UsageUpdate(rows: seq<Slot>, id: nat, x: Slot, scope: Scope, d: Dim)
    requires id < |rows|
    ensures Usage(rows[id := x], scope, d) + Share(rows[id], scope, d) == Usage(rows, scope, d) + Share(x, scope, d)
  {
    var n := |rows| - 1;
    if id == n {
      assert rows[id := x][..n] == rows[..n];
    } else {
      assert rows[id := x][..n] == rows[..n][id := x];
      UsageUpdate(rows[..n], id, x, scope, d);
    }
  }

  datatype Held = Held(tenant: Option<string>, r: Reservation)

  function HeldOf(slot: Slot): seq<Held> {
    if slot.Some? && slot.value.Active() then [Held(slot.value.tenant, slot.value.reservation.value)] else []
  }

  /** What list_active_reservations hands to the ledger. */
  function ActiveHeld(rows: seq<Slot>): seq<Held> {
    if rows == [] then [] else ActiveHeld(rows[..|rows| - 1]) + HeldOf(rows[|rows| - 1])
  }

  /** The reservations among listed rows. */
  function HeldBy(items: seq<Item>): seq<Held> {
    if items == [] then []
    else
      var row := items[|items| - 1].row;
      HeldBy(items[..|items| - 1]) + if row.reservation.Some? then [Held(row.tenant, row.reservation.value)] else []
  }

  lemma {:induction false} ActiveHeldIsListed(rows: seq<Slot>)
    ensures ActiveHeld(rows) == HeldBy(Select(rows, IsActive))
  {
    if rows != [] {
      var n := |rows| - 1;
      ActiveHeldIsListed(rows[..n]);
      var before := Select(rows[..n], IsActive);
      if rows[n].Some? && IsActive(rows[n].value) {
        assert (before + [Item(n, rows[n].value)])[..|before|] == before;
      } else {
        assert Select(rows, IsActive) == before;
      }
    }
  }

  function Scoped(hs: seq<Held>, scope: Scope): seq<Reservation> {
    if hs == [] then []
    else
      var n := |hs| - 1;
      Scoped(hs[..n], scope) + if InScope(hs[n].tenant, scope) then [hs[n].r] else []
  }

  function HeldUsage(hs: seq<Held>, scope: Scope, d: Dim): nat {
    Total(Scoped(hs, scope), d)
  }

  lemma ScopedAppend(hs: seq<Held>, h: Held, scope: Scope)
    ensures Scoped(hs + [h], scope) == Scoped(hs, scope) + if InScope(h.tenant, scope) then [h.r] else []
  {
  }

  lemma HeldUsageAppend(hs: seq<Held>, h: Held, scope: Scope, d: Dim)
    ensures HeldUsage(hs + [h], scope, d)
         == HeldUsage(hs, scope, d) + if InScope(h.tenant, scope) then Amount(h.r, d) else 0
  {
    ScopedAppend(hs, h, scope);
    TotalAppend(Scoped(hs, scope), h.r, d);
    assert Scoped(hs, scope) + [] == Scoped(hs, scope);
  }

  lemma ShareIsHeldUsage(hs: seq<Held>, slot: Slot, scope: Scope, d: Dim)
    ensures HeldUsage(hs + HeldOf(slot), scope, d) == HeldUsage(hs, scope, d) + Share(slot, scope, d)
  {
    if slot.Some? && slot.value.Active() {
      HeldUsageAppend(hs, HeldOf(slot)[0], scope, d);
    } else {
      assert hs + [] == hs;
    }
  }

  lemma {:induction false} UsageIsHeldUsage(rows: seq<Slot>, scope: Scope, d: Dim)
    ensures Usage(rows, scope, d) == HeldUsage(ActiveHeld(rows), scope, d)
  {
    if rows != [] {
      var n := |rows| - 1;
      UsageIsHeldUsage(rows[..n], scope, d);
      ShareIsHeldUsage(ActiveHeld(rows[..n]), rows[n], scope, d);
    }
  }

  /** Listings and sums over a table of two rows. */
  lemma SelectTwo(x: Row, y: Row)
    ensures Select([Some(x), Some(y)], IsAccepted)
         == (if IsAccepted(x) then [Item(0, x)] else []) + (if IsAccepted(y) then [Item(1, y)] else [])
    ensures forall scope, d ::
              Usage([Some(x), Some(y)], scope, d) == Share(Some(x), scope, d) + Share(Some(y), scope, d)
  {
    var rows := [Some(x), Some(y)];
    assert rows[..1] == [Some(x)] && rows[..1][..0] == [];
    assert Select(rows[..1], IsAccepted) == if IsAccepted(x) then [Item(0, x)] else [];
    forall scope, d ensures Usage(rows, scope, d) == Share(Some(x), scope, d) + Share(Some(y), scope, d) {
      assert Usage(rows[..1], scope, d) == Share(Some(x), scope, d);
    }
  }

  // ---- loops over a listing

  /** Slots below `bound` have been mapped by `f`, the others not yet. */
  ghost predicate MappedUpTo(before: seq<Slot>, current: seq<Slot>, bound: nat, f: (nat, Slot) -> Slot) {
    && |current| == |before|
    && forall j :: 0 <= j < |before| ==> current[j] == if j < bound then f(j, before[j]) else before[j]
  }

  /** Where a loop over `items` stands: the id it handles next, or the table's end. */
  function Bound(rows: seq<Slot>, items: seq<Item>, i: nat): nat {
    if i < |items| then items[i].id else |rows|
  }

  /** `f` only changes rows that satisfy `p`. */
  ghost predicate OnlyChanges(f: (nat, Slot) -> Slot, p: Row -> bool) {
    forall j: nat, slot: Slot :: slot.None? || !p(slot.value) ==> f(j, slot) == slot
  }

  lemma UnlistedIsFixed(rows: seq<Slot>, p: Row -> bool, f: (nat, Slot) -> Slot, j: nat)
    requires OnlyChanges(f, p) && j < |rows|
    requires forall k :: 0 <= k < |Select(rows, p)| ==> Select(rows, p)[k].id != j
    ensures f(j, rows[j]) == rows[j]
  {
    SelectIsExact(rows, p);
    if rows[j].Some? {
      assert Item(j, rows[j].value) in Select(rows, p) <==> p(rows[j].value);
    }
  }

  lemma MappedFirst(rows: seq<Slot>, p: Row -> bool, f: (nat, Slot) -> Slot)
    requires OnlyChanges(f, p)
    ensures MappedUpTo(rows, rows, Bound(rows, Select(rows, p), 0), f)
  {
    SelectIsExact(rows, p);
    forall j | 0 <= j < |rows| && j < Bound(rows, Select(rows, p), 0) ensures f(j, rows[j]) == rows[j] {
      UnlistedIsFixed(rows, p, f, j);
    }
  }

  /** Mapping the listed slot brings the loop to the next listed one. */
  lemma MappedNext(before: seq<Slot>, current: seq<Slot>, p: Row -> bool, f: (nat, Slot) -> Slot, i: nat)
    requires OnlyChanges(f, p) && i < |Select(before, p)|
    requires MappedUpTo(before, current, Select(before, p)[i].id, f)
    ensures Live(before, Select(before, p)[i].id) && Live(current, Select(before, p)[i].id)
    ensures var x := Select(before, p)[i];
            && before[x.id] == current[x.id] == Some(x.row)
            && p(x.row)
            && MappedUpTo(before, current[x.id := f(x.id, before[x.id])], Bound(before, Select(before, p), i + 1), f)
  {
    SelectIsExact(before, p);
    var items := Select(before, p);
    assert items[i] in items;
    forall j | 0 <= j < |before| && items[i].id < j < Bound(before, items, i + 1) ensures f(j, before[j]) == before[j] {
      forall k | 0 <= k < |items| ensures items[k].id != j {
        if k > i + 1 { assert items[i + 1].id < items[k].id; }
        if k < i { assert items[k].id < items[i].id; }
      }
      UnlistedIsFixed(before, p, f, j);
    }
    if i + 1 < |items| { assert items[i + 1] in items && items[i].id < items[i + 1].id; }
  }

  // ---- what every transaction except a reservation keeps

  predicate SameTask(o: Row, n: Row) {
    o.name == n.name && o.tenant == n.tenant && o.limits == n.limits && o.degraded == n.degraded
  }

  /** The kill flag is never cleared and no row comes back: it holds of every transaction. */
  predicate Forward(o: Slot, n: Slot) {
    n.Some? ==>
      && o.Some?
      && SameTask(o.value, n.value)
      && (n.value.status.Accepted? ==> o.value.status.Accepted?)
      && (o.value.killRequested ==> n.value.killRequested)
      && (n.value.status.Accepted? && o.value.pid.None? ==> n.value.pid.None?)
  }

  /** Additionally no reservation is gained, and none is lost while the row stays accepted. */
  predicate Quiet(o: Slot, n: Slot) {
    && Forward(o, n)
    && (n.Some? ==>
          && (n.value.Active() ==> o.value.Active() && n.value.reservation == o.value.reservation)
          && (n.value.status.Accepted? && o.value.Active() ==> n.value.Active()))
  }

  predicate Blank(n: Slot) {
    n.Some? ==>
      && n.value.status.Accepted? && n.value.shimPid.None? && n.value.pid.None?
      && n.value.reservation.None? && !n.value.killRequested
  }

  predicate QuietTable(rows: seq<Slot>, after: seq<Slot>) {
    && |rows| <= |after|
    && (forall i :: 0 <= i < |rows| ==> Quiet(rows[i], after[i]))
    && (forall i :: |rows| <= i < |after| ==> Blank(after[i]))
  }

  predicate ForwardTable(rows: seq<Slot>, after: seq<Slot>) {
    && |rows| <= |after|
    && (forall i :: 0 <= i < |rows| ==> Forward(rows[i], after[i]))
    && (forall i :: |rows| <= i < |after| ==> Blank(after[i]))
  }

  predicate TerminalUpdate(w: Write) {
    w.Complete? ==> w.update.status.IsTerminal()
  }

  lemma CommitIsForward(rows: seq<Slot>, id: nat, w: Write, now: nat)
    requires TerminalUpdate(w)
    ensures ForwardTable(rows, Commit(rows, id, w, now))
    ensures !w.Reserve? && !w.Release? ==> QuietTable(rows, Commit(rows, id, w, now))
  {
  }

  lemma QuietShare(o: Slot, n: Slot, scope: Scope, d: Dim)
    requires Quiet(o, n)
    ensures Share(n, scope, d) <= Share(o, scope, d)
  {
  }

  lemma QuietPrefix(rows: seq<Slot>, after: seq<Slot>)
    requires QuietTable(rows, after) && after != []
    ensures var n := |after| - 1;
            QuietTable(if |rows| == |after| then rows[..n] else rows, after[..n])
    ensures |rows| == |after| ==> Quiet(rows[|after| - 1], after[|after| - 1])
    ensures |rows| < |after| ==> Blank(after[|after| - 1])
  {
  }

  lemma {:induction false} QuietUsage(rows: seq<Slot>, after: seq<Slot>, scope: Scope, d: Dim)
    requires QuietTable(rows, after)
    ensures Usage(after, scope, d) <= Usage(rows, scope, d)
    decreases |after|
  {
    if after != [] {
      var n := |after| - 1;
      QuietPrefix(rows, after);
      if |rows| == |after| {
        QuietUsage(rows[..n], after[..n], scope, d);
        QuietShare(rows[n], after[n], scope, d);
      } else {
        QuietUsage(rows, after[..n], scope, d);
      }
    }
  }
}
