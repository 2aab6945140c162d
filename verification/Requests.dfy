/** What tasks reserve and what tenants hold, in terms of the requests that were submitted. */
module Requests {
  import opened Types
  import opened Ledger
  import opened Table
  import opened Dispatch
  import opened Drain
  import opened Protocol
  import opened LedgerSafety
  import opened Recovery
  import opened Admission
  import opened Restart

  // ---- the amounts

  /** What a task with these limits asks of a dimension. */
  function AskedFor(limits: Limits, d: Dim): nat {
    match d
    case Slots => 1
    case Memory => if limits.memoryBytes.Some? then limits.memoryBytes.value else 0
    case Pids => if limits.pidsMax.Some? then limits.pidsMax.value else 0
  }

  /** What the limits of the tasks that hold a reservation ask for together. */
  function Requested(rows: seq<Slot>, scope: Scope, d: Dim): nat {
    if rows == [] then 0
    else
      var last := rows[|rows| - 1];
      Requested(rows[..|rows| - 1], scope, d)
      + if last.Some? && last.value.Active() && InScope(last.value.tenant, scope)
        then AskedFor(last.value.limits, d) else 0
  }

  /** A row that holds a reservation holds one slot and exactly its own memory and process limits. */
  predicate HoldsItsRequest(row: Row) {
    row.Active() ==>
      && row.reservation.value.taskSlots == 1
      && row.reservation.value.memoryBytes == row.limits.memoryBytes
      && row.reservation.value.pids == row.limits.pidsMax
  }

  predicate AllHoldTheirRequest(rows: seq<Slot>) {
    forall i :: 0 <= i < |rows| && rows[i].Some? ==> HoldsItsRequest(rows[i].value)
  }

  lemma {:induction false} RequestedIsUsage(rows: seq<Slot>, scope: Scope, d: Dim)
    requires AllHoldTheirRequest(rows)
    ensures Requested(rows, scope, d) == Usage(rows, scope, d)
  {
    if rows != [] {
      var n := |rows| - 1;
      RequestedIsUsage(rows[..n], scope, d);
      assert rows[n].Some? ==> HoldsItsRequest(rows[n].value);
    }
  }

  /** In every reachable state each active row holds exactly what its limits ask for. */
  lemma {:induction false} ActiveRowsHoldTheirRequest(c: Config, s: State, run: seq<Action>)
    requires DispatchInv(s) && AdmissionInv(c, s)
    ensures AllHoldTheirRequest(Exec(c, s, run).rows)
  {
    RunKeepsAdmission(c, s, run);
    var t := Exec(c, s, run);
    forall i | 0 <= i < |t.rows| && t.rows[i].Some? ensures HoldsItsRequest(t.rows[i].value) {
      assert SlotAdmitted(c.ledger, t.rows[i]);
    }
  }

  /** In every interleaving the limits of the tasks holding a reservation stay together within
      an enforced capacity or quota. */
  lemma {:induction false} RequestsStayWithin(c: Config, s: State, run: seq<Action>, scope: Scope, d: Dim)
    requires s.disp.Idle? && AdmissionInv(c, s)
    requires Capped(c.ledger, scope, d) && Requested(s.rows, scope, d) <= LimitOf(c.ledger, scope, d).value
    ensures Requested(Exec(c, s, run).rows, scope, d) <= LimitOf(c.ledger, scope, d).value
  {
    assert Exec(c, s, []) == s;
    ActiveRowsHoldTheirRequest(c, s, []);
    ActiveRowsHoldTheirRequest(c, s, run);
    RequestedIsUsage(s.rows, scope, d);
    RequestedIsUsage(Exec(c, s, run).rows, scope, d);
    LedgerIsSafe(c, s, run, scope, d);
  }

  lemma {:induction false} NothingRequested(c: Config)
    ensures AdmissionInv(c, Boot([], []))
  {
  }

  /** A new server, field by field: memory, processes and slots of the tasks that hold a
      reservation are within the capacity, and those of a tenant within its quota. */
  lemma {:induction false} NewServerRespectsLimits(c: Config, run: seq<Action>, t: string)
    ensures var rows, cap := Exec(c, Boot([], []), run).rows, c.ledger.capacity;
            && (cap.taskSlots < U64_MAX ==> Requested(rows, Everyone, Slots) <= cap.taskSlots)
            && (cap.memoryBytes.Some? && cap.memoryBytes.value < U64_MAX ==>
                  Requested(rows, Everyone, Memory) <= cap.memoryBytes.value)
            && (cap.pids.Some? && cap.pids.value < U64_MAX ==> Requested(rows, Everyone, Pids) <= cap.pids.value)
    ensures t in c.ledger.tenantQuotas ==>
            var rows, quota := Exec(c, Boot([], []), run).rows, c.ledger.tenantQuotas[t];
            && (quota.taskSlots < U64_MAX ==> Requested(rows, Tenant(t), Slots) <= quota.taskSlots)
            && (quota.memoryBytes.Some? && quota.memoryBytes.value < U64_MAX ==>
                  Requested(rows, Tenant(t), Memory) <= quota.memoryBytes.value)
            && (quota.pids.Some? && quota.pids.value < U64_MAX ==> Requested(rows, Tenant(t), Pids) <= quota.pids.value)
  {
    NothingRequested(c);
    forall scope, d | Capped(c.ledger, scope, d)
      ensures Requested(Exec(c, Boot([], []), run).rows, scope, d) <= LimitOf(c.ledger, scope, d).value
    {
      RequestsStayWithin(c, Boot([], []), run, scope, d);
    }
  }

  // ---- over a restart

  /** What the tasks that recovery leaves reserved ask for: running tasks whose recorded shim is
      alive, and finished ones that still hold something. */
  function SurvivingRequests(rows: seq<Slot>, alive: nat -> bool, scope: Scope, d: Dim): nat {
    if rows == [] then 0
    else
      var last := rows[|rows| - 1];
      SurvivingRequests(rows[..|rows| - 1], alive, scope, d)
      + if last.Some? && InScope(last.value.tenant, scope)
           && ((last.value.status.Running? && last.value.shimPid.Some? && alive(last.value.shimPid.value))
               || (last.value.status.IsTerminal() && last.value.Active()))
        then AskedFor(last.value.limits, d) else 0
  }

  lemma RunningRequests(row: Row, alive: nat -> bool, now: nat)
    requires row.status.Running? && (row.reservation.Some? ==> AsksFor(row.reservation.value, row.limits))
    ensures var after := RecoverRow(row, alive, now);
            && after.tenant == row.tenant && after.limits == row.limits && HoldsItsRequest(after)
            && (after.Active() <==> row.shimPid.Some? && alive(row.shimPid.value))
  {
    if ShimAlive(row, alive) && !row.Active() { assert AsksFor(FromLimits(row.limits), row.limits); }
  }

  lemma SurvivorRequests(row: Row, alive: nat -> bool, now: nat)
    requires row.reservation.Some? ==> AsksFor(row.reservation.value, row.limits)
    ensures var after := RecoverRow(row, alive, now);
            && after.tenant == row.tenant && after.limits == row.limits
            && HoldsItsRequest(after)
            && (after.Active() <==> (row.status.Running? && row.shimPid.Some? && alive(row.shimPid.value))
                                    || (row.status.IsTerminal() && row.Active()))
  {
    if row.status.Running? { RunningRequests(row, alive, now); }
  }

  lemma {:induction false} RecoveredRequests(c: Config, rows: seq<Slot>, alive: nat -> bool, now: nat,
                                             scope: Scope, d: Dim)
    requires forall i :: 0 <= i < |rows| ==> SlotAdmitted(c.ledger, rows[i])
    ensures Requested(RecoverTable(rows, alive, now), scope, d) == SurvivingRequests(rows, alive, scope, d)
  {
    if rows != [] {
      var n := |rows| - 1;
      RecoveredRequests(c, rows[..n], alive, now, scope, d);
      assert RecoverTable(rows, alive, now)[..n] == RecoverTable(rows[..n], alive, now);
      assert SlotAdmitted(c.ledger, rows[n]);
      if rows[n].Some? { SurvivorRequests(rows[n].value, alive, now); }
    }
  }

  /** At the end of the run the requests in force are within the limit. */
  predicate RequestsEndWithin(c: Config, s: State, run: seq<Action>, scope: Scope, d: Dim)
    requires LimitOf(c.ledger, scope, d).Some?
  {
    Requested(Exec(c, s, run).rows, scope, d) <= LimitOf(c.ledger, scope, d).value
  }

  /** After a crash and recovery every continuation keeps the requests in force within an enforced
      limit exactly when those of the survivors are. */
  lemma {:induction false} RequestsAcrossRestart(c: Config, crashed: State, alive: nat -> bool, now: nat,
                                                 scope: Scope, d: Dim)
    requires AdmissionInv(c, crashed) && Capped(c.ledger, scope, d)
    ensures var boot := Boot(RecoverTable(crashed.rows, alive, now), crashed.shims);
            (forall again :: RequestsEndWithin(c, boot, again, scope, d)) <==>
              SurvivingRequests(crashed.rows, alive, scope, d) <= LimitOf(c.ledger, scope, d).value
  {
    var boot := Boot(RecoverTable(crashed.rows, alive, now), crashed.shims);
    RecoveredRequests(c, crashed.rows, alive, now, scope, d);
    RecoveryKeepsAdmission(c, crashed.rows, crashed.shims, alive, now);
    assert RequestsEndWithin(c, boot, [], scope, d) <==>
      Requested(boot.rows, scope, d) <= LimitOf(c.ledger, scope, d).value;
    if Requested(boot.rows, scope, d) <= LimitOf(c.ledger, scope, d).value {
      forall again ensures RequestsEndWithin(c, boot, again, scope, d) {
        RequestsStayWithin(c, boot, again, scope, d);
      }
    }
  }

  // ---- admission, field by field

  predicate Allows(limit: Capacity, limits: Limits) {
    && limit.taskSlots >= 1
    && (limits.memoryBytes.Some? && limit.memoryBytes.Some? ==> limits.memoryBytes.value <= limit.memoryBytes.value)
    && (limits.pidsMax.Some? && limit.pids.Some? ==> limits.pidsMax.value <= limit.pids.value)
  }

  /** A request is admitted exactly when the capacity, and the tenant's quota if it has one, allow
      it by itself. */
  lemma AdmittedMeans(l: ResourceLedger, tenant: Option<string>, limits: Limits)
    ensures Admitted(l, tenant, limits) <==>
      && Allows(l.capacity, limits)
      && (tenant.Some? && tenant.value in l.tenantQuotas ==> Allows(l.tenantQuotas[tenant.value], limits))
  {
  }

  // ---- rows and the requests they come from

  /** The request from which row `id` is inserted in the run, if it is. */
  function Origin(c: Config, s: State, run: seq<Action>, id: nat): Option<Submission>
    decreases |run|
  {
    if run == [] then None
    else if run[0].SubmitInsert? && run[0].i < |s.submitters| && id == |s.rows| && |Step(c, s, run[0]).rows| > id
    then Some(s.submitters[run[0].i])
    else Origin(c, Step(c, s, run[0]), run[1..], id)
  }

  /** A row as its request described it. */
  predicate Carries(row: Row, request: Submission) {
    row.name == request.name && row.tenant == request.tenant && row.limits == request.limits
    && row.degraded == request.degraded
  }

  lemma RowsStay(c: Config, s: State, run: seq<Action>, id: nat)
    requires id < |s.rows|
    ensures id < |Exec(c, s, run).rows|
    ensures var o, n := s.rows[id], Exec(c, s, run).rows[id];
            n.Some? ==> o.Some? && (forall q :: Carries(o.value, q) ==> Carries(n.value, q))
  {
    RunIsForward(c, s, run);
    assert Forward(s.rows[id], Exec(c, s, run).rows[id]);
  }

  /** Every row of a run carries the name, tenant, limits and degradation of the request it was
      inserted for. */
  lemma {:induction false} RowCarriesItsRequest(c: Config, s: State, run: seq<Action>, id: nat)
    requires |s.rows| <= id < |Exec(c, s, run).rows|
    ensures Origin(c, s, run, id).Some?
    ensures Live(Exec(c, s, run).rows, id) ==> Carries(Exec(c, s, run).rows[id].value, Origin(c, s, run, id).value)
    decreases |run|
  {
    var next := Step(c, s, run[0]);
    StepHasEffect(c, s, run[0]);
    if id < |next.rows| {
      assert Carries(next.rows[id].value, s.submitters[run[0].i]);
      RowsStay(c, next, run[1..], id);
    } else {
      RowCarriesItsRequest(c, next, run[1..], id);
    }
  }

  /** The request passes the queue and admission check at some point of the run. */
  predicate Checked(c: Config, s: State, run: seq<Action>, request: Submission)
    decreases |run|
  {
    run != [] &&
    ((run[0] == SubmitCheck(request) && Admitted(c.ledger, request.tenant, request.limits)
      && AcceptedCount(s.rows) < c.maxQueued)
     || Checked(c, Step(c, s, run[0]), run[1..], request))
  }

  lemma NewSubmitterIsChecked(c: Config, s: State, a: Action, request: Submission)
    requires request in Step(c, s, a).submitters && request !in s.submitters
    ensures a == SubmitCheck(request) && Admitted(c.ledger, request.tenant, request.limits)
         && AcceptedCount(s.rows) < c.maxQueued
  {
  }

  /** No row is inserted for a request that was not checked. */
  lemma {:induction false} OriginIsChecked(c: Config, s: State, run: seq<Action>, id: nat)
    requires Origin(c, s, run, id).Some?
    ensures Origin(c, s, run, id).value in s.submitters || Checked(c, s, run, Origin(c, s, run, id).value)
    decreases |run|
  {
    var next := Step(c, s, run[0]);
    var request := Origin(c, s, run, id).value;
    if request !in s.submitters {
      OriginIsChecked(c, next, run[1..], id);
      if request in next.submitters { NewSubmitterIsChecked(c, s, run[0], request); }
    }
  }

  /** What the submitted requests ask for whose tenant is in scope and whose first `n` rows hold
      a reservation. */
  function SubmittedUse(c: Config, run: seq<Action>, rows: seq<Slot>, scope: Scope, d: Dim): nat {
    if rows == [] then 0
    else
      var n := |rows| - 1;
      SubmittedUse(c, run, rows[..n], scope, d)
      + match Origin(c, Boot([], []), run, n)
        case None => 0
        case Some(request) =>
          if rows[n].Some? && rows[n].value.Active() && InScope(request.tenant, scope)
          then AskedFor(request.limits, d) else 0
  }

  lemma {:induction false} SubmittedIsRequested(c: Config, run: seq<Action>, n: nat, scope: Scope, d: Dim)
    requires n <= |Exec(c, Boot([], []), run).rows|
    ensures var rows := Exec(c, Boot([], []), run).rows[..n];
            SubmittedUse(c, run, rows, scope, d) == Requested(rows, scope, d)
  {
    if n > 0 {
      var rows := Exec(c, Boot([], []), run).rows;
      SubmittedIsRequested(c, run, n - 1, scope, d);
      assert rows[..n][..n - 1] == rows[..n - 1];
      RowCarriesItsRequest(c, Boot([], []), run, n - 1);
    }
  }

  /** In every run of a new server, what the requests submitted by a tenant hold is within its
      quota, and what all requests hold within the capacity. */
  lemma {:induction false} SubmittedStayWithin(c: Config, run: seq<Action>, scope: Scope, d: Dim)
    requires Capped(c.ledger, scope, d)
    ensures SubmittedUse(c, run, Exec(c, Boot([], []), run).rows, scope, d) <= LimitOf(c.ledger, scope, d).value
  {
    var rows := Exec(c, Boot([], []), run).rows;
    NothingRequested(c);
    RequestsStayWithin(c, Boot([], []), run, scope, d);
    SubmittedIsRequested(c, run, |rows|, scope, d);
    assert rows[..|rows|] == rows;
  }
}
