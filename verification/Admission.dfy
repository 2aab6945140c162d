/** What submission admits stays admitted, and so the queue of every reachable idle state drains. */
module Admission {
  import opened Types
  import opened Ledger
  import opened Table
  import opened Dispatch
  import opened Drain
  import opened Protocol
  import opened SpawnOnce
  import opened LedgerSafety
  import opened Lifecycle
  import opened Recovery
  import opened QueueBound
  import opened CycleRun

  /** The row's request fits an empty ledger, and a stored reservation is the one its limits ask for. */
  predicate RowAdmitted(l: ResourceLedger, row: Row) {
    && Admitted(l, row.tenant, row.limits)
    && (row.reservation.Some? ==> AsksFor(row.reservation.value, row.limits))
  }

  predicate SlotAdmitted(l: ResourceLedger, slot: Slot) {
    slot.Some? ==> RowAdmitted(l, slot.value)
  }

  /** An accepted row holds a reservation only in the dispatcher's block, or stranded there. */
  predicate AcceptedHolder(s: State, id: nat) {
    Live(s.rows, id) && s.rows[id].value.status.Accepted? && s.rows[id].value.Active() ==>
      InBlockFor(s, id) || id in s.stranded
  }

  predicate AdmissionInv(c: Config, s: State) {
    && (forall i :: 0 <= i < |s.rows| ==> SlotAdmitted(c.ledger, s.rows[i]))
    && (forall i :: 0 <= i < |s.submitters| ==> Admitted(c.ledger, s.submitters[i].tenant, s.submitters[i].limits))
    && (forall i :: 0 <= i < |QueueOf(s)| ==> RowAdmitted(c.ledger, QueueOf(s)[i].row))
    && (forall i: nat :: i < |s.rows| ==> AcceptedHolder(s, i))
  }

  /** A write respects admission unless it reserves something else than the row's own request. */
  lemma WriteKeepsAdmitted(l: ResourceLedger, row: Row, w: Write, now: nat)
    requires RowAdmitted(l, row) && (w.Reserve? ==> AsksFor(w.r, row.limits))
    ensures RowAdmitted(l, Apply(row, w, now))
  {
  }

  lemma ReservesOwnRequest(c: Config, s: State, a: Action)
    requires DispatchInv(s) && AdmissionInv(c, s)
    ensures var e := EffectOf(c, s, a);
            e.Wrote? && e.w.Reserve? && Live(s.rows, e.id) ==> AsksFor(e.w.r, s.rows[e.id].value.limits)
    ensures var e := EffectOf(c, s, a);
            e.Inserted? ==> Admitted(c.ledger, e.request.tenant, e.request.limits)
  {
    if a.Dispatcher? {
      if a.d.Scan? && s.disp.Scanning? && s.disp.queue != [] {
        assert ListedOk(s.rows, [], s.disp.queue[0]) && RowAdmitted(c.ledger, QueueOf(s)[0].row);
      }
    } else {
      OthersNeverReserve(c, s, a);
    }
  }

  lemma StepKeepsRowsAdmitted(c: Config, s: State, a: Action, i: nat)
    requires DispatchInv(s) && AdmissionInv(c, s) && i < |Step(c, s, a).rows|
    ensures SlotAdmitted(c.ledger, Step(c, s, a).rows[i])
  {
    StepHasEffect(c, s, a);
    ReservesOwnRequest(c, s, a);
    var e := EffectOf(c, s, a);
    if i < |s.rows| { assert SlotAdmitted(c.ledger, s.rows[i]); }
    if e.Wrote? && e.id == i && Live(s.rows, i) {
      WriteKeepsAdmitted(c.ledger, s.rows[i].value, e.w, e.now);
    }
  }

  lemma StepKeepsSubmitters(c: Config, s: State, a: Action, i: nat)
    requires AdmissionInv(c, s) && i < |Step(c, s, a).submitters|
    ensures var request := Step(c, s, a).submitters[i]; Admitted(c.ledger, request.tenant, request.limits)
  {
  }

  lemma StepKeepsQueueAdmitted(c: Config, s: State, a: Action, i: nat)
    requires AdmissionInv(c, s) && i < |QueueOf(Step(c, s, a))|
    ensures RowAdmitted(c.ledger, QueueOf(Step(c, s, a))[i].row)
  {
    var t := Step(c, s, a);
    if !a.Dispatcher? {
      OthersLeaveDispatcher(c, s, a);
      assert QueueOf(t) == QueueOf(s) && RowAdmitted(c.ledger, QueueOf(s)[i].row);
    } else if a.d.ListAccepted? && s.disp.Counted? {
      SelectIsExact(s.rows, IsAccepted);
      var all := Select(s.rows, IsAccepted);
      assert QueueOf(t)[i] == all[i] && all[i] in all;
      assert SlotAdmitted(c.ledger, s.rows[all[i].id]);
    } else if a.d.Scan? && s.disp.Scanning? && s.disp.queue != [] && QueueOf(t) != QueueOf(s) {
      assert QueueOf(t)[i] == QueueOf(s)[i + 1];
    } else {
      assert QueueOf(t) == QueueOf(s) || QueueOf(t) == [];
    }
  }

  lemma DispatchKeepsAcceptedHolder(c: Config, s: State, a: DispatchAction, i: nat)
    requires i < |DispatchStep(c, s, a).rows|
    requires i < |s.rows| ==> AcceptedHolder(s, i)
    ensures AcceptedHolder(DispatchStep(c, s, a), i)
  {
  }

  lemma StepKeepsAcceptedHolder(c: Config, s: State, a: Action, i: nat)
    requires AdmissionInv(c, s) && i < |Step(c, s, a).rows|
    ensures AcceptedHolder(Step(c, s, a), i)
  {
    var t := Step(c, s, a);
    if a.Dispatcher? {
      DispatchKeepsAcceptedHolder(c, s, a.d, i);
    } else {
      OthersAreQuiet(c, s, a);
      if i < |s.rows| { assert Quiet(s.rows[i], t.rows[i]) && AcceptedHolder(s, i); } else { assert Blank(t.rows[i]); }
    }
  }

  lemma StepKeepsAdmission(c: Config, s: State, a: Action)
    requires DispatchInv(s) && AdmissionInv(c, s)
    ensures AdmissionInv(c, Step(c, s, a))
  {
    var t := Step(c, s, a);
    forall i | 0 <= i < |t.rows| ensures SlotAdmitted(c.ledger, t.rows[i]) { StepKeepsRowsAdmitted(c, s, a, i); }
    forall i | 0 <= i < |t.submitters|
      ensures Admitted(c.ledger, t.submitters[i].tenant, t.submitters[i].limits)
    {
      StepKeepsSubmitters(c, s, a, i);
    }
    forall i | 0 <= i < |QueueOf(t)| ensures RowAdmitted(c.ledger, QueueOf(t)[i].row) {
      StepKeepsQueueAdmitted(c, s, a, i);
    }
    forall i: nat | i < |t.rows| ensures AcceptedHolder(t, i) { StepKeepsAcceptedHolder(c, s, a, i); }
  }

  lemma {:induction false} RunKeepsAdmission(c: Config, s: State, run: seq<Action>)
    requires DispatchInv(s) && AdmissionInv(c, s)
    ensures AdmissionInv(c, Exec(c, s, run))
    decreases |run|
  {
    if run != [] {
      StepKeepsDispatchInv(c, s, run[0]);
      StepKeepsAdmission(c, s, run[0]);
      RunKeepsAdmission(c, Step(c, s, run[0]), run[1..]);
    }
  }

  /** Whatever happened before, races included: once the dispatcher is idle and no iteration was
      cut short, the queue drains in as many rounds as it has tasks. */
  lemma {:induction false} ReachableQueueDrains(c: Config, s: State, run: seq<Action>, rounds: seq<Round>)
    requires DispatchInv(s) && AdmissionInv(c, s)
    requires var t := Exec(c, s, run);
             && t.disp.Idle? && t.stranded == {} && c.maxQueued >= 1
             && |rounds| >= AcceptedCount(t.rows)
             && forall k :: 0 <= k < |rounds| ==> EndsTasks(rounds[k], |t.rows|)
    ensures AcceptedCount(RunRounds(c.ledger, Exec(c, s, run).rows, c.maxQueued, rounds)) == 0
  {
    RunKeepsAdmission(c, s, run);
    var t := Exec(c, s, run);
    forall i | 0 <= i < |t.rows| && t.rows[i].Some? && t.rows[i].value.status.Accepted?
      ensures Waiting(c.ledger, t.rows[i].value)
    {
      assert SlotAdmitted(c.ledger, t.rows[i]) && AcceptedHolder(t, i);
    }
    QueueDrains(c.ledger, t.rows, c.maxQueued, rounds);
  }

  // ---- rounds that are runs of the protocol

  /** Work that ends with no reservation held, then one dispatch cycle. */
  datatype Shift = Shift(work: seq<Action>, spawn: nat -> Option<nat>, now: nat)

  predicate NoInserts(run: seq<Action>) {
    forall i :: 0 <= i < |run| ==> !run[i].SubmitInsert?
  }

  predicate NoneActive(rows: seq<Slot>) {
    forall i :: 0 <= i < |rows| && rows[i].Some? ==> !rows[i].value.Active()
  }

  function AfterShift(c: Config, s: State, shift: Shift): State {
    var t := Exec(c, s, shift.work);
    Exec(c, t, DispatchActions(c, t.rows, shift.spawn, shift.now))
  }

  function AfterShifts(c: Config, s: State, shifts: seq<Shift>): State
    decreases |shifts|
  {
    if shifts == [] then s else AfterShifts(c, AfterShift(c, s, shifts[0]), shifts[1..])
  }

  /** In every round nothing is inserted and all active tasks come to an end: by completions,
      kills or anything else the actors do, in any interleaving. */
  predicate WorkEnds(c: Config, s: State, shifts: seq<Shift>)
    decreases |shifts|
  {
    shifts == [] || (EndsIdle(c, s, shifts[0].work) && WorkEnds(c, AfterShift(c, s, shifts[0]), shifts[1..]))
  }

  /** Nothing is inserted, and in the end the dispatcher is idle and nothing is held. */
  predicate EndsIdle(c: Config, s: State, work: seq<Action>) {
    NoInserts(work) && Exec(c, s, work).disp.Idle? && NoneActive(Exec(c, s, work).rows)
  }

  lemma {:induction false} WorkKeepsQueue(c: Config, s: State, run: seq<Action>)
    requires NoInserts(run)
    ensures AcceptedCount(Exec(c, s, run).rows) <= AcceptedCount(s.rows)
    decreases |run|
  {
    if run != [] {
      var t := Step(c, s, run[0]);
      OnlyInsertGrows(c, s, run[0]);
      StepIsForward(c, s, run[0]);
      ForwardAccepted(s.rows, t.rows);
      assert NoInserts(run[1..]) by { assert forall i :: 0 <= i < |run[1..]| ==> run[1..][i] == run[i + 1]; }
      WorkKeepsQueue(c, t, run[1..]);
    }
  }

  lemma AdmittedIsDrainable(c: Config, s: State)
    requires AdmissionInv(c, s) && NoneActive(s.rows)
    ensures Drainable(c.ledger, s.rows)
  {
    forall i | 0 <= i < |s.rows| && s.rows[i].Some? && s.rows[i].value.status.Accepted?
      ensures Waiting(c.ledger, s.rows[i].value)
    {
      assert SlotAdmitted(c.ledger, s.rows[i]);
    }
  }

  /** One round takes at least one task out of a queue that still has one. */
  lemma ShiftShortensQueue(c: Config, s: State, shift: Shift)
    requires DispatchInv(s) && AdmissionInv(c, s) && c.maxQueued >= 1
    requires EndsIdle(c, s, shift.work)
    ensures var after := AfterShift(c, s, shift);
            && DispatchInv(after) && AdmissionInv(c, after)
            && (AcceptedCount(after.rows) < AcceptedCount(s.rows)
                || AcceptedCount(after.rows) == AcceptedCount(s.rows) == 0)
  {
    var t := Exec(c, s, shift.work);
    var cycle := DispatchActions(c, t.rows, shift.spawn, shift.now);
    RunKeepsDispatchInv(c, s, shift.work);
    RunKeepsAdmission(c, s, shift.work);
    RunKeepsDispatchInv(c, t, cycle);
    RunKeepsAdmission(c, t, cycle);
    WorkKeepsQueue(c, s, shift.work);
    DispatchIsRun(c, t, shift.spawn, shift.now);
    AdmittedIsDrainable(c, t);
    var items := Take(Select(t.rows, IsAccepted), c.maxQueued);
    CycleUntouched(c.ledger, Snapshot(c.ledger, t.rows), t.rows, items, shift.spawn, shift.now);
    FewerAccepted(t.rows, AfterShift(c, s, shift).rows);
    if AcceptedCount(t.rows) > 0 {
      CycleShortensQueue(c.ledger, t.rows, c.maxQueued, shift.spawn, shift.now);
    }
  }

  /** The drain theorem over runs of the protocol: n rounds in which all active work ends and a
      dispatch cycle follows empty a queue of n. */
  lemma {:induction false} ShiftsDrainQueue(c: Config, s: State, shifts: seq<Shift>)
    requires DispatchInv(s) && AdmissionInv(c, s) && c.maxQueued >= 1
    requires WorkEnds(c, s, shifts) && |shifts| >= AcceptedCount(s.rows)
    ensures AcceptedCount(AfterShifts(c, s, shifts).rows) == 0
    decreases |shifts|
  {
    if shifts != [] {
      ShiftShortensQueue(c, s, shifts[0]);
      ShiftsDrainQueue(c, AfterShift(c, s, shifts[0]), shifts[1..]);
    }
  }

  /** Recovery keeps admission and leaves nothing stranded. */
  lemma RecoveryKeepsAdmission(c: Config, rows: seq<Slot>, shims: seq<Shim>, alive: nat -> bool, now: nat)
    requires forall i :: 0 <= i < |rows| ==> SlotAdmitted(c.ledger, rows[i])
    ensures AdmissionInv(c, Boot(RecoverTable(rows, alive, now), shims))
  {
    var s := Boot(RecoverTable(rows, alive, now), shims);
    forall i: nat | i < |rows| ensures SlotAdmitted(c.ledger, s.rows[i]) && AcceptedHolder(s, i) {
      RecoveryEstablishes(rows, alive, now, i);
      assert SlotAdmitted(c.ledger, rows[i]);
    }
  }
}
