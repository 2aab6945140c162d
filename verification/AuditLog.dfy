/** The event stream of a row agrees with the row, except after a surplus release. */
module AuditLog {
  import opened Types
  import opened Table
  import opened Dispatch
  import opened Protocol
  import opened SpawnOnce

  /** The reservation a reader of the log believes to be held; None when the log is not an
      alternation of reservations and matching releases. */
  function Replay(log: seq<Event>): Option<Option<Reservation>> {
    if log == [] then Some(None)
    else
      match (Replay(log[..|log| - 1]), log[|log| - 1])
      case (None, _) => None
      case (Some(None), ReservedEvent(r)) => Some(Some(r))
      case (Some(Some(_)), ReservedEvent(_)) => None
      case (Some(held), ReleasedEvent(r)) => if held == Some(r) then Some(None) else None
      case (Some(held), _) => Some(held)
  }

  function Opening(degraded: bool): seq<Event> {
    [SubmittedEvent, AcceptedEvent, PlannedEvent] + if degraded then [DegradedEvent] else []
  }

  function HeldNow(row: Row): Option<Reservation> {
    if row.Active() then row.reservation else None
  }

  /** The log opens as submission wrote it, mentions degradation exactly when the plan is
      degraded, and replays to the reservation the row holds. */
  predicate LogOk(row: Row) {
    && Opening(row.degraded) <= row.log
    && (DegradedEvent in row.log <==> row.degraded)
    && Replay(row.log) == Some(HeldNow(row))
  }

  function Count(log: seq<Event>, p: Event -> bool): nat {
    if log == [] then 0 else Count(log[..|log| - 1], p) + if p(log[|log| - 1]) then 1 else 0
  }

  predicate IsReserved(e: Event) { e.ReservedEvent? }
  predicate IsReleased(e: Event) { e.ReleasedEvent? }

  lemma {:induction false} ReplayCounts(log: seq<Event>)
    requires Replay(log).Some?
    ensures Count(log, IsReserved) == Count(log, IsReleased) + if Replay(log).value.Some? then 1 else 0
  {
    if log != [] {
      ReplayCounts(log[..|log| - 1]);
    }
  }

  /** Reservations minus releases in the log is one exactly while the row holds a reservation. */
  lemma LogCountsReservation(row: Row)
    requires LogOk(row)
    ensures Count(row.log, IsReserved) == Count(row.log, IsReleased) + if row.Active() then 1 else 0
  {
    ReplayCounts(row.log);
  }

  lemma ReplayAppend(log: seq<Event>, e: Event)
    ensures Replay(log + [e]) ==
      match (Replay(log), e)
      case (None, _) => None
      case (Some(None), ReservedEvent(r)) => Some(Some(r))
      case (Some(Some(_)), ReservedEvent(_)) => None
      case (Some(held), ReleasedEvent(r)) => if held == Some(r) then Some(None) else None
      case (Some(held), _) => Some(held)
  {
  }

  /** A second reservation, or a release written for a reservation that stays in force. */
  predicate Disagrees(row: Row, w: Write) {
    row.Active() && (w.Reserve? || (w.CancelAccepted? && !row.status.Accepted?))
  }

  /** What a transaction appends to the log. */
  function Appended(row: Row, w: Write): seq<Event> {
    match w
    case Dispatched(_) => []
    case Started(_) => [StartedEvent]
    case Reserve(r) => [ReservedEvent(r)]
    case Release => FreedBy(row)
    case RequestKill => [KillRequestedEvent]
    case HitTimeout => [TimeoutEvent]
    case CancelAccepted => FreedBy(row) + [CancelledEvent]
    case Complete(u) => FreedBy(row) + [CompletionEvent(u.status)]
    case MarkRecovered => [RecoveredEvent]
  }

  lemma ApplyAppends(row: Row, w: Write, now: nat)
    ensures Apply(row, w, now).log == row.log + Appended(row, w)
  {
  }

  lemma ReplayAppended(row: Row, w: Write)
    requires Replay(row.log) == Some(HeldNow(row))
    ensures Replay(row.log + Appended(row, w)) == ToldThen(row, w)
  {
    var added := Appended(row, w);
    if added == [] {
      assert row.log + added == row.log;
    } else if |added| == 1 {
      assert added == [added[0]];
      ReplayAppend(row.log, added[0]);
    } else {
      assert row.log + added == (row.log + [added[0]]) + [added[1]];
      ReplayAppend(row.log, added[0]);
      ReplayAppend(row.log + [added[0]], added[1]);
    }
  }

  /** The reservation held after a transaction. */
  function HeldThen(row: Row, w: Write): Option<Reservation> {
    match w
    case Reserve(r) => Some(r)
    case Release => None
    case CancelAccepted => if row.status.Accepted? then None else HeldNow(row)
    case Complete(_) => None
    case _ => HeldNow(row)
  }

  /** The reservation the log tells of after a transaction. */
  function ToldThen(row: Row, w: Write): Option<Option<Reservation>> {
    match w
    case Reserve(r) => if row.Active() then None else Some(Some(r))
    case Release => Some(None)
    case CancelAccepted => Some(None)
    case Complete(_) => Some(None)
    case _ => Some(HeldNow(row))
  }

  lemma HeldAfter(row: Row, w: Write, now: nat)
    ensures HeldNow(Apply(row, w, now)) == HeldThen(row, w)
    ensures Apply(row, w, now).degraded == row.degraded
  {
  }

  lemma AgreesUnlessDisagrees(row: Row, w: Write)
    ensures ToldThen(row, w) == Some(HeldThen(row, w)) <==> !Disagrees(row, w)
  {
  }

  lemma OpeningKept(log: seq<Event>, added: seq<Event>, degraded: bool)
    requires Opening(degraded) <= log && (DegradedEvent in log <==> degraded)
    requires DegradedEvent !in added
    ensures Opening(degraded) <= log + added && (DegradedEvent in log + added <==> degraded)
  {
  }

  /** One transaction keeps log and row in agreement exactly when it is not one of the two
      disagreeing kinds. */
  lemma WriteKeepsLog(row: Row, w: Write, now: nat)
    requires LogOk(row)
    ensures LogOk(Apply(row, w, now)) <==> !Disagrees(row, w)
  {
    var after, added := Apply(row, w, now), Appended(row, w);
    assert after.log == row.log + added by { ApplyAppends(row, w, now); }
    HeldAfter(row, w, now);
    assert Opening(after.degraded) <= after.log && (DegradedEvent in after.log <==> after.degraded) by {
      OpeningKept(row.log, added, row.degraded);
    }
    assert Replay(after.log) == ToldThen(row, w) by { ReplayAppended(row, w); }
    AgreesUnlessDisagrees(row, w);
  }

  predicate LogsOk(rows: seq<Slot>) {
    forall i :: 0 <= i < |rows| && rows[i].Some? ==> LogOk(rows[i].value)
  }

  predicate HoldsUnaccepted(rows: seq<Slot>, id: nat) {
    Live(rows, id) && rows[id].value.Active() && !rows[id].value.status.Accepted?
  }

  /** A cancellation commits on a row that has left the queue and still holds its reservation. */
  predicate SurplusRelease(c: Config, s: State, a: Action) {
    match a
    case KillCommitCancel(h, _) => AtStage(s, h, CancelTask) && HoldsUnaccepted(s.rows, s.kills[h].task)
    case Dispatcher(Scan(_)) =>
      && s.disp.Scanning? && s.disp.queue != []
      && Decide(c.ledger, s.disp.counters, s.disp.queue[0].row).CancelIt?
      && HoldsUnaccepted(s.rows, s.disp.queue[0].id)
    case _ => false
  }

  lemma CommitKeepsLogs(rows: seq<Slot>, id: nat, w: Write, now: nat)
    requires LogsOk(rows)
    ensures LogsOk(Commit(rows, id, w, now)) <==> !(Live(rows, id) && Disagrees(rows[id].value, w))
  {
    if Live(rows, id) {
      WriteKeepsLog(rows[id].value, w, now);
      assert Commit(rows, id, w, now)[id] == Some(Apply(rows[id].value, w, now));
    }
  }

  lemma NewRowLog(request: Submission, now: nat)
    ensures LogOk(NewRow(request, now))
  {
    var log := NewRow(request, now).log;
    assert log == Opening(request.degraded);
    assert Replay([]) == Some(None);
    ReplayAppend([], SubmittedEvent);
    ReplayAppend([SubmittedEvent], AcceptedEvent);
    ReplayAppend([SubmittedEvent, AcceptedEvent], PlannedEvent);
    ReplayAppend([SubmittedEvent, AcceptedEvent, PlannedEvent], DegradedEvent);
    assert [] + [SubmittedEvent] == [SubmittedEvent];
    assert [SubmittedEvent] + [AcceptedEvent] == [SubmittedEvent, AcceptedEvent];
    assert [SubmittedEvent, AcceptedEvent] + [PlannedEvent] == [SubmittedEvent, AcceptedEvent, PlannedEvent];
    if !request.degraded {
      assert log == [SubmittedEvent, AcceptedEvent, PlannedEvent];
    }
  }

  lemma EffectKeepsLogs(rows: seq<Slot>, e: TableEffect)
    requires LogsOk(rows)
    ensures LogsOk(ApplyEffect(rows, e)) <==> !(e.Wrote? && Live(rows, e.id) && Disagrees(rows[e.id].value, e.w))
  {
    match e
    case Wrote(id, w, now) => CommitKeepsLogs(rows, id, w, now);
    case Inserted(request, now) => NewRowLog(request, now);
    case _ =>
  }

  /** The effects that break the agreement are exactly the surplus releases: the dispatcher never
      reserves for a row that already holds a reservation. */
  lemma DisagreementsAreSurplus(c: Config, s: State, a: Action)
    requires SpawnInv(s)
    ensures var e := EffectOf(c, s, a);
            e.Wrote? && Live(s.rows, e.id) && Disagrees(s.rows[e.id].value, e.w) <==> SurplusRelease(c, s, a)
  {
  }

  /** One step keeps every log in agreement with its row exactly when it is not a surplus release. */
  lemma StepKeepsLogs(c: Config, s: State, a: Action)
    requires SpawnInv(s) && LogsOk(s.rows)
    ensures LogsOk(Step(c, s, a).rows) <==> !SurplusRelease(c, s, a)
  {
    StepHasEffect(c, s, a);
    EffectKeepsLogs(s.rows, EffectOf(c, s, a));
    DisagreementsAreSurplus(c, s, a);
  }

  predicate NoSurplus(c: Config, s: State, run: seq<Action>)
    decreases |run|
  {
    run == [] || (!SurplusRelease(c, s, run[0]) && NoSurplus(c, Step(c, s, run[0]), run[1..]))
  }

  /** In every run without a surplus release, all other races included, each log opens properly
      and replays to the reservation its row holds. */
  lemma {:induction false} AuditLogAgrees(c: Config, s: State, run: seq<Action>)
    requires SpawnInv(s) && LogsOk(s.rows) && NoSurplus(c, s, run)
    ensures LogsOk(Exec(c, s, run).rows)
    decreases |run|
  {
    if run != [] {
      StepKeepsSpawnInv(c, s, run[0]);
      StepKeepsLogs(c, s, run[0]);
      AuditLogAgrees(c, Step(c, s, run[0]), run[1..]);
    }
  }
}
