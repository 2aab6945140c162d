/** The repository (src/repo.rs): every method is one transaction on the table it owns. */
module Repository {
  import opened Types
  import opened Table

  datatype RepoError = NotFound | Conflict

  class Repository {
    var tasks: seq<Slot>

    constructor ()
      ensures tasks == []
    {
      tasks := [];
    }

    /** A submission is refused exactly when a live row already carries its name. */
    method InsertTask(s: Submission, now: nat) returns (r: Result<nat, RepoError>)
      modifies this
      ensures r.Ok? <==> !NameTaken(old(tasks), s.name)
      ensures r.Ok? ==> r.value == |old(tasks)| && tasks == old(tasks) + [Some(NewRow(s, now))]
      ensures r.Ok? ==>
        && tasks[r.value].Some?
        && var row := tasks[r.value].value;
           && row.name == s.name && row.tenant == s.tenant && row.limits == s.limits && row.degraded == s.degraded
           && row.status.Accepted? && row.reservation.None? && !row.killRequested
           && row.log == [SubmittedEvent, AcceptedEvent, PlannedEvent] + if s.degraded then [DegradedEvent] else []
      ensures r.Err? ==> r.error == Conflict && tasks == old(tasks)
    {
      if NameTaken(tasks, s.name) {
        return Err(Conflict);
      }
      var row := Row(s.name, s.tenant, s.limits, s.degraded, Accepted, now, None, None, None, None, None, None, None,
                     None, false, None, false, None, None, None, []);
      row := row.(log := row.log + [SubmittedEvent]);
      row := row.(log := row.log + [AcceptedEvent]);
      row := row.(log := row.log + [PlannedEvent]);
      if s.degraded {
        row := row.(log := row.log + [DegradedEvent]);
      }
      assert row.log == NewRow(s, now).log;
      r := Ok(|tasks|);
      tasks := tasks + [Some(row)];
    }

    method GetTask(id: nat) returns (r: Result<Row, RepoError>)
      ensures r == if Live(tasks, id) then Ok(tasks[id].value) else Err(NotFound)
    {
      r := if Live(tasks, id) then Ok(tasks[id].value) else Err(NotFound);
    }

    method MarkDispatched(id: nat, shimPid: nat, now: nat)
      modifies this
      ensures tasks == Commit(old(tasks), id, Dispatched(shimPid), now)
    {
      if Live(tasks, id) && tasks[id].value.status == Accepted {
        tasks := tasks[id := Some(tasks[id].value.(status := Running, shimPid := Some(shimPid), updatedAt := now))];
      }
    }

    /** The event insert fails on a deleted row, and the transaction with it. */
    method MarkStarted(id: nat, pid: nat, now: nat) returns (ok: bool)
      modifies this
      ensures ok == Live(old(tasks), id)
      ensures tasks == Commit(old(tasks), id, Started(pid), now)
    {
      ok := Live(tasks, id);
      if ok {
        var row := tasks[id].value;
        row := row.(status := Running, pid := Some(pid), startedAt := Some(now), updatedAt := now);
        row := row.(log := row.log + [StartedEvent]);
        tasks := tasks[id := Some(row)];
      }
    }

    method ReserveResources(id: nat, r: Reservation, now: nat) returns (ok: bool)
      modifies this
      ensures ok == Live(old(tasks), id)
      ensures tasks == Commit(old(tasks), id, Reserve(r), now)
    {
      ok := Live(tasks, id);
      if ok {
        var row := tasks[id].value;
        row := row.(reservation := Some(r), reservedAt := Some(now), releasedAt := None, updatedAt := now);
        row := row.(log := row.log + [ReservedEvent(r)]);
        tasks := tasks[id := Some(row)];
      }
    }

    method ReleaseResources(id: nat, now: nat)
      modifies this
      ensures tasks == Commit(old(tasks), id, Release, now)
    {
      if Live(tasks, id) && tasks[id].value.Active() {
        var row := tasks[id].value;
        var held := row.reservation.value;
        row := row.(releasedAt := Some(now), updatedAt := now);
        row := row.(log := row.log + [ReleasedEvent(held)]);
        tasks := tasks[id := Some(row)];
      }
    }

    method SetCancelRequested(id: nat, now: nat) returns (ok: bool)
      modifies this
      ensures ok == Live(old(tasks), id)
      ensures tasks == Commit(old(tasks), id, RequestKill, now)
    {
      ok := Live(tasks, id);
      if ok {
        var row := tasks[id].value;
        row := row.(killRequested := true, killRequestedAt := Some(now), updatedAt := now);
        row := row.(log := row.log + [KillRequestedEvent]);
        tasks := tasks[id := Some(row)];
      }
    }

    method MarkTimeoutTriggered(id: nat, now: nat) returns (ok: bool)
      modifies this
      ensures ok == Live(old(tasks), id)
      ensures tasks == Commit(old(tasks), id, HitTimeout, now)
    {
      ok := Live(tasks, id);
      if ok {
        var row := tasks[id].value;
        row := row.(timeoutTriggered := true, updatedAt := now);
        row := row.(log := row.log + [TimeoutEvent]);
        tasks := tasks[id := Some(row)];
      }
    }

    /** The active reservation is read first; the UPDATE is guarded by status, the events are not. */
    method CancelAcceptedTask(id: nat, now: nat) returns (ok: bool)
      modifies this
      ensures ok == Live(old(tasks), id)
      ensures tasks == Commit(old(tasks), id, CancelAccepted, now)
    {
      ok := Live(tasks, id);
      if ok {
        var row := tasks[id].value;
        var held := if row.Active() then row.reservation else None;
        if row.status == Accepted {
          row := row.(status := Cancelled, updatedAt := now, finishedAt := Some(now),
                      releasedAt := if row.releasedAt.None? && row.reservation.Some? then Some(now) else row.releasedAt,
                      error := Some(KillError), durationMs := Some(0));
        }
        if held.Some? {
          row := row.(log := row.log + [ReleasedEvent(held.value)]);
        }
        row := row.(log := row.log + [CancelledEvent]);
        assert row.log == tasks[id].value.log + FreedBy(tasks[id].value) + [CancelledEvent];
        tasks := tasks[id := Some(row)];
      }
    }

    method CompleteTask(id: nat, u: CompletionUpdate) returns (ok: bool)
      modifies this
      ensures ok == Live(old(tasks), id)
      ensures tasks == Commit(old(tasks), id, Complete(u), u.finishedAt)
    {
      ok := Live(tasks, id);
      if ok {
        var row := tasks[id].value;
        var held := if row.Active() then row.reservation else None;
        row := row.(status := u.status, updatedAt := u.finishedAt, finishedAt := Some(u.finishedAt),
                    releasedAt := if row.releasedAt.None? && row.reservation.Some? then Some(u.finishedAt)
                                  else row.releasedAt,
                    durationMs := u.durationMs, exitCode := u.exitCode, exitSignal := u.exitSignal, error := u.error);
        if held.Some? {
          row := row.(log := row.log + [ReleasedEvent(held.value)]);
        }
        var finished := match u.status
          case Success => FinishedEvent
          case Failed => FailedEvent
          case Cancelled => CancelledEvent
          case Accepted => FinishedEvent
          case Running => FinishedEvent;
        row := row.(log := row.log + [finished]);
        assert row.log == tasks[id].value.log + FreedBy(tasks[id].value) + [CompletionEvent(u.status)];
        tasks := tasks[id := Some(row)];
      }
    }

    method MarkRecoveredTask(id: nat, now: nat) returns (ok: bool)
      modifies this
      ensures ok == Live(old(tasks), id)
      ensures tasks == Commit(old(tasks), id, MarkRecovered, now)
    {
      ok := Live(tasks, id);
      if ok {
        var row := tasks[id].value;
        if row.status == Running {
          row := row.(updatedAt := now);
        }
        row := row.(log := row.log + [RecoveredEvent]);
        tasks := tasks[id := Some(row)];
      }
    }

    method DeleteTask(id: nat)
      modifies this
      ensures tasks == if id < |old(tasks)| then old(tasks)[id := None] else old(tasks)
    {
      if id < |tasks| {
        tasks := tasks[id := None];
      }
    }

    /** A query with a WHERE clause, in insertion order. */
    method ListWhere(p: Row -> bool) returns (items: seq<Item>)
      ensures items == Select(tasks, p)
    {
      items := [];
      for i := 0 to |tasks|
        invariant items == Select(tasks[..i], p)
      {
        assert tasks[..i + 1][..i] == tasks[..i];
        if tasks[i].Some? && p(tasks[i].value) {
          items := items + [Item(i, tasks[i].value)];
        }
      }
      assert tasks[..|tasks|] == tasks;
    }

    method ListAccepted(limit: nat) returns (items: seq<Item>)
      ensures items == Take(Select(tasks, IsAccepted), limit)
    {
      var all := ListWhere(IsAccepted);
      items := if |all| <= limit then all else all[..limit];
    }

    method ListActiveReservations() returns (held: seq<Held>)
      ensures held == ActiveHeld(tasks)
    {
      held := [];
      for i := 0 to |tasks|
        invariant held == ActiveHeld(tasks[..i])
      {
        assert tasks[..i + 1][..i] == tasks[..i];
        if tasks[i].Some? && tasks[i].value.Active() {
          held := held + [Held(tasks[i].value.tenant, tasks[i].value.reservation.value)];
        }
      }
      assert tasks[..|tasks|] == tasks;
    }

    /** Accepted tasks that hold no reservation yet. */
    method CountAcceptedWaiting() returns (n: nat)
      ensures n == |Select(tasks, IsWaiting)|
    {
      var items := ListWhere(IsWaiting);
      n := |items|;
    }

    method CountAccepted() returns (n: nat)
      ensures n == AcceptedCount(tasks)
      ensures n == |Select(tasks, IsAccepted)|
    {
      n := 0;
      for i := 0 to |tasks|
        invariant n == AcceptedCount(tasks[..i])
      {
        assert tasks[..i + 1][..i] == tasks[..i];
        if tasks[i].Some? && tasks[i].value.status == Accepted {
          n := n + 1;
        }
      }
      assert tasks[..|tasks|] == tasks;
      AcceptedCountIsListLength(tasks);
    }
  }
}
