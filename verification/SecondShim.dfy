/** When a restart can give a row a second shim. */
module SecondShim {
  import opened Types
  import opened Table
  import opened Dispatch
  import opened Protocol
  import opened SpawnOnce
  import opened Recovery
  import opened CycleRun

  predicate OneShimEach(shims: seq<Shim>) {
    forall i, j :: 0 <= i < j < |shims| ==> shims[i].task != shims[j].task
  }

  /** A row the dispatcher may still want to start: accepted and not flagged. */
  predicate Wants(rows: seq<Slot>, id: nat) {
    Live(rows, id) && rows[id].value.status.Accepted? && !rows[id].value.killRequested
  }

  predicate ShimOfWanted(rows: seq<Slot>, shims: seq<Shim>) {
    exists k :: 0 <= k < |shims| && Wants(rows, shims[k].task)
  }

  lemma RecoveryKeepsWants(rows: seq<Slot>, alive: nat -> bool, now: nat, id: nat)
    ensures Wants(RecoverTable(rows, alive, now), id) <==> Wants(rows, id)
    ensures Live(RecoverTable(rows, alive, now), id) && RecoverTable(rows, alive, now)[id].value.status.Accepted? ==>
              !RecoverTable(rows, alive, now)[id].value.Active()
  {
    if id < |rows| { RecoveryEstablishes(rows, alive, now, id); }
  }

  /** Recovery yields a start from which no row gets two shims exactly when the survivors have
      distinct rows and none of these is still wanted. */
  lemma RecoveryStarts(rows: seq<Slot>, shims: seq<Shim>, alive: nat -> bool, now: nat)
    requires forall k :: 0 <= k < |shims| ==> shims[k].task < |rows|
    ensures Start(Boot(RecoverTable(rows, alive, now), shims)) <==> OneShimEach(shims) && !ShimOfWanted(rows, shims)
  {
    var after := RecoverTable(rows, alive, now);
    forall k | 0 <= k < |shims| ensures Taken(after, shims[k].task) <==> !Wants(rows, shims[k].task) {
      RecoveryKeepsWants(rows, alive, now, shims[k].task);
    }
  }

  /** After a crash that catches no shim with a wanted row, every continuation keeps at most one
      shim per row; flagged rows may be caught anywhere. */
  lemma {:induction false} SafeCrash(c: Config, s: State, run: seq<Action>, alive: nat -> bool, now: nat,
                                     again: seq<Action>)
    requires SpawnInv(s) && !ShimOfWanted(Exec(c, s, run).rows, Exec(c, s, run).shims)
    ensures var t := Exec(c, s, run);
            OneShimEach(Exec(c, Boot(RecoverTable(t.rows, alive, now), t.shims), again).shims)
  {
    var t := Exec(c, s, run);
    RunKeepsSpawnInv(c, s, run);
    assert forall k :: 0 <= k < |t.shims| ==> Taken(t.rows, t.shims[k].task);
    RecoveryStarts(t.rows, t.shims, alive, now);
    RunKeepsSpawnInv(c, Boot(RecoverTable(t.rows, alive, now), t.shims), again);
  }

  // ---- the converse: kill every other waiting task, then dispatch

  function KilledWaiting(row: Row): Row { Apply(Apply(row, RequestKill, 0), CancelAccepted, 0) }

  /** A kill handler cancels one waiting row and nothing else happens. */
  lemma KillWaiting(c: Config, s: State, i: nat) returns (run: seq<Action>)
    requires Live(s.rows, i) && s.rows[i].value.status.Accepted?
    ensures var t := Exec(c, s, run);
            t.rows == s.rows[i := Some(KilledWaiting(s.rows[i].value))] && t.disp == s.disp && t.shims == s.shims
  {
    var h, t := |s.kills|, s;
    run, t := Then(c, s, [], s, KillArrives(i));
    run, t := Then(c, s, run, t, KillCommitFlag(h, 0));
    run, t := Then(c, s, run, t, KillReadsAgain(h));
    run, t := Then(c, s, run, t, KillCommitCancel(h, 0));
  }

  lemma {:induction false} HeldUpdate(rows: seq<Slot>, i: nat, x: Slot)
    requires i < |rows| && (rows[i].Some? ==> !rows[i].value.Active()) && (x.Some? ==> !x.value.Active())
    ensures ActiveHeld(rows[i := x]) == ActiveHeld(rows)
  {
    var n := |rows| - 1;
    if i == n {
      assert rows[i := x][..n] == rows[..n];
    } else {
      assert rows[i := x][..n] == rows[..n][i := x];
      HeldUpdate(rows[..n], i, x);
    }
  }

  predicate WaitingHoldNothing(rows: seq<Slot>) {
    forall i :: 0 <= i < |rows| && rows[i].Some? && rows[i].value.status.Accepted? ==> !rows[i].value.Active()
  }

  /** Of the first `n` rows only row `id` may still wait; everything else of interest is as it was. */
  predicate Cleared(s: State, t: State, id: nat, n: nat) {
    && |t.rows| == |s.rows| && t.disp == s.disp && t.shims == s.shims
    && ActiveHeld(t.rows) == ActiveHeld(s.rows)
    && (forall i :: 0 <= i < |s.rows| && (i >= n || i == id) ==> t.rows[i] == s.rows[i])
    && (forall i :: 0 <= i < |s.rows| && i < n && i != id && t.rows[i].Some? ==> !t.rows[i].value.status.Accepted?)
  }

  lemma ClearOne(c: Config, s: State, t: State, id: nat, n: nat) returns (run: seq<Action>)
    requires WaitingHoldNothing(s.rows) && Cleared(s, t, id, n) && n < |s.rows|
    ensures Cleared(s, Exec(c, t, run), id, n + 1)
  {
    if n != id && Live(t.rows, n) && t.rows[n].value.status.Accepted? {
      run := KillWaiting(c, t, n);
      HeldUpdate(t.rows, n, Some(KilledWaiting(t.rows[n].value)));
    } else {
      run := [];
    }
  }

  lemma {:induction false} CancelOthers(c: Config, s: State, id: nat, n: nat) returns (run: seq<Action>)
    requires WaitingHoldNothing(s.rows) && n <= |s.rows|
    ensures Cleared(s, Exec(c, s, run), id, n)
  {
    run := [];
    if n > 0 {
      var first := CancelOthers(c, s, id, n - 1);
      var last := ClearOne(c, s, Exec(c, s, first), id, n - 1);
      ExecSplits(c, s, first, last);
      run := first + last;
    }
  }

  lemma OnlyOneWaits(rows: seq<Slot>, id: nat)
    requires Live(rows, id) && rows[id].value.status.Accepted?
    requires forall i :: 0 <= i < |rows| && i != id && rows[i].Some? ==> !rows[i].value.status.Accepted?
    ensures Select(rows, IsAccepted) == [Item(id, rows[id].value)]
  {
    SelectIsExact(rows, IsAccepted);
    var items := Select(rows, IsAccepted);
    assert Item(id, rows[id].value) in items;
    forall i | 0 <= i < |items| ensures items[i] == Item(id, rows[id].value) {
      assert items[i] in items;
    }
    assert |items| < 2 || items[0].id < items[1].id;
  }

  /** The request of row `id` fits, in exact sums, next to the reservations in force. */
  ghost predicate FitsNow(c: Config, rows: seq<Slot>, id: nat)
    requires Live(rows, id)
  {
    var row, held := rows[id].value, ActiveHeld(rows);
    Fits(c.ledger, held, held, Held(row.tenant, Wanted(row)))
  }

  /** A wanted row that fits can be given another shim, whichever shims there are. */
  lemma {:induction false} WantedIsSpawned(c: Config, s: State, id: nat) returns (run: seq<Action>, j: nat)
    requires s.disp.Idle? && c.maxQueued >= 1 && WaitingHoldNothing(s.rows)
    requires Wants(s.rows, id) && FitsNow(c, s.rows, id)
    ensures var t := Exec(c, s, run);
            s.shims <= t.shims && |s.shims| <= j < |t.shims| && t.shims[j].task == id
  {
    var spawn: nat -> Option<nat> := _ => Some(0);
    var clear := CancelOthers(c, s, id, |s.rows|);
    var t := Exec(c, s, clear);
    OnlyOneWaits(t.rows, id);
    SnapshotTracks(c.ledger, t.rows);
    DecideIsExact(c.ledger, Snapshot(c.ledger, t.rows), ActiveHeld(t.rows), ActiveHeld(t.rows), t.rows[id].value);
    j := DispatchSpawns(c, t, spawn, 0, 0);
    var cycle := DispatchActions(c, t.rows, spawn, 0);
    ExecSplits(c, s, clear, cycle);
    run := clear + cycle;
  }

  /** After a crash that catches a shim with a wanted row that fits next to the recovered
      reservations, some continuation gives that row a second shim. */
  lemma {:induction false} UnsafeCrash(c: Config, t: State, alive: nat -> bool, now: nat, k: nat)
    returns (again: seq<Action>)
    requires c.maxQueued >= 1 && k < |t.shims| && Wants(t.rows, t.shims[k].task)
    requires var rows := RecoverTable(t.rows, alive, now);
             Live(rows, t.shims[k].task) && FitsNow(c, rows, t.shims[k].task)
    ensures !OneShimEach(Exec(c, Boot(RecoverTable(t.rows, alive, now), t.shims), again).shims)
  {
    var boot := Boot(RecoverTable(t.rows, alive, now), t.shims);
    forall i | 0 <= i < |boot.rows| && boot.rows[i].Some? && boot.rows[i].value.status.Accepted?
      ensures !boot.rows[i].value.Active()
    {
      RecoveryKeepsWants(t.rows, alive, now, i);
    }
    RecoveryKeepsWants(t.rows, alive, now, t.shims[k].task);
    var j;
    again, j := WantedIsSpawned(c, boot, t.shims[k].task);
    var u := Exec(c, boot, again);
    assert u.shims[k] == t.shims[k] && u.shims[k].task == u.shims[j].task;
  }

  /** Every wanted row that a shim works on fits next to the recovered reservations. */
  ghost predicate WantedFit(c: Config, t: State, alive: nat -> bool, now: nat) {
    var rows := RecoverTable(t.rows, alive, now);
    forall k :: 0 <= k < |t.shims| && Wants(rows, t.shims[k].task) ==> FitsNow(c, rows, t.shims[k].task)
  }

  /** Where such rows fit, every continuation of a crash keeps at most one shim per row exactly
      when the crash catches no shim with a wanted row. */
  lemma {:induction false} CrashIsSafe(c: Config, s: State, run: seq<Action>, alive: nat -> bool, now: nat)
    requires SpawnInv(s) && c.maxQueued >= 1 && WantedFit(c, Exec(c, s, run), alive, now)
    ensures var t := Exec(c, s, run);
            (forall again :: OneShimEach(Exec(c, Boot(RecoverTable(t.rows, alive, now), t.shims), again).shims)) <==>
              !ShimOfWanted(t.rows, t.shims)
  {
    var t := Exec(c, s, run);
    var boot := Boot(RecoverTable(t.rows, alive, now), t.shims);
    if ShimOfWanted(t.rows, t.shims) {
      var k :| 0 <= k < |t.shims| && Wants(t.rows, t.shims[k].task);
      RecoveryKeepsWants(t.rows, alive, now, t.shims[k].task);
      var again := UnsafeCrash(c, t, alive, now, k);
      assert !OneShimEach(Exec(c, boot, again).shims);
    } else {
      forall again ensures OneShimEach(Exec(c, boot, again).shims) {
        SafeCrash(c, s, run, alive, now, again);
      }
    }
  }
}
