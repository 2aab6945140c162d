/** No kill is lost, in every interleaving. */
module KillSafety {
  import opened Types
  import opened Table
  import opened Protocol
  import opened SpawnOnce

  predicate Flagged(rows: seq<Slot>, id: nat) {
    id < |rows| && (rows[id].Some? ==> rows[id].value.killRequested)
  }

  lemma StepKeepsFlag(c: Config, s: State, a: Action, id: nat)
    requires Flagged(s.rows, id)
    ensures Flagged(Step(c, s, a).rows, id)
  {
    StepIsForward(c, s, a);
    assert Forward(s.rows[id], Step(c, s, a).rows[id]);
  }

  // ---- a kill before the shim's first read

  /** Only a shim past its launch has recorded a workload process. */
  predicate PidFree(rows: seq<Slot>, id: nat) {
    Live(rows, id) ==> rows[id].value.pid.None?
  }

  predicate BeforeStart(pc: ShimPc) {
    pc.Begin? || pc.CancelPending? || pc.Launching? || pc.Launched? || pc.LaunchBroken?
  }

  predicate PidInv(s: State) {
    && (forall id: nat :: id < |s.rows| && Live(s.rows, id) && s.rows[id].value.status.Accepted? ==>
          s.rows[id].value.pid.None?)
    && (forall k :: 0 <= k < |s.shims| && BeforeStart(s.shims[k].pc) ==> PidFree(s.rows, s.shims[k].task))
    && DispatcherPids(s)
  }

  predicate ListedPidFree(rows: seq<Slot>, queue: seq<Item>) {
    forall i :: 0 <= i < |queue| && !queue[i].row.Active() && !queue[i].row.killRequested ==> PidFree(rows, queue[i].id)
  }

  /** The step by which some shim records the workload of row `id`. */
  predicate StartsRow(s: State, a: Action, id: nat) {
    a.ShimActs? && a.a.CommitStarted? && a.k < |s.shims| && s.shims[a.k].pc.Launched? && s.shims[a.k].task == id
  }

  lemma StartedEffect(c: Config, s: State, a: Action)
    ensures var e := EffectOf(c, s, a); e.Wrote? && e.w.Started? ==> StartsRow(s, a, e.id)
  {
  }

  lemma StepKeepsPidFree(c: Config, s: State, a: Action, id: nat)
    requires id < |s.rows| && PidFree(s.rows, id) && !StartsRow(s, a, id)
    ensures PidFree(Step(c, s, a).rows, id)
  {
    StepHasEffect(c, s, a);
    StartedEffect(c, s, a);
  }

  lemma ListingIsPidFree(s: State, limit: nat)
    requires PidInv(s)
    ensures ListedPidFree(s.rows, Take(Select(s.rows, IsAccepted), limit))
  {
    SelectIsExact(s.rows, IsAccepted);
    var all := Select(s.rows, IsAccepted);
    forall i | 0 <= i < |Take(all, limit)| ensures PidFree(s.rows, Take(all, limit)[i].id) {
      assert Take(all, limit)[i] == all[i] && all[i] in all;
    }
  }

  lemma QueueKeepsPidFree(c: Config, s: State, a: Action, queue: seq<Item>)
    requires QueueOk(s.rows, s.shims, queue) && ListedPidFree(s.rows, queue)
    ensures ListedPidFree(Step(c, s, a).rows, queue)
  {
    forall i | 0 <= i < |queue| && !queue[i].row.Active() && !queue[i].row.killRequested
      ensures PidFree(Step(c, s, a).rows, queue[i].id) {
      assert ListedOk(s.rows, s.shims, queue[i]);
      StepKeepsPidFree(c, s, a, queue[i].id);
    }
  }

  predicate DispatcherPids(s: State) {
    match s.disp
    case Scanning(_, queue) => ListedPidFree(s.rows, queue)
    case InBlock(_, item, _, stage, queue) =>
      ListedPidFree(s.rows, queue) && (stage.Unspawned? ==> PidFree(s.rows, item.id))
    case _ => true
  }

  /** The lists a dispatcher still works on, kept by any step's writes. */
  lemma StepKeepsListedPids(c: Config, s: State, a: Action)
    requires SpawnInv(s) && PidInv(s)
    ensures DispatcherPids(State(Step(c, s, a).rows, s.disp, s.shims, s.kills, s.submitters, s.gc, s.stranded))
  {
    match s.disp {
      case Scanning(_, queue) => QueueKeepsPidFree(c, s, a, queue);
      case InBlock(_, item, _, stage, queue) =>
        QueueKeepsPidFree(c, s, a, queue);
        if stage.Unspawned? { StepKeepsPidFree(c, s, a, item.id); }
      case _ =>
    }
  }

  lemma DispatchKeepsPids(c: Config, s: State, a: DispatchAction)
    requires SpawnInv(s) && PidInv(s)
    ensures DispatcherPids(DispatchStep(c, s, a))
  {
    var t := DispatchStep(c, s, a);
    StepKeepsListedPids(c, s, Dispatcher(a));
    if a.ListAccepted? && s.disp.Counted? {
      ListingIsPidFree(s, c.maxQueued);
    } else if a.Scan? && s.disp.Scanning? && s.disp.queue != [] {
      var queue := s.disp.queue;
      assert ListedPidFree(t.rows, queue);
      assert forall i :: 0 <= i < |queue[1..]| ==> queue[1..][i] == queue[i + 1];
      assert !queue[0].row.Active() && !queue[0].row.killRequested ==> PidFree(t.rows, queue[0].id);
    }
  }

  lemma StepKeepsDispatcherPids(c: Config, s: State, a: Action)
    requires SpawnInv(s) && PidInv(s)
    ensures DispatcherPids(Step(c, s, a))
  {
    if a.Dispatcher? {
      DispatchKeepsPids(c, s, a.d);
    } else {
      StepKeepsListedPids(c, s, a);
      OthersLeaveDispatcher(c, s, a);
    }
  }

  lemma OldShimKeepsPids(c: Config, s: State, a: Action, k: nat)
    requires ShimsOk(s.rows, s.shims) && k < |s.shims| && PidFree(s.rows, s.shims[k].task)
    requires k < |Step(c, s, a).shims| && BeforeStart(Step(c, s, a).shims[k].pc)
    ensures PidFree(Step(c, s, a).rows, Step(c, s, a).shims[k].task)
  {
    ShimAfter(c, s, a, k);
    var id := s.shims[k].task;
    assert Taken(s.rows, id);
    assert !StartsRow(s, a, id);
    StepKeepsPidFree(c, s, a, id);
  }

  lemma NewShimPids(c: Config, s: State, a: Action, k: nat)
    requires DispatcherPids(s) && |s.shims| <= k < |Step(c, s, a).shims|
    ensures PidFree(Step(c, s, a).rows, Step(c, s, a).shims[k].task)
  {
  }

  lemma StepKeepsShimPids(c: Config, s: State, a: Action, k: nat)
    requires SpawnInv(s) && PidInv(s)
    requires k < |Step(c, s, a).shims| && BeforeStart(Step(c, s, a).shims[k].pc)
    ensures PidFree(Step(c, s, a).rows, Step(c, s, a).shims[k].task)
  {
    if k < |s.shims| {
      OldShimKeepsPids(c, s, a, k);
    } else {
      NewShimPids(c, s, a, k);
    }
  }

  lemma StepKeepsAcceptedPids(c: Config, s: State, a: Action, id: nat)
    requires PidInv(s)
    ensures var t := Step(c, s, a);
            Live(t.rows, id) && t.rows[id].value.status.Accepted? ==> t.rows[id].value.pid.None?
  {
    var t := Step(c, s, a);
    StepIsForward(c, s, a);
    if id < |s.rows| {
      assert Forward(s.rows[id], t.rows[id]);
    } else if id < |t.rows| {
      assert Blank(t.rows[id]);
    }
  }

  lemma StepKeepsPidInv(c: Config, s: State, a: Action)
    requires SpawnInv(s) && PidInv(s)
    ensures PidInv(Step(c, s, a))
  {
    var t := Step(c, s, a);
    forall id: nat | id < |t.rows| && Live(t.rows, id) && t.rows[id].value.status.Accepted?
      ensures t.rows[id].value.pid.None?
    {
      StepKeepsAcceptedPids(c, s, a, id);
    }
    forall k | 0 <= k < |t.shims| && BeforeStart(t.shims[k].pc) ensures PidFree(t.rows, t.shims[k].task) {
      StepKeepsShimPids(c, s, a, k);
    }
    StepKeepsDispatcherPids(c, s, a);
  }

  /** A shim that will end without launching a workload. */
  predicate Doomed(s: State, k: nat) {
    && k < |s.shims|
    && !s.shims[k].launched
    && (s.shims[k].pc.Gone? || s.shims[k].pc.CancelPending?
        || (s.shims[k].pc.Begin? && Flagged(s.rows, s.shims[k].task)))
  }

  lemma StepKeepsDoomed(c: Config, s: State, a: Action, k: nat)
    requires SpawnInv(s) && PidInv(s) && Doomed(s, k)
    ensures Doomed(Step(c, s, a), k)
  {
    ShimAfter(c, s, a, k);
    assert Taken(s.rows, s.shims[k].task);
    if s.shims[k].pc.Begin? {
      StepKeepsFlag(c, s, a, s.shims[k].task);
      assert PidFree(s.rows, s.shims[k].task);
    }
  }

  /** If the kill flag of its row is set while a shim has not read the row yet, that shim never
      launches a workload. */
  lemma {:induction false} KillBeforeReadPreventsLaunch(c: Config, s: State, run: seq<Action>, k: nat)
    requires SpawnInv(s) && PidInv(s) && Doomed(s, k)
    ensures Doomed(Exec(c, s, run), k)
    ensures !Exec(c, s, run).shims[k].launched
    decreases |run|
  {
    if run != [] {
      StepKeepsSpawnInv(c, s, run[0]);
      StepKeepsPidInv(c, s, run[0]);
      StepKeepsDoomed(c, s, run[0], k);
      KillBeforeReadPreventsLaunch(c, Step(c, s, run[0]), run[1..], k);
    }
  }

  // ---- a kill before the shim's read at exit

  /** The flag is set and the shim has not already read it clear at exit. */
  predicate WillSee(s: State, k: nat) {
    && k < |s.shims|
    && Flagged(s.rows, s.shims[k].task)
    && (s.shims[k].pc.Exited? ==> s.shims[k].pc.cancelled)
  }

  lemma {:induction false} StepKeepsWillSee(c: Config, s: State, a: Action, k: nat)
    requires WillSee(s, k)
    ensures WillSee(Step(c, s, a), k)
  {
    ShimAfter(c, s, a, k);
    StepKeepsFlag(c, s, a, s.shims[k].task);
  }

  /** Whatever such a shim finally stores is Cancelled, a Timeout, or the error of a launch
      that failed; in particular never Success. */
  lemma {:induction false} KillBeforeExitIsStored(c: Config, s: State, run: seq<Action>, k: nat, a: ShimAction)
    requires WillSee(s, k)
    ensures var t := Exec(c, s, run);
            && k < |t.shims|
            && var write := ShimMove(t.rows, t.shims[k], a).1;
            write.Some? && write.value.0.Complete? ==>
              var u := write.value.0.update;
              || u.status.Cancelled?
              || (u.status.Failed? && u.error == Some(Timeout))
              || (u.status.Failed? && t.shims[k].pc.LaunchBroken? && u.error == Some(t.shims[k].pc.error))
    decreases |run|
  {
    if run != [] {
      StepKeepsWillSee(c, s, run[0], k);
      KillBeforeExitIsStored(c, Step(c, s, run[0]), run[1..], k, a);
    }
  }

  /** The row itself: flagged, not a success, and no shim on it missed the flag at exit. */
  predicate KillWins(s: State, id: nat) {
    && Flagged(s.rows, id)
    && (Live(s.rows, id) ==> !s.rows[id].value.status.Success?)
    && (forall k :: 0 <= k < |s.shims| && s.shims[k].task == id && s.shims[k].pc.Exited? ==> s.shims[k].pc.cancelled)
  }

  lemma WritesOfMissedExit(c: Config, s: State, a: Action, id: nat)
    requires KillWins(s, id)
    ensures var e := EffectOf(c, s, a);
            e.Wrote? && e.w.Complete? && e.id == id ==> !e.w.update.status.Success?
  {
  }

  lemma ExitedShims(c: Config, s: State, a: Action, k: nat, id: nat)
    requires KillWins(s, id) && k < |Step(c, s, a).shims|
    ensures var shim := Step(c, s, a).shims[k];
            shim.task == id && shim.pc.Exited? ==> shim.pc.cancelled
  {
  }

  lemma StepKeepsKillWins(c: Config, s: State, a: Action, id: nat)
    requires KillWins(s, id)
    ensures KillWins(Step(c, s, a), id)
  {
    var t := Step(c, s, a);
    StepKeepsFlag(c, s, a, id);
    StepHasEffect(c, s, a);
    WritesOfMissedExit(c, s, a, id);
    forall k | 0 <= k < |t.shims| && t.shims[k].task == id && t.shims[k].pc.Exited? ensures t.shims[k].pc.cancelled {
      ExitedShims(c, s, a, k, id);
    }
  }

  /** A row whose kill flag commits before any exit-time read never becomes a success. */
  lemma {:induction false} KilledRowNeverSucceeds(c: Config, s: State, run: seq<Action>, id: nat)
    requires KillWins(s, id)
    ensures KillWins(Exec(c, s, run), id)
    decreases |run|
  {
    if run != [] {
      StepKeepsKillWins(c, s, run[0], id);
      KilledRowNeverSucceeds(c, Step(c, s, run[0]), run[1..], id);
    }
  }

  /** A kill handler's flag commit is final: whatever the interleaving after it, the row never
      becomes a success unless a shim had already read the flag clear at exit. */
  lemma KillIsNotLost(c: Config, s: State, h: nat, now: nat, run: seq<Action>)
    requires AtStage(s, h, FlagPending) && Live(s.rows, s.kills[h].task)
    requires !s.rows[s.kills[h].task].value.status.Success?
    requires forall k :: 0 <= k < |s.shims| && s.shims[k].task == s.kills[h].task && s.shims[k].pc.Exited? ==>
               s.shims[k].pc.cancelled
    ensures var t := Exec(c, Step(c, s, KillCommitFlag(h, now)), run);
            KillWins(t, s.kills[h].task)
  {
    KilledRowNeverSucceeds(c, Step(c, s, KillCommitFlag(h, now)), run, s.kills[h].task);
  }
}
