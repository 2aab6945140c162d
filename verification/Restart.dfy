/** What a restart makes of the shims that survive it: when recovery takes a supervised task for
    lost, and what holds over two lifetimes. */
module Restart {
  import opened Types
  import opened Table
  import opened Dispatch
  import opened Protocol
  import opened SpawnOnce
  import opened LedgerSafety
  import opened Lifecycle
  import opened KillSafety
  import opened AuditLog
  import opened Recovery
  import opened Admission

  // ---- rows that never learn their shim's process id

  /** A shim starts row `id` before the dispatcher has marked it dispatched. */
  predicate UnmarkedStart(s: State, a: Action, id: nat) {
    StartsRow(s, a, id) && Live(s.rows, id) && s.rows[id].value.shimPid.None?
  }

  predicate MarkedRow(rows: seq<Slot>, id: nat) {
    Live(rows, id) && rows[id].value.status.Running? ==> rows[id].value.shimPid.Some?
  }

  /** Every running row knows its shim. */
  predicate Marked(rows: seq<Slot>) {
    forall id: nat :: id < |rows| ==> MarkedRow(rows, id)
  }

  lemma EffectKeepsMarkedRow(rows: seq<Slot>, e: TableEffect, id: nat)
    requires MarkedRow(rows, id) && (e.Wrote? ==> TerminalUpdate(e.w))
    ensures MarkedRow(ApplyEffect(rows, e), id) <==>
      !(e.Wrote? && e.w.Started? && e.id == id && Live(rows, id) && rows[id].value.shimPid.None?)
  {
  }

  lemma StartIsEffect(c: Config, s: State, a: Action, id: nat)
    ensures StartsRow(s, a, id) <==> var e := EffectOf(c, s, a); e.Wrote? && e.w.Started? && e.id == id
  {
    StartedEffect(c, s, a);
  }

  lemma StepKeepsMarkedRow(c: Config, s: State, a: Action, id: nat)
    requires MarkedRow(s.rows, id)
    ensures MarkedRow(Step(c, s, a).rows, id) <==> !UnmarkedStart(s, a, id)
  {
    StepHasEffect(c, s, a);
    StartIsEffect(c, s, a, id);
    EffectKeepsMarkedRow(s.rows, EffectOf(c, s, a), id);
  }

  /** A step leaves every running row with a recorded shim exactly when it is not an unmarked start. */
  lemma StepKeepsMarked(c: Config, s: State, a: Action)
    requires Marked(s.rows)
    ensures Marked(Step(c, s, a).rows) <==> forall id: nat :: id < |s.rows| ==> !UnmarkedStart(s, a, id)
  {
    var t := Step(c, s, a);
    StepIsForward(c, s, a);
    forall id: nat ensures MarkedRow(t.rows, id) <==> !UnmarkedStart(s, a, id) {
      assert MarkedRow(s.rows, id);
      StepKeepsMarkedRow(c, s, a, id);
    }
  }

  /** A row that has left the queue without a recorded shim. */
  predicate Unmarked(rows: seq<Slot>, id: nat) {
    id < |rows| && (rows[id].Some? ==> !rows[id].value.status.Accepted? && rows[id].value.shimPid.None?)
  }

  lemma StepKeepsUnmarked(c: Config, s: State, a: Action, id: nat)
    requires Unmarked(s.rows, id)
    ensures Unmarked(Step(c, s, a).rows, id)
  {
    StepHasEffect(c, s, a);
    StepIsForward(c, s, a);
    assert Forward(s.rows[id], Step(c, s, a).rows[id]);
  }

  /** Such a row never learns its shim, whatever happens. */
  lemma {:induction false} UnmarkedForever(c: Config, s: State, run: seq<Action>, id: nat)
    requires Unmarked(s.rows, id)
    ensures Unmarked(Exec(c, s, run).rows, id)
    decreases |run|
  {
    if run != [] {
      StepKeepsUnmarked(c, s, run[0], id);
      UnmarkedForever(c, Step(c, s, run[0]), run[1..], id);
    }
  }

  /** Somewhere in the run row `id` is started before it is marked dispatched. */
  predicate StartsUnmarked(c: Config, s: State, run: seq<Action>, id: nat)
    decreases |run|
  {
    run != [] && (UnmarkedStart(s, run[0], id) || StartsUnmarked(c, Step(c, s, run[0]), run[1..], id))
  }

  /** A running row does not know its shim exactly when it was started before it was marked. */
  lemma {:induction false} UnknownIffStartedUnmarked(c: Config, s: State, run: seq<Action>, id: nat)
    requires MarkedRow(s.rows, id)
    requires Live(Exec(c, s, run).rows, id) && Exec(c, s, run).rows[id].value.status.Running?
    ensures Exec(c, s, run).rows[id].value.shimPid.None? <==> StartsUnmarked(c, s, run, id)
    decreases |run|
  {
    if run != [] {
      var next := Step(c, s, run[0]);
      StepKeepsMarkedRow(c, s, run[0], id);
      if UnmarkedStart(s, run[0], id) {
        UnmarkedForever(c, next, run[1..], id);
      } else {
        UnknownIffStartedUnmarked(c, next, run[1..], id);
      }
    }
  }

  // ---- what a row records is its shim

  predicate RecordOk(rows: seq<Slot>, shim: Shim) {
    Live(rows, shim.task) && rows[shim.task].value.shimPid.Some? ==> rows[shim.task].value.shimPid.value == shim.osPid
  }

  predicate Unrecorded(rows: seq<Slot>, id: nat) {
    Live(rows, id) ==> rows[id].value.shimPid.None?
  }

  predicate ListedUnrecorded(rows: seq<Slot>, queue: seq<Item>) {
    forall i :: 0 <= i < |queue| && !queue[i].row.Active() ==> Unrecorded(rows, queue[i].id)
  }

  predicate DispatcherRecords(s: State) {
    match s.disp
    case Scanning(_, queue) => ListedUnrecorded(s.rows, queue)
    case InBlock(_, item, _, stage, queue) =>
      && ListedUnrecorded(s.rows, queue)
      && (stage.Unspawned? ==> Unrecorded(s.rows, item.id))
      && (stage.Spawned? ==>
            forall k :: 0 <= k < |s.shims| && s.shims[k].task == item.id ==> s.shims[k].osPid == stage.shimPid)
    case _ => true
  }

  predicate AcceptedUnrecorded(rows: seq<Slot>) {
    forall id: nat :: id < |rows| && Live(rows, id) && rows[id].value.status.Accepted? ==> rows[id].value.shimPid.None?
  }

  predicate RecordInv(s: State) {
    && AcceptedUnrecorded(s.rows)
    && (forall k :: 0 <= k < |s.shims| ==> RecordOk(s.rows, s.shims[k]))
    && DispatcherRecords(s)
  }

  /** The step by which the dispatcher marks row `id`. */
  predicate Marks(s: State, a: Action, id: nat) {
    && a.Dispatcher? && a.d.CommitDispatched? && s.disp.InBlock? && s.disp.stage.Spawned? && s.disp.item.id == id
  }

  function RecordAfter(row: Row, marked: Option<nat>): Option<nat> {
    if marked.Some? && row.status.Accepted? then marked else row.shimPid
  }

  function MarkOf(e: TableEffect, id: nat): Option<nat> {
    if e.Wrote? && e.id == id && e.w.Dispatched? then Some(e.w.shimPid) else None
  }

  lemma ApplyRecords(row: Row, w: Write, now: nat)
    ensures Apply(row, w, now).shimPid == RecordAfter(row, if w.Dispatched? then Some(w.shimPid) else None)
    ensures TerminalUpdate(w) && Apply(row, w, now).status.Accepted? ==>
              row.status.Accepted? && Apply(row, w, now).shimPid == row.shimPid
  {
  }

  lemma EffectRecords(rows: seq<Slot>, e: TableEffect, id: nat)
    requires id < |rows|
    ensures var n := ApplyEffect(rows, e)[id];
            n.Some? ==> rows[id].Some? && n.value.shimPid == RecordAfter(rows[id].value, MarkOf(e, id))
  {
    if e.Wrote? && e.id == id && Live(rows, id) { ApplyRecords(rows[id].value, e.w, e.now); }
  }

  lemma EffectKeepsAccepted(rows: seq<Slot>, e: TableEffect, id: nat)
    requires id < |rows| && (e.Wrote? ==> TerminalUpdate(e.w))
    ensures var n := ApplyEffect(rows, e)[id];
            n.Some? && n.value.status.Accepted? ==>
              rows[id].Some? && rows[id].value.status.Accepted? && n.value.shimPid == rows[id].value.shimPid
  {
    if e.Wrote? && e.id == id && Live(rows, id) { ApplyRecords(rows[id].value, e.w, e.now); }
  }

  lemma MarkIsEffect(c: Config, s: State, a: Action, id: nat)
    ensures MarkOf(EffectOf(c, s, a), id) == if Marks(s, a, id) then Some(s.disp.stage.shimPid) else None
  {
    if a.ShimActs? { ShimHasEffect(c, s, a.k, a.a); }
  }

  /** No other step records a shim. */
  lemma StepRecords(c: Config, s: State, a: Action, id: nat)
    requires id < |s.rows|
    ensures var n := Step(c, s, a).rows[id];
            n.Some? ==>
              && s.rows[id].Some?
              && n.value.shimPid
                   == RecordAfter(s.rows[id].value, if Marks(s, a, id) then Some(s.disp.stage.shimPid) else None)
  {
    StepHasEffect(c, s, a);
    StepIsForward(c, s, a);
    EffectRecords(s.rows, EffectOf(c, s, a), id);
    MarkIsEffect(c, s, a, id);
  }

  lemma StepKeepsAcceptedUnrecorded(c: Config, s: State, a: Action)
    requires AcceptedUnrecorded(s.rows)
    ensures AcceptedUnrecorded(Step(c, s, a).rows)
  {
    var t := Step(c, s, a);
    StepHasEffect(c, s, a);
    StepIsForward(c, s, a);
    forall id: nat | id < |t.rows| && Live(t.rows, id) && t.rows[id].value.status.Accepted?
      ensures t.rows[id].value.shimPid.None?
    {
      if id < |s.rows| { EffectKeepsAccepted(s.rows, EffectOf(c, s, a), id); } else { assert Blank(t.rows[id]); }
    }
  }

  lemma StepKeepsRecordOk(c: Config, s: State, a: Action, k: nat)
    requires SpawnInv(s) && RecordInv(s) && k < |Step(c, s, a).shims|
    ensures RecordOk(Step(c, s, a).rows, Step(c, s, a).shims[k])
  {
    if k < |s.shims| {
      ShimAfter(c, s, a, k);
      if a.ShimActs? { ShimWritesEnd(s.rows, s.shims[k], a.a); }
      assert Taken(s.rows, s.shims[k].task) && RecordOk(s.rows, s.shims[k]);
      StepRecords(c, s, a, s.shims[k].task);
    } else {
      NewShimIsUnrecorded(c, s, a, k);
    }
  }

  lemma NewShimIsUnrecorded(c: Config, s: State, a: Action, k: nat)
    requires DispatcherRecords(s) && |s.shims| <= k < |Step(c, s, a).shims|
    ensures Unrecorded(Step(c, s, a).rows, Step(c, s, a).shims[k].task)
  {
  }

  lemma QueueStaysUnrecorded(c: Config, s: State, a: Action, queue: seq<Item>)
    requires QueueOk(s.rows, s.shims, queue) && ListedUnrecorded(s.rows, queue)
    requires forall i :: 0 <= i < |queue| ==> !Marks(s, a, queue[i].id)
    ensures ListedUnrecorded(Step(c, s, a).rows, queue)
  {
    forall i | 0 <= i < |queue| && !queue[i].row.Active() ensures Unrecorded(Step(c, s, a).rows, queue[i].id) {
      assert ListedOk(s.rows, s.shims, queue[i]);
      StepRecords(c, s, a, queue[i].id);
    }
  }

  lemma FreshListUnrecorded(rows: seq<Slot>, limit: nat)
    requires AcceptedUnrecorded(rows)
    ensures ListedUnrecorded(rows, Take(Select(rows, IsAccepted), limit))
  {
    SelectIsExact(rows, IsAccepted);
    var all := Select(rows, IsAccepted);
    forall i | 0 <= i < |Take(all, limit)| ensures Unrecorded(rows, Take(all, limit)[i].id) {
      assert Take(all, limit)[i] == all[i] && all[i] in all;
    }
  }

  lemma BlockQueueIsApart(item: Item, queue: seq<Item>)
    requires Ascending([item] + queue)
    ensures forall i :: 0 <= i < |queue| ==> queue[i].id != item.id
  {
    forall i | 0 <= i < |queue| ensures queue[i].id != item.id {
      assert ([item] + queue)[0].id < ([item] + queue)[i + 1].id;
    }
  }

  lemma OthersKeepRecords(c: Config, s: State, a: Action)
    requires SpawnInv(s) && RecordInv(s) && !a.Dispatcher?
    ensures DispatcherRecords(Step(c, s, a))
  {
    var t := Step(c, s, a);
    OthersLeaveDispatcher(c, s, a);
    match s.disp
    case Scanning(_, queue) => QueueStaysUnrecorded(c, s, a, queue);
    case InBlock(_, item, _, stage, queue) =>
      QueueStaysUnrecorded(c, s, a, queue);
      if stage.Unspawned? { StepRecords(c, s, a, item.id); }
      forall k | 0 <= k < |t.shims| && t.shims[k].task == item.id && stage.Spawned?
        ensures t.shims[k].osPid == stage.shimPid
      {
        ShimAfter(c, s, a, k);
        if a.ShimActs? { ShimWritesEnd(s.rows, s.shims[k], a.a); }
      }
    case _ =>
  }

  lemma ScanKeepsRecords(c: Config, s: State, now: nat)
    requires SpawnInv(s) && RecordInv(s) && s.disp.Scanning? && s.disp.queue != []
    ensures DispatcherRecords(ScanStep(c, s, now))
  {
    var queue, a := s.disp.queue, Dispatcher(Scan(now));
    QueueStaysUnrecorded(c, s, a, queue);
    assert ListedUnrecorded(ScanStep(c, s, now).rows, queue);
    assert forall i :: 0 <= i < |queue[1..]| ==> queue[1..][i] == queue[i + 1];
    assert !queue[0].row.Active() ==> Unrecorded(ScanStep(c, s, now).rows, queue[0].id);
  }

  lemma DispatcherKeepsRecords(c: Config, s: State, a: DispatchAction)
    requires SpawnInv(s) && RecordInv(s)
    ensures DispatcherRecords(DispatchStep(c, s, a))
  {
    if a.ListAccepted? && s.disp.Counted? {
      FreshListUnrecorded(s.rows, c.maxQueued);
    } else if a.Scan? && s.disp.Scanning? && s.disp.queue != [] {
      ScanKeepsRecords(c, s, a.now);
    } else if s.disp.InBlock? {
      BlockQueueIsApart(s.disp.item, s.disp.queue);
      QueueStaysUnrecorded(c, s, Dispatcher(a), s.disp.queue);
    }
  }

  lemma {:induction false} RunKeepsRecords(c: Config, s: State, run: seq<Action>)
    requires SpawnInv(s) && RecordInv(s)
    ensures SpawnInv(Exec(c, s, run)) && RecordInv(Exec(c, s, run))
    decreases |run|
  {
    if run != [] {
      var t := Step(c, s, run[0]);
      StepKeepsSpawnInv(c, s, run[0]);
      StepKeepsAcceptedUnrecorded(c, s, run[0]);
      forall k | 0 <= k < |t.shims| ensures RecordOk(t.rows, t.shims[k]) { StepKeepsRecordOk(c, s, run[0], k); }
      if run[0].Dispatcher? {
        DispatcherKeepsRecords(c, s, run[0].d);
      } else {
        OthersKeepRecords(c, s, run[0]);
      }
      RunKeepsRecords(c, t, run[1..]);
    }
  }

  /** A task whose shim is alive at the restart is declared lost exactly when it was started
      before it was marked dispatched. */
  lemma {:induction false} LiveTaskIsLost(c: Config, s: State, run: seq<Action>, k: nat, alive: nat -> bool, now: nat)
    requires SpawnInv(s) && RecordInv(s)
    requires var t := Exec(c, s, run);
             && k < |t.shims| && alive(t.shims[k].osPid)
             && Live(t.rows, t.shims[k].task) && t.rows[t.shims[k].task].value.status.Running?
             && MarkedRow(s.rows, t.shims[k].task)
    ensures var t := Exec(c, s, run);
            var after := RecoverRow(t.rows[t.shims[k].task].value, alive, now);
            && (after.status.Failed? <==> StartsUnmarked(c, s, run, t.shims[k].task))
            && (after.status.Running? <==> !StartsUnmarked(c, s, run, t.shims[k].task))
  {
    RunKeepsRecords(c, s, run);
    var t := Exec(c, s, run);
    assert RecordOk(t.rows, t.shims[k]);
    UnknownIffStartedUnmarked(c, s, run, t.shims[k].task);
  }

  // ---- the next lifetime

  /** Recovery keeps what rows record of their shims, and leaves no running row without a shim. */
  lemma RecoveryKeepsRecords(s: State, alive: nat -> bool, now: nat)
    requires RecordInv(s) && forall k :: 0 <= k < |s.shims| ==> s.shims[k].task < |s.rows|
    ensures var boot := Boot(RecoverTable(s.rows, alive, now), s.shims);
            RecordInv(boot) && Marked(boot.rows)
  {
    var boot := Boot(RecoverTable(s.rows, alive, now), s.shims);
    forall id: nat | id < |s.rows| ensures MarkedRow(boot.rows, id) { RecoveryEstablishes(s.rows, alive, now, id); }
    forall id: nat | id < |s.rows| && Live(boot.rows, id) && boot.rows[id].value.status.Accepted?
      ensures boot.rows[id].value.shimPid.None?
    {
      RecoveryEstablishes(s.rows, alive, now, id);
    }
    forall k | 0 <= k < |s.shims| ensures RecordOk(boot.rows, s.shims[k]) { assert RecordOk(s.rows, s.shims[k]); }
  }

  /** ... and that only a shim that has launched its workload has recorded it. */
  lemma RecoveryKeepsPids(s: State, alive: nat -> bool, now: nat)
    requires PidInv(s) && forall k :: 0 <= k < |s.shims| ==> s.shims[k].task < |s.rows|
    ensures PidInv(Boot(RecoverTable(s.rows, alive, now), s.shims))
  {
    var boot := Boot(RecoverTable(s.rows, alive, now), s.shims);
    forall id: nat | id < |s.rows| && Live(boot.rows, id) && boot.rows[id].value.status.Accepted?
      ensures boot.rows[id].value.pid.None?
    {
      RecoveryEstablishes(s.rows, alive, now, id);
    }
    forall k | 0 <= k < |s.shims| && BeforeStart(s.shims[k].pc) ensures PidFree(boot.rows, s.shims[k].task) {
      assert PidFree(s.rows, s.shims[k].task);
    }
  }

  /** What a crash may catch shim k at: its row is waiting only if the shim is gone and the row
      flagged, and running only with a live shim that it knows, unless the shim is gone or has not
      read the row yet. */
  predicate Resumes(s: State, k: nat, alive: nat -> bool)
    requires k < |s.shims|
  {
    var shim := s.shims[k];
    Live(s.rows, shim.task) ==>
      var row := s.rows[shim.task].value;
      && (row.status.Accepted? ==> shim.pc.Gone? && row.killRequested)
      && (row.status.Running? ==> shim.pc.Gone? || shim.pc.Begin? || (alive(shim.osPid) && row.shimPid.Some?))
  }

  lemma ResumesIsSurvivorOk(s: State, k: nat, alive: nat -> bool)
    requires SpawnInv(s) && LifeInv(s) && RecordInv(s) && k < |s.shims|
    ensures SurvivorOk(s.rows, s.shims[k], alive) <==> Resumes(s, k, alive)
  {
    assert Taken(s.rows, s.shims[k].task) && ShimRowOk(s.rows, s.shims[k]) && RecordOk(s.rows, s.shims[k]);
  }

  /** A crash in an orderly lifetime is followed by one with the lifecycle invariant exactly when
      every shim is caught where it can resume. */
  lemma {:induction false} RestartKeepsLife(s: State, alive: nat -> bool, now: nat)
    requires SpawnInv(s) && LifeInv(s) && RecordInv(s)
    ensures var boot := Boot(RecoverTable(s.rows, alive, now), s.shims);
            SpawnInv(boot) && LifeInv(boot) <==> forall k :: 0 <= k < |s.shims| ==> Resumes(s, k, alive)
  {
    RecoveryBoots(s.rows, s.shims, alive, now);
    assert FinishedHoldNothing(s.rows) by { assert forall i :: 0 <= i < |s.rows| ==> RowOk(s.rows[i]); }
    forall k | 0 <= k < |s.shims| ensures SurvivorOk(s.rows, s.shims[k], alive) <==> Resumes(s, k, alive) {
      ResumesIsSurvivorOk(s, k, alive);
    }
  }

  lemma SettledTwice(o: Slot, m: Slot, n: Slot)
    requires Settled(o, m) && Settled(m, n) && (n.Some? ==> m.Some?)
    ensures Settled(o, n)
  {
  }

  lemma RecoverySettles(slot: Slot, alive: nat -> bool, now: nat)
    ensures Settled(slot, RecoverSlot(slot, alive, now))
    ensures RecoverSlot(slot, alive, now).Some? <==> slot.Some?
  {
  }

  /** The server that recovery starts after a crash at the end of the run. */
  function AfterCrash(c: Config, s: State, run: seq<Action>, alive: nat -> bool, now: nat): State {
    Boot(RecoverTable(Exec(c, s, run).rows, alive, now), Exec(c, s, run).shims)
  }

  /** A race-free run ending in a crash that catches every shim where it can resume. */
  predicate CrashesWell(c: Config, s: State, run: seq<Action>, alive: nat -> bool) {
    RaceFree(c, s, run) && forall k :: 0 <= k < |Exec(c, s, run).shims| ==> Resumes(Exec(c, s, run), k, alive)
  }

  lemma {:induction false} CrashKeepsLife(c: Config, s: State, run: seq<Action>, alive: nat -> bool, now: nat)
    requires SpawnInv(s) && LifeInv(s) && RecordInv(s) && CrashesWell(c, s, run, alive)
    ensures var boot := AfterCrash(c, s, run, alive, now);
            && SpawnInv(boot) && LifeInv(boot) && RecordInv(boot)
            && |s.rows| <= |boot.rows| && forall i :: 0 <= i < |s.rows| ==> Settled(s.rows[i], boot.rows[i])
  {
    var t := Exec(c, s, run);
    RaceFreeLifecycle(c, s, run);
    RunKeepsRecords(c, s, run);
    RestartKeepsLife(t, alive, now);
    assert forall k :: 0 <= k < |t.shims| ==> Taken(t.rows, t.shims[k].task);
    RecoveryKeepsRecords(t, alive, now);
    forall i | 0 <= i < |s.rows| ensures Settled(s.rows[i], AfterCrash(c, s, run, alive, now).rows[i]) {
      RecoverySettles(t.rows[i], alive, now);
      SettledTwice(s.rows[i], t.rows[i], RecoverSlot(t.rows[i], alive, now));
    }
  }

  /** The lifecycle theorem over two lifetimes: race-free runs before and after a crash that
      catches every shim where it can resume. */
  lemma {:induction false} LifecycleAcrossRestart(c: Config, s: State, run: seq<Action>, alive: nat -> bool, now: nat,
                                                  again: seq<Action>)
    requires SpawnInv(s) && LifeInv(s) && RecordInv(s) && CrashesWell(c, s, run, alive)
    requires RaceFree(c, AfterCrash(c, s, run, alive, now), again)
    ensures var u := Exec(c, AfterCrash(c, s, run, alive, now), again);
            && SpawnInv(u) && LifeInv(u) && RecordInv(u)
            && |s.rows| <= |u.rows| && forall i :: 0 <= i < |s.rows| ==> Settled(s.rows[i], u.rows[i])
  {
    var boot := AfterCrash(c, s, run, alive, now);
    var u := Exec(c, boot, again);
    CrashKeepsLife(c, s, run, alive, now);
    RaceFreeLifecycle(c, boot, again);
    RunKeepsRecords(c, boot, again);
    RunIsForward(c, boot, again);
    forall i | 0 <= i < |s.rows| ensures Settled(s.rows[i], u.rows[i]) {
      assert Settled(s.rows[i], boot.rows[i]) && Settled(boot.rows[i], u.rows[i]) && Forward(boot.rows[i], u.rows[i]);
      SettledTwice(s.rows[i], boot.rows[i], u.rows[i]);
    }
  }

  /** At the end of the run the reservations in force are within the limit. */
  predicate EndsWithin(c: Config, s: State, run: seq<Action>, scope: Scope, d: Dim)
    requires LimitOf(c.ledger, scope, d).Some?
  {
    Usage(Exec(c, s, run).rows, scope, d) <= LimitOf(c.ledger, scope, d).value
  }

  /** Ledger safety over two lifetimes: after a crash of any table and recovery, every
      continuation stays within a limit exactly when the survivors' reservations do. */
  lemma {:induction false} LedgerIsSafeAcrossRestart(c: Config, crashed: State, alive: nat -> bool, now: nat,
                                                     scope: Scope, d: Dim)
    requires Capped(c.ledger, scope, d)
    ensures var boot := Boot(RecoverTable(crashed.rows, alive, now), crashed.shims);
            (forall again :: EndsWithin(c, boot, again, scope, d)) <==>
              SurvivingUsage(crashed.rows, alive, scope, d) <= LimitOf(c.ledger, scope, d).value
  {
    var boot := Boot(RecoverTable(crashed.rows, alive, now), crashed.shims);
    RecoveryUsageIsExact(crashed.rows, alive, now, scope, d);
    assert EndsWithin(c, boot, [], scope, d) <==> Usage(boot.rows, scope, d) <= LimitOf(c.ledger, scope, d).value;
    if Usage(boot.rows, scope, d) <= LimitOf(c.ledger, scope, d).value {
      forall again ensures EndsWithin(c, boot, again, scope, d) {
        LedgerIsSafe(c, boot, again, scope, d);
      }
    }
  }

  /** After a race-free lifetime within the limit they do, whatever the crash caught. */
  lemma {:induction false} RaceFreeCrashKeepsLimit(c: Config, s: State, run: seq<Action>, alive: nat -> bool, now: nat,
                                                   again: seq<Action>, scope: Scope, d: Dim)
    requires SpawnInv(s) && LifeInv(s) && s.disp.Idle? && RaceFree(c, s, run)
    requires Capped(c.ledger, scope, d) && Usage(s.rows, scope, d) <= LimitOf(c.ledger, scope, d).value
    ensures var crashed := Exec(c, s, run);
            EndsWithin(c, Boot(RecoverTable(crashed.rows, alive, now), crashed.shims), again, scope, d)
  {
    var crashed := Exec(c, s, run);
    RaceFreeLifecycle(c, s, run);
    LedgerIsSafe(c, s, run, scope, d);
    assert SurvivorsHold(crashed.rows, alive) by {
      assert forall i :: 0 <= i < |crashed.rows| ==> RowOk(crashed.rows[i]);
    }
    RecoveryUsage(crashed.rows, alive, now, scope, d);
    LedgerIsSafe(c, Boot(RecoverTable(crashed.rows, alive, now), crashed.shims), again, scope, d);
  }

  /** A server on an empty table satisfies every invariant the run theorems start from. */
  lemma FreshServer(c: Config)
    ensures var s := Boot([], []);
            && Start(s) && SpawnInv(s) && LifeInv(s) && PidInv(s) && LogsOk(s.rows)
            && AdmissionInv(c, s) && RecordInv(s) && Marked(s.rows) && WithinLimits(c, s.rows)
  {
  }
}
