/** The task lifecycle as a protocol over one table: a single dispatcher, kill handlers, one
    shim per spawn, submitters and garbage collection, each acting on local copies between
    transactions. A disabled action leaves the state alone, so a run is any sequence of actions. */
module Protocol {
  import opened Types
  import opened Ledger
  import opened Table
  import opened Dispatch
  import opened Drain
  import opened Completion

  datatype Config = Config(ledger: ResourceLedger, maxQueued: nat)

  // ---- actors

  /** Where the dispatcher is between the reservation of a task and the end of its iteration. */
  datatype Stage = Unspawned | Spawned(shimPid: nat) | SpawnFailed

  datatype Dispatcher =
    | Idle
    | Counted(counters: Counters)
    | Scanning(counters: Counters, queue: seq<Item>)
    | InBlock(counters: Counters, item: Item, r: Reservation, stage: Stage, queue: seq<Item>)

  datatype ShimPc =
    | Begin
    | CancelPending
    | Launching
    | Launched(workload: nat)
    | LaunchBroken(error: ErrorCode)
    | Supervising(timedOut: bool, cancelSeen: bool)
    | Exited(exit: Exit, timedOut: bool, cancelled: bool)
    | Gone

  datatype Shim = Shim(task: nat, osPid: nat, pc: ShimPc, launched: bool)

  datatype KillStage = FlagPending | Reread | CancelTask | Over

  datatype KillHandler = KillHandler(task: nat, stage: KillStage)

  /** `submitters` are the requests that passed the queue check and are not yet inserted;
      `stranded` records rows whose dispatch iteration was cut short by a storage error. */
  datatype State = State(
    rows: seq<Slot>,
    disp: Dispatcher,
    shims: seq<Shim>,
    kills: seq<KillHandler>,
    submitters: seq<Submission>,
    gc: seq<Item>,
    stranded: set<nat>)

  // ---- actions

  datatype DispatchAction =
    | ListActive
    | ListAccepted
    | Scan(now: nat)
    | SpawnOk(shimPid: nat)
    | SpawnError
    | CommitDispatched(now: nat)
    | CommitSpawnError(now: nat)
    | AbortCycle

  /** A launch can fail after the workload process was started: setting up its cgroup comes later. */
  datatype ShimAction =
    | ReadRow
    | CommitCancel(now: nat)
    | LaunchOk(workload: nat)
    | LaunchError(error: ErrorCode, started: bool)
    | CommitStarted(now: nat)
    | CommitLaunchError(now: nat)
    | PollFlag
    | CommitTimeout(now: nat)
    | ReadAtExit(exit: Exit)
    | CommitCompletion(now: nat)
    | Die

  datatype Action =
    | Dispatcher(d: DispatchAction)
    | ShimActs(k: nat, a: ShimAction)
    | KillArrives(task: nat)
    | KillCommitFlag(h: nat, now: nat)
    | KillReadsAgain(h: nat)
    | KillCommitCancel(h: nat, now: nat)
    | SubmitCheck(request: Submission)
    | SubmitInsert(i: nat, now: nat)
    | SubmitDrop(i: nat)
    | GcList(cutoff: nat)
    | GcDelete
    | GcSkip

  // ---- the dispatcher (src/runtime.rs:549-707)

  function DispatchStep(c: Config, s: State, a: DispatchAction): State {
    match a
    case ListActive =>
      if s.disp.Idle? then s.(disp := Counted(Snapshot(c.ledger, s.rows))) else s
    case ListAccepted =>
      if s.disp.Counted?
      then s.(disp := Scanning(s.disp.counters, Take(Select(s.rows, IsAccepted), c.maxQueued))) else s
    case Scan(now) => ScanStep(c, s, now)
    case SpawnOk(shimPid) =>
      if s.disp.InBlock? && s.disp.stage.Unspawned?
      then s.(disp := s.disp.(stage := Spawned(shimPid)),
              shims := s.shims + [Shim(s.disp.item.id, shimPid, Begin, false)]) else s
    case SpawnError =>
      if s.disp.InBlock? && s.disp.stage.Unspawned?
      then s.(disp := s.disp.(stage := SpawnFailed)) else s
    case CommitDispatched(now) =>
      if s.disp.InBlock? && s.disp.stage.Spawned?
      then s.(rows := Commit(s.rows, s.disp.item.id, Dispatched(s.disp.stage.shimPid), now),
              disp := Scanning(s.disp.counters, s.disp.queue)) else s
    case CommitSpawnError(now) =>
      if s.disp.InBlock? && s.disp.stage.SpawnFailed? then
        if Live(s.rows, s.disp.item.id)
        then s.(rows := Commit(s.rows, s.disp.item.id, Complete(LaunchFailure(now)), now),
                disp := Scanning(Refund(s.disp.counters, s.disp.r), s.disp.queue))
        else s.(disp := Idle)
      else s
    case AbortCycle =>
      if s.disp.InBlock? then s.(disp := Idle, stranded := s.stranded + {s.disp.item.id})
      else s.(disp := Idle)
  }

  /** One listed row up to and including its reservation. A transaction that finds the row
      deleted fails and ends the cycle. */
  function ScanStep(c: Config, s: State, now: nat): State {
    if !s.disp.Scanning? then s
    else if s.disp.queue == [] then s.(disp := Idle)
    else
      var item, rest, counters := s.disp.queue[0], s.disp.queue[1..], s.disp.counters;
      match Decide(c.ledger, counters, item.row)
      case CancelIt =>
        if Live(s.rows, item.id)
        then s.(rows := Commit(s.rows, item.id, CancelAccepted, now), disp := Scanning(counters, rest))
        else s.(disp := Idle)
      case SkipIt => s.(disp := Scanning(counters, rest))
      case Grant(r) =>
        if Live(s.rows, item.id)
        then s.(rows := Commit(s.rows, item.id, Reserve(r), now),
                disp := InBlock(Charge(c.ledger, counters, Held(item.row.tenant, r)), item, r, Unspawned, rest))
        else s.(disp := Idle)
  }

  // ---- one shim (src/runtime.rs:892-983, 1119-1183)

  function CancelledBeforeLaunch(now: nat): CompletionUpdate {
    CompletionUpdate(Cancelled, now, Some(0), None, None, Some(KillError))
  }

  function LaunchErrorUpdate(error: ErrorCode, now: nat): CompletionUpdate {
    CompletionUpdate(Failed, now, Some(0), None, None, Some(error))
  }

  function AfterRead(rows: seq<Slot>, task: nat): ShimPc {
    if !Live(rows, task) || rows[task].value.status.IsTerminal() then Gone
    else if rows[task].value.killRequested && rows[task].value.pid.None? then CancelPending
    else Launching
  }

  /** The shim's next position, and the transaction it commits if any. */
  function ShimMove(rows: seq<Slot>, shim: Shim, a: ShimAction): (Shim, Option<(Write, nat)>) {
    var found := Live(rows, shim.task);
    match (a, shim.pc)
    case (ReadRow, Begin) => (shim.(pc := AfterRead(rows, shim.task)), None)
    case (CommitCancel(now), CancelPending) =>
      (shim.(pc := Gone), Some((Complete(CancelledBeforeLaunch(now)), now)))
    case (LaunchOk(workload), Launching) => (shim.(pc := Launched(workload), launched := true), None)
    case (LaunchError(error, started), Launching) => (shim.(pc := LaunchBroken(error), launched := started), None)
    case (CommitStarted(now), Launched(workload)) =>
      (shim.(pc := if found then Supervising(false, false) else Gone), Some((Started(workload), now)))
    case (CommitLaunchError(now), LaunchBroken(error)) =>
      (shim.(pc := Gone), Some((Complete(LaunchErrorUpdate(error, now)), now)))
    case (PollFlag, Supervising(timedOut, cancelSeen)) =>
      (shim.(pc := if found then Supervising(timedOut, cancelSeen || rows[shim.task].value.killRequested) else Gone),
       None)
    case (CommitTimeout(now), Supervising(timedOut, cancelSeen)) =>
      if timedOut then (shim, None)
      else (shim.(pc := if found then Supervising(true, cancelSeen) else Gone), Some((HitTimeout, now)))
    case (ReadAtExit(exit), Supervising(timedOut, cancelSeen)) =>
      (shim.(pc := if cancelSeen then Exited(exit, timedOut, true)
                   else if found then Exited(exit, timedOut, rows[shim.task].value.killRequested)
                   else Gone), None)
    case (CommitCompletion(now), Exited(exit, timedOut, cancelled)) =>
      (shim.(pc := Gone), Some((Complete(Classify(exit, timedOut, cancelled, now)), now)))
    case (Die, _) => (shim.(pc := Gone), None)
    case _ => (shim, None)
  }

  function ShimStep(s: State, k: nat, a: ShimAction): State {
    if k >= |s.shims| then s
    else
      var (shim, write) := ShimMove(s.rows, s.shims[k], a);
      var moved := s.(shims := s.shims[k := shim]);
      if write.Some? then moved.(rows := Commit(s.rows, shim.task, write.value.0, write.value.1)) else moved
  }

  // ---- kill handlers, submitters, garbage collection

  predicate AtStage(s: State, h: nat, stage: KillStage) {
    h < |s.kills| && s.kills[h].stage == stage
  }

  function Advance(s: State, h: nat, stage: KillStage): State
    requires h < |s.kills|
  {
    s.(kills := s.kills[h := s.kills[h].(stage := stage)])
  }

  function KillFlagStep(s: State, h: nat, now: nat): State {
    if AtStage(s, h, FlagPending) then
      var task := s.kills[h].task;
      Advance(s, h, if Live(s.rows, task) then Reread else Over).(rows := Commit(s.rows, task, RequestKill, now))
    else s
  }

  function KillReadStep(s: State, h: nat): State {
    if AtStage(s, h, Reread) then
      var task := s.kills[h].task;
      Advance(s, h, if Live(s.rows, task) && s.rows[task].value.status.Accepted? then CancelTask else Over)
    else s
  }

  function KillCancelStep(s: State, h: nat, now: nat): State {
    if AtStage(s, h, CancelTask)
    then Advance(s, h, Over).(rows := Commit(s.rows, s.kills[h].task, CancelAccepted, now))
    else s
  }

  function SubmitInsertStep(s: State, i: nat, now: nat): State {
    if i >= |s.submitters| then s
    else
      var left := s.submitters[..i] + s.submitters[i + 1..];
      if NameTaken(s.rows, s.submitters[i].name) then s.(submitters := left)
      else s.(submitters := left, rows := s.rows + [Some(NewRow(s.submitters[i], now))])
  }

  function Step(c: Config, s: State, a: Action): State {
    match a
    case Dispatcher(d) => DispatchStep(c, s, d)
    case ShimActs(k, act) => ShimStep(s, k, act)
    case KillArrives(task) =>
      if Live(s.rows, task) && !s.rows[task].value.status.IsTerminal()
      then s.(kills := s.kills + [KillHandler(task, FlagPending)]) else s
    case KillCommitFlag(h, now) => KillFlagStep(s, h, now)
    case KillReadsAgain(h) => KillReadStep(s, h)
    case KillCommitCancel(h, now) => KillCancelStep(s, h, now)
    case SubmitCheck(request) =>
      if Admitted(c.ledger, request.tenant, request.limits) && AcceptedCount(s.rows) < c.maxQueued
      then s.(submitters := s.submitters + [request]) else s
    case SubmitInsert(i, now) => SubmitInsertStep(s, i, now)
    case SubmitDrop(i) =>
      if i < |s.submitters| then s.(submitters := s.submitters[..i] + s.submitters[i + 1..]) else s
    case GcList(cutoff) =>
      if s.gc == []
      then s.(gc := Select(s.rows, (row: Row) => row.status.IsTerminal() && row.finishedAt.Some?
                                                 && row.finishedAt.value <= cutoff))
      else s
    case GcDelete =>
      if s.gc == [] then s
      else s.(gc := s.gc[1..],
              rows := if s.gc[0].id < |s.rows| then s.rows[s.gc[0].id := None] else s.rows)
    case GcSkip => if s.gc == [] then s else s.(gc := s.gc[1..])
  }

  function Exec(c: Config, s: State, run: seq<Action>): State
    decreases |run|
  {
    if run == [] then s else Exec(c, Step(c, s, run[0]), run[1..])
  }

  lemma {:induction false} ExecSplits(c: Config, s: State, first: seq<Action>, second: seq<Action>)
    ensures Exec(c, s, first + second) == Exec(c, Exec(c, s, first), second)
    decreases |first|
  {
    if first == [] {
      assert first + second == second;
    } else {
      assert (first + second)[1..] == first[1..] + second;
      ExecSplits(c, Step(c, s, first[0]), first[1..], second);
    }
  }

  lemma ExecOne(c: Config, s: State, a: Action)
    ensures Exec(c, s, [a]) == Step(c, s, a)
  {
    assert [a][1..] == [];
  }

  /** Appends one action to a run whose end state is known. */
  lemma Then(c: Config, s0: State, run: seq<Action>, s: State, a: Action) returns (run': seq<Action>, s': State)
    requires Exec(c, s0, run) == s
    ensures run' == run + [a] && s' == Step(c, s, a) && Exec(c, s0, run') == s'
  {
    run', s' := run + [a], Step(c, s, a);
    ExecSplits(c, s0, run, [a]);
    ExecOne(c, s, a);
  }

  // ---- the one thing a step does to the table

  datatype TableEffect =
    | Untouched
    | Wrote(id: nat, w: Write, now: nat)
    | Inserted(request: Submission, now: nat)
    | Deleted(id: nat)

  function ApplyEffect(rows: seq<Slot>, e: TableEffect): seq<Slot> {
    match e
    case Untouched => rows
    case Wrote(id, w, now) => Commit(rows, id, w, now)
    case Inserted(request, now) => rows + [Some(NewRow(request, now))]
    case Deleted(id) => if id < |rows| then rows[id := None] else rows
  }

  function DispatchEffect(c: Config, s: State, a: DispatchAction): TableEffect {
    match a
    case Scan(now) =>
      if !s.disp.Scanning? || s.disp.queue == [] then Untouched
      else (match Decide(c.ledger, s.disp.counters, s.disp.queue[0].row)
            case CancelIt => Wrote(s.disp.queue[0].id, CancelAccepted, now)
            case SkipIt => Untouched
            case Grant(r) => Wrote(s.disp.queue[0].id, Reserve(r), now))
    case CommitDispatched(now) =>
      if s.disp.InBlock? && s.disp.stage.Spawned?
      then Wrote(s.disp.item.id, Dispatched(s.disp.stage.shimPid), now) else Untouched
    case CommitSpawnError(now) =>
      if s.disp.InBlock? && s.disp.stage.SpawnFailed?
      then Wrote(s.disp.item.id, Complete(LaunchFailure(now)), now) else Untouched
    case _ => Untouched
  }

  function EffectOf(c: Config, s: State, a: Action): TableEffect {
    match a
    case Dispatcher(d) => DispatchEffect(c, s, d)
    case ShimActs(k, act) =>
      if k >= |s.shims| then Untouched
      else
        var write := ShimMove(s.rows, s.shims[k], act).1;
        if write.Some? then Wrote(s.shims[k].task, write.value.0, write.value.1) else Untouched
    case KillCommitFlag(h, now) =>
      if AtStage(s, h, FlagPending) then Wrote(s.kills[h].task, RequestKill, now) else Untouched
    case KillCommitCancel(h, now) =>
      if AtStage(s, h, CancelTask) then Wrote(s.kills[h].task, CancelAccepted, now) else Untouched
    case SubmitInsert(i, now) =>
      if i < |s.submitters| && !NameTaken(s.rows, s.submitters[i].name)
      then Inserted(s.submitters[i], now) else Untouched
    case GcDelete => if s.gc == [] then Untouched else Deleted(s.gc[0].id)
    case _ => Untouched
  }

  lemma DispatchHasEffect(c: Config, s: State, a: DispatchAction)
    ensures DispatchStep(c, s, a).rows == ApplyEffect(s.rows, DispatchEffect(c, s, a))
  {
  }

  lemma ShimHasEffect(c: Config, s: State, k: nat, a: ShimAction)
    ensures ShimStep(s, k, a).rows == ApplyEffect(s.rows, EffectOf(c, s, ShimActs(k, a)))
    ensures EffectOf(c, s, ShimActs(k, a)).Wrote? ==>
              var w := EffectOf(c, s, ShimActs(k, a)).w;
              TerminalUpdate(w) && !w.Reserve? && !w.Release? && !w.Dispatched? && !w.CancelAccepted?
  {
  }

  /** Every step changes the table by its effect and in no other way. */
  lemma StepHasEffect(c: Config, s: State, a: Action)
    ensures Step(c, s, a).rows == ApplyEffect(s.rows, EffectOf(c, s, a))
    ensures EffectOf(c, s, a).Wrote? ==> TerminalUpdate(EffectOf(c, s, a).w) && !EffectOf(c, s, a).w.Release?
  {
    match a
    case Dispatcher(d) => DispatchHasEffect(c, s, d);
    case ShimActs(k, act) => ShimHasEffect(c, s, k, act);
    case _ =>
  }

  lemma ShimWritesEnd(rows: seq<Slot>, shim: Shim, a: ShimAction)
    ensures var (after, write) := ShimMove(rows, shim, a);
            && after.task == shim.task && after.osPid == shim.osPid
            && (write.Some? ==> TerminalUpdate(write.value.0) && !write.value.0.Reserve? && !write.value.0.Release?
                                && !write.value.0.Dispatched? && !write.value.0.CancelAccepted?)
  {
  }

  /** A shim is only ever moved by its own actions. */
  lemma ShimAfter(c: Config, s: State, a: Action, k: nat)
    requires k < |s.shims|
    ensures k < |Step(c, s, a).shims|
    ensures Step(c, s, a).shims[k] ==
      if a.ShimActs? && a.k == k then ShimMove(s.rows, s.shims[k], a.a).0 else s.shims[k]
  {
  }

  lemma EffectIsForward(rows: seq<Slot>, e: TableEffect)
    requires e.Wrote? ==> TerminalUpdate(e.w)
    ensures ForwardTable(rows, ApplyEffect(rows, e))
    ensures (e.Wrote? ==> !e.w.Reserve? && !e.w.Release?) ==> QuietTable(rows, ApplyEffect(rows, e))
  {
    if e.Wrote? { CommitIsForward(rows, e.id, e.w, e.now); }
  }

  // ---- what every actor but the dispatcher does to the table

  predicate SameShimTasks(a: seq<Shim>, b: seq<Shim>) {
    && |a| == |b|
    && forall k :: 0 <= k < |a| ==> a[k].task == b[k].task
  }

  lemma OthersLeaveDispatcher(c: Config, s: State, a: Action)
    requires !a.Dispatcher?
    ensures var t := Step(c, s, a);
            t.disp == s.disp && t.stranded == s.stranded && SameShimTasks(s.shims, t.shims)
  {
  }

  /** Everyone but the dispatcher leaves it alone and never adds a reservation. */
  lemma OthersAreQuiet(c: Config, s: State, a: Action)
    requires !a.Dispatcher?
    ensures var t := Step(c, s, a);
            && t.disp == s.disp && t.stranded == s.stranded
            && SameShimTasks(s.shims, t.shims)
            && QuietTable(s.rows, t.rows)
  {
    OthersLeaveDispatcher(c, s, a);
    StepHasEffect(c, s, a);
    OthersNeverReserve(c, s, a);
    EffectIsForward(s.rows, EffectOf(c, s, a));
  }

  lemma OthersNeverReserve(c: Config, s: State, a: Action)
    requires !a.Dispatcher?
    ensures EffectOf(c, s, a).Wrote? ==> !EffectOf(c, s, a).w.Reserve? && !EffectOf(c, s, a).w.Release?
  {
  }

  // ---- no step returns a row to accepted, clears a kill flag or rewrites a request

  lemma StepIsForward(c: Config, s: State, a: Action)
    ensures ForwardTable(s.rows, Step(c, s, a).rows)
  {
    StepHasEffect(c, s, a);
    EffectIsForward(s.rows, EffectOf(c, s, a));
  }

  /** Over a whole run: no row is returned to accepted, no kill flag is cleared, no request changes. */
  lemma {:induction false} RunIsForward(c: Config, s: State, run: seq<Action>)
    ensures var t := Exec(c, s, run);
            |s.rows| <= |t.rows| && forall i :: 0 <= i < |s.rows| ==> Forward(s.rows[i], t.rows[i])
    decreases |run|
  {
    if run != [] {
      var next := Step(c, s, run[0]);
      StepIsForward(c, s, run[0]);
      RunIsForward(c, next, run[1..]);
      forall i | 0 <= i < |s.rows| ensures Forward(s.rows[i], Exec(c, s, run).rows[i]) {
        assert Forward(s.rows[i], next.rows[i]) && Forward(next.rows[i], Exec(c, s, run).rows[i]);
      }
    }
  }
}
