/** The lifecycle in runs where no transaction lands on a row that a kill closed first. */
module Lifecycle {
  import opened Types
  import opened Table
  import opened Dispatch
  import opened Protocol
  import opened SpawnOnce

  // ---- the excluded races

  predicate LiveTerminal(rows: seq<Slot>, id: nat) {
    Live(rows, id) && rows[id].value.status.IsTerminal()
  }

  /** The dispatcher reserves for a row that is no longer accepted. */
  predicate ReserveRace(c: Config, s: State, a: Action) {
    && a.Dispatcher? && a.d.Scan? && s.disp.Scanning? && s.disp.queue != []
    && Decide(c.ledger, s.disp.counters, s.disp.queue[0].row).Grant?
    && Live(s.rows, s.disp.queue[0].id)
    && !s.rows[s.disp.queue[0].id].value.status.Accepted?
  }

  predicate FinishedAt(rows: seq<Slot>, id: nat, now: nat) {
    Live(rows, id) && rows[id].value.finishedAt == Some(now)
  }

  /** A shim's first transaction lands on a row closed since the shim read it. A cancellation
      that repeats the row's own finish time changes nothing and is none. */
  predicate LaunchRace(s: State, a: Action) {
    && a.ShimActs? && a.k < |s.shims|
    && ((a.a.CommitStarted? && s.shims[a.k].pc.Launched?)
        || (a.a.CommitLaunchError? && s.shims[a.k].pc.LaunchBroken?)
        || (a.a.CommitCancel? && s.shims[a.k].pc.CancelPending? && !FinishedAt(s.rows, s.shims[a.k].task, a.a.now)))
    && LiveTerminal(s.rows, s.shims[a.k].task)
  }

  /** A failed spawn is written over a row closed since it was reserved. */
  predicate SpawnErrorRace(s: State, a: Action) {
    && a.Dispatcher? && a.d.CommitSpawnError? && s.disp.InBlock? && s.disp.stage.SpawnFailed?
    && LiveTerminal(s.rows, s.disp.item.id)
  }

  predicate Race(c: Config, s: State, a: Action) {
    ReserveRace(c, s, a) || LaunchRace(s, a) || SpawnErrorRace(s, a)
  }

  predicate RaceFree(c: Config, s: State, run: seq<Action>)
    decreases |run|
  {
    run == [] || (!Race(c, s, run[0]) && RaceFree(c, Step(c, s, run[0]), run[1..]))
  }

  // ---- the invariant

  /** A running row holds its reservation; a finished row holds none. */
  predicate RowOk(slot: Slot) {
    slot.Some? ==>
      && (slot.value.status.Running? ==> slot.value.Active())
      && (slot.value.status.IsTerminal() ==> !slot.value.Active())
  }

  predicate Killed(row: Row) {
    row.status.Cancelled? && row.killRequested && row.error == Some(KillError)
  }

  predicate InBlockFor(s: State, id: nat) {
    s.disp.InBlock? && s.disp.item.id == id
  }

  predicate HolderOk(s: State, id: nat) {
    Live(s.rows, id) && s.rows[id].value.Active() ==>
      s.rows[id].value.status.Running? || InBlockFor(s, id) || id in s.stranded
  }

  predicate ShimRowOk(rows: seq<Slot>, shim: Shim) {
    Live(rows, shim.task) ==>
      && (!shim.pc.Gone? ==> Holds(rows, shim.task))
      && match shim.pc
      case Begin => true
      case Gone => true
      case Supervising(_, _) => rows[shim.task].value.status.Running?
      case Exited(_, _, _) => rows[shim.task].value.status.Running?
      case _ => rows[shim.task].value.status.IsTerminal() ==> Killed(rows[shim.task].value)
  }

  /** An unspawned row in the dispatcher's hands is accepted, or a kill has closed it. */
  predicate PendingOk(rows: seq<Slot>, id: nat) {
    Live(rows, id) && !rows[id].value.status.Accepted? ==> Killed(rows[id].value)
  }

  predicate ListedLifeOk(rows: seq<Slot>, x: Item) {
    && (!x.row.Active() && !x.row.killRequested ==> PendingOk(rows, x.id))
    && (x.row.killRequested && Live(rows, x.id) ==> rows[x.id].value.killRequested)
  }

  function QueueOf(s: State): seq<Item> {
    match s.disp
    case Scanning(_, queue) => queue
    case InBlock(_, _, _, _, queue) => queue
    case _ => []
  }

  predicate HandlerOk(rows: seq<Slot>, h: KillHandler) {
    && h.task < |rows|
    && ((h.stage.Reread? || h.stage.CancelTask?) && Live(rows, h.task) ==> rows[h.task].value.killRequested)
  }

  predicate Collectable(rows: seq<Slot>, x: Item) {
    x.id < |rows| && (Live(rows, x.id) ==> LiveTerminal(rows, x.id))
  }

  predicate LifeInv(s: State) {
    && (forall i :: 0 <= i < |s.rows| ==> RowOk(s.rows[i]))
    && (forall i: nat :: i < |s.rows| ==> HolderOk(s, i))
    && (forall k :: 0 <= k < |s.shims| ==> ShimRowOk(s.rows, s.shims[k]))
    && (forall i :: 0 <= i < |QueueOf(s)| ==> ListedLifeOk(s.rows, QueueOf(s)[i]))
    && (s.disp.InBlock? && !s.disp.stage.Spawned? ==> PendingOk(s.rows, s.disp.item.id))
    && (forall h :: 0 <= h < |s.kills| ==> HandlerOk(s.rows, s.kills[h]))
    && (forall i :: 0 <= i < |s.gc| ==> Collectable(s.rows, s.gc[i]))
  }

  /** The races that the hypothesis excludes are kills: the row hit has been cancelled and its
      kill flag is set. */
  lemma RacesAreKills(c: Config, s: State, a: Action)
    requires SpawnInv(s) && LifeInv(s) && Race(c, s, a)
    ensures var id := if a.ShimActs? then s.shims[a.k].task
                      else if a.d.Scan? then s.disp.queue[0].id else s.disp.item.id;
            Live(s.rows, id) && Killed(s.rows[id].value)
  {
    if a.ShimActs? {
      assert ShimRowOk(s.rows, s.shims[a.k]);
    } else if a.d.Scan? {
      assert ListedLifeOk(s.rows, QueueOf(s)[0]);
      assert !s.disp.queue[0].row.Active();
    }
  }

  // ---- slot transitions

  /** A finished row keeps its status, finish time and error. */
  predicate Settled(o: Slot, n: Slot) {
    o.Some? && o.value.status.IsTerminal() && n.Some? ==>
      n.value.status == o.value.status && n.value.finishedAt == o.value.finishedAt && n.value.error == o.value.error
  }

  /** Of all transactions only a start, or a completion with another outcome, rewrites a finished row. */
  lemma WriteSettles(row: Row, w: Write, now: nat)
    requires row.status.IsTerminal()
    ensures Settled(Some(row), Some(Apply(row, w, now))) <==>
      && !w.Started?
      && (w.Complete? ==> w.update.status == row.status && Some(w.update.finishedAt) == row.finishedAt
                          && w.update.error == row.error)
  {
  }

  /** What an actor that does not own the row's workload may do to it. */
  predicate Outside(o: Slot, n: Slot) {
    && RowOk(n)
    && Settled(o, n)
    && (n.Some? ==>
          && o.Some?
          && (o.value.killRequested ==> n.value.killRequested)
          && (o.value.status.Running? ==> n.value.status.Running?)
          && (n.value.Active() ==> o.value.Active())
          && (n.value.status.Accepted? && o.value.Active() ==> n.value.Active())
          && (n.value.status.IsTerminal() && !o.value.status.IsTerminal() ==> Killed(n.value)))
  }

  /** Additionally the row is not started. */
  predicate Waits(o: Slot, n: Slot) {
    && Outside(o, n)
    && (n.Some? && n.value.status.Running? ==> o.value.status.Running?)
  }

  lemma KillWritesWait(row: Row, w: Write, now: nat)
    requires RowOk(Some(row))
    requires w.RequestKill? || w.HitTimeout? || (w.CancelAccepted? && row.killRequested)
    ensures Waits(Some(row), Some(Apply(row, w, now)))
  {
  }

  predicate AllWait(rows: seq<Slot>, after: seq<Slot>) {
    && |rows| <= |after|
    && (forall i :: 0 <= i < |rows| ==> Waits(rows[i], after[i]))
    && (forall i :: |rows| <= i < |after| ==> Blank(after[i]))
  }

  lemma SameRowsWait(rows: seq<Slot>)
    requires forall i :: 0 <= i < |rows| ==> RowOk(rows[i])
    ensures AllWait(rows, rows)
  {
  }

  lemma HandlersKeep(rows: seq<Slot>, after: seq<Slot>, kills: seq<KillHandler>)
    requires |rows| <= |after|
    requires forall i :: 0 <= i < |rows| ==> Forward(rows[i], after[i])
    requires forall h :: 0 <= h < |kills| ==> HandlerOk(rows, kills[h])
    ensures forall h :: 0 <= h < |kills| ==> HandlerOk(after, kills[h])
  {
  }

  lemma GcListKeeps(rows: seq<Slot>, after: seq<Slot>, gc: seq<Item>)
    requires |rows| <= |after|
    requires forall i :: 0 <= i < |rows| ==> Settled(rows[i], after[i]) && (after[i].Some? ==> rows[i].Some?)
    requires forall i :: 0 <= i < |gc| ==> Collectable(rows, gc[i])
    ensures forall i :: 0 <= i < |gc| ==> Collectable(after, gc[i])
  {
  }

  // ---- actors other than the dispatcher and the shims

  lemma WaitingKeepsLife(s: State, t: State)
    requires SpawnInv(s) && LifeInv(s) && AllWait(s.rows, t.rows)
    requires t.disp == s.disp && t.shims == s.shims && t.stranded == s.stranded
    requires forall h :: 0 <= h < |t.kills| ==> HandlerOk(t.rows, t.kills[h])
    requires forall i :: 0 <= i < |t.gc| ==> Collectable(t.rows, t.gc[i])
    ensures LifeInv(t)
  {
    forall i: nat | i < |t.rows| ensures RowOk(t.rows[i]) && HolderOk(t, i) {
      if i < |s.rows| {
        assert Waits(s.rows[i], t.rows[i]) && HolderOk(s, i);
      } else {
        assert Blank(t.rows[i]);
      }
    }
    forall k | 0 <= k < |t.shims| ensures ShimRowOk(t.rows, t.shims[k]) {
      var id := s.shims[k].task;
      assert ShimRowOk(s.rows, s.shims[k]) && Taken(s.rows, id) && Waits(s.rows[id], t.rows[id]);
    }
    forall i | 0 <= i < |QueueOf(t)| ensures ListedLifeOk(t.rows, QueueOf(t)[i]) {
      var x := QueueOf(s)[i];
      assert ListedLifeOk(s.rows, x) && ListedOk(s.rows, s.shims, x) && Waits(s.rows[x.id], t.rows[x.id]);
    }
    if s.disp.InBlock? {
      assert Waits(s.rows[s.disp.item.id], t.rows[s.disp.item.id]);
    }
  }

  lemma KillCommitWaits(rows: seq<Slot>, id: nat, w: Write, now: nat)
    requires forall i :: 0 <= i < |rows| ==> RowOk(rows[i])
    requires w.RequestKill? || (w.CancelAccepted? && (Live(rows, id) ==> rows[id].value.killRequested))
    ensures AllWait(rows, Commit(rows, id, w, now))
  {
  }

  predicate KillStep(a: Action) {
    a.KillArrives? || a.KillCommitFlag? || a.KillReadsAgain? || a.KillCommitCancel?
  }

  lemma KillStepWaits(c: Config, s: State, a: Action)
    requires LifeInv(s) && KillStep(a)
    ensures AllWait(s.rows, Step(c, s, a).rows)
  {
    StepHasEffect(c, s, a);
    var e := EffectOf(c, s, a);
    if e.Wrote? {
      if a.KillCommitCancel? { assert HandlerOk(s.rows, s.kills[a.h]); }
      KillCommitWaits(s.rows, e.id, e.w, e.now);
    } else {
      SameRowsWait(s.rows);
    }
  }

  lemma KillStepKeepsHandlers(c: Config, s: State, a: Action, h: nat)
    requires LifeInv(s) && KillStep(a) && h < |Step(c, s, a).kills|
    ensures HandlerOk(Step(c, s, a).rows, Step(c, s, a).kills[h])
  {
  }

  lemma KillersKeepLife(c: Config, s: State, a: Action)
    requires SpawnInv(s) && LifeInv(s) && KillStep(a)
    ensures LifeInv(Step(c, s, a)) && AllWait(s.rows, Step(c, s, a).rows)
  {
    var t := Step(c, s, a);
    KillStepWaits(c, s, a);
    forall h | 0 <= h < |t.kills| ensures HandlerOk(t.rows, t.kills[h]) { KillStepKeepsHandlers(c, s, a, h); }
    GcListKeeps(s.rows, t.rows, s.gc);
    assert t.disp == s.disp && t.shims == s.shims && t.stranded == s.stranded && t.gc == s.gc;
    WaitingKeepsLife(s, t);
  }

  lemma FreshGcList(s: State, cutoff: nat)
    ensures var p := (row: Row) => row.status.IsTerminal() && row.finishedAt.Some? && row.finishedAt.value <= cutoff;
            forall i :: 0 <= i < |Select(s.rows, p)| ==> Collectable(s.rows, Select(s.rows, p)[i])
  {
    var p := (row: Row) => row.status.IsTerminal() && row.finishedAt.Some? && row.finishedAt.value <= cutoff;
    SelectIsExact(s.rows, p);
    forall i | 0 <= i < |Select(s.rows, p)| ensures Collectable(s.rows, Select(s.rows, p)[i]) {
      assert Select(s.rows, p)[i] in Select(s.rows, p);
    }
  }

  lemma HousekeepingKeepsLife(c: Config, s: State, a: Action)
    requires SpawnInv(s) && LifeInv(s)
    requires a.SubmitCheck? || a.SubmitInsert? || a.SubmitDrop? || a.GcList? || a.GcDelete? || a.GcSkip?
    ensures LifeInv(Step(c, s, a)) && AllWait(s.rows, Step(c, s, a).rows)
  {
    var t := Step(c, s, a);
    SameRowsWait(s.rows);
    assert AllWait(s.rows, t.rows);
    StepIsForward(c, s, a);
    HandlersKeep(s.rows, t.rows, s.kills);
    GcListKeeps(s.rows, t.rows, s.gc);
    if a.GcList? { FreshGcList(s, a.cutoff); }
    assert forall i :: 0 <= i < |t.gc| ==> Collectable(t.rows, t.gc[i]);
    assert t.disp == s.disp && t.shims == s.shims && t.stranded == s.stranded && t.kills == s.kills;
    WaitingKeepsLife(s, t);
  }

  // ---- shims

  /** A write on row `id` when every slot else is left alone. */
  lemma OneSlotKeepsLife(s: State, t: State, id: nat)
    requires SpawnInv(s) && LifeInv(s)
    requires id < |s.rows| == |t.rows| && forall i :: 0 <= i < |s.rows| && i != id ==> t.rows[i] == s.rows[i]
    requires RowOk(t.rows[id]) && Settled(s.rows[id], t.rows[id]) && Forward(s.rows[id], t.rows[id])
    requires HolderOk(t, id)
    requires t.kills == s.kills && t.gc == s.gc
    requires forall i: nat :: i < |s.rows| && i != id && HolderOk(s, i) ==> HolderOk(t, i)
    requires forall k :: 0 <= k < |t.shims| ==> ShimRowOk(t.rows, t.shims[k])
    requires forall i :: 0 <= i < |QueueOf(t)| ==> ListedLifeOk(t.rows, QueueOf(t)[i])
    requires t.disp.InBlock? && !t.disp.stage.Spawned? ==> PendingOk(t.rows, t.disp.item.id)
    ensures LifeInv(t)
  {
  }

  /** Rows the dispatcher still has to handle are untouched by a shim, which has another row. */
  lemma ShimWriteKeepsPending(s: State, t: State, k: nat)
    requires SpawnInv(s) && LifeInv(s) && k < |s.shims| && t.disp == s.disp && |t.rows| == |s.rows|
    requires forall i :: 0 <= i < |s.rows| && i != s.shims[k].task ==> t.rows[i] == s.rows[i]
    requires Forward(s.rows[s.shims[k].task], t.rows[s.shims[k].task])
    ensures forall i :: 0 <= i < |QueueOf(t)| ==> ListedLifeOk(t.rows, QueueOf(t)[i])
    ensures t.disp.InBlock? && !t.disp.stage.Spawned? ==> PendingOk(t.rows, t.disp.item.id)
  {
    forall i | 0 <= i < |QueueOf(t)| ensures ListedLifeOk(t.rows, QueueOf(t)[i]) {
      var x := QueueOf(s)[i];
      assert ListedLifeOk(s.rows, x) && ListedOk(s.rows, s.shims, x);
    }
  }

  lemma OwnerWrites(s: State, k: nat, a: ShimAction)
    requires SpawnInv(s) && LifeInv(s) && k < |s.shims|
    requires !LaunchRace(s, ShimActs(k, a))
    requires ShimMove(s.rows, s.shims[k], a).1.Some? && Live(s.rows, s.shims[k].task)
    ensures var t := ShimStep(s, k, a);
            var id := s.shims[k].task;
            RowOk(t.rows[id]) && Settled(s.rows[id], t.rows[id]) && HolderOk(t, id) && ShimRowOk(t.rows, t.shims[k])
  {
  }

  lemma SilentShimKeepsLife(c: Config, s: State, k: nat, a: ShimAction)
    requires LifeInv(s) && k < |s.shims| && ShimStep(s, k, a).rows == s.rows
    requires ShimMove(s.rows, s.shims[k], a).1.Some? ==> !Live(s.rows, s.shims[k].task)
    ensures LifeInv(ShimStep(s, k, a))
  {
    var t := ShimStep(s, k, a);
    assert ShimRowOk(s.rows, s.shims[k]);
    assert ShimRowOk(t.rows, t.shims[k]);
    forall i: nat | i < |t.rows| ensures HolderOk(t, i) { assert HolderOk(s, i); }
    assert QueueOf(t) == QueueOf(s);
  }

  lemma WritingShimKeepsLife(c: Config, s: State, k: nat, a: ShimAction)
    requires SpawnInv(s) && LifeInv(s) && k < |s.shims| && !LaunchRace(s, ShimActs(k, a))
    requires ShimMove(s.rows, s.shims[k], a).1.Some? && Live(s.rows, s.shims[k].task)
    ensures LifeInv(ShimStep(s, k, a))
    ensures forall i :: 0 <= i < |s.rows| ==> Settled(s.rows[i], ShimStep(s, k, a).rows[i])
  {
    var t := ShimStep(s, k, a);
    var id := s.shims[k].task;
    ShimWritesEnd(s.rows, s.shims[k], a);
    OwnerWrites(s, k, a);
    assert Forward(s.rows[id], t.rows[id]) by { StepIsForward(c, s, ShimActs(k, a)); }
    ShimWriteKeepsPending(s, t, k);
    forall j | 0 <= j < |t.shims| ensures ShimRowOk(t.rows, t.shims[j]) {
      assert ShimRowOk(s.rows, s.shims[j]);
    }
    forall i: nat | i < |s.rows| && i != id && HolderOk(s, i) ensures HolderOk(t, i) {}
    OneSlotKeepsLife(s, t, id);
  }

  lemma ShimKeepsLife(c: Config, s: State, k: nat, a: ShimAction)
    requires SpawnInv(s) && LifeInv(s) && !LaunchRace(s, ShimActs(k, a))
    ensures LifeInv(ShimStep(s, k, a))
    ensures forall i :: 0 <= i < |s.rows| ==> Settled(s.rows[i], ShimStep(s, k, a).rows[i])
  {
    if k < |s.shims| {
      ShimWritesEnd(s.rows, s.shims[k], a);
      if ShimMove(s.rows, s.shims[k], a).1.Some? && Live(s.rows, s.shims[k].task) {
        WritingShimKeepsLife(c, s, k, a);
      } else {
        SilentShimKeepsLife(c, s, k, a);
      }
    }
  }

  // ---- the dispatcher

  lemma FreshListLife(s: State, t: State, limit: nat)
    requires LifeInv(s) && t.rows == s.rows && t.shims == s.shims && t.kills == s.kills && t.gc == s.gc
    requires t.stranded == s.stranded && s.disp.Counted?
    requires t.disp == Scanning(s.disp.counters, Take(Select(s.rows, IsAccepted), limit))
    ensures LifeInv(t)
  {
    SelectIsExact(s.rows, IsAccepted);
    var all := Select(s.rows, IsAccepted);
    forall i | 0 <= i < |QueueOf(t)| ensures ListedLifeOk(t.rows, QueueOf(t)[i]) {
      assert QueueOf(t)[i] == all[i] && all[i] in all;
    }
    forall i: nat | i < |t.rows| ensures HolderOk(t, i) { assert HolderOk(s, i); }
  }

  /** A dispatcher write on the row it has at hand, none of the rows still queued. */
  lemma QueueUntouched(s: State, t: State, id: nat)
    requires SpawnInv(s) && LifeInv(s) && |t.rows| == |s.rows|
    requires forall i :: 0 <= i < |s.rows| && i != id ==> t.rows[i] == s.rows[i]
    requires forall i :: 0 <= i < |QueueOf(t)| ==> QueueOf(t)[i] in QueueOf(s) && QueueOf(t)[i].id != id
    ensures forall i :: 0 <= i < |QueueOf(t)| ==> ListedLifeOk(t.rows, QueueOf(t)[i])
  {
  }

  lemma RestIsApart(queue: seq<Item>)
    requires queue != [] && Ascending(queue)
    ensures forall i :: 0 <= i < |queue[1..]| ==> queue[1..][i] in queue && queue[1..][i].id != queue[0].id
  {
  }

  lemma BlockIsApart(item: Item, queue: seq<Item>)
    requires Ascending([item] + queue)
    ensures forall i :: 0 <= i < |queue| ==> queue[i] in queue && queue[i].id != item.id
  {
    forall i | 0 <= i < |queue| ensures queue[i].id != item.id {
      assert ([item] + queue)[0].id < ([item] + queue)[i + 1].id;
    }
  }

  lemma SkipKeepsLife(c: Config, s: State, now: nat)
    requires LifeInv(s) && s.disp.Scanning? && s.disp.queue != []
    requires ScanStep(c, s, now).rows == s.rows && !ScanStep(c, s, now).disp.InBlock?
    ensures LifeInv(ScanStep(c, s, now))
  {
    var t := ScanStep(c, s, now);
    forall i: nat | i < |t.rows| ensures HolderOk(t, i) { assert HolderOk(s, i); }
    forall i | 0 <= i < |QueueOf(t)| ensures ListedLifeOk(t.rows, QueueOf(t)[i]) {
      assert QueueOf(t)[i] == QueueOf(s)[i + 1];
    }
  }

  lemma ScanWriteKeepsShims(c: Config, s: State, now: nat, k: nat)
    requires SpawnInv(s) && LifeInv(s) && !ReserveRace(c, s, Dispatcher(Scan(now)))
    requires s.disp.Scanning? && s.disp.queue != [] && k < |s.shims|
    ensures ShimRowOk(ScanStep(c, s, now).rows, s.shims[k])
  {
    var item := s.disp.queue[0];
    assert ShimRowOk(s.rows, s.shims[k]) && Taken(s.rows, s.shims[k].task);
    assert ListedOk(s.rows, s.shims, item) && ListedLifeOk(s.rows, QueueOf(s)[0]);
    if Decide(c.ledger, s.disp.counters, item.row).CancelIt? && Live(s.rows, item.id) {
      KillWritesWait(s.rows[item.id].value, CancelAccepted, now);
    }
  }

  /** The listed row that a scan writes. */
  lemma ScanRow(c: Config, s: State, now: nat)
    requires SpawnInv(s) && LifeInv(s) && !ReserveRace(c, s, Dispatcher(Scan(now)))
    requires s.disp.Scanning? && s.disp.queue != [] && Live(s.rows, s.disp.queue[0].id)
    requires !Decide(c.ledger, s.disp.counters, s.disp.queue[0].row).SkipIt?
    ensures var t, id := ScanStep(c, s, now), s.disp.queue[0].id;
            && RowOk(t.rows[id]) && Settled(s.rows[id], t.rows[id]) && HolderOk(t, id)
            && (t.disp.InBlock? ==> PendingOk(t.rows, id))
  {
    assert ListedLifeOk(s.rows, QueueOf(s)[0]) && ListedOk(s.rows, s.shims, s.disp.queue[0]);
    assert HolderOk(s, s.disp.queue[0].id) && RowOk(s.rows[s.disp.queue[0].id]);
  }

  lemma ScanKeepsLife(c: Config, s: State, now: nat)
    requires SpawnInv(s) && LifeInv(s) && !ReserveRace(c, s, Dispatcher(Scan(now)))
    requires s.disp.Scanning? && s.disp.queue != []
    ensures LifeInv(ScanStep(c, s, now))
    ensures forall i :: 0 <= i < |s.rows| ==> Settled(s.rows[i], ScanStep(c, s, now).rows[i])
  {
    var t := ScanStep(c, s, now);
    var id := s.disp.queue[0].id;
    if Decide(c.ledger, s.disp.counters, s.disp.queue[0].row).SkipIt? || !Live(s.rows, id) {
      SkipKeepsLife(c, s, now);
      return;
    }
    ScanRow(c, s, now);
    assert Forward(s.rows[id], t.rows[id]) by { StepIsForward(c, s, Dispatcher(Scan(now))); }
    QueueUntouched(s, t, id) by { RestIsApart(s.disp.queue); }
    forall i: nat | i < |s.rows| && i != id && HolderOk(s, i) ensures HolderOk(t, i) {}
    forall k | 0 <= k < |t.shims| ensures ShimRowOk(t.rows, t.shims[k]) {
      ScanWriteKeepsShims(c, s, now, k);
    }
    OneSlotKeepsLife(s, t, id);
  }

  lemma BlockEndRow(c: Config, s: State, a: DispatchAction)
    requires SpawnInv(s) && LifeInv(s) && !SpawnErrorRace(s, Dispatcher(a))
    requires s.disp.InBlock? && Live(s.rows, s.disp.item.id)
    requires (a.CommitDispatched? && s.disp.stage.Spawned?) || (a.CommitSpawnError? && s.disp.stage.SpawnFailed?)
    ensures var t, id := DispatchStep(c, s, a), s.disp.item.id;
            RowOk(t.rows[id]) && Settled(s.rows[id], t.rows[id]) && HolderOk(t, id)
  {
    var id := s.disp.item.id;
    assert HolderOk(s, id) && RowOk(s.rows[id]) && Taken(s.rows, id);
  }

  lemma BlockEndShims(c: Config, s: State, a: DispatchAction, k: nat)
    requires SpawnInv(s) && LifeInv(s) && s.disp.InBlock? && Live(s.rows, s.disp.item.id) && k < |s.shims|
    requires (a.CommitDispatched? && s.disp.stage.Spawned?) || (a.CommitSpawnError? && s.disp.stage.SpawnFailed?)
    ensures ShimRowOk(DispatchStep(c, s, a).rows, s.shims[k])
  {
    assert ShimRowOk(s.rows, s.shims[k]);
  }

  lemma BlockEndKeepsLife(c: Config, s: State, a: DispatchAction)
    requires SpawnInv(s) && LifeInv(s) && !SpawnErrorRace(s, Dispatcher(a))
    requires s.disp.InBlock? && Live(s.rows, s.disp.item.id)
    requires (a.CommitDispatched? && s.disp.stage.Spawned?) || (a.CommitSpawnError? && s.disp.stage.SpawnFailed?)
    ensures LifeInv(DispatchStep(c, s, a))
    ensures forall i :: 0 <= i < |s.rows| ==> Settled(s.rows[i], DispatchStep(c, s, a).rows[i])
  {
    var t := DispatchStep(c, s, a);
    var id := s.disp.item.id;
    assert Forward(s.rows[id], t.rows[id]) by { StepIsForward(c, s, Dispatcher(a)); }
    QueueUntouched(s, t, id) by { BlockIsApart(s.disp.item, s.disp.queue); }
    BlockEndRow(c, s, a);
    forall i: nat | i < |s.rows| && i != id && HolderOk(s, i) ensures HolderOk(t, i) {}
    forall k | 0 <= k < |t.shims| ensures ShimRowOk(t.rows, t.shims[k]) { BlockEndShims(c, s, a, k); }
    OneSlotKeepsLife(s, t, id);
  }

  lemma DispatcherKeepsLife(c: Config, s: State, a: DispatchAction)
    requires SpawnInv(s) && LifeInv(s) && !Race(c, s, Dispatcher(a))
    ensures LifeInv(DispatchStep(c, s, a))
    ensures forall i :: 0 <= i < |s.rows| ==> Settled(s.rows[i], DispatchStep(c, s, a).rows[i])
  {
    var t := DispatchStep(c, s, a);
    if a.ListAccepted? && s.disp.Counted? {
      FreshListLife(s, t, c.maxQueued);
    } else if a.Scan? && s.disp.Scanning? && s.disp.queue != [] {
      ScanKeepsLife(c, s, a.now);
    } else if (a.CommitDispatched? || a.CommitSpawnError?) && t.rows != s.rows {
      BlockEndKeepsLife(c, s, a);
    } else {
      DispatchHasEffect(c, s, a);
      assert t.rows == s.rows;
      forall i: nat | i < |t.rows| ensures HolderOk(t, i) { assert HolderOk(s, i); }
      forall i | 0 <= i < |QueueOf(t)| ensures ListedLifeOk(t.rows, QueueOf(t)[i]) {
        assert QueueOf(t) == QueueOf(s);
      }
      forall k | 0 <= k < |t.shims| ensures ShimRowOk(t.rows, t.shims[k]) {
        if k < |s.shims| { assert ShimRowOk(s.rows, s.shims[k]); }
      }
    }
  }

  // ---- races are exactly what breaks the order

  /** Running rows hold their reservation, finished rows hold none and have not been rewritten. */
  predicate Orderly(rows: seq<Slot>, after: seq<Slot>) {
    && (forall i :: 0 <= i < |after| ==> RowOk(after[i]))
    && (forall i :: 0 <= i < |rows| && i < |after| ==> Settled(rows[i], after[i]))
  }

  lemma ReserveRaceBreaks(c: Config, s: State, a: Action)
    requires SpawnInv(s) && LifeInv(s) && ReserveRace(c, s, a)
    ensures !RowOk(Step(c, s, a).rows[s.disp.queue[0].id])
  {
    RacesAreKills(c, s, a);
  }

  lemma LaunchRaceBreaks(c: Config, s: State, a: Action)
    requires SpawnInv(s) && LifeInv(s) && LaunchRace(s, a)
    ensures !Settled(s.rows[s.shims[a.k].task], Step(c, s, a).rows[s.shims[a.k].task])
  {
    RacesAreKills(c, s, a);
  }

  lemma SpawnErrorRaceBreaks(c: Config, s: State, a: Action)
    requires SpawnInv(s) && LifeInv(s) && SpawnErrorRace(s, a)
    ensures !Settled(s.rows[s.disp.item.id], Step(c, s, a).rows[s.disp.item.id])
  {
    RacesAreKills(c, s, a);
  }

  lemma RaceBreaksOrder(c: Config, s: State, a: Action)
    requires SpawnInv(s) && LifeInv(s) && Race(c, s, a)
    ensures !Orderly(s.rows, Step(c, s, a).rows)
  {
    StepIsForward(c, s, a);
    if ReserveRace(c, s, a) {
      ReserveRaceBreaks(c, s, a);
    } else if LaunchRace(s, a) {
      LaunchRaceBreaks(c, s, a);
    } else {
      SpawnErrorRaceBreaks(c, s, a);
    }
  }

  lemma StepKeepsLife(c: Config, s: State, a: Action)
    requires SpawnInv(s) && LifeInv(s) && !Race(c, s, a)
    ensures LifeInv(Step(c, s, a))
    ensures forall i :: 0 <= i < |s.rows| ==> Settled(s.rows[i], Step(c, s, a).rows[i])
  {
    match a
    case Dispatcher(d) => DispatcherKeepsLife(c, s, d);
    case ShimActs(k, act) => ShimKeepsLife(c, s, k, act);
    case KillArrives(_) => KillersKeepLife(c, s, a);
    case KillCommitFlag(_, _) => KillersKeepLife(c, s, a);
    case KillReadsAgain(_) => KillersKeepLife(c, s, a);
    case KillCommitCancel(_, _) => KillersKeepLife(c, s, a);
    case _ => HousekeepingKeepsLife(c, s, a);
  }

  /** A step leaves the table in order exactly when it is not a race. */
  lemma StepIsOrderly(c: Config, s: State, a: Action)
    requires SpawnInv(s) && LifeInv(s)
    ensures Orderly(s.rows, Step(c, s, a).rows) <==> !Race(c, s, a)
    ensures !Race(c, s, a) ==> LifeInv(Step(c, s, a))
  {
    if Race(c, s, a) { RaceBreaksOrder(c, s, a); } else { StepKeepsLife(c, s, a); }
  }

  // ---- runs

  /** Every step of the run leaves the table in order. */
  predicate OrderlyRun(c: Config, s: State, run: seq<Action>)
    decreases |run|
  {
    run == [] || (Orderly(s.rows, Step(c, s, run[0]).rows) && OrderlyRun(c, Step(c, s, run[0]), run[1..]))
  }

  /** The runs that are orderly throughout are exactly the race-free ones. */
  lemma {:induction false} OrderlyIffRaceFree(c: Config, s: State, run: seq<Action>)
    requires SpawnInv(s) && LifeInv(s)
    ensures OrderlyRun(c, s, run) <==> RaceFree(c, s, run)
    decreases |run|
  {
    if run != [] {
      StepIsOrderly(c, s, run[0]);
      if !Race(c, s, run[0]) {
        StepKeepsSpawnInv(c, s, run[0]);
        OrderlyIffRaceFree(c, Step(c, s, run[0]), run[1..]);
      }
    }
  }

  /** Lifecycle theorem: in every race-free run running rows hold a reservation, finished rows
      hold none, a held reservation belongs to a running row or to the accepted row in the
      dispatcher's block (or one a storage error stranded there), and a finished row keeps its
      status, finish time and error for as long as it exists. */
  lemma {:induction false} RaceFreeLifecycle(c: Config, s: State, run: seq<Action>)
    requires SpawnInv(s) && LifeInv(s) && RaceFree(c, s, run)
    ensures SpawnInv(Exec(c, s, run)) && LifeInv(Exec(c, s, run))
    ensures |s.rows| <= |Exec(c, s, run).rows|
    ensures forall i :: 0 <= i < |s.rows| ==> Settled(s.rows[i], Exec(c, s, run).rows[i])
    decreases |run|
  {
    if run != [] {
      var next := Step(c, s, run[0]);
      StepKeepsSpawnInv(c, s, run[0]);
      StepKeepsLife(c, s, run[0]);
      StepIsForward(c, s, run[0]);
      RaceFreeLifecycle(c, next, run[1..]);
      RunIsForward(c, next, run[1..]);
      forall i | 0 <= i < |s.rows| ensures Settled(s.rows[i], Exec(c, s, run).rows[i]) {
        assert Settled(s.rows[i], next.rows[i]) && Settled(next.rows[i], Exec(c, s, run).rows[i]);
        assert Forward(next.rows[i], Exec(c, s, run).rows[i]);
      }
    }
  }
}
