/** At most one shim per row in every interleaving of one server lifetime. */
module SpawnOnce {
  import opened Types
  import opened Table
  import opened Dispatch
  import opened Protocol

  predicate NoShim(shims: seq<Shim>, id: nat) {
    forall k :: 0 <= k < |shims| ==> shims[k].task != id
  }

  /** A row that has been handed to a shim is not accepted, or still holds its reservation, or a
      kill has flagged it, so that the dispatcher can only cancel it. */
  predicate Taken(rows: seq<Slot>, id: nat) {
    && id < |rows|
    && (rows[id].Some? && rows[id].value.status.Accepted? ==> rows[id].value.Active() || rows[id].value.killRequested)
  }

  /** Still accepted, the row has its reservation. */
  predicate Holds(rows: seq<Slot>, id: nat) {
    id < |rows| && (rows[id].Some? && rows[id].value.status.Accepted? ==> rows[id].value.Active())
  }

  predicate ShimsOk(rows: seq<Slot>, shims: seq<Shim>) {
    && (forall i, j :: 0 <= i < j < |shims| ==> shims[i].task != shims[j].task)
    && (forall k :: 0 <= k < |shims| ==> Taken(rows, shims[k].task))
  }

  /** A stale listed copy still describes an unspawned, unreserved row, unless it was already
      reserved or flagged when listed. */
  predicate ListedOk(rows: seq<Slot>, shims: seq<Shim>, x: Item) {
    && x.id < |rows|
    && (rows[x.id].Some? ==> SameTask(x.row, rows[x.id].value))
    && (!x.row.Active() && !x.row.killRequested ==>
          && NoShim(shims, x.id)
          && (rows[x.id].Some? ==> !rows[x.id].value.Active()))
  }

  predicate QueueOk(rows: seq<Slot>, shims: seq<Shim>, queue: seq<Item>) {
    && Ascending(queue)
    && forall i :: 0 <= i < |queue| ==> ListedOk(rows, shims, queue[i])
  }

  predicate BlockOk(rows: seq<Slot>, shims: seq<Shim>, item: Item, r: Reservation, stage: Stage, queue: seq<Item>) {
    && Ascending([item] + queue)
    && Holds(rows, item.id)
    && (rows[item.id].Some? ==> SameTask(item.row, rows[item.id].value))
    && (rows[item.id].Some? && rows[item.id].value.Active() ==> rows[item.id].value.reservation == Some(r))
    && (!stage.Spawned? ==> NoShim(shims, item.id))
  }

  predicate DispatcherOk(s: State) {
    match s.disp
    case Idle => true
    case Counted(_) => true
    case Scanning(_, queue) => QueueOk(s.rows, s.shims, queue)
    case InBlock(_, item, r, stage, queue) =>
      QueueOk(s.rows, s.shims, queue) && BlockOk(s.rows, s.shims, item, r, stage, queue)
  }

  predicate SpawnInv(s: State) {
    ShimsOk(s.rows, s.shims) && DispatcherOk(s)
  }

  /** The start of a server lifetime: the dispatcher is idle and the surviving shims of earlier
      lifetimes, if any, work on distinct rows that are not waiting for dispatch. */
  predicate Start(s: State) {
    ShimsOk(s.rows, s.shims) && s.disp.Idle?
  }

  lemma QuietKeepsQueue(rows: seq<Slot>, after: seq<Slot>, shims: seq<Shim>, shims': seq<Shim>, queue: seq<Item>)
    requires QuietTable(rows, after) && SameShimTasks(shims, shims')
    requires QueueOk(rows, shims, queue)
    ensures QueueOk(after, shims', queue)
  {
  }

  lemma QuietKeepsShims(rows: seq<Slot>, after: seq<Slot>, shims: seq<Shim>, shims': seq<Shim>)
    requires QuietTable(rows, after) && SameShimTasks(shims, shims')
    requires ShimsOk(rows, shims)
    ensures ShimsOk(after, shims')
  {
  }

  lemma QuietKeepsBlock(rows: seq<Slot>, after: seq<Slot>, shims: seq<Shim>, shims': seq<Shim>,
                        item: Item, r: Reservation, stage: Stage, queue: seq<Item>)
    requires QuietTable(rows, after) && SameShimTasks(shims, shims')
    requires BlockOk(rows, shims, item, r, stage, queue)
    ensures BlockOk(after, shims', item, r, stage, queue)
  {
  }

  lemma OthersKeepSpawnInv(c: Config, s: State, a: Action)
    requires SpawnInv(s) && !a.Dispatcher?
    ensures SpawnInv(Step(c, s, a))
  {
    OthersAreQuiet(c, s, a);
    var t := Step(c, s, a);
    QuietKeepsShims(s.rows, t.rows, s.shims, t.shims);
    match s.disp
    case Scanning(_, queue) => QuietKeepsQueue(s.rows, t.rows, s.shims, t.shims, queue);
    case InBlock(_, item, r, stage, queue) =>
      QuietKeepsQueue(s.rows, t.rows, s.shims, t.shims, queue);
      QuietKeepsBlock(s.rows, t.rows, s.shims, t.shims, item, r, stage, queue);
    case _ =>
  }

  lemma FreshListIsOk(rows: seq<Slot>, shims: seq<Shim>, limit: nat)
    requires ShimsOk(rows, shims)
    ensures QueueOk(rows, shims, Take(Select(rows, IsAccepted), limit))
  {
    SelectIsExact(rows, IsAccepted);
    var all := Select(rows, IsAccepted);
    var queue := Take(all, limit);
    forall i | 0 <= i < |queue| ensures ListedOk(rows, shims, queue[i]) {
      var x := queue[i];
      assert x == all[i] && x in all;
      forall k | 0 <= k < |shims| && !x.row.Active() && !x.row.killRequested ensures shims[k].task != x.id {
        assert Taken(rows, shims[k].task);
      }
    }
  }

  lemma TailQueue(rows: seq<Slot>, shims: seq<Shim>, queue: seq<Item>)
    requires QueueOk(rows, shims, queue) && queue != []
    ensures QueueOk(rows, shims, queue[1..])
    ensures Ascending([queue[0]] + queue[1..])
  {
  }

  /** Reserving the head leaves every other listed row as it was. */
  lemma ReserveKeepsTail(rows: seq<Slot>, after: seq<Slot>, shims: seq<Shim>, queue: seq<Item>)
    requires QueueOk(rows, shims, queue) && queue != []
    requires |after| == |rows| && forall i :: 0 <= i < |rows| && i != queue[0].id ==> after[i] == rows[i]
    ensures QueueOk(after, shims, queue[1..])
  {
  }

  lemma ScanKeepsSpawnInv(c: Config, s: State, now: nat)
    requires SpawnInv(s)
    ensures SpawnInv(ScanStep(c, s, now))
  {
    if !s.disp.Scanning? || s.disp.queue == [] { return; }
    var queue := s.disp.queue;
    var item, rest := queue[0], queue[1..];
    TailQueue(s.rows, s.shims, queue);
    match Decide(c.ledger, s.disp.counters, item.row)
    case SkipIt =>
    case CancelIt =>
      CommitIsForward(s.rows, item.id, CancelAccepted, now);
      var after := Commit(s.rows, item.id, CancelAccepted, now);
      QuietKeepsShims(s.rows, after, s.shims, s.shims);
      QuietKeepsQueue(s.rows, after, s.shims, s.shims, rest);
    case Grant(r) =>
      if Live(s.rows, item.id) {
        assert ListedOk(s.rows, s.shims, item);
        var after := Commit(s.rows, item.id, Reserve(r), now);
        ReserveKeepsTail(s.rows, after, s.shims, queue);
        forall k | 0 <= k < |s.shims| ensures Taken(after, s.shims[k].task) {
          assert Taken(s.rows, s.shims[k].task);
        }
      }
  }

  lemma SpawnKeepsSpawnInv(c: Config, s: State, shimPid: nat)
    requires SpawnInv(s) && s.disp.InBlock? && s.disp.stage.Unspawned?
    ensures SpawnInv(DispatchStep(c, s, SpawnOk(shimPid)))
  {
    var t := DispatchStep(c, s, SpawnOk(shimPid));
    var item, queue := s.disp.item, s.disp.queue;
    forall i | 0 <= i < |queue| ensures ListedOk(t.rows, t.shims, queue[i]) {
      assert ListedOk(s.rows, s.shims, queue[i]);
      assert ([item] + queue)[0].id < ([item] + queue)[i + 1].id;
    }
  }

  lemma DispatcherKeepsSpawnInv(c: Config, s: State, a: DispatchAction)
    requires SpawnInv(s)
    ensures SpawnInv(DispatchStep(c, s, a))
  {
    var t := DispatchStep(c, s, a);
    match a
    case ListAccepted => FreshListIsOk(s.rows, s.shims, c.maxQueued);
    case Scan(now) => ScanKeepsSpawnInv(c, s, now);
    case SpawnOk(shimPid) =>
      if s.disp.InBlock? && s.disp.stage.Unspawned? { SpawnKeepsSpawnInv(c, s, shimPid); }
    case CommitDispatched(now) =>
      if s.disp.InBlock? && s.disp.stage.Spawned? {
        CommitIsForward(s.rows, s.disp.item.id, Dispatched(s.disp.stage.shimPid), now);
        QuietKeepsShims(s.rows, t.rows, s.shims, t.shims);
        QuietKeepsQueue(s.rows, t.rows, s.shims, t.shims, s.disp.queue);
      }
    case CommitSpawnError(now) =>
      if s.disp.InBlock? && s.disp.stage.SpawnFailed? {
        CommitIsForward(s.rows, s.disp.item.id, Complete(LaunchFailure(now)), now);
        if Live(s.rows, s.disp.item.id) {
          QuietKeepsShims(s.rows, t.rows, s.shims, t.shims);
          QuietKeepsQueue(s.rows, t.rows, s.shims, t.shims, s.disp.queue);
        }
      }
    case _ =>
  }

  lemma {:induction false} StepKeepsSpawnInv(c: Config, s: State, a: Action)
    requires SpawnInv(s)
    ensures SpawnInv(Step(c, s, a))
  {
    if a.Dispatcher? {
      DispatcherKeepsSpawnInv(c, s, a.d);
    } else {
      OthersKeepSpawnInv(c, s, a);
    }
  }

  lemma {:induction false} RunKeepsSpawnInv(c: Config, s: State, run: seq<Action>)
    requires SpawnInv(s)
    ensures SpawnInv(Exec(c, s, run))
    decreases |run|
  {
    if run != [] {
      StepKeepsSpawnInv(c, s, run[0]);
      RunKeepsSpawnInv(c, Step(c, s, run[0]), run[1..]);
    }
  }

  /** No row is ever given a second shim between two recoveries, races included. */
  lemma AtMostOneShim(c: Config, s: State, run: seq<Action>, i: nat, j: nat)
    requires Start(s)
    requires i < j < |Exec(c, s, run).shims|
    ensures Exec(c, s, run).shims[i].task != Exec(c, s, run).shims[j].task
  {
    RunKeepsSpawnInv(c, s, run);
  }
}
