/** Limits of 2^64 - 1, which saturating counters never see exceeded: they hold all the same
    exactly when no two tasks can be reserved at once. */
module MaximalLimit {
  import opened Types
  import opened Ledger
  import opened Table
  import opened Dispatch
  import opened Drain
  import opened Protocol
  import opened SpawnOnce
  import opened LedgerSafety
  import opened Recovery
  import opened Admission
  import opened QueueBound

  // ---- one slot is enough

  predicate OneSlotEach(rows: seq<Slot>) {
    forall i :: 0 <= i < |rows| && rows[i].Some? && rows[i].value.Active() ==>
      rows[i].value.reservation.value.taskSlots == 1
  }

  lemma {:induction false} OneSlotBounds(rows: seq<Slot>, scope: Scope, d: Dim)
    requires OneSlotEach(rows) && Usage(rows, scope, Slots) <= 1
    ensures Usage(rows, scope, d) <= U64_MAX
    ensures Usage(rows, scope, Slots) == 0 ==> Usage(rows, scope, d) == 0
  {
    if rows != [] {
      OneSlotBounds(rows[..|rows| - 1], scope, d);
    }
  }

  /** Where a scope has at most one slot, its reservations never exceed 2^64 - 1 in any dimension. */
  lemma {:induction false} OneSlotIsSafe(c: Config, s: State, run: seq<Action>, scope: Scope, d: Dim)
    requires AdmissionInv(c, s) && s.disp.Idle?
    requires var slots := LimitOf(c.ledger, scope, Slots);
             slots.Some? && slots.value <= 1 && Usage(s.rows, scope, Slots) <= slots.value
    ensures Usage(Exec(c, s, run).rows, scope, d) <= U64_MAX
  {
    var t := Exec(c, s, run);
    LedgerIsSafe(c, s, run, scope, Slots);
    RunKeepsAdmission(c, s, run);
    assert OneSlotEach(t.rows) by {
      forall i | 0 <= i < |t.rows| && t.rows[i].Some? && t.rows[i].value.Active()
        ensures t.rows[i].value.reservation.value.taskSlots == 1
      {
        assert SlotAdmitted(c.ledger, t.rows[i]);
      }
    }
    OneSlotBounds(t.rows, scope, d);
  }

  // ---- two slots are too many

  /** A request for all of one dimension. */
  function Greedy(d: Dim): Submission {
    Submission("", None,
               Limits(1000, None, if d.Memory? then Some(U64_MAX) else None, if d.Pids? then Some(U64_MAX) else None),
               false)
  }

  function All(d: Dim): Reservation { FromLimits(Greedy(d).limits) }

  lemma GreedyIsAdmitted(c: Config, d: Dim)
    requires d != Slots && Level(c.ledger.capacity, d) == Some(U64_MAX) && c.ledger.capacity.taskSlots >= 1
    ensures Admitted(c.ledger, None, Greedy(d).limits)
  {
  }

  /** The dispatcher lists and reserves the oldest waiting row when it fits. */
  lemma ReserveOldest(c: Config, s: State) returns (run: seq<Action>)
    requires s.disp.Idle? && c.maxQueued >= 1 && Select(s.rows, IsAccepted) != []
    requires var row, held := Select(s.rows, IsAccepted)[0].row, ActiveHeld(s.rows);
             !row.killRequested && !row.Active() && Fits(c.ledger, held, held, Held(row.tenant, Wanted(row)))
    ensures var t, x := Exec(c, s, run), Select(s.rows, IsAccepted)[0];
            && t.rows == Commit(s.rows, x.id, Reserve(Wanted(x.row)), 0)
            && t.disp.InBlock? && t.disp.item == x && t.disp.stage.Unspawned?
  {
    var x, held := Select(s.rows, IsAccepted)[0], ActiveHeld(s.rows);
    SelectIsExact(s.rows, IsAccepted);
    assert x in Select(s.rows, IsAccepted);
    SnapshotTracks(c.ledger, s.rows);
    DecideIsExact(c.ledger, Snapshot(c.ledger, s.rows), held, held, x.row);
    var t;
    run, t := Then(c, s, [], s, Dispatcher(ListActive));
    run, t := Then(c, s, run, t, Dispatcher(ListAccepted));
    run, t := Then(c, s, run, t, Dispatcher(Scan(0)));
  }

  /** ... and then marks it dispatched. */
  lemma RunOldest(c: Config, s: State) returns (run: seq<Action>)
    requires s.disp.Idle? && c.maxQueued >= 1 && Select(s.rows, IsAccepted) != []
    requires var row, held := Select(s.rows, IsAccepted)[0].row, ActiveHeld(s.rows);
             !row.killRequested && !row.Active() && Fits(c.ledger, held, held, Held(row.tenant, Wanted(row)))
    ensures var t, x := Exec(c, s, run), Select(s.rows, IsAccepted)[0];
            && t.rows == Commit(Commit(s.rows, x.id, Reserve(Wanted(x.row)), 0), x.id, Dispatched(0), 0)
            && t.disp.Idle?
  {
    run := ReserveOldest(c, s);
    var t := Exec(c, s, run);
    run, t := Then(c, s, run, t, Dispatcher(SpawnOk(0)));
    run, t := Then(c, s, run, t, Dispatcher(CommitDispatched(0)));
    run, t := Then(c, s, run, t, Dispatcher(AbortCycle));
  }

  function Greedy0(d: Dim): Row { NewRow(Named(Greedy(d), 0), 0) }
  function Greedy1(d: Dim): Row { NewRow(Named(Greedy(d), 1), 0) }
  function Running0(d: Dim): Row { Apply(Apply(Greedy0(d), Reserve(All(d)), 0), Dispatched(0), 0) }

  lemma GreedyHasRoom(limit: Capacity, rs: seq<Reservation>, d: Dim, e: Dim)
    requires d != Slots && Level(limit, d) == Some(U64_MAX) && limit.taskSlots >= 2 && Total(rs, Slots) <= 1
    ensures Room(limit, rs, All(d), e)
  {
    match e
    case Slots =>
    case Memory =>
    case Pids =>
  }

  lemma GreedyFits(c: Config, d: Dim, held: seq<Held>)
    requires d != Slots && Level(c.ledger.capacity, d) == Some(U64_MAX) && c.ledger.capacity.taskSlots >= 2
    requires HeldUsage(held, Everyone, Slots) <= 1
    ensures Fits(c.ledger, held, held, Held(None, All(d)))
  {
    forall e: Dim ensures Room(c.ledger.capacity, Scoped(held, Everyone), All(d), e) {
      GreedyHasRoom(c.ledger.capacity, Scoped(held, Everyone), d, e);
    }
  }

  predicate TwoSlots(c: Config, d: Dim) {
    && d != Slots && Level(c.ledger.capacity, d) == Some(U64_MAX)
    && c.ledger.capacity.taskSlots >= 2 && c.maxQueued >= 1
  }

  lemma TwoWait(c: Config, d: Dim) returns (run: seq<Action>)
    requires TwoSlots(c, d)
    ensures Exec(c, Boot([], []), run) == Boot([Some(Greedy0(d)), Some(Greedy1(d))], [])
  {
    GreedyIsAdmitted(c, d);
    run := CheckAll(c, Greedy(d), 0, 2, 2);
    run := InsertAll(c, Greedy(d), run, 0, 2, 2);
    assert Filled(Greedy(d), 2) == [Some(Greedy0(d)), Some(Greedy1(d))];
    assert QueueState(Greedy(d), 2, 0).submitters == [];
  }

  lemma FirstRuns(c: Config, d: Dim, s: State) returns (run: seq<Action>)
    requires TwoSlots(c, d) && s.disp.Idle? && s.rows == [Some(Greedy0(d)), Some(Greedy1(d))]
    ensures Exec(c, s, run).rows == [Some(Running0(d)), Some(Greedy1(d))] && Exec(c, s, run).disp.Idle?
  {
    SelectTwo(Greedy0(d), Greedy1(d));
    UsageIsHeldUsage(s.rows, Everyone, Slots);
    GreedyFits(c, d, ActiveHeld(s.rows));
    run := RunOldest(c, s);
  }

  lemma SecondIsReserved(c: Config, d: Dim, s: State) returns (run: seq<Action>)
    requires TwoSlots(c, d) && s.disp.Idle? && s.rows == [Some(Running0(d)), Some(Greedy1(d))]
    ensures Exec(c, s, run).rows == [Some(Running0(d)), Some(Apply(Greedy1(d), Reserve(All(d)), 0))]
  {
    SelectTwo(Running0(d), Greedy1(d));
    UsageIsHeldUsage(s.rows, Everyone, Slots);
    GreedyFits(c, d, ActiveHeld(s.rows));
    run := ReserveOldest(c, s);
  }

  /** Two greedy tasks wait, then one runs, then the other is reserved next to it. */
  lemma TwoGreedy(c: Config, d: Dim) returns (run: seq<Action>)
    requires TwoSlots(c, d)
    ensures Exec(c, Boot([], []), run).rows == [Some(Running0(d)), Some(Apply(Greedy1(d), Reserve(All(d)), 0))]
  {
    var boot := Boot([], []);
    var first := TwoWait(c, d);
    var second := FirstRuns(c, d, Exec(c, boot, first));
    ExecSplits(c, boot, first, second);
    var third := SecondIsReserved(c, d, Exec(c, boot, first + second));
    ExecSplits(c, boot, first + second, third);
    run := first + second + third;
  }

  /** At the end of the run the exact sum of reservations is within 2^64 - 1. */
  predicate Representable(c: Config, run: seq<Action>, d: Dim) {
    Usage(Exec(c, Boot([], []), run).rows, Everyone, d) <= U64_MAX
  }

  /** A capacity of 2^64 - 1 in memory or processes holds in every run of a new server exactly
      when there is at most one slot. */
  lemma {:induction false} MaximalCapacityHolds(c: Config, d: Dim)
    requires d != Slots && Level(c.ledger.capacity, d) == Some(U64_MAX) && c.maxQueued >= 1
    ensures (forall run :: Representable(c, run, d)) <==> c.ledger.capacity.taskSlots <= 1
  {
    if c.ledger.capacity.taskSlots <= 1 {
      forall run ensures Representable(c, run, d) {
        OneSlotIsSafe(c, Boot([], []), run, Everyone, d);
      }
    } else {
      var run := TwoGreedy(c, d);
      SelectTwo(Running0(d), Apply(Greedy1(d), Reserve(All(d)), 0));
      assert !Representable(c, run, d);
    }
  }
}
