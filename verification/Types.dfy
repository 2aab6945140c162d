/** Row, reservation and status types of the runtime (src/types.rs, src/repo.rs). */
module Types {

  datatype Option<+T> = None | Some(value: T)

  datatype Result<+T, +E> = Ok(value: T) | Err(error: E)

  const U64_MAX: int := 0xFFFF_FFFF_FFFF_FFFF

  type U64 = x: int | 0 <= x <= 0xFFFF_FFFF_FFFF_FFFF

  function SatAdd(a: U64, b: U64): U64 {
    if a + b > U64_MAX then U64_MAX else a + b
  }

  function SatSub(a: U64, b: U64): U64 {
    if a < b then 0 else a - b
  }

  /** The u64 that a saturating computation of the natural number `n` ends with. */
  function Sat(n: nat): U64 {
    if n > U64_MAX then U64_MAX else n
  }

  datatype Limits = Limits(
    wallTimeMs: U64,
    cpuTimeSec: Option<U64>,
    memoryBytes: Option<U64>,
    pidsMax: Option<U64>)

  datatype Reservation = Reservation(taskSlots: U64, memoryBytes: Option<U64>, pids: Option<U64>)

  datatype Capacity = Capacity(taskSlots: U64, memoryBytes: Option<U64>, pids: Option<U64>)

  function FromLimits(limits: Limits): Reservation {
    Reservation(1, limits.memoryBytes, limits.pidsMax)
  }

  /** The reservation is what the limits ask for: one slot, the memory and the processes. */
  predicate AsksFor(r: Reservation, limits: Limits) {
    r.taskSlots == 1 && r.memoryBytes == limits.memoryBytes && r.pids == limits.pidsMax
  }

  /** The three accounted dimensions; slots are always capped and always requested. */
  datatype Dim = Slots | Memory | Pids

  function Request(r: Reservation, d: Dim): Option<U64> {
    match d
    case Slots => Some(r.taskSlots)
    case Memory => r.memoryBytes
    case Pids => r.pids
  }

  function Level(c: Capacity, d: Dim): Option<U64> {
    match d
    case Slots => Some(c.taskSlots)
    case Memory => c.memoryBytes
    case Pids => c.pids
  }

  function OrZero(o: Option<U64>): U64 {
    match o
    case None => 0
    case Some(v) => v
  }

  function Amount(r: Reservation, d: Dim): U64 {
    OrZero(Request(r, d))
  }

  datatype TaskStatus = Accepted | Running | Success | Failed | Cancelled {
    predicate IsTerminal() {
      Success? || Failed? || Cancelled?
    }
  }

  datatype ErrorCode =
    | LaunchFailed
    | Timeout
    | KillError
    | MemoryLimitExceeded
    | CpuLimitExceeded
    | SandboxSetupFailed
    | ExitNonZero
    | Internal

  datatype Event =
    | SubmittedEvent
    | AcceptedEvent
    | PlannedEvent
    | DegradedEvent
    | ReservedEvent(held: Reservation)
    | ReleasedEvent(freed: Reservation)
    | StartedEvent
    | KillRequestedEvent
    | TimeoutEvent
    | FinishedEvent
    | FailedEvent
    | CancelledEvent
    | RecoveredEvent

  /** One task row together with its own event stream (events cascade with the row). */
  datatype Row = Row(
    name: string,
    tenant: Option<string>,
    limits: Limits,
    degraded: bool,
    status: TaskStatus,
    updatedAt: nat,
    startedAt: Option<nat>,
    finishedAt: Option<nat>,
    durationMs: Option<U64>,
    shimPid: Option<nat>,
    pid: Option<nat>,
    exitCode: Option<int>,
    exitSignal: Option<int>,
    error: Option<ErrorCode>,
    killRequested: bool,
    killRequestedAt: Option<nat>,
    timeoutTriggered: bool,
    reservation: Option<Reservation>,
    reservedAt: Option<nat>,
    releasedAt: Option<nat>,
    log: seq<Event>)
  {
    predicate Active() {
      reservation.Some? && releasedAt.None?
    }
  }

  /** A table slot: `None` once garbage collection has deleted the row inserted there. */
  type Slot = Option<Row>

  datatype CompletionUpdate = CompletionUpdate(
    status: TaskStatus,
    finishedAt: nat,
    durationMs: Option<U64>,
    exitCode: Option<int>,
    exitSignal: Option<int>,
    error: Option<ErrorCode>)
}
