/** How the end of a workload is turned into a stored outcome (src/runtime.rs:1196-1293). */
module Completion {
  import opened Types

  const SIGXCPU: int := 24

  datatype Exit = Exit(exitCode: Option<int>, exitSignal: Option<int>, oomKilled: bool, durationMs: U64)

  function Outcome(exit: Exit, timedOut: bool, cancelled: bool): (TaskStatus, Option<ErrorCode>) {
    if timedOut then (Failed, Some(Timeout))
    else if cancelled then (Cancelled, Some(KillError))
    else if exit.oomKilled then (Failed, Some(MemoryLimitExceeded))
    else if exit.exitSignal == Some(SIGXCPU) then (Failed, Some(CpuLimitExceeded))
    else if exit.exitCode == Some(0) then (Success, None)
    else if exit.exitCode.Some? then (Failed, Some(ExitNonZero))
    else (Failed, Some(Internal))
  }

  /** A stored status and error, code by code, with the order of precedence: timeout, cancellation,
      memory, processor time, exit code, anything else. */
  predicate Reports(status: TaskStatus, error: Option<ErrorCode>, exit: Exit, timedOut: bool, cancelled: bool) {
    var ended := !timedOut && !cancelled && !exit.oomKilled && exit.exitSignal != Some(24);
    && (error == Some(Timeout) <==> timedOut)
    && (error == Some(KillError) <==> cancelled && !timedOut)
    && (error == Some(MemoryLimitExceeded) <==> exit.oomKilled && !timedOut && !cancelled)
    && (error == Some(CpuLimitExceeded) <==> exit.exitSignal == Some(24) && !exit.oomKilled && !timedOut && !cancelled)
    && (error == Some(ExitNonZero) <==> ended && exit.exitCode.Some? && exit.exitCode.value != 0)
    && (error == Some(Internal) <==> ended && exit.exitCode.None?)
    && (error == None <==> ended && exit.exitCode == Some(0))
    && (status.Success? <==> error.None?)
    && (status.Cancelled? <==> error == Some(KillError))
    && status.IsTerminal()
  }

  function Classify(exit: Exit, timedOut: bool, cancelled: bool, now: nat): (u: CompletionUpdate)
    ensures Reports(u.status, u.error, exit, timedOut, cancelled)
    ensures u.exitCode == exit.exitCode && u.exitSignal == exit.exitSignal && u.durationMs == Some(exit.durationMs)
    ensures u.finishedAt == now
  {
    var (status, error) := Outcome(exit, timedOut, cancelled);
    CompletionUpdate(status, now, Some(exit.durationMs), exit.exitCode, exit.exitSignal, error)
  }
}
