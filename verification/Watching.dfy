/** The timed supervisor and the shim of the protocol are the same process: polls spread over a
    run, with any steps of other actors between them, leave the shim where the supervisor is. */
module Watching {
  import opened Types
  import opened Table
  import opened Completion
  import opened Protocol
  import opened Supervisor

  /** A poll at time `at`: steps of other actors before it, and those between its reading of the
      kill flag and the timeout it records at `now` if it comes at or after the wall time. */
  datatype Poll = Poll(before: seq<Action>, at: nat, between: seq<Action>, now: nat)

  /** No step of shim `k`. */
  predicate Spares(run: seq<Action>, k: nat) {
    forall i :: 0 <= i < |run| && run[i].ShimActs? ==> run[i].k != k
  }

  predicate PollsSpare(polls: seq<Poll>, k: nat) {
    forall i :: 0 <= i < |polls| ==> Spares(polls[i].before, k) && Spares(polls[i].between, k)
  }

  function PollEnd(c: Config, s: State, k: nat, poll: Poll, wall: nat): State {
    var read := Exec(c, Step(c, Exec(c, s, poll.before), ShimActs(k, PollFlag)), poll.between);
    if poll.at >= wall then Step(c, read, ShimActs(k, CommitTimeout(poll.now))) else read
  }

  function PollRun(k: nat, poll: Poll, wall: nat): seq<Action> {
    poll.before + [ShimActs(k, PollFlag)] + poll.between
    + if poll.at >= wall then [ShimActs(k, CommitTimeout(poll.now))] else []
  }

  function WatchEnd(c: Config, s: State, k: nat, polls: seq<Poll>, wall: nat): State {
    if polls == [] then s
    else PollEnd(c, WatchEnd(c, s, k, polls[..|polls| - 1], wall), k, polls[|polls| - 1], wall)
  }

  predicate FlagOf(s: State, k: nat) {
    k < |s.shims| && Live(s.rows, s.shims[k].task) && s.rows[s.shims[k].task].value.killRequested
  }

  /** The polls as the supervisor sees them: their times and the flags they read. */
  function Ticks(c: Config, s: State, k: nat, polls: seq<Poll>, wall: nat): (ticks: seq<Tick>)
    ensures |ticks| == |polls| && forall i :: 0 <= i < |polls| ==> ticks[i].at == polls[i].at
  {
    if polls == [] then []
    else
      var n := |polls| - 1;
      var flag := FlagOf(Exec(c, WatchEnd(c, s, k, polls[..n], wall), polls[n].before), k);
      Ticks(c, s, k, polls[..n], wall) + [Tick(polls[n].at, flag)]
  }

  lemma PollIsRun(c: Config, s: State, k: nat, poll: Poll, wall: nat)
    ensures PollEnd(c, s, k, poll, wall) == Exec(c, s, PollRun(k, poll, wall))
  {
    var flag, mark := ShimActs(k, PollFlag), ShimActs(k, CommitTimeout(poll.now));
    var met := Exec(c, s, poll.before);
    ExecSplits(c, s, poll.before, [flag]);
    ExecOne(c, met, flag);
    ExecSplits(c, s, poll.before + [flag], poll.between);
    var run := poll.before + [flag] + poll.between;
    if poll.at >= wall {
      ExecSplits(c, s, run, [mark]);
      ExecOne(c, Exec(c, s, run), mark);
    } else {
      assert run + [] == run;
    }
  }

  /** The end of the watch is the end of a run of the protocol. */
  lemma {:induction false} WatchIsRun(c: Config, s: State, k: nat, polls: seq<Poll>, wall: nat)
    returns (run: seq<Action>)
    ensures Exec(c, s, run) == WatchEnd(c, s, k, polls, wall)
    decreases |polls|
  {
    run := [];
    if polls != [] {
      var n := |polls| - 1;
      var first := WatchIsRun(c, s, k, polls[..n], wall);
      PollIsRun(c, Exec(c, s, first), k, polls[n], wall);
      ExecSplits(c, s, first, PollRun(k, polls[n], wall));
      run := first + PollRun(k, polls[n], wall);
    }
  }

  // ---- what other actors leave alone

  /** Shim k is where it was, and its row, if there at the end, was there at the start. */
  predicate Undisturbed(s: State, t: State, k: nat) {
    && k < |s.shims| && k < |t.shims| && t.shims[k].task == s.shims[k].task
    && (Live(t.rows, s.shims[k].task) ==> s.shims[k].task < |s.rows| ==> Live(s.rows, s.shims[k].task))
    && |s.rows| <= |t.rows|
  }

  lemma StepUndisturbed(c: Config, s: State, a: Action, k: nat)
    requires k < |s.shims|
    ensures Undisturbed(s, Step(c, s, a), k)
    ensures !(a.ShimActs? && a.k == k) ==> Step(c, s, a).shims[k] == s.shims[k]
  {
  }

  lemma {:induction false} OthersSpareShim(c: Config, s: State, run: seq<Action>, k: nat)
    requires k < |s.shims| && Spares(run, k)
    ensures Undisturbed(s, Exec(c, s, run), k)
    ensures Exec(c, s, run).shims[k] == s.shims[k]
    decreases |run|
  {
    if run != [] {
      StepUndisturbed(c, s, run[0], k);
      assert forall i :: 0 <= i < |run[1..]| ==> run[1..][i] == run[i + 1];
      OthersSpareShim(c, Step(c, s, run[0]), run[1..], k);
    }
  }

  // ---- the shim follows the supervisor

  predicate Supervised(s: State, k: nat) {
    k < |s.shims| && s.shims[k].pc.Supervising? && s.shims[k].task < |s.rows|
  }

  lemma FlagRead(c: Config, s: State, k: nat)
    requires Supervised(s, k) && Live(Step(c, s, ShimActs(k, PollFlag)).rows, s.shims[k].task)
    ensures var t, pc := Step(c, s, ShimActs(k, PollFlag)), s.shims[k].pc;
            && Undisturbed(s, t, k)
            && t.shims[k] == s.shims[k].(pc := Supervising(pc.timedOut, pc.cancelSeen || FlagOf(s, k)))
  {
    StepUndisturbed(c, s, ShimActs(k, PollFlag), k);
    ShimAfter(c, s, ShimActs(k, PollFlag), k);
  }

  lemma TimeoutCommitted(c: Config, s: State, k: nat, now: nat)
    requires Supervised(s, k) && Live(Step(c, s, ShimActs(k, CommitTimeout(now))).rows, s.shims[k].task)
    ensures var t, pc := Step(c, s, ShimActs(k, CommitTimeout(now))), s.shims[k].pc;
            && Undisturbed(s, t, k)
            && t.shims[k] == s.shims[k].(pc := Supervising(true, pc.cancelSeen))
  {
    StepUndisturbed(c, s, ShimActs(k, CommitTimeout(now)), k);
    ShimAfter(c, s, ShimActs(k, CommitTimeout(now)), k);
  }

  lemma UndisturbedTwice(s: State, t: State, u: State, k: nat)
    requires Undisturbed(s, t, k) && Undisturbed(t, u, k)
    requires k < |s.shims| && s.shims[k].task < |s.rows|
    ensures Undisturbed(s, u, k)
    ensures Live(u.rows, s.shims[k].task) ==> Live(t.rows, s.shims[k].task) && Live(s.rows, s.shims[k].task)
  {
  }

  /** One poll of a shim whose row is there moves it as the supervisor's tick does. */
  lemma PollMoves(c: Config, s: State, k: nat, poll: Poll, wall: nat)
    requires Supervised(s, k) && Spares(poll.before, k) && Spares(poll.between, k)
    requires Live(PollEnd(c, s, k, poll, wall).rows, s.shims[k].task)
    ensures var t, pc := PollEnd(c, s, k, poll, wall), s.shims[k].pc;
            && Undisturbed(s, t, k)
            && t.shims[k] == s.shims[k].(pc := Supervising(pc.timedOut || poll.at >= wall,
                                                           pc.cancelSeen || FlagOf(Exec(c, s, poll.before), k)))
  {
    var met := Exec(c, s, poll.before);
    var asked := Step(c, met, ShimActs(k, PollFlag));
    var read := Exec(c, asked, poll.between);
    OthersSpareShim(c, s, poll.before, k);
    StepUndisturbed(c, met, ShimActs(k, PollFlag), k);
    UndisturbedTwice(s, met, asked, k);
    OthersSpareShim(c, asked, poll.between, k);
    UndisturbedTwice(s, asked, read, k);
    if poll.at >= wall {
      StepUndisturbed(c, read, ShimActs(k, CommitTimeout(poll.now)), k);
      UndisturbedTwice(s, read, PollEnd(c, s, k, poll, wall), k);
    }
    FlagRead(c, met, k);
    if poll.at >= wall { TimeoutCommitted(c, read, k, poll.now); }
  }

  /** However other actors interleave, the shim's position after its polls is the supervisor's
      record of them: timed out when a poll came at or after the wall time, cancelled when one
      read the flag set. */
  lemma {:induction false} WatchFollowsSupervisor(c: Config, s: State, k: nat, polls: seq<Poll>, wall: nat)
    requires k < |s.shims| && s.shims[k].pc == Supervising(false, false) && s.shims[k].task < |s.rows|
    requires PollsSpare(polls, k)
    requires Live(WatchEnd(c, s, k, polls, wall).rows, s.shims[k].task)
    ensures var t := WatchEnd(c, s, k, polls, wall);
            var ticks := Ticks(c, s, k, polls, wall);
            && Undisturbed(s, t, k)
            && t.shims[k] == s.shims[k].(pc := Supervising(FirstFrom(ticks, wall).Some?, FirstFlag(ticks).Some?))
    decreases |polls|
  {
    if polls != [] {
      var n := |polls| - 1;
      var watched := WatchEnd(c, s, k, polls[..n], wall);
      StillThere(c, s, k, polls[..n], wall, polls[n]);
      WatchFollowsSupervisor(c, s, k, polls[..n], wall);
      PollMoves(c, watched, k, polls[n], wall);
      var ticks := Ticks(c, s, k, polls, wall);
      assert ticks[..n] == Ticks(c, s, k, polls[..n], wall);
    }
  }

  /** A row there after a further poll was there before it. */
  lemma StillThere(c: Config, s: State, k: nat, polls: seq<Poll>, wall: nat, next: Poll)
    requires k < |s.shims| && s.shims[k].task < |s.rows|
    requires Live(PollEnd(c, WatchEnd(c, s, k, polls, wall), k, next, wall).rows, s.shims[k].task)
    ensures Live(WatchEnd(c, s, k, polls, wall).rows, s.shims[k].task)
  {
    var run := WatchIsRun(c, s, k, polls, wall);
    var watched := Exec(c, s, run);
    PollIsRun(c, watched, k, next, wall);
    RunIsForward(c, s, run);
    RunIsForward(c, watched, PollRun(k, next, wall));
    var id := s.shims[k].task;
    assert Forward(watched.rows[id], Exec(c, watched, PollRun(k, next, wall)).rows[id]);
  }

  /** From a shim that is supervising: the read at exit, other actors, and the commit. */
  lemma ExitStores(c: Config, seen: State, k: nat, exit: Exit, others: seq<Action>, now: nat)
    requires Supervised(seen, k) && Spares(others, k)
    requires Live(Exec(c, Step(c, seen, ShimActs(k, ReadAtExit(exit))), others).rows, seen.shims[k].task)
    ensures var last := Exec(c, Step(c, seen, ShimActs(k, ReadAtExit(exit))), others);
            var task, pc := seen.shims[k].task, seen.shims[k].pc;
            Step(c, last, ShimActs(k, CommitCompletion(now))).rows[task] ==
              Some(Apply(last.rows[task].value,
                         Complete(Classify(exit, pc.timedOut, pc.cancelSeen || FlagOf(seen, k), now)), now))
  {
    var read := ShimActs(k, ReadAtExit(exit));
    var after := Step(c, seen, read);
    StepUndisturbed(c, seen, read, k);
    ShimAfter(c, seen, read, k);
    OthersSpareShim(c, after, others, k);
  }

  /** The row finally stores what SuperviseWait returns for the same polls, whatever other
      actors do between the polls, before the read at exit and before the commit. */
  lemma {:induction false} SupervisionIsStored(c: Config, s: State, k: nat, polls: seq<Poll>, wall: nat,
                            exit: Exit, atExit: seq<Action>, atCommit: seq<Action>, now: nat)
    requires k < |s.shims| && s.shims[k].pc == Supervising(false, false) && s.shims[k].task < |s.rows|
    requires PollsSpare(polls, k) && Spares(atExit, k) && Spares(atCommit, k)
    requires Live(WatchEnd(c, s, k, polls, wall).rows, s.shims[k].task)
    requires var seen := Exec(c, WatchEnd(c, s, k, polls, wall), atExit);
             Live(Exec(c, Step(c, seen, ShimActs(k, ReadAtExit(exit))), atCommit).rows, s.shims[k].task)
    ensures var seen := Exec(c, WatchEnd(c, s, k, polls, wall), atExit);
            var last := Exec(c, Step(c, seen, ShimActs(k, ReadAtExit(exit))), atCommit);
            var ticks, task := Ticks(c, s, k, polls, wall), s.shims[k].task;
            Step(c, last, ShimActs(k, CommitCompletion(now))).rows[task] ==
              Some(Apply(last.rows[task].value,
                         Complete(Classify(exit, FirstFrom(ticks, wall).Some?,
                                           FirstFlag(ticks).Some? || FlagOf(seen, k), now)), now))
  {
    var watched := WatchEnd(c, s, k, polls, wall);
    WatchFollowsSupervisor(c, s, k, polls, wall);
    OthersSpareShim(c, watched, atExit, k);
    ExitStores(c, Exec(c, watched, atExit), k, exit, atCommit, now);
  }

  /** Field by field what completing a row with the classified exit leaves. */
  predicate Tells(slot: Slot, exit: Exit, timedOut: bool, cancelled: bool, now: nat) {
    && slot.Some?
    && Reports(slot.value.status, slot.value.error, exit, timedOut, cancelled)
    && slot.value.exitCode == exit.exitCode && slot.value.exitSignal == exit.exitSignal
    && slot.value.durationMs == Some(exit.durationMs) && slot.value.finishedAt == Some(now)
    && !slot.value.Active()
  }

  lemma CompletionTells(row: Row, exit: Exit, timedOut: bool, cancelled: bool, now: nat)
    ensures var u := Classify(exit, timedOut, cancelled, now);
            Tells(Some(Apply(row, Complete(u), now)), exit, timedOut, cancelled, now)
  {
  }

  predicate SomePollLate(polls: seq<Poll>, wall: nat) {
    exists i :: 0 <= i < |polls| && polls[i].at >= wall
  }

  lemma LatePollTimesOut(c: Config, s: State, k: nat, polls: seq<Poll>, wall: nat)
    ensures FirstFrom(Ticks(c, s, k, polls, wall), wall).Some? <==> SomePollLate(polls, wall)
  {
    var ticks := Ticks(c, s, k, polls, wall);
    FirstFromExists(ticks, wall);
    if i :| 0 <= i < |ticks| && ticks[i].at >= wall { assert polls[i].at >= wall; }
    if i :| 0 <= i < |polls| && polls[i].at >= wall { assert ticks[i].at >= wall; }
  }

  /** What the row then says: the outcome that the times of the polls, the flags read and the exit
      call for, with the exit's own code, signal and duration, and nothing held any more. */
  lemma {:induction false} StoredOutcome(c: Config, s: State, k: nat, polls: seq<Poll>, wall: nat,
                                         exit: Exit, atExit: seq<Action>, atCommit: seq<Action>, now: nat)
    requires k < |s.shims| && s.shims[k].pc == Supervising(false, false) && s.shims[k].task < |s.rows|
    requires PollsSpare(polls, k) && Spares(atExit, k) && Spares(atCommit, k)
    requires Live(WatchEnd(c, s, k, polls, wall).rows, s.shims[k].task)
    requires var seen := Exec(c, WatchEnd(c, s, k, polls, wall), atExit);
             Live(Exec(c, Step(c, seen, ShimActs(k, ReadAtExit(exit))), atCommit).rows, s.shims[k].task)
    ensures var seen := Exec(c, WatchEnd(c, s, k, polls, wall), atExit);
            var last := Exec(c, Step(c, seen, ShimActs(k, ReadAtExit(exit))), atCommit);
            Tells(Step(c, last, ShimActs(k, CommitCompletion(now))).rows[s.shims[k].task], exit,
                  SomePollLate(polls, wall), FirstFlag(Ticks(c, s, k, polls, wall)).Some? || FlagOf(seen, k), now)
  {
    var seen := Exec(c, WatchEnd(c, s, k, polls, wall), atExit);
    var last := Exec(c, Step(c, seen, ShimActs(k, ReadAtExit(exit))), atCommit);
    SupervisionIsStored(c, s, k, polls, wall, exit, atExit, atCommit, now);
    LatePollTimesOut(c, s, k, polls, wall);
    CompletionTells(last.rows[s.shims[k].task].value, exit, SomePollLate(polls, wall),
                    FirstFlag(Ticks(c, s, k, polls, wall)).Some? || FlagOf(seen, k), now);
  }
}
