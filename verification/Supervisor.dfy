/** The timed supervisor of a workload (src/runtime.rs:1119-1183): one clock reading per tick,
    times in milliseconds since supervision began. */
module Supervisor {
  import opened Types
  import opened Completion

  /** A poll: its time and the kill flag it read. */
  datatype Tick = Tick(at: nat, flag: bool)

  datatype Effect = TimeoutMarked(at: nat) | TermSent(at: nat) | KillSent(at: nat)

  predicate InOrder(ticks: seq<Tick>) {
    forall i, j :: 0 <= i < j < |ticks| ==> ticks[i].at <= ticks[j].at
  }

  // ---- reference: when each thing happens

  /** Time of the first tick at or after `due`. */
  function FirstFrom(ticks: seq<Tick>, due: nat): (t: Option<nat>)
    ensures t.Some? ==> t.value >= due
  {
    if ticks == [] then None
    else
      var before := FirstFrom(ticks[..|ticks| - 1], due);
      var last := ticks[|ticks| - 1];
      if before.Some? then before
      else if last.at >= due then Some(last.at) else None
  }

  /** Time of the first tick that reads the flag set. */
  function FirstFlag(ticks: seq<Tick>): Option<nat> {
    if ticks == [] then None
    else
      var before := FirstFlag(ticks[..|ticks| - 1]);
      var last := ticks[|ticks| - 1];
      if before.Some? then before else if last.flag then Some(last.at) else None
  }

  function Earlier(a: Option<nat>, b: Option<nat>): Option<nat> {
    match (a, b)
    case (None, _) => b
    case (_, None) => a
    case (Some(x), Some(y)) => Some(if x <= y then x else y)
  }

  /** Termination begins at the earlier of the observed timeout and the observed cancel. */
  function TermTime(ticks: seq<Tick>, wall: nat): Option<nat> {
    Earlier(FirstFrom(ticks, wall), FirstFlag(ticks))
  }

  function KillTime(ticks: seq<Tick>, wall: nat, grace: nat): Option<nat> {
    match TermTime(ticks, wall)
    case None => None
    case Some(t) => FirstFrom(ticks, t + grace)
  }

  datatype Times = Times(timeout: Option<nat>, term: Option<nat>, kill: Option<nat>)

  /** What a trace of effects records; None if anything happens twice or KILL comes before TERM. */
  function Recorded(effects: seq<Effect>): Option<Times> {
    if effects == [] then Some(Times(None, None, None))
    else Record(Recorded(effects[..|effects| - 1]), effects[|effects| - 1])
  }

  function Record(before: Option<Times>, e: Effect): Option<Times> {
    match (before, e)
    case (None, _) => None
    case (Some(ts), TimeoutMarked(t)) => if ts.timeout.None? then Some(ts.(timeout := Some(t))) else None
    case (Some(ts), TermSent(t)) => if ts.term.None? && ts.kill.None? then Some(ts.(term := Some(t))) else None
    case (Some(ts), KillSent(t)) => if ts.kill.None? then Some(ts.(kill := Some(t))) else None
  }

  lemma RecordedAppend(effects: seq<Effect>, e: Effect)
    ensures Recorded(effects + [e]) == Record(Recorded(effects), e)
  {
  }

  /** The trace records what the polls call for. */
  predicate Follows(effects: seq<Effect>, ticks: seq<Tick>, wall: nat, grace: nat) {
    Recorded(effects) == Some(Times(FirstFrom(ticks, wall), TermTime(ticks, wall), KillTime(ticks, wall, grace)))
  }

  /** A recorded trace contains each event exactly at its recorded time, once, TERM before KILL. */
  lemma {:induction false} RecordedMeans(effects: seq<Effect>, i: nat)
    requires Recorded(effects).Some? && i < |effects|
    ensures var ts := Recorded(effects).value;
            match effects[i]
            case TimeoutMarked(t) =>
              ts.timeout == Some(t) && forall j :: i < j < |effects| ==> !effects[j].TimeoutMarked?
            case TermSent(t) => ts.term == Some(t) && forall j :: i < j < |effects| ==> !effects[j].TermSent?
            case KillSent(t) => ts.kill == Some(t) && forall j :: i < j < |effects| ==> effects[j].TimeoutMarked?
  {
    var n := |effects| - 1;
    if i < n {
      RecordedMeans(effects[..n], i);
      assert forall j :: 0 <= j < n ==> effects[..n][j] == effects[j];
    }
  }

  /** The supervisor's local variables. */
  datatype Watch = Watch(timeoutStarted: Option<nat>, cancelStarted: Option<nat>, termSent: bool, killSent: bool)

  /** One poll at `tick`; `times` is what has been recorded so far. */
  method OnTick(tick: Tick, wall: nat, grace: nat, w: Watch, effects: seq<Effect>, ghost times: Times)
    returns (w': Watch, effects': seq<Effect>)
    requires Recorded(effects) == Some(times) && times.timeout == w.timeoutStarted
    requires times.term == Earlier(w.timeoutStarted, w.cancelStarted)
    requires w.termSent == times.term.Some? && w.killSent == times.kill.Some?
    requires times.kill.Some? ==> times.term.Some?
    requires w.timeoutStarted.Some? ==> w.timeoutStarted.value <= tick.at
    requires w.cancelStarted.Some? ==> w.cancelStarted.value <= tick.at
    ensures w'.timeoutStarted ==
      if w.timeoutStarted.None? && tick.at >= wall then Some(tick.at) else w.timeoutStarted
    ensures w'.cancelStarted == if w.cancelStarted.None? && tick.flag then Some(tick.at) else w.cancelStarted
    ensures var term := if times.term.Some? then times.term
                        else if tick.at >= wall || tick.flag then Some(tick.at) else None;
            var kill := if times.kill.Some? then times.kill
                        else if term.Some? && tick.at >= term.value + grace then Some(tick.at) else None;
            && Recorded(effects') == Some(Times(w'.timeoutStarted, term, kill))
            && w'.termSent == term.Some? && w'.killSent == kill.Some?
  {
    w', effects' := w, effects;
    if w'.timeoutStarted.None? && tick.at >= wall {
      RecordedAppend(effects', TimeoutMarked(tick.at));
      effects' := effects' + [TimeoutMarked(tick.at)];
      w' := w'.(timeoutStarted := Some(tick.at));
    }
    if tick.flag && w'.cancelStarted.None? {
      w' := w'.(cancelStarted := Some(tick.at));
    }
    if (w'.timeoutStarted.Some? || w'.cancelStarted.Some?) && !w'.termSent {
      RecordedAppend(effects', TermSent(tick.at));
      effects' := effects' + [TermSent(tick.at)];
      w' := w'.(termSent := true);
    }
    var escalate := (w'.timeoutStarted.Some? && tick.at - w'.timeoutStarted.value >= grace)
                 || (w'.cancelStarted.Some? && tick.at - w'.cancelStarted.value >= grace);
    if escalate && !w'.killSent {
      RecordedAppend(effects', KillSent(tick.at));
      effects' := effects' + [KillSent(tick.at)];
      w' := w'.(killSent := true);
    }
  }

  /** Watches the workload through `ticks` until it exits. */
  method SuperviseWait(ticks: seq<Tick>, wall: nat, grace: nat, exit: Exit, flagAtExit: bool, now: nat)
    returns (completion: CompletionUpdate, effects: seq<Effect>)
    requires InOrder(ticks)
    ensures Follows(effects, ticks, wall, grace)
    ensures forall i :: 0 <= i < |effects| && effects[i].KillSent? ==> WaitedForGrace(ticks, wall, grace, effects, i)
    ensures completion == Classify(exit, FirstFrom(ticks, wall).Some?, FirstFlag(ticks).Some? || flagAtExit, now)
  {
    var w := Watch(None, None, false, false);
    effects := [];
    for i := 0 to |ticks|
      invariant w.timeoutStarted == FirstFrom(ticks[..i], wall)
      invariant w.cancelStarted == FirstFlag(ticks[..i])
      invariant w.termSent == TermTime(ticks[..i], wall).Some?
      invariant w.killSent == KillTime(ticks[..i], wall, grace).Some?
      invariant Recorded(effects) ==
                  Some(Times(w.timeoutStarted, TermTime(ticks[..i], wall), KillTime(ticks[..i], wall, grace)))
    {
      FirstFromNext(ticks, i, wall);
      TermNext(ticks, i, wall);
      KillNext(ticks, i, wall, grace);
      StartsArePast(ticks, i, wall);
      w, effects := OnTick(ticks[i], wall, grace, w, effects, Recorded(effects).value);
    }
    assert ticks[..|ticks|] == ticks;
    forall i | 0 <= i < |effects| && effects[i].KillSent? ensures WaitedForGrace(ticks, wall, grace, effects, i) {
      KillWaitsForGrace(ticks, wall, grace, effects, i);
    }
    completion := Classify(exit, w.timeoutStarted.Some?, w.cancelStarted.Some? || flagAtExit, now);
  }

  lemma FirstFromNext(ticks: seq<Tick>, i: nat, due: nat)
    requires i < |ticks|
    ensures FirstFrom(ticks[..i + 1], due) ==
      if FirstFrom(ticks[..i], due).Some? then FirstFrom(ticks[..i], due)
      else if ticks[i].at >= due then Some(ticks[i].at) else None
    ensures FirstFlag(ticks[..i + 1]) ==
      if FirstFlag(ticks[..i]).Some? then FirstFlag(ticks[..i])
      else if ticks[i].flag then Some(ticks[i].at) else None
  {
    assert ticks[..i + 1][..i] == ticks[..i];
  }

  lemma {:induction false} FirstIsPast(ticks: seq<Tick>, due: nat, t: nat)
    requires forall i :: 0 <= i < |ticks| ==> ticks[i].at <= t
    ensures FirstFrom(ticks, due).Some? ==> FirstFrom(ticks, due).value <= t
    ensures FirstFlag(ticks).Some? ==> FirstFlag(ticks).value <= t
  {
    if ticks != [] {
      FirstIsPast(ticks[..|ticks| - 1], due, t);
    }
  }

  lemma {:induction false} FirstFromExists(ticks: seq<Tick>, due: nat)
    ensures FirstFrom(ticks, due).Some? <==> exists i :: 0 <= i < |ticks| && ticks[i].at >= due
    ensures FirstFlag(ticks).Some? <==> exists i :: 0 <= i < |ticks| && ticks[i].flag
  {
    if ticks != [] {
      var n := |ticks| - 1;
      FirstFromExists(ticks[..n], due);
      assert forall i :: 0 <= i < n ==> ticks[..n][i] == ticks[i];
      if i :| 0 <= i < n && ticks[i].at >= due { assert ticks[..n][i].at >= due; }
      if i :| 0 <= i < n && ticks[i].flag { assert ticks[..n][i].flag; }
    }
  }

  lemma StartsArePast(ticks: seq<Tick>, i: nat, wall: nat)
    requires i < |ticks| && InOrder(ticks)
    ensures FirstFrom(ticks[..i], wall).Some? ==> FirstFrom(ticks[..i], wall).value <= ticks[i].at
    ensures FirstFlag(ticks[..i]).Some? ==> FirstFlag(ticks[..i]).value <= ticks[i].at
  {
    FirstIsPast(ticks[..i], wall, ticks[i].at);
  }

  lemma TermNext(ticks: seq<Tick>, i: nat, wall: nat)
    requires i < |ticks| && InOrder(ticks)
    ensures TermTime(ticks[..i + 1], wall) ==
      if TermTime(ticks[..i], wall).Some? then TermTime(ticks[..i], wall)
      else if ticks[i].at >= wall || ticks[i].flag then Some(ticks[i].at) else None
  {
    FirstFromNext(ticks, i, wall);
    StartsArePast(ticks, i, wall);
  }

  lemma KillNext(ticks: seq<Tick>, i: nat, wall: nat, grace: nat)
    requires i < |ticks| && InOrder(ticks)
    ensures KillTime(ticks[..i + 1], wall, grace) ==
      if KillTime(ticks[..i], wall, grace).Some? then KillTime(ticks[..i], wall, grace)
      else if TermTime(ticks[..i + 1], wall).Some? && ticks[i].at >= TermTime(ticks[..i + 1], wall).value + grace
      then Some(ticks[i].at) else None
  {
    TermNext(ticks, i, wall);
    var term := TermTime(ticks[..i + 1], wall);
    if term.Some? {
      var due := term.value + grace;
      FirstFromNext(ticks, i, due);
      if TermTime(ticks[..i], wall).None? && FirstFrom(ticks[..i], due).Some? {
        // an earlier tick at the very same time, without a grace period
        StartsArePast(ticks, i, due);
      }
    }
  }

  // ---- grace

  /** A poll that sees the wall time over or the kill flag set. */
  predicate Alarming(tick: Tick, wall: nat) { tick.at >= wall || tick.flag }

  predicate FirstAlarm(ticks: seq<Tick>, wall: nat, m: nat) {
    m < |ticks| && Alarming(ticks[m], wall) && forall j :: 0 <= j < m ==> !Alarming(ticks[j], wall)
  }

  /** Effect `i` comes a grace period or more after the first alarming poll, at which TERM was sent. */
  predicate WaitedForGrace(ticks: seq<Tick>, wall: nat, grace: nat, effects: seq<Effect>, i: nat)
    requires i < |effects|
  {
    exists m :: 0 <= m < |ticks| && FirstAlarm(ticks, wall, m) && ticks[m].at + grace <= effects[i].at
               && TermSent(ticks[m].at) in effects[..i]
  }

  lemma {:induction false} NoAlarmYet(ticks: seq<Tick>, wall: nat)
    requires InOrder(ticks) && TermTime(ticks, wall).None?
    ensures forall j :: 0 <= j < |ticks| ==> !Alarming(ticks[j], wall)
  {
    if ticks != [] {
      var n := |ticks| - 1;
      assert ticks[..n + 1] == ticks;
      TermNext(ticks, n, wall);
      NoAlarmYet(ticks[..n], wall);
      assert forall j :: 0 <= j < n ==> ticks[..n][j] == ticks[j];
    }
  }

  /** TERM is sent at the first alarming poll. */
  lemma {:induction false} TermIsFirstAlarm(ticks: seq<Tick>, wall: nat) returns (m: nat)
    requires InOrder(ticks) && TermTime(ticks, wall).Some?
    ensures FirstAlarm(ticks, wall, m) && TermTime(ticks, wall) == Some(ticks[m].at)
  {
    var n := |ticks| - 1;
    assert ticks[..n + 1] == ticks;
    assert forall j :: 0 <= j < n ==> ticks[..n][j] == ticks[j];
    TermNext(ticks, n, wall);
    if TermTime(ticks[..n], wall).Some? {
      m := TermIsFirstAlarm(ticks[..n], wall);
    } else {
      NoAlarmYet(ticks[..n], wall);
      m := n;
    }
  }

  lemma {:induction false} RecordedTermIsSent(effects: seq<Effect>) returns (j: nat)
    requires Recorded(effects).Some? && Recorded(effects).value.term.Some?
    ensures j < |effects| && effects[j] == TermSent(Recorded(effects).value.term.value)
  {
    var n := |effects| - 1;
    if effects[n].TermSent? { j := n; } else { j := RecordedTermIsSent(effects[..n]); }
  }

  lemma {:induction false} RecordedKillIsSent(effects: seq<Effect>) returns (j: nat)
    requires Recorded(effects).Some? && Recorded(effects).value.kill.Some?
    ensures j < |effects| && effects[j] == KillSent(Recorded(effects).value.kill.value)
  {
    var n := |effects| - 1;
    if effects[n].KillSent? { j := n; } else { j := RecordedKillIsSent(effects[..n]); }
  }

  /** No KILL in the trace earlier than the grace period after the first poll that observed the
      timeout or the cancel, and none without the TERM sent at that poll. */
  lemma KillWaitsForGrace(ticks: seq<Tick>, wall: nat, grace: nat, effects: seq<Effect>, i: nat)
    requires InOrder(ticks) && Follows(effects, ticks, wall, grace)
    requires i < |effects| && effects[i].KillSent?
    ensures WaitedForGrace(ticks, wall, grace, effects, i)
  {
    RecordedMeans(effects, i);
    var m := TermIsFirstAlarm(ticks, wall);
    var j := RecordedTermIsSent(effects);
    assert j < i && effects[..i][j] == TermSent(ticks[m].at);
  }

  // ---- deadlines

  /** Polls come at most `d` apart, the first within `d` of the start. */
  predicate Gaps(ticks: seq<Tick>, d: nat) {
    && InOrder(ticks)
    && (ticks != [] ==> ticks[0].at <= d)
    && forall i :: 0 <= i < |ticks| - 1 ==> ticks[i + 1].at <= ticks[i].at + d
  }

  /** The workload was still there at a poll at or after time `t`. */
  predicate AliveAt(ticks: seq<Tick>, t: nat) {
    ticks != [] && ticks[|ticks| - 1].at >= t
  }

  lemma {:induction false} NoneBefore(ticks: seq<Tick>, due: nat)
    requires forall i :: 0 <= i < |ticks| ==> ticks[i].at < due
    ensures FirstFrom(ticks, due).None?
  {
    if ticks != [] {
      NoneBefore(ticks[..|ticks| - 1], due);
    }
  }

  lemma {:induction false} FirstWithin(ticks: seq<Tick>, due: nat, d: nat)
    requires Gaps(ticks, d) && AliveAt(ticks, due)
    ensures FirstFrom(ticks, due).Some? && FirstFrom(ticks, due).value <= due + d
  {
    var n := |ticks| - 1;
    if n > 0 && ticks[n - 1].at >= due {
      FirstWithin(ticks[..n], due, d);
    } else if n > 0 {
      assert forall i :: 0 <= i < n ==> ticks[..n][i].at <= ticks[n - 1].at;
      NoneBefore(ticks[..n], due);
      assert ticks[(n - 1) + 1].at <= ticks[n - 1].at + d;
    }
  }

  lemma TimeoutTimes(ticks: seq<Tick>, wall: nat, grace: nat, d: nat)
    requires Gaps(ticks, d) && AliveAt(ticks, wall)
    ensures TermTime(ticks, wall).Some? && TermTime(ticks, wall).value <= wall + d
    ensures AliveAt(ticks, wall + d + grace) ==>
              KillTime(ticks, wall, grace).Some? && KillTime(ticks, wall, grace).value <= wall + grace + 2 * d
  {
    FirstWithin(ticks, wall, d);
    if AliveAt(ticks, wall + d + grace) {
      FirstWithin(ticks, TermTime(ticks, wall).value + grace, d);
    }
  }

  /** The kill flag commits at time `c` and is never cleared. */
  predicate FlagFrom(ticks: seq<Tick>, c: nat) {
    forall i :: 0 <= i < |ticks| ==> (ticks[i].flag <==> ticks[i].at >= c)
  }

  lemma {:induction false} FlagIsFirstFrom(ticks: seq<Tick>, c: nat)
    requires FlagFrom(ticks, c)
    ensures FirstFlag(ticks) == FirstFrom(ticks, c)
  {
    if ticks != [] {
      FlagIsFirstFrom(ticks[..|ticks| - 1], c);
    }
  }

  lemma CancelTimes(ticks: seq<Tick>, wall: nat, grace: nat, d: nat, c: nat)
    requires Gaps(ticks, d) && FlagFrom(ticks, c) && AliveAt(ticks, c)
    ensures TermTime(ticks, wall).Some? && TermTime(ticks, wall).value <= c + d
    ensures AliveAt(ticks, c + d + grace) ==>
              KillTime(ticks, wall, grace).Some? && KillTime(ticks, wall, grace).value <= c + grace + 2 * d
  {
    FlagIsFirstFrom(ticks, c);
    FirstWithin(ticks, c, d);
    if AliveAt(ticks, c + d + grace) {
      FirstWithin(ticks, TermTime(ticks, wall).value + grace, d);
    }
  }

  predicate TermBy(effects: seq<Effect>, t: nat) {
    exists j :: 0 <= j < |effects| && effects[j].TermSent? && effects[j].at <= t
  }

  predicate KillBy(effects: seq<Effect>, t: nat) {
    exists j :: 0 <= j < |effects| && effects[j].KillSent? && effects[j].at <= t
  }

  /** Signals are sent by the times the polls call for. */
  lemma SignalsFollow(effects: seq<Effect>, ticks: seq<Tick>, wall: nat, grace: nat)
    requires Follows(effects, ticks, wall, grace)
    ensures TermTime(ticks, wall).Some? ==> TermBy(effects, TermTime(ticks, wall).value)
    ensures KillTime(ticks, wall, grace).Some? ==> KillBy(effects, KillTime(ticks, wall, grace).value)
  {
    if TermTime(ticks, wall).Some? { var j := RecordedTermIsSent(effects); }
    if KillTime(ticks, wall, grace).Some? { var j := RecordedKillIsSent(effects); }
  }

  lemma LaterIsFine(effects: seq<Effect>, t: nat, u: nat)
    requires t <= u
    ensures TermBy(effects, t) ==> TermBy(effects, u)
    ensures KillBy(effects, t) ==> KillBy(effects, u)
  {
  }

  /** Running over the wall time: TERM is sent by wall + d, KILL by wall + grace + 2d. */
  lemma TimeoutDeadlines(effects: seq<Effect>, ticks: seq<Tick>, wall: nat, grace: nat, d: nat)
    requires Follows(effects, ticks, wall, grace) && Gaps(ticks, d) && AliveAt(ticks, wall)
    ensures TermBy(effects, wall + d)
    ensures AliveAt(ticks, wall + d + grace) ==> KillBy(effects, wall + grace + 2 * d)
  {
    TimeoutTimes(ticks, wall, grace, d);
    SignalsFollow(effects, ticks, wall, grace);
    LaterIsFine(effects, TermTime(ticks, wall).value, wall + d);
    if AliveAt(ticks, wall + d + grace) {
      LaterIsFine(effects, KillTime(ticks, wall, grace).value, wall + grace + 2 * d);
    }
  }

  /** Killed at time c: TERM is sent by c + d, KILL by c + grace + 2d. */
  lemma CancelDeadlines(effects: seq<Effect>, ticks: seq<Tick>, wall: nat, grace: nat, d: nat, c: nat)
    requires Follows(effects, ticks, wall, grace) && Gaps(ticks, d) && FlagFrom(ticks, c) && AliveAt(ticks, c)
    ensures TermBy(effects, c + d)
    ensures AliveAt(ticks, c + d + grace) ==> KillBy(effects, c + grace + 2 * d)
  {
    CancelTimes(ticks, wall, grace, d, c);
    SignalsFollow(effects, ticks, wall, grace);
    LaterIsFine(effects, TermTime(ticks, wall).value, c + d);
    if AliveAt(ticks, c + d + grace) {
      LaterIsFine(effects, KillTime(ticks, wall, grace).value, c + grace + 2 * d);
    }
  }
}
