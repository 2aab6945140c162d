/** How far the queue can overshoot its limit: the count check and the insert are two steps. */
module QueueBound {
  import opened Types
  import opened Table
  import opened Drain
  import opened Protocol
  import opened Recovery

  /** At most `k` submitters are ever between their check and their insert. */
  predicate FlightAtMost(c: Config, s: State, run: seq<Action>, k: nat)
    decreases |run|
  {
    && |s.submitters| <= k
    && (run != [] ==> FlightAtMost(c, Step(c, s, run[0]), run[1..], k))
  }

  lemma {:induction false} ForwardAccepted(rows: seq<Slot>, after: seq<Slot>)
    requires |rows| == |after| && forall i :: 0 <= i < |rows| ==> Forward(rows[i], after[i])
    ensures AcceptedCount(after) <= AcceptedCount(rows)
    decreases |rows|
  {
    if rows != [] {
      var n := |rows| - 1;
      assert Forward(rows[n], after[n]);
      ForwardAccepted(rows[..n], after[..n]);
    }
  }

  predicate Bounded(c: Config, s: State, k: nat) {
    AcceptedCount(s.rows) + |s.submitters| < c.maxQueued + k
  }

  lemma StepKeepsQueueBound(c: Config, s: State, a: Action, k: nat)
    requires Bounded(c, s, k) && |Step(c, s, a).submitters| <= k
    ensures Bounded(c, Step(c, s, a), k)
  {
    var t := Step(c, s, a);
    StepIsForward(c, s, a);
    match a
    case SubmitInsert(i, now) =>
      if |t.rows| > |s.rows| {
        assert t.rows[..|t.rows| - 1] == s.rows;
      }
    case SubmitCheck(_) =>
    case _ =>
      OnlyInsertGrows(c, s, a);
      ForwardAccepted(s.rows, t.rows);
  }

  lemma OnlyInsertGrows(c: Config, s: State, a: Action)
    requires !a.SubmitInsert?
    ensures |Step(c, s, a).rows| == |s.rows|
    ensures a.SubmitCheck? || |Step(c, s, a).submitters| <= |s.submitters|
  {
  }

  /** With at most k >= 1 submitters in flight the queue stays below max_queued + k. */
  lemma {:induction false} QueueStaysBounded(c: Config, s: State, run: seq<Action>, k: nat)
    requires k >= 1 && Bounded(c, s, k) && FlightAtMost(c, s, run, k)
    ensures Bounded(c, Exec(c, s, run), k)
    ensures AcceptedCount(Exec(c, s, run).rows) <= c.maxQueued + k - 1
    decreases |run|
  {
    if run != [] {
      StepKeepsQueueBound(c, s, run[0], k);
      QueueStaysBounded(c, Step(c, s, run[0]), run[1..], k);
    }
  }

  /** With one submitter at a time the dispatcher's window is the whole accepted queue. */
  lemma WindowCoversQueue(c: Config, s: State, run: seq<Action>)
    requires Bounded(c, s, 1) && FlightAtMost(c, s, run, 1)
    ensures var rows := Exec(c, s, run).rows;
            Take(Select(rows, IsAccepted), c.maxQueued) == Select(rows, IsAccepted)
  {
    QueueStaysBounded(c, s, run, 1);
    AcceptedCountIsListLength(Exec(c, s, run).rows);
    TakeAll(Select(Exec(c, s, run).rows, IsAccepted), c.maxQueued);
  }

  // ---- the bound is attained

  function Named(request: Submission, i: nat): Submission {
    request.(name := seq(i, _ => 'a'))
  }

  function Filled(request: Submission, n: nat): seq<Slot> {
    seq(n, i requires 0 <= i < n => Some(NewRow(Named(request, i), 0)))
  }

  /** `n` tasks wait and the next `m` submitters have passed the check. */
  function QueueState(request: Submission, n: nat, m: nat): State {
    Boot(Filled(request, n), []).(submitters := seq(m, i requires 0 <= i < m => Named(request, n + i)))
  }

  lemma {:induction false} FilledCount(request: Submission, n: nat)
    ensures AcceptedCount(Filled(request, n)) == n
  {
    if n > 0 {
      FilledCount(request, n - 1);
      assert Filled(request, n)[..n - 1] == Filled(request, n - 1);
    }
  }

  lemma CheckPasses(c: Config, request: Submission, n: nat, m: nat)
    requires n < c.maxQueued && Admitted(c.ledger, request.tenant, request.limits)
    ensures Step(c, QueueState(request, n, m), SubmitCheck(Named(request, n + m))) == QueueState(request, n, m + 1)
  {
    FilledCount(request, n);
    assert QueueState(request, n, m).submitters + [Named(request, n + m)] == QueueState(request, n, m + 1).submitters;
  }

  lemma InsertPasses(c: Config, request: Submission, n: nat, m: nat)
    requires m > 0
    ensures Step(c, QueueState(request, n, m), SubmitInsert(0, 0)) == QueueState(request, n + 1, m - 1)
  {
    var s, t := QueueState(request, n, m), QueueState(request, n + 1, m - 1);
    forall i | 0 <= i < n ensures s.rows[i].value.name != Named(request, n).name {
      assert |s.rows[i].value.name| == i;
    }
    assert !NameTaken(s.rows, s.submitters[0].name);
    assert s.submitters[..0] + s.submitters[1..] == t.submitters;
    assert s.rows + [Some(NewRow(s.submitters[0], 0))] == t.rows;
  }

  lemma {:induction false} FlightExtends(c: Config, s: State, run: seq<Action>, a: Action, k: nat)
    requires FlightAtMost(c, s, run, k) && |Step(c, Exec(c, s, run), a).submitters| <= k
    ensures FlightAtMost(c, s, run + [a], k)
    decreases |run|
  {
    if run == [] {
      assert [a][1..] == [] && [] + [a] == [a];
    } else {
      assert (run + [a])[1..] == run[1..] + [a];
      FlightExtends(c, Step(c, s, run[0]), run[1..], a, k);
    }
  }

  /** A run of a new server to that state with at most `k` submitters in flight. */
  predicate Reached(c: Config, request: Submission, run: seq<Action>, n: nat, m: nat, k: nat) {
    Exec(c, Boot([], []), run) == QueueState(request, n, m) && FlightAtMost(c, Boot([], []), run, k)
  }

  lemma CheckMore(c: Config, request: Submission, run: seq<Action>, n: nat, m: nat, k: nat) returns (more: seq<Action>)
    requires Reached(c, request, run, n, m, k) && m < k
    requires n < c.maxQueued && Admitted(c.ledger, request.tenant, request.limits)
    ensures Reached(c, request, more, n, m + 1, k)
  {
    CheckPasses(c, request, n, m);
    FlightExtends(c, Boot([], []), run, SubmitCheck(Named(request, n + m)), k);
    var s;
    more, s := Then(c, Boot([], []), run, QueueState(request, n, m), SubmitCheck(Named(request, n + m)));
  }

  lemma InsertMore(c: Config, request: Submission, run: seq<Action>, n: nat, m: nat, k: nat) returns (more: seq<Action>)
    requires Reached(c, request, run, n, m, k) && 0 < m <= k
    ensures Reached(c, request, more, n + 1, m - 1, k)
  {
    InsertPasses(c, request, n, m);
    FlightExtends(c, Boot([], []), run, SubmitInsert(0, 0), k);
    var s;
    more, s := Then(c, Boot([], []), run, QueueState(request, n, m), SubmitInsert(0, 0));
  }

  lemma {:induction false} Fill(c: Config, request: Submission, n: nat, k: nat) returns (run: seq<Action>)
    requires n <= c.maxQueued && k >= 1 && Admitted(c.ledger, request.tenant, request.limits)
    ensures Reached(c, request, run, n, 0, k)
  {
    run := [];
    if n > 0 {
      run := Fill(c, request, n - 1, k);
      run := CheckMore(c, request, run, n - 1, 0, k);
      run := InsertMore(c, request, run, n - 1, 1, k);
    }
  }

  lemma {:induction false} CheckAll(c: Config, request: Submission, n: nat, m: nat, k: nat) returns (run: seq<Action>)
    requires n < c.maxQueued && m <= k && k >= 1 && Admitted(c.ledger, request.tenant, request.limits)
    ensures Reached(c, request, run, n, m, k)
  {
    if m == 0 {
      run := Fill(c, request, n, k);
    } else {
      run := CheckAll(c, request, n, m - 1, k);
      run := CheckMore(c, request, run, n, m - 1, k);
    }
  }

  lemma {:induction false} InsertAll(c: Config, request: Submission, run0: seq<Action>, n: nat, m: nat, k: nat)
    returns (run: seq<Action>)
    requires Reached(c, request, run0, n, m, k) && m <= k
    ensures Reached(c, request, run, n + m, 0, k)
    decreases m
  {
    if m == 0 {
      run := run0;
    } else {
      run := InsertMore(c, request, run0, n, m, k);
      run := InsertAll(c, request, run, n + 1, m - 1, k);
    }
  }

  /** Every configuration that admits some request attains the bound for every k >= 1: the queue
      filled up to one place, k checks pass before the first of their inserts. */
  lemma {:induction false} QueueBoundIsTight(c: Config, request: Submission, k: nat) returns (run: seq<Action>)
    requires k >= 1 && c.maxQueued >= 1 && Admitted(c.ledger, request.tenant, request.limits)
    ensures FlightAtMost(c, Boot([], []), run, k)
    ensures AcceptedCount(Exec(c, Boot([], []), run).rows) == c.maxQueued + k - 1
  {
    run := CheckAll(c, request, c.maxQueued - 1, k, k);
    run := InsertAll(c, request, run, c.maxQueued - 1, k, k);
    FilledCount(request, c.maxQueued - 1 + k);
  }
}
