/** The bounded retry loop that writes a dependency recovery receipt (prepare)
    and its agreement with the auditor. */
module RecoveryProducer {
  import opened Wrappers
  import opened Ordering
  import opened RecoveryClassifier
  import opened RecoveryProtocol
  import opened RecoveryAudit

  /** A preparation: how outputs are judged, and how the surroundings behave at
      each attempt. `ready` stands for the open lease, unchanged binding and
      sources and, for retries, the authorisation by frozen main; `intact` for
      sources unchanged by the process; `closing` for the final binding and
      lease checks. */
  datatype Setting = Setting(
    kit: Kit, policy: Policy, executor: (nat, seq<string>) -> Output,
    ready: nat -> bool, intact: nat -> bool, closing: nat -> bool,
    started: nat -> int, completed: nat -> int)

  /** What one pass through the retry loop comes to: blocked, perhaps after the
      process ran; some modules lost and asked for again; or all downloaded. */
  datatype Pass =
    | Stopped(ran: Option<(Row, Output)>)
    | Lost(row: Row, output: Output, next: seq<string>)
    | Finished(row: Row, output: Output)

  function RowFor(s: Setting, k: nat, requested: seq<string>, o: Output, failures: Option<Failures>): Row {
    Row(k, requested, o.code, Stdout(k), Stderr(k), s.kit.digest(o.stdout), s.kit.digest(o.stderr),
        s.started(k), s.completed(k), failures)
  }

  predicate FitsLimit(s: Setting, o: Output) {
    |o.stdout| <= s.policy.maxOutputBytes && |o.stderr| <= s.policy.maxOutputBytes
  }

  /** The body of the loop at attempt `k`. */
  function Attempt(s: Setting, k: nat, requested: seq<string>): Pass {
    var o := s.executor(k, requested);
    if !s.ready(k) || !FitsLimit(s, o) then Stopped(None)
    else if !s.intact(k) || o.code == TIMED_OUT then Stopped(Some((RowFor(s, k, requested, o, None), o)))
    else
      var failed := s.kit.results(o, requested);
      if failed.None? then Stopped(Some((RowFor(s, k, requested, o, None), o)))
      else
        var row := RowFor(s, k, requested, o, Some(failed.value));
        if failed.value != map[] then Pass.Lost(row, o, s.kit.order(failed.value.Keys))
        else if s.closing(k) then Finished(row, o)
        else Stopped(Some((row, o)))
  }

  type Attempts = (nat, seq<string>) -> Pass

  // ---------------------------------------------------------------- the loop

  /** What attempt `k` asks for: everything, or the losses of attempt k - 1. */
  function RequestOf(attempt: Attempts, all: seq<string>, k: nat): seq<string>
    requires k >= 1
  {
    if k == 1 then all
    else
      var before := attempt(k - 1, RequestOf(attempt, all, k - 1));
      if before.Lost? then before.next else []
  }

  function PassAt(attempt: Attempts, all: seq<string>, k: nat): Pass
    requires k >= 1
  {
    attempt(k, RequestOf(attempt, all, k))
  }

  /** Every attempt before `k` lost something. */
  ghost predicate LostBefore(attempt: Attempts, all: seq<string>, k: nat) {
    forall j :: 1 <= j < k ==> PassAt(attempt, all, j).Lost?
  }

  /** The preparation succeeds at attempt `n`, losing modules until then. */
  ghost predicate CompletesAt(attempt: Attempts, all: seq<string>, n: nat) {
    n >= 1 && LostBefore(attempt, all, n) && PassAt(attempt, all, n).Finished?
  }

  function RowsTo(attempt: Attempts, all: seq<string>, n: nat): seq<Row> {
    if n == 0 then []
    else
      var p := PassAt(attempt, all, n);
      RowsTo(attempt, all, n - 1) + if p.Stopped? then [] else [p.row]
  }

  function WithLogs(logs: Logs, k: nat, o: Output): Logs { logs[Stdout(k) := o.stdout][Stderr(k) := o.stderr] }

  function LogsTo(attempt: Attempts, all: seq<string>, n: nat): Logs {
    if n == 0 then map[]
    else
      var p := PassAt(attempt, all, n);
      if p.Stopped? then LogsTo(attempt, all, n - 1) else WithLogs(LogsTo(attempt, all, n - 1), n, p.output)
  }

  /** What a blocked preparation retains: the first `n` attempts, all of which
      lost something, and what ran of the attempt that stopped it, if any did. */
  ghost predicate Evidence(attempt: Attempts, all: seq<string>, n: nat, maxAttempts: nat, rows: seq<Row>, logs: Logs) {
    if n == maxAttempts then rows == RowsTo(attempt, all, n) && logs == LogsTo(attempt, all, n)
    else
      var p := PassAt(attempt, all, n + 1);
      && p.Stopped?
      && rows == RowsTo(attempt, all, n) + (if p.ran.Some? then [p.ran.value.0] else [])
      && logs == if p.ran.Some? then WithLogs(LogsTo(attempt, all, n), n + 1, p.ran.value.1) else LogsTo(attempt, all, n)
  }

  lemma CompletionUnique(attempt: Attempts, all: seq<string>, m: nat, n: nat)
    requires CompletesAt(attempt, all, m) && CompletesAt(attempt, all, n)
    ensures m == n
  {
  }

  /** prepare, for any loop body and attempt budget: it ends READY or RECOVERED
      exactly when some attempt within the budget completes it, and then receipt
      and logs are those of that many attempts; every other exit is BLOCKED and
      keeps the evidence gathered until then. */
  method Prepare(attempt: Attempts, all: seq<string>, maxAttempts: nat) returns (report: Report, logs: Logs)
    ensures report.state != BLOCKED <==> exists n: nat :: n <= maxAttempts && CompletesAt(attempt, all, n)
    ensures forall n: nat :: n <= maxAttempts && CompletesAt(attempt, all, n) ==>
      report == Report(ExpectedState(n), RowsTo(attempt, all, n)) && logs == LogsTo(attempt, all, n)
    ensures report.state == BLOCKED ==>
      exists n: nat :: n <= maxAttempts && LostBefore(attempt, all, n + 1) && Evidence(attempt, all, n, maxAttempts, report.attempts, logs)
  {
    report, logs := Report(BLOCKED, []), map[];
    var requested := all;
    var ordinal := 1;
    while ordinal <= maxAttempts
      invariant 1 <= ordinal <= maxAttempts + 1
      invariant requested == RequestOf(attempt, all, ordinal)
      invariant report == Report(BLOCKED, RowsTo(attempt, all, ordinal - 1)) && logs == LogsTo(attempt, all, ordinal - 1)
      invariant LostBefore(attempt, all, ordinal)
    {
      var result := attempt(ordinal, requested);
      assert result == PassAt(attempt, all, ordinal);
      match result
      case Stopped(ran) =>
        if ran.Some? {
          report := report.(attempts := report.attempts + [ran.value.0]);
          logs := WithLogs(logs, ordinal, ran.value.1);
        }
        NeverAfter(attempt, all, ordinal);
        ghost var n := ordinal - 1;
        assert LostBefore(attempt, all, n + 1) && Evidence(attempt, all, n, maxAttempts, report.attempts, logs);
        return;
      case Finished(row, output) =>
        report := Report(ExpectedState(ordinal), report.attempts + [row]);
        logs := WithLogs(logs, ordinal, output);
        assert CompletesAt(attempt, all, ordinal);
        forall n: nat | CompletesAt(attempt, all, n) ensures n == ordinal { CompletionUnique(attempt, all, n, ordinal); }
        return;
      case Lost(row, output, next) =>
        report := report.(attempts := report.attempts + [row]);
        logs := WithLogs(logs, ordinal, output);
        requested := next;
      ordinal := ordinal + 1;
    }
    NotBefore(attempt, all, ordinal);
    assert LostBefore(attempt, all, maxAttempts + 1) && Evidence(attempt, all, maxAttempts, maxAttempts, report.attempts, logs);
  }

  lemma NotBefore(attempt: Attempts, all: seq<string>, k: nat)
    requires LostBefore(attempt, all, k)
    ensures forall n: nat :: n < k ==> !CompletesAt(attempt, all, n)
  {
  }

  lemma NeverAfter(attempt: Attempts, all: seq<string>, k: nat)
    requires k >= 1 && LostBefore(attempt, all, k) && PassAt(attempt, all, k).Stopped?
    ensures forall n: nat :: !CompletesAt(attempt, all, n)
  {
  }

  // --------------------------------------------------------------- agreement

  /** The loop body of a setting. */
  function Body(s: Setting): Attempts { (k: nat, requested: seq<string>) => Attempt(s, k, requested) }

  /** No attempt among the first `n` was stopped. */
  ghost predicate Unstopped(attempt: Attempts, all: seq<string>, n: nat) {
    forall k :: 1 <= k <= n ==> !PassAt(attempt, all, k).Stopped?
  }

  lemma {:induction false} RowsKept(attempt: Attempts, all: seq<string>, n: nat)
    requires Unstopped(attempt, all, n)
    ensures |RowsTo(attempt, all, n)| == n
    ensures forall i :: 0 <= i < n ==> RowsTo(attempt, all, n)[i] == PassAt(attempt, all, i + 1).row
  {
    if n > 0 { RowsKept(attempt, all, n - 1); }
  }

  lemma {:induction false} LogsKept(attempt: Attempts, all: seq<string>, n: nat)
    requires Unstopped(attempt, all, n)
    ensures LogsOf(LogsTo(attempt, all, n).Keys, n)
    ensures forall k :: 1 <= k <= n ==>
      && LogsTo(attempt, all, n)[Stdout(k)] == PassAt(attempt, all, k).output.stdout
      && LogsTo(attempt, all, n)[Stderr(k)] == PassAt(attempt, all, k).output.stderr
  {
    if n > 0 {
      var before, o := LogsTo(attempt, all, n - 1), PassAt(attempt, all, n).output;
      LogsKept(attempt, all, n - 1);
      LogsAdded(before, n, o);
      assert LogsTo(attempt, all, n) == WithLogs(before, n, o);
      forall k | 1 <= k < n ensures Stdout(k) in before && Stderr(k) in before {}
    }
  }

  lemma LogsAdded(logs: Logs, n: nat, o: Output)
    requires n > 0 && LogsOf(logs.Keys, n - 1)
    ensures LogsOf(WithLogs(logs, n, o).Keys, n)
    ensures WithLogs(logs, n, o)[Stdout(n)] == o.stdout && WithLogs(logs, n, o)[Stderr(n)] == o.stderr
    ensures forall f :: f in logs ==> WithLogs(logs, n, o)[f] == logs[f]
  {
  }

  /** What a pass of a setting says about its row and output. */
  lemma PassShape(s: Setting, k: nat, requested: seq<string>)
    requires !Attempt(s, k, requested).Stopped?
    ensures var p := Attempt(s, k, requested);
      && p.output == s.executor(k, requested) && FitsLimit(s, p.output) && p.output.code != TIMED_OUT
      && p.row.failures.Some? && s.kit.results(p.output, requested) == Some(p.row.failures.value)
      && p.row == RowFor(s, k, requested, p.output, p.row.failures)
      && (p.Lost? <==> p.row.failures.value != map[])
      && (p.Lost? ==> p.next == s.kit.order(p.row.failures.value.Keys))
  {
  }

  lemma RowAgrees(s: Setting, all: seq<string>, rows: seq<Row>, logs: Logs, i: nat)
    requires i < |rows|
    requires rows[i] == RowFor(s, i + 1, rows[i].requested, LogsEntry(logs, rows[i], i + 1), rows[i].failures)
    requires Stdout(i + 1) in logs && Stderr(i + 1) in logs && FitsLimit(s, LogsEntry(logs, rows[i], i + 1))
    requires rows[i].failures.Some? && s.kit.results(LogsEntry(logs, rows[i], i + 1), rows[i].requested) == Some(rows[i].failures.value)
    requires rows[i].failures.value != map[] <==> i + 1 < |rows|
    requires rows[i].requested == RequestedAt(rows, all, s.kit, i)
    ensures RowReplays(rows, i, logs, all, s.kit, s.policy.maxOutputBytes)
  {
  }

  function LogsEntry(logs: Logs, row: Row, k: nat): Output {
    Output(row.code, if Stdout(k) in logs then logs[Stdout(k)] else "", if Stderr(k) in logs then logs[Stderr(k)] else "")
  }

  /** Attempt `k` follows the loop body of the setting. */
  ghost predicate Follows(attempt: Attempts, all: seq<string>, s: Setting, k: nat)
    requires k >= 1
  {
    PassAt(attempt, all, k) == Attempt(s, k, RequestOf(attempt, all, k))
  }

  /** The row and logs of pass `k` fit together. */
  lemma PassRow(s: Setting, attempt: Attempts, all: seq<string>, k: nat, rows: seq<Row>, logs: Logs)
    requires 1 <= k <= |rows| && Follows(attempt, all, s, k) && !PassAt(attempt, all, k).Stopped?
    requires rows[k - 1] == PassAt(attempt, all, k).row && Stdout(k) in logs && Stderr(k) in logs
    requires logs[Stdout(k)] == PassAt(attempt, all, k).output.stdout && logs[Stderr(k)] == PassAt(attempt, all, k).output.stderr
    ensures var row, o := rows[k - 1], LogsEntry(logs, rows[k - 1], k);
      && row.requested == RequestOf(attempt, all, k) && row == RowFor(s, k, row.requested, o, row.failures)
      && FitsLimit(s, o) && row.failures.Some? && s.kit.results(o, row.requested) == Some(row.failures.value)
      && (row.failures.value != map[] <==> PassAt(attempt, all, k).Lost?)
      && (PassAt(attempt, all, k).Lost? ==> RequestOf(attempt, all, k + 1) == s.kit.order(row.failures.value.Keys))
  {
    PassShape(s, k, RequestOf(attempt, all, k));
    assert LogsEntry(logs, rows[k - 1], k) == PassAt(attempt, all, k).output;
  }

  /** `rows` and `logs` are those of the first attempts. */
  ghost predicate Records(attempt: Attempts, all: seq<string>, rows: seq<Row>, logs: Logs) {
    forall k :: 1 <= k <= |rows| ==>
      && !PassAt(attempt, all, k).Stopped? && rows[k - 1] == PassAt(attempt, all, k).row
      && Stdout(k) in logs && logs[Stdout(k)] == PassAt(attempt, all, k).output.stdout
      && Stderr(k) in logs && logs[Stderr(k)] == PassAt(attempt, all, k).output.stderr
  }

  lemma RecordedRow(s: Setting, attempt: Attempts, all: seq<string>, rows: seq<Row>, logs: Logs, i: nat)
    requires i < |rows| && CompletesAt(attempt, all, |rows|) && Records(attempt, all, rows, logs)
    requires forall k :: 1 <= k <= |rows| ==> Follows(attempt, all, s, k)
    ensures RowReplays(rows, i, logs, all, s.kit, s.policy.maxOutputBytes)
  {
    var p := PassAt(attempt, all, i + 1);
    PassRow(s, attempt, all, i + 1, rows, logs);
    assert p.Lost? <==> i + 1 < |rows|;
    if i > 0 {
      assert PassAt(attempt, all, i).Lost?;
      PassRow(s, attempt, all, i, rows, logs);
    }
    RowAgrees(s, all, rows, logs, i);
  }

  lemma RowsRecorded(attempt: Attempts, all: seq<string>, n: nat)
    requires CompletesAt(attempt, all, n)
    ensures |RowsTo(attempt, all, n)| == n && Records(attempt, all, RowsTo(attempt, all, n), LogsTo(attempt, all, n))
    ensures LogsOf(LogsTo(attempt, all, n).Keys, n)
  {
    assert Unstopped(attempt, all, n);
    RowsKept(attempt, all, n);
    LogsKept(attempt, all, n);
  }

  /** Producer and auditor agree: whatever the executor does, a receipt that
      prepare marks READY or RECOVERED replays through the audit, given that
      its time stamps fit the step. */
  lemma ProducerAgrees(s: Setting, all: seq<string>, n: nat, step: StepTimes)
    requires CompletesAt(Body(s), all, n) && n <= s.policy.maxAttempts && TimesFit(RowsTo(Body(s), all, n), s.policy, step)
    ensures Replays(Report(ExpectedState(n), RowsTo(Body(s), all, n)), LogsTo(Body(s), all, n), all, s.kit, s.policy, step)
  {
    forall k | 1 <= k <= n ensures Follows(Body(s), all, s, k) {}
    RowsRecorded(Body(s), all, n);
    var rows, logs := RowsTo(Body(s), all, n), LogsTo(Body(s), all, n);
    forall i | 0 <= i < n ensures RowReplays(rows, i, logs, all, s.kit, s.policy.maxOutputBytes) {
      RecordedRow(s, Body(s), all, rows, logs, i);
    }
  }

  /** A preparation that replays a report's own logs. */
  function Replaying(report: Report, logs: Logs, kit: Kit, policy: Policy): Setting {
    Setting(kit, policy,
      (k: nat, requested: seq<string>) =>
        if 1 <= k <= |report.attempts| then LogsEntry(logs, report.attempts[k - 1], k) else Output(0, "", ""),
      (k: nat) => true, (k: nat) => true, (k: nat) => true,
      (k: nat) => if 1 <= k <= |report.attempts| then report.attempts[k - 1].started else 0,
      (k: nat) => if 1 <= k <= |report.attempts| then report.attempts[k - 1].completed else 0)
  }

  /** Attempt `k` of the replay, asked for what the report says. */
  lemma ReplayedPass(report: Report, logs: Logs, all: seq<string>, kit: Kit, policy: Policy, k: nat)
    requires 1 <= k <= |report.attempts| && RowReplays(report.attempts, k - 1, logs, all, kit, policy.maxOutputBytes)
    ensures var p := Attempt(Replaying(report, logs, kit, policy), k, report.attempts[k - 1].requested);
      var row := report.attempts[k - 1];
      && (p.Stopped? <==> row.code == TIMED_OUT)
      && (!p.Stopped? ==> (p.Finished? <==> k == |report.attempts|) && p.row == row)
      && (p.Lost? ==> p.next == kit.order(row.failures.value.Keys))
  {
    var row := report.attempts[k - 1];
    assert LogsEntry(logs, row, k) == LoggedOutput(row, k, logs);
  }

  ghost predicate NoTimeouts(report: Report, n: nat)
    requires n <= |report.attempts|
  {
    forall i :: 0 <= i < n ==> report.attempts[i].code != TIMED_OUT
  }

  /** What replaying attempt `k` of a report comes to. */
  ghost predicate Retraces(attempt: Attempts, report: Report, all: seq<string>, kit: Kit, k: nat)
    requires 1 <= k <= |report.attempts|
  {
    var row, p := report.attempts[k - 1], attempt(k, report.attempts[k - 1].requested);
    && row.requested == RequestedAt(report.attempts, all, kit, k - 1) && row.failures.Some?
    && (p.Stopped? <==> row.code == TIMED_OUT)
    && (!p.Stopped? ==> (p.Finished? <==> k == |report.attempts|) && p.row == row)
    && (p.Lost? ==> p.next == kit.order(row.failures.value.Keys))
  }

  lemma {:induction false} ReplayedRequests(attempt: Attempts, report: Report, all: seq<string>, kit: Kit, k: nat)
    requires forall j :: 1 <= j <= |report.attempts| ==> Retraces(attempt, report, all, kit, j)
    requires 1 <= k <= |report.attempts| && NoTimeouts(report, k - 1)
    ensures RequestOf(attempt, all, k) == report.attempts[k - 1].requested
    decreases k
  {
    assert Retraces(attempt, report, all, kit, k);
    if k > 1 {
      ReplayedRequests(attempt, report, all, kit, k - 1);
      assert Retraces(attempt, report, all, kit, k - 1);
    }
  }

  lemma ReplayRetraces(report: Report, logs: Logs, all: seq<string>, kit: Kit, policy: Policy, step: StepTimes)
    requires Replays(report, logs, all, kit, policy, step)
    ensures forall k :: 1 <= k <= |report.attempts| ==> Retraces(Body(Replaying(report, logs, kit, policy)), report, all, kit, k)
  {
    forall k | 1 <= k <= |report.attempts| ensures Retraces(Body(Replaying(report, logs, kit, policy)), report, all, kit, k) {
      assert RowReplays(report.attempts, k - 1, logs, all, kit, policy.maxOutputBytes);
      ReplayedPass(report, logs, all, kit, policy, k);
    }
  }

  /** Completing a replay up to attempt `k` rules out time-outs before it. */
  lemma {:induction false} CompletionHasNoTimeouts(attempt: Attempts, report: Report, all: seq<string>, kit: Kit, k: nat)
    requires forall j :: 1 <= j <= |report.attempts| ==> Retraces(attempt, report, all, kit, j)
    requires k <= |report.attempts| && CompletesAt(attempt, all, |report.attempts|)
    ensures NoTimeouts(report, k)
  {
    if k > 0 {
      CompletionHasNoTimeouts(attempt, report, all, kit, k - 1);
      ReplayedRequests(attempt, report, all, kit, k);
      assert Retraces(attempt, report, all, kit, k);
      assert !PassAt(attempt, all, k).Stopped?;
    }
  }

  lemma NoTimeoutsComplete(attempt: Attempts, report: Report, all: seq<string>, kit: Kit)
    requires forall j :: 1 <= j <= |report.attempts| ==> Retraces(attempt, report, all, kit, j)
    requires report.attempts != [] && NoTimeouts(report, |report.attempts|)
    ensures CompletesAt(attempt, all, |report.attempts|)
  {
    var n := |report.attempts|;
    forall k | 1 <= k <= n ensures if k < n then PassAt(attempt, all, k).Lost? else PassAt(attempt, all, k).Finished? {
      ReplayedRequests(attempt, report, all, kit, k);
      assert Retraces(attempt, report, all, kit, k);
    }
  }

  /** Attempt `k` of the replay retains the logs that were given for it. */
  ghost predicate Relogs(attempt: Attempts, report: Report, logs: Logs, k: nat)
    requires 1 <= k <= |report.attempts|
  {
    var p := attempt(k, report.attempts[k - 1].requested);
    !p.Stopped? ==> p.output == LogsEntry(logs, report.attempts[k - 1], k)
  }

  lemma ReplayRelogs(report: Report, logs: Logs, kit: Kit, policy: Policy)
    ensures forall k :: 1 <= k <= |report.attempts| ==> Relogs(Body(Replaying(report, logs, kit, policy)), report, logs, k)
  {
    var s := Replaying(report, logs, kit, policy);
    forall k | 1 <= k <= |report.attempts| ensures Relogs(Body(s), report, logs, k) {
      if !Attempt(s, k, report.attempts[k - 1].requested).Stopped? { PassShape(s, k, report.attempts[k - 1].requested); }
    }
  }

  /** Pass `k` of a completed replay is row `k` of the report with its logs. */
  lemma ReplayedAt(attempt: Attempts, report: Report, logs: Logs, all: seq<string>, kit: Kit, k: nat)
    requires forall j :: 1 <= j <= |report.attempts| ==> Retraces(attempt, report, all, kit, j) && Relogs(attempt, report, logs, j)
    requires 1 <= k <= |report.attempts| && NoTimeouts(report, |report.attempts|)
    ensures var p := PassAt(attempt, all, k);
      !p.Stopped? && p.row == report.attempts[k - 1] && p.output == LogsEntry(logs, report.attempts[k - 1], k)
  {
    ReplayedRequests(attempt, report, all, kit, k);
    assert Retraces(attempt, report, all, kit, k) && Relogs(attempt, report, logs, k);
    assert report.attempts[k - 1].code != TIMED_OUT;
  }

  lemma LogsDetermined(logs: Logs, logs': Logs, n: nat)
    requires LogsOf(logs.Keys, n) && LogsOf(logs'.Keys, n)
    requires forall k :: 1 <= k <= n ==> logs[Stdout(k)] == logs'[Stdout(k)]
    requires forall k :: 1 <= k <= n ==> logs[Stderr(k)] == logs'[Stderr(k)]
    ensures logs == logs'
  {
    forall f | f in logs ensures f in logs' && logs[f] == logs'[f] {
      assert f == Stdout(f.ordinal) || f == Stderr(f.ordinal);
    }
    assert logs.Keys == logs'.Keys;
  }

  /** Pass `k` left row `k` with these logs. */
  ghost predicate Recorded(attempt: Attempts, all: seq<string>, k: nat, rows: seq<Row>, logs: Logs)
    requires 1 <= k <= |rows|
  {
    var p := PassAt(attempt, all, k);
    !p.Stopped? && p.row == rows[k - 1] && p.output == LogsEntry(logs, rows[k - 1], k)
  }

  /** Rows and logs recorded pass by pass are the given ones. */
  lemma RecordsAgree(attempt: Attempts, all: seq<string>, rows: seq<Row>, logs: Logs, rows': seq<Row>, logs': Logs)
    requires |rows| == |rows'| && Records(attempt, all, rows, logs)
    requires LogsOf(logs.Keys, |rows|) && LogsOf(logs'.Keys, |rows|)
    requires forall k :: 1 <= k <= |rows| ==> Recorded(attempt, all, k, rows', logs')
    ensures rows == rows' && logs == logs'
  {
    forall k | 1 <= k <= |rows| ensures logs[Stdout(k)] == logs'[Stdout(k)] && logs[Stderr(k)] == logs'[Stderr(k)] {
      assert Recorded(attempt, all, k, rows', logs');
    }
    LogsDetermined(logs, logs', |rows|);
    forall i | 0 <= i < |rows| ensures rows[i] == rows'[i] {
      var k := i + 1;
      assert Recorded(attempt, all, k, rows', logs') && rows[k - 1] == PassAt(attempt, all, k).row;
    }
  }

  /** The auditor accepts more than the producer writes, by exactly one thing:
      replaying an accepted report's logs completes if and only if no attempt
      recorded the exit code of a timed-out process, and then it writes that
      very report and those very logs. */
  lemma AuditorAgrees(report: Report, logs: Logs, all: seq<string>, kit: Kit, policy: Policy, step: StepTimes)
    requires Replays(report, logs, all, kit, policy, step)
    ensures CompletesAt(Body(Replaying(report, logs, kit, policy)), all, |report.attempts|) <==> NoTimeouts(report, |report.attempts|)
    ensures NoTimeouts(report, |report.attempts|) ==>
      && RowsTo(Body(Replaying(report, logs, kit, policy)), all, |report.attempts|) == report.attempts
      && LogsTo(Body(Replaying(report, logs, kit, policy)), all, |report.attempts|) == logs
  {
    var attempt := Body(Replaying(report, logs, kit, policy));
    ReplayRetraces(report, logs, all, kit, policy, step);
    ReplayRelogs(report, logs, kit, policy);
    if CompletesAt(attempt, all, |report.attempts|) {
      CompletionHasNoTimeouts(attempt, report, all, kit, |report.attempts|);
    }
    if NoTimeouts(report, |report.attempts|) {
      var n := |report.attempts|;
      NoTimeoutsComplete(attempt, report, all, kit);
      RowsRecorded(attempt, all, n);
      forall k | 1 <= k <= n ensures Recorded(attempt, all, k, report.attempts, logs) {
        ReplayedAt(attempt, report, logs, all, kit, k);
      }
      RecordsAgree(attempt, all, RowsTo(attempt, all, n), LogsTo(attempt, all, n), report.attempts, logs);
    }
  }

  // ------------------------------------------------------ where they differ

  /** Only an attempt that is retried can have been accepted with a time-out:
      the last one of an accepted report has exit code zero. */
  lemma LastAttemptSucceeded(report: Report, logs: Logs, all: seq<string>, modules: Modules, tools: Tools, policy: Policy, step: StepTimes)
    requires Replays(report, logs, all, KitFor(modules, tools), policy, step)
    ensures report.attempts[|report.attempts| - 1].code == 0
  {
    var i := |report.attempts| - 1;
    var row := report.attempts[i];
    assert RowReplays(report.attempts, i, logs, all, KitFor(modules, tools), policy.maxOutputBytes);
    assert Conclusive(LoggedOutput(row, i + 1, logs), row.failures.value, row.requested, modules, tools);
  }

  /** One locked module: an output "lost" reports a bad gateway for it, any other
      output its download. */
  function LostThenFound(path: string, version: string, sum: string, proxy: string): Tools
    requires '@' in KeyOf(path, version)
  {
    Tools((b: Bytes) => Some([Record(path, version, if b == "lost" then Text(BadGateway(KeyOf(path, version), proxy)) else NoError, sum)]),
          (b: Bytes) => b, (b: Bytes) => false, proxy)
  }

  lemma ConclusiveResult(o: Output, failed: Failures, requested: seq<string>, modules: Modules, tools: Tools)
    requires Conclusive(o, failed, requested, modules, tools)
    ensures ResultsOf(o, requested, modules, tools) == Some(failed)
  {
    var r := ResultsOf(o, requested, modules, tools);
    ConclusiveUnique(o, failed, r.value, requested, modules, tools);
  }

  /** An output of one record that is judged as a loss. */
  lemma OneLoss(o: Output, record: Record, key: string, failure: Failure, modules: Modules, tools: Tools)
    requires o.code != 0 && tools.decode(o.stdout) == Some([record]) && !tools.alarming(o.stderr)
    requires Judge(record, [key], modules, tools.proxy) == Verdict.Lost(key, failure)
    ensures ResultsOf(o, [key], modules, tools) == Some(map[key := failure])
  {
    assert Verdicts([record], [key], modules, tools.proxy) == [Verdict.Lost(key, failure)];
    assert Verdict.Lost(key, failure) in [Verdict.Lost(key, failure)];
    assert [Verdict.Lost(key, failure)][0].key == key;
    assert key in map[key := failure];
    ConclusiveResult(o, map[key := failure], [key], modules, tools);
  }

  /** An output of one record that is judged as a download. */
  lemma OneDownload(o: Output, record: Record, key: string, sum: string, modules: Modules, tools: Tools)
    requires o.code == 0 && tools.decode(o.stdout) == Some([record]) && !tools.alarming(o.stderr)
    requires Judge(record, [key], modules, tools.proxy) == Downloaded(key, sum)
    ensures ResultsOf(o, [key], modules, tools) == Some(map[])
  {
    assert Verdicts([record], [key], modules, tools.proxy) == [Downloaded(key, sum)];
    assert [Downloaded(key, sum)][0].key == key;
    ConclusiveResult(o, map[], [key], modules, tools);
  }

  function TimedOutReport(key: string, failure: Failure): Report {
    Report(RECOVERED, [
      Row(1, [key], TIMED_OUT, Stdout(1), Stderr(1), "lost", "", 0, 0, Some(map[key := failure])),
      Row(2, [key], 0, Stdout(2), Stderr(2), "found", "", 0, 0, Some(map[]))])
  }

  const TIMED_OUT_LOGS: Logs := map[Stdout(1) := "lost", Stderr(1) := "", Stdout(2) := "found", Stderr(2) := ""]

  lemma OneKey(key: string)
    ensures SortedKeys({key}) == [key]
  {
    assert Least({key}) == key && {key} - {key} == {} && SortedKeys({}) == [];
  }

  lemma TimedOutReplays(key: string, failure: Failure, kit: Kit, policy: Policy)
    requires policy == Policy(2, 100, 0, 0) && LosesThenFinds(kit, key, failure)
    ensures Replays(TimedOutReport(key, failure), TIMED_OUT_LOGS, [key], kit, policy, StepTimes(0, 0))
  {
    var attempts := TimedOutReport(key, failure).attempts;
    assert map[key := failure].Keys == {key} && map[key := failure] != map[] by { assert key in map[key := failure]; }
    assert RowReplays(attempts, 0, TIMED_OUT_LOGS, [key], kit, 100);
    assert RowReplays(attempts, 1, TIMED_OUT_LOGS, [key], kit, 100);
  }

  /** Such a report, for every module that can be locked: lost by an attempt that
      timed out and found by the retry. The auditor accepts it; the preparation
      never writes it. */
  lemma TimedOutAccepted(path: string, version: string, sum: string, proxy: string) returns (failure: Failure)
    requires Lockable(path, version) && ValidChecksum(sum)
    ensures '@' in KeyOf(path, version)
    ensures var key := KeyOf(path, version);
      var report, kit := TimedOutReport(key, failure), KitFor(map[key := sum], LostThenFound(path, version, sum, proxy));
      && Replays(report, TIMED_OUT_LOGS, SortedKeys(map[key := sum].Keys), kit, Policy(2, 100, 0, 0), StepTimes(0, 0))
      && !NoTimeouts(report, 2)
      && !CompletesAt(Body(Replaying(report, TIMED_OUT_LOGS, kit, Policy(2, 100, 0, 0))), SortedKeys(map[key := sum].Keys), 2)
  {
    var key := KeyOf(path, version);
    KeyShape(path, version);
    failure := ExampleJudged(path, version, sum, proxy);
    ExampleKit(path, version, sum, proxy, failure);
    assert map[key := sum].Keys == {key};
    OneKey(key);
    TimedOutDiffers(key, failure, KitFor(map[key := sum], LostThenFound(path, version, sum, proxy)));
  }

  ghost predicate LosesThenFinds(kit: Kit, key: string, failure: Failure) {
    && kit.order({key}) == [key] && (forall b :: kit.digest(b) == b)
    && kit.results(Output(TIMED_OUT, "lost", ""), [key]) == Some(map[key := failure])
    && kit.results(Output(0, "found", ""), [key]) == Some(map[])
  }

  lemma ExampleKit(path: string, version: string, sum: string, proxy: string, failure: Failure)
    requires '@' in KeyOf(path, version)
    requires var key := KeyOf(path, version);
      && Judge(Record(path, version, Text(BadGateway(key, proxy)), sum), [key], map[key := sum], proxy) == Verdict.Lost(key, failure)
      && Judge(Record(path, version, NoError, sum), [key], map[key := sum], proxy) == Downloaded(key, sum)
    ensures LosesThenFinds(KitFor(map[KeyOf(path, version) := sum], LostThenFound(path, version, sum, proxy)), KeyOf(path, version), failure)
  {
    var key := KeyOf(path, version);
    var tools, modules := LostThenFound(path, version, sum, proxy), map[key := sum];
    OneLoss(Output(TIMED_OUT, "lost", ""), Record(path, version, Text(BadGateway(key, proxy)), sum), key, failure, modules, tools);
    OneDownload(Output(0, "found", ""), Record(path, version, NoError, sum), key, sum, modules, tools);
    OneKey(key);
  }

  lemma ExampleJudged(path: string, version: string, sum: string, proxy: string) returns (failure: Failure)
    requires '@' in KeyOf(path, version)
    ensures var key := KeyOf(path, version);
      && Judge(Record(path, version, Text(BadGateway(key, proxy)), sum), [key], map[key := sum], proxy) == Verdict.Lost(key, failure)
      && Judge(Record(path, version, NoError, sum), [key], map[key := sum], proxy) == Downloaded(key, sum)
  {
    var key := KeyOf(path, version);
    BadGatewayDiagnosed(key, key, proxy);
    failure := Classify(BadGateway(key, proxy), key, proxy).value;
  }

  lemma TimedOutDiffers(key: string, failure: Failure, kit: Kit)
    requires LosesThenFinds(kit, key, failure)
    ensures var report, policy := TimedOutReport(key, failure), Policy(2, 100, 0, 0);
      && Replays(report, TIMED_OUT_LOGS, [key], kit, policy, StepTimes(0, 0)) && !NoTimeouts(report, 2)
      && !CompletesAt(Body(Replaying(report, TIMED_OUT_LOGS, kit, policy)), [key], 2)
  {
    var report, policy := TimedOutReport(key, failure), Policy(2, 100, 0, 0);
    TimedOutReplays(key, failure, kit, policy);
    assert report.attempts[0].code == TIMED_OUT;
    AuditorAgrees(report, TIMED_OUT_LOGS, [key], kit, policy, StepTimes(0, 0));
  }
}
