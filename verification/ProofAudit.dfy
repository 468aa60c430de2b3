/** The audit of all expanded full-gate jobs (expected_full, audit_jobs and the
    comparison with the stored rows in verify_main). */
module ProofAudit {
  import opened Wrappers
  import opened Sequences
  import opened Ordering
  import opened MergeReceipts

  // ----------------------------------------------------------- expected names

  function FullName(n: nat, stem: string, job: string): string { JobName(n, stem) + " / " + job }

  lemma NameTail(n: nat, stem: string, job: string)
    ensures FullName(n, stem, job)[5..] == TwoDigits(n) + ['-'] + (stem + " / " + job)
  {
  }

  /** Names of different units, or of different jobs of a unit, never collide:
      the dictionary comprehension of expected_full loses nothing. */
  lemma FullNamesDistinct(stems: seq<string>, i: nat, j: nat, job: string, job': string)
    requires i < |stems| && j < |stems| && FullName(i + 1, stems[i], job) == FullName(j + 1, stems[j], job')
    ensures i == j && job == job'
  {
    NameTail(i + 1, stems[i], job);
    NameTail(j + 1, stems[j], job');
    var x, y := stems[i] + " / " + job, stems[j] + " / " + job';
    CutFirst(TwoDigits(i + 1), x, TwoDigits(j + 1), y, '-');
    TwoDigitsInjective(i + 1, j + 1);
    assert job == x[|stems[i]| + 3..] && job' == y[|stems[j]| + 3..];
  }

  // ------------------------------------------------------------------ the audit

  /** A job as the API lists it; times in microseconds, absent or unreadable
      time stamps as None. */
  datatype AuditedJob = AuditedJob(
    id: nat, name: string, runId: nat, attempt: nat, headSha: string, status: string, conclusion: string,
    created: Option<int>, started: Option<int>, completed: Option<int>)

  datatype Performance = PASS | TARGET_EXCEEDED | HARD_EXCEEDED

  datatype Row = Row(
    jobId: nat, job: string, workflow: string, wall: int, queue: int, performance: Performance,
    targetSeconds: nat, hardSeconds: nat)

  datatype Budget = Budget(targetSeconds: nat, hardSeconds: nat)

  /** What the audit compares jobs with; `rounded` is the rounding of a duration
      to milliseconds. */
  datatype Expectation = Expectation(
    workflows: map<string, string>, budgets: map<string, Budget>,
    runId: nat, attempt: nat, candidate: string, rounded: int -> int)

  predicate Timed(a: Option<int>, b: Option<int>) { a.Some? && b.Some? && a.value <= b.value }

  function Performs(wall: int, budget: Budget): Performance {
    if wall > budget.hardSeconds * 1000 then HARD_EXCEEDED
    else if wall > budget.targetSeconds * 1000 then TARGET_EXCEEDED
    else PASS
  }

  /** One expected job of this run that succeeded and can be timed. */
  predicate JobAccepted(e: Expectation, job: AuditedJob) {
    && job.name in e.workflows && e.workflows[job.name] in e.budgets
    && job.runId == e.runId && job.attempt == e.attempt && job.headSha == e.candidate
    && job.status == "completed" && job.conclusion == "success"
    && Timed(job.started, job.completed) && Timed(job.created, job.started)
  }

  function RowOf(e: Expectation, job: AuditedJob): Row {
    if !JobAccepted(e, job) then Row(0, "", "", 0, 0, PASS, 0, 0)
    else
      var workflow := e.workflows[job.name];
      var wall, budget := e.rounded(job.completed.value - job.started.value), e.budgets[workflow];
      Row(job.id, job.name, workflow, wall, e.rounded(job.started.value - job.created.value),
          Performs(wall, budget), budget.targetSeconds, budget.hardSeconds)
  }

  predicate IsFull(job: AuditedJob) { StartsWith(job.name, "full-") }

  function FullJobs(jobs: seq<AuditedJob>): seq<AuditedJob> { Filter(jobs, (job: AuditedJob) => IsFull(job)) }

  function Names(jobs: seq<AuditedJob>): (r: seq<string>)
    ensures |r| == |jobs|
    ensures forall i :: 0 <= i < |r| ==> r[i] == jobs[i].name
  {
    seq(|jobs|, i requires 0 <= i < |jobs| => jobs[i].name)
  }

  predicate NamesMatch(e: Expectation, actual: seq<AuditedJob>) {
    |actual| == |e.workflows| && (set name | name in Names(actual)) == e.workflows.Keys
  }

  /** The whole listing is acceptable. */
  predicate Acceptable(e: Expectation, jobs: seq<AuditedJob>) {
    && NamesMatch(e, FullJobs(jobs))
    && forall job :: job in FullJobs(jobs) ==> JobAccepted(e, job)
  }

  function RowsOf(e: Expectation, jobs: seq<AuditedJob>): seq<Row> {
    MapSeq((job: AuditedJob) => RowOf(e, job), jobs)
  }

  /** Longest first, then by name. */
  predicate RowLe(a: Row, b: Row) {
    a.wall > b.wall || (a.wall == b.wall && Le(a.job, b.job))
  }

  function Audited(e: Expectation, jobs: seq<AuditedJob>): Option<seq<Row>> {
    if Acceptable(e, jobs) then Some(Sort(RowLe, RowsOf(e, FullJobs(jobs)))) else None
  }

  /** audit_jobs. */
  method AuditJobs(e: Expectation, jobs: seq<AuditedJob>) returns (r: Option<seq<Row>>)
    ensures r == Audited(e, jobs)
  {
    var actual := FullJobs(jobs);
    if !NamesMatch(e, actual) {
      return None;
    }
    var rows := CollectRows(actual, (job: AuditedJob) => JobAccepted(e, job), (job: AuditedJob) => RowOf(e, job));
    r := if rows.None? then None else Some(Sort(RowLe, rows.value));
  }

  /** The loop that checks each job and appends its row. */
  method CollectRows(actual: seq<AuditedJob>, accepted: AuditedJob -> bool, rowOf: AuditedJob -> Row) returns (r: Option<seq<Row>>)
    ensures r.Some? <==> forall job :: job in actual ==> accepted(job)
    ensures r.Some? ==> r.value == MapSeq(rowOf, actual)
  {
    var rows: seq<Row> := [];
    var i := 0;
    while i < |actual|
      invariant 0 <= i <= |actual|
      invariant forall j :: 0 <= j < i ==> accepted(actual[j])
      invariant rows == MapSeq(rowOf, actual[..i])
    {
      if !accepted(actual[i]) {
        return None;
      }
      rows := rows + [rowOf(actual[i])];
      i := i + 1;
    }
    assert actual[..i] == actual;
    r := Some(rows);
  }

  // ----------------------------------------------------------------- properties

  /** Acceptance leaves exactly one job for each expected name. */
  lemma OneJobEach(e: Expectation, jobs: seq<AuditedJob>)
    requires Acceptable(e, jobs)
    ensures var actual := FullJobs(jobs);
      && (forall i, j :: 0 <= i < j < |actual| ==> actual[i].name != actual[j].name)
      && (forall name :: name in e.workflows ==> exists i :: 0 <= i < |actual| && actual[i].name == name)
  {
    var actual := FullJobs(jobs);
    var names := Names(actual);
    DistinctCount(names);
    forall i, j | 0 <= i < j < |actual| ensures actual[i].name != actual[j].name { assert names[i] != names[j]; }
    forall name | name in e.workflows ensures exists i :: 0 <= i < |actual| && actual[i].name == name {
      assert name in names;
    }
  }

  lemma RowLePreorder()
    ensures TotalPreorder(RowLe)
  {
    LeIsTotalOrder();
  }

  /** Rows of accepted jobs with distinct names are told apart by their order. */
  lemma RowsDiffer(e: Expectation, actual: seq<AuditedJob>)
    requires forall i :: 0 <= i < |actual| ==> JobAccepted(e, actual[i])
    requires forall i, j :: 0 <= i < j < |actual| ==> actual[i].name != actual[j].name
    ensures forall x, y :: x in RowsOf(e, actual) && y in RowsOf(e, actual) && RowLe(x, y) && RowLe(y, x) ==> x == y
  {
    var rows := RowsOf(e, actual);
    forall x, y | x in rows && y in rows && RowLe(x, y) && RowLe(y, x) ensures x == y {
      var i :| 0 <= i < |rows| && rows[i] == x;
      var j :| 0 <= j < |rows| && rows[j] == y;
      LeAntisymmetric(x.job, y.job);
      assert actual[i].name == actual[j].name;
    }
  }

  lemma FullJobsPermute(a: seq<AuditedJob>, b: seq<AuditedJob>)
    requires multiset(a) == multiset(b)
    ensures multiset(FullJobs(a)) == multiset(FullJobs(b))
  {
    FilterPermutes(a, b, (job: AuditedJob) => IsFull(job));
  }

  lemma SameMembers(x: seq<AuditedJob>, y: seq<AuditedJob>)
    requires multiset(x) == multiset(y)
    ensures |x| == |y| && (forall job :: job in x <==> job in y)
    ensures (set name | name in Names(x)) == set name | name in Names(y)
  {
    assert |x| == |multiset(x)| == |multiset(y)| == |y|;
    forall job ensures job in x <==> job in y { assert job in x <==> job in multiset(x); assert job in y <==> job in multiset(y); }
    forall name ensures name in Names(x) ==> name in Names(y) { NamesFollow(x, y, name); }
    forall name ensures name in Names(y) ==> name in Names(x) { NamesFollow(y, x, name); }
  }

  lemma NamesFollow(x: seq<AuditedJob>, y: seq<AuditedJob>, name: string)
    requires forall job :: job in x ==> job in y
    ensures name in Names(x) ==> name in Names(y)
  {
    if name in Names(x) {
      var i :| 0 <= i < |x| && Names(x)[i] == name;
      assert x[i] in y;
      var j :| 0 <= j < |y| && y[j] == x[i];
      assert Names(y)[j] == name;
    }
  }

  lemma AcceptablePermutes(e: Expectation, a: seq<AuditedJob>, b: seq<AuditedJob>)
    requires multiset(a) == multiset(b) && Acceptable(e, a)
    ensures Acceptable(e, b)
  {
    FullJobsPermute(a, b);
    SameMembers(FullJobs(a), FullJobs(b));
  }

  /** The audit does not depend on the order in which jobs are listed: neither
      its decision nor its row list. */
  lemma AuditIgnoresOrder(e: Expectation, a: seq<AuditedJob>, b: seq<AuditedJob>)
    requires multiset(a) == multiset(b)
    ensures Audited(e, a) == Audited(e, b)
  {
    if Acceptable(e, a) {
      AcceptablePermutes(e, a, b);
      FullJobsPermute(a, b);
      assert multiset(RowsOf(e, FullJobs(a))) == multiset(RowsOf(e, FullJobs(b))) by {
        MapPermutes((job: AuditedJob) => RowOf(e, job), FullJobs(a), FullJobs(b));
      }
      OneJobEach(e, a);
      RowsDiffer(e, FullJobs(a));
      SortedAlike(RowsOf(e, FullJobs(a)), RowsOf(e, FullJobs(b)));
    } else if Acceptable(e, b) {
      AcceptablePermutes(e, b, a);
    }
  }

  lemma SortedAlike(x: seq<Row>, y: seq<Row>)
    requires multiset(x) == multiset(y)
    requires forall r, s :: r in x && s in x && RowLe(r, s) && RowLe(s, r) ==> r == s
    ensures Sort(RowLe, x) == Sort(RowLe, y)
  {
    RowLePreorder();
    SortSorts(RowLe, x);
    SortSorts(RowLe, y);
    SortedKeepsMembers(x);
    SortedUnique(RowLe, Sort(RowLe, x), Sort(RowLe, y));
  }

  lemma SortedKeepsMembers(rows: seq<Row>)
    ensures forall r :: r in Sort(RowLe, rows) ==> r in rows
  {
    RowLePreorder();
    SortSorts(RowLe, rows);
    forall r | r in Sort(RowLe, rows) ensures r in rows { assert r in multiset(Sort(RowLe, rows)); }
  }

  /** The comparison on main: the stored rows equal the recomputed ones and none
      exceeds its hard budget. */
  predicate StoredRowsHold(e: Expectation, stored: seq<Row>, jobs: seq<AuditedJob>) {
    && Audited(e, jobs) == Some(stored)
    && forall row :: row in stored ==> row.performance != HARD_EXCEEDED
  }

  /** Rows stored from one listing are confirmed by every rearrangement of it,
      and a listing confirms no other rows. */
  lemma StoredRowsConfirmed(e: Expectation, jobs: seq<AuditedJob>, again: seq<AuditedJob>, stored: seq<Row>)
    requires multiset(jobs) == multiset(again)
    requires Audited(e, jobs).Some? && forall row :: row in Audited(e, jobs).value ==> row.performance != HARD_EXCEEDED
    ensures StoredRowsHold(e, stored, again) <==> stored == Audited(e, jobs).value
  {
    AuditIgnoresOrder(e, jobs, again);
  }
}
