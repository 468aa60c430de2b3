/** Workflow runs as the delivery control plane sees them: which runs belong to
    a candidate, which of them is the newest, and what counts as a failed job. */
module DeliveryRuns {
  import opened Wrappers
  import opened Sequences

  datatype Reference = Reference(ref: string, sha: string, path: string)

  datatype Run = Run(
    id: nat, attempt: Option<nat>, path: string, headSha: string, event: string,
    status: string, conclusion: Option<string>, pulls: seq<nat>, references: seq<Reference>)

  datatype RunRef = RunRef(id: nat, attempt: Option<nat>, path: string, headSha: string, status: string, conclusion: Option<string>)

  datatype JobStep = JobStep(number: nat, status: string, conclusion: Option<string>)
  datatype Job = Job(id: nat, name: string, status: string, conclusion: Option<string>, steps: seq<JobStep>)

  const BAD := {"failure", "cancelled", "timed_out", "action_required", "startup_failure", "stale"}

  predicate Bad(conclusion: Option<string>) { conclusion.Some? && conclusion.value in BAD }

  predicate JobFailed(job: Job) {
    Bad(job.conclusion) || exists i :: 0 <= i < |job.steps| && Bad(job.steps[i].conclusion)
  }

  /** No job and no step ended badly: root_causes finds nothing. */
  predicate NoFailures(jobs: seq<Job>) {
    forall i :: 0 <= i < |jobs| ==> !JobFailed(jobs[i])
  }

  predicate IsSha(s: string) {
    |s| == 40 && forall i :: 0 <= i < 40 ==> '0' <= s[i] <= '9' || 'a' <= s[i] <= 'f'
  }

  /** run_binds_pr: live links decide; without any, immutable pull references. */
  predicate BindsPr(run: Run, pr: nat) {
    if run.pulls != [] then pr in run.pulls
    else
      && run.references != []
      && forall i :: 0 <= i < |run.references| ==>
        var r := run.references[i];
        r.ref == "refs/pull/" + Decimal(pr) + "/merge" && IsSha(r.sha) && EndsWith(r.path, "@" + r.sha)
  }

  predicate MatchesRun(run: Run, workflow: string, candidate: string, pr: nat) {
    && Split(run.path, '@')[0] == workflow && run.headSha == candidate
    && run.event == "pull_request" && BindsPr(run, pr)
  }

  function Matching(runs: seq<Run>, workflow: string, candidate: string, pr: nat): seq<Run> {
    Filter(runs, (run: Run) => MatchesRun(run, workflow, candidate, pr))
  }

  function AttemptNumber(run: Run): nat { if run.attempt.Some? then run.attempt.value else 1 }

  /** The sort key (id, attempt) of one run is greater. */
  predicate Newer(a: Run, b: Run) {
    a.id > b.id || (a.id == b.id && AttemptNumber(a) > AttemptNumber(b))
  }

  /** The head of the runs sorted by descending key; ties keep their order. */
  function Newest(runs: seq<Run>): (r: Option<Run>)
    ensures r.None? <==> runs == []
    ensures r.Some? ==> r.value in runs && forall x :: x in runs ==> !Newer(x, r.value)
    decreases |runs|
  {
    if runs == [] then None
    else
      var n := |runs| - 1;
      var before := Newest(runs[..n]);
      assert runs == runs[..n] + [runs[n]];
      if before.None? || Newer(runs[n], before.value) then Some(runs[n]) else before
  }

  /** matching_runs(...)[0], if there is any matching run. */
  function NewestMatching(runs: seq<Run>, workflow: string, candidate: string, pr: nat): Option<Run> {
    Newest(Matching(runs, workflow, candidate, pr))
  }

  predicate Succeeded(run: Run) { run.status == "completed" && run.conclusion == Some("success") }

  /** latest_success: the newest matching run, provided that it succeeded. */
  function LatestSuccess(runs: seq<Run>, workflow: string, candidate: string, pr: nat): Option<Run> {
    var run := NewestMatching(runs, workflow, candidate, pr);
    if run.Some? && Succeeded(run.value) then run else None
  }

  function RunRefOf(run: Run): RunRef {
    RunRef(run.id, run.attempt, run.path, run.headSha, run.status, run.conclusion)
  }

  /** assert_single_full: the candidate's merge runs are within their budget and
      this run and attempt is the newest of them. */
  predicate SingleFull(runs: seq<Run>, workflow: string, candidate: string, pr: nat, runId: nat, attempt: nat, fullRuns: nat, fullAttempts: nat) {
    var full := Matching(runs, workflow, candidate, pr);
    && |full| == fullRuns && full != []
    && Newest(full).value.id == runId
    && attempt == fullAttempts && Newest(full).value.attempt == Some(attempt)
  }

  /** A newer matching run makes the earlier reference unreachable. */
  lemma Superseded(earlier: Run, runs: seq<Run>, newer: Run, workflow: string, candidate: string, pr: nat)
    requires newer in runs && MatchesRun(newer, workflow, candidate, pr) && Newer(newer, earlier)
    ensures var newest := NewestMatching(runs, workflow, candidate, pr);
      newest.Some? && RunRefOf(newest.value) != RunRefOf(earlier)
  {
  }

  /** With distinct keys the newest run does not depend on the listing order. */
  lemma NewestIgnoresOrder(a: seq<Run>, b: seq<Run>)
    requires forall x :: x in a <==> x in b
    requires forall x, y :: x in a && y in a && !Newer(x, y) && !Newer(y, x) ==> x == y
    ensures Newest(a) == Newest(b)
  {
  }
}
