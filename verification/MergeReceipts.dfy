/** Receipts that the delivery control plane writes when a candidate is ready to
    merge and checks again on main (merge-ready, lightweight-ready,
    verify_receipt and verify_lightweight_receipt). */
module MergeReceipts {
  import opened Wrappers
  import opened Sequences
  import opened DeliveryRuns
  import opened QualificationWait

  datatype ReceiptState = MERGE_READY | LIGHTWEIGHT_MERGE_READY

  datatype Receipt = Receipt(
    schemaVersion: nat, state: ReceiptState, contractHash: string, candidate: string, tree: string, pr: nat,
    mergeRunId: nat, mergeRunAttempt: nat, activeFullJobs: Option<nat>, rootCauses: seq<nat>,
    qualification: RunRef, fullResults: map<string, string>,
    changeClass: Option<string>, mergeGateRequired: Option<bool>)

  /** The result and outputs of a job that the merge job depends on. */
  datatype Need = Need(result: Option<string>, runId: Option<nat>, runAttempt: Option<nat>, frozenMain: Option<string>)

  const SUCCESS := Some("success")
  const CONTROLS := {"route", "freeze-candidate", "wait-qualification"}
  const LIGHT_CLASSES := {"docs_only", "skill_only", "design_governance"}

  // ------------------------------------------------------------ full results

  function TwoDigits(n: nat): string { if n < 10 then "0" + Decimal(n) else Decimal(n) }

  function JobName(n: nat, stem: string): string { "full-" + TwoDigits(n) + "-" + stem }

  /** expected_jobs: one name for each workflow file, numbered from one. */
  function ExpectedJobs(stems: seq<string>): (r: seq<string>)
    ensures |r| == |stems|
  {
    seq(|stems|, i requires 0 <= i < |stems| => JobName(i + 1, stems[i]))
  }

  lemma TwoDigitsInjective(m: nat, n: nat)
    requires TwoDigits(m) == TwoDigits(n)
    ensures m == n
  {
    if m < 10 && n < 10 {
      assert Decimal(m) == TwoDigits(m)[1..] && Decimal(n) == TwoDigits(n)[1..];
    } else if m < 10 {
      LeadingDigit(n);
    } else if n < 10 {
      LeadingDigit(m);
    }
    DecimalValues(m, n);
  }

  lemma DecimalValues(m: nat, n: nat)
    ensures Decimal(m) == Decimal(n) ==> m == n
  {
    if Decimal(m) == Decimal(n) { DecimalInjective(m, n); }
  }

  lemma {:induction false} LeadingDigit(n: nat)
    requires n > 0
    ensures Decimal(n)[0] != '0'
  {
    if n >= 10 { LeadingDigit(n / 10); }
  }

  /** Numbered job names are pairwise distinct, whatever the workflows are
      called, so the expected set has one name for each unit. */
  lemma ExpectedJobsDistinct(stems: seq<string>, i: nat, j: nat)
    requires i < j < |stems|
    ensures ExpectedJobs(stems)[i] != ExpectedJobs(stems)[j]
  {
    var a, b := JobName(i + 1, stems[i]), JobName(j + 1, stems[j]);
    if a == b {
      var p, q := TwoDigits(i + 1), TwoDigits(j + 1);
      assert a[5..] == p + ['-'] + stems[i] && b[5..] == q + ['-'] + stems[j];
      CutFirst(p, stems[i], q, stems[j], '-');
      TwoDigitsInjective(i + 1, j + 1);
    }
  }

  /** full_results: every expected unit and no other succeeded, and so did the
      control jobs. */
  predicate FullResultsHold(needs: map<string, Need>, expected: seq<string>) {
    && (forall name :: name in needs && StartsWith(name, "full-") ==> name in expected && needs[name].result == SUCCESS)
    && (forall name :: name in expected ==> name in needs && StartsWith(name, "full-"))
    && (forall name :: name in CONTROLS ==> name in needs && needs[name].result == SUCCESS)
  }

  function FullResults(needs: map<string, Need>): map<string, string> {
    map name | name in needs && StartsWith(name, "full-") && needs[name].result.Some? :: needs[name].result.value
  }

  function ActiveFullJobs(jobs: seq<Job>): nat {
    |Filter(jobs, (job: Job) => StartsWith(job.name, "full-") && job.status != "completed")|
  }

  // ---------------------------------------------------------------- emission

  datatype Contract = Contract(hash: string, qualificationWorkflow: string, mergeWorkflow: string, fullRuns: nat, fullAttempts: nat)

  /** The merge-ready branch of main: the receipt, or nothing when any gate
      blocks. `proofAccepted` is the verdict on the separate proof receipt. */
  function MergeReady(
    contract: Contract, bound: Binding, runId: nat, attempt: nat, proofAccepted: bool,
    needs: map<string, Need>, jobs: seq<Job>, runs: seq<Run>, expected: seq<string>): Option<Receipt>
  {
    if !proofAccepted || "wait-qualification" !in needs || !FullResultsHold(needs, expected) || ActiveFullJobs(jobs) != 0 || !NoFailures(jobs) ||
       !SingleFull(runs, contract.mergeWorkflow, bound.candidate, bound.pr, runId, attempt, contract.fullRuns, contract.fullAttempts)
    then None
    else
      var qualification := LatestSuccess(runs, contract.qualificationWorkflow, bound.candidate, bound.pr);
      var waited := needs["wait-qualification"];
      if qualification.None? || waited.runId != Some(qualification.value.id) ||
         waited.runAttempt != qualification.value.attempt || qualification.value.attempt.None? ||
         waited.frozenMain != Some(bound.frozenMain)
      then None
      else Some(Receipt(1, MERGE_READY, contract.hash, bound.candidate, bound.tree, bound.pr, runId, attempt,
                        Some(0), [], RunRefOf(qualification.value), FullResults(needs), None, None))
  }

  /** lightweight_ready: the receipt for a change class without a full gate. */
  function LightweightReady(
    contract: Contract, bound: Binding, runId: nat, attempt: nat,
    changeClass: string, gateRequired: bool, runs: seq<Run>, current: Run): Option<Receipt>
  {
    if gateRequired || changeClass !in LIGHT_CLASSES ||
       !SingleFull(runs, contract.mergeWorkflow, bound.candidate, bound.pr, runId, attempt, contract.fullRuns, contract.fullAttempts) ||
       current.headSha != bound.candidate || current.attempt != Some(attempt) ||
       Split(current.path, '@')[0] != contract.mergeWorkflow || !BindsPr(current, bound.pr)
    then None
    else
      var qualification := LatestSuccess(runs, contract.qualificationWorkflow, bound.candidate, bound.pr);
      if qualification.None? then None
      else Some(Receipt(1, LIGHTWEIGHT_MERGE_READY, contract.hash, bound.candidate, bound.tree, bound.pr, runId, attempt,
                        None, [], RunRefOf(qualification.value), map[], Some(changeClass), Some(false)))
  }

  // ------------------------------------------------------------ verification

  predicate VerifyReceipt(
    r: Receipt, contractHash: string, candidate: string, tree: string, pr: nat, mergeRun: Run, qualification: Run,
    expected: seq<string>)
  {
    && r.schemaVersion == 1 && r.state == MERGE_READY && r.contractHash == contractHash
    && r.candidate == candidate && r.tree == tree && r.pr == pr
    && r.mergeRunId == mergeRun.id && Some(r.mergeRunAttempt) == mergeRun.attempt
    && r.activeFullJobs == Some(0) && r.rootCauses == []
    && r.qualification == RunRefOf(qualification)
    && r.fullResults.Keys == (set name | name in expected)
    && (forall name :: name in r.fullResults ==> r.fullResults[name] == "success")
  }

  predicate VerifyLightweightReceipt(
    r: Receipt, contractHash: string, candidate: string, tree: string, pr: nat, mergeRun: Run, qualification: Run,
    changeClass: string)
  {
    && r.schemaVersion == 1 && r.state == LIGHTWEIGHT_MERGE_READY && r.contractHash == contractHash
    && r.candidate == candidate && r.tree == tree && r.pr == pr
    && r.mergeRunId == mergeRun.id && Some(r.mergeRunAttempt) == mergeRun.attempt
    && r.changeClass == Some(changeClass) && r.mergeGateRequired == Some(false)
    && r.fullResults == map[] && r.rootCauses == []
    && r.qualification == RunRefOf(qualification)
  }

  // --------------------------------------------------------------- agreement

  lemma FullResultsShape(needs: map<string, Need>, expected: seq<string>)
    requires FullResultsHold(needs, expected)
    ensures FullResults(needs).Keys == set name | name in expected
    ensures forall name :: name in FullResults(needs) ==> FullResults(needs)[name] == "success"
  {
  }

  /** An emitted receipt is accepted for exactly one binding: the same contract,
      candidate, tree, pull request, merge run, qualification and job set. */
  lemma ReceiptAcceptedExactly(
    contract: Contract, bound: Binding, runId: nat, attempt: nat, proofAccepted: bool,
    needs: map<string, Need>, jobs: seq<Job>, runs: seq<Run>, expected: seq<string>,
    contractHash: string, candidate: string, tree: string, pr: nat, mergeRun: Run, qualification: Run, expected': seq<string>)
    requires MergeReady(contract, bound, runId, attempt, proofAccepted, needs, jobs, runs, expected).Some?
    ensures var r := MergeReady(contract, bound, runId, attempt, proofAccepted, needs, jobs, runs, expected).value;
      var emitted := LatestSuccess(runs, contract.qualificationWorkflow, bound.candidate, bound.pr);
      && emitted.Some?
      && (VerifyReceipt(r, contractHash, candidate, tree, pr, mergeRun, qualification, expected') <==>
           && contractHash == contract.hash && candidate == bound.candidate && tree == bound.tree && pr == bound.pr
           && mergeRun.id == runId && mergeRun.attempt == Some(attempt)
           && RunRefOf(qualification) == RunRefOf(emitted.value)
           && (set name | name in expected') == (set name | name in expected))
  {
  }

  /** Main accepts a MERGE_READY receipt as long as the newest qualification run
      is the one it was written for ... */
  lemma ReceiptHoldsWhileNewest(
    contract: Contract, bound: Binding, runId: nat, attempt: nat, needs: map<string, Need>, jobs: seq<Job>, runs: seq<Run>,
    expected: seq<string>, later: seq<Run>, mergeRun: Run)
    requires MergeReady(contract, bound, runId, attempt, true, needs, jobs, runs, expected).Some?
    requires mergeRun.id == runId && mergeRun.attempt == Some(attempt)
    requires NewestMatching(later, contract.qualificationWorkflow, bound.candidate, bound.pr)
      == NewestMatching(runs, contract.qualificationWorkflow, bound.candidate, bound.pr)
    ensures var q := LatestSuccess(later, contract.qualificationWorkflow, bound.candidate, bound.pr);
      q.Some? && VerifyReceipt(MergeReady(contract, bound, runId, attempt, true, needs, jobs, runs, expected).value,
                               contract.hash, bound.candidate, bound.tree, bound.pr, mergeRun, q.value, expected)
  {
  }

  /** ... and refuses it once any newer matching run or attempt exists. */
  lemma ReceiptSuperseded(
    contract: Contract, bound: Binding, runId: nat, attempt: nat, needs: map<string, Need>, jobs: seq<Job>, runs: seq<Run>,
    expected: seq<string>, later: seq<Run>, newer: Run, mergeRun: Run)
    requires MergeReady(contract, bound, runId, attempt, true, needs, jobs, runs, expected).Some?
    requires newer in later && MatchesRun(newer, contract.qualificationWorkflow, bound.candidate, bound.pr)
    requires Newer(newer, LatestSuccess(runs, contract.qualificationWorkflow, bound.candidate, bound.pr).value)
    ensures var q := LatestSuccess(later, contract.qualificationWorkflow, bound.candidate, bound.pr);
      q.None? || !VerifyReceipt(MergeReady(contract, bound, runId, attempt, true, needs, jobs, runs, expected).value,
                                contract.hash, bound.candidate, bound.tree, bound.pr, mergeRun, q.value, expected)
  {
    var emitted := LatestSuccess(runs, contract.qualificationWorkflow, bound.candidate, bound.pr).value;
    Superseded(emitted, later, newer, contract.qualificationWorkflow, bound.candidate, bound.pr);
  }

  /** The lightweight pair agrees in the same way: accepted for exactly one
      binding and change class, while the newest qualification is unchanged. */
  lemma LightweightAcceptedExactly(
    contract: Contract, bound: Binding, runId: nat, attempt: nat, changeClass: string, gateRequired: bool, runs: seq<Run>, current: Run,
    contractHash: string, candidate: string, tree: string, pr: nat, mergeRun: Run, qualification: Run, changeClass': string)
    requires LightweightReady(contract, bound, runId, attempt, changeClass, gateRequired, runs, current).Some?
    ensures var r := LightweightReady(contract, bound, runId, attempt, changeClass, gateRequired, runs, current).value;
      var emitted := LatestSuccess(runs, contract.qualificationWorkflow, bound.candidate, bound.pr);
      && emitted.Some?
      && (VerifyLightweightReceipt(r, contractHash, candidate, tree, pr, mergeRun, qualification, changeClass') <==>
           && contractHash == contract.hash && candidate == bound.candidate && tree == bound.tree && pr == bound.pr
           && mergeRun.id == runId && mergeRun.attempt == Some(attempt)
           && RunRefOf(qualification) == RunRefOf(emitted.value) && changeClass' == changeClass)
      && forall expected :: !VerifyReceipt(r, contractHash, candidate, tree, pr, mergeRun, qualification, expected)
  {
  }

  lemma LightweightHoldsWhileNewest(
    contract: Contract, bound: Binding, runId: nat, attempt: nat, changeClass: string, runs: seq<Run>, current: Run,
    later: seq<Run>, mergeRun: Run)
    requires LightweightReady(contract, bound, runId, attempt, changeClass, false, runs, current).Some?
    requires mergeRun.id == runId && mergeRun.attempt == Some(attempt)
    requires NewestMatching(later, contract.qualificationWorkflow, bound.candidate, bound.pr)
      == NewestMatching(runs, contract.qualificationWorkflow, bound.candidate, bound.pr)
    ensures var q := LatestSuccess(later, contract.qualificationWorkflow, bound.candidate, bound.pr);
      q.Some? && VerifyLightweightReceipt(LightweightReady(contract, bound, runId, attempt, changeClass, false, runs, current).value,
                                          contract.hash, bound.candidate, bound.tree, bound.pr, mergeRun, q.value, changeClass)
  {
  }

  lemma LightweightSuperseded(
    contract: Contract, bound: Binding, runId: nat, attempt: nat, changeClass: string, runs: seq<Run>, current: Run,
    later: seq<Run>, newer: Run, mergeRun: Run)
    requires LightweightReady(contract, bound, runId, attempt, changeClass, false, runs, current).Some?
    requires newer in later && MatchesRun(newer, contract.qualificationWorkflow, bound.candidate, bound.pr)
    requires Newer(newer, LatestSuccess(runs, contract.qualificationWorkflow, bound.candidate, bound.pr).value)
    ensures var q := LatestSuccess(later, contract.qualificationWorkflow, bound.candidate, bound.pr);
      q.None? || !VerifyLightweightReceipt(LightweightReady(contract, bound, runId, attempt, changeClass, false, runs, current).value,
                                           contract.hash, bound.candidate, bound.tree, bound.pr, mergeRun, q.value, changeClass)
  {
    var emitted := LatestSuccess(runs, contract.qualificationWorkflow, bound.candidate, bound.pr).value;
    Superseded(emitted, later, newer, contract.qualificationWorkflow, bound.candidate, bound.pr);
  }
}
