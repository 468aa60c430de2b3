/** The check of a merged pull request on main (verify_main and route_for_pr): main
    routes the changed files again and asks for the receipt of that kind. */
module MainVerification {
  import opened Wrappers
  import opened Ordering
  import opened ChangeRouter
  import opened DeliveryRuns
  import opened QualificationWait
  import opened MergeReceipts

  /** A changed file as the API lists it; absent names are empty. */
  datatype Change = Change(filename: string, previous: string)

  /** Every name that the changes mention, old or new. */
  ghost predicate Mentions(changes: seq<Change>, name: string) {
    name != "" && exists i :: 0 <= i < |changes| && (changes[i].filename == name || changes[i].previous == name)
  }

  /** The collection loop of route_for_pr. */
  method ChangedFiles(changes: seq<Change>) returns (files: seq<string>)
    ensures forall name :: name in files <==> Mentions(changes, name)
    ensures Ascending(files)
  {
    var names: set<string> := {};
    var i := 0;
    while i < |changes|
      invariant 0 <= i <= |changes|
      invariant forall name :: name in names <==> Mentions(changes[..i], name)
    {
      MentionsStep(changes, i);
      if changes[i].filename != "" {
        names := names + {changes[i].filename};
      }
      if changes[i].previous != "" {
        names := names + {changes[i].previous};
      }
      i := i + 1;
    }
    assert changes[..i] == changes;
    SortedKeysAscending(names);
    files := SortedKeys(names);
  }

  lemma MentionsStep(changes: seq<Change>, i: nat)
    requires i < |changes|
    ensures forall name :: Mentions(changes[..i + 1], name) <==>
      Mentions(changes[..i], name) || (name != "" && (changes[i].filename == name || changes[i].previous == name))
  {
    forall name ensures Mentions(changes[..i + 1], name) <==>
      Mentions(changes[..i], name) || (name != "" && (changes[i].filename == name || changes[i].previous == name))
    {
      if Mentions(changes[..i + 1], name) {
        var j :| 0 <= j < i + 1 && (changes[j].filename == name || changes[j].previous == name);
        assert j < i ==> changes[..i][j] == changes[j];
      }
      if Mentions(changes[..i], name) {
        var j :| 0 <= j < i && (changes[..i][j].filename == name || changes[..i][j].previous == name);
        assert changes[..i + 1][j] == changes[j];
      }
      assert changes[..i + 1][i] == changes[i];
    }
  }

  function ClassText(c: ChangeClass): string {
    match c
    case SkillOnly => "skill_only"
    case DesignGovernance => "design_governance"
    case DocsOnly => "docs_only"
    case ProductChange => "product_change"
  }

  /** Routes without the gate are exactly those with a lightweight class, so the
      second half of lightweight_ready's test never decides. */
  lemma LightClasses(r: Routing)
    ensures ClassText(r.changeClass) in LIGHT_CLASSES <==> !r.GateRequired()
  {
    assert "product_change" !in LIGHT_CLASSES by { assert "product_change"[0] == 'p'; }
  }

  /** What main does with the receipt of the newest merge run: the gate decides
      which kind it asks for. `provenElsewhere` stands for the recovery proof and
      the list of lightweight jobs. */
  predicate VerifyMain(
    contract: Contract, candidate: string, tree: string, pr: nat, runs: seq<Run>, routing: Routing,
    r: Receipt, expected: seq<string>, provenElsewhere: bool)
  {
    var mergeRun := LatestSuccess(runs, contract.mergeWorkflow, candidate, pr);
    var qualification := LatestSuccess(runs, contract.qualificationWorkflow, candidate, pr);
    && mergeRun.Some? && mergeRun.value.attempt.Some?
    && SingleFull(runs, contract.mergeWorkflow, candidate, pr, mergeRun.value.id, mergeRun.value.attempt.value, contract.fullRuns, contract.fullAttempts)
    && qualification.Some? && provenElsewhere
    && if routing.GateRequired()
       then VerifyReceipt(r, contract.hash, candidate, tree, pr, mergeRun.value, qualification.value, expected)
       else VerifyLightweightReceipt(r, contract.hash, candidate, tree, pr, mergeRun.value, qualification.value, ClassText(routing.changeClass))
  }

  /** The runs that main sees are those the receipt was written for: the merge
      run has succeeded, and both newest runs are the same as then. */
  ghost predicate SameRuns(contract: Contract, bound: Binding, runId: nat, attempt: nat, runs: seq<Run>, later: seq<Run>) {
    var mergeRun := LatestSuccess(later, contract.mergeWorkflow, bound.candidate, bound.pr);
    && mergeRun.Some? && mergeRun.value.id == runId && mergeRun.value.attempt == Some(attempt)
    && SingleFull(later, contract.mergeWorkflow, bound.candidate, bound.pr, runId, attempt, contract.fullRuns, contract.fullAttempts)
    && NewestMatching(later, contract.qualificationWorkflow, bound.candidate, bound.pr)
       == NewestMatching(runs, contract.qualificationWorkflow, bound.candidate, bound.pr)
  }

  /** A lightweight receipt, written on the routing of the changed files, satisfies
      main if and only if main's own routing needs no gate and has the same class. */
  lemma LightweightReceiptOnMain(
    contract: Contract, bound: Binding, runId: nat, attempt: nat, runs: seq<Run>, current: Run, later: seq<Run>,
    before: Routing, after: Routing, expected: seq<string>)
    requires LightweightReady(contract, bound, runId, attempt, ClassText(before.changeClass), before.GateRequired(), runs, current).Some?
    requires SameRuns(contract, bound, runId, attempt, runs, later)
    ensures var r := LightweightReady(contract, bound, runId, attempt, ClassText(before.changeClass), before.GateRequired(), runs, current).value;
      VerifyMain(contract, bound.candidate, bound.tree, bound.pr, later, after, r, expected, true)
      <==> !after.GateRequired() && after.changeClass == before.changeClass
  {
    var mergeRun := LatestSuccess(later, contract.mergeWorkflow, bound.candidate, bound.pr).value;
    var q := LatestSuccess(later, contract.qualificationWorkflow, bound.candidate, bound.pr).value;
    LightweightAcceptedExactly(contract, bound, runId, attempt, ClassText(before.changeClass), before.GateRequired(), runs, current,
                               contract.hash, bound.candidate, bound.tree, bound.pr, mergeRun, q, ClassText(after.changeClass));
    ClassTexts(before.changeClass, after.changeClass);
  }

  lemma ClassTexts(a: ChangeClass, b: ChangeClass)
    ensures ClassText(a) == ClassText(b) <==> a == b
  {
    assert "skill_only"[0] == 's' && "design_governance"[1] == 'e' && "docs_only"[1] == 'o' && "product_change"[0] == 'p';
    assert "design_governance"[0] == 'd' && "docs_only"[0] == 'd';
  }

  /** A full receipt satisfies main if and only if main's routing needs the gate. */
  lemma FullReceiptOnMain(
    contract: Contract, bound: Binding, runId: nat, attempt: nat, needs: map<string, Need>, jobs: seq<Job>, runs: seq<Run>,
    expected: seq<string>, later: seq<Run>, after: Routing)
    requires MergeReady(contract, bound, runId, attempt, true, needs, jobs, runs, expected).Some?
    requires SameRuns(contract, bound, runId, attempt, runs, later)
    ensures var r := MergeReady(contract, bound, runId, attempt, true, needs, jobs, runs, expected).value;
      VerifyMain(contract, bound.candidate, bound.tree, bound.pr, later, after, r, expected, true) <==> after.GateRequired()
  {
    var mergeRun := LatestSuccess(later, contract.mergeWorkflow, bound.candidate, bound.pr).value;
    ReceiptHoldsWhileNewest(contract, bound, runId, attempt, needs, jobs, runs, expected, later, mergeRun);
  }

  /** Pull request and main agree on the kind of receipt: as long as the changed
      files are the same set, in whatever order and with whatever repetitions they
      are listed, main asks for the class of receipt that the pull request was
      routed to, and accepts the one that was written. */
  lemma SameFilesSameReceipt(
    contract: Contract, bound: Binding, runId: nat, attempt: nat, needs: map<string, Need>, jobs: seq<Job>, runs: seq<Run>,
    current: Run, expected: seq<string>, later: seq<Run>, k: Kinds, files: seq<string>, files': seq<string>)
    requires forall p :: p in files <==> p in files'
    requires SameRuns(contract, bound, runId, attempt, runs, later)
    ensures var before, after := Routed(k, files), Routed(k, files');
      var light := LightweightReady(contract, bound, runId, attempt, ClassText(before.changeClass), before.GateRequired(), runs, current);
      var full := MergeReady(contract, bound, runId, attempt, true, needs, jobs, runs, expected);
      && (light.Some? ==> VerifyMain(contract, bound.candidate, bound.tree, bound.pr, later, after, light.value, expected, true))
      && (full.Some? ==>
           (VerifyMain(contract, bound.candidate, bound.tree, bound.pr, later, after, full.value, expected, true) <==> before.GateRequired()))
  {
    var before, after := Routed(k, files), Routed(k, files');
    RoutingIgnoresOrder(k, files, files');
    OneRoutingOnMain(contract, bound, runId, attempt, needs, jobs, runs, current, expected, later, before, after);
  }

  lemma OneRoutingOnMain(
    contract: Contract, bound: Binding, runId: nat, attempt: nat, needs: map<string, Need>, jobs: seq<Job>, runs: seq<Run>,
    current: Run, expected: seq<string>, later: seq<Run>, before: Routing, after: Routing)
    requires before == after && SameRuns(contract, bound, runId, attempt, runs, later)
    ensures var light := LightweightReady(contract, bound, runId, attempt, ClassText(before.changeClass), before.GateRequired(), runs, current);
      var full := MergeReady(contract, bound, runId, attempt, true, needs, jobs, runs, expected);
      && (light.Some? ==> VerifyMain(contract, bound.candidate, bound.tree, bound.pr, later, after, light.value, expected, true))
      && (full.Some? ==>
           (VerifyMain(contract, bound.candidate, bound.tree, bound.pr, later, after, full.value, expected, true) <==> before.GateRequired()))
  {
    if LightweightReady(contract, bound, runId, attempt, ClassText(before.changeClass), before.GateRequired(), runs, current).Some? {
      LightweightReceiptOnMain(contract, bound, runId, attempt, runs, current, later, before, after, expected);
    }
    if MergeReady(contract, bound, runId, attempt, true, needs, jobs, runs, expected).Some? {
      FullReceiptOnMain(contract, bound, runId, attempt, needs, jobs, runs, expected, later, after);
    }
  }
}
