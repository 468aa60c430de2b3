/** The bounded wait for a candidate's qualification (wait_qualification). */
module QualificationWait {
  import opened Wrappers
  import opened DeliveryRuns

  datatype Binding = Binding(candidate: string, tree: string, frozenMain: string, pr: nat, issues: seq<nat>)

  datatype Limits = Limits(
    qualificationSeconds: nat, discoverySeconds: nat, noProgressSeconds: nat, pollSeconds: nat,
    fullRuns: nat, fullAttempts: nat)

  /** Who waits, and for which workflows. */
  datatype Watch = Watch(qualificationWorkflow: string, mergeWorkflow: string, candidate: string, pr: nat, runId: nat, attempt: nat)

  /** What one poll sees: three clock readings (at the top, when progress is
      recorded, and at the lease check), the live binding if it holds, the runs
      of the candidate and the jobs of its newest qualification run. */
  datatype Observation = Observation(top: int, marked: int, leased: int, binding: Option<Binding>, runs: seq<Run>, jobs: seq<Job>)

  datatype Reason =
    | DeadlineExceeded | BindingLost | BindingChanged | FullBudgetExceeded
    | RunMissing | AttemptMissing | JobFailure | NotSuccess | LeaseExpired

  datatype Outcome = Qualified(binding: Binding, run: RunRef) | Refused(reason: Reason)

  /** The newest qualification run with its attempt and the state of its jobs. */
  datatype Progress = Progress(id: nat, attempt: Option<nat>, jobs: seq<(nat, string, Option<string>, seq<JobStep>)>)

  function JobStates(jobs: seq<Job>): seq<(nat, string, Option<string>, seq<JobStep>)> {
    seq(|jobs|, i requires 0 <= i < |jobs| => (jobs[i].id, jobs[i].status, jobs[i].conclusion, jobs[i].steps))
  }

  function Selected(w: Watch, o: Observation): Option<Run> {
    NewestMatching(o.runs, w.qualificationWorkflow, w.candidate, w.pr)
  }

  function ProgressOf(w: Watch, o: Observation): Option<Progress> {
    var run := Selected(w, o);
    if run.None? then None else Some(Progress(run.value.id, run.value.attempt, JobStates(o.jobs)))
  }

  predicate WithinBudget(w: Watch, o: Observation, limits: Limits) {
    SingleFull(o.runs, w.mergeWorkflow, w.candidate, w.pr, w.runId, w.attempt, limits.fullRuns, limits.fullAttempts)
  }

  /** What a poll makes of its observation. */
  datatype Poll = Poll(
    top: int, marked: int, leased: int, binding: Option<Binding>, withinBudget: bool,
    run: Option<Run>, clean: bool, progress: Option<Progress>)

  function Look(w: Watch, o: Observation, limits: Limits): (p: Poll)
    ensures p.run.Some? <==> p.progress.Some?
  {
    Poll(o.top, o.marked, o.leased, o.binding, WithinBudget(w, o, limits), Selected(w, o), NoFailures(o.jobs), ProgressOf(w, o))
  }

  type View = nat -> Poll

  /** Readings never go back and the sleep after poll `i` takes the poll interval. */
  ghost predicate Ticks(view: View, i: nat, limits: Limits) {
    && view(i).top <= view(i).marked <= view(i).leased
    && view(i).leased + limits.pollSeconds <= view(i + 1).top
    && (view(i).run.Some? <==> view(i).progress.Some?)
  }

  ghost predicate Clocked(view: View, start: int, limits: Limits) {
    start <= view(0).top && forall i: nat :: Ticks(view, i, limits)
  }

  /** Polls `i` to `n - 1` saw this progress or no run at all. */
  ghost predicate Held(view: View, i: nat, n: nat, key: Option<Progress>) {
    forall k: nat :: i <= k < n ==> view(k).progress.None? || view(k).progress == key
  }

  /** The same run made no progress from poll `i` to poll `j`. */
  ghost predicate Stalled(view: View, i: nat, j: nat) {
    i <= j && view(i).progress.Some? && view(i).progress == view(j).progress && Held(view, i, j, view(j).progress)
  }

  /** A poll that lets the wait go on. */
  predicate Continues(p: Poll, start: int, limits: Limits) {
    && p.top - start < limits.qualificationSeconds
    && p.binding.Some? && p.withinBudget
    && (p.run.None? ==> p.top - start < limits.discoverySeconds)
    && (p.run.Some? ==> p.run.value.attempt.Some? && p.clean && p.run.value.status != "completed")
  }

  /** What the first `n` polls satisfied if the wait went on after them: each
      continued, all saw one binding, and no stall lasted as long as the lease. */
  ghost predicate Waited(view: View, n: nat, start: int, limits: Limits) {
    && (forall i: nat :: i < n ==> Continues(view(i), start, limits) && view(i).binding == view(0).binding)
    && (forall i: nat, j: nat :: j < n && Stalled(view, i, j) ==> view(j).leased - view(i).marked < limits.noProgressSeconds)
  }

  /** Where the progress lease stands after `n` polls: it runs from the first
      poll that saw the progress that was seen last. */
  ghost predicate LeaseState(view: View, n: nat, previous: Option<Progress>, progressed: int, first: nat) {
    && (previous.None? ==> forall k: nat :: k < n ==> view(k).progress.None?)
    && (previous.Some? ==> first < n && progressed == view(first).marked && view(first).progress == previous && Held(view, first, n, previous))
    && (previous.Some? ==> forall i: nat :: i < n && view(i).progress == previous && Held(view, i, n, previous) ==> first <= i)
  }

  lemma {:induction false} MarkedGrows(view: View, start: int, limits: Limits, i: nat, j: nat)
    requires Clocked(view, start, limits) && i <= j
    ensures view(i).marked <= view(j).marked
    decreases j - i
  {
    if i < j {
      assert Ticks(view, i, limits) && Ticks(view, i + 1, limits);
      MarkedGrows(view, start, limits, i + 1, j);
    }
  }

  lemma HeldStep(view: View, i: nat, n: nat, key: Option<Progress>)
    requires i <= n
    ensures Held(view, i, n + 1, key) <==> Held(view, i, n, key) && (view(n).progress.None? || view(n).progress == key)
  {
  }

  /** Reading the progress of poll `n` keeps the lease state: the record moves
      exactly when the progress differs from the one before. */
  lemma LeaseStep(view: View, n: nat, previous: Option<Progress>, progressed: int, first: nat)
    requires LeaseState(view, n, previous, progressed, first)
    ensures var key := view(n).progress;
      if key.Some? && key != previous then LeaseState(view, n + 1, key, view(n).marked, n)
      else LeaseState(view, n + 1, previous, progressed, first)
  {
    var key := view(n).progress;
    if key.Some? && key != previous {
      forall i: nat | i < n + 1 && view(i).progress == key && Held(view, i, n + 1, key) ensures n <= i {
      }
    } else {
      forall i: nat | i <= n && previous.Some? && Held(view, i, n + 1, previous) ensures Held(view, i, n, previous) {
        HeldStep(view, i, n, previous);
      }
    }
  }

  /** The lease is up exactly when some stall has lasted as long as it. */
  ghost predicate LeaseUp(view: View, n: nat, limits: Limits) {
    exists i: nat :: Stalled(view, i, n) && view(n).leased - view(i).marked >= limits.noProgressSeconds
  }

  lemma LeaseDecides(view: View, n: nat, start: int, limits: Limits, previous: Option<Progress>, progressed: int, first: nat)
    requires Clocked(view, start, limits) && LeaseState(view, n + 1, previous, progressed, first)
    requires view(n).progress.Some? ==> previous == view(n).progress
    ensures LeaseUp(view, n, limits) <==> view(n).progress.Some? && view(n).leased - progressed >= limits.noProgressSeconds
  {
    if view(n).progress.Some? {
      HeldStep(view, first, n, previous);
      assert Stalled(view, first, n);
    }
    forall i: nat | Stalled(view, i, n) ensures view(first).marked <= view(i).marked {
      HeldStep(view, i, n, previous);
      MarkedGrows(view, start, limits, first, i);
    }
  }

  lemma WaitedStep(view: View, n: nat, start: int, limits: Limits)
    requires Waited(view, n, start, limits)
    ensures Waited(view, n + 1, start, limits) <==>
      Continues(view(n), start, limits) && view(n).binding == view(0).binding && !LeaseUp(view, n, limits)
  {
  }

  /** A poll that ends the wait in success. */
  predicate Qualifying(p: Poll, start: int, limits: Limits, known: Option<Binding>) {
    && p.top - start < limits.qualificationSeconds
    && p.binding.Some? && (known.None? || known == p.binding) && p.withinBudget
    && p.run.Some? && p.run.value.attempt.Some? && p.clean && Succeeded(p.run.value)
  }

  /** What each refusal by one poll says about it. */
  predicate Grounds(p: Poll, start: int, limits: Limits, known: Option<Binding>, reason: Reason) {
    match reason
    case DeadlineExceeded => p.top - start >= limits.qualificationSeconds
    case BindingLost => p.binding.None?
    case BindingChanged => known.Some? && p.binding != known
    case FullBudgetExceeded => !p.withinBudget
    case RunMissing => p.run.None? && p.top - start >= limits.discoverySeconds
    case AttemptMissing => p.run.Some? && p.run.value.attempt.None?
    case JobFailure => p.run.Some? && !p.clean
    case NotSuccess => p.run.Some? && p.run.value.status == "completed" && !Succeeded(p.run.value)
    case LeaseExpired => false
  }

  /** The checks of one poll, up to its lease: a final outcome, or none. */
  method Examine(p: Poll, start: int, limits: Limits, known: Option<Binding>) returns (outcome: Option<Outcome>, bound: Option<Binding>)
    requires p.top - start < limits.qualificationSeconds
    ensures outcome.None? <==> Continues(p, start, limits) && (known.None? || known == p.binding)
    ensures outcome.None? ==> bound == p.binding
    ensures outcome.Some? && outcome.value.Refused? ==> Grounds(p, start, limits, known, outcome.value.reason)
    ensures outcome.Some? && outcome.value.Qualified? <==> Qualifying(p, start, limits, known)
    ensures outcome.Some? && outcome.value.Qualified? ==>
      p.binding == Some(outcome.value.binding) && outcome.value.run == RunRefOf(p.run.value)
  {
    bound := known;
    if p.binding.None? {
      return Some(Refused(BindingLost)), bound;
    }
    if known.Some? && known != p.binding {
      return Some(Refused(BindingChanged)), bound;
    }
    bound := p.binding;
    if !p.withinBudget {
      return Some(Refused(FullBudgetExceeded)), bound;
    }
    if p.run.None? {
      return if p.top - start < limits.discoverySeconds then None else Some(Refused(RunMissing)), bound;
    }
    if p.run.value.attempt.None? {
      return Some(Refused(AttemptMissing)), bound;
    }
    if !p.clean {
      return Some(Refused(JobFailure)), bound;
    }
    if p.run.value.status == "completed" {
      outcome := Some(if p.run.value.conclusion == Some("success") then Qualified(bound.value, RunRefOf(p.run.value)) else Refused(NotSuccess));
      return;
    }
    outcome := None;
  }

  function KnownBinding(view: View, n: nat): Option<Binding> { if n == 0 then None else view(0).binding }

  /** wait_qualification. It always ends, within the polls that fit the deadline,
      at the first poll that does not let the wait go on. It qualifies exactly if
      that poll finds the binding of all polls before it, and a newest run that
      succeeded without a failed job or step; otherwise it refuses on grounds
      that hold, and on the lease only when a stall has lasted as long. */
  method WaitQualification(view: View, start: int, limits: Limits) returns (outcome: Outcome, waits: nat)
    requires Clocked(view, start, limits) && limits.pollSeconds > 0
    ensures waits > 0 ==> (waits - 1) * limits.pollSeconds < limits.qualificationSeconds
    ensures outcome != Refused(DeadlineExceeded) ==> waits * limits.pollSeconds < limits.qualificationSeconds
    ensures Waited(view, waits, start, limits) && !Waited(view, waits + 1, start, limits)
    ensures outcome.Qualified? <==> Qualifying(view(waits), start, limits, KnownBinding(view, waits))
    ensures outcome.Qualified? ==>
      && outcome.run == RunRefOf(view(waits).run.value)
      && forall i: nat :: i <= waits ==> view(i).binding == Some(outcome.binding) && view(i).withinBudget
    ensures outcome.Refused? ==>
      if outcome.reason.LeaseExpired? then LeaseUp(view, waits, limits)
      else Grounds(view(waits), start, limits, KnownBinding(view, waits), outcome.reason)
  {
    var previous: Option<Progress>, progressed, bound := None, start, None;
    ghost var first: nat := 0;
    waits := 0;
    while true
      invariant waits * limits.pollSeconds <= view(waits).top - start
      invariant waits > 0 ==> (waits - 1) * limits.pollSeconds < limits.qualificationSeconds
      invariant Waited(view, waits, start, limits)
      invariant bound == KnownBinding(view, waits)
      invariant LeaseState(view, waits, previous, progressed, first)
      decreases limits.qualificationSeconds - (view(waits).top - start)
    {
      var p := view(waits);
      assert Ticks(view, waits, limits);
      WaitedStep(view, waits, start, limits);
      if p.top - start >= limits.qualificationSeconds {
        return Refused(DeadlineExceeded), waits;
      }
      var verdict;
      verdict, bound := Examine(p, start, limits, bound);
      if verdict.Some? {
        return verdict.value, waits;
      }
      LeaseStep(view, waits, previous, progressed, first);
      if p.progress.Some? && p.progress != previous {
        previous, progressed := p.progress, p.marked;
        first := waits;
      }
      LeaseDecides(view, waits, start, limits, previous, progressed, first);
      if p.progress.Some? && p.leased - progressed >= limits.noProgressSeconds {
        return Refused(LeaseExpired), waits;
      }
      assert (waits + 1) * limits.pollSeconds == waits * limits.pollSeconds + limits.pollSeconds;
      waits := waits + 1;
    }
  }

  /** The polls of a watch over a stream of observations. */
  function ViewOf(w: Watch, world: nat -> Observation, limits: Limits): View {
    (i: nat) => Look(w, world(i), limits)
  }

  /** A matching run that no matching run is newer than. */
  ghost predicate NewestOf(run: Run, runs: seq<Run>, workflow: string, candidate: string, pr: nat) {
    && run in runs && MatchesRun(run, workflow, candidate, pr)
    && forall other :: other in runs && MatchesRun(other, workflow, candidate, pr) ==> !Newer(other, run)
  }

  /** What a qualifying poll saw: the newest matching run completed with
      success, and no job or step failed. */
  lemma QualifiedPoll(w: Watch, world: nat -> Observation, n: nat, start: int, limits: Limits, known: Option<Binding>)
    requires Qualifying(ViewOf(w, world, limits)(n), start, limits, known)
    ensures var run := ViewOf(w, world, limits)(n).run.value;
      NewestOf(run, world(n).runs, w.qualificationWorkflow, w.candidate, w.pr) && Succeeded(run)
    ensures forall job :: job in world(n).jobs ==> !JobFailed(job)
  {
    var o := world(n);
    var run := Selected(w, o).value;
    var matching := Matching(o.runs, w.qualificationWorkflow, w.candidate, w.pr);
    assert run in matching;
    forall other | other in o.runs && MatchesRun(other, w.qualificationWorkflow, w.candidate, w.pr) ensures !Newer(other, run) {
      assert other in matching;
    }
    assert NewestOf(run, o.runs, w.qualificationWorkflow, w.candidate, w.pr);
  }
}
