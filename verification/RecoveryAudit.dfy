/** The auditor of a dependency recovery receipt (verify_bundle), for any attempt
    budget, and what an accepted receipt proves. */
module RecoveryAudit {
  import opened Wrappers
  import opened Sequences
  import opened Ordering
  import opened RecoveryProtocol

  datatype ReportState = BLOCKED | READY | RECOVERED

  datatype Row = Row(
    ordinal: nat, requested: seq<string>, code: int, stdoutFile: LogFile, stderrFile: LogFile,
    stdoutDigest: string, stderrDigest: string, started: int, completed: int, failures: Option<Failures>)

  datatype Report = Report(state: ReportState, attempts: seq<Row>)

  datatype Policy = Policy(maxAttempts: nat, maxOutputBytes: nat, processSeconds: int, windowSeconds: int)

  /** Start and end of the workflow step that produced the receipt. */
  datatype StepTimes = StepTimes(lower: int, upper: int)

  const TIMED_OUT := 124

  /** The files of a bundle besides the receipt. */
  datatype LogFile = Stdout(ordinal: nat) | Stderr(ordinal: nat) | Stray(name: string)

  function FileName(f: LogFile): string {
    match f
    case Stdout(n) => "download-" + Decimal(n) + ".json"
    case Stderr(n) => "download-" + Decimal(n) + ".stderr"
    case Stray(name) => name
  }

  /** The names of the logs of different attempts never collide. */
  lemma LogNamesDistinct(a: LogFile, b: LogFile)
    requires !a.Stray? && !b.Stray? && FileName(a) == FileName(b)
    ensures a == b
  {
    var s := FileName(a);
    assert s[|s| - 1] == (if a.Stdout? then 'n' else 'r') == (if b.Stdout? then 'n' else 'r');
    assert Decimal(a.ordinal) == s[9..|s| - (if a.Stdout? then 5 else 7)];
    assert Decimal(b.ordinal) == s[9..|s| - (if b.Stdout? then 5 else 7)];
    DecimalInjective(a.ordinal, b.ordinal);
  }

  type Logs = map<LogFile, Bytes>

  // ------------------------------------------------------------------- audit

  /** download_results for a fixed lock table: what an output proves about the
      modules it was asked for. */
  type Results = (Output, seq<string>) -> Option<Failures>

  /** What producer and auditor compute with: download_results, the digest and
      the order in which a set of modules is requested. */
  datatype Kit = Kit(results: Results, digest: Bytes -> string, order: set<string> -> seq<string>)

  /** Every attempt asks for what the attempt before it failed to download. */
  function RequestedAt(attempts: seq<Row>, all: seq<string>, kit: Kit, i: nat): seq<string>
    requires i <= |attempts|
  {
    if i == 0 then all
    else if attempts[i - 1].failures.None? then []
    else kit.order(attempts[i - 1].failures.value.Keys)
  }

  predicate LogsMatch(row: Row, n: nat, logs: Logs, digest: Bytes -> string, limit: nat) {
    && row.stdoutFile == Stdout(n) && row.stderrFile == Stderr(n)
    && Stdout(n) in logs && Stderr(n) in logs
    && |logs[Stdout(n)]| <= limit && |logs[Stderr(n)]| <= limit
    && row.stdoutDigest == digest(logs[Stdout(n)]) && row.stderrDigest == digest(logs[Stderr(n)])
  }

  predicate TimeFits(attempts: seq<Row>, i: nat, policy: Policy, step: StepTimes)
    requires i < |attempts|
  {
    var a, b := attempts[i].started, attempts[i].completed;
    && (if i == 0 then step.lower - 1 else attempts[i - 1].completed) <= a <= b <= step.upper + 1
    && a >= step.lower - 1 && b - a <= policy.processSeconds + 1
  }

  predicate TimesFit(attempts: seq<Row>, policy: Policy, step: StepTimes) {
    && attempts != []
    && (forall i :: 0 <= i < |attempts| ==> TimeFits(attempts, i, policy, step))
    && attempts[|attempts| - 1].completed - attempts[0].started <= policy.windowSeconds
  }

  function LoggedOutput(row: Row, n: nat, logs: Logs): Output
    requires Stdout(n) in logs && Stderr(n) in logs
  {
    Output(row.code, logs[Stdout(n)], logs[Stderr(n)])
  }

  predicate RowReplays(attempts: seq<Row>, i: nat, logs: Logs, all: seq<string>, kit: Kit, limit: nat)
    requires i < |attempts|
  {
    var row := attempts[i];
    && row.ordinal == i + 1
    && row.requested == RequestedAt(attempts, all, kit, i)
    && LogsMatch(row, i + 1, logs, kit.digest, limit)
    && row.failures.Some?
    && kit.results(LoggedOutput(row, i + 1, logs), row.requested) == Some(row.failures.value)
    && (row.failures.value != map[] <==> i + 1 < |attempts|)
  }

  /** Exactly the two logs of each of the first `n` attempts. */
  ghost predicate LogsOf(files: set<LogFile>, n: nat) {
    forall f :: f in files <==> !f.Stray? && 1 <= f.ordinal <= n
  }

  function ExpectedState(attempts: nat): ReportState {
    if attempts == 1 then READY else RECOVERED
  }

  /** What the auditor must be able to reproduce from the retained logs. */
  ghost predicate Replays(report: Report, logs: Logs, all: seq<string>, kit: Kit, policy: Policy, step: StepTimes) {
    && 1 <= |report.attempts| <= policy.maxAttempts
    && report.state == ExpectedState(|report.attempts|)
    && (forall i :: 0 <= i < |report.attempts| ==> RowReplays(report.attempts, i, logs, all, kit, policy.maxOutputBytes))
    && TimesFit(report.attempts, policy, step)
    && LogsOf(logs.Keys, |report.attempts|)
  }

  /** The checks that verify_bundle makes of one attempt. */
  method ReplayRow(attempts: seq<Row>, i: nat, requested: seq<string>, logs: Logs, ghost all: seq<string>, kit: Kit, limit: nat)
    returns (ok: bool)
    requires i < |attempts| && requested == RequestedAt(attempts, all, kit, i)
    ensures ok <==> RowReplays(attempts, i, logs, all, kit, limit)
  {
    var row := attempts[i];
    if row.ordinal != i + 1 || row.requested != requested || !LogsMatch(row, i + 1, logs, kit.digest, limit) {
      return false;
    }
    var failed := kit.results(LoggedOutput(row, i + 1, logs), requested);
    ok := failed.Some? && row.failures == Some(failed.value) && ((failed.value != map[]) == (i + 1 < |attempts|));
  }

  ghost predicate ReplaysTo(attempts: seq<Row>, n: nat, logs: Logs, all: seq<string>, kit: Kit, policy: Policy, step: StepTimes)
    requires n <= |attempts|
  {
    forall i :: 0 <= i < n ==> RowReplays(attempts, i, logs, all, kit, policy.maxOutputBytes) && TimeFits(attempts, i, policy, step)
  }

  /** The attempt loop of verify_bundle. */
  method ReplayRows(attempts: seq<Row>, logs: Logs, all: seq<string>, kit: Kit, policy: Policy, step: StepTimes)
    returns (ok: bool)
    ensures ok <==> ReplaysTo(attempts, |attempts|, logs, all, kit, policy, step)
  {
    var requested := all;
    var i := 0;
    while i < |attempts|
      invariant 0 <= i <= |attempts|
      invariant requested == RequestedAt(attempts, all, kit, i)
      invariant ReplaysTo(attempts, i, logs, all, kit, policy, step)
    {
      var replayed := ReplayRow(attempts, i, requested, logs, all, kit, policy.maxOutputBytes);
      if !replayed || !TimeFits(attempts, i, policy, step) {
        return false;
      }
      requested := kit.order(attempts[i].failures.value.Keys);
      i := i + 1;
    }
    ok := true;
  }

  /** verify_bundle: accepts exactly the reports that replaying their logs
      reproduces. */
  method VerifyBundle(report: Report, logs: Logs, all: seq<string>, kit: Kit, policy: Policy, step: StepTimes) returns (ok: bool)
    ensures ok <==> Replays(report, logs, all, kit, policy, step)
  {
    var attempts := report.attempts;
    if !(1 <= |attempts| <= policy.maxAttempts) || report.state != ExpectedState(|attempts|) {
      return false;
    }
    var replayed := ReplayRows(attempts, logs, all, kit, policy, step);
    var allowed: set<LogFile> := {};
    var ordinal := 0;
    while ordinal < |attempts|
      invariant 0 <= ordinal <= |attempts| && LogsOf(allowed, ordinal)
    {
      ordinal := ordinal + 1;
      allowed := allowed + {Stdout(ordinal), Stderr(ordinal)};
    }
    ok := replayed && attempts[|attempts| - 1].completed - attempts[0].started <= policy.windowSeconds && logs.Keys == allowed;
  }

  // --------------------------------------------------------- audit soundness

  /** What an attempt asked for and what its records prove. */
  datatype Attempt = Attempt(requested: seq<string>, code: int, verdicts: seq<Verdict>, failed: Failures)

  /** Each attempt is settled, and each retry asks for exactly the modules that
      the attempt before it lost; only the last attempt loses none. */
  ghost predicate Linked(chain: seq<Attempt>, i: nat)
    requires i < |chain|
  {
    var a := chain[i];
    && Settles(a.verdicts, a.code, a.failed, a.requested)
    && (forall v :: v in a.verdicts ==> v.key in a.requested)
    && (a.failed != map[] <==> i + 1 < |chain|)
    && (i + 1 < |chain| ==> forall k :: k in chain[i + 1].requested <==> k in a.failed)
  }

  ghost predicate Chain(chain: seq<Attempt>) {
    forall i :: 0 <= i < |chain| ==> Linked(chain, i)
  }

  /** Record `j` of attempt `i` shows module `key` downloaded. */
  ghost predicate DownloadedAt(chain: seq<Attempt>, i: int, j: int, key: string) {
    && 0 <= i < |chain| && 0 <= j < |chain[i].verdicts|
    && chain[i].verdicts[j].Downloaded? && chain[i].verdicts[j].key == key
  }

  lemma FailuresRequested(a: Attempt, key: string)
    requires Settles(a.verdicts, a.code, a.failed, a.requested) && forall v :: v in a.verdicts ==> !v.Rejected? && v.key in a.requested
    requires key in a.failed
    ensures key in a.requested
  {
  }

  /** A requested module either failed or has exactly one download record. */
  lemma AttemptSplits(a: Attempt, key: string) returns (j: nat)
    requires Settles(a.verdicts, a.code, a.failed, a.requested) && key in a.requested
    ensures j < |a.verdicts| && a.verdicts[j].key == key
    ensures a.verdicts[j].Downloaded? <==> key !in a.failed
    ensures forall k :: 0 <= k < |a.verdicts| && a.verdicts[k].key == key ==> k == j
  {
    j :| 0 <= j < |a.verdicts| && a.verdicts[j].key == key;
    if key in a.failed {
      assert Lost(key, a.failed[key]) in a.verdicts;
    }
    assert a.verdicts[j] in a.verdicts;
  }

  lemma RequestsShrink(chain: seq<Attempt>, i: nat, key: string)
    requires i + 1 < |chain| && Linked(chain, i)
    ensures key in chain[i + 1].requested ==> key in chain[i].requested
  {
    if key in chain[i].failed { FailuresRequested(chain[i], key); }
  }

  /** Once a module is not requested, it is never requested again. */
  lemma {:induction false} NeverAgain(chain: seq<Attempt>, i: nat, i': nat, key: string)
    requires Chain(chain) && i <= i' < |chain| && key !in chain[i].requested
    ensures key !in chain[i'].requested
    decreases i' - i
  {
    if i < i' {
      assert Linked(chain, i);
      RequestsShrink(chain, i, key);
      NeverAgain(chain, i + 1, i', key);
    }
  }

  /** A requested module is downloaded in this attempt or in a later one. */
  lemma {:induction false} EventuallyDownloaded(chain: seq<Attempt>, i: nat, key: string) returns (i': nat, j: nat)
    requires Chain(chain) && i < |chain| && key in chain[i].requested
    ensures i <= i' && DownloadedAt(chain, i', j, key)
    decreases |chain| - i
  {
    assert Linked(chain, i);
    j := AttemptSplits(chain[i], key);
    if key in chain[i].failed {
      i', j := EventuallyDownloaded(chain, i + 1, key);
    } else {
      i' := i;
    }
  }

  lemma DownloadedOnce(chain: seq<Attempt>, i: nat, j: nat, i': nat, j': nat, key: string)
    requires Chain(chain) && i <= i'
    requires DownloadedAt(chain, i, j, key) && DownloadedAt(chain, i', j', key)
    ensures i == i' && j == j'
  {
    assert Linked(chain, i) && Linked(chain, i');
    assert chain[i].verdicts[j] in chain[i].verdicts && chain[i'].verdicts[j'] in chain[i'].verdicts;
    var k := AttemptSplits(chain[i], key);
    assert key !in chain[i].failed && key in chain[i'].requested;
    assert i == i' by {
      if i < i' { NeverAgain(chain, i + 1, i', key); }
    }
  }

  ghost function AttemptOf(attempts: seq<Row>, i: nat, logs: Logs, modules: Modules, tools: Tools): Attempt
    requires i < |attempts|
  {
    var row := attempts[i];
    var verdicts :=
      if Stdout(i + 1) !in logs || Stderr(i + 1) !in logs then None
      else OutputVerdicts(LoggedOutput(row, i + 1, logs), row.requested, modules, tools);
    Attempt(row.requested, row.code, if verdicts.Some? then verdicts.value else [],
            if row.failures.Some? then row.failures.value else map[])
  }

  /** The attempts of a report as their retained logs tell them. */
  ghost function ChainOf(attempts: seq<Row>, logs: Logs, modules: Modules, tools: Tools): (r: seq<Attempt>)
    ensures |r| == |attempts|
    ensures forall i :: 0 <= i < |r| ==> r[i] == AttemptOf(attempts, i, logs, modules, tools)
  {
    seq(|attempts|, i requires 0 <= i < |attempts| => AttemptOf(attempts, i, logs, modules, tools))
  }

  /** The protocol's own kit: its judgement of outputs, and ascending order. */
  ghost function KitFor(modules: Modules, tools: Tools): Kit {
    Kit((o, requested) => ResultsOf(o, requested, modules, tools), tools.digest, s => SortedKeys(s))
  }

  ghost predicate Sound(a: Attempt, modules: Modules) {
    && Settles(a.verdicts, a.code, a.failed, a.requested)
    && (forall v :: v in a.verdicts ==> v.key in a.requested)
    && (forall v :: v in a.verdicts && v.Downloaded? ==> v.key in modules && v.sum == modules[v.key])
  }

  lemma RowSound(attempts: seq<Row>, i: nat, logs: Logs, modules: Modules, tools: Tools, limit: nat)
    requires i < |attempts|
    requires RowReplays(attempts, i, logs, SortedKeys(modules.Keys), KitFor(modules, tools), limit)
    ensures Sound(AttemptOf(attempts, i, logs, modules, tools), modules)
  {
    var row := attempts[i];
    assert Conclusive(LoggedOutput(row, i + 1, logs), row.failures.value, row.requested, modules, tools);
  }

  /** The link between two rows, whatever the rows contain. */
  lemma RowsLinked(attempts: seq<Row>, i: nat, logs: Logs, all: seq<string>, kit: Kit, limit: nat)
    requires i < |attempts| && forall j :: 0 <= j < |attempts| ==> RowReplays(attempts, j, logs, all, kit, limit)
    ensures attempts[i].failures.Some? && (attempts[i].failures.value != map[] <==> i + 1 < |attempts|)
    ensures i == 0 ==> attempts[i].requested == all
    ensures i + 1 < |attempts| ==> attempts[i + 1].requested == kit.order(attempts[i].failures.value.Keys)
  {
    assert RowReplays(attempts, i, logs, all, kit, limit);
    if i + 1 < |attempts| { assert RowReplays(attempts, i + 1, logs, all, kit, limit); }
  }

  lemma LinkedFrom(chain: seq<Attempt>, i: nat, modules: Modules)
    requires i < |chain| && Sound(chain[i], modules)
    requires chain[i].failed != map[] <==> i + 1 < |chain|
    requires i + 1 < |chain| ==> chain[i + 1].requested == SortedKeys(chain[i].failed.Keys)
    ensures Linked(chain, i)
  {
  }

  /** An accepted report is a chain of attempts that starts from all modules and
      whose downloads carry the locked checksums. */
  lemma ReplayIsChain(report: Report, logs: Logs, modules: Modules, tools: Tools, policy: Policy, step: StepTimes)
    requires Replays(report, logs, SortedKeys(modules.Keys), KitFor(modules, tools), policy, step)
    ensures var chain := ChainOf(report.attempts, logs, modules, tools);
      && Chain(chain) && chain[0].requested == SortedKeys(modules.Keys)
      && forall i :: 0 <= i < |chain| ==> Sound(chain[i], modules)
  {
    var attempts := report.attempts;
    var chain := ChainOf(attempts, logs, modules, tools);
    var all, kit, limit := SortedKeys(modules.Keys), KitFor(modules, tools), policy.maxOutputBytes;
    forall i | 0 <= i < |chain| ensures Linked(chain, i) && Sound(chain[i], modules) {
      RowSound(attempts, i, logs, modules, tools, limit);
      RowsLinked(attempts, i, logs, all, kit, limit);
      LinkedFrom(chain, i, modules);
    }
    RowsLinked(attempts, 0, logs, all, kit, limit);
  }

  /** Audit soundness: in an accepted bundle each locked module has exactly one
      download record over all attempts, and it carries the locked checksum. */
  lemma AuditSound(report: Report, logs: Logs, modules: Modules, tools: Tools, policy: Policy, step: StepTimes, key: string) returns (i: nat, j: nat)
    requires Replays(report, logs, SortedKeys(modules.Keys), KitFor(modules, tools), policy, step) && key in modules
    ensures var chain := ChainOf(report.attempts, logs, modules, tools);
      && DownloadedAt(chain, i, j, key) && chain[i].verdicts[j].sum == modules[key]
      && forall i', j' :: DownloadedAt(chain, i', j', key) ==> i' == i && j' == j
  {
    var chain := ChainOf(report.attempts, logs, modules, tools);
    ReplayIsChain(report, logs, modules, tools, policy, step);
    i, j := EventuallyDownloaded(chain, 0, key);
    forall i', j' | DownloadedAt(chain, i', j', key) ensures i' == i && j' == j {
      if i <= i' { DownloadedOnce(chain, i, j, i', j', key); } else { DownloadedOnce(chain, i', j', i, j, key); }
    }
    assert Sound(chain[i], modules) && chain[i].verdicts[j] in chain[i].verdicts;
  }
}
