/** The CE02 repair as it really runs: cmd/biz-local-ce02-repair started by
    repair-ce02-archived-fixtures.py, inside the lock, marker and backup protocol
    that it shares with the fixture verification.

    Assumption: applications advance the catalog, add audit rows and change
    modules and dependencies, but never touch the repair's evidence. */
module SharedRepair {
  import opened Wrappers
  import opened FixtureRepair
  import opened SharedDatabase

  // ------------------------------------------------------- the repair's tables

  /** The tables that the repair reads; the last two hold its evidence. */
  datatype Names = Names(
    catalog: Table, modules: Table, archive: Table, dependencies: Table, audits: Table, receipts: Table, snapshots: Table)

  const COMMERCIAL := "biz_commercial_"
  const MODULE := COMMERCIAL + "module_"

  const CE02_NAMES := Names(
    COMMERCIAL + "catalog_state", COMMERCIAL + "modules", MODULE + "fixture_archive", MODULE + "dependencies",
    MODULE + "audit", COMMERCIAL + "local_repair_migrations", MODULE + "fixture_audit_archive")

  function Listed(n: Names): seq<Table> {
    [n.catalog, n.modules, n.archive, n.dependencies, n.audits, n.receipts, n.snapshots]
  }

  /** Different tables, all of which fixture resets drop. */
  ghost predicate Proper(n: Names) {
    && (forall i, j :: 0 <= i < j < 7 ==> Listed(n)[i] != Listed(n)[j])
    && (forall i :: 0 <= i < 7 ==> Droppable(Listed(n)[i]))
  }

  /** The rows the repair finds; a missing table reads as empty. */
  function View(n: Names, db: Db): Tables {
    Tables(
      if n.catalog in db && db[n.catalog].CatalogRow? then db[n.catalog].version else 0,
      if n.modules in db && db[n.modules].Codes? then db[n.modules].codes else [],
      if n.archive in db && db[n.archive].Codes? then db[n.archive].codes else [],
      if n.dependencies in db && db[n.dependencies].Dependencies? then db[n.dependencies].count else 0,
      if n.audits in db && db[n.audits].Audits? then db[n.audits].audits else [],
      if n.snapshots in db && db[n.snapshots].Snapshots? then db[n.snapshots].snapshots else [],
      if n.receipts in db && db[n.receipts].Receipts? then db[n.receipts].receipt else None)
  }

  /** All the tables are there, so no statement of the transaction fails. */
  predicate Readable(n: Names, db: Db) {
    && n.catalog in db && db[n.catalog].CatalogRow? && n.modules in db && db[n.modules].Codes?
    && n.archive in db && db[n.archive].Codes? && n.dependencies in db && db[n.dependencies].Dependencies?
    && n.audits in db && db[n.audits].Audits? && n.snapshots in db && db[n.snapshots].Snapshots?
    && n.receipts in db && db[n.receipts].Receipts?
  }

  /** createEvidenceSchema. */
  function WithEvidence(n: Names, db: Db): Db {
    var db' := if n.receipts in db then db else db[n.receipts := Receipts(None)];
    if n.snapshots in db' then db' else db'[n.snapshots := Content.Snapshots([])]
  }

  function WriteBack(n: Names, db: Db, t: Tables): Db {
    db[n.catalog := CatalogRow(t.version)][n.receipts := Receipts(t.receipt)][n.snapshots := Content.Snapshots(t.snapshots)]
  }

  /** The transaction of run, on the database. */
  function TransactOn(n: Names, db: Db, now: int): Option<Commit> {
    if !Readable(n, db) then None
    else
      var (outcome, t) := Transact(View(n, db), now);
      if outcome.RolledBack? then None
      else Some(Commit(if outcome.already then db else WriteBack(n, db, t), outcome.before, outcome.after, outcome.already))
  }

  /** cmd/biz-local-ce02-repair. */
  function Ce02(n: Names): Program {
    Program(
      db => WithEvidence(n, db), (db, now) => TransactOn(n, db, now),
      (db, before: nat, after: nat) => Verified(View(n, db), before, after), db => View(n, db).version)
  }

  /** A program that behaves like the CE02 repair. */
  ghost predicate Repairs(p: Program, n: Names) {
    && (forall db :: p.prepare(db) == WithEvidence(n, db))
    && (forall db, now :: p.transact(db, now) == TransactOn(n, db, now))
    && (forall db, before: nat, after: nat :: p.verify(db, before, after) == Verified(View(n, db), before, after))
    && (forall db :: p.version(db) == View(n, db).version)
  }

  // ------------------------------------------------------------ what it touches

  lemma ViewOfEvidence(n: Names, db: Db)
    requires Proper(n)
    ensures View(n, WithEvidence(n, db)) == View(n, db)
  {
    NamesDiffer(n);
    EvidenceKeeps(n, db, n.catalog);
    EvidenceKeeps(n, db, n.modules);
    EvidenceKeeps(n, db, n.archive);
    EvidenceKeeps(n, db, n.dependencies);
    EvidenceKeeps(n, db, n.audits);
    EvidenceRows(n, db);
  }

  /** Creating the evidence tables leaves every other table alone. */
  lemma EvidenceKeeps(n: Names, db: Db, t: Table)
    requires t != n.receipts && t != n.snapshots
    ensures t in WithEvidence(n, db) <==> t in db
    ensures t in db ==> WithEvidence(n, db)[t] == db[t]
  {
  }

  lemma EvidenceRows(n: Names, db: Db)
    requires n.receipts != n.snapshots
    ensures View(n, WithEvidence(n, db)).receipt == View(n, db).receipt
    ensures View(n, WithEvidence(n, db)).snapshots == View(n, db).snapshots
  {
  }

  lemma NamesDiffer(n: Names)
    requires Proper(n)
    ensures n.receipts !in {n.catalog, n.modules, n.archive, n.dependencies, n.audits, n.snapshots}
    ensures n.snapshots !in {n.catalog, n.modules, n.archive, n.dependencies, n.audits}
    ensures n.catalog !in {n.modules, n.archive, n.dependencies, n.audits}
  {
    var l := Listed(n);
    assert l[5] != l[0] && l[5] != l[1] && l[5] != l[2] && l[5] != l[3] && l[5] != l[4] && l[6] != l[5];
    assert l[6] != l[0] && l[6] != l[1] && l[6] != l[2] && l[6] != l[3] && l[6] != l[4];
    assert l[0] != l[1] && l[0] != l[2] && l[0] != l[3] && l[0] != l[4];
  }

  lemma ViewOfWriteBack(n: Names, db: Db, t: Tables)
    requires Proper(n)
    ensures View(n, WriteBack(n, db, t)) == View(n, db).(version := t.version, receipt := t.receipt, snapshots := t.snapshots)
  {
    NamesDiffer(n);
  }

  /** Databases that agree look alike to the repair: no test can leave one of
      its tables behind, since resets drop them all. */
  lemma ViewAgrees(n: Names, db: Db, original: Db)
    requires Proper(n) && Agrees(db, original)
    ensures View(n, db) == View(n, original)
  {
    forall i | 0 <= i < 7 ensures Listed(n)[i] in db <==> Listed(n)[i] in original {
      assert Droppable(Listed(n)[i]);
    }
    var l := Listed(n);
    assert l[0] in db <==> l[0] in original;
    assert l[1] in db <==> l[1] in original;
    assert l[2] in db <==> l[2] in original;
    assert l[3] in db <==> l[3] in original;
    assert l[4] in db <==> l[4] in original;
    assert l[5] in db <==> l[5] in original;
    assert l[6] in db <==> l[6] in original;
  }

  /** A commit on the database is a commit on the rows it shows, and nothing
      but the catalog state and the evidence tables changes. */
  lemma CommitRefines(n: Names, db: Db, now: int, commit: Commit)
    requires Proper(n) && TransactOn(n, WithEvidence(n, db), now) == Some(commit)
    ensures Transact(View(n, db), now) == (FixtureRepair.Outcome.Committed(commit.before, commit.after, commit.already), View(n, commit.db))
    ensures forall t :: t !in {n.catalog, n.receipts, n.snapshots} ==> (t in commit.db <==> t in db) && (t in db ==> commit.db[t] == db[t])
  {
    ViewOfEvidence(n, db);
    ViewOfWriteBack(n, WithEvidence(n, db), Transact(View(n, db), now).1);
  }

  predicate PlainText(s: string) { forall i :: 0 <= i < |s| ==> PlainChar(s[i]) }

  lemma LongerName(prefix: Table, rest: string)
    requires Droppable(prefix) && PlainText(rest)
    ensures Droppable(prefix + rest)
  {
    assert (prefix + rest)[..4] == prefix[..4];
  }

  lemma CommercialNames()
    ensures Droppable(COMMERCIAL) && Droppable(MODULE)
  {
    assert COMMERCIAL[..4] == "biz_";
    LongerName(COMMERCIAL, "module_");
  }

  lemma SuffixesPlain()
    ensures PlainText("catalog_state") && PlainText("modules") && PlainText("fixture_archive") && PlainText("dependencies")
  {
  }

  lemma EvidenceSuffixesPlain()
    ensures PlainText("audit") && PlainText("local_repair_migrations") && PlainText("fixture_audit_archive")
  {
  }

  lemma Ce02NamesProper()
    ensures Proper(CE02_NAMES)
  {
    CommercialNames();
    SuffixesPlain();
    EvidenceSuffixesPlain();
    LongerName(COMMERCIAL, "catalog_state");
    LongerName(COMMERCIAL, "modules");
    LongerName(MODULE, "fixture_archive");
    LongerName(MODULE, "dependencies");
    LongerName(MODULE, "audit");
    LongerName(COMMERCIAL, "local_repair_migrations");
    LongerName(MODULE, "fixture_audit_archive");
    var lengths := [28, 22, 37, 34, 27, 38, 43];
    assert forall i :: 0 <= i < 7 ==> |Listed(CE02_NAMES)[i]| == lengths[i];
  }

  // ------------------------------------------------------------------ all runs

  /** Applications write as assumed, in every state of the run. */
  ghost predicate Orderly(p: Program, n: Names, s: State, actions: seq<Action>)
    decreases |actions|
  {
    actions == [] ||
    ((actions[0].Application? ==> Writes(View(n, s.db), View(n, actions[0].db))) &&
     Orderly(p, n, Step(p, s, actions[0]), actions[1..]))
  }

  ghost function BooksOf(n: Names, s: State): Books { Books(View(n, s.baseline), s.repairs, s.advances) }

  ghost predicate SameOrigin(n: Names, s: State, s': State) {
    Balanced(BooksOf(n, s')) && Origin(BooksOf(n, s')) == Origin(BooksOf(n, s))
  }

  /** The rows after a repair of a dump that agrees with the baseline. */
  lemma RepairedBooks(p: Program, n: Names, dump: Db, baseline: Db, b: Books, now: int, commit: Commit)
    requires Repairs(p, n) && Proper(n) && Agrees(dump, baseline) && RepairHolds(p, dump, now, commit)
    requires Balanced(b) && b.tables == View(n, baseline)
    ensures var b' := Books(View(n, commit.db), b.repairs + (if commit.already then 0 else 1), b.advances);
      Balanced(b') && Origin(b') == Origin(b)
  {
    ViewAgrees(n, dump, baseline);
    CommitRefines(n, dump, now, commit);
    TransactKeeps(b, now);
  }

  lemma RepairKeepsBooks(p: Program, n: Names, s: State, s': State, dump: Db, now: int, commit: Commit)
    requires Repairs(p, n) && Proper(n) && Balanced(BooksOf(n, s)) && RepairEnded(p, s, s', dump, now, commit)
    ensures SameOrigin(n, s, s')
  {
    RepairedBooks(p, n, dump, s.baseline, BooksOf(n, s), now, commit);
  }

  lemma ApplicationKeepsBooks(p: Program, n: Names, s: State, a: Action)
    requires Repairs(p, n) && Proper(n) && Inv(p, s) && Balanced(BooksOf(n, s))
    requires a.Application? && Writes(View(n, s.db), View(n, a.db))
    ensures SameOrigin(n, s, Step(p, s, a))
  {
    if s.lock.None? && s.marker.Absent? {
      ViewAgrees(n, s.db, s.baseline);
      WritesKeep(BooksOf(n, s), View(n, a.db));
    }
  }

  lemma {:induction false} BooksKept(p: Program, n: Names, s: State, actions: seq<Action>)
    requires Repairs(p, n) && Proper(n) && Inv(p, s) && Balanced(BooksOf(n, s)) && Orderly(p, n, s, actions)
    ensures Inv(p, Run(p, s, actions)) && SameOrigin(n, s, Run(p, s, actions))
    decreases |actions|
  {
    if actions != [] {
      var a := actions[0];
      StepKeeps(p, s, a);
      if a.Application? {
        ApplicationKeepsBooks(p, n, s, a);
      } else if EndsRepair(s, a) {
        var pc := s.runs[a.run].pc;
        UnlinkRepaired(p, s, a);
        RepairKeepsBooks(p, n, s, Step(p, s, a), DumpOf(s, pc.backup), pc.now, pc.commit);
      } else {
        BaselineKept(p, s, a);
      }
      BooksKept(p, n, Step(p, s, a), actions[1..]);
    }
  }

  /** What counts: the database, or the backup that a written marker names. */
  function Standing(s: State): Db {
    if s.marker.Written? then DumpOf(s, s.marker.backup) else s.db
  }

  /** What every orderly run leaves standing. */
  lemma StandingBooks(p: Program, n: Names, db: Db, actions: seq<Action>)
    requires Repairs(p, n) && Proper(n)
    requires Balanced(Books(View(n, db), 0, 0)) && Orderly(p, n, Initial(db), actions)
    ensures var s := Run(p, Initial(db), actions);
      && Inv(p, s) && SameOrigin(n, Initial(db), s) && View(n, Standing(s)) == View(n, s.baseline)
  {
    BooksKept(p, n, Initial(db), actions);
    var s := Run(p, Initial(db), actions);
    ViewAgrees(n, Standing(s), s.baseline);
  }

  /** Exactly once, across crashes, recoveries and reruns of both scripts: at
      most one repair ever takes effect; the catalog has moved by exactly that
      repair and the applications; and what stands either bears no trace of a
      repair or has a receipt of one step with a snapshot of each of the two
      creation records. */
  lemma RepairedAtMostOnce(db: Db, actions: seq<Action>)
    requires Balanced(Books(View(CE02_NAMES, db), 0, 0)) && Orderly(Ce02(CE02_NAMES), CE02_NAMES, Initial(db), actions)
    ensures var s := Run(Ce02(CE02_NAMES), Initial(db), actions);
      var t := View(CE02_NAMES, Standing(s));
      && s.repairs <= 1
      && t.version == View(CE02_NAMES, db).version + s.repairs + s.advances
      && (if s.repairs == 0 then Unrepaired(t) else ReceiptFaithful(t))
  {
    Ce02NamesProper();
    StandingBooks(Ce02(CE02_NAMES), CE02_NAMES, db, actions);
  }

  /** Wherever a run has committed: its verification passes, so that it never
      gets stuck behind its own marker; it is told that the repair was already
      applied if and only if it was, and then it has written nothing. */
  lemma CommittedRuns(db: Db, actions: seq<Action>, run: nat)
    requires Balanced(Books(View(CE02_NAMES, db), 0, 0)) && Orderly(Ce02(CE02_NAMES), CE02_NAMES, Initial(db), actions)
    requires var s := Run(Ce02(CE02_NAMES), Initial(db), actions); run in s.runs && s.runs[run].pc.Committed?
    ensures CommitSound(CE02_NAMES, Run(Ce02(CE02_NAMES), Initial(db), actions), run)
  {
    Ce02NamesProper();
    StandingBooks(Ce02(CE02_NAMES), CE02_NAMES, db, actions);
    CommittedIn(Ce02(CE02_NAMES), CE02_NAMES, Run(Ce02(CE02_NAMES), Initial(db), actions), run);
  }

  ghost predicate CommitSound(n: Names, s: State, run: nat)
    requires run in s.runs && s.runs[run].pc.Committed?
  {
    var pc := s.runs[run].pc;
    && Verified(View(n, s.db), pc.commit.before, pc.commit.after) && pc.commit.after == pc.commit.before + 1
    && (pc.commit.already <==> s.repairs == 1)
    && (pc.commit.already ==> s.db == WithEvidence(n, DumpOf(s, pc.backup)))
  }

  lemma CommittedIn(p: Program, n: Names, s: State, run: nat)
    requires Repairs(p, n) && Proper(n) && Inv(p, s) && Balanced(BooksOf(n, s)) && run in s.runs && s.runs[run].pc.Committed?
    ensures CommitSound(n, s, run)
  {
    var pc := s.runs[run].pc;
    var dump := DumpOf(s, pc.backup);
    ViewAgrees(n, dump, s.baseline);
    CommitRefines(n, dump, pc.now, pc.commit);
    CommitVerifies(BooksOf(n, s), pc.now);
    if s.repairs == 1 { LaterRunsWriteNothing(BooksOf(n, s), pc.now); }
  }

  lemma FirstCommit(n: Names, db: Db, now: int) returns (commit: Commit)
    requires Proper(n) && Readable(n, WithEvidence(n, db))
    requires Balanced(Books(View(n, db), 0, 0)) && Preconditions(View(n, db)) && View(n, db).version < MAX_VERSION
    ensures TransactOn(n, WithEvidence(n, db), now) == Some(commit) && !commit.already
    ensures View(n, commit.db) == Transact(View(n, db), now).1
    ensures View(n, commit.db).version == View(n, db).version + 1
    ensures ReceiptFaithful(View(n, commit.db)) && Verified(View(n, commit.db), commit.before, commit.after)
  {
    ViewOfEvidence(n, db);
    commit := TransactOn(n, WithEvidence(n, db), now).value;
    CommitRefines(n, db, now, commit);
    TransactKeeps(Books(View(n, db), 0, 0), now);
    CommitVerifies(Books(View(n, db), 0, 0), now);
  }

  /** The repair does happen: from every quiet state with the archived fixtures
      in place and nothing repaired, the uninterrupted script ends unlocked and
      unmarked with its receipt, one catalog version later. */
  lemma FirstRepairSucceeds(s: State, run: nat, b: nat, now: int)
    requires s.lock.None? && s.marker.Absent? && run !in s.used && b !in s.backups
    requires Readable(CE02_NAMES, WithEvidence(CE02_NAMES, s.db)) && Balanced(Books(View(CE02_NAMES, s.db), 0, 0))
    requires Preconditions(View(CE02_NAMES, s.db)) && View(CE02_NAMES, s.db).version < MAX_VERSION
    ensures var s' := Run(Ce02(CE02_NAMES), s, RepairScript(run, b, now));
      && s'.lock.None? && s'.marker.Absent? && s'.repairs == s.repairs + 1
      && ReceiptFaithful(View(CE02_NAMES, s'.db)) && View(CE02_NAMES, s'.db).version == View(CE02_NAMES, s.db).version + 1
  {
    Ce02NamesProper();
    var commit := FirstCommit(CE02_NAMES, s.db, now);
    RepairTakesEffect(Ce02(CE02_NAMES), s, run, b, now, commit);
  }
}
