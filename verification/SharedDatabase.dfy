/** One local database shared by the fixture verification and the CE02 repair
    (qualify-evolution-mysql.py and repair-ce02-archived-fixtures.py): a lock, a
    recovery marker and per-run backups, with a crash possible at any step.

    Assumptions: the lock dies with its process, but programs that the process
    started may outlive it and go on writing; a dump is a consistent copy of all
    tables; restoring a dump drops and recreates each dumped table and leaves
    other tables alone; applications do not write while the lock is held or a
    marker exists; an operator recovers by the reset and restore of the
    verification script, with no run active and no such program left. */
module SharedDatabase {
  import opened Wrappers
  import opened Sequences
  import FixtureRepair

  type Table = string

  /** The rows of a table. Those that the repair reads are told apart; all
      others are text. */
  datatype Content =
    | Text(text: string)
    | CatalogRow(version: nat)
    | Codes(codes: seq<string>)
    | Dependencies(count: nat)
    | Audits(audits: seq<FixtureRepair.Audit>)
    | Receipts(receipt: Option<FixtureRepair.Receipt>)
    | Snapshots(snapshots: seq<FixtureRepair.Snapshot>)

  type Db = map<Table, Content>

  predicate PlainChar(c: char) {
    'a' <= c <= 'z' || 'A' <= c <= 'Z' || '0' <= c <= '9' || c == '_'
  }

  /** Tables that reset_fixtures drops. */
  predicate Droppable(t: Table) {
    StartsWith(t, "biz_") && forall i :: 0 <= i < |t| ==> PlainChar(t[i])
  }

  function Reset(db: Db): Db { map t | t in db && !Droppable(t) :: db[t] }

  function Restore(db: Db, dump: Db): Db { db + dump }

  /** The original tables have their original contents, and any other table has
      a name that fixture resets do not touch. */
  predicate Agrees(db: Db, original: Db) {
    && (forall t :: t in original ==> t in db && db[t] == original[t])
    && (forall t :: t in db && t !in original ==> !Droppable(t))
  }

  /** Reset and restore bring back any database that the dump agrees with. */
  lemma EnvelopeRestores(db: Db, dump: Db, original: Db)
    requires Agrees(dump, original)
    ensures Agrees(Restore(Reset(db), dump), original)
  {
  }

  /** The envelope returns to the exact dump if and only if every table that
      was added in between has a droppable name. */
  lemma EnvelopeExact(db: Db, dump: Db)
    ensures Restore(Reset(db), dump) == dump <==> forall t :: t in db && t !in dump ==> Droppable(t)
  {
    var restored := Restore(Reset(db), dump);
    if forall t :: t in db && t !in dump ==> Droppable(t) {
      assert restored.Keys == dump.Keys;
    } else {
      var t :| t in db && t !in dump && !Droppable(t);
      assert t in restored;
    }
  }

  /** Where exactness fails: a stray table that no reset drops stays. */
  lemma StrayTableSurvives(dump: Db, content: Content)
    requires "biz-x" !in dump
    ensures !Droppable("biz-x") && Restore(Reset(dump["biz-x" := content]), dump) != dump
  {
    assert "biz-x"[3] == '-';
    EnvelopeExact(dump["biz-x" := content], dump);
  }

  // ------------------------------------------------ the script, start to end

  /** The verification script run to its end by one process. */
  class Workspace {
    var db: Db
    var marker: Option<nat>
    var backups: map<nat, Db>

    /** reset_fixtures: drop every listed fixture table. */
    method ResetFixtures(listing: seq<Table>)
      requires forall t :: t in listing <==> t in db
      modifies this`db
      ensures db == Reset(old(db))
    {
      var i := 0;
      while i < |listing|
        invariant 0 <= i <= |listing|
        invariant forall t :: t in db <==> t in old(db) && !(t in listing[..i] && Droppable(t))
        invariant forall t :: t in db ==> db[t] == old(db)[t]
      {
        assert listing[..i + 1] == listing[..i] + [listing[i]];
        if Droppable(listing[i]) {
          db := db - {listing[i]};
        }
        i := i + 1;
      }
      assert listing[..i] == listing;
      assert db.Keys == Reset(old(db)).Keys;
    }

    /** Feed a backup to the database, one dumped table after another. */
    method RestoreBackup(b: nat)
      requires b in backups
      modifies this`db
      ensures db == Restore(old(db), backups[b])
    {
      var left := backups[b].Keys;
      while left != {}
        invariant left <= backups[b].Keys
        invariant forall t :: t in db <==> t in old(db) || t in backups[b].Keys - left
        invariant forall t :: t in db ==> db[t] == if t in backups[b].Keys - left then backups[b][t] else old(db)[t]
      {
        var t :| t in left;
        db := db[t := backups[b][t]];
        left := left - {t};
      }
      assert db.Keys == Restore(old(db), backups[b]).Keys;
    }

    /** The whole envelope: refuse on a marker, clients or a backup name in use;
        otherwise back up, mark, let each test group leave the database in any
        state, then always reset, restore and clear the marker. */
    method Verify(b: nat, clients: nat, groups: seq<Db>, listings: seq<seq<Table>>) returns (ran: bool)
      requires |listings| == |groups| + 1
      requires forall t :: t in listings[0] <==> t in db
      requires forall i, t :: 0 <= i < |groups| ==> (t in listings[i + 1] <==> t in groups[i])
      modifies this
      ensures ran <==> old(marker).None? && clients == 0 && b !in old(backups)
      ensures !ran ==> db == old(db) && marker == old(marker) && backups == old(backups)
      ensures ran ==> marker.None? && backups == old(backups)[b := old(db)] && Agrees(db, old(db))
      ensures ran ==> var last := if groups == [] then old(db) else groups[|groups| - 1];
        (db == old(db) <==> forall t :: t in last && t !in old(db) ==> Droppable(t))
    {
      if marker.Some? || clients > 0 || b in backups {
        return false;
      }
      backups := backups[b := db];
      marker := Some(b);
      var i := 0;
      while i < |groups|
        invariant 0 <= i <= |groups|
        invariant marker == Some(b) && backups == old(backups)[b := old(db)]
        invariant db == if i == 0 then old(db) else groups[i - 1]
      {
        ResetFixtures(listings[i]);
        db := groups[i];
        i := i + 1;
      }
      ghost var last := db;
      ResetFixtures(listings[i]);
      RestoreBackup(b);
      EnvelopeRestores(last, old(db), old(db));
      EnvelopeExact(last, old(db));
      marker := None;
      ran := true;
    }
  }

  // ------------------------------------------------- all runs, with crashes

  datatype Kind = Verification | Repair

  datatype Dump = Partial | Complete(db: Db)

  datatype Marker = Absent | Opened(owner: nat) | Written(owner: nat, backup: nat)

  /** What a committed repair transaction left and reported. */
  datatype Commit = Commit(db: Db, before: nat, after: nat, already: bool)

  /** The repair program: its schema statements, its transaction, its
      verification, and the catalog version it finds. */
  datatype Program = Program(
    prepare: Db -> Db, transact: (Db, int) -> Option<Commit>, verify: (Db, nat, nat) -> bool, version: Db -> int)

  /** Where a run is in its script. */
  datatype Pc =
    | Started
    | Locked
    | Unmarked
    | Alone
    | Dumping(backup: nat)
    | Dumped(backup: nat)
    | Marking(backup: nat)
    | Working(backup: nat)
    | Restoring(backup: nat, left: set<Table>)
    | Restored(backup: nat)
    | Prepared(backup: nat)
    | Committed(backup: nat, now: int, commit: Commit)
    | Repaired(backup: nat, now: int, commit: Commit)
    | Closing

  datatype Process = Process(kind: Kind, pc: Pc)

  /** `baseline` is what the database ought to hold outside any envelope: it
      changes with applications and with completed repairs only. `repairs` and
      `advances` count what those added to the catalog version. `orphans` are
      dead runs of which a program is still alive. */
  datatype State = State(
    db: Db, baseline: Db, lock: Option<nat>, marker: Marker, backups: map<nat, Dump>,
    runs: map<nat, Process>, orphans: set<nat>, used: set<nat>, repairs: nat, advances: int)

  datatype Action =
    | Begin(run: nat, kind: Kind)
    | TakeLock(run: nat)
    | CheckMarker(run: nat)
    | CheckClients(run: nat, clients: nat)
    | OpenBackup(run: nat, backup: nat)
    | FinishDump(run: nat)
    | OpenMarker(run: nat)
    | WriteMarker(run: nat)
    | Mutate(run: nat, db: Db)             // fixture resets and tests
    | FinalReset(run: nat)
    | RestoreTable(run: nat, table: Table)
    | FinishRestore(run: nat)
    | PrepareRepair(run: nat)
    | CommitRepair(run: nat, now: int)     // a rollback ends the run
    | VerifyRepair(run: nat)               // as does a failed verification
    | Unlink(run: nat)
    | Exit(run: nat)
    | Crash(run: nat, orphaned: bool)      // any exception or kill, at any point
    | OrphanWrites(run: nat, db: Db)
    | OrphanEnds(run: nat)
    | Application(db: Db)
    | Recover                              // operator restores and clears the marker

  function At(s: State, run: nat, pc: Pc): State
    requires run in s.runs
  {
    s.(runs := s.runs[run := s.runs[run].(pc := pc)])
  }

  /** The process is gone; the kernel releases its lock, files stay. */
  function Gone(s: State, run: nat): State {
    s.(runs := s.runs - {run}, lock := if s.lock == Some(run) then None else s.lock)
  }

  /** The run has a program at work on the database. */
  predicate Employs(pc: Pc) { pc.Working? || pc.Restoring? || pc.Prepared? || pc.Committed? }

  function DumpOf(s: State, b: nat): Db {
    if b in s.backups && s.backups[b].Complete? then s.backups[b].db else map[]
  }

  predicate Is(s: State, run: nat, kind: Kind) { run in s.runs && s.runs[run].kind == kind }

  /** One step; an action that is not enabled changes nothing. */
  function Step(p: Program, s: State, a: Action): State {
    match a
    case Begin(run, kind) =>
      if run in s.used then s else s.(runs := s.runs[run := Process(kind, Started)], used := s.used + {run})
    case TakeLock(run) =>
      if run !in s.runs || !s.runs[run].pc.Started? then s
      else if s.lock.Some? then Gone(s, run)
      else At(s, run, Locked).(lock := Some(run))
    case CheckMarker(run) =>
      if run !in s.runs || !s.runs[run].pc.Locked? then s
      else if s.marker.Absent? then At(s, run, Unmarked) else Gone(s, run)
    case CheckClients(run, clients) =>
      if run !in s.runs || !s.runs[run].pc.Unmarked? then s
      else if clients == 0 then At(s, run, Alone) else Gone(s, run)
    case OpenBackup(run, b) =>
      if run !in s.runs || !s.runs[run].pc.Alone? then s
      else if b in s.backups then Gone(s, run)
      else At(s, run, Dumping(b)).(backups := s.backups[b := Partial])
    case FinishDump(run) =>
      if run !in s.runs || !s.runs[run].pc.Dumping? then s
      else At(s, run, Dumped(s.runs[run].pc.backup)).(backups := s.backups[s.runs[run].pc.backup := Complete(s.db)])
    case OpenMarker(run) =>
      if run !in s.runs || !s.runs[run].pc.Dumped? then s
      else if !s.marker.Absent? then Gone(s, run)
      else At(s, run, Marking(s.runs[run].pc.backup)).(marker := Opened(run))
    case WriteMarker(run) =>
      if run !in s.runs || !s.runs[run].pc.Marking? then s
      else At(s, run, Working(s.runs[run].pc.backup)).(marker := Written(run, s.runs[run].pc.backup))
    case Mutate(run, db) =>
      if !Is(s, run, Verification) || !s.runs[run].pc.Working? then s else s.(db := db)
    case FinalReset(run) =>
      if !Is(s, run, Verification) || !s.runs[run].pc.Working? then s
      else
        var b := s.runs[run].pc.backup;
        At(s, run, Restoring(b, DumpOf(s, b).Keys)).(db := Reset(s.db))
    case RestoreTable(run, t) =>
      if run !in s.runs || !s.runs[run].pc.Restoring? then s
      else
        var b, left := s.runs[run].pc.backup, s.runs[run].pc.left;
        if t !in left || t !in DumpOf(s, b) then s
        else At(s, run, Restoring(b, left - {t})).(db := s.db[t := DumpOf(s, b)[t]])
    case FinishRestore(run) =>
      if run !in s.runs || !s.runs[run].pc.Restoring? || s.runs[run].pc.left != {} then s
      else At(s, run, Restored(s.runs[run].pc.backup))
    case PrepareRepair(run) =>
      if !Is(s, run, Repair) || !s.runs[run].pc.Working? then s
      else At(s, run, Prepared(s.runs[run].pc.backup)).(db := p.prepare(s.db))
    case CommitRepair(run, now) =>
      if run !in s.runs || !s.runs[run].pc.Prepared? then s
      else
        var commit := p.transact(s.db, now);
        if commit.None? then Gone(s, run)
        else At(s, run, Committed(s.runs[run].pc.backup, now, commit.value)).(db := commit.value.db)
    case VerifyRepair(run) =>
      if run !in s.runs || !s.runs[run].pc.Committed? then s
      else
        var pc := s.runs[run].pc;
        if p.verify(s.db, pc.commit.before, pc.commit.after) then At(s, run, Repaired(pc.backup, pc.now, pc.commit)) else Gone(s, run)
    case Unlink(run) =>
      if run !in s.runs then s
      else if s.runs[run].pc.Restored? then At(s, run, Closing).(marker := Absent)
      else if s.runs[run].pc.Repaired? then
        At(s, run, Closing).(marker := Absent, baseline := s.db, repairs := s.repairs + if s.runs[run].pc.commit.already then 0 else 1)
      else s
    case Exit(run) =>
      if run !in s.runs || !s.runs[run].pc.Closing? then s else Gone(s, run)
    case Crash(run, orphaned) =>
      if run !in s.runs then s
      else if orphaned && Employs(s.runs[run].pc) then Gone(s, run).(orphans := s.orphans + {run})
      else Gone(s, run)
    case OrphanWrites(run, db) =>
      if run in s.orphans then s.(db := db) else s
    case OrphanEnds(run) =>
      s.(orphans := s.orphans - {run})
    case Application(db) =>
      if s.lock.Some? || !s.marker.Absent? then s
      else s.(db := db, baseline := db, advances := s.advances + p.version(db) - p.version(s.db))
    case Recover =>
      if s.lock.Some? || s.orphans != {} then s
      else match s.marker
        case Absent => s
        case Opened(_) => s.(marker := Absent)
        case Written(_, b) => s.(marker := Absent, db := Restore(Reset(s.db), DumpOf(s, b)))
  }

  function Run(p: Program, s: State, actions: seq<Action>): State
    decreases |actions|
  {
    if actions == [] then s else Run(p, Step(p, s, actions[0]), actions[1..])
  }

  // --------------------------------------------------------------- invariant

  predicate HasDump(s: State, b: nat) { b in s.backups && s.backups[b].Complete? }

  /** The database as a repair that is under way has changed its dump. */
  predicate RepairHolds(p: Program, dump: Db, now: int, commit: Commit) {
    p.transact(p.prepare(dump), now) == Some(commit)
  }

  /** What holds while the lock holder is at a point of its script. */
  predicate PcHolds(p: Program, s: State, run: nat, kind: Kind, pc: Pc) {
    match pc
    case Started => true
    case Locked => true
    case Unmarked => s.marker.Absent?
    case Alone => s.marker.Absent?
    case Dumping(b) => s.marker.Absent? && b in s.backups
    case Dumped(b) => s.marker.Absent? && HasDump(s, b) && DumpOf(s, b) == s.db
    case Marking(b) => s.marker == Opened(run) && HasDump(s, b) && DumpOf(s, b) == s.db
    case Working(b) => s.marker == Written(run, b) && (kind.Repair? ==> s.db == DumpOf(s, b))
    case Restoring(b, left) =>
      && s.marker == Written(run, b)
      && (forall t :: t in DumpOf(s, b) && t !in left ==> t in s.db && s.db[t] == DumpOf(s, b)[t])
      && (forall t :: t in s.db && t !in DumpOf(s, b) ==> !Droppable(t))
    case Restored(b) => s.marker == Written(run, b) && Agrees(s.db, DumpOf(s, b))
    case Prepared(b) => s.marker == Written(run, b) && s.db == p.prepare(DumpOf(s, b))
    case Committed(b, now, commit) =>
      s.marker == Written(run, b) && s.db == commit.db && RepairHolds(p, DumpOf(s, b), now, commit)
    case Repaired(b, now, commit) =>
      && s.marker == Written(run, b) && s.db == commit.db && RepairHolds(p, DumpOf(s, b), now, commit)
      && p.verify(s.db, commit.before, commit.after)
    case Closing => s.marker.Absent?
  }

  predicate Exclusive(s: State) {
    && (forall r :: r in s.runs ==> r in s.used)
    && (forall r :: r in s.runs && !s.runs[r].pc.Started? ==> s.lock == Some(r))
    && (s.lock.Some? ==> s.lock.value in s.runs && !s.runs[s.lock.value].pc.Started?)
    && (forall r :: r in s.orphans ==> r in s.used && r !in s.runs && s.marker.Written? && s.marker.owner == r)
  }

  /** The database or, while a marker names one, the backup is as it should be. */
  predicate Recoverable(s: State) {
    match s.marker
    case Absent => Agrees(s.db, s.baseline)
    case Opened(owner) => owner in s.used && Agrees(s.db, s.baseline)
    case Written(owner, b) => owner in s.used && HasDump(s, b) && Agrees(DumpOf(s, b), s.baseline)
  }

  predicate Inv(p: Program, s: State) {
    && Exclusive(s) && Recoverable(s)
    && (s.lock.Some? ==> PcHolds(p, s, s.lock.value, s.runs[s.lock.value].kind, s.runs[s.lock.value].pc))
  }

  function Initial(db: Db): State { State(db, db, None, Absent, map[], map[], {}, {}, 0, 0) }

  predicate Acts(a: Action, run: nat) { !a.Application? && !a.Recover? && a.run == run }

  lemma AgreesVia(db: Db, dump: Db, original: Db)
    requires Agrees(db, dump) && Agrees(dump, original)
    ensures Agrees(db, original)
  {
  }

  lemma GoneKeeps(p: Program, s: State, run: nat)
    requires Inv(p, s) && run in s.runs
    ensures Inv(p, Gone(s, run))
  {
  }

  lemma StepKeepsBegin(p: Program, s: State, a: Action)
    requires Inv(p, s) && a.Begin?
    ensures Inv(p, Step(p, s, a))
  {
  }

  lemma StepKeepsLock(p: Program, s: State, a: Action)
    requires Inv(p, s) && a.TakeLock?
    ensures Inv(p, Step(p, s, a))
  {
  }

  lemma StepKeepsChecks(p: Program, s: State, a: Action)
    requires Inv(p, s) && (a.CheckMarker? || a.CheckClients?)
    ensures Inv(p, Step(p, s, a))
  {
  }

  lemma StepKeepsBackup(p: Program, s: State, a: Action)
    requires Inv(p, s) && (a.OpenBackup? || a.FinishDump?)
    ensures Inv(p, Step(p, s, a))
  {
  }

  lemma StepKeepsOpening(p: Program, s: State, a: Action)
    requires Inv(p, s) && a.OpenMarker?
    ensures Inv(p, Step(p, s, a))
  {
  }

  lemma StepKeepsMarking(p: Program, s: State, a: Action)
    requires Inv(p, s) && a.WriteMarker?
    ensures Inv(p, Step(p, s, a))
  {
  }

  lemma StepKeepsTests(p: Program, s: State, a: Action)
    requires Inv(p, s) && a.Mutate?
    ensures Inv(p, Step(p, s, a))
  {
  }

  lemma StepKeepsReset(p: Program, s: State, a: Action)
    requires Inv(p, s) && a.FinalReset?
    ensures Inv(p, Step(p, s, a))
  {
  }

  lemma StepKeepsRestore(p: Program, s: State, a: Action)
    requires Inv(p, s) && a.RestoreTable?
    ensures Inv(p, Step(p, s, a))
  {
  }

  lemma StepKeepsRestored(p: Program, s: State, a: Action)
    requires Inv(p, s) && a.FinishRestore?
    ensures Inv(p, Step(p, s, a))
  {
  }

  lemma StepKeepsPrepare(p: Program, s: State, a: Action)
    requires Inv(p, s) && a.PrepareRepair?
    ensures Inv(p, Step(p, s, a))
  {
  }

  lemma StepKeepsCommit(p: Program, s: State, a: Action)
    requires Inv(p, s) && a.CommitRepair?
    ensures Inv(p, Step(p, s, a))
  {
    if a.run in s.runs { GoneKeeps(p, s, a.run); }
  }

  lemma StepKeepsVerify(p: Program, s: State, a: Action)
    requires Inv(p, s) && a.VerifyRepair?
    ensures Inv(p, Step(p, s, a))
  {
    if a.run in s.runs { GoneKeeps(p, s, a.run); }
  }

  lemma StepKeepsUnlink(p: Program, s: State, a: Action)
    requires Inv(p, s) && a.Unlink?
    ensures Inv(p, Step(p, s, a))
  {
    if a.run in s.runs && s.runs[a.run].pc.Restored? { AgreesVia(s.db, DumpOf(s, s.runs[a.run].pc.backup), s.baseline); }
  }

  lemma StepKeepsDeath(p: Program, s: State, a: Action)
    requires Inv(p, s) && (a.Exit? || a.Crash?)
    ensures Inv(p, Step(p, s, a))
  {
    if a.run in s.runs { GoneKeeps(p, s, a.run); }
  }

  lemma StepKeepsOrphan(p: Program, s: State, a: Action)
    requires Inv(p, s) && a.OrphanWrites?
    ensures Inv(p, Step(p, s, a))
  {
  }

  lemma StepKeepsOrphanEnd(p: Program, s: State, a: Action)
    requires Inv(p, s) && a.OrphanEnds?
    ensures Inv(p, Step(p, s, a))
  {
  }

  lemma StepKeepsApplication(p: Program, s: State, a: Action)
    requires Inv(p, s) && a.Application?
    ensures Inv(p, Step(p, s, a))
  {
  }

  lemma StepKeepsRecover(p: Program, s: State)
    requires Inv(p, s)
    ensures Inv(p, Step(p, s, Recover))
  {
    if s.marker.Written? { EnvelopeRestores(s.db, DumpOf(s, s.marker.backup), s.baseline); }
  }

  lemma StepKeeps(p: Program, s: State, a: Action)
    requires Inv(p, s)
    ensures Inv(p, Step(p, s, a))
  {
    match a
    case Begin(_, _) => StepKeepsBegin(p, s, a);
    case TakeLock(_) => StepKeepsLock(p, s, a);
    case CheckMarker(_) => StepKeepsChecks(p, s, a);
    case CheckClients(_, _) => StepKeepsChecks(p, s, a);
    case OpenBackup(_, _) => StepKeepsBackup(p, s, a);
    case FinishDump(_) => StepKeepsBackup(p, s, a);
    case OpenMarker(_) => StepKeepsOpening(p, s, a);
    case WriteMarker(_) => StepKeepsMarking(p, s, a);
    case Mutate(_, _) => StepKeepsTests(p, s, a);
    case FinalReset(_) => StepKeepsReset(p, s, a);
    case RestoreTable(_, _) => StepKeepsRestore(p, s, a);
    case FinishRestore(_) => StepKeepsRestored(p, s, a);
    case PrepareRepair(_) => StepKeepsPrepare(p, s, a);
    case CommitRepair(_, _) => StepKeepsCommit(p, s, a);
    case VerifyRepair(_) => StepKeepsVerify(p, s, a);
    case Unlink(_) => StepKeepsUnlink(p, s, a);
    case Exit(_) => StepKeepsDeath(p, s, a);
    case Crash(_, _) => StepKeepsDeath(p, s, a);
    case OrphanWrites(_, _) => StepKeepsOrphan(p, s, a);
    case OrphanEnds(_) => StepKeepsOrphanEnd(p, s, a);
    case Application(_) => StepKeepsApplication(p, s, a);
    case Recover => StepKeepsRecover(p, s);
  }

  lemma {:induction false} RunKeeps(p: Program, s: State, actions: seq<Action>)
    requires Inv(p, s)
    ensures Inv(p, Run(p, s, actions))
    decreases |actions|
  {
    if actions != [] {
      StepKeeps(p, s, actions[0]);
      RunKeeps(p, Step(p, s, actions[0]), actions[1..]);
    }
  }

  // ---------------------------------------------------------------- theorems

  /** Crash safety: after any number of runs of both scripts, interleaved and
      crashing anywhere, with programs that outlive their script, a missing
      marker means that the database agrees with what applications and completed
      repairs made of it, and a written marker names a complete backup that does. */
  lemma CrashSafe(p: Program, db: Db, actions: seq<Action>)
    ensures var s := Run(p, Initial(db), actions);
      && (!s.marker.Written? ==> Agrees(s.db, s.baseline))
      && (s.marker.Written? ==> HasDump(s, s.marker.backup) && Agrees(DumpOf(s, s.marker.backup), s.baseline))
  {
    RunKeeps(p, Initial(db), actions);
  }

  /** The steps of a run before it has a program at work. */
  predicate Enters(a: Action) {
    a.Begin? || a.TakeLock? || a.CheckMarker? || a.CheckClients? || a.OpenBackup? || a.FinishDump? || a.OpenMarker? || a.WriteMarker?
  }

  /** Steps that only a run with a program at work can take. */
  predicate Works(a: Action) {
    || a.Mutate? || a.FinalReset? || a.RestoreTable? || a.FinishRestore?
    || a.PrepareRepair? || a.CommitRepair? || a.VerifyRepair?
  }

  lemma EntryWritesNothing(p: Program, s: State, a: Action)
    requires Enters(a) || a.Unlink? || a.Exit? || a.Crash? || a.OrphanEnds?
    ensures Step(p, s, a).db == s.db
  {
  }

  lemma OnlyEmployersWork(p: Program, s: State, a: Action)
    requires Works(a)
    ensures Step(p, s, a) == s || (a.run in s.runs && Employs(s.runs[a.run].pc))
  {
  }

  /** While a marker exists, only its owner, a program that outlived its owner,
      or a recovery writes. */
  lemma MarkerFreezes(p: Program, s: State, a: Action)
    requires Inv(p, s) && !s.marker.Absent? && Step(p, s, a).db != s.db
    ensures a.Recover? || Acts(a, s.marker.owner)
    ensures a.OrphanWrites? ==> a.run in s.orphans
  {
    if Works(a) {
      OnlyEmployersWork(p, s, a);
    } else if Enters(a) || a.Unlink? || a.Exit? || a.Crash? || a.OrphanEnds? {
      EntryWritesNothing(p, s, a);
    }
  }

  ghost predicate Quarantined(s: State) { !s.marker.Absent? && s.marker.owner !in s.runs }

  /** Marker, backup and baseline stay; the database changes only by a program
      that outlived the run that left the marker. */
  ghost predicate Untouched(s: State, s': State) {
    && Quarantined(s') && s'.marker == s.marker && s'.baseline == s.baseline && s'.orphans <= s.orphans
    && (s.marker.Written? ==> DumpOf(s', s.marker.backup) == DumpOf(s, s.marker.backup))
    && (s.orphans == {} ==> s'.db == s.db)
  }

  lemma QuarantineStep(p: Program, s: State, a: Action)
    requires Inv(p, s) && Quarantined(s) && !a.Recover?
    ensures Untouched(s, Step(p, s, a))
  {
    if Works(a) {
      OnlyEmployersWork(p, s, a);
    } else if Enters(a) {
      QuarantineEntry(p, s, a);
    }
  }

  lemma QuarantineEntry(p: Program, s: State, a: Action)
    requires Inv(p, s) && Quarantined(s) && Enters(a)
    ensures Untouched(s, Step(p, s, a))
  {
    if a.run in s.runs {
      assert s.runs[a.run].pc.Started? || s.runs[a.run].pc.Locked?;
    }
  }

  /** Once a run died leaving its marker, no sequence of later runs changes the
      marker or the backup it names until an operator recovers, nor the database
      once no program of the dead run is left. */
  lemma {:induction false} QuarantineHolds(p: Program, s: State, actions: seq<Action>)
    requires Inv(p, s) && Quarantined(s)
    requires forall i :: 0 <= i < |actions| ==> !actions[i].Recover?
    ensures Untouched(s, Run(p, s, actions))
    decreases |actions|
  {
    if actions != [] {
      QuarantineStep(p, s, actions[0]);
      StepKeeps(p, s, actions[0]);
      QuarantineHolds(p, Step(p, s, actions[0]), actions[1..]);
    }
  }

  lemma BaselineKept(p: Program, s: State, a: Action)
    requires !EndsRepair(s, a) && !a.Application?
    ensures SameBooks(s, Step(p, s, a))
  {
    if Enters(a) {
      EntryKeepsBooks(p, s, a);
    } else if Works(a) {
      WorkKeepsBooks(p, s, a);
    }
  }

  predicate SameBooks(s: State, s': State) {
    s'.baseline == s.baseline && s'.repairs == s.repairs && s'.advances == s.advances
  }

  lemma EntryKeepsBooks(p: Program, s: State, a: Action)
    requires Enters(a)
    ensures SameBooks(s, Step(p, s, a))
  {
  }

  lemma WorkKeepsBooks(p: Program, s: State, a: Action)
    requires Works(a)
    ensures SameBooks(s, Step(p, s, a))
  {
    if a.PrepareRepair? || a.CommitRepair? || a.VerifyRepair? { RepairStepsKeepBooks(p, s, a); }
  }

  lemma RepairStepsKeepBooks(p: Program, s: State, a: Action)
    requires a.PrepareRepair? || a.CommitRepair? || a.VerifyRepair?
    ensures SameBooks(s, Step(p, s, a))
  {
  }

  /** The baseline became exactly what the repair program's transaction made of
      a dump that agrees with the old one, committed and verified. */
  ghost predicate RepairEnded(p: Program, s: State, s': State, dump: Db, now: int, commit: Commit) {
    && Agrees(dump, s.baseline) && RepairHolds(p, dump, now, commit) && p.verify(commit.db, commit.before, commit.after)
    && s'.baseline == commit.db && s'.db == commit.db && s'.marker.Absent?
    && s'.repairs == s.repairs + (if commit.already then 0 else 1) && s'.advances == s.advances
  }

  ghost predicate EndsRepair(s: State, a: Action) { a.Unlink? && a.run in s.runs && s.runs[a.run].pc.Repaired? }

  lemma UnlinkRepaired(p: Program, s: State, a: Action)
    requires Inv(p, s) && EndsRepair(s, a)
    ensures var pc := s.runs[a.run].pc; RepairEnded(p, s, Step(p, s, a), DumpOf(s, pc.backup), pc.now, pc.commit)
  {
  }

  /** The baseline moves only with an application or at the end of a repair run,
      and then to exactly what that repair committed and verified. */
  lemma BaselineMoves(p: Program, s: State, a: Action)
    requires Inv(p, s) && Step(p, s, a).baseline != s.baseline
    ensures a.Application? || EndsRepair(s, a)
    ensures EndsRepair(s, a) ==>
      var pc := s.runs[a.run].pc; RepairEnded(p, s, Step(p, s, a), DumpOf(s, pc.backup), pc.now, pc.commit)
  {
    if EndsRepair(s, a) {
      UnlinkRepaired(p, s, a);
    } else if !a.Application? {
      BaselineKept(p, s, a);
    }
  }

  /** Recovery always leads back to an unmarked database that agrees with the
      baseline, whatever the crashed run and its programs left behind. */
  lemma RecoveryRestores(p: Program, s: State)
    requires Inv(p, s) && Quarantined(s) && s.lock.None? && s.orphans == {}
    ensures var s' := Step(p, s, Recover); s'.marker.Absent? && Agrees(s'.db, s.baseline) && s'.baseline == s.baseline
  {
    StepKeepsRecover(p, s);
  }

  // ------------------------------------------------------- a run to its end

  /** Where the repair script, run on a quiet database, stands. */
  ghost predicate Midway(p: Program, s0: State, s: State, run: nat, b: nat, pc: Pc) {
    && run in s.runs && s.runs[run] == Process(Repair, pc) && s.lock == Some(run) && SameBooks(s0, s)
    && match pc
       case Locked => s.marker.Absent? && s.db == s0.db && b !in s.backups
       case Unmarked => s.marker.Absent? && s.db == s0.db && b !in s.backups
       case Alone => s.marker.Absent? && s.db == s0.db && b !in s.backups
       case Dumping(b') => b' == b && s.marker.Absent? && s.db == s0.db
       case Dumped(b') => b' == b && s.marker.Absent? && s.db == s0.db
       case Marking(b') => b' == b && s.db == s0.db
       case Working(b') => b' == b && s.db == s0.db
       case Prepared(b') => b' == b && s.db == p.prepare(s0.db)
       case Committed(b', now, commit) => b' == b && s.db == commit.db && RepairHolds(p, s0.db, now, commit)
       case Repaired(b', now, commit) => b' == b && s.db == commit.db
       case _ => false
  }

  lemma EntryAdvances(p: Program, s0: State, s: State, run: nat, b: nat)
    ensures Midway(p, s0, s, run, b, Locked) ==> Midway(p, s0, Step(p, s, CheckMarker(run)), run, b, Unmarked)
    ensures Midway(p, s0, s, run, b, Unmarked) ==> Midway(p, s0, Step(p, s, CheckClients(run, 0)), run, b, Alone)
    ensures Midway(p, s0, s, run, b, Alone) ==> Midway(p, s0, Step(p, s, OpenBackup(run, b)), run, b, Dumping(b))
  {
  }

  lemma MarkingAdvances(p: Program, s0: State, s: State, run: nat, b: nat)
    ensures Midway(p, s0, s, run, b, Dumping(b)) ==> Midway(p, s0, Step(p, s, FinishDump(run)), run, b, Dumped(b))
    ensures Midway(p, s0, s, run, b, Dumped(b)) ==> Midway(p, s0, Step(p, s, OpenMarker(run)), run, b, Marking(b))
    ensures Midway(p, s0, s, run, b, Marking(b)) ==> Midway(p, s0, Step(p, s, WriteMarker(run)), run, b, Working(b))
  {
  }

  lemma PrepareAdvances(p: Program, s0: State, s: State, run: nat, b: nat)
    requires Midway(p, s0, s, run, b, Working(b))
    ensures Midway(p, s0, Step(p, s, PrepareRepair(run)), run, b, Prepared(b))
  {
  }

  lemma CommitAdvances(p: Program, s0: State, s: State, run: nat, b: nat, now: int, commit: Commit)
    requires RepairHolds(p, s0.db, now, commit) && Midway(p, s0, s, run, b, Prepared(b))
    ensures Midway(p, s0, Step(p, s, CommitRepair(run, now)), run, b, Committed(b, now, commit))
  {
  }

  lemma VerifyAdvances(p: Program, s0: State, s: State, run: nat, b: nat, now: int, commit: Commit)
    requires p.verify(commit.db, commit.before, commit.after) && Midway(p, s0, s, run, b, Committed(b, now, commit))
    ensures Midway(p, s0, Step(p, s, VerifyRepair(run)), run, b, Repaired(b, now, commit))
  {
  }

  lemma BeginAdvances(p: Program, s: State, run: nat, b: nat)
    requires s.lock.None? && s.marker.Absent? && run !in s.used && b !in s.backups
    ensures Midway(p, s, Step(p, Step(p, s, Begin(run, Repair)), TakeLock(run)), run, b, Locked)
  {
  }

  lemma UnlinkAdvances(p: Program, s0: State, s: State, run: nat, b: nat, now: int, commit: Commit)
    requires Midway(p, s0, s, run, b, Repaired(b, now, commit))
    ensures var s' := Step(p, Step(p, s, Unlink(run)), Exit(run));
      && s'.db == commit.db && s'.baseline == commit.db && s'.marker.Absent? && s'.lock.None?
      && s'.repairs == s0.repairs + (if commit.already then 0 else 1) && s'.advances == s0.advances
  {
  }

  /** The run has ended, and what it committed is in effect. */
  ghost predicate Effective(s0: State, s: State, commit: Commit) {
    && s.db == commit.db && s.baseline == commit.db && s.marker.Absent? && s.lock.None?
    && s.repairs == s0.repairs + (if commit.already then 0 else 1) && s.advances == s0.advances
  }

  lemma RunCons(p: Program, s: State, a: Action, rest: seq<Action>)
    ensures Run(p, s, [a] + rest) == Run(p, Step(p, s, a), rest)
  {
    assert ([a] + rest)[1..] == rest;
  }

  function LastSteps(run: nat): seq<Action> { [Unlink(run)] + ([Exit(run)] + []) }

  function WorkSteps(run: nat, now: int): seq<Action> {
    [PrepareRepair(run)] + ([CommitRepair(run, now)] + ([VerifyRepair(run)] + LastSteps(run)))
  }

  function MarkSteps(run: nat, now: int): seq<Action> {
    [FinishDump(run)] + ([OpenMarker(run)] + ([WriteMarker(run)] + WorkSteps(run, now)))
  }

  function CheckSteps(run: nat, b: nat, now: int): seq<Action> {
    [CheckMarker(run)] + ([CheckClients(run, 0)] + ([OpenBackup(run, b)] + MarkSteps(run, now)))
  }

  /** repair-ce02-archived-fixtures.py without an interruption. */
  function RepairScript(run: nat, b: nat, now: int): seq<Action> {
    [Begin(run, Repair)] + ([TakeLock(run)] + CheckSteps(run, b, now))
  }

  lemma LastStepsRun(p: Program, s0: State, s: State, run: nat, b: nat, now: int, commit: Commit)
    requires Midway(p, s0, s, run, b, Repaired(b, now, commit))
    ensures Effective(s0, Run(p, s, LastSteps(run)), commit)
  {
    UnlinkAdvances(p, s0, s, run, b, now, commit);
    RunCons(p, s, Unlink(run), [Exit(run)] + []);
    RunCons(p, Step(p, s, Unlink(run)), Exit(run), []);
  }

  lemma WorkStepsRun(p: Program, s0: State, s: State, run: nat, b: nat, now: int, commit: Commit)
    requires RepairHolds(p, s0.db, now, commit) && p.verify(commit.db, commit.before, commit.after)
    requires Midway(p, s0, s, run, b, Working(b))
    ensures Effective(s0, Run(p, s, WorkSteps(run, now)), commit)
  {
    var s1 := Step(p, s, PrepareRepair(run));
    PrepareAdvances(p, s0, s, run, b);
    RunCons(p, s, PrepareRepair(run), [CommitRepair(run, now)] + ([VerifyRepair(run)] + LastSteps(run)));
    CommitStepsRun(p, s0, s1, run, b, now, commit);
  }

  lemma CommitStepsRun(p: Program, s0: State, s: State, run: nat, b: nat, now: int, commit: Commit)
    requires RepairHolds(p, s0.db, now, commit) && p.verify(commit.db, commit.before, commit.after)
    requires Midway(p, s0, s, run, b, Prepared(b))
    ensures Effective(s0, Run(p, s, [CommitRepair(run, now)] + ([VerifyRepair(run)] + LastSteps(run))), commit)
  {
    var s1 := Step(p, s, CommitRepair(run, now));
    CommitAdvances(p, s0, s, run, b, now, commit);
    RunCons(p, s, CommitRepair(run, now), [VerifyRepair(run)] + LastSteps(run));
    VerifyAdvances(p, s0, s1, run, b, now, commit);
    RunCons(p, s1, VerifyRepair(run), LastSteps(run));
    LastStepsRun(p, s0, Step(p, s1, VerifyRepair(run)), run, b, now, commit);
  }

  lemma MarkStepsRun(p: Program, s0: State, s: State, run: nat, b: nat, now: int, commit: Commit)
    requires RepairHolds(p, s0.db, now, commit) && p.verify(commit.db, commit.before, commit.after)
    requires Midway(p, s0, s, run, b, Dumping(b))
    ensures Effective(s0, Run(p, s, MarkSteps(run, now)), commit)
  {
    var s1 := Step(p, s, FinishDump(run));
    var s2 := Step(p, s1, OpenMarker(run));
    MarkingAdvances(p, s0, s, run, b);
    MarkingAdvances(p, s0, s1, run, b);
    MarkingAdvances(p, s0, s2, run, b);
    RunCons(p, s, FinishDump(run), [OpenMarker(run)] + ([WriteMarker(run)] + WorkSteps(run, now)));
    RunCons(p, s1, OpenMarker(run), [WriteMarker(run)] + WorkSteps(run, now));
    RunCons(p, s2, WriteMarker(run), WorkSteps(run, now));
    WorkStepsRun(p, s0, Step(p, s2, WriteMarker(run)), run, b, now, commit);
  }

  lemma CheckStepsRun(p: Program, s0: State, s: State, run: nat, b: nat, now: int, commit: Commit)
    requires RepairHolds(p, s0.db, now, commit) && p.verify(commit.db, commit.before, commit.after)
    requires Midway(p, s0, s, run, b, Locked)
    ensures Effective(s0, Run(p, s, CheckSteps(run, b, now)), commit)
  {
    var s1 := Step(p, s, CheckMarker(run));
    var s2 := Step(p, s1, CheckClients(run, 0));
    EntryAdvances(p, s0, s, run, b);
    EntryAdvances(p, s0, s1, run, b);
    EntryAdvances(p, s0, s2, run, b);
    RunCons(p, s, CheckMarker(run), [CheckClients(run, 0)] + ([OpenBackup(run, b)] + MarkSteps(run, now)));
    RunCons(p, s1, CheckClients(run, 0), [OpenBackup(run, b)] + MarkSteps(run, now));
    RunCons(p, s2, OpenBackup(run, b), MarkSteps(run, now));
    MarkStepsRun(p, s0, Step(p, s2, OpenBackup(run, b)), run, b, now, commit);
  }

  /** From every quiet state, an uninterrupted repair script whose transaction
      commits and verifies takes effect and leaves no lock and no marker. */
  lemma RepairTakesEffect(p: Program, s: State, run: nat, b: nat, now: int, commit: Commit)
    requires s.lock.None? && s.marker.Absent? && run !in s.used && b !in s.backups
    requires RepairHolds(p, s.db, now, commit) && p.verify(commit.db, commit.before, commit.after)
    ensures Effective(s, Run(p, s, RepairScript(run, b, now)), commit)
  {
    var s1 := Step(p, s, Begin(run, Repair));
    BeginAdvances(p, s, run, b);
    RunCons(p, s, Begin(run, Repair), [TakeLock(run)] + CheckSteps(run, b, now));
    RunCons(p, s1, TakeLock(run), CheckSteps(run, b, now));
    CheckStepsRun(p, s, Step(p, s1, TakeLock(run)), run, b, now, commit);
  }
}
