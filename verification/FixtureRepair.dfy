/** The one-time CE02 archived-fixture repair (cmd/biz-local-ce02-repair): a
    transaction that snapshots two audit rows, advances the catalog and leaves
    a receipt, and what it keeps together with other catalog writers.

    Assumptions: a transaction commits entirely or not at all; AdvanceCatalog
    adds one to the version or fails at the 64-bit limit. */
module FixtureRepair {
  import opened Wrappers

  const MAX_VERSION := 0xffff_ffff_ffff_ffff

  datatype Audit = Audit(
    id: nat, moduleCode: string, actor: string, action: string, beforeJson: string, afterJson: string,
    reason: string, requestId: string, createdAt: int)

  datatype Snapshot = Snapshot(row: Audit, snapshottedAt: int)

  datatype Receipt = Receipt(before: nat, after: nat, completedAt: int)

  /** The rows the repair reads and writes. `version` zero stands for a lost
      catalog state; `audits` are those of core and future, by module code;
      `snapshots` are those saved under the migration key. */
  datatype Tables = Tables(
    version: nat, active: seq<string>, archived: seq<string>, dependencies: nat,
    audits: seq<Audit>, snapshots: seq<Snapshot>, receipt: Option<Receipt>)

  // ------------------------------------------------------------ audit evidence

  predicate Proven(row: Audit, code: string, requestId: string, reason: string) {
    && row.moduleCode == code && row.actor == "platform-admin:ce02" && row.action == "create"
    && row.reason == reason && row.requestId == requestId
  }

  predicate ProvenCore(row: Audit) { Proven(row, "core", "core", "create") }
  predicate ProvenFuture(row: Audit) { Proven(row, "future", "future", "registered but unavailable") }

  /** Exactly the two proven creation records, in either order. */
  predicate ProvenPair(rows: seq<Audit>) {
    && |rows| == 2
    && ((ProvenCore(rows[0]) && ProvenFuture(rows[1])) || (ProvenFuture(rows[0]) && ProvenCore(rows[1])))
  }

  /** validateCE02Audits: strike each row off the wanted map. */
  method ValidateAudits(rows: seq<Audit>) returns (ok: bool)
    ensures ok <==> ProvenPair(rows)
  {
    if |rows| != 2 {
      return false;
    }
    var want := map["core" := ("core", "create"), "future" := ("future", "registered but unavailable")];
    var i := 0;
    while i < |rows|
      invariant 0 <= i <= 2
      invariant i == 0 ==> want == map["core" := ("core", "create"), "future" := ("future", "registered but unavailable")]
      invariant i == 1 && ProvenCore(rows[0]) ==> want == map["future" := ("future", "registered but unavailable")]
      invariant i == 1 && ProvenFuture(rows[0]) ==> want == map["core" := ("core", "create")]
      invariant i == 1 ==> ProvenCore(rows[0]) || ProvenFuture(rows[0])
      invariant i == 2 ==> ProvenPair(rows) && want == map[]
    {
      var row := rows[i];
      if row.moduleCode !in want {
        return false;
      }
      var expected := want[row.moduleCode];
      if row.actor != "platform-admin:ce02" || row.action != "create" || row.reason != expected.1 || row.requestId != expected.0 {
        return false;
      }
      want := want - {row.moduleCode};
      i := i + 1;
    }
    ok := want == map[];
  }

  // --------------------------------------------------------------- transaction

  predicate Preconditions(t: Tables) {
    t.version != 0 && t.active == [] && t.archived == ["core", "future"] && t.dependencies == 0 && ProvenPair(t.audits)
  }

  predicate ReceiptStands(t: Tables) {
    && t.receipt.Some? && t.receipt.value.after <= t.version
    && t.receipt.value.after == t.receipt.value.before + 1 && |t.snapshots| == 2
  }

  /** No primary key would repeat. */
  predicate CanSnapshot(saved: seq<Snapshot>, audits: seq<Audit>) {
    && (forall r, i :: 0 <= r < |audits| && 0 <= i < |saved| ==> saved[i].row.id != audits[r].id)
    && (forall r, q :: 0 <= r < q < |audits| ==> audits[r].id != audits[q].id)
  }

  function Snapshots(rows: seq<Audit>, now: int): (r: seq<Snapshot>)
    ensures |r| == |rows|
  {
    seq(|rows|, i requires 0 <= i < |rows| => Snapshot(rows[i], now))
  }

  datatype Outcome = RolledBack | Committed(before: nat, after: nat, already: bool)

  /** The transaction: its outcome and the rows it leaves. */
  function Transact(t: Tables, now: int): (Outcome, Tables) {
    if !Preconditions(t) then (RolledBack, t)
    else if t.receipt.Some? then
      if ReceiptStands(t) then (Committed(t.receipt.value.before, t.receipt.value.after, true), t) else (RolledBack, t)
    else if !CanSnapshot(t.snapshots, t.audits) || t.version >= MAX_VERSION then (RolledBack, t)
    else (Committed(t.version, t.version + 1, false),
          t.(snapshots := t.snapshots + Snapshots(t.audits, now), version := t.version + 1,
             receipt := Some(Receipt(t.version, t.version + 1, now))))
  }

  /** verify, after the commit. */
  predicate Verified(t: Tables, before: nat, after: nat) {
    && t.active == [] && |t.archived| == 2 && t.dependencies == 0 && ProvenPair(t.audits)
    && |t.snapshots| == |t.audits|
    && (forall i :: 0 <= i < |t.snapshots| ==> t.snapshots[i].row == t.audits[i])
    && t.receipt.Some? && t.receipt.value.before == before && t.receipt.value.after == after && t.version >= after
  }

  /** The loop that saves one snapshot for each audit row. */
  method SaveSnapshots(existing: seq<Snapshot>, audits: seq<Audit>, now: int) returns (r: Option<seq<Snapshot>>)
    ensures r.Some? <==> CanSnapshot(existing, audits)
    ensures r.Some? ==> r.value == existing + Snapshots(audits, now)
  {
    var saved := existing;
    var i := 0;
    while i < |audits|
      invariant 0 <= i <= |audits|
      invariant saved == existing + Snapshots(audits[..i], now)
      invariant CanSnapshot(existing, audits[..i])
    {
      assert forall j :: 0 <= j < |existing| ==> saved[j] == existing[j];
      assert forall q :: 0 <= q < i ==> saved[|existing| + q].row == audits[q];
      if exists j :: 0 <= j < |saved| && saved[j].row.id == audits[i].id {
        ghost var j :| 0 <= j < |saved| && saved[j].row.id == audits[i].id;
        assert j >= |existing| ==> saved[j].row == audits[j - |existing|];
        return None;
      }
      assert Snapshots(audits[..i + 1], now) == Snapshots(audits[..i], now) + [Snapshot(audits[i], now)];
      saved := saved + [Snapshot(audits[i], now)];
      i := i + 1;
    }
    assert audits[..i] == audits;
    r := Some(saved);
  }

  /** The database as the repair program uses it. */
  class RepairDatabase {
    var tables: Tables

    /** run: the transaction closure with its snapshot loop. */
    method Repair(now: int) returns (outcome: Outcome)
      modifies this
      ensures (outcome, tables) == Transact(old(tables), now)
    {
      var t := tables;
      var proven := ValidateAudits(t.audits);
      if t.version == 0 || t.active != [] || t.archived != ["core", "future"] || t.dependencies != 0 || !proven {
        return RolledBack;
      }
      var before := t.version;
      if t.receipt.Some? {
        if t.version < t.receipt.value.after || t.receipt.value.after != t.receipt.value.before + 1 || |t.snapshots| != 2 {
          return RolledBack;
        }
        return Committed(t.receipt.value.before, t.receipt.value.after, true);
      }
      var saved := SaveSnapshots(t.snapshots, t.audits, now);
      if saved.None? {
        return RolledBack;
      }
      if t.version >= MAX_VERSION {
        return RolledBack;
      }
      var after := before + 1;
      tables := t.(snapshots := saved.value, version := after, receipt := Some(Receipt(before, after, now)));
      outcome := Committed(before, after, false);
    }
  }

  // ----------------------------------------------------------------- accounting

  /** Rows are read in the order of their module codes. */
  ghost predicate Ordered(rows: seq<Audit>) {
    && (forall i :: 0 <= i < |rows| ==> rows[i].moduleCode == "core" || rows[i].moduleCode == "future")
    && (forall i, j :: 0 <= i < j < |rows| ==> !(rows[i].moduleCode == "future" && rows[j].moduleCode == "core"))
    && (forall i, j :: 0 <= i < j < |rows| ==> rows[i].id != rows[j].id)
  }

  /** What other programs may do to these rows: advance the catalog, add audit
      rows and change modules and dependencies, but not touch the evidence. */
  ghost predicate Writes(t: Tables, t': Tables) {
    && t'.snapshots == t.snapshots && t'.receipt == t.receipt
    && t.version <= t'.version <= MAX_VERSION
    && Ordered(t'.audits) && forall row :: row in t.audits ==> row in t'.audits
  }

  /** The rows, how often a repair advanced the catalog, and by how much other
      programs did. */
  datatype Books = Books(tables: Tables, repairs: nat, advances: int)

  /** The receipt records one step, and each of the two proven creation records
      has its snapshot. */
  ghost predicate ReceiptFaithful(t: Tables) {
    && t.receipt.Some?
    && t.receipt.value.after == t.receipt.value.before + 1 && t.receipt.value.after <= t.version
    && |t.snapshots| == 2 && ProvenCore(t.snapshots[0].row) && ProvenFuture(t.snapshots[1].row)
    && t.snapshots[0].row in t.audits && t.snapshots[1].row in t.audits
    && forall i :: 0 <= i < 2 ==> t.snapshots[i].snapshottedAt == t.receipt.value.completedAt
  }

  /** Nothing repaired: no evidence. */
  ghost predicate Unrepaired(t: Tables) { t.receipt.None? && t.snapshots == [] }

  ghost predicate Balanced(b: Books) {
    && b.tables.version <= MAX_VERSION && Ordered(b.tables.audits)
    && ((b.repairs == 0 && Unrepaired(b.tables)) || (b.repairs == 1 && ReceiptFaithful(b.tables)))
  }

  /** The catalog version beyond what the repair and other programs added. */
  ghost function Origin(b: Books): int { b.tables.version - b.repairs - b.advances }

  lemma PairInOrder(rows: seq<Audit>)
    requires ProvenPair(rows) && Ordered(rows)
    ensures ProvenCore(rows[0]) && ProvenFuture(rows[1])
  {
  }

  /** The books after a transaction. */
  ghost function Transacted(b: Books, now: int): Books {
    var (outcome, t) := Transact(b.tables, now);
    b.(tables := t, repairs := b.repairs + if outcome.Committed? && !outcome.already then 1 else 0)
  }

  lemma TransactKeeps(b: Books, now: int)
    requires Balanced(b)
    ensures Balanced(Transacted(b, now)) && Origin(Transacted(b, now)) == Origin(b)
  {
    if Preconditions(b.tables) { PairInOrder(b.tables.audits); }
  }

  lemma WritesKeep(b: Books, t: Tables)
    requires Balanced(b) && Writes(b.tables, t)
    ensures var b' := Books(t, b.repairs, b.advances + t.version - b.tables.version); Balanced(b') && Origin(b') == Origin(b)
  {
  }

  /** Once the receipt exists, every later run writes nothing. */
  lemma LaterRunsWriteNothing(b: Books, now: int)
    requires Balanced(b) && b.repairs == 1
    ensures Transact(b.tables, now).1 == b.tables
    ensures Transact(b.tables, now).0.Committed? <==> Preconditions(b.tables)
    ensures Transact(b.tables, now).0.Committed? ==> Transact(b.tables, now).0.already
  {
  }

  /** A commit always passes the verification that follows it, and then there
      is one snapshot for each audit row, equal to it. */
  lemma CommitVerifies(b: Books, now: int)
    requires Balanced(b)
    ensures var (outcome, t) := Transact(b.tables, now);
      outcome.Committed? ==> Verified(t, outcome.before, outcome.after) && outcome.after == outcome.before + 1
  {
    var t := b.tables;
    if Preconditions(t) {
      PairInOrder(t.audits);
      if t.receipt.Some? {
        assert t.snapshots[0].row == t.audits[0] && t.snapshots[1].row == t.audits[1] by {
          assert t.snapshots[0].row.moduleCode == "core" && t.snapshots[1].row.moduleCode == "future";
          assert "core" != "future";
        }
      }
    }
  }
}
