/** What holds in every state of every run of the storage protocol. */
module StorageRuns {
  import opened StorageProtocol

  lemma StepKeeps(s: State, t: nat, a: Action, rules: Rules)
    requires Inv(s, rules) && Enabled(s, t, a, rules)
    ensures Inv(Apply(s, t, a, rules), rules)
  {
    match a
    case BeginUpload(r) => BeginUploadKeeps(s, t, r, rules);
    case BeginDelete(user, f) => BeginDeleteKeeps(s, t, user, f, rules);
    case SoftDelete(f) => SetDeletedKeeps(s, t, f, true, rules);
    case Restore(f) => SetDeletedKeeps(s, t, f, false, rules);
    case GoOn(atName) => GoOnKeeps(s, t, atName, rules);
    case Auto(st) => AutoKeeps(s, t, st, rules);
    case Do(st) =>
      if Quiet(st) {
        QuietStatementKeeps(s, t, st, rules);
      } else {
        CommitOnlyTables(s, t, st.outcome, rules);
        if s.txs[t].pc.FileInserted? { UploadCommitKeeps(s, Apply(s, t, a, rules), t, rules); }
        else { DeleteCommitKeeps(s, Apply(s, t, a, rules), t, rules); }
      }
  }

  /** A server start: no transaction is running, the tables are sound, their files are there, quotas hold. */
  ghost predicate Init(s: State, rules: Rules) {
    && TablesOk(s.tables) && ContentPresent(s.tables, s.disk) && WithinQuota(s, rules) && BoundsOk(s)
    && s.txs == map[] && s.locks == map[] && s.autos == map[]
  }

  ghost predicate Next(s: State, s': State, rules: Rules) {
    exists t, a :: Enabled(s, t, a, rules) && s' == Apply(s, t, a, rules)
  }

  ghost predicate IsRun(run: seq<State>, rules: Rules) {
    && |run| > 0 && Init(run[0], rules)
    && forall i :: 0 < i < |run| ==> Next(run[i - 1], run[i], rules)
  }

  lemma NextKeeps(s: State, s': State, rules: Rules)
    requires Inv(s, rules) && Next(s, s', rules)
    ensures Inv(s', rules)
  {
    var t, a :| Enabled(s, t, a, rules) && s' == Apply(s, t, a, rules);
    StepKeeps(s, t, a, rules);
  }

  lemma {:induction false} RunInv(run: seq<State>, rules: Rules, i: nat)
    requires IsRun(run, rules) && i < |run|
    ensures Inv(run[i], rules)
  {
    if i > 0 {
      RunInv(run, rules, i - 1);
      NextKeeps(run[i - 1], run[i], rules);
    }
  }

  /** In every state of every run, each committed physical row's stored file is on disk with the row's bytes. */
  lemma ContentAlwaysPresent(run: seq<State>, rules: Rules, i: nat)
    requires IsRun(run, rules) && i < |run| && Lossless(rules)
    ensures ContentPresent(run[i].tables, run[i].disk)
  {
    RunInv(run, rules, i);
  }

  /**
   In every state of every run `ref_count` is the number of file rows (trash included) that name the
   row, every file row's physical row exists, and digests and stored names are unique.
   */
  lemma CountsAlwaysExact(run: seq<State>, rules: Rules, i: nat)
    requires IsRun(run, rules) && i < |run|
    ensures TablesOk(run[i].tables)
  {
    RunInv(run, rules, i);
  }

  /** In every state of every run no user owns more than the quota, whatever is uploading meanwhile. */
  lemma QuotaNeverExceeded(run: seq<State>, rules: Rules, i: nat, user: nat)
    requires IsRun(run, rules) && i < |run| && Lossless(rules) && rules.quota.maxTotalBytes > 0
    ensures Usage(run[i].tables.files, user, run[i].nextFile) <= rules.quota.maxTotalBytes
  {
    RunInv(run, rules, i);
  }

  /** Whenever the delete trigger fires it subtracts exactly one: the clamp at zero never changes a value. */
  lemma ClampNeverBites(run: seq<State>, rules: Rules, i: nat, t: nat)
    requires IsRun(run, rules) && i < |run| && Enabled(run[i], t, Do(DeleteFileRow), rules)
    ensures var pc := run[i].txs[t].pc; var row := run[i].tables.physical[pc.fileRow.physicalId];
            && DeleteTrigger(row).refCount == row.refCount - 1
            && pc.file in References(run[i].tables.files, pc.fileRow.physicalId)
  {
    RunInv(run, rules, i);
    var s := run[i];
    assert TxOk(s, t, s.txs[t], rules);
    var pc := s.txs[t].pc;
    GuardView(s.tables, pc.file, pc.fileRow, pc.row);
  }

  /** The guarded delete removes the physical row exactly when the deleted file row was its last reference. */
  lemma GuardIsExact(run: seq<State>, rules: Rules, i: nat, t: nat)
    requires IsRun(run, rules) && i < |run| && Enabled(run[i], t, Do(DeletePhysicalIfUnreferenced), rules)
    ensures var pc := run[i].txs[t].pc;
            Apply(run[i], t, Do(DeletePhysicalIfUnreferenced), rules).txs[t].pc.physicalDeleted
            <==> References(run[i].tables.files, pc.fileRow.physicalId) == {pc.file}
  {
    RunInv(run, rules, i);
    assert TxOk(run[i], t, run[i].txs[t], rules);
    GuardTxOk(run[i], t, rules);
  }

  /** An upload that holds the row it found always finds the bytes too: the rewrite branch is never needed. */
  lemma DeduplicatedContentIsThere(run: seq<State>, rules: Rules, i: nat, t: nat)
    requires IsRun(run, rules) && i < |run| && t in run[i].txs && run[i].txs[t].alive && run[i].txs[t].pc.RowFound? && Lossless(rules)
    ensures var pc := run[i].txs[t].pc; pc.row.storedName in run[i].disk && run[i].disk[pc.row.storedName] == pc.r.sha
  {
    RunInv(run, rules, i);
    assert TxOk(run[i], t, run[i].txs[t], rules);
  }

  /** The recount of migration 006. */
  function Recount(tables: Tables): Tables {
    tables.(physical := map id | id in tables.physical ::
      tables.physical[id].(refCount := |References(tables.files, id)|))
  }

  /** The recount turns any key-respecting tables into sound ones, and changes nothing exactly when they are sound. */
  lemma RecountEstablishesCounts(tables: Tables)
    requires forall f :: f in tables.files ==> tables.files[f].physicalId in tables.physical
    requires forall i, j :: i in tables.physical && j in tables.physical && i != j ==>
               && tables.physical[i].sha != tables.physical[j].sha
               && tables.physical[i].storedName != tables.physical[j].storedName
    ensures TablesOk(Recount(tables))
    ensures Recount(tables) == tables <==> TablesOk(tables)
  {
    var after := Recount(tables);
    if TablesOk(tables) { assert after.physical == tables.physical; }
    if after == tables {
      forall id | id in tables.physical ensures tables.physical[id].refCount == |References(tables.files, id)| {
        assert after.physical[id] == tables.physical[id];
      }
    }
  }
}
