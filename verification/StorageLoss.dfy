/**
 What happens when an upload goes on after the server has dropped its transaction.  Two lookups tolerate a
 failed statement: the search for a free name and the search for the digest.  From then on every statement
 of the upload commits by itself and holds no lock.
 */
module StorageLoss {
  import opened Text
  import opened StorageProtocol
  import opened StorageRuns

  function Last(run: seq<State>): State
    requires run != []
  {
    run[|run| - 1]
  }

  lemma Extend(run: seq<State>, t: nat, a: Action, rules: Rules) returns (longer: seq<State>)
    requires IsRun(run, rules) && Enabled(Last(run), t, a, rules)
    ensures IsRun(longer, rules) && Last(longer) == Apply(Last(run), t, a, rules)
  {
    longer := run + [Apply(Last(run), t, a, rules)];
    forall i | 0 < i < |longer| ensures Next(longer[i - 1], longer[i], rules) {
      if i < |run| { assert Next(run[i - 1], run[i], rules); }
    }
  }

  // ---------- Stretches of a run ----------

  /** Nobody else holds a lock or has a transaction open. */
  predicate Calm(s: State) { s.txs == map[] && s.locks == map[] }

  ghost predicate Welcome(s: State, t: nat, r: Request, rules: Rules) {
    && Calm(s) && t !in s.autos && |r.prefix| >= PREFIX_LENGTH && r.prefix[..PREFIX_LENGTH] !in s.usedPrefixes
    && EvaluateUploadQuota(r.size, Usage(s.tables.files, r.user, s.nextFile), rules.quota).allowed
  }

  ghost function Known(s: State, r: Request): State
    requires |r.prefix| >= PREFIX_LENGTH
  {
    s.(usedPrefixes := s.usedPrefixes + {r.prefix[..PREFIX_LENGTH]})
  }

  /** An upload up to its quota check. */
  lemma Checked(run: seq<State>, t: nat, r: Request, rules: Rules) returns (longer: seq<State>)
    requires IsRun(run, rules) && Welcome(Last(run), t, r, rules)
    ensures IsRun(longer, rules)
    ensures Last(longer) == Known(Last(run), r).(txs := map[t := Tx(QuotaChecked(r), NoWrites, true)],
                                                 locks := map[UserLock(r.user) := t])
  {
    longer := Extend(run, t, BeginUpload(r), rules);
    assert Last(longer).txs == map[t := Tx(UploadBegun(r), NoWrites, true)];
    longer := Extend(longer, t, Do(LockUser), rules);
    assert Last(longer).txs == map[t := Tx(UserLocked(r), NoWrites, true)];
    longer := Extend(longer, t, Do(CheckQuota), rules);
    assert Last(longer).txs == map[t := Tx(QuotaChecked(r), NoWrites, true)];
  }

  /** An upload that loses its transaction behind its quota check and goes on. */
  lemma Lost(run: seq<State>, t: nat, r: Request, rules: Rules) returns (longer: seq<State>)
    requires IsRun(run, rules) && Welcome(Last(run), t, r, rules) && !Lossless(rules)
    ensures IsRun(longer, rules)
    ensures Last(longer) == Known(Last(run), r).(autos := Last(run).autos[t := RowMissing(r)])
  {
    longer := Checked(run, t, r, rules);
    longer := Extend(longer, t, Do(ServerAbort), rules);
    assert Last(longer) == Known(Last(run), r).(txs := map[t := Tx(QuotaChecked(r), NoWrites, false)]);
    longer := WentOn(longer, t, r, rules);
  }

  lemma WentOn(run: seq<State>, t: nat, r: Request, rules: Rules) returns (longer: seq<State>)
    requires IsRun(run, rules) && Last(run).txs == map[t := Tx(QuotaChecked(r), NoWrites, false)]
    requires Last(run).locks == map[] && t !in Last(run).autos && !Lossless(rules)
    ensures IsRun(longer, rules) && Last(longer) == Last(run).(txs := map[], autos := Last(run).autos[t := RowMissing(r)])
  {
    var s := Last(run);
    longer := Extend(run, t, GoOn(rules.lossAtName), rules);
    assert Last(longer).txs == map[] && Last(longer).locks == map[];
    if rules.lossAtName {
      longer := Extend(longer, t, Auto(FetchError), rules);
      assert Last(longer).autos == s.autos[t := RowMissing(r)];
    }
  }

  ghost function RowCommitted(s: State, t: nat, r: Request): State {
    s.(tables := WithPhysical(s.tables, s.nextPhysical, NewRow(r)), nextPhysical := s.nextPhysical + 1,
       disk := s.disk[StoredName(r) := r.sha], autos := s.autos[t := ContentOnDisk(r, s.nextPhysical, true)])
  }

  /** It then commits its physical row and writes the file. */
  lemma Committed(run: seq<State>, t: nat, r: Request, rules: Rules) returns (longer: seq<State>)
    requires IsRun(run, rules) && t in Last(run).autos && Last(run).autos[t] == RowMissing(r)
    requires Calm(Last(run)) && !HasSha(Last(run).tables.physical, r.sha)
    ensures IsRun(longer, rules) && Last(longer) == RowCommitted(Last(run), t, r)
  {
    var id := Last(run).nextPhysical;
    longer := Extend(run, t, Auto(InsertPhysical), rules);
    assert Last(longer).autos[t] == RowInserted(r, id);
    longer := Extend(longer, t, Auto(Materialize(true)), rules);
    assert Last(longer).autos == Last(run).autos[t := ContentOnDisk(r, id, true)];
  }

  ghost function Stored(s: State, r: Request): State
    requires |r.prefix| >= PREFIX_LENGTH
  {
    Known(s, r).(tables := WithFile(WithPhysical(s.tables, s.nextPhysical, NewRow(r)), s.nextFile,
                                    FileRow(r.user, s.nextPhysical, r.size, false)),
                 nextPhysical := s.nextPhysical + 1, nextFile := s.nextFile + 1, disk := s.disk[StoredName(r) := r.sha])
  }

  /** The upload between its inserts, with its file on disk. */
  ghost function Written(s: State, t: nat, r: Request, locks: map<Lock, nat>): State
    requires |r.prefix| >= PREFIX_LENGTH
  {
    Known(s, r).(
      nextPhysical := s.nextPhysical + 1, disk := s.disk[StoredName(r) := r.sha], locks := locks,
      txs := map[t := Tx(ContentOnDisk(r, s.nextPhysical, true), Overlay(map[], map[s.nextPhysical := Some(NewRow(r))]), true)])
  }

  /** An upload whose transaction lasts, from its first statement to its commit. */
  lemma Uploaded(run: seq<State>, t: nat, r: Request, rules: Rules) returns (longer: seq<State>)
    requires IsRun(run, rules) && Welcome(Last(run), t, r, rules)
    requires !HasSha(Last(run).tables.physical, r.sha) && BoundsOk(Last(run))
    ensures IsRun(longer, rules) && Last(longer) == Stored(Last(run), r)
  {
    longer := Checked(run, t, r, rules);
    longer := RowWritten(longer, t, r, rules);
    longer := FileCommitted(longer, t, r, rules, Last(run));
  }

  lemma RowWritten(run: seq<State>, t: nat, r: Request, rules: Rules) returns (longer: seq<State>)
    requires IsRun(run, rules) && Last(run).txs == map[t := Tx(QuotaChecked(r), NoWrites, true)]
    requires Last(run).locks == map[UserLock(r.user) := t] && !HasSha(Last(run).tables.physical, r.sha)
    ensures IsRun(longer, rules)
    ensures Last(longer) == Last(run).(
              nextPhysical := Last(run).nextPhysical + 1, disk := Last(run).disk[StoredName(r) := r.sha],
              locks := map[UserLock(r.user) := t, ShaLock(r.sha) := t],
              txs := map[t := Tx(ContentOnDisk(r, Last(run).nextPhysical, true),
                                 Overlay(map[], map[Last(run).nextPhysical := Some(NewRow(r))]), true)])
  {
    longer := Extend(run, t, Do(FetchBySha), rules);
    assert Last(longer) == Last(run).(txs := map[t := Tx(RowMissing(r), NoWrites, true)]);
    longer := RowAndFile(longer, t, r, rules);
  }

  lemma RowAndFile(run: seq<State>, t: nat, r: Request, rules: Rules) returns (longer: seq<State>)
    requires IsRun(run, rules) && Last(run).txs == map[t := Tx(RowMissing(r), NoWrites, true)]
    requires Last(run).locks == map[UserLock(r.user) := t] && !HasSha(Last(run).tables.physical, r.sha)
    ensures IsRun(longer, rules)
    ensures Last(longer) == Last(run).(
              nextPhysical := Last(run).nextPhysical + 1, disk := Last(run).disk[StoredName(r) := r.sha],
              locks := map[UserLock(r.user) := t, ShaLock(r.sha) := t],
              txs := map[t := Tx(ContentOnDisk(r, Last(run).nextPhysical, true),
                                 Overlay(map[], map[Last(run).nextPhysical := Some(NewRow(r))]), true)])
  {
    var id := Last(run).nextPhysical;
    var writes := Overlay(map[], map[id := Some(NewRow(r))]);
    longer := Extend(run, t, Do(InsertPhysical), rules);
    assert Last(longer).txs == map[t := Tx(RowInserted(r, id), writes, true)];
    assert Last(longer).locks == map[UserLock(r.user) := t, ShaLock(r.sha) := t];
    longer := Extend(longer, t, Do(Materialize(true)), rules);
    assert Last(longer).txs == map[t := Tx(ContentOnDisk(r, id, true), writes, true)];
  }

  lemma FileCommitted(run: seq<State>, t: nat, r: Request, rules: Rules, s: State) returns (longer: seq<State>)
    requires IsRun(run, rules) && BoundsOk(s) && |r.prefix| >= PREFIX_LENGTH && Calm(s)
    requires Last(run) == Written(s, t, r, Last(run).locks)
    requires forall l :: l in Last(run).locks ==> Last(run).locks[l] == t
    ensures IsRun(longer, rules) && Last(longer) == Stored(s, r)
  {
    var id, f := s.nextPhysical, s.nextFile;
    assert View(s.tables, Last(run).txs[t].writes).physical == s.tables.physical[id := NewRow(r)];
    longer := Extend(run, t, Do(InsertFile), rules);
    var writes := Overlay(map[f := Some(FileRow(r.user, id, r.size, false))], map[id := Some(InsertTrigger(NewRow(r)))]);
    assert map[id := Some(NewRow(r))][id := Some(InsertTrigger(NewRow(r)))] == map[id := Some(InsertTrigger(NewRow(r)))];
    assert Last(longer).txs == map[t := Tx(FileInserted(r, id, true, f), writes, true)];
    longer := Extend(longer, t, Do(Commit(Acknowledged)), rules);
    assert Last(longer).txs == map[] && Last(longer).locks == map[];
    StoredView(s, r);
  }

  lemma StoredView(s: State, r: Request)
    requires BoundsOk(s) && |r.prefix| >= PREFIX_LENGTH
    ensures View(s.tables, Overlay(map[s.nextFile := Some(FileRow(r.user, s.nextPhysical, r.size, false))],
                                   map[s.nextPhysical := Some(InsertTrigger(NewRow(r)))])) == Stored(s, r).tables
  {
    var id, f, row := s.nextPhysical, s.nextFile, FileRow(r.user, s.nextPhysical, r.size, false);
    assert Overlaid(s.tables.files, map[f := Some(row)]) == s.tables.files[f := row];
    assert Overlaid(s.tables.physical, map[id := Some(InsertTrigger(NewRow(r)))]) == s.tables.physical[id := InsertTrigger(NewRow(r))];
    assert s.tables.physical[id := NewRow(r)][id := InsertTrigger(NewRow(r))] == s.tables.physical[id := InsertTrigger(NewRow(r))];
  }

  // ---------- The two failures ----------

  function Prefix(c: char): string { seq(PREFIX_LENGTH, _ => c) }

  const Empty := State(Tables(map[], map[]), map[], map[], map[], 0, 0, {}, map[])

  /** One lost transaction and one failed insert: at the end nothing runs, and a committed row has no file. */
  lemma RowWithoutFile(rules: Rules) returns (run: seq<State>)
    requires !Lossless(rules)
    ensures IsRun(run, rules) && Calm(Last(run)) && Last(run).autos == map[]
    ensures !ContentPresent(Last(run).tables, Last(run).disk)
  {
    var r := Request(0, "digest", 1, Prefix('p'), "");
    run := [Empty];
    run := Lost(run, 0, r, rules);
    run := Committed(run, 0, r, rules);
    run := Abandoned(run, r, 0, rules);
  }

  /** The insert of the file row fails, and the file is removed from under the committed row. */
  lemma Abandoned(run: seq<State>, r: Request, id: nat, rules: Rules) returns (longer: seq<State>)
    requires IsRun(run, rules) && Calm(Last(run)) && Last(run).autos == map[0 := ContentOnDisk(r, id, true)]
    requires id in Last(run).tables.physical && Last(run).tables.physical[id].storedName == StoredName(r)
    ensures IsRun(longer, rules) && Calm(Last(longer)) && Last(longer).autos == map[]
    ensures !ContentPresent(Last(longer).tables, Last(longer).disk)
  {
    longer := Extend(run, 0, Auto(Fail), rules);
    assert Last(longer).autos == map[0 := MustRemoveContent(r)];
    longer := Extend(longer, 0, Auto(RemoveContent), rules);
    assert Last(longer).tables.physical[id].storedName !in Last(longer).disk;
  }

  /** A user one byte below the quota. */
  ghost function Nearly(quota: Quota): State
    requires quota.maxTotalBytes > 0
  {
    var r := Request(0, "first", quota.maxTotalBytes - 1, Prefix('p'), "");
    State(Tables(map[0 := FileRow(0, 0, r.size, false)], map[0 := InsertTrigger(NewRow(r))]), map[StoredName(r) := r.sha],
          map[], map[], 1, 1, {Prefix('p')}, map[])
  }

  lemma NearlyStarts(rules: Rules)
    requires rules.quota.maxTotalBytes > 0
    ensures Init(Nearly(rules.quota), rules) && Usage(Nearly(rules.quota).tables.files, 0, 1) == rules.quota.maxTotalBytes - 1
  {
    var s := Nearly(rules.quota);
    assert References(s.tables.files, 0) == {0};
    StoredNamePrefix(Request(0, "first", rules.quota.maxTotalBytes - 1, Prefix('p'), ""));
    assert Prefix('p')[..PREFIX_LENGTH] == Prefix('p');
    forall user ensures Usage(s.tables.files, user, 1) <= rules.quota.maxTotalBytes {
      assert Usage(s.tables.files, user, 0) == 0;
    }
  }

  lemma NearlyFull(rules: Rules, s: State, r: Request)
    requires rules.quota.maxTotalBytes > 0 && s.tables == Nearly(rules.quota).tables && s.nextFile == 1
    requires r.user == 0 && r.size == 1
    ensures EvaluateUploadQuota(r.size, Usage(s.tables.files, r.user, s.nextFile), rules.quota).allowed
  {
    NearlyStarts(rules);
  }

  function Byte(c: char): Request { Request(0, [c], 1, Prefix(c), "") }

  /** Two uploads of one byte each pass the quota check, and both files are committed. */
  lemma QuotaBroken(rules: Rules) returns (run: seq<State>)
    requires !Lossless(rules) && rules.quota.maxTotalBytes > 0
    ensures IsRun(run, rules) && Usage(Last(run).tables.files, 0, Last(run).nextFile) == rules.quota.maxTotalBytes + 1
  {
    var s, a, b := Nearly(rules.quota), Byte('q'), Byte('r');
    assert Prefix('p')[0] == 'p' && a.prefix[..PREFIX_LENGTH][0] == 'q' && b.prefix[..PREFIX_LENGTH][0] == 'r';
    NearlyStarts(rules);
    NearlyFull(rules, s, a);
    run := [s];
    run := Lost(run, 0, a, rules);
    assert !HasSha(s.tables.physical, b.sha);
    NearlyFull(rules, Last(run), b);
    run := Uploaded(run, 1, b, rules);
    run := Overdrawn(run, a, b, rules);
  }

  lemma Overdrawn(run: seq<State>, a: Request, b: Request, rules: Rules) returns (longer: seq<State>)
    requires rules.quota.maxTotalBytes > 0 && a == Byte('q') && b == Byte('r') && IsRun(run, rules)
    requires Last(run) == Stored(Known(Nearly(rules.quota), a).(autos := map[0 := RowMissing(a)]), b)
    ensures IsRun(longer, rules) && Usage(Last(longer).tables.files, 0, Last(longer).nextFile) == rules.quota.maxTotalBytes + 1
  {
    assert Last(run).tables.physical.Keys == {0, 1};
    longer := Committed(run, 0, a, rules);
    longer := FileAdded(longer, a, 2, rules);
    ThreeFiles(Last(longer).tables.files, rules.quota.maxTotalBytes);
  }

  lemma FileAdded(run: seq<State>, r: Request, id: nat, rules: Rules) returns (longer: seq<State>)
    requires IsRun(run, rules) && Calm(Last(run)) && id in Last(run).tables.physical
    requires 0 in Last(run).autos && Last(run).autos[0] == ContentOnDisk(r, id, true)
    ensures IsRun(longer, rules) && Last(longer).nextFile == Last(run).nextFile + 1
    ensures Last(longer).tables.files == Last(run).tables.files[Last(run).nextFile := FileRow(r.user, id, r.size, false)]
  {
    longer := Extend(run, 0, Auto(InsertFile), rules);
  }

  lemma ThreeFiles(files: map<nat, FileRow>, max: nat)
    requires max > 0
    requires files == map[0 := FileRow(0, 0, max - 1, false), 1 := FileRow(0, 1, 1, false), 2 := FileRow(0, 2, 1, false)]
    ensures Usage(files, 0, 3) == max + 1
  {
    assert Usage(files, 0, 1) == max - 1 && Usage(files, 0, 2) == max;
  }

  // ---------- Exactly when the promises hold ----------

  ghost predicate ContentSafe(rules: Rules) {
    forall run: seq<State>, i: nat | IsRun(run, rules) && i < |run| :: ContentPresent(run[i].tables, run[i].disk)
  }

  ghost predicate QuotaSafe(rules: Rules) {
    forall run: seq<State>, i: nat | IsRun(run, rules) && i < |run| :: WithinQuota(run[i], rules)
  }

  /** Every committed row has its file on every run exactly when no upload may go on after losing its transaction. */
  lemma ContentSafeIffLossless(rules: Rules)
    ensures ContentSafe(rules) <==> Lossless(rules)
  {
    if Lossless(rules) {
      forall run: seq<State>, i: nat | IsRun(run, rules) && i < |run| ensures ContentPresent(run[i].tables, run[i].disk) {
        ContentAlwaysPresent(run, rules, i);
      }
    } else {
      var run := RowWithoutFile(rules);
      assert IsRun(run, rules) && |run| - 1 < |run|;
    }
  }

  /** A quota is kept on every run under the same condition. */
  lemma QuotaSafeIffLossless(rules: Rules)
    requires rules.quota.maxTotalBytes > 0
    ensures QuotaSafe(rules) <==> Lossless(rules)
  {
    if Lossless(rules) {
      forall run: seq<State>, i: nat | IsRun(run, rules) && i < |run| ensures WithinQuota(run[i], rules) { RunInv(run, rules, i); }
    } else {
      var run := QuotaBroken(rules);
      assert IsRun(run, rules) && |run| - 1 < |run|;
    }
  }

  lemma GoingOnShows(s: State, t: nat, a: Action, rules: Rules)
    requires Enabled(s, t, a, rules)
    ensures (a.GoOn? ==> t in Apply(s, t, a, rules).autos) && (a.Auto? ==> t in s.autos)
  {
  }

  /** Any other step is a step of the protocol without such losses. */
  lemma QuietStepIsLossless(s: State, t: nat, a: Action, rules: Rules)
    requires Enabled(s, t, a, rules) && !a.GoOn? && !a.Auto?
    ensures var strict := Rules(rules.quota, false, false);
            Enabled(s, t, a, strict) && Apply(s, t, a, rules) == Apply(s, t, a, strict)
  {
  }

  /** The same run by run: as long as nobody has gone on without a transaction, everything is in place. */
  lemma SafeWhileNobodyGoesOn(run: seq<State>, rules: Rules, i: nat)
    requires IsRun(run, rules) && i < |run| && forall j :: 0 <= j <= i ==> run[j].autos == map[]
    ensures ContentPresent(run[i].tables, run[i].disk) && WithinQuota(run[i], rules)
  {
    var strict := Rules(rules.quota, false, false);
    var prefix := run[..i + 1];
    forall j | 0 < j < |prefix| ensures Next(prefix[j - 1], prefix[j], strict) {
      assert Next(run[j - 1], run[j], rules);
      var t, a :| Enabled(run[j - 1], t, a, rules) && run[j] == Apply(run[j - 1], t, a, rules);
      GoingOnShows(run[j - 1], t, a, rules);
      QuietStepIsLossless(run[j - 1], t, a, rules);
    }
    RunInv(prefix, strict, i);
  }
}
