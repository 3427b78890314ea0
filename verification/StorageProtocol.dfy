/**
 The deduplicated storage protocol: uploads, soft deletes, restores and permanent deletes over the
 tables `files` and `physical_files` and the upload directory on disk, run by any number of workers.

 A transaction keeps its writes in an overlay until COMMIT; row locks are held until it ends.  The
 server may drop a transaction at any moment, a statement may fail at any moment, and a COMMIT may take
 effect although the client is told that it failed.  Disk effects are immediate and are never undone.
 A file's bytes are identified with their SHA-256 digest.
 */
module StorageProtocol {
  import opened Text

  datatype FileRow = FileRow(user: nat, physicalId: nat, size: nat, deleted: bool)
  datatype PhysicalRow = PhysicalRow(sha: string, storedName: string, size: nat, refCount: int)
  datatype Tables = Tables(files: map<nat, FileRow>, physical: map<nat, PhysicalRow>)
  datatype Overlay = Overlay(files: map<nat, Option<FileRow>>, physical: map<nat, Option<PhysicalRow>>)

  const NoWrites := Overlay(map[], map[])

  /** A row lock: a user row, a file row, or the unique-key entry of a digest in `physical_files`. */
  datatype Lock = UserLock(user: nat) | FileLock(file: nat) | ShaLock(sha: string)

  datatype Request = Request(user: nat, sha: string, size: nat, prefix: string, extension: string)

  /** The program counter of a worker, named after what it has done last. */
  datatype Pc =
    | UploadBegun(r: Request)
    | UserLocked(r: Request)
    | QuotaChecked(r: Request)
    | RowMissing(r: Request)
    | DuplicateReported(r: Request)
    | RowFound(r: Request, id: nat, row: PhysicalRow)
    | RowInserted(r: Request, id: nat)
    | ContentOnDisk(r: Request, id: nat, created: bool)
    | FileInserted(r: Request, id: nat, created: bool, file: nat)
    | MustRemoveContent(r: Request)
    | DeleteBegun(user: nat, file: nat)
    | DeleteLocked(file: nat, fileRow: FileRow, row: PhysicalRow)
    | FileRowDeleted(file: nat, fileRow: FileRow, row: PhysicalRow)
    | GuardEvaluated(file: nat, fileRow: FileRow, row: PhysicalRow, physicalDeleted: bool)
    | MustUnlink(name: string)

  datatype Tx = Tx(pc: Pc, writes: Overlay, alive: bool)

  /** `autos` are the uploads that go on after the server has dropped their transaction: each statement commits by itself. */
  datatype State = State(tables: Tables, disk: map<string, string>, txs: map<nat, Tx>, locks: map<Lock, nat>,
                         nextFile: nat, nextPhysical: nat, usedPrefixes: set<string>, autos: map<nat, Pc>)

  // ---------- Names, usage, quota ----------

  const PREFIX_LENGTH := 24

  function Take(s: string, n: nat): string { if |s| <= n then s else s[..n] }

  function StoredName(r: Request): string {
    Take(r.prefix, PREFIX_LENGTH) + "_" + Take(r.sha, 12) + r.extension
  }

  /** Bytes a user owns among the file ids below `bound`, trash included. */
  function Usage(files: map<nat, FileRow>, user: nat, bound: nat): nat {
    if bound == 0 then 0
    else Usage(files, user, bound - 1)
         + if bound - 1 in files && files[bound - 1].user == user then files[bound - 1].size else 0
  }

  datatype Quota = Quota(maxSingleFileBytes: int, maxTotalBytes: int)

  /** The quota in force, and at which of its two tolerant lookups an upload may go on without its transaction. */
  datatype Rules = Rules(quota: Quota, lossAtName: bool, lossAtDigest: bool)

  predicate Lossless(rules: Rules) { !rules.lossAtName && !rules.lossAtDigest }

  datatype QuotaStatus = QuotaStatus(allowed: bool, remaining: int, reason: QuotaReason)
  datatype QuotaReason = Fine | InvalidSize | SingleFileLimit | QuotaExceeded

  function EvaluateUploadQuota(requested: int, used: int, quota: Quota): (status: QuotaStatus)
    requires used >= 0
    ensures status.allowed <==>
              && 0 <= requested
              && (quota.maxSingleFileBytes > 0 ==> requested <= quota.maxSingleFileBytes)
              && (quota.maxTotalBytes > 0 ==> requested == 0 || used + requested <= quota.maxTotalBytes)
    ensures if requested < 0 || quota.maxTotalBytes <= 0 then status.remaining == 0
            else used + status.remaining == if used < quota.maxTotalBytes then quota.maxTotalBytes else used
    ensures status.reason.Fine? <==> status.allowed
    ensures status.reason.InvalidSize? <==> requested < 0
    ensures status.reason.SingleFileLimit? <==> requested > quota.maxSingleFileBytes > 0
  {
    if requested < 0 then QuotaStatus(false, 0, InvalidSize)
    else
      var remaining := if quota.maxTotalBytes > 0 && used < quota.maxTotalBytes then quota.maxTotalBytes - used else 0;
      if quota.maxSingleFileBytes > 0 && requested > quota.maxSingleFileBytes then
        QuotaStatus(false, remaining, SingleFileLimit)
      else if quota.maxTotalBytes > 0 && requested > remaining then
        QuotaStatus(false, remaining, QuotaExceeded)
      else QuotaStatus(true, remaining, Fine)
  }

  // ---------- Table views and helpers ----------

  function Overlaid<V>(base: map<nat, V>, writes: map<nat, Option<V>>): map<nat, V> {
    map k | k in base.Keys + writes.Keys && (k in writes ==> writes[k].Some?) ::
      if k in writes then writes[k].value else base[k]
  }

  /** What a transaction sees: the committed rows under its own writes. */
  function View(tables: Tables, writes: Overlay): Tables {
    Tables(Overlaid(tables.files, writes.files), Overlaid(tables.physical, writes.physical))
  }

  function References(files: map<nat, FileRow>, id: nat): set<nat> {
    set f | f in files && files[f].physicalId == id
  }

  ghost predicate HasSha(physical: map<nat, PhysicalRow>, sha: string) {
    exists id :: id in physical && physical[id].sha == sha
  }

  ghost predicate HasName(physical: map<nat, PhysicalRow>, name: string) {
    exists id :: id in physical && physical[id].storedName == name
  }

  /** AFTER INSERT ON files. */
  function InsertTrigger(row: PhysicalRow): PhysicalRow { row.(refCount := row.refCount + 1) }

  /** AFTER DELETE ON files, with the GREATEST clamp. */
  function DeleteTrigger(row: PhysicalRow): PhysicalRow {
    row.(refCount := if row.refCount - 1 >= 0 then row.refCount - 1 else 0)
  }

  ghost predicate Holds(s: State, t: nat, l: Lock) { l in s.locks && s.locks[l] == t }
  ghost predicate CanLock(s: State, t: nat, l: Lock) { l in s.locks ==> s.locks[l] == t }

  function LocksOfOthers(s: State, t: nat): map<Lock, nat> {
    map l | l in s.locks && s.locks[l] != t :: s.locks[l]
  }

  ghost function SetPc(s: State, t: nat, pc: Pc): State
    requires t in s.txs
  {
    s.(txs := s.txs[t := s.txs[t].(pc := pc)])
  }

  /** The worker is done: whatever is left of its transaction is rolled back. */
  ghost function Finish(s: State, t: nat): State {
    s.(txs := s.txs - {t}, locks := LocksOfOthers(s, t))
  }

  // ---------- Steps ----------

  datatype CommitOutcome = Acknowledged | Ambiguous | Refused

  /** What a worker inside an upload or a permanent delete can do next. */
  datatype Statement =
    | LockUser
    | CheckQuota
    | FetchBySha
    | FetchError
    | InsertPhysical
    | Materialize(ok: bool)
    | CheckDisk(ok: bool)
    | InsertFile
    | RemoveContent
    | LockForDelete
    | DeleteFileRow
    | DeletePhysicalIfUnreferenced
    | Commit(outcome: CommitOutcome)
    | Unlink(ok: bool)
    | Fail
    | ServerAbort

  datatype Action =
    | BeginUpload(r: Request)
    | BeginDelete(user: nat, file: nat)
    | Do(statement: Statement)
    | GoOn(atName: bool)       // the failed lookup is taken for "no such name" or "no such digest"
    | Auto(statement: Statement)
    | SoftDelete(target: nat)
    | Restore(target: nat)

  ghost predicate Enabled(s: State, t: nat, a: Action, rules: Rules) {
    match a
    case BeginUpload(r) =>
      && t !in s.txs && t !in s.autos && |r.prefix| >= PREFIX_LENGTH
      && r.prefix[..PREFIX_LENGTH] !in s.usedPrefixes // fresh random token
    case BeginDelete(_, _) => t !in s.txs && t !in s.autos
    case Do(st) => t in s.txs && CanDo(s, t, s.txs[t], st)
    case GoOn(atName) =>
      && t in s.txs && t !in s.autos && !s.txs[t].alive && s.txs[t].pc.QuotaChecked?
      && if atName then rules.lossAtName else rules.lossAtDigest
    case Auto(st) => t in s.autos && CanAuto(s, s.autos[t], st)
    case SoftDelete(f) => t !in s.txs && f in s.tables.files && FileLock(f) !in s.locks && !s.tables.files[f].deleted
    case Restore(f) => t !in s.txs && f in s.tables.files && FileLock(f) !in s.locks && s.tables.files[f].deleted
  }

  ghost predicate CanDo(s: State, t: nat, tx: Tx, st: Statement) {
    match st
    case LockUser => tx.alive && tx.pc.UploadBegun? && CanLock(s, t, UserLock(tx.pc.r.user))
    case CheckQuota => tx.alive && tx.pc.UserLocked?
    case FetchBySha =>
      tx.alive && (tx.pc.QuotaChecked? || tx.pc.DuplicateReported?) && CanLock(s, t, ShaLock(tx.pc.r.sha))
    case FetchError => tx.alive && tx.pc.QuotaChecked?
    case InsertPhysical => tx.alive && tx.pc.RowMissing? && CanLock(s, t, ShaLock(tx.pc.r.sha))
    case Materialize(_) => tx.pc.RowInserted?
    case CheckDisk(_) => tx.pc.RowFound?
    case InsertFile => tx.alive && tx.pc.ContentOnDisk? && tx.pc.id in View(s.tables, tx.writes).physical
    case RemoveContent => tx.pc.MustRemoveContent?
    case LockForDelete =>
      && tx.alive && tx.pc.DeleteBegun? && tx.pc.file in s.tables.files
      && var row := s.tables.files[tx.pc.file];
         && row.physicalId in s.tables.physical
         && CanLock(s, t, FileLock(tx.pc.file)) && CanLock(s, t, UserLock(row.user))
         && CanLock(s, t, ShaLock(s.tables.physical[row.physicalId].sha))
    case DeleteFileRow => tx.alive && tx.pc.DeleteLocked? && tx.pc.fileRow.physicalId in s.tables.physical
    case DeletePhysicalIfUnreferenced =>
      tx.alive && tx.pc.FileRowDeleted? && tx.pc.fileRow.physicalId in View(s.tables, tx.writes).physical
    case Commit(outcome) => (tx.pc.FileInserted? || tx.pc.GuardEvaluated?) && (!outcome.Refused? ==> tx.alive)
    case Unlink(_) => tx.pc.MustUnlink?
    case Fail => !tx.pc.MustUnlink? && !tx.pc.MustRemoveContent?
    case ServerAbort => tx.alive && !tx.pc.MustUnlink?
  }

  /** A statement outside a transaction waits for the locks of others but keeps none. */
  ghost predicate CanAuto(s: State, pc: Pc, st: Statement) {
    match st
    case FetchBySha => (pc.QuotaChecked? || pc.DuplicateReported?) && ShaLock(pc.r.sha) !in s.locks
    case FetchError => pc.QuotaChecked?
    case InsertPhysical => pc.RowMissing? && ShaLock(pc.r.sha) !in s.locks
    case Materialize(_) => pc.RowInserted?
    case CheckDisk(_) => pc.RowFound?
    case InsertFile =>
      && pc.ContentOnDisk? && pc.id in s.tables.physical
      && UserLock(pc.r.user) !in s.locks && ShaLock(s.tables.physical[pc.id].sha) !in s.locks
    case Commit(_) => pc.FileInserted?
    case Fail => !pc.MustRemoveContent?
    case RemoveContent => pc.MustRemoveContent?
    case _ => false
  }

  ghost function Apply(s: State, t: nat, a: Action, rules: Rules): State
    requires Enabled(s, t, a, rules)
  {
    match a
    case BeginUpload(r) =>
      s.(txs := s.txs[t := Tx(UploadBegun(r), NoWrites, true)],
         usedPrefixes := s.usedPrefixes + {r.prefix[..PREFIX_LENGTH]})
    case BeginDelete(user, f) => s.(txs := s.txs[t := Tx(DeleteBegun(user, f), NoWrites, true)])
    case Do(st) => Perform(s, t, s.txs[t], st, rules)
    case GoOn(atName) =>
      var r := s.txs[t].pc.r;
      Finish(s, t).(autos := s.autos[t := if atName then QuotaChecked(r) else RowMissing(r)])
    case Auto(st) => PerformAuto(s, t, s.autos[t], st)
    case SoftDelete(f) => SetDeleted(s, f, true)
    case Restore(f) => SetDeleted(s, f, false)
  }

  ghost function SetAuto(s: State, t: nat, pc: Pc): State { s.(autos := s.autos[t := pc]) }
  ghost function EndAuto(s: State, t: nat): State { s.(autos := s.autos - {t}) }

  ghost function PerformAuto(s: State, t: nat, pc: Pc, st: Statement): State
    requires t in s.autos && s.autos[t] == pc && CanAuto(s, pc, st)
  {
    match st
    case FetchBySha =>
      if HasSha(s.tables.physical, pc.r.sha) then
        var id :| id in s.tables.physical && s.tables.physical[id].sha == pc.r.sha;
        SetAuto(s, t, RowFound(pc.r, id, s.tables.physical[id]))
      else if pc.QuotaChecked? then SetAuto(s, t, RowMissing(pc.r))
      else EndAuto(s, t)
    case FetchError => SetAuto(s, t, RowMissing(pc.r))
    case InsertPhysical =>
      if HasSha(s.tables.physical, pc.r.sha) then SetAuto(s, t, DuplicateReported(pc.r))
      else
        SetAuto(s, t, RowInserted(pc.r, s.nextPhysical)).(
          nextPhysical := s.nextPhysical + 1, tables := WithPhysical(s.tables, s.nextPhysical, NewRow(pc.r)))
    case Materialize(ok) =>
      if ok then SetAuto(s, t, ContentOnDisk(pc.r, pc.id, true)).(disk := s.disk[StoredName(pc.r) := pc.r.sha])
      else EndAuto(s, t)
    case CheckDisk(ok) =>
      if pc.row.storedName in s.disk then SetAuto(s, t, ContentOnDisk(pc.r, pc.id, false))
      else if ok then
        SetAuto(s, t, ContentOnDisk(pc.r, pc.id, false)).(disk := s.disk[pc.row.storedName := pc.r.sha])
      else EndAuto(s, t)
    case InsertFile =>
      SetAuto(s, t, FileInserted(pc.r, pc.id, pc.created, s.nextFile)).(
        nextFile := s.nextFile + 1, tables := WithFile(s.tables, s.nextFile, FileRow(pc.r.user, pc.id, pc.r.size, false)))
    case Commit(_) => EndAuto(s, t)
    case Fail =>
      if (pc.ContentOnDisk? || pc.FileInserted?) && pc.created then SetAuto(s, t, MustRemoveContent(pc.r)) else EndAuto(s, t)
    case RemoveContent => EndAuto(s, t).(disk := s.disk - {StoredName(pc.r)})
  }

  ghost function WithPhysical(tables: Tables, id: nat, row: PhysicalRow): Tables {
    tables.(physical := tables.physical[id := row])
  }

  /** INSERT INTO files with its trigger, committed at once. */
  ghost function WithFile(tables: Tables, f: nat, row: FileRow): Tables
    requires row.physicalId in tables.physical
  {
    Tables(tables.files[f := row], tables.physical[row.physicalId := InsertTrigger(tables.physical[row.physicalId])])
  }

  ghost function SetDeleted(s: State, f: nat, deleted: bool): State
    requires f in s.tables.files
  {
    s.(tables := s.tables.(files := s.tables.files[f := s.tables.files[f].(deleted := deleted)]))
  }

  ghost function Perform(s: State, t: nat, tx: Tx, st: Statement, rules: Rules): State
    requires t in s.txs && s.txs[t] == tx && CanDo(s, t, tx, st)
  {
    match st
    case LockUser => SetPc(s, t, UserLocked(tx.pc.r)).(locks := s.locks[UserLock(tx.pc.r.user) := t])
    case CheckQuota =>
      if EvaluateUploadQuota(tx.pc.r.size, Usage(s.tables.files, tx.pc.r.user, s.nextFile), rules.quota).allowed
      then SetPc(s, t, QuotaChecked(tx.pc.r)) else Finish(s, t)
    case FetchBySha => ApplyFetch(s, t, tx.pc.r)
    case FetchError => SetPc(s, t, RowMissing(tx.pc.r))
    case InsertPhysical => ApplyInsertPhysical(s, t, tx.pc.r)
    case Materialize(ok) =>
      if ok then SetPc(s, t, ContentOnDisk(tx.pc.r, tx.pc.id, true)).(disk := s.disk[StoredName(tx.pc.r) := tx.pc.r.sha])
      else Finish(s, t)
    case CheckDisk(ok) =>
      if tx.pc.row.storedName in s.disk then SetPc(s, t, ContentOnDisk(tx.pc.r, tx.pc.id, false))
      else if ok then
        SetPc(s, t, ContentOnDisk(tx.pc.r, tx.pc.id, false)).(disk := s.disk[tx.pc.row.storedName := tx.pc.r.sha])
      else Finish(s, t)
    case InsertFile => ApplyInsertFile(s, t, tx)
    case RemoveContent => Finish(s, t).(disk := s.disk - {StoredName(tx.pc.r)})
    case LockForDelete => ApplyLockForDelete(s, t, tx.pc.user, tx.pc.file)
    case DeleteFileRow =>
      var id := tx.pc.fileRow.physicalId;
      var writes := Overlay(map[tx.pc.file := None], map[id := Some(DeleteTrigger(s.tables.physical[id]))]);
      s.(txs := s.txs[t := Tx(FileRowDeleted(tx.pc.file, tx.pc.fileRow, tx.pc.row), writes, true)])
    case DeletePhysicalIfUnreferenced => ApplyGuardedDelete(s, t, tx)
    case Commit(outcome) => ApplyCommit(s, t, tx, outcome)
    case Unlink(ok) => if ok then Finish(s, t).(disk := s.disk - {tx.pc.name}) else Finish(s, t)
    case Fail =>
      if (tx.pc.ContentOnDisk? || tx.pc.FileInserted?) && tx.pc.created
      then SetPc(s, t, MustRemoveContent(tx.pc.r)) else Finish(s, t)
    case ServerAbort =>
      s.(txs := s.txs[t := tx.(writes := NoWrites, alive := false)], locks := LocksOfOthers(s, t))
  }

  /** SELECT ... WHERE sha256=... FOR UPDATE: locks the row it finds. */
  ghost function ApplyFetch(s: State, t: nat, r: Request): State
    requires t in s.txs
  {
    if HasSha(s.tables.physical, r.sha) then
      var id :| id in s.tables.physical && s.tables.physical[id].sha == r.sha;
      SetPc(s, t, RowFound(r, id, s.tables.physical[id])).(locks := s.locks[ShaLock(r.sha) := t])
    else if s.txs[t].pc.QuotaChecked? then SetPc(s, t, RowMissing(r))
    else Finish(s, t)
  }

  /** INSERT INTO physical_files: reports a duplicate key when a committed row has the digest. */
  ghost function ApplyInsertPhysical(s: State, t: nat, r: Request): State
    requires t in s.txs
  {
    if HasSha(s.tables.physical, r.sha) then SetPc(s, t, DuplicateReported(r))
    else
      var row := PhysicalRow(r.sha, StoredName(r), r.size, 0);
      s.(txs := s.txs[t := s.txs[t].(pc := RowInserted(r, s.nextPhysical),
                                     writes := Overlay(map[], map[s.nextPhysical := Some(row)]))],
         locks := s.locks[ShaLock(r.sha) := t], nextPhysical := s.nextPhysical + 1)
  }

  /** INSERT INTO files and its trigger. */
  ghost function ApplyInsertFile(s: State, t: nat, tx: Tx): State
    requires tx.pc.ContentOnDisk? && tx.pc.id in View(s.tables, tx.writes).physical
  {
    var r, id := tx.pc.r, tx.pc.id;
    var row := InsertTrigger(View(s.tables, tx.writes).physical[id]);
    var writes := Overlay(tx.writes.files[s.nextFile := Some(FileRow(r.user, id, r.size, false))],
                          tx.writes.physical[id := Some(row)]);
    s.(txs := s.txs[t := tx.(pc := FileInserted(r, id, tx.pc.created, s.nextFile), writes := writes)],
       nextFile := s.nextFile + 1)
  }

  /** The joined SELECT ... FOR UPDATE on file, user and physical row, then the ownership and trash checks. */
  ghost function ApplyLockForDelete(s: State, t: nat, user: nat, f: nat): State
    requires t in s.txs && f in s.tables.files && s.tables.files[f].physicalId in s.tables.physical
  {
    var fileRow := s.tables.files[f];
    var row := s.tables.physical[fileRow.physicalId];
    if fileRow.user == user && fileRow.deleted then
      SetPc(s, t, DeleteLocked(f, fileRow, row)).(
        locks := s.locks[FileLock(f) := t][UserLock(fileRow.user) := t][ShaLock(row.sha) := t])
    else Finish(s, t)
  }

  /** DELETE FROM physical_files WHERE ref_count=0 AND NOT EXISTS (a file row that names it). */
  ghost function ApplyGuardedDelete(s: State, t: nat, tx: Tx): State
    requires tx.pc.FileRowDeleted? && tx.pc.fileRow.physicalId in View(s.tables, tx.writes).physical
  {
    var id := tx.pc.fileRow.physicalId;
    var view := View(s.tables, tx.writes);
    var unreferenced := view.physical[id].refCount == 0 && References(view.files, id) == {};
    var writes := if unreferenced then tx.writes.(physical := tx.writes.physical[id := None]) else tx.writes;
    s.(txs := s.txs[t := tx.(pc := GuardEvaluated(tx.pc.file, tx.pc.fileRow, tx.pc.row, unreferenced), writes := writes)])
  }

  ghost function ApplyCommit(s: State, t: nat, tx: Tx, outcome: CommitOutcome): State
    requires t in s.txs && s.txs[t] == tx
  {
    if outcome.Refused? then Finish(s, t)
    else
      var done := Finish(s, t).(tables := View(s.tables, tx.writes));
      if outcome.Acknowledged? && tx.pc.GuardEvaluated? && tx.pc.physicalDeleted
      then done.(txs := s.txs[t := Tx(MustUnlink(tx.pc.row.storedName), NoWrites, false)])
      else done
  }

  // ---------- The invariant ----------

  /** Foreign key, exact reference counts and the two unique keys. */
  ghost predicate TablesOk(tables: Tables) {
    && (forall f :: f in tables.files ==> tables.files[f].physicalId in tables.physical)
    && (forall id :: id in tables.physical ==> tables.physical[id].refCount == |References(tables.files, id)|)
    && (forall i, j :: i in tables.physical && j in tables.physical && i != j ==>
          && tables.physical[i].sha != tables.physical[j].sha
          && tables.physical[i].storedName != tables.physical[j].storedName)
  }

  /** Every physical row's stored file exists and holds the bytes with the row's digest. */
  ghost predicate ContentPresent(tables: Tables, disk: map<string, string>) {
    forall id :: id in tables.physical ==>
      tables.physical[id].storedName in disk && disk[tables.physical[id].storedName] == tables.physical[id].sha
  }

  ghost predicate WithinQuota(s: State, rules: Rules) {
    rules.quota.maxTotalBytes > 0 ==> forall user :: Usage(s.tables.files, user, s.nextFile) <= rules.quota.maxTotalBytes
  }

  /** What is at stake when uploads go on without their transactions. */
  ghost predicate StakesOk(s: State, rules: Rules) {
    Lossless(rules) ==> ContentPresent(s.tables, s.disk) && WithinQuota(s, rules)
  }

  ghost predicate BoundsOk(s: State) {
    && (forall f :: f in s.tables.files ==> f < s.nextFile)
    && (forall id :: id in s.tables.physical ==>
          id < s.nextPhysical && Take(s.tables.physical[id].storedName, PREFIX_LENGTH) in s.usedPrefixes)
  }

  ghost predicate LocksOk(s: State) {
    forall l :: l in s.locks ==> s.locks[l] in s.txs && s.txs[s.locks[l]].alive
  }

  ghost predicate Uploading(pc: Pc) {
    !(pc.DeleteBegun? || pc.DeleteLocked? || pc.FileRowDeleted? || pc.GuardEvaluated? || pc.MustUnlink?)
  }

  /** The stored-name prefix of a running upload is its own, and the ids it was given stay below the counters. */
  ghost predicate IdentityOk(s: State, t: nat)
    requires t in s.txs
  {
    var pc := s.txs[t].pc;
    if Uploading(pc) then
      && |pc.r.prefix| >= PREFIX_LENGTH
      && pc.r.prefix[..PREFIX_LENGTH] in s.usedPrefixes
      && (forall id :: id in s.tables.physical ==>
            Take(s.tables.physical[id].storedName, PREFIX_LENGTH) != pc.r.prefix[..PREFIX_LENGTH])
      && (Creating(pc) ==> pc.id < s.nextPhysical)
      && (pc.FileInserted? ==> pc.file < s.nextFile)
    else pc.MustUnlink? ==>
      Take(pc.name, PREFIX_LENGTH) in s.usedPrefixes && !HasName(s.tables.physical, pc.name)
  }

  ghost predicate PairOk(p: Pc, q: Pc) {
    && (Uploading(p) && Uploading(q) && |p.r.prefix| >= PREFIX_LENGTH && |q.r.prefix| >= PREFIX_LENGTH ==>
          p.r.prefix[..PREFIX_LENGTH] != q.r.prefix[..PREFIX_LENGTH])
    && (Uploading(p) && q.MustUnlink? && |p.r.prefix| >= PREFIX_LENGTH ==>
          Take(q.name, PREFIX_LENGTH) != p.r.prefix[..PREFIX_LENGTH])
    && (Creating(p) && Creating(q) ==> p.id != q.id)
    && (p.FileInserted? && q.FileInserted? ==> p.file != q.file)
  }

  ghost predicate Creating(pc: Pc) {
    pc.RowInserted? || ((pc.ContentOnDisk? || pc.FileInserted?) && pc.created)
  }

  ghost function NewRow(r: Request): PhysicalRow { PhysicalRow(r.sha, StoredName(r), r.size, 0) }

  ghost predicate RoomFor(s: State, r: Request, rules: Rules) {
    Lossless(rules) && rules.quota.maxTotalBytes > 0 ==>
      Usage(s.tables.files, r.user, s.nextFile) + r.size <= rules.quota.maxTotalBytes
  }

  /** An upload that has chosen its physical row: it holds the digest's key entry. */
  ghost predicate RowChosen(s: State, t: nat, r: Request, id: nat, created: bool, rules: Rules) {
    && Holds(s, t, UserLock(r.user)) && Holds(s, t, ShaLock(r.sha)) && RoomFor(s, r, rules)
    && (if created then !HasSha(s.tables.physical, r.sha) && id !in s.tables.physical && id < s.nextPhysical
        else id in s.tables.physical && s.tables.physical[id].sha == r.sha)
  }

  ghost predicate DeleteReady(s: State, t: nat, f: nat, fileRow: FileRow, row: PhysicalRow) {
    && Holds(s, t, FileLock(f)) && Holds(s, t, UserLock(fileRow.user)) && Holds(s, t, ShaLock(row.sha))
    && f in s.tables.files && s.tables.files[f] == fileRow && fileRow.deleted
    && fileRow.physicalId in s.tables.physical && s.tables.physical[fileRow.physicalId] == row
  }

  ghost predicate TxOk(s: State, t: nat, tx: Tx, rules: Rules) {
    if !tx.alive then tx.writes == NoWrites
    else
      match tx.pc
      case UploadBegun(_) => tx.writes == NoWrites
      case UserLocked(r) => tx.writes == NoWrites && Holds(s, t, UserLock(r.user))
      case QuotaChecked(r) => tx.writes == NoWrites && Holds(s, t, UserLock(r.user)) && RoomFor(s, r, rules)
      case RowMissing(r) => tx.writes == NoWrites && Holds(s, t, UserLock(r.user)) && RoomFor(s, r, rules)
      case DuplicateReported(r) => tx.writes == NoWrites && Holds(s, t, UserLock(r.user)) && RoomFor(s, r, rules)
      case RowFound(r, id, row) =>
        tx.writes == NoWrites && RowChosen(s, t, r, id, false, rules) && s.tables.physical[id] == row
      case RowInserted(r, id) =>
        tx.writes == Overlay(map[], map[id := Some(NewRow(r))]) && RowChosen(s, t, r, id, true, rules)
      case ContentOnDisk(r, id, created) =>
        && RowChosen(s, t, r, id, created, rules)
        && tx.writes == (if created then Overlay(map[], map[id := Some(NewRow(r))]) else NoWrites)
        && (Lossless(rules) && created ==> StoredName(r) in s.disk && s.disk[StoredName(r)] == r.sha)
      case FileInserted(r, id, created, f) =>
        && RowChosen(s, t, r, id, created, rules)
        && f !in s.tables.files && f < s.nextFile
        && tx.writes == Overlay(map[f := Some(FileRow(r.user, id, r.size, false))],
                                map[id := Some(InsertTrigger(if created then NewRow(r) else s.tables.physical[id]))])
        && (Lossless(rules) && created ==> StoredName(r) in s.disk && s.disk[StoredName(r)] == r.sha)
      case MustRemoveContent(_) => true
      case DeleteBegun(_, _) => tx.writes == NoWrites
      case DeleteLocked(f, fileRow, row) => tx.writes == NoWrites && DeleteReady(s, t, f, fileRow, row)
      case FileRowDeleted(f, fileRow, row) =>
        && DeleteReady(s, t, f, fileRow, row)
        && tx.writes == Overlay(map[f := None], map[fileRow.physicalId := Some(DeleteTrigger(row))])
      case GuardEvaluated(f, fileRow, row, gone) =>
        && DeleteReady(s, t, f, fileRow, row)
        && tx.writes == Overlay(map[f := None], map[fileRow.physicalId := if gone then None else Some(DeleteTrigger(row))])
        && (gone ==> References(s.tables.files, fileRow.physicalId) == {f})
      case MustUnlink(_) => false
  }

  ghost predicate TxsOk(s: State, rules: Rules) {
    && (forall t :: t in s.txs ==> TxOk(s, t, s.txs[t], rules))
    && (forall t :: t in s.txs ==> IdentityOk(s, t))
    && (forall t, u :: t in s.txs && u in s.txs && t != u ==> PairOk(s.txs[t].pc, s.txs[u].pc))
  }

  ghost predicate Inv(s: State, rules: Rules) {
    && TablesOk(s.tables) && StakesOk(s, rules)
    && BoundsOk(s) && LocksOk(s) && TxsOk(s, rules) && AutosOk(s, rules)
  }

  /** An upload that has not inserted its physical row. */
  ghost predicate Pending(pc: Pc) { pc.QuotaChecked? || pc.RowMissing? || pc.DuplicateReported? }

  /** A stored name is none that a worker uses or is about to unlink. */
  ghost predicate Clear(pc: Pc, name: string) {
    && (Uploading(pc) && |pc.r.prefix| >= PREFIX_LENGTH ==> Take(name, PREFIX_LENGTH) != pc.r.prefix[..PREFIX_LENGTH])
    && (pc.MustUnlink? ==> pc.name != name)
  }

  ghost predicate AutoOk(s: State, pc: Pc) {
    && Uploading(pc) && |pc.r.prefix| >= PREFIX_LENGTH && pc.r.prefix[..PREFIX_LENGTH] in s.usedPrefixes
    && (Pending(pc) ==> forall id :: id in s.tables.physical ==> Clear(pc, s.tables.physical[id].storedName))
  }

  ghost predicate AutoPairOk(p: Pc, q: Pc) {
    Uploading(p) && |p.r.prefix| >= PREFIX_LENGTH ==>
      && (Uploading(q) && |q.r.prefix| >= PREFIX_LENGTH ==> p.r.prefix[..PREFIX_LENGTH] != q.r.prefix[..PREFIX_LENGTH])
      && (Pending(p) && q.MustUnlink? ==> Take(q.name, PREFIX_LENGTH) != p.r.prefix[..PREFIX_LENGTH])
  }

  ghost predicate AutosOk(s: State, rules: Rules) {
    && (Lossless(rules) ==> s.autos == map[])
    && (forall a :: a in s.autos ==> a !in s.txs && AutoOk(s, s.autos[a]))
    && (forall a, u :: a in s.autos && u in s.txs ==> AutoPairOk(s.autos[a], s.txs[u].pc))
    && (forall a, b :: a in s.autos && b in s.autos && a != b ==> AutoPairOk(s.autos[a], s.autos[b]))
  }

  // ---------- Steps that leave the committed tables alone ----------

  lemma {:induction false} UsageBeyondBound(files: map<nat, FileRow>, user: nat, n: nat, m: nat)
    requires n <= m && forall f :: f in files ==> f < n
    ensures Usage(files, user, m) == Usage(files, user, n)
  {
    if n < m { UsageBeyondBound(files, user, n, m - 1); }
  }

  /** What a step of worker t must leave in place for everybody else. */
  ghost predicate OthersUndisturbed(s: State, s': State, t: nat, touched: Option<string>) {
    && s'.tables == s.tables
    && s.nextFile <= s'.nextFile && s.nextPhysical <= s'.nextPhysical && s.usedPrefixes <= s'.usedPrefixes
    && (forall u :: u != t ==> (u in s'.txs <==> u in s.txs))
    && (forall u :: u != t && u in s.txs ==> s'.txs[u] == s.txs[u])
    && (forall l :: l in s.locks && s.locks[l] != t ==> l in s'.locks && s'.locks[l] == s.locks[l])
    && (forall l :: l in s'.locks && s'.locks[l] != t ==> l in s.locks && s.locks[l] == s'.locks[l])
    && (forall l :: l in s'.locks && s'.locks[l] == t ==> t in s'.txs && s'.txs[t].alive)
    && (forall n :: n in s.disk && touched != Some(n) ==> n in s'.disk && s'.disk[n] == s.disk[n])
  }

  /** The one file name a step may write or remove belongs to nobody else. */
  ghost predicate PrivateName(s: State, t: nat, touched: Option<string>) {
    touched.Some? && touched.value in s.disk ==>
      && !HasName(s.tables.physical, touched.value)
      && (forall u :: u in s.txs && u != t && Uploading(s.txs[u].pc) ==> StoredName(s.txs[u].pc.r) != touched.value)
  }

  ghost predicate ActorOk(s': State, t: nat, rules: Rules) {
    t in s'.txs ==>
      && TxOk(s', t, s'.txs[t], rules) && IdentityOk(s', t)
      && (forall u :: u in s'.txs && u != t ==> PairOk(s'.txs[t].pc, s'.txs[u].pc) && PairOk(s'.txs[u].pc, s'.txs[t].pc))
  }

  lemma BystanderTxOk(s: State, s': State, t: nat, u: nat, touched: Option<string>, rules: Rules)
    requires BoundsOk(s) && OthersUndisturbed(s, s', t, touched) && (Lossless(rules) ==> PrivateName(s, t, touched))
    requires u in s.txs && u != t && TxOk(s, u, s.txs[u], rules)
    ensures TxOk(s', u, s'.txs[u], rules)
  {
    if Uploading(s.txs[u].pc) {
      UsageBeyondBound(s.tables.files, s.txs[u].pc.r.user, s.nextFile, s'.nextFile);
    }
  }

  lemma BystanderOk(s: State, s': State, t: nat, u: nat, touched: Option<string>, rules: Rules)
    requires Inv(s, rules) && OthersUndisturbed(s, s', t, touched) && (Lossless(rules) ==> PrivateName(s, t, touched))
    requires u in s.txs && u != t
    ensures TxOk(s', u, s'.txs[u], rules) && IdentityOk(s', u)
  {
    assert TxOk(s, u, s.txs[u], rules) && IdentityOk(s, u);
    BystanderTxOk(s, s', t, u, touched, rules);
  }

  lemma QuietStep(s: State, s': State, t: nat, touched: Option<string>, rules: Rules)
    requires Inv(s, rules) && OthersUndisturbed(s, s', t, touched) && (Lossless(rules) ==> PrivateName(s, t, touched))
    requires ActorOk(s', t, rules) && AutosOk(s', rules)
    ensures Inv(s', rules)
  {
    forall user ensures Usage(s'.tables.files, user, s'.nextFile) == Usage(s.tables.files, user, s.nextFile) {
      UsageBeyondBound(s.tables.files, user, s.nextFile, s'.nextFile);
    }
    forall u | u in s'.txs && u != t ensures TxOk(s', u, s'.txs[u], rules) && IdentityOk(s', u) {
      BystanderOk(s, s', t, u, touched, rules);
    }
    assert LocksOk(s') && BoundsOk(s') && StakesOk(s', rules);
    PairsKept(s, s', t, touched, rules);
  }

  lemma PairsKept(s: State, s': State, t: nat, touched: Option<string>, rules: Rules)
    requires TxsOk(s, rules) && OthersUndisturbed(s, s', t, touched) && ActorOk(s', t, rules)
    ensures forall u, v :: u in s'.txs && v in s'.txs && u != v ==> PairOk(s'.txs[u].pc, s'.txs[v].pc)
  {
  }

  /** Who goes on without a transaction is undisturbed too, unless a worker takes its prefix. */
  lemma AutosKept(s: State, s': State, t: nat, touched: Option<string>, rules: Rules)
    requires AutosOk(s, rules) && OthersUndisturbed(s, s', t, touched) && s'.autos == s.autos
    requires t in s'.txs ==> t !in s.autos && forall a :: a in s.autos ==> AutoPairOk(s.autos[a], s'.txs[t].pc)
    ensures AutosOk(s', rules)
  {
    forall a | a in s'.autos ensures a !in s'.txs && AutoOk(s', s'.autos[a]) { assert AutoOk(s, s.autos[a]); }
  }

  lemma StoredNamePrefix(r: Request)
    requires |r.prefix| >= PREFIX_LENGTH
    ensures Take(StoredName(r), PREFIX_LENGTH) == r.prefix[..PREFIX_LENGTH]
  {
    assert StoredName(r)[..PREFIX_LENGTH] == r.prefix[..PREFIX_LENGTH];
  }

  /** The file an upload creates or removes under its own prefix belongs to no committed row and no other upload. */
  lemma OwnNameIsPrivate(s: State, t: nat, rules: Rules)
    requires Inv(s, rules) && t in s.txs && Uploading(s.txs[t].pc)
    ensures PrivateName(s, t, Some(StoredName(s.txs[t].pc.r)))
  {
    assert IdentityOk(s, t);
    StoredNamePrefix(s.txs[t].pc.r);
    forall u | u in s.txs && u != t && Uploading(s.txs[u].pc)
      ensures StoredName(s.txs[u].pc.r) != StoredName(s.txs[t].pc.r)
    {
      assert IdentityOk(s, u) && PairOk(s.txs[t].pc, s.txs[u].pc);
      StoredNamePrefix(s.txs[u].pc.r);
    }
  }

  /** The file a committed delete unlinks later belongs to no committed row and no upload. */
  lemma UnlinkedNameIsPrivate(s: State, t: nat, rules: Rules)
    requires Inv(s, rules) && t in s.txs && s.txs[t].pc.MustUnlink?
    ensures PrivateName(s, t, Some(s.txs[t].pc.name))
  {
    assert IdentityOk(s, t);
    forall u | u in s.txs && u != t && Uploading(s.txs[u].pc)
      ensures StoredName(s.txs[u].pc.r) != s.txs[t].pc.name
    {
      assert IdentityOk(s, u) && PairOk(s.txs[u].pc, s.txs[t].pc);
      StoredNamePrefix(s.txs[u].pc.r);
    }
  }

  /** An upload goes on under the same request: its prefix stays its own. */
  lemma UploadGoesOn(s: State, s': State, t: nat, touched: Option<string>, rules: Rules)
    requires Inv(s, rules) && OthersUndisturbed(s, s', t, touched) && (Lossless(rules) ==> PrivateName(s, t, touched))
    requires t in s.txs && t in s'.txs && Uploading(s.txs[t].pc) && Uploading(s'.txs[t].pc) && s'.autos == s.autos
    requires s'.txs[t].pc.r == s.txs[t].pc.r && TxOk(s', t, s'.txs[t], rules)
    requires Creating(s'.txs[t].pc) ==> (Creating(s.txs[t].pc) && s'.txs[t].pc.id == s.txs[t].pc.id)
                                        || s'.txs[t].pc.id == s.nextPhysical < s'.nextPhysical
    requires s'.txs[t].pc.FileInserted? ==> s'.txs[t].pc.file == s.nextFile < s'.nextFile
                                            || (s.txs[t].pc.FileInserted? && s.txs[t].pc.file == s'.txs[t].pc.file)
    ensures Inv(s', rules)
  {
    assert IdentityOk(s, t);
    forall u | u in s'.txs && u != t
      ensures PairOk(s'.txs[t].pc, s'.txs[u].pc) && PairOk(s'.txs[u].pc, s'.txs[t].pc)
    {
      assert TxOk(s, u, s.txs[u], rules) && PairOk(s.txs[t].pc, s.txs[u].pc) && PairOk(s.txs[u].pc, s.txs[t].pc);
    }
    AutosKept(s, s', t, touched, rules);
    QuietStep(s, s', t, touched, rules);
  }

  lemma BeginUploadKeeps(s: State, t: nat, r: Request, rules: Rules)
    requires Inv(s, rules) && Enabled(s, t, BeginUpload(r), rules)
    ensures Inv(Apply(s, t, BeginUpload(r), rules), rules)
  {
    var s' := Apply(s, t, BeginUpload(r), rules);
    NewcomerPairs(s, s', t, rules);
    BeginQuiet(s, s', t, rules);
  }

  lemma BeginDeleteKeeps(s: State, t: nat, user: nat, f: nat, rules: Rules)
    requires Inv(s, rules) && Enabled(s, t, BeginDelete(user, f), rules)
    ensures Inv(Apply(s, t, BeginDelete(user, f), rules), rules)
  {
    var s' := Apply(s, t, BeginDelete(user, f), rules);
    NewcomerPairs(s, s', t, rules);
    BeginQuiet(s, s', t, rules);
  }

  /** A newcomer's prefix is nobody's. */
  lemma NewcomerPairs(s: State, s': State, t: nat, rules: Rules)
    requires TxsOk(s, rules) && AutosOk(s, rules) && t !in s.txs && t in s'.txs && s'.txs == s.txs[t := s'.txs[t]]
    requires var pc := s'.txs[t].pc;
             pc.DeleteBegun? || (pc.UploadBegun? && |pc.r.prefix| >= PREFIX_LENGTH && pc.r.prefix[..PREFIX_LENGTH] !in s.usedPrefixes)
    ensures forall u :: u in s.txs ==> PairOk(s'.txs[t].pc, s.txs[u].pc) && PairOk(s.txs[u].pc, s'.txs[t].pc)
    ensures forall a :: a in s.autos ==> AutoPairOk(s.autos[a], s'.txs[t].pc)
  {
    forall u | u in s.txs ensures PairOk(s'.txs[t].pc, s.txs[u].pc) && PairOk(s.txs[u].pc, s'.txs[t].pc) {
      assert IdentityOk(s, u);
    }
    forall a | a in s.autos ensures AutoPairOk(s.autos[a], s'.txs[t].pc) { assert AutoOk(s, s.autos[a]); }
  }

  lemma BeginQuiet(s: State, s': State, t: nat, rules: Rules)
    requires Inv(s, rules) && t !in s.txs && t !in s.autos && t in s'.txs && IdentityOk(s', t) && TxOk(s', t, s'.txs[t], rules)
    requires s' == s.(txs := s.txs[t := s'.txs[t]], usedPrefixes := s'.usedPrefixes) && s.usedPrefixes <= s'.usedPrefixes
    requires forall u :: u in s.txs ==> PairOk(s'.txs[t].pc, s.txs[u].pc) && PairOk(s.txs[u].pc, s'.txs[t].pc)
    requires forall a :: a in s.autos ==> AutoPairOk(s.autos[a], s'.txs[t].pc)
    ensures Inv(s', rules)
  {
    assert forall l :: l in s.locks ==> s.locks[l] != t;
    assert OthersUndisturbed(s, s', t, None);
    AutosKept(s, s', t, None, rules);
    QuietStep(s, s', t, None, rules);
  }

  ghost predicate CanRun(s: State, t: nat, st: Statement) { t in s.txs && CanDo(s, t, s.txs[t], st) }

  ghost function Run(s: State, t: nat, st: Statement, rules: Rules): State
    requires CanRun(s, t, st)
  {
    Perform(s, t, s.txs[t], st, rules)
  }

  /** The file name a statement may write or remove. */
  ghost function Touched(pc: Pc): Option<string> {
    if Uploading(pc) then Some(StoredName(pc.r)) else if pc.MustUnlink? then Some(pc.name) else None
  }

  lemma TouchedIsPrivate(s: State, t: nat, rules: Rules)
    requires Inv(s, rules) && t in s.txs
    ensures PrivateName(s, t, Touched(s.txs[t].pc))
  {
    if Uploading(s.txs[t].pc) { OwnNameIsPrivate(s, t, rules); }
    else if s.txs[t].pc.MustUnlink? { UnlinkedNameIsPrivate(s, t, rules); }
  }

  ghost predicate Quiet(st: Statement) { !(st.Commit? && !st.outcome.Refused?) }

  lemma LookupUndisturbing(s: State, t: nat, st: Statement, rules: Rules)
    requires LocksOk(s) && CanRun(s, t, st) && (st.LockUser? || st.CheckQuota? || st.FetchError?)
    ensures OthersUndisturbed(s, Run(s, t, st, rules), t, Touched(s.txs[t].pc))
  {
  }

  lemma FetchUndisturbing(s: State, t: nat, st: Statement, rules: Rules)
    requires LocksOk(s) && CanRun(s, t, st) && (st.FetchBySha?)
    ensures OthersUndisturbed(s, Run(s, t, st, rules), t, Touched(s.txs[t].pc))
  {
  }

  lemma InsertRowUndisturbing(s: State, t: nat, st: Statement, rules: Rules)
    requires LocksOk(s) && CanRun(s, t, st) && (st.InsertPhysical?)
    ensures OthersUndisturbed(s, Run(s, t, st, rules), t, Touched(s.txs[t].pc))
  {
  }

  lemma MaterializeUndisturbing(s: State, t: nat, st: Statement, rules: Rules)
    requires LocksOk(s) && CanRun(s, t, st) && (st.Materialize?)
    ensures OthersUndisturbed(s, Run(s, t, st, rules), t, Touched(s.txs[t].pc))
  {
  }

  lemma CheckDiskUndisturbing(s: State, t: nat, st: Statement, rules: Rules)
    requires LocksOk(s) && CanRun(s, t, st) && (st.CheckDisk?)
    ensures OthersUndisturbed(s, Run(s, t, st, rules), t, Touched(s.txs[t].pc))
  {
  }

  lemma FileUndisturbing(s: State, t: nat, st: Statement, rules: Rules)
    requires LocksOk(s) && CanRun(s, t, st) && (st.InsertFile? || st.RemoveContent?)
    ensures OthersUndisturbed(s, Run(s, t, st, rules), t, Touched(s.txs[t].pc))
  {
  }

  lemma LockForDeleteUndisturbing(s: State, t: nat, st: Statement, rules: Rules)
    requires LocksOk(s) && CanRun(s, t, st) && (st.LockForDelete?)
    ensures OthersUndisturbed(s, Run(s, t, st, rules), t, Touched(s.txs[t].pc))
  {
  }

  lemma DeleteUndisturbing(s: State, t: nat, st: Statement, rules: Rules)
    requires LocksOk(s) && CanRun(s, t, st) && (st.DeleteFileRow? || st.DeletePhysicalIfUnreferenced?)
    ensures OthersUndisturbed(s, Run(s, t, st, rules), t, Touched(s.txs[t].pc))
  {
  }

  lemma AbortUndisturbing(s: State, t: nat, st: Statement, rules: Rules)
    requires LocksOk(s) && CanRun(s, t, st) && (st.ServerAbort?)
    ensures OthersUndisturbed(s, Run(s, t, st, rules), t, Touched(s.txs[t].pc))
  {
  }

  lemma FailUndisturbing(s: State, t: nat, st: Statement, rules: Rules)
    requires LocksOk(s) && CanRun(s, t, st) && (st.Fail?)
    ensures OthersUndisturbed(s, Run(s, t, st, rules), t, Touched(s.txs[t].pc))
  {
  }

  lemma EndingUndisturbing(s: State, t: nat, st: Statement, rules: Rules)
    requires LocksOk(s) && CanRun(s, t, st) && (st.Unlink? || (st.Commit? && Quiet(st)))
    ensures OthersUndisturbed(s, Run(s, t, st, rules), t, Touched(s.txs[t].pc))
  {
  }

  lemma StatementUndisturbing(s: State, t: nat, st: Statement, rules: Rules)
    requires LocksOk(s) && CanRun(s, t, st) && Quiet(st)
    ensures OthersUndisturbed(s, Run(s, t, st, rules), t, Touched(s.txs[t].pc))
  {
    match st
    case LockUser => LookupUndisturbing(s, t, st, rules);
    case CheckQuota => LookupUndisturbing(s, t, st, rules);
    case FetchBySha => FetchUndisturbing(s, t, st, rules);
    case FetchError => LookupUndisturbing(s, t, st, rules);
    case InsertPhysical => InsertRowUndisturbing(s, t, st, rules);
    case Materialize(_) => MaterializeUndisturbing(s, t, st, rules);
    case CheckDisk(_) => CheckDiskUndisturbing(s, t, st, rules);
    case InsertFile => FileUndisturbing(s, t, st, rules);
    case RemoveContent => FileUndisturbing(s, t, st, rules);
    case LockForDelete => LockForDeleteUndisturbing(s, t, st, rules);
    case DeleteFileRow => DeleteUndisturbing(s, t, st, rules);
    case DeletePhysicalIfUnreferenced => DeleteUndisturbing(s, t, st, rules);
    case Commit(_) => EndingUndisturbing(s, t, st, rules);
    case Unlink(_) => EndingUndisturbing(s, t, st, rules);
    case Fail => FailUndisturbing(s, t, st, rules);
    case ServerAbort => AbortUndisturbing(s, t, st, rules);
  }

  lemma LookupProgress(s: State, t: nat, st: Statement, rules: Rules)
    requires CanRun(s, t, st)
    requires st.LockUser? || st.CheckQuota? || st.FetchError?
    ensures Progress(s, Run(s, t, st, rules), t)
  {
  }

  lemma RowProgress(s: State, t: nat, st: Statement, rules: Rules)
    requires CanRun(s, t, st) && (st.FetchBySha? || st.InsertPhysical?)
    ensures Progress(s, Run(s, t, st, rules), t)
  {
  }

  lemma ContentProgress(s: State, t: nat, st: Statement, rules: Rules)
    requires CanRun(s, t, st)
    requires st.Materialize? || st.CheckDisk? || st.InsertFile? || st.RemoveContent?
    ensures Progress(s, Run(s, t, st, rules), t)
  {
  }

  lemma DeleteProgress(s: State, t: nat, st: Statement, rules: Rules)
    requires CanRun(s, t, st)
    requires st.LockForDelete? || st.DeleteFileRow? || st.DeletePhysicalIfUnreferenced?
    ensures Progress(s, Run(s, t, st, rules), t)
  {
  }

  lemma EndingProgress(s: State, t: nat, st: Statement, rules: Rules)
    requires CanRun(s, t, st) && Quiet(st) && (st.Fail? || st.ServerAbort? || st.Unlink? || st.Commit?)
    ensures Progress(s, Run(s, t, st, rules), t)
  {
  }

  lemma LookupTxOk(s: State, t: nat, st: Statement, rules: Rules)
    requires StakesOk(s, rules) && CanRun(s, t, st) && TxOk(s, t, s.txs[t], rules)
    requires st.LockUser? || st.CheckQuota? || st.FetchError?
    ensures var s' := Run(s, t, st, rules); t in s'.txs ==> TxOk(s', t, s'.txs[t], rules)
  {
  }

  lemma RowTxOk(s: State, t: nat, st: Statement, rules: Rules)
    requires BoundsOk(s) && CanRun(s, t, st) && TxOk(s, t, s.txs[t], rules)
    requires st.FetchBySha? || st.InsertPhysical?
    ensures var s' := Run(s, t, st, rules); t in s'.txs ==> TxOk(s', t, s'.txs[t], rules)
  {
  }

  lemma ContentTxOk(s: State, t: nat, st: Statement, rules: Rules)
    requires BoundsOk(s) && CanRun(s, t, st) && TxOk(s, t, s.txs[t], rules)
    requires st.Materialize? || st.CheckDisk? || st.InsertFile? || st.RemoveContent?
    ensures var s' := Run(s, t, st, rules); t in s'.txs ==> TxOk(s', t, s'.txs[t], rules)
  {
    match st
    case Materialize(_) => MaterializeTxOk(s, t, st, rules);
    case CheckDisk(_) => CheckDiskTxOk(s, t, st, rules);
    case InsertFile => InsertFileTxOk(s, t, rules);
    case RemoveContent => assert t !in Run(s, t, st, rules).txs;
  }

  lemma MaterializeTxOk(s: State, t: nat, st: Statement, rules: Rules)
    requires CanRun(s, t, st) && TxOk(s, t, s.txs[t], rules) && st.Materialize?
    ensures var s' := Run(s, t, st, rules); t in s'.txs ==> TxOk(s', t, s'.txs[t], rules)
  {
  }

  lemma CheckDiskTxOk(s: State, t: nat, st: Statement, rules: Rules)
    requires CanRun(s, t, st) && TxOk(s, t, s.txs[t], rules) && st.CheckDisk?
    ensures var s' := Run(s, t, st, rules); t in s'.txs ==> TxOk(s', t, s'.txs[t], rules)
  {
  }

  lemma InsertFileTxOk(s: State, t: nat, rules: Rules)
    requires BoundsOk(s) && CanRun(s, t, InsertFile) && TxOk(s, t, s.txs[t], rules)
    ensures var s' := Run(s, t, InsertFile, rules); TxOk(s', t, s'.txs[t], rules)
  {
    var pc, s' := s.txs[t].pc, Run(s, t, InsertFile, rules);
    UsageBeyondBound(s.tables.files, pc.r.user, s.nextFile, s.nextFile + 1);
    assert RowChosen(s', t, pc.r, pc.id, pc.created, rules);
  }

  lemma DeleteTxOk(s: State, t: nat, st: Statement, rules: Rules)
    requires TablesOk(s.tables) && BoundsOk(s)
    requires CanRun(s, t, st) && Quiet(st) && TxOk(s, t, s.txs[t], rules)
    requires st.LockForDelete? || st.DeleteFileRow? || st.DeletePhysicalIfUnreferenced?
    ensures var s' := Run(s, t, st, rules); t in s'.txs ==> TxOk(s', t, s'.txs[t], rules)
  {
    if st.DeletePhysicalIfUnreferenced? { GuardTxOk(s, t, rules); }
  }

  /** The guard deletes the physical row exactly when the deleted file row was the last reference. */
  lemma GuardTxOk(s: State, t: nat, rules: Rules)
    requires TablesOk(s.tables) && CanRun(s, t, DeletePhysicalIfUnreferenced) && TxOk(s, t, s.txs[t], rules)
    ensures var s' := Run(s, t, DeletePhysicalIfUnreferenced, rules); var pc := s'.txs[t].pc;
            && TxOk(s', t, s'.txs[t], rules)
            && (pc.physicalDeleted <==> References(s.tables.files, pc.fileRow.physicalId) == {pc.file})
  {
    var tx := s.txs[t];
    GuardView(s.tables, tx.pc.file, tx.pc.fileRow, tx.pc.row);
    assert tx.writes.physical[tx.pc.fileRow.physicalId := None] == map[tx.pc.fileRow.physicalId := None];
  }

  lemma GuardView(tables: Tables, f: nat, fileRow: FileRow, row: PhysicalRow)
    requires TablesOk(tables) && f in tables.files && tables.files[f] == fileRow
    requires fileRow.physicalId in tables.physical && tables.physical[fileRow.physicalId] == row
    ensures var id := fileRow.physicalId;
            var view := View(tables, Overlay(map[f := None], map[id := Some(DeleteTrigger(row))]));
            && row.refCount >= 1
            && References(view.files, id) == References(tables.files, id) - {f}
            && id in view.physical && view.physical[id] == row.(refCount := |References(tables.files, id)| - 1)
            && (view.physical[id].refCount == 0 && References(view.files, id) == {} <==> References(tables.files, id) == {f})
  {
    var id := fileRow.physicalId;
    var refs := References(tables.files, id);
    assert f in refs && |refs - {f}| == |refs| - 1;
    var view := View(tables, Overlay(map[f := None], map[id := Some(DeleteTrigger(row))]));
    assert References(view.files, id) == refs - {f};
    if refs - {f} == {} { assert refs == {f}; }
  }

  lemma AbortTxOk(s: State, t: nat, st: Statement, rules: Rules)
    requires CanRun(s, t, st) && st.ServerAbort?
    ensures var s' := Run(s, t, st, rules); t in s'.txs ==> TxOk(s', t, s'.txs[t], rules)
  {
  }

  lemma FailTxOk(s: State, t: nat, st: Statement, rules: Rules)
    requires CanRun(s, t, st) && TxOk(s, t, s.txs[t], rules) && st.Fail?
    ensures var s' := Run(s, t, st, rules); t in s'.txs ==> TxOk(s', t, s'.txs[t], rules)
  {
  }

  lemma EndingTxOk(s: State, t: nat, st: Statement, rules: Rules)
    requires CanRun(s, t, st) && Quiet(st) && TxOk(s, t, s.txs[t], rules)
    requires st.Fail? || st.ServerAbort? || st.Unlink? || st.Commit?
    ensures var s' := Run(s, t, st, rules); t in s'.txs ==> TxOk(s', t, s'.txs[t], rules)
  {
    if st.Fail? { FailTxOk(s, t, st, rules); }
    else if st.ServerAbort? { AbortTxOk(s, t, st, rules); }
  }

  lemma QuietStatementKeeps(s: State, t: nat, st: Statement, rules: Rules)
    requires Inv(s, rules) && CanRun(s, t, st) && Quiet(st)
    ensures Inv(Run(s, t, st, rules), rules)
  {
    TouchedIsPrivate(s, t, rules);
    StatementFacts(s, t, st, rules);
    StatementKeeps(s, Run(s, t, st, rules), t, Touched(s.txs[t].pc), rules);
  }

  ghost predicate Progress(s: State, s': State, t: nat)
    requires t in s.txs
  {
    var pc := s.txs[t].pc;
    && s'.autos == s.autos
    && (t in s'.txs ==>
          var pc' := s'.txs[t].pc;
          && (Uploading(pc) <==> Uploading(pc')) && !pc'.MustUnlink?
          && (Uploading(pc) ==> pc'.r == pc.r)
          && (Creating(pc') ==> (Creating(pc) && pc'.id == pc.id) || pc'.id == s.nextPhysical < s'.nextPhysical)
          && (pc'.FileInserted? ==> pc'.file == s.nextFile < s'.nextFile || (pc.FileInserted? && pc.file == pc'.file)))
  }

  lemma StatementKeeps(s: State, s': State, t: nat, touched: Option<string>, rules: Rules)
    requires Inv(s, rules) && t in s.txs && OthersUndisturbed(s, s', t, touched) && Progress(s, s', t)
    requires (Lossless(rules) ==> PrivateName(s, t, touched)) && (t in s'.txs ==> TxOk(s', t, s'.txs[t], rules))
    ensures Inv(s', rules)
  {
    assert t !in s.autos;
    if t !in s'.txs || !Uploading(s.txs[t].pc) {
      AutosKept(s, s', t, touched, rules);
      QuietStep(s, s', t, touched, rules);
    } else {
      UploadGoesOn(s, s', t, touched, rules);
    }
  }

  lemma StatementFacts(s: State, t: nat, st: Statement, rules: Rules)
    requires Inv(s, rules) && CanRun(s, t, st) && Quiet(st)
    ensures var s' := Run(s, t, st, rules);
            && OthersUndisturbed(s, s', t, Touched(s.txs[t].pc)) && Progress(s, s', t)
            && (t in s'.txs ==> TxOk(s', t, s'.txs[t], rules))
  {
    assert TxOk(s, t, s.txs[t], rules);
    StatementUndisturbing(s, t, st, rules);
    if st.LockUser? || st.CheckQuota? || st.FetchError? {
      LookupProgress(s, t, st, rules);
      LookupTxOk(s, t, st, rules);
    } else if st.FetchBySha? || st.InsertPhysical? {
      RowProgress(s, t, st, rules);
      RowTxOk(s, t, st, rules);
    } else if st.Materialize? || st.CheckDisk? || st.InsertFile? || st.RemoveContent? {
      ContentProgress(s, t, st, rules);
      ContentTxOk(s, t, st, rules);
    } else if st.LockForDelete? || st.DeleteFileRow? || st.DeletePhysicalIfUnreferenced? {
      DeleteProgress(s, t, st, rules);
      DeleteTxOk(s, t, st, rules);
    } else if st.Fail? || st.ServerAbort? || st.Unlink? || st.Commit? {
      EndingProgress(s, t, st, rules);
      EndingTxOk(s, t, st, rules);
    }
  }

  // ---------- Steps that change the committed tables ----------

  ghost predicate OtherHolds(s: State, t: nat, l: Lock) { l in s.locks && s.locks[l] != t }

  ghost predicate RowKept(s: State, s': State, t: nat, id: nat) {
    && (id in s.tables.physical && OtherHolds(s, t, ShaLock(s.tables.physical[id].sha)) ==>
          && id in s'.tables.physical && s'.tables.physical[id] == s.tables.physical[id]
          && References(s'.tables.files, id) == References(s.tables.files, id))
    && (id in s'.tables.physical && OtherHolds(s, t, ShaLock(s'.tables.physical[id].sha)) ==> id in s.tables.physical)
    && (id in s.tables.physical && id in s'.tables.physical ==>
          && s'.tables.physical[id].sha == s.tables.physical[id].sha
          && s'.tables.physical[id].storedName == s.tables.physical[id].storedName)
  }

  ghost predicate RespectsShaLocks(s: State, s': State, t: nat) {
    forall id :: RowKept(s, s', t, id)
  }

  ghost predicate RespectsUserLocks(s: State, s': State, t: nat) {
    forall user :: OtherHolds(s, t, UserLock(user)) ==>
      Usage(s'.tables.files, user, s.nextFile) <= Usage(s.tables.files, user, s.nextFile)
  }

  ghost predicate RespectsFileLocks(s: State, s': State, t: nat) {
    forall k :: k in s.tables.files && OtherHolds(s, t, FileLock(k)) ==>
      k in s'.tables.files && s'.tables.files[k] == s.tables.files[k]
  }

  /** New rows take no id, no name and no file of a worker that is still running. */
  ghost predicate NewRowsClear(s: State, s': State, pc: Pc) {
    && (forall id :: id in s'.tables.physical && id !in s.tables.physical ==>
          !(Creating(pc) && pc.id == id) && Clear(pc, s'.tables.physical[id].storedName))
    && (forall k :: k in s'.tables.files && k !in s.tables.files ==> !(pc.FileInserted? && pc.file == k))
  }

  ghost predicate AddsOnlyOwnRows(s: State, s': State, t: nat) {
    && (forall u :: u in s.txs && u != t ==> NewRowsClear(s, s', s.txs[u].pc))
    && (forall a :: a in s.autos && Pending(s.autos[a]) ==> NewRowsClear(s, s', s.autos[a]))
  }

  /** A change of the tables by worker t respects the row locks of the others. */
  ghost predicate RespectsLocks(s: State, s': State, t: nat) {
    RespectsShaLocks(s, s', t) && RespectsUserLocks(s, s', t) && RespectsFileLocks(s, s', t) && AddsOnlyOwnRows(s, s', t)
  }

  /** Everything but the tables and worker t stays as it was. */
  ghost predicate OnlyTables(s: State, s': State, t: nat) {
    && s'.disk == s.disk && s'.nextFile == s.nextFile && s'.nextPhysical == s.nextPhysical
    && s'.usedPrefixes == s.usedPrefixes && s'.autos == s.autos
    && (forall u :: u != t ==> (u in s'.txs <==> u in s.txs))
    && (forall u :: u != t && u in s.txs ==> s'.txs[u] == s.txs[u])
    && (forall l :: OtherHolds(s, t, l) ==> l in s'.locks && s'.locks[l] == s.locks[l])
    && (forall l :: l in s'.locks ==> OtherHolds(s, t, l))
  }

  lemma HoldsKept(s: State, s': State, t: nat, u: nat, l: Lock)
    requires OnlyTables(s, s', t) && u != t && Holds(s, u, l)
    ensures OtherHolds(s, t, l) && Holds(s', u, l)
  {
  }

  lemma RoomKept(s: State, s': State, t: nat, u: nat, r: Request, rules: Rules)
    requires RespectsUserLocks(s, s', t) && OnlyTables(s, s', t) && u != t
    requires Holds(s, u, UserLock(r.user)) && RoomFor(s, r, rules)
    ensures Holds(s', u, UserLock(r.user)) && RoomFor(s', r, rules)
  {
    HoldsKept(s, s', t, u, UserLock(r.user));
  }

  lemma ShaKept(s: State, s': State, t: nat, sha: string)
    requires RespectsShaLocks(s, s', t) && OtherHolds(s, t, ShaLock(sha))
    ensures HasSha(s'.tables.physical, sha) ==> HasSha(s.tables.physical, sha)
  {
    if HasSha(s'.tables.physical, sha) {
      var id :| id in s'.tables.physical && s'.tables.physical[id].sha == sha;
      assert RowKept(s, s', t, id);
    }
  }

  lemma RowChosenKept(s: State, s': State, t: nat, u: nat, r: Request, id: nat, created: bool, rules: Rules)
    requires RespectsLocks(s, s', t) && OnlyTables(s, s', t) && u != t
    requires RowChosen(s, u, r, id, created, rules)
    requires created && id in s'.tables.physical ==> id in s.tables.physical
    ensures RowChosen(s', u, r, id, created, rules)
    ensures !created ==> s'.tables.physical[id] == s.tables.physical[id]
  {
    RoomKept(s, s', t, u, r, rules);
    HoldsKept(s, s', t, u, ShaLock(r.sha));
    ShaKept(s, s', t, r.sha);
    assert RowKept(s, s', t, id);
  }

  lemma UploadAfterChange(s: State, s': State, t: nat, u: nat, rules: Rules)
    requires RespectsLocks(s, s', t) && OnlyTables(s, s', t)
    requires u in s.txs && u != t && Uploading(s.txs[u].pc) && TxOk(s, u, s.txs[u], rules)
    ensures TxOk(s', u, s'.txs[u], rules)
  {
    var pc := s.txs[u].pc;
    assert NewRowsClear(s, s', pc);
    if s.txs[u].alive {
      match pc
      case UploadBegun(_) =>
      case UserLocked(r) => HoldsKept(s, s', t, u, UserLock(r.user));
      case QuotaChecked(r) => RoomKept(s, s', t, u, r, rules);
      case RowMissing(r) => RoomKept(s, s', t, u, r, rules);
      case DuplicateReported(r) => RoomKept(s, s', t, u, r, rules);
      case RowFound(r, id, _) => RowChosenKept(s, s', t, u, r, id, false, rules);
      case RowInserted(r, id) => RowChosenKept(s, s', t, u, r, id, true, rules);
      case ContentOnDisk(r, id, created) => RowChosenKept(s, s', t, u, r, id, created, rules);
      case FileInserted(r, id, created, _) => RowChosenKept(s, s', t, u, r, id, created, rules);
      case MustRemoveContent(_) =>
    }
  }

  lemma DeleteReadyKept(s: State, s': State, t: nat, u: nat, f: nat, fileRow: FileRow, row: PhysicalRow)
    requires RespectsLocks(s, s', t) && OnlyTables(s, s', t) && u != t && DeleteReady(s, u, f, fileRow, row)
    ensures DeleteReady(s', u, f, fileRow, row)
    ensures References(s'.tables.files, fileRow.physicalId) == References(s.tables.files, fileRow.physicalId)
  {
    HoldsKept(s, s', t, u, FileLock(f));
    HoldsKept(s, s', t, u, UserLock(fileRow.user));
    HoldsKept(s, s', t, u, ShaLock(row.sha));
    assert RowKept(s, s', t, fileRow.physicalId);
  }

  lemma DeleteAfterChange(s: State, s': State, t: nat, u: nat, rules: Rules)
    requires RespectsLocks(s, s', t) && OnlyTables(s, s', t)
    requires u in s.txs && u != t && !Uploading(s.txs[u].pc) && TxOk(s, u, s.txs[u], rules)
    ensures TxOk(s', u, s'.txs[u], rules)
  {
    var pc := s.txs[u].pc;
    if s.txs[u].alive && (pc.DeleteLocked? || pc.FileRowDeleted? || pc.GuardEvaluated?) {
      DeleteReadyKept(s, s', t, u, pc.file, pc.fileRow, pc.row);
    }
  }

  lemma IdentityAfterChange(s: State, s': State, t: nat, u: nat)
    requires RespectsLocks(s, s', t) && OnlyTables(s, s', t)
    requires u in s.txs && u != t && IdentityOk(s, u)
    ensures IdentityOk(s', u)
  {
    assert NewRowsClear(s, s', s.txs[u].pc);
    forall id | id in s'.tables.physical ensures RowKept(s, s', t, id) {}
  }

  lemma AutosAfterChange(s: State, s': State, t: nat, rules: Rules)
    requires AutosOk(s, rules) && RespectsLocks(s, s', t) && OnlyTables(s, s', t)
    requires t in s'.txs ==> t !in s.autos && forall a :: a in s.autos ==> AutoPairOk(s.autos[a], s'.txs[t].pc)
    ensures AutosOk(s', rules)
  {
    forall a | a in s'.autos ensures a !in s'.txs && AutoOk(s', s'.autos[a]) {
      assert AutoOk(s, s.autos[a]);
      if Pending(s.autos[a]) {
        assert NewRowsClear(s, s', s.autos[a]);
        forall id | id in s'.tables.physical ensures Clear(s.autos[a], s'.tables.physical[id].storedName) {
          assert RowKept(s, s', t, id);
        }
      }
    }
  }

  /** A change that respects the locks and leaves good tables leaves everybody in order. */
  lemma ChangeKeeps(s: State, s': State, t: nat, rules: Rules)
    requires Inv(s, rules) && RespectsLocks(s, s', t) && OnlyTables(s, s', t)
    requires TablesOk(s'.tables) && StakesOk(s', rules) && BoundsOk(s')
    requires ActorOk(s', t, rules) && AutosOk(s', rules)
    ensures Inv(s', rules)
  {
    forall u | u in s'.txs && u != t ensures TxOk(s', u, s'.txs[u], rules) && IdentityOk(s', u) {
      assert TxOk(s, u, s.txs[u], rules) && IdentityOk(s, u);
      IdentityAfterChange(s, s', t, u);
      if Uploading(s.txs[u].pc) { UploadAfterChange(s, s', t, u, rules); }
      else { DeleteAfterChange(s, s', t, u, rules); }
    }
    assert LocksOk(s');
    forall u, v | u in s'.txs && v in s'.txs && u != v ensures PairOk(s'.txs[u].pc, s'.txs[v].pc) {
      if u != t && v != t { assert PairOk(s.txs[u].pc, s.txs[v].pc); }
    }
  }

  lemma {:induction false} UsageInsert(files: map<nat, FileRow>, f: nat, row: FileRow, user: nat, n: nat)
    requires f !in files
    ensures Usage(files[f := row], user, n)
            == Usage(files, user, n) + if f < n && row.user == user then row.size else 0
  {
    if n > 0 { UsageInsert(files, f, row, user, n - 1); }
  }

  lemma {:induction false} UsageRemove(files: map<nat, FileRow>, f: nat, user: nat, n: nat)
    ensures Usage(files - {f}, user, n) <= Usage(files, user, n)
  {
    if n > 0 { UsageRemove(files, f, user, n - 1); }
  }

  lemma {:induction false} UsageIgnoresTrash(files: map<nat, FileRow>, f: nat, deleted: bool, user: nat, n: nat)
    requires f in files
    ensures Usage(files[f := files[f].(deleted := deleted)], user, n) == Usage(files, user, n)
  {
    if n > 0 { UsageIgnoresTrash(files, f, deleted, user, n - 1); }
  }

  lemma TrashTables(tables: Tables, f: nat, deleted: bool)
    requires TablesOk(tables) && f in tables.files
    ensures var files := tables.files[f := tables.files[f].(deleted := deleted)];
            && (forall id :: References(files, id) == References(tables.files, id))
            && TablesOk(tables.(files := files))
  {
    var files := tables.files[f := tables.files[f].(deleted := deleted)];
    forall id ensures References(files, id) == References(tables.files, id) {}
  }

  lemma SetDeletedRespectsLocks(s: State, s': State, t: nat, f: nat, deleted: bool)
    requires f in s.tables.files && FileLock(f) !in s.locks
    requires s'.tables == s.tables.(files := s.tables.files[f := s.tables.files[f].(deleted := deleted)])
    ensures RespectsLocks(s, s', t)
  {
    forall id ensures RowKept(s, s', t, id) {
      assert References(s'.tables.files, id) == References(s.tables.files, id);
    }
    forall user ensures Usage(s'.tables.files, user, s.nextFile) == Usage(s.tables.files, user, s.nextFile) {
      UsageIgnoresTrash(s.tables.files, f, deleted, user, s.nextFile);
    }
  }

  lemma SetDeletedGlobals(s: State, f: nat, deleted: bool, rules: Rules)
    requires TablesOk(s.tables) && StakesOk(s, rules) && BoundsOk(s)
    requires f in s.tables.files
    ensures var s' := SetDeleted(s, f, deleted);
            TablesOk(s'.tables) && StakesOk(s', rules) && BoundsOk(s')
  {
    TrashTables(s.tables, f, deleted);
    forall user ensures Usage(SetDeleted(s, f, deleted).tables.files, user, s.nextFile) == Usage(s.tables.files, user, s.nextFile) {
      UsageIgnoresTrash(s.tables.files, f, deleted, user, s.nextFile);
    }
  }

  lemma SetDeletedOnlyTables(s: State, t: nat, f: nat, deleted: bool)
    requires LocksOk(s) && t !in s.txs && f in s.tables.files
    ensures OnlyTables(s, SetDeleted(s, f, deleted), t)
  {
  }

  lemma SetDeletedKeeps(s: State, t: nat, f: nat, deleted: bool, rules: Rules)
    requires Inv(s, rules) && t !in s.txs && f in s.tables.files && FileLock(f) !in s.locks
    ensures Inv(SetDeleted(s, f, deleted), rules)
  {
    SetDeletedRespectsLocks(s, SetDeleted(s, f, deleted), t, f, deleted);
    SetDeletedGlobals(s, f, deleted, rules);
    SetDeletedOnlyTables(s, t, f, deleted);
    AutosAfterChange(s, SetDeleted(s, f, deleted), t, rules);
    ChangeKeeps(s, SetDeleted(s, f, deleted), t, rules);
  }

  // Committing an upload.

  lemma UploadReferences(files: map<nat, FileRow>, f: nat, row: FileRow, k: nat)
    requires f !in files
    ensures k != row.physicalId ==> References(files[f := row], k) == References(files, k)
    ensures k == row.physicalId ==> |References(files[f := row], k)| == |References(files, k)| + 1
  {
    if k == row.physicalId {
      assert References(files[f := row], k) == References(files, k) + {f};
      assert f !in References(files, k);
    } else {
      assert References(files[f := row], k) == References(files, k);
    }
  }

  ghost predicate Insertable(tables: Tables, r: Request, id: nat, created: bool, f: nat) {
    && f !in tables.files
    && if created then !HasSha(tables.physical, r.sha) && id !in tables.physical && !HasName(tables.physical, StoredName(r))
       else id in tables.physical && tables.physical[id].sha == r.sha
  }

  ghost function AfterUpload(tables: Tables, r: Request, id: nat, created: bool, f: nat): Tables
    requires Insertable(tables, r, id, created, f)
  {
    Tables(tables.files[f := FileRow(r.user, id, r.size, false)],
           tables.physical[id := InsertTrigger(if created then NewRow(r) else tables.physical[id])])
  }

  lemma UploadView(tables: Tables, r: Request, id: nat, created: bool, f: nat)
    requires Insertable(tables, r, id, created, f)
    ensures var base := if created then NewRow(r) else tables.physical[id];
            AfterUpload(tables, r, id, created, f)
            == View(tables, Overlay(map[f := Some(FileRow(r.user, id, r.size, false))], map[id := Some(InsertTrigger(base))]))
  {
  }

  /** An upload's commit adds one file row and one reference, and keeps counts and keys exact. */
  lemma UploadTablesOk(tables: Tables, r: Request, id: nat, created: bool, f: nat)
    requires TablesOk(tables) && Insertable(tables, r, id, created, f)
    ensures TablesOk(AfterUpload(tables, r, id, created, f))
  {
    var after := AfterUpload(tables, r, id, created, f);
    forall k | k in after.physical ensures after.physical[k].refCount == |References(after.files, k)| {
      UploadReferences(tables.files, f, FileRow(r.user, id, r.size, false), k);
      if k == id && created { assert References(tables.files, id) == {}; }
    }
    UploadKeysOk(tables, r, id, created, f);
  }

  lemma UploadKeysOk(tables: Tables, r: Request, id: nat, created: bool, f: nat)
    requires TablesOk(tables) && Insertable(tables, r, id, created, f)
    ensures var after := AfterUpload(tables, r, id, created, f);
            forall i, j :: i in after.physical && j in after.physical && i != j ==>
              && after.physical[i].sha != after.physical[j].sha
              && after.physical[i].storedName != after.physical[j].storedName
  {
    var after := AfterUpload(tables, r, id, created, f);
    forall i, j | i in after.physical && j in after.physical && i != j
      ensures after.physical[i].sha != after.physical[j].sha && after.physical[i].storedName != after.physical[j].storedName
    {
      if i != id { assert after.physical[i] == tables.physical[i]; }
      if j != id { assert after.physical[j] == tables.physical[j]; }
    }
  }

  lemma CommitOnlyTables(s: State, t: nat, outcome: CommitOutcome, rules: Rules)
    requires LocksOk(s) && CanRun(s, t, Commit(outcome)) && !outcome.Refused?
    ensures var s' := Run(s, t, Commit(outcome), rules);
            OnlyTables(s, s', t) && s'.tables == View(s.tables, s.txs[t].writes)
  {
  }

  lemma UploadInsertable(s: State, t: nat, rules: Rules)
    requires t in s.txs && s.txs[t].pc.FileInserted? && s.txs[t].alive && TxOk(s, t, s.txs[t], rules) && IdentityOk(s, t)
    ensures var pc := s.txs[t].pc;
            && RowChosen(s, t, pc.r, pc.id, pc.created, rules)
            && Insertable(s.tables, pc.r, pc.id, pc.created, pc.file)
            && Take(StoredName(pc.r), PREFIX_LENGTH) in s.usedPrefixes
  {
    StoredNamePrefix(s.txs[t].pc.r);
  }

  lemma UploadCommitFacts(s: State, s': State, t: nat, rules: Rules)
    requires TablesOk(s.tables) && StakesOk(s, rules) && BoundsOk(s) && TxsOk(s, rules) && AutosOk(s, rules)
    requires t in s.txs && s.txs[t].alive && s.txs[t].pc.FileInserted? && TxOk(s, t, s.txs[t], rules) && IdentityOk(s, t)
    requires s'.disk == s.disk && s'.nextFile == s.nextFile && s'.nextPhysical == s.nextPhysical
    requires s'.usedPrefixes == s.usedPrefixes && s'.tables == View(s.tables, s.txs[t].writes)
    ensures TablesOk(s'.tables) && StakesOk(s', rules) && BoundsOk(s')
    ensures RespectsLocks(s, s', t)
  {
    var pc := s.txs[t].pc;
    UploadInsertable(s, t, rules);
    UploadView(s.tables, pc.r, pc.id, pc.created, pc.file);
    UploadTablesOk(s.tables, pc.r, pc.id, pc.created, pc.file);
    UploadGlobals(s, s', pc.r, pc.id, pc.created, pc.file, rules);
    UploadRespectsLocks(s, s', t, pc, rules);
  }

  lemma UploadCommitKeeps(s: State, s': State, t: nat, rules: Rules)
    requires Inv(s, rules) && t in s.txs && s.txs[t].alive && s.txs[t].pc.FileInserted?
    requires OnlyTables(s, s', t) && s'.tables == View(s.tables, s.txs[t].writes) && t !in s'.txs
    ensures Inv(s', rules)
  {
    assert TxOk(s, t, s.txs[t], rules) && IdentityOk(s, t);
    UploadCommitFacts(s, s', t, rules);
    AutosAfterChange(s, s', t, rules);
    ChangeKeeps(s, s', t, rules);
  }

  lemma UploadGlobals(s: State, s': State, r: Request, id: nat, created: bool, f: nat, rules: Rules)
    requires StakesOk(s, rules) && BoundsOk(s) && RoomFor(s, r, rules)
    requires Insertable(s.tables, r, id, created, f) && f < s.nextFile
    requires created ==> id < s.nextPhysical && Take(StoredName(r), PREFIX_LENGTH) in s.usedPrefixes
    requires Lossless(rules) && created ==> StoredName(r) in s.disk && s.disk[StoredName(r)] == r.sha
    requires s'.disk == s.disk && s'.nextFile == s.nextFile && s'.nextPhysical == s.nextPhysical
    requires s'.usedPrefixes == s.usedPrefixes && s'.tables == AfterUpload(s.tables, r, id, created, f)
    ensures StakesOk(s', rules) && BoundsOk(s')
  {
    forall user ensures Usage(s'.tables.files, user, s.nextFile)
                        == Usage(s.tables.files, user, s.nextFile) + if user == r.user then r.size else 0 {
      UsageInsert(s.tables.files, f, FileRow(r.user, id, r.size, false), user, s.nextFile);
    }
  }

  lemma UploadAddsOwnRows(s: State, s': State, t: nat, pc: Pc, rules: Rules)
    requires t in s.txs && s.txs[t].pc == pc && pc.FileInserted? && TxsOk(s, rules) && AutosOk(s, rules)
    requires Insertable(s.tables, pc.r, pc.id, pc.created, pc.file)
    requires s'.tables == AfterUpload(s.tables, pc.r, pc.id, pc.created, pc.file)
    ensures AddsOnlyOwnRows(s, s', t)
  {
    assert IdentityOk(s, t);
    StoredNamePrefix(pc.r);
    forall u | u in s.txs && u != t ensures NewRowsClear(s, s', s.txs[u].pc) {
      assert PairOk(pc, s.txs[u].pc) && PairOk(s.txs[u].pc, pc) && IdentityOk(s, u);
    }
    forall a | a in s.autos && Pending(s.autos[a]) ensures NewRowsClear(s, s', s.autos[a]) {
      assert AutoPairOk(s.autos[a], pc) && AutoOk(s, s.autos[a]);
    }
  }

  lemma UploadRespectsLocks(s: State, s': State, t: nat, pc: Pc, rules: Rules)
    requires t in s.txs && s.txs[t].pc == pc && pc.FileInserted? && RowChosen(s, t, pc.r, pc.id, pc.created, rules)
    requires Insertable(s.tables, pc.r, pc.id, pc.created, pc.file)
    requires s'.tables == AfterUpload(s.tables, pc.r, pc.id, pc.created, pc.file)
    requires TxsOk(s, rules) && AutosOk(s, rules)
    ensures RespectsLocks(s, s', t)
  {
    UploadAddsOwnRows(s, s', t, pc, rules);
    var row := FileRow(pc.r.user, pc.id, pc.r.size, false);
    forall k ensures RowKept(s, s', t, k) { UploadReferences(s.tables.files, pc.file, row, k); }
    forall user | OtherHolds(s, t, UserLock(user))
      ensures Usage(s'.tables.files, user, s.nextFile) <= Usage(s.tables.files, user, s.nextFile)
    {
      UsageInsert(s.tables.files, pc.file, row, user, s.nextFile);
    }
  }

  // Committing a permanent delete.

  ghost predicate Deletable(tables: Tables, f: nat, fileRow: FileRow, row: PhysicalRow, gone: bool) {
    && f in tables.files && tables.files[f] == fileRow
    && fileRow.physicalId in tables.physical && tables.physical[fileRow.physicalId] == row
    && (gone ==> References(tables.files, fileRow.physicalId) == {f})
  }

  ghost function AfterDelete(tables: Tables, f: nat, fileRow: FileRow, row: PhysicalRow, gone: bool): Tables {
    Tables(tables.files - {f},
           if gone then tables.physical - {fileRow.physicalId}
           else tables.physical[fileRow.physicalId := DeleteTrigger(row)])
  }

  lemma DeleteView(tables: Tables, f: nat, fileRow: FileRow, row: PhysicalRow, gone: bool)
    requires Deletable(tables, f, fileRow, row, gone)
    ensures AfterDelete(tables, f, fileRow, row, gone)
            == View(tables, Overlay(map[f := None], map[fileRow.physicalId := if gone then None else Some(DeleteTrigger(row))]))
  {
    var id := fileRow.physicalId;
    assert tables.files - {f} == Overlaid(tables.files, map[f := None]);
    assert gone ==> tables.physical - {id} == Overlaid(tables.physical, map[id := None]);
  }

  lemma DeleteReferences(files: map<nat, FileRow>, f: nat, k: nat)
    requires f in files
    ensures References(files - {f}, k) == References(files, k) - {f}
    ensures k != files[f].physicalId ==> References(files - {f}, k) == References(files, k)
    ensures k == files[f].physicalId ==> |References(files - {f}, k)| == |References(files, k)| - 1
  {
    assert References(files - {f}, k) == References(files, k) - {f};
    if k == files[f].physicalId { assert f in References(files, k); }
    else { assert f !in References(files, k); }
  }

  lemma DeleteTablesOk(tables: Tables, f: nat, fileRow: FileRow, row: PhysicalRow, gone: bool)
    requires TablesOk(tables) && Deletable(tables, f, fileRow, row, gone)
    ensures TablesOk(AfterDelete(tables, f, fileRow, row, gone))
  {
    var after := AfterDelete(tables, f, fileRow, row, gone);
    var id := fileRow.physicalId;
    forall k | k in after.physical ensures after.physical[k].refCount == |References(after.files, k)| {
      DeleteReferences(tables.files, f, k);
      if k != id { assert after.physical[k] == tables.physical[k]; }
    }
    forall k | k in after.files ensures after.files[k].physicalId in after.physical {
      assert k in References(tables.files, tables.files[k].physicalId);
    }
  }

  lemma DeleteGlobals(s: State, s': State, f: nat, fileRow: FileRow, row: PhysicalRow, gone: bool, rules: Rules)
    requires StakesOk(s, rules) && BoundsOk(s)
    requires Deletable(s.tables, f, fileRow, row, gone)
    requires s'.disk == s.disk && s'.nextFile == s.nextFile && s'.nextPhysical == s.nextPhysical
    requires s'.usedPrefixes == s.usedPrefixes && s'.tables == AfterDelete(s.tables, f, fileRow, row, gone)
    ensures StakesOk(s', rules) && BoundsOk(s')
  {
    forall user ensures Usage(s'.tables.files, user, s.nextFile) <= Usage(s.tables.files, user, s.nextFile) {
      UsageRemove(s.tables.files, f, user, s.nextFile);
    }
  }

  lemma DeleteRespectsLocks(s: State, s': State, t: nat, f: nat, fileRow: FileRow, row: PhysicalRow, gone: bool)
    requires DeleteReady(s, t, f, fileRow, row) && Deletable(s.tables, f, fileRow, row, gone)
    requires s'.tables == AfterDelete(s.tables, f, fileRow, row, gone)
    ensures RespectsLocks(s, s', t)
  {
    forall k ensures RowKept(s, s', t, k) { DeleteReferences(s.tables.files, f, k); }
    forall user ensures Usage(s'.tables.files, user, s.nextFile) <= Usage(s.tables.files, user, s.nextFile) {
      UsageRemove(s.tables.files, f, user, s.nextFile);
    }
  }

  /** The name left to unlink belongs to no remaining row and to no running upload. */
  lemma UnlinkActorOk(s: State, s': State, t: nat, rules: Rules)
    requires TablesOk(s.tables) && BoundsOk(s) && TxsOk(s, rules) && OnlyTables(s, s', t)
    requires t in s.txs && s.txs[t].pc.GuardEvaluated? && s.txs[t].pc.physicalDeleted
    requires var pc := s.txs[t].pc;
             && Deletable(s.tables, pc.file, pc.fileRow, pc.row, true)
             && s'.tables == AfterDelete(s.tables, pc.file, pc.fileRow, pc.row, true)
             && t in s'.txs && s'.txs[t] == Tx(MustUnlink(pc.row.storedName), NoWrites, false)
    ensures ActorOk(s', t, rules)
  {
    var pc := s.txs[t].pc;
    forall u | u in s'.txs && u != t
      ensures PairOk(s'.txs[t].pc, s'.txs[u].pc) && PairOk(s'.txs[u].pc, s'.txs[t].pc)
    {
      assert IdentityOk(s, u);
    }
  }

  lemma UnlinkAutosOk(s: State, pc': Pc, rules: Rules, id: nat)
    requires AutosOk(s, rules) && id in s.tables.physical && pc' == MustUnlink(s.tables.physical[id].storedName)
    ensures forall a :: a in s.autos ==> AutoPairOk(s.autos[a], pc')
  {
    forall a | a in s.autos ensures AutoPairOk(s.autos[a], pc') { assert AutoOk(s, s.autos[a]); }
  }

  lemma DeleteCommitKeeps(s: State, s': State, t: nat, rules: Rules)
    requires Inv(s, rules) && t in s.txs && s.txs[t].alive && s.txs[t].pc.GuardEvaluated?
    requires OnlyTables(s, s', t) && s'.tables == View(s.tables, s.txs[t].writes)
    requires t in s'.txs ==> s.txs[t].pc.physicalDeleted
                             && s'.txs[t] == Tx(MustUnlink(s.txs[t].pc.row.storedName), NoWrites, false)
    ensures Inv(s', rules)
  {
    var pc := s.txs[t].pc;
    assert TxOk(s, t, s.txs[t], rules);
    assert DeleteReady(s, t, pc.file, pc.fileRow, pc.row);
    DeleteView(s.tables, pc.file, pc.fileRow, pc.row, pc.physicalDeleted);
    DeleteTablesOk(s.tables, pc.file, pc.fileRow, pc.row, pc.physicalDeleted);
    DeleteGlobals(s, s', pc.file, pc.fileRow, pc.row, pc.physicalDeleted, rules);
    DeleteRespectsLocks(s, s', t, pc.file, pc.fileRow, pc.row, pc.physicalDeleted);
    if t in s'.txs {
      UnlinkActorOk(s, s', t, rules);
      UnlinkAutosOk(s, s'.txs[t].pc, rules, pc.fileRow.physicalId);
    }
    AutosAfterChange(s, s', t, rules);
    ChangeKeeps(s, s', t, rules);
  }

  // ---------- Going on without a transaction ----------

  lemma GoOnAutos(s: State, s': State, t: nat, pc': Pc, rules: Rules)
    requires Inv(s, rules) && t in s.txs && !Lossless(rules) && s.txs[t].pc.QuotaChecked? && SameUpload(s.txs[t].pc, pc')
    requires s'.txs == s.txs - {t} && s'.autos == s.autos[t := pc'] && s'.tables == s.tables && s'.usedPrefixes == s.usedPrefixes
    ensures AutosOk(s', rules)
  {
    var pc := s.txs[t].pc;
    assert IdentityOk(s, t);
    forall a | a in s.autos ensures AutoPairOk(s.autos[a], pc') && AutoPairOk(pc', s.autos[a]) {
      assert AutoPairOk(s.autos[a], pc) && AutoOk(s, s.autos[a]);
    }
    forall u | u in s'.txs ensures AutoPairOk(pc', s'.txs[u].pc) { assert PairOk(pc, s.txs[u].pc) && IdentityOk(s, u); }
    forall a | a in s'.autos ensures a !in s'.txs && AutoOk(s', s'.autos[a]) { assert a != t ==> AutoOk(s, s.autos[a]); }
  }

  lemma GoOnKeeps(s: State, t: nat, atName: bool, rules: Rules)
    requires Inv(s, rules) && Enabled(s, t, GoOn(atName), rules)
    ensures Inv(Apply(s, t, GoOn(atName), rules), rules)
  {
    var s' := Apply(s, t, GoOn(atName), rules);
    GoOnAutos(s, s', t, s'.autos[t], rules);
    QuietStep(s, s', t, None, rules);
  }

  /** Only the worker itself, the disk and the counters move. */
  ghost predicate AutoMove(s: State, s': State, t: nat) {
    && t in s.autos
    && s' == s.(autos := s'.autos, disk := s'.disk, nextFile := s'.nextFile, nextPhysical := s'.nextPhysical)
    && s.nextFile <= s'.nextFile && s.nextPhysical <= s'.nextPhysical
    && (s'.autos == s.autos - {t} || (t in s'.autos && s'.autos == s.autos[t := s'.autos[t]] && SameUpload(s.autos[t], s'.autos[t])))
  }

  ghost predicate SameUpload(p: Pc, p': Pc) {
    Uploading(p) && Uploading(p') && p'.r == p.r && (Pending(p') ==> Pending(p))
  }

  /** Counters and disk do not matter to anybody once nothing is at stake. */
  lemma AutoMovesTxs(s: State, s': State, t: nat, rules: Rules)
    requires Inv(s, rules) && !Lossless(rules) && AutoMove(s, s', t)
    ensures TxsOk(s', rules)
  {
    forall u | u in s'.txs ensures TxOk(s', u, s'.txs[u], rules) && IdentityOk(s', u) {
      assert TxOk(s, u, s.txs[u], rules) && IdentityOk(s, u);
    }
  }

  lemma AutoMovesAutos(s: State, s': State, t: nat, rules: Rules)
    requires AutosOk(s, rules) && !Lossless(rules) && AutoMove(s, s', t)
    ensures AutosOk(s', rules)
  {
    forall a | a in s'.autos ensures a !in s'.txs && AutoOk(s', s'.autos[a]) { assert AutoOk(s, s.autos[a]); }
    forall a, u | a in s'.autos && u in s'.txs ensures AutoPairOk(s'.autos[a], s'.txs[u].pc) {
      assert AutoPairOk(s.autos[a], s.txs[u].pc);
    }
    forall a, b | a in s'.autos && b in s'.autos && a != b ensures AutoPairOk(s'.autos[a], s'.autos[b]) {
      assert AutoPairOk(s.autos[a], s.autos[b]);
    }
  }

  /** One worker without a transaction moves on under its request, or ends. */
  lemma AutoMoves(s: State, s': State, t: nat, rules: Rules)
    requires Inv(s, rules) && AutoMove(s, s', t)
    ensures Inv(s', rules)
  {
    AutoMovesTxs(s, s', t, rules);
    AutoMovesAutos(s, s', t, rules);
  }

  lemma AutoRowShape(s: State, t: nat, st: Statement)
    requires t in s.autos && CanAuto(s, s.autos[t], st)
    requires st.FetchBySha? || st.FetchError? || st.InsertPhysical? || st.InsertFile?
    ensures AutoMove(s, PerformAuto(s, t, s.autos[t], st).(tables := s.tables), t)
  {
    var s' := PerformAuto(s, t, s.autos[t], st).(tables := s.tables);
    if t in s'.autos { assert SameUpload(s.autos[t], s'.autos[t]); }
  }

  lemma AutoDiskShape(s: State, t: nat, st: Statement)
    requires t in s.autos && Uploading(s.autos[t]) && CanAuto(s, s.autos[t], st)
    requires st.Materialize? || st.CheckDisk? || st.Commit? || st.Fail? || st.RemoveContent?
    ensures AutoMove(s, PerformAuto(s, t, s.autos[t], st), t)
  {
    var s' := PerformAuto(s, t, s.autos[t], st);
    if t in s'.autos { assert SameUpload(s.autos[t], s'.autos[t]); }
  }

  lemma AutoKeeps(s: State, t: nat, st: Statement, rules: Rules)
    requires Inv(s, rules) && t in s.autos && CanAuto(s, s.autos[t], st)
    ensures Inv(PerformAuto(s, t, s.autos[t], st), rules)
  {
    assert AutoOk(s, s.autos[t]);
    var s' := PerformAuto(s, t, s.autos[t], st);
    if st.Materialize? || st.CheckDisk? || st.Commit? || st.Fail? || st.RemoveContent? {
      AutoDiskShape(s, t, st);
      AutoMoves(s, s', t, rules);
    } else {
      AutoRowShape(s, t, st);
      AutoMoves(s, s'.(tables := s.tables), t, rules);
      AutoTablesKeep(s, t, st, rules);
    }
  }

  lemma AutoTablesKeep(s: State, t: nat, st: Statement, rules: Rules)
    requires Inv(s, rules) && t in s.autos && CanAuto(s, s.autos[t], st)
    requires st.FetchBySha? || st.FetchError? || st.InsertPhysical? || st.InsertFile?
    requires var s1 := PerformAuto(s, t, s.autos[t], st).(tables := s.tables); AutoMove(s, s1, t) && Inv(s1, rules)
    ensures Inv(PerformAuto(s, t, s.autos[t], st), rules)
  {
    var s' := PerformAuto(s, t, s.autos[t], st);
    var s1 := s'.(tables := s.tables);
    if st.InsertPhysical? && !HasSha(s.tables.physical, s.autos[t].r.sha) {
      AutoRowKeeps(s, s1, s', t, rules);
    } else if st.InsertFile? {
      AutoFileKeeps(s, s1, s', t, rules);
    } else {
      assert s' == s1;
    }
  }

  /** A physical row that is committed by itself keeps counts and keys exact. */
  lemma RowTablesOk(tables: Tables, id: nat, row: PhysicalRow)
    requires TablesOk(tables) && id !in tables.physical && row.refCount == 0
    requires !HasSha(tables.physical, row.sha) && !HasName(tables.physical, row.storedName)
    ensures TablesOk(WithPhysical(tables, id, row))
  {
    var after := WithPhysical(tables, id, row);
    assert References(tables.files, id) == {};
    forall i, j | i in after.physical && j in after.physical && i != j
      ensures after.physical[i].sha != after.physical[j].sha && after.physical[i].storedName != after.physical[j].storedName
    {
      if i != id { assert after.physical[i] == tables.physical[i]; }
      if j != id { assert after.physical[j] == tables.physical[j]; }
    }
  }

  lemma AutoRowClear(s: State, s1: State, s': State, t: nat, rules: Rules)
    requires Inv(s, rules) && t in s.autos && t !in s.txs && Pending(s.autos[t]) && AutoMove(s, s1, t)
    requires t in s1.autos && !Pending(s1.autos[t])
    requires s'.tables == WithPhysical(s.tables, s.nextPhysical, NewRow(s.autos[t].r))
    ensures AddsOnlyOwnRows(s1, s', t)
  {
    assert AutoOk(s, s.autos[t]);
    StoredNamePrefix(s.autos[t].r);
    forall u | u in s.txs ensures NewRowsClear(s1, s', s.txs[u].pc) {
      assert IdentityOk(s, u) && AutoPairOk(s.autos[t], s.txs[u].pc);
    }
    forall a | a in s1.autos && Pending(s1.autos[a]) ensures NewRowsClear(s1, s', s1.autos[a]) {
      assert AutoPairOk(s.autos[a], s.autos[t]) && AutoOk(s, s.autos[a]);
    }
  }

  lemma AutoRowRespects(s1: State, s': State, t: nat, id: nat, row: PhysicalRow)
    requires id !in s1.tables.physical && ShaLock(row.sha) !in s1.locks
    requires s'.tables == WithPhysical(s1.tables, id, row) && AddsOnlyOwnRows(s1, s', t)
    ensures RespectsLocks(s1, s', t)
  {
    forall k ensures RowKept(s1, s', t, k) {}
  }

  lemma AutoChangeKeeps(s1: State, s': State, t: nat, rules: Rules)
    requires Inv(s1, rules) && !Lossless(rules) && t !in s1.txs && s' == s1.(tables := s'.tables)
    requires RespectsLocks(s1, s', t) && TablesOk(s'.tables) && BoundsOk(s')
    ensures Inv(s', rules)
  {
    AutosAfterChange(s1, s', t, rules);
    ChangeKeeps(s1, s', t, rules);
  }

  lemma AutoRowKeeps(s: State, s1: State, s': State, t: nat, rules: Rules)
    requires Inv(s, rules) && Inv(s1, rules) && !Lossless(rules) && t !in s.txs && AutoMove(s, s1, t)
    requires Pending(s.autos[t]) && t in s1.autos && !Pending(s1.autos[t]) && s1.nextPhysical == s.nextPhysical + 1
    requires ShaLock(s.autos[t].r.sha) !in s.locks && !HasSha(s.tables.physical, s.autos[t].r.sha)
    requires s' == s1.(tables := WithPhysical(s.tables, s.nextPhysical, NewRow(s.autos[t].r)))
    ensures Inv(s', rules)
  {
    assert AutoOk(s, s.autos[t]);
    StoredNamePrefix(s.autos[t].r);
    RowTablesOk(s.tables, s.nextPhysical, NewRow(s.autos[t].r));
    AutoRowClear(s, s1, s', t, rules);
    AutoRowRespects(s1, s', t, s.nextPhysical, NewRow(s.autos[t].r));
    AutoChangeKeeps(s1, s', t, rules);
  }

  lemma AutoFileRespects(s1: State, s': State, t: nat, f: nat, row: FileRow)
    requires f !in s1.tables.files && row.physicalId in s1.tables.physical
    requires UserLock(row.user) !in s1.locks && ShaLock(s1.tables.physical[row.physicalId].sha) !in s1.locks
    requires s'.tables == WithFile(s1.tables, f, row) && AddsOnlyOwnRows(s1, s', t)
    ensures RespectsLocks(s1, s', t)
  {
    forall k ensures RowKept(s1, s', t, k) { UploadReferences(s1.tables.files, f, row, k); }
    forall user | OtherHolds(s1, t, UserLock(user))
      ensures Usage(s'.tables.files, user, s1.nextFile) <= Usage(s1.tables.files, user, s1.nextFile)
    {
      UsageInsert(s1.tables.files, f, row, user, s1.nextFile);
    }
  }

  lemma AutoFileClear(s1: State, s': State, t: nat, f: nat, row: FileRow)
    requires row.physicalId in s1.tables.physical && s'.tables == WithFile(s1.tables, f, row)
    requires forall u :: u in s1.txs && s1.txs[u].pc.FileInserted? ==> s1.txs[u].pc.file != f
    ensures AddsOnlyOwnRows(s1, s', t)
  {
    assert s'.tables.physical.Keys == s1.tables.physical.Keys;
  }

  lemma AutoFileKeeps(s: State, s1: State, s': State, t: nat, rules: Rules)
    requires Inv(s, rules) && Inv(s1, rules) && !Lossless(rules) && t !in s.txs && AutoMove(s, s1, t)
    requires s1.nextFile == s.nextFile + 1 && CanAuto(s, s.autos[t], InsertFile)
    requires var pc := s.autos[t];
             s' == s1.(tables := WithFile(s.tables, s.nextFile, FileRow(pc.r.user, pc.id, pc.r.size, false)))
    ensures Inv(s', rules)
  {
    var row := FileRow(s.autos[t].r.user, s.autos[t].id, s.autos[t].r.size, false);
    FileTablesOk(s.tables, s.nextFile, row);
    forall u | u in s.txs && s.txs[u].pc.FileInserted? ensures s.txs[u].pc.file != s.nextFile { assert IdentityOk(s, u); }
    AutoFileClear(s1, s', t, s.nextFile, row);
    AutoFileRespects(s1, s', t, s.nextFile, row);
    AutoChangeKeeps(s1, s', t, rules);
  }

  /** A file row that is committed by itself keeps counts and keys exact. */
  lemma FileTablesOk(tables: Tables, f: nat, row: FileRow)
    requires TablesOk(tables) && f !in tables.files && row.physicalId in tables.physical
    ensures TablesOk(WithFile(tables, f, row))
  {
    var after := WithFile(tables, f, row);
    forall k | k in after.physical ensures after.physical[k].refCount == |References(after.files, k)| {
      UploadReferences(tables.files, f, row, k);
    }
  }
}
