// Upgrade and rollback of a deployment's state (src/folio_lattice/deployment.py):
// a database with its SQLite sidecars, a blob tree and a version file, switched
// by file moves any of which may fail. A database file stands for the content
// SQLite reads from it, a write-ahead log for the content read through it.
module Deployment {
  import opened Common

  type Blobs = map<string, Bytes>

  datatype FilePath = Database | Wal | Shm | TempFile(n: nat)

  datatype TreePath = BlobRoot | TempTree(n: nat)

  // The digests of a manifest; a tree digest is injective like a file digest.
  datatype TreeDigest = TreeDigest(preimage: Blobs)

  datatype Seal = Seal(database: Digest, blobs: TreeDigest)

  function SealOf(database: Bytes, blobs: Blobs): Seal {
    Seal(Sha256(database), TreeDigest(blobs))
  }

  datatype Manifest = Manifest(version: string, seal: Seal)

  datatype Snapshot = Snapshot(database: Bytes, blobs: Blobs, manifest: Manifest)

  datatype VersionState = VersionState(active: string, previous: Option<string>, snapshot: Option<nat>)

  datatype Disk = Disk(
    files: map<FilePath, Bytes>,
    trees: map<TreePath, Blobs>,
    version: Option<VersionState>,
    snapshots: map<nat, Snapshot>,
    nextTemp: nat)

  // Names handed out by mkstemp and mkdtemp are new.
  ghost predicate WellNamed(d: Disk) {
    && (forall n: nat :: TempFile(n) in d.files ==> n < d.nextTemp)
    && (forall n: nat :: TempTree(n) in d.trees ==> n < d.nextTemp)
  }

  predicate IsVersionChar(c: char) {
    'A' <= c <= 'Z' || 'a' <= c <= 'z' || '0' <= c <= '9' || c in {'.', '_', ':', '-'}
  }

  predicate ValidVersion(v: string) {
    && 1 <= |v| <= 128
    && (forall i :: 0 <= i < |v| ==> IsVersionChar(v[i]))
    && v[0] !in {'.', '_', ':', '-'}
  }

  // The live database as SQLite reads it.
  function LiveRows(d: Disk): Option<Bytes> {
    if Database !in d.files then None
    else if Wal in d.files then Some(d.files[Wal])
    else Some(d.files[Database])
  }

  function LiveBlobs(d: Disk): Option<Blobs> {
    if BlobRoot in d.trees then Some(d.trees[BlobRoot]) else None
  }

  predicate LiveExists(d: Disk) {
    Database in d.files && BlobRoot in d.trees
  }

  // The live files themselves, sidecars included.
  ghost predicate SameLive(d: Disk, d': Disk) {
    && (forall p: FilePath :: !p.TempFile? ==> (p in d'.files <==> p in d.files) && (p in d.files ==> d'.files[p] == d.files[p]))
    && (BlobRoot in d'.trees <==> BlobRoot in d.trees)
    && (BlobRoot in d.trees ==> d'.trees[BlobRoot] == d.trees[BlobRoot])
  }

  // Closing the last connection folds the write-ahead log into the database and removes it.
  function Folded(d: Disk): Disk
    requires Database in d.files
  {
    d.(files := (d.files - {Wal, Shm})[Database := LiveRows(d).value])
  }

  // The disk, or what it is once its log has been folded.
  ghost predicate PerhapsFolded(d: Disk, d': Disk) {
    d' == d || (Database in d.files && d' == Folded(d))
  }

  // The live files, but for a log that may have been folded.
  ghost predicate KeepsLive(d: Disk, d': Disk) {
    SameLive(d, d') || (Database in d.files && SameLive(Folded(d), d'))
  }

  // Exactly this content is live, and no sidecar.
  ghost predicate LiveIs(d: Disk, database: Bytes, blobs: Blobs) {
    && Database in d.files && d.files[Database] == database
    && Wal !in d.files && Shm !in d.files
    && BlobRoot in d.trees && d.trees[BlobRoot] == blobs
  }

  // No temporary name is in use that was not before.
  ghost predicate NoNewTemps(d: Disk, d': Disk) {
    && (forall n: nat :: TempFile(n) in d'.files ==> TempFile(n) in d.files)
    && (forall n: nat :: TempTree(n) in d'.trees ==> TempTree(n) in d.trees)
  }

  ghost predicate SameRecords(d: Disk, d': Disk) {
    d'.version == d.version && d'.snapshots == d.snapshots
  }

  datatype Outcome = Done | Refused | Restored | RecoveryFailed

  // What a migration leaves behind, and whether it raises.
  datatype Migrated = Migrated(
    database: Option<Bytes>, wal: Option<Bytes>, shm: Option<Bytes>, blobs: Option<Blobs>, raises: bool)

  function Put<K(!new), V>(m: map<K, V>, k: K, v: Option<V>): (r: map<K, V>)
    ensures k in r <==> v.Some?
    ensures v.Some? ==> r[k] == v.value
    ensures forall j :: j != k ==> (j in r <==> j in m)
    ensures forall j :: j != k && j in m ==> r[j] == m[j]
  {
    match v
    case Some(x) => m[k := x]
    case None => m - {k}
  }

  function AfterMigration(d: Disk, m: Migrated): Disk {
    d.(files := Put(Put(Put(d.files, Database, m.database), Wal, m.wal), Shm, m.shm),
       trees := Put(d.trees, BlobRoot, m.blobs))
  }

  class Deployment {
    // The readiness check of the service, on the content it reads.
    const ready: (Bytes, Blobs) -> bool
    // The forward steps that fail, counted from the start.
    const failing: set<nat>
    // The copies of the live database that fold its log as they close.
    const folding: set<nat>
    var disk: Disk
    var clock: nat

    constructor (ready: (Bytes, Blobs) -> bool, failing: set<nat>, folding: set<nat>, disk: Disk)
      ensures this.ready == ready && this.failing == failing && this.folding == folding && this.disk == disk && clock == 0
    {
      this.ready := ready;
      this.failing := failing;
      this.folding := folding;
      this.disk := disk;
      clock := 0;
    }

    /** One forward step of the file system; it may fail. */
    method Step() returns (ok: bool)
      modifies this`clock
      ensures clock == old(clock) + 1
      ensures ok <==> old(clock) !in failing
    {
      ok := clock !in failing;
      clock := clock + 1;
    }

    method FreshName() returns (n: nat, ok: bool)
      requires WellNamed(disk)
      modifies this`disk, this`clock
      ensures clock == old(clock) + 1 && (ok <==> old(clock) !in failing)
      ensures n == old(disk).nextTemp && disk == old(disk).(nextTemp := n + 1)
    {
      n := disk.nextTemp;
      disk := disk.(nextTemp := n + 1);
      ok := Step();
    }

    method ReplaceFile(source: FilePath, target: FilePath) returns (ok: bool)
      requires source != target
      modifies this`disk, this`clock
      ensures clock == old(clock) + 1
      ensures ok <==> old(clock) !in failing && source in old(disk).files
      ensures disk == if ok then old(disk).(files := MoveKey(old(disk).files, source, target)) else old(disk)
    {
      ok := Step();
      ok := ok && source in disk.files;
      if ok {
        disk := disk.(files := MoveKey(disk.files, source, target));
      }
    }

    method ReplaceTree(source: TreePath, target: TreePath) returns (ok: bool)
      requires source != target
      modifies this`disk, this`clock
      ensures clock == old(clock) + 1
      ensures ok <==> old(clock) !in failing && source in old(disk).trees
      ensures disk == if ok then old(disk).(trees := MoveKey(old(disk).trees, source, target)) else old(disk)
    {
      ok := Step();
      ok := ok && source in disk.trees;
      if ok {
        disk := disk.(trees := MoveKey(disk.trees, source, target));
      }
    }

    /** Moves one sidecar of the live database away, if there is one. */
    method SetAside(sidecar: FilePath) returns (ok: bool, aside: Option<FilePath>)
      requires WellNamed(disk) && !sidecar.TempFile?
      modifies this`disk, this`clock
      ensures WellNamed(disk) && SameRecords(old(disk), disk) && disk.trees == old(disk).trees
      ensures old(clock) <= clock && old(disk).nextTemp <= disk.nextTemp
      ensures ok <==> Sound(failing, old(clock), clock)
      ensures aside.Some? ==>
                && ok && sidecar in old(disk).files
                && aside.value.TempFile? && old(disk).nextTemp <= aside.value.n < disk.nextTemp
                && disk.files == MoveKey(old(disk).files, sidecar, aside.value)
      ensures aside.None? ==> disk.files == old(disk).files
      ensures ok && sidecar in old(disk).files ==> aside.Some?
    {
      aside := None;
      if sidecar !in disk.files {
        return true, None;
      }
      var n, named := FreshName();
      if !named {
        return false, None;
      }
      ok := ReplaceFile(sidecar, TempFile(n));
      if ok {
        aside := Some(TempFile(n));
      }
    }

    /** The `except` branch: what was moved is moved back. These moves are taken to succeed. */
    method Undo(t: Temps, m: Moves)
      modifies this`disk
      ensures disk == Undone(old(disk), t, m)
    {
      hide MovedBack, Unlinked;
      if m.newBlobs {
        disk := disk.(trees := Unlinked(disk.trees, BlobRoot));
      }
      if m.movedBlobs {
        disk := disk.(trees := MovedBack(disk.trees, t.blobs, BlobRoot));
      }
      if m.newDb {
        disk := disk.(files := Unlinked(disk.files, Database));
      }
      if m.movedDb {
        disk := disk.(files := MovedBack(disk.files, t.database, Database));
      }
      if m.wal.Some? {
        disk := disk.(files := MovedBack(Unlinked(disk.files, Wal), m.wal.value, Wal));
      }
      if m.shm.Some? {
        disk := disk.(files := MovedBack(Unlinked(disk.files, Shm), m.shm.value, Shm));
      }
    }

    /** The moves of the `try` block, up to the first that fails. */
    method Forward(t: Temps) returns (ok: bool, m: Moves)
      requires WellNamed(disk) && NamesAreFree(disk, t, NoMoves)
      requires t.database.n < disk.nextTemp
      modifies this`disk, this`clock
      ensures old(clock) <= clock
      ensures ok <==> Sound(failing, old(clock), clock) && LiveExists(old(disk))
      ensures Moving(old(disk), disk, t, m)
      ensures ok ==> AllMoved(old(disk), m)
    {
      ghost var before, start := disk, clock;
      SwitchStarts(before, t);
      m := NoMoves;
      ghost var named := t.database.n < before.nextTemp && t.database.TempFile?;
      var aside;
      ok, aside := SetAside(Wal);
      WalMoves(before, disk, t, aside);
      m := m.(wal := aside);
      if !ok {
        return;
      }
      ghost var d, c := disk, clock;
      ok, aside := SetAside(Shm);
      ShmMoves(before, d, disk, t, m, aside);
      SoundJoin(failing, start, c, clock);
      m := m.(shm := aside);
      if !ok {
        return;
      }
      assert (Wal in before.files ==> m.wal.Some?) && (Shm in before.files ==> m.shm.Some?);
      hide Moving, NamesAreFree, MoveKey, Sound, WellNamed, SameRecords;
      DatabaseMoves(before, disk, t, m);
      SoundStep(failing, start, clock);
      ok := ReplaceFile(Database, t.database);
      if !ok {
        return;
      }
      m := m.(movedDb := true);
      DatabaseArrives(before, disk, t, m);
      SoundStep(failing, start, clock);
      ok := ReplaceFile(t.stagedDb, Database);
      if !ok {
        return;
      }
      m := m.(newDb := true);
      BlobsMove(before, disk, t, m);
      SoundStep(failing, start, clock);
      ok := ReplaceTree(BlobRoot, t.blobs);
      if !ok {
        return;
      }
      m := m.(movedBlobs := true);
      BlobsArrive(before, disk, t, m);
      SoundStep(failing, start, clock);
      ok := ReplaceTree(t.stagedBlobs, BlobRoot);
      if ok {
        m := m.(newBlobs := true);
      }
    }

    /** `_replace_live`: both staged copies become live, or nothing changes. */
    method ReplaceLive(stagedDb: FilePath, stagedBlobs: TreePath) returns (ok: bool)
      requires WellNamed(disk)
      requires stagedDb.TempFile? && stagedDb in disk.files && stagedBlobs.TempTree? && stagedBlobs in disk.trees
      modifies this`disk, this`clock
      ensures WellNamed(disk) && SameRecords(old(disk), disk) && NoNewTemps(old(disk), disk)
      ensures old(clock) <= clock
      ensures ok <==> Sound(failing, old(clock), clock) && LiveExists(old(disk))
      ensures if ok then LiveIs(disk, old(disk).files[stagedDb], old(disk).trees[stagedBlobs])
              else SameLive(old(disk), disk)
      ensures ok ==> stagedDb !in disk.files && stagedBlobs !in disk.trees
    {
      ghost var start := clock;
      var db, blobs, m;
      db, ok := FreshName();
      if !ok {
        return;
      }
      blobs, ok := FreshName();
      if !ok {
        return;
      }
      ghost var before, c := disk, clock;
      var t := Temps(TempFile(db), TempTree(blobs), stagedDb, stagedBlobs);
      ok, m := Forward(t);
      SoundJoin(failing, start, c, clock);
      hide Sound, Moving, MoveKey, Undone, Cleaned;
      if ok {
        SwitchEnds(before, disk, t, m);
      } else {
        SwitchUndone(before, disk, t, m);
        Undo(t, m);
      }
      disk := Cleaned(disk, t, m);
    }

    /** `_inspect` of the live paths. */
    method InspectLive() returns (ok: bool)
      modifies this`clock
      ensures clock == old(clock) + 1
      ensures ok <==> old(clock) !in failing && LiveExists(disk) && ready(LiveRows(disk).value, disk.trees[BlobRoot])
    {
      ok := Step();
      ok := ok && LiveExists(disk) && ready(LiveRows(disk).value, disk.trees[BlobRoot]);
    }

    /** `_copy_database` of the live database, which may fold its log, and fail after that. */
    method CopyDatabase() returns (copy: Option<Bytes>)
      modifies this`disk, this`clock
      ensures clock == old(clock) + 1
      ensures copy == if old(clock) in failing then None else LiveRows(old(disk))
      ensures PerhapsFolded(old(disk), disk)
    {
      var folds := clock in folding;
      var ok := Step();
      copy := if ok then LiveRows(disk) else None;
      if folds && Database in disk.files {
        disk := Folded(disk);
      }
    }

    /** `_snapshot`: a sealed copy of what is live, or none; the live log may be folded either way. */
    method TakeSnapshot(version: string) returns (id: Option<nat>)
      modifies this`disk, this`clock
      ensures old(clock) <= clock
      ensures id.Some? <==>
                && Sound(failing, old(clock), clock) && LiveExists(old(disk))
                && ready(LiveRows(old(disk)).value, old(disk).trees[BlobRoot])
      ensures PerhapsFolded(old(disk).(snapshots := disk.snapshots), disk)
      ensures clock <= old(clock) + 6 && (id.Some? ==> clock == old(clock) + 6)
      ensures id.None? ==> disk.snapshots == old(disk).snapshots
      ensures id.Some? ==>
                id.value !in old(disk).snapshots && disk.snapshots == WithSnapshot(old(disk), id.value, version).snapshots
    {
      id := None;
      var ok := Step();                                      // mkdir
      if !ok {
        return;
      }
      var database := CopyDatabase();                        // SQLite's backup
      if database.None? {
        return;
      }
      ok := Step();                                          // copytree
      if !ok || BlobRoot !in disk.trees {
        return;
      }
      var blobs := disk.trees[BlobRoot];
      ok := Step();                                          // inspect the copy
      if !ok || !ready(database.value, blobs) {
        return;
      }
      ok := Step();                                          // write the manifest
      if !ok {
        return;
      }
      ok := Step();                                          // rename into place
      if !ok {
        return;
      }
      var n := Fresh(disk.snapshots.Keys);
      var seal := SealOf(database.value, blobs);
      disk := disk.(snapshots := disk.snapshots[n := Snapshot(database.value, blobs, Manifest(version, seal))]);
      id := Some(n);
    }

    /** `_stage_snapshot`: copies of a snapshot that still match its manifest, or no trace. */
    method StageSnapshot(id: nat) returns (staged: Option<(FilePath, TreePath)>)
      requires WellNamed(disk)
      modifies this`disk, this`clock
      ensures WellNamed(disk) && SameRecords(old(disk), disk) && SameLive(old(disk), disk)
      ensures old(clock) <= clock
      ensures staged.Some? <==> Sound(failing, old(clock), clock) && Restorable(ready, disk.snapshots, id)
      ensures staged.None? ==> NoNewTemps(old(disk), disk)
      ensures staged.Some? ==>
                && staged.value.0.TempFile? && staged.value.1.TempTree?
                && disk.files == old(disk).files[staged.value.0 := disk.snapshots[id].database]
                && disk.trees == old(disk).trees[staged.value.1 := disk.snapshots[id].blobs]
                && staged.value.0 !in old(disk).files && staged.value.1 !in old(disk).trees
    {
      staged := None;
      var ok := Step();                                      // read the manifest
      if !ok || id !in disk.snapshots {
        return;
      }
      var snapshot := disk.snapshots[id];
      if !ValidVersion(snapshot.manifest.version) {
        return;
      }
      var f, t;
      f, ok := FreshName();
      if !ok {
        return;
      }
      t, ok := FreshName();
      if !ok {
        return;
      }
      ok := Step();                                          // copyfile and copytree
      if !ok {
        return;
      }
      ok := Step();                                          // inspect the copies
      if !ok || !ready(snapshot.database, snapshot.blobs)
         || SealOf(snapshot.database, snapshot.blobs) != snapshot.manifest.seal {
        return;                                              // the copies are removed again
      }
      disk := disk.(files := disk.files[TempFile(f) := snapshot.database],
                    trees := disk.trees[TempTree(t) := snapshot.blobs]);
      staged := Some((TempFile(f), TempTree(t)));
    }

    /** `_restore_snapshot`. */
    method RestoreSnapshot(id: nat) returns (ok: bool)
      requires WellNamed(disk)
      modifies this`disk, this`clock
      ensures WellNamed(disk) && SameRecords(old(disk), disk)
      ensures old(clock) <= clock
      ensures ok <==>
                Sound(failing, old(clock), clock) && Restorable(ready, disk.snapshots, id) && LiveExists(old(disk))
      ensures ok ==> LiveIs(disk, disk.snapshots[id].database, disk.snapshots[id].blobs)
      ensures NotMixed(old(disk), disk, id)
      ensures ok ==> NoNewTemps(old(disk), disk)
    {
      ghost var start := clock;
      var staged := StageSnapshot(id);
      if staged.None? {
        return false;
      }
      ghost var c := clock;
      ok := ReplaceLive(staged.value.0, staged.value.1);
      SoundJoin(failing, start, c, clock);
      if ok {
        SoundStep(failing, start, clock);
        ok := InspectLive();
      }
    }

    /**
     * Inspects what is live, writes the version file, and removes the temporary file
     * it was written to. If only the last step fails, the version is named already.
     */
    method Record(state: VersionState) returns (ok: bool, ghost named: bool)
      modifies this`disk, this`clock
      ensures old(clock) <= clock
      ensures ok <==> Sound(failing, old(clock), clock) && IsReady(ready, old(disk))
      ensures named <==> Sound(failing, old(clock), old(clock) + 2) && IsReady(ready, old(disk))
      ensures named ==> clock == old(clock) + 3
      ensures ok ==> named
      ensures disk == if named then old(disk).(version := Some(state)) else old(disk)
    {
      named := false;
      ok := InspectLive();
      if ok {
        ok := Step();                                        // write the version file
        if ok {
          named := true;
          disk := disk.(version := Some(state));
          ok := Step();                                      // unlink the temporary file
        }
      }
    }

    /** The checks of an upgrade, and its snapshot. */
    method PrepareUpgrade(current: string, target: string) returns (taken: Option<nat>)
      modifies this`disk, this`clock
      ensures old(clock) <= clock
      ensures taken.Some? <==> Sound(failing, old(clock), clock) && MayUpgrade(ready, old(disk), current, target)
      ensures clock <= old(clock) + 8 && (taken.Some? ==> clock == old(clock) + 8)
      ensures PerhapsFolded(old(disk).(snapshots := disk.snapshots), disk)
      ensures taken.None? ==> disk.snapshots == old(disk).snapshots
      ensures taken.Some? ==>
                taken.value !in old(disk).snapshots && disk.snapshots == WithSnapshot(old(disk), taken.value, current).snapshots
    {
      if !ValidVersion(current) || !ValidVersion(target) || current == target {
        return None;
      }
      ghost var start := clock;
      var ok := Step();                                      // read the version file
      if !ok || disk.version.None? || disk.version.value.active != current {
        return None;
      }
      ok := InspectLive();
      if !ok {
        return None;
      }
      ghost var c := clock;
      taken := TakeSnapshot(current);
      SoundJoin(failing, start, c, clock);
    }

    /** Whatever happened, what is live and what the version file says belong together; see `Upgrades`. */
    method TransactionalUpgrade(current: string, target: string, migrate: (Bytes, Blobs) -> Migrated)
      returns (outcome: Outcome, ghost id: nat, ghost recovery: nat, ghost named: bool)
      requires WellNamed(disk)
      modifies this`disk, this`clock
      ensures WellNamed(disk) && old(clock) <= recovery <= clock
      ensures Upgrades(ready, old(disk), disk, current, target, migrate, outcome, id, named)
      // the eleventh step removes the temporary file of the version file
      ensures named <==>
                && Sound(failing, old(clock), old(clock) + 10)
                && MayUpgrade(ready, old(disk), current, target) && MigrationHolds(ready, old(disk), migrate)
      ensures outcome.Done? <==> named && old(clock) + 10 !in failing
      ensures outcome.Done? <==>
                && Sound(failing, old(clock), clock)
                && MayUpgrade(ready, old(disk), current, target) && MigrationHolds(ready, old(disk), migrate)
      ensures outcome.Restored? || outcome.RecoveryFailed? ==>
                && (outcome.Restored? <==> Sound(failing, recovery, clock) && LiveExists(MigratedDisk(old(disk), migrate)))
                && (Sound(failing, old(clock), recovery) ==> !MigrationHolds(ready, old(disk), migrate))
      ensures |failing| <= 1 && MigrationHolds(ready, old(disk), migrate) ==> !outcome.RecoveryFailed?
    {
      id, recovery, named := 0, clock, false;
      ghost var start, before := clock, disk;
      hide PerhapsFolded, Upgrades, MigrationHolds, WellNamed, SameLive, LiveIs, Restorable, ValidVersion;
      var taken := PrepareUpgrade(current, target);
      SnapshotKeepsNames(before, disk);
      SoundJoin(failing, start, clock, start + 10);
      hide Sound;
      if taken.None? {
        UpgradeRefused(ready, before, disk, current, target, migrate, id);
        return Refused, id, recovery, named;
      }
      id := taken.value;
      ghost var c, prepared := clock, disk;
      MayUpgradeMeans(ready, before, current, target);
      hide MayUpgrade, IsReady, LiveRows, MigratedDisk, NotMixed;
      MigratedSame(ready, before, prepared, migrate);
      SnapshotRestorable(ready, before, id, current);
      outcome, recovery, named := MigrateOrRecover(taken.value, VersionState(target, Some(current), taken), migrate);
      SoundJoin(failing, start, c, recovery);
      OneFault(failing, start, recovery, clock);
      UpgradeEnds(ready, before, prepared, disk, current, target, migrate, outcome, id, named);
    }

    /** The migration with its `except` branch. */
    method MigrateOrRecover(id: nat, state: VersionState, migrate: (Bytes, Blobs) -> Migrated)
      returns (outcome: Outcome, ghost recovery: nat, ghost named: bool)
      requires WellNamed(disk) && LiveExists(disk) && Restorable(ready, disk.snapshots, id)
      modifies this`disk, this`clock
      ensures WellNamed(disk) && old(clock) <= recovery <= clock && !outcome.Refused?
      ensures named <==> Sound(failing, old(clock), old(clock) + 2) && MigrationHolds(ready, old(disk), migrate)
      ensures outcome.Done? <==> named && old(clock) + 2 !in failing
      ensures outcome.Done? <==> Sound(failing, old(clock), recovery) && MigrationHolds(ready, old(disk), migrate)
      ensures outcome.Done? ==> recovery == clock
      ensures !outcome.Done? ==> (outcome.Restored? <==> Sound(failing, recovery, clock) && LiveExists(MigratedDisk(old(disk), migrate)))
      ensures disk.snapshots == old(disk).snapshots
      ensures disk.version == if named then Some(state) else old(disk).version
      ensures if outcome.Done? then SameLive(MigratedDisk(old(disk), migrate), disk)
              else if outcome.Restored? then LiveIs(disk, disk.snapshots[id].database, disk.snapshots[id].blobs)
              else NotMixed(MigratedDisk(old(disk), migrate), disk, id)
    {
      ghost var start, before := clock, disk;
      hide Sound, MigrationHolds, WellNamed, SameLive, LiveIs, Restorable, MigratedDisk, NotMixed;
      var ok;
      ok, named := MigrateAndRecord(state, migrate);
      SoundStep(failing, start, start + 2);
      MigratedLive(before, disk, migrate);
      recovery := clock;
      if ok {
        return Done, recovery, named;
      }
      ghost var attempted := disk;
      ok := Recover(id);
      outcome := if ok then Restored else RecoveryFailed;
      NotMixedFrom(MigratedDisk(before, migrate), attempted, disk, id);
    }

    /** The migration, and the version file when the state is ready after it. */
    method MigrateAndRecord(state: VersionState, migrate: (Bytes, Blobs) -> Migrated) returns (ok: bool, ghost named: bool)
      requires LiveExists(disk)
      modifies this`disk, this`clock
      ensures old(clock) <= clock && (WellNamed(old(disk)) ==> WellNamed(disk))
      ensures ok <==> Sound(failing, old(clock), clock) && MigrationHolds(ready, old(disk), migrate)
      ensures named <==> Sound(failing, old(clock), old(clock) + 2) && MigrationHolds(ready, old(disk), migrate)
      ensures named ==> clock == old(clock) + 3
      ensures ok ==> named
      ensures var migrated := MigratedDisk(old(disk), migrate);
              disk == if named then migrated.(version := Some(state)) else migrated
    {
      var m := migrate(LiveRows(disk).value, disk.trees[BlobRoot]);
      MigrationKeeps(disk, m);
      disk := AfterMigration(disk, m);
      ok, named := !m.raises, false;
      if ok {
        ok, named := Record(state);
      }
    }

    /** The `except` branch of an upgrade. */
    method Recover(id: nat) returns (ok: bool)
      requires WellNamed(disk)
      modifies this`disk, this`clock
      ensures WellNamed(disk) && SameRecords(old(disk), disk) && old(clock) <= clock
      ensures ok <==>
                Sound(failing, old(clock), clock) && Restorable(ready, disk.snapshots, id) && LiveExists(old(disk))
      ensures ok ==> LiveIs(disk, disk.snapshots[id].database, disk.snapshots[id].blobs)
      ensures NotMixed(old(disk), disk, id)
    {
      ghost var start := clock;
      ok := RestoreSnapshot(id);
      if ok {
        SoundStep(failing, start, clock);
        SnapshotIsReady(ready, disk, id);
        ok := InspectLive();
      }
    }

    /** The checks of a rollback, its staged copies and its snapshot. */
    method PrepareRollback(snapshot: nat, target: string)
      returns (staged: Option<(FilePath, TreePath)>, active: string, taken: nat)
      requires WellNamed(disk)
      modifies this`disk, this`clock
      ensures WellNamed(disk) && old(clock) <= clock && KeepsLive(old(disk), disk) && disk.version == old(disk).version
      ensures staged.Some? <==> Sound(failing, old(clock), clock) && MayRollBack(ready, old(disk), snapshot, target)
      ensures staged.None? ==> disk.snapshots == old(disk).snapshots
      ensures staged.Some? ==>
                && active == old(disk).version.value.active
                && taken !in old(disk).snapshots
                && disk.snapshots == WithSnapshot(old(disk), taken, active).snapshots
                && staged.value.0.TempFile? && staged.value.1.TempTree?
                && At(disk.files, staged.value.0) == Some(old(disk).snapshots[snapshot].database)
                && At(disk.trees, staged.value.1) == Some(old(disk).snapshots[snapshot].blobs)
    {
      staged, active, taken := None, "", 0;
      ghost var start, before := clock, disk;
      if !ValidVersion(target) {
        return;
      }
      var ok := Step();                                      // read the version file
      if !ok || disk.version.None? || !ValidVersion(disk.version.value.active) {
        return;
      }
      active := disk.version.value.active;
      ok := Step();                                          // read the manifest
      if !ok || snapshot !in disk.snapshots || disk.snapshots[snapshot].manifest.version != target {
        return;
      }
      ghost var c := clock;
      var copies := StageSnapshot(snapshot);
      SoundJoin(failing, start, c, clock);
      if copies.None? {
        return;
      }
      ghost var d := disk;
      c := clock;
      SameLiveReads(ready, before, d);
      hide Sound, Restorable, ValidVersion, PerhapsFolded, KeepsLive, WellNamed, SameLive;
      var id := TakeSnapshot(active);
      SoundJoin(failing, start, c, clock);
      StagedKeeps(before, d, disk);
      if id.Some? {
        staged, taken := copies, id.value;
      }
    }

    /** See `RollsBack`. */
    method RollbackDeployment(snapshot: nat, target: string)
      returns (outcome: Outcome, ghost id: nat, ghost recovery: nat, ghost named: bool, ghost unlink: nat)
      requires WellNamed(disk)
      modifies this`disk, this`clock
      ensures WellNamed(disk) && old(clock) <= recovery <= clock
      ensures RollsBack(ready, old(disk), disk, snapshot, target, outcome, id, named)
      // `unlink` is the step that removes the temporary file of the version file, if it is reached
      ensures named <==> Sound(failing, old(clock), unlink) && MayRollBack(ready, old(disk), snapshot, target)
      ensures outcome.Done? <==> named && unlink !in failing
      ensures named ==> old(clock) <= unlink && recovery == unlink + 1
      ensures outcome.Done? <==> Sound(failing, old(clock), clock) && MayRollBack(ready, old(disk), snapshot, target)
      ensures outcome.Restored? || outcome.RecoveryFailed? ==>
                && (outcome.Restored? <==> Sound(failing, recovery, clock))
                && !Sound(failing, old(clock), recovery)
      ensures |failing| <= 1 ==> !outcome.RecoveryFailed?
    {
      id, recovery, named, unlink := 0, clock, false, clock;
      ghost var start, before := clock, disk;
      hide ValidVersion, Restorable, RollsBack, NotMixed, KeepsLive, SameLive, LiveIs, NoNewTemps;
      var staged, active, taken := PrepareRollback(snapshot, target);
      unlink := clock;
      hide Sound;
      if staged.None? {
        RollbackRefused(ready, before, disk, snapshot, target, id);
        return Refused, id, recovery, named, unlink;
      }
      id := taken;
      ghost var c, prepared := clock, disk;
      MayRollBackMeans(ready, before, snapshot, target);
      SnapshotRestorable(ready, before, id, active);
      KeptReads(ready, before, prepared);
      StagedAt(prepared, staged.value.0, staged.value.1);
      hide WellNamed, At, MayRollBack, IsReady;
      var ok;
      ok, named, unlink := SwitchAndRecord(staged.value.0, staged.value.1, VersionState(target, Some(active), Some(taken)));
      SoundJoin(failing, start, c, unlink);
      recovery := clock;
      if ok {
        RollbackDone(ready, before, disk, snapshot, target, id);
        return Done, id, recovery, named, unlink;
      }
      SoundJoin(failing, start, c, clock);
      ghost var attempted := disk;
      ok := RestoreSnapshot(taken);
      OneFault(failing, start, recovery, clock);
      outcome := if ok then Restored else RecoveryFailed;
      RollbackRecovered(ready, before, prepared, attempted, disk, snapshot, target, ok, id, named);
    }

    /** The switch of a rollback, and the version file; `unlink` is the step that removes its temporary file, if reached. */
    method SwitchAndRecord(stagedDb: FilePath, stagedBlobs: TreePath, state: VersionState)
      returns (ok: bool, ghost named: bool, ghost unlink: nat)
      requires WellNamed(disk)
      requires stagedDb.TempFile? && stagedDb in disk.files && stagedBlobs.TempTree? && stagedBlobs in disk.trees
      requires ready(disk.files[stagedDb], disk.trees[stagedBlobs])
      modifies this`disk, this`clock
      ensures WellNamed(disk) && disk.snapshots == old(disk).snapshots
      ensures old(clock) <= unlink <= clock
      ensures ok <==> Sound(failing, old(clock), clock) && LiveExists(old(disk))
      ensures named <==> Sound(failing, old(clock), unlink) && LiveExists(old(disk))
      ensures ok <==> named && unlink !in failing
      ensures named ==> clock == unlink + 1
      ensures disk.version == if named then Some(state) else old(disk).version
      ensures LiveExists(old(disk)) ==> LiveExists(disk)
      ensures || (!named && SameLive(old(disk), disk))
              || LiveIs(disk, old(disk).files[stagedDb], old(disk).trees[stagedBlobs])
    {
      ghost var start := clock;
      named := false;
      hide Sound, NoNewTemps;
      ok := ReplaceLive(stagedDb, stagedBlobs);
      unlink := clock;
      if ok {
        ghost var c := clock;
        ok, named := Record(state);
        SoundJoin(failing, start, c, clock);
        SoundJoin(failing, start, c, c + 2);
        SoundStep(failing, start, c + 2);
        unlink := if named then c + 2 else clock;
      }
    }
  }

  lemma MigrationKeeps(d: Disk, m: Migrated)
    ensures WellNamed(d) ==> WellNamed(AfterMigration(d, m))
    ensures SameRecords(d, AfterMigration(d, m))
  {
  }

  // A snapshot taken after staging touches no staged copy, and of the live files at most the log.
  lemma StagedKeeps(before: Disk, d: Disk, d': Disk)
    requires SameLive(before, d) && WellNamed(d)
    requires PerhapsFolded(d.(snapshots := d'.snapshots), d')
    ensures WellNamed(d') && KeepsLive(before, d') && d'.version == d.version
    ensures forall p: FilePath :: p.TempFile? ==> At(d'.files, p) == At(d.files, p)
    ensures d'.trees == d.trees
  {
  }

  lemma StagedAt(d: Disk, f: FilePath, t: TreePath)
    ensures At(d.files, f).Some? <==> f in d.files
    ensures At(d.trees, t).Some? <==> t in d.trees
    ensures f in d.files ==> At(d.files, f) == Some(d.files[f])
    ensures t in d.trees ==> At(d.trees, t) == Some(d.trees[t])
  {
  }

  // How a rollback ends whose switch, or the inspection after it, has failed.
  lemma RollbackRecovered(ready: (Bytes, Blobs) -> bool, before: Disk, prepared: Disk, attempted: Disk, after: Disk,
                          snapshot: nat, target: string, ok: bool, id: nat, named: bool)
    requires MayRollBack(ready, before, snapshot, target)
    requires id !in before.snapshots
    requires attempted.snapshots == WithSnapshot(before, id, before.version.value.active).snapshots
    requires KeepsLive(before, prepared)
    requires || SameLive(prepared, attempted)
             || LiveIs(attempted, before.snapshots[snapshot].database, before.snapshots[snapshot].blobs)
    requires attempted.version == (if named then Some(VersionState(target, Some(before.version.value.active), Some(id)))
                                   else before.version)
    requires SameRecords(attempted, after) && NotMixed(attempted, after, id)
    requires ok ==> LiveIs(after, attempted.snapshots[id].database, attempted.snapshots[id].blobs)
    ensures RollsBack(ready, before, after, snapshot, target, if ok then Restored else RecoveryFailed, id, named)
  {
    hide ValidVersion, Restorable;
  }

  lemma SnapshotKeepsNames(before: Disk, after: Disk)
    requires WellNamed(before) && PerhapsFolded(before.(snapshots := after.snapshots), after)
    ensures WellNamed(after)
  {
  }

  lemma MayUpgradeMeans(ready: (Bytes, Blobs) -> bool, d: Disk, current: string, target: string)
    requires MayUpgrade(ready, d, current, target)
    ensures IsReady(ready, d) && LiveExists(d) && ValidVersion(current)
  {
  }

  lemma UpgradeRefused(ready: (Bytes, Blobs) -> bool, before: Disk, after: Disk, current: string, target: string,
                       migrate: (Bytes, Blobs) -> Migrated, id: nat)
    requires PerhapsFolded(before.(snapshots := after.snapshots), after) && after.snapshots == before.snapshots
    ensures Upgrades(ready, before, after, current, target, migrate, Refused, id, false)
  {
  }

  lemma MayRollBackMeans(ready: (Bytes, Blobs) -> bool, d: Disk, snapshot: nat, target: string)
    requires MayRollBack(ready, d, snapshot, target)
    ensures IsReady(ready, d) && LiveExists(d) && d.version.Some? && ValidVersion(d.version.value.active)
    ensures snapshot in d.snapshots && ready(d.snapshots[snapshot].database, d.snapshots[snapshot].blobs)
  {
  }

  lemma RollbackRefused(ready: (Bytes, Blobs) -> bool, before: Disk, after: Disk, snapshot: nat, target: string, id: nat)
    requires KeepsLive(before, after) && SameRecords(before, after)
    ensures RollsBack(ready, before, after, snapshot, target, Refused, id, false)
  {
  }

  lemma RollbackDone(ready: (Bytes, Blobs) -> bool, before: Disk, after: Disk, snapshot: nat, target: string, id: nat)
    requires MayRollBack(ready, before, snapshot, target)
    requires id !in before.snapshots
    requires after.snapshots == WithSnapshot(before, id, before.version.value.active).snapshots
    requires LiveIs(after, before.snapshots[snapshot].database, before.snapshots[snapshot].blobs)
    requires after.version == Some(VersionState(target, Some(before.version.value.active), Some(id)))
    ensures RollsBack(ready, before, after, snapshot, target, Done, id, true)
  {
    hide ValidVersion, Restorable, LiveIs;
  }

  lemma MigratedLive(before: Disk, attempted: Disk, migrate: (Bytes, Blobs) -> Migrated)
    requires LiveExists(before)
    ensures forall version :: attempted == MigratedDisk(before, migrate).(version := version) ==>
                                SameLive(MigratedDisk(before, migrate), attempted)
    ensures SameLive(MigratedDisk(before, migrate), MigratedDisk(before, migrate))
    ensures MigratedDisk(before, migrate).snapshots == before.snapshots && MigratedDisk(before, migrate).version == before.version
  {
  }

  lemma NotMixedFrom(migrated: Disk, attempted: Disk, after: Disk, id: nat)
    requires SameLive(migrated, attempted) && attempted.snapshots == migrated.snapshots
    requires NotMixed(attempted, after, id)
    ensures NotMixed(migrated, after, id)
  {
  }

  // How an upgrade ends that was not refused.
  lemma UpgradeEnds(ready: (Bytes, Blobs) -> bool, before: Disk, prepared: Disk, after: Disk, current: string, target: string,
                    migrate: (Bytes, Blobs) -> Migrated, outcome: Outcome, id: nat, named: bool)
    requires MayUpgrade(ready, before, current, target) && id !in before.snapshots && !outcome.Refused?
    requires LiveExists(prepared) && SameLive(MigratedDisk(before, migrate), MigratedDisk(prepared, migrate))
    requires prepared.version == before.version
    requires prepared.snapshots == after.snapshots == WithSnapshot(before, id, current).snapshots
    requires after.version == if named then Some(VersionState(target, Some(current), Some(id))) else before.version
    requires outcome.Done? ==> named && MigrationHolds(ready, before, migrate)
    requires if outcome.Done? then SameLive(MigratedDisk(prepared, migrate), after)
             else if outcome.Restored? then LiveIs(after, after.snapshots[id].database, after.snapshots[id].blobs)
             else NotMixed(MigratedDisk(prepared, migrate), after, id)
    ensures Upgrades(ready, before, after, current, target, migrate, outcome, id, named)
  {
    assert MigratedDisk(prepared, migrate).snapshots == prepared.snapshots;
    hide ValidVersion, MigratedDisk, MigrationHolds;
  }

  // Neither the snapshot an upgrade has just taken nor a folded log makes a difference to what it migrates.
  lemma MigratedSame(ready: (Bytes, Blobs) -> bool, d: Disk, taken: Disk, migrate: (Bytes, Blobs) -> Migrated)
    requires LiveExists(d) && PerhapsFolded(d.(snapshots := taken.snapshots), taken)
    ensures LiveExists(taken) && taken.version == d.version
    ensures SameLive(MigratedDisk(d, migrate), MigratedDisk(taken, migrate))
    ensures MigrationHolds(ready, taken, migrate) <==> MigrationHolds(ready, d, migrate)
  {
    assert LiveRows(taken) == LiveRows(d);
    SameLiveReads(ready, MigratedDisk(d, migrate), MigratedDisk(taken, migrate));
  }

  // What was live before is live, or the snapshot is: never the database of one with the blobs of the other.
  ghost predicate NotMixed(d: Disk, d': Disk, id: nat) {
    SameLive(d, d') || (id in d.snapshots && LiveIs(d', d.snapshots[id].database, d.snapshots[id].blobs))
  }

  lemma SnapshotIsReady(ready: (Bytes, Blobs) -> bool, d: Disk, id: nat)
    requires Restorable(ready, d.snapshots, id) && LiveIs(d, d.snapshots[id].database, d.snapshots[id].blobs)
    ensures IsReady(ready, d)
  {
  }

  lemma SameLiveReads(ready: (Bytes, Blobs) -> bool, d: Disk, d': Disk)
    requires SameLive(d, d')
    ensures LiveExists(d') == LiveExists(d) && LiveRows(d') == LiveRows(d) && LiveBlobs(d') == LiveBlobs(d)
    ensures IsReady(ready, d') == IsReady(ready, d)
  {
  }

  lemma KeptReads(ready: (Bytes, Blobs) -> bool, d: Disk, d': Disk)
    requires KeepsLive(d, d')
    ensures LiveExists(d') == LiveExists(d) && LiveRows(d') == LiveRows(d) && LiveBlobs(d') == LiveBlobs(d)
    ensures IsReady(ready, d') == IsReady(ready, d)
  {
  }

  function MigratedDisk(d: Disk, migrate: (Bytes, Blobs) -> Migrated): Disk
    requires LiveExists(d)
  {
    AfterMigration(d, migrate(LiveRows(d).value, d.trees[BlobRoot]))
  }

  ghost predicate IsReady(ready: (Bytes, Blobs) -> bool, d: Disk) {
    LiveExists(d) && ready(LiveRows(d).value, d.trees[BlobRoot])
  }

  // What an upgrade checks before it changes anything.
  ghost predicate MayUpgrade(ready: (Bytes, Blobs) -> bool, d: Disk, current: string, target: string) {
    && ValidVersion(current) && ValidVersion(target) && current != target
    && d.version.Some? && d.version.value.active == current
    && IsReady(ready, d)
  }

  ghost predicate MigrationHolds(ready: (Bytes, Blobs) -> bool, d: Disk, migrate: (Bytes, Blobs) -> Migrated) {
    LiveExists(d) && !migrate(LiveRows(d).value, d.trees[BlobRoot]).raises && IsReady(ready, MigratedDisk(d, migrate))
  }

  ghost predicate MayRollBack(ready: (Bytes, Blobs) -> bool, d: Disk, snapshot: nat, target: string) {
    && ValidVersion(target)
    && d.version.Some? && ValidVersion(d.version.value.active)
    && Restorable(ready, d.snapshots, snapshot) && d.snapshots[snapshot].manifest.version == target
    && IsReady(ready, d)
  }

  // The four ways an upgrade ends. `id` is the snapshot it took, unless it was refused;
  // `named` says that the version file was written.
  ghost predicate Upgrades(ready: (Bytes, Blobs) -> bool, d: Disk, d': Disk, current: string, target: string,
                           migrate: (Bytes, Blobs) -> Migrated, outcome: Outcome, id: nat, named: bool)
  {
    if outcome.Refused? then KeepsLive(d, d') && SameRecords(d, d') && !named
    else
      && MayUpgrade(ready, d, current, target)
      && id !in d.snapshots && d'.snapshots == WithSnapshot(d, id, current).snapshots
      && d'.version == (if named then Some(VersionState(target, Some(current), Some(id))) else d.version)
      && match outcome
         case Done =>
           && named
           && MigrationHolds(ready, d, migrate)
           && SameLive(MigratedDisk(d, migrate), d')
         case Restored => LiveIs(d', LiveRows(d).value, d.trees[BlobRoot])
         case RecoveryFailed => SameLive(MigratedDisk(d, migrate), d') || LiveIs(d', LiveRows(d).value, d.trees[BlobRoot])
  }

  ghost predicate RollsBack(ready: (Bytes, Blobs) -> bool, d: Disk, d': Disk, snapshot: nat, target: string,
                            outcome: Outcome, id: nat, named: bool)
  {
    if outcome.Refused? then KeepsLive(d, d') && SameRecords(d, d') && !named
    else
      && MayRollBack(ready, d, snapshot, target)
      && var active := d.version.value.active;
         && id !in d.snapshots && d'.snapshots == WithSnapshot(d, id, active).snapshots
         && d'.version == (if named then Some(VersionState(target, Some(active), Some(id))) else d.version)
         && match outcome
            case Done => named && LiveIs(d', d.snapshots[snapshot].database, d.snapshots[snapshot].blobs)
            case Restored => LiveIs(d', LiveRows(d).value, d.trees[BlobRoot])
            case RecoveryFailed =>
              || KeepsLive(d, d')
              || LiveIs(d', d.snapshots[snapshot].database, d.snapshots[snapshot].blobs)
              || LiveIs(d', LiveRows(d).value, d.trees[BlobRoot])
  }

  lemma SnapshotRestorable(ready: (Bytes, Blobs) -> bool, d: Disk, id: nat, version: string)
    requires IsReady(ready, d) && ValidVersion(version)
    ensures Restorable(ready, WithSnapshot(d, id, version).snapshots, id)
  {
  }

  function WithSnapshot(d: Disk, id: nat, version: string): Disk
    requires LiveExists(d)
  {
    var database, blobs := LiveRows(d).value, d.trees[BlobRoot];
    d.(snapshots := d.snapshots[id := Snapshot(database, blobs, Manifest(version, SealOf(database, blobs)))])
  }

  // A snapshot that passes every check of `_stage_snapshot`.
  predicate Restorable(ready: (Bytes, Blobs) -> bool, snapshots: map<nat, Snapshot>, id: nat) {
    && id in snapshots
    && var s := snapshots[id];
       && ValidVersion(s.manifest.version)
       && ready(s.database, s.blobs)
       && SealOf(s.database, s.blobs) == s.manifest.seal
  }

  ghost predicate AllMoved(before: Disk, m: Moves) {
    && m.newDb && m.newBlobs
    && (Wal in before.files ==> m.wal.Some?) && (Shm in before.files ==> m.shm.Some?)
  }

  // The temporary names of one switch, and how far it got.
  datatype Temps = Temps(database: FilePath, blobs: TreePath, stagedDb: FilePath, stagedBlobs: TreePath)

  datatype Moves = Moves(
    wal: Option<FilePath>, shm: Option<FilePath>, movedDb: bool, newDb: bool, movedBlobs: bool, newBlobs: bool)

  function Unlinked<K(!new), V>(m: map<K, V>, k: K): map<K, V> {
    m - {k}
  }

  function MovedBack<K(!new), V>(m: map<K, V>, from: K, to: K): map<K, V> {
    if from in m && from != to then MoveKey(m, from, to) else m
  }

  function Undone(d: Disk, t: Temps, m: Moves): Disk {
    var trees0 := if m.newBlobs then Unlinked(d.trees, BlobRoot) else d.trees;
    var trees1 := if m.movedBlobs then MovedBack(trees0, t.blobs, BlobRoot) else trees0;
    var files0 := if m.newDb then Unlinked(d.files, Database) else d.files;
    var files1 := if m.movedDb then MovedBack(files0, t.database, Database) else files0;
    var files2 := if m.wal.Some? then MovedBack(Unlinked(files1, Wal), m.wal.value, Wal) else files1;
    var files3 := if m.shm.Some? then MovedBack(Unlinked(files2, Shm), m.shm.value, Shm) else files2;
    d.(trees := trees1, files := files3)
  }

  // The `finally` branch: no temporary name stays in use.
  function Cleaned(d: Disk, t: Temps, m: Moves): Disk {
    var asides := (if m.wal.Some? then {m.wal.value} else {}) + (if m.shm.Some? then {m.shm.value} else {});
    d.(files := d.files - ({t.database, t.stagedDb} + asides), trees := d.trees - {t.blobs, t.stagedBlobs})
  }

  function At<K, V>(m: map<K, V>, k: K): Option<V> {
    if k in m then Some(m[k]) else None
  }

  ghost predicate NamesAreFree(before: Disk, t: Temps, m: Moves) {
    && t.database.TempFile? && t.database !in before.files
    && t.blobs.TempTree? && t.blobs !in before.trees
    && t.stagedDb.TempFile? && t.stagedDb in before.files
    && t.stagedBlobs.TempTree? && t.stagedBlobs in before.trees
    && (m.wal.Some? ==> m.wal.value.TempFile? && m.wal.value !in before.files && m.wal.value != t.database)
    && (m.shm.Some? ==> m.shm.value.TempFile? && m.shm.value !in before.files && m.shm.value != t.database)
    && (m.wal.Some? ==> m.wal != m.shm && Wal in before.files)
    && (m.shm.Some? ==> Shm in before.files)
  }

  // Where a file is in the middle of a switch.
  ghost function FileDuring(before: Disk, t: Temps, m: Moves, p: FilePath): Option<Bytes> {
    if p == Wal && m.wal.Some? then None
    else if p == Shm && m.shm.Some? then None
    else if m.wal == Some(p) then At(before.files, Wal)
    else if m.shm == Some(p) then At(before.files, Shm)
    else if p == Database && m.movedDb then if m.newDb then At(before.files, t.stagedDb) else None
    else if p == t.database && m.movedDb then At(before.files, Database)
    else if p == t.stagedDb && m.newDb then None
    else At(before.files, p)
  }

  ghost function TreeDuring(before: Disk, t: Temps, m: Moves, p: TreePath): Option<Blobs> {
    if p == BlobRoot && m.movedBlobs then if m.newBlobs then At(before.trees, t.stagedBlobs) else None
    else if p == t.blobs && m.movedBlobs then At(before.trees, BlobRoot)
    else if p == t.stagedBlobs && m.newBlobs then None
    else At(before.trees, p)
  }

  ghost predicate Moving(before: Disk, d: Disk, t: Temps, m: Moves) {
    && SameRecords(before, d) && before.nextTemp <= d.nextTemp
    && NamesAreFree(before, t, m)
    && (m.newDb ==> m.movedDb) && (m.newBlobs ==> m.movedBlobs)
    && (m.movedDb ==> Database in before.files) && (m.movedBlobs ==> BlobRoot in before.trees)
    && (forall p :: At(d.files, p) == FileDuring(before, t, m, p))
    && (forall p :: At(d.trees, p) == TreeDuring(before, t, m, p))
  }

  const NoMoves := Moves(None, None, false, false, false, false)

  lemma SwitchStarts(before: Disk, t: Temps)
    requires NamesAreFree(before, t, NoMoves)
    ensures Moving(before, before, t, NoMoves)
  {
  }

  lemma AtMoved<K(!new), V>(m: map<K, V>, source: K, target: K, p: K)
    requires source in m && source != target
    ensures At(MoveKey(m, source, target), p) ==
            if p == target then At(m, source) else if p == source then None else At(m, p)
  {
  }

  lemma WalMoves(before: Disk, d: Disk, t: Temps, aside: Option<FilePath>)
    requires Moving(before, before, t, NoMoves) && WellNamed(before)
    requires SameRecords(before, d) && d.trees == before.trees && before.nextTemp <= d.nextTemp
    requires t.database.TempFile? && t.database.n < before.nextTemp
    requires aside.None? ==> d.files == before.files
    requires aside.Some? ==> Wal in before.files && aside.value.TempFile? && before.nextTemp <= aside.value.n
                             && d.files == MoveKey(before.files, Wal, aside.value)
    ensures Moving(before, d, t, NoMoves.(wal := aside))
  {
    var m := NoMoves.(wal := aside);
    forall p ensures At(d.files, p) == FileDuring(before, t, m, p) {
      if aside.Some? {
        AtMoved(before.files, Wal, aside.value, p);
      }
    }
  }

  lemma ShmMoves(before: Disk, d: Disk, d': Disk, t: Temps, m: Moves, aside: Option<FilePath>)
    requires Moving(before, d, t, m) && WellNamed(before) && m == NoMoves.(wal := m.wal) && WellNamed(d)
    requires SameRecords(d, d') && d'.trees == d.trees && d.nextTemp <= d'.nextTemp
    requires t.database.TempFile? && t.database.n < before.nextTemp
    requires aside.None? ==> d'.files == d.files
    requires aside.Some? ==> Shm in d.files && aside.value.TempFile? && d.nextTemp <= aside.value.n
                             && d'.files == MoveKey(d.files, Shm, aside.value)
    ensures Moving(before, d', t, m.(shm := aside))
  {
    var m' := m.(shm := aside);
    assert At(d.files, Shm) == At(before.files, Shm);
    if m.wal.Some? {
      assert At(d.files, m.wal.value) == At(before.files, Wal);
    }
    forall p ensures At(d'.files, p) == FileDuring(before, t, m', p) {
      assert At(d.files, p) == FileDuring(before, t, m, p);
      if aside.Some? {
        AtMoved(d.files, Shm, aside.value, p);
      }
    }
  }

  lemma DatabaseMoves(before: Disk, d: Disk, t: Temps, m: Moves)
    requires Moving(before, d, t, m) && !m.movedDb
    ensures Database in d.files <==> Database in before.files
    ensures t.database != Database
    ensures Database in d.files ==>
              Moving(before, d.(files := MoveKey(d.files, Database, t.database)), t, m.(movedDb := true))
  {
    assert At(d.files, Database) == At(before.files, Database);
    if Database in d.files {
      forall p ensures At(MoveKey(d.files, Database, t.database), p) == FileDuring(before, t, m.(movedDb := true), p) {
        assert At(d.files, p) == FileDuring(before, t, m, p);
        AtMoved(d.files, Database, t.database, p);
      }
    }
  }

  lemma DatabaseArrives(before: Disk, d: Disk, t: Temps, m: Moves)
    requires Moving(before, d, t, m) && m.movedDb && !m.newDb
    ensures t.stagedDb in d.files && t.stagedDb != Database
    ensures Moving(before, d.(files := MoveKey(d.files, t.stagedDb, Database)), t, m.(newDb := true))
  {
    assert At(d.files, t.stagedDb) == At(before.files, t.stagedDb);
    forall p ensures At(MoveKey(d.files, t.stagedDb, Database), p) == FileDuring(before, t, m.(newDb := true), p) {
      assert At(d.files, p) == FileDuring(before, t, m, p);
      AtMoved(d.files, t.stagedDb, Database, p);
    }
  }

  lemma BlobsMove(before: Disk, d: Disk, t: Temps, m: Moves)
    requires Moving(before, d, t, m) && !m.movedBlobs
    ensures BlobRoot in d.trees <==> BlobRoot in before.trees
    ensures t.blobs != BlobRoot
    ensures BlobRoot in d.trees ==>
              Moving(before, d.(trees := MoveKey(d.trees, BlobRoot, t.blobs)), t, m.(movedBlobs := true))
  {
    assert At(d.trees, BlobRoot) == At(before.trees, BlobRoot);
    if BlobRoot in d.trees {
      forall p ensures At(MoveKey(d.trees, BlobRoot, t.blobs), p) == TreeDuring(before, t, m.(movedBlobs := true), p) {
        assert At(d.trees, p) == TreeDuring(before, t, m, p);
        AtMoved(d.trees, BlobRoot, t.blobs, p);
      }
    }
  }

  lemma BlobsArrive(before: Disk, d: Disk, t: Temps, m: Moves)
    requires Moving(before, d, t, m) && m.movedBlobs && !m.newBlobs
    ensures t.stagedBlobs in d.trees && t.stagedBlobs != BlobRoot
    ensures Moving(before, d.(trees := MoveKey(d.trees, t.stagedBlobs, BlobRoot)), t, m.(newBlobs := true))
  {
    assert At(d.trees, t.stagedBlobs) == At(before.trees, t.stagedBlobs);
    forall p ensures At(MoveKey(d.trees, t.stagedBlobs, BlobRoot), p) == TreeDuring(before, t, m.(newBlobs := true), p) {
      assert At(d.trees, p) == TreeDuring(before, t, m, p);
      AtMoved(d.trees, t.stagedBlobs, BlobRoot, p);
    }
  }

  lemma CleanedAt(d: Disk, t: Temps, m: Moves, p: FilePath, q: TreePath)
    ensures At(Cleaned(d, t, m).files, p) ==
            if p == t.database || p == t.stagedDb || m.wal == Some(p) || m.shm == Some(p) then None else At(d.files, p)
    ensures At(Cleaned(d, t, m).trees, q) == if q == t.blobs || q == t.stagedBlobs then None else At(d.trees, q)
  {
  }

  lemma SwitchEnds(before: Disk, d: Disk, t: Temps, m: Moves)
    requires Moving(before, d, t, m) && WellNamed(before) && AllMoved(before, m)
    ensures t.stagedDb in before.files && t.stagedBlobs in before.trees
    ensures var d' := Cleaned(d, t, m);
            && LiveIs(d', before.files[t.stagedDb], before.trees[t.stagedBlobs])
            && SameRecords(before, d') && NoNewTemps(before, d') && WellNamed(d')
            && t.stagedDb !in d'.files && t.stagedBlobs !in d'.trees
  {
    var d' := Cleaned(d, t, m);
    forall p
      ensures At(d'.files, p) == if p == t.database || p == t.stagedDb || m.wal == Some(p) || m.shm == Some(p) then None
                                 else FileDuring(before, t, m, p)
    {
      CleanedAt(d, t, m, p, BlobRoot);
    }
    forall q
      ensures At(d'.trees, q) == if q == t.blobs || q == t.stagedBlobs then None else TreeDuring(before, t, m, q)
    {
      CleanedAt(d, t, m, Database, q);
    }
    hide Cleaned;
    assert At(d'.files, Database) == At(before.files, t.stagedDb);
    assert At(d'.files, Wal) == None && At(d'.files, Shm) == None;
    assert At(d'.trees, BlobRoot) == At(before.trees, t.stagedBlobs);
    NoTempsLeft(before, d', t, m);
  }

  lemma NoTempsLeft(before: Disk, d': Disk, t: Temps, m: Moves)
    requires WellNamed(before) && before.nextTemp <= d'.nextTemp
    requires forall p: FilePath :: p.TempFile? ==> At(d'.files, p).None? || At(d'.files, p) == At(before.files, p)
    requires forall q: TreePath :: q.TempTree? ==> At(d'.trees, q).None? || At(d'.trees, q) == At(before.trees, q)
    ensures NoNewTemps(before, d') && WellNamed(d')
  {
    forall n: nat | TempFile(n) in d'.files ensures TempFile(n) in before.files {
      assert At(d'.files, TempFile(n)).Some?;
    }
    forall n: nat | TempTree(n) in d'.trees ensures TempTree(n) in before.trees {
      assert At(d'.trees, TempTree(n)).Some?;
    }
  }

  lemma MovedBackAt<K(!new), V>(m: map<K, V>, from: K, to: K, p: K)
    requires from in m && from != to
    ensures At(MovedBack(m, from, to), p) == if p == to then At(m, from) else if p == from then None else At(m, p)
    ensures At(MovedBack(Unlinked(m, to), from, to), p) ==
            if p == to then At(m, from) else if p == from then None else At(m, p)
  {
  }

  lemma UndoneTrees(before: Disk, d: Disk, t: Temps, m: Moves, q: TreePath)
    requires Moving(before, d, t, m)
    ensures q != t.stagedBlobs ==> At(Undone(d, t, m).trees, q) == At(before.trees, q)
  {
    assert At(d.trees, q) == TreeDuring(before, t, m, q);
    if m.movedBlobs {
      assert At(d.trees, t.blobs) == TreeDuring(before, t, m, t.blobs);
      var trees0 := if m.newBlobs then Unlinked(d.trees, BlobRoot) else d.trees;
      assert t.blobs in trees0;
      MovedBackAt(trees0, t.blobs, BlobRoot, q);
    }
  }

  lemma UndoneDatabase(before: Disk, d: Disk, t: Temps, m: Moves, x: FilePath)
    requires Moving(before, d, t, m) && x != t.stagedDb
    ensures var files0 := if m.newDb then Unlinked(d.files, Database) else d.files;
            var files1 := if m.movedDb then MovedBack(files0, t.database, Database) else files0;
            At(files1, x) == FileDuring(before, t, m.(movedDb := false, newDb := false), x)
  {
    var files0 := if m.newDb then Unlinked(d.files, Database) else d.files;
    assert At(d.files, x) == FileDuring(before, t, m, x);
    assert At(d.files, t.database) == FileDuring(before, t, m, t.database);
    if m.movedDb {
      MovedBackAt(files0, t.database, Database, x);
    }
  }

  lemma UndoneSidecar(files: map<FilePath, Bytes>, before: Disk, t: Temps, m: Moves, sidecar: FilePath, x: FilePath)
    requires NamesAreFree(before, t, m) && !m.movedDb && !m.newDb
    requires sidecar == Wal || (sidecar == Shm && m.wal.None?)
    requires At(files, x) == FileDuring(before, t, m, x)
    requires var aside := if sidecar == Wal then m.wal else m.shm;
             aside.Some? ==> At(files, aside.value) == FileDuring(before, t, m, aside.value)
    ensures var aside := if sidecar == Wal then m.wal else m.shm;
            At(if aside.Some? then MovedBack(Unlinked(files, sidecar), aside.value, sidecar) else files, x)
            == FileDuring(before, t, if sidecar == Wal then m.(wal := None) else m.(shm := None), x)
  {
    var aside := if sidecar == Wal then m.wal else m.shm;
    if aside.Some? {
      MovedBackAt(files, aside.value, sidecar, x);
    }
  }

  lemma UndoneFiles(before: Disk, d: Disk, t: Temps, m: Moves, p: FilePath)
    requires Moving(before, d, t, m)
    ensures p != t.stagedDb ==> At(Undone(d, t, m).files, p) == At(before.files, p)
  {
    var files0 := if m.newDb then Unlinked(d.files, Database) else d.files;
    var files1 := if m.movedDb then MovedBack(files0, t.database, Database) else files0;
    var m1 := m.(movedDb := false, newDb := false);
    forall x | x != t.stagedDb ensures At(files1, x) == FileDuring(before, t, m1, x) {
      UndoneDatabase(before, d, t, m, x);
    }
    var files2 := if m.wal.Some? then MovedBack(Unlinked(files1, Wal), m.wal.value, Wal) else files1;
    assert NamesAreFree(before, t, m1.(wal := None));
    hide Moving, MovedBack, Unlinked, FileDuring;
    forall x | x != t.stagedDb ensures At(files2, x) == FileDuring(before, t, m1.(wal := None), x) {
      UndoneSidecar(files1, before, t, m1, Wal, x);
    }
    if p != t.stagedDb {
      UndoneSidecar(files2, before, t, m1.(wal := None), Shm, p);
      NothingMoved(before, t, m1.(wal := None, shm := None), p);
    }
  }

  lemma NothingMoved(before: Disk, t: Temps, m: Moves, p: FilePath)
    requires m.wal.None? && m.shm.None? && !m.movedDb && !m.newDb
    ensures FileDuring(before, t, m, p) == At(before.files, p)
  {
  }

  lemma SwitchUndone(before: Disk, d: Disk, t: Temps, m: Moves)
    requires Moving(before, d, t, m) && WellNamed(before)
    ensures var d' := Cleaned(Undone(d, t, m), t, m);
            SameLive(before, d') && SameRecords(before, d') && NoNewTemps(before, d') && WellNamed(d')
  {
    var u := Undone(d, t, m);
    var d' := Cleaned(u, t, m);
    forall p: FilePath
      ensures At(d'.files, p) == At(before.files, p) || (p.TempFile? && At(d'.files, p).None?)
    {
      CleanedAt(u, t, m, p, BlobRoot);
      UndoneFiles(before, d, t, m, p);
    }
    forall q: TreePath
      ensures At(d'.trees, q) == At(before.trees, q) || (q.TempTree? && At(d'.trees, q).None?)
    {
      CleanedAt(u, t, m, Database, q);
      UndoneTrees(before, d, t, m, q);
    }
    hide Cleaned, Undone;
    NoTempsLeft(before, d', t, m);
    LiveAt(before, d');
  }

  lemma LiveAt(d: Disk, d': Disk)
    requires forall p: FilePath :: !p.TempFile? ==> At(d'.files, p) == At(d.files, p)
    requires forall q: TreePath :: !q.TempTree? ==> At(d'.trees, q) == At(d.trees, q)
    ensures SameLive(d, d')
  {
    forall p: FilePath | !p.TempFile?
      ensures (p in d'.files <==> p in d.files) && (p in d.files ==> d'.files[p] == d.files[p])
    {
      assert At(d'.files, p) == At(d.files, p);
    }
    assert At(d'.trees, BlobRoot) == At(d.trees, BlobRoot);
  }

  /** `os.replace` on one kind of path. */
  function MoveKey<K(!new), V>(m: map<K, V>, source: K, target: K): (r: map<K, V>)
    requires source in m && source != target
    ensures r.Keys == m.Keys - {source} + {target}
    ensures r[target] == m[source]
    ensures forall k :: k in m && k != source && k != target ==> r[k] == m[k]
  {
    (m - {source})[target := m[source]]
  }

  lemma OneFault(failing: set<nat>, a: nat, b: nat, c: nat)
    requires a <= b <= c
    ensures |failing| <= 1 && !Sound(failing, a, b) ==> Sound(failing, b, c)
  {
    if |failing| <= 1 && !Sound(failing, a, b) && !Sound(failing, b, c) {
      var s :| s in failing && a <= s < b;
      var t :| t in failing && b <= t < c;
      SubsetSize({s, t}, failing);
    }
  }

  // ------------------------------------------------------------ whole runs

  // The version a deployment runs, with the state it runs on.
  datatype Pair = Pair(version: string, database: Bytes, blobs: Blobs)

  ghost function LivePair(d: Disk): Option<Pair> {
    if LiveExists(d) && d.version.Some? then Some(Pair(d.version.value.active, LiveRows(d).value, d.trees[BlobRoot]))
    else None
  }

  ghost function SealedPair(m: Manifest): Pair {
    Pair(m.version, m.seal.database.preimage, m.seal.blobs.preimage)
  }

  // `Serve` is the service at work between the deployments, `Damage` a snapshot
  // whose files, but not its manifest, are changed by someone else.
  datatype Event =
    | Upgrade(current: string, target: string, migrate: (Bytes, Blobs) -> Migrated, outcome: Outcome, id: nat, named: bool)
    | Rollback(snapshot: nat, target: string, outcome: Outcome, id: nat, named: bool)
    | Serve
    | Damage(id: nat, database: Bytes, blobs: Blobs)

  ghost predicate Happens(ready: (Bytes, Blobs) -> bool, d: Disk, e: Event, d': Disk) {
    match e
    case Upgrade(current, target, migrate, outcome, id, named) =>
      Upgrades(ready, d, d', current, target, migrate, outcome, id, named)
    case Rollback(snapshot, target, outcome, id, named) =>
      RollsBack(ready, d, d', snapshot, target, outcome, id, named)
    case Serve => SameRecords(d, d') && LiveExists(d')
    case Damage(id, database, blobs) =>
      && SameLive(d, d') && d'.version == d.version
      && id in d.snapshots
      && d'.snapshots == d.snapshots[id := Snapshot(database, blobs, d.snapshots[id].manifest)]
  }

  ghost predicate Run(ready: (Bytes, Blobs) -> bool, disks: seq<Disk>, events: seq<Event>) {
    && |disks| == |events| + 1
    && forall i :: 0 <= i < |events| ==> Happens(ready, disks[i], events[i], disks[i + 1])
  }

  // What is live, whatever the version file says.
  ghost function LiveContent(d: Disk): (Option<Bytes>, Option<Blobs>) {
    (LiveRows(d), LiveBlobs(d))
  }

  // The version file names the version of what is live, if it did before.
  ghost predicate NamesWhatIsLive(d: Disk, e: Event, d': Disk) {
    match e
    case Upgrade(_, target, migrate, _, _, _) =>
      || LivePair(d') == LivePair(d)
      || (LiveExists(d) && d'.version.Some? && d'.version.value.active == target
          && LiveContent(d') == LiveContent(MigratedDisk(d, migrate)))
    case Rollback(snapshot, target, _, _, _) =>
      || LivePair(d') == LivePair(d)
      || (snapshot in d.snapshots && d'.version.Some? && d'.version.value.active == target
          && LiveContent(d') == (Some(d.snapshots[snapshot].database), Some(d.snapshots[snapshot].blobs)))
    case _ => true
  }

  /**
   * Version and state change together: to the migrated state, to the sealed state, or
   * not at all. A failed unlink after the version has been named leaves the new version
   * over the earlier state; a failed recovery may leave the new state under the old
   * version. In no case do the database of one state and the blobs of another meet.
   */
  lemma SwitchIsAtomic(ready: (Bytes, Blobs) -> bool, d: Disk, e: Event, d': Disk)
    requires Happens(ready, d, e, d')
    ensures e.Upgrade? && e.outcome.Done? ==>
              var after := MigratedDisk(d, e.migrate);
              LivePair(d') == Some(Pair(e.target, LiveRows(after).value, after.trees[BlobRoot]))
    ensures e.Rollback? && e.outcome.Done? ==>
              LivePair(d') == Some(SealedPair(d.snapshots[e.snapshot].manifest)) && LivePair(d').value.version == e.target
    ensures (e.Upgrade? || e.Rollback?) && (e.outcome.Refused? || (e.outcome.Restored? && !e.named)) ==> LivePair(d') == LivePair(d)
    ensures (e.Upgrade? || e.Rollback?) && e.outcome.Restored? && e.named ==>
              LivePair(d') == Some(Pair(e.target, LiveRows(d).value, d.trees[BlobRoot]))
    ensures e.Upgrade? && e.outcome.RecoveryFailed? ==>
              && (!e.named ==> d'.version == d.version)
              && LiveContent(d') in [LiveContent(d), LiveContent(MigratedDisk(d, e.migrate))]
    ensures e.Rollback? && e.outcome.RecoveryFailed? ==>
              && (!e.named ==> d'.version == d.version)
              && LiveContent(d') in [LiveContent(d), (Some(d.snapshots[e.snapshot].database), Some(d.snapshots[e.snapshot].blobs))]
  {
    if e.Upgrade? && LiveExists(d) && SameLive(MigratedDisk(d, e.migrate), d') {
      SameLiveReads(ready, MigratedDisk(d, e.migrate), d');
    }
    if KeepsLive(d, d') {
      KeptReads(ready, d, d');
    }
  }

  /**
   * As long as recovery works, the version file is wrong exactly when the unlink has
   * failed, unless the new state is the earlier one or the new version the old one.
   */
  lemma MisnamedIffUnlinkFailed(ready: (Bytes, Blobs) -> bool, d: Disk, e: Event, d': Disk)
    requires Happens(ready, d, e, d') && (e.Upgrade? || e.Rollback?) && !e.outcome.RecoveryFailed?
    requires e.Upgrade? && !e.outcome.Refused? ==> LiveContent(MigratedDisk(d, e.migrate)) != LiveContent(d)
    requires e.Rollback? && !e.outcome.Refused? ==>
               && (Some(d.snapshots[e.snapshot].database), Some(d.snapshots[e.snapshot].blobs)) != LiveContent(d)
               && d.version.value.active != e.target
    ensures NamesWhatIsLive(d, e, d') <==> !(e.outcome.Restored? && e.named)
  {
    SwitchIsAtomic(ready, d, e, d');
    hide ValidVersion;
  }

  /** After a failed recovery the upgrade can be rolled back by hand exactly when what is live is ready. */
  lemma FailedUpgradeRollsBackIfReady(ready: (Bytes, Blobs) -> bool, d: Disk, d': Disk, current: string, target: string,
                                      migrate: (Bytes, Blobs) -> Migrated, id: nat, named: bool)
    requires Upgrades(ready, d, d', current, target, migrate, RecoveryFailed, id, named)
    ensures MayRollBack(ready, d', id, current) <==> IsReady(ready, d')
    ensures LiveIs(d', LiveRows(d).value, d.trees[BlobRoot]) ==> MayRollBack(ready, d', id, current)
  {
    SnapshotRestorable(ready, d, id, current);
  }

  /**
   * The one failing step that misnames: everything goes well but the unlink, the state
   * is restored, and the version file names the target over it.
   */
  method MisnamedUpgrade(dep: Deployment, current: string, target: string, migrate: (Bytes, Blobs) -> Migrated)
    requires WellNamed(dep.disk) && dep.failing == {dep.clock + 10}
    requires MayUpgrade(dep.ready, dep.disk, current, target) && MigrationHolds(dep.ready, dep.disk, migrate)
    modifies dep
    ensures dep.disk.version.Some? && dep.disk.version.value.active == target
    ensures LiveIs(dep.disk, LiveRows(old(dep.disk)).value, old(dep.disk).trees[BlobRoot])
  {
    ghost var start := dep.clock;
    var outcome, id, recovery, named := dep.TransactionalUpgrade(current, target, migrate);
    assert Sound(dep.failing, start, start + 10);
    assert !outcome.Done? && named && |dep.failing| == 1;
  }

  // The pair was live at some point of the run so far.
  ghost predicate WasLive(disks: seq<Disk>, upTo: nat, p: Pair) {
    exists j :: 0 <= j <= upTo && j < |disks| && LivePair(disks[j]) == Some(p)
  }

  lemma NewManifest(ready: (Bytes, Blobs) -> bool, d: Disk, e: Event, d': Disk, id: nat)
    requires Happens(ready, d, e, d') && id in d'.snapshots
    ensures id in d.snapshots ==> d'.snapshots[id].manifest == d.snapshots[id].manifest
    ensures id !in d.snapshots ==> LivePair(d) == Some(SealedPair(d'.snapshots[id].manifest))
  {
  }

  /** What a manifest seals was live, under the version it names. */
  lemma {:induction false} SealedWasLive(ready: (Bytes, Blobs) -> bool, disks: seq<Disk>, events: seq<Event>, i: nat, id: nat)
    requires Run(ready, disks, events) && disks[0].snapshots == map[]
    requires i < |disks| && id in disks[i].snapshots
    ensures WasLive(disks, i, SealedPair(disks[i].snapshots[id].manifest))
  {
    if i > 0 {
      assert Happens(ready, disks[i - 1], events[i - 1], disks[i]);
      NewManifest(ready, disks[i - 1], events[i - 1], disks[i], id);
      if id in disks[i - 1].snapshots {
        SealedWasLive(ready, disks, events, i - 1, id);
      }
    }
  }

  /** A rollback only ever goes back to a state that was live, under the version it is asked for. */
  lemma RollbackGoesBack(ready: (Bytes, Blobs) -> bool, disks: seq<Disk>, events: seq<Event>, i: nat)
    requires Run(ready, disks, events) && disks[0].snapshots == map[]
    requires i < |events| && events[i].Rollback? && events[i].outcome.Done?
    ensures LivePair(disks[i + 1]).Some? && LivePair(disks[i + 1]).value.version == events[i].target
    ensures WasLive(disks, i, LivePair(disks[i + 1]).value)
  {
    assert Happens(ready, disks[i], events[i], disks[i + 1]);
    SwitchIsAtomic(ready, disks[i], events[i], disks[i + 1]);
    SealedWasLive(ready, disks, events, i, events[i].snapshot);
  }

  lemma {:induction false} ManifestsStay(ready: (Bytes, Blobs) -> bool, disks: seq<Disk>, events: seq<Event>,
                                         i: nat, j: nat, id: nat)
    requires Run(ready, disks, events) && i <= j < |disks| && id in disks[i].snapshots
    ensures id in disks[j].snapshots && disks[j].snapshots[id].manifest == disks[i].snapshots[id].manifest
    decreases j
  {
    if i < j {
      ManifestsStay(ready, disks, events, i, j - 1, id);
      assert Happens(ready, disks[j - 1], events[j - 1], disks[j]);
      NewManifest(ready, disks[j - 1], events[j - 1], disks[j], id);
    }
  }

  /** Rolling an upgrade back, however much later, restores the version and the state from before it. */
  lemma UpgradeRolledBack(ready: (Bytes, Blobs) -> bool, disks: seq<Disk>, events: seq<Event>, i: nat, j: nat)
    requires Run(ready, disks, events) && i < j < |events|
    requires events[i].Upgrade? && events[i].outcome.Done?
    requires events[j].Rollback? && events[j].outcome.Done? && events[j].snapshot == events[i].id
    ensures LivePair(disks[j + 1]) == LivePair(disks[i]) && LivePair(disks[i]).Some?
  {
    assert Happens(ready, disks[i], events[i], disks[i + 1]);
    NewManifest(ready, disks[i], events[i], disks[i + 1], events[i].id);
    ManifestsStay(ready, disks, events, i + 1, j, events[i].id);
    assert Happens(ready, disks[j], events[j], disks[j + 1]);
    SwitchIsAtomic(ready, disks[j], events[j], disks[j + 1]);
  }

  /** A snapshot holds what SQLite reads: what is in the write-ahead log as long as there is one. */
  lemma SnapshotSeesTheLog(d: Disk, id: nat, version: string)
    requires LiveExists(d)
    ensures id in WithSnapshot(d, id, version).snapshots
    ensures var s := WithSnapshot(d, id, version).snapshots[id];
            && s.database == (if Wal in d.files then d.files[Wal] else d.files[Database]) && s.blobs == d.trees[BlobRoot]
            && s.manifest.version == version && s.manifest.seal == Seal(Sha256(s.database), TreeDigest(s.blobs))
  {
  }

  /** A version can name a file beside others: it is short, neither hidden nor a way out of its directory. */
  lemma VersionIsSafeName(v: string)
    requires ValidVersion(v)
    ensures 1 <= |v| <= 128 && v[0] != '.' && forall i :: 0 <= i < |v| ==> v[i] != '/' && v[i] != '\\' && v[i] != ' '
  {
    assert IsVersionChar(v[0]);
  }

  /**
   * The version file that an upgrade leaves names the version before it and a snapshot
   * of just the state that was live under it, and everything a rollback to it checks holds.
   */
  lemma VersionFileLeadsBack(ready: (Bytes, Blobs) -> bool, d: Disk, d': Disk, current: string, target: string,
                             migrate: (Bytes, Blobs) -> Migrated, id: nat)
    requires Upgrades(ready, d, d', current, target, migrate, Done, id, true)
    ensures d'.version.Some?
    ensures var v := d'.version.value;
            && v.active == target && v.previous.Some? && v.snapshot.Some? && v.snapshot.value in d'.snapshots
            && LivePair(d) == Some(SealedPair(d'.snapshots[v.snapshot.value].manifest)) && LivePair(d).value.version == v.previous.value
            && MayRollBack(ready, d', v.snapshot.value, v.previous.value)
  {
    RollbackIsReady(ready, d, d', current, target, migrate, id);
    hide MigratedDisk, ValidVersion, SameLive;
  }

  /** Right after an upgrade everything a rollback checks holds for the snapshot it took. */
  lemma RollbackIsReady(ready: (Bytes, Blobs) -> bool, d: Disk, d': Disk, current: string, target: string,
                        migrate: (Bytes, Blobs) -> Migrated, id: nat)
    requires Upgrades(ready, d, d', current, target, migrate, Done, id, true)
    ensures MayRollBack(ready, d', id, current)
  {
    SnapshotRestorable(ready, d, id, current);
    SameLiveReads(ready, MigratedDisk(d, migrate), d');
  }
}
