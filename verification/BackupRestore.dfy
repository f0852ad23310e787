/** Restoring a backup, and retention that never forgets before it has verified. */
module BackupRestore {

  import opened Options
  import opened BlobMachine
  import opened BackupClosure

  datatype RestoreError =
    | InstanceStateMissing | IntegrityCheckFailed | ManifestInvalid | ManifestMismatch
    | MissingBackupArtifact | TargetNotEmpty | VerifyFailed
    | DriverError

  datatype Epoch = Epoch(instanceId: string, serverEpoch: string, restoreEpoch: nat)

  /** A database file: what it references, its instance row, and what `integrity_check` answers if it answers. */
  datatype Database = Database(refs: set<Hash>, epoch: Option<Epoch>, report: Option<string>, size: nat)

  datatype ManifestFile = NoManifest | BadManifest | Parsed(blobs: seq<Entry>, databaseSize: Option<nat>)

  /** A backup directory as it is found, whatever happened to it since it was written. */
  datatype BackupDir = BackupDir(manifest: ManifestFile, database: Option<Database>, blobs: map<Hash, Bytes>)

  // ---- Verifying -------------------------------------------------------------------------------------

  /** The manifest entry's file is there, hashes to its name and has the recorded size. */
  predicate EntryHolds(blobs: map<Hash, Bytes>, e: Entry) {
    e.hash in blobs && Digest(blobs[e.hash]) == e.hash && |blobs[e.hash]| == e.size
  }

  /** Passes exactly if every manifest entry holds. */
  method VerifyManifestBlobs(blobs: map<Hash, Bytes>, manifest: seq<Entry>) returns (error: Option<RestoreError>)
    ensures error.None? <==> forall e :: e in manifest ==> EntryHolds(blobs, e)
    ensures error.Some? ==> error.value == ManifestMismatch
  {
    hide Digest;
    for i := 0 to |manifest|
      invariant forall j :: 0 <= j < i ==> EntryHolds(blobs, manifest[j])
    {
      var entry := manifest[i];
      if entry.hash !in blobs {
        assert !EntryHolds(blobs, entry);
        return Some(ManifestMismatch);
      }
      var bytes := blobs[entry.hash];
      if Digest(bytes) != entry.hash || |bytes| != entry.size {
        assert !EntryHolds(blobs, entry);
        return Some(ManifestMismatch);
      }
    }
    return None;
  }

  predicate EntriesHold(dir: BackupDir) {
    dir.manifest.Parsed? && forall e :: e in dir.manifest.blobs ==> EntryHolds(dir.blobs, e)
  }

  // ---- Restoring -------------------------------------------------------------------------------------

  /** Everything a restore demands of the backup directory. */
  predicate Restorable(dir: BackupDir) {
    && EntriesHold(dir) && dir.database.Some?
    && dir.database.value.report == Some("ok") && dir.database.value.epoch.Some?
  }

  /** A started instance: its rotated epoch and the data directory it runs on. */
  datatype Instance = Instance(epoch: Epoch, refs: set<Hash>, blobs: map<Hash, Bytes>)

  datatype RestoreResult = Started(instance: Instance) | Refused(error: RestoreError)

  /**
   * Starts the instance exactly if the target is empty and the backup passes every gate. Then the epoch is new,
   * the restore epoch one higher, and the data the backup's own.
   */
  method RestoreInstance(dir: BackupDir, targetEmpty: bool, freshEpoch: string) returns (r: RestoreResult)
    ensures r.Started? <==> targetEmpty && Restorable(dir)
    ensures r.Started? ==>
              var database := dir.database.value;
              && r.instance.refs == database.refs && r.instance.blobs == dir.blobs
              && r.instance.epoch == Epoch(database.epoch.value.instanceId, freshEpoch,
                                           database.epoch.value.restoreEpoch + 1)
    ensures !targetEmpty ==> r == Refused(TargetNotEmpty)
    ensures targetEmpty && dir.manifest.NoManifest? ==> r == Refused(MissingBackupArtifact)
    ensures targetEmpty && dir.manifest.BadManifest? ==> r == Refused(ManifestInvalid)
    ensures targetEmpty && dir.manifest.Parsed? && dir.database.None? ==> r == Refused(MissingBackupArtifact)
    ensures targetEmpty && dir.manifest.Parsed? && dir.database.Some? && !Restorable(dir) ==>
              r == Refused(match dir.database.value.report
                           case None => DriverError
                           case Some(report) =>
                             if report != "ok" then IntegrityCheckFailed
                             else if !EntriesHold(dir) then ManifestMismatch else InstanceStateMissing)
  {
    if !targetEmpty {
      return Refused(TargetNotEmpty);
    }
    match dir.manifest {
      case NoManifest => return Refused(MissingBackupArtifact);
      case BadManifest => return Refused(ManifestInvalid);
      case Parsed(_, _) =>
    }
    if dir.database.None? {
      return Refused(MissingBackupArtifact);
    }
    var database := dir.database.value;
    if database.report.None? {
      return Refused(DriverError);
    }
    if database.report.value != "ok" {
      return Refused(IntegrityCheckFailed);
    }
    var error := VerifyManifestBlobs(dir.blobs, dir.manifest.blobs);
    if error.Some? {
      return Refused(error.value);
    }
    if database.epoch.None? {
      return Refused(InstanceStateMissing);
    }
    var was := database.epoch.value;
    return Started(Instance(Epoch(was.instanceId, freshEpoch, was.restoreEpoch + 1), database.refs, dir.blobs));
  }

  /** Every reference of the database has its exact blob. */
  ghost predicate BlobExact(refs: set<Hash>, blobs: map<Hash, Bytes>) {
    forall h :: h in refs ==> h in blobs && Digest(blobs[h]) == h
  }

  /** The directory a finished backup leaves, with the blobs that are found in it later. */
  function DirOf(a: Artifact, found: map<Hash, Bytes>, epoch: Epoch, size: nat): BackupDir {
    BackupDir(Parsed(a.manifest, Some(size)), Some(Database(a.snapshot, Some(epoch), Some("ok"), size)), found)
  }

  lemma ClosedRestores(a: Artifact)
    requires Closed(a)
    ensures forall e :: e in a.manifest ==> EntryHolds(a.blobs, e)
  {
    hide Digest;
  }

  lemma PassedRestoreIsExact(a: Artifact, found: map<Hash, Bytes>)
    requires Closed(a) && forall e :: e in a.manifest ==> EntryHolds(found, e)
    ensures BlobExact(a.snapshot, found) && forall h :: h in a.snapshot ==> h in a.blobs && found[h] == a.blobs[h]
  {
    hide Digest;
    DigestInjective();
    forall h | h in a.snapshot ensures h in found && Digest(found[h]) == h && found[h] == a.blobs[h] {
      assert EntryHolds(found, Entry(h, |a.blobs[h]|));
    }
  }

  /**
   * Over every run: a finished backup left alone restores; and if blobs were damaged, lost or added after it
   * finished, a restore that still reaches the epoch's rotation has every revision's exact blob, the one the
   * backup copied.
   */
  lemma FinishedBackupRestores(run: seq<Action>, found: map<Hash, Bytes>, epoch: Epoch, size: nat)
    requires Runnable(Fresh(), run) && After(Fresh(), run).backup.Done?
    ensures var a := After(Fresh(), run).backup.artifact;
            && Restorable(DirOf(a, a.blobs, epoch, size))
            && (Restorable(DirOf(a, found, epoch, size)) ==>
                  && BlobExact(a.snapshot, found)
                  && forall h :: h in a.snapshot ==> h in a.blobs && found[h] == a.blobs[h])
  {
    hide Digest, Closed, EntryHolds;
    FinishedBackupIsClosed(run);
    var a := After(Fresh(), run).backup.artifact;
    ClosedRestores(a);
    if Restorable(DirOf(a, found, epoch, size)) {
      PassedRestoreIsExact(a, found);
    }
  }

  /** The data directory of a restored instance before its first start. */
  function Restored(refs: set<Hash>, blobs: map<Hash, Bytes>): State {
    State(map p | p in set h | h in blobs :: Final(h) :: blobs[p.hash], set h | h in blobs :: h.shard, refs,
          Down, map[], NoBackup)
  }

  lemma RestoredInv(refs: set<Hash>, blobs: map<Hash, Bytes>)
    requires BlobExact(refs, blobs)
    ensures Inv(Restored(refs, blobs))
  {
    hide Digest;
  }

  /** What a running instance owes for every hash and for its backups. */
  ghost predicate Keeps(s: State, h: Hash) {
    && (h in s.refs ==> Final(h) in s.files && Digest(s.files[Final(h)]) == h)
    && (Enabled(s, Listen) ==> (Final(h) in s.files <==> h in s.refs))
    && (s.server.Up? && Final(h) in s.files ==> Digest(s.files[Final(h)]) == h)
    && (s.backup.Done? ==> Closed(s.backup.artifact))
  }

  /**
   * An instance restored from a finished backup of any run, with whatever blobs passed the gates, keeps every
   * promise in its own runs: committed blobs stay exact, an unreferenced leftover is gone before the server
   * listens, and its finished backups are closed again.
   */
  lemma RestoredRuns(run: seq<Action>, found: map<Hash, Bytes>, epoch: Epoch, size: nat, more: seq<Action>, h: Hash)
    requires Runnable(Fresh(), run) && After(Fresh(), run).backup.Done?
    requires Restorable(DirOf(After(Fresh(), run).backup.artifact, found, epoch, size))
    requires Runnable(Restored(After(Fresh(), run).backup.artifact.snapshot, found), more)
    ensures Keeps(After(Restored(After(Fresh(), run).backup.artifact.snapshot, found), more), h)
  {
    hide Digest, Inv, Closed, Keeps, Restored, BlobExact;
    FinishedBackupRestores(run, found, epoch, size);
    var start := Restored(After(Fresh(), run).backup.artifact.snapshot, found);
    RestoredInv(After(Fresh(), run).backup.artifact.snapshot, found);
    RunKeepsInv(start, more);
    InvKeeps(After(start, more), h);
  }

  lemma InvKeeps(s: State, h: Hash)
    requires Inv(s)
    ensures Keeps(s, h)
  {
    hide Digest, PushesOk;
  }

  // ---- Retention ------------------------------------------------------------------------------------

  /** The read-only check of one artifact. */
  predicate StructureHolds(dir: BackupDir) {
    && EntriesHold(dir) && dir.database.Some?
    && var database := dir.database.value;
      && database.size != 0 && database.report == Some("ok")
      && (dir.manifest.databaseSize.Some? ==> dir.manifest.databaseSize.value == database.size)
  }

  method VerifyBackupStructure(dir: BackupDir) returns (error: Option<RestoreError>)
    ensures error.None? <==> StructureHolds(dir)
    ensures dir.manifest.NoManifest? ==> error == Some(MissingBackupArtifact)
    ensures dir.manifest.BadManifest? ==> error == Some(ManifestInvalid)
    ensures dir.manifest.Parsed? && dir.database.None? ==> error == Some(MissingBackupArtifact)
    ensures dir.manifest.Parsed? && dir.database.Some? && !StructureHolds(dir) ==>
              var database, declared := dir.database.value, dir.manifest.databaseSize;
              error == Some(if database.size == 0 then VerifyFailed
                            else if declared.Some? && declared.value != database.size then VerifyFailed
                            else if database.report != Some("ok") then IntegrityCheckFailed
                            else ManifestMismatch)
  {
    match dir.manifest {
      case NoManifest => return Some(MissingBackupArtifact);
      case BadManifest => return Some(ManifestInvalid);
      case Parsed(_, _) =>
    }
    if dir.database.None? {
      return Some(MissingBackupArtifact);
    }
    var database := dir.database.value;
    if database.size == 0 {
      return Some(VerifyFailed);
    }
    var declared := dir.manifest.databaseSize;
    if declared.Some? && declared.value != database.size {
      return Some(VerifyFailed);
    }
    if database.report != Some("ok") {
      return Some(IntegrityCheckFailed);
    }
    error := VerifyManifestBlobs(dir.blobs, dir.manifest.blobs);
  }

  /**
   * Keeps the `keep` newest of the listed artifacts, newest first. Something is removed exactly if there are
   * more and every one that stays was verified; otherwise all stay.
   */
  method PruneBackups(all: seq<BackupDir>, keep: int) returns (left: seq<BackupDir>, error: Option<RestoreError>)
    ensures error.Some? <==> keep < 1 || (keep < |all| && exists i :: 0 <= i < keep && !StructureHolds(all[i]))
    ensures left != all ==>
              1 <= keep < |all| && left == all[..keep] && forall dir :: dir in left ==> StructureHolds(dir)
    ensures error.None? ==> left == if |all| <= keep then all else all[..keep]
    ensures error.Some? ==> left == all
  {
    left, error := all, None;
    if keep < 1 {
      return all, Some(VerifyFailed);
    }
    if |all| <= keep {
      return;
    }
    for i := 0 to keep
      invariant error.None? && left == all
      invariant forall j :: 0 <= j < i ==> StructureHolds(all[j])
    {
      error := VerifyBackupStructure(all[i]);
      if error.Some? {
        return;
      }
    }
    for next := keep to |all|
      invariant left == all[..keep] + all[next..]
    {
      left := all[..keep] + all[next + 1..];
    }
  }
}
