/** Every run keeps the blob directory complete, and every backup that finishes is closed. */
module BackupClosure {

  import opened BlobMachine

  lemma FreshInv()
    ensures Inv(Fresh())
  {
    hide Digest;
  }

  // ---- Pushes --------------------------------------------------------------------------------------

  lemma PushBegins(s: State, id: nat, bytes: Bytes)
    requires Inv(s) && Enabled(s, BeginPut(id, bytes))
    ensures Inv(Step(s, BeginPut(id, bytes)))
  {
    var s' := Step(s, BeginPut(id, bytes));
    hide Digest, Exact;
    assert forall push :: PushOk(s, push) ==> PushOk(s', push);
    assert PushesOk(s');
    assert BackupOk(s');
  }

  /** Looking for the final path, and verifying what is there, touch no file. */
  lemma PushLooks(s: State, id: nat, a: Action)
    requires Inv(s) && (a == Look(id) || a == VerifyExisting(id)) && Enabled(s, a)
    ensures Inv(Step(s, a))
  {
    var s' := Step(s, a);
    hide Digest, Exact;
    assert forall push :: PushOk(s, push) ==> PushOk(s', push);
    assert PushesOk(s');
    assert BackupOk(s');
  }

  lemma OpenedPushes(s: State, id: nat, tag: nat)
    requires PushesOk(s) && Enabled(s, OpenTemp(id, tag))
    ensures PushesOk(Step(s, OpenTemp(id, tag)))
  {
    hide Digest, BackupOk;
    DigestInjective();
  }

  lemma TempOpened(s: State, id: nat, tag: nat)
    requires Inv(s) && Enabled(s, OpenTemp(id, tag))
    ensures Inv(Step(s, OpenTemp(id, tag)))
  {
    hide Digest;
    var s' := Step(s, OpenTemp(id, tag));
    assert ReferencedExact(s');
    hide Exact;
    OpenedPushes(s, id, tag);
  }

  lemma WrittenPushes(s: State, id: nat, count: nat)
    requires PushesOk(s) && Enabled(s, Write(id, count))
    ensures PushesOk(Step(s, Write(id, count)))
  {
    hide Digest, BackupOk;
    DigestInjective();
  }

  lemma TempWritten(s: State, id: nat, count: nat)
    requires Inv(s) && Enabled(s, Write(id, count))
    ensures Inv(Step(s, Write(id, count)))
  {
    hide Digest;
    var s' := Step(s, Write(id, count));
    assert ReferencedExact(s');
    hide Exact;
    WrittenPushes(s, id, count);
  }

  lemma RenamedPushes(s: State, id: nat)
    requires PushesOk(s) && Enabled(s, Rename(id))
    ensures PushesOk(Step(s, Rename(id)))
  {
    hide Digest, BackupOk;
    DigestInjective();
  }

  /** Publishing by rename: the temporary file was written to the end, so the name is the digest of its bytes. */
  lemma TempRenamed(s: State, id: nat)
    requires Inv(s) && Enabled(s, Rename(id))
    ensures Inv(Step(s, Rename(id)))
  {
    hide Digest;
    var s' := Step(s, Rename(id));
    assert s.files[Temp(Digest(s.pushes[id].bytes), s.pushes[id].tag)] == s.pushes[id].bytes;
    assert ReferencedExact(s');
    hide Exact;
    RenamedPushes(s, id);
  }

  lemma FailedPushes(s: State, id: nat)
    requires PushesOk(s) && Enabled(s, Fail(id))
    ensures PushesOk(Step(s, Fail(id)))
  {
    hide Digest, BackupOk;
    DigestInjective();
  }

  lemma PushFails(s: State, id: nat)
    requires Inv(s) && Enabled(s, Fail(id))
    ensures Inv(Step(s, Fail(id)))
  {
    hide Digest;
    var s' := Step(s, Fail(id));
    assert ReferencedExact(s');
    hide Exact;
    FailedPushes(s, id);
  }

  lemma PushCommits(s: State, id: nat)
    requires Inv(s) && Enabled(s, CommitPush(id))
    ensures Inv(Step(s, CommitPush(id)))
  {
    hide Digest;
    var s' := Step(s, CommitPush(id));
    assert PushOk(s, s.pushes[id]);
    assert ReferencedExact(s');
    hide Exact;
    assert PushesOk(s');
    assert BackupOk(s');
  }

  // ---- The server process and its sweep ---------------------------------------------------------------

  lemma ServerMoves(s: State, a: Action)
    requires Inv(s) && Enabled(s, a) && (a.Crash? || a.Boot? || a.SweepShard?)
    ensures Inv(Step(s, a))
  {
    var s' := Step(s, a);
    hide Digest, Exact;
    assert PushesOk(s');
    assert BackupOk(s');
  }

  /** When the sweep is through, only referenced blobs are left, and those are exact. */
  lemma ServerListens(s: State)
    requires Inv(s) && Enabled(s, Listen)
    ensures Inv(Step(s, Listen))
  {
    hide Digest;
    assert forall h :: Final(h) in s.files ==> h in s.refs;
    assert Exact(s.files);
    hide Exact;
    assert BackupOk(Step(s, Listen));
  }

  /** The sweep removes nothing any revision references, and no push is waiting to commit. */
  lemma SweepRemoves(s: State, hash: Hash)
    requires Inv(s) && Enabled(s, SweepBlob(hash))
    ensures Inv(Step(s, SweepBlob(hash)))
  {
    hide Digest;
    var s' := Step(s, SweepBlob(hash));
    assert ReferencedExact(s');
    hide Exact;
    assert PushesOk(s');
    assert BackupOk(s');
  }

  // ---- The backup ---------------------------------------------------------------------------------------

  /** A backup step changes nothing but the backup. */
  lemma OnlyBackupMoved(s: State, s': State)
    requires Inv(s) && s' == s.(backup := s'.backup) && BackupOk(s')
    ensures Inv(s')
  {
    hide Digest, Exact, BackupOk;
    assert forall push :: PushOk(s, push) ==> PushOk(s', push);
  }

  lemma BackupLists(s: State, a: Action)
    requires Inv(s) && Enabled(s, a)
    requires a.Snapshot? || a.ListRoot? || a.ListShard? || a.ListDone? || a.Finish? || a.Abort?
    ensures Inv(Step(s, a))
  {
    hide Digest, Exact, PushesOk, ServerOk;
    assert BackupOk(Step(s, a));
    hide Inv, BackupOk;
    OnlyBackupMoved(s, Step(s, a));
  }

  lemma CopyKeepsExact(artifact: Artifact, path: Path, bytes: Bytes)
    requires ArtifactExact(artifact)
    ensures ArtifactExact(Copied(artifact, path, bytes))
  {
    hide Digest;
    DigestInjective();
    var h := Digest(bytes);
    assert h in artifact.blobs ==> artifact.blobs[h] == bytes;
  }

  lemma BackupCopies(s: State, path: Path)
    requires Inv(s) && Enabled(s, Copy(path))
    ensures Inv(Step(s, Copy(path)))
  {
    hide Digest;
    var s' := Step(s, Copy(path));
    if path in s.files {
      CopyKeepsExact(s.backup.artifact, path, s.files[path]);
      assert path.Final? && path.hash in s.refs ==> Digest(s.files[path]) == path.hash;
    }
    hide ArtifactExact, Exact, PushesOk, ServerOk;
    assert BackupOk(s');
    hide Inv, BackupOk;
    OnlyBackupMoved(s, s');
  }

  lemma StepKeepsInv(s: State, a: Action)
    requires Inv(s) && Enabled(s, a)
    ensures Inv(Step(s, a))
  {
    hide Digest, Inv, Step;
    match a
    case BeginPut(id, bytes) => PushBegins(s, id, bytes);
    case Look(id) => PushLooks(s, id, a);
    case VerifyExisting(id) => PushLooks(s, id, a);
    case OpenTemp(id, tag) => TempOpened(s, id, tag);
    case Write(id, count) => TempWritten(s, id, count);
    case Rename(id) => TempRenamed(s, id);
    case Fail(id) => PushFails(s, id);
    case CommitPush(id) => PushCommits(s, id);
    case SweepBlob(hash) => SweepRemoves(s, hash);
    case Copy(path) => BackupCopies(s, path);
    case Crash(_) => ServerMoves(s, a);
    case Boot => ServerMoves(s, a);
    case SweepShard(_) => ServerMoves(s, a);
    case Listen => ServerListens(s);
    case _ => BackupLists(s, a);
  }

  // ---- Runs -------------------------------------------------------------------------------------------------

  predicate Runnable(s: State, run: seq<Action>)
    decreases |run|
  {
    run == [] || (Enabled(s, run[0]) && Runnable(Step(s, run[0]), run[1..]))
  }

  function After(s: State, run: seq<Action>): State
    requires Runnable(s, run)
    decreases |run|
  {
    if run == [] then s else After(Step(s, run[0]), run[1..])
  }

  lemma {:induction false} RunKeepsInv(s: State, run: seq<Action>)
    requires Inv(s) && Runnable(s, run)
    ensures Inv(After(s, run))
    decreases |run|
  {
    hide Digest, Inv, Step;
    if run != [] {
      StepKeepsInv(s, run[0]);
      RunKeepsInv(Step(s, run[0]), run[1..]);
    }
  }

  /** In every run, crashes and sweeps included, every committed revision keeps its exact blob. */
  lemma CommittedBlobsSurvive(run: seq<Action>, h: Hash)
    requires Runnable(Fresh(), run) && h in After(Fresh(), run).refs
    ensures var files := After(Fresh(), run).files;
            Final(h) in files && Digest(files[Final(h)]) == h
  {
    hide Digest;
    FreshInv();
    RunKeepsInv(Fresh(), run);
  }

  /** In every run, when the server starts to listen the published blobs are exactly the referenced ones. */
  lemma SweepIsExact(run: seq<Action>, h: Hash)
    requires Runnable(Fresh(), run) && Enabled(After(Fresh(), run), Listen)
    ensures Final(h) in After(Fresh(), run).files <==> h in After(Fresh(), run).refs
  {
    hide Digest;
    FreshInv();
    RunKeepsInv(Fresh(), run);
  }

  /** In every run, a backup that finishes while pushes, crashes and sweeps go on is closed. */
  lemma FinishedBackupIsClosed(run: seq<Action>)
    requires Runnable(Fresh(), run) && After(Fresh(), run).backup.Done?
    ensures Closed(After(Fresh(), run).backup.artifact)
  {
    hide Digest;
    FreshInv();
    RunKeepsInv(Fresh(), run);
  }
}
