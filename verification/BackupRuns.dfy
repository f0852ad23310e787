/** What a backup is worth over time, and that boots, pushes and backups left alone run to their end. */
module BackupRuns {

  import opened Options
  import opened BlobMachine
  import opened BackupClosure
  import opened BackupRestore

  // ---- What was committed before a backup is in it -------------------------------------------------------

  lemma StepKeepsRefs(s: State, a: Action)
    requires Enabled(s, a)
    ensures s.refs <= Step(s, a).refs
  {
    hide Digest;
  }

  lemma {:induction false} RefsGrow(s: State, run: seq<Action>)
    requires Runnable(s, run)
    ensures s.refs <= After(s, run).refs
    decreases |run|
  {
    hide Step, Enabled;
    if run != [] {
      StepKeepsRefs(s, run[0]);
      RefsGrow(Step(s, run[0]), run[1..]);
    }
  }

  /** The references of the database a backup copied, once it did. */
  function SnapshotOf(b: Backup): Option<set<Hash>> {
    match b
    case NoBackup => None
    case Rooting(snapshot) => Some(snapshot)
    case Listing(snapshot, _, _) => Some(snapshot)
    case Copying(artifact, _) => Some(artifact.snapshot)
    case Done(artifact) => Some(artifact.snapshot)
  }

  lemma StepKeepsSnapshot(s: State, a: Action)
    requires Enabled(s, a) && !a.Snapshot?
    ensures SnapshotOf(Step(s, a).backup).None? || SnapshotOf(Step(s, a).backup) == SnapshotOf(s.backup)
  {
    hide Digest;
  }

  lemma {:induction false} SnapshotCarried(s: State, run: seq<Action>)
    requires Runnable(s, run) && Snapshot !in run
    ensures SnapshotOf(After(s, run).backup).None? || SnapshotOf(After(s, run).backup) == SnapshotOf(s.backup)
    decreases |run|
  {
    hide Step, Enabled, SnapshotOf;
    if run != [] {
      StepKeepsSnapshot(s, run[0]);
      SnapshotCarried(Step(s, run[0]), run[1..]);
      NoBackupStays(Step(s, run[0]), run[1..]);
    }
  }

  lemma StepStartsNoBackup(s: State, a: Action)
    requires Enabled(s, a) && !a.Snapshot? && SnapshotOf(s.backup).None?
    ensures SnapshotOf(Step(s, a).backup).None?
  {
    hide Digest;
  }

  /** Only a snapshot starts a backup. */
  lemma {:induction false} NoBackupStays(s: State, run: seq<Action>)
    requires Runnable(s, run) && Snapshot !in run
    ensures SnapshotOf(s.backup).None? ==> SnapshotOf(After(s, run).backup).None?
    decreases |run|
  {
    hide Step, Enabled, SnapshotOf;
    if run != [] && SnapshotOf(s.backup).None? {
      StepStartsNoBackup(s, run[0]);
      NoBackupStays(Step(s, run[0]), run[1..]);
    }
  }

  /** The artifact has this blob: referenced by its database, copied byte for byte. */
  ghost predicate Carries(a: Artifact, bytes: Bytes) {
    Digest(bytes) in a.snapshot && Digest(bytes) in a.blobs && a.blobs[Digest(bytes)] == bytes
  }

  /**
   * A push commits `bytes`; anything happens; a backup takes its snapshot; anything happens but another snapshot;
   * the backup is done. Then it carries `bytes`, and so does every directory of it that a restore lets through.
   */
  lemma CommittedIsBackedUp(before: seq<Action>, id: nat, middle: seq<Action>, rest: seq<Action>,
                            found: map<Hash, Bytes>)
    requires Runnable(Fresh(), before) && Enabled(After(Fresh(), before), CommitPush(id))
    requires Runnable(Step(After(Fresh(), before), CommitPush(id)), middle)
    requires Enabled(After(Step(After(Fresh(), before), CommitPush(id)), middle), Snapshot)
    requires Runnable(Step(After(Step(After(Fresh(), before), CommitPush(id)), middle), Snapshot), rest)
    requires Snapshot !in rest
    ensures var bytes := After(Fresh(), before).pushes[id].bytes;
            var end := After(Step(After(Step(After(Fresh(), before), CommitPush(id)), middle), Snapshot), rest);
            end.backup.Done? ==>
              && Carries(end.backup.artifact, bytes)
              && ((forall e :: e in end.backup.artifact.manifest ==> EntryHolds(found, e)) ==>
                    Digest(bytes) in found && found[Digest(bytes)] == bytes)
  {
    hide Digest, Inv;
    var s0 := After(Fresh(), before);
    var bytes := s0.pushes[id].bytes;
    var s1 := Step(s0, CommitPush(id));
    var s2 := After(s1, middle);
    var s3 := Step(s2, Snapshot);
    var s4 := After(s3, rest);
    FreshInv();
    RunKeepsInv(Fresh(), before);
    StepKeepsInv(s0, CommitPush(id));
    RunKeepsInv(s1, middle);
    StepKeepsInv(s2, Snapshot);
    RunKeepsInv(s3, rest);
    RefsGrow(s1, middle);
    SnapshotCarried(s3, rest);
    assert Digest(bytes) in s1.refs && SnapshotOf(s3.backup) == Some(s2.refs);
    hide Runnable, After, Step;
    if s4.backup.Done? {
      assert SnapshotOf(s4.backup) == Some(s2.refs);
      DoneCarries(s4, bytes, found);
    }
  }

  lemma DoneCarries(s: State, bytes: Bytes, found: map<Hash, Bytes>)
    requires Inv(s) && s.backup.Done? && Digest(bytes) in s.backup.artifact.snapshot
    ensures Carries(s.backup.artifact, bytes)
    ensures (forall e :: e in s.backup.artifact.manifest ==> EntryHolds(found, e)) ==>
              Digest(bytes) in found && found[Digest(bytes)] == bytes
  {
    hide Digest, EntryHolds;
    DigestInjective();
    var a := s.backup.artifact;
    assert Closed(a);
    if forall e :: e in a.manifest ==> EntryHolds(found, e) {
      PassedRestoreIsExact(a, found);
    }
  }

  /** A push holds the bytes it began with for as long as it lasts. */
  lemma PushKeepsBytes(s: State, a: Action, id: nat)
    requires Enabled(s, a)
    ensures a.BeginPut? && a.id == id ==> id in Step(s, a).pushes && Step(s, a).pushes[id].bytes == a.bytes
    ensures id in s.pushes && id in Step(s, a).pushes ==> Step(s, a).pushes[id].bytes == s.pushes[id].bytes
  {
    hide Digest;
  }

  // ---- No temporary file is left over ---------------------------------------------------------------------------

  /** The push is writing this temporary file. */
  predicate Owns(push: Push, p: Path) {
    push.Writing? && p == Temp(Digest(push.bytes), push.tag)
  }

  ghost predicate TempsOwned(s: State) {
    forall p :: p in s.files && p.Temp? ==> exists id :: id in s.pushes && Owns(s.pushes[id], p)
  }

  lemma StepKeepsOwned(s: State, a: Action)
    requires TempsOwned(s) && Enabled(s, a) && !a.Crash?
    ensures TempsOwned(Step(s, a))
  {
    hide Digest;
    var s' := Step(s, a);
    forall p | p in s'.files && p.Temp? ensures exists id :: id in s'.pushes && Owns(s'.pushes[id], p) {
      if a.OpenTemp? && p == Temp(Digest(s.pushes[a.id].bytes), a.tag) {
        assert Owns(s'.pushes[a.id], p);
      } else {
        assert p in s.files || a.Write?;
        if p in s.files {
          var id :| id in s.pushes && Owns(s.pushes[id], p);
          assert id in s'.pushes && Owns(s'.pushes[id], p);
        } else {
          assert Owns(s'.pushes[a.id], p);
        }
      }
    }
  }

  /** Short of a crash, a temporary file lasts no longer than the push that writes it, however that one ends. */
  lemma {:induction false} NoLeftovers(s: State, run: seq<Action>)
    requires TempsOwned(s) && Runnable(s, run) && forall a :: a in run ==> !a.Crash?
    ensures TempsOwned(After(s, run))
    decreases |run|
  {
    hide TempsOwned, Step, Enabled;
    if run != [] {
      StepKeepsOwned(s, run[0]);
      NoLeftovers(Step(s, run[0]), run[1..]);
    }
  }

  // ---- Left alone, everything runs to its end -----------------------------------------------------------------

  /** The run leads from one state to the other. */
  ghost predicate Leads(s: State, run: seq<Action>, t: State) {
    Runnable(s, run) && After(s, run) == t
  }

  lemma Here(s: State)
    ensures Leads(s, [], s)
  {
  }

  lemma Then(s: State, a: Action, run: seq<Action>, t: State)
    requires Enabled(s, a) && Leads(Step(s, a), run, t)
    ensures Leads(s, [a] + run, t)
  {
    assert ([a] + run)[1..] == run;
  }

  /** A push that nothing disturbs: its bytes are published and referenced. */
  lemma PushCompletes(s: State, id: nat, bytes: Bytes) returns (run: seq<Action>, t: State)
    requires Inv(s) && s.server.Up? && id !in s.pushes
    ensures Leads(s, run, t) && Digest(bytes) in t.refs
    ensures Final(Digest(bytes)) in t.files && t.files[Final(Digest(bytes))] == bytes
  {
    hide Digest, Leads;
    var s1 := Step(s, BeginPut(id, bytes));
    StepKeepsInv(s, BeginPut(id, bytes));
    var s2 := Step(s1, Look(id));
    StepKeepsInv(s1, Look(id));
    if s2.pushes[id].Found? {
      assert Final(Digest(bytes)) in s2.files && Exact(s2.files);
      run, t := FoundCompletes(s2, id, bytes);
    } else {
      run, t := AbsentCompletes(s2, id, bytes);
    }
    Then(s1, Look(id), run, t);
    Then(s, BeginPut(id, bytes), [Look(id)] + run, t);
    run := [BeginPut(id, bytes)] + ([Look(id)] + run);
  }

  lemma FoundCompletes(s: State, id: nat, bytes: Bytes) returns (run: seq<Action>, t: State)
    requires Exact(s.files) && id in s.pushes && s.pushes[id] == Found(bytes) && Final(Digest(bytes)) in s.files
    ensures Leads(s, run, t) && Digest(bytes) in t.refs
    ensures Final(Digest(bytes)) in t.files && t.files[Final(Digest(bytes))] == bytes
  {
    hide Digest, Leads;
    DigestInjective();
    var s1 := Step(s, VerifyExisting(id));
    t := Step(s1, CommitPush(id));
    Here(t);
    Then(s1, CommitPush(id), [], t);
    run := [CommitPush(id)] + [];
    Then(s, VerifyExisting(id), run, t);
    run := [VerifyExisting(id)] + run;
  }

  lemma AbsentCompletes(s: State, id: nat, bytes: Bytes) returns (run: seq<Action>, t: State)
    requires id in s.pushes && s.pushes[id] == Absent(bytes)
    ensures Leads(s, run, t) && Digest(bytes) in t.refs
    ensures Final(Digest(bytes)) in t.files && t.files[Final(Digest(bytes))] == bytes
  {
    hide Digest, Leads;
    var tag := FreshTag(s.files.Keys, Digest(bytes));
    var s1 := Step(s, OpenTemp(id, tag));
    var s2 := Step(s1, Write(id, |bytes|));
    assert bytes[..|bytes|] == bytes;
    var s3 := Step(s2, Rename(id));
    t := Step(s3, CommitPush(id));
    Here(t);
    Then(s3, CommitPush(id), [], t);
    run := [CommitPush(id)] + [];
    Then(s2, Rename(id), run, t);
    run := [Rename(id)] + run;
    Then(s1, Write(id, |bytes|), run, t);
    run := [Write(id, |bytes|)] + run;
    Then(s, OpenTemp(id, tag), run, t);
    run := [OpenTemp(id, tag)] + run;
  }

  /** Some temporary name is always free. */
  lemma {:induction false} FreshTag(paths: set<Path>, hash: Hash) returns (tag: nat)
    ensures forall n :: tag <= n ==> Temp(hash, n) !in paths
    decreases |paths|
  {
    tag := 0;
    if p :| p in paths {
      tag := FreshTag(paths - {p}, hash);
      if p.Temp? && p.tag >= tag {
        tag := p.tag + 1;
      }
      forall n | tag <= n ensures Temp(hash, n) !in paths {
        assert Temp(hash, n) in paths ==> Temp(hash, n) in paths - {p};
      }
    }
  }

  /** A start that nothing disturbs: the server sweeps and comes up. */
  lemma BootCompletes(s: State) returns (run: seq<Action>, t: State)
    requires s.server.Down?
    ensures Leads(s, run, t) && t.server.Up? && t.refs == s.refs
  {
    hide Leads;
    var s1 := Step(s, Boot);
    run, t := SweepCompletes(s1);
    Then(s, Boot, run, t);
    run := [Boot] + run;
  }

  lemma {:induction false} SweepCompletes(s: State) returns (run: seq<Action>, t: State)
    requires s.server.Sweeping?
    ensures Leads(s, run, t) && t.server.Up? && t.refs == s.refs
    decreases |s.server.shards|, |s.server.hashes|
  {
    hide Leads;
    if shard :| shard in s.server.shards {
      run, t := SweepCompletes(Step(s, SweepShard(shard)));
      Then(s, SweepShard(shard), run, t);
      run := [SweepShard(shard)] + run;
    } else if hash :| hash in s.server.hashes {
      assert s.server.shards == {};
      run, t := SweepCompletes(Step(s, SweepBlob(hash)));
      Then(s, SweepBlob(hash), run, t);
      run := [SweepBlob(hash)] + run;
    } else {
      assert s.server.shards == {} && s.server.hashes == {};
      t := Step(s, Listen);
      Here(t);
      Then(s, Listen, [], t);
      run := [Listen] + [];
    }
  }

  /** A backup that nothing disturbs: it finishes with the snapshot it took, and touches nothing else. */
  lemma BackupCompletes(s: State) returns (run: seq<Action>, t: State)
    requires s.backup.Rooting?
    ensures Leads(s, run, t) && t == s.(backup := t.backup)
    ensures t.backup.Done? && t.backup.artifact.snapshot == s.backup.snapshot
  {
    hide Leads;
    var s1 := Step(s, ListRoot);
    run, t := ListingCompletes(s1);
    Then(s, ListRoot, run, t);
    run := [ListRoot] + run;
  }

  lemma {:induction false} ListingCompletes(s: State) returns (run: seq<Action>, t: State)
    requires s.backup.Listing? && s.backup.names <= s.files.Keys
    ensures Leads(s, run, t) && t == s.(backup := t.backup)
    ensures t.backup.Done? && t.backup.artifact.snapshot == s.backup.snapshot
    decreases |s.backup.shards|
  {
    hide Leads;
    if shard :| shard in s.backup.shards {
      run, t := ListingCompletes(Step(s, ListShard(shard)));
      Then(s, ListShard(shard), run, t);
      run := [ListShard(shard)] + run;
    } else {
      assert s.backup.shards == {};
      run, t := CopyingCompletes(Step(s, ListDone));
      Then(s, ListDone, run, t);
      run := [ListDone] + run;
    }
  }

  lemma {:induction false} CopyingCompletes(s: State) returns (run: seq<Action>, t: State)
    requires s.backup.Copying? && s.backup.names <= s.files.Keys
    ensures Leads(s, run, t) && t == s.(backup := t.backup)
    ensures t.backup.Done? && t.backup.artifact.snapshot == s.backup.artifact.snapshot
    decreases |s.backup.names|
  {
    hide Leads, Digest;
    if path :| path in s.backup.names {
      run, t := CopyingCompletes(Step(s, Copy(path)));
      Then(s, Copy(path), run, t);
      run := [Copy(path)] + run;
    } else {
      assert s.backup.names == {};
      t := Step(s, Finish);
      Here(t);
      Then(s, Finish, [], t);
      run := [Finish] + [];
    }
  }
}
