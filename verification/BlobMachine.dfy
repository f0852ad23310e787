/**
 * The blob directory shared by pushes, the startup sweep and backups, as one machine whose steps are the
 * file-system and database effects between two awaits. A server crash may come between any two steps.
 */
module BlobMachine {

  type Bytes = seq<bv8>

  /** A content address. Its shard is its two-character prefix; the rest keeps digests of different bytes apart. */
  datatype Hash = Hash(shard: nat, rest: Bytes)

  /** Stands for SHA-256, taken as injective. Every proof hides the body and uses `DigestInjective` alone. */
  function Digest(bytes: Bytes): Hash {
    Hash(|bytes| % 256, bytes)
  }

  lemma DigestInjective()
    ensures forall a, b :: Digest(a) == Digest(b) ==> a == b
  {
  }

  /** A file of the blob directory: a published blob, or a writer's temporary file for one. */
  datatype Path = Final(hash: Hash) | Temp(hash: Hash, tag: nat)

  /** One `put` and the commit that follows it. */
  datatype Push =
    | Opening(bytes: Bytes)                             // the shard directory exists
    | Found(bytes: Bytes)                               // the final path exists, not verified yet
    | Absent(bytes: Bytes)                              // the final path did not exist
    | Writing(bytes: Bytes, tag: nat, written: nat)     // the temporary file holds this many bytes
    | Stored(bytes: Bytes)                              // `put` returned

  datatype Server =
    | Down
    | Sweeping(referenced: set<Hash>, shards: set<nat>, hashes: set<Hash>)
    | Up

  datatype Entry = Entry(hash: Hash, size: nat)

  /** A backup: the references of its database snapshot, its copied blobs and its manifest. */
  datatype Artifact = Artifact(snapshot: set<Hash>, blobs: map<Hash, Bytes>, manifest: seq<Entry>)

  datatype Backup =
    | NoBackup
    | Rooting(snapshot: set<Hash>)
    | Listing(snapshot: set<Hash>, shards: set<nat>, names: set<Path>)
    | Copying(artifact: Artifact, names: set<Path>)
    | Done(artifact: Artifact)

  /** `refs` are the blob hashes of the committed revisions; revisions are never deleted. */
  datatype State = State(files: map<Path, Bytes>, shards: set<nat>, refs: set<Hash>,
                         server: Server, pushes: map<nat, Push>, backup: Backup)

  function Fresh(): State {
    State(map[], {}, {}, Down, map[], NoBackup)
  }

  datatype Action =
    // A push.
    | BeginPut(id: nat, bytes: Bytes) | Look(id: nat) | VerifyExisting(id: nat)
    | OpenTemp(id: nat, tag: nat) | Write(id: nat, count: nat) | Rename(id: nat)
    | Fail(id: nat) | CommitPush(id: nat)
    // The server process.
    | Crash(killsBackup: bool) | Boot | SweepShard(shard: nat) | SweepBlob(hash: Hash) | Listen
    // A backup.
    | Snapshot | ListRoot | ListShard(shard: nat) | ListDone | Copy(path: Path) | Finish | Abort


  predicate Enabled(s: State, a: Action) {
    match a
    case BeginPut(id, _) => s.server.Up? && id !in s.pushes
    case Look(id) => id in s.pushes && s.pushes[id].Opening?
    case VerifyExisting(id) => id in s.pushes && s.pushes[id].Found?
    case OpenTemp(id, tag) =>
      id in s.pushes && s.pushes[id].Absent? && Temp(Digest(s.pushes[id].bytes), tag) !in s.files
    case Write(id, count) => id in s.pushes && s.pushes[id].Writing? && count <= |s.pushes[id].bytes|
    case Rename(id) =>
      && id in s.pushes && s.pushes[id].Writing? && s.pushes[id].written == |s.pushes[id].bytes|
      && Temp(Digest(s.pushes[id].bytes), s.pushes[id].tag) in s.files
    case Fail(id) => id in s.pushes
    case CommitPush(id) => id in s.pushes && s.pushes[id].Stored?
    case Crash(_) => true
    case Boot => s.server.Down?
    case SweepShard(shard) => s.server.Sweeping? && shard in s.server.shards
    case SweepBlob(hash) => s.server.Sweeping? && s.server.shards == {} && hash in s.server.hashes
    case Listen => s.server.Sweeping? && s.server.shards == {} && s.server.hashes == {}
    case Snapshot => s.backup.NoBackup? || s.backup.Done?
    case ListRoot => s.backup.Rooting?
    case ListShard(shard) => s.backup.Listing? && shard in s.backup.shards
    case ListDone => s.backup.Listing? && s.backup.shards == {}
    case Copy(path) => s.backup.Copying? && path in s.backup.names
    case Finish => s.backup.Copying? && s.backup.names == {}
    case Abort => !s.backup.NoBackup?
  }

  /** The published blobs of a shard. */
  function Published(files: map<Path, Bytes>, shard: nat): set<Hash> {
    set p | p in files && p.Final? && p.hash.shard == shard :: p.hash
  }

  /** A `put` that fails unlinks its temporary file. */
  function Unlinked(s: State, id: nat): map<Path, Bytes>
    requires id in s.pushes
  {
    var push := s.pushes[id];
    if push.Writing? then s.files - {Temp(Digest(push.bytes), push.tag)} else s.files
  }

  /** A copied file enters the artifact only under a name that ends in its own digest. */
  function Copied(artifact: Artifact, path: Path, bytes: Bytes): Artifact {
    if path == Final(Digest(bytes)) then
      artifact.(blobs := artifact.blobs[path.hash := bytes],
                manifest := artifact.manifest + [Entry(path.hash, |bytes|)])
    else artifact
  }

  function Step(s: State, a: Action): State
    requires Enabled(s, a)
  {
    match a
    case BeginPut(id, bytes) =>
      s.(shards := s.shards + {Digest(bytes).shard}, pushes := s.pushes[id := Opening(bytes)])
    case Look(id) =>
      var bytes := s.pushes[id].bytes;
      s.(pushes := s.pushes[id := if Final(Digest(bytes)) in s.files then Found(bytes) else Absent(bytes)])
    case VerifyExisting(id) =>
      var bytes := s.pushes[id].bytes;
      var path := Final(Digest(bytes));
      if path in s.files && Digest(s.files[path]) == path.hash then s.(pushes := s.pushes[id := Stored(bytes)])
      else s.(pushes := s.pushes - {id})
    case OpenTemp(id, tag) =>
      var bytes := s.pushes[id].bytes;
      s.(files := s.files[Temp(Digest(bytes), tag) := []], pushes := s.pushes[id := Writing(bytes, tag, 0)])
    case Write(id, count) =>
      var push := s.pushes[id];
      s.(files := s.files[Temp(Digest(push.bytes), push.tag) := push.bytes[..count]],
         pushes := s.pushes[id := push.(written := count)])
    case Rename(id) =>
      var push := s.pushes[id];
      var hash := Digest(push.bytes);
      s.(files := s.files[Final(hash) := s.files[Temp(hash, push.tag)]] - {Temp(hash, push.tag)},
         pushes := s.pushes[id := Stored(push.bytes)])
    case Fail(id) => s.(files := Unlinked(s, id), pushes := s.pushes - {id})
    case CommitPush(id) => s.(refs := s.refs + {Digest(s.pushes[id].bytes)}, pushes := s.pushes - {id})
    case Crash(killsBackup) =>
      s.(server := Down, pushes := map[], backup := if killsBackup then NoBackup else s.backup)
    case Boot => s.(server := Sweeping(s.refs, s.shards, {}))
    case SweepShard(shard) =>
      s.(server := s.server.(shards := s.server.shards - {shard},
                             hashes := s.server.hashes + Published(s.files, shard)))
    case SweepBlob(hash) =>
      s.(server := s.server.(hashes := s.server.hashes - {hash}),
         files := if hash in s.server.referenced then s.files else s.files - {Final(hash)})
    case Listen => s.(server := Up)
    case Snapshot => s.(backup := Rooting(s.refs))
    case ListRoot => s.(backup := Listing(s.backup.snapshot, s.shards, {}))
    case ListShard(shard) =>
      s.(backup := s.backup.(shards := s.backup.shards - {shard},
                             names := s.backup.names + set p | p in s.files && p.hash.shard == shard))
    case ListDone => s.(backup := Copying(Artifact(s.backup.snapshot, map[], []), s.backup.names))
    case Copy(path) =>
      if path !in s.files then s.(backup := NoBackup)
      else s.(backup := Copying(Copied(s.backup.artifact, path, s.files[path]), s.backup.names - {path}))
    case Finish => s.(backup := Done(s.backup.artifact))
    case Abort => s.(backup := NoBackup)
  }

  // ---- What every reachable state keeps ------------------------------------------------------------

  /** A published blob holds exactly the bytes its name is the digest of. */
  ghost predicate Exact(files: map<Path, Bytes>) {
    forall h :: Final(h) in files ==> Digest(files[Final(h)]) == h
  }

  /** Referenced blobs are exact; an up server has swept away whatever else a restore may have left. */
  ghost predicate ReferencedExact(s: State) {
    && (forall h :: h in s.refs && Final(h) in s.files ==> Digest(s.files[Final(h)]) == h)
    && (s.server.Up? ==> Exact(s.files))
  }

  ghost predicate Sharded(s: State) {
    forall p :: p in s.files ==> p.hash.shard in s.shards
  }

  /** Every committed revision's blob is published. */
  ghost predicate Complete(s: State) {
    forall h :: h in s.refs ==> Final(h) in s.files
  }

  ghost predicate PushOk(s: State, push: Push) {
    && Digest(push.bytes).shard in s.shards
    && (push.Stored? ==> Final(Digest(push.bytes)) in s.files)
    && (push.Writing? ==>
          && push.written <= |push.bytes|
          && Temp(Digest(push.bytes), push.tag) in s.files
          && s.files[Temp(Digest(push.bytes), push.tag)] == push.bytes[..push.written])
  }

  ghost predicate TempsApart(p: Push, q: Push) {
    p.Writing? && q.Writing? && p.bytes == q.bytes ==> p.tag != q.tag
  }

  /** No two writers share a temporary file: it was created exclusively. */
  ghost predicate PushesOk(s: State) {
    && (forall id :: id in s.pushes ==> PushOk(s, s.pushes[id]))
    && (forall i, j :: i in s.pushes && j in s.pushes && i != j ==> TempsApart(s.pushes[i], s.pushes[j]))
  }

  /** Only an up server pushes; a sweep knows every reference, and every orphan is still ahead of it. */
  ghost predicate ServerOk(s: State) {
    && (!s.server.Up? ==> s.pushes == map[])
    && (s.server.Sweeping? ==>
          && s.server.referenced == s.refs
          && forall h :: Final(h) in s.files ==> h in s.refs || h.shard in s.server.shards || h in s.server.hashes)
  }

  /** Everything copied so far is exact and in the manifest with its size. */
  ghost predicate ArtifactExact(a: Artifact) {
    && (forall h :: h in a.blobs ==> Digest(a.blobs[h]) == h && Entry(h, |a.blobs[h]|) in a.manifest)
    && (forall e :: e in a.manifest ==> e.hash in a.blobs && e.size == |a.blobs[e.hash]|)
  }

  /** Nothing the snapshot references is missed: it is still to be listed, still to be copied, or copied. */
  ghost predicate BackupOk(s: State) {
    match s.backup
    case NoBackup => true
    case Rooting(snapshot) => snapshot <= s.refs
    case Listing(snapshot, shards, names) =>
      snapshot <= s.refs && forall h :: h in snapshot ==> h.shard in shards || Final(h) in names
    case Copying(artifact, names) =>
      && artifact.snapshot <= s.refs && ArtifactExact(artifact)
      && forall h :: h in artifact.snapshot ==> Final(h) in names || h in artifact.blobs
    case Done(artifact) => Closed(artifact)
  }

  /** A closed backup: every hash its database references is in the manifest, with exactly those bytes copied. */
  ghost predicate Closed(a: Artifact) {
    && ArtifactExact(a)
    && forall h :: h in a.snapshot ==> h in a.blobs
  }

  ghost predicate Inv(s: State) {
    ReferencedExact(s) && Sharded(s) && Complete(s) && PushesOk(s) && ServerOk(s) && BackupOk(s)
  }
}
