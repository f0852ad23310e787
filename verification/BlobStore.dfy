/** The blob store's own operations, run to completion by one caller, and what they leave on disk. */
module BlobStore {

  import opened BlobMachine

  datatype FaultPoint = Nowhere | AfterTempWrite | AfterFileFsync | AfterRename | AfterDirectoryFsync

  datatype PutResult = Put(hash: Hash, byteLength: nat, created: bool) | Corrupt(expected: Hash) | Faulted

  /** The published hashes of a directory. */
  function Hashes(files: map<Path, Bytes>): set<Hash> {
    set p | p in files && p.Final? :: p.hash
  }

  /** What a sweep leaves: every file but the unreferenced published blobs. */
  function Swept(files: map<Path, Bytes>, referenced: set<Hash>): map<Path, Bytes> {
    map p | p in files && (p.Final? ==> p.hash in referenced) :: files[p]
  }

  class Store {
    var files: map<Path, Bytes>

    constructor ()
      ensures files == map[]
    {
      files := map[];
    }

    /**
     * Publishes `bytes` under their digest, or leaves the directory as it was; the temporary file never
     * outlives the call. `fault` is the point at which an injected error is thrown.
     */
    method PutSerialized(bytes: Bytes, tag: nat, fault: FaultPoint) returns (r: PutResult)
      requires Temp(Digest(bytes), tag) !in files
      modifies this
      ensures Final(Digest(bytes)) in old(files) ==>
                && files == old(files)
                && (r.Corrupt? <==> old(files)[Final(Digest(bytes))] != bytes)
                && (r.Faulted? <==> !r.Corrupt? && fault.AfterDirectoryFsync?)
                && (r.Put? ==> !r.created)
      ensures Final(Digest(bytes)) !in old(files) ==>
                && files == (if fault.AfterTempWrite? || fault.AfterFileFsync? then old(files)
                             else old(files)[Final(Digest(bytes)) := bytes])
                && (if fault.Nowhere? then r.Put? && r.created else r.Faulted?)
      ensures r.Put? ==> r.hash == Digest(bytes) && r.byteLength == |bytes|
                         && Final(r.hash) in files && files[Final(r.hash)] == bytes
      ensures old(Exact(files)) ==> Exact(files) && !r.Corrupt?
    {
      hide Digest;
      DigestInjective();
      var hash := Digest(bytes);
      var path := Final(hash);
      if path in files {
        if Digest(files[path]) != hash {
          return Corrupt(hash);
        }
        if fault.AfterDirectoryFsync? {
          return Faulted;
        }
        return Put(hash, |bytes|, false);
      }
      var temporary := Temp(hash, tag);
      files := files[temporary := bytes];
      if fault.AfterTempWrite? || fault.AfterFileFsync? {
        files := files - {temporary};
        return Faulted;
      }
      files := files[path := files[temporary]] - {temporary};
      if fault.AfterRename? || fault.AfterDirectoryFsync? {
        return Faulted;
      }
      return Put(hash, |bytes|, true);
    }

    method Remove(hash: Hash)
      modifies this
      ensures files == old(files) - {Final(hash)}
    {
      files := files - {Final(hash)};
    }

    /** Lists every published hash once. */
    method ListHashes() returns (hashes: seq<Hash>)
      ensures forall h :: h in hashes <==> h in Hashes(files)
      ensures forall i, j :: 0 <= i < j < |hashes| ==> hashes[i] != hashes[j]
    {
      hashes := [];
      var todo := files.Keys;
      while todo != {}
        invariant todo <= files.Keys
        invariant forall h :: h in hashes <==> Final(h) in files && Final(h) !in todo
        invariant forall i, j :: 0 <= i < j < |hashes| ==> hashes[i] != hashes[j]
      {
        var path :| path in todo;
        todo := todo - {path};
        if path.Final? {
          hashes := hashes + [path.hash];
        }
      }
      assert forall h :: Final(h) in files <==> h in Hashes(files);
    }

    /** The startup sweep: removes exactly the unreferenced blobs, and counts them. */
    method SweepOrphanedBlobs(referenced: set<Hash>) returns (removed: nat, scanned: nat)
      modifies this
      ensures files == Swept(old(files), referenced)
      ensures scanned == |Hashes(old(files))|
      ensures removed == |Hashes(old(files)) - referenced|
    {
      ghost var before := files;
      var hashes := ListHashes();
      removed := 0;
      ghost var gone: set<Hash> := {};
      WithoutNone(before);
      hide Without, Swept, Hashes, HashSet;
      for i := 0 to |hashes|
        invariant gone == HashSet(hashes[..i]) - referenced && removed == |gone|
        invariant files == Without(before, gone)
      {
        var hash := hashes[i];
        HashSetPush(hashes, i);
        if hash !in referenced {
          WithoutOneMore(before, gone, hash);
          Remove(hash);
          removed := removed + 1;
          gone := gone + {hash};
        }
      }
      AllHashes(hashes, Hashes(before));
      WithoutOrphans(before, referenced);
      scanned := |hashes|;
    }
  }

  function HashSet(hashes: seq<Hash>): set<Hash> {
    set h | h in hashes
  }

  lemma HashSetPush(hashes: seq<Hash>, i: nat)
    requires i < |hashes| && forall i, j :: 0 <= i < j < |hashes| ==> hashes[i] != hashes[j]
    ensures HashSet(hashes[..i + 1]) == HashSet(hashes[..i]) + {hashes[i]} && hashes[i] !in HashSet(hashes[..i])
  {
    assert hashes[..i + 1] == hashes[..i] + [hashes[i]];
  }

  lemma AllHashes(hashes: seq<Hash>, all: set<Hash>)
    requires forall h :: h in hashes <==> h in all
    requires forall i, j :: 0 <= i < j < |hashes| ==> hashes[i] != hashes[j]
    ensures HashSet(hashes[..|hashes|]) == all && |hashes| == |all|
  {
    assert hashes[..|hashes|] == hashes;
    assert HashSet(hashes) == all;
    DistinctCount(hashes);
  }

  lemma {:induction false} DistinctCount(hashes: seq<Hash>)
    requires forall i, j :: 0 <= i < j < |hashes| ==> hashes[i] != hashes[j]
    ensures |HashSet(hashes)| == |hashes|
  {
    if hashes != [] {
      var n := |hashes| - 1;
      DistinctCount(hashes[..n]);
      assert hashes == hashes[..n] + [hashes[n]];
      assert HashSet(hashes) == HashSet(hashes[..n]) + {hashes[n]};
    }
  }

  /** The directory with some published blobs removed. */
  function Without(files: map<Path, Bytes>, gone: set<Hash>): map<Path, Bytes> {
    map p | p in files && (p.Final? ==> p.hash !in gone) :: files[p]
  }

  lemma WithoutNone(files: map<Path, Bytes>)
    ensures Without(files, {}) == files && HashSet([]) == {}
  {
  }

  lemma WithoutOneMore(files: map<Path, Bytes>, gone: set<Hash>, hash: Hash)
    ensures Without(files, gone) - {Final(hash)} == Without(files, gone + {hash})
  {
  }

  lemma WithoutOrphans(files: map<Path, Bytes>, referenced: set<Hash>)
    ensures Without(files, Hashes(files) - referenced) == Swept(files, referenced)
  {
    assert forall p :: p in files && p.Final? ==> p.hash in Hashes(files);
  }

  /** Sweeping keeps every referenced blob, keeps published blobs exact, and leaves no orphan. */
  lemma SweptIsExact(files: map<Path, Bytes>, referenced: set<Hash>)
    requires Exact(files) && forall h :: h in referenced ==> Final(h) in files
    ensures Exact(Swept(files, referenced)) && Hashes(Swept(files, referenced)) == referenced
  {
    hide Digest;
    forall h ensures h in Hashes(Swept(files, referenced)) <==> h in referenced {
      assert h in referenced ==> Final(h) in Swept(files, referenced);
    }
  }
}
