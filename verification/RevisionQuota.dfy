/** Storage accounting over whole runs. */
module RevisionQuota {

  import opened StringOrder
  import opened RevisionTables
  import opened RevisionInvariant

  /** Every stored size is the size of the hashed bytes. */
  ghost predicate HonestSizes(db: Db, size: BlobHash -> nat) {
    forall r :: r in db.revisions ==> db.revisions[r].blobSize == size(db.revisions[r].blobHash)
  }

  function Total(size: BlobHash -> nat, hashes: seq<BlobHash>): nat {
    if hashes == [] then 0 else size(hashes[0]) + Total(size, hashes[1..])
  }

  lemma {:induction false} ChargedIsTotal(db: Db, v: Id, size: BlobHash -> nat, hashes: seq<BlobHash>)
    requires HonestSizes(db, size)
    requires forall h :: h in hashes ==> h in VaultHashes(db, v)
    ensures ChargedSum(db, v, hashes) == Total(size, hashes)
  {
    if hashes != [] {
      assert hashes[0] in hashes;
      assert ChargedSize(db, v, hashes[0]) in SizesOf(db, v, hashes[0]);
      ChargedIsTotal(db, v, size, hashes[1..]);
    }
  }

  lemma UsedIsTotal(db: Db, v: Id, size: BlobHash -> nat)
    requires HonestSizes(db, size)
    ensures UsedBytes(db, v) == Total(size, Sorted(VaultHashes(db, v)))
  {
    var hashes := Sorted(VaultHashes(db, v));
    assert forall h :: h in hashes ==> h in Elements(hashes);
    ChargedIsTotal(db, v, size, hashes);
  }

  lemma AscendingWithout(ys: seq<string>, k: nat)
    requires Ascending(ys) && k < |ys|
    ensures Ascending(ys[..k] + ys[k + 1..])
    ensures Elements(ys[..k] + ys[k + 1..]) == Elements(ys) - {ys[k]}
  {
    var zs := ys[..k] + ys[k + 1..];
    LessAsymmetric(ys[k], ys[k]);
    assert forall i :: 0 <= i < |zs| ==> zs[i] == ys[if i < k then i else i + 1];
    forall x | x in Elements(ys) && x != ys[k] ensures x in Elements(zs) {
      var i :| 0 <= i < |ys| && ys[i] == x;
      assert zs[if i < k then i else i - 1] == x;
    }
    forall x | x in Elements(zs) ensures x in Elements(ys) && x != ys[k] {
      var i :| 0 <= i < |zs| && zs[i] == x;
      var j := if i < k then i else i + 1;
      assert x == ys[j] && (j < k ==> Less(ys[j], ys[k])) && (k < j ==> Less(ys[k], ys[j]));
    }
  }

  lemma {:induction false} TotalWithout(size: BlobHash -> nat, ys: seq<BlobHash>, k: nat)
    requires k < |ys|
    ensures Total(size, ys) == Total(size, ys[..k] + ys[k + 1..]) + size(ys[k])
    decreases k
  {
    var zs := ys[..k] + ys[k + 1..];
    if k == 0 {
      assert zs == ys[1..];
    } else {
      TotalWithout(size, ys[1..], k - 1);
      assert zs[1..] == ys[1..][..k - 1] + ys[1..][k..];
    }
  }

  /** A new hash adds exactly its size to the total. */
  lemma TotalWithNew(size: BlobHash -> nat, s: set<BlobHash>, h: BlobHash)
    requires h !in s
    ensures Total(size, Sorted(s + {h})) == Total(size, Sorted(s)) + size(h)
  {
    hide Total, Less, Ascending;
    var ys := Sorted(s + {h});
    assert h in Elements(ys);
    var k :| 0 <= k < |ys| && ys[k] == h;
    AscendingWithout(ys, k);
    assert Elements(ys) - {h} == s;
    AscendingUnique(ys[..k] + ys[k + 1..], Sorted(s));
    TotalWithout(size, ys, k);
  }

  lemma HashesAfter(db: Db, c: Prepared, now: int, settings: Settings, v: Id)
    requires c.header.vaultId in db.vaults && c.header.revisionId !in db.revisions
    ensures VaultHashes(WithRevision(db, c, now, settings), v)
         == VaultHashes(db, v) + (if v == c.header.vaultId then {c.blobHash} else {})
  {
    var db' := WithRevision(db, c, now, settings);
    var extra := if v == c.header.vaultId then {c.blobHash} else {};
    forall h | h in VaultHashes(db, v) + extra ensures h in VaultHashes(db', v) {
      if h in VaultHashes(db, v) {
        var r :| r in db.revisions && db.revisions[r].vaultId == v && db.revisions[r].blobHash == h;
        assert r in db'.revisions && db'.revisions[r] == db.revisions[r];
      } else {
        assert c.header.revisionId in db'.revisions;
      }
    }
  }

  /** An accepted commit charges its blob's size for a new hash, and nothing for a known one. */
  lemma AcceptCharges(db: Db, c: Prepared, now: int, settings: Settings, size: BlobHash -> nat, v: Id)
    requires HonestSizes(db, size) && c.blobSize == size(c.blobHash)
    requires c.header.vaultId in db.vaults && c.header.revisionId !in db.revisions
    ensures HonestSizes(WithRevision(db, c, now, settings), size)
    ensures UsedBytes(WithRevision(db, c, now, settings), v)
         == UsedBytes(db, v) +
            (if v == c.header.vaultId && c.blobHash !in VaultHashes(db, v) then c.blobSize else 0)
  {
    hide UsedBytes, VaultHashes;
    var db' := WithRevision(db, c, now, settings);
    HashesAfter(db, c, now, settings, v);
    UsedIsTotal(db, v, size);
    UsedIsTotal(db', v, size);
    var s := VaultHashes(db, v);
    if v == c.header.vaultId && c.blobHash !in s {
      TotalWithNew(size, s, c.blobHash);
    } else {
      assert VaultHashes(db', v) == s;
    }
  }

  ghost predicate QuotaKept(db: Db, settings: Settings) {
    forall v :: v in db.vaults ==> UsedBytes(db, v) <= EffectiveQuota(db.vaults[v], settings.defaultQuota)
  }

  /** A step of an honest server: true blob sizes, and no quota lowered. */
  ghost predicate HonestNext(db: Db, db': Db, settings: Settings, size: BlobHash -> nat) {
    || (exists c: Prepared, now :: ValidHeader(c.header) && c.blobSize == size(c.blobHash)
                                   && db' == Commit(db, c, now, settings).0)
    || (&& Environment(db, db')
        && forall v :: v in db.vaults && v in db'.vaults ==>
             EffectiveQuota(db.vaults[v], settings.defaultQuota)
               <= EffectiveQuota(db'.vaults[v], settings.defaultQuota))
  }

  lemma SameRevisionsSameUse(db: Db, db': Db, v: Id, size: BlobHash -> nat)
    requires db'.revisions == db.revisions && HonestSizes(db, size)
    ensures HonestSizes(db', size) && UsedBytes(db', v) == UsedBytes(db, v)
  {
    assert VaultHashes(db', v) == VaultHashes(db, v);
    UsedIsTotal(db, v, size);
    UsedIsTotal(db', v, size);
  }

  lemma CommitKeepsQuota(db: Db, c: Prepared, now: int, settings: Settings, size: BlobHash -> nat)
    requires HonestSizes(db, size) && QuotaKept(db, settings) && c.blobSize == size(c.blobHash)
    ensures HonestSizes(Commit(db, c, now, settings).0, size) && QuotaKept(Commit(db, c, now, settings).0, settings)
  {
    hide UsedBytes, VaultHashes, GraphFault, RowsCollide, ValidHeader, HonestSizes;
    var (db', outcome) := Commit(db, c, now, settings);
    if c.header.revisionId in db.revisions || db' == db {
      ReplaySameRevisions(db, c, now, settings);
      SameRevisionsSameUse(db, db', "", size);
      forall v | v in db'.vaults ensures UsedBytes(db', v) <= EffectiveQuota(db'.vaults[v], settings.defaultQuota) {
        SameRevisionsSameUse(db, db', v, size);
      }
    } else {
      AcceptCharges(db, c, now, settings, size, "");
      forall v | v in db'.vaults ensures UsedBytes(db', v) <= EffectiveQuota(db'.vaults[v], settings.defaultQuota) {
        AcceptCharges(db, c, now, settings, size, v);
      }
    }
  }

  lemma ReplaySameRevisions(db: Db, c: Prepared, now: int, settings: Settings)
    ensures c.header.revisionId in db.revisions ==>
              && Commit(db, c, now, settings).0.revisions == db.revisions
              && Commit(db, c, now, settings).0.vaults == db.vaults
  {
    hide GraphFault, WithinQuota, RowsCollide, CommitNew, Matches, SameReceipt, ReceiptOf;
    if c.header.revisionId in db.revisions {
      var db' := Replay(db, c, now, settings).0;
      assert db' == db.(idempotency := db'.idempotency);
      hide Replay;
    }
  }

  lemma EmptyVaultUsesNothing(db: Db, v: Id)
    requires RowsOk(db) && v !in db.vaults
    ensures UsedBytes(db, v) == 0
  {
    hide ValidHeader;
    assert forall r :: r in db.revisions ==> RowOk(db, r);
    assert VaultHashes(db, v) == {};
  }

  lemma HonestStep(db: Db, db': Db, settings: Settings, size: BlobHash -> nat)
    requires Inv(db) && HonestSizes(db, size) && QuotaKept(db, settings) && HonestNext(db, db', settings, size)
    ensures Inv(db') && HonestSizes(db', size) && QuotaKept(db', settings)
  {
    hide Inv, HonestSizes, UsedBytes, ValidHeader, Commit;
    if Environment(db, db') && (forall v :: v in db.vaults && v in db'.vaults ==>
        EffectiveQuota(db.vaults[v], settings.defaultQuota) <= EffectiveQuota(db'.vaults[v], settings.defaultQuota)) {
      EnvironmentKeepsInv(db, db');
      SameRevisionsSameUse(db, db', "", size);
      forall v | v in db'.vaults ensures UsedBytes(db', v) <= EffectiveQuota(db'.vaults[v], settings.defaultQuota) {
        SameRevisionsSameUse(db, db', v, size);
        if v !in db.vaults {
          InvRows(db);
          EmptyVaultUsesNothing(db, v);
        }
      }
    } else {
      var c: Prepared, now :| ValidHeader(c.header) && c.blobSize == size(c.blobHash)
                              && db' == Commit(db, c, now, settings).0;
      CommitKeepsInv(db, c, now, settings);
      CommitKeepsQuota(db, c, now, settings, size);
    }
  }

  lemma InvRows(db: Db)
    requires Inv(db)
    ensures RowsOk(db)
  {
  }

  /** With true blob sizes and quotas never lowered, no vault of any reachable state exceeds its quota. */
  lemma {:induction false} QuotaOverRuns(states: seq<Db>, settings: Settings, size: BlobHash -> nat, i: nat)
    requires |states| > 0 && states[0] == Empty && i < |states|
    requires forall k :: 0 <= k < |states| - 1 ==> HonestNext(states[k], states[k + 1], settings, size)
    ensures Inv(states[i]) && HonestSizes(states[i], size) && QuotaKept(states[i], settings)
    decreases i
  {
    hide Inv, HonestNext, UsedBytes;
    if i == 0 {
      InitInv();
    } else {
      QuotaOverRuns(states, settings, size, i - 1);
      assert HonestNext(states[i - 1], states[i - 1 + 1], settings, size);
      HonestStep(states[i - 1], states[i], settings, size);
    }
  }
}
