/** What a commit demands and what it writes, spelled out on the rows themselves. */
module RevisionAcceptance {

  import opened Options
  import opened StringOrder
  import opened RevisionTables
  import opened RevisionInvariant
  import opened RevisionRetry

  // ---- Who may commit ---------------------------------------------------------------------------------

  /** An active member of the header's vault, whose user is active, on an approved device of that user. */
  lemma WhoMayCommit(db: Db, actor: Actor, header: Header)
    ensures Authorized(db, actor, header) <==>
            exists user ::
              && user in db.users && db.users[user]
              && actor.memberId in db.memberships
              && db.memberships[actor.memberId] == Membership(header.vaultId, user, true)
              && actor.deviceId in db.devices && db.devices[actor.deviceId] == Device(user, true)
  {
    if Authorized(db, actor, header) {
      assert db.memberships[actor.memberId].userId in db.users;
    }
  }

  /** Whatever succeeds was sent by someone who may commit to a vault that is not deleted. */
  lemma SuccessIsAuthorized(db: Db, c: Prepared, now: int, settings: Settings)
    ensures Commit(db, c, now, settings).1.Ok? ==>
              Authorized(db, c.actor, c.header) && c.header.vaultId in db.vaults && !db.vaults[c.header.vaultId].deleted
    ensures !Authorized(db, c.actor, c.header) ==> Commit(db, c, now, settings) == (db, Err(Forbidden))
  {
  }

  /** What passes the checks before the transaction: well formed, sent by its own author, and no id reused. */
  lemma PreparedIff(db: Db, c: Prepared)
    ensures Prepare(db, c).None? <==>
            && ValidHeader(c.header) && ValidKey(c.key)
            && c.header.memberId == c.actor.memberId && c.header.deviceId == c.actor.deviceId
            && Authorized(db, c.actor, c.header)
            && (c.header.revisionId in db.revisions ==>
                  var x := db.revisions[c.header.revisionId]; !Differs(x, c.(blobSize := x.blobSize)))
  {
  }

  /** Keys on the ASCII characters: one visible character, at most 200 in all, and no control character. */
  lemma AsciiKeys(key: string)
    requires forall i :: 0 <= i < |key| ==> key[i] as int < 0x80
    ensures ValidKey(key) <==>
            && |key| <= 200 && (exists i :: 0 <= i < |key| && key[i] != ' ')
            && forall i :: 0 <= i < |key| ==> 0x20 <= key[i] as int <= 0x7e
  {
    if ValidKey(key) {
      var i :| 0 <= i < |key| && !IsBlank(key[i]);
      assert key[i] != ' ';
      assert forall k :: 0 <= k < |key| ==> !IsControl(key[k]) ==> 0x20 <= key[k] as int <= 0x7e;
    } else if i :| 0 <= i < |key| && key[i] != ' ' {
      assert 0x20 <= key[i] as int <= 0x7e ==> !IsBlank(key[i]);
      assert forall k :: 0 <= k < |key| && 0x20 <= key[k] as int <= 0x7e ==> !IsControl(key[k]);
    }
  }

  // ---- Room ---------------------------------------------------------------------------------------------

  /** A vault's own quota beats the default. */
  lemma QuotaChoice(vault: Vault, defaultQuota: nat)
    ensures vault.quota.Some? ==> EffectiveQuota(vault, defaultQuota) == vault.quota.value
    ensures vault.quota.None? ==> EffectiveQuota(vault, defaultQuota) == defaultQuota
  {
  }

  /** The vault already stores the blob, or has room for its bytes. */
  ghost predicate Room(db: Db, c: Prepared, settings: Settings) {
    && c.header.vaultId in db.vaults
    && var vault := db.vaults[c.header.vaultId];
      || (exists r :: r in db.revisions && db.revisions[r].vaultId == c.header.vaultId
                      && db.revisions[r].blobHash == c.blobHash)
      || (UsedBytes(db, c.header.vaultId) + c.blobSize
            <= if vault.quota.Some? then vault.quota.value else settings.defaultQuota)
  }

  lemma RoomIsQuota(db: Db, c: Prepared, settings: Settings)
    requires c.header.vaultId in db.vaults
    ensures Room(db, c, settings) <==> WithinQuota(db, c, settings)
  {
    assert c.blobHash in VaultHashes(db, c.header.vaultId) <==>
           exists r :: r in db.revisions && db.revisions[r].vaultId == c.header.vaultId
                       && db.revisions[r].blobHash == c.blobHash;
  }

  // ---- The place in the graph ------------------------------------------------------------------------------

  /** The revision is stored in this vault and file. */
  ghost predicate StoredIn(db: Db, v: Id, f: Id, r: Id) {
    r in db.revisions && db.revisions[r].vaultId == v && db.revisions[r].fileId == f
  }

  /**
   * Where a new revision may stand: first of a new file; on any one stored revision of its file, current or not;
   * or on two or more that are exactly the file's heads.
   */
  ghost predicate Fits(db: Db, h: Header) {
    if h.parents == [] then h.fileId !in db.files
    else
      && (forall p :: p in h.parents ==> StoredIn(db, h.vaultId, h.fileId, p))
      && (|h.parents| == 1 || Elements(h.parents) == HeadSet(db, h.fileId))
  }

  lemma {:induction false} NoParentFault(db: Db, v: Id, f: Id, parents: seq<Id>)
    requires forall p :: p in parents ==> StoredIn(db, v, f, p)
    ensures ParentFault(db, v, f, parents).None?
  {
    if parents != [] {
      assert parents[0] in parents;
      assert forall p :: p in parents[1..] ==> p in parents;
      NoParentFault(db, v, f, parents[1..]);
    }
  }

  lemma FitsIsGraph(db: Db, h: Header)
    requires Inv(db) && ValidHeader(h)
    ensures Fits(db, h) <==> GraphFault(db, h).None?
  {
    hide Inv, ValidHeader, HeadSet, Elements;
    if h.parents != [] {
      var p := h.parents[0];
      assert p in h.parents;
      if StoredIn(db, h.vaultId, h.fileId, p) {
        StoredFile(db, p);
        HeadComparisonIsSetEquality(db, h);
      }
      if Fits(db, h) {
        NoParentFault(db, h.vaultId, h.fileId, h.parents);
      }
      if GraphFault(db, h).None? {
        ParentsPresent(db, h.vaultId, h.fileId, h.parents);
      }
    }
  }

  lemma StoredFile(db: Db, r: Id)
    requires Inv(db) && r in db.revisions
    ensures db.revisions[r].fileId in db.files && db.files[db.revisions[r].fileId] == db.revisions[r].vaultId
  {
    assert RowOk(db, r);
  }

  // ---- A new revision ---------------------------------------------------------------------------------------

  /** Everything a revision with a new id must meet. */
  ghost predicate Acceptable(db: Db, c: Prepared, settings: Settings) {
    && Authorized(db, c.actor, c.header)
    && c.header.vaultId in db.vaults && !db.vaults[c.header.vaultId].deleted
    && (c.actor.deviceId, c.key) !in db.idempotency
    && Room(db, c, settings) && Fits(db, c.header)
    && db.vaults[c.header.vaultId].next < MAX_SAFE_INTEGER
    && 0 <= db.vaults[c.header.vaultId].writeEpoch <= MAX_SAFE_INTEGER
  }

  /** The receipt of an accepted revision. */
  function NewReceipt(db: Db, c: Prepared, now: int): Receipt
    requires c.header.vaultId in db.vaults
  {
    Receipt(revisionId := c.header.revisionId, memberId := c.actor.memberId, deviceId := c.actor.deviceId,
            serverSequence := db.vaults[c.header.vaultId].next, serverTime := now,
            blobHash := c.blobHash, byteLength := c.blobSize, parents := c.header.parents)
  }

  /** A revision with a new id is accepted if and only if it is acceptable. */
  lemma AcceptedIff(db: Db, c: Prepared, now: int, settings: Settings)
    requires Inv(db) && ValidHeader(c.header) && c.header.revisionId !in db.revisions
    ensures Commit(db, c, now, settings).1.Ok? <==> Acceptable(db, c, settings)
    ensures Acceptable(db, c, settings) ==>
              && Commit(db, c, now, settings).0 == WithRevision(db, c, now, settings)
              && Commit(db, c, now, settings).1 == Ok(CommitResult(NewReceipt(db, c, now), Accepted))
  {
    FitsIsGraph(db, c.header);
    hide Inv, ValidHeader, Authorized, Fits, GraphFault, RowsCollide, WithinQuota, Room, Replay;
    if c.header.vaultId in db.vaults {
      RoomIsQuota(db, c, settings);
      NewCommitSucceedsIff(db, c, now, settings);
      NewResult(db, c, now, settings);
      hide WithRevision;
    }
  }

  lemma NewResult(db: Db, c: Prepared, now: int, settings: Settings)
    requires c.header.vaultId in db.vaults
    ensures var record := WithRevision(db, c, now, settings).idempotency;
            && c.IdempotencyKey() in record
            && record[c.IdempotencyKey()].result == CommitResult(NewReceipt(db, c, now), Accepted)
  {
  }

  /** What an accepted revision leaves: itself as a head in its parents' place, and other files' heads alone. */
  lemma HeadsAfterAccept(db: Db, c: Prepared, now: int, settings: Settings, f: Id)
    requires Inv(db) && ValidHeader(c.header) && c.header.revisionId !in db.revisions && Acceptable(db, c, settings)
    ensures HeadSet(Commit(db, c, now, settings).0, f)
         == if f == c.header.fileId then HeadSet(db, f) - Elements(c.header.parents) + {c.header.revisionId}
            else HeadSet(db, f)
  {
    assert c.header.vaultId in db.vaults;
    hide Inv, ValidHeader, Acceptable, Commit, Fits, Room, HeadSet;
    AcceptedIff(db, c, now, settings);
    assert WithRevision(db, c, now, settings).heads == HeadsAfter(db.heads, c.header);
    hide WithRevision;
    HeadSetAfter(db, WithRevision(db, c, now, settings), c.header, f);
  }

  lemma HeadSetAfter(db: Db, db': Db, h: Header, f: Id)
    requires db'.heads == HeadsAfter(db.heads, h)
    ensures HeadSet(db', f) == if f == h.fileId then HeadSet(db, f) - Elements(h.parents) + {h.revisionId}
                               else HeadSet(db, f)
  {
    hide HeadSet;
    forall r ensures r in HeadSet(db', f) <==>
                     if f == h.fileId then (r in HeadSet(db, f) && r !in h.parents) || r == h.revisionId
                     else r in HeadSet(db, f)
    {
      HeadRow(db', f, r);
      HeadRow(db, f, r);
    }
  }

  lemma HeadRow(db: Db, f: Id, r: Id)
    ensures r in HeadSet(db, f) <==> (f, r) in db.heads
  {
    if r in HeadSet(db, f) {
      var row :| row in db.heads && row.0 == f && row.1 == r;
      assert row == (f, r);
    }
  }

  /**
   * A stale update is kept, not refused: a revision on any one stored revision of its file is accepted, and where
   * that parent was no head the file forks.
   */
  lemma StaleUpdateForks(db: Db, c: Prepared, now: int, settings: Settings, p: Id)
    requires Inv(db) && c.header.revisionId !in db.revisions && c.header.revisionId != p && c.header.parents == [p]
    requires Authorized(db, c.actor, c.header) && LiveVault(db, c.header.vaultId)
    requires c.IdempotencyKey() !in db.idempotency && Room(db, c, settings) && !Exhausted(db, c)
    requires StoredIn(db, c.header.vaultId, c.header.fileId, p)
    ensures Commit(db, c, now, settings).1.Ok?
    ensures HeadSet(Commit(db, c, now, settings).0, c.header.fileId)
         == HeadSet(db, c.header.fileId) - {p} + {c.header.revisionId}
  {
    hide Inv, ValidHeader, Commit, Authorized, Room, StoredIn, HeadSet, Elements;
    SingleParent(c.header, p);
    assert Acceptable(db, c, settings);
    hide Acceptable, Exhausted, LiveVault;
    AcceptedIff(db, c, now, settings);
    HeadsAfterAccept(db, c, now, settings, c.header.fileId);
  }

  lemma SingleParent(h: Header, p: Id)
    requires h.parents == [p] && h.revisionId != p
    ensures ValidHeader(h) && Elements(h.parents) == {p}
  {
    assert Elements([p]) == {p};
  }

  /** Which code a refusal of a new revision carries, in the order of the checks. */
  lemma RefusalCodes(db: Db, c: Prepared, now: int, settings: Settings)
    requires Inv(db) && ValidHeader(c.header) && c.header.revisionId !in db.revisions
    requires Authorized(db, c.actor, c.header)
    ensures var outcome, live := Commit(db, c, now, settings).1, LiveVault(db, c.header.vaultId);
            var free := live && (c.actor.deviceId, c.key) !in db.idempotency && !Exhausted(db, c);
            var h := c.header;
            && (!live ==> outcome == Err(NotFound))
            && (live && (c.actor.deviceId, c.key) in db.idempotency ==> outcome == Err(IdempotencyKeyReuse))
            && (free && !Room(db, c, settings) ==> outcome == Err(QuotaExceeded))
            && (free && Room(db, c, settings) && h.parents == [] && h.fileId in db.files ==>
                  outcome == Err(if db.files[h.fileId] == h.vaultId then FileAlreadyExists else ParentFileMismatch))
            && (free && Room(db, c, settings) && h.parents != [] && h.fileId !in db.files ==>
                  outcome == Err(MissingParent))
            && (free && Room(db, c, settings) && NotTheHeads(db, h) ==> outcome == Err(HeadSetChanged))
  {
    var h := c.header;
    if c.header.vaultId in db.vaults {
      RoomIsQuota(db, c, settings);
      NewCommitSucceedsIff(db, c, now, settings);
    }
    if c.IdempotencyKey() in db.idempotency {
      KeyBelongsToStored(db, c);
    }
    GraphCodes(db, h);
    hide Inv, ValidHeader, Authorized, GraphFault, RowsCollide, WithinQuota, Room, WithRevision, Replay;
  }

  /** A recorded key belongs to a stored revision, hence to another request than one for a new revision. */
  lemma KeyBelongsToStored(db: Db, c: Prepared)
    requires Inv(db) && c.header.revisionId !in db.revisions && c.IdempotencyKey() in db.idempotency
    ensures db.idempotency[c.IdempotencyKey()].request != c.ToRequest()
  {
    assert RecordOk(db, db.idempotency[c.IdempotencyKey()]);
  }

  /** Two or more stored parents that are not exactly the file's heads. */
  ghost predicate NotTheHeads(db: Db, h: Header) {
    && |h.parents| >= 2 && (forall p :: p in h.parents ==> StoredIn(db, h.vaultId, h.fileId, p))
    && Elements(h.parents) != HeadSet(db, h.fileId)
  }

  lemma GraphCodes(db: Db, h: Header)
    requires Inv(db) && ValidHeader(h)
    ensures h.parents == [] && h.fileId in db.files ==>
              GraphFault(db, h)
              == Some(if db.files[h.fileId] == h.vaultId then FileAlreadyExists else ParentFileMismatch)
    ensures h.parents != [] && h.fileId !in db.files ==> GraphFault(db, h) == Some(MissingParent)
    ensures NotTheHeads(db, h) ==> GraphFault(db, h) == Some(HeadSetChanged)
  {
    if NotTheHeads(db, h) {
      assert h.parents[0] in h.parents;
      StoredFile(db, h.parents[0]);
      NoParentFault(db, h.vaultId, h.fileId, h.parents);
      HeadComparisonIsSetEquality(db, h);
    }
  }

  // ---- A stored revision --------------------------------------------------------------------------------------

  /** The stored row differs from the request in something the request fixes. */
  ghost predicate Differs(x: Revision, c: Prepared) {
    || x.vaultId != c.header.vaultId || x.fileId != c.header.fileId
    || x.memberId != c.actor.memberId || x.deviceId != c.actor.deviceId
    || x.header != c.header || x.blobHash != c.blobHash || x.blobSize != c.blobSize
  }

  /** An id is never reused: a request that differs from the stored revision is refused and changes nothing. */
  lemma IdNeverReused(db: Db, c: Prepared, now: int, settings: Settings)
    requires c.header.revisionId in db.revisions && Differs(db.revisions[c.header.revisionId], c)
    ensures Commit(db, c, now, settings).0 == db && Commit(db, c, now, settings).1.Err?
    ensures Authorized(db, c.actor, c.header) && LiveVault(db, c.header.vaultId) ==>
              Commit(db, c, now, settings).1 == Err(RevisionIdReuse)
  {
  }

  /** Its receipt, field by field. */
  lemma ReceiptFields(r: Id, x: Revision)
    ensures var receipt := ReceiptOf(r, x);
            && receipt.revisionId == r && receipt.memberId == x.memberId && receipt.deviceId == x.deviceId
            && receipt.serverSequence == x.serverSequence && receipt.serverTime == x.acceptedAt
            && receipt.blobHash == x.blobHash && receipt.byteLength == x.blobSize && receipt.parents == x.header.parents
  {
  }

  /**
   * Whatever succeeds is on record under its key: answered from the record if there was one, else recorded for the
   * whole time-to-live, as accepted if the revision is new and as replayed if it was stored. No other record changes.
   */
  lemma SuccessIsRecorded(db: Db, c: Prepared, now: int, settings: Settings)
    requires Commit(db, c, now, settings).1.Ok?
    ensures var (db', outcome), key := Commit(db, c, now, settings), (c.actor.deviceId, c.key);
            && key in db'.idempotency && db'.idempotency[key].request == c.ToRequest()
            && db'.idempotency[key].result == outcome.result
            && (if key in db.idempotency then db'.idempotency == db.idempotency
                else
                  && db'.idempotency[key].expiresAt == now + settings.ttl
                  && outcome.result.status == (if c.header.revisionId in db.revisions then Replayed else Accepted)
                  && forall k :: k != key ==> (k in db'.idempotency <==> k in db.idempotency)
                                              && (k in db.idempotency ==> db'.idempotency[k] == db.idempotency[k]))
  {
    hide Authorized, LiveVault, GraphFault, WithinQuota, RowsCollide, Matches, SameReceipt, ReceiptOf, WithNode, NewRow;
  }

  /** A prune drops exactly the records whose deadline lies before the cutoff, and nothing else. */
  lemma PruneIsExact(db: Db, cutoff: int)
    ensures var db' := Prune(db, cutoff);
            && (forall k :: k in db'.idempotency <==> k in db.idempotency && !(db.idempotency[k].expiresAt < cutoff))
            && (forall k :: k in db'.idempotency ==> db'.idempotency[k] == db.idempotency[k])
            && db'.(idempotency := db.idempotency) == db
  {
  }

  /** A key on record is refused for any other request, and nothing changes. */
  lemma KeyRefusesOthers(db: Db, c: Prepared, now: int, settings: Settings)
    requires c.IdempotencyKey() in db.idempotency && db.idempotency[c.IdempotencyKey()].request != c.ToRequest()
    ensures Commit(db, c, now, settings).0 == db && Commit(db, c, now, settings).1.Err?
  {
    hide Authorized, LiveVault, CommitNew, Matches, SameReceipt, ReceiptOf;
  }

  /**
   * A key is held for its time: after any success under a new key, no prune up to the record's deadline drops it, and
   * until then the key is refused for any other request.
   */
  lemma KeyIsHeld(db: Db, c: Prepared, now: int, settings: Settings, cutoff: int, other: Prepared, later: int)
    requires Commit(db, c, now, settings).1.Ok? && c.IdempotencyKey() !in db.idempotency
    requires cutoff <= now + settings.ttl && other.IdempotencyKey() == c.IdempotencyKey()
    requires other.ToRequest() != c.ToRequest()
    ensures var pruned := Prune(Commit(db, c, now, settings).0, cutoff);
            Commit(pruned, other, later, settings).0 == pruned && Commit(pruned, other, later, settings).1.Err?
  {
    hide Commit;
    SuccessIsRecorded(db, c, now, settings);
    KeyRefusesOthers(Prune(Commit(db, c, now, settings).0, cutoff), other, later, settings);
  }

  /** The listed heads of a file of the vault are its heads in ascending order; another vault lists none. */
  lemma ListedHeads(db: Db, v: Id, f: Id)
    ensures f in db.files && db.files[f] == v ==> Elements(GetHeads(db, v, f)) == HeadSet(db, f)
    ensures !(f in db.files && db.files[f] == v) ==> GetHeads(db, v, f) == []
    ensures Ascending(GetHeads(db, v, f))
  {
  }
}
