/** The repository as it runs: tables updated row by row inside one transaction. */
module RevisionRepository {

  import opened Options
  import opened RevisionTables
  import opened RevisionInvariant
  import opened RevisionEvents
  import RevisionRetry

  lemma EventsStayBelow(db: Db, v: Id)
    requires Inv(db)
    ensures forall n :: (v, n) in db.events ==> v in db.vaults && n < db.vaults[v].next
  {
    hide RowsOk, ParentsOk, RootsOk, HeadsOk, RecordsOk;
    forall n | (v, n) in db.events ensures v in db.vaults && n < db.vaults[v].next {
      assert EventOk(db, v, n);
    }
  }

  /** A refusal changes nothing; a success leaves the request's own row, and the receipt tells it. */
  lemma CommitPromises(db: Db, c: Prepared, now: int, settings: Settings)
    requires Inv(db)
    ensures var (db', outcome) := Commit(db, c, now, settings);
            if outcome.Err? then db' == db
            else
              && c.header.revisionId in db'.revisions
              && Matches(c.header.revisionId, db'.revisions[c.header.revisionId], c)
              && outcome.result.receipt == ReceiptOf(c.header.revisionId, db'.revisions[c.header.revisionId])
  {
    hide Inv, Matches, ReceiptOf, GraphFault, WithinQuota, RowsCollide, WithRevision;
    if Commit(db, c, now, settings).1.Ok? {
      RevisionRetry.CommittedMatches(db, c, now, settings);
    }
  }

  class Repository {
    var users: map<Id, bool>
    var memberships: map<Id, Membership>
    var devices: map<Id, Device>
    var vaults: map<Id, Vault>
    var files: map<Id, Id>
    var revisions: map<Id, Revision>
    var parents: map<Id, seq<Id>>
    var heads: set<(Id, Id)>
    var events: map<(Id, int), RevisionTables.Event>
    var idempotency: map<(Id, string), IdempotencyRecord>
    const settings: Settings

    /** The tables as a value. */
    function Tables(): Db
      reads this
    {
      Db(users, memberships, devices, vaults, files, revisions, parents, heads, events, idempotency)
    }

    constructor (settings: Settings)
      ensures Tables() == Empty && Inv(Tables()) && this.settings == settings
    {
      users, memberships, devices, vaults := map[], map[], map[], map[];
      files, revisions, parents, heads := map[], map[], map[], {};
      events, idempotency := map[], map[];
      this.settings := settings;
      new;
      InitInv();
    }

    /** Links the parents and makes the new revision a head in their place. */
    method ReplaceParentHeads(h: Header)
      modifies this`parents, this`heads
      ensures parents == old(parents)[h.revisionId := h.parents]
      ensures heads == HeadsAfter(old(heads), h)
    {
      var index := 0;
      parents := parents[h.revisionId := []];
      while index < |h.parents|
        invariant 0 <= index <= |h.parents|
        invariant parents == old(parents)[h.revisionId := h.parents[..index]]
        invariant heads == set x | x in old(heads) && !(x.0 == h.fileId && x.1 in h.parents[..index])
      {
        var parentId := h.parents[index];
        assert h.parents[..index + 1] == h.parents[..index] + [parentId];
        parents := parents[h.revisionId := parents[h.revisionId] + [parentId]];
        heads := heads - {(h.fileId, parentId)};
        index := index + 1;
      }
      assert h.parents[..index] == h.parents;
      heads := heads + {(h.fileId, h.revisionId)};
    }

    /** Stores the answer to a request under the device's key. */
    method InsertIdempotencyRecord(c: Prepared, result: CommitResult, now: int)
      modifies this`idempotency
      ensures idempotency == old(idempotency)[c.IdempotencyKey() :=
                IdempotencyRecord(c.ToRequest(), result, now + settings.ttl)]
    {
      idempotency := idempotency[c.IdempotencyKey() := IdempotencyRecord(c.ToRequest(), result, now + settings.ttl)];
    }

    /** A stored revision answers its own retry. */
    method ReplayExisting(c: Prepared, now: int) returns (outcome: Outcome)
      requires c.header.revisionId in revisions
      modifies this`idempotency
      ensures (Tables(), outcome) == Replay(old(Tables()), c, now, settings)
    {
      var existing := revisions[c.header.revisionId];
      if !Matches(c.header.revisionId, existing, c) {
        return Err(RevisionIdReuse);
      }
      var receipt := ReceiptOf(c.header.revisionId, existing);
      if c.IdempotencyKey() in idempotency {
        var record := idempotency[c.IdempotencyKey()];
        if record.request != c.ToRequest() {
          return Err(IdempotencyKeyReuse);
        }
        if !SameReceipt(record.result.receipt, receipt) {
          return Err(RepositoryIntegrity(StoredResponseInvalid));
        }
        return Ok(record.result);
      }
      var replayed := CommitResult(receipt, Replayed);
      InsertIdempotencyRecord(c, replayed, now);
      return Ok(replayed);
    }

    /** Adds the revision to its file's graph. */
    method InsertRevision(h: Header, row: Revision)
      modifies this`files, this`revisions, this`parents, this`heads
      ensures Tables() == WithNode(old(Tables()), h, row)
    {
      if h.parents == [] {
        files := files[h.fileId := h.vaultId];
      }
      revisions := revisions[h.revisionId := row];
      ReplaceParentHeads(h);
    }

    /** Writes the rows of an accepted revision and advances the vault's sequence. */
    method InsertRows(c: Prepared, now: int) returns (accepted: CommitResult)
      requires c.header.vaultId in vaults
      modifies this
      ensures Tables() == WithRevision(old(Tables()), c, now, settings)
      ensures accepted == Tables().idempotency[c.IdempotencyKey()].result
    {
      hide WithNode, NewRow, ReceiptOf;
      var h, vault := c.header, vaults[c.header.vaultId];
      var row := NewRow(c, vault, now);
      InsertRevision(h, row);
      var receipt := ReceiptOf(h.revisionId, row);
      events := events[(h.vaultId, vault.next) := Event(h.revisionId, h.fileId, receipt)];
      vaults := vaults[h.vaultId := vault.(next := vault.next + 1)];
      accepted := CommitResult(receipt, Accepted);
      InsertIdempotencyRecord(c, accepted, now);
    }

    /** Validates a new revision and writes its rows, or leaves every table as it was. */
    method CommitNewRevision(c: Prepared, now: int) returns (outcome: Outcome)
      requires c.header.vaultId in vaults
      modifies this
      ensures (Tables(), outcome) == CommitNew(old(Tables()), c, now, settings)
    {
      hide WithinQuota, GraphFault, RowsCollide, WithRevision;
      var h, vault := c.header, vaults[c.header.vaultId];
      var serverSequence := vault.next;
      if !(0 < serverSequence <= MAX_SAFE_INTEGER) {
        return Err(RepositoryIntegrity(SequenceInvalid));
      }
      if serverSequence >= MAX_SAFE_INTEGER {
        return Err(RepositoryIntegrity(SequenceExhausted));
      }
      if !WithinQuota(Tables(), c, settings) {
        return Err(QuotaExceeded);
      }
      var fault := GraphFault(Tables(), h);
      if fault.Some? {
        return Err(fault.value);
      }
      if !(0 <= vault.writeEpoch <= MAX_SAFE_INTEGER) {
        return Err(RepositoryIntegrity(EpochInvalid));
      }
      if RowsCollide(Tables(), c, serverSequence) {
        return Err(ConstraintViolation);
      }
      var accepted := InsertRows(c, now);
      return Ok(accepted);
    }

    /** The commit transaction: accepts a revision, replays one, or rejects. */
    method CommitPrepared(c: Prepared, now: int) returns (outcome: Outcome)
      requires Inv(Tables()) && ValidHeader(c.header)
      modifies this
      ensures (Tables(), outcome) == Commit(old(Tables()), c, now, settings)
      ensures Inv(Tables())
      ensures outcome.Err? ==> Tables() == old(Tables())
      ensures outcome.Ok? ==>
                && c.header.revisionId in revisions
                && Matches(c.header.revisionId, revisions[c.header.revisionId], c)
                && outcome.result.receipt == ReceiptOf(c.header.revisionId, revisions[c.header.revisionId])
    {
      hide Inv, ValidHeader, Replay, CommitNew, Matches, ReceiptOf;
      CommitKeepsInv(Tables(), c, now, settings);
      CommitPromises(Tables(), c, now, settings);
      if !Authorized(Tables(), c.actor, c.header) {
        return Err(Forbidden);
      }
      if !LiveVault(Tables(), c.header.vaultId) {
        return Err(NotFound);
      }
      if c.header.revisionId in revisions {
        outcome := ReplayExisting(c, now);
        return;
      }
      if c.IdempotencyKey() in idempotency {
        if idempotency[c.IdempotencyKey()].request != c.ToRequest() {
          return Err(IdempotencyKeyReuse);
        }
        return Err(RepositoryIntegrity(ResponseWithoutRevision));
      }
      outcome := CommitNewRevision(c, now);
    }

    /** The hourly prune of idempotency records. */
    method PruneExpired(cutoff: int)
      requires Inv(Tables())
      modifies this`idempotency
      ensures Tables() == Prune(old(Tables()), cutoff) && Inv(Tables())
    {
      hide Inv;
      PruneIsEnvironment(Tables(), cutoff);
      EnvironmentKeepsInv(Tables(), Prune(Tables(), cutoff));
      idempotency := map k | k in idempotency && idempotency[k].expiresAt >= cutoff :: idempotency[k];
    }

    /** Reads events upwards from the cursor until the page is full or the log ends. */
    method Scan(v: Id, after: int, limit: int, next: int) returns (page: seq<int>)
      requires 0 <= limit && forall n :: (v, n) in events ==> n < next
      ensures IsPage(Tables(), v, after, limit, page)
    {
      hide IsPage, Scanned;
      ghost var db := Tables();
      ScanStart(db, v, after);
      page := [];
      var n := after + 1;
      while n < next && |page| < limit
        invariant |page| <= limit && Scanned(db, v, after, n, page)
      {
        ScanStep(db, v, after, n, page);
        if (v, n) in events {
          page := page + [n];
        }
        n := n + 1;
      }
      ScanDone(db, v, after, limit, n, page);
    }

    /** Reads the rows of a page; a row whose receipt does not match its cursor row is a fault. */
    method ParseRows(v: Id, page: seq<int>) returns (r: Listing)
      requires Inv(Tables()) && forall k :: 0 <= k < |page| ==> (v, page[k]) in events
      ensures r.Events? && |r.events| == |page|
      ensures forall k :: 0 <= k < |page| ==> r.events[k].sequence == page[k] && TellsRevision(Tables(), v, r.events[k])
    {
      hide Inv, TellsRevision;
      var parsed: seq<StoredEvent> := [];
      ghost var db := Tables();
      for k := 0 to |page|
        invariant |parsed| == k
        invariant forall l :: 0 <= l < k ==> parsed[l].sequence == page[l] && TellsRevision(db, v, parsed[l])
      {
        var n := page[k];
        var row := events[(v, n)];
        EventTells(db, v, n);
        if row.receipt.revisionId != row.revisionId || row.receipt.serverSequence != n {
          return CorruptRow(n);
        }
        parsed := parsed + [StoredEvent(n, row.revisionId, row.fileId, row.receipt)];
      }
      return Events(parsed);
    }

    /**
     * A bounded, ascending page strictly after the cursor, each event telling its stored revision. Refused
     * exactly for a bad cursor or page size; no stored row is ever corrupt.
     */
    method ListEvents(v: Id, after: int, limit: int) returns (r: Listing)
      requires Inv(Tables())
      ensures r.BadRequest? <==> !(0 <= after <= MAX_SAFE_INTEGER && 1 <= limit <= MAX_EVENT_PAGE_SIZE)
      ensures !r.BadRequest? ==>
                && r.Events? && IsPage(Tables(), v, after, limit, Sequences(r.events))
                && forall e :: e in r.events ==> TellsRevision(Tables(), v, e)
    {
      if !(0 <= after <= MAX_SAFE_INTEGER) || !(1 <= limit <= MAX_EVENT_PAGE_SIZE) {
        return BadRequest;
      }
      hide Inv, Scanned, TellsRevision;
      EventsStayBelow(Tables(), v);
      var page := [];
      if v in vaults {
        page := Scan(v, after, limit, vaults[v].next);
      }
      r := ParseRows(v, page);
      assert Sequences(r.events) == page;
    }
  }

  /** One event as it is returned to a client. */
  datatype StoredEvent = StoredEvent(sequence: int, revisionId: Id, fileId: Id, receipt: Receipt)

  datatype Listing = Events(events: seq<StoredEvent>) | BadRequest | CorruptRow(sequence: int)

  function Sequences(events: seq<StoredEvent>): seq<int> {
    seq(|events|, k requires 0 <= k < |events| => events[k].sequence)
  }

  /** The event carries the file and the receipt of the vault's revision with that sequence. */
  ghost predicate TellsRevision(db: Db, v: Id, e: StoredEvent) {
    && e.revisionId in db.revisions
    && var row := db.revisions[e.revisionId];
      && row.vaultId == v && row.serverSequence == e.sequence && row.fileId == e.fileId
      && e.receipt == ReceiptOf(e.revisionId, row)
  }

  lemma EventTells(db: Db, v: Id, n: int)
    requires Inv(db) && (v, n) in db.events
    ensures var row := db.events[(v, n)];
            && row.receipt.revisionId == row.revisionId && row.receipt.serverSequence == n
            && TellsRevision(db, v, StoredEvent(n, row.revisionId, row.fileId, row.receipt))
  {
    assert EventOk(db, v, n);
  }
}
