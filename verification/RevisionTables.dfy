/**
 * The server's revision tables as values, and one commit as a function of them.
 *
 * SHA-256 is treated as injective: a header stands for its canonical bytes and their hash, and a
 * request for its hash.
 */
module RevisionTables {

  import opened Options
  import opened StringOrder

  type Id = string
  type BlobHash = string

  const MAX_SAFE_INTEGER: int := 9_007_199_254_740_991
  const MAX_IDEMPOTENCY_KEY_LENGTH := 200
  const MAX_PARENTS := 32

  // ---- Rows -------------------------------------------------------------------------------------

  datatype Header = Header(vaultId: Id, fileId: Id, revisionId: Id, parents: seq<Id>, memberId: Id, deviceId: Id)

  datatype Actor = Actor(deviceId: Id, memberId: Id)

  /** What the request hash covers. */
  datatype Request = Request(actor: Actor, blobHash: BlobHash, header: Header)

  datatype Receipt = Receipt(revisionId: Id, memberId: Id, deviceId: Id, serverSequence: int, serverTime: int,
                             blobHash: BlobHash, byteLength: nat, parents: seq<Id>)

  datatype Status = Accepted | Replayed

  datatype CommitResult = CommitResult(receipt: Receipt, status: Status)

  datatype Revision = Revision(vaultId: Id, fileId: Id, memberId: Id, deviceId: Id, serverSequence: int,
                               writeEpoch: int, header: Header, blobHash: BlobHash, blobSize: nat, acceptedAt: int)

  datatype Vault = Vault(deleted: bool, writeEpoch: int, next: int, quota: Option<nat>)

  datatype Event = Event(revisionId: Id, fileId: Id, receipt: Receipt)

  datatype Membership = Membership(vaultId: Id, userId: Id, active: bool)

  datatype Device = Device(userId: Id, approved: bool)

  datatype IdempotencyRecord = IdempotencyRecord(request: Request, result: CommitResult, expiresAt: int)

  /** All tables a commit reads or writes; `heads` holds (file, revision) rows. */
  datatype Db = Db(
    users: map<Id, bool>,
    memberships: map<Id, Membership>,
    devices: map<Id, Device>,
    vaults: map<Id, Vault>,
    files: map<Id, Id>,
    revisions: map<Id, Revision>,
    parents: map<Id, seq<Id>>,
    heads: set<(Id, Id)>,
    events: map<(Id, int), Event>,
    idempotency: map<(Id, string), IdempotencyRecord>)

  const Empty := Db(map[], map[], map[], map[], map[], map[], map[], {}, map[], map[])

  // ---- Errors -----------------------------------------------------------------------------------

  datatype Fault = ResponseWithoutRevision | StoredResponseInvalid | SequenceInvalid | SequenceExhausted | EpochInvalid

  datatype Code =
    | FileAlreadyExists | IdempotencyKeyReuse | ParentFileMismatch | Forbidden | HeadSetChanged
    | InvalidRequest | MissingParent | NotFound | QuotaExceeded | RevisionIdReuse
    | RepositoryIntegrity(fault: Fault)
    | ConstraintViolation

  datatype Outcome = Ok(result: CommitResult) | Err(code: Code)

  /** A commit's validated input. */
  datatype Prepared = Prepared(actor: Actor, blobHash: BlobHash, blobSize: nat, header: Header, key: string) {
    function ToRequest(): Request { Request(actor, blobHash, header) }
    function IdempotencyKey(): (Id, string) { (actor.deviceId, key) }
  }

  /** The repository's settings. */
  datatype Settings = Settings(ttl: int, defaultQuota: nat)

  // ---- Header and key checks ----------------------------------------------------------------------

  /** The header schema's checks on the parent list: unique, not itself, in ascending order, at most 32. */
  predicate ValidHeader(h: Header) {
    && |h.parents| <= MAX_PARENTS
    && |Elements(h.parents)| == |h.parents|
    && h.revisionId !in h.parents
    && (forall i :: 1 <= i < |h.parents| ==> !Less(h.parents[i], h.parents[i - 1]))
  }

  predicate IsControl(c: char) {
    c as int <= 0x1f || c as int == 0x7f
  }

  /** Characters `trim` removes. */
  predicate IsBlank(c: char) {
    var n := c as int;
    || n == 0x20 || 0x09 <= n <= 0x0d || n == 0xa0 || n == 0x1680 || 0x2000 <= n <= 0x200a
    || n == 0x2028 || n == 0x2029 || n == 0x202f || n == 0x205f || n == 0x3000 || n == 0xfeff
  }

  predicate ValidKey(key: string) {
    && (exists i :: 0 <= i < |key| && !IsBlank(key[i]))
    && |key| <= MAX_IDEMPOTENCY_KEY_LENGTH
    && (forall i :: 0 <= i < |key| ==> !IsControl(key[i]))
  }

  // ---- Queries ------------------------------------------------------------------------------------

  predicate Authorized(db: Db, actor: Actor, header: Header) {
    && actor.memberId in db.memberships && actor.deviceId in db.devices
    && var m, d := db.memberships[actor.memberId], db.devices[actor.deviceId];
       && m.userId in db.users && m.vaultId == header.vaultId && m.userId == d.userId
       && m.active && db.users[m.userId] && d.approved
  }

  predicate LiveVault(db: Db, v: Id) {
    v in db.vaults && !db.vaults[v].deleted
  }

  function HeadSet(db: Db, f: Id): set<Id> {
    set row | row in db.heads && row.0 == f :: row.1
  }

  /** The file's heads in ascending order; none for a file of another vault. */
  function GetHeads(db: Db, v: Id, f: Id): seq<Id> {
    if f in db.files && db.files[f] == v then Sorted(HeadSet(db, f)) else []
  }

  function ReceiptOf(r: Id, x: Revision): Receipt {
    Receipt(r, x.memberId, x.deviceId, x.serverSequence, x.acceptedAt, x.blobHash, x.blobSize, x.header.parents)
  }

  /** The stored row was written by this very request. */
  predicate Matches(r: Id, x: Revision, c: Prepared) {
    && r == c.header.revisionId && x.vaultId == c.header.vaultId && x.fileId == c.header.fileId
    && x.memberId == c.actor.memberId && x.deviceId == c.actor.deviceId
    && x.header == c.header && x.blobHash == c.blobHash && x.blobSize == c.blobSize
  }

  /** `sameReceipt`: the parent list is not compared. */
  predicate SameReceipt(x: Receipt, y: Receipt) {
    x.(parents := []) == y.(parents := [])
  }

  // ---- Quota --------------------------------------------------------------------------------------

  function VaultHashes(db: Db, v: Id): set<BlobHash> {
    set r | r in db.revisions && db.revisions[r].vaultId == v :: db.revisions[r].blobHash
  }

  function SizesOf(db: Db, v: Id, h: BlobHash): set<nat> {
    set r | r in db.revisions && db.revisions[r].vaultId == v && db.revisions[r].blobHash == h ::
      db.revisions[r].blobSize
  }

  lemma {:induction false} LargestExists(s: set<nat>) returns (m: nat)
    requires s != {}
    ensures m in s && forall x :: x in s ==> x <= m
    decreases |s|
  {
    var x :| x in s;
    m := x;
    if s != {x} {
      var m' := LargestExists(s - {x});
      assert forall y :: y in s ==> y == x || y in s - {x};
      m := if m' > x then m' else x;
    } else {
      assert forall y :: y in s ==> y == x;
    }
  }

  /** A hash is charged once, at the largest size recorded for it. */
  function ChargedSize(db: Db, v: Id, h: BlobHash): (m: nat)
    requires h in VaultHashes(db, v)
    ensures m in SizesOf(db, v, h) && forall x :: x in SizesOf(db, v, h) ==> x <= m
  {
    var sizes := SizesOf(db, v, h);
    assert sizes != {} by {
      var r :| r in db.revisions && db.revisions[r].vaultId == v && db.revisions[r].blobHash == h;
      assert db.revisions[r].blobSize in sizes;
    }
    assert exists m :: m in sizes && forall x :: x in sizes ==> x <= m by { var m := LargestExists(sizes); }
    var m :| m in sizes && forall x :: x in sizes ==> x <= m;
    m
  }

  function ChargedSum(db: Db, v: Id, hashes: seq<BlobHash>): nat
    requires forall h :: h in hashes ==> h in VaultHashes(db, v)
  {
    if hashes == [] then 0 else ChargedSize(db, v, hashes[0]) + ChargedSum(db, v, hashes[1..])
  }

  /** The vault's storage: every distinct hash once. */
  function UsedBytes(db: Db, v: Id): nat {
    var hashes := Sorted(VaultHashes(db, v));
    assert forall h :: h in hashes ==> h in Elements(hashes);
    ChargedSum(db, v, hashes)
  }

  function EffectiveQuota(vault: Vault, defaultQuota: nat): nat {
    match vault.quota
    case Some(q) => q
    case None => defaultQuota
  }

  predicate WithinQuota(db: Db, c: Prepared, settings: Settings)
    requires c.header.vaultId in db.vaults
  {
    var v := c.header.vaultId;
    || c.blobHash in VaultHashes(db, v)
    || UsedBytes(db, v) + c.blobSize <= EffectiveQuota(db.vaults[v], settings.defaultQuota)
  }

  // ---- File graph ---------------------------------------------------------------------------------

  /** The first fault among the parents, in list order. */
  function ParentFault(db: Db, v: Id, f: Id, parents: seq<Id>): Option<Code> {
    if parents == [] then None
    else if parents[0] !in db.revisions then Some(MissingParent)
    else if db.revisions[parents[0]].vaultId != v || db.revisions[parents[0]].fileId != f then Some(ParentFileMismatch)
    else ParentFault(db, v, f, parents[1..])
  }

  /** Why the revision does not fit the file graph, if it does not. */
  function GraphFault(db: Db, h: Header): Option<Code> {
    if h.parents == [] then
      if h.fileId in db.files then
        Some(if db.files[h.fileId] == h.vaultId then FileAlreadyExists else ParentFileMismatch)
      else None
    else if h.fileId !in db.files then Some(MissingParent)
    else if db.files[h.fileId] != h.vaultId then Some(ParentFileMismatch)
    else
      match ParentFault(db, h.vaultId, h.fileId, h.parents)
      case Some(code) => Some(code)
      case None =>
        if |h.parents| >= 2 && GetHeads(db, h.vaultId, h.fileId) != h.parents then Some(HeadSetChanged) else None
  }

  // ---- A commit -----------------------------------------------------------------------------------

  function NewRow(c: Prepared, vault: Vault, now: int): Revision {
    Revision(c.header.vaultId, c.header.fileId, c.actor.memberId, c.actor.deviceId, vault.next, vault.writeEpoch,
             c.header, c.blobHash, c.blobSize, now)
  }

  /** A primary key or unique constraint the inserts would violate. */
  predicate RowsCollide(db: Db, c: Prepared, sequence: int) {
    || (exists r :: r in db.revisions && db.revisions[r].vaultId == c.header.vaultId
                    && db.revisions[r].serverSequence == sequence)
    || (c.header.vaultId, sequence) in db.events
    || (c.header.fileId, c.header.revisionId) in db.heads
    || c.header.revisionId in db.parents
  }

  /** The head rows after the file's listed parents gave way to the new revision. */
  function HeadsAfter(heads: set<(Id, Id)>, h: Header): set<(Id, Id)> {
    (set x | x in heads && !(x.0 == h.fileId && x.1 in h.parents)) + {(h.fileId, h.revisionId)}
  }

  /** The file graph after an accepted commit. */
  function WithNode(db: Db, h: Header, row: Revision): Db {
    db.(
      files := if h.parents == [] then db.files[h.fileId := h.vaultId] else db.files,
      revisions := db.revisions[h.revisionId := row],
      parents := db.parents[h.revisionId := h.parents],
      heads := HeadsAfter(db.heads, h))
  }

  /** The tables after an accepted commit. */
  function WithRevision(db: Db, c: Prepared, now: int, settings: Settings): Db
    requires c.header.vaultId in db.vaults
  {
    var h, vault := c.header, db.vaults[c.header.vaultId];
    var row := NewRow(c, vault, now);
    var receipt := ReceiptOf(h.revisionId, row);
    WithNode(db, h, row).(
      events := db.events[(h.vaultId, vault.next) := Event(h.revisionId, h.fileId, receipt)],
      vaults := db.vaults[h.vaultId := vault.(next := vault.next + 1)],
      idempotency := db.idempotency[c.IdempotencyKey() :=
        IdempotencyRecord(c.ToRequest(), CommitResult(receipt, Accepted), now + settings.ttl)])
  }

  function CommitNew(db: Db, c: Prepared, now: int, settings: Settings): (Db, Outcome)
    requires c.header.vaultId in db.vaults
  {
    var vault := db.vaults[c.header.vaultId];
    if !(0 < vault.next <= MAX_SAFE_INTEGER) then (db, Err(RepositoryIntegrity(SequenceInvalid)))
    else if vault.next >= MAX_SAFE_INTEGER then (db, Err(RepositoryIntegrity(SequenceExhausted)))
    else if !WithinQuota(db, c, settings) then (db, Err(QuotaExceeded))
    else if GraphFault(db, c.header).Some? then (db, Err(GraphFault(db, c.header).value))
    else if !(0 <= vault.writeEpoch <= MAX_SAFE_INTEGER) then (db, Err(RepositoryIntegrity(EpochInvalid)))
    else if RowsCollide(db, c, vault.next) then (db, Err(ConstraintViolation))
    else
      var db' := WithRevision(db, c, now, settings);
      (db', Ok(db'.idempotency[c.IdempotencyKey()].result))
  }

  function Replay(db: Db, c: Prepared, now: int, settings: Settings): (Db, Outcome)
    requires c.header.revisionId in db.revisions
  {
    var stored := db.revisions[c.header.revisionId];
    var receipt := ReceiptOf(c.header.revisionId, stored);
    if !Matches(c.header.revisionId, stored, c) then (db, Err(RevisionIdReuse))
    else if c.IdempotencyKey() in db.idempotency then
      var record := db.idempotency[c.IdempotencyKey()];
      if record.request != c.ToRequest() then (db, Err(IdempotencyKeyReuse))
      else if !SameReceipt(record.result.receipt, receipt) then (db, Err(RepositoryIntegrity(StoredResponseInvalid)))
      else (db, Ok(record.result))
    else
      var replayed := CommitResult(receipt, Replayed);
      (db.(idempotency := db.idempotency[c.IdempotencyKey() :=
             IdempotencyRecord(c.ToRequest(), replayed, now + settings.ttl)]),
       Ok(replayed))
  }

  /** One commit transaction: the tables after it, and its outcome. */
  function Commit(db: Db, c: Prepared, now: int, settings: Settings): (Db, Outcome) {
    if !Authorized(db, c.actor, c.header) then (db, Err(Forbidden))
    else if !LiveVault(db, c.header.vaultId) then (db, Err(NotFound))
    else if c.header.revisionId in db.revisions then Replay(db, c, now, settings)
    else if c.IdempotencyKey() in db.idempotency then
      (db, Err(if db.idempotency[c.IdempotencyKey()].request != c.ToRequest() then IdempotencyKeyReuse
               else RepositoryIntegrity(ResponseWithoutRevision)))
    else CommitNew(db, c, now, settings)
  }

  /** The checks before the transaction, on whatever state the tables are in then. */
  function Prepare(db: Db, c: Prepared): Option<Code> {
    if !ValidHeader(c.header) || !ValidKey(c.key) then Some(InvalidRequest)
    else if c.header.memberId != c.actor.memberId || c.header.deviceId != c.actor.deviceId then Some(Forbidden)
    else if !Authorized(db, c.actor, c.header) then Some(Forbidden)
    else if c.header.revisionId in db.revisions &&
            !Matches(c.header.revisionId, db.revisions[c.header.revisionId],
                     c.(blobSize := db.revisions[c.header.revisionId].blobSize)) then Some(RevisionIdReuse)
    else None
  }

  /** The read-only feasibility check run before the blob is written. */
  function Feasibility(db: Db, c: Prepared, settings: Settings): Option<Code> {
    if !Authorized(db, c.actor, c.header) then Some(Forbidden)
    else if !LiveVault(db, c.header.vaultId) then Some(NotFound)
    else if c.header.revisionId in db.revisions then
      if Matches(c.header.revisionId, db.revisions[c.header.revisionId], c) then None else Some(RevisionIdReuse)
    else if c.IdempotencyKey() in db.idempotency then
      Some(if db.idempotency[c.IdempotencyKey()].request != c.ToRequest() then IdempotencyKeyReuse
           else RepositoryIntegrity(ResponseWithoutRevision))
    else if !WithinQuota(db, c, settings) then Some(QuotaExceeded)
    else GraphFault(db, c.header)
  }
}
