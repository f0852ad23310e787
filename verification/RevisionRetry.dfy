/** Retries, unreachable faults, and what the feasibility check leaves out. */
module RevisionRetry {

  import opened Options
  import opened StringOrder
  import opened RevisionTables
  import opened RevisionInvariant
  import opened RevisionProps

  /** No revision, parent, head, event, file or cursor changed. */
  ghost predicate OnlyRecordsChanged(db: Db, db': Db) {
    db'.(idempotency := db.idempotency) == db
  }

  /** The device has no live record of using the key for a different request. */
  ghost predicate KeyFree(db: Db, c: Prepared) {
    c.IdempotencyKey() in db.idempotency ==> db.idempotency[c.IdempotencyKey()].request == c.ToRequest()
  }

  /** A committed request leaves a row that matches it. */
  lemma CommittedMatches(db: Db, c: Prepared, now: int, settings: Settings)
    requires Inv(db) && Commit(db, c, now, settings).1.Ok?
    ensures var (db', outcome) := Commit(db, c, now, settings);
            && c.header.revisionId in db'.revisions
            && Matches(c.header.revisionId, db'.revisions[c.header.revisionId], c)
            && outcome.result.receipt == ReceiptOf(c.header.revisionId, db'.revisions[c.header.revisionId])
  {
    hide ValidHeader, GraphFault, WithinQuota, RowsCollide, RowsOk, ParentsOk, RootsOk, HeadsOk, EventsOk;
    if c.IdempotencyKey() in db.idempotency {
      assert RecordOk(db, db.idempotency[c.IdempotencyKey()]);
    }
  }

  /** Against a stored, matching row a retry is answered from the row, or refused for its key alone. */
  lemma RetryAnswer(db: Db, c: Prepared, now: int, settings: Settings)
    requires Inv(db) && Authorized(db, c.actor, c.header) && LiveVault(db, c.header.vaultId)
    requires c.header.revisionId in db.revisions && Matches(c.header.revisionId, db.revisions[c.header.revisionId], c)
    ensures var (db', outcome) := Commit(db, c, now, settings);
            && OnlyRecordsChanged(db, db')
            && (outcome.Ok? <==> KeyFree(db, c))
            && (outcome.Ok? ==>
                  outcome.result.receipt == ReceiptOf(c.header.revisionId, db.revisions[c.header.revisionId]))
            && (outcome.Err? ==> outcome.code == IdempotencyKeyReuse && db' == db)
  {
    hide ValidHeader, GraphFault, WithinQuota, RowsCollide, RowsOk, ParentsOk, RootsOk, HeadsOk, EventsOk;
    if c.IdempotencyKey() in db.idempotency {
      assert RecordOk(db, db.idempotency[c.IdempotencyKey()]);
    }
  }

  /**
   * Once a commit has succeeded at step i, resubmitting it at any later step j, under any key,
   * while its actor is authorised and the vault is live, returns the same receipt and changes
   * nothing but idempotency records; the only refusal is a key with a live record of another request.
   */
  lemma RetryIsIdempotent(states: seq<Db>, settings: Settings, i: nat, j: nat, c: Prepared, now: int,
                          key: string, now': int)
    requires Run(states, settings) && i < j < |states|
    requires states[i + 1] == Commit(states[i], c, now, settings).0 && Commit(states[i], c, now, settings).1.Ok?
    requires Authorized(states[j], c.actor, c.header) && LiveVault(states[j], c.header.vaultId)
    ensures var retry := c.(key := key);
            var (db', outcome) := Commit(states[j], retry, now', settings);
            && OnlyRecordsChanged(states[j], db')
            && (outcome.Ok? <==> KeyFree(states[j], retry))
            && (outcome.Ok? ==> outcome.result.receipt == Commit(states[i], c, now, settings).1.result.receipt)
            && (outcome.Err? ==> outcome.code == IdempotencyKeyReuse && db' == states[j])
  {
    hide Inv, Commit, Run;
    RunInv(states, settings, i);
    RunInv(states, settings, j);
    CommittedMatches(states[i], c, now, settings);
    RunExtends(states, settings, i + 1, j);
    RetryAnswer(states[j], c.(key := key), now', settings);
  }

  /** The checks before the transaction also let such a retry through. */
  lemma RetryPasses(states: seq<Db>, settings: Settings, i: nat, j: nat, c: Prepared, now: int, key: string)
    requires Run(states, settings) && i < j < |states|
    requires states[i + 1] == Commit(states[i], c, now, settings).0 && Commit(states[i], c, now, settings).1.Ok?
    requires Prepare(states[i], c).None? && ValidKey(key) && Authorized(states[j], c.actor, c.header)
    ensures Prepare(states[j], c.(key := key)).None?
  {
    hide Inv, Commit, Run, ValidHeader, ValidKey;
    RunInv(states, settings, i);
    CommittedMatches(states[i], c, now, settings);
    RunExtends(states, settings, i + 1, j);
  }

  // ---- Branches no reachable state takes -------------------------------------------------------------

  /** The inserts never meet an existing key. */
  lemma NoCollision(db: Db, c: Prepared)
    requires Inv(db) && c.header.vaultId in db.vaults && c.header.revisionId !in db.revisions
    ensures !RowsCollide(db, c, db.vaults[c.header.vaultId].next)
  {
    hide ValidHeader;
    var v, next := c.header.vaultId, db.vaults[c.header.vaultId].next;
    assert (v, next) in db.events ==> EventOk(db, v, next);
    assert forall r :: r in db.revisions ==> RowOk(db, r);
    assert (c.header.fileId, c.header.revisionId) in db.heads <==> IsTip(db, c.header.fileId, c.header.revisionId);
  }

  /** The faults that would mean the tables contradict each other. */
  predicate Internal(code: Code) {
    || code == RepositoryIntegrity(ResponseWithoutRevision)
    || code == RepositoryIntegrity(StoredResponseInvalid)
    || code == RepositoryIntegrity(SequenceInvalid)
    || code == ConstraintViolation
  }

  lemma NewCommitFaults(db: Db, c: Prepared, now: int, settings: Settings)
    requires Inv(db) && c.header.vaultId in db.vaults && c.header.revisionId !in db.revisions
    ensures var outcome := CommitNew(db, c, now, settings).1; outcome.Err? ==> !Internal(outcome.code)
  {
    hide GraphFault, WithinQuota, RowsCollide, ParentsOk, RootsOk, HeadsOk, EventsOk, RecordsOk, WithRevision;
    NoCollision(db, c);
    GraphFaultCodes(db, c.header);
  }

  lemma ReplayFaults(db: Db, c: Prepared, now: int, settings: Settings)
    requires Inv(db) && c.header.revisionId in db.revisions
    ensures var outcome := Replay(db, c, now, settings).1; outcome.Err? ==> !Internal(outcome.code)
  {
    hide RowsOk, ParentsOk, RootsOk, HeadsOk, EventsOk;
    if c.IdempotencyKey() in db.idempotency {
      assert RecordOk(db, db.idempotency[c.IdempotencyKey()]);
    }
  }

  /**
   * An idempotency record never answers without its revision nor with another receipt, and no
   * insert violates a key.
   */
  lemma NoInternalFault(db: Db, c: Prepared, now: int, settings: Settings)
    requires Inv(db)
    ensures var outcome := Commit(db, c, now, settings).1; outcome.Err? ==> !Internal(outcome.code)
  {
    hide RowsOk, ParentsOk, RootsOk, HeadsOk, EventsOk, Replay, CommitNew;
    if c.header.revisionId in db.revisions {
      ReplayFaults(db, c, now, settings);
    } else {
      if c.IdempotencyKey() in db.idempotency {
        assert RecordOk(db, db.idempotency[c.IdempotencyKey()]);
      }
      if c.header.vaultId in db.vaults {
        NewCommitFaults(db, c, now, settings);
      }
    }
  }

  lemma {:induction false} ParentFaultCodes(db: Db, v: Id, f: Id, parents: seq<Id>)
    ensures var fault := ParentFault(db, v, f, parents);
            fault.Some? ==> fault.value in {MissingParent, ParentFileMismatch}
  {
    if parents != [] {
      ParentFaultCodes(db, v, f, parents[1..]);
    }
  }

  lemma GraphFaultCodes(db: Db, h: Header)
    ensures var fault := GraphFault(db, h);
            fault.Some? ==> fault.value in {FileAlreadyExists, MissingParent, ParentFileMismatch, HeadSetChanged}
  {
    ParentFaultCodes(db, h.vaultId, h.fileId, h.parents);
  }

  // ---- The feasibility check ---------------------------------------------------------------------------

  /** A stored request whose key the device used for something else. */
  ghost predicate ReusedKeyOnReplay(db: Db, c: Prepared) {
    && c.header.revisionId in db.revisions && Matches(c.header.revisionId, db.revisions[c.header.revisionId], c)
    && !KeyFree(db, c)
  }

  /** A new revision for a vault whose sequence or epoch cannot advance. */
  ghost predicate Exhausted(db: Db, c: Prepared) {
    && c.header.revisionId !in db.revisions && c.header.vaultId in db.vaults
    && var vault := db.vaults[c.header.vaultId];
      vault.next >= MAX_SAFE_INTEGER || !(0 <= vault.writeEpoch <= MAX_SAFE_INTEGER)
  }

  lemma NewCommitSucceedsIff(db: Db, c: Prepared, now: int, settings: Settings)
    requires Inv(db) && c.header.vaultId in db.vaults && c.header.revisionId !in db.revisions
    ensures CommitNew(db, c, now, settings).1.Ok? <==>
              WithinQuota(db, c, settings) && GraphFault(db, c.header).None? && !Exhausted(db, c)
    ensures !Exhausted(db, c) && !WithinQuota(db, c, settings) ==>
              CommitNew(db, c, now, settings).1 == Err(QuotaExceeded)
    ensures !Exhausted(db, c) && WithinQuota(db, c, settings) && GraphFault(db, c.header).Some? ==>
              CommitNew(db, c, now, settings).1 == Err(GraphFault(db, c.header).value)
  {
    hide GraphFault, WithinQuota, RowsCollide, ParentsOk, RootsOk, HeadsOk, EventsOk, RecordsOk, WithRevision;
    NoCollision(db, c);
  }

  lemma ReplaySucceedsIff(db: Db, c: Prepared, now: int, settings: Settings)
    requires Inv(db) && c.header.revisionId in db.revisions
    ensures Replay(db, c, now, settings).1.Ok? <==>
              Matches(c.header.revisionId, db.revisions[c.header.revisionId], c) && KeyFree(db, c)
    ensures !Matches(c.header.revisionId, db.revisions[c.header.revisionId], c) ==>
              Replay(db, c, now, settings).1 == Err(RevisionIdReuse)
  {
    hide RowsOk, ParentsOk, RootsOk, HeadsOk, EventsOk, Matches;
    if c.IdempotencyKey() in db.idempotency {
      assert RecordOk(db, db.idempotency[c.IdempotencyKey()]);
    }
  }

  /**
   * A commit succeeds if and only if the read-only check passes, the key was not used for another
   * request, and the vault is not exhausted; otherwise both report the same code.
   */
  lemma FeasibilityExact(db: Db, c: Prepared, now: int, settings: Settings)
    requires Inv(db)
    ensures Commit(db, c, now, settings).1.Ok? <==>
              Feasibility(db, c, settings).None? && !ReusedKeyOnReplay(db, c) && !Exhausted(db, c)
    ensures Feasibility(db, c, settings).Some? && !Exhausted(db, c) ==>
              Commit(db, c, now, settings).1 == Err(Feasibility(db, c, settings).value)
  {
    hide Inv, GraphFault, WithinQuota, CommitNew, Replay, Matches;
    if c.header.revisionId in db.revisions {
      ReplaySucceedsIff(db, c, now, settings);
    } else if c.header.vaultId in db.vaults {
      NewCommitSucceedsIff(db, c, now, settings);
    }
  }

  /** A first revision of a new file under a new key is accepted. */
  lemma RootAccepted(db: Db, c: Prepared, now: int, settings: Settings)
    requires Inv(db) && Authorized(db, c.actor, c.header) && LiveVault(db, c.header.vaultId)
    requires c.header.parents == [] && c.header.fileId !in db.files && c.header.revisionId !in db.revisions
    requires c.IdempotencyKey() !in db.idempotency && WithinQuota(db, c, settings) && !Exhausted(db, c)
    ensures Commit(db, c, now, settings).0 == WithRevision(db, c, now, settings)
  {
    NewCommitSucceedsIff(db, c, now, settings);
    hide Inv, Authorized, LiveVault, WithinQuota, RowsCollide, WithRevision, Replay;
  }

  /** A device's commit of a first revision of one byte. */
  function FirstRevision(fileId: Id, revisionId: Id, key: string): Prepared {
    Prepared(Actor("d", "m"), "b", 1, Header("v", fileId, revisionId, [], "m", "d"), key)
  }

  /** One user with one device, a member of one vault. */
  function Opened(): Db {
    Empty.(users := map["u" := true], memberships := map["m" := Membership("v", "u", true)],
           devices := map["d" := Device("u", true)], vaults := map["v" := Vault(false, 0, 1, None)])
  }

  lemma OpenedTakesBytes(c: Prepared, settings: Settings)
    requires c.header.vaultId == "v" && c.blobSize <= settings.defaultQuota
    ensures WithinQuota(Opened(), c, settings)
  {
    assert VaultHashes(Opened(), "v") == {};
    assert Sorted(VaultHashes(Opened(), "v")) == [];
  }

  /**
   * The check accepts what the commit refuses: after two commits, the first is sent again under the second's
   * key. The stored revision makes the check return before it looks at the key.
   */
  lemma FeasibilityGap(settings: Settings) returns (states: seq<Db>, c: Prepared)
    requires 1 <= settings.defaultQuota
    ensures Run(states, settings) && Prepare(states[|states| - 1], c).None?
    ensures var db := states[|states| - 1];
            && Feasibility(db, c, settings).None?
            && forall now :: Commit(db, c, now, settings) == (db, Err(IdempotencyKeyReuse))
  {
    var first, second := FirstRevision("f1", "r1", "k1"), FirstRevision("f2", "r2", "k2");
    var one := WithRevision(Opened(), first, 0, settings);
    var two := WithRevision(one, second, 0, settings);
    states, c := [Empty, Opened(), one, two], first.(key := "k2");
    GapRun(settings, first, second, one, two);
    GapAnswers(settings, first, second, one, two);
  }

  lemma GapRun(settings: Settings, first: Prepared, second: Prepared, one: Db, two: Db)
    requires 1 <= settings.defaultQuota
    requires first == FirstRevision("f1", "r1", "k1") && second == FirstRevision("f2", "r2", "k2")
    requires one == WithRevision(Opened(), first, 0, settings) && two == WithRevision(one, second, 0, settings)
    ensures Run([Empty, Opened(), one, two], settings)
  {
    hide Inv, Commit, WithRevision, Environment, ValidHeader, Opened, FirstRevision;
    GapFirst(settings, first, one);
    GapSecond(settings, first, second, one, two);
    assert Next(Empty, Opened(), settings);
    assert Next(Opened(), one, settings);
    assert Next(one, two, settings);
  }

  lemma GapFirst(settings: Settings, first: Prepared, one: Db)
    requires 1 <= settings.defaultQuota && first == FirstRevision("f1", "r1", "k1")
    requires one == WithRevision(Opened(), first, 0, settings)
    ensures Environment(Empty, Opened()) && ValidHeader(first.header) && Inv(one)
    ensures Commit(Opened(), first, 0, settings).0 == one
  {
    hide Inv, Commit, WithRevision, WithinQuota;
    InitInv();
    EnvironmentKeepsInv(Empty, Opened());
    OpenedTakesBytes(first, settings);
    RootAccepted(Opened(), first, 0, settings);
    CommitKeepsInv(Opened(), first, 0, settings);
  }

  lemma GapSecond(settings: Settings, first: Prepared, second: Prepared, one: Db, two: Db)
    requires first == FirstRevision("f1", "r1", "k1") && second == FirstRevision("f2", "r2", "k2") && Inv(one)
    requires one == WithRevision(Opened(), first, 0, settings) && two == WithRevision(one, second, 0, settings)
    ensures ValidHeader(second.header) && Commit(one, second, 0, settings).0 == two
  {
    hide Inv, Commit;
    GapRoom(settings, first, second, one);
    hide WithRevision, WithinQuota, Exhausted;
    RootAccepted(one, second, 0, settings);
  }

  lemma GapRoom(settings: Settings, first: Prepared, second: Prepared, one: Db)
    requires first == FirstRevision("f1", "r1", "k1") && second == FirstRevision("f2", "r2", "k2")
    requires one == WithRevision(Opened(), first, 0, settings)
    ensures one.users == Opened().users && one.memberships == Opened().memberships && one.devices == Opened().devices
    ensures LiveVault(one, "v") && WithinQuota(one, second, settings) && !Exhausted(one, second)
    ensures "f2" !in one.files && "r2" !in one.revisions && second.IdempotencyKey() !in one.idempotency
  {
    assert one.revisions["r1"].blobHash in VaultHashes(one, "v");
  }

  lemma GapAnswers(settings: Settings, first: Prepared, second: Prepared, one: Db, two: Db)
    requires first == FirstRevision("f1", "r1", "k1") && second == FirstRevision("f2", "r2", "k2")
    requires one == WithRevision(Opened(), first, 0, settings) && two == WithRevision(one, second, 0, settings)
    ensures var c := first.(key := "k2");
            && Prepare(two, c).None? && Feasibility(two, c, settings).None?
            && forall now :: Commit(two, c, now, settings) == (two, Err(IdempotencyKeyReuse))
  {
    var c := first.(key := "k2");
    assert two.revisions["r1"] == one.revisions["r1"] && Matches("r1", two.revisions["r1"], c);
    assert two.idempotency[c.IdempotencyKey()].request == second.ToRequest() != c.ToRequest();
    assert !IsBlank(c.key[0]);
    assert Authorized(two, c.actor, c.header) && LiveVault(two, "v");
    hide WithRevision, Authorized, LiveVault, WithinQuota, GraphFault, CommitNew;
  }
}
