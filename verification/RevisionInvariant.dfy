/** What every reachable state of the revision tables keeps. */
module RevisionInvariant {

  import opened StringOrder
  import opened RevisionTables

  // ---- The invariant -------------------------------------------------------------------------------

  ghost predicate RowOk(db: Db, r: Id)
    requires r in db.revisions
  {
    var x := db.revisions[r];
    && x.header.revisionId == r && x.header.vaultId == x.vaultId && x.header.fileId == x.fileId
    && ValidHeader(x.header)
    && x.vaultId in db.vaults && x.fileId in db.files && db.files[x.fileId] == x.vaultId
    && 1 <= x.serverSequence < db.vaults[x.vaultId].next
  }

  ghost predicate RowsOk(db: Db) {
    && (forall v :: v in db.vaults ==> 1 <= db.vaults[v].next <= MAX_SAFE_INTEGER)
    && (forall f :: f in db.files ==> db.files[f] in db.vaults)
    && (forall r :: r in db.revisions ==> RowOk(db, r))
  }

  /** A parent is a stored revision of the same file with a smaller sequence. */
  ghost predicate ParentOk(db: Db, r: Id, p: Id)
    requires r in db.revisions
  {
    && p in db.revisions
    && db.revisions[p].vaultId == db.revisions[r].vaultId
    && db.revisions[p].fileId == db.revisions[r].fileId
    && db.revisions[p].serverSequence < db.revisions[r].serverSequence
  }

  ghost predicate ParentsOk(db: Db) {
    && db.parents.Keys == db.revisions.Keys
    && (forall r :: r in db.revisions ==> db.parents[r] == db.revisions[r].header.parents)
    && (forall r, p :: r in db.revisions && p in db.revisions[r].header.parents ==> ParentOk(db, r, p))
  }

  ghost predicate IsRoot(db: Db, f: Id, r: Id) {
    r in db.revisions && db.revisions[r].fileId == f && db.revisions[r].header.parents == []
  }

  ghost predicate RootsOk(db: Db) {
    && (forall f :: f in db.files ==> exists r :: IsRoot(db, f, r))
    && (forall f, r, r' :: IsRoot(db, f, r) && IsRoot(db, f, r') ==> r == r')
  }

  ghost predicate HasChild(db: Db, r: Id) {
    exists c :: c in db.revisions && r in db.revisions[c].header.parents
  }

  /** A revision of the file that is nobody's parent. */
  ghost predicate IsTip(db: Db, f: Id, r: Id) {
    r in db.revisions && db.revisions[r].fileId == f && !HasChild(db, r)
  }

  ghost predicate HeadsOk(db: Db) {
    forall f, r :: (f, r) in db.heads <==> IsTip(db, f, r)
  }

  ghost predicate EventOk(db: Db, v: Id, n: int)
    requires (v, n) in db.events
  {
    var e := db.events[(v, n)];
    && v in db.vaults && 1 <= n < db.vaults[v].next
    && e.revisionId in db.revisions
    && db.revisions[e.revisionId].vaultId == v && db.revisions[e.revisionId].serverSequence == n
    && e.fileId == db.revisions[e.revisionId].fileId
    && e.receipt == ReceiptOf(e.revisionId, db.revisions[e.revisionId])
  }

  /** A vault's events are exactly the sequences 1..cursor, one per revision. */
  ghost predicate EventsOk(db: Db) {
    && (forall v, n :: (v, n) in db.events ==> EventOk(db, v, n))
    && (forall v, n :: v in db.vaults && 1 <= n < db.vaults[v].next ==> (v, n) in db.events)
    && (forall r :: r in db.revisions ==>
          var at := (db.revisions[r].vaultId, db.revisions[r].serverSequence);
          at in db.events && db.events[at].revisionId == r)
  }

  /** The record answers for a stored revision with that revision's receipt. */
  ghost predicate RecordOk(db: Db, record: IdempotencyRecord) {
    var r := record.request.header.revisionId;
    && r in db.revisions
    && db.revisions[r].header == record.request.header
    && db.revisions[r].blobHash == record.request.blobHash
    && record.result.receipt == ReceiptOf(r, db.revisions[r])
  }

  ghost predicate RecordsOk(db: Db) {
    forall k :: k in db.idempotency ==> RecordOk(db, db.idempotency[k])
  }

  ghost predicate Inv(db: Db) {
    RowsOk(db) && ParentsOk(db) && RootsOk(db) && HeadsOk(db) && EventsOk(db) && RecordsOk(db)
  }

  lemma InitInv()
    ensures Inv(Empty)
  {
  }

  // ---- Header order -------------------------------------------------------------------------------

  lemma {:induction false} DistinctElements(xs: seq<string>)
    ensures |Elements(xs)| <= |xs|
    ensures |Elements(xs)| == |xs| ==> forall i, j :: 0 <= i < j < |xs| ==> xs[i] != xs[j]
  {
    if xs != [] {
      DistinctElements(xs[1..]);
      assert xs == [xs[0]] + xs[1..];
      ElementsCons(xs[0], xs[1..]);
      if |Elements(xs)| == |xs| {
        assert xs[0] !in Elements(xs[1..]);
        forall i, j | 0 <= i < j < |xs| ensures xs[i] != xs[j] {
          assert xs[j] == xs[1..][j - 1];
          if i > 0 {
            assert xs[i] == xs[1..][i - 1];
          }
        }
      }
    }
  }

  lemma {:induction false} AscendingStep(xs: seq<string>, i: nat, j: nat)
    requires i < j < |xs|
    requires forall k :: 1 <= k < |xs| ==> Less(xs[k - 1], xs[k])
    ensures Less(xs[i], xs[j])
    decreases j - i
  {
    if i + 1 < j {
      AscendingStep(xs, i, j - 1);
      LessTransitive(xs[i], xs[j - 1], xs[j]);
    }
  }

  /** An ascending list has no repeats. */
  lemma {:induction false} AscendingIsUnique(xs: seq<string>)
    requires Ascending(xs)
    ensures |Elements(xs)| == |xs|
  {
    if xs != [] {
      TailElements(xs);
      AscendingIsUnique(xs[1..]);
      assert Elements(xs) == Elements(xs[1..]) + {xs[0]};
    }
  }

  /** The schema's separate checks amount to a strictly ascending list of at most 32 parents without the revision. */
  lemma ValidHeaderIff(h: Header)
    ensures ValidHeader(h) <==> Ascending(h.parents) && |h.parents| <= 32 && h.revisionId !in h.parents
  {
    if ValidHeader(h) {
      ValidHeaderAscending(h);
    }
    if Ascending(h.parents) {
      AscendingIsUnique(h.parents);
      forall i | 1 <= i < |h.parents| ensures !Less(h.parents[i], h.parents[i - 1]) {
        LessAsymmetric(h.parents[i - 1], h.parents[i]);
      }
    }
  }

  lemma ValidHeaderAscending(h: Header)
    requires ValidHeader(h)
    ensures Ascending(h.parents)
  {
    var xs := h.parents;
    DistinctElements(xs);
    forall k | 1 <= k < |xs| ensures Less(xs[k - 1], xs[k]) {
      LessTotal(xs[k - 1], xs[k]);
    }
    forall i, j | 0 <= i < j < |xs| ensures Less(xs[i], xs[j]) {
      AscendingStep(xs, i, j);
    }
  }

  /** Comparing the listed heads with the parents line by line is comparing two sets. */
  lemma HeadComparisonIsSetEquality(db: Db, h: Header)
    requires ValidHeader(h) && h.fileId in db.files && db.files[h.fileId] == h.vaultId
    ensures GetHeads(db, h.vaultId, h.fileId) == h.parents <==> HeadSet(db, h.fileId) == Elements(h.parents)
  {
    ValidHeaderAscending(h);
    var heads := GetHeads(db, h.vaultId, h.fileId);
    if HeadSet(db, h.fileId) == Elements(h.parents) {
      AscendingUnique(heads, h.parents);
    }
  }

  // ---- Preservation -------------------------------------------------------------------------------

  lemma {:induction false} ParentsPresent(db: Db, v: Id, f: Id, parents: seq<Id>)
    requires ParentFault(db, v, f, parents).None?
    ensures forall p :: p in parents ==>
              p in db.revisions && db.revisions[p].vaultId == v && db.revisions[p].fileId == f
  {
    if parents != [] {
      ParentsPresent(db, v, f, parents[1..]);
      assert forall p :: p in parents ==> p == parents[0] || p in parents[1..];
    }
  }

  /** The commit reaches its inserts. */
  ghost predicate Accepts(db: Db, c: Prepared, now: int, settings: Settings) {
    && c.header.vaultId in db.vaults && c.header.revisionId !in db.revisions
    && db.vaults[c.header.vaultId].next < MAX_SAFE_INTEGER
    && ValidHeader(c.header)
    && GraphFault(db, c.header).None?
  }

  lemma AcceptedGraph(db: Db, c: Prepared, now: int, settings: Settings)
    requires Accepts(db, c, now, settings)
    ensures c.header.parents == [] ==> c.header.fileId !in db.files
    ensures c.header.parents != [] ==> c.header.fileId in db.files && db.files[c.header.fileId] == c.header.vaultId
    ensures forall p :: p in c.header.parents ==>
              && p in db.revisions && db.revisions[p].vaultId == c.header.vaultId
              && db.revisions[p].fileId == c.header.fileId
    ensures |c.header.parents| >= 2 ==> HeadSet(db, c.header.fileId) == Elements(c.header.parents)
  {
    var h := c.header;
    if h.parents != [] {
      ParentsPresent(db, h.vaultId, h.fileId, h.parents);
      HeadComparisonIsSetEquality(db, h);
    }
  }

  lemma AcceptKeepsRows(db: Db, c: Prepared, now: int, settings: Settings)
    requires RowsOk(db) && Accepts(db, c, now, settings)
    ensures RowsOk(WithRevision(db, c, now, settings))
  {
    hide ValidHeader, GraphFault;
    AcceptedGraph(db, c, now, settings);
    var db' := WithRevision(db, c, now, settings);
    forall r | r in db'.revisions ensures RowOk(db', r) {
      if r != c.header.revisionId {
        assert RowOk(db, r);
      }
    }
  }

  lemma AcceptKeepsParents(db: Db, c: Prepared, now: int, settings: Settings)
    requires RowsOk(db) && ParentsOk(db) && Accepts(db, c, now, settings)
    ensures ParentsOk(WithRevision(db, c, now, settings))
  {
    hide ValidHeader, GraphFault;
    AcceptedGraph(db, c, now, settings);
    var db' := WithRevision(db, c, now, settings);
    forall r, p | r in db'.revisions && p in db'.revisions[r].header.parents ensures ParentOk(db', r, p) {
      if r != c.header.revisionId {
        assert ParentOk(db, r, p);
      } else {
        assert RowOk(db, p);
      }
    }
  }

  lemma AcceptKeepsRoots(db: Db, c: Prepared, now: int, settings: Settings)
    requires RowsOk(db) && RootsOk(db) && Accepts(db, c, now, settings)
    ensures RootsOk(WithRevision(db, c, now, settings))
  {
    hide ValidHeader, GraphFault;
    AcceptedGraph(db, c, now, settings);
    var db' := WithRevision(db, c, now, settings);
    var h := c.header;
    forall f | f in db'.files ensures exists r :: IsRoot(db', f, r) {
      if h.parents == [] && f == h.fileId {
        assert IsRoot(db', f, h.revisionId);
      } else {
        var r :| IsRoot(db, f, r);
        assert IsRoot(db', f, r);
      }
    }
    forall f, r, r' | IsRoot(db', f, r) && IsRoot(db', f, r') ensures r == r' {
      assert r != h.revisionId ==> RowOk(db, r) && IsRoot(db, f, r);
      assert r' != h.revisionId ==> RowOk(db, r') && IsRoot(db, f, r');
    }
  }

  lemma ChildrenAfter(db: Db, c: Prepared, now: int, settings: Settings, r: Id)
    requires Accepts(db, c, now, settings)
    ensures HasChild(WithRevision(db, c, now, settings), r) <==> HasChild(db, r) || r in c.header.parents
  {
    hide GraphFault, ValidHeader;
    var db' := WithRevision(db, c, now, settings);
    assert forall x :: x in db.revisions ==> x in db'.revisions && db'.revisions[x] == db.revisions[x];
    assert c.header.revisionId in db'.revisions && db'.revisions[c.header.revisionId].header == c.header;
    if HasChild(db, r) {
      var x :| x in db.revisions && r in db.revisions[x].header.parents;
      assert x in db'.revisions;
    }
  }

  lemma NewIsNobodysParent(db: Db, c: Prepared, now: int, settings: Settings)
    requires ParentsOk(db) && Accepts(db, c, now, settings)
    ensures !HasChild(db, c.header.revisionId) && c.header.revisionId !in c.header.parents
  {
    assert forall x :: x in db.revisions && c.header.revisionId in db.revisions[x].header.parents ==>
        ParentOk(db, x, c.header.revisionId);
  }

  lemma AcceptKeepsHeads(db: Db, c: Prepared, now: int, settings: Settings)
    requires RowsOk(db) && ParentsOk(db) && HeadsOk(db) && Accepts(db, c, now, settings)
    ensures HeadsOk(WithRevision(db, c, now, settings))
  {
    var db' := WithRevision(db, c, now, settings);
    forall f, r ensures (f, r) in db'.heads <==> IsTip(db', f, r) {
      AcceptedHead(db, c, now, settings, f, r);
    }
  }

  lemma AcceptedHead(db: Db, c: Prepared, now: int, settings: Settings, f: Id, r: Id)
    requires RowsOk(db) && ParentsOk(db) && HeadsOk(db) && Accepts(db, c, now, settings)
    ensures (f, r) in WithRevision(db, c, now, settings).heads <==> IsTip(WithRevision(db, c, now, settings), f, r)
  {
    AcceptedGraph(db, c, now, settings);
    ChildrenAfter(db, c, now, settings, r);
    NewIsNobodysParent(db, c, now, settings);
    hide GraphFault, ValidHeader, HasChild, RowsOk, ParentsOk, Accepts;
    var db' := WithRevision(db, c, now, settings);
    assert (f, r) in db.heads <==> IsTip(db, f, r);
  }

  lemma AcceptedEvent(db: Db, c: Prepared, now: int, settings: Settings, v: Id, n: int)
    requires RowsOk(db) && EventsOk(db) && Accepts(db, c, now, settings)
    requires (v, n) in WithRevision(db, c, now, settings).events
    ensures EventOk(WithRevision(db, c, now, settings), v, n)
  {
    hide ValidHeader, GraphFault, HeadsAfter;
    if (v, n) in db.events {
      assert EventOk(db, v, n);
    }
  }

  /** The event of a revision, after the commit. */
  lemma AcceptedAt(db: Db, c: Prepared, now: int, settings: Settings, r: Id)
    requires RowsOk(db) && EventsOk(db) && Accepts(db, c, now, settings)
    requires r in WithRevision(db, c, now, settings).revisions
    ensures var db' := WithRevision(db, c, now, settings);
            var at := (db'.revisions[r].vaultId, db'.revisions[r].serverSequence);
            at in db'.events && db'.events[at].revisionId == r
  {
    hide ValidHeader, GraphFault, HeadsAfter, ReceiptOf;
    if r != c.header.revisionId {
      assert RowOk(db, r);
    }
  }

  lemma AcceptKeepsEvents(db: Db, c: Prepared, now: int, settings: Settings)
    requires RowsOk(db) && EventsOk(db) && Accepts(db, c, now, settings)
    ensures EventsOk(WithRevision(db, c, now, settings))
  {
    hide ValidHeader, GraphFault, HeadsAfter, ReceiptOf, RowsOk, EventOk;
    var db' := WithRevision(db, c, now, settings);
    forall v, n | (v, n) in db'.events ensures EventOk(db', v, n) { AcceptedEvent(db, c, now, settings, v, n); }
    forall r | r in db'.revisions
      ensures var at := (db'.revisions[r].vaultId, db'.revisions[r].serverSequence);
              at in db'.events && db'.events[at].revisionId == r
    {
      AcceptedAt(db, c, now, settings, r);
    }
  }

  lemma AcceptKeepsRecords(db: Db, c: Prepared, now: int, settings: Settings)
    requires RecordsOk(db) && Accepts(db, c, now, settings)
    ensures RecordsOk(WithRevision(db, c, now, settings))
  {
    hide ValidHeader, GraphFault;
    var db' := WithRevision(db, c, now, settings);
    forall k | k in db'.idempotency ensures RecordOk(db', db'.idempotency[k]) {
      if k != c.IdempotencyKey() {
        assert RecordOk(db, db.idempotency[k]);
      }
    }
  }

  lemma AcceptKeepsInv(db: Db, c: Prepared, now: int, settings: Settings)
    requires Inv(db) && Accepts(db, c, now, settings)
    ensures Inv(WithRevision(db, c, now, settings))
  {
    AcceptKeepsRows(db, c, now, settings);
    AcceptKeepsParents(db, c, now, settings);
    AcceptKeepsRoots(db, c, now, settings);
    AcceptKeepsHeads(db, c, now, settings);
    AcceptKeepsEvents(db, c, now, settings);
    AcceptKeepsRecords(db, c, now, settings);
  }

  /**
   * What everything but a commit may change: accounts, devices, memberships, new vaults, a vault's
   * deletion mark, epoch and quota, and idempotency records, which may disappear.
   */
  ghost predicate Environment(db: Db, db': Db) {
    && db'.files == db.files && db'.revisions == db.revisions && db'.parents == db.parents
    && db'.heads == db.heads && db'.events == db.events
    && (forall v :: v in db.vaults ==> v in db'.vaults && db'.vaults[v].next == db.vaults[v].next)
    && (forall v :: v in db'.vaults && v !in db.vaults ==> db'.vaults[v].next == 1)
    && (forall k :: k in db'.idempotency ==> k in db.idempotency && db'.idempotency[k] == db.idempotency[k])
  }

  /** The hourly prune drops the records whose deadline lies before the cutoff. */
  function Prune(db: Db, cutoff: int): Db {
    db.(idempotency := map k | k in db.idempotency && db.idempotency[k].expiresAt >= cutoff :: db.idempotency[k])
  }

  lemma PruneIsEnvironment(db: Db, cutoff: int)
    ensures Environment(db, Prune(db, cutoff))
  {
  }

  lemma SameGraphKeeps(db: Db, db': Db)
    requires db'.files == db.files && db'.revisions == db.revisions
    requires db'.parents == db.parents && db'.heads == db.heads
    ensures ParentsOk(db) ==> ParentsOk(db')
    ensures RootsOk(db) ==> RootsOk(db')
    ensures HeadsOk(db) ==> HeadsOk(db')
  {
    assert forall r, p :: r in db.revisions ==> (ParentOk(db, r, p) <==> ParentOk(db', r, p));
    SameRoots(db, db');
    SameTips(db, db');
  }

  lemma SameRoots(db: Db, db': Db)
    requires db'.files == db.files && db'.revisions == db.revisions
    ensures RootsOk(db) ==> RootsOk(db')
  {
    assert forall f, r :: IsRoot(db', f, r) <==> IsRoot(db, f, r);
  }

  lemma SameTips(db: Db, db': Db)
    requires db'.revisions == db.revisions && db'.heads == db.heads
    ensures HeadsOk(db) ==> HeadsOk(db')
  {
    assert forall r :: HasChild(db', r) <==> HasChild(db, r);
    assert forall f, r :: IsTip(db', f, r) <==> IsTip(db, f, r);
  }

  lemma SameVaultsKeep(db: Db, db': Db)
    requires db'.files == db.files && db'.revisions == db.revisions && db'.events == db.events
    requires forall v :: v in db.vaults ==> v in db'.vaults && db'.vaults[v].next == db.vaults[v].next
    requires forall v :: v in db'.vaults && v !in db.vaults ==> db'.vaults[v].next == 1
    ensures RowsOk(db) ==> RowsOk(db')
    ensures EventsOk(db) ==> EventsOk(db')
  {
    hide ValidHeader;
    assert forall r :: r in db.revisions ==> (RowOk(db, r) ==> RowOk(db', r));
    assert forall v, n :: (v, n) in db.events ==> (EventOk(db, v, n) ==> EventOk(db', v, n));
  }

  lemma EnvironmentKeepsInv(db: Db, db': Db)
    requires Inv(db) && Environment(db, db')
    ensures Inv(db')
  {
    hide RowsOk, ParentsOk, RootsOk, HeadsOk, EventsOk;
    SameGraphKeeps(db, db');
    SameVaultsKeep(db, db');
    forall k | k in db'.idempotency ensures RecordOk(db', db'.idempotency[k]) {
      assert RecordOk(db, db.idempotency[k]);
    }
  }

  lemma NewRecordKeepsInv(db: Db, db': Db, key: (Id, string), record: IdempotencyRecord)
    requires Inv(db) && db' == db.(idempotency := db.idempotency[key := record]) && RecordOk(db, record)
    ensures Inv(db')
  {
    hide RowsOk, ParentsOk, RootsOk, HeadsOk, EventsOk;
    SameGraphKeeps(db, db');
    SameVaultsKeep(db, db');
    forall k | k in db'.idempotency ensures RecordOk(db', db'.idempotency[k]) {
      assert k != key ==> RecordOk(db, db.idempotency[k]);
    }
  }

  lemma ReplayKeepsInv(db: Db, c: Prepared, now: int, settings: Settings)
    requires Inv(db) && c.header.revisionId in db.revisions
    ensures Inv(Replay(db, c, now, settings).0)
  {
    hide Inv;
    var db' := Replay(db, c, now, settings).0;
    if db' != db {
      var receipt := ReceiptOf(c.header.revisionId, db.revisions[c.header.revisionId]);
      var record := IdempotencyRecord(c.ToRequest(), CommitResult(receipt, Replayed), now + settings.ttl);
      NewRecordKeepsInv(db, db', c.IdempotencyKey(), record);
    }
  }

  /** A commit keeps the invariant, whatever its outcome. */
  lemma CommitKeepsInv(db: Db, c: Prepared, now: int, settings: Settings)
    requires Inv(db) && ValidHeader(c.header)
    ensures Inv(Commit(db, c, now, settings).0)
  {
    hide Inv, ValidHeader, GraphFault, WithinQuota, RowsCollide, Replay, WithRevision;
    if c.header.revisionId in db.revisions {
      ReplayKeepsInv(db, c, now, settings);
    } else if Accepts(db, c, now, settings) {
      AcceptKeepsInv(db, c, now, settings);
    }
  }
}
