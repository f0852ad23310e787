/** Guarantees of the revision store over whole runs. */
module RevisionProps {

  import opened StringOrder
  import opened RevisionTables
  import opened RevisionInvariant

  // ---- Runs ----------------------------------------------------------------------------------------

  ghost predicate Next(db: Db, db': Db, settings: Settings) {
    || (exists c: Prepared, now :: ValidHeader(c.header) && db' == Commit(db, c, now, settings).0)
    || Environment(db, db')
  }

  /** A history of the tables: commits, prunes and account changes in any order. */
  ghost predicate Run(states: seq<Db>, settings: Settings) {
    && |states| > 0 && states[0] == Empty
    && forall i :: 0 <= i < |states| - 1 ==> Next(states[i], states[i + 1], settings)
  }

  lemma StepInv(db: Db, db': Db, settings: Settings)
    requires Inv(db) && Next(db, db', settings)
    ensures Inv(db')
  {
    hide Inv, Commit, ValidHeader;
    if Environment(db, db') {
      EnvironmentKeepsInv(db, db');
    } else {
      var c: Prepared, now :| ValidHeader(c.header) && db' == Commit(db, c, now, settings).0;
      CommitKeepsInv(db, c, now, settings);
    }
  }

  /** Every reachable state satisfies the invariant. */
  lemma {:induction false} RunInv(states: seq<Db>, settings: Settings, i: nat)
    requires Run(states, settings) && i < |states|
    ensures Inv(states[i])
    decreases i
  {
    hide Inv, Next;
    if i == 0 {
      InitInv();
    } else {
      RunInv(states, settings, i - 1);
      assert Next(states[i - 1], states[i - 1 + 1], settings);
      StepInv(states[i - 1], states[i], settings);
    }
  }

  /** Revisions and events are append-only. */
  ghost predicate Extends(db: Db, db': Db) {
    && (forall r :: r in db.revisions ==> r in db'.revisions && db'.revisions[r] == db.revisions[r])
    && (forall e :: e in db.events ==> e in db'.events && db'.events[e] == db.events[e])
    && (forall v :: v in db.vaults ==> v in db'.vaults && db.vaults[v].next <= db'.vaults[v].next)
  }

  lemma AcceptExtends(db: Db, c: Prepared, now: int, settings: Settings)
    requires EventsOk(db) && c.header.vaultId in db.vaults && c.header.revisionId !in db.revisions
    ensures Extends(db, WithRevision(db, c, now, settings))
  {
    var at := (c.header.vaultId, db.vaults[c.header.vaultId].next);
    assert forall v, n :: (v, n) in db.events ==> EventOk(db, v, n);
    assert at !in db.events;
  }

  lemma ReplayExtends(db: Db, c: Prepared, now: int, settings: Settings)
    requires c.header.revisionId in db.revisions
    ensures Extends(db, Replay(db, c, now, settings).0)
  {
    hide Matches, SameReceipt, ReceiptOf, Extends;
    var db' := Replay(db, c, now, settings).0;
    assert db' == db.(idempotency := db'.idempotency);
    hide Replay;
    SameTablesExtend(db, db');
  }

  lemma SameTablesExtend(db: Db, db': Db)
    requires db'.revisions == db.revisions && db'.events == db.events && db'.vaults == db.vaults
    ensures Extends(db, db')
  {
  }

  lemma CommitExtends(db: Db, c: Prepared, now: int, settings: Settings)
    requires EventsOk(db)
    ensures Extends(db, Commit(db, c, now, settings).0)
  {
    hide ValidHeader, GraphFault, WithinQuota, RowsCollide, EventsOk, WithRevision, Replay, Extends;
    SameTablesExtend(db, db);
    if c.header.revisionId in db.revisions {
      ReplayExtends(db, c, now, settings);
    } else if c.header.vaultId in db.vaults {
      AcceptExtends(db, c, now, settings);
    }
  }

  lemma StepExtends(db: Db, db': Db, settings: Settings)
    requires Inv(db) && Next(db, db', settings)
    ensures Extends(db, db')
  {
    hide Commit, ValidHeader, RowsOk, ParentsOk, RootsOk, HeadsOk, EventsOk, RecordsOk;
    if !Environment(db, db') {
      var c: Prepared, now :| ValidHeader(c.header) && db' == Commit(db, c, now, settings).0;
      CommitExtends(db, c, now, settings);
    }
  }

  lemma {:induction false} RunExtends(states: seq<Db>, settings: Settings, i: nat, j: nat)
    requires Run(states, settings) && i <= j < |states|
    ensures Extends(states[i], states[j])
    decreases j - i
  {
    hide Inv, Next;
    if i < j {
      RunExtends(states, settings, i, j - 1);
      RunInv(states, settings, j - 1);
      assert Next(states[j - 1], states[j - 1 + 1], settings);
      StepExtends(states[j - 1], states[j], settings);
    }
  }

  // ---- The revision graph ---------------------------------------------------------------------------

  /** A walk from child to parent. */
  ghost predicate Path(db: Db, path: seq<Id>) {
    && path != []
    && (forall k :: 0 <= k < |path| ==> path[k] in db.revisions)
    && (forall k :: 0 < k < |path| ==> path[k] in db.revisions[path[k - 1]].header.parents)
  }

  /** Walking up strictly lowers the sequence and stays in the file. */
  lemma {:induction false} PathDescends(db: Db, path: seq<Id>, k: nat)
    requires ParentsOk(db) && Path(db, path) && k < |path|
    ensures db.revisions[path[k]].fileId == db.revisions[path[0]].fileId
    ensures db.revisions[path[k]].serverSequence <= db.revisions[path[0]].serverSequence - k
    decreases k
  {
    if k > 0 {
      PathDescends(db, path, k - 1);
      assert ParentOk(db, path[k - 1], path[k]);
    }
  }

  /** No revision is its own ancestor. */
  lemma Acyclic(db: Db, path: seq<Id>)
    requires Inv(db) && Path(db, path) && |path| > 1
    ensures path[|path| - 1] != path[0]
  {
    PathDescends(db, path, |path| - 1);
  }

  lemma PathUp(db: Db, r: Id, up: seq<Id>)
    requires r in db.revisions
    requires up != [] ==> Path(db, up) && up[0] in db.revisions[r].header.parents
    ensures Path(db, [r] + up)
  {
    var path := [r] + up;
    assert forall k :: 0 < k < |path| ==> path[k] == up[k - 1];
  }

  /** Every revision reaches a root of its file. */
  lemma {:induction false} ReachesRoot(db: Db, r: Id) returns (path: seq<Id>)
    requires RowsOk(db) && ParentsOk(db) && r in db.revisions
    ensures path != [] && Path(db, path) && path[0] == r
    ensures IsRoot(db, db.revisions[r].fileId, path[|path| - 1])
    decreases db.revisions[r].serverSequence
  {
    hide ValidHeader, Path;
    assert RowOk(db, r);
    if db.revisions[r].header.parents == [] {
      path := [r] + [];
      PathUp(db, r, []);
    } else {
      var p := db.revisions[r].header.parents[0];
      assert ParentOk(db, r, p) && RowOk(db, p);
      var up := ReachesRoot(db, p);
      path := [r] + up;
      PathUp(db, r, up);
    }
  }

  /** Any two revisions of a file have the file's one root as common ancestor. */
  lemma CommonAncestor(db: Db, r: Id, s: Id) returns (up: seq<Id>, down: seq<Id>)
    requires Inv(db) && r in db.revisions && s in db.revisions && db.revisions[r].fileId == db.revisions[s].fileId
    ensures Path(db, up) && Path(db, down) && up[0] == r && down[0] == s
    ensures up[|up| - 1] == down[|down| - 1] && IsRoot(db, db.revisions[r].fileId, up[|up| - 1])
    ensures forall t :: IsRoot(db, db.revisions[r].fileId, t) ==> t == up[|up| - 1]
  {
    up := ReachesRoot(db, r);
    down := ReachesRoot(db, s);
  }

  // ---- Heads ------------------------------------------------------------------------------------------

  /** From any revision, children lead down to a tip. */
  lemma {:induction false} ReachesTip(db: Db, r: Id) returns (t: Id)
    requires RowsOk(db) && ParentsOk(db) && r in db.revisions
    ensures IsTip(db, db.revisions[r].fileId, t)
    decreases db.vaults[db.revisions[r].vaultId].next - db.revisions[r].serverSequence
  {
    assert RowOk(db, r);
    if HasChild(db, r) {
      var c :| c in db.revisions && r in db.revisions[c].header.parents;
      assert ParentOk(db, c, r) && RowOk(db, c);
      t := ReachesTip(db, c);
    } else {
      t := r;
    }
  }

  /** A file's heads are exactly the revisions that are nobody's parent, and there is always one. */
  lemma HeadsAreTips(db: Db, f: Id)
    requires Inv(db) && f in db.files
    ensures forall r :: r in HeadSet(db, f) <==> IsTip(db, f, r)
    ensures HeadSet(db, f) != {}
  {
    forall r ensures r in HeadSet(db, f) <==> IsTip(db, f, r) {
      assert r in HeadSet(db, f) <==> (f, r) in db.heads;
    }
    var r :| IsRoot(db, f, r);
    var t := ReachesTip(db, r);
    assert t in HeadSet(db, f);
  }

  /** An accepted commit with two or more parents leaves itself as the file's only head. */
  lemma ReconcileLeavesOneHead(db: Db, c: Prepared, now: int, settings: Settings)
    requires Inv(db) && ValidHeader(c.header) && |c.header.parents| >= 2
    requires c.header.revisionId !in db.revisions
    requires Commit(db, c, now, settings).1.Ok?
    ensures HeadSet(Commit(db, c, now, settings).0, c.header.fileId) == {c.header.revisionId}
    ensures GetHeads(Commit(db, c, now, settings).0, c.header.vaultId, c.header.fileId) == [c.header.revisionId]
  {
    hide Inv, ValidHeader, GraphFault, WithinQuota, RowsCollide, Sorted;
    var db' := Commit(db, c, now, settings).0;
    var h := c.header;
    AcceptedGraph(db, c, now, settings);
    forall r ensures r in HeadSet(db', h.fileId) <==> r == h.revisionId {
      assert r in HeadSet(db', h.fileId) <==> (h.fileId, r) in db'.heads;
      assert r in HeadSet(db, h.fileId) <==> (h.fileId, r) in db.heads;
      assert r in Elements(h.parents) <==> r in h.parents;
    }
    assert HeadSet(db', h.fileId) == {h.revisionId};
    var xs := Sorted({h.revisionId});
    assert Ascending([h.revisionId]) && Elements([h.revisionId]) == {h.revisionId};
    AscendingUnique(xs, [h.revisionId]);
  }
}
