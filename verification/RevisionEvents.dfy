/** The event log and a client that pages through it while commits go on. */
module RevisionEvents {

  import opened RevisionTables
  import opened RevisionInvariant
  import opened RevisionProps

  const MAX_EVENT_PAGE_SIZE := 1_000

  /** The highest committed event sequence of a vault. */
  function Cursor(db: Db, v: Id): int
    requires v in db.vaults
  {
    db.vaults[v].next - 1
  }

  /** What the ordered, limited query returns: the lowest sequences after the cursor. */
  ghost predicate IsPage(db: Db, v: Id, after: int, limit: int, rows: seq<int>) {
    && |rows| <= limit
    && (forall k, l :: 0 <= k < l < |rows| ==> rows[k] < rows[l])
    && (forall k :: 0 <= k < |rows| ==> after < rows[k] && (v, rows[k]) in db.events)
    && (forall n :: after < n && (v, n) in db.events && n !in rows ==>
          |rows| == limit && forall k :: 0 <= k < |rows| ==> rows[k] < n)
  }

  /** The page holds every event after the cursor and before `n`, in order. */
  ghost predicate Scanned(db: Db, v: Id, after: int, n: int, page: seq<int>) {
    && after < n
    && (forall k, l :: 0 <= k < l < |page| ==> page[k] < page[l])
    && (forall k :: 0 <= k < |page| ==> after < page[k] < n && (v, page[k]) in db.events)
    && (forall m :: after < m < n && (v, m) in db.events ==> m in page)
  }

  lemma ScanStart(db: Db, v: Id, after: int)
    ensures Scanned(db, v, after, after + 1, [])
  {
  }

  lemma ScanStep(db: Db, v: Id, after: int, n: int, page: seq<int>)
    requires Scanned(db, v, after, n, page)
    ensures Scanned(db, v, after, n + 1, if (v, n) in db.events then page + [n] else page)
  {
    if (v, n) in db.events {
      var grown := page + [n];
      assert forall m :: m in page ==> m in grown;
      assert grown[|page|] == n;
    }
  }

  lemma ScanDone(db: Db, v: Id, after: int, limit: int, n: int, page: seq<int>)
    requires Scanned(db, v, after, n, page) && |page| <= limit
    requires |page| == limit || forall m :: (v, m) in db.events ==> m < n
    ensures IsPage(db, v, after, limit, page)
  {
  }

  lemma PageBounds(db: Db, v: Id, after: int, limit: int, rows: seq<int>, k: nat)
    requires Inv(db) && IsPage(db, v, after, limit, rows) && k < |rows|
    ensures v in db.vaults && after < rows[k] <= Cursor(db, v)
  {
    assert EventOk(db, v, rows[k]);
  }

  lemma EventPresent(db: Db, v: Id, n: int)
    requires Inv(db) && v in db.vaults && 1 <= n <= Cursor(db, v)
    ensures (v, n) in db.events
  {
    hide RowsOk, ParentsOk, RootsOk, HeadsOk, RecordsOk;
  }

  lemma {:induction false} PageHasNoHole(db: Db, v: Id, after: int, limit: int, rows: seq<int>, k: nat)
    requires Inv(db) && 0 <= after && IsPage(db, v, after, limit, rows) && k < |rows|
    ensures rows[k] == after + 1 + k
    decreases k
  {
    hide Inv;
    PageBounds(db, v, after, limit, rows, k);
    if k > 0 {
      PageHasNoHole(db, v, after, limit, rows, k - 1);
    }
    var n := after + 1 + k;
    assert n < rows[k] ==> n !in rows by {
      assert forall l :: 0 <= l < |rows| ==> (l < k ==> rows[l] <= after + k) && (k <= l ==> rows[k] <= rows[l]);
    }
    if n < rows[k] {
      EventPresent(db, v, n);
    }
  }

  /** A page is exactly the next events: full, or up to the cursor. */
  lemma PageExact(db: Db, v: Id, after: int, limit: int, rows: seq<int>)
    requires Inv(db) && v in db.vaults && 0 <= after && 1 <= limit && IsPage(db, v, after, limit, rows)
    ensures forall k :: 0 <= k < |rows| ==> rows[k] == after + 1 + k
    ensures after + |rows| <= Cursor(db, v) || rows == []
    ensures |rows| < limit ==> Cursor(db, v) <= after + |rows|
  {
    hide Inv;
    forall k | 0 <= k < |rows| ensures rows[k] == after + 1 + k {
      PageHasNoHole(db, v, after, limit, rows, k);
    }
    if rows != [] {
      PageBounds(db, v, after, limit, rows, |rows| - 1);
    }
    var n := after + 1 + |rows|;
    if n <= Cursor(db, v) {
      EventPresent(db, v, n);
      assert n !in rows;
    }
  }

  /** One request of the client: when, how much, and what came back. */
  datatype Poll = Poll(at: nat, limit: int, rows: seq<int>)

  function Seen(polls: seq<Poll>): seq<int> {
    if polls == [] then [] else Seen(polls[..|polls| - 1]) + polls[|polls| - 1].rows
  }

  function LastSeen(polls: seq<Poll>): int {
    var seen := Seen(polls);
    if seen == [] then 0 else seen[|seen| - 1]
  }

  /** The client asks in time order, each time from the last sequence it has seen. */
  ghost predicate Session(states: seq<Db>, v: Id, polls: seq<Poll>)
    decreases |polls|
  {
    polls != [] ==>
      var before, last := polls[..|polls| - 1], polls[|polls| - 1];
      && Session(states, v, before)
      && last.at < |states| && v in states[last.at].vaults
      && (before != [] ==> before[|before| - 1].at <= last.at)
      && 1 <= last.limit <= MAX_EVENT_PAGE_SIZE
      && IsPage(states[last.at], v, LastSeen(before), last.limit, last.rows)
  }

  /**
   * Whatever the page sizes and however commits interleave, the client sees 1, 2, 3, ... each once
   * and in order, never past the cursor, and a short page means it has caught up.
   */
  lemma {:induction false} SessionExact(states: seq<Db>, settings: Settings, v: Id, polls: seq<Poll>)
    requires Run(states, settings) && Session(states, v, polls) && polls != []
    ensures forall k :: 0 <= k < |Seen(polls)| ==> Seen(polls)[k] == k + 1
    ensures var last := polls[|polls| - 1];
            && last.at < |states| && v in states[last.at].vaults
            && |Seen(polls)| <= Cursor(states[last.at], v)
            && (|last.rows| < last.limit ==> |Seen(polls)| == Cursor(states[last.at], v))
    decreases |polls|
  {
    hide Run, Inv, IsPage;
    var before, last := polls[..|polls| - 1], polls[|polls| - 1];
    RunInv(states, settings, last.at);
    assert 0 <= Cursor(states[last.at], v) by { VaultCursor(states[last.at], v); }
    if before != [] {
      SessionExact(states, settings, v, before);
      RunExtends(states, settings, before[|before| - 1].at, last.at);
    }
    assert LastSeen(before) == |Seen(before)|;
    PageExact(states[last.at], v, LastSeen(before), last.limit, last.rows);
  }

  lemma VaultCursor(db: Db, v: Id)
    requires Inv(db) && v in db.vaults
    ensures 0 <= Cursor(db, v)
  {
  }

  /** One event per accepted revision, and what an event said once it says forever. */
  lemma EventsMatchRevisions(states: seq<Db>, settings: Settings, i: nat, j: nat, v: Id, n: int)
    requires Run(states, settings) && i <= j < |states| && v in states[i].vaults
    ensures (v, n) in states[i].events <==> 1 <= n <= Cursor(states[i], v)
    ensures (v, n) in states[i].events ==>
              && (v, n) in states[j].events && states[j].events[(v, n)] == states[i].events[(v, n)]
              && var e := states[i].events[(v, n)];
                 && e.revisionId in states[i].revisions
                 && states[i].revisions[e.revisionId].serverSequence == n
                 && e.receipt == ReceiptOf(e.revisionId, states[i].revisions[e.revisionId])
    ensures forall r :: (r in states[i].revisions && states[i].revisions[r].vaultId == v
                         && states[i].revisions[r].serverSequence == n) ==>
                (v, n) in states[i].events && states[i].events[(v, n)].revisionId == r
  {
    hide Run, RowsOk, ParentsOk, RootsOk, HeadsOk, RecordsOk;
    RunInv(states, settings, i);
    RunExtends(states, settings, i, j);
    assert (v, n) in states[i].events ==> EventOk(states[i], v, n);
  }
}
