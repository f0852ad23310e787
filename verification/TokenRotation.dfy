/**
 * Refresh-token rotation: one client with durable pending records, crashes at every await, a
 * network that may lose, repeat or delay, and the server's rotation transaction.
 */
module TokenRotation {

  import opened Options

  type Token = nat

  /** A rotation request, and the durable record of one: the presented token, the id, the successor. */
  datatype Pending = Pending(token: Token, rotationId: nat, successor: Token)

  // ---- The server ----------------------------------------------------------------------------------

  datatype Status = Active | Revoked | ReuseDetected

  /** A refresh token; once consumed it remembers which rotation consumed it. */
  datatype Row = Row(generation: nat, consumed: Option<(nat, Token)>, deadline: int)

  /**
   * One token family, its user and device, and the server's clock. The actual server is `strict`: it repeats an
   * answer only while the successor is still current. The contract the client is written against promises more,
   * an answer to every byte-exact retry, and is the server that is not strict.
   */
  datatype Family = Family(strict: bool, rows: map<Token, Row>, current: nat, status: Status,
                           userActive: bool, deviceApproved: bool, deadline: int, window: nat, now: int)

  predicate Alive(f: Family) {
    f.status == Active && f.userActive && f.deviceApproved && f.now < f.deadline
  }

  /** A refresh moves the deadline a full window ahead, and never back. */
  function Slid(f: Family): int {
    if f.now + f.window > f.deadline then f.now + f.window else f.deadline
  }

  datatype Reply = Okay(request: Pending) | Denial(request: Pending)

  /** The rotation transaction; every refusal reaches the client as a 401. */
  function Rotate(f: Family, p: Pending): (Family, Reply) {
    if p.token !in f.rows then (f, Denial(p))
    else
      var row := f.rows[p.token];
      if (row.consumed.None? && row.deadline <= f.now) || f.deadline <= f.now then (f, Denial(p))
      else if f.status != Active || !f.userActive || !f.deviceApproved then (f, Denial(p))
      else if row.consumed.Some? then
        var exactRetry :=
          && row.consumed.value == (p.rotationId, p.successor)
          && (f.strict ==> f.current == row.generation + 1)
          && p.successor in f.rows && f.rows[p.successor].generation == row.generation + 1;
        if exactRetry then (f, Okay(p)) else (f.(status := ReuseDetected), Denial(p))
      else if row.generation != f.current then (f.(status := ReuseDetected), Denial(p))
      else if p.successor in f.rows then (f.(status := ReuseDetected), Denial(p))
      else
        (f.(rows := f.rows[p.token := row.(consumed := Some((p.rotationId, p.successor)))]
                          [p.successor := Row(row.generation + 1, None, Slid(f))],
            current := row.generation + 1, deadline := Slid(f)),
         Okay(p))
  }

  // ---- The client ----------------------------------------------------------------------------------

  /** How far a rotation has got in the running process. */
  datatype Phase =
    | Idle
    | Asked(token: Token)      // the stored token was read
    | Minted(p: Pending)       // a fresh pair, not durable yet
    | Ready(p: Pending)        // the pair is durable
    | Waiting(p: Pending)      // the request is on its way
    | Confirmed(p: Pending)    // a well-formed 200 was read
    | Saved(p: Pending)        // the successor is stored
    | Denied(p: Pending)       // a 401 was read

  /**
   * The whole system: durable secrets, the running rotation, the server, every request ever sent
   * and every reply ever given, and the generators of fresh tokens and ids.
   */
  datatype State = State(stored: Token, pending: Option<Pending>, phase: Phase, family: Family,
                         sent: set<Pending>, replies: set<Reply>, nextToken: Token, nextId: nat)

  /** A fresh session: the first token, valid for one window. */
  function Start(strict: bool, token: Token, window: nat): State {
    State(token, None, Idle,
          Family(strict, map[token := Row(0, None, window)], 0, Active, true, true, window, window, 0),
          {}, {}, token + 1, 0)
  }

  datatype Action =
    | ReadToken | LoadPending | LoadFails
    | SavePending | SaveFails(written: bool)
    | Send | Deliver(p: Pending) | NoReply | ReceiveOkay | ReceiveDenial
    | StoreSuccessor | StoreFails(stored: bool) | ClearPending(worked: bool)
    | Crash | Revoke | Tick(now: int)

  predicate Enabled(s: State, a: Action) {
    match a
    case ReadToken => s.phase.Idle?
    case LoadPending => s.phase.Asked?
    case LoadFails => s.phase.Asked?
    case SavePending => s.phase.Minted?
    case SaveFails(_) => s.phase.Minted?
    case Send => s.phase.Ready?
    case Deliver(p) => p in s.sent
    case NoReply => s.phase.Waiting?
    case ReceiveOkay => s.phase.Waiting? && Okay(s.phase.p) in s.replies
    case ReceiveDenial => s.phase.Waiting? && Denial(s.phase.p) in s.replies
    case StoreSuccessor => s.phase.Confirmed?
    case StoreFails(_) => s.phase.Confirmed?
    case ClearPending(_) => s.phase.Saved? || s.phase.Denied?
    case Crash => true
    case Revoke => true
    case Tick(now) => s.family.now <= now
  }

  /** `NoReply` covers a lost reply, a 5xx and a malformed 200: the rotation throws, the record stays. */
  function Step(s: State, a: Action): State
    requires Enabled(s, a)
  {
    match a
    case ReadToken => s.(phase := Asked(s.stored))
    case LoadPending =>
      if s.pending.Some? && s.pending.value.token == s.phase.token then s.(phase := Ready(s.pending.value))
      else s.(phase := Minted(Pending(s.phase.token, s.nextId, s.nextToken)),
              nextId := s.nextId + 1, nextToken := s.nextToken + 1)
    case LoadFails => s.(phase := Idle)
    case SavePending => s.(pending := Some(s.phase.p), phase := Ready(s.phase.p))
    case SaveFails(written) => s.(pending := if written then Some(s.phase.p) else s.pending, phase := Idle)
    case Send => s.(sent := s.sent + {s.phase.p}, phase := Waiting(s.phase.p))
    case Deliver(p) =>
      var (family, reply) := Rotate(s.family, p);
      s.(family := family, replies := s.replies + {reply})
    case NoReply => s.(phase := Idle)
    case ReceiveOkay => s.(phase := Confirmed(s.phase.p))
    case ReceiveDenial => s.(phase := Denied(s.phase.p))
    case StoreSuccessor => s.(stored := s.phase.p.successor, phase := Saved(s.phase.p))
    case StoreFails(stored) => s.(stored := if stored then s.phase.p.successor else s.stored, phase := Idle)
    case ClearPending(worked) => s.(pending := if worked then None else s.pending, phase := Idle)
    case Crash => s.(phase := Idle)
    case Revoke =>
      var status := if s.family.status == Active then Revoked else s.family.status;
      s.(family := s.family.(status := status, deviceApproved := false))
    case Tick(now) => s.(family := s.family.(now := now))
  }

  // ---- What every reachable state keeps ---------------------------------------------------------------

  /** A token is consumed exactly if it is not current, and then its successor is next in line. */
  ghost predicate RowOk(f: Family, t: Token)
    requires t in f.rows
  {
    var row := f.rows[t];
    && row.generation <= f.current
    && (row.consumed.Some? <==> row.generation < f.current)
    && (row.consumed.None? ==> row.deadline == f.deadline)
    && (row.consumed.Some? ==>
          row.consumed.value.1 in f.rows && f.rows[row.consumed.value.1].generation == row.generation + 1)
  }

  /** The family's rows form one chain up to the current generation. */
  ghost predicate Chain(f: Family) {
    && (forall t :: t in f.rows ==> RowOk(f, t))
    && (forall t, u :: t in f.rows && u in f.rows && f.rows[t].generation == f.rows[u].generation ==> t == u)
  }

  /** The server consumed the request's token through this very request. */
  ghost predicate ConsumedBy(f: Family, p: Pending) {
    p.token in f.rows && f.rows[p.token].consumed == Some((p.rotationId, p.successor))
  }

  /** A pair the client may still send or has sent: known token, successor either unused or spent on it. */
  ghost predicate Sound(f: Family, p: Pending) {
    && p.token in f.rows
    && (f.rows[p.token].consumed.Some? ==> ConsumedBy(f, p))
    && (p.successor in f.rows ==> ConsumedBy(f, p))
  }

  /** While the family lives: requests for one token are identical, and the stored token is at most one behind. */
  ghost predicate Facts(s: State) {
    && Chain(s.family) && FreshFacts(s) && SentFacts(s) && StoredFacts(s) && PhaseFacts(s)
    && (forall r :: r in s.replies ==> r.Okay? && r.request in s.sent && ConsumedBy(s.family, r.request))
  }

  ghost predicate FreshFacts(s: State) {
    && (forall t :: t in s.family.rows ==> t < s.nextToken)
    && (forall p :: p in s.sent ==> p.successor < s.nextToken)
    && (s.pending.Some? ==> s.pending.value.successor < s.nextToken)
    && (s.phase.Minted? ==> s.phase.p.successor < s.nextToken)
  }

  /** Requests sent for one token are one request, for a token no newer than the stored one. */
  ghost predicate SentFacts(s: State) {
    && s.stored in s.family.rows
    && (forall p :: p in s.sent ==>
          Sound(s.family, p) && s.family.rows[p.token].generation <= s.family.rows[s.stored].generation)
    && (forall p, q :: p in s.sent && q in s.sent && p.token == q.token ==> p == q)
  }

  /** The stored token is current or just consumed, and its one request is the durable record. */
  ghost predicate StoredFacts(s: State)
    requires s.stored in s.family.rows
  {
    && s.family.current <= s.family.rows[s.stored].generation + 1
    && (s.family.rows[s.stored].consumed.Some? ==> exists p :: p in s.sent && p.token == s.stored)
    && (forall p :: p in s.sent && p.token == s.stored ==> s.pending == Some(p))
    && (s.pending.Some? && s.pending.value.token == s.stored ==> Sound(s.family, s.pending.value))
  }

  ghost predicate PhaseFacts(s: State) {
    match s.phase
    case Idle => true
    case Asked(t) => t == s.stored
    case Minted(p) =>
      && p.token == s.stored && Sound(s.family, p) && (forall q :: q in s.sent ==> q.token != s.stored)
    case Ready(p) => p.token == s.stored && s.pending == Some(p)
    case Waiting(p) => p.token == s.stored && s.pending == Some(p) && p in s.sent
    case Confirmed(p) => p.token == s.stored && s.pending == Some(p) && p in s.sent && ConsumedBy(s.family, p)
    case Saved(_) => forall q :: q in s.sent ==> q.token != s.stored
    case Denied(_) => false
  }

  ghost predicate Inv(s: State) {
    Alive(s.family) ==> Facts(s)
  }

  lemma StartInv(strict: bool, token: Token, window: nat)
    ensures Inv(Start(strict, token, window))
  {
  }

  /** The request's successor has itself been consumed: the family is two generations past its token. */
  ghost predicate Stale(f: Family, p: Pending) {
    f.strict && p.token in f.rows && f.rows[p.token].generation + 1 < f.current
  }

  /** What a request the client can have sent meets, by the family's state. */
  lemma RotateOutcome(f: Family, p: Pending)
    requires Chain(f) && Sound(f, p)
    ensures var (g, reply) := Rotate(f, p);
            if !Alive(f) then g == f && reply == Denial(p)
            else if Stale(f, p) then g == f.(status := ReuseDetected) && reply == Denial(p)
            else Alive(g) && reply == Okay(p) && ConsumedBy(g, p)
    ensures f.rows[p.token].consumed.Some? && !Stale(f, p) ==> Rotate(f, p).0 == f
  {
    assert RowOk(f, p.token);
  }

  /** What any request meets, sound or not. */
  lemma AnyRequest(f: Family, p: Pending)
    requires Chain(f)
    ensures var (g, reply), burned := Rotate(f, p), (f.(status := ReuseDetected), Denial(p));
            if p.token !in f.rows || f.status != Active || !f.userActive || !f.deviceApproved || f.deadline <= f.now
            then (g, reply) == (f, Denial(p))
            else if f.rows[p.token].consumed.Some? then
              (if f.rows[p.token].consumed.value != (p.rotationId, p.successor)
                  || (f.strict && f.rows[p.token].generation + 1 < f.current) then (g, reply) == burned
               else (g, reply) == (f, Okay(p)))
            else if p.successor in f.rows then (g, reply) == burned
            else reply == Okay(p) && Rotated(f, g, p)
  {
    if p.token in f.rows {
      assert RowOk(f, p.token);
      hide Chain, RowOk, Rotated;
      if Alive(f) && f.rows[p.token].consumed.None? && p.successor !in f.rows {
        NewRotation(f, p);
      }
    }
  }

  lemma NewRotation(f: Family, p: Pending)
    requires Alive(f) && p.token in f.rows && p.successor !in f.rows
    requires f.rows[p.token] == Row(f.current, None, f.deadline)
    ensures Rotate(f, p).1 == Okay(p) && Rotated(f, Rotate(f, p).0, p)
  {
  }

  /**
   * The token is spent on the request, its successor is the new current token, no other token is touched, and the
   * deadline has moved a full window ahead of now, never back, with the successor's own.
   */
  ghost predicate Rotated(f: Family, g: Family, p: Pending) {
    && p.token in f.rows && p.token in g.rows && p.successor in g.rows && g.current == f.current + 1
    && g.rows[p.token] == f.rows[p.token].(consumed := Some((p.rotationId, p.successor)))
    && g.rows[p.successor] == Row(g.current, None, g.deadline)
    && (forall t :: t in f.rows && t != p.token ==> t in g.rows && g.rows[t] == f.rows[t])
    && (forall t :: t in g.rows ==> t in f.rows || t == p.successor)
    && g.deadline >= f.now + f.window && g.deadline >= f.deadline
    && (g.deadline == f.deadline || g.deadline == f.now + f.window)
    && g == f.(rows := g.rows, current := g.current, deadline := g.deadline)
  }

  /** A first delivery consumes the current token and adds the successor. */
  ghost predicate Advanced(f: Family, g: Family, p: Pending)
    requires p.token in f.rows
  {
    && f.rows[p.token] == Row(f.current, None, f.deadline)
    && p.successor !in f.rows && p.successor != p.token
    && g == f.(rows := f.rows[p.token := Row(f.current, Some((p.rotationId, p.successor)), f.deadline)]
                             [p.successor := Row(f.current + 1, None, Slid(f))],
               current := f.current + 1, deadline := Slid(f))
  }

  lemma FirstDelivery(f: Family, p: Pending)
    requires Alive(f) && Chain(f) && Sound(f, p) && f.rows[p.token].consumed.None?
    ensures Advanced(f, Rotate(f, p).0, p)
  {
    assert RowOk(f, p.token);
  }

  lemma AdvancedRow(f: Family, g: Family, p: Pending, t: Token)
    requires Chain(f) && p.token in f.rows && Advanced(f, g, p) && t in g.rows
    ensures RowOk(g, t)
    ensures t == p.successor || (t in f.rows && g.rows[t].generation == f.rows[t].generation <= f.current)
  {
    assert RowOk(f, p.token);
    if t in f.rows {
      assert RowOk(f, t);
      assert f.rows[t].generation == f.rows[p.token].generation ==> t == p.token;
    }
  }

  lemma AdvancedChain(f: Family, g: Family, p: Pending)
    requires Chain(f) && p.token in f.rows && Advanced(f, g, p)
    ensures Chain(g)
  {
    hide RowOk;
    forall t | t in g.rows
      ensures RowOk(g, t)
      ensures t == p.successor || (t in f.rows && g.rows[t].generation == f.rows[t].generation <= f.current)
    {
      AdvancedRow(f, g, p, t);
    }
  }

  /** Other requests keep their standing: their tokens are older and already consumed. */
  lemma OthersStaySound(f: Family, g: Family, p: Pending, q: Pending)
    requires Chain(f) && p.token in f.rows && Advanced(f, g, p) && Sound(f, q)
    requires q.token == p.token ==> q == p
    ensures Sound(g, q)
  {
    assert RowOk(f, q.token);
  }

  /** While the family lives, a delivery of anything ever sent succeeds, unless it is stale, which burns. */
  lemma DeliverOutcome(s: State, p: Pending)
    requires Alive(s.family) && Facts(s) && p in s.sent
    ensures var (family, reply) := Rotate(s.family, p);
            if Stale(s.family, p) then family.status == ReuseDetected && reply == Denial(p)
            else Alive(family) && reply == Okay(p) && ConsumedBy(family, p)
  {
    hide Chain;
    RotateOutcome(s.family, p);
  }

  /** A first delivery is of the stored token's request, which is the durable record. */
  lemma FirstIsStored(s: State, p: Pending)
    requires Facts(s) && p in s.sent && s.family.rows[p.token] == Row(s.family.current, None, s.family.deadline)
    ensures p.token == s.stored && s.pending == Some(p)
  {
    assert RowOk(s.family, s.stored);
  }

  /** What a first delivery leaves of each row: only the presented token's changes, only the successor is new. */
  ghost predicate Grown(f: Family, g: Family, p: Pending) {
    && p.token in f.rows && f.current + 1 == g.current && ConsumedBy(g, p)
    && f.rows[p.token].generation == f.current
    && (forall t :: t in g.rows <==> t in f.rows || t == p.successor)
    && (forall t :: t in f.rows ==> g.rows[t].generation == f.rows[t].generation)
    && (forall t :: t in f.rows && t != p.token ==> g.rows[t] == f.rows[t])
  }

  lemma AdvancedGrows(f: Family, g: Family, p: Pending)
    requires p.token in f.rows && Advanced(f, g, p)
    ensures Grown(f, g, p)
  {
  }

  lemma GrownSent(s: State, p: Pending, s': State)
    requires SentFacts(s) && FreshFacts(s) && p in s.sent && Grown(s.family, s'.family, p)
    requires s' == s.(family := s'.family, replies := s'.replies)
    requires forall q :: q in s.sent ==> Sound(s'.family, q)
    ensures SentFacts(s') && FreshFacts(s')
  {
    assert forall q :: q in s.sent ==> q.token in s.family.rows;
    hide Sound;
  }

  lemma GrownStored(s: State, p: Pending, s': State)
    requires s.stored in s.family.rows && p.token == s.stored && StoredFacts(s) && s.pending == Some(p)
    requires p in s.sent && Grown(s.family, s'.family, p) && Sound(s'.family, p)
    requires s' == s.(family := s'.family, replies := s'.replies)
    ensures StoredFacts(s')
  {
    hide Sound;
  }

  lemma GrownPhase(s: State, p: Pending, s': State)
    requires PhaseFacts(s) && p.token == s.stored && s.pending == Some(p)
    requires p in s.sent && Grown(s.family, s'.family, p)
    requires s' == s.(family := s'.family, replies := s'.replies)
    ensures PhaseFacts(s')
  {
    hide Sound;
  }

  lemma FirstDeliveryKeepsFacts(s: State, p: Pending, s': State)
    requires Facts(s) && p in s.sent && p.token in s.family.rows && Advanced(s.family, s'.family, p)
    requires s' == s.(family := s'.family, replies := s.replies + {Okay(p)})
    ensures Facts(s')
  {
    assert s.family.rows[p.token] == Row(s.family.current, None, s.family.deadline);
    hide Chain, Sound, Advanced;
    FirstIsStored(s, p);
    AdvancedChain(s.family, s'.family, p);
    AdvancedGrows(s.family, s'.family, p);
    forall q | q in s.sent ensures Sound(s'.family, q) { OthersStaySound(s.family, s'.family, p, q); }
    GrownSent(s, p, s');
    GrownStored(s, p, s');
    GrownPhase(s, p, s');
    hide SentFacts, StoredFacts, PhaseFacts, FreshFacts;
  }

  lemma DeliverKeepsFacts(s: State, p: Pending, s': State)
    requires Alive(s.family) && Facts(s) && p in s.sent && !Stale(s.family, p)
    requires s' == s.(family := Rotate(s.family, p).0, replies := s.replies + {Okay(p)})
    ensures Facts(s')
  {
    hide Facts, Rotate, Alive, Advanced;
    DeliveredFamily(s, p);
    if s.family.rows[p.token].consumed.None? {
      FirstDeliveryKeepsFacts(s, p, s');
    } else {
      SameFamilyKeepsFacts(s, p, s');
    }
  }

  /** A delivery that is answered advances the family once, and then leaves it as it is. */
  lemma DeliveredFamily(s: State, p: Pending)
    requires Alive(s.family) && Facts(s) && p in s.sent && !Stale(s.family, p)
    ensures p.token in s.family.rows
    ensures var g := Rotate(s.family, p).0;
            if s.family.rows[p.token].consumed.None? then Advanced(s.family, g, p)
            else g == s.family && ConsumedBy(s.family, p)
  {
    hide Chain, Rotate, Advanced, RowOk;
    RotateOutcome(s.family, p);
    if s.family.rows[p.token].consumed.None? {
      FirstDelivery(s.family, p);
    }
  }

  lemma SameFamilyKeepsFacts(s: State, p: Pending, s': State)
    requires Facts(s) && p in s.sent && ConsumedBy(s.family, p)
    requires s' == s.(replies := s.replies + {Okay(p)})
    ensures Facts(s')
  {
    hide Chain, Sound;
    assert FreshFacts(s') && SentFacts(s') && StoredFacts(s') && PhaseFacts(s');
  }

  /** The steps that touch neither the server nor the wire. */
  predicate Local(a: Action) {
    !a.Deliver? && !a.Revoke? && !a.Tick? && !a.Send? && !a.StoreSuccessor? && !a.StoreFails?
  }

  lemma LocalKeepsFacts(s: State, a: Action)
    requires Alive(s.family) && Facts(s) && Enabled(s, a) && Local(a)
    ensures Facts(Step(s, a))
  {
    hide Chain;
    var s' := Step(s, a);
    assert FreshFacts(s');
    assert SentFacts(s');
    assert StoredFacts(s');
    assert PhaseFacts(s');
  }

  lemma SendKeepsFacts(s: State)
    requires Alive(s.family) && Facts(s) && Enabled(s, Send)
    ensures Facts(Step(s, Send))
  {
    hide Chain;
    var s' := Step(s, Send);
    assert FreshFacts(s');
    assert SentFacts(s');
    assert StoredFacts(s');
    assert PhaseFacts(s');
  }

  /** Storing the successor of a confirmed rotation: it is the next row of the chain, and nothing was sent for it. */
  lemma SuccessorStored(s: State, s': State)
    requires Alive(s.family) && Facts(s) && s.phase.Confirmed?
    requires s' == s.(stored := s.phase.p.successor, phase := s'.phase)
    requires s'.phase == Idle || s'.phase == Saved(s.phase.p)
    ensures Facts(s')
  {
    SuccessorIsNext(s);
    StoredAdvances(s, s');
    hide Chain, SentFacts, StoredFacts;
  }

  lemma StoredAdvances(s: State, s': State)
    requires SentFacts(s) && s.phase.Confirmed? && s.pending == Some(s.phase.p) && s.phase.p.token == s.stored
    requires s' == s.(stored := s.phase.p.successor, phase := s'.phase)
    requires s'.phase == Idle || s'.phase == Saved(s.phase.p)
    requires s'.stored in s.family.rows && s'.stored != s.stored
    requires s.family.rows[s'.stored] == Row(s.family.current, None, s.family.deadline)
    requires s.family.rows[s.stored].generation + 1 == s.family.current
    requires forall q :: q in s.sent ==> q.token != s'.stored
    ensures SentFacts(s') && StoredFacts(s') && PhaseFacts(s')
  {
    assert forall q :: q in s.sent ==> q.token in s.family.rows;
    hide Sound;
  }

  lemma SuccessorIsNext(s: State)
    requires Alive(s.family) && Facts(s) && s.phase.Confirmed?
    ensures var p := s.phase.p;
            && p.successor in s.family.rows && p.successor != s.stored
            && s.family.rows[p.successor] == Row(s.family.current, None, s.family.deadline)
            && s.family.rows[s.stored].generation + 1 == s.family.current
            && forall q :: q in s.sent ==> q.token != p.successor
  {
    var p := s.phase.p;
    assert RowOk(s.family, p.token) && RowOk(s.family, p.successor);
    hide Sound, RowOk;
  }

  /** Time alone changes nothing about the tokens. */
  lemma TickKeepsFacts(s: State, s': State)
    requires Facts(s) && s' == s.(family := s.family.(now := s'.family.now))
    ensures Facts(s')
  {
    hide Chain, Sound, ConsumedBy;
    TickKeepsRows(s.family, s'.family);
    assert SentFacts(s') && StoredFacts(s');
    hide SentFacts, StoredFacts;
    assert FreshFacts(s') && PhaseFacts(s');
  }

  lemma TickKeepsRows(f: Family, g: Family)
    requires g == f.(now := g.now)
    ensures Chain(f) ==> Chain(g)
    ensures forall p {:trigger Sound(g, p)} :: Sound(f, p) ==> Sound(g, p)
    ensures forall p {:trigger ConsumedBy(g, p)} :: ConsumedBy(f, p) ==> ConsumedBy(g, p)
  {
    assert forall t :: t in f.rows && RowOk(f, t) ==> RowOk(g, t);
  }

  lemma DeadStaysDead(s: State, a: Action)
    requires Enabled(s, a) && !Alive(s.family)
    ensures !Alive(Step(s, a).family)
  {
  }

  /** The invariant of every step: crashes, failing writes and clears, lost, repeated and delayed messages. */
  lemma StepKeepsInv(s: State, a: Action)
    requires Inv(s) && Enabled(s, a)
    ensures Inv(Step(s, a))
  {
    hide Facts, Rotate;
    if !Alive(s.family) {
      DeadStaysDead(s, a);
    } else {
      match a
      case Deliver(p) =>
        DeliverOutcome(s, p);
        if !Stale(s.family, p) { DeliverKeepsFacts(s, p, Step(s, a)); }
      case Send => SendKeepsFacts(s);
      case StoreSuccessor => SuccessorStored(s, Step(s, a));
      case StoreFails(stored) => if stored { SuccessorStored(s, Step(s, a)); } else { LocalKeepsFacts(s, Crash); }
      case Revoke =>
      case Tick(now) => TickKeepsFacts(s, Step(s, a));
      case _ => LocalKeepsFacts(s, a);
    }
  }
}
