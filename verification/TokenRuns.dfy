/** What holds of every run of the token rotation, and exactly when a family is burned. */
module TokenRuns {

  import opened Options
  import opened TokenRotation

  /** Every action of the run is enabled when it is taken. */
  predicate Runnable(s: State, run: seq<Action>)
    decreases |run|
  {
    run == [] || (Enabled(s, run[0]) && Runnable(Step(s, run[0]), run[1..]))
  }

  function After(s: State, run: seq<Action>): State
    requires Runnable(s, run)
    decreases |run|
  {
    if run == [] then s else After(Step(s, run[0]), run[1..])
  }

  lemma {:induction false} RunKeepsInv(s: State, run: seq<Action>)
    requires Inv(s) && Runnable(s, run)
    ensures Inv(After(s, run))
    decreases |run|
  {
    hide Facts, Step, Alive;
    if run != [] {
      StepKeepsInv(s, run[0]);
      RunKeepsInv(Step(s, run[0]), run[1..]);
    }
  }

  // ---- The client alone ------------------------------------------------------------------------------------

  /** What the client keeps by itself until it reads a 401, whatever the server and the network do. */
  ghost predicate ClientInv(s: State) {
    && s.stored < s.nextToken
    && (forall p :: p in s.sent ==> p.token <= s.stored)
    && (forall p :: p in s.sent && p.token == s.stored ==> s.pending == Some(p))
    && (forall p, q :: p in s.sent && q in s.sent && p.token == q.token ==> p == q)
    && (s.pending.Some? && s.pending.value.token == s.stored ==> Ahead(s, s.pending.value))
    && ClientPhase(s)
  }

  /** The pair's successor was minted after the stored token. */
  ghost predicate Ahead(s: State, p: Pending) {
    s.stored < p.successor < s.nextToken
  }

  ghost predicate ClientPhase(s: State) {
    match s.phase
    case Idle => true
    case Asked(t) => t == s.stored
    case Minted(p) => p.token == s.stored && Ahead(s, p) && forall q :: q in s.sent ==> q.token != s.stored
    case Ready(p) => p.token == s.stored && s.pending == Some(p)
    case Waiting(p) => p.token == s.stored && s.pending == Some(p)
    case Confirmed(p) => p.token == s.stored && s.pending == Some(p)
    case Saved(_) => forall q :: q in s.sent ==> q.token != s.stored
    case Denied(_) => false
  }

  lemma StepKeepsClient(s: State, a: Action)
    requires ClientInv(s) && Enabled(s, a) && !a.ReceiveDenial?
    ensures ClientInv(Step(s, a))
  {
    hide Rotate, ClientInv, Ahead;
    if a.StoreSuccessor? || (a.StoreFails? && a.stored) {
      StoreKeepsClient(s, Step(s, a));
    } else if a.Send? || a.SavePending? || a.SaveFails? {
      WriteKeepsClient(s, a);
    } else {
      OtherKeepsClient(s, a);
    }
  }

  lemma WriteKeepsClient(s: State, a: Action)
    requires ClientInv(s) && Enabled(s, a) && (a.Send? || a.SavePending? || a.SaveFails?)
    ensures ClientInv(Step(s, a))
  {
    hide Rotate;
  }

  lemma OtherKeepsClient(s: State, a: Action)
    requires ClientInv(s) && Enabled(s, a) && !a.ReceiveDenial? && !a.Send? && !a.SavePending? && !a.SaveFails?
    requires !a.StoreSuccessor? && !(a.StoreFails? && a.stored)
    ensures ClientInv(Step(s, a))
  {
    hide Rotate;
  }

  lemma StoreKeepsClient(s: State, s': State)
    requires ClientInv(s) && s.phase.Confirmed?
    requires s' == s.(stored := s.phase.p.successor, phase := s'.phase)
    requires s'.phase == Idle || s'.phase == Saved(s.phase.p)
    ensures ClientInv(s')
  {
  }

  lemma {:induction false} RunKeepsClient(s: State, run: seq<Action>)
    requires ClientInv(s) && Runnable(s, run) && ReceiveDenial !in run
    ensures ClientInv(After(s, run))
    decreases |run|
  {
    hide ClientInv, Step, Enabled;
    if run != [] {
      StepKeepsClient(s, run[0]);
      RunKeepsClient(Step(s, run[0]), run[1..]);
    }
  }

  /**
   * In every run up to the first 401 the client reads, all requests it sends for one token are byte for byte
   * the same, whatever became of the family in the meantime.
   */
  lemma SameRequest(strict: bool, token: Token, window: nat, run: seq<Action>, p: Pending, q: Pending)
    requires Runnable(Start(strict, token, window), run) && ReceiveDenial !in run
    ensures var s := After(Start(strict, token, window), run);
            p in s.sent && q in s.sent && p.token == q.token ==> p == q
  {
    RunKeepsClient(Start(strict, token, window), run);
  }

  /** In every run, what is sent is for the current token with a new successor, or repeats what consumed its token. */
  lemma CurrentOrExactRetry(strict: bool, token: Token, window: nat, run: seq<Action>, p: Pending)
    requires Runnable(Start(strict, token, window), run)
    ensures var s := After(Start(strict, token, window), run);
            Alive(s.family) && p in s.sent ==>
              || ConsumedBy(s.family, p)
              || (p.token in s.family.rows && p.successor !in s.family.rows
                  && s.family.rows[p.token] == Row(s.family.current, None, s.family.deadline))
  {
    StartInv(strict, token, window);
    RunKeepsInv(Start(strict, token, window), run);
    var s := After(Start(strict, token, window), run);
    if Alive(s.family) && p in s.sent {
      assert RowOk(s.family, p.token);
    }
  }

  /** Never stranded: in every run, the request the client waits on is answered with a rotation when it arrives. */
  lemma WaitingIsServed(strict: bool, token: Token, window: nat, run: seq<Action>)
    requires Runnable(Start(strict, token, window), run)
    ensures var s := After(Start(strict, token, window), run);
            Alive(s.family) && s.phase.Waiting? ==>
              && Rotate(s.family, s.phase.p).1 == Okay(s.phase.p)
              && Alive(Rotate(s.family, s.phase.p).0)
              && s.phase.p.successor in Rotate(s.family, s.phase.p).0.rows
  {
    StartInv(strict, token, window);
    RunKeepsInv(Start(strict, token, window), run);
    var s := After(Start(strict, token, window), run);
    if Alive(s.family) && s.phase.Waiting? {
      var p := s.phase.p;
      TimelyIsNotStale(s, p);
      DeliverOutcome(s, p);
      if s.family.rows[p.token].consumed.None? { FirstDelivery(s.family, p); } else { assert RowOk(s.family, p.token); }
    }
  }

  // ---- When a family is burned --------------------------------------------------------------------------------

  /** The step delivers, to a living family, a request whose successor was already consumed. */
  ghost predicate BurnsNow(s: State, a: Action) {
    Alive(s.family) && a.Deliver? && Stale(s.family, a.p)
  }

  ghost predicate BurnsInRun(s: State, run: seq<Action>)
    requires Runnable(s, run)
    decreases |run|
  {
    run != [] && (BurnsNow(s, run[0]) || BurnsInRun(Step(s, run[0]), run[1..]))
  }

  lemma StepBurns(s: State, a: Action)
    requires Inv(s) && Enabled(s, a) && s.family.status != ReuseDetected
    ensures Step(s, a).family.status == ReuseDetected <==> BurnsNow(s, a)
  {
    if a.Deliver? && Alive(s.family) {
      hide Facts, Rotate;
      DeliverOutcome(s, a.p);
    }
  }

  lemma StepKeepsBurned(s: State, a: Action)
    requires Enabled(s, a) && s.family.status == ReuseDetected
    ensures Step(s, a).family.status == ReuseDetected
  {
  }

  lemma {:induction false} BurnedStaysBurned(s: State, run: seq<Action>)
    requires Runnable(s, run) && s.family.status == ReuseDetected
    ensures After(s, run).family.status == ReuseDetected
    decreases |run|
  {
    hide Step, Enabled;
    if run != [] {
      StepKeepsBurned(s, run[0]);
      BurnedStaysBurned(Step(s, run[0]), run[1..]);
    }
  }

  lemma {:induction false} BurnedFromIff(s: State, run: seq<Action>)
    requires Inv(s) && Runnable(s, run) && s.family.status != ReuseDetected
    ensures After(s, run).family.status == ReuseDetected <==> BurnsInRun(s, run)
    decreases |run|
  {
    hide Inv, Step, Enabled, BurnsNow;
    if run != [] {
      var next := Step(s, run[0]);
      StepKeepsInv(s, run[0]);
      StepBurns(s, run[0]);
      if next.family.status == ReuseDetected {
        BurnedStaysBurned(next, run[1..]);
      } else {
        BurnedFromIff(next, run[1..]);
      }
    }
  }

  /** A run ends with a burned family exactly if one of its steps delivers a stale request to the living family. */
  lemma BurnedIff(strict: bool, token: Token, window: nat, run: seq<Action>)
    requires Runnable(Start(strict, token, window), run)
    ensures After(Start(strict, token, window), run).family.status == ReuseDetected
            <==> BurnsInRun(Start(strict, token, window), run)
  {
    StartInv(strict, token, window);
    BurnedFromIff(Start(strict, token, window), run);
  }

  lemma StepKeepsStrict(s: State, a: Action)
    requires Enabled(s, a)
    ensures Step(s, a).family.strict == s.family.strict
  {
  }

  lemma {:induction false} LenientNeverBurns(s: State, run: seq<Action>)
    requires Runnable(s, run) && !s.family.strict
    ensures !BurnsInRun(s, run)
    decreases |run|
  {
    hide Step, Enabled;
    if run != [] {
      StepKeepsStrict(s, run[0]);
      LenientNeverBurns(Step(s, run[0]), run[1..]);
    }
  }

  /** Against the contract the client is written for, it never burns its family, in any run. */
  lemma NeverBurned(token: Token, window: nat, run: seq<Action>)
    requires Runnable(Start(false, token, window), run)
    ensures After(Start(false, token, window), run).family.status != ReuseDetected
  {
    BurnedIff(false, token, window, run);
    LenientNeverBurns(Start(false, token, window), run);
  }

  /**
   * What the client can see of a request that does not burn: it is for the token the client stores, or the stored
   * token is its successor and nothing has been sent for that one yet.
   */
  ghost predicate Timely(s: State, p: Pending) {
    p.token == s.stored || (p.successor == s.stored && forall q :: q in s.sent ==> q.token != s.stored)
  }

  ghost predicate Prompt(s: State, run: seq<Action>)
    requires Runnable(s, run)
    decreases |run|
  {
    run == [] ||
    (&& (run[0].Deliver? && Alive(s.family) ==> Timely(s, run[0].p))
     && Prompt(Step(s, run[0]), run[1..]))
  }

  lemma TimelyIsNotStale(s: State, p: Pending)
    requires Alive(s.family) && Facts(s) && p in s.sent && Timely(s, p)
    ensures !Stale(s.family, p)
  {
    assert RowOk(s.family, s.stored) && RowOk(s.family, p.token);
  }

  lemma {:induction false} PromptDoesNotBurn(s: State, run: seq<Action>)
    requires Inv(s) && Runnable(s, run) && Prompt(s, run)
    ensures !BurnsInRun(s, run)
    decreases |run|
  {
    hide Facts, Step, Timely, Alive, Stale;
    if run != [] {
      var a := run[0];
      StepKeepsInv(s, a);
      if a.Deliver? && Alive(s.family) {
        TimelyIsNotStale(s, a.p);
      }
      PromptDoesNotBurn(Step(s, a), run[1..]);
    }
  }

  /** The actual server is never burned either, in a run whose requests arrive in time. */
  lemma PromptNeverBurned(strict: bool, token: Token, window: nat, run: seq<Action>)
    requires Runnable(Start(strict, token, window), run) && Prompt(Start(strict, token, window), run)
    ensures After(Start(strict, token, window), run).family.status != ReuseDetected
  {
    StartInv(strict, token, window);
    BurnedIff(strict, token, window, run);
    PromptDoesNotBurn(Start(strict, token, window), run);
  }

  // ---- Dead is dead --------------------------------------------------------------------------------------------

  lemma {:induction false} RunStaysDead(s: State, run: seq<Action>)
    requires Runnable(s, run) && !Alive(s.family)
    ensures !Alive(After(s, run).family)
    decreases |run|
  {
    hide Step, Enabled, Alive;
    if run != [] {
      DeadStaysDead(s, run[0]);
      RunStaysDead(Step(s, run[0]), run[1..]);
    }
  }

  /** After a revocation, or once the deadline has passed, no run brings the family back: every request is refused. */
  lemma NeverServedAgain(s: State, end: Action, run: seq<Action>, p: Pending)
    requires Enabled(s, end) && (end == Revoke || (end.Tick? && s.family.deadline <= end.now))
    requires Runnable(Step(s, end), run)
    ensures var f := After(Step(s, end), run).family; !Alive(f) && Rotate(f, p) == (f, Denial(p))
  {
    RunStaysDead(Step(s, end), run);
  }

  // ---- Where it stops holding -----------------------------------------------------------------------------

  /** One undisturbed rotation, from reading the token to clearing the record. */
  function Rotation(p: Pending): seq<Action> {
    [ReadToken, LoadPending, SavePending, Send, Deliver(p), ReceiveOkay, StoreSuccessor, ClearPending(true)]
  }

  lemma {:induction false} RunsCompose(s: State, first: seq<Action>, second: seq<Action>)
    requires Runnable(s, first) && Runnable(After(s, first), second)
    ensures Runnable(s, first + second) && After(s, first + second) == After(After(s, first), second)
    decreases |first|
  {
    hide Step, Enabled;
    if first == [] {
      assert first + second == second;
    } else {
      assert (first + second)[1..] == first[1..] + second;
      RunsCompose(Step(s, first[0]), first[1..], second);
    }
  }

  /** Two undisturbed rotations in a row leave the first request two generations behind. */
  lemma TwoRotations(s: State, first: Pending, second: Pending)
    requires s.phase == Idle && s.pending.None? && Alive(s.family) && s.family.strict
    requires s.stored in s.family.rows && s.family.rows[s.stored] == Row(s.family.current, None, s.family.deadline)
    requires s.nextToken !in s.family.rows && s.nextToken + 1 !in s.family.rows
    requires first == Pending(s.stored, s.nextId, s.nextToken)
    requires second == Pending(s.nextToken, s.nextId + 1, s.nextToken + 1)
    ensures Runnable(s, Rotation(first) + Rotation(second))
    ensures var s' := After(s, Rotation(first) + Rotation(second));
            Alive(s'.family) && Stale(s'.family, first) && first in s'.sent && ConsumedBy(s'.family, first)
  {
    PlainRotation(s);
    var s1 := After(s, Rotation(first));
    PlainRotation(s1);
    RunsCompose(s, Rotation(first), Rotation(second));
  }

  /**
   * Two rotations, and then the network repeats the first request: the actual server reads the repeat
   * as reuse although one client sent everything and every reply arrived.
   */
  lemma LateDuplicateBurns(token: Token, window: nat)
    requires window > 0
    ensures var first, second := Pending(token, 0, token + 1), Pending(token + 1, 1, token + 2);
            var run := Rotation(first) + Rotation(second) + [Deliver(first)];
            && Runnable(Start(true, token, window), run)
            && After(Start(true, token, window), run).family.status == ReuseDetected
  {
    var first, second := Pending(token, 0, token + 1), Pending(token + 1, 1, token + 2);
    var s := Start(true, token, window);
    hide Runnable, After, Rotation;
    TwoRotations(s, first, second);
    var both := Rotation(first) + Rotation(second);
    LateDelivery(After(s, both), first);
    RunsCompose(s, both, [Deliver(first)]);
  }

  lemma LateDelivery(s: State, p: Pending)
    requires Alive(s.family) && Stale(s.family, p) && p in s.sent && ConsumedBy(s.family, p)
    ensures Runnable(s, [Deliver(p)]) && After(s, [Deliver(p)]).family.status == ReuseDetected
  {
    Prepend(s, Deliver(p), []);
  }

  /** What an undisturbed rotation by an idle client does. */
  lemma PlainRotation(s: State)
    requires s.phase == Idle && s.pending.None? && Alive(s.family)
    requires s.stored in s.family.rows && s.family.rows[s.stored] == Row(s.family.current, None, s.family.deadline)
    requires s.nextToken !in s.family.rows
    ensures var p := Pending(s.stored, s.nextId, s.nextToken);
            && Runnable(s, Rotation(p))
            && After(s, Rotation(p)) ==
                 State(s.nextToken, None, Idle, Rotate(s.family, p).0, s.sent + {p}, s.replies + {Okay(p)},
                       s.nextToken + 1, s.nextId + 1)
            && Alive(Rotate(s.family, p).0)
  {
    var p := Pending(s.stored, s.nextId, s.nextToken);
    var run := Rotation(p);
    assert Alive(Rotate(s.family, p).0) && Rotate(s.family, p).1 == Okay(p);
    hide Rotate, Alive;
    var ready := State(s.stored, Some(p), Ready(p), s.family, s.sent, s.replies, s.nextToken + 1, s.nextId + 1);
    Finish(ready, p);
    hide After, Runnable;
    var a := Step(s, ReadToken);
    var b := Step(a, LoadPending);
    assert Step(b, SavePending) == ready;
    Prepend(b, SavePending, run[3..]);
    Prepend(a, LoadPending, run[2..]);
    Prepend(s, ReadToken, run[1..]);
  }

  lemma Finish(s: State, p: Pending)
    requires s.phase == Ready(p) && Rotate(s.family, p).1 == Okay(p)
    ensures Runnable(s, Rotation(p)[3..])
    ensures After(s, Rotation(p)[3..]) ==
              s.(stored := p.successor, pending := None, phase := Idle, family := Rotate(s.family, p).0,
                 sent := s.sent + {p}, replies := s.replies + {Okay(p)})
  {
    hide Rotate;
    var run := Rotation(p);
    var d := Step(s, Send);
    var e := Step(d, Deliver(p));
    Conclude(e, p);
    hide Runnable, After;
    Prepend(d, Deliver(p), run[5..]);
    Prepend(s, Send, run[4..]);
  }

  /** The reply is there: the client reads it, stores the successor and clears its record. */
  lemma Conclude(s: State, p: Pending)
    requires s.phase == Waiting(p) && Okay(p) in s.replies
    ensures Runnable(s, Rotation(p)[5..])
    ensures After(s, Rotation(p)[5..]) == s.(stored := p.successor, pending := None, phase := Idle)
  {
    var run := Rotation(p);
    var f := Step(s, ReceiveOkay);
    var g := Step(f, StoreSuccessor);
    var h := Step(g, ClearPending(true));
    assert Runnable(h, []) && After(h, []) == h;
    hide Runnable, After;
    Prepend(g, ClearPending(true), []);
    Prepend(f, StoreSuccessor, run[7..]);
    Prepend(s, ReceiveOkay, run[6..]);
  }

  /** A ready client's request is answered, and leaves the successor as the family's current token. */
  lemma ReadyIsServed(s: State)
    requires Alive(s.family) && Facts(s) && s.phase.Ready?
    ensures var (g, reply), p := Rotate(s.family, s.phase.p), s.phase.p;
            && reply == Okay(p) && Alive(g)
            && p.successor in g.rows && g.rows[p.successor] == Row(g.current, None, g.deadline)
  {
    var p := s.phase.p;
    assert RowOk(s.family, s.stored);
    RotateOutcome(s.family, p);
    if s.family.rows[p.token].consumed.Some? {
      assert RowOk(s.family, p.successor);
    } else {
      FirstDelivery(s.family, p);
    }
  }

  /** From reading the stored token to a durable pair for it, old or new. */
  lemma GetsReady(s: State) returns (run: seq<Action>, t: State)
    requires Inv(s) && Alive(s.family) && s.phase == Idle
    ensures Runnable(s, run) && After(s, run) == t
    ensures Inv(t) && t.family == s.family && t.phase.Ready?
  {
    hide Facts, Rotate;
    var a := Step(s, ReadToken);
    var b := Step(a, LoadPending);
    StepKeepsInv(s, ReadToken);
    StepKeepsInv(a, LoadPending);
    if b.phase.Ready? {
      t, run := b, [];
    } else {
      t := Step(b, SavePending);
      StepKeepsInv(b, SavePending);
      assert Runnable(t, []) && After(t, []) == t;
      Prepend(b, SavePending, []);
      run := [SavePending] + [];
    }
    assert Runnable(b, run) && After(b, run) == t;
    hide Runnable, After;
    Prepend(a, LoadPending, run);
    Prepend(s, ReadToken, [LoadPending] + run);
    run := [ReadToken] + ([LoadPending] + run);
  }

  /**
   * Never stranded: from every state a run can reach while the family lives, whatever was lost or crashed on the
   * way, there is a way on that ends with the family's current token stored and no record left.
   */
  lemma AlwaysRecovers(strict: bool, token: Token, window: nat, run: seq<Action>) returns (more: seq<Action>, t: State)
    requires Runnable(Start(strict, token, window), run) && Alive(After(Start(strict, token, window), run).family)
    ensures Runnable(After(Start(strict, token, window), run), more)
    ensures t == After(After(Start(strict, token, window), run), more)
    ensures Alive(t.family) && t.phase == Idle && t.pending == None
    ensures t.stored in t.family.rows && t.family.rows[t.stored] == Row(t.family.current, None, t.family.deadline)
  {
    StartInv(strict, token, window);
    RunKeepsInv(Start(strict, token, window), run);
    var s := After(Start(strict, token, window), run);
    hide Facts, Rotate;
    StepKeepsInv(s, Crash);
    var idle := Step(s, Crash);
    var first, ready := GetsReady(idle);
    ReadyIsServed(ready);
    var p := ready.phase.p;
    Finish(ready, p);
    var last := Rotation(p)[3..];
    t := After(ready, last);
    hide Runnable, After;
    RunsCompose(idle, first, last);
    Prepend(s, Crash, first + last);
    more := [Crash] + (first + last);
  }

  lemma Prepend(s: State, a: Action, rest: seq<Action>)
    requires Enabled(s, a) && Runnable(Step(s, a), rest)
    ensures Runnable(s, [a] + rest) && After(s, [a] + rest) == After(Step(s, a), rest)
  {
    assert ([a] + rest)[1..] == rest;
  }
}
