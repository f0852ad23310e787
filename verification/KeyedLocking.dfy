/** Keyed locking is exclusive, first come first served per key, and free of deadlock. */
module KeyedLocking {

  import opened StringOrder
  import opened KeyedMutex

  lemma EmptyInv()
    ensures Inv(Empty()) && AtRest(Empty())
  {
  }

  // ---- Every step keeps the invariant ---------------------------------------------------------------

  lemma CallKeepsInv(s: State, keys: seq<string>)
    requires Inv(s)
    ensures Inv(s.(tasks := s.tasks + [Task(Sorted(Elements(keys)), [], Picking)]))
  {
    var s' := s.(tasks := s.tasks + [Task(Sorted(Elements(keys)), [], Picking)]);
    forall l | 0 <= l < |s'.links| ensures LinkOk(s', l) { assert LinkOk(s, l); }
    forall t | 0 <= t < |s'.tasks| ensures TaskOk(s', t) { assert t < |s.tasks| ==> TaskOk(s, t); }
    forall k, l | 0 <= k < l < |s'.links| ensures InTurn(s', k, l) { assert InTurn(s, k, l); }
  }

  /** Enqueuing: whatever is unsettled for the key is at or before the registered tail. */
  lemma EnqueueKeepsInv(s: State, t: nat)
    requires Inv(s) && t < |s.tasks| && s.tasks[t].body.Picking? && |s.tasks[t].links| < |s.tasks[t].keys|
    ensures Inv(Enqueue(s, t))
  {
    var s' := Enqueue(s, t);
    var n := |s.links|;
    assert TaskOk(s, t);
    forall l | 0 <= l < |s'.links| ensures LinkOk(s', l) { assert l < n ==> LinkOk(s, l); }
    forall u | 0 <= u < |s'.tasks| ensures TaskOk(s', u) { assert TaskOk(s, u); }
    forall k, l | 0 <= k < l < |s'.links| ensures InTurn(s', k, l) { assert l < n ==> InTurn(s, k, l); }
    assert ChainsOk(s');
  }

  lemma EnterBodyKeepsInv(s: State, t: nat)
    requires Inv(s) && t < |s.tasks| && s.tasks[t].body.Picking? && |s.tasks[t].links| == |s.tasks[t].keys|
    ensures Inv(s.(tasks := s.tasks[t := s.tasks[t].(body := InBody)]))
  {
    var s' := s.(tasks := s.tasks[t := s.tasks[t].(body := InBody)]);
    forall l | 0 <= l < |s'.links| ensures LinkOk(s', l) { assert LinkOk(s, l); }
    forall u | 0 <= u < |s'.tasks| ensures TaskOk(s', u) { assert TaskOk(s, u); }
    forall k, l | 0 <= k < l < |s'.links| ensures InTurn(s', k, l) { assert InTurn(s, k, l); }
  }

  /** When a link's predecessor has settled, every earlier link of its key has. */
  lemma EarlierSettled(s: State, l: nat, k: nat)
    requires Inv(s) && Enabled(s, Grant(l)) && k < l && s.links[k].key == s.links[l].key
    ensures IsSettled(s.links[k])
  {
    assert InTurn(s, k, l);
    var prev := s.links[l].prev;
    if prev.Some? {
      assert LinkOk(s, l) && LinkOk(s, prev.value);
      if k < prev.value { assert InTurn(s, k, prev.value); }
    }
  }

  lemma EnterKeepsInv(s: State, l: nat)
    requires Inv(s) && Enabled(s, Grant(l))
    ensures Inv(Entered(s, l))
  {
    var s' := Entered(s, l);
    assert LinkOk(s, l);
    forall m | 0 <= m < |s'.links| ensures LinkOk(s', m) { assert LinkOk(s, m); }
    forall u | 0 <= u < |s'.tasks| ensures TaskOk(s', u) { assert TaskOk(s, u); }
    forall k, m | 0 <= k < m < |s'.links| ensures InTurn(s', k, m) {
      assert InTurn(s, k, m);
      if m == l && s.links[k].key == s.links[l].key { EarlierSettled(s, l, k); }
    }
  }

  lemma FinishKeepsInv(s: State, t: nat)
    requires Inv(s) && Enabled(s, Finish(t))
    ensures Inv(Step(s, Finish(t)))
  {
    var s' := Step(s, Finish(t));
    forall l | 0 <= l < |s'.links| ensures LinkOk(s', l) { assert LinkOk(s, l); }
    forall u | 0 <= u < |s'.tasks| ensures TaskOk(s', u) { assert TaskOk(s, u); }
    forall k, l | 0 <= k < l < |s'.links| ensures InTurn(s', k, l) { assert InTurn(s, k, l); }
  }

  lemma SettleKeepsInv(s: State, l: nat)
    requires Inv(s) && Enabled(s, Settle(l))
    ensures Inv(Step(s, Settle(l)))
  {
    var s' := Step(s, Settle(l));
    forall m | 0 <= m < |s'.links| ensures LinkOk(s', m) { assert LinkOk(s, m); }
    forall u | 0 <= u < |s'.tasks| ensures TaskOk(s', u) { assert TaskOk(s, u); }
    forall k, m | 0 <= k < m < |s'.links| ensures InTurn(s', k, m) { assert InTurn(s, k, m); }
  }

  /** Dropping a drained tail loses no one: every earlier link of the key was served before it. */
  lemma DrainKeepsInv(s: State, l: nat)
    requires Inv(s) && Enabled(s, Drain(l))
    ensures Inv(Step(s, Drain(l)))
  {
    var s' := Step(s, Drain(l));
    forall m | 0 <= m < |s'.links| ensures LinkOk(s', m) { assert LinkOk(s, m); }
    forall u | 0 <= u < |s'.tasks| ensures TaskOk(s', u) { assert TaskOk(s, u); }
    forall k, m | 0 <= k < m < |s'.links| ensures InTurn(s', k, m) { assert InTurn(s, k, m); }
    forall m | 0 <= m < |s'.links| && s'.links[m].key !in s'.chains ensures IsSettled(s'.links[m]) {
      if m < l { assert InTurn(s, m, l); }
    }
  }

  lemma AdvanceKeepsInv(s: State, t: nat)
    requires Inv(s) && t < |s.tasks| && s.tasks[t].body.Picking?
    requires forall u :: 0 <= u < |s.tasks| && u != t ==> !s.tasks[u].body.Picking?
    ensures Inv(Advance(s, t)) && AtRest(Advance(s, t))
  {
    assert TaskOk(s, t);
    if |s.tasks[t].links| < |s.tasks[t].keys| { EnqueueKeepsInv(s, t); } else { EnterBodyKeepsInv(s, t); }
  }

  lemma StepKeepsInv(s: State, a: Action)
    requires Inv(s) && AtRest(s) && Enabled(s, a)
    ensures Inv(Step(s, a)) && AtRest(Step(s, a))
  {
    hide Inv, Sorted, Advance;
    match a
    case Call(keys) =>
      CallKeepsInv(s, keys);
      AdvanceKeepsInv(s.(tasks := s.tasks + [Task(Sorted(Elements(keys)), [], Picking)]), |s.tasks|);
    case Grant(l) =>
      EnterKeepsInv(s, l);
      AdvanceKeepsInv(Entered(s, l), s.links[l].task);
    case Finish(t) => FinishKeepsInv(s, t);
    case Settle(l) => SettleKeepsInv(s, l);
    case Drain(l) => DrainKeepsInv(s, l);
  }

  // ---- Runs ------------------------------------------------------------------------------------------

  predicate Runnable(s: State, run: seq<Action>)
    decreases |run|
  {
    run == [] || (Enabled(s, run[0]) && Runnable(Step(s, run[0]), run[1..]))
  }

  function After(s: State, run: seq<Action>): State
    requires Runnable(s, run)
    decreases |run|
  {
    if run == [] then s else After(Step(s, run[0]), run[1..])
  }

  lemma {:induction false} RunKeepsInv(s: State, run: seq<Action>)
    requires Inv(s) && AtRest(s) && Runnable(s, run)
    ensures Inv(After(s, run)) && AtRest(After(s, run))
    decreases |run|
  {
    hide Inv, AtRest, Step, Enabled;
    if run != [] {
      StepKeepsInv(s, run[0]);
      RunKeepsInv(Step(s, run[0]), run[1..]);
    }
  }

  /** The key lists of the run's calls, in order. */
  function Calls(run: seq<Action>): seq<seq<string>> {
    if run == [] then [] else (if run[0].Call? then [run[0].keys] else []) + Calls(run[1..])
  }

  /** A step keeps every task's keys, and a call adds a task with all the keys it asked for. */
  lemma StepTasks(s: State, a: Action)
    requires Enabled(s, a)
    ensures |Step(s, a).tasks| == |s.tasks| + if a.Call? then 1 else 0
    ensures forall t :: 0 <= t < |s.tasks| ==> Step(s, a).tasks[t].keys == s.tasks[t].keys
    ensures a.Call? ==> Elements(Step(s, a).tasks[|s.tasks|].keys) == Elements(a.keys)
  {
    hide Sorted;
  }

  lemma {:induction false} RunTasks(s: State, run: seq<Action>)
    requires Runnable(s, run)
    ensures var tasks, n := After(s, run).tasks, |s.tasks|;
            && |tasks| == n + |Calls(run)|
            && (forall t :: 0 <= t < n ==> tasks[t].keys == s.tasks[t].keys)
            && (forall t :: 0 <= t < |Calls(run)| ==> Elements(tasks[n + t].keys) == Elements(Calls(run)[t]))
    decreases |run|
  {
    hide Step, Enabled, Elements;
    if run != [] {
      var s' := Step(s, run[0]);
      StepTasks(s, run[0]);
      RunTasks(s', run[1..]);
      var tasks, n := After(s, run).tasks, |s.tasks|;
      forall t | 0 <= t < |Calls(run)| ensures Elements(tasks[n + t].keys) == Elements(Calls(run)[t]) {
        if run[0].Call? {
          if t > 0 {
            assert Calls(run)[t] == Calls(run[1..])[t - 1];
            assert Elements(tasks[|s'.tasks| + (t - 1)].keys) == Elements(Calls(run[1..])[t - 1]);
          }
        } else {
          assert Calls(run) == Calls(run[1..]);
        }
      }
    }
  }

  /** In every run there is one task per call, holding out for exactly the keys the call asked for. */
  lemma TasksAreCalls(run: seq<Action>)
    requires Runnable(Empty(), run)
    ensures |After(Empty(), run).tasks| == |Calls(run)|
    ensures forall t :: 0 <= t < |Calls(run)| ==> Elements(After(Empty(), run).tasks[t].keys) == Elements(Calls(run)[t])
  {
    hide Elements;
    RunTasks(Empty(), run);
    var tasks := After(Empty(), run).tasks;
    forall t | 0 <= t < |Calls(run)| ensures Elements(tasks[t].keys) == Elements(Calls(run)[t]) {
      assert Elements(tasks[|Empty().tasks| + t].keys) == Elements(Calls(run)[t]);
    }
  }

  /** In every run, no two calls that asked for a common key are in their bodies at once. */
  lemma MutualExclusion(run: seq<Action>, t: nat, u: nat, key: string)
    requires Runnable(Empty(), run) && t < u < |Calls(run)| && key in Calls(run)[t] && key in Calls(run)[u]
    ensures var tasks := After(Empty(), run).tasks;
            u < |tasks| && !(tasks[t].body.InBody? && tasks[u].body.InBody?)
  {
    EmptyInv();
    RunKeepsInv(Empty(), run);
    TasksAreCalls(run);
    var s := After(Empty(), run);
    assert key in Elements(Calls(run)[t]) && key in Elements(Calls(run)[u]);
    assert key in Elements(s.tasks[t].keys) && key in Elements(s.tasks[u].keys);
    hide Inv, Runnable, After;
    if s.tasks[t].body.InBody? && s.tasks[u].body.InBody? {
      var k := HeldLink(s, t, key);
      var l := HeldLink(s, u, key);
      OneHolder(s, k, l);
    }
  }

  /** A key is held by one link at a time. */
  lemma OneHolder(s: State, k: nat, l: nat)
    requires Inv(s) && k < |s.links| && l < |s.links| && k != l
    ensures s.links[k].stage.Granted? && s.links[l].stage.Granted? ==> s.links[k].key != s.links[l].key
  {
    assert k < l ==> InTurn(s, k, l);
    assert l < k ==> InTurn(s, l, k);
  }

  /** A running body holds a granted, unsettled link of each of its keys. */
  lemma HeldLink(s: State, t: nat, key: string) returns (l: nat)
    requires Inv(s) && t < |s.tasks| && s.tasks[t].body.InBody? && key in s.tasks[t].keys
    ensures l < |s.links| && s.links[l].task == t && s.links[l].key == key && s.links[l].stage.Granted?
  {
    assert TaskOk(s, t);
    var i :| 0 <= i < |s.tasks[t].keys| && s.tasks[t].keys[i] == key;
    l := s.tasks[t].links[i];
    assert LinkOk(s, l);
  }

  /** In every run, a key is served in the order of enqueuing, whether or not its registry entry was dropped. */
  lemma FirstComeFirstServed(run: seq<Action>, k: nat, l: nat)
    requires Runnable(Empty(), run) && k < l < |After(Empty(), run).links|
    requires var s := After(Empty(), run); s.links[k].key == s.links[l].key && !s.links[l].stage.Waiting?
    ensures IsSettled(After(Empty(), run).links[k])
  {
    EmptyInv();
    RunKeepsInv(Empty(), run);
    assert InTurn(After(Empty(), run), k, l);
  }

  /** In every run, nothing but earlier links of its own key makes a link wait: other keys never block it. */
  lemma OnlyOwnKeyBlocks(run: seq<Action>, l: nat)
    requires Runnable(Empty(), run) && l < |After(Empty(), run).links| && After(Empty(), run).links[l].stage.Waiting?
    ensures var links := After(Empty(), run).links;
            Enabled(After(Empty(), run), Grant(l)) <==>
              forall k :: 0 <= k < l && links[k].key == links[l].key ==> IsSettled(links[k])
  {
    EmptyInv();
    RunKeepsInv(Empty(), run);
    var s := After(Empty(), run);
    assert LinkOk(s, l);
    hide Runnable, After;
    if Enabled(s, Grant(l)) {
      forall k | 0 <= k < l && s.links[k].key == s.links[l].key ensures IsSettled(s.links[k]) {
        EarlierSettled(s, l, k);
      }
    }
  }

  // ---- Progress -----------------------------------------------------------------------------------------

  /** Everything called has finished and drained. */
  ghost predicate Quiet(s: State) {
    && (forall t :: 0 <= t < |s.tasks| ==> s.tasks[t].body.Finished?)
    && (forall l :: 0 <= l < |s.links| ==> s.links[l].stage.Drained?)
  }

  predicate WaitingAt(s: State, l: nat) {
    l < |s.links| && s.links[l].stage.Waiting?
  }

  /** The waiting link with the greatest key, and of those the oldest. */
  lemma {:induction false} GreatestWaiting(s: State, n: nat, some: nat) returns (l: nat)
    requires n <= |s.links| && some < n && WaitingAt(s, some)
    ensures l < n && WaitingAt(s, l)
    ensures forall m :: 0 <= m < n && WaitingAt(s, m) && m != l ==>
              Less(s.links[m].key, s.links[l].key) || (s.links[m].key == s.links[l].key && l < m)
    decreases n
  {
    if m :| 0 <= m < n - 1 && WaitingAt(s, m) {
      l := GreatestWaiting(s, n - 1, m);
      var key, last := s.links[l].key, s.links[n - 1].key;
      LessTotal(key, last);
      if WaitingAt(s, n - 1) && Less(key, last) {
        forall m | 0 <= m < n - 1 && WaitingAt(s, m) && Less(s.links[m].key, key)
          ensures Less(s.links[m].key, last)
        {
          LessTransitive(s.links[m].key, key, last);
        }
        l := n - 1;
      }
    } else {
      l := n - 1;
    }
  }

  /** If some link waits, some step is enabled: the one holding the greatest awaited key waits for nothing. */
  lemma WaitingMoves(s: State, some: nat) returns (a: Action)
    requires Inv(s) && AtRest(s) && WaitingAt(s, some)
    ensures Enabled(s, a) && !a.Call?
  {
    var l := GreatestWaiting(s, |s.links|, some);
    assert LinkOk(s, l);
    if s.links[l].prev.None? || IsSettled(s.links[s.links[l].prev.value]) {
      return Grant(l);
    }
    var holder := s.links[l].prev.value;
    assert LinkOk(s, holder);
    assert !WaitingAt(s, holder) by {
      LessAsymmetric(s.links[holder].key, s.links[l].key);
    }
    var t := s.links[holder].task;
    assert TaskOk(s, t);
    if s.tasks[t].body.Pending? {
      var next := NextWaits(s, holder);
      LessAsymmetric(s.links[holder].key, s.links[next].key);
      assert false;
    }
    return if s.tasks[t].body.InBody? then Finish(t) else Settle(holder);
  }

  /** A pending task that already holds a key waits for a greater one. */
  lemma NextWaits(s: State, holder: nat) returns (next: nat)
    requires Inv(s) && holder < |s.links| && s.links[holder].stage.Granted?
    requires s.links[holder].task < |s.tasks| && s.tasks[s.links[holder].task].body.Pending?
    ensures WaitingAt(s, next) && Less(s.links[holder].key, s.links[next].key)
  {
    var t := s.links[holder].task;
    assert LinkOk(s, holder) && TaskOk(s, t);
    next := s.tasks[t].links[|s.tasks[t].links| - 1];
    assert LinkOk(s, next);
  }

  /** No deadlock: until everything called has finished and drained, some step other than a new call is enabled. */
  lemma NeverStuck(run: seq<Action>) returns (a: Action)
    requires Runnable(Empty(), run) && !Quiet(After(Empty(), run))
    ensures Enabled(After(Empty(), run), a) && !a.Call?
  {
    EmptyInv();
    RunKeepsInv(Empty(), run);
    a := NotQuietMoves(After(Empty(), run));
  }

  lemma NotQuietMoves(s: State) returns (a: Action)
    requires Inv(s) && AtRest(s) && !Quiet(s)
    ensures Enabled(s, a) && !a.Call?
  {
    if t :| 0 <= t < |s.tasks| && s.tasks[t].body.Pending? {
      assert TaskOk(s, t);
      var l := s.tasks[t].links[|s.tasks[t].links| - 1];
      assert LinkOk(s, l);
      a := WaitingMoves(s, l);
    } else if t :| 0 <= t < |s.tasks| && s.tasks[t].body.InBody? {
      a := Finish(t);
    } else {
      var l :| 0 <= l < |s.links| && !s.links[l].stage.Drained?;
      assert LinkOk(s, l);
      a := if s.links[l].stage.Granted? then Settle(l) else Drain(l);
    }
  }

  // ---- Termination ----------------------------------------------------------------------------------------

  function LinkWork(link: Link): nat {
    match link.stage case Waiting => 3 case Granted => 2 case Settled => 1 case Drained => 0
  }

  function LinksWork(links: seq<Link>): nat {
    if links == [] then 0 else LinksWork(links[..|links| - 1]) + LinkWork(links[|links| - 1])
  }

  /** Three steps for every key not yet enqueued, and one to finish. */
  function TaskWork(task: Task): nat {
    (if |task.links| <= |task.keys| then 3 * (|task.keys| - |task.links|) else 0) + if task.body.Finished? then 0 else 1
  }

  function TasksWork(tasks: seq<Task>): nat {
    if tasks == [] then 0 else TasksWork(tasks[..|tasks| - 1]) + TaskWork(tasks[|tasks| - 1])
  }

  /** How many steps the calls made so far still take. */
  function Work(s: State): nat {
    LinksWork(s.links) + TasksWork(s.tasks)
  }

  lemma {:induction false} LinksWorkUpdate(links: seq<Link>, l: nat, link: Link)
    requires l < |links|
    ensures LinksWork(links[l := link]) == LinksWork(links) - LinkWork(links[l]) + LinkWork(link)
  {
    var n := |links| - 1;
    if l < n {
      LinksWorkUpdate(links[..n], l, link);
      assert links[l := link][..n] == links[..n][l := link];
    } else {
      assert links[l := link][..n] == links[..n];
    }
  }

  lemma {:induction false} TasksWorkUpdate(tasks: seq<Task>, t: nat, task: Task)
    requires t < |tasks|
    ensures TasksWork(tasks[t := task]) == TasksWork(tasks) - TaskWork(tasks[t]) + TaskWork(task)
  {
    var n := |tasks| - 1;
    if t < n {
      TasksWorkUpdate(tasks[..n], t, task);
      assert tasks[t := task][..n] == tasks[..n][t := task];
    } else {
      assert tasks[t := task][..n] == tasks[..n];
    }
  }

  /** Taking the next key or entering the body leaves the work as it is. */
  lemma AdvanceWork(s: State, t: nat)
    requires t < |s.tasks| && !s.tasks[t].body.Finished?
    ensures Work(Advance(s, t)) == Work(s)
  {
    var s' := Advance(s, t);
    TasksWorkUpdate(s.tasks, t, s'.tasks[t]);
    if |s.tasks[t].links| < |s.tasks[t].keys| {
      assert s'.links[..|s.links|] == s.links;
    }
  }

  /** Every step but a new call does one unit of work. */
  lemma StepWork(s: State, a: Action)
    requires Inv(s) && Enabled(s, a) && !a.Call?
    ensures Work(Step(s, a)) == Work(s) - 1
  {
    var s' := Step(s, a);
    match a
    case Grant(l) =>
      var t := s.links[l].task;
      assert LinkOk(s, l);
      var entered := Entered(s, l);
      LinksWorkUpdate(s.links, l, entered.links[l]);
      TasksWorkUpdate(s.tasks, t, entered.tasks[t]);
      AdvanceWork(entered, t);
    case Finish(t) => TasksWorkUpdate(s.tasks, t, s'.tasks[t]);
    case Settle(l) => LinksWorkUpdate(s.links, l, s'.links[l]);
    case Drain(l) => LinksWorkUpdate(s.links, l, s'.links[l]);
  }

  lemma {:induction false} RunWork(s: State, run: seq<Action>)
    requires Inv(s) && AtRest(s) && Runnable(s, run) && forall a :: a in run ==> !a.Call?
    ensures |run| + Work(After(s, run)) == Work(s)
    decreases |run|
  {
    hide Inv, AtRest, Step, Enabled, Work;
    if run != [] {
      StepKeepsInv(s, run[0]);
      StepWork(s, run[0]);
      RunWork(Step(s, run[0]), run[1..]);
    }
  }

  lemma QuietRegistry(s: State)
    requires Inv(s) && Quiet(s)
    ensures s.chains == map[]
  {
    assert forall key :: key !in s.chains;
  }

  /**
   * Whatever was called, and however the event loop schedules what follows: once nothing but a new call could
   * happen, which is after exactly the remaining work, every task has finished and the registry is empty.
   */
  lemma EverythingFinishes(run: seq<Action>, more: seq<Action>)
    requires Runnable(Empty(), run) && Runnable(After(Empty(), run), more)
    requires forall a :: a in more ==> !a.Call?
    ensures |more| <= Work(After(Empty(), run))
    ensures var s := After(After(Empty(), run), more);
            (forall a: Action :: Enabled(s, a) ==> a.Call?) ==> Quiet(s) && s.chains == map[]
  {
    EmptyInv();
    RunKeepsInv(Empty(), run);
    var middle := After(Empty(), run);
    RunWork(middle, more);
    RunKeepsInv(middle, more);
    var s := After(middle, more);
    if !Quiet(s) {
      var a := NotQuietMoves(s);
    } else {
      QuietRegistry(s);
    }
  }
}
