/**
 * The per-key promise chains and the ordered acquisition of several keys, as a machine whose steps are the
 * callbacks the event loop may run, in any order it may run them.
 */
module KeyedMutex {

  import opened Options
  import opened StringOrder

  /** A link of a key's chain: enqueued, its callback entered, its promise settled, its drain check done. */
  datatype Stage = Waiting | Granted | Settled | Drained

  /** One `runExclusive` call: the key, the task and which of its keys this is, and the link it chains after. */
  datatype Link = Link(key: string, task: nat, index: nat, prev: Option<nat>, stage: Stage)

  /** A task picks its next key, waits for it, runs its body, or is done. It picks within one callback. */
  datatype Body = Picking | Pending | InBody | Finished

  /** One `withKeys` call: its ordered keys, the links it has enqueued so far, and its own body. */
  datatype Task = Task(keys: seq<string>, links: seq<nat>, body: Body)

  datatype State = State(links: seq<Link>, chains: map<string, nat>, tasks: seq<Task>)

  function Empty(): State {
    State([], map[], [])
  }

  predicate IsSettled(link: Link) {
    link.stage.Settled? || link.stage.Drained?
  }

  /** `runExclusive`: chain after the key's registered tail, if there is one, and become the tail. */
  function Enqueue(s: State, t: nat): State
    requires t < |s.tasks| && |s.tasks[t].links| < |s.tasks[t].keys|
  {
    var task := s.tasks[t];
    var key := task.keys[|task.links|];
    var prev := if key in s.chains then Some(s.chains[key]) else None;
    State(s.links + [Link(key, t, |task.links|, prev, Waiting)], s.chains[key := |s.links|],
          s.tasks[t := Task(task.keys, task.links + [|s.links|], Pending)])
  }

  /** The recursion of `withKeys`: take the next key, or enter the body once all are held. */
  function Advance(s: State, t: nat): State
    requires t < |s.tasks|
  {
    if |s.tasks[t].links| < |s.tasks[t].keys| then Enqueue(s, t)
    else s.(tasks := s.tasks[t := s.tasks[t].(body := InBody)])
  }

  datatype Action =
    | Call(keys: seq<string>) | Grant(link: nat) | Finish(task: nat) | Settle(link: nat) | Drain(link: nat)

  predicate Enabled(s: State, a: Action) {
    match a
    case Call(_) => true
    case Grant(l) =>
      && l < |s.links| && s.links[l].stage.Waiting? && s.links[l].task < |s.tasks|
      && (s.links[l].prev.Some? ==> s.links[l].prev.value < |s.links| && IsSettled(s.links[s.links[l].prev.value]))
    case Finish(t) => t < |s.tasks| && s.tasks[t].body.InBody?
    case Settle(l) =>
      && l < |s.links| && s.links[l].stage.Granted? && s.links[l].task < |s.tasks|
      && s.tasks[s.links[l].task].body.Finished?
    case Drain(l) => l < |s.links| && s.links[l].stage.Settled?
  }

  function Marked(s: State, l: nat, stage: Stage): State
    requires l < |s.links|
  {
    s.(links := s.links[l := s.links[l].(stage := stage)])
  }

  /** A link's callback is entered, and its task goes on to pick. */
  function Entered(s: State, l: nat): State
    requires l < |s.links| && s.links[l].task < |s.tasks|
  {
    var t := s.links[l].task;
    Marked(s, l, Granted).(tasks := s.tasks[t := s.tasks[t].(body := Picking)])
  }

  /** A body may resolve or reject; its links settle the same way, in any order. */
  function Step(s: State, a: Action): State
    requires Enabled(s, a)
  {
    match a
    case Call(keys) =>
      Advance(s.(tasks := s.tasks + [Task(Sorted(Elements(keys)), [], Picking)]), |s.tasks|)
    case Grant(l) => Advance(Entered(s, l), s.links[l].task)
    case Finish(t) => s.(tasks := s.tasks[t := s.tasks[t].(body := Finished)])
    case Settle(l) => Marked(s, l, Settled)
    case Drain(l) =>
      var key := s.links[l].key;
      var marked := Marked(s, l, Drained);
      if key in s.chains && s.chains[key] == l then marked.(chains := s.chains - {key}) else marked
  }

  // ---- What every reachable state keeps ------------------------------------------------------------

  /** A link's stage agrees with how far its task has got. */
  ghost predicate LinkOk(s: State, l: nat)
    requires l < |s.links|
  {
    var link := s.links[l];
    && link.task < |s.tasks|
    && var task := s.tasks[link.task];
      && link.index < |task.links| && task.links[link.index] == l
      && link.index < |task.keys| && task.keys[link.index] == link.key
      && (link.prev.Some? ==> link.prev.value < l && s.links[link.prev.value].key == link.key)
      && (link.stage.Waiting? <==> task.body.Pending? && link.index == |task.links| - 1)
      && (IsSettled(link) ==> task.body.Finished?)
  }

  ghost predicate TaskOk(s: State, t: nat)
    requires t < |s.tasks|
  {
    var task := s.tasks[t];
    && Ascending(task.keys) && |task.links| <= |task.keys|
    && (task.body.Pending? ==> task.links != [])
    && (task.body.InBody? || task.body.Finished? ==> |task.links| == |task.keys|)
    && (forall i :: 0 <= i < |task.links| ==>
          task.links[i] < |s.links| && s.links[task.links[i]].task == t && s.links[task.links[i]].index == i)
  }

  /** Of two links of one key, the earlier is settled, or is what the later one is still waiting behind. */
  ghost predicate InTurn(s: State, k: nat, l: nat)
    requires k < l < |s.links|
  {
    s.links[k].key == s.links[l].key && !IsSettled(s.links[k]) ==>
      s.links[l].stage.Waiting? && s.links[l].prev.Some? && k <= s.links[l].prev.value
  }

  /** A registered link is its key's last; of an unregistered key, nothing is in flight. */
  ghost predicate ChainsOk(s: State) {
    && (forall key :: key in s.chains ==>
          s.chains[key] < |s.links| && s.links[s.chains[key]].key == key && !s.links[s.chains[key]].stage.Drained?)
    && (forall l :: 0 <= l < |s.links| ==>
          if s.links[l].key in s.chains then l <= s.chains[s.links[l].key] else IsSettled(s.links[l]))
  }

  ghost predicate Inv(s: State) {
    && (forall l :: 0 <= l < |s.links| ==> LinkOk(s, l))
    && (forall t :: 0 <= t < |s.tasks| ==> TaskOk(s, t))
    && (forall k, l :: 0 <= k < l < |s.links| ==> InTurn(s, k, l))
    && ChainsOk(s)
  }

  /** No task is in the middle of a callback. */
  ghost predicate AtRest(s: State) {
    forall t :: 0 <= t < |s.tasks| ==> !s.tasks[t].body.Picking?
  }
}
