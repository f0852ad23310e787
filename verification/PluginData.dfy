/**
 * The serialized read-modify-write queue over one plugin's `data.json`: its cache, its saves that may fail,
 * and the ports that write back only the keys they changed.
 */
module PluginData {

  import opened Options

  type Key = string

  /** A top-level value, told apart by reference as `!==` does. */
  type Value = nat

  type Blob = map<Key, Value>

  function At(blob: Blob, key: Key): Option<Value> {
    if key in blob then Some(blob[key]) else None
  }

  // ---- What a port writes --------------------------------------------------------------------------

  /** The port holds a value for this key that is not the one it loaded. */
  predicate Changed(data: Blob, loaded: Blob, key: Key) {
    key in data && At(data, key) != At(loaded, key)
  }

  function Merged(disk: Blob, data: Blob, loaded: Blob): Blob {
    map key | key in disk.Keys + data.Keys && (key in disk || Changed(data, loaded, key)) ::
      if Changed(data, loaded, key) then data[key] else disk[key]
  }

  /** The mutator of a port's save, key by key. */
  method ApplyChanges(disk: Blob, data: Blob, loaded: Blob) returns (next: Blob)
    ensures next == Merged(disk, data, loaded)
  {
    next := disk;
    var keys := data.Keys;
    while keys != {}
      invariant keys <= data.Keys
      invariant forall key ::
                  At(next, key) == if key !in keys && Changed(data, loaded, key) then At(data, key) else At(disk, key)
    {
      var key :| key in keys;
      keys := keys - {key};
      if key !in loaded || data[key] != loaded[key] {
        next := next[key := data[key]];
      }
    }
    MergedAt(disk, data, loaded);
    SameBlob(next, Merged(disk, data, loaded));
  }

  /** A port's save writes what the port changed, and leaves every other key as the disk has it. */
  lemma MergedAt(disk: Blob, data: Blob, loaded: Blob)
    ensures forall key ::
              At(Merged(disk, data, loaded), key)
              == if key in data && (key !in loaded || data[key] != loaded[key]) then Some(data[key]) else At(disk, key)
  {
  }

  lemma SameBlob(a: Blob, b: Blob)
    requires forall key :: At(a, key) == At(b, key)
    ensures a == b
  {
    forall key ensures key in a <==> key in b { assert At(a, key) == At(b, key); }
    forall key | key in a ensures a[key] == b[key] { assert At(a, key) == At(b, key); }
  }

  // ---- The queue ---------------------------------------------------------------------------------------

  /** An update by any mutator, or a port's save: what it saves and what the port had loaded when it was called. */
  datatype Update = ByMutator(mutator: Blob -> Blob) | BySave(port: nat, data: Blob, loaded: Blob) {
    function Apply(blob: Blob): Blob {
      match this
      case ByMutator(mutator) => mutator(blob)
      case BySave(_, data, loaded) => Merged(blob, data, loaded)
    }

    /** A port's save that changed this key. */
    predicate Saves(key: Key) { BySave? && Changed(data, loaded, key) }

    /** Never touches this key. */
    ghost predicate Leaves(key: Key) { forall blob :: At(Apply(blob), key) == At(blob, key) }
  }

  /** A queued operation. */
  datatype Op = LoadOp(port: nat) | UpdateOp(update: Update)

  /** The operation at the head of the queue, between its awaits. */
  datatype Phase =
    | Idle
    | Reading(op: Op)                              // no cache: `loadData` is under way
    | Have(op: Op, blob: Blob)                     // the current blob was handed out
    | Saving(update: Update, next: Blob)           // `saveData` is under way
    | Written(next: Blob)                          // the disk has it, the cache not yet

  /** `disk` is missing when the file is absent or malformed. `log` is the history of successful updates. */
  datatype State = State(disk: Option<Blob>, cache: Option<Blob>, queue: seq<Op>, phase: Phase,
                         lastLoaded: map<nat, Blob>, log: seq<Update>)

  function OnDisk(s: State): Blob {
    if s.disk.Some? then s.disk.value else map[]
  }

  function Loaded(s: State, port: nat): Blob {
    if port in s.lastLoaded then s.lastLoaded[port] else map[]
  }

  function Open(disk: Option<Blob>): State {
    State(disk, None, [], Idle, map[], [])
  }

  datatype Action =
    | CallLoad(port: nat) | CallUpdate(mutator: Blob -> Blob) | CallSave(port: nat, data: Blob)
    | Begin | ReadDone(ok: bool) | Compute | MutatorThrows | SaveDone(ok: bool) | CacheDone
    | Invalidate

  predicate Enabled(s: State, a: Action) {
    match a
    case Begin => s.phase.Idle? && s.queue != []
    case ReadDone(_) => s.phase.Reading?
    case Compute => s.phase.Have?
    case MutatorThrows => s.phase.Have? && s.phase.op.UpdateOp?
    case SaveDone(_) => s.phase.Saving?
    case CacheDone => s.phase.Written?
    case _ => true
  }

  function Step(s: State, a: Action): State
    requires Enabled(s, a)
  {
    match a
    case CallLoad(port) => s.(queue := s.queue + [LoadOp(port)])
    case CallUpdate(mutator) => s.(queue := s.queue + [UpdateOp(ByMutator(mutator))])
    case CallSave(port, data) => s.(queue := s.queue + [UpdateOp(BySave(port, data, Loaded(s, port)))])
    case Begin =>
      var op := s.queue[0];
      s.(queue := s.queue[1..], phase := if s.cache.Some? then Have(op, s.cache.value) else Reading(op))
    case ReadDone(ok) =>
      if ok then s.(cache := Some(OnDisk(s)), phase := Have(s.phase.op, OnDisk(s))) else s.(phase := Idle)
    case Compute =>
      (match s.phase.op
       case LoadOp(port) => s.(lastLoaded := s.lastLoaded[port := s.phase.blob], phase := Idle)
       case UpdateOp(update) => s.(phase := Saving(update, update.Apply(s.phase.blob))))
    case MutatorThrows => s.(phase := Idle)
    case SaveDone(ok) =>
      if ok then s.(disk := Some(s.phase.next), phase := Written(s.phase.next), log := s.log + [s.phase.update])
      else s.(phase := Idle)
    case CacheDone => s.(cache := Some(s.phase.next), phase := Idle)
    case Invalidate => s.(cache := None)
  }

  // ---- What every reachable state keeps -------------------------------------------------------------------

  function Replay(blob: Blob, log: seq<Update>): Blob {
    if log == [] then blob else log[|log| - 1].Apply(Replay(blob, log[..|log| - 1]))
  }

  /** A set cache is the disk, except for the moment between a write and its caching. */
  ghost predicate Inv(s: State, start: Blob) {
    && OnDisk(s) == Replay(start, s.log)
    && (s.cache.Some? && !s.phase.Written? ==> s.cache.value == OnDisk(s))
    && (match s.phase
        case Have(_, blob) => blob == OnDisk(s)
        case Saving(update, next) => next == update.Apply(OnDisk(s))
        case Written(next) => next == OnDisk(s)
        case _ => true)
  }

  lemma StepKeepsInv(s: State, a: Action, start: Blob)
    requires Inv(s, start) && Enabled(s, a)
    ensures Inv(Step(s, a), start)
  {
    var s' := Step(s, a);
    if a.SaveDone? && a.ok {
      assert s'.log[..|s.log|] == s.log;
    }
  }

  predicate Runnable(s: State, run: seq<Action>)
    decreases |run|
  {
    run == [] || (Enabled(s, run[0]) && Runnable(Step(s, run[0]), run[1..]))
  }

  function After(s: State, run: seq<Action>): State
    requires Runnable(s, run)
    decreases |run|
  {
    if run == [] then s else After(Step(s, run[0]), run[1..])
  }

  lemma {:induction false} RunKeepsInv(s: State, run: seq<Action>, start: Blob)
    requires Inv(s, start) && Runnable(s, run)
    ensures Inv(After(s, run), start)
    decreases |run|
  {
    hide Inv, Step;
    if run != [] {
      StepKeepsInv(s, run[0], start);
      RunKeepsInv(Step(s, run[0]), run[1..], start);
    }
  }

  /** In every run, between operations a set cache is what is on disk. */
  lemma CacheIsDisk(disk: Option<Blob>, run: seq<Action>)
    requires Runnable(Open(disk), run)
    ensures var s := After(Open(disk), run); s.phase.Idle? && s.cache.Some? ==> s.cache.value == OnDisk(s)
  {
    RunKeepsInv(Open(disk), run, OnDisk(Open(disk)));
  }

  /** In every run, what is on disk is the successful updates applied one after another: none worked on a stale copy. */
  lemma DiskIsReplay(disk: Option<Blob>, run: seq<Action>)
    requires Runnable(Open(disk), run)
    ensures var s := After(Open(disk), run); OnDisk(s) == Replay(OnDisk(Open(disk)), s.log)
  {
    RunKeepsInv(Open(disk), run, OnDisk(Open(disk)));
  }

  lemma {:induction false} ReplayLeaves(start: Blob, log: seq<Update>, n: nat, key: Key)
    requires n <= |log| && forall i :: n <= i < |log| ==> log[i].Leaves(key)
    ensures At(Replay(start, log), key) == At(Replay(start, log[..n]), key)
  {
    if n < |log| {
      var last := |log| - 1;
      ReplayLeaves(start, log[..last], n, key);
      assert log[..last][..n] == log[..n];
      assert log[last].Leaves(key);
    } else {
      assert log[..n] == log;
    }
  }

  /** A port's save leaves every key the port did not change. */
  lemma SaveLeaves(save: Update, key: Key)
    requires save.BySave? && !save.Saves(key)
    ensures save.Leaves(key)
  {
    forall blob ensures At(save.Apply(blob), key) == At(blob, key) { MergedAt(blob, save.data, save.loaded); }
  }

  /**
   * In every run, a successful port save is still on disk, key for key, as long as no later successful update
   * touched that key, whatever other keys they wrote and however the calls, failures and invalidations interleaved.
   */
  lemma SavedKeySurvives(disk: Option<Blob>, run: seq<Action>, n: nat, key: Key)
    requires Runnable(Open(disk), run) && n < |After(Open(disk), run).log|
    requires After(Open(disk), run).log[n].Saves(key)
    requires forall i :: n < i < |After(Open(disk), run).log| ==> After(Open(disk), run).log[i].Leaves(key)
    ensures At(OnDisk(After(Open(disk), run)), key) == Some(After(Open(disk), run).log[n].data[key])
  {
    var s := After(Open(disk), run);
    var start := OnDisk(Open(disk));
    DiskIsReplay(disk, run);
    ReplayLeaves(start, s.log, n + 1, key);
    assert s.log[..n + 1][..n] == s.log[..n];
    MergedAt(Replay(start, s.log[..n]), s.log[n].data, s.log[n].loaded);
  }

  // ---- Where an update comes from ---------------------------------------------------------------------------

  /** Every update queued, running or done is one of these. */
  ghost predicate AllFrom(s: State, ok: Update -> bool) {
    && (forall i :: 0 <= i < |s.queue| && s.queue[i].UpdateOp? ==> ok(s.queue[i].update))
    && (forall i :: 0 <= i < |s.log| ==> ok(s.log[i]))
    && (match s.phase
        case Reading(op) => op.UpdateOp? ==> ok(op.update)
        case Have(op, _) => op.UpdateOp? ==> ok(op.update)
        case Saving(update, _) => ok(update)
        case _ => true)
  }

  /** What a call enqueues is one of these. */
  ghost predicate Brings(s: State, a: Action, ok: Update -> bool) {
    match a
    case CallUpdate(mutator) => ok(ByMutator(mutator))
    case CallSave(port, data) => ok(BySave(port, data, Loaded(s, port)))
    case _ => true
  }

  lemma StepKeepsFrom(s: State, a: Action, ok: Update -> bool)
    requires AllFrom(s, ok) && Enabled(s, a) && Brings(s, a, ok)
    ensures AllFrom(Step(s, a), ok)
  {
  }

  lemma {:induction false} RunKeepsFrom(s: State, run: seq<Action>, ok: Update -> bool)
    requires AllFrom(s, ok) && Runnable(s, run) && forall t, a :: a in run ==> Brings(t, a, ok)
    ensures AllFrom(After(s, run), ok)
    decreases |run|
  {
    hide AllFrom, Step, Enabled, Brings;
    if run != [] {
      StepKeepsFrom(s, run[0], ok);
      RunKeepsFrom(Step(s, run[0]), run[1..], ok);
    }
  }

  /** The run called for this update. */
  ghost predicate CalledIn(run: seq<Action>, u: Update) {
    match u
    case ByMutator(mutator) => CallUpdate(mutator) in run
    case BySave(port, data, _) => CallSave(port, data) in run
  }

  /** In every run, every successful update was called for in that run. */
  lemma LogIsCalled(disk: Option<Blob>, run: seq<Action>, n: nat)
    requires Runnable(Open(disk), run) && n < |After(Open(disk), run).log|
    ensures CalledIn(run, After(Open(disk), run).log[n])
  {
    var ok: Update -> bool := u => CalledIn(run, u);
    RunKeepsFrom(Open(disk), run, ok);
  }

  /**
   * Concurrent writers of different keys all survive: in every run of port loads and saves, if no two successful
   * saves changed the same key, every key that any of them changed is on disk as that call saved it.
   */
  lemma AllWritersSurvive(disk: Option<Blob>, run: seq<Action>, n: nat, key: Key)
    requires Runnable(Open(disk), run) && forall a :: a in run ==> !a.CallUpdate?
    requires var log := After(Open(disk), run).log;
             && (forall i, j, k :: 0 <= i < j < |log| && log[i].Saves(k) ==> !log[j].Saves(k))
             && n < |log| && log[n].Saves(key)
    ensures var save := After(Open(disk), run).log[n];
            CallSave(save.port, save.data) in run && At(OnDisk(After(Open(disk), run)), key) == Some(save.data[key])
  {
    var log := After(Open(disk), run).log;
    LogIsCalled(disk, run, n);
    forall i | n < i < |log| ensures log[i].Leaves(key) {
      LogIsCalled(disk, run, i);
      SaveLeaves(log[i], key);
    }
    SavedKeySurvives(disk, run, n, key);
  }

  // ---- One load, then one save -----------------------------------------------------------------------------------

  /** A load shows its port the disk, and no other step changes what a port has loaded. */
  lemma LoadShowsDisk(s: State, a: Action, start: Blob, port: nat)
    requires Inv(s, start) && Enabled(s, a)
    ensures if a.Compute? && s.phase.op == LoadOp(port) then Loaded(Step(s, a), port) == OnDisk(s)
            else Loaded(Step(s, a), port) == Loaded(s, port)
  {
  }

  function QueuedUpdates(queue: seq<Op>): seq<Update> {
    if queue == [] then []
    else (if queue[0].UpdateOp? then [queue[0].update] else []) + QueuedUpdates(queue[1..])
  }

  function RunningUpdate(phase: Phase): seq<Update> {
    match phase
    case Reading(op) => if op.UpdateOp? then [op.update] else []
    case Have(op, _) => if op.UpdateOp? then [op.update] else []
    case Saving(update, _) => [update]
    case _ => []
  }

  lemma {:induction false} QueuedAppend(queue: seq<Op>, op: Op)
    ensures QueuedUpdates(queue + [op]) == QueuedUpdates(queue) + if op.UpdateOp? then [op.update] else []
  {
    if queue != [] {
      QueuedAppend(queue[1..], op);
      assert (queue + [op])[1..] == queue[1..] + [op];
    }
  }

  /** Of all updates only `u` is still to come, or has come, after `base`; or it failed. */
  ghost predicate OnlyThis(s: State, base: seq<Update>, u: Update) {
    var pending := RunningUpdate(s.phase) + QueuedUpdates(s.queue);
    || (s.log == base && (pending == [u] || pending == []))
    || (s.log == base + [u] && pending == [])
  }

  lemma StepKeepsOnly(s: State, a: Action, base: seq<Update>, u: Update)
    requires OnlyThis(s, base, u) && Enabled(s, a) && !a.CallUpdate? && !a.CallSave?
    ensures OnlyThis(Step(s, a), base, u)
  {
    if a.CallLoad? {
      QueuedAppend(s.queue, LoadOp(a.port));
    }
  }

  lemma {:induction false} RunKeepsOnly(s: State, run: seq<Action>, base: seq<Update>, u: Update)
    requires OnlyThis(s, base, u) && Runnable(s, run) && forall a :: a in run ==> !a.CallUpdate? && !a.CallSave?
    ensures OnlyThis(After(s, run), base, u)
    decreases |run|
  {
    hide OnlyThis, Step, Enabled;
    if run != [] {
      StepKeepsOnly(s, run[0], base, u);
      RunKeepsOnly(Step(s, run[0]), run[1..], base, u);
    }
  }

  /**
   * In every run: a port's load is done and nothing is queued; the port saves `data`; nothing else is called to
   * write until a write has succeeded. Then every key of `data` is on disk with that value, and every other key as
   * it was.
   */
  lemma LoadThenSave(disk: Option<Blob>, before: seq<Action>, port: nat, data: Blob, rest: seq<Action>, key: Key)
    requires Runnable(Open(disk), before) && Enabled(After(Open(disk), before), Compute)
    requires After(Open(disk), before).phase.op == LoadOp(port) && After(Open(disk), before).queue == []
    requires Runnable(Step(Step(After(Open(disk), before), Compute), CallSave(port, data)), rest)
    requires forall a :: a in rest ==> !a.CallUpdate? && !a.CallSave?
    ensures var loaded := Step(After(Open(disk), before), Compute);
            var end := After(Step(loaded, CallSave(port, data)), rest);
            |end.log| > |loaded.log| ==>
              At(OnDisk(end), key) == if key in data then Some(data[key]) else At(OnDisk(loaded), key)
  {
    var start := OnDisk(Open(disk));
    var s := After(Open(disk), before);
    var s1 := Step(s, Compute);
    var s2 := Step(s1, CallSave(port, data));
    var end := After(s2, rest);
    RunKeepsInv(Open(disk), before, start);
    LoadShowsDisk(s, Compute, start, port);
    StepKeepsInv(s, Compute, start);
    StepKeepsInv(s1, CallSave(port, data), start);
    RunKeepsInv(s2, rest, start);
    var u := BySave(port, data, OnDisk(s1));
    assert s2.queue == [] + [UpdateOp(u)] && s2.phase == Idle;
    QueuedAppend([], UpdateOp(u));
    assert RunningUpdate(s2.phase) + QueuedUpdates(s2.queue) == [u];
    RunKeepsOnly(s2, rest, s1.log, u);
    hide Runnable, After, Step;
    if |end.log| > |s1.log| {
      SavedOverLoaded(s1, end, u, start, key);
    }
  }

  lemma SavedOverLoaded(s: State, end: State, u: Update, start: Blob, key: Key)
    requires Inv(s, start) && Inv(end, start) && end.log == s.log + [u]
    requires u.BySave? && u.loaded == OnDisk(s)
    ensures At(OnDisk(end), key) == if key in u.data then Some(u.data[key]) else At(OnDisk(s), key)
  {
    assert end.log[..|s.log|] == s.log;
    MergedAt(OnDisk(s), u.data, u.loaded);
  }

  /** An update that nothing disturbs is written: applied to the disk and then cached. */
  lemma UpdateCompletes(s: State, u: Update, start: Blob) returns (run: seq<Action>)
    requires Inv(s, start) && s.phase == Idle && s.queue == [UpdateOp(u)]
    ensures Runnable(s, run)
    ensures var t := After(s, run);
            && t.phase == Idle && t.queue == [] && t.log == s.log + [u]
            && OnDisk(t) == u.Apply(OnDisk(s)) && t.cache == Some(OnDisk(t))
  {
    var s1 := Step(s, Begin);
    var s2 := if s1.phase.Reading? then Step(s1, ReadDone(true)) else s1;
    run := [Compute, SaveDone(true), CacheDone];
    Unfold3(s2, Compute, SaveDone(true), CacheDone);
    if s1.phase.Reading? {
      run := [ReadDone(true)] + run;
      assert run[1..] == [Compute, SaveDone(true), CacheDone];
    }
    run := [Begin] + run;
    assert run[1..] == (if s1.phase.Reading? then [ReadDone(true)] else []) + [Compute, SaveDone(true), CacheDone];
  }

  lemma Unfold3(s: State, a: Action, b: Action, c: Action)
    requires Enabled(s, a) && Enabled(Step(s, a), b) && Enabled(Step(Step(s, a), b), c)
    ensures Runnable(s, [a, b, c]) && After(s, [a, b, c]) == Step(Step(Step(s, a), b), c)
  {
    hide Step, Enabled;
    var s2 := Step(Step(s, a), b);
    assert Runnable(Step(s2, c), []) && After(Step(s2, c), []) == Step(s2, c);
    assert [c][1..] == [] && Runnable(s2, [c]) && After(s2, [c]) == Step(s2, c);
    assert [b, c][1..] == [c] && [a, b, c][1..] == [b, c];
  }

  /** After an invalidation the next operation reads the file again, and works on what some other program left there. */
  lemma InvalidateRereads(s: State, external: Option<Blob>)
    requires s.phase == Idle && s.queue != []
    ensures var reread := Step(s.(disk := external), Invalidate);
            && Step(reread, Begin).phase == Reading(s.queue[0])
            && Step(Step(reread, Begin), ReadDone(true)).phase
                 == Have(s.queue[0], if external.Some? then external.value else map[])
  {
  }

  /** A key that a port loaded and then left out of what it saves is not deleted. */
  lemma SaveNeverDeletes(disk: Blob, data: Blob, loaded: Blob, key: Key)
    requires key in disk
    ensures key in Merged(disk, data, loaded)
  {
  }
}
