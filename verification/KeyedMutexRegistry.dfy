/** The mutex object itself: the links it has made and its registry of chain tails. */
module KeyedMutexRegistry {

  import opened Options
  import opened KeyedMutex

  class Mutex {
    var links: seq<Link>
    var chains: map<string, nat>

    constructor ()
      ensures State(links, chains, []) == Empty()
    {
      links, chains := [], map[];
    }

    /** Chains a new link of task `t` after the key's tail and registers it as the tail: the machine's enqueuing. */
    method RunExclusive(key: string, t: nat, index: nat, ghost tasks: seq<Task>) returns (link: nat)
      requires t < |tasks| && index == |tasks[t].links| < |tasks[t].keys| && tasks[t].keys[index] == key
      modifies this
      ensures link == |old(links)|
      ensures var next := Enqueue(State(old(links), old(chains), tasks), t);
              links == next.links && chains == next.chains && next.tasks[t].links == tasks[t].links + [link]
    {
      var previous := if key in chains then Some(chains[key]) else None;
      link := |links|;
      links := links + [Link(key, t, index, previous, Waiting)];
      chains := chains[key := link];
    }

    /** After a link settled: drops the key if this link is still its tail, as the machine's draining does. */
    method OnSettled(link: nat, ghost tasks: seq<Task>)
      requires link < |links| && links[link].stage.Settled?
      modifies this
      ensures State(links, chains, tasks) == Step(State(old(links), old(chains), tasks), Drain(link))
    {
      var key := links[link].key;
      links := links[link := links[link].(stage := Drained)];
      if key in chains && chains[key] == link {
        chains := chains - {key};
      }
    }
  }
}
