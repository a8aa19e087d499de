/**
 * The object store on top of Raft: each node feeds the commands it applies to its own
 * ObjectStateMachine. What the protocol guarantees about logs becomes what clients see of objects.
 */
module ReplicatedStore {
  import opened Wrappers
  import opened RaftProtocol
  import opened RaftCluster
  import opened RaftTheorems
  import opened RaftReplies
  import S = ObjectStore
  import C = StoreConcurrency
  import R = StoreReplicas

  // The commands that parse, in order; the others leave the machine alone.
  function Commands(decode: string -> Option<S.Op>, applied: seq<Applied>): seq<S.Op> {
    if applied == [] then []
    else
      var last := decode(applied[|applied| - 1].entry.command);
      Commands(decode, applied[..|applied| - 1]) + if last.Some? then [last.value] else []
  }

  // A node's copy of the objects after what it has applied.
  function Replica(decode: string -> Option<S.Op>, s: NodeState): S.Store {
    R.Machine(Commands(decode, s.applied))
  }

  // Each entry a node applies goes to its machine, once and in order, unless it does not parse.
  lemma ReplicaNext(decode: string -> Option<S.Op>, s: NodeState, s': NodeState, a: Applied)
    requires s'.applied == s.applied + [a]
    ensures
      Replica(decode, s') ==
      match decode(a.entry.command)
      case None => Replica(decode, s)
      case Some(op) => S.Apply(Replica(decode, s), op).0
  {
    hide S.Apply;
    assert s'.applied[..|s.applied|] == s.applied;
    var ops := Commands(decode, s.applied);
    match decode(a.entry.command)
    case None => assert Commands(decode, s'.applied) == ops;
    case Some(op) =>
      assert Commands(decode, s'.applied) == ops + [op];
      assert (ops + [op])[..|ops|] == ops;
  }

  lemma ReplicaBegins(decode: string -> Option<S.Op>, s: NodeState)
    requires s.applied == []
    ensures Replica(decode, s) == S.Store(map[], 0, [])
  {
  }

  lemma {:induction false} CommandsOfPrefix(decode: string -> Option<S.Op>, applied: seq<Applied>, n: nat)
    requires n <= |applied|
    ensures Commands(decode, applied[..n]) <= Commands(decode, applied)
    decreases |applied|
  {
    if n < |applied| {
      assert applied[..|applied| - 1][..n] == applied[..n];
      CommandsOfPrefix(decode, applied[..|applied| - 1], n);
    } else {
      assert applied[..n] == applied;
    }
  }

  // Two nodes, each at any time of the run: the one that has applied less has applied a prefix.
  lemma OneOrder(members: set<NodeId>, run: seq<Cluster>, actions: seq<Action>, n: nat, n': nat, i: NodeId, j: NodeId)
    requires SoundRun(members, run, actions) && SteadyApply(run, actions)
    requires n <= |actions| && n' <= |actions| && i in members && j in members
    requires i in run[n].nodes && j in run[n'].nodes
    requires |run[n].nodes[i].applied| <= |run[n'].nodes[j].applied|
    ensures run[n].nodes[i].applied <= run[n'].nodes[j].applied
  {
    AppliedInOrder(members, run, actions, n, i);
    AppliedInOrder(members, run, actions, n', j);
    var a, b := run[n].nodes[i].applied, run[n'].nodes[j].applied;
    forall k | 0 <= k < |a| ensures a[k] == b[k] {
      hide SoundRun, SteadyApply;
      assert a[k].index == k + 1 == b[k].index;
      if n <= n' {
        StateMachineSafety(members, run, actions, n, n', i, j, a[k], b[k]);
      } else {
        StateMachineSafety(members, run, actions, n', n, j, i, b[k], a[k]);
      }
    }
  }

  // A history of requests that a single store could have served: these commands, at any times.
  function Served(ops: seq<S.Op>): seq<S.Request> {
    seq(|ops|, k requires 0 <= k < |ops| => S.Request(ops[k], 0))
  }

  // Every replica, at every time, is in a state of the run of one store in memory.
  lemma ReplicasShareOneHistory(
    decode: string -> Option<S.Op>, members: set<NodeId>, run: seq<Cluster>, actions: seq<Action>,
    n: nat, n': nat, i: NodeId, j: NodeId)
    returns (log: seq<S.Request>, p: nat, q: nat)
    requires SoundRun(members, run, actions) && SteadyApply(run, actions)
    requires n <= |actions| && n' <= |actions| && i in members && j in members
    requires i in run[n].nodes && j in run[n'].nodes
    requires |run[n].nodes[i].applied| <= |run[n'].nodes[j].applied|
    ensures p <= q <= |log|
    ensures R.SameButTimes(S.At(S.MACHINE_HISTORY, log, p), Replica(decode, run[n].nodes[i]))
    ensures R.SameButTimes(S.At(S.MACHINE_HISTORY, log, q), Replica(decode, run[n'].nodes[j]))
  {
    OneOrder(members, run, actions, n, n', i, j);
    hide SoundRun, SteadyApply;
    var few, many := Commands(decode, run[n].nodes[i].applied), Commands(decode, run[n'].nodes[j].applied);
    CommandsOfPrefix(decode, run[n'].nodes[j].applied, |run[n].nodes[i].applied|);
    assert run[n'].nodes[j].applied[..|run[n].nodes[i].applied|] == run[n].nodes[i].applied;
    assert few <= many;
    log, p, q := Served(many), |few|, |many|;
    R.MachineRefinesStore(log, many, p);
    R.MachineRefinesStore(log, many, q);
    assert many[..p] == few && many[..q] == many;
  }

  // A key and a resource version name one object across the whole cluster and the whole run: what a
  // client reads on one replica and writes through another replaces exactly what it read.
  lemma VersionNamesObjectEverywhere(
    decode: string -> Option<S.Op>, members: set<NodeId>, run: seq<Cluster>, actions: seq<Action>,
    n: nat, n': nat, i: NodeId, j: NodeId, key: string)
    requires SoundRun(members, run, actions) && SteadyApply(run, actions)
    requires n <= |actions| && n' <= |actions| && i in members && j in members
    requires i in run[n].nodes && j in run[n'].nodes
    requires key in Replica(decode, run[n].nodes[i]).objects && key in Replica(decode, run[n'].nodes[j]).objects
    requires Replica(decode, run[n].nodes[i]).objects[key].meta.version ==
             Replica(decode, run[n'].nodes[j]).objects[key].meta.version
    ensures R.Alike(Replica(decode, run[n].nodes[i]).objects[key], Replica(decode, run[n'].nodes[j]).objects[key])
  {
    var a, b := Replica(decode, run[n].nodes[i]), Replica(decode, run[n'].nodes[j]);
    if |run[n].nodes[i].applied| <= |run[n'].nodes[j].applied| {
      var log, p, q := ReplicasShareOneHistory(decode, members, run, actions, n, n', i, j);
      SharedVersion(log, p, q, a, b, key);
    } else {
      var log, p, q := ReplicasShareOneHistory(decode, members, run, actions, n', n, j, i);
      SharedVersion(log, p, q, b, a, key);
    }
  }

  lemma SharedVersion(log: seq<S.Request>, p: nat, q: nat, a: S.Store, b: S.Store, key: string)
    requires p <= |log| && q <= |log| && key in a.objects && key in b.objects
    requires R.SameButTimes(S.At(S.MACHINE_HISTORY, log, p), a) && R.SameButTimes(S.At(S.MACHINE_HISTORY, log, q), b)
    requires a.objects[key].meta.version == b.objects[key].meta.version
    ensures R.Alike(a.objects[key], b.objects[key])
  {
    hide S.At;
    var x, y := S.At(S.MACHINE_HISTORY, log, p), S.At(S.MACHINE_HISTORY, log, q);
    assert R.Alike(x.objects[key], a.objects[key]);
    assert R.Alike(y.objects[key], b.objects[key]);
    C.VersionNamesObject(S.MACHINE_HISTORY, log, p, q, key);
  }

  // As the protocol is meant, in every run of a cluster of odd size or of two nodes at most.
  lemma RepairedVersionNamesObject(
    decode: string -> Option<S.Op>, members: set<NodeId>, run: seq<Cluster>, actions: seq<Action>,
    n: nat, n': nat, i: NodeId, j: NodeId, key: string)
    requires RepairedRun(members, run, actions)
    requires n <= |actions| && n' <= |actions| && i in members && j in members
    requires i in run[n].nodes && j in run[n'].nodes
    requires key in Replica(decode, run[n].nodes[i]).objects && key in Replica(decode, run[n'].nodes[j]).objects
    requires Replica(decode, run[n].nodes[i]).objects[key].meta.version ==
             Replica(decode, run[n'].nodes[j]).objects[key].meta.version
    ensures R.Alike(Replica(decode, run[n].nodes[i]).objects[key], Replica(decode, run[n'].nodes[j]).objects[key])
  {
    RepairedIsSound(members, run, actions);
    RepairedIsSteady(members, run, actions);
    hide RepairedRun, SoundRun, SteadyApply, Replica;
    VersionNamesObjectEverywhere(decode, members, run, actions, n, n', i, j, key);
  }
}
