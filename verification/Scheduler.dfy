/**
 * orchestrator/scheduler.py: one scheduler placing pods while everything else goes on.
 *
 * Resources are exact amounts. Which feasible node scores best does not matter here: any may be taken.
 */
module Scheduler {
  import opened Wrappers

  type Amount = r: real | r >= 0.0 witness 0.0

  datatype Resources = Resources(cpu: Amount, memory: Amount)

  datatype Phase = Pending | Scheduled | Running | Ready | CrashLoop | Succeeded | Failed

  datatype Pod = Pod(key: string, uid: nat, node: Option<string>, phase: Phase, requested: Resources,
                     selector: map<string, string>)

  datatype Node = Node(name: string, capacity: Resources, cordoned: bool, ready: bool, labels: map<string, string>)

  predicate Terminal(phase: Phase) {
    phase == Succeeded || phase == Failed
  }

  predicate Occupies(p: Pod, node: string) {
    p.node == Some(node) && !Terminal(p.phase)
  }

  const NOTHING := Resources(0.0, 0.0)

  function Plus(a: Resources, b: Resources): Resources {
    Resources(a.cpu + b.cpu, a.memory + b.memory)
  }

  predicate Within(a: Resources, b: Resources) {
    a.cpu <= b.cpu && a.memory <= b.memory
  }

  function Share(p: Pod, node: string): Resources {
    if Occupies(p, node) then p.requested else NOTHING
  }

  // What is committed on a node: assigned pods count whether or not they run yet.
  function Allocated(pods: seq<Pod>, node: string): Resources {
    if pods == [] then NOTHING
    else Plus(Allocated(pods[..|pods| - 1], node), Share(pods[|pods| - 1], node))
  }

  lemma AllocatedMore(pods: seq<Pod>, p: Pod, node: string)
    ensures Allocated(pods + [p], node) == Plus(Allocated(pods, node), Share(p, node))
  {
    assert (pods + [p])[..|pods|] == pods;
    hide Share, Plus;
  }

  lemma AllocatedNone(node: string)
    ensures Allocated([], node) == NOTHING
  {
  }

  // Assigned to the node, running or not, and not over.
  ghost predicate LiveOn(p: Pod, node: string) {
    p.node == Some(node) && p.phase != Succeeded && p.phase != Failed
  }

  // One pod more adds exactly its request to its node, whether it runs yet or not, until it is over.
  lemma PodAdds(pods: seq<Pod>, p: Pod, node: string)
    ensures
      var counts := p.node == Some(node) && p.phase in {Pending, Scheduled, Running, Ready, CrashLoop};
      var before, after := Allocated(pods, node), Allocated(pods + [p], node);
      after.cpu == before.cpu + (if counts then p.requested.cpu else 0.0) &&
      after.memory == before.memory + (if counts then p.requested.memory else 0.0)
  {
    AllocatedMore(pods, p, node);
    hide Allocated;
  }

  // What the pods at some positions of the list ask for together.
  ghost function Together(pods: seq<Pod>, picks: set<nat>): (real, real) {
    if pods == [] then (0.0, 0.0)
    else
      var (cpu, memory), last := Together(pods[..|pods| - 1], picks), |pods| - 1;
      if last in picks then (cpu + pods[last].requested.cpu, memory + pods[last].requested.memory) else (cpu, memory)
  }

  // Only live pods of a node.
  ghost predicate Picks(pods: seq<Pod>, node: string, picks: set<nat>) {
    forall k :: k in picks && k < |pods| ==> LiveOn(pods[k], node)
  }

  // All of them.
  ghost predicate PicksAll(pods: seq<Pod>, node: string, picks: set<nat>) {
    forall k: nat :: k < |pods| ==> (k in picks <==> LiveOn(pods[k], node))
  }

  // No live pods of a node ask for more than what is committed there, and all of them ask for just that.
  lemma {:induction false} PicksWithin(pods: seq<Pod>, node: string, picks: set<nat>)
    requires Picks(pods, node, picks)
    ensures Together(pods, picks).0 <= Allocated(pods, node).cpu
    ensures Together(pods, picks).1 <= Allocated(pods, node).memory
    ensures PicksAll(pods, node, picks) ==>
              Together(pods, picks) == (Allocated(pods, node).cpu, Allocated(pods, node).memory)
  {
    hide Allocated, LiveOn, PicksAll, Picks;
    if pods != [] {
      FrontPicks(pods, node, picks);
      PicksWithin(pods[..|pods| - 1], node, picks);
      LastAdds(pods, node);
    } else {
      AllocatedNone(node);
    }
  }

  lemma FrontPicks(pods: seq<Pod>, node: string, picks: set<nat>)
    requires pods != [] && Picks(pods, node, picks)
    ensures
      var front, last := pods[..|pods| - 1], |pods| - 1;
      Picks(front, node, picks) && (last in picks ==> LiveOn(pods[last], node)) &&
      (PicksAll(pods, node, picks) ==> PicksAll(front, node, picks) && (last in picks <==> LiveOn(pods[last], node)))
  {
    hide LiveOn;
  }

  lemma LastAdds(pods: seq<Pod>, node: string)
    requires pods != []
    ensures
      var front, last := pods[..|pods| - 1], pods[|pods| - 1];
      Allocated(pods, node).cpu ==
        Allocated(front, node).cpu + (if LiveOn(last, node) then last.requested.cpu else 0.0) &&
      Allocated(pods, node).memory ==
        Allocated(front, node).memory + (if LiveOn(last, node) then last.requested.memory else 0.0)
  {
  }

  method AllocatedOn(pods: seq<Pod>, node: string) returns (cpu: Amount, memory: Amount)
    ensures Resources(cpu, memory) == Allocated(pods, node)
    ensures forall picks :: PicksAll(pods, node, picks) ==>
              (cpu, memory) == Together(pods, picks)
  {
    hide Allocated;
    AllocatedNone(node);
    cpu, memory := 0.0, 0.0;
    var k := 0;
    assert pods[..k] == [];
    while k < |pods|
      invariant k <= |pods| && Resources(cpu, memory) == Allocated(pods[..k], node)
    {
      AllocatedMore(pods[..k], pods[k], node);
      assert pods[..k + 1] == pods[..k] + [pods[k]];
      if pods[k].node == Some(node) && !Terminal(pods[k].phase) {
        cpu, memory := cpu + pods[k].requested.cpu, memory + pods[k].requested.memory;
      }
      k := k + 1;
    }
    assert pods[..k] == pods;
    forall picks | PicksAll(pods, node, picks)
      ensures (cpu, memory) == Together(pods, picks)
    {
      PicksWithin(pods, node, picks);
    }
  }

  datatype Verdict = Feasible | Cordoned | NotReady | Mismatch | NoCpu | NoMemory

  predicate Selects(selector: map<string, string>, labels: map<string, string>) {
    forall k :: k in selector ==> k in labels && labels[k] == selector[k]
  }

  predicate Fits(pod: Pod, pods: seq<Pod>, n: Node) {
    !n.cordoned && n.ready && Selects(pod.selector, n.labels) &&
    Within(Plus(Allocated(pods, n.name), pod.requested), n.capacity)
  }

  // The first obstacle a node has: cordoned, not ready, a label of the selector missing or different, too
  // little of one resource beside what is committed, too little of the other.
  ghost predicate Judged(pod: Pod, pods: seq<Pod>, n: Node, v: Verdict) {
    var used := Allocated(pods, n.name);
    var matches := forall k :: k in pod.selector ==> k in n.labels && n.labels[k] == pod.selector[k];
    (v == Cordoned <==> n.cordoned) &&
    (v == NotReady <==> !n.cordoned && !n.ready) &&
    (v == Mismatch <==> !n.cordoned && n.ready && !matches) &&
    (v == NoCpu <==> !n.cordoned && n.ready && matches && used.cpu + pod.requested.cpu > n.capacity.cpu) &&
    (v == NoMemory <==> !n.cordoned && n.ready && matches && used.cpu + pod.requested.cpu <= n.capacity.cpu &&
                        used.memory + pod.requested.memory > n.capacity.memory) &&
    (v == Feasible <==> !n.cordoned && n.ready && matches && used.cpu + pod.requested.cpu <= n.capacity.cpu &&
                        used.memory + pod.requested.memory <= n.capacity.memory)
  }

  // One verdict for every node; the feasible ones are those the cluster may choose.
  method Evaluate(pod: Pod, pods: seq<Pod>, nodes: seq<Node>) returns (fits: seq<Verdict>)
    ensures |fits| == |nodes| && forall i :: 0 <= i < |nodes| ==> Judged(pod, pods, nodes[i], fits[i])
    ensures forall i :: 0 <= i < |nodes| ==> (fits[i] == Feasible <==> Fits(pod, pods, nodes[i]))
  {
    fits := [];
    for i := 0 to |nodes|
      invariant |fits| == i
      invariant forall j :: 0 <= j < i ==> Judged(pod, pods, nodes[j], fits[j])
      invariant forall j :: 0 <= j < i ==> (fits[j] == Feasible <==> Fits(pod, pods, nodes[j]))
    {
      var n := nodes[i];
      var cpu, memory := AllocatedOn(pods, n.name);
      var verdict;
      if n.cordoned {
        verdict := Cordoned;
      } else if !n.ready {
        verdict := NotReady;
      } else if exists k :: k in pod.selector && !(k in n.labels && n.labels[k] == pod.selector[k]) {
        verdict := Mismatch;
      } else if cpu + pod.requested.cpu > n.capacity.cpu {
        verdict := NoCpu;
      } else if memory + pod.requested.memory > n.capacity.memory {
        verdict := NoMemory;
      } else {
        verdict := Feasible;
      }
      fits := fits + [verdict];
    }
  }

  // ---- sums -----------------------------------------------------------------------------------------

  function Others(pods: seq<Pod>, i: nat): seq<Pod>
    requires i < |pods|
  {
    pods[..i] + pods[i + 1..]
  }

  lemma {:induction false} AllocatedInTwo(a: seq<Pod>, b: seq<Pod>, node: string)
    ensures Allocated(a + b, node) == Plus(Allocated(a, node), Allocated(b, node))
  {
    hide Allocated, Share;
    if b == [] {
      assert a + b == a;
      AllocatedNone(node);
    } else {
      var front, last := b[..|b| - 1], b[|b| - 1];
      AllocatedInTwo(a, front, node);
      AllocatedMore(front, last, node);
      AllocatedMore(a + front, last, node);
      assert front + [last] == b && (a + front) + [last] == a + b;
    }
  }

  // A pod's share and all the others'.
  lemma OneShare(pods: seq<Pod>, i: nat, node: string)
    requires i < |pods|
    ensures Allocated(pods, node) == Plus(Allocated(Others(pods, i), node), Share(pods[i], node))
  {
    assert pods == pods[..i] + ([pods[i]] + pods[i + 1..]);
    AllocatedInTwo(pods[..i], [pods[i]] + pods[i + 1..], node);
    AllocatedInTwo([pods[i]], pods[i + 1..], node);
    AllocatedInTwo(pods[..i], pods[i + 1..], node);
    assert [pods[i]][..0] == [];
  }

  // ---- the system -------------------------------------------------------------------------------------

  // The scheduler reads a pod, looks for a node, and binds; the world goes on in between.
  datatype Stage = Waiting | Looking(pod: Pod) | Choosing(pod: Pod, node: string)

  datatype System = System(pods: seq<Pod>, used: nat, stage: Stage)

  datatype Action =
    | Create(at: nat, pod: Pod)
    | Delete(at: nat)
    | Proceed(at: nat, phase: Phase)
    | Look(at: nat)
    | Choose(node: Node)
    | GiveUp
    | Bind(at: nat)
    | BindNothing

  // Pods are created unassigned under a new identity and a key that is free; a terminal phase is final.
  ghost predicate Enabled(nodes: set<Node>, s: System, a: Action) {
    match a
    case Create(at, p) =>
      at <= |s.pods| && p.node == None && p.uid == s.used && forall i :: 0 <= i < |s.pods| ==> s.pods[i].key != p.key
    case Delete(at) => at < |s.pods|
    case Proceed(at, phase) => at < |s.pods| && !Terminal(s.pods[at].phase)
    case Look(at) => s.stage.Waiting? && at < |s.pods| && s.pods[at].node == None && !Terminal(s.pods[at].phase)
    case Choose(n) => s.stage.Looking? && n in nodes && Fits(s.stage.pod, s.pods, n)
    case GiveUp => s.stage.Looking?
    case Bind(at) => s.stage.Choosing? && at < |s.pods| && s.pods[at].key == s.stage.pod.key && s.pods[at].node == None
    case BindNothing => s.stage.Choosing?
  }

  function Step(s: System, a: Action): System {
    match a
    case Create(at, p) =>
      if at <= |s.pods| then s.(pods := s.pods[..at] + [p] + s.pods[at..], used := s.used + 1) else s
    case Delete(at) => if at < |s.pods| then s.(pods := Others(s.pods, at)) else s
    case Proceed(at, phase) => if at < |s.pods| then s.(pods := s.pods[at := s.pods[at].(phase := phase)]) else s
    case Look(at) => if at < |s.pods| then s.(stage := Looking(s.pods[at])) else s
    case Choose(n) => if s.stage.Looking? then s.(stage := Choosing(s.stage.pod, n.name)) else s
    case GiveUp => s.(stage := Waiting)
    case Bind(at) =>
      if s.stage.Choosing? && at < |s.pods| then
        System(s.pods[at := s.pods[at].(node := Some(s.stage.node), phase := Scheduled)], s.used, Waiting)
      else s
    case BindNothing => s.(stage := Waiting)
  }

  ghost predicate IsRun(nodes: set<Node>, run: seq<System>, actions: seq<Action>) {
    |run| == |actions| + 1 && run[0] == System([], 0, Waiting) &&
    forall n :: 0 <= n < |actions| ==> Enabled(nodes, run[n], actions[n]) && run[n + 1] == Step(run[n], actions[n])
  }

  ghost predicate OneNodePerName(nodes: set<Node>) {
    forall m, n :: m in nodes && n in nodes && m.name == n.name ==> m == n
  }

  // Whichever pods one picks on a node that are not over, together they ask no more than it has.
  ghost predicate WithinCapacity(nodes: set<Node>, pods: seq<Pod>) {
    forall n, picks :: n in nodes && Picks(pods, n.name, picks) ==>
      Together(pods, picks).0 <= n.capacity.cpu && Together(pods, picks).1 <= n.capacity.memory
  }

  ghost predicate Fitting(nodes: set<Node>, pods: seq<Pod>) {
    forall n :: n in nodes ==> Within(Allocated(pods, n.name), n.capacity)
  }

  lemma FittingIsWithin(nodes: set<Node>, pods: seq<Pod>)
    ensures Fitting(nodes, pods) <==> WithinCapacity(nodes, pods)
  {
    hide Allocated, Together;
    forall n, picks | n in nodes && Picks(pods, n.name, picks) && Fitting(nodes, pods)
      ensures Together(pods, picks).0 <= n.capacity.cpu && Together(pods, picks).1 <= n.capacity.memory
    {
      PicksWithin(pods, n.name, picks);
    }
    forall n | n in nodes && WithinCapacity(nodes, pods) ensures Within(Allocated(pods, n.name), n.capacity) {
      var picks := set k: nat | k < |pods| && LiveOn(pods[k], n.name);
      assert PicksAll(pods, n.name, picks);
      PicksWithin(pods, n.name, picks);
    }
  }

  // The pod that is bound asks no more than the pod that was looked at under the same key.
  ghost predicate AsLookedAt(s: System, a: Action) {
    a.Bind? && s.stage.Choosing? && a.at < |s.pods| ==> Within(s.pods[a.at].requested, s.stage.pod.requested)
  }

  ghost predicate Kept(nodes: set<Node>, s: System) {
    Fitting(nodes, s.pods) &&
    (s.stage.Choosing? ==>
       exists n :: n in nodes && n.name == s.stage.node &&
                   Within(Plus(Allocated(s.pods, n.name), s.stage.pod.requested), n.capacity))
  }

  // What is committed on a node does not grow.
  ghost predicate NoMore(s: System, s': System) {
    forall node :: Within(Allocated(s'.pods, node), Allocated(s.pods, node))
  }

  lemma WorldAddsNothing(nodes: set<Node>, s: System, a: Action)
    requires Enabled(nodes, s, a) && !a.Bind?
    ensures NoMore(s, Step(s, a))
  {
    var s' := Step(s, a);
    forall node ensures Within(Allocated(s'.pods, node), Allocated(s.pods, node)) {
      match a
      case Create(at, p) =>
        OneShare(s'.pods, at, node);
        assert Others(s'.pods, at) == s.pods;
      case Delete(at) => OneShare(s.pods, at, node);
      case Proceed(at, _) =>
        OneShare(s.pods, at, node);
        OneShare(s'.pods, at, node);
        assert Others(s'.pods, at) == Others(s.pods, at);
      case _ =>
    }
  }

  // The binding adds exactly the pod's own request, and only to the chosen node.
  lemma BindAdds(nodes: set<Node>, s: System, a: Action, node: string)
    requires Enabled(nodes, s, a) && a.Bind?
    ensures Allocated(Step(s, a).pods, node) ==
            if node == s.stage.node then Plus(Allocated(s.pods, node), s.pods[a.at].requested)
            else Allocated(s.pods, node)
  {
    OneShare(s.pods, a.at, node);
    OneShare(Step(s, a).pods, a.at, node);
    assert Others(Step(s, a).pods, a.at) == Others(s.pods, a.at);
  }

  lemma StepKept(nodes: set<Node>, s: System, a: Action)
    requires OneNodePerName(nodes) && Kept(nodes, s) && Enabled(nodes, s, a) && AsLookedAt(s, a)
    ensures Kept(nodes, Step(s, a))
  {
    var s' := Step(s, a);
    if a.Bind? {
      forall n | n in nodes ensures Within(Allocated(s'.pods, n.name), n.capacity) {
        BindAdds(nodes, s, a, n.name);
      }
    } else {
      WorldAddsNothing(nodes, s, a);
      hide Allocated;
    }
  }

  ghost predicate Steady(run: seq<System>, actions: seq<Action>) {
    |run| > |actions| && forall n :: 0 <= n < |actions| ==> AsLookedAt(run[n], actions[n])
  }

  lemma {:induction false} NodesNeverOverfull(nodes: set<Node>, run: seq<System>, actions: seq<Action>, n: nat)
    requires OneNodePerName(nodes) && IsRun(nodes, run, actions) && Steady(run, actions) && n <= |actions|
    requires Kept(nodes, run[0])
    ensures Kept(nodes, run[n])
  {
    if n > 0 {
      NodesNeverOverfull(nodes, run, actions, n - 1);
      hide Kept, Step;
      StepKept(nodes, run[n - 1], actions[n - 1]);
    }
  }

  // In every state of every run the pods assigned to a node and not yet over fit its capacity.
  lemma CapacityHolds(nodes: set<Node>, run: seq<System>, actions: seq<Action>, n: nat)
    requires OneNodePerName(nodes) && IsRun(nodes, run, actions) && Steady(run, actions) && n <= |actions|
    ensures WithinCapacity(nodes, run[n].pods)
  {
    assert Kept(nodes, run[0]);
    NodesNeverOverfull(nodes, run, actions, n);
    FittingIsWithin(nodes, run[n].pods);
  }

  // ---- one node for life ------------------------------------------------------------------------------

  ghost predicate Identities(s: System) {
    (forall i :: 0 <= i < |s.pods| ==> s.pods[i].uid < s.used) &&
    forall i, j :: 0 <= i < j < |s.pods| ==> s.pods[i].uid != s.pods[j].uid
  }

  // Whatever is assigned stays assigned to the same node as long as it exists.
  ghost predicate Settled(s: System, s': System) {
    s.used <= s'.used &&
    forall i, j :: 0 <= i < |s.pods| && 0 <= j < |s'.pods| && s.pods[i].uid == s'.pods[j].uid ==>
      s.pods[i].node.Some? ==>
      s'.pods[j].node == s.pods[i].node
  }

  // Nothing but a creation brings a pod that was not there.
  ghost predicate FromBefore(s: System, s': System) {
    forall j :: 0 <= j < |s'.pods| ==>
      s'.pods[j].uid >= s.used || exists i :: 0 <= i < |s.pods| && s.pods[i].uid == s'.pods[j].uid
  }

  lemma StepSettles(nodes: set<Node>, s: System, a: Action)
    requires Identities(s) && Enabled(nodes, s, a)
    ensures Identities(Step(s, a)) && Settled(s, Step(s, a)) && FromBefore(s, Step(s, a))
  {
    var s' := Step(s, a);
    if a.Delete? {
      DeletedFrom(s, s', a.at);
    } else if a.Create? {
      CreatedIn(s, s', a.at, a.pod);
    } else {
      hide Fits, Others;
      assert |s'.pods| == |s.pods| && forall j :: 0 <= j < |s.pods| ==> s'.pods[j].uid == s.pods[j].uid;
    }
  }

  lemma DeletedFrom(s: System, s': System, at: nat)
    requires Identities(s) && at < |s.pods| && s' == s.(pods := Others(s.pods, at))
    ensures Identities(s') && Settled(s, s') && FromBefore(s, s')
  {
    forall j | 0 <= j < |s'.pods| ensures s'.pods[j] == s.pods[if j < at then j else j + 1] {
    }
  }

  lemma CreatedIn(s: System, s': System, at: nat, p: Pod)
    requires Identities(s) && at <= |s.pods| && p.uid == s.used
    requires s' == s.(pods := s.pods[..at] + [p] + s.pods[at..], used := s.used + 1)
    ensures Identities(s') && Settled(s, s') && FromBefore(s, s')
  {
    hide Identities, Settled, FromBefore;
    forall j | 0 <= j < |s'.pods| ensures s'.pods[j] == if j == at then p else s.pods[if j < at then j else j - 1] { }
    CreatedApart(s, s', at, p);
    CreatedSettles(s, s', at, p);
  }

  lemma CreatedApart(s: System, s': System, at: nat, p: Pod)
    requires Identities(s) && at <= |s.pods| && p.uid == s.used && s'.used == s.used + 1
    requires |s'.pods| == |s.pods| + 1
    requires forall j :: 0 <= j < |s'.pods| ==>
               s'.pods[j] == if j == at then p else s.pods[if j < at then j else j - 1]
    ensures Identities(s')
  {
  }

  lemma CreatedSettles(s: System, s': System, at: nat, p: Pod)
    requires Identities(s) && at <= |s.pods| && p.uid == s.used && s'.used == s.used + 1
    requires |s'.pods| == |s.pods| + 1
    requires forall j :: 0 <= j < |s'.pods| ==>
               s'.pods[j] == if j == at then p else s.pods[if j < at then j else j - 1]
    ensures Settled(s, s') && FromBefore(s, s')
  {
  }

  lemma {:induction false} AlwaysIdentified(nodes: set<Node>, run: seq<System>, actions: seq<Action>, n: nat)
    requires IsRun(nodes, run, actions) && n <= |actions|
    ensures Identities(run[n])
  {
    if n > 0 {
      AlwaysIdentified(nodes, run, actions, n - 1);
      StepSettles(nodes, run[n - 1], actions[n - 1]);
    }
  }

  // A pod's node is written at most once.
  lemma {:induction false} NodeIsForLife(nodes: set<Node>, run: seq<System>, actions: seq<Action>, n: nat, m: nat)
    requires IsRun(nodes, run, actions) && n <= m <= |actions|
    ensures Settled(run[n], run[m]) && FromBefore(run[n], run[m])
    decreases m
  {
    if n == m {
      AlwaysIdentified(nodes, run, actions, n);
    } else {
      NodeIsForLife(nodes, run, actions, n, m - 1);
      AlwaysIdentified(nodes, run, actions, n);
      AlwaysIdentified(nodes, run, actions, m - 1);
      StepSettles(nodes, run[m - 1], actions[m - 1]);
      hide IsRun, Step, Enabled;
      SettledTwice(run[n], run[m - 1], run[m]);
    }
  }

  lemma SettledTwice(a: System, b: System, c: System)
    requires Identities(a) && Settled(a, b) && FromBefore(a, b) && Settled(b, c) && FromBefore(b, c)
    ensures Settled(a, c) && FromBefore(a, c)
  {
    forall i, k | 0 <= i < |a.pods| && 0 <= k < |c.pods| && a.pods[i].uid == c.pods[k].uid && a.pods[i].node.Some?
      ensures c.pods[k].node == a.pods[i].node
    {
      var j: nat :| j < |b.pods| && b.pods[j].uid == c.pods[k].uid;
      assert b.pods[j].node == a.pods[i].node;
    }
    forall k | 0 <= k < |c.pods|
      ensures c.pods[k].uid >= a.used || exists i :: 0 <= i < |a.pods| && a.pods[i].uid == c.pods[k].uid
    {
      if c.pods[k].uid < a.used {
        var j: nat :| j < |b.pods| && b.pods[j].uid == c.pods[k].uid;
        var i: nat :| i < |a.pods| && a.pods[i].uid == b.pods[j].uid;
      }
    }
  }

  // ---- a key that is used again -----------------------------------------------------------------------

  // In this run every binding takes a pod that asks no more than the one evaluated, or asks q where the
  // one evaluated asked p.
  ghost predicate Rebinds(run: seq<System>, actions: seq<Action>, p: Resources, q: Resources) {
    |run| > |actions| && forall n :: 0 <= n < |actions| ==> RebindsAt(run[n], actions[n], p, q)
  }

  ghost predicate RebindsAt(s: System, a: Action, p: Resources, q: Resources) {
    AsLookedAt(s, a) ||
    (a.Bind? && s.stage.Choosing? && a.at < |s.pods| && s.stage.pod.requested == p && s.pods[a.at].requested == q)
  }

  // All clusters stay within capacity in all such runs.
  ghost predicate SafeToRebind(p: Resources, q: Resources) {
    forall nodes: set<Node>, run: seq<System>, actions: seq<Action>, n: nat ::
      OneNodePerName(nodes) && IsRun(nodes, run, actions) && Rebinds(run, actions, p, q) && n < |run| ==>
        WithinCapacity(nodes, run[n].pods)
  }

  function Tight(p: Resources): Node {
    Node("n1", p, false, true, map[])
  }

  function Asking(uid: nat, r: Resources): Pod {
    Pod("web", uid, None, Pending, r, map[])
  }

  function BoundTo(p: Pod): Pod {
    p.(node := Some("n1"), phase := Scheduled)
  }

  lemma Alone(p: Pod, node: string)
    ensures Allocated([p], node) == Share(p, node)
  {
    hide Share;
    AllocatedNone(node);
    AllocatedMore([], p, node);
    assert [] + [p] == [p];
  }

  lemma AskingFits(p: Resources)
    ensures Fits(Asking(0, p), [Asking(0, p)], Tight(p))
  {
    hide Allocated;
    Alone(Asking(0, p), Tight(p).name);
  }

  // The steps over a cluster of one pod at most.
  lemma OnePodSteps(p: Pod, q: Pod, used: nat, stage: Stage, node: string)
    ensures Step(System([], used, stage), Create(0, p)) == System([p], used + 1, stage)
    ensures Step(System([p], used, stage), Delete(0)) == System([], used, stage)
    ensures Step(System([p], used, Choosing(q, node)), Bind(0)) ==
            System([p.(node := Some(node), phase := Scheduled)], used, Waiting)
  {
    assert [][..0] + [p] + [][0..] == [p];
    assert Others([p], 0) == [];
    assert [p][0 := p.(node := Some(node), phase := Scheduled)] == [p.(node := Some(node), phase := Scheduled)];
  }

  lemma FirstIsChosen(p: Resources)
    ensures
      var pod, nodes := Asking(0, p), {Tight(p)};
      var empty, there := System([], 0, Waiting), System([pod], 1, Waiting);
      Enabled(nodes, empty, Create(0, pod)) && Step(empty, Create(0, pod)) == there &&
      Enabled(nodes, there, Look(0)) && Step(there, Look(0)) == there.(stage := Looking(pod)) &&
      Enabled(nodes, there.(stage := Looking(pod)), Choose(Tight(p))) &&
      Step(there.(stage := Looking(pod)), Choose(Tight(p))) == there.(stage := Choosing(pod, "n1"))
  {
    AskingFits(p);
    OnePodSteps(Asking(0, p), Asking(0, p), 0, Waiting, "n1");
    hide Allocated, Fits, Others;
  }

  lemma SecondIsBound(p: Resources, q: Resources)
    ensures
      var first, second, nodes := Asking(0, p), Asking(1, q), {Tight(p)};
      var chosen := System([first], 1, Choosing(first, "n1"));
      var empty, again := System([], 1, chosen.stage), System([second], 2, chosen.stage);
      Enabled(nodes, chosen, Delete(0)) && Step(chosen, Delete(0)) == empty &&
      Enabled(nodes, empty, Create(0, second)) && Step(empty, Create(0, second)) == again &&
      Enabled(nodes, again, Bind(0)) && Step(again, Bind(0)) == System([BoundTo(second)], 2, Waiting) &&
      RebindsAt(again, Bind(0), p, q) && Allocated([BoundTo(second)], "n1") == q
  {
    hide Allocated, Step, Others;
    Alone(BoundTo(Asking(1, q)), "n1");
    OnePodSteps(Asking(0, p), Asking(0, p), 1, Choosing(Asking(0, p), "n1"), "n1");
    OnePodSteps(Asking(1, q), Asking(0, p), 1, Choosing(Asking(0, p), "n1"), "n1");
    OnePodSteps(Asking(1, q), Asking(0, p), 2, Choosing(Asking(0, p), "n1"), "n1");
  }

  // Between the evaluation and the binding the pod is deleted and another is created under its key: the
  // binding takes the new pod. The node has room for exactly what was evaluated.
  lemma RecreatedPodIsBound(p: Resources, q: Resources)
    returns (nodes: set<Node>, run: seq<System>, actions: seq<Action>)
    ensures OneNodePerName(nodes) && IsRun(nodes, run, actions) && |actions| == 6 && Rebinds(run, actions, p, q)
    ensures WithinCapacity(nodes, run[6].pods) <==> q.cpu <= p.cpu && q.memory <= p.memory
  {
    hide Enabled, Step, Allocated, AsLookedAt, Picks;
    var first, second := Asking(0, p), Asking(1, q);
    nodes := {Tight(p)};
    var there, chosen := System([first], 1, Waiting), System([first], 1, Choosing(first, "n1"));
    actions := [Create(0, first), Look(0), Choose(Tight(p)), Delete(0), Create(0, second), Bind(0)];
    run := [System([], 0, Waiting), there, there.(stage := Looking(first)), chosen, System([], 1, chosen.stage),
            System([second], 2, chosen.stage), System([BoundTo(second)], 2, Waiting)];
    FirstIsChosen(p);
    SecondIsBound(p, q);
    forall n | 0 <= n < 6 ensures Enabled(nodes, run[n], actions[n]) && run[n + 1] == Step(run[n], actions[n]) {
      if n < 3 {
        assert n == 0 || n == 1 || n == 2;
      } else {
        assert n == 3 || n == 4 || n == 5;
      }
    }
    forall n | 0 <= n < 6 ensures RebindsAt(run[n], actions[n], p, q) {
      assert !actions[n].Bind? ==> AsLookedAt(run[n], actions[n]) by { OnlyBindingsMatter(run[n], actions[n]); }
    }
    assert Tight(p) in nodes && Tight(p).name == "n1";
    FittingIsWithin(nodes, run[6].pods);
    hide WithinCapacity;
  }

  lemma OnlyBindingsMatter(s: System, a: Action)
    ensures !a.Bind? ==> AsLookedAt(s, a)
  {
  }

  // Binding a pod that asks q under the key of one that was evaluated asking p keeps every node within
  // its capacity, in all clusters and all runs, if and only if q is within p.
  lemma RebindIsSafeIff(p: Resources, q: Resources)
    ensures SafeToRebind(p, q) <==> q.cpu <= p.cpu && q.memory <= p.memory
  {
    if Within(q, p) {
      forall nodes: set<Node>, run: seq<System>, actions: seq<Action>, n: nat |
        OneNodePerName(nodes) && IsRun(nodes, run, actions) && Rebinds(run, actions, p, q) && n < |run|
        ensures WithinCapacity(nodes, run[n].pods)
      {
        forall k | 0 <= k < |actions| ensures AsLookedAt(run[k], actions[k]) {
          assert RebindsAt(run[k], actions[k], p, q);
        }
        hide WithinCapacity, Enabled, Step;
        CapacityHolds(nodes, run, actions, n);
      }
    } else {
      hide IsRun, Rebinds, WithinCapacity;
      var nodes, run, actions := RecreatedPodIsBound(p, q);
      assert |run| > 6 by { RunIsLonger(nodes, run, actions); }
    }
  }

  lemma RunIsLonger(nodes: set<Node>, run: seq<System>, actions: seq<Action>)
    requires IsRun(nodes, run, actions)
    ensures |run| == |actions| + 1
  {
  }
}
