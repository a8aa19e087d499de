/**
 * What a ReplicaSet pass does to availability when a pod turns Ready between its listing and its
 * deletes: a Deployment pass in between drains another ReplicaSet on the strength of that pod.
 */
module RolloutRace {
  import opened Wrappers
  import opened Rollout
  import opened RolloutSafety
  import opened RolloutPasses

  // The floor holds at every point of every run of this Deployment, calm or not.
  ghost predicate FloorHolds(spec: Spec) {
    forall run: seq<System>, actions: seq<Action>, n: nat ::
      IsRun(spec, run, actions) && TargetDrained(spec, run[0]) && n < |run| ==>
        Available(run[n].sets) >= Min(Available(run[0].sets), Floor(spec))
  }

  // n Pending pods, all created at once.
  function Starting(n: nat): (pods: map<string, Pod>)
    ensures forall name :: name in pods ==> |name| < n && pods[name] == Pod(Pending, 0)
    ensures |pods.Keys| == n && (n > 0 ==> Named(n - 1) in pods)
  {
    if n == 0 then map[]
    else Starting(n - 1)[Named(n - 1) := Pod(Pending, 0)]
  }

  // The old ReplicaSet carries the floor; the new one asks for everything and has a pod too many.
  ghost function Old(spec: Spec): ReplicaSet {
    ReplicaSet(spec.hash + "-", 1, Floor(spec), Serving(Floor(spec)))
  }

  ghost function New(spec: Spec): ReplicaSet {
    ReplicaSet(spec.hash, 2, spec.desired, Starting(spec.desired + 1))
  }

  lemma OldFacts(spec: Spec, replicas: nat)
    requires replicas <= Floor(spec)
    ensures Clamped(Old(spec).(replicas := replicas)) == replicas
  {
    ServingCounts(Old(spec).(replicas := replicas), Floor(spec));
  }

  lemma NewFacts(spec: Spec, p: string)
    requires p in New(spec).pods
    ensures |Alive(New(spec))| == spec.desired + 1 && ReadyPods(New(spec)) == {} && p in Alive(New(spec))
    ensures LeastUseful(New(spec), spec.desired, {p})
    ensures ReadyPods(Moved(New(spec), p, Ready)) == {p}
    ensures ReadyPods(Without(Moved(New(spec), p, Ready), {p})) == {}
  {
    assert Alive(New(spec)) == New(spec).pods.Keys;
  }

  lemma FoundSecond(a: ReplicaSet, b: ReplicaSet)
    requires a.hash != b.hash
    ensures Find([a, b], b.hash) == 1
  {
    assert [a, b][1..] == [b];
  }

  ghost predicate Takes(spec: Spec, s: System, a: Action, s': System) {
    Enabled(s, a) && Step(spec, s, a) == s'
  }

  // The Deployment pass takes one replica from the old ReplicaSet because one pod more is Ready.
  lemma PassDrainsOne(spec: Spec, first: ReplicaSet, second: ReplicaSet, tasks: map<nat, Task>)
    requires first.hash != spec.hash == second.hash && second.replicas == spec.desired
    requires first.replicas > 0 && |ReadyPods(second)| == 1
    requires Available([first, second]) == Floor(spec) + 1
    ensures
      var sets, d, total := [first, second], spec.desired, TotalRequested([first, second]);
      var s := stage => System(sets, stage, tasks);
      Takes(spec, s(Idle), DeploymentMoves, s(Snapped(1, 1, d, total))) &&
      Takes(spec, s(Snapped(1, 1, d, total)), DeploymentMoves, s(Raised(1, 1, d))) &&
      Takes(spec, s(Raised(1, 1, d)), DeploymentMoves, s(Draining(1, 1, d, 2, 1))) &&
      Takes(spec, s(Draining(1, 1, d, 2, 1)), DeploymentMoves, s(Draining(1, 1, d, 1, 1))) &&
      Takes(spec, s(Draining(1, 1, d, 1, 1)), DeploymentMoves,
            System([first.(replicas := first.replicas - 1), second], Draining(1, 1, d, 0, 0), tasks))
  {
    hide Available, TotalRequested, ReadyPods, Floor;
    FoundSecond(first, second);
    hide Find;
    TargetThere([first, second], spec.hash);
  }

  lemma RaceSums(spec: Spec)
    requires Floor(spec) > 0
    ensures
      var f, p := Floor(spec), Named(spec.desired);
      var risen, lower := Moved(New(spec), p, Ready), Old(spec).(replicas := f - 1);
      Available([Old(spec), New(spec)]) == f && Available([Old(spec), risen]) == f + 1 &&
      Available([lower, Without(risen, {p})]) == f - 1
  {
    var f, p := Floor(spec), Named(spec.desired);
    var risen, lower := Moved(New(spec), p, Ready), Old(spec).(replicas := f - 1);
    OldFacts(spec, f);
    OldFacts(spec, f - 1);
    NewFacts(spec, p);
    assert Old(spec).(replicas := f) == Old(spec);
    hide ReadyPods, Alive, Serving, Starting, LeastUseful;
    SumOfTwo([Old(spec), New(spec)]);
    SumOfTwo([Old(spec), risen]);
    SumOfTwo([lower, Without(risen, {p})]);
  }

  // The ReplicaSet pass lists a pod, and the pod turns Ready.
  lemma Lists(spec: Spec, sets: seq<ReplicaSet>, p: string)
    requires |sets| == 2 && sets[1] == New(spec) && p in New(spec).pods
    ensures
      var s := System(sets, Idle, map[]);
      var s1, s2 := s.(tasks := map[1 := Counting(spec.desired)]), s.(tasks := map[1 := Deleting({p})]);
      Takes(spec, s, Read(1), s1) && Takes(spec, s1, List(1, {p}), s2)
  {
    NewFacts(spec, p);
    hide Alive, ReadyPods, LeastUseful, Starting, Moved, Without;
    assert map[1 := Counting(spec.desired)][1 := Deleting({p})] == map[1 := Deleting({p})];
  }

  lemma Turns(spec: Spec, first: ReplicaSet, p: string, tasks: map<nat, Task>)
    requires p in New(spec).pods
    ensures
      var s, s' := System([first, New(spec)], Idle, tasks), System([first, Moved(New(spec), p, Ready)], Idle, tasks);
      Takes(spec, s, PodMoves(1, p, Ready), s')
  {
    NewFacts(spec, p);
    hide Alive, ReadyPods, New, Moved;
  }

  lemma DeletesListed(spec: Spec, a: ReplicaSet, b: ReplicaSet, stage: Stage, p: string)
    ensures
      var s := System([a, b], stage, map[1 := Deleting({p})]);
      Takes(spec, s, Delete(1, p), System([a, Without(b, {p})], stage, map[1 := Deleting({})]))
  {
    assert {p} - {p} == {};
    assert map[1 := Deleting({p})][1 := Deleting({})] == map[1 := Deleting({})];
  }

  lemma TakesMakeRun(spec: Spec, run: seq<System>, actions: seq<Action>)
    requires |run| == |actions| + 1 && run[0].stage == Idle && run[0].tasks == map[]
    requires forall k :: 0 <= k < |actions| ==> Takes(spec, run[k], actions[k], run[k + 1])
    ensures IsRun(spec, run, actions)
  {
    hide Enabled, Step;
    forall k | 0 <= k < |actions| ensures Enabled(run[k], actions[k]) && run[k + 1] == Step(spec, run[k], actions[k]) {
      assert Takes(spec, run[k], actions[k], run[k + 1]);
    }
  }

  // A listed pod turns Ready, the Deployment goes by it, and then it is deleted: one pod below the floor.
  lemma ListedPodBreaksFloor(spec: Spec) returns (run: seq<System>, actions: seq<Action>)
    requires Floor(spec) > 0
    ensures IsRun(spec, run, actions) && TargetDrained(spec, run[0]) && |run| == 10
    ensures Available(run[0].sets) == Floor(spec) && Available(run[9].sets) == Floor(spec) - 1
  {
    hide Available, TotalRequested, Find, Alive, ReadyPods, LeastUseful, Floor, Serving, Starting, Covered, Takes;
    var d, p := spec.desired, Named(spec.desired);
    var first, second, lower := Old(spec), New(spec), Old(spec).(replicas := Floor(spec) - 1);
    var risen, deleting := Moved(second, p, Ready), map[1 := Deleting({p})];
    var sets := [first, risen];
    var total := TotalRequested(sets);
    RaceSums(spec);
    NewFacts(spec, p);
    FoundSecond(first, second);
    Lists(spec, [first, second], p);
    Turns(spec, first, p, deleting);
    PassDrainsOne(spec, first, risen, deleting);
    DeletesListed(spec, lower, risen, Draining(1, 1, d, 0, 0), p);
    hide Old, New, Moved, Named;
    run := [
      System([first, second], Idle, map[]), System([first, second], Idle, map[1 := Counting(d)]),
      System([first, second], Idle, deleting), System(sets, Idle, deleting),
      System(sets, Snapped(1, 1, d, total), deleting), System(sets, Raised(1, 1, d), deleting),
      System(sets, Draining(1, 1, d, 2, 1), deleting), System(sets, Draining(1, 1, d, 1, 1), deleting),
      System([lower, risen], Draining(1, 1, d, 0, 0), deleting),
      System([lower, Without(risen, {p})], Draining(1, 1, d, 0, 0), map[1 := Deleting({})])];
    actions := [Read(1), List(1, {p}), PodMoves(1, p, Ready), DeploymentMoves, DeploymentMoves, DeploymentMoves,
                DeploymentMoves, DeploymentMoves, Delete(1, p)];
    TakesMakeRun(spec, run, actions);
  }

  // Without the guard of a calm run the floor holds in every run if and only if there is none to hold.
  lemma FloorHoldsIff(spec: Spec)
    ensures FloorHolds(spec) <==> Floor(spec) == 0
  {
    hide IsRun, TargetDrained, Available, Floor;
    if Floor(spec) > 0 {
      var run, actions := ListedPodBreaksFloor(spec);
      assert Available(run[9].sets) < Min(Available(run[0].sets), Floor(spec));
    }
  }

  // ---- a ReplicaSet pass by its steps ---------------------------------------------------------------

  // A pass that read this count and is left alone: what it still has to do makes up the difference.
  ghost predicate Reaches(s: System, i: nat, count: nat) {
    i < |s.sets| &&
    match TaskOf(s, i)
    case None => |Alive(s.sets[i])| == count
    case Some(Counting(read)) => read == count
    case Some(Creating(missing)) => |Alive(s.sets[i])| + missing == count
    case Some(Deleting(doomed)) => doomed <= Alive(s.sets[i]) && |Alive(s.sets[i]) - doomed| == count
  }

  // A step of the pass on this ReplicaSet, new pods under names that are free.
  ghost predicate OwnStep(s: System, a: Action, i: nat) {
    Enabled(s, a) &&
    match a
    case List(j, _) => i == j
    case Create(j, name, _) => i == j && name !in s.sets[i].pods
    case Delete(j, _) => i == j
    case _ => false
  }

  lemma ListReaches(rs: ReplicaSet, count: nat, surplus: set<string>)
    requires |Alive(rs)| > count && LeastUseful(rs, count, surplus)
    ensures surplus <= Alive(rs) && |Alive(rs) - surplus| == count
  {
    hide Alive, GoesFirst;
    SetSizes(surplus, Alive(rs));
  }

  lemma CreateReaches(rs: ReplicaSet, name: string, now: int)
    requires name !in rs.pods
    ensures |Alive(Created(rs, name, now))| == |Alive(rs)| + 1
  {
    assert Alive(Created(rs, name, now)) == Alive(rs) + {name};
  }

  lemma DeleteReaches(rs: ReplicaSet, doomed: set<string>, name: string)
    requires doomed <= Alive(rs) && name in doomed
    ensures
      var after := Without(rs, {name});
      doomed - {name} <= Alive(after) && Alive(after) - (doomed - {name}) == Alive(rs) - doomed
  {
    WithoutPods(rs, {name});
  }

  lemma OwnStepReaches(spec: Spec, s: System, a: Action, i: nat, count: nat)
    requires Reaches(s, i, count) && OwnStep(s, a, i)
    ensures Reaches(Step(spec, s, a), i, count)
  {
    hide Alive, LeastUseful;
    match a
    case List(_, surplus) =>
      if |Alive(s.sets[i])| > count {
        ListReaches(s.sets[i], count, surplus);
      }
    case Create(_, name, now) => CreateReaches(s.sets[i], name, now);
    case Delete(_, name) => DeleteReaches(s.sets[i], s.tasks[i].doomed, name);
  }

  // A ReplicaSet pass that nothing disturbs ends, when it has nothing left to create or delete, with
  // exactly as many live pods as the count it read.
  lemma {:induction false} PassReachesCount(
    spec: Spec, run: seq<System>, actions: seq<Action>, i: nat, count: nat, n: nat)
    requires |run| == |actions| + 1 && n <= |actions|
    requires forall k :: 0 <= k < |actions| ==>
               OwnStep(run[k], actions[k], i) && run[k + 1] == Step(spec, run[k], actions[k])
    requires i < |run[0].sets| && TaskOf(run[0], i) == Some(Counting(count))
    ensures Reaches(run[n], i, count)
    ensures TaskOf(run[n], i) in {None, Some(Creating(0)), Some(Deleting({}))} ==> |Alive(run[n].sets[i])| == count
  {
    hide Alive, OwnStep, Step;
    if n > 0 {
      PassReachesCount(spec, run, actions, i, count, n - 1);
      OwnStepReaches(spec, run[n - 1], actions[n - 1], i, count);
    }
    assert Alive(run[n].sets[i]) - {} == Alive(run[n].sets[i]);
  }
}
