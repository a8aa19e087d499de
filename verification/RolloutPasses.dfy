/** Whole Deployment passes: exactly when one keeps the floor, and why every rollout ends. */
module RolloutPasses {
  import opened Wrappers
  import opened Rollout
  import opened RolloutSafety

  // Only replica counts differ.
  ghost predicate SameButCounts(a: seq<ReplicaSet>, b: seq<ReplicaSet>) {
    |a| == |b| && forall i :: 0 <= i < |a| ==> b[i] == a[i].(replicas := b[i].replicas)
  }

  lemma {:induction false} FindSame(a: seq<ReplicaSet>, b: seq<ReplicaSet>, hash: string)
    requires |a| == |b| && forall i :: 0 <= i < |a| ==> a[i].hash == b[i].hash
    ensures Find(a, hash) == Find(b, hash)
  {
    if a != [] && a[0].hash != hash {
      FindSame(a[1..], b[1..], hash);
    }
  }

  // The drain spends at most the surplus, never touches the target, and if anything old is left to
  // drain, it drains something.
  lemma {:induction false} DrainFacts(sets: seq<ReplicaSet>, t: nat, j: nat, surplus: int)
    requires t < |sets| && j <= |sets|
    ensures
      var r := Drain(sets, t, j, surplus);
      SameButCounts(sets, r) && r[t] == sets[t] &&
      Available(r) >= Available(sets) - Max(surplus, 0) && TotalRequested(r) <= TotalRequested(sets) &&
      (surplus > 0 && (exists i :: 0 <= i < j && i != t && sets[i].replicas > 0) ==>
         TotalRequested(r) < TotalRequested(sets))
    decreases j
  {
    if j > 0 && surplus > 0 {
      if j - 1 == t || sets[j - 1].replicas == 0 {
        DrainFacts(sets, t, j - 1, surplus);
      } else {
        var step := Min(sets[j - 1].replicas, surplus);
        ScaledSums(sets, j - 1, sets[j - 1].replicas - step);
        DrainFacts(Scaled(sets, j - 1, sets[j - 1].replicas - step), t, j - 1, surplus - step);
      }
    }
  }

  // What the ReplicaSets before j ask for, the target apart.
  ghost function OldBelow(sets: seq<ReplicaSet>, t: nat, j: nat): nat
    requires j <= |sets|
  {
    if j == 0 then 0 else OldBelow(sets, t, j - 1) + if j - 1 == t then 0 else sets[j - 1].replicas
  }

  lemma {:induction false} OldBelowSame(a: seq<ReplicaSet>, b: seq<ReplicaSet>, t: nat, j: nat)
    requires j <= |a| == |b| && forall i :: 0 <= i < j ==> a[i].replicas == b[i].replicas
    ensures OldBelow(a, t, j) == OldBelow(b, t, j)
  {
    if j > 0 {
      OldBelowSame(a, b, t, j - 1);
    }
  }

  // The drain takes as many replicas as the surplus says, or all that the old ReplicaSets have.
  lemma {:induction false} DrainTakes(sets: seq<ReplicaSet>, t: nat, j: nat, surplus: int)
    requires t < |sets| && j <= |sets|
    ensures
      TotalRequested(Drain(sets, t, j, surplus)) ==
      TotalRequested(sets) - Min(Max(surplus, 0), OldBelow(sets, t, j))
    decreases j
  {
    hide TotalRequested;
    if j > 0 && surplus > 0 {
      if j - 1 == t || sets[j - 1].replicas == 0 {
        DrainTakes(sets, t, j - 1, surplus);
      } else {
        var step := Min(sets[j - 1].replicas, surplus);
        var less := Scaled(sets, j - 1, sets[j - 1].replicas - step);
        ScaledSums(sets, j - 1, sets[j - 1].replicas - step);
        OldBelowSame(sets, less, t, j - 1);
        DrainTakes(less, t, j - 1, surplus - step);
      }
    }
  }

  lemma {:induction false} OldBelowIs(sets: seq<ReplicaSet>, t: nat, j: nat)
    requires t < |sets| && j <= |sets|
    ensures OldBelow(sets, t, j) == Sum(sets[..j], Requested) - if t < j then sets[t].replicas else 0
  {
    if j > 0 {
      OldBelowIs(sets, t, j - 1);
      assert sets[..j] == sets[..j - 1] + [sets[j - 1]];
      SumAppend(sets[..j - 1], Requested, sets[j - 1]);
    }
  }

  // An older ReplicaSet only loses replicas once every newer one, the target apart, has none left.
  lemma {:induction false} DrainNewestFirst(sets: seq<ReplicaSet>, t: nat, j: nat, surplus: int)
    requires t < |sets| && j <= |sets|
    ensures
      var r := Drain(sets, t, j, surplus);
      (forall i :: j <= i < |sets| ==> r[i] == sets[i]) &&
      forall i, k :: 0 <= i < k < j && k != t && r[i].replicas < sets[i].replicas ==> r[k].replicas == 0
    decreases j
  {
    if j > 0 && surplus > 0 {
      if j - 1 == t || sets[j - 1].replicas == 0 {
        DrainNewestFirst(sets, t, j - 1, surplus);
      } else {
        var step := Min(sets[j - 1].replicas, surplus);
        DrainNewestFirst(Scaled(sets, j - 1, sets[j - 1].replicas - step), t, j - 1, surplus - step);
      }
    }
  }

  lemma {:induction false} RetireFacts(sets: seq<ReplicaSet>, t: nat, j: nat)
    requires t < |sets| && j <= |sets|
    ensures
      var r := Retire(sets, t, j);
      SameButCounts(sets, r) && r[t] == sets[t] &&
      (forall i :: j <= i < |sets| && i != t ==> r[i].replicas == 0) &&
      (forall i :: 0 <= i < j ==> r[i] == sets[i])
    decreases |sets| - j
  {
    if j < |sets| {
      RetireFacts(if j == t then sets else Scaled(sets, j, 0), t, j + 1);
    }
  }

  // Only the target's pods count once the others ask for none.
  lemma {:induction false} OnlyTarget(sets: seq<ReplicaSet>, t: nat)
    requires t < |sets| && forall i :: 0 <= i < |sets| && i != t ==> sets[i].replicas == 0
    ensures Available(sets) == Clamped(sets[t]) && TotalRequested(sets) == sets[t].replicas
  {
    if t == 0 {
      AllZero(sets[1..]);
    } else {
      OnlyTarget(sets[1..], t - 1);
    }
  }

  lemma {:induction false} AllZero(sets: seq<ReplicaSet>)
    requires forall i :: 0 <= i < |sets| ==> sets[i].replicas == 0
    ensures Available(sets) == 0 && TotalRequested(sets) == 0
  {
    if sets != [] {
      AllZero(sets[1..]);
    }
  }

  // ---- one pass and the floor ---------------------------------------------------------------------

  lemma UpFacts(spec: Spec, sets: seq<ReplicaSet>)
    requires Find(sets, spec.hash) < |sets|
    ensures
      var t, up := Find(sets, spec.hash), Up(spec, sets);
      SameButCounts(sets, up) && Available(up) >= Available(sets) && sets[t].replicas <= up[t].replicas &&
      (forall i :: 0 <= i < |sets| && i != t ==> up[i] == sets[i]) &&
      (up[t].replicas != sets[t].replicas ==> up[t].replicas <= spec.desired)
  {
    hide Clamped, ReadyPods, Available, TotalRequested, Find;
    var t := Find(sets, spec.hash);
    var room := spec.desired + spec.maxSurge - TotalRequested(sets);
    if room > 0 && sets[t].replicas < spec.desired {
      var more := sets[t].replicas + Min(room, spec.desired - sets[t].replicas);
      assert Up(spec, sets) == Scaled(sets, t, more);
      RaisingKeepsAvailable(sets, t, more);
    }
  }

  lemma RaisingKeepsAvailable(sets: seq<ReplicaSet>, t: nat, replicas: nat)
    requires t < |sets| && replicas >= sets[t].replicas
    ensures Available(Scaled(sets, t, replicas)) >= Available(sets)
  {
    ScaledSums(sets, t, replicas);
  }

  // The room under the surge limit goes to the target.
  lemma UpCounts(spec: Spec, sets: seq<ReplicaSet>)
    requires Find(sets, spec.hash) < |sets|
    ensures
      var t := Find(sets, spec.hash);
      var mine, total := sets[t].replicas, TotalRequested(sets);
      var more := Up(spec, sets)[t].replicas - mine;
      TotalRequested(Up(spec, sets)) == total + more &&
      more == if mine < spec.desired && total < spec.desired + spec.maxSurge
              then Min(spec.desired + spec.maxSurge - total, spec.desired - mine) else 0
  {
    hide Clamped, ReadyPods, Available, TotalRequested, Find;
    var t := Find(sets, spec.hash);
    var room := spec.desired + spec.maxSurge - TotalRequested(sets);
    if room > 0 && sets[t].replicas < spec.desired {
      var more := sets[t].replicas + Min(room, spec.desired - sets[t].replicas);
      assert Up(spec, sets) == Scaled(sets, t, more);
      ScaledSums(sets, t, more);
    }
  }

  // The target looks able to carry the load only through pods that are already asked to go.
  ghost predicate RetiresTooEarly(spec: Spec, sets: seq<ReplicaSet>)
    requires Find(sets, spec.hash) < |sets|
  {
    var t := Find(sets, spec.hash);
    |ReadyPods(sets[t])| >= spec.desired && Up(spec, sets)[t].replicas < Min(Available(sets), Floor(spec))
  }

  lemma CountedReady(rs: ReplicaSet, replicas: nat)
    ensures ReadyPods(rs.(replicas := replicas)) == ReadyPods(rs)
    ensures Clamped(rs.(replicas := replicas)) == Min(|ReadyPods(rs)|, replicas)
  {
    assert ReadyPods(rs.(replicas := replicas)) == ReadyPods(rs);
  }

  // The last two stages, when the target's pods are enough to retire the rest.
  lemma RetiredAvailable(sets: seq<ReplicaSet>, t: nat)
    requires t < |sets|
    ensures Available(Retire(sets, t, 0)) == Clamped(sets[t])
    ensures forall n: nat :: Available(Scaled(Retire(sets, t, 0), t, n)) == Min(|ReadyPods(sets[t])|, n)
  {
    hide Clamped, ReadyPods;
    var retired := Retire(sets, t, 0);
    RetireFacts(sets, t, 0);
    OnlyTarget(retired, t);
    forall n: nat ensures Available(Scaled(retired, t, n)) == Min(|ReadyPods(sets[t])|, n) {
      ScaledSums(retired, t, n);
    }
  }

  // A pass keeps the floor if and only if it does not retire the old ReplicaSets on the strength of
  // Ready pods beyond the target's own count.
  lemma PassKeepsFloorIff(spec: Spec, sets: seq<ReplicaSet>)
    requires Find(sets, spec.hash) < |sets|
    ensures
      Available(Pass(spec, sets).0) >= Min(Available(sets), Floor(spec)) <==> !RetiresTooEarly(spec, sets)
  {
    hide Clamped, ReadyPods, Available, TotalRequested, Find, Up, Drain, Retire, Complete, Pass, Scaled;
    var t := Find(sets, spec.hash);
    var up, drained := Up(spec, sets), DrainedDown(spec, sets);
    UpFacts(spec, sets);
    DrainFacts(up, t, |up|, Available(up) - Floor(spec));
    PassStages(spec, sets);
    hide DrainedDown;
    assert up[t] == sets[t].(replicas := up[t].replicas);
    CountedReady(sets[t], up[t].replicas);
    CountedReady(sets[t], sets[t].replicas);
    if |ReadyPods(sets[t])| >= spec.desired {
      RetiredAvailable(drained, t);
    } else if sets[t].replicas > spec.desired {
      ScaledSums(drained, t, spec.desired);
    }
  }

  lemma TargetThere(sets: seq<ReplicaSet>, hash: string)
    requires Find(sets, hash) < |sets|
    ensures EnsureTarget(sets, hash) == sets
  {
    hide Find, MaxRevision;
  }

  // A pass written as its stages.
  lemma PassStages(spec: Spec, sets: seq<ReplicaSet>)
    requires Find(sets, spec.hash) < |sets|
    ensures
      var t, drained := Find(sets, spec.hash), DrainedDown(spec, sets);
      var retired := if |ReadyPods(sets[t])| >= spec.desired then Retire(drained, t, 0) else drained;
      Pass(spec, sets).0 == if sets[t].replicas > spec.desired then Scaled(retired, t, spec.desired) else retired
  {
    hide ReadyPods, Available, TotalRequested, Find, Drain, Retire, Complete, ScaleUp, Scaled, Floor, EnsureTarget;
    TargetThere(sets, spec.hash);
  }

  function Named(n: nat): (name: string)
    ensures |name| == n
  {
    seq(n, _ => 'p')
  }

  // n Ready pods.
  function Serving(n: nat): (pods: map<string, Pod>)
    ensures forall name :: name in pods ==> |name| < n && pods[name].phase == Ready
    ensures |pods.Keys| == n
  {
    if n == 0 then map[]
    else Serving(n - 1)[Named(n - 1) := Pod(Ready, 0)]
  }

  lemma ServingCounts(rs: ReplicaSet, n: nat)
    requires rs.pods == Serving(n)
    ensures |ReadyPods(rs)| == n && |Alive(rs)| == n
  {
    assert ReadyPods(rs) == rs.pods.Keys;
    assert Alive(rs) == rs.pods.Keys;
  }

  // The target's count raised into the room below the surge limit, up to the desired count.
  function RaisedTo(spec: Spec, mine: nat, total: nat): nat {
    if mine < spec.desired && total < spec.desired + spec.maxSurge
    then mine + Min(spec.desired + spec.maxSurge - total, spec.desired - mine) else mine
  }

  // What old ReplicaSets keep of a total when what is available above the floor is taken from them.
  function KeptOfOld(spec: Spec, total: nat, available: int): int {
    total - Min(total, Max(available - Max(spec.desired - spec.maxUnavailable, 0), 0))
  }

  // What the target asks for after the first step, and what is available then.
  lemma RaisedCounts(spec: Spec, sets: seq<ReplicaSet>)
    requires Find(sets, spec.hash) < |sets|
    ensures
      var t, up, total := Find(sets, spec.hash), Up(spec, sets), TotalRequested(sets);
      var mine, ready := sets[t].replicas, |ReadyPods(sets[t])|;
      up[t].replicas == RaisedTo(spec, mine, total) &&
      TotalRequested(up) == total + up[t].replicas - mine &&
      Available(up) == Available(sets) - Min(ready, mine) + Min(ready, up[t].replicas)
  {
    hide ReadyPods, Available, TotalRequested, Find, Clamped;
    var t := Find(sets, spec.hash);
    UpCounts(spec, sets);
    UpFacts(spec, sets);
    assert Up(spec, sets) == Scaled(sets, t, Up(spec, sets)[t].replicas);
    ScaledSums(sets, t, Up(spec, sets)[t].replicas);
    CountedReady(sets[t], sets[t].replicas);
    assert sets[t].(replicas := sets[t].replicas) == sets[t];
  }

  // The counts after the first two steps.
  lemma DrainedCounts(spec: Spec, sets: seq<ReplicaSet>)
    requires Find(sets, spec.hash) < |sets|
    ensures
      var t, up, drained := Find(sets, spec.hash), Up(spec, sets), DrainedDown(spec, sets);
      SameButCounts(sets, drained) && drained[t] == up[t] &&
      TotalRequested(sets) >= sets[t].replicas &&
      TotalRequested(drained) - up[t].replicas ==
        KeptOfOld(spec, TotalRequested(sets) - sets[t].replicas, Available(up))
  {
    hide ReadyPods, Available, TotalRequested, Find, Clamped, Drain, Up, OldBelow;
    var t, up := Find(sets, spec.hash), Up(spec, sets);
    UpFacts(spec, sets);
    RaisedCounts(spec, sets);
    DrainFacts(up, t, |up|, Available(up) - Floor(spec));
    DrainTakes(up, t, |up|, Available(up) - Floor(spec));
    OldIsRest(up, t);
    FloorIs(spec);
    assert TotalRequested(sets) >= sets[t].replicas by { SumUpdate(sets, Requested, t, sets[t]); hide Sum; }
  }

  lemma OldIsRest(sets: seq<ReplicaSet>, t: nat)
    requires t < |sets|
    ensures OldBelow(sets, t, |sets|) == TotalRequested(sets) - sets[t].replicas
  {
    OldBelowIs(sets, t, |sets|);
    assert sets[..|sets|] == sets;
  }

  // What a pass leaves, for any counts and any pods. The target gets the room below the surge limit, up to
  // the desired count, and is cut back to that count if it asked for more. The old ReplicaSets together
  // keep nothing once enough of the target's pods are Ready; until then they lose what is available above
  // the floor, the raised target counted.
  lemma PassCounts(spec: Spec, sets: seq<ReplicaSet>)
    requires Find(sets, spec.hash) < |sets|
    ensures
      var t, after, total := Find(sets, spec.hash), Pass(spec, sets).0, TotalRequested(sets);
      var mine, ready := sets[t].replicas, |ReadyPods(sets[t])|;
      var raised := RaisedTo(spec, mine, total);
      total >= mine && SameButCounts(sets, after) &&
      after[t].replicas == (if mine > spec.desired then spec.desired else raised) &&
      TotalRequested(after) - after[t].replicas ==
        if ready >= spec.desired then 0
        else KeptOfOld(spec, total - mine, Available(sets) - Min(ready, mine) + Min(ready, raised))
  {
    hide ReadyPods, Available, TotalRequested, Find, EnsureTarget, Retire, Pass, Up, DrainedDown, SameButCounts,
         Min, Max, RaisedTo, KeptOfOld;
    RaisedCounts(spec, sets);
    DrainedCounts(spec, sets);
    LastSteps(spec, sets);
  }

  lemma FloorIs(spec: Spec)
    ensures Floor(spec) == Max(spec.desired - spec.maxUnavailable, 0)
  {
  }

  // The last two steps.
  lemma LastSteps(spec: Spec, sets: seq<ReplicaSet>)
    requires Find(sets, spec.hash) < |sets|
    ensures
      var t, drained, after := Find(sets, spec.hash), DrainedDown(spec, sets), Pass(spec, sets).0;
      SameButCounts(sets, after) &&
      after[t].replicas == (if sets[t].replicas > spec.desired then spec.desired else drained[t].replicas) &&
      TotalRequested(after) - after[t].replicas ==
        if |ReadyPods(sets[t])| >= spec.desired then 0 else TotalRequested(drained) - drained[t].replicas
  {
    hide ReadyPods, Available, TotalRequested, Find, Retire, Complete, Pass, Up, DrainedDown, Clamped, Min, Max, Floor;
    var t, drained := Find(sets, spec.hash), DrainedDown(spec, sets);
    PassStages(spec, sets);
    DrainedCounts(spec, sets);
    var retired := if |ReadyPods(sets[t])| >= spec.desired then Retire(drained, t, 0) else drained;
    if |ReadyPods(sets[t])| >= spec.desired {
      RetireFacts(drained, t, 0);
      OnlyTarget(retired, t);
    }
    ScaledSums(retired, t, spec.desired);
  }

  // ---- the steps of a pass --------------------------------------------------------------------------

  // How many kinds of step are left.
  function Rank(stage: Stage): nat {
    match stage
    case Idle => 0
    case Snapped(_, _, _, _) => 5
    case Raised(_, _, _) => 4
    case Draining(_, _, _, _, _) => 3
    case Retiring(_, _, _, _) => 2
    case Closing(_, _, _) => 1
  }

  function Rest(s: System): int {
    match s.stage
    case Draining(_, _, _, j, _) => j
    case Retiring(_, _, _, j) => |s.sets| - j
    case _ => 0
  }

  // A Deployment pass under way, run to its end with nothing in between.
  ghost function Finished(spec: Spec, s: System): System
    requires StageInRange(s)
    decreases Rank(s.stage), Rest(s)
  {
    if s.stage.Idle? then s else Finished(spec, DeploymentStep(spec, s))
  }

  lemma {:induction false} DrainSteps(spec: Spec, s: System)
    requires StageInRange(s) && s.stage.Draining?
    ensures
      var Draining(t, available, replicas, j, surplus) := s.stage;
      var drained := Drain(s.sets, t, j, surplus);
      Finished(spec, s) ==
      Finished(spec, s.(sets := drained, stage := if available >= spec.desired then Retiring(t, available, replicas, 0)
                                                  else Closing(t, available, replicas)))
    decreases s.stage.j
  {
    var next := DeploymentStep(spec, s);
    assert Finished(spec, s) == Finished(spec, next);
    hide Finished;
    if s.stage.j > 0 && s.stage.surplus > 0 {
      DrainSteps(spec, next);
    }
  }

  lemma {:induction false} RetireSteps(spec: Spec, s: System)
    requires StageInRange(s) && s.stage.Retiring?
    ensures
      var Retiring(t, available, replicas, j) := s.stage;
      Finished(spec, s) ==
      Finished(spec, s.(sets := Retire(s.sets, t, j), stage := Closing(t, available, replicas)))
    decreases |s.sets| - s.stage.j
  {
    var next := DeploymentStep(spec, s);
    assert Finished(spec, s) == Finished(spec, next);
    hide Finished;
    if s.stage.j < |s.sets| {
      RetireSteps(spec, next);
    }
  }

  lemma ClosingStep(spec: Spec, s: System)
    requires StageInRange(s) && s.stage.Closing?
    ensures Finished(spec, s) == DeploymentStep(spec, s)
  {
  }

  lemma FirstSteps(spec: Spec, s: System)
    requires s.stage.Idle?
    ensures
      var sets := EnsureTarget(s.sets, spec.hash);
      var t, up := Find(sets, spec.hash), Up(spec, sets);
      var seen, count := |ReadyPods(sets[t])|, sets[t].replicas;
      Finished(spec, DeploymentStep(spec, s)) ==
      Finished(spec, s.(sets := up, stage := Draining(t, seen, count, |up|, Available(up) - Floor(spec))))
  {
    hide Find, EnsureTarget, ReadyPods, Available, TotalRequested, Floor, ScaleUp;
    var s1 := DeploymentStep(spec, s);
    var s2 := DeploymentStep(spec, s1);
    assert Finished(spec, s1) == Finished(spec, s2);
    assert Finished(spec, s2) == Finished(spec, DeploymentStep(spec, s2));
  }

  // The steps a pass takes, one per store access, add up to the pass as a whole when nothing comes in
  // between.
  lemma StepsArePass(spec: Spec, s: System)
    requires s.stage.Idle?
    ensures Finished(spec, DeploymentStep(spec, s)) == s.(sets := Pass(spec, s.sets).0)
  {
    hide Find, EnsureTarget, ReadyPods, Available, TotalRequested, Floor, ScaleUp, Drain, Retire, Finished, Complete;
    var sets := EnsureTarget(s.sets, spec.hash);
    var t, up := Find(sets, spec.hash), Up(spec, sets);
    var seen, count := |ReadyPods(sets[t])|, sets[t].replicas;
    FirstSteps(spec, s);
    DrainSteps(spec, s.(sets := up, stage := Draining(t, seen, count, |up|, Available(up) - Floor(spec))));
    var drained := Drain(up, t, |up|, Available(up) - Floor(spec));
    var retired := if seen >= spec.desired then Retire(drained, t, 0) else drained;
    if seen >= spec.desired {
      RetireSteps(spec, s.(sets := drained, stage := Retiring(t, seen, count, 0)));
    }
    ClosingStep(spec, s.(sets := retired, stage := Closing(t, seen, count)));
  }

  // A pass says complete, whatever the pods, if and only if enough of the target's are Ready, every other
  // ReplicaSet asks for none, and every pod of another ReplicaSet is over: asking for none is not enough.
  lemma CompleteIff(spec: Spec, before: seq<ReplicaSet>)
    ensures
      var sets := EnsureTarget(before, spec.hash);
      var t := Find(sets, spec.hash);
      Pass(spec, before).1 <==>
        |set n | n in sets[t].pods && sets[t].pods[n].phase == Ready| >= spec.desired &&
        forall i :: 0 <= i < |sets| && i != t ==>
          sets[i].replicas == 0 &&
          forall n :: n in sets[i].pods ==> sets[i].pods[n].phase == Succeeded || sets[i].pods[n].phase == Failed
  {
    hide EnsureTarget, Find, DrainedDown, Retire;
    var sets := EnsureTarget(before, spec.hash);
    var t := Find(sets, spec.hash);
    assert ReadyPods(sets[t]) == set n | n in sets[t].pods && sets[t].pods[n].phase == Ready;
    forall i | 0 <= i < |sets|
      ensures Alive(sets[i]) == {} <==>
              forall n :: n in sets[i].pods ==> sets[i].pods[n].phase == Succeeded || sets[i].pods[n].phase == Failed
    {
      AliveIs(sets[i]);
    }
  }

  // Rolling back onto a ReplicaSet whose three pods are still draining: with no unavailability
  // allowed, one pass takes the serving count from three to one.
  lemma RollbackBreaksFloor() returns (spec: Spec, sets: seq<ReplicaSet>)
    ensures Find(sets, spec.hash) < |sets| && RetiresTooEarly(spec, sets)
    ensures spec.maxUnavailable == 0 && spec.desired == 3 && Available(sets) == 3 && Available(Pass(spec, sets).0) == 1
  {
    spec := Spec(3, 1, 0, "v1");
    var v1, v2 := ReplicaSet("v1", 1, 0, Serving(3)), ReplicaSet("v2", 2, 3, Serving(3));
    sets := [v1, v2];
    ServingCounts(v1, 3);
    ServingCounts(v2, 3);
    SumOfTwo(sets);
    assert "v1"[1] != "v2"[1];
    assert Find(sets, "v1") == 0;
    PassKeepsFloorIff(spec, sets);
    var up := Up(spec, sets);
    assert up == [v1.(replicas := 1), v2];
    var drained := DrainedDown(spec, sets);
    DrainFacts(up, 0, 2, Available(up) - 3);
    RetireFacts(drained, 0, 0);
    OnlyTarget(Retire(drained, 0, 0), 0);
    assert ReadyPods(drained[0]) == ReadyPods(v1);
  }

  lemma SumOfTwo(sets: seq<ReplicaSet>)
    requires |sets| == 2
    ensures Available(sets) == Clamped(sets[0]) + Clamped(sets[1])
    ensures TotalRequested(sets) == sets[0].replicas + sets[1].replicas
  {
    assert sets[1..][1..] == [];
    assert Sum(sets[1..], Clamped) == Clamped(sets[1]);
    assert Sum(sets[1..], Requested) == sets[1].replicas;
  }
}
