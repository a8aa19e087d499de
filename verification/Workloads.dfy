/**
 * The two reconcile loops of orchestrator/workloads.py over the part of the store they share: the
 * ReplicaSets of one Deployment in revision order, each with the pods it owns.
 */
module Workloads {
  import opened Wrappers
  import opened Rollout

  lemma {:induction false} SumOfTail(sets: seq<ReplicaSet>, f: ReplicaSet -> nat, i: nat)
    requires i < |sets|
    ensures Sum(sets[i..], f) == f(sets[i]) + Sum(sets[i + 1..], f)
  {
    assert sets[i..][1..] == sets[i + 1..];
  }

  lemma {:induction false} FindIs(sets: seq<ReplicaSet>, hash: string, t: nat)
    requires t <= |sets| && (t < |sets| ==> sets[t].hash == hash) && forall k :: 0 <= k < t ==> sets[k].hash != hash
    ensures Find(sets, hash) == t
  {
    if t > 0 {
      FindIs(sets[1..], hash, t - 1);
    }
  }

  // Some pod goes first among any that are there.
  lemma {:induction false} SomeGoesFirst(pods: map<string, Pod>, among: set<string>) returns (d: string)
    requires among != {} && among <= pods.Keys
    ensures d in among && forall k :: k in among ==> GoesFirst(pods[d], pods[k])
  {
    var a :| a in among;
    if among == {a} {
      d := a;
    } else {
      assert among - {a} < among;
      var b := SomeGoesFirst(pods, among - {a});
      d := if GoesFirst(pods[a], pods[b]) then a else b;
    }
  }

  lemma AliveWith(rs: ReplicaSet, name: string, pod: Pod)
    requires name !in rs.pods && !Terminal(pod.phase)
    ensures |Alive(rs.(pods := rs.pods[name := pod]))| == |Alive(rs)| + 1
  {
    assert Alive(rs.(pods := rs.pods[name := pod])) == Alive(rs) + {name};
  }

  class Workload {
    var sets: seq<ReplicaSet>

    constructor (sets: seq<ReplicaSet>)
      ensures this.sets == sets
    {
      this.sets := sets;
    }

    // ---- DeploymentController ---------------------------------------------------------------------

    method EnsureTarget(hash: string) returns (t: nat)
      modifies this
      ensures sets == Rollout.EnsureTarget(old(sets), hash)
      ensures t == Find(sets, hash) && t < |sets|
    {
      t := 0;
      var revision: nat := 0;
      while t < |sets|
        invariant t <= |sets| && sets == old(sets)
        invariant forall k :: 0 <= k < t ==> sets[k].hash != hash
        invariant MaxRevision(sets) == Max(revision, MaxRevision(sets[t..]))
      {
        if sets[t].hash == hash {
          FindIs(sets, hash, t);
          return;
        }
        assert sets[t..][1..] == sets[t + 1..];
        revision := Max(revision, sets[t].revision);
        t := t + 1;
      }
      FindIs(sets, hash, t);
      assert sets[t..] == [];
      sets := sets + [ReplicaSet(hash, revision + 1, 0, map[])];
      FindIs(sets, hash, t);
    }

    method TotalOf(f: ReplicaSet -> nat) returns (total: nat)
      ensures total == Sum(sets, f)
    {
      total := 0;
      var i := 0;
      while i < |sets|
        invariant i <= |sets| && total + Sum(sets[i..], f) == Sum(sets, f)
      {
        SumOfTail(sets, f, i);
        total := total + f(sets[i]);
        i := i + 1;
      }
    }

    method Scale(i: nat, replicas: nat) returns (changed: bool)
      requires i < |sets|
      modifies this
      ensures sets == Scaled(old(sets), i, replicas)
      ensures changed <==> sets != old(sets)
    {
      changed := sets[i].replicas != replicas;
      if changed {
        sets := sets[i := sets[i].(replicas := replicas)];
      } else {
        assert sets[i].(replicas := replicas) == sets[i];
      }
    }

    method DrainOld(t: nat, excess: int)
      requires t < |sets|
      modifies this
      ensures sets == Drain(old(sets), t, |old(sets)|, excess)
    {
      var surplus := excess;
      var j: nat := |sets|;
      while j > 0 && surplus > 0
        invariant j <= |sets| == |old(sets)|
        invariant Drain(sets, t, j, surplus) == Drain(old(sets), t, |old(sets)|, excess)
      {
        j := j - 1;
        if j != t && sets[j].replicas != 0 {
          var step := Min(sets[j].replicas, surplus);
          var _ := Scale(j, sets[j].replicas - step);
          surplus := surplus - step;
        }
      }
    }

    method RetireOld(t: nat)
      requires t < |sets|
      modifies this
      ensures sets == Retire(old(sets), t, 0)
    {
      var j := 0;
      while j < |sets|
        invariant j <= |sets| == |old(sets)|
        invariant Retire(sets, t, j) == Retire(old(sets), t, 0)
      {
        if j != t {
          var _ := Scale(j, 0);
        }
        j := j + 1;
      }
    }

    method OldGone(t: nat) returns (gone: bool)
      requires t < |sets|
      ensures gone <==> forall i :: 0 <= i < |sets| && i != t ==> sets[i].replicas == 0 && Alive(sets[i]) == {}
    {
      var i := 0;
      while i < |sets|
        invariant i <= |sets|
        invariant forall k :: 0 <= k < i && k != t ==> sets[k].replicas == 0 && Alive(sets[k]) == {}
      {
        if i != t && (sets[i].replicas != 0 || Alive(sets[i]) != {}) {
          return false;
        }
        i := i + 1;
      }
      return true;
    }

    method ReconcileDeployment(spec: Spec) returns (complete: bool)
      modifies this
      ensures (sets, complete) == Pass(spec, old(sets))
    {
      hide Clamped, ReadyPods, Alive, Sum, Find, Drain, Retire, Rollout.EnsureTarget, Floor;
      var t := EnsureTarget(spec.hash);
      var targetAvailable, targetSpec := |ReadyPods(sets[t])|, sets[t].replicas;
      var oldGone := OldGone(t);
      complete := targetAvailable >= spec.desired && oldGone;
      var total := TotalOf(Requested);
      var room := spec.desired + spec.maxSurge - total;
      if room > 0 && targetSpec < spec.desired {
        var _ := Scale(t, targetSpec + Min(room, spec.desired - targetSpec));
      }
      var available := TotalOf(Clamped);
      DrainOld(t, available - Floor(spec));
      if targetAvailable >= spec.desired {
        RetireOld(t);
      }
      if targetSpec > spec.desired {
        var _ := Scale(t, spec.desired);
      }
    }

    // ---- ReplicaSetController ---------------------------------------------------------------------

    // The clock gives the names of the new pods and the time they carry; the pods named in turned
    // become Ready between the listing and the first write. The status written at the end has the
    // counts of the listing.
    method ReconcileReplicaSet(i: nat, names: seq<string>, now: int, turned: set<string>)
      returns (replicas: nat, readyReplicas: nat)
      requires i < |sets| && |Alive(sets[i])| + |names| >= sets[i].replicas
      modifies this
      ensures |sets| == |old(sets)| && sets == old(sets)[i := sets[i]]
      ensures ReplicaSetPass(old(sets[i]), Turned(old(sets[i]), turned), sets[i])
      ensures replicas == |Alive(old(sets[i]))| && readyReplicas == |ReadyPods(old(sets[i]))|
      ensures replicas > sets[i].replicas || old(Fresh(sets[i], names)) ==> |Alive(sets[i])| == sets[i].replicas
    {
      var rs := sets[i];
      var alive := Alive(rs);
      replicas, readyReplicas := |alive|, |ReadyPods(rs)|;
      TurnedFacts(rs, turned);
      if replicas < rs.replicas {
        sets := sets[i := Turned(rs, turned)];
        CreateMissing(i, names, now, rs.replicas - replicas);
      } else if replicas > rs.replicas {
        var surplus := Surplus(i);
        sets := sets[i := Turned(rs, turned)];
        DeletePods(i, surplus);
        SurplusKeepsClampedIff(rs, Turned(rs, turned), surplus);
        assert sets[i] == Without(Turned(rs, turned), surplus);
      } else {
        sets := sets[i := Turned(rs, turned)];
      }
    }

    // Names no pod of the ReplicaSet has, each offered once.
    ghost predicate Fresh(rs: ReplicaSet, names: seq<string>) {
      forall k :: 0 <= k < |names| ==> names[k] !in rs.pods && names[k] !in names[..k]
    }

    method CreateMissing(i: nat, names: seq<string>, now: int, missing: nat)
      requires i < |sets| && missing <= |names|
      modifies this
      ensures |sets| == |old(sets)| && sets == old(sets)[i := old(sets[i]).(pods := sets[i].pods)]
      ensures forall n :: n in old(sets[i]).pods ==> n in sets[i].pods && sets[i].pods[n] == old(sets[i]).pods[n]
      ensures forall n :: n in sets[i].pods && n !in old(sets[i]).pods ==> sets[i].pods[n] == Pod(Pending, now)
      ensures |Alive(old(sets[i]))| <= |Alive(sets[i])| <= |Alive(old(sets[i]))| + missing
      ensures old(Fresh(sets[i], names)) ==> |Alive(sets[i])| == |Alive(old(sets[i]))| + missing
    {
      hide Alive;
      ghost var rs := sets[i];
      var k := 0;
      while k < missing
        invariant k <= missing && |sets| == |old(sets)|
        invariant sets == old(sets)[i := rs.(pods := sets[i].pods)]
        invariant forall n :: n in rs.pods ==> n in sets[i].pods && sets[i].pods[n] == rs.pods[n]
        invariant forall n :: n in sets[i].pods && n !in rs.pods ==>
                    sets[i].pods[n] == Pod(Pending, now) && n in names[..k]
        invariant |Alive(rs)| <= |Alive(sets[i])| <= |Alive(rs)| + k
        invariant Fresh(rs, names) ==> |Alive(sets[i])| == |Alive(rs)| + k
      {
        if names[k] !in sets[i].pods {
          AliveWith(sets[i], names[k], Pod(Pending, now));
          sets := sets[i := sets[i].(pods := sets[i].pods[names[k] := Pod(Pending, now)])];
        }
        k := k + 1;
      }
    }

    method DeletePods(i: nat, doomed: set<string>)
      requires i < |sets|
      modifies this
      ensures |sets| == |old(sets)|
      ensures sets == old(sets)[i := old(sets[i]).(pods := old(sets[i]).pods - doomed)]
    {
      var rest := doomed;
      assert sets[i].pods - (doomed - rest) == sets[i].pods;
      assert sets[i := sets[i].(pods := sets[i].pods)] == sets;
      while rest != {}
        invariant rest <= doomed && |sets| == |old(sets)|
        invariant sets == old(sets)[i := old(sets[i]).(pods := old(sets[i]).pods - (doomed - rest))]
        decreases rest
      {
        var d :| d in rest;
        assert doomed - (rest - {d}) == (doomed - rest) + {d};
        assert old(sets[i]).pods - ((doomed - rest) + {d}) == (old(sets[i]).pods - (doomed - rest)) - {d};
        sets := sets[i := sets[i].(pods := sets[i].pods - {d})];
        rest := rest - {d};
      }
      assert doomed - rest == doomed;
    }

    // The alive pods beyond the count, least useful first.
    method Surplus(i: nat) returns (surplus: set<string>)
      requires i < |sets| && |Alive(sets[i])| > sets[i].replicas
      ensures LeastUseful(sets[i], sets[i].replicas, surplus)
      ensures forall d, k :: d in surplus && k in Alive(sets[i]) - surplus ==>
                var going, staying := sets[i].pods[d], sets[i].pods[k];
                (going.phase == Ready ==> staying.phase == Ready) &&
                ((going.phase == Ready <==> staying.phase == Ready) ==> going.createdAt <= staying.createdAt)
    {
      var rs := sets[i];
      surplus := {};
      while |surplus| < |Alive(rs)| - rs.replicas
        invariant surplus <= Alive(rs) && |surplus| <= |Alive(rs)| - rs.replicas
        invariant forall d, k :: d in surplus && k in Alive(rs) - surplus ==> GoesFirst(rs.pods[d], rs.pods[k])
        decreases |Alive(rs)| - |surplus|
      {
        var rest := Alive(rs) - surplus;
        SetSizes(surplus, Alive(rs));
        ghost var first := SomeGoesFirst(rs.pods, rest);
        var d :| d in rest && forall k :: k in rest ==> GoesFirst(rs.pods[d], rs.pods[k]);
        surplus := surplus + {d};
      }
    }
  }
}
