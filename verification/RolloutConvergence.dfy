/**
 * Why a rollout ends: when the pods settle between Deployment passes, every pass brings the counts
 * closer to the goal, unless neither surge nor unavailability is allowed.
 */
module RolloutConvergence {
  import opened Wrappers
  import opened Rollout
  import opened RolloutSafety
  import opened RolloutPasses

  ghost predicate SetSettled(rs: ReplicaSet) {
    |Alive(rs)| == rs.replicas && |ReadyPods(rs)| == rs.replicas
  }

  // Every ReplicaSet has exactly the pods it asks for, all of them Ready.
  ghost predicate Settled(sets: seq<ReplicaSet>) {
    forall i :: 0 <= i < |sets| ==> SetSettled(sets[i])
  }

  // The pods change, the counts do not.
  ghost predicate SameButPods(a: seq<ReplicaSet>, b: seq<ReplicaSet>) {
    |a| == |b| && forall i :: 0 <= i < |a| ==> b[i] == a[i].(pods := b[i].pods)
  }

  // A Deployment pass at each settled state, and the pods settle again.
  ghost predicate IsRounds(spec: Spec, rounds: seq<seq<ReplicaSet>>) {
    (forall k :: 0 <= k < |rounds| ==> Settled(rounds[k])) &&
    forall k :: 0 <= k < |rounds| - 1 ==> SameButPods(Pass(spec, rounds[k]).0, rounds[k + 1])
  }

  // How far the counts are from the goal: all at the target, none elsewhere.
  ghost function Distance(spec: Spec, before: seq<ReplicaSet>): nat {
    var sets := EnsureTarget(before, spec.hash);
    var mine := sets[Find(sets, spec.hash)].replicas;
    TargetWithinTotal(sets, Find(sets, spec.hash));
    (if mine <= spec.desired then spec.desired - mine else mine - spec.desired) + TotalRequested(sets) - mine
  }

  lemma TargetWithinTotal(sets: seq<ReplicaSet>, t: nat)
    requires t < |sets|
    ensures sets[t].replicas <= TotalRequested(sets)
  {
    SumUpdate(sets, Requested, t, sets[t]);
  }

  // Nothing may be added and nothing may be taken away.
  ghost predicate Stuck(spec: Spec, before: seq<ReplicaSet>) {
    var sets := EnsureTarget(before, spec.hash);
    spec.maxSurge == 0 && spec.maxUnavailable == 0 && TotalRequested(sets) == spec.desired &&
    sets[Find(sets, spec.hash)].replicas < spec.desired
  }

  lemma {:induction false} SettledCounts(sets: seq<ReplicaSet>)
    requires Settled(sets)
    ensures Available(sets) == TotalRequested(sets)
  {
    if sets != [] {
      assert SetSettled(sets[0]);
      assert forall i :: 0 <= i < |sets[1..]| ==> sets[1..][i] == sets[i + 1];
      SettledCounts(sets[1..]);
    }
  }

  lemma EnsureSettled(sets: seq<ReplicaSet>, hash: string)
    requires Settled(sets)
    ensures Settled(EnsureTarget(sets, hash))
  {
    var more := EnsureTarget(sets, hash);
    forall i | 0 <= i < |more| ensures SetSettled(more[i]) {
      if i < |sets| {
        assert SetSettled(sets[i]);
      } else {
        assert Alive(more[i]) == {} && ReadyPods(more[i]) == {};
      }
    }
  }

  // The old counts add up to nothing exactly when each of them is nothing.
  lemma {:induction false} OldGone(sets: seq<ReplicaSet>, t: nat)
    requires t < |sets|
    ensures TotalRequested(sets) == sets[t].replicas <==>
            forall i :: 0 <= i < |sets| && i != t ==> sets[i].replicas == 0
  {
    if forall i :: 0 <= i < |sets| && i != t ==> sets[i].replicas == 0 {
      OnlyTarget(sets, t);
    } else {
      var i: nat :| i < |sets| && i != t && sets[i].replicas != 0;
      ScaledSums(sets, i, 0);
      TargetWithinTotal(Scaled(sets, i, 0), t);
    }
  }

  // Over settled pods the verdict is a statement about the counts.
  lemma CompleteOverCounts(spec: Spec, sets: seq<ReplicaSet>)
    requires Settled(sets) && Find(sets, spec.hash) < |sets|
    ensures
      var t := Find(sets, spec.hash);
      Complete(spec, sets, t, |ReadyPods(sets[t])|) <==>
        sets[t].replicas >= spec.desired && TotalRequested(sets) == sets[t].replicas
  {
    var t := Find(sets, spec.hash);
    hide ReadyPods, Find, TotalRequested;
    OldGone(sets, t);
    assert SetSettled(sets[t]);
    assert forall i :: 0 <= i < |sets| ==> SetSettled(sets[i]) && (Alive(sets[i]) == {} <==> sets[i].replicas == 0);
  }

  // ---- one round ------------------------------------------------------------------------------------

  // With settled pods, raising the target's count makes nothing more available.
  lemma UpAvailable(spec: Spec, sets: seq<ReplicaSet>)
    requires Find(sets, spec.hash) < |sets| && Settled(sets)
    ensures Available(Up(spec, sets)) == TotalRequested(sets)
  {
    var t := Find(sets, spec.hash);
    var up := Up(spec, sets);
    UpFacts(spec, sets);
    SettledCounts(sets);
    assert SetSettled(sets[t]);
    hide Clamped, ReadyPods, Available, TotalRequested, Find, Up, Settled;
    if up[t].replicas != sets[t].replicas {
      assert up == Scaled(sets, t, up[t].replicas);
      ScaledSums(sets, t, up[t].replicas);
      CountedReady(sets[t], sets[t].replicas);
      assert sets[t].(replicas := sets[t].replicas) == sets[t];
    } else {
      assert up == sets;
    }
  }

  // The drain stops as soon as there is no surplus, and otherwise takes at least one replica.
  lemma DrainCounts(spec: Spec, sets: seq<ReplicaSet>)
    requires Find(sets, spec.hash) < |sets| && Settled(sets)
    ensures
      var t, up, drained := Find(sets, spec.hash), Up(spec, sets), DrainedDown(spec, sets);
      |drained| == |sets| && drained[t] == up[t] && SameButCounts(sets, drained) &&
      TotalRequested(drained) <= TotalRequested(up) &&
      (TotalRequested(sets) <= Floor(spec) ==> drained == up) &&
      (TotalRequested(sets) > Floor(spec) && TotalRequested(sets) > sets[t].replicas ==>
         TotalRequested(drained) < TotalRequested(up))
  {
    var t, up := Find(sets, spec.hash), Up(spec, sets);
    UpFacts(spec, sets);
    UpAvailable(spec, sets);
    DrainFacts(up, t, |up|, Available(up) - Floor(spec));
    OldGone(sets, t);
    hide Settled, TotalRequested, Available, Find, Up, Floor;
    if TotalRequested(sets) > sets[t].replicas {
      var i: nat :| i < |sets| && i != t && sets[i].replicas != 0;
      assert up[i].replicas > 0;
    }
  }

  lemma SameTarget(sets: seq<ReplicaSet>, r: seq<ReplicaSet>, hash: string)
    requires SameButCounts(sets, r) && Find(sets, hash) < |sets|
    ensures Find(r, hash) == Find(sets, hash) && EnsureTarget(r, hash) == r
  {
    FindSame(sets, r, hash);
  }

  // What a pass over settled pods leaves: the target's count and all counts together.
  lemma PassCounts(spec: Spec, sets: seq<ReplicaSet>)
    requires Find(sets, spec.hash) < |sets| && Settled(sets)
    ensures
      var t, after := Find(sets, spec.hash), Pass(spec, sets).0;
      var mine, total := sets[t].replicas, TotalRequested(sets);
      SameButCounts(sets, after) &&
      (mine >= spec.desired ==> after[t].replicas == spec.desired && TotalRequested(after) == spec.desired) &&
      (mine < spec.desired ==>
         after[t] == Up(spec, sets)[t] && TotalRequested(after) == TotalRequested(DrainedDown(spec, sets)))
  {
    hide Clamped, ReadyPods, Available, TotalRequested, Find, Up, Drain, Complete, Pass, Scaled;
    var t, drained := Find(sets, spec.hash), DrainedDown(spec, sets);
    PassStages(spec, sets);
    UpFacts(spec, sets);
    UpCounts(spec, sets);
    DrainCounts(spec, sets);
    hide DrainedDown;
    assert SetSettled(sets[t]);
    if sets[t].replicas >= spec.desired {
      var retired := Retire(drained, t, 0);
      RetireFacts(drained, t, 0);
      OnlyTarget(retired, t);
      hide Retire;
      ScaledSums(retired, t, spec.desired);
      ScaledShape(retired, t, spec.desired);
    }
  }

  lemma ScaledShape(sets: seq<ReplicaSet>, t: nat, replicas: nat)
    requires t < |sets|
    ensures SameButCounts(sets, Scaled(sets, t, replicas)) && Scaled(sets, t, replicas)[t].replicas == replicas
  {
  }

  // An incomplete rollout over settled pods comes closer in one pass if and only if it is not stuck.
  lemma PassGetsCloserIff(spec: Spec, sets: seq<ReplicaSet>)
    requires Find(sets, spec.hash) < |sets| && Settled(sets) && !Pass(spec, sets).1
    ensures Distance(spec, Pass(spec, sets).0) < Distance(spec, sets) <==> !Stuck(spec, sets)
    ensures Find(Pass(spec, sets).0, spec.hash) == Find(sets, spec.hash)
  {
    hide Clamped, ReadyPods, Available, TotalRequested, Find, Up, DrainedDown;
    var after := Pass(spec, sets).0;
    assert EnsureTarget(sets, spec.hash) == sets;
    PassCounts(spec, sets);
    SameTarget(sets, after, spec.hash);
    CompleteOverCounts(spec, sets);
    UpCounts(spec, sets);
    DrainCounts(spec, sets);
    TargetWithinTotal(sets, Find(sets, spec.hash));
    hide Complete, EnsureTarget;
  }

  // ---- every rollout --------------------------------------------------------------------------------

  // A pod may be added before one goes, or one may go before another is added.
  ghost predicate CanMove(spec: Spec) {
    spec.desired == 0 || spec.maxSurge + spec.maxUnavailable >= 1
  }

  ghost predicate CompleteAt(spec: Spec, rounds: seq<seq<ReplicaSet>>, k: nat) {
    k < |rounds| && Pass(spec, rounds[k]).1
  }

  // Given as many rounds as the distance at the start, the rollout has been reported complete.
  ghost predicate Ends(spec: Spec, rounds: seq<seq<ReplicaSet>>) {
    IsRounds(spec, rounds) && |rounds| > 0 && |rounds| > Distance(spec, rounds[0]) ==>
      exists k: nat :: k <= Distance(spec, rounds[0]) && CompleteAt(spec, rounds, k)
  }

  // The target is created before anything else happens.
  lemma PassFromTarget(spec: Spec, sets: seq<ReplicaSet>)
    ensures Pass(spec, EnsureTarget(sets, spec.hash)) == Pass(spec, sets)
    ensures Distance(spec, EnsureTarget(sets, spec.hash)) == Distance(spec, sets)
  {
    hide ReadyPods, TotalRequested, Available, Find, ScaleUp, Drain, Retire, Scaled, Complete, Floor;
    var more := EnsureTarget(sets, spec.hash);
    assert EnsureTarget(more, spec.hash) == more;
    hide EnsureTarget;
  }

  lemma {:induction false} SameTotals(a: seq<ReplicaSet>, b: seq<ReplicaSet>)
    requires SameButPods(a, b)
    ensures TotalRequested(a) == TotalRequested(b)
  {
    if a != [] {
      assert b[0] == a[0].(pods := b[0].pods);
      assert forall i :: 0 <= i < |a[1..]| ==> a[1..][i] == a[i + 1] && b[1..][i] == b[i + 1];
      SameTotals(a[1..], b[1..]);
    }
  }

  lemma SettlingKeepsDistance(spec: Spec, a: seq<ReplicaSet>, b: seq<ReplicaSet>)
    requires SameButPods(a, b) && Find(a, spec.hash) < |a|
    ensures Distance(spec, b) == Distance(spec, a) && Find(b, spec.hash) == Find(a, spec.hash)
  {
    SameTotals(a, b);
    FindSame(a, b, spec.hash);
  }

  lemma RoundGetsCloser(spec: Spec, sets: seq<ReplicaSet>, next: seq<ReplicaSet>)
    requires CanMove(spec) && Settled(sets) && !Pass(spec, sets).1 && SameButPods(Pass(spec, sets).0, next)
    ensures Distance(spec, next) < Distance(spec, sets)
  {
    var more := EnsureTarget(sets, spec.hash);
    PassFromTarget(spec, sets);
    EnsureSettled(sets, spec.hash);
    hide Distance, Pass, Settled;
    PassGetsCloserIff(spec, more);
    var t := Find(more, spec.hash);
    PassKeepsTarget(spec, more);
    SettlingKeepsDistance(spec, Pass(spec, more).0, next);
  }

  lemma PassKeepsTarget(spec: Spec, sets: seq<ReplicaSet>)
    requires Find(sets, spec.hash) < |sets| && Settled(sets)
    ensures var after := Pass(spec, sets).0; |after| == |sets| && Find(after, spec.hash) == Find(sets, spec.hash)
  {
    PassCounts(spec, sets);
    SameTarget(sets, Pass(spec, sets).0, spec.hash) by { hide Pass; }
  }

  lemma {:induction false} RolloutEnds(spec: Spec, rounds: seq<seq<ReplicaSet>>)
    requires CanMove(spec)
    ensures Ends(spec, rounds)
    decreases |rounds|
  {
    if IsRounds(spec, rounds) && |rounds| > 0 && |rounds| > Distance(spec, rounds[0]) {
      if Pass(spec, rounds[0]).1 {
        assert CompleteAt(spec, rounds, 0);
      } else {
        hide Distance, Pass, Settled, CanMove;
        if |rounds| == 1 {
          DistanceZero(spec, rounds[0]);
        } else {
          RoundGetsCloser(spec, rounds[0], rounds[1]);
          RoundsFrom(spec, rounds);
          hide IsRounds;
          RolloutEnds(spec, rounds[1..]);
          var k: nat :| k <= Distance(spec, rounds[1..][0]) && CompleteAt(spec, rounds[1..], k);
          assert CompleteAt(spec, rounds, k + 1);
        }
      }
    }
  }

  lemma RoundsFrom(spec: Spec, rounds: seq<seq<ReplicaSet>>)
    requires IsRounds(spec, rounds) && |rounds| > 1
    ensures IsRounds(spec, rounds[1..])
  {
    hide Pass, Settled, SameButPods;
    var rest := rounds[1..];
    assert forall k :: 0 <= k < |rest| ==> rest[k] == rounds[k + 1];
  }

  lemma DistanceZero(spec: Spec, sets: seq<ReplicaSet>)
    requires CanMove(spec) && Settled(sets) && Distance(spec, sets) == 0
    ensures Pass(spec, sets).1
  {
    var more := EnsureTarget(sets, spec.hash);
    PassFromTarget(spec, sets);
    EnsureSettled(sets, spec.hash);
    hide Distance, Pass, Settled;
    if !Pass(spec, sets).1 {
      PassGetsCloserIff(spec, more);
    }
  }

  // Stuck counts stay as they are: the pass writes nothing and reports the rollout incomplete.
  lemma StuckStays(spec: Spec, sets: seq<ReplicaSet>)
    requires Find(sets, spec.hash) < |sets| && Settled(sets) && Stuck(spec, sets)
    ensures Pass(spec, sets).0 == sets && !Pass(spec, sets).1
  {
    var t := Find(sets, spec.hash);
    assert EnsureTarget(sets, spec.hash) == sets;
    assert SetSettled(sets[t]);
    CompleteOverCounts(spec, sets);
    PassStages(spec, sets);
    UpFacts(spec, sets);
    UpCounts(spec, sets);
    DrainCounts(spec, sets);
    hide Clamped, ReadyPods, Available, TotalRequested, Find, Up, DrainedDown, Drain, Retire, Complete, Scaled;
    assert Up(spec, sets)[t] == sets[t];
    assert Up(spec, sets) == sets;
  }

  // A full ReplicaSet of an earlier template, and the new one still empty.
  ghost function HalfWay(spec: Spec): seq<ReplicaSet> {
    [ReplicaSet(spec.hash + "'", 1, spec.desired, Serving(spec.desired)), ReplicaSet(spec.hash, 2, 0, map[])]
  }

  lemma HalfWayIsStuck(spec: Spec)
    requires !CanMove(spec)
    ensures Settled(HalfWay(spec)) && Stuck(spec, HalfWay(spec)) && Find(HalfWay(spec), spec.hash) == 1
  {
    var sets := HalfWay(spec);
    ServingCounts(sets[0], spec.desired);
    assert Alive(sets[1]) == {} && ReadyPods(sets[1]) == {};
    assert |sets[0].hash| == |spec.hash| + 1;
    assert sets[1].hash == spec.hash;
    SumOfTwo(sets);
  }

  // Every rollout over settling pods ends if and only if surge and unavailability are not both zero,
  // or nothing is wanted.
  lemma RolloutsEndIff(spec: Spec)
    ensures CanMove(spec) <==> forall rounds :: Ends(spec, rounds)
  {
    if CanMove(spec) {
      forall rounds ensures Ends(spec, rounds) { RolloutEnds(spec, rounds); }
    } else {
      var sets := HalfWay(spec);
      HalfWayIsStuck(spec);
      StuckStays(spec, sets);
      hide Distance, Pass, Settled, CanMove, HalfWay, Stuck, Find;
      var rounds := seq(Distance(spec, sets) + 1, _ => sets);
      assert IsRounds(spec, rounds);
      assert forall k: nat :: !CompleteAt(spec, rounds, k);
      assert !Ends(spec, rounds);
    }
  }

  // Once complete, a rollout stays complete and its target keeps exactly the desired count.
  lemma CompleteStays(spec: Spec, sets: seq<ReplicaSet>, next: seq<ReplicaSet>)
    requires Settled(sets) && Settled(next) && Pass(spec, sets).1 && SameButPods(Pass(spec, sets).0, next)
    ensures Pass(spec, next).1 && Distance(spec, next) == 0
  {
    var more := EnsureTarget(sets, spec.hash);
    PassFromTarget(spec, sets);
    EnsureSettled(sets, spec.hash);
    CompleteOverCounts(spec, more);
    PassCounts(spec, more);
    PassKeepsTarget(spec, more);
    var after := Pass(spec, more).0;
    SettlingKeepsDistance(spec, after, next);
    SameTotals(after, next);
    CompleteOverCounts(spec, next);
  }
}
