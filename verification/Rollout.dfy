/**
 * orchestrator/workloads.py: a Deployment that rolls between ReplicaSets by moving their replica
 * counts, and the ReplicaSet pass that creates and deletes pods to match one count.
 *
 * minReadySeconds is 0, so a pod is available when it is Ready. The ReplicaSets of a Deployment
 * are kept in revision order.
 */
module Rollout {
  import opened Wrappers

  datatype Phase = Pending | Scheduled | Running | Ready | CrashLoop | Succeeded | Failed

  datatype Pod = Pod(phase: Phase, createdAt: int)

  datatype ReplicaSet = ReplicaSet(hash: string, revision: nat, replicas: nat, pods: map<string, Pod>)

  // spec.replicas, the strategy, and the hash of spec.template.
  datatype Spec = Spec(desired: nat, maxSurge: nat, maxUnavailable: nat, hash: string)

  predicate Terminal(phase: Phase) {
    phase == Succeeded || phase == Failed
  }

  function Alive(rs: ReplicaSet): set<string> {
    set n | n in rs.pods && !Terminal(rs.pods[n].phase)
  }

  function ReadyPods(rs: ReplicaSet): set<string> {
    set n | n in rs.pods && rs.pods[n].phase == Ready
  }

  function Requested(rs: ReplicaSet): nat {
    rs.replicas
  }

  // Ready pods, short of those beyond the ReplicaSet's own count.
  function Clamped(rs: ReplicaSet): nat {
    if |ReadyPods(rs)| <= rs.replicas then |ReadyPods(rs)| else rs.replicas
  }

  function Sum(sets: seq<ReplicaSet>, f: ReplicaSet -> nat): nat {
    if sets == [] then 0 else f(sets[0]) + Sum(sets[1..], f)
  }

  function TotalRequested(sets: seq<ReplicaSet>): nat {
    Sum(sets, Requested)
  }

  function Available(sets: seq<ReplicaSet>): nat {
    Sum(sets, Clamped)
  }

  // desired - maxUnavailable, not below zero.
  function Floor(spec: Spec): nat {
    if spec.desired >= spec.maxUnavailable then spec.desired - spec.maxUnavailable else 0
  }

  function Scaled(sets: seq<ReplicaSet>, i: nat, replicas: nat): seq<ReplicaSet>
    requires i < |sets|
  {
    sets[i := sets[i].(replicas := replicas)]
  }

  // ---- the Deployment pass ----------------------------------------------------------------------

  // The first ReplicaSet of the template's hash.
  function Find(sets: seq<ReplicaSet>, hash: string): (t: nat)
    ensures t <= |sets|
    ensures t < |sets| ==> sets[t].hash == hash
    ensures forall i :: 0 <= i < t ==> sets[i].hash != hash
  {
    if sets == [] || sets[0].hash == hash then 0 else 1 + Find(sets[1..], hash)
  }

  function MaxRevision(sets: seq<ReplicaSet>): nat {
    if sets == [] then 0 else Max(sets[0].revision, MaxRevision(sets[1..]))
  }

  // _ensure_target: an existing ReplicaSet is selected again, else one is created with no replicas.
  function EnsureTarget(sets: seq<ReplicaSet>, hash: string): (r: seq<ReplicaSet>)
    ensures Find(r, hash) < |r|
  {
    if Find(sets, hash) < |sets| then sets
    else
      var r := sets + [ReplicaSet(hash, MaxRevision(sets) + 1, 0, map[])];
      assert r[|sets|].hash == hash;
      r
  }

  predicate InRevisionOrder(sets: seq<ReplicaSet>) {
    forall i, j :: 0 <= i < j < |sets| ==> sets[i].revision <= sets[j].revision
  }

  lemma {:induction false} MaxRevisionIsMax(sets: seq<ReplicaSet>, i: nat)
    requires i < |sets|
    ensures sets[i].revision <= MaxRevision(sets)
  {
    if i > 0 {
      MaxRevisionIsMax(sets[1..], i - 1);
    }
  }

  lemma {:induction false} MaxRevisionIsThere(sets: seq<ReplicaSet>)
    ensures MaxRevision(sets) == 0 || exists i :: 0 <= i < |sets| && sets[i].revision == MaxRevision(sets)
  {
    if sets != [] && sets[0].revision < MaxRevision(sets[1..]) {
      MaxRevisionIsThere(sets[1..]);
      var i :| 0 <= i < |sets[1..]| && sets[1..][i].revision == MaxRevision(sets[1..]);
      assert sets[i + 1].revision == MaxRevision(sets);
    } else if sets != [] {
      assert sets[0].revision == MaxRevision(sets);
    }
  }

  // A new ReplicaSet comes last in revision order, with the next revision; the others stay.
  lemma NewTargetComesLast(sets: seq<ReplicaSet>, hash: string)
    requires InRevisionOrder(sets)
    ensures
      var r := EnsureTarget(sets, hash);
      InRevisionOrder(r) && sets <= r &&
      (r != sets ==>
         |r| == |sets| + 1 && Find(r, hash) == |sets| && r[|sets|].replicas == 0 && r[|sets|].pods == map[] &&
         (forall i :: 0 <= i < |sets| ==> sets[i].revision < r[|sets|].revision) &&
         (r[|sets|].revision == 1 || exists i :: 0 <= i < |sets| && r[|sets|].revision == sets[i].revision + 1))
  {
    forall i | 0 <= i < |sets| ensures sets[i].revision <= MaxRevision(sets) { MaxRevisionIsMax(sets, i); }
    MaxRevisionIsThere(sets);
    hide MaxRevision;
    var r := EnsureTarget(sets, hash);
    if r != sets {
      assert forall i :: 0 <= i < |sets| ==> r[i] == sets[i] && r[i].hash != hash;
    }
  }

  // Step 1: scale the target up into the room left below desired + maxSurge.
  function ScaleUp(spec: Spec, sets: seq<ReplicaSet>, t: nat, total: nat, targetSpec: nat): (r: seq<ReplicaSet>)
    requires t < |sets|
    ensures |r| == |sets|
  {
    var room := spec.desired + spec.maxSurge - total;
    if room > 0 && targetSpec < spec.desired then
      Scaled(sets, t, targetSpec + Min(room, spec.desired - targetSpec))
    else sets
  }

  // Step 2: scale old ReplicaSets down, newest first, by what is available above the floor.
  function Drain(sets: seq<ReplicaSet>, t: nat, j: nat, surplus: int): (r: seq<ReplicaSet>)
    requires t < |sets| && j <= |sets|
    ensures |r| == |sets|
    decreases j
  {
    if j == 0 || surplus <= 0 then sets
    else if j - 1 == t || sets[j - 1].replicas == 0 then Drain(sets, t, j - 1, surplus)
    else
      var step := Min(sets[j - 1].replicas, surplus);
      Drain(Scaled(sets, j - 1, sets[j - 1].replicas - step), t, j - 1, surplus - step)
  }

  // Step 3: retire whatever is left, from index j on.
  function Retire(sets: seq<ReplicaSet>, t: nat, j: nat): (r: seq<ReplicaSet>)
    requires t < |sets| && j <= |sets|
    ensures |r| == |sets|
    decreases |sets| - j
  {
    if j == |sets| then sets
    else Retire(if j == t then sets else Scaled(sets, j, 0), t, j + 1)
  }

  // The first two steps over sets in which the target exists.
  function Up(spec: Spec, sets: seq<ReplicaSet>): (r: seq<ReplicaSet>)
    requires Find(sets, spec.hash) < |sets|
    ensures |r| == |sets|
  {
    var t := Find(sets, spec.hash);
    ScaleUp(spec, sets, t, TotalRequested(sets), sets[t].replicas)
  }

  function DrainedDown(spec: Spec, sets: seq<ReplicaSet>): (r: seq<ReplicaSet>)
    requires Find(sets, spec.hash) < |sets|
    ensures |r| == |sets|
  {
    var up := Up(spec, sets);
    Drain(up, Find(sets, spec.hash), |up|, Available(up) - Floor(spec))
  }

  // One whole pass with nothing in between; the result holds the new counts and the verdict.
  function Pass(spec: Spec, before: seq<ReplicaSet>): (seq<ReplicaSet>, bool) {
    var sets := EnsureTarget(before, spec.hash);
    var t := Find(sets, spec.hash);
    var targetAvailable := |ReadyPods(sets[t])|;
    var drained := DrainedDown(spec, sets);
    var retired := if targetAvailable >= spec.desired then Retire(drained, t, 0) else drained;
    var settled := if sets[t].replicas > spec.desired then Scaled(retired, t, spec.desired) else retired;
    (settled, Complete(spec, sets, t, targetAvailable))
  }

  // The verdict is computed from the counts before this pass and the pods seen in it.
  predicate Complete(spec: Spec, sets: seq<ReplicaSet>, t: nat, targetAvailable: nat) {
    targetAvailable >= spec.desired &&
    forall i :: 0 <= i < |sets| && i != t ==> sets[i].replicas == 0 && Alive(sets[i]) == {}
  }

  // ---- the ReplicaSet pass ------------------------------------------------------------------------

  // The order in which surplus pods go: not-ready before ready, then by creation time.
  predicate GoesFirst(a: Pod, b: Pod) {
    (a.phase != Ready && b.phase == Ready) || ((a.phase == Ready) == (b.phase == Ready) && a.createdAt <= b.createdAt)
  }

  // The surplus of a pass that read this count: as many as there are too many, none less useful left
  // behind.
  ghost predicate LeastUseful(rs: ReplicaSet, count: nat, surplus: set<string>) {
    surplus <= Alive(rs) && |surplus| == |Alive(rs)| - count &&
    forall d, k :: d in surplus && k in Alive(rs) - surplus ==> GoesFirst(rs.pods[d], rs.pods[k])
  }

  // One pod created under a name; one already there is left alone.
  function Created(rs: ReplicaSet, name: string, now: int): ReplicaSet {
    if name in rs.pods then rs else rs.(pods := rs.pods[name := Pod(Pending, now)])
  }

  function Without(rs: ReplicaSet, doomed: set<string>): ReplicaSet {
    rs.(pods := rs.pods - doomed)
  }

  function Moved(rs: ReplicaSet, name: string, phase: Phase): ReplicaSet
    requires name in rs.pods
  {
    rs.(pods := rs.pods[name := rs.pods[name].(phase := phase)])
  }

  // The pods of these names, if alive, have become Ready.
  function Turned(rs: ReplicaSet, names: set<string>): ReplicaSet {
    rs.(pods := map n | n in rs.pods ::
      if n in names && !Terminal(rs.pods[n].phase) then rs.pods[n].(phase := Ready) else rs.pods[n])
  }

  // A pass that listed the pods of one state and finds another when it writes: too few were listed,
  // and some are created under new names, fewer than asked if a name is taken; too many, and the
  // surplus of the listing goes.
  ghost predicate ReplicaSetPass(listed: ReplicaSet, there: ReplicaSet, after: ReplicaSet) {
    after == there.(pods := after.pods) &&
    if |Alive(listed)| < listed.replicas then
      (forall n :: n in there.pods ==> n in after.pods && after.pods[n] == there.pods[n]) &&
      (forall n :: n in after.pods && n !in there.pods ==> after.pods[n].phase == Pending) &&
      |Alive(after)| <= |Alive(there)| + listed.replicas - |Alive(listed)|
    else if |Alive(listed)| > listed.replicas then
      exists surplus :: LeastUseful(listed, listed.replicas, surplus) && after == Without(there, surplus)
    else after == there
  }

  // ---- sums ---------------------------------------------------------------------------------------

  lemma {:induction false} SumUpdate(sets: seq<ReplicaSet>, f: ReplicaSet -> nat, i: nat, rs: ReplicaSet)
    requires i < |sets|
    ensures Sum(sets[i := rs], f) == Sum(sets, f) - f(sets[i]) + f(rs)
    ensures Sum(sets, f) >= f(sets[i])
  {
    if i > 0 {
      assert sets[i := rs][1..] == sets[1..][i - 1 := rs];
      SumUpdate(sets[1..], f, i - 1, rs);
    } else {
      assert sets[i := rs][1..] == sets[1..];
    }
  }

  lemma {:induction false} SumAppend(sets: seq<ReplicaSet>, f: ReplicaSet -> nat, rs: ReplicaSet)
    ensures Sum(sets + [rs], f) == Sum(sets, f) + f(rs)
  {
    if sets == [] {
      assert sets + [rs] == [rs];
    } else {
      assert (sets + [rs])[1..] == sets[1..] + [rs];
      SumAppend(sets[1..], f, rs);
    }
  }

  // ---- what a ReplicaSet pass and a moving pod keep ---------------------------------------------

  lemma SetSizes<T>(a: set<T>, b: set<T>)
    requires a <= b
    ensures |a| <= |b| && |b - a| == |b| - |a|
  {
    assert b == a + (b - a);
  }

  // Pods count as alive in every phase but the two they can end in.
  lemma AliveIs(rs: ReplicaSet)
    ensures forall n :: n in Alive(rs) <==>
              n in rs.pods && rs.pods[n].phase in {Pending, Scheduled, Running, Ready, CrashLoop}
    ensures Alive(rs) == {} <==>
            forall n :: n in rs.pods ==> rs.pods[n].phase == Succeeded || rs.pods[n].phase == Failed
  {
    assert forall n :: n in rs.pods && (rs.pods[n].phase != Succeeded && rs.pods[n].phase != Failed) ==> n in Alive(rs);
  }

  lemma ReadyAreAlive(rs: ReplicaSet)
    ensures ReadyPods(rs) <= Alive(rs) && |ReadyPods(rs)| <= |Alive(rs)|
  {
    SetSizes(ReadyPods(rs), Alive(rs));
  }

  // Deleting costs no Ready pod, or leaves only Ready ones.
  ghost predicate SparesReady(rs: ReplicaSet, doomed: set<string>) {
    doomed * ReadyPods(rs) == {} || Alive(rs) - doomed <= ReadyPods(rs)
  }

  // As listed, the surplus spares the Ready pods: if any of them goes, every pod that stays is Ready.
  lemma ListingSpares(rs: ReplicaSet, count: nat, surplus: set<string>)
    requires LeastUseful(rs, count, surplus)
    ensures SparesReady(rs, surplus)
  {
    if d :| d in surplus * ReadyPods(rs) {
      forall k | k in Alive(rs) - surplus ensures k in ReadyPods(rs) { assert GoesFirst(rs.pods[d], rs.pods[k]); }
    }
  }

  lemma WithoutPods(rs: ReplicaSet, doomed: set<string>)
    ensures Alive(Without(rs, doomed)) == Alive(rs) - doomed
    ensures ReadyPods(Without(rs, doomed)) == ReadyPods(rs) - doomed
  {
  }

  // Of the pods that count, deleting one costs exactly a Ready pod that is not one too many.
  lemma DeleteKeepsClampedIff(rs: ReplicaSet, d: string)
    ensures Clamped(Without(rs, {d})) == Clamped(rs) <==> d in ReadyPods(rs) ==> |ReadyPods(rs)| > rs.replicas
    ensures Clamped(rs) - 1 <= Clamped(Without(rs, {d})) <= Clamped(rs)
  {
    WithoutPods(rs, {d});
    hide Alive, ReadyPods;
    if d in ReadyPods(rs) {
      SetSizes({d}, ReadyPods(rs));
    } else {
      assert ReadyPods(rs) - {d} == ReadyPods(rs);
    }
  }

  lemma CountsKeptIff(ready: set<string>, alive: set<string>, doomed: set<string>, n: nat)
    requires ready <= alive && doomed <= alive && |alive - doomed| == n
    ensures
      Min(|ready - doomed|, n) == Min(|ready|, n) <==> doomed * ready == {} || alive - doomed <= ready
  {
    SetSizes(ready - doomed, alive - doomed);
    SetSizes(ready - doomed, ready);
    if doomed * ready == {} {
      assert ready - doomed == ready;
    } else if alive - doomed <= ready {
      assert ready - doomed == alive - doomed;
    } else {
      var d, k :| d in doomed * ready && k in alive - doomed && k !in ready;
      SetSizes((ready - doomed) + {d}, ready);
      SetSizes((ready - doomed) + {k}, alive - doomed);
    }
  }

  // The surplus of a listing costs none of the pods that count when it goes if and only if no listed
  // pod is Ready by then while one that stays is not.
  lemma SurplusKeepsClampedIff(listed: ReplicaSet, there: ReplicaSet, surplus: set<string>)
    requires |Alive(listed)| > listed.replicas && LeastUseful(listed, listed.replicas, surplus)
    requires Alive(there) == Alive(listed) && there.replicas == listed.replicas
    ensures |Alive(Without(there, surplus))| == there.replicas
    ensures Clamped(Without(there, surplus)) == Clamped(there) <==> SparesReady(there, surplus)
  {
    WithoutPods(there, surplus);
    ReadyAreAlive(there);
    SetSizes(surplus, Alive(there));
    hide Alive, ReadyPods;
    CountsKeptIff(ReadyPods(there), Alive(there), surplus, there.replicas);
  }

  lemma TurnedFacts(rs: ReplicaSet, names: set<string>)
    ensures Alive(Turned(rs, names)) == Alive(rs) && ReadyPods(rs) <= ReadyPods(Turned(rs, names))
    ensures Clamped(rs) <= Clamped(Turned(rs, names))
  {
    SetSizes(ReadyPods(rs), ReadyPods(Turned(rs, names)));
  }

  // An undisturbed pass costs no pod that counts, and leaves no more than were asked for.
  lemma PassKeepsClamped(rs: ReplicaSet, after: ReplicaSet)
    requires ReplicaSetPass(rs, rs, after)
    ensures Clamped(after) == Clamped(rs) && |Alive(after)| <= rs.replicas
  {
    if |Alive(rs)| < rs.replicas {
      assert ReadyPods(after) == ReadyPods(rs);
    } else if |Alive(rs)| > rs.replicas {
      var surplus :| LeastUseful(rs, rs.replicas, surplus) && after == Without(rs, surplus);
      ListingSpares(rs, rs.replicas, surplus);
      SurplusKeepsClampedIff(rs, rs, surplus);
    }
  }

  lemma MoveFacts(rs: ReplicaSet, n: string, phase: Phase)
    requires n in Alive(rs) && n !in ReadyPods(rs) && !Terminal(phase)
    ensures Alive(Moved(rs, n, phase)) == Alive(rs)
    ensures ReadyPods(Moved(rs, n, phase)) == if phase == Ready then ReadyPods(rs) + {n} else ReadyPods(rs)
    ensures Clamped(Moved(rs, n, phase)) >= Clamped(rs)
  {
    SetSizes(ReadyPods(rs), ReadyPods(Moved(rs, n, phase)));
  }
}
