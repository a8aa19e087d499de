/**
 * Availability and surge while the Deployment pass, the ReplicaSet passes and the pods interleave.
 *
 * Every pass takes one step per store access, so anything else can happen between its reads and its
 * writes, and it can be cut short after any of them. There is one worker per key
 * (WorkQueueTheorems.OneWorkerPerKey): one Deployment pass, and one pass per ReplicaSet.
 */
module RolloutSafety {
  import opened Wrappers
  import opened Rollout

  // Where a Deployment pass stands and what it remembers from its first reads: the target, the
  // target's Ready pods and its count.
  datatype Stage =
    | Idle
    | Snapped(t: nat, available: nat, replicas: nat, total: nat)
    | Raised(t: nat, available: nat, replicas: nat)
    | Draining(t: nat, available: nat, replicas: nat, j: nat, surplus: int)
    | Retiring(t: nat, available: nat, replicas: nat, j: nat)
    | Closing(t: nat, available: nat, replicas: nat)

  // Where a ReplicaSet pass stands: it has read the count, it has pods left to create, or it has
  // listed pods left to delete.
  datatype Task = Counting(count: nat) | Creating(missing: nat) | Deleting(doomed: set<string>)

  datatype System = System(sets: seq<ReplicaSet>, stage: Stage, tasks: map<nat, Task>)

  datatype Action =
    | DeploymentMoves
    | DeploymentStops
    | Read(i: nat)
    | List(i: nat, surplus: set<string>)
    | Create(i: nat, name: string, now: int)
    | Delete(i: nat, name: string)
    | PassStops(i: nat)
    | PodMoves(i: nat, name: string, phase: Phase)

  ghost predicate StageInRange(s: System) {
    match s.stage
    case Idle => true
    case Draining(t, _, _, j, _) => t < |s.sets| && j <= |s.sets|
    case Retiring(t, _, _, j) => t < |s.sets| && j <= |s.sets|
    case _ => s.stage.t < |s.sets|
  }

  // The next store access of the Deployment pass.
  ghost function DeploymentStep(spec: Spec, s: System): System
    requires StageInRange(s)
  {
    match s.stage
    case Idle =>
      var sets := EnsureTarget(s.sets, spec.hash);
      var t := Find(sets, spec.hash);
      s.(sets := sets, stage := Snapped(t, |ReadyPods(sets[t])|, sets[t].replicas, TotalRequested(sets)))
    case Snapped(t, available, replicas, total) =>
      s.(sets := ScaleUp(spec, s.sets, t, total, replicas), stage := Raised(t, available, replicas))
    case Raised(t, available, replicas) =>
      s.(stage := Draining(t, available, replicas, |s.sets|, Available(s.sets) - Floor(spec)))
    case Draining(t, available, replicas, j, surplus) =>
      if j == 0 || surplus <= 0 then
        s.(stage := if available >= spec.desired then Retiring(t, available, replicas, 0)
                    else Closing(t, available, replicas))
      else if j - 1 == t || s.sets[j - 1].replicas == 0 then
        s.(stage := Draining(t, available, replicas, j - 1, surplus))
      else
        var step := Min(s.sets[j - 1].replicas, surplus);
        s.(sets := Scaled(s.sets, j - 1, s.sets[j - 1].replicas - step),
           stage := Draining(t, available, replicas, j - 1, surplus - step))
    case Retiring(t, available, replicas, j) =>
      if j == |s.sets| then s.(stage := Closing(t, available, replicas))
      else s.(sets := if j == t then s.sets else Scaled(s.sets, j, 0), stage := Retiring(t, available, replicas, j + 1))
    case Closing(t, available, replicas) =>
      s.(sets := if replicas > spec.desired then Scaled(s.sets, t, spec.desired) else s.sets, stage := Idle)
  }

  ghost predicate Counts(s: System, i: nat) {
    i in s.tasks && s.tasks[i].Counting?
  }

  ghost predicate Creates(s: System, i: nat) {
    i in s.tasks && s.tasks[i].Creating? && s.tasks[i].missing > 0
  }

  ghost predicate Deletes(s: System, i: nat) {
    i in s.tasks && s.tasks[i].Deleting?
  }

  ghost predicate Enabled(s: System, a: Action) {
    match a
    case DeploymentMoves => StageInRange(s)
    case DeploymentStops => true
    case PassStops(i) => true
    case Read(i) => i < |s.sets| && i !in s.tasks
    case List(i, surplus) =>
      i < |s.sets| && Counts(s, i) &&
      (|Alive(s.sets[i])| > s.tasks[i].count ==> LeastUseful(s.sets[i], s.tasks[i].count, surplus))
    case Create(i, name, now) => i < |s.sets| && Creates(s, i)
    case Delete(i, name) => i < |s.sets| && Deletes(s, i) && name in s.tasks[i].doomed
    // Nothing crashes, is evicted or stops being Ready.
    case PodMoves(i, name, phase) =>
      i < |s.sets| && name in Alive(s.sets[i]) && name !in ReadyPods(s.sets[i]) && !Terminal(phase)
  }

  ghost function Step(spec: Spec, s: System, a: Action): System
    requires Enabled(s, a)
  {
    match a
    case DeploymentMoves => DeploymentStep(spec, s)
    case DeploymentStops => s.(stage := Idle)
    case PassStops(i) => s.(tasks := s.tasks - {i})
    case Read(i) => s.(tasks := s.tasks[i := Counting(s.sets[i].replicas)])
    case List(i, surplus) =>
      var alive, count := |Alive(s.sets[i])|, s.tasks[i].count;
      s.(tasks := if alive < count then s.tasks[i := Creating(count - alive)]
                  else if alive > count then s.tasks[i := Deleting(surplus)]
                  else s.tasks - {i})
    case Create(i, name, now) => Updated(s, i, Created(s.sets[i], name, now), Creating(s.tasks[i].missing - 1))
    case Delete(i, name) => Updated(s, i, Without(s.sets[i], {name}), Deleting(s.tasks[i].doomed - {name}))
    case PodMoves(i, name, phase) => s.(sets := s.sets[i := Moved(s.sets[i], name, phase)])
  }

  ghost function Updated(s: System, i: nat, rs: ReplicaSet, task: Task): System
    requires i < |s.sets|
  {
    s.(sets := s.sets[i := rs], tasks := s.tasks[i := task])
  }

  // No pod that a pass has listed to go turns Ready while one it leaves is not.
  ghost predicate Calm(s: System, a: Action) {
    a.PodMoves? && a.phase == Ready && a.i < |s.sets| && Deletes(s, a.i) && a.name in s.tasks[a.i].doomed ==>
      Alive(s.sets[a.i]) - s.tasks[a.i].doomed <= ReadyPods(s.sets[a.i])
  }

  // A run from any ReplicaSets, with every pass at its beginning.
  ghost predicate IsRun(spec: Spec, run: seq<System>, actions: seq<Action>) {
    |run| == |actions| + 1 && run[0].stage == Idle && run[0].tasks == map[] &&
    forall k :: 0 <= k < |actions| ==> Enabled(run[k], actions[k]) && run[k + 1] == Step(spec, run[k], actions[k])
  }

  ghost predicate CalmRun(run: seq<System>, actions: seq<Action>) {
    forall k :: 0 <= k < |actions| && k < |run| ==> Calm(run[k], actions[k])
  }

  // ---- sums ---------------------------------------------------------------------------------------

  lemma {:induction false} FindUpdate(sets: seq<ReplicaSet>, hash: string, i: nat, rs: ReplicaSet)
    requires i < |sets| && rs.hash == sets[i].hash
    ensures Find(sets[i := rs], hash) == Find(sets, hash)
  {
    if i > 0 {
      assert sets[i := rs][1..] == sets[1..][i - 1 := rs];
      FindUpdate(sets[1..], hash, i - 1, rs);
    } else {
      assert sets[i := rs][1..] == sets[1..];
    }
  }

  // What rescaling one ReplicaSet does to the sums.
  lemma ScaledSums(sets: seq<ReplicaSet>, i: nat, replicas: nat)
    requires i < |sets|
    ensures TotalRequested(Scaled(sets, i, replicas)) == TotalRequested(sets) - sets[i].replicas + replicas
    ensures Available(Scaled(sets, i, replicas)) ==
            Available(sets) - Clamped(sets[i]) + Min(|ReadyPods(sets[i])|, replicas)
    ensures forall hash :: Find(Scaled(sets, i, replicas), hash) == Find(sets, hash)
    ensures Available(sets) >= Clamped(sets[i]) && TotalRequested(sets) >= sets[i].replicas
  {
    var rs := sets[i].(replicas := replicas);
    SumUpdate(sets, Clamped, i, rs);
    SumUpdate(sets, Requested, i, rs);
    assert ReadyPods(rs) == ReadyPods(sets[i]);
    forall hash ensures Find(Scaled(sets, i, replicas), hash) == Find(sets, hash) { FindUpdate(sets, hash, i, rs); }
  }

  // A new target adds nothing to the sums.
  lemma EnsureSums(sets: seq<ReplicaSet>, hash: string)
    ensures
      var more := EnsureTarget(sets, hash);
      Available(more) == Available(sets) && TotalRequested(more) == TotalRequested(sets) && sets <= more &&
      (more != sets ==>
         |more| == |sets| + 1 && Find(more, hash) == |sets| && |Alive(more[|sets|])| == 0)
  {
    var more := EnsureTarget(sets, hash);
    if more != sets {
      assert Alive(more[|sets|]) == {} && ReadyPods(more[|sets|]) == {};
      SumAppend(sets, Clamped, more[|sets|]);
      SumAppend(sets, Requested, more[|sets|]);
      assert forall i :: 0 <= i < |sets| ==> more[i].hash != hash;
    }
  }

  // ---- the surge limit ----------------------------------------------------------------------------

  // The counts are what the pass read of them where it goes by them.
  ghost predicate CountsSeen(spec: Spec, s: System) {
    StageInRange(s) &&
    (!s.stage.Idle? && s.stage.replicas > spec.desired ==> s.sets[s.stage.t].replicas == s.stage.replicas) &&
    (s.stage.Snapped? ==>
       s.sets[s.stage.t].replicas == s.stage.replicas && s.stage.total == TotalRequested(s.sets))
  }

  // A total never rises above where it was or the surge limit.
  ghost predicate WithinSurge(spec: Spec, before: nat, after: nat) {
    after <= Max(before, spec.desired + spec.maxSurge)
  }

  lemma DeploymentWithinSurge(spec: Spec, s: System)
    requires CountsSeen(spec, s)
    ensures CountsSeen(spec, DeploymentStep(spec, s))
    ensures WithinSurge(spec, TotalRequested(s.sets), TotalRequested(DeploymentStep(spec, s).sets))
  {
    hide Available, TotalRequested, ReadyPods, Find, Floor, EnsureTarget;
    match s.stage
    case Idle => EnsureSums(s.sets, spec.hash);
    case Snapped(t, available, replicas, total) =>
      var room := spec.desired + spec.maxSurge - total;
      if room > 0 && replicas < spec.desired {
        ScaledSums(s.sets, t, replicas + Min(room, spec.desired - replicas));
      }
    case Raised(_, _, _) =>
    case Draining(t, _, _, j, surplus) =>
      if j > 0 && surplus > 0 && j - 1 != t && s.sets[j - 1].replicas != 0 {
        ScaledSums(s.sets, j - 1, s.sets[j - 1].replicas - Min(s.sets[j - 1].replicas, surplus));
      }
    case Retiring(t, _, _, j) =>
      if j < |s.sets| && j != t {
        ScaledSums(s.sets, j, 0);
      }
    case Closing(t, _, replicas) =>
      if replicas > spec.desired {
        ScaledSums(s.sets, t, spec.desired);
      }
  }

  lemma StepWithinSurge(spec: Spec, s: System, a: Action)
    requires CountsSeen(spec, s) && Enabled(s, a)
    ensures CountsSeen(spec, Step(spec, s, a))
    ensures WithinSurge(spec, TotalRequested(s.sets), TotalRequested(Step(spec, s, a).sets))
  {
    hide DeploymentStep, TotalRequested, Alive, ReadyPods, LeastUseful;
    if a.DeploymentMoves? {
      DeploymentWithinSurge(spec, s);
    } else {
      var s' := Step(spec, s, a);
      if s'.sets != s.sets {
        OthersKeepTotal(s.sets, a.i, s'.sets[a.i]);
      }
    }
  }

  lemma OthersKeepTotal(sets: seq<ReplicaSet>, i: nat, rs: ReplicaSet)
    requires i < |sets| && rs.replicas == sets[i].replicas
    ensures TotalRequested(sets[i := rs]) == TotalRequested(sets)
  {
    SumUpdate(sets, Requested, i, rs);
  }

  // The replicas asked for never exceed the surge limit, or where they started if that was more.
  lemma {:induction false} AlwaysWithinSurge(spec: Spec, run: seq<System>, actions: seq<Action>, n: nat)
    requires IsRun(spec, run, actions) && n < |run|
    ensures CountsSeen(spec, run[n])
    ensures TotalRequested(run[n].sets) <= Max(TotalRequested(run[0].sets), spec.desired + spec.maxSurge)
  {
    hide Enabled, Step, TotalRequested;
    if n > 0 {
      hide CountsSeen;
      AlwaysWithinSurge(spec, run, actions, n - 1);
      StepWithinSurge(spec, run[n - 1], actions[n - 1]);
    }
  }

  lemma RolloutKeepsSurge(spec: Spec, run: seq<System>, actions: seq<Action>, n: nat)
    requires IsRun(spec, run, actions) && n < |run|
    ensures TotalRequested(run[n].sets) <= Max(TotalRequested(run[0].sets), spec.desired + spec.maxSurge)
  {
    AlwaysWithinSurge(spec, run, actions, n);
  }

  // ---- the floor: what is kept --------------------------------------------------------------------

  ghost function TaskOf(s: System, i: nat): Option<Task> {
    if i in s.tasks then Some(s.tasks[i]) else None
  }

  // The count covers the pods, also those a pass under way will create.
  ghost predicate Covered(rs: ReplicaSet, task: Option<Task>) {
    |Alive(rs)| <= rs.replicas &&
    match task
    case None => true
    case Some(Counting(count)) => count <= rs.replicas
    case Some(Creating(missing)) => |Alive(rs)| + missing <= rs.replicas
    case Some(Deleting(_)) => true
  }

  // The target's count covers its pods, up to the desired number: nothing of it is left to drain
  // from an earlier rollout. A target that does not exist yet is created without pods.
  ghost predicate Drained(spec: Spec, rs: ReplicaSet, task: Option<Task>) {
    Covered(rs, task) || spec.desired <= rs.replicas
  }

  ghost predicate TargetDrained(spec: Spec, s: System) {
    var t := Find(s.sets, spec.hash);
    t < |s.sets| ==> Drained(spec, s.sets[t], TaskOf(s, t))
  }

  // What is listed to go can go: enough stays, and it costs no Ready pod that counts.
  ghost predicate Spares(rs: ReplicaSet, doomed: set<string>) {
    doomed <= Alive(rs) && (doomed == {} || (|Alive(rs) - doomed| >= rs.replicas && SparesReady(rs, doomed)))
  }

  ghost predicate TaskKept(rs: ReplicaSet, task: Option<Task>) {
    match task
    case None => true
    case Some(Counting(count)) => rs.replicas <= count || |Alive(rs)| <= count
    case Some(Creating(_)) => true
    case Some(Deleting(doomed)) => Spares(rs, doomed)
  }

  ghost predicate TasksKept(s: System) {
    forall i :: i in s.tasks ==> i < |s.sets| && TaskKept(s.sets[i], Some(s.tasks[i]))
  }

  // What the pass saw of the target still holds where it matters.
  ghost predicate TargetSeen(spec: Spec, sets: seq<ReplicaSet>, t: nat, available: nat) {
    t == Find(sets, spec.hash) && t < |sets| &&
    (available >= spec.desired ==> Clamped(sets[t]) >= spec.desired)
  }

  ghost predicate StageKept(spec: Spec, low: nat, s: System) {
    s.stage.Idle? ||
    (TargetSeen(spec, s.sets, s.stage.t, s.stage.available) &&
     (s.stage.Draining? ==> Available(s.sets) >= low + Max(s.stage.surplus, 0)) &&
     (s.stage.Retiring? ==> s.stage.available >= spec.desired))
  }

  ghost predicate Kept(spec: Spec, low: nat, s: System) {
    low <= Floor(spec) && Available(s.sets) >= low && TargetDrained(spec, s) && TasksKept(s) &&
    StageKept(spec, low, s)
  }

  // ---- a ReplicaSet pass or a pod moves -------------------------------------------------------------

  // One ReplicaSet and the pass on it change without losing what counts; counts stay.
  lemma OneKept(spec: Spec, low: nat, s: System, s': System, i: nat)
    requires Kept(spec, low, s) && i < |s.sets| && |s'.sets| == |s.sets| && s'.stage == s.stage
    requires s'.sets == s.sets[i := s'.sets[i]]
    requires forall k :: k != i ==> (k in s'.tasks <==> k in s.tasks) && (k in s.tasks ==> s'.tasks[k] == s.tasks[k])
    requires s'.sets[i].hash == s.sets[i].hash && s'.sets[i].replicas == s.sets[i].replicas
    requires Clamped(s'.sets[i]) >= Clamped(s.sets[i]) && TaskKept(s'.sets[i], TaskOf(s', i))
    requires Covered(s.sets[i], TaskOf(s, i)) ==> Covered(s'.sets[i], TaskOf(s', i))
    ensures Kept(spec, low, s')
  {
    hide Clamped, Floor, Covered, TaskKept;
    FindUpdate(s.sets, spec.hash, i, s'.sets[i]);
    SumUpdate(s.sets, Clamped, i, s'.sets[i]);
    hide Find;
    forall k | k in s'.tasks ensures k < |s'.sets| && TaskKept(s'.sets[k], Some(s'.tasks[k])) {
      assert k != i ==> s'.sets[k] == s.sets[k];
      assert k == i ==> TaskOf(s', i) == Some(s'.tasks[k]);
    }
  }

  lemma ListKept(rs: ReplicaSet, count: nat, surplus: set<string>)
    requires TaskKept(rs, Some(Counting(count)))
    requires |Alive(rs)| > count ==> LeastUseful(rs, count, surplus)
    ensures |Alive(rs)| > count ==> TaskKept(rs, Some(Deleting(surplus)))
    ensures |Alive(rs)| < count && Covered(rs, Some(Counting(count))) ==>
              Covered(rs, Some(Creating(count - |Alive(rs)|)))
  {
    hide Alive, GoesFirst, SparesReady;
    if |Alive(rs)| > count {
      ListingSpares(rs, count, surplus);
      SetSizes(surplus, Alive(rs));
    }
  }

  lemma CreateFacts(rs: ReplicaSet, name: string, now: int)
    ensures Clamped(Created(rs, name, now)) == Clamped(rs) && |Alive(Created(rs, name, now))| <= |Alive(rs)| + 1
  {
    CreateOne(rs, name, now);
    hide Created, Alive, ReadyPods;
  }

  lemma CreateOne(rs: ReplicaSet, name: string, now: int)
    ensures Created(rs, name, now).replicas == rs.replicas
    ensures ReadyPods(Created(rs, name, now)) == ReadyPods(rs)
    ensures |Alive(Created(rs, name, now))| <= |Alive(rs)| + 1
  {
    if name !in rs.pods {
      assert Alive(Created(rs, name, now)) == Alive(rs) + {name};
    }
  }

  // Of Ready pods that may go there is one more than needed.
  lemma OneToSpare(ready: set<string>, alive: set<string>, doomed: set<string>, d: string)
    requires alive - doomed <= ready && d in doomed * ready
    ensures |ready| > |alive - doomed|
  {
    SetSizes((alive - doomed) + {d}, ready);
  }

  lemma DeleteKept(rs: ReplicaSet, doomed: set<string>, d: string)
    requires Spares(rs, doomed) && d in doomed
    ensures Spares(Without(rs, {d}), doomed - {d}) && Clamped(Without(rs, {d})) == Clamped(rs)
    ensures |Alive(Without(rs, {d}))| <= |Alive(rs)|
  {
    hide Alive, ReadyPods, Clamped;
    var after := Without(rs, {d});
    WithoutPods(rs, {d});
    DeleteKeepsClampedIff(rs, d);
    assert Alive(after) - (doomed - {d}) == Alive(rs) - doomed;
    SetSizes(Alive(after), Alive(rs));
    if d in ReadyPods(rs) {
      assert d in doomed * ReadyPods(rs);
      OneToSpare(ReadyPods(rs), Alive(rs), doomed, d);
    }
  }

  lemma MoveKept(rs: ReplicaSet, doomed: set<string>, n: string, phase: Phase)
    requires Spares(rs, doomed) && n in Alive(rs) && n !in ReadyPods(rs) && !Terminal(phase)
    requires phase == Ready && n in doomed ==> Alive(rs) - doomed <= ReadyPods(rs)
    ensures Spares(Moved(rs, n, phase), doomed)
  {
    MoveFacts(rs, n, phase);
  }

  lemma TaskAt(spec: Spec, low: nat, s: System, i: nat)
    requires Kept(spec, low, s) && i < |s.sets|
    ensures TaskKept(s.sets[i], TaskOf(s, i))
  {
    hide Spares, TargetDrained, StageKept;
  }

  lemma StepKept(spec: Spec, low: nat, s: System, a: Action)
    requires Kept(spec, low, s) && Enabled(s, a) && Calm(s, a)
    requires !a.DeploymentMoves? && !a.DeploymentStops? && !a.PassStops?
    ensures Kept(spec, low, Step(spec, s, a))
  {
    hide Kept, Alive, ReadyPods, Clamped, Spares, LeastUseful;
    var i, s' := a.i, Step(spec, s, a);
    var rs := s.sets[i];
    TaskAt(spec, low, s, i);
    match a
    case Read(_) =>
      assert s.sets[i := rs] == s.sets;
      OneKept(spec, low, s, s', i);
    case List(_, surplus) =>
      assert s.sets[i := rs] == s.sets;
      ListKept(rs, s.tasks[i].count, surplus);
      OneKept(spec, low, s, s', i);
    case Create(_, name, now) =>
      CreateFacts(rs, name, now);
      OneKept(spec, low, s, s', i);
    case Delete(_, name) =>
      DeleteKept(rs, s.tasks[i].doomed, name);
      OneKept(spec, low, s, s', i);
    case PodMoves(_, name, phase) =>
      MoveFacts(rs, name, phase);
      if Deletes(s, i) {
        MoveKept(rs, s.tasks[i].doomed, name, phase);
      }
      OneKept(spec, low, s, s', i);
  }

  lemma StopKept(spec: Spec, low: nat, s: System, i: nat)
    requires Kept(spec, low, s)
    ensures Kept(spec, low, s.(tasks := s.tasks - {i})) && Kept(spec, low, s.(stage := Idle))
  {
    hide Alive, Clamped, Find, Floor, TaskKept;
  }

  // ---- the Deployment pass moves ------------------------------------------------------------------

  lemma TaskScaled(rs: ReplicaSet, task: Option<Task>, replicas: nat)
    requires TaskKept(rs, task) && (replicas <= rs.replicas || Covered(rs, task))
    ensures TaskKept(rs.(replicas := replicas), task)
    ensures Covered(rs, task) && replicas >= rs.replicas ==> Covered(rs.(replicas := replicas), task)
  {
    var after := rs.(replicas := replicas);
    assert Alive(after) == Alive(rs) && ReadyPods(after) == ReadyPods(rs);
    hide Alive, ReadyPods;
    if task.Some? && task.value.Deleting? && task.value.doomed != {} {
      SetSizes(task.value.doomed, Alive(rs));
    }
  }

  // A count goes down, or it is the target's and goes up to the desired number.
  lemma ScaledKept(spec: Spec, low: nat, s: System, i: nat, replicas: nat, stage: Stage)
    requires Kept(spec, low, s) && i < |s.sets|
    requires i != Find(s.sets, spec.hash) ==> replicas <= s.sets[i].replicas
    requires i == Find(s.sets, spec.hash) ==>
               s.sets[i].replicas <= replicas <= spec.desired || spec.desired <= replicas <= s.sets[i].replicas
    ensures
      var s' := s.(sets := Scaled(s.sets, i, replicas), stage := stage);
      TasksKept(s') && TargetDrained(spec, s')
  {
    hide Alive, TaskKept, Covered, StageKept, Available, Floor, Clamped;
    var s' := s.(sets := Scaled(s.sets, i, replicas), stage := stage);
    FindUpdate(s.sets, spec.hash, i, s'.sets[i]);
    hide Find;
    TaskAt(spec, low, s, i);
    if replicas != s.sets[i].replicas {
      TaskScaled(s.sets[i], TaskOf(s, i), replicas);
    } else {
      assert s'.sets == s.sets;
    }
    forall k | k in s'.tasks ensures k < |s'.sets| && TaskKept(s'.sets[k], Some(s'.tasks[k])) {
      assert k != i ==> s'.sets[k] == s.sets[k];
    }
  }

  lemma BeginKept(spec: Spec, low: nat, s: System)
    requires Kept(spec, low, s) && s.stage.Idle?
    ensures Kept(spec, low, DeploymentStep(spec, s))
  {
    var sets := EnsureTarget(s.sets, spec.hash);
    var s' := DeploymentStep(spec, s);
    EnsureSums(s.sets, spec.hash);
    hide EnsureTarget, TaskKept;
    assert TasksKept(s') by { hide Find, Covered; }
    var t := Find(sets, spec.hash);
    ReadyAreAlive(sets[t]);
    hide Find, Alive, ReadyPods;
    assert sets != s.sets ==> TaskOf(s', t) == None;
    assert sets == s.sets ==> TaskOf(s', t) == TaskOf(s, t);
  }

  lemma RaiseKept(spec: Spec, low: nat, s: System)
    requires Kept(spec, low, s) && CountsSeen(spec, s) && s.stage.Snapped?
    ensures Kept(spec, low, DeploymentStep(spec, s))
  {
    hide TasksKept, TargetDrained, Find, Floor, Available, ReadyPods;
    var t, total, replicas := s.stage.t, s.stage.total, s.stage.replicas;
    var room := spec.desired + spec.maxSurge - total;
    var s' := DeploymentStep(spec, s);
    if room > 0 && replicas < spec.desired {
      var more := replicas + Min(room, spec.desired - replicas);
      ScaledSums(s.sets, t, more);
      ScaledKept(spec, low, s, t, more, s'.stage);
    } else {
      StageMoves(spec, low, s, s'.stage);
    }
  }

  // Tasks and target do not depend on the stage.
  lemma StageMoves(spec: Spec, low: nat, s: System, stage: Stage)
    requires Kept(spec, low, s) && StageKept(spec, low, s.(stage := stage))
    ensures Kept(spec, low, s.(stage := stage))
  {
    hide StageKept, Find, Covered, TaskKept, Available, Floor;
  }

  lemma DrainKept(spec: Spec, low: nat, s: System)
    requires Kept(spec, low, s) && CountsSeen(spec, s) && (s.stage.Raised? || s.stage.Draining?)
    ensures Kept(spec, low, DeploymentStep(spec, s))
  {
    hide TasksKept, TargetDrained, ReadyPods, Alive, Find, TotalRequested, Available, Floor;
    var s' := DeploymentStep(spec, s);
    if s'.sets != s.sets {
      var i := s.stage.j - 1;
      var left := s.sets[i].replicas - Min(s.sets[i].replicas, s.stage.surplus);
      ScaledSums(s.sets, i, left);
      ScaledKept(spec, low, s, i, left, s'.stage);
    } else {
      StageMoves(spec, low, s, s'.stage);
      assert s' == s.(stage := s'.stage);
    }
  }

  lemma RetireKept(spec: Spec, low: nat, s: System)
    requires Kept(spec, low, s) && CountsSeen(spec, s) && (s.stage.Retiring? || s.stage.Closing?)
    ensures Kept(spec, low, DeploymentStep(spec, s))
  {
    hide TasksKept, TargetDrained, ReadyPods, Alive, Find, TotalRequested, Available, Floor;
    var t := s.stage.t;
    var s' := DeploymentStep(spec, s);
    if s.stage.Retiring? && s.stage.j < |s.sets| && s.stage.j != t {
      ScaledSums(s.sets, s.stage.j, 0);
      ScaledSums(s'.sets, t, 0);
      ScaledKept(spec, low, s, s.stage.j, 0, s'.stage);
      FloorIsBelow(spec);
    } else if s.stage.Closing? && s.stage.replicas > spec.desired {
      ScaledSums(s.sets, t, spec.desired);
      ScaledSums(s'.sets, t, 0);
      ScaledKept(spec, low, s, t, spec.desired, s'.stage);
      FloorIsBelow(spec);
    } else {
      StageMoves(spec, low, s, s'.stage);
      assert s' == s.(stage := s'.stage);
    }
  }

  lemma FloorIsBelow(spec: Spec)
    ensures Floor(spec) <= spec.desired
  {
  }

  // Every calm step keeps what the floor rests on.
  lemma NextKept(spec: Spec, low: nat, s: System, a: Action)
    requires Kept(spec, low, s) && CountsSeen(spec, s) && Enabled(s, a) && Calm(s, a)
    ensures Kept(spec, low, Step(spec, s, a))
  {
    hide Kept, CountsSeen, Calm, LeastUseful, DeploymentStep;
    if a.DeploymentMoves? {
      match s.stage
      case Idle => BeginKept(spec, low, s);
      case Snapped(_, _, _, _) => RaiseKept(spec, low, s);
      case Raised(_, _, _) => DrainKept(spec, low, s);
      case Draining(_, _, _, _, _) => DrainKept(spec, low, s);
      case Retiring(_, _, _, _) => RetireKept(spec, low, s);
      case Closing(_, _, _) => RetireKept(spec, low, s);
    } else if a.DeploymentStops? {
      StopKept(spec, low, s, 0);
    } else if a.PassStops? {
      StopKept(spec, low, s, a.i);
    } else {
      StepKept(spec, low, s, a);
    }
  }

  lemma {:induction false} RolloutKept(spec: Spec, run: seq<System>, actions: seq<Action>, n: nat)
    requires IsRun(spec, run, actions) && CalmRun(run, actions) && TargetDrained(spec, run[0]) && n < |run|
    ensures Kept(spec, Min(Available(run[0].sets), Floor(spec)), run[n])
  {
    hide Enabled, Step, TargetDrained, Available, Floor, Calm;
    if n > 0 {
      hide Kept, CountsSeen;
      RolloutKept(spec, run, actions, n - 1);
      AlwaysWithinSurge(spec, run, actions, n - 1);
      NextKept(spec, Min(Available(run[0].sets), Floor(spec)), run[n - 1], actions[n - 1]);
    }
  }

  // The pods that serve, counted without those about to go, never fall below what the Deployment
  // allows, or below where they started if that was less.
  lemma RolloutKeepsFloor(spec: Spec, run: seq<System>, actions: seq<Action>, n: nat)
    requires IsRun(spec, run, actions) && CalmRun(run, actions) && TargetDrained(spec, run[0]) && n < |run|
    ensures Available(run[n].sets) >= Min(Available(run[0].sets), Floor(spec))
  {
    RolloutKept(spec, run, actions, n);
  }
}
