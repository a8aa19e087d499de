/** Generations, and the completion verdict that a Deployment's status carries for one of them. */
module StoreGenerations {
  import opened ObjectStore
  import opened StoreConcurrency

  // The key is there before every request from i to j: one lifetime of the object.
  ghost predicate LivesThrough(limit: nat, log: seq<Request>, i: nat, j: nat, key: string) {
    i <= j <= |log| && forall m :: i <= m <= j ==> key in At(limit, log, m).objects
  }

  ghost function ObjectAt(limit: nat, log: seq<Request>, m: nat, key: string): Object
    requires m <= |log| && key in At(limit, log, m).objects
  {
    At(limit, log, m).objects[key]
  }

  // One request moves the generation on exactly when it changes the spec.
  lemma HandleGeneration(limit: nat, s: Store, r: Request, key: string)
    requires key in s.objects && key in Handle(limit, s, r).0.objects
    ensures
      var before, after := s.objects[key], Handle(limit, s, r).0.objects[key];
      after.meta.generation == before.meta.generation + if after.spec != before.spec then 1 else 0
  {
    hide Recorded;
  }

  // Within a lifetime generations only grow, and two are equal exactly when the spec stayed the same
  // all the way between them.
  lemma {:induction false} GenerationCountsSpecs(limit: nat, log: seq<Request>, i: nat, j: nat, key: string)
    requires LivesThrough(limit, log, i, j, key)
    ensures ObjectAt(limit, log, i, key).meta.generation <= ObjectAt(limit, log, j, key).meta.generation
    ensures ObjectAt(limit, log, i, key).meta.generation == ObjectAt(limit, log, j, key).meta.generation <==>
            forall m :: i <= m <= j ==> ObjectAt(limit, log, m, key).spec == ObjectAt(limit, log, i, key).spec
    decreases j
  {
    hide At, Handle;
    if i < j {
      GenerationCountsSpecs(limit, log, i, j - 1, key);
      AtNext(limit, log, j - 1);
      HandleGeneration(limit, At(limit, log, j - 1), log[j - 1], key);
      assert ObjectAt(limit, log, j - 1, key).meta.generation <= ObjectAt(limit, log, j, key).meta.generation;
      var same := forall m :: i <= m <= j - 1 ==>
                    ObjectAt(limit, log, m, key).spec == ObjectAt(limit, log, i, key).spec;
      assert same ==> ObjectAt(limit, log, j - 1, key).spec == ObjectAt(limit, log, i, key).spec;
    }
  }

  // ---- the verdict ----------------------------------------------------------------------------------

  predicate Claims(status: Json) {
    status.Dict? && "complete" in status.fields && status.fields["complete"] == Boolean(true)
  }

  predicate Observes(status: Json, generation: int) {
    status.Dict? && "observedGeneration" in status.fields && status.fields["observedGeneration"] == Number(generation)
  }

  // Request p publishes the status of a pass that read the Deployment at i. The write re-reads it at r
  // and is dropped unless the generation is still the pass's own.
  ghost predicate Publishes(limit: nat, log: seq<Request>, i: nat, r: nat, p: nat, key: string) {
    i <= r && WritesBack(limit, log, r, p, key) && key in At(limit, log, i).objects &&
    var pass, read, obj := At(limit, log, i).objects[key], At(limit, log, r).objects[key], log[p].op.obj;
    read.meta.generation == pass.meta.generation && obj == read.(status := obj.status) &&
    Observes(obj.status, read.meta.generation)
  }

  // Request p gives the Deployment another spec, keeping the status it read.
  ghost predicate Respecifies(limit: nat, log: seq<Request>, r: nat, p: nat, key: string) {
    WritesBack(limit, log, r, p, key) && log[p].op.obj == At(limit, log, r).objects[key].(spec := log[p].op.obj.spec)
  }

  ghost predicate PublishesVerdict(
    limit: nat, log: seq<Request>, start: nat, p: nat, key: string, verdict: nat -> bool)
  {
    p < |log| && log[p].op.Update? &&
    exists i: nat, r: nat ::
      start <= i && Publishes(limit, log, i, r, p, key) && (Claims(log[p].op.obj.status) ==> verdict(i))
  }

  // From start on the Deployment is only given new specs and statuses; verdict(i) says that a pass
  // that read it at i found its rollout complete.
  ghost predicate Watched(limit: nat, log: seq<Request>, start: nat, key: string, verdict: nat -> bool) {
    LivesThrough(limit, log, start, |log|, key) && !Claims(ObjectAt(limit, log, start, key).status) &&
    forall p :: start <= p < |log| && Target(log[p].op) == key ==>
      PublishesVerdict(limit, log, start, p, key, verdict) || exists r :: Respecifies(limit, log, r, p, key)
  }

  // The pass at i looked at the generation g and found it complete.
  ghost predicate Judged(
    limit: nat, log: seq<Request>, start: nat, i: nat, q: nat, key: string, verdict: nat -> bool, g: int)
  {
    start <= i < q <= |log| && verdict(i) && key in At(limit, log, i).objects &&
    ObjectAt(limit, log, i, key).meta.generation == g
  }

  // A claim for generation g was made by a pass that saw generation g, and g is no later than now.
  ghost predicate ClaimBacked(limit: nat, log: seq<Request>, start: nat, q: nat, key: string, verdict: nat -> bool) {
    q <= |log| && key in At(limit, log, q).objects &&
    var now := ObjectAt(limit, log, q, key);
    forall g :: Claims(now.status) && Observes(now.status, g) ==>
      g <= now.meta.generation && exists i :: Judged(limit, log, start, i, q, key, verdict, g)
  }

  // What a successful write-back leaves: everything of the candidate but version and generation.
  lemma WriteBackLeaves(limit: nat, log: seq<Request>, r: nat, p: nat, key: string)
    requires WritesBack(limit, log, r, p, key) && key in At(limit, log, p).objects
    ensures key in At(limit, log, p + 1).objects
    ensures
      var was, now, obj := ObjectAt(limit, log, p, key), ObjectAt(limit, log, p + 1, key), log[p].op.obj;
      now == was || (was == ObjectAt(limit, log, r, key) && now == Versioned(Regenerated(obj, was), now.meta.version))
  {
    AtNext(limit, log, p);
    WriteBackIff(limit, log, r, p, key);
  }

  lemma ClaimStays(limit: nat, log: seq<Request>, start: nat, p: nat, key: string, verdict: nat -> bool)
    requires ClaimBacked(limit, log, start, p, key, verdict) && p < |log| && key in At(limit, log, p + 1).objects
    requires ObjectAt(limit, log, p + 1, key).status == ObjectAt(limit, log, p, key).status
    requires ObjectAt(limit, log, p + 1, key).meta.generation >= ObjectAt(limit, log, p, key).meta.generation
    ensures ClaimBacked(limit, log, start, p + 1, key, verdict)
  {
    hide At, ObjectAt, Claims, Observes;
    var q := p + 1;
    var now := ObjectAt(limit, log, q, key);
    forall g | Claims(now.status) && Observes(now.status, g)
      ensures g <= now.meta.generation && exists i :: Judged(limit, log, start, i, q, key, verdict, g)
    {
      var i: nat :| Judged(limit, log, start, i, p, key, verdict, g);
      assert Judged(limit, log, start, i, q, key, verdict, g);
    }
  }

  lemma PublishBacked(
    limit: nat, log: seq<Request>, start: nat, i: nat, r: nat, p: nat, key: string, verdict: nat -> bool)
    requires start <= i && Publishes(limit, log, i, r, p, key) && (Claims(log[p].op.obj.status) ==> verdict(i))
    requires ClaimBacked(limit, log, start, p, key, verdict)
    ensures ClaimBacked(limit, log, start, p + 1, key, verdict)
  {
    WriteBackLeaves(limit, log, r, p, key);
    var was, now := ObjectAt(limit, log, p, key), ObjectAt(limit, log, p + 1, key);
    if now == was {
      ClaimStays(limit, log, start, p, key, verdict);
    } else {
      hide At;
      var q := p + 1;
      forall g | Claims(now.status) && Observes(now.status, g)
        ensures g <= now.meta.generation && exists i :: Judged(limit, log, start, i, q, key, verdict, g)
      {
        assert Judged(limit, log, start, i, q, key, verdict, g);
      }
    }
  }

  lemma RespecifyBacked(limit: nat, log: seq<Request>, start: nat, r: nat, p: nat, key: string, verdict: nat -> bool)
    requires Respecifies(limit, log, r, p, key) && ClaimBacked(limit, log, start, p, key, verdict)
    ensures ClaimBacked(limit, log, start, p + 1, key, verdict)
  {
    WriteBackLeaves(limit, log, r, p, key);
    hide ClaimBacked, At, WritesBack;
    ClaimStays(limit, log, start, p, key, verdict) by { hide At; }
  }

  lemma {:induction false} ClaimsAreBacked(
    limit: nat, log: seq<Request>, start: nat, q: nat, key: string, verdict: nat -> bool)
    requires Watched(limit, log, start, key, verdict) && start <= q <= |log|
    ensures ClaimBacked(limit, log, start, q, key, verdict)
    decreases q
  {
    hide At, Publishes, Respecifies, Judged, Claims, Observes, Handle, Target;
    if start < q {
      var p := q - 1;
      ClaimsAreBacked(limit, log, start, p, key, verdict);
      hide ClaimBacked;
      if Target(log[p].op) == key {
        if r: nat :| Respecifies(limit, log, r, p, key) {
          RespecifyBacked(limit, log, start, r, p, key, verdict);
        } else {
          var i: nat, r: nat :| start <= i && Publishes(limit, log, i, r, p, key) &&
            (Claims(log[p].op.obj.status) ==> verdict(i));
          PublishBacked(limit, log, start, i, r, p, key, verdict);
        }
      } else {
        AtNext(limit, log, p);
        OthersKeepKey(limit, At(limit, log, p), log[p], key);
        ClaimStays(limit, log, start, p, key, verdict);
      }
    }
  }

  // Whoever waits for a complete status of the current generation waits for the current spec: some
  // pass found complete exactly the spec the Deployment has.
  lemma CompletionIsForCurrentSpec(limit: nat, log: seq<Request>, start: nat, q: nat, key: string, verdict: nat -> bool)
    requires Watched(limit, log, start, key, verdict) && start <= q <= |log|
    requires
      var now := ObjectAt(limit, log, q, key);
      Claims(now.status) && Observes(now.status, now.meta.generation)
    ensures exists i: nat ::
              start <= i < q && verdict(i) && ObjectAt(limit, log, i, key).spec == ObjectAt(limit, log, q, key).spec
  {
    ClaimsAreBacked(limit, log, start, q, key, verdict);
    hide At, Claims, Observes, PublishesVerdict, Respecifies;
    var now := ObjectAt(limit, log, q, key);
    var i: nat :| Judged(limit, log, start, i, q, key, verdict, now.meta.generation);
    GenerationCountsSpecs(limit, log, i, q, key);
    assert ObjectAt(limit, log, i, key).spec == ObjectAt(limit, log, q, key).spec;
  }

  // ---- across lifetimes -----------------------------------------------------------------------------

  // How many of the requests from i up to j changed the spec.
  ghost function SpecChanges(limit: nat, log: seq<Request>, i: nat, j: nat, key: string): nat
    requires LivesThrough(limit, log, i, j, key)
    decreases j
  {
    if i == j then 0
    else
      SpecChanges(limit, log, i, j - 1, key) +
      if ObjectAt(limit, log, j - 1, key).spec != ObjectAt(limit, log, j, key).spec then 1 else 0
  }

  lemma {:induction false} GenerationIsCount(limit: nat, log: seq<Request>, i: nat, j: nat, key: string)
    requires LivesThrough(limit, log, i, j, key)
    ensures ObjectAt(limit, log, j, key).meta.generation ==
            ObjectAt(limit, log, i, key).meta.generation + SpecChanges(limit, log, i, j, key)
    decreases j
  {
    hide At, Handle;
    if i < j {
      GenerationIsCount(limit, log, i, j - 1, key);
      AtNext(limit, log, j - 1);
      HandleGeneration(limit, At(limit, log, j - 1), log[j - 1], key);
    }
  }

  // A pass of one life, which began before b, read the Deployment at i; its write reads at r the
  // Deployment of a later life, which began before c. The guard on the generation lets the verdict
  // through if and only if both lives have changed their spec equally often by then.
  lemma VerdictCrossesIff(limit: nat, log: seq<Request>, b: nat, i: nat, c: nat, r: nat, key: string)
    requires LivesThrough(limit, log, b, i, key) && LivesThrough(limit, log, c, r, key)
    requires ObjectAt(limit, log, b, key).meta.generation == ObjectAt(limit, log, c, key).meta.generation
    ensures ObjectAt(limit, log, r, key).meta.generation == ObjectAt(limit, log, i, key).meta.generation <==>
            SpecChanges(limit, log, b, i, key) == SpecChanges(limit, log, c, r, key)
  {
    hide At;
    GenerationIsCount(limit, log, b, i, key);
    GenerationIsCount(limit, log, c, r, key);
  }

  function Deployment(spec: Json, status: Json, version: int): Object {
    Object("Deployment", Meta("web", "default", "", version, 1, map[], map[], "", 1, 0), spec, status)
  }

  // A pass finds the first spec complete; the Deployment is deleted and created again with another
  // spec before the pass publishes. The new object starts at the same generation, so the verdict is
  // published on it and reads as complete for a spec no pass has looked at.
  lemma VerdictOutlivesDeployment() returns (log: seq<Request>, key: string)
    ensures |log| == 4 && Publishes(4096, log, 1, 3, 3, key) && !LivesThrough(4096, log, 1, 3, key)
    ensures key in At(4096, log, 1).objects && key in At(4096, log, 4).objects
    ensures
      var now := ObjectAt(4096, log, 4, key);
      Claims(now.status) && Observes(now.status, now.meta.generation) && now.spec != ObjectAt(4096, log, 1, key).spec
  {
    var done := Dict(map["complete" := Boolean(true), "observedGeneration" := Number(1)]);
    var first, second := Deployment(Number(1), Null, 0), Deployment(Number(2), Null, 0);
    key := Key(first);
    var publish := Deployment(Number(2), done, 3);
    log := [Request(Create(first), 5), Request(Delete(key), 6), Request(Create(second), 7),
            Request(Update(publish), 8)];
    assert At(4096, log, 0) == Empty();
    AtNext(4096, log, 0);
    AtNext(4096, log, 1);
    AtNext(4096, log, 2);
    AtNext(4096, log, 3);
    hide At, Recorded;
    assert key !in At(4096, log, 2).objects;
    assert At(4096, log, 3).objects[key] == Deployment(Number(2), Null, 3);
    assert At(4096, log, 4).objects[key] == Deployment(Number(2), done, 4);
  }
}
