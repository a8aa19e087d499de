/** No lost update: what a resource version promises over every history of requests. */
module StoreConcurrency {
  import opened ObjectStore

  // Every object is stored under its key, with a version the counter has reached.
  ghost predicate Tidy(s: Store) {
    forall k :: k in s.objects ==> Key(s.objects[k]) == k && s.objects[k].meta.version <= s.revision
  }

  lemma HandleKeepsTidy(limit: nat, s: Store, r: Request)
    requires Tidy(s)
    ensures Tidy(Handle(limit, s, r).0) && Handle(limit, s, r).0.revision >= s.revision
  {
    hide Recorded;
  }

  lemma {:induction false} AlwaysTidy(limit: nat, log: seq<Request>, p: nat)
    requires p <= |log|
    ensures Tidy(At(limit, log, p))
  {
    if p > 0 {
      AlwaysTidy(limit, log, p - 1);
      AtNext(limit, log, p - 1);
      HandleKeepsTidy(limit, At(limit, log, p - 1), log[p - 1]);
    }
  }

  // Any object either was there before, the very same, or carries a version issued since.
  ghost predicate SameOrNewer(before: Store, after: Store) {
    before.revision <= after.revision &&
    forall k :: k in after.objects ==>
      (k in before.objects && after.objects[k] == before.objects[k]) || after.objects[k].meta.version > before.revision
  }

  lemma HandleIssuesVersions(limit: nat, s: Store, r: Request)
    ensures SameOrNewer(s, Handle(limit, s, r).0)
  {
    hide Recorded;
  }

  lemma {:induction false} VersionsMoveOn(limit: nat, log: seq<Request>, i: nat, j: nat)
    requires i <= j <= |log|
    ensures SameOrNewer(At(limit, log, i), At(limit, log, j))
    decreases j
  {
    if i < j {
      VersionsMoveOn(limit, log, i, j - 1);
      AtNext(limit, log, j - 1);
      HandleIssuesVersions(limit, At(limit, log, j - 1), log[j - 1]);
      hide At, Handle;
    }
  }

  // No ABA: over every history, deletes and re-creations included, one key and one version name one
  // object.
  lemma VersionNamesObject(limit: nat, log: seq<Request>, i: nat, j: nat, key: string)
    requires i <= |log| && j <= |log|
    requires key in At(limit, log, i).objects && key in At(limit, log, j).objects
    requires At(limit, log, i).objects[key].meta.version == At(limit, log, j).objects[key].meta.version
    ensures At(limit, log, i).objects[key] == At(limit, log, j).objects[key]
  {
    AlwaysTidy(limit, log, i);
    AlwaysTidy(limit, log, j);
    if i <= j {
      VersionsMoveOn(limit, log, i, j);
    } else {
      VersionsMoveOn(limit, log, j, i);
    }
  }

  // Request p writes back a candidate that was read at i and changed, key and version left alone.
  ghost predicate WritesBack(limit: nat, log: seq<Request>, i: nat, p: nat, key: string) {
    i <= p < |log| && log[p].op.Update? && key in At(limit, log, i).objects && Key(log[p].op.obj) == key &&
    log[p].op.obj.meta.version == At(limit, log, i).objects[key].meta.version
  }

  // A write-back succeeds if and only if the object is still exactly the one that was read.
  lemma WriteBackIff(limit: nat, log: seq<Request>, i: nat, p: nat, key: string)
    requires WritesBack(limit, log, i, p, key)
    ensures OutcomeAt(limit, log, p).Stored? <==>
            key in At(limit, log, p).objects && At(limit, log, p).objects[key] == At(limit, log, i).objects[key]
  {
    if key in At(limit, log, p).objects &&
       At(limit, log, p).objects[key].meta.version == At(limit, log, i).objects[key].meta.version {
      VersionNamesObject(limit, log, i, p, key);
    }
  }

  // ---- counting ---------------------------------------------------------------------------------

  function Count(o: Object): int {
    if o.spec.Number? then o.spec.n else 0
  }

  function Incremented(o: Object): Object {
    o.(spec := Number(Count(o) + 1))
  }

  ghost predicate Increments(limit: nat, log: seq<Request>, i: nat, p: nat, key: string) {
    WritesBack(limit, log, i, p, key) && log[p].op.obj == Incremented(At(limit, log, i).objects[key])
  }

  // Any number of clients, each reading the key at some point and writing it back incremented at a
  // later one; requests for other keys are free.
  ghost predicate Counter(limit: nat, log: seq<Request>, start: nat, key: string) {
    start <= |log| && key in At(limit, log, start).objects &&
    forall p :: start <= p < |log| && Target(log[p].op) == key ==> exists i :: Increments(limit, log, i, p, key)
  }

  // How many of the requests between start and end stored the key.
  ghost function Successes(limit: nat, log: seq<Request>, start: nat, end: nat, key: string): nat
    requires start <= end <= |log|
    decreases end
  {
    if start == end then 0
    else
      Successes(limit, log, start, end - 1, key) +
      if Target(log[end - 1].op) == key && OutcomeAt(limit, log, end - 1).Stored? then 1 else 0
  }

  lemma OthersKeepKey(limit: nat, s: Store, r: Request, key: string)
    requires Target(r.op) != key
    ensures key in Handle(limit, s, r).0.objects <==> key in s.objects
    ensures key in s.objects ==> Handle(limit, s, r).0.objects[key] == s.objects[key]
  {
    hide Recorded;
  }

  // An update that fails leaves everything alone; one that succeeds leaves its own spec.
  lemma UpdateLeaves(limit: nat, s: Store, r: Request)
    requires r.op.Update?
    ensures !Handle(limit, s, r).1.Stored? ==> Handle(limit, s, r).0 == s
    ensures Handle(limit, s, r).1.Stored? ==>
              var o, objects := r.op.obj, Handle(limit, s, r).0.objects;
              Key(o) in s.objects && Key(o) in objects && objects[Key(o)].spec == o.spec
  {
    hide Recorded;
  }

  // One increment moves the count by one if it is stored and leaves it alone if not.
  lemma IncrementStep(limit: nat, log: seq<Request>, i: nat, p: nat, key: string)
    requires Increments(limit, log, i, p, key) && key in At(limit, log, p).objects
    ensures key in At(limit, log, p + 1).objects
    ensures Count(At(limit, log, p + 1).objects[key]) ==
            Count(At(limit, log, p).objects[key]) + if OutcomeAt(limit, log, p).Stored? then 1 else 0
  {
    WriteBackIff(limit, log, i, p, key);
    UpdateLeaves(limit, At(limit, log, p), log[p]);
    AtNext(limit, log, p);
    hide At, Handle, Key;
  }

  // N successful increments, however interleaved, add exactly N.
  lemma {:induction false} IncrementsAddUp(limit: nat, log: seq<Request>, start: nat, end: nat, key: string)
    requires Counter(limit, log, start, key) && start <= end <= |log|
    ensures key in At(limit, log, end).objects
    ensures Count(At(limit, log, end).objects[key]) ==
            Count(At(limit, log, start).objects[key]) + Successes(limit, log, start, end, key)
    decreases end
  {
    hide At, Handle, OutcomeAt, Key, WritesBack, Count;
    if start < end {
      var p := end - 1;
      IncrementsAddUp(limit, log, start, p, key);
      AtNext(limit, log, p);
      if Target(log[p].op) == key {
        var i: nat :| Increments(limit, log, i, p, key);
        IncrementStep(limit, log, i, p, key);
      } else {
        OthersKeepKey(limit, At(limit, log, p), log[p], key);
      }
    }
  }
}
