/**
 * ObjectStateMachine against MemoryStore: what every replica computes from the replicated log is what
 * one store in memory would have computed, times apart.
 */
module StoreReplicas {
  import opened ObjectStore

  // Everything but the times.
  ghost predicate Alike(a: Object, b: Object) {
    a.kind == b.kind && a.meta.name == b.meta.name && a.meta.namespace == b.meta.namespace &&
    a.meta.uid == b.meta.uid && a.meta.version == b.meta.version && a.meta.generation == b.meta.generation &&
    a.meta.labels == b.meta.labels && a.meta.annotations == b.meta.annotations && a.meta.owner == b.meta.owner &&
    a.spec == b.spec && a.status == b.status
  }

  ghost predicate AlikeOps(a: Op, b: Op) {
    match (a, b)
    case (Create(o), Create(p)) => Alike(o, p)
    case (Update(o), Update(p)) => Alike(o, p)
    case (Delete(k), Delete(l)) => k == l
    case _ => false
  }

  ghost predicate AlikeOutcomes(a: Outcome, b: Outcome) {
    if a.Stored? && b.Stored? then Alike(a.obj, b.obj) else a == b
  }

  ghost predicate AlikeEvents(a: Event, b: Event) {
    a.change == b.change && a.revision == b.revision && Alike(a.obj, b.obj)
  }

  ghost predicate SameEvents(a: seq<Event>, b: seq<Event>) {
    |a| == |b| && forall k :: 0 <= k < |a| ==> AlikeEvents(a[k], b[k])
  }

  ghost predicate SameObjects(a: map<string, Object>, b: map<string, Object>) {
    a.Keys == b.Keys && forall k :: k in a ==> Alike(a[k], b[k])
  }

  // Equal revisions, objects and histories, but for the times in them.
  ghost predicate SameButTimes(a: Store, b: Store) {
    a.revision == b.revision && SameObjects(a.objects, b.objects) && SameEvents(a.history, b.history)
  }

  // The state of a replica that has applied these commands in order.
  function Machine(ops: seq<Op>): Store {
    if ops == [] then Empty() else Apply(Machine(ops[..|ops| - 1]), ops[|ops| - 1]).0
  }

  lemma RecordedSame(a: seq<Event>, b: seq<Event>, limit: nat, e: Event, f: Event)
    requires SameEvents(a, b) && AlikeEvents(e, f)
    ensures SameEvents(Recorded(a, limit, e), Recorded(b, limit, f))
  {
    hide Alike;
  }

  lemma PutSame(m: Store, s: Store, change: Change, o: Object, o': Object)
    requires SameButTimes(m, s) && Alike(o, o')
    ensures SameButTimes(Put(MACHINE_HISTORY, m, change, o), Put(MACHINE_HISTORY, s, change, o'))
  {
    var e, e' := Event(change, o, m.revision + 1), Event(change, o', s.revision + 1);
    RecordedSame(m.history, s.history, MACHINE_HISTORY, e, e');
    assert Key(o) == Key(o');
    hide Recorded, SameEvents, Alike, Key;
  }

  lemma DropSame(m: Store, s: Store, key: string, o: Object, o': Object)
    requires SameButTimes(m, s) && Alike(o, o')
    ensures SameButTimes(Drop(MACHINE_HISTORY, m, key, o), Drop(MACHINE_HISTORY, s, key, o'))
  {
    var e, e' := Event(Deleted, o, m.revision + 1), Event(Deleted, o', s.revision + 1);
    RecordedSame(m.history, s.history, MACHINE_HISTORY, e, e');
    hide Recorded, SameEvents, Alike, Key;
  }

  lemma SameSteps(m: Store, s: Store, r: Request, op: Op)
    requires SameButTimes(m, s) && AlikeOps(r.op, op)
    ensures SameButTimes(Handle(MACHINE_HISTORY, m, r).0, Apply(s, op).0)
    ensures AlikeOutcomes(Handle(MACHINE_HISTORY, m, r).1, Apply(s, op).1)
  {
    hide Put, Drop, SameEvents;
    var key := Target(op);
    assert Target(r.op) == key;
    assert key in m.objects ==> Alike(m.objects[key], s.objects[key]);
    var verdict, verdict' := Handle(MACHINE_HISTORY, m, r).1, Apply(s, op).1;
    if verdict'.Stored? {
      PutSame(m, s, if op.Create? then Added else Modified, verdict.obj, verdict'.obj);
    } else if verdict'.Removed? {
      var last := m.objects[key];
      DropSame(m, s, key, last.(meta := last.meta.(deletedAt := r.now)), s.objects[key]);
    }
  }

  // Request by request, and so for every replica however far behind: the machine gives the verdicts,
  // revisions, versions, generations, objects and events of a MemoryStore.
  lemma {:induction false} MachineRefinesStore(log: seq<Request>, ops: seq<Op>, n: nat)
    requires |log| == |ops| && n <= |ops| && forall k :: 0 <= k < |ops| ==> AlikeOps(log[k].op, ops[k])
    ensures SameButTimes(At(MACHINE_HISTORY, log, n), Machine(ops[..n]))
    ensures n < |ops| ==>
              AlikeOutcomes(OutcomeAt(MACHINE_HISTORY, log, n), Apply(Machine(ops[..n]), ops[n]).1)
    decreases n
  {
    hide Handle, Apply, AlikeOps, AlikeOutcomes;
    if n > 0 {
      MachineRefinesStore(log, ops, n - 1);
      AtNext(MACHINE_HISTORY, log, n - 1);
      assert ops[..n][..n - 1] == ops[..n - 1];
      hide At, SameButTimes;
      SameSteps(At(MACHINE_HISTORY, log, n - 1), Machine(ops[..n - 1]), log[n - 1], ops[n - 1]);
    }
    if n < |ops| {
      SameSteps(At(MACHINE_HISTORY, log, n), Machine(ops[..n]), log[n], ops[n]);
    }
  }
}
