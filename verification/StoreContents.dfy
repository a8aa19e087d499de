/** What a client finds in the store after its request, field by field, and what it is told. */
module StoreContents {
  import opened ObjectStore

  // Everything a client sets.
  ghost predicate AsRequested(o: Object, asked: Object) {
    o.kind == asked.kind && o.meta.name == asked.meta.name && o.meta.namespace == asked.meta.namespace &&
    o.meta.uid == asked.meta.uid && o.meta.labels == asked.meta.labels &&
    o.meta.annotations == asked.meta.annotations && o.meta.owner == asked.meta.owner &&
    o.meta.deletedAt == asked.meta.deletedAt && o.spec == asked.spec && o.status == asked.status
  }

  // The object of an accepted create: the client's, at the next revision, with this time of creation if
  // it brought none.
  ghost predicate CreatedFrom(asked: Object, s: Store, o: Object, createdAt: int) {
    AsRequested(o, asked) && o.meta.version == s.revision + 1 && o.meta.generation == asked.meta.generation &&
    o.meta.createdAt == createdAt
  }

  // The object of an accepted update of what was there: the client's, at the next revision, its
  // generation one up exactly when the spec is another.
  ghost predicate UpdatedFrom(asked: Object, was: Object, s: Store, o: Object) {
    AsRequested(o, asked) && o.meta.version == s.revision + 1 && o.meta.createdAt == asked.meta.createdAt &&
    (o.meta.generation == was.meta.generation + 1 <==> asked.spec != was.spec) &&
    (o.meta.generation == was.meta.generation <==> asked.spec == was.spec)
  }

  // The outcome goes to the client, is in the store under its key, and is all that has changed there; one
  // event says so.
  ghost predicate Wrote(limit: nat, s: Store, s': Store, change: Change, key: string, o: Object) {
    s'.objects.Keys == s.objects.Keys + {key} && s'.objects[key] == o &&
    (forall k :: k in s.objects && k != key ==> s'.objects[k] == s.objects[k]) &&
    Noted(limit, s, s', Event(change, o, s.revision + 1))
  }

  // The next revision has this event, and as many of the latest as the limit allows are kept.
  ghost predicate Noted(limit: nat, s: Store, s': Store, event: Event) {
    s'.revision == event.revision == s.revision + 1 &&
    |s'.history| == (if |s.history| < limit then |s.history| + 1 else limit) &&
    s'.history == (s.history + [event])[|s.history| + 1 - |s'.history|..]
  }

  lemma RecordedNotes(limit: nat, s: Store, s': Store, event: Event)
    requires s'.history == Recorded(s.history, limit, event) && s'.revision == event.revision == s.revision + 1
    ensures Noted(limit, s, s', event)
  {
  }

  ghost predicate Dropped(limit: nat, s: Store, s': Store, key: string, last: Object) {
    key !in s'.objects && s'.objects.Keys == s.objects.Keys - {key} &&
    (forall k :: k in s'.objects ==> s'.objects[k] == s.objects[k]) &&
    Noted(limit, s, s', Event(Deleted, last, s.revision + 1))
  }

  lemma PutWrites(limit: nat, s: Store, change: Change, o: Object)
    ensures Wrote(limit, s, Put(limit, s, change, o), change, Key(o), o)
  {
    hide Recorded, Key;
    RecordedNotes(limit, s, Put(limit, s, change, o), Event(change, o, s.revision + 1));
    hide Noted;
  }

  lemma DropDrops(limit: nat, s: Store, key: string, last: Object)
    ensures Dropped(limit, s, Drop(limit, s, key, last), key, last)
  {
    hide Recorded;
    RecordedNotes(limit, s, Drop(limit, s, key, last), Event(Deleted, last, s.revision + 1));
    hide Noted;
  }

  // MemoryStore: exactly when a request is refused, that a refused one leaves everything as it was, and
  // what an accepted one leaves.
  lemma MemoryStoreAnswers(limit: nat, s: Store, r: Request)
    ensures
      var (s', outcome) := Handle(limit, s, r);
      match r.op
      case Create(asked) =>
        if Key(asked) in s.objects then outcome == AlreadyExists && s' == s
        else
          outcome.Stored? && Wrote(limit, s, s', Added, Key(asked), outcome.obj) &&
          CreatedFrom(asked, s, outcome.obj, if asked.meta.createdAt == 0 then r.now else asked.meta.createdAt)
      case Update(asked) =>
        if Key(asked) !in s.objects then outcome == NotFound && s' == s
        else if asked.meta.version != s.objects[Key(asked)].meta.version then outcome == Conflict && s' == s
        else
          outcome.Stored? && Wrote(limit, s, s', Modified, Key(asked), outcome.obj) &&
          UpdatedFrom(asked, s.objects[Key(asked)], s, outcome.obj)
      case Delete(key) =>
        if key !in s.objects then outcome == NotFound && s' == s
        else
          outcome == Removed &&
          Dropped(limit, s, s', key, s.objects[key].(meta := s.objects[key].meta.(deletedAt := r.now)))
  {
    hide Recorded, Wrote, Dropped;
    var outcome := Handle(limit, s, r).1;
    if outcome.Stored? {
      KeyOfStored(limit, s, r);
      PutWrites(limit, s, if r.op.Create? then Added else Modified, outcome.obj);
    }
    if outcome.Removed? {
      var last := s.objects[r.op.key];
      DropDrops(limit, s, r.op.key, last.(meta := last.meta.(deletedAt := r.now)));
    }
    hide Key, Put, Drop;
  }

  // The key is made of fields the store does not touch.
  lemma KeyOfStored(limit: nat, s: Store, r: Request)
    ensures Handle(limit, s, r).1.Stored? ==> Key(Handle(limit, s, r).1.obj) == Target(r.op)
    ensures Apply(s, r.op).1.Stored? ==> Key(Apply(s, r.op).1.obj) == Target(r.op)
  {
    hide Recorded;
  }

  // ObjectStateMachine: the same, but for the times, of which it sets none.
  lemma MachineAnswers(s: Store, op: Op)
    ensures
      var (s', outcome) := Apply(s, op);
      match op
      case Create(asked) =>
        if Key(asked) in s.objects then outcome == AlreadyExists && s' == s
        else
          outcome.Stored? && Wrote(4096, s, s', Added, Key(asked), outcome.obj) &&
          CreatedFrom(asked, s, outcome.obj, asked.meta.createdAt)
      case Update(asked) =>
        if Key(asked) !in s.objects then outcome == NotFound && s' == s
        else if asked.meta.version != s.objects[Key(asked)].meta.version then outcome == Conflict && s' == s
        else
          outcome.Stored? && Wrote(4096, s, s', Modified, Key(asked), outcome.obj) &&
          UpdatedFrom(asked, s.objects[Key(asked)], s, outcome.obj)
      case Delete(key) =>
        if key !in s.objects then outcome == NotFound && s' == s
        else outcome == Removed && Dropped(4096, s, s', key, s.objects[key])
  {
    hide Recorded, Wrote, Dropped;
    var outcome := Apply(s, op).1;
    if outcome.Stored? {
      KeyOfStored(4096, s, Request(op, 0));
      PutWrites(4096, s, if op.Create? then Added else Modified, outcome.obj);
    }
    if outcome.Removed? {
      DropDrops(4096, s, op.key, s.objects[op.key]);
    }
    hide Key, Put, Drop;
  }

  // ---- keys ---------------------------------------------------------------------------------------

  // Where the first slash of a string is, or its length.
  function FirstSlash(s: string): nat {
    if s == "" || s[0] == '/' then 0 else 1 + FirstSlash(s[1..])
  }

  lemma {:induction false} SlashAfter(a: string, x: string)
    requires '/' !in a
    ensures FirstSlash(a + "/" + x) == |a|
  {
    if a != "" {
      assert (a + "/" + x)[1..] == a[1..] + "/" + x;
      SlashAfter(a[1..], x);
    } else {
      assert a + "/" + x == "/" + x;
    }
  }

  // Of two strings without a slash, each followed by one, only equal ones begin alike.
  lemma SlashEnds(a: string, b: string, x: string, y: string)
    requires '/' !in a && '/' !in b && a + "/" + x == b + "/" + y
    ensures a == b && x == y
  {
    SlashAfter(a, x);
    SlashAfter(b, y);
    var s := a + "/" + x;
    assert s[..|a|] == a && s[..|b|] == b && s[|a| + 1..] == x && s[|b| + 1..] == y;
  }

  // A key names one kind, one namespace and one name, as long as the first two have no slash in them.
  lemma KeysAreApart(a: Object, b: Object)
    requires '/' !in a.kind && '/' !in b.kind && '/' !in a.meta.namespace && '/' !in b.meta.namespace
    ensures Key(a) == Key(b) <==>
            a.kind == b.kind && a.meta.namespace == b.meta.namespace && a.meta.name == b.meta.name
  {
    if Key(a) == Key(b) {
      var x, y := a.meta.namespace + "/" + a.meta.name, b.meta.namespace + "/" + b.meta.name;
      assert Key(a) == a.kind + "/" + x && Key(b) == b.kind + "/" + y;
      SlashEnds(a.kind, b.kind, x, y);
      SlashEnds(a.meta.namespace, b.meta.namespace, a.meta.name, b.meta.name);
    }
  }
}
