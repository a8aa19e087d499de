/**
 * orchestrator/store.py as values: objects under optimistic concurrency, one global revision, and a
 * bounded history of events. Objects are values here; times are readings of a clock.
 */
module ObjectStore {
  datatype Json =
    | Null
    | Boolean(b: bool)
    | Number(n: int)
    | Text(s: string)
    | List(items: seq<Json>)
    | Dict(fields: map<string, Json>)

  datatype Meta = Meta(name: string, namespace: string, uid: string, version: int, generation: int,
                       labels: map<string, string>, annotations: map<string, string>, owner: string,
                       createdAt: int, deletedAt: int)

  datatype Object = Object(kind: string, meta: Meta, spec: Json, status: Json)

  datatype Change = Added | Modified | Deleted

  datatype Event = Event(change: Change, obj: Object, revision: nat)

  datatype Store = Store(objects: map<string, Object>, revision: nat, history: seq<Event>)

  datatype Op = Create(obj: Object) | Update(obj: Object) | Delete(key: string)

  datatype Request = Request(op: Op, now: int)

  datatype Outcome = Stored(obj: Object) | Removed | AlreadyExists | NotFound | Conflict

  function Key(o: Object): string {
    o.kind + "/" + o.meta.namespace + "/" + o.meta.name
  }

  function Target(op: Op): string {
    match op
    case Create(o) => Key(o)
    case Update(o) => Key(o)
    case Delete(key) => key
  }

  function Empty(): Store {
    Store(map[], 0, [])
  }

  // The latest events only, as many as the limit allows.
  function Recorded(history: seq<Event>, limit: nat, event: Event): seq<Event> {
    var all := history + [event];
    if |all| > limit then all[|all| - limit..] else all
  }

  function Versioned(o: Object, version: int): Object {
    o.(meta := o.meta.(version := version))
  }

  // The generation counts changes of spec, so a status write leaves it alone.
  function Regenerated(o: Object, current: Object): Object {
    o.(meta := o.meta.(generation := current.meta.generation + if o.spec != current.spec then 1 else 0))
  }

  function Stamped(o: Object, now: int): Object {
    if o.meta.createdAt == 0 then o.(meta := o.meta.(createdAt := now)) else o
  }

  function Put(limit: nat, s: Store, change: Change, o: Object): Store {
    Store(s.objects[Key(o) := o], s.revision + 1, Recorded(s.history, limit, Event(change, o, s.revision + 1)))
  }

  function Drop(limit: nat, s: Store, key: string, last: Object): Store {
    Store(s.objects - {key}, s.revision + 1, Recorded(s.history, limit, Event(Deleted, last, s.revision + 1)))
  }

  // MemoryStore: create, update and delete.
  function Handle(limit: nat, s: Store, r: Request): (Store, Outcome) {
    match r.op
    case Create(obj) =>
      if Key(obj) in s.objects then (s, AlreadyExists)
      else
        var stored := Stamped(Versioned(obj, s.revision + 1), r.now);
        (Put(limit, s, Added, stored), Stored(stored))
    case Update(obj) =>
      if Key(obj) !in s.objects then (s, NotFound)
      else if obj.meta.version != s.objects[Key(obj)].meta.version then (s, Conflict)
      else
        var stored := Versioned(Regenerated(obj, s.objects[Key(obj)]), s.revision + 1);
        (Put(limit, s, Modified, stored), Stored(stored))
    case Delete(key) =>
      if key !in s.objects then (s, NotFound)
      else (Drop(limit, s, key, s.objects[key].(meta := s.objects[key].meta.(deletedAt := r.now))), Removed)
  }

  const MACHINE_HISTORY := 4096

  // ObjectStateMachine: the same commands as every replica applies them, with no clock to read.
  function Apply(s: Store, op: Op): (Store, Outcome) {
    match op
    case Create(obj) =>
      if Key(obj) in s.objects then (s, AlreadyExists)
      else
        var stored := Versioned(obj, s.revision + 1);
        (Put(MACHINE_HISTORY, s, Added, stored), Stored(stored))
    case Update(obj) =>
      if Key(obj) !in s.objects then (s, NotFound)
      else if obj.meta.version != s.objects[Key(obj)].meta.version then (s, Conflict)
      else
        var stored := Versioned(Regenerated(obj, s.objects[Key(obj)]), s.revision + 1);
        (Put(MACHINE_HISTORY, s, Modified, stored), Stored(stored))
    case Delete(key) =>
      if key !in s.objects then (s, NotFound)
      else (Drop(MACHINE_HISTORY, s, key, s.objects[key]), Removed)
  }

  datatype Replay = Events(events: seq<Event>) | TooOld

  // The events after a revision, or the word that some of them are gone.
  function EventsSince(s: Store, revision: int): Replay {
    if s.history == [] then Events([])
    else if revision < s.history[0].revision - 1 then TooOld
    else Events(Later(s.history, revision))
  }

  function Later(events: seq<Event>, revision: int): seq<Event> {
    if events == [] then []
    else (if events[0].revision > revision then [events[0]] else []) + Later(events[1..], revision)
  }

  // ---- whole histories --------------------------------------------------------------------------

  // The state after serving the requests in order.
  function After(limit: nat, log: seq<Request>): Store {
    if log == [] then Empty() else Handle(limit, After(limit, log[..|log| - 1]), log[|log| - 1]).0
  }

  // The state before request p, and the outcome of request p.
  function At(limit: nat, log: seq<Request>, p: nat): Store
    requires p <= |log|
  {
    After(limit, log[..p])
  }

  function OutcomeAt(limit: nat, log: seq<Request>, p: nat): Outcome
    requires p < |log|
  {
    Handle(limit, At(limit, log, p), log[p]).1
  }

  lemma AtNext(limit: nat, log: seq<Request>, p: nat)
    requires p < |log|
    ensures At(limit, log, p + 1) == Handle(limit, At(limit, log, p), log[p]).0
  {
    assert log[..p + 1][..p] == log[..p];
  }
}
