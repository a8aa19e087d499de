/**
 * The two stores of orchestrator/store.py as objects that change in place, each against its
 * specification in ObjectStore.dfy, and the retry loop that clients write through.
 */
module MemoryStore {
  import opened Wrappers
  import opened ObjectStore
  import opened StoreConcurrency
  import R = StoreReplicas

  // How update_with_retry ends: the key was missing, the change was abandoned, it was written, the key
  // was deleted before the write, or every attempt met a conflict.
  datatype Retry = Missing | Abandoned(obj: Object) | Written(obj: Object) | Gone | GaveUp

  // A mutation leaves the identity of the object alone.
  ghost predicate KeepsIdentity(mutate: Object -> Option<Object>) {
    forall o :: mutate(o).Some? ==> Key(mutate(o).value) == Key(o) && mutate(o).value.meta.version == o.meta.version
  }

  lemma AfterMore(limit: nat, log: seq<Request>, r: Request)
    ensures After(limit, log + [r]) == Handle(limit, After(limit, log), r).0
    ensures OutcomeAt(limit, log + [r], |log|) == Handle(limit, After(limit, log), r).1
    ensures forall m :: 0 <= m <= |log| ==> At(limit, log + [r], m) == At(limit, log, m)
  {
    assert (log + [r])[..|log|] == log;
    assert forall m :: 0 <= m <= |log| ==> (log + [r])[..m] == log[..m];
    assert log[..|log|] == log;
  }

  lemma AtEnd(limit: nat, log: seq<Request>)
    ensures At(limit, log, |log|) == After(limit, log)
  {
    assert log[..|log|] == log;
  }

  lemma PrefixStays(limit: nat, a: seq<Request>, b: seq<Request>, m: nat)
    requires a <= b && m <= |a|
    ensures At(limit, b, m) == At(limit, a, m)
    ensures m < |a| ==> OutcomeAt(limit, b, m) == OutcomeAt(limit, a, m)
  {
    assert b[..m] == a[..m];
  }

  lemma LaterNext(events: seq<Event>, k: nat, since: int)
    requires k < |events|
    ensures Later(events[k..], since) ==
            (if events[k].revision > since then [events[k]] else []) + Later(events[k + 1..], since)
  {
    assert events[k..][1..] == events[k + 1..];
  }

  lemma LaterNone(since: int)
    ensures Later([], since) == []
  {
  }

  class MemoryStore {
    var objects: map<string, Object>
    var revision: nat
    var history: seq<Event>
    const limit: nat
    ghost var log: seq<Request>

    ghost function Contents(): Store
      reads this
    {
      Store(objects, revision, history)
    }

    // The fields are what serving the log leaves.
    ghost predicate Valid()
      reads this
    {
      Contents() == After(limit, log)
    }

    constructor (limit: nat)
      ensures Valid() && this.limit == limit && log == [] && Contents() == Empty()
    {
      objects, revision, history, log := map[], 0, [], [];
      this.limit := limit;
    }

    method Emit(event: Event)
      modifies `history
      ensures history == Recorded(old(history), limit, event)
    {
      history := history + [event];
      if |history| > limit {
        history := history[|history| - limit..];
      }
    }

    method Create(obj: Object, now: int) returns (outcome: Outcome)
      requires Valid()
      modifies this
      ensures Valid() && log == old(log) + [Request(Op.Create(obj), now)]
      ensures (Contents(), outcome) == Handle(limit, old(Contents()), Request(Op.Create(obj), now))
    {
      hide Recorded, After;
      AfterMore(limit, log, Request(Op.Create(obj), now));
      log := log + [Request(Op.Create(obj), now)];
      if Key(obj) in objects {
        return AlreadyExists;
      }
      revision := revision + 1;
      var stored := Versioned(obj, revision);
      if stored.meta.createdAt == 0 {
        stored := stored.(meta := stored.meta.(createdAt := now));
      }
      objects := objects[Key(stored) := stored];
      Emit(Event(Added, stored, revision));
      return Stored(stored);
    }

    method Update(obj: Object, now: int) returns (outcome: Outcome)
      requires Valid()
      modifies this
      ensures Valid() && log == old(log) + [Request(Op.Update(obj), now)]
      ensures (Contents(), outcome) == Handle(limit, old(Contents()), Request(Op.Update(obj), now))
    {
      hide Recorded, After;
      AfterMore(limit, log, Request(Op.Update(obj), now));
      log := log + [Request(Op.Update(obj), now)];
      if Key(obj) !in objects {
        return NotFound;
      }
      var current := objects[Key(obj)];
      if obj.meta.version != current.meta.version {
        return Conflict;
      }
      var generation := current.meta.generation;
      if obj.spec != current.spec {
        generation := generation + 1;
      }
      revision := revision + 1;
      var stored := obj.(meta := obj.meta.(generation := generation, version := revision));
      objects := objects[Key(stored) := stored];
      Emit(Event(Modified, stored, revision));
      return Stored(stored);
    }

    method Delete(key: string, now: int) returns (outcome: Outcome)
      requires Valid()
      modifies this
      ensures Valid() && log == old(log) + [Request(Op.Delete(key), now)]
      ensures (Contents(), outcome) == Handle(limit, old(Contents()), Request(Op.Delete(key), now))
    {
      hide Recorded, After;
      AfterMore(limit, log, Request(Op.Delete(key), now));
      log := log + [Request(Op.Delete(key), now)];
      if key !in objects {
        return NotFound;
      }
      var existing := objects[key];
      objects := objects - {key};
      revision := revision + 1;
      Emit(Event(Deleted, existing.(meta := existing.meta.(deletedAt := now)), revision));
      return Removed;
    }

    method EventsSince(since: int) returns (replay: Replay)
      ensures replay == ObjectStore.EventsSince(Contents(), since)
    {
      if history == [] {
        return Events([]);
      }
      if since < history[0].revision - 1 {
        return TooOld;
      }
      hide Later;
      var events: seq<Event> := [];
      var k := 0;
      assert history[k..] == history;
      while k < |history|
        invariant k <= |history|
        invariant events + Later(history[k..], since) == Later(history, since)
      {
        LaterNext(history, k, since);
        if history[k].revision > since {
          events := events + [history[k]];
        }
        k := k + 1;
      }
      LaterNone(since);
      return Events(events);
    }

    // What other clients get done while one of them is between its read and its write.
    method Serve(requests: seq<Request>)
      requires Valid()
      modifies this
      ensures Valid() && log == old(log) + requests
    {
      hide Handle, After;
      var k := 0;
      while k < |requests|
        invariant k <= |requests| && Valid() && log == old(log) + requests[..k]
      {
        match requests[k].op {
          case Create(obj) => var _ := Create(obj, requests[k].now);
          case Update(obj) => var _ := Update(obj, requests[k].now);
          case Delete(key) => var _ := Delete(key, requests[k].now);
        }
        assert requests[..k + 1] == requests[..k] + [requests[k]];
        k := k + 1;
      }
    }

    // The latest request replaced an object by what the mutation makes of exactly that object.
    ghost predicate Replaced(mutate: Object -> Option<Object>, key: string)
      reads this
    {
      log != [] && log[|log| - 1].op.Update? && key in objects && key in At(limit, log, |log| - 1).objects &&
      var was, obj := At(limit, log, |log| - 1).objects[key], log[|log| - 1].op.obj;
      mutate(was) == Some(obj) && objects[key] == Versioned(Regenerated(obj, was), revision)
    }

    // Request p of the log was refused as conflicting.
    ghost predicate Refused(p: nat)
      reads this
    {
      p < |log| && OutcomeAt(limit, log, p) == Conflict
    }

    // Other clients are served, and then the candidate for an object read before them is written.
    method WriteBack(candidate: Object, during: seq<Request>) returns (outcome: Outcome)
      requires Valid() && Key(candidate) in objects
      requires candidate.meta.version == objects[Key(candidate)].meta.version
      modifies this
      ensures Valid() && log == old(log) + during + [Request(Op.Update(candidate), 0)]
      ensures outcome == OutcomeAt(limit, log, |log| - 1) && (outcome.Stored? || outcome.NotFound? || outcome.Conflict?)
      ensures
        var key, was := Key(candidate), old(objects[Key(candidate)]);
        outcome.Stored? ==>
          key in At(limit, log, |log| - 1).objects && At(limit, log, |log| - 1).objects[key] == was &&
          key in objects && objects[key] == outcome.obj == Versioned(Regenerated(candidate, was), revision)
      ensures outcome.NotFound? ==> Key(candidate) !in objects
      ensures during == [] ==> outcome.Stored?
    {
      ghost var read, key := log, Key(candidate);
      AtEnd(limit, read);
      Serve(during);
      ghost var served := log;
      AtEnd(limit, served);
      outcome := Update(candidate, 0);
      AfterMore(limit, served, log[|served|]);
      PrefixStays(limit, read, log, |read|);
      assert WritesBack(limit, log, |read|, |served|, key);
      WriteBackIff(limit, log, |read|, |served|, key);
      hide At, After, Recorded;
    }

    // Read, change, write back, and start over on a conflict. `others[k]` is served by the store between
    // the read and the write of attempt k; `mine` says where in the log the own writes are.
    method UpdateWithRetry(key: string, mutate: Object -> Option<Object>, attempts: nat, others: seq<seq<Request>>)
      returns (result: Retry, ghost mine: seq<nat>)
      requires Valid() && |others| == attempts && KeepsIdentity(mutate)
      modifies this
      ensures Valid() && old(log) <= log
      ensures result.Missing? ==> key !in objects
      ensures result.Abandoned? ==> key in objects && result.obj == objects[key] && mutate(result.obj).None?
      ensures result.Written? ==> Replaced(mutate, key) && result.obj == objects[key]
      ensures result.Gone? ==> key !in objects
      ensures result.GaveUp? ==>
                |mine| == attempts && forall k :: 0 <= k < attempts ==> Refused(mine[k])
      ensures result.GaveUp? || result.Gone? ==> forall k :: 0 <= k < |mine| && k < attempts ==> others[k] != []
    {
      hide Handle, At, OutcomeAt, Regenerated, Versioned, Key;
      mine := [];
      var k := 0;
      while k < attempts
        invariant k <= attempts && |mine| == k && Valid() && old(log) <= log
        invariant forall m :: 0 <= m < k ==> Refused(mine[m]) && others[m] != []
      {
        if key !in objects {
          return Missing, mine;
        }
        AtEnd(limit, log);
        AlwaysTidy(limit, log, |log|);
        var current := objects[key];
        var candidate := mutate(current);
        if candidate.None? {
          return Abandoned(current), mine;
        }
        ghost var read := log;
        var outcome := WriteBack(candidate.value, others[k]);
        forall m | 0 <= m < k ensures Refused(mine[m]) { PrefixStays(limit, read, log, mine[m]); }
        mine := mine + [|log| - 1];
        if outcome.Stored? {
          return Written(outcome.obj), mine;
        } else if outcome.NotFound? {
          return Gone, mine;
        }
        k := k + 1;
      }
      return GaveUp, mine;
    }
  }

  // A command as a replica receives it: parsed, known by its request but not parseable, or neither.
  datatype Command = Parsed(id: string, op: Op) | Unreadable(id: string) | Malformed

  datatype Result = Answered(outcome: Outcome) | Failed

  class ObjectStateMachine {
    var objects: map<string, Object>
    var revision: nat
    var history: seq<Event>
    var results: map<string, Result>
    ghost var applied: seq<Op>

    ghost function Contents(): Store
      reads this
    {
      Store(objects, revision, history)
    }

    ghost predicate Valid()
      reads this
    {
      Contents() == R.Machine(applied)
    }

    constructor ()
      ensures Valid() && applied == [] && results == map[]
    {
      objects, revision, history, results, applied := map[], 0, [], map[], [];
    }

    method Record(event: Event)
      modifies `history
      ensures history == Recorded(old(history), MACHINE_HISTORY, event)
    {
      history := history + [event];
      if |history| > MACHINE_HISTORY {
        history := history[|history| - MACHINE_HISTORY..];
      }
    }

    // Commands that parse take effect, every command with a request leaves a result.
    method Apply(command: Command)
      requires Valid()
      modifies this
      ensures Valid() && applied == old(applied) + if command.Parsed? then [command.op] else []
      ensures command.Parsed? ==>
                Contents() == ObjectStore.Apply(old(Contents()), command.op).0 &&
                results == old(results)[command.id := Answered(ObjectStore.Apply(old(Contents()), command.op).1)]
      ensures command.Unreadable? ==> Contents() == old(Contents()) && results == old(results)[command.id := Failed]
      ensures command.Malformed? ==> Contents() == old(Contents()) && results == old(results)
    {
      match command
      case Malformed =>
      case Unreadable(id) => results := results[id := Failed];
      case Parsed(id, op) =>
        assert (applied + [op])[..|applied|] == applied;
        applied := applied + [op];
        var outcome: Outcome;
        match op {
          case Create(obj) => outcome := DoCreate(obj);
          case Update(obj) => outcome := DoUpdate(obj);
          case Delete(key) => outcome := DoDelete(key);
        }
        results := results[id := Answered(outcome)];
    }

    method DoCreate(obj: Object) returns (outcome: Outcome)
      modifies `objects, `revision, `history
      ensures (Contents(), outcome) == ObjectStore.Apply(old(Contents()), Op.Create(obj))
    {
      if Key(obj) in objects {
        return AlreadyExists;
      }
      revision := revision + 1;
      var stored := Versioned(obj, revision);
      objects := objects[Key(obj) := stored];
      Record(Event(Added, stored, revision));
      return Stored(stored);
    }

    method DoUpdate(obj: Object) returns (outcome: Outcome)
      modifies `objects, `revision, `history
      ensures (Contents(), outcome) == ObjectStore.Apply(old(Contents()), Op.Update(obj))
    {
      if Key(obj) !in objects {
        return NotFound;
      }
      var current := objects[Key(obj)];
      if obj.meta.version != current.meta.version {
        return Conflict;
      }
      var generation := current.meta.generation;
      if obj.spec != current.spec {
        generation := generation + 1;
      }
      revision := revision + 1;
      var stored := obj.(meta := obj.meta.(generation := generation, version := revision));
      objects := objects[Key(obj) := stored];
      Record(Event(Modified, stored, revision));
      return Stored(stored);
    }

    method DoDelete(key: string) returns (outcome: Outcome)
      modifies `objects, `revision, `history
      ensures (Contents(), outcome) == ObjectStore.Apply(old(Contents()), Op.Delete(key))
    {
      if key !in objects {
        return NotFound;
      }
      var existing := objects[key];
      objects := objects - {key};
      revision := revision + 1;
      Record(Event(Deleted, existing, revision));
      return Removed;
    }
  }
}
