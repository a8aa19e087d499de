/** Watches: what replaying the retained events gives a watcher that stopped at some revision. */
module StoreWatch {
  import opened ObjectStore

  // What one request adds to an unbounded history.
  ghost function Emitted(s: Store, r: Request): seq<Event> {
    var after := Handle(1, s, r).0;
    if after.revision > s.revision then after.history else []
  }

  // Every event there ever was, trimmed or not.
  ghost function AllEvents(limit: nat, log: seq<Request>): seq<Event> {
    if log == [] then []
    else
      var before := log[..|log| - 1];
      AllEvents(limit, before) + Emitted(After(limit, before), log[|log| - 1])
  }

  function Seen(objects: map<string, Object>, e: Event): map<string, Object> {
    if e.change == Deleted then objects - {Key(e.obj)} else objects[Key(e.obj) := e.obj]
  }

  // A watcher applies the events in order to the objects it knows.
  function Replayed(objects: map<string, Object>, events: seq<Event>): map<string, Object> {
    if events == [] then objects else Seen(Replayed(objects, events[..|events| - 1]), events[|events| - 1])
  }

  lemma {:induction false} ReplayedInTwo(objects: map<string, Object>, a: seq<Event>, b: seq<Event>)
    ensures Replayed(objects, a + b) == Replayed(Replayed(objects, a), b)
  {
    if b == [] {
      assert a + b == a;
    } else {
      assert (a + b)[..|a + b| - 1] == a + b[..|b| - 1];
      ReplayedInTwo(objects, a, b[..|b| - 1]);
    }
  }

  function Latest(all: seq<Event>, limit: nat): seq<Event> {
    if |all| > limit then all[|all| - limit..] else all
  }

  // The history is the tail of all events, one for every revision, and the events explain the objects.
  ghost predicate Explained(limit: nat, s: Store, all: seq<Event>) {
    |all| == s.revision && (forall k :: 0 <= k < |all| ==> all[k].revision == k + 1) &&
    s.history == Latest(all, limit) && s.objects == Replayed(map[], all) &&
    forall k :: k in s.objects ==> Key(s.objects[k]) == k
  }

  lemma LatestGrows(all: seq<Event>, limit: nat, e: Event)
    ensures Recorded(Latest(all, limit), limit, e) == Latest(all + [e], limit)
  {
  }

  lemma HandleExplained(limit: nat, s: Store, all: seq<Event>, r: Request)
    requires Explained(limit, s, all)
    ensures Explained(limit, Handle(limit, s, r).0, all + Emitted(s, r))
  {
    hide Latest, Replayed;
    if Emitted(s, r) == [] {
      assert Handle(limit, s, r).0 == s by { hide Recorded; }
      assert all + [] == all;
    } else {
      var e := Emitted(s, r)[0];
      EmittedIs(limit, s, r);
      LatestGrows(all, limit, e);
      ReplayedInTwo(map[], all, [e]);
      ReplayedOne(s.objects, e);
      hide Handle, Emitted, Recorded;
    }
  }

  lemma ReplayedOne(objects: map<string, Object>, e: Event)
    ensures Replayed(objects, [e]) == Seen(objects, e)
  {
    assert [e][..0] == [];
  }

  // One event of the next revision, and it tells a watcher exactly what happened to the objects.
  lemma EmittedIs(limit: nat, s: Store, r: Request)
    requires Emitted(s, r) != [] && forall k :: k in s.objects ==> Key(s.objects[k]) == k
    ensures
      var after, e := Handle(limit, s, r).0, Emitted(s, r)[0];
      Emitted(s, r) == [e] && e.revision == s.revision + 1 == after.revision && after.objects == Seen(s.objects, e) &&
      after.history == Recorded(s.history, limit, e) && forall k :: k in after.objects ==> Key(after.objects[k]) == k
  {
  }

  lemma {:induction false} AlwaysExplained(limit: nat, log: seq<Request>)
    ensures Explained(limit, After(limit, log), AllEvents(limit, log))
  {
    if log != [] {
      AlwaysExplained(limit, log[..|log| - 1]);
      hide Handle, Emitted, Explained;
      HandleExplained(limit, After(limit, log[..|log| - 1]), AllEvents(limit, log[..|log| - 1]), log[|log| - 1]);
    }
  }

  lemma {:induction false} EventsExtend(limit: nat, log: seq<Request>, n: nat)
    requires n <= |log|
    ensures AllEvents(limit, log[..n]) <= AllEvents(limit, log)
    decreases |log|
  {
    if n < |log| {
      assert log[..|log| - 1][..n] == log[..n];
      EventsExtend(limit, log[..|log| - 1], n);
    } else {
      assert log[..n] == log;
    }
  }

  lemma {:induction false} LaterIsTail(all: seq<Event>, from: nat, revision: nat)
    requires from <= |all| && (forall k :: 0 <= k < |all| ==> all[k].revision == k + 1)
    ensures Later(all[from..], revision) ==
            if revision >= |all| then [] else if revision >= from then all[revision..] else all[from..]
    decreases |all| - from
  {
    if from < |all| {
      assert all[from..][1..] == all[from + 1..];
      LaterIsTail(all, from + 1, revision);
      assert all[from..] == [all[from]] + all[from + 1..];
    }
  }

  // What a watcher that knows one state may be told at another: that it must start again if an event
  // it needs is gone, and otherwise exactly the events that bring it up to date.
  ghost predicate Resumes(known: Store, now: Store) {
    match EventsSince(now, known.revision)
    case TooOld => now.revision - known.revision > |now.history|
    case Events(events) =>
      now.revision - known.revision <= |now.history| && Replayed(known.objects, events) == now.objects
  }

  lemma TailResumes(limit: nat, known: Store, early: seq<Event>, now: Store, all: seq<Event>)
    requires limit >= 1 && early <= all && Explained(limit, known, early) && Explained(limit, now, all)
    ensures Resumes(known, now)
  {
    hide Replayed, Later, Seen;
    var r, d := known.revision, |all| - |now.history|;
    assert now.history == all[d..];
    LaterIsTail(all, d, r);
    assert all == all[..r] + all[r..] && early == all[..r];
    ReplayedInTwo(map[], all[..r], all[r..]);
    hide Explained, Latest;
    if now.history == [] {
      assert all[r..] == [] && |all| == 0;
    }
  }

  // A watcher that stopped before request n, at the end of the log.
  lemma WatchResumes(limit: nat, log: seq<Request>, n: nat)
    requires limit >= 1 && n <= |log|
    ensures Resumes(At(limit, log, n), After(limit, log))
  {
    AlwaysExplained(limit, log[..n]);
    AlwaysExplained(limit, log);
    EventsExtend(limit, log, n);
    TailResumes(limit, At(limit, log, n), AllEvents(limit, log[..n]), After(limit, log), AllEvents(limit, log));
  }

  // Exactly the stores that retain at least one event never leave a watcher with a silent gap.
  lemma WatchResumesIff(limit: nat)
    ensures limit >= 1 <==> forall log, n: nat :: n <= |log| ==> Resumes(At(limit, log, n), After(limit, log))
  {
    if limit >= 1 {
      forall log, n: nat | n <= |log| ensures Resumes(At(limit, log, n), After(limit, log)) {
        WatchResumes(limit, log, n);
      }
    } else {
      var o := Object("Pod", Meta("a", "default", "", 0, 1, map[], map[], "", 1, 0), Null, Null);
      var log := [Request(Create(o), 1)];
      assert log[..0] == [];
      assert After(limit, log).revision == 1;
      assert At(limit, log, 0).revision == 0;
      assert After(limit, log).history == [];
      assert !Resumes(At(limit, log, 0), After(limit, log));
    }
  }

  // RaftStore.events_since: the events after a revision, with no look at how far back they go.
  function UncheckedEventsSince(s: Store, revision: int): seq<Event> {
    Later(s.history, revision)
  }

  // Without the check the answer is complete if and only if nothing that is needed has been trimmed,
  // and otherwise it is short without saying so.
  lemma UncheckedWatchIff(limit: nat, log: seq<Request>, n: nat)
    requires n <= |log|
    ensures
      var known, now := At(limit, log, n), After(limit, log);
      known.revision <= |AllEvents(limit, log)| &&
      (UncheckedEventsSince(now, known.revision) == AllEvents(limit, log)[known.revision..] <==>
        now.revision - known.revision <= |now.history|)
  {
    AlwaysExplained(limit, log[..n]);
    AlwaysExplained(limit, log);
    EventsExtend(limit, log, n);
    UncheckedTail(limit, After(limit, log), AllEvents(limit, log), At(limit, log, n).revision);
  }

  lemma UncheckedTail(limit: nat, now: Store, all: seq<Event>, r: nat)
    requires Explained(limit, now, all) && r <= |all|
    ensures UncheckedEventsSince(now, r) == all[r..] <==> now.revision - r <= |now.history|
  {
    hide Replayed, Later;
    var d := |all| - |now.history|;
    assert now.history == all[d..];
    LaterIsTail(all, d, r);
  }
}
