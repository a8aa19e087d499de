/** What the work queue promises over whole runs, for any number of workers. */
module WorkQueueTheorems {
  import opened Wrappers
  import opened WorkQueue

  ghost predicate Serves(s: System, a: Action, k: Key) {
    a.Polling? && Poll(s.queue, a.now, a.order).1 == Some(k)
  }

  ghost predicate ServedBetween(run: seq<System>, actions: seq<Action>, n: nat, m: nat, k: Key) {
    |run| > |actions| && exists j :: n <= j < m && j < |actions| && Serves(run[j], actions[j], k)
  }

  // No two workers reconcile the same key at once.
  lemma OneWorkerPerKey(run: seq<System>, actions: seq<Action>, n: nat, v: Worker, w: Worker)
    requires IsRun(run, actions) && n <= |actions|
    requires v in run[n].busy && w in run[n].busy && v != w
    ensures run[n].busy[v] != run[n].busy[w]
  {
    AlwaysTidy(run, actions, n);
  }

  // A change that still has to be looked at.
  ghost predicate Owed(q: Queue, k: Key) {
    k in q.queued || k in q.dirty
  }

  lemma PollServesFirst(s: System, a: Action)
    requires Tidy(s) && Enabled(s, a) && a.Polling?
    ensures
      var q, awake, r := s.queue, Wake(s.queue, a.now, a.order), Poll(s.queue, a.now, a.order);
      Woken(q, a.now, awake) && Pending(awake) && Step(s, a).queue == r.0 && r.0.dirty == q.dirty &&
      r.0.delayed == awake.delayed &&
      (r.1.None? <==> awake.pending == []) &&
      (r.1.Some? ==>
         awake.pending[0] == r.1.value && r.0.pending == awake.pending[1..] &&
         r.0.queued == awake.queued - {r.1.value}) &&
      (r.1.None? ==> r.0 == awake)
  {
    WakeWoken(s.queue, a.now, a.order);
  }

  lemma OwedStays(s: System, a: Action, k: Key)
    requires Tidy(s) && Enabled(s, a) && Owed(s.queue, k)
    ensures Owed(Step(s, a).queue, k) || Serves(s, a, k)
  {
    if a.Polling? {
      PollServesFirst(s, a);
      hide Poll, Wake, Step;
    }
  }

  lemma {:induction false} OwedUntilServed(run: seq<System>, actions: seq<Action>, n: nat, m: nat, k: Key)
    requires IsRun(run, actions) && n <= m <= |actions| && Owed(run[n].queue, k)
    ensures Owed(run[m].queue, k) || ServedBetween(run, actions, n, m, k)
    decreases m
  {
    if n < m {
      OwedUntilServed(run, actions, n, m - 1, k);
      AlwaysTidy(run, actions, m - 1);
      hide Tidy, Owed, Serves, Step;
      if !ServedBetween(run, actions, n, m - 1, k) {
        OwedStays(run[m - 1], actions[m - 1], k);
      }
    }
  }

  // No addition is lost: until a worker takes the key again, it is queued, or remembered by the pass
  // that was running when it came.
  lemma AddIsServed(run: seq<System>, actions: seq<Action>, n: nat, m: nat, k: Key)
    requires IsRun(run, actions) && n < m <= |actions| && actions[n] == Adding(k)
    ensures Owed(run[m].queue, k) || ServedBetween(run, actions, n + 1, m, k)
    ensures Owed(run[m].queue, k) ==>
              k in run[m].queue.processing || k in run[m].queue.pending || k in run[m].queue.delayed
  {
    AlwaysTidy(run, actions, m);
    assert Owed(run[n + 1].queue, k);
    OwedUntilServed(run, actions, n + 1, m, k);
  }

  // ---- in turn --------------------------------------------------------------------------------------

  ghost predicate Got(s: System, a: Action) {
    a.Polling? && Poll(s.queue, a.now, a.order).1.Some?
  }

  // How many times a worker got a key between two points of the run.
  ghost function Served(run: seq<System>, actions: seq<Action>, n: nat, m: nat): nat
    requires n <= m <= |actions| && |run| > |actions|
    decreases m
  {
    if n == m then 0
    else
      Served(run, actions, n, m - 1) + if Got(run[m - 1], actions[m - 1]) then 1 else 0
  }

  // One step either serves the key or leaves it in line, a place further on for every key served.
  lemma LineMovesOn(s: System, a: Action, i: nat)
    requires Tidy(s) && Enabled(s, a) && i < |s.queue.pending|
    ensures
      var k, line := s.queue.pending[i], Step(s, a).queue.pending;
      if Got(s, a) then Serves(s, a, k) || (i > 0 && i - 1 < |line| && line[i - 1] == k)
      else i < |line| && line[i] == k
  {
    if a.Polling? {
      PollServesFirst(s, a);
      hide Poll, Wake, Step;
    }
  }

  lemma RunTakes(run: seq<System>, actions: seq<Action>, k: nat)
    requires IsRun(run, actions) && k < |actions|
    ensures Enabled(run[k], actions[k]) && run[k + 1] == Step(run[k], actions[k])
  {
  }

  lemma ServedLater(run: seq<System>, actions: seq<Action>, n: nat, m: nat, k: Key)
    requires |run| == |actions| + 1 && n < m <= |actions|
    ensures ServedBetween(run, actions, n, m - 1, k) || Serves(run[m - 1], actions[m - 1], k) ==>
              ServedBetween(run, actions, n, m, k)
  {
    hide Serves;
  }

  // Whoever is i-th in line is served before i + 1 keys have been.
  lemma {:induction false} ServedInTurn(run: seq<System>, actions: seq<Action>, n: nat, m: nat, i: nat)
    requires IsRun(run, actions) && n <= m <= |actions| && i < |run[n].queue.pending|
    ensures
      var k, served := run[n].queue.pending[i], Served(run, actions, n, m);
      ServedBetween(run, actions, n, m, k) ||
      (served <= i && i - served < |run[m].queue.pending| && run[m].queue.pending[i - served] == k)
    decreases m
  {
    hide Tidy, Step, Enabled, Serves, Got, ServedBetween;
    assert |run| == |actions| + 1;
    if n < m {
      hide IsRun;
      var k := run[n].queue.pending[i];
      ServedInTurn(run, actions, n, m - 1, i);
      AlwaysTidy(run, actions, m - 1);
      RunTakes(run, actions, m - 1);
      ServedLater(run, actions, n, m, k);
      if !ServedBetween(run, actions, n, m - 1, k) {
        LineMovesOn(run[m - 1], actions[m - 1], i - Served(run, actions, n, m - 1));
      }
    }
  }

  // ---- delayed hints --------------------------------------------------------------------------------

  ghost predicate Held(q: Queue, k: Key) {
    Owed(q, k) || k in q.delayed
  }

  // A hint falls due while the key is being processed and nothing else asks for another pass.
  ghost predicate Drops(s: System, a: Action, k: Key) {
    a.Polling? && k in s.queue.delayed && s.queue.delayed[k] <= a.now && k in s.queue.processing && k !in s.queue.dirty
  }

  // A step loses a held key if and only if it is such a turn of get.
  lemma StepHoldsIff(s: System, a: Action, k: Key)
    requires Tidy(s) && Enabled(s, a) && Held(s.queue, k)
    ensures Held(Step(s, a).queue, k) || Serves(s, a, k) <==> !Drops(s, a, k)
  {
    if a.Polling? {
      PollServesFirst(s, a);
      if k in s.queue.delayed {
        WakeIsThorough(s.queue, a.now, a.order, k);
      }
      hide Poll, Wake, Step;
    }
  }

  // One worker polls only when it holds nothing.
  ghost predicate SingleWorker(actions: seq<Action>, w: Worker) {
    forall n :: 0 <= n < |actions| && actions[n].Polling? ==> actions[n].worker == w
  }

  lemma {:induction false} OnlyOneBusy(run: seq<System>, actions: seq<Action>, w: Worker, n: nat)
    requires IsRun(run, actions) && SingleWorker(actions, w) && n <= |actions|
    ensures run[n].busy.Keys <= {w}
  {
    if n > 0 {
      OnlyOneBusy(run, actions, w, n - 1);
      hide Poll, Done, Fail, Add, Sooner, Succeed;
    }
  }

  lemma {:induction false} HintKept(run: seq<System>, actions: seq<Action>, w: Worker, n: nat, m: nat, k: Key)
    requires IsRun(run, actions) && SingleWorker(actions, w) && n <= m <= |actions| && Held(run[n].queue, k)
    ensures Held(run[m].queue, k) || ServedBetween(run, actions, n, m, k)
    decreases m
  {
    if n < m {
      HintKept(run, actions, w, n, m - 1, k);
      AlwaysTidy(run, actions, m - 1);
      OnlyOneBusy(run, actions, w, m - 1);
      assert !Drops(run[m - 1], actions[m - 1], k);
      hide Tidy, Held, Serves, Step, Drops;
      if !ServedBetween(run, actions, n, m - 1, k) {
        StepHoldsIff(run[m - 1], actions[m - 1], k);
      }
    }
  }

  // With one worker no delayed hint is lost either.
  lemma DelayedHintIsServed(run: seq<System>, actions: seq<Action>, w: Worker, n: nat, m: nat, k: Key, due: int)
    requires IsRun(run, actions) && SingleWorker(actions, w) && n < m <= |actions| && actions[n] == Delaying(k, due)
    ensures Held(run[m].queue, k) || ServedBetween(run, actions, n + 1, m, k)
  {
    assert Held(run[n + 1].queue, k);
    HintKept(run, actions, w, n + 1, m, k);
  }

  // With two, a hint that falls due during a pass is gone when the pass ends.
  lemma TwoWorkersDropHint() returns (run: seq<System>, actions: seq<Action>, k: Key)
    ensures IsRun(run, actions) && |actions| == 5 && actions[2] == Delaying(k, 0)
    ensures !Held(run[5].queue, k) && !ServedBetween(run, actions, 3, 5, k)
  {
    k := "a";
    actions := [Adding(k), Polling(0, 0, []), Delaying(k, 0), Polling(1, 1, [k]), Finishing(0, None)];
    var s0 := System(EMPTY_QUEUE, map[]);
    var s1 := Step(s0, actions[0]);
    assert s1.queue == EMPTY_QUEUE.(pending := [k], queued := {k});
    var s2 := Step(s1, actions[1]);
    assert Wake(s1.queue, 0, []) == s1.queue;
    assert s2 == System(EMPTY_QUEUE.(processing := {k}), map[0 := k]);
    var s3 := Step(s2, actions[2]);
    assert s3.queue == EMPTY_QUEUE.(processing := {k}, delayed := map[k := 0]);
    var s4 := Step(s3, actions[3]);
    assert [k][1..] == [];
    assert Wake(s3.queue, 1, [k]) == s2.queue;
    assert s4 == s2;
    var s5 := Step(s4, actions[4]);
    assert s5.queue == EMPTY_QUEUE;
    run := [s0, s1, s2, s3, s4, s5];
  }

  // ---- when a key comes back ------------------------------------------------------------------------

  // How often in a row, up to step n, a reconcile of the key has failed.
  ghost function Streak(run: seq<System>, actions: seq<Action>, n: nat, k: Key): nat
    requires |run| == |actions| + 1 && n <= |actions|
  {
    if n == 0 then 0
    else
      var s, a, before := run[n - 1], actions[n - 1], Streak(run, actions, n - 1, k);
      if a.Failing? && a.worker in s.busy && s.busy[a.worker] == k then before + 1
      else if a.Finishing? && a.worker in s.busy && s.busy[a.worker] == k then 0
      else before
  }

  lemma {:induction false} WakeKeepsFailures(q: Queue, now: int, order: seq<Key>)
    ensures Wake(q, now, order).failures == q.failures
    decreases |order|
  {
    if order != [] {
      var k, rest := order[0], order[1..];
      if k in q.delayed && q.delayed[k] <= now {
        var awake := q.(delayed := q.delayed - {k});
        WakeKeepsFailures(if k !in q.queued && k !in q.processing then Push(awake, k) else awake, now, rest);
      } else {
        WakeKeepsFailures(q, now, rest);
      }
    }
  }

  lemma {:induction false} StreakIsCounted(run: seq<System>, actions: seq<Action>, n: nat, k: Key)
    requires IsRun(run, actions) && n <= |actions|
    ensures Failures(run[n].queue, k) == Streak(run, actions, n, k)
  {
    hide Wake, Backoff;
    if n > 0 {
      StreakIsCounted(run, actions, n - 1, k);
      assert run[n] == Step(run[n - 1], actions[n - 1]);
      if actions[n - 1].Polling? {
        WakeKeepsFailures(run[n - 1].queue, actions[n - 1].now, actions[n - 1].order);
      }
    }
  }

  // A key that has failed m times in a row since it was last reconciled with success waits the base
  // delay, doubled m times, or the cap if that is less.
  lemma FailureWaits(run: seq<System>, actions: seq<Action>, n: nat)
    requires IsRun(run, actions) && n < |actions| && actions[n].Failing?
    ensures
      var a, after := actions[n], run[n + 1].queue;
      var k := run[n].busy[a.worker];
      k in after.delayed &&
      after.delayed[k] == a.now + Min(a.base * Power(Streak(run, actions, n, k)), a.cap)
  {
    assert Enabled(run[n], actions[n]) && run[n + 1] == Step(run[n], actions[n]);
    StreakIsCounted(run, actions, n, run[n].busy[actions[n].worker]);
  }

  // Asked for again, a delayed key is due by any given time if and only if it was or the new time is no
  // later; nothing else about the queue changes.
  lemma SoonerIff(q: Queue, k: Key, due: int, limit: int)
    ensures
      var q' := Sooner(q, k, due);
      (k in q'.delayed && q'.delayed[k] <= limit <==> due <= limit || (k in q.delayed && q.delayed[k] <= limit)) &&
      (forall j :: j != k ==>
         (j in q'.delayed <==> j in q.delayed) && (j in q.delayed ==> q'.delayed[j] == q.delayed[j])) &&
      q' == q.(delayed := q'.delayed)
  {
  }
}
