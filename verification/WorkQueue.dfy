/**
 * orchestrator/controller.py: the deduplicating work queue between events and reconciles.
 *
 * Times are readings of one monotonic clock. A turn of the loop in `get` is one step: the wait between
 * two turns lets everybody else in.
 */
module WorkQueue {
  import opened Wrappers

  type Key = string

  datatype Queue = Queue(
    pending: seq<Key>,
    queued: set<Key>,
    processing: set<Key>,
    dirty: set<Key>,
    delayed: map<Key, int>,
    failures: map<Key, nat>)

  const EMPTY_QUEUE := Queue([], {}, {}, {}, map[], map[])

  function Push(q: Queue, k: Key): Queue {
    q.(queued := q.queued + {k}, pending := q.pending + [k])
  }

  function Add(q: Queue, k: Key): Queue {
    if k in q.processing then q.(dirty := q.dirty + {k})
    else if k in q.queued then q
    else Push(q, k)
  }

  function Sooner(q: Queue, k: Key, due: int): Queue {
    q.(delayed := q.delayed[k := if k in q.delayed then Min(q.delayed[k], due) else due])
  }

  // The due keys leave the delay, in the order the dictionary lists them.
  function Wake(q: Queue, now: int, order: seq<Key>): Queue
    decreases |order|
  {
    if order == [] then q
    else
      var k, rest := order[0], order[1..];
      if k in q.delayed && q.delayed[k] <= now then
        var awake := q.(delayed := q.delayed - {k});
        Wake(if k !in q.queued && k !in q.processing then Push(awake, k) else awake, now, rest)
      else Wake(q, now, rest)
  }

  // One turn of get: the first pending key, if there is one.
  function Poll(q: Queue, now: int, order: seq<Key>): (Queue, Option<Key>) {
    var awake := Wake(q, now, order);
    if awake.pending == [] then (awake, None)
    else
      var k := awake.pending[0];
      (awake.(pending := awake.pending[1..], queued := awake.queued - {k}, processing := awake.processing + {k}),
       Some(k))
  }

  function Done(q: Queue, k: Key, requeue: Option<int>): Queue {
    var rest := q.(processing := q.processing - {k});
    if k in q.dirty then
      var clean := rest.(dirty := q.dirty - {k});
      if k !in q.queued then Push(clean, k) else clean
    else if requeue.Some? then Sooner(rest, k, requeue.value)
    else rest
  }

  function Power(n: nat): nat {
    if n == 0 then 1 else 2 * Power(n - 1)
  }

  // base_delay * 2 ** (count - 1), capped.
  function Backoff(count: nat, base: nat, cap: nat): (delay: nat)
    requires count > 0
    ensures delay <= cap
  {
    var delay := base * Power(count - 1);
    if delay <= cap then delay else cap
  }

  // Each further failure doubles the delay until it meets the cap.
  lemma BackoffDoubles(count: nat, base: nat, cap: nat)
    requires count > 0
    ensures Backoff(1, base, cap) == Min(base, cap)
    ensures Backoff(count + 1, base, cap) == Min(2 * Backoff(count, base, cap), cap)
  {
    assert Power(count) == 2 * Power(count - 1);
    assert base * Power(count) == 2 * (base * Power(count - 1));
    assert Power(0) == 1;
  }

  function Failures(q: Queue, k: Key): nat {
    if k in q.failures then q.failures[k] else 0
  }

  // The delay replaces whatever delay the key had.
  function Fail(q: Queue, k: Key, now: int, base: nat, cap: nat): Queue {
    var count := Failures(q, k) + 1;
    q.(processing := q.processing - {k}, failures := q.failures[k := count],
       delayed := q.delayed[k := now + Backoff(count, base, cap)])
  }

  function Succeed(q: Queue, k: Key): Queue {
    q.(failures := q.failures - {k})
  }

  // ---- clients and workers --------------------------------------------------------------------------

  type Worker = nat

  datatype Action =
    | Adding(key: Key)
    | Delaying(key: Key, due: int)
    | Polling(worker: Worker, now: int, order: seq<Key>)
    | Finishing(worker: Worker, requeue: Option<int>)
    | Failing(worker: Worker, now: int, base: nat, cap: nat)

  // The queue and the key each busy worker is reconciling.
  datatype System = System(queue: Queue, busy: map<Worker, Key>)

  ghost predicate Distinct(keys: seq<Key>) {
    forall i, j :: 0 <= i < j < |keys| ==> keys[i] != keys[j]
  }

  ghost predicate Lists(order: seq<Key>, delayed: map<Key, int>) {
    Distinct(order) && forall k :: k in order <==> k in delayed
  }

  ghost predicate Enabled(s: System, a: Action) {
    match a
    case Adding(_) => true
    case Delaying(_, _) => true
    case Polling(w, now, order) => w !in s.busy && Lists(order, s.queue.delayed)
    case Finishing(w, _) => w in s.busy
    case Failing(w, _, _, _) => w in s.busy
  }

  function Step(s: System, a: Action): System {
    match a
    case Adding(k) => s.(queue := Add(s.queue, k))
    case Delaying(k, due) => s.(queue := Sooner(s.queue, k, due))
    case Polling(w, now, order) =>
      var (q, k) := Poll(s.queue, now, order);
      System(q, if k.Some? then s.busy[w := k.value] else s.busy)
    case Finishing(w, requeue) =>
      if w !in s.busy then s
      else System(Done(Succeed(s.queue, s.busy[w]), s.busy[w], requeue), s.busy - {w})
    case Failing(w, now, base, cap) =>
      if w !in s.busy then s
      else System(Fail(s.queue, s.busy[w], now, base, cap), s.busy - {w})
  }

  ghost predicate IsRun(run: seq<System>, actions: seq<Action>) {
    |run| == |actions| + 1 && run[0] == System(EMPTY_QUEUE, map[]) &&
    forall n :: 0 <= n < |actions| ==> Enabled(run[n], actions[n]) && run[n + 1] == Step(run[n], actions[n])
  }

  // ---- the invariant ----------------------------------------------------------------------------------

  ghost predicate Pending(q: Queue) {
    Distinct(q.pending) && (forall k :: k in q.pending <==> k in q.queued) && q.queued !! q.processing
  }

  ghost predicate Tidy(s: System) {
    Pending(s.queue) &&
    s.queue.dirty <= s.queue.processing + s.queue.queued + s.queue.delayed.Keys &&
    (forall w :: w in s.busy ==> s.busy[w] in s.queue.processing) &&
    (forall k :: k in s.queue.processing ==> exists w :: w in s.busy && s.busy[w] == k) &&
    forall v, w :: v in s.busy && w in s.busy && s.busy[v] == s.busy[w] ==> v == w
  }

  // What waking may do: move keys from the delay to the end of the line, and drop a delay whose key is
  // queued or being processed.
  ghost predicate Woken(q: Queue, now: int, awake: Queue) {
    awake == q.(pending := awake.pending, queued := awake.queued, delayed := awake.delayed) &&
    q.pending <= awake.pending && q.queued <= awake.queued && awake.delayed.Keys <= q.delayed.Keys &&
    (forall k :: k in awake.delayed ==> awake.delayed[k] == q.delayed[k]) &&
    (forall k :: k in q.delayed && k !in awake.delayed ==>
       q.delayed[k] <= now && (k in awake.queued || k in q.processing)) &&
    forall k :: k in awake.queued && k !in q.queued ==> k in q.delayed
  }

  lemma {:induction false} WakeWoken(q: Queue, now: int, order: seq<Key>)
    requires Pending(q)
    ensures Pending(Wake(q, now, order)) && Woken(q, now, Wake(q, now, order))
    decreases |order|
  {
    if order != [] {
      var k, rest := order[0], order[1..];
      if k in q.delayed && q.delayed[k] <= now {
        var awake := q.(delayed := q.delayed - {k});
        var next := if k !in q.queued && k !in q.processing then Push(awake, k) else awake;
        assert Pending(next);
        WakeWoken(next, now, rest);
      } else {
        WakeWoken(q, now, rest);
      }
    }
  }

  // Every listed key that is due has left the delay.
  lemma {:induction false} WakeIsThorough(q: Queue, now: int, order: seq<Key>, k: Key)
    requires Pending(q) && k in order
    ensures k in Wake(q, now, order).delayed ==> Wake(q, now, order).delayed[k] > now
    decreases |order|
  {
    var first, rest := order[0], order[1..];
    var next :=
      if first in q.delayed && q.delayed[first] <= now then
        var awake := q.(delayed := q.delayed - {first});
        if first !in q.queued && first !in q.processing then Push(awake, first) else awake
      else q;
    assert Pending(next);
    if k == first {
      WakeWoken(next, now, rest);
    } else {
      WakeIsThorough(next, now, rest, k);
    }
  }

  lemma PollTidy(s: System, a: Action)
    requires Tidy(s) && Enabled(s, a) && a.Polling?
    ensures Tidy(Step(s, a))
  {
    var awake := Wake(s.queue, a.now, a.order);
    WakeWoken(s.queue, a.now, a.order);
    hide Wake;
    var s' := Step(s, a);
    if awake.pending != [] {
      var k := awake.pending[0];
      assert k in awake.pending && k in awake.queued;
      assert awake.pending == [k] + awake.pending[1..];
      assert Pending(s'.queue);
      assert a.worker in s'.busy && s'.busy[a.worker] == k;
      forall j | j in s'.queue.processing ensures exists w :: w in s'.busy && s'.busy[w] == j {
        if j != k {
          var w :| w in s.busy && s.busy[w] == j;
          assert w in s'.busy && s'.busy[w] == j;
        }
      }
    }
  }

  lemma PutBackTidy(s: System, a: Action)
    requires Tidy(s) && Enabled(s, a) && (a.Finishing? || a.Failing?)
    ensures Tidy(Step(s, a))
  {
    var s', k := Step(s, a), s.busy[a.worker];
    assert k in s.queue.processing && k !in s.queue.queued && k !in s.queue.pending;
    assert Pending(s'.queue);
    forall j | j in s'.queue.processing ensures exists w :: w in s'.busy && s'.busy[w] == j {
      var w :| w in s.busy && s.busy[w] == j;
      assert w in s'.busy && s'.busy[w] == j;
    }
  }

  lemma StepTidy(s: System, a: Action)
    requires Tidy(s) && Enabled(s, a)
    ensures Tidy(Step(s, a))
  {
    if a.Polling? {
      PollTidy(s, a);
    } else if a.Finishing? || a.Failing? {
      PutBackTidy(s, a);
    } else {
      assert Pending(Step(s, a).queue);
    }
  }

  lemma {:induction false} AlwaysTidy(run: seq<System>, actions: seq<Action>, n: nat)
    requires IsRun(run, actions) && n <= |actions|
    ensures Tidy(run[n])
  {
    if n > 0 {
      AlwaysTidy(run, actions, n - 1);
      StepTidy(run[n - 1], actions[n - 1]);
    }
  }
}
