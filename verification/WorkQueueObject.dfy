/** The WorkQueue object, each method against its function in WorkQueue.dfy. */
module WorkQueueObject {
  import opened Wrappers
  import Q = WorkQueue

  type Key = Q.Key

  class WorkQueue {
    var pending: seq<Key>
    var queued: set<Key>
    var processing: set<Key>
    var dirty: set<Key>
    var delayed: map<Key, int>
    var failures: map<Key, nat>

    ghost function Contents(): Q.Queue
      reads this
    {
      Q.Queue(pending, queued, processing, dirty, delayed, failures)
    }

    constructor ()
      ensures Contents() == Q.EMPTY_QUEUE
    {
      pending, queued, processing, dirty, delayed, failures := [], {}, {}, {}, map[], map[];
    }

    method Add(key: Key)
      modifies this
      ensures Contents() == Q.Add(old(Contents()), key)
    {
      if key in processing {
        dirty := dirty + {key};
        return;
      }
      if key in queued {
        return;
      }
      queued := queued + {key};
      pending := pending + [key];
    }

    method AddAfter(key: Key, due: int)
      modifies this
      ensures Contents() == Q.Sooner(old(Contents()), key, due)
    {
      if key in delayed {
        delayed := delayed[key := Min(delayed[key], due)];
      } else {
        delayed := delayed[key := due];
      }
    }

    // One turn of the loop of get.
    method Poll(now: int, order: seq<Key>) returns (key: Option<Key>)
      modifies this
      ensures (Contents(), key) == Q.Poll(old(Contents()), now, order)
    {
      var n := 0;
      while n < |order|
        invariant n <= |order| && Q.Wake(Contents(), now, order[n..]) == Q.Wake(old(Contents()), now, order)
      {
        var k := order[n];
        assert order[n..][1..] == order[n + 1..];
        if k in delayed && delayed[k] <= now {
          delayed := delayed - {k};
          if k !in queued && k !in processing {
            queued := queued + {k};
            pending := pending + [k];
          }
        }
        n := n + 1;
      }
      if pending == [] {
        return None;
      }
      var first := pending[0];
      pending := pending[1..];
      queued := queued - {first};
      processing := processing + {first};
      return Some(first);
    }

    method Done(key: Key, requeue: Option<int>)
      modifies this
      ensures Contents() == Q.Done(old(Contents()), key, requeue)
    {
      processing := processing - {key};
      if key in dirty {
        dirty := dirty - {key};
        if key !in queued {
          queued := queued + {key};
          pending := pending + [key];
        }
      } else if requeue.Some? {
        AddAfter(key, requeue.value);
      }
    }

    method Fail(key: Key, now: int, base: nat, cap: nat) returns (delay: nat)
      modifies this
      ensures Contents() == Q.Fail(old(Contents()), key, now, base, cap)
      ensures delay == Q.Backoff(Q.Failures(old(Contents()), key) + 1, base, cap)
    {
      processing := processing - {key};
      var count: nat := 1;
      if key in failures {
        count := failures[key] + 1;
      }
      failures := failures[key := count];
      delay := Q.Backoff(count, base, cap);
      delayed := delayed[key := now + delay];
    }

    method Succeed(key: Key)
      modifies this
      ensures Contents() == Q.Succeed(old(Contents()), key)
    {
      failures := failures - {key};
    }
  }
}
