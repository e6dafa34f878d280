/** The rate limited work queue of client-go v0.27, by its contract. The queue is
    not part of the repository; this contract is what the controller relies on. */
module WorkQueue {
  import opened Keys

  function At(m: map<Key, nat>, k: Key): nat {
    if k in m then m[k] else 0
  }

  /** `order` holds the keys ready to be handed out, `dirty` those that need
      processing, `processing` those handed out and not yet done, `waiting` those
      that come back after a delay; `failures` is the rate limiter's count. */
  datatype Queue = Queue(
    order: seq<Key>,
    dirty: set<Key>,
    processing: set<Key>,
    waiting: set<Key>,
    failures: map<Key, nat>,
    shuttingDown: bool)
  {
    function Add(k: Key): Queue {
      if shuttingDown || k in dirty then this
      else if k in processing then this.(dirty := dirty + {k})
      else this.(dirty := dirty + {k}, order := order + [k])
    }

    function Get(): Queue
      requires order != []
    {
      this.(order := order[1..], dirty := dirty - {order[0]}, processing := processing + {order[0]})
    }

    function Done(k: Key): Queue {
      this.(processing := processing - {k}, order := if k in dirty then order + [k] else order)
    }

    function AddRateLimited(k: Key): Queue {
      this.(failures := failures[k := At(failures, k) + 1],
            waiting := if shuttingDown then waiting else waiting + {k})
    }

    function Forget(k: Key): Queue {
      this.(failures := failures - {k})
    }

    /** The delay of a waiting key is over. */
    function Fire(k: Key): Queue {
      this.(waiting := waiting - {k}).Add(k)
    }

    function ShutDown(): Queue {
      this.(shuttingDown := true)
    }

    /** One round of a worker: the first key is taken, reconciled with this outcome,
        and handed back. */
    function Round(ok: bool): Queue
      requires order != []
    {
      var k := order[0];
      (if ok then Get().Forget(k) else Get().AddRateLimited(k)).Done(k)
    }

    /** Each key that is dirty and not being processed is ready, and ready once. */
    ghost predicate Valid() {
      && (forall i, j :: 0 <= i < j < |order| ==> order[i] != order[j])
      && (forall k :: k in order <==> k in dirty && k !in processing)
    }

    lemma GetKeeps()
      requires Valid() && order != []
      ensures Get().Valid() && order[0] !in processing
    {}

    lemma DoneKeeps(k: Key)
      requires Valid() && k in processing
      ensures Done(k).Valid()
    {}
  }

  const EMPTY := Queue([], {}, {}, {}, map[], false)
}
