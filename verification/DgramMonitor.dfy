/**
The critical sections of the datagram server over its linked queue and its counter, proved against the steps of
`DgramServer`.
*/
module DgramMonitor {
  import opened DgramServer
  import Q = SQueue

  datatype Outcome = Added | Dropped | MustWait

  /** What the mutex protects: the linked queue and the counter. */
  class Dgrams {
    const limit: nat
    const queue: Q.Queue<nat>
    var count: nat

    ghost function Ids(): seq<nat>
      reads this, queue, queue.nodes
    {
      seq(|queue.nodes|, i requires 0 <= i < |queue.nodes| reads queue, queue.nodes => queue.nodes[i].value)
    }

    ghost predicate Valid()
      reads this, queue, queue.nodes
    {
      queue.Valid() && count >= |queue.nodes|
    }

    /** The linked queue holds the datagrams of a state of the model. */
    ghost predicate Represents(s: State)
      reads this, queue, queue.nodes
    {
      s.queue == Ids() && s.count == count && s.limit == limit && s.lock == Free
    }

    constructor (threads: nat, limit: nat, left: nat)
      ensures Valid() && Represents(Init(threads, limit, left)) && fresh(queue)
    {
      this.limit := limit;
      queue := new Q.Queue();
      count := left;
    }

    /** The critical section of `enqueue_dgram`, from taking the mutex to giving it back or to deciding to wait. */
    method Enqueue(entry: Q.Node<nat>, running: bool, ghost s: State) returns (o: Outcome)
      requires Valid() && Represents(s) && entry !in queue.nodes
      requires s.producer == Adding(entry.value) && s.running == running
      modifies this`count, queue, entry`next, if queue.tail == null then {} else {queue.tail}
      ensures Valid() && queue.nodes == old(queue.nodes) + if o == Added then [entry] else []
      ensures o == Added <==> old(count) < limit
      ensures var t := ProducerStep(s, true);
              && Ids() == t.queue && count == t.count
              && (o == MustWait <==> t.producer.Deciding?)
              && (o == Dropped <==> t.dropped == s.dropped + [entry.value])
    {
      if count >= limit {
        return if running then MustWait else Dropped;
      }
      queue.Add(entry);
      count := count + 1;
      o := Added;
    }

    /** The critical section of a worker: takes the oldest datagram, if there is one. */
    method Dequeue(ghost s: State, ghost worker: nat) returns (entry: Q.Node?<nat>)
      requires Valid() && Represents(s) && worker < |s.workers| && s.workers[worker] == Polling
      modifies this`count, queue
      ensures Valid()
      ensures entry == null ==> queue.nodes == old(queue.nodes) == []
      ensures entry != null ==> [entry] + queue.nodes == old(queue.nodes)
      ensures var t := WorkerStep(s, worker);
              && Ids() == t.queue && count == t.count
              && (entry != null <==> t.workers[worker].Processing?)
              && (entry != null ==> t.workers[worker].id == entry.value)
    {
      var empty := queue.IsEmpty();
      if empty {
        return null;
      }
      entry := queue.Poll();
      count := count - 1;
    }
  }
}
