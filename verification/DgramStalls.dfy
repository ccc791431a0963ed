/**
Runs of the datagram server that stall, for every number of workers and every limit, and one that leaves the next run a
counter at the limit.
*/
module DgramStalls {
  import opened DgramServer

  /** A state of some first run. */
  ghost predicate Reachable(threads: nat, limit: nat, s: State) {
    exists actions: seq<Action> :: Exec(Init(threads, limit, 0), actions) == s
  }

  /** A set of states that no step leaves. */
  ghost predicate Stable(reach: State -> bool) {
    forall s, a | reach(s) :: reach(Step(s, a))
  }

  lemma Goes(reach: State -> bool, s: State, a: Action, t: State)
    requires Stable(reach) && reach(s) && Step(s, a) == t
    ensures reach(t)
  {}

  lemma ReachableStable(threads: nat, limit: nat)
    ensures Stable(s => Reachable(threads, limit, s)) && Reachable(threads, limit, Init(threads, limit, 0))
  {
    assert Exec(Init(threads, limit, 0), []) == Init(threads, limit, 0);
    forall s, a | Reachable(threads, limit, s) ensures Reachable(threads, limit, Step(s, a)) {
      var actions :| Exec(Init(threads, limit, 0), actions) == s;
      assert (actions + [a])[..|actions|] == actions;
      assert Exec(Init(threads, limit, 0), actions + [a]) == Step(s, a);
    }
  }

  /** The first worker is at `w`, the others have ended up to the `k`-th, the rest have not begun. */
  function Crew(n: nat, w: Worker, k: nat): (ws: seq<Worker>)
    ensures |ws| == n
    ensures forall i | 0 <= i < n :: ws[i] == (if i == 0 then w else if i < k then Gone else Idle)
  {
    seq(n, i requires 0 <= i => if i == 0 then w else if i < k then Gone else Idle)
  }

  /** A state in which no datagram has been taken: the first `q` are in the queue. */
  function At(n: nat, limit: nat, running: bool, q: nat, lock: Lock, p: Producer, arrived: nat, w: Worker, k: nat): State {
    State(limit, 0, running, Upto(q), q, lock, p, Crew(n, w, k), arrived, [], [], [])
  }

  lemma RousedCrew(n: nat, w: Worker, k: nat)
    requires w != Dozing
    ensures Roused(Crew(n, w, k)) == Crew(n, w, k)
  {}

  lemma Begins(reach: State -> bool, n: nat, limit: nat)
    requires n > 0 && reach(Init(n, limit, 0))
    ensures reach(At(n, limit, true, 0, Free, Receiving, 0, Idle, 1))
  {
    assert Init(n, limit, 0) == At(n, limit, true, 0, Free, Receiving, 0, Idle, 1);
  }

  /** Datagrams arrive before any worker has begun. */
  lemma {:induction false} Fills(reach: State -> bool, n: nat, limit: nat, q: nat)
    requires Stable(reach) && n > 0 && reach(Init(n, limit, 0)) && q <= limit
    ensures reach(At(n, limit, true, q, Free, Receiving, q, Idle, 1))
  {
    if q == 0 {
      Begins(reach, n, limit);
    } else {
      Fills(reach, n, limit, q - 1);
      RousedCrew(n, Idle, 1);
      assert Upto(q) == Upto(q - 1) + [q - 1];
      Goes(reach, At(n, limit, true, q - 1, Free, Receiving, q - 1, Idle, 1), Produce(true),
           At(n, limit, true, q - 1, Free, Adding(q - 1), q, Idle, 1));
      Goes(reach, At(n, limit, true, q - 1, Free, Adding(q - 1), q, Idle, 1), Produce(true),
           At(n, limit, true, q, Free, Receiving, q, Idle, 1));
    }
  }

  /** The workers but the first one find the server stopped. */
  lemma {:induction false} Leave(reach: State -> bool, n: nat, limit: nat, q: nat, lock: Lock, p: Producer, arrived: nat,
                                 w: Worker, k: nat)
    requires Stable(reach) && 0 < k <= n && reach(At(n, limit, false, q, lock, p, arrived, w, 1))
    ensures reach(At(n, limit, false, q, lock, p, arrived, w, k))
  {
    if k > 1 {
      Leave(reach, n, limit, q, lock, p, arrived, w, k - 1);
      assert Crew(n, w, k - 1)[k - 1 := Gone] == Crew(n, w, k);
      Goes(reach, At(n, limit, false, q, lock, p, arrived, w, k - 1), Work(k - 1),
           At(n, limit, false, q, lock, p, arrived, w, k));
    }
  }

  /** A step of the first worker. */
  lemma First(reach: State -> bool, n: nat, s: State, t: State, w: Worker, w': Worker, k: nat)
    requires Stable(reach) && n > 0 && reach(s) && s.workers == Crew(n, w, k)
    requires t == s.(lock := t.lock, workers := Crew(n, w', k))
    requires WorkerStep(s, 0) == s.(lock := t.lock, workers := s.workers[0 := w'])
    ensures reach(t)
  {
    assert Crew(n, w, k)[0 := w'] == Crew(n, w', k);
    Goes(reach, s, Work(0), t);
  }

  /** All workers end. */
  lemma AllLeave(reach: State -> bool, n: nat, limit: nat, q: nat, p: Producer, arrived: nat)
    requires Stable(reach) && n > 0 && reach(At(n, limit, false, q, Free, p, arrived, Idle, 1))
    ensures reach(At(n, limit, false, q, Free, p, arrived, Gone, n))
  {
    Leave(reach, n, limit, q, Free, p, arrived, Idle, n);
    First(reach, n, At(n, limit, false, q, Free, p, arrived, Idle, n), At(n, limit, false, q, Free, p, arrived, Gone, n),
          Idle, Gone, n);
  }

  // ------------------------------------------------------------ the first stall

  lemma FillsAndWaits(reach: State -> bool, n: nat, limit: nat)
    requires Stable(reach) && n > 0 && reach(Init(n, limit, 0))
    ensures reach(At(n, limit, false, limit, Free, Sleeping(limit), limit + 1, Gone, n))
  {
    Fills(reach, n, limit, limit);
    var a := limit + 1;
    Goes(reach, At(n, limit, true, limit, Free, Receiving, limit, Idle, 1), Produce(true),
         At(n, limit, true, limit, Free, Adding(limit), a, Idle, 1));
    Goes(reach, At(n, limit, true, limit, Free, Adding(limit), a, Idle, 1), Produce(true),
         At(n, limit, true, limit, Receiver, Deciding(limit), a, Idle, 1));
    Goes(reach, At(n, limit, true, limit, Receiver, Deciding(limit), a, Idle, 1), Produce(true),
         At(n, limit, true, limit, Free, Sleeping(limit), a, Idle, 1));
    Goes(reach, At(n, limit, true, limit, Free, Sleeping(limit), a, Idle, 1), Stop,
         At(n, limit, false, limit, Free, Sleeping(limit), a, Idle, 1));
    AllLeave(reach, n, limit, limit, Sleeping(limit), a);
  }

  /** For every number of workers and every limit, the server can be stopped while the receiving thread waits for room, and
      no worker is left to make it. */
  lemma CanBeAbandoned(threads: nat, limit: nat)
    requires threads > 0
    ensures exists s :: Reachable(threads, limit, s) && Stalled(s) && FullAndAbandoned(s)
  {
    ReachableStable(threads, limit);
    FillsAndWaits(s => Reachable(threads, limit, s), threads, limit);
    var s := At(threads, limit, false, limit, Free, Sleeping(limit), limit + 1, Gone, threads);
    forall i | 0 <= i < threads ensures WorkerStep(s, i) == s {}
    assert Stalled(s) && FullAndAbandoned(s);
  }

  // ----------------------------------------------------------- the second stall

  lemma DoubtsAndSleeps(reach: State -> bool, n: nat, limit: nat)
    requires Stable(reach) && n > 0 && reach(Init(n, limit, 0))
    ensures reach(At(n, limit, false, 0, Free, Joining, 0, Dozing, n))
  {
    Begins(reach, n, limit);
    First(reach, n, At(n, limit, true, 0, Free, Receiving, 0, Idle, 1), At(n, limit, true, 0, Free, Receiving, 0, Polling, 1),
          Idle, Polling, 1);
    First(reach, n, At(n, limit, true, 0, Free, Receiving, 0, Polling, 1),
          At(n, limit, true, 0, Held(0), Receiving, 0, Doubting, 1), Polling, Doubting, 1);
    Goes(reach, At(n, limit, true, 0, Held(0), Receiving, 0, Doubting, 1), Stop,
         At(n, limit, false, 0, Held(0), Receiving, 0, Doubting, 1));
    Goes(reach, At(n, limit, false, 0, Held(0), Receiving, 0, Doubting, 1), Produce(true),
         At(n, limit, false, 0, Held(0), Interrupting, 0, Doubting, 1));
    RousedCrew(n, Doubting, 1);
    Goes(reach, At(n, limit, false, 0, Held(0), Interrupting, 0, Doubting, 1), Produce(true),
         At(n, limit, false, 0, Held(0), Joining, 0, Doubting, 1));
    Leave(reach, n, limit, 0, Held(0), Joining, 0, Doubting, n);
    First(reach, n, At(n, limit, false, 0, Held(0), Joining, 0, Doubting, n),
          At(n, limit, false, 0, Free, Joining, 0, Dozing, n), Doubting, Dozing, n);
  }

  /** For every number of workers and every limit, the server can be stopped, and the last signal sent, between a worker's
      test of the flag and its going to sleep. */
  lemma CanMissTheEnd(threads: nat, limit: nat)
    requires threads > 0
    ensures exists s :: Reachable(threads, limit, s) && Stalled(s) && MissedTheEnd(s)
  {
    ReachableStable(threads, limit);
    DoubtsAndSleeps(s => Reachable(threads, limit, s), threads, limit);
    var s := At(threads, limit, false, 0, Free, Joining, 0, Dozing, threads);
    forall i | 0 <= i < threads ensures WorkerStep(s, i) == s {}
    assert s.workers[0] in s.workers && s.workers[0] == Dozing;
    assert Stalled(s) && MissedTheEnd(s);
  }

  // ----------------------------------------------------------------- what is left

  lemma FillsAndEnds(reach: State -> bool, n: nat, limit: nat)
    requires Stable(reach) && n > 0 && reach(Init(n, limit, 0))
    ensures reach(At(n, limit, false, limit, Free, Over, limit, Gone, n))
  {
    Fills(reach, n, limit, limit);
    RousedCrew(n, Idle, 1);
    Goes(reach, At(n, limit, true, limit, Free, Receiving, limit, Idle, 1), Stop,
         At(n, limit, false, limit, Free, Receiving, limit, Idle, 1));
    Goes(reach, At(n, limit, false, limit, Free, Receiving, limit, Idle, 1), Produce(true),
         At(n, limit, false, limit, Free, Interrupting, limit, Idle, 1));
    Goes(reach, At(n, limit, false, limit, Free, Interrupting, limit, Idle, 1), Produce(true),
         At(n, limit, false, limit, Free, Joining, limit, Idle, 1));
    AllLeave(reach, n, limit, limit, Joining, limit);
    Goes(reach, At(n, limit, false, limit, Free, Joining, limit, Gone, n), Produce(true),
         At(n, limit, false, limit, Free, Over, limit, Gone, n));
  }

  /** For every number of workers and every limit, a run can end with a counter at the limit, after which the next run on
      the same object never handles a datagram. */
  lemma CanStarveTheNext(threads: nat, limit: nat)
    requires threads > 0
    ensures exists s :: Reachable(threads, limit, s) && s.producer == Over && s.count == limit
    ensures forall actions :: Exec(Init(threads, limit, limit), actions).taken == []
  {
    ReachableStable(threads, limit);
    FillsAndEnds(s => Reachable(threads, limit, s), threads, limit);
    var s := At(threads, limit, false, limit, Free, Over, limit, Gone, threads);
    assert Reachable(threads, limit, s) && s.producer == Over && s.count == limit;
    forall actions ensures Exec(Init(threads, limit, limit), actions).taken == [] {
      Starves(threads, limit, limit, actions);
    }
  }
}
