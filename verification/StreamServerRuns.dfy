/**
Two complete runs of the stream server that lose a socket: one is closed by its own `sock_connected` callback, the other
still waits for a worker when the server is stopped.
*/
module StreamServerRuns {
  import opened StreamServer
  import opened StreamServerProof
  import opened StreamServerMain
  import opened StreamServerTheorems

  /** A set of states that no step leaves. */
  ghost predicate Stable(reach: State -> bool) {
    forall st, a {:trigger reach(Step(st, a))} :: reach(st) ==> reach(Step(st, a))
  }

  lemma Goes(reach: State -> bool, st: State, a: Action, st': State)
    requires Stable(reach) && reach(st) && Step(st, a) == st'
    ensures reach(st')
  {
    assert reach(Step(st, a));
  }

  lemma Reach(threads: nat, st: State, a: Action)
    requires Reachable(threads, st)
    ensures Reachable(threads, Step(st, a))
  {
    var actions :| Exec(Init(threads), actions) == st;
    assert (actions + [a])[..|actions|] == actions;
    assert Exec(Init(threads), actions + [a]) == Step(st, a);
  }

  /** The reachable states are such a set. */
  lemma ReachableStable(threads: nat)
    ensures Stable((st: State) => Reachable(threads, st)) && Reachable(threads, Init(threads))
  {
    forall st, a | Reachable(threads, st) ensures Reachable(threads, Step(st, a)) { Reach(threads, st, a); }
    assert Exec(Init(threads), []) == Init(threads);
  }

  const GO: Input := Input(true, false, false, false)

  const HANG_UP: Input := Input(true, true, false, false)

  /** The main thread at `m` while one worker is at `pc`. */
  function One(running: bool, k: Sock, queue: seq<Entry>, m: MainPc, w: Worker): State {
    State(running, [k], queue, {}, [], [], true, true, {}, if w.draining || w.pc == AwaitRun then 0 else 1,
          if RunReleased(m) then 0 else 1, m, [w], {}, false, false)
  }

  const TICK: Action := Main(MainInput(true, [], 0))

  /** Before the first connection. */
  function Empty(w: Worker): State {
    One(true, FRESH, [], MCheck, w).(socks := [], accepting := false)
  }

  lemma Hears(reach: State -> bool, w: Worker)
    requires Stable(reach) && reach(Empty(w))
    ensures reach(One(true, FRESH, [], MBatch, w).(socks := [], serverArmed := false))
  {
    var s1 := Empty(w);
    Goes(reach, s1, TICK, s1.(main := MListen));
    var b := [ServerReady];
    assert ValidBatch(s1.(main := MListen), b);
    assert Disarmed(s1.socks, ReadySocks(b)) == s1.socks;
    var s2 := s1.(main := MRelease, batch := b, serverArmed := false);
    Goes(reach, s1.(main := MListen), Main(MainInput(true, b, 0)), s2);
    Goes(reach, s2, TICK, s2.(main := MBatch));
    Goes(reach, s2.(main := MBatch), TICK, s2.(main := MBatch, batch := [], accepting := true));
  }

  /** The connection is accepted and its event queued. */
  lemma TakesIn(reach: State -> bool, w: Worker)
    requires Stable(reach) && reach(Empty(w))
    ensures reach(One(true, FRESH, [Entry(0, Accepted)], MCheck, w))
  {
    Hears(reach, w);
    var st := One(true, FRESH, [], MBatch, w).(serverArmed := false);
    var full := st.(main := MAccept, queue := [Entry(0, Accepted)]);
    Goes(reach, st.(socks := []), TICK, st.(socks := [], main := MAccept));
    Goes(reach, st.(socks := [], main := MAccept), TICK, st.(main := MAcceptAdd(0)));
    Goes(reach, st.(main := MAcceptAdd(0)), TICK, full);
    Goes(reach, full, Main(MainInput(false, [], 0)), full.(main := MCheck, serverArmed := true));
  }

  lemma Handles(reach: State -> bool, k: Sock, at: Place, input: Input, k': Sock, next: Place)
    requires Stable(reach) && reach(One(true, k, [], MCheck, Worker(false, Busy(Entry(0, Accepted), at))))
    requires at != FreeAdd && at != RequeueAdd && next != Gone && k.past.freed == 0 && k'.refcount <= UINT8_MAX
    requires Handle(Accepted, at, k, false, input) == Outcome(next, k', false, false)
    ensures reach(One(true, k', [], MCheck, Worker(false, Busy(Entry(0, Accepted), next))))
  {
    var e := Entry(0, Accepted);
    var st := One(true, k, [], MCheck, Worker(false, Busy(e, at)));
    Applied(k, k', at, next);
    Goes(reach, st, Work(0, input), Apply(st, 0, e, at, Outcome(next, k', false, false)));
  }

  lemma Applied(k: Sock, k': Sock, at: Place, next: Place)
    requires at != FreeAdd && at != RequeueAdd && next != Gone && k.past.freed == 0 && k'.refcount <= UINT8_MAX
    ensures var e := Entry(0, Accepted);
            Apply(One(true, k, [], MCheck, Worker(false, Busy(e, at))), 0, e, at, Outcome(next, k', false, false))
            == One(true, k', [], MCheck, Worker(false, Busy(e, next)))
  {}

  /** The socket of the run below when its ACCEPTED event has been handled. */
  function Left(refcount: nat, locked: bool, life: Life): Sock {
    Sock(locked, false, true, false, false, false, refcount, false, life,
         Past(1, 0, 0, 0, true, false))
  }

  lemma Polls(reach: State -> bool)
    requires Stable(reach) && reach(Init(1))
    ensures reach(One(true, FRESH, [], MCheck, Worker(false, Busy(Entry(0, Accepted), Got))))
  {
    assert Init(1) == Empty(Worker(false, Idle));
    Goes(reach, Init(1), Work(0, GO), Empty(Worker(false, Waiting)));
    TakesIn(reach, Worker(false, Waiting));
    Goes(reach, One(true, FRESH, [Entry(0, Accepted)], MCheck, Worker(false, Waiting)), Work(0, GO),
         One(true, FRESH, [], MCheck, Worker(false, Busy(Entry(0, Accepted), Got))));
  }

  const LOCKED: Sock := FRESH.(readLocked := true)

  const CLOSED: Sock := LOCKED.(closed := true, past := FRESH.past.(connected := 1))

  /** The socket is closed by its `sock_connected` callback. */
  lemma IsClosed(reach: State -> bool)
    requires Stable(reach) && reach(Init(1))
    ensures reach(One(true, CLOSED, [], MCheck, Worker(false, Busy(Entry(0, Accepted), Check))))
  {
    Polls(reach);
    Handles(reach, FRESH, Got, GO, FRESH, TryLock);
    Handles(reach, FRESH, TryLock, GO, LOCKED, Locked);
    Handles(reach, LOCKED, Locked, GO, LOCKED, Connect);
    Handles(reach, LOCKED, Connect, HANG_UP, CLOSED, Check);
  }

  lemma IsAbandoned(reach: State -> bool)
    requires Stable(reach) && reach(Init(1))
    ensures reach(One(true, Left(1, true, Abandoned), [], MCheck, Worker(false, Busy(Entry(0, Accepted), Unlock))))
  {
    IsClosed(reach);
    Handles(reach, CLOSED, Check, GO, Left(1, true, Pending), Remove);
    Handles(reach, Left(1, true, Pending), Remove, GO, Left(1, true, Abandoned), Unlock);
  }

  lemma IsLeft(reach: State -> bool)
    requires Stable(reach) && reach(Init(1))
    ensures reach(One(true, Left(0, false, Abandoned), [], MCheck, Worker(false, Idle)))
  {
    IsAbandoned(reach);
    Handles(reach, Left(1, true, Abandoned), Unlock, GO, Left(1, false, Abandoned), Finish);
    Goes(reach, One(true, Left(1, false, Abandoned), [], MCheck, Worker(false, Busy(Entry(0, Accepted), Finish))),
         Work(0, GO), One(true, Left(0, false, Abandoned), [], MCheck, Worker(false, Idle)));
  }

  const WAIT: Worker := Worker(false, AwaitRun)

  lemma WorkerStops(reach: State -> bool, k: Sock, q: seq<Entry>)
    requires Stable(reach) && reach(One(true, k, q, MCheck, Worker(false, Idle)))
    ensures reach(One(false, k, q, MCheck, WAIT))
  {
    Goes(reach, One(true, k, q, MCheck, Worker(false, Idle)), Stop, One(false, k, q, MCheck, Worker(false, Idle)));
    Goes(reach, One(false, k, q, MCheck, Worker(false, Idle)), Work(0, GO), One(false, k, q, MCheck, Worker(false, Count)));
    Goes(reach, One(false, k, q, MCheck, Worker(false, Count)), Work(0, GO), One(false, k, q, MCheck, WAIT));
  }

  lemma MainStops(reach: State -> bool, k: Sock, q: seq<Entry>)
    requires Stable(reach) && reach(One(false, k, q, MCheck, WAIT))
    ensures reach(One(false, k, q, MDrainClear, WAIT))
  {
    Goes(reach, One(false, k, q, MCheck, WAIT), TICK, One(false, k, q, MFinish, WAIT));
    Goes(reach, One(false, k, q, MFinish, WAIT), TICK, One(false, k, q, MAwaitPrepare, WAIT));
    Goes(reach, One(false, k, q, MAwaitPrepare, WAIT), TICK, One(false, k, q, MDrainClear, WAIT));
  }

  lemma MainDrains(reach: State -> bool, k: Sock)
    requires Stable(reach) && reach(One(false, k, [], MDrainClear, WAIT))
    ensures reach(One(false, k, [], MJoin, WAIT))
  {
    Goes(reach, One(false, k, [], MDrainClear, WAIT), TICK, One(false, k, [], MDrainConns, WAIT));
    Goes(reach, One(false, k, [], MDrainConns, WAIT), TICK, One(false, k, [], MCountRun, WAIT));
    Goes(reach, One(false, k, [], MCountRun, WAIT), TICK, One(false, k, [], MJoin, WAIT));
  }

  lemma WorkerDrains(reach: State -> bool, k: Sock)
    requires Stable(reach) && reach(One(false, k, [], MJoin, WAIT))
    ensures reach(One(false, k, [], MJoin, Worker(true, Done)))
  {
    Goes(reach, One(false, k, [], MJoin, WAIT), Work(0, GO), One(false, k, [], MJoin, Worker(true, Idle)));
    Goes(reach, One(false, k, [], MJoin, Worker(true, Idle)), Work(0, GO), One(false, k, [], MJoin, Worker(true, Done)));
  }

  lemma MainEnds(reach: State -> bool, k: Sock)
    requires Stable(reach) && reach(One(false, k, [], MJoin, Worker(true, Done)))
    ensures reach(One(false, k, [], MDone, Worker(true, Done)))
  {
    Goes(reach, One(false, k, [], MJoin, Worker(true, Done)), TICK, One(false, k, [], MFreeAll, Worker(true, Done)));
    Goes(reach, One(false, k, [], MFreeAll, Worker(true, Done)), TICK, One(false, k, [], MDone, Worker(true, Done)));
  }

  /** From the cleared queue to the end. */
  lemma Shuts(reach: State -> bool, k: Sock)
    requires Stable(reach) && reach(One(false, k, [], MDrainClear, WAIT))
    ensures reach(One(false, k, [], MDone, Worker(true, Done)))
  {
    MainDrains(reach, k);
    WorkerDrains(reach, k);
    MainEnds(reach, k);
  }

  lemma ClosesAndEnds(reach: State -> bool)
    requires Stable(reach) && reach(Init(1))
    ensures reach(One(false, Left(0, false, Abandoned), [], MDone, Worker(true, Done)))
  {
    var k := Left(0, false, Abandoned);
    IsLeft(reach);
    WorkerStops(reach, k, []);
    MainStops(reach, k, []);
    Shuts(reach, k);
  }

  /** A socket that closes itself in `sock_connected` is lost: a complete run that neither disconnects nor frees it. */
  lemma LostInCallback()
    ensures exists actions: seq<Action> ::
              var st := Exec(Init(1), actions);
              st.main == MDone && |st.socks| == 1 && st.socks[0].past == Past(1, 0, 0, 0, true, false)
  {
    ReachableStable(1);
    ClosesAndEnds(st => Reachable(1, st));
    var st := One(false, Left(0, false, Abandoned), [], MDone, Worker(true, Done));
    var actions :| Exec(Init(1), actions) == st;
  }

  lemma ClearsAndEnds(reach: State -> bool)
    requires Stable(reach) && reach(Init(1))
    ensures reach(One(false, Dropped(FRESH, Accepted), [], MDone, Worker(true, Done)))
  {
    var e, k := Entry(0, Accepted), Dropped(FRESH, Accepted);
    assert Init(1) == Empty(Worker(false, Idle));
    TakesIn(reach, Worker(false, Idle));
    WorkerStops(reach, FRESH, [e]);
    MainStops(reach, FRESH, [e]);
    Goes(reach, One(false, FRESH, [e], MDrainClear, WAIT), TICK, One(false, k, [], MDrainClear, WAIT));
    Shuts(reach, k);
  }

  /** So is a socket that was accepted, but whose event no worker has taken when the server is stopped: a complete run that
      never frees it. */
  lemma LostInDrain()
    ensures exists actions: seq<Action> ::
              var st := Exec(Init(1), actions);
              st.main == MDone && |st.socks| == 1 && st.socks[0].past == Past(0, 0, 0, 0, false, true)
  {
    ReachableStable(1);
    ClearsAndEnds(st => Reachable(1, st));
    var st := One(false, Dropped(FRESH, Accepted), [], MDone, Worker(true, Done));
    var actions :| Exec(Init(1), actions) == st;
  }
}
