/**
With 255 workers or more the one-byte reference count can overflow: each of 255 workers is suspended between unlocking a
socket, which is armed again, and dropping its reference; then the socket becomes readable once more.
*/
module StreamServerOverflow {
  import opened StreamServer
  import opened StreamServerMain
  import opened StreamServerTheorems
  import opened StreamServerBounds
  import opened StreamServerRuns

  /** The event that worker `i` handles: the first one is that of the new connection. */
  function Held(i: nat): Entry { Entry(0, if i == 0 then Accepted else Read) }

  /** The first `k` of `n` workers are suspended before their last step, the next one is at `pc`, the others are idle. */
  function Crew(n: nat, k: nat, pc: WorkerPc): (ws: seq<Worker>)
    ensures |ws| == n
    ensures forall i :: 0 <= i < n ==> ws[i] == Worker(false, if i < k then Busy(Held(i), Finish) else if i == k then pc else Idle)
  {
    seq(n, i requires 0 <= i => Worker(false, if i < k then Busy(Held(i), Finish) else if i == k then pc else Idle))
  }

  lemma CrewMoves(n: nat, k: nat, pc: WorkerPc, next: WorkerPc)
    requires k < n
    ensures Crew(n, k, pc)[k := Worker(false, next)] == Crew(n, k, next)
    ensures Crew(n, k, Busy(Held(k), Finish)) == Crew(n, k + 1, Idle)
  {}

  /** The main thread at `m`, with one socket or none. */
  function Sit(n: nat, k: nat, pc: WorkerPc, socks: seq<Sock>, queue: seq<Entry>, cons: set<nat>, m: MainPc, accepting: bool)
    : State
  {
    State(true, socks, queue, cons, [], [], accepting, true, {}, n, 1, m, Crew(n, k, pc), {}, false, false)
  }

  /** The registered socket with `c` references. */
  function Conn(c: nat, locked: bool, armed: bool): Sock {
    Sock(locked, false, false, false, false, false, c, armed, Registered, Past(1, 0, 0, 0, false, false))
  }

  // --------------------------------------------------------------- one worker

  lemma Applied(n: nat, k: nat, at: Place, sock: Sock, cons: set<nat>, sock': Sock, cons': set<nat>, next: Place, acc: bool)
    requires k < n && sock.past.freed == 0 && sock'.refcount <= UINT8_MAX && cons <= {0} && cons' <= {0}
    requires at != FreeAdd && at != RequeueAdd && next != Gone
    ensures Apply(Sit(n, k, Busy(Held(k), at), [sock], [], cons, MCheck, acc), k, Held(k), at,
                  Outcome(next, sock', 0 in cons', false))
            == Sit(n, k, Busy(Held(k), next), [sock'], [], cons', MCheck, acc)
  {
    CrewMoves(n, k, Busy(Held(k), at), Busy(Held(k), next));
    assert cons' == if 0 in cons' then cons + {0} else cons - {0};
  }

  lemma Handles(reach: State -> bool, n: nat, k: nat, acc: bool, at: Place, sock: Sock, cons: set<nat>,
                sock': Sock, cons': set<nat>, next: Place)
    requires Stable(reach) && k < n && cons <= {0} && cons' <= {0}
    requires reach(Sit(n, k, Busy(Held(k), at), [sock], [], cons, MCheck, acc))
    requires sock.past.freed == 0 && sock'.refcount <= UINT8_MAX && at != FreeAdd && at != RequeueAdd && next != Gone
    requires Handle(Held(k).typ, at, sock, 0 in cons, GO) == Outcome(next, sock', 0 in cons', false)
    ensures reach(Sit(n, k, Busy(Held(k), next), [sock'], [], cons', MCheck, acc))
  {
    var st := Sit(n, k, Busy(Held(k), at), [sock], [], cons, MCheck, acc);
    Applied(n, k, at, sock, cons, sock', cons', next, acc);
    Goes(reach, st, Work(k, GO), Apply(st, k, Held(k), at, Outcome(next, sock', 0 in cons', false)));
  }

  /** The next worker takes the event. */
  lemma Polls(reach: State -> bool, n: nat, k: nat, acc: bool, sock: Sock, cons: set<nat>)
    requires Stable(reach) && k < n && reach(Sit(n, k, Idle, [sock], [Held(k)], cons, MCheck, acc))
    ensures reach(Sit(n, k, Busy(Held(k), Got), [sock], [], cons, MCheck, acc))
  {
    CrewMoves(n, k, Idle, Waiting);
    CrewMoves(n, k, Waiting, Busy(Held(k), Got));
    Goes(reach, Sit(n, k, Idle, [sock], [Held(k)], cons, MCheck, acc), Work(k, GO),
         Sit(n, k, Waiting, [sock], [Held(k)], cons, MCheck, acc));
    Goes(reach, Sit(n, k, Waiting, [sock], [Held(k)], cons, MCheck, acc), Work(k, GO),
         Sit(n, k, Busy(Held(k), Got), [sock], [], cons, MCheck, acc));
  }

  // --------------------------------------------------------- the first worker

  lemma Comes(reach: State -> bool, n: nat)
    requires Stable(reach) && reach(Init(n))
    ensures reach(Sit(n, 0, Idle, [], [], {}, MBatch, true).(serverArmed := false))
  {
    var st := Sit(n, 0, Idle, [], [], {}, MCheck, false);
    assert Init(n) == st;
    Goes(reach, st, TICK, st.(main := MListen));
    var b := [ServerReady];
    assert ValidBatch(st.(main := MListen), b) && Disarmed(st.socks, ReadySocks(b)) == st.socks;
    var st' := st.(main := MRelease, batch := b, serverArmed := false);
    Goes(reach, st.(main := MListen), Main(MainInput(true, b, 0)), st');
    Goes(reach, st', TICK, st'.(main := MBatch));
    Goes(reach, st'.(main := MBatch), TICK, st'.(main := MBatch, batch := [], accepting := true));
  }

  lemma TakesIn(reach: State -> bool, n: nat)
    requires Stable(reach) && reach(Init(n))
    ensures reach(Sit(n, 0, Idle, [FRESH], [Held(0)], {}, MCheck, true))
  {
    Comes(reach, n);
    var st := Sit(n, 0, Idle, [], [], {}, MBatch, true).(serverArmed := false);
    var full := st.(main := MAccept, socks := [FRESH], queue := [Held(0)]);
    Goes(reach, st, TICK, st.(main := MAccept));
    Goes(reach, st.(main := MAccept), TICK, st.(main := MAcceptAdd(0), socks := [FRESH]));
    Goes(reach, st.(main := MAcceptAdd(0), socks := [FRESH]), TICK, full);
    Goes(reach, full, Main(MainInput(false, [], 0)), full.(main := MCheck, serverArmed := true));
  }

  lemma First(reach: State -> bool, n: nat)
    requires Stable(reach) && reach(Init(n)) && n > 0
    ensures reach(Sit(n, 1, Idle, [Conn(1, false, true)], [], {0}, MCheck, true))
  {
    var met := LOCKED.(past := LOCKED.past.(connected := 1));
    TakesIn(reach, n);
    Polls(reach, n, 0, true, FRESH, {});
    Handles(reach, n, 0, true, Got, FRESH, {}, FRESH, {}, TryLock);
    Handles(reach, n, 0, true, TryLock, FRESH, {}, LOCKED, {}, Locked);
    Handles(reach, n, 0, true, Locked, LOCKED, {}, LOCKED, {}, Connect);
    Handles(reach, n, 0, true, Connect, LOCKED, {}, met, {}, Check);
    Handles(reach, n, 0, true, Check, met, {}, met, {}, Register);
    Handles(reach, n, 0, true, Register, met, {}, Conn(1, true, true), {0}, Unlock);
    Handles(reach, n, 0, true, Unlock, Conn(1, true, true), {0}, Conn(1, false, true), {0}, Finish);
    CrewMoves(n, 0, Idle, Idle);
  }

  // -------------------------------------------------------- the other workers

  /** The armed socket is readable again. */
  lemma Listens(reach: State -> bool, n: nat, k: nat, acc: bool)
    requires Stable(reach) && reach(Sit(n, k, Idle, [Conn(k, false, true)], [], {0}, MCheck, acc)) && k > 0
    ensures reach(Sit(n, k, Idle, [Conn(k, false, false)], [], {0}, MRefReady(Held(k)), false))
  {
    var st := Sit(n, k, Idle, [Conn(k, false, true)], [], {0}, MCheck, acc);
    Goes(reach, st, TICK, st.(main := MListen));
    var b := [Ready(Held(k))];
    assert b[0].entry.sock in ReadySocks(b);
    assert ValidBatch(st.(main := MListen), b) && Disarmed(st.socks, ReadySocks(b)) == [Conn(k, false, false)];
    var st' := st.(main := MRelease, batch := b, accepting := false, socks := [Conn(k, false, false)]);
    Goes(reach, st.(main := MListen), Main(MainInput(true, b, 0)), st');
    Goes(reach, st', TICK, st'.(main := MBatch));
    Goes(reach, st'.(main := MBatch), TICK, st'.(main := MRefReady(Held(k)), batch := []));
  }

  lemma Queues(reach: State -> bool, n: nat, k: nat, acc: bool)
    requires Stable(reach) && reach(Sit(n, k, Idle, [Conn(k, false, true)], [], {0}, MCheck, acc)) && 0 < k < UINT8_MAX
    ensures reach(Sit(n, k, Idle, [Conn(k + 1, false, false)], [Held(k)], {0}, MCheck, false))
  {
    Listens(reach, n, k, acc);
    var st := Sit(n, k, Idle, [Conn(k, false, false)], [], {0}, MRefReady(Held(k)), false);
    var st' := st.(main := MAddReady(Held(k)), socks := [Conn(k + 1, false, false)]);
    Goes(reach, st, TICK, st');
    Goes(reach, st', TICK, st'.(main := MBatch, queue := [Held(k)]));
    Goes(reach, st'.(main := MBatch, queue := [Held(k)]), TICK, st'.(main := MCheck, queue := [Held(k)]));
  }

  lemma Next(reach: State -> bool, n: nat, k: nat, acc: bool)
    requires Stable(reach) && reach(Sit(n, k, Idle, [Conn(k, false, true)], [], {0}, MCheck, acc))
    requires 0 < k < n && k < UINT8_MAX
    ensures reach(Sit(n, k + 1, Idle, [Conn(k + 1, false, true)], [], {0}, MCheck, false))
  {
    var c := k + 1;
    Queues(reach, n, k, acc);
    Polls(reach, n, k, false, Conn(c, false, false), {0});
    Handles(reach, n, k, false, Got, Conn(c, false, false), {0}, Conn(c, false, false), {0}, TryLock);
    Handles(reach, n, k, false, TryLock, Conn(c, false, false), {0}, Conn(c, true, false), {0}, Locked);
    Handles(reach, n, k, false, Locked, Conn(c, true, false), {0}, Conn(c, true, false), {0}, Check);
    Handles(reach, n, k, false, Check, Conn(c, true, false), {0}, Conn(c, true, false), {0}, Rearm);
    Handles(reach, n, k, false, Rearm, Conn(c, true, false), {0}, Conn(c, true, true), {0}, Unlock);
    Handles(reach, n, k, false, Unlock, Conn(c, true, true), {0}, Conn(c, false, true), {0}, Finish);
    CrewMoves(n, k, Idle, Idle);
  }

  lemma {:induction false} Suspends(reach: State -> bool, n: nat, k: nat)
    requires Stable(reach) && reach(Init(n)) && 0 < k <= n && k <= UINT8_MAX
    ensures reach(Sit(n, k, Idle, [Conn(k, false, true)], [], {0}, MCheck, k == 1))
    decreases k
  {
    if k == 1 {
      First(reach, n);
    } else {
      Suspends(reach, n, k - 1);
      Next(reach, n, k - 1, k == 2);
    }
  }

  lemma Overflows(reach: State -> bool, n: nat) returns (st: State)
    requires Stable(reach) && reach(Init(n)) && n >= UINT8_MAX
    ensures reach(st) && st.overflow
  {
    Suspends(reach, n, UINT8_MAX);
    Listens(reach, n, UINT8_MAX, false);
    st := Step(Sit(n, UINT8_MAX, Idle, [Conn(UINT8_MAX, false, false)], [], {0}, MRefReady(Held(UINT8_MAX)), false), TICK);
    Goes(reach, Sit(n, UINT8_MAX, Idle, [Conn(UINT8_MAX, false, false)], [], {0}, MRefReady(Held(UINT8_MAX)), false), TICK,
         st);
  }

  /** Some schedule makes an assertion fail, or a thread touch a freed socket, if and only if there are at least 255
      workers. */
  lemma FailsIff(threads: nat)
    requires threads > 0
    ensures (exists actions :: Exec(Init(threads), actions).fault || Exec(Init(threads), actions).overflow)
            <==> threads >= UINT8_MAX
  {
    if threads >= UINT8_MAX {
      ReachableStable(threads);
      var st := Overflows(st => Reachable(threads, st), threads);
      var actions :| Exec(Init(threads), actions) == st;
      assert Exec(Init(threads), actions).overflow;
    } else {
      forall actions ensures !Exec(Init(threads), actions).fault && !Exec(Init(threads), actions).overflow {
        NoFailure(threads, actions);
      }
    }
  }
}
