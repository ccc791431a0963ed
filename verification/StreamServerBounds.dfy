/**
How large the reference counts get, when they overflow, and what is left behind after the server has shut down.
*/
module StreamServerBounds {
  import opened StreamServer
  import opened StreamServerProof
  import opened StreamServerSteps
  import opened StreamServerMain
  import opened StreamServerTheorems

  /** A socket that exists was accepted, and the one whose release is in hand is marked for it. */
  predicate Marked(st: State) {
    AllKnown(st.socks) && InHand(st.main, st.socks)
  }

  predicate Known(k: Sock) { k.life != Unknown }

  predicate AllKnown(socks: seq<Sock>) { forall s | 0 <= s < |socks| :: Known(socks[s]) }

  predicate InHand(m: MainPc, socks: seq<Sock>) {
    m.MUnref? && m.sock < |socks| ==> socks[m.sock].freeOnUnref
  }

  lemma EarlyMarks(t: EventType, at: Place, k: Sock, member: bool, i: Input)
    requires Known(k) && Early(at)
    ensures var o := Handle(t, at, k, member, i); Known(o.sock) && o.sock.freeOnUnref == k.freeOnUnref
  {}

  lemma LateMarks(t: EventType, at: Place, k: Sock, member: bool, i: Input)
    requires Known(k) && !Early(at)
    ensures var o := Handle(t, at, k, member, i); Known(o.sock) && o.sock.freeOnUnref == k.freeOnUnref
  {}

  lemma ApplyMarks(st: State, i: nat, e: Entry, at: Place, o: Outcome)
    requires Marked(st) && i < |st.workers|
    requires e.sock < |st.socks| ==> Known(o.sock) && o.sock.freeOnUnref == st.socks[e.sock].freeOnUnref
    ensures Marked(Apply(st, i, e, at, o))
  {}

  lemma EventMarks(st: State, i: nat, e: Entry, at: Place, input: Input)
    requires Marked(st) && i < |st.workers|
    ensures Marked(EventStep(st, i, e, at, input))
  {
    var k, member := Get(st, e.sock), e.sock in st.cons;
    if e.sock < |st.socks| {
      if Early(at) { EarlyMarks(e.typ, at, k, member, input); } else { LateMarks(e.typ, at, k, member, input); }
    }
    ApplyMarks(st, i, e, at, Handle(e.typ, at, k, member, input));
  }

  lemma WorkerMarks(st: State, i: nat, input: Input)
    requires Marked(st) && i < |st.workers|
    ensures Marked(WorkerStep(st, i, input))
  {
    hide EventStep, AllKnown, Known, InHand;
    match st.workers[i].pc
    case Busy(e, at) => EventMarks(st, i, e, at, input);
    case _ => assert WorkerStep(st, i, input).main == st.main && WorkerStep(st, i, input).socks == st.socks;
  }

  lemma UpdMarks(st: State, s: nat, k: Sock)
    requires AllKnown(st.socks) && k.life == Get(st, s).life
    ensures AllKnown(Upd(st, s, k).socks) && |Upd(st, s, k).socks| == |st.socks|
    ensures s < |st.socks| ==> Upd(st, s, k).socks[s] == k
  {
    if s < |st.socks| { assert Known(st.socks[s]); }
  }

  lemma DisarmedMarks(socks: seq<Sock>, who: set<nat>)
    requires AllKnown(socks)
    ensures AllKnown(Disarmed(socks, who))
  {
    forall s | 0 <= s < |socks| ensures Known(Disarmed(socks, who)[s]) { assert Known(socks[s]); }
  }

  lemma ListenMarks(st: State, input: MainInput)
    requires Marked(st)
    ensures Marked(ListenStep(st, input))
  {
    hide AllKnown, Known, Disarmed;
    match st.main
    case MListen => DisarmedMarks(st.socks, ReadySocks(input.batch));
    case MRelease => if st.release != [] { UpdMarks(st, st.release[0], FreeEnabled(Get(st, st.release[0]))); }
    case MUnref(s) => UpdMarks(st, s, Unreffed(Get(st, s)));
    case _ =>
  }

  lemma BatchMarks(st: State, input: MainInput)
    requires Marked(st)
    ensures Marked(BatchStep(st, input))
  {
    hide AllKnown, Known;
    match st.main
    case MCloseReady(s) => UpdMarks(st, s, ClosedSock(Get(st, s)));
    case MRefReady(e) => UpdMarks(st, e.sock, Reffed(Get(st, e.sock)));
    case _ =>
  }

  lemma AcceptMarks(st: State, input: MainInput)
    requires Marked(st)
    ensures Marked(AcceptStep(st, input))
  {}

  lemma StopMarks(st: State, input: MainInput)
    requires Marked(st)
    ensures Marked(StopStep(st, input))
  {
    hide AllKnown, Known;
    if st.main.MDrainClear? && st.queue != [] {
      UpdMarks(st, st.queue[0].sock, Dropped(Get(st, st.queue[0].sock), st.queue[0].typ));
    }
  }

  lemma DrainMarks(st: State, input: MainInput)
    requires Marked(st)
    ensures Marked(DrainStep(st, input))
  {
    hide AllKnown, Known;
    match st.main
    case MDrainConns => UpdMarks(st, input.pick, ClosedSock(Get(st, input.pick)));
    case MDrainRef(s) => UpdMarks(st, s, Reffed(Get(st, s)));
    case _ =>
  }

  lemma EndMarks(st: State, input: MainInput)
    requires Marked(st)
    ensures Marked(EndStep(st, input))
  {
    hide AllKnown, Known;
    if st.main.MFreeAll? && st.release != [] { UpdMarks(st, st.release[0], Freed(Get(st, st.release[0]))); }
  }

  lemma StepMarks(st: State, a: Action)
    requires Marked(st)
    ensures Marked(Step(st, a))
  {
    match a
    case Stop =>
    case Main(input) =>
      ListenMarks(st, input);
      BatchMarks(st, input);
      AcceptMarks(st, input);
      StopMarks(st, input);
      DrainMarks(st, input);
      EndMarks(st, input);
    case Work(i, input) => if i < |st.workers| { WorkerMarks(st, i, input); }
  }

  lemma {:induction false} ExecMarks(threads: nat, actions: seq<Action>)
    ensures Marked(Exec(Init(threads), actions))
    decreases |actions|
  {
    if actions != [] {
      ExecMarks(threads, actions[..|actions| - 1]);
      StepMarks(Exec(Init(threads), actions[..|actions| - 1]), actions[|actions| - 1]);
    }
  }

  // ---------------------------------------------------------------- the count

  lemma SockBound(k: Sock, member: bool, l: Share, n: nat, inHand: bool)
    requires SockOk(k, member, l) && l.refs <= n + Bit(inHand) + l.pend + l.reg + l.retire && n > 0
    requires inHand ==> k.freeOnUnref
    ensures k.refcount <= n + 1
  {}

  lemma CountBound(st: State, s: nat)
    requires Inv(st) && Marked(st)
    ensures Get(st, s).refcount <= |st.workers| + 1
  {
    assert SockOk(Get(st, s), s in st.cons, Ledger(st, s));
    LedgerBound(st, s);
    if s >= |st.socks| { NoSock(st, s); }
    SockBound(Get(st, s), s in st.cons, Ledger(st, s), |st.workers|, s < |st.socks| && st.main == MUnref(s));
  }

  /** A socket never has more references than there are workers, and one more: the token, or the pending release, or the
      reference that the main thread is about to drop. */
  lemma RefcountBound(threads: nat, actions: seq<Action>, s: nat)
    requires threads > 0
    ensures Get(Exec(Init(threads), actions), s).refcount <= threads + 1
  {
    ExecInv(threads, actions);
    ExecWorkers(threads, actions);
    ExecMarks(threads, actions);
    CountBound(Exec(Init(threads), actions), s);
  }

  /** The socket that a step of the main thread stores. */
  function Touched(st: State, input: MainInput): nat {
    match st.main
    case MRelease => if st.release == [] then 0 else st.release[0]
    case MUnref(s) => s
    case MCloseReady(s) => s
    case MRefReady(e) => e.sock
    case MDrainClear => if st.queue == [] then 0 else st.queue[0].sock
    case MDrainConns => input.pick
    case MDrainRef(s) => s
    case MFreeAll => if st.release == [] then 0 else st.release[0]
    case _ => 0
  }

  /** A step sets the flag only if it stores a count that is too large. */
  ghost predicate StoresIfOver(st: State, st': State, s: nat) {
    st'.overflow ==> st.overflow || Get(st', s).refcount > UINT8_MAX
  }

  lemma ListenStores(st: State, input: MainInput)
    ensures StoresIfOver(st, ListenStep(st, input), Touched(st, input))
  {
    hide FreeEnabled, Unreffed, Disarmed, ValidBatch, ReadySocks;
  }

  lemma BatchStores(st: State, input: MainInput)
    ensures StoresIfOver(st, BatchStep(st, input), Touched(st, input))
  {
    hide ClosedSock, Reffed, NextReady;
  }

  lemma StopStores(st: State, input: MainInput)
    ensures StoresIfOver(st, StopStep(st, input), Touched(st, input))
  {
    hide Dropped;
  }

  lemma DrainStores(st: State, input: MainInput)
    ensures StoresIfOver(st, DrainStep(st, input), Touched(st, input))
  {
    hide ClosedSock, Reffed;
  }

  lemma EndStores(st: State, input: MainInput)
    ensures StoresIfOver(st, EndStep(st, input), Touched(st, input))
  {
    hide Freed;
  }

  lemma WorkerStores(st: State, i: nat, input: Input)
    requires i < |st.workers|
    ensures StoresIfOver(st, WorkerStep(st, i, input), if st.workers[i].pc.Busy? then st.workers[i].pc.entry.sock else 0)
  {
    hide Handle, AtGot;
  }

  lemma Stores(st: State, a: Action) returns (s: nat)
    ensures StoresIfOver(st, Step(st, a), s)
  {
    s := 0;
    match a
    case Stop =>
    case Main(input) =>
      s := Touched(st, input);
      ListenStores(st, input);
      BatchStores(st, input);
      StopStores(st, input);
      DrainStores(st, input);
      EndStores(st, input);
    case Work(i, input) =>
      if i < |st.workers| {
        WorkerStores(st, i, input);
        if st.workers[i].pc.Busy? { s := st.workers[i].pc.entry.sock; }
      }
  }

  /** With at most 254 workers no assertion fails at all, whatever the schedule. */
  lemma {:induction false} NoFailure(threads: nat, actions: seq<Action>)
    requires 0 < threads < UINT8_MAX
    ensures var st := Exec(Init(threads), actions); !st.fault && !st.overflow
    decreases |actions|
  {
    NoFault(threads, actions);
    if actions != [] {
      NoFailure(threads, actions[..|actions| - 1]);
      var s := Stores(Exec(Init(threads), actions[..|actions| - 1]), actions[|actions| - 1]);
      RefcountBound(threads, actions, s);
    }
  }

  // ------------------------------------------------------------- shutting down

  /** After the server has shut down, a connected socket was disconnected exactly once, unless it died in its own
      `sock_connected` callback; and every accepted socket was freed exactly once, unless it died there or the drain
      dropped its ACCEPTED event. */
  lemma ShutDown(threads: nat, actions: seq<Action>, s: nat)
    requires threads > 0
    ensures var st := Exec(Init(threads), actions);
            st.main == MDone && s < |st.socks| ==>
              var k := st.socks[s].past;
              && (k.connected == 1 && k.disconnected == 0 <==> k.diedEarly)
              && (k.freed == 0 <==> k.diedEarly || k.cleared)
  {
    ExecInv(threads, actions);
    ExecMarks(threads, actions);
    var st := Exec(Init(threads), actions);
    if st.main == MDone && s < |st.socks| { Ended(st, s); }
  }
}
