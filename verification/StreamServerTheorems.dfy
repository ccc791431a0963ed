/**
What the stream server guarantees over every schedule: any number of workers, any interleaving of any length, any
behaviour of the callbacks and of the system calls.
*/
module StreamServerTheorems {
  import opened StreamServer
  import opened StreamServerProof
  import opened StreamServerSteps
  import opened StreamServerMain

  /** A state of some run of a server with `threads` workers. */
  ghost predicate Reachable(threads: nat, st: State) {
    exists actions: seq<Action> :: Exec(Init(threads), actions) == st
  }

  lemma {:induction false} UncountedInit(ws: seq<Worker>)
    requires forall w | w in ws :: w == Worker(false, Idle)
    ensures Uncounted(ws) == |ws|
  {
    if ws != [] {
      assert ws[0] in ws && forall w | w in ws[1..] :: w in ws;
      UncountedInit(ws[1..]);
    }
  }

  lemma InitSock(threads: nat, s: nat)
    ensures Ledger(Init(threads), s) == ZERO
  {
    var st := Init(threads);
    Settled(st, s);
  }

  lemma InitInv(threads: nat)
    requires threads > 0
    ensures Inv(Init(threads))
  {
    var st := Init(threads);
    UncountedInit(st.workers);
    forall s: nat ensures SockOk(Get(st, s), s in st.cons, Ledger(st, s)) && DrainOk(st, s) {
      InitSock(threads, s);
    }
  }

  lemma StepKeeps(st: State, a: Action)
    requires Inv(st)
    ensures Inv(Step(st, a))
  {
    hide Inv;
    match a
    case Stop => StopKeeps(st, st.(running := false));
    case Main(input) => MainKeeps(st, input);
    case Work(i, input) => if i < |st.workers| { WorkerKeeps(st, i, input); }
  }

  lemma StopKeeps(st: State, st': State)
    requires Inv(st) && st' == st.(running := false)
    ensures Inv(st')
  {
    forall w | w in st'.workers ensures WorkerOk(st', w) { assert WorkerOk(st, w); }
    forall s: nat ensures Ledger(st', s) == Ledger(st, s) { SameMainLedger(st, st', s); }
    SocksKept(st, st');
    DrainsKept(st, st');
  }

  /** The invariant holds in every reachable state. */
  lemma {:induction false} ExecInv(threads: nat, actions: seq<Action>)
    requires threads > 0
    ensures Inv(Exec(Init(threads), actions))
    decreases |actions|
  {
    if actions == [] {
      InitInv(threads);
    } else {
      ExecInv(threads, actions[..|actions| - 1]);
      StepKeeps(Exec(Init(threads), actions[..|actions| - 1]), actions[|actions| - 1]);
    }
  }

  lemma ListenWorkers(st: State, input: MainInput)
    ensures ListenStep(st, input).workers == st.workers
  {
    hide FreeEnabled, Unreffed, Disarmed, ValidBatch, ReadySocks, Get;
  }

  lemma BatchWorkers(st: State, input: MainInput)
    ensures BatchStep(st, input).workers == st.workers
  {
    hide Get, Reffed, ClosedSock, NextReady;
  }

  lemma StopWorkers(st: State, input: MainInput)
    ensures StopStep(st, input).workers == st.workers
  {
    hide Dropped, Get;
  }

  lemma AcceptWorkers(st: State, input: MainInput)
    ensures AcceptStep(st, input).workers == st.workers
  {
    hide Reffed;
  }

  lemma DrainWorkers(st: State, input: MainInput)
    ensures DrainStep(st, input).workers == st.workers
  {
    hide Get, Reffed, ClosedSock;
  }

  lemma EndWorkers(st: State, input: MainInput)
    ensures EndStep(st, input).workers == st.workers
  {
    hide Freed, Get;
  }

  lemma EventWorkers(st: State, i: nat, e: Entry, at: Place, input: Input)
    requires i < |st.workers|
    ensures |EventStep(st, i, e, at, input).workers| == |st.workers|
  {
    hide Handle;
  }

  lemma StepWorkers(st: State, a: Action)
    ensures |Step(st, a).workers| == |st.workers|
  {
    hide ListenStep, BatchStep, AcceptStep, StopStep, DrainStep, EndStep, EventStep, Get;
    match a
    case Stop =>
    case Main(input) =>
      ListenWorkers(st, input);
      BatchWorkers(st, input);
      AcceptWorkers(st, input);
      StopWorkers(st, input);
      DrainWorkers(st, input);
      EndWorkers(st, input);
    case Work(i, input) =>
      if i < |st.workers| && st.workers[i].pc.Busy? {
        EventWorkers(st, i, st.workers[i].pc.entry, st.workers[i].pc.at, input);
      }
  }

  lemma {:induction false} ExecWorkers(threads: nat, actions: seq<Action>)
    ensures |Exec(Init(threads), actions).workers| == threads
    decreases |actions|
  {
    if actions != [] {
      ExecWorkers(threads, actions[..|actions| - 1]);
      StepWorkers(Exec(Init(threads), actions[..|actions| - 1]), actions[|actions| - 1]);
    }
  }

  // ------------------------------------------------- parts of the sums

  lemma {:induction false} InQueue(q: seq<Entry>, e: Entry)
    requires e in q
    ensures SumQ(q, e.sock, Refs) >= 1 && SumQ(q, e.sock, Pend) + SumQ(q, e.sock, Reg) >= 1
  {
    if q[0] != e { InQueue(q[1..], e); }
  }

  lemma {:induction false} InRelease(r: seq<nat>, s: nat)
    requires s in r
    ensures SumR(r, s, Refs) >= 1
  {
    if r[0] != s { InRelease(r[1..], s); }
  }

  lemma {:induction false} InBatch(b: seq<Ready>, r: Ready)
    requires r in b && r.Ready?
    ensures SumB(b, r.entry.sock, Pend) + SumB(b, r.entry.sock, Reg) >= 1
  {
    if b[0] != r { InBatch(b[1..], r); }
  }

  lemma {:induction false} OneWorker(ws: seq<Worker>, i: nat, s: nat, k: Kind)
    requires i < |ws|
    ensures Of(WorkerShare(ws[i], s), k) <= SumW(ws, s, k)
  {
    if i > 0 { OneWorker(ws[1..], i - 1, s, k); }
  }

  lemma {:induction false} TwoWorkers(ws: seq<Worker>, i: nat, j: nat, s: nat, k: Kind)
    requires i < j < |ws|
    ensures Of(WorkerShare(ws[i], s), k) + Of(WorkerShare(ws[j], s), k) <= SumW(ws, s, k)
  {
    if i > 0 { TwoWorkers(ws[1..], i - 1, j - 1, s, k); } else { OneWorker(ws[1..], j - 1, s, k); }
  }

  /** If a sum over the workers is not zero, one of them has a share. */
  lemma {:induction false} SomeWorker(ws: seq<Worker>, s: nat, k: Kind) returns (i: nat)
    requires SumW(ws, s, k) > 0
    ensures i < |ws| && Of(WorkerShare(ws[i], s), k) > 0
  {
    if Of(WorkerShare(ws[0], s), k) > 0 {
      i := 0;
    } else {
      i := SomeWorker(ws[1..], s, k);
      i := i + 1;
    }
  }

  /** The places a socket is referred to from, and how the parts add up. */
  lemma Parts(st: State, s: nat, k: Kind)
    ensures Of(Ledger(st, s), k) == SumW(st.workers, s, k) + SumQ(st.queue, s, k) + SumB(st.batch, s, k)
                                    + SumR(st.release, s, k) + Of(MainShare(st.main, s), k)
  {
    hide WLedger, QLedger, BLedger, RLedger, MainShare;
    WLedgerOf(st.workers, s, k);
    QLedgerOf(st.queue, s, k);
    BLedgerOf(st.batch, s, k);
    RLedgerOf(st.release, s, k);
    OutsideIs(st, s);
  }

  // ------------------------------------------------------------- theorems

  /** No assertion fails, except perhaps the one on the range of a reference count, and no thread touches a socket after it
      was freed. */
  lemma NoFault(threads: nat, actions: seq<Action>)
    requires threads > 0
    ensures !Exec(Init(threads), actions).fault
  {
    ExecInv(threads, actions);
  }

  /** The number of counted references to `s`: its queue entries, the workers that hold an event for it, its entries in
      the release list, and the main thread. */
  function References(st: State, s: nat): nat {
    SumW(st.workers, s, Refs) + SumQ(st.queue, s, Refs) + SumR(st.release, s, Refs)
      + Of(MainShare(st.main, s), Refs)
  }

  lemma {:induction false} BatchHoldsNoRefs(b: seq<Ready>, s: nat)
    ensures SumB(b, s, Refs) == 0
  {
    if b != [] { BatchHoldsNoRefs(b[1..], s); }
  }

  lemma RefsAre(st: State, s: nat)
    ensures Ledger(st, s).refs == References(st, s)
  {
    hide Ledger;
    Parts(st, s, Refs);
    BatchHoldsNoRefs(st.batch, s);
  }

  /** The reference count of a socket that was not freed is exact; a freed socket has no reference left. */
  lemma RefcountExact(threads: nat, actions: seq<Action>, s: nat)
    requires threads > 0
    ensures var st := Exec(Init(threads), actions);
            if Get(st, s).past.freed == 0 then Get(st, s).refcount == References(st, s) else References(st, s) == 0
  {
    hide Ledger;
    ExecInv(threads, actions);
    var st := Exec(Init(threads), actions);
    assert SockOk(Get(st, s), s in st.cons, Ledger(st, s));
    RefsAre(st, s);
  }

  /** A freed socket is nowhere: not armed, not registered, not reported, not queued, not waiting for release and in the
      hands of no worker. */
  lemma FreedIsGone(threads: nat, actions: seq<Action>, s: nat)
    requires threads > 0 && Get(Exec(Init(threads), actions), s).past.freed > 0
    ensures var st := Exec(Init(threads), actions);
            && !Get(st, s).armed && s !in st.cons && s !in st.release
            && (forall e | e in st.queue :: e.sock != s)
            && (forall r | r in st.batch :: r.Ready? ==> r.entry.sock != s)
            && (forall w | w in st.workers :: w.pc.Busy? ==> w.pc.entry.sock != s)
  {
    hide Ledger, SockOk;
    ExecInv(threads, actions);
    var st := Exec(Init(threads), actions);
    FreedSums(st, s);
    if s in st.release { InRelease(st.release, s); }
    forall e | e in st.queue ensures e.sock != s { if e.sock == s { InQueue(st.queue, e); } }
    forall r | r in st.batch && r.Ready? ensures r.entry.sock != s { if r.entry.sock == s { InBatch(st.batch, r); } }
    forall w | w in st.workers && w.pc.Busy? ensures w.pc.entry.sock != s {
      var i :| 0 <= i < |st.workers| && st.workers[i] == w;
      OneWorker(st.workers, i, s, Refs);
      assert WorkerOk(st, w);
    }
  }

  lemma FreedSums(st: State, s: nat)
    requires Inv(st) && Get(st, s).past.freed > 0
    ensures !Get(st, s).armed && s !in st.cons
    ensures SumW(st.workers, s, Refs) == SumQ(st.queue, s, Refs) == SumR(st.release, s, Refs) == 0
    ensures SumB(st.batch, s, Pend) == SumB(st.batch, s, Reg) == 0
  {
    assert SockOk(Get(st, s), s in st.cons, Ledger(st, s));
    Parts(st, s, Refs);
    Parts(st, s, Pend);
    Parts(st, s, Reg);
  }

  /** The release list keeps a reference, so marking its sockets for release never frees one on the spot. */
  lemma ReleasedAreReferenced(threads: nat, actions: seq<Action>, s: nat)
    requires threads > 0 && s in Exec(Init(threads), actions).release
    ensures var k := Get(Exec(Init(threads), actions), s);
            k.refcount > 0 && k.past.freed == 0 && FreeEnabled(k).past.freed == 0
  {
    RefcountExact(threads, actions, s);
    ReleasedRefs(Exec(Init(threads), actions), s);
  }

  lemma ReleasedRefs(st: State, s: nat)
    requires s in st.release
    ensures References(st, s) > 0
  {
    InRelease(st.release, s);
  }

  /** What can drive a socket's life on: its events in the listener batch or the queue, the workers before the end of their
      handling, and the main thread. */
  function Drivers(st: State, s: nat, k: Kind): nat {
    SumW(st.workers, s, k) + SumQ(st.queue, s, k) + SumB(st.batch, s, k) + Of(MainShare(st.main, s), k)
  }

  lemma DriversAre(st: State, s: nat, k: Kind)
    requires k == Pend || k == Reg
    ensures Drivers(st, s, k) == Of(Ledger(st, s), k)
  {
    Parts(st, s, k);
    SumRKinds(st.release, s, k);
  }

  lemma OneDriver(k: Sock, member: bool, l: Share)
    requires SockOk(k, member, l)
    ensures Bit(k.armed) + Of(l, Pend) + Of(l, Reg) <= 1
  {}

  /** A single token: a socket is armed, or there is one unhandled event for it somewhere, or neither; never two. */
  lemma SingleToken(threads: nat, actions: seq<Action>, s: nat)
    requires threads > 0
    ensures var st := Exec(Init(threads), actions);
            Bit(Get(st, s).armed) + Drivers(st, s, Pend) + Drivers(st, s, Reg) <= 1
  {
    hide Ledger, SockOk, DrainOk;
    ExecInv(threads, actions);
    var st := Exec(Init(threads), actions);
    OneDriver(Get(st, s), s in st.cons, Ledger(st, s));
    DriversAre(st, s, Pend);
    DriversAre(st, s, Reg);
  }

  lemma WorkerBound(w: Worker, s: nat)
    ensures var x := WorkerShare(w, s); x.refs <= 1 + x.pend + x.reg + x.retire
  {}

  lemma {:induction false} WorkersBound(ws: seq<Worker>, s: nat)
    ensures SumW(ws, s, Refs) <= |ws| + SumW(ws, s, Pend) + SumW(ws, s, Reg) + SumW(ws, s, Retire)
  {
    if ws != [] {
      WorkerBound(ws[0], s);
      WorkersBound(ws[1..], s);
    }
  }

  lemma {:induction false} QueueBound(q: seq<Entry>, s: nat)
    ensures SumQ(q, s, Refs) == SumQ(q, s, Pend) + SumQ(q, s, Reg)
  {
    if q != [] { QueueBound(q[1..], s); }
  }

  lemma MainBound(m: MainPc, s: nat)
    ensures var x := MainShare(m, s); x.refs <= Bit(m == MUnref(s)) + x.pend + x.reg
  {}

  lemma LedgerBound(st: State, s: nat)
    ensures var l := Ledger(st, s); l.refs <= |st.workers| + Bit(st.main == MUnref(s)) + l.pend + l.reg + l.retire
  {
    Parts(st, s, Refs);
    Parts(st, s, Pend);
    Parts(st, s, Reg);
    Parts(st, s, Retire);
    WorkersBound(st.workers, s);
    QueueBound(st.queue, s);
    SumRKinds(st.release, s, Refs);
    BatchHoldsNoRefs(st.batch, s);
    MainBound(st.main, s);
  }

  /** Worker `i` is in a section of socket `s` that needs the READ (WRITE) lock. */
  predicate InReadSection(st: State, i: nat, s: nat) {
    i < |st.workers| && st.workers[i].pc.Busy? && st.workers[i].pc.entry.sock == s
    && HoldsLocks(st.workers[i].pc.at) && NeedsRead(st.workers[i].pc.entry.typ)
  }

  predicate InWriteSection(st: State, i: nat, s: nat) {
    i < |st.workers| && st.workers[i].pc.Busy? && st.workers[i].pc.entry.sock == s
    && HoldsLocks(st.workers[i].pc.at) && NeedsWrite(st.workers[i].pc.entry.typ)
  }

  lemma OnlyWorkersLock(st: State, s: nat)
    ensures Of(Ledger(st, s), Rd) == SumW(st.workers, s, Rd) && Of(Ledger(st, s), Wr) == SumW(st.workers, s, Wr)
  {
    hide Ledger;
    Parts(st, s, Rd);
    Parts(st, s, Wr);
    NoLocks(st.queue, st.batch, st.release, s);
    MainLocks(st.main, s);
  }

  lemma MainLocks(m: MainPc, s: nat)
    ensures Of(MainShare(m, s), Rd) == 0 && Of(MainShare(m, s), Wr) == 0
  {}

  lemma {:induction false} NoLocks(q: seq<Entry>, b: seq<Ready>, r: seq<nat>, s: nat)
    ensures SumQ(q, s, Rd) == SumQ(q, s, Wr) == SumB(b, s, Rd) == SumB(b, s, Wr) == SumR(r, s, Rd) == SumR(r, s, Wr) == 0
    decreases |q| + |b| + |r|
  {
    if q != [] { NoLocks(q[1..], b, r, s); }
    else if b != [] { NoLocks(q, b[1..], r, s); }
    else if r != [] { NoLocks(q, b, r[1..], s); }
  }

  lemma LockBits(k: Sock, member: bool, l: Share)
    requires SockOk(k, member, l)
    ensures Of(l, Rd) == Bit(k.readLocked) && Of(l, Wr) == Bit(k.writeLocked)
  {}

  lemma LockSums(st: State, s: nat)
    requires SocksOk(st)
    ensures SumW(st.workers, s, Rd) == Bit(Get(st, s).readLocked)
    ensures SumW(st.workers, s, Wr) == Bit(Get(st, s).writeLocked)
  {
    hide Ledger, SockOk;
    LockBits(Get(st, s), s in st.cons, Ledger(st, s));
    OnlyWorkersLock(st, s);
  }

  lemma SectionShare(st: State, i: nat, s: nat)
    requires i < |st.workers|
    ensures Of(WorkerShare(st.workers[i], s), Rd) == Bit(InReadSection(st, i, s))
    ensures Of(WorkerShare(st.workers[i], s), Wr) == Bit(InWriteSection(st, i, s))
  {}

  lemma ExclusivePair(st: State, i: nat, j: nat, s: nat)
    requires SumW(st.workers, s, Rd) <= 1 && SumW(st.workers, s, Wr) <= 1 && i < j < |st.workers|
    ensures !(InReadSection(st, i, s) && InReadSection(st, j, s))
    ensures !(InWriteSection(st, i, s) && InWriteSection(st, j, s))
  {
    TwoWorkers(st.workers, i, j, s, Rd);
    TwoWorkers(st.workers, i, j, s, Wr);
    SectionShare(st, i, s);
    SectionShare(st, j, s);
  }

  /** At most one worker is in the READ section of a socket and at most one in its WRITE section. A CLOSED or ERROR
      event is handled in both. */
  lemma Exclusive(threads: nat, actions: seq<Action>, i: nat, j: nat, s: nat)
    requires threads > 0 && i != j
    ensures var st := Exec(Init(threads), actions);
            && !(InReadSection(st, i, s) && InReadSection(st, j, s))
            && !(InWriteSection(st, i, s) && InWriteSection(st, j, s))
  {
    hide Ledger, SockOk;
    ExecInv(threads, actions);
    var st := Exec(Init(threads), actions);
    LockSums(st, s);
    if i < j < |st.workers| { ExclusivePair(st, i, j, s); }
    if j < i < |st.workers| { ExclusivePair(st, j, i, s); }
  }

  /** A lock flag is set if and only if some worker is in the section it guards, so only the holder clears it. */
  lemma FlagsAreHeld(threads: nat, actions: seq<Action>, s: nat)
    requires threads > 0
    ensures var st := Exec(Init(threads), actions);
            && (Get(st, s).readLocked <==> exists i: nat :: InReadSection(st, i, s))
            && (Get(st, s).writeLocked <==> exists i: nat :: InWriteSection(st, i, s))
  {
    hide Ledger, SockOk;
    ExecInv(threads, actions);
    LockSums(Exec(Init(threads), actions), s);
    FlagsHeld(Exec(Init(threads), actions), s);
  }

  lemma FlagsHeld(st: State, s: nat)
    requires SumW(st.workers, s, Rd) == Bit(Get(st, s).readLocked)
    requires SumW(st.workers, s, Wr) == Bit(Get(st, s).writeLocked)
    ensures Get(st, s).readLocked <==> exists i: nat :: InReadSection(st, i, s)
    ensures Get(st, s).writeLocked <==> exists i: nat :: InWriteSection(st, i, s)
  {
    if Get(st, s).readLocked {
      var i := SomeWorker(st.workers, s, Rd);
      SectionShare(st, i, s);
    }
    if Get(st, s).writeLocked {
      var i := SomeWorker(st.workers, s, Wr);
      SectionShare(st, i, s);
    }
    forall i: nat | InReadSection(st, i, s) ensures Get(st, s).readLocked {
      OneWorker(st.workers, i, s, Rd);
      SectionShare(st, i, s);
    }
    forall i: nat | InWriteSection(st, i, s) ensures Get(st, s).writeLocked {
      OneWorker(st.workers, i, s, Wr);
      SectionShare(st, i, s);
    }
  }

  predicate Once(p: Past) {
    p.disconnected <= p.connected <= 1 && p.released <= 1 && p.freed <= 1
  }

  lemma OnceSock(k: Sock, member: bool, l: Share)
    requires SockOk(k, member, l) && Backed(l)
    ensures Once(k.past)
  {}

  /** Whatever path a socket takes (failed accept, close, error, hang-up, failed registration, drain), it is connected,
      disconnected, released and freed at most once, and disconnected only after it was connected. */
  lemma AtMostOnce(threads: nat, actions: seq<Action>, s: nat)
    requires threads > 0
    ensures Once(Get(Exec(Init(threads), actions), s).past)
  {
    hide Ledger, SockOk, Control;
    ExecInv(threads, actions);
    var st := Exec(Init(threads), actions);
    assert SockOk(Get(st, s), s in st.cons, Ledger(st, s));
    LedgerBacked(st, s);
    OnceSock(Get(st, s), s in st.cons, Ledger(st, s));
  }

  /** Between the two latches nothing runs: every worker waits for the run latch. */
  lemma DrainIsQuiet(threads: nat, actions: seq<Action>)
    requires threads > 0
    ensures var st := Exec(Init(threads), actions);
            st.prepare == 0 && st.runLatch > 0 ==> forall w | w in st.workers :: w == Worker(false, AwaitRun)
  {
    ExecInv(threads, actions);
    var st := Exec(Init(threads), actions);
    if st.prepare == 0 && st.runLatch > 0 { AllWait(st); }
  }

  lemma DrainEvent(st: State, i: nat, e: Entry, at: Place)
    requires Inv(st) && st.runLatch == 0 && i < |st.workers| && st.workers[i].pc == Busy(e, at)
    ensures e.typ == Closed && !at.RequeueRef? && !at.RequeueAdd?
    ensures at == TryLock ==> !Get(st, e.sock).readLocked && !Get(st, e.sock).writeLocked
  {
    BusyPhase(st, i, e, at);
    if at == TryLock {
      assert SockOk(Get(st, e.sock), e.sock in st.cons, Ledger(st, e.sock)) && DrainOk(st, e.sock);
      DrainLocksFree(st, i, e);
    }
  }

  /** After the run latch every event is a CLOSED event whose lock attempt succeeds, so none is queued again. */
  lemma DrainNeverRequeues(threads: nat, actions: seq<Action>, i: nat)
    requires threads > 0
    ensures var st := Exec(Init(threads), actions);
            st.runLatch == 0 && i < |st.workers| && st.workers[i].pc.Busy? ==>
              var e, at := st.workers[i].pc.entry, st.workers[i].pc.at;
              && e.typ == Closed && !at.RequeueRef? && !at.RequeueAdd?
              && (at == TryLock ==> !Get(st, e.sock).readLocked && !Get(st, e.sock).writeLocked)
  {
    ExecInv(threads, actions);
    var st := Exec(Init(threads), actions);
    if st.runLatch == 0 && i < |st.workers| && st.workers[i].pc.Busy? {
      DrainEvent(st, i, st.workers[i].pc.entry, st.workers[i].pc.at);
    }
  }

  lemma FinishedSock(k: Sock, member: bool, l: Share, n: nat)
    requires SockOk(k, member, l) && l == Waits(n)
    requires k.life == Registered ==> l.reg == 1
    ensures !member
    ensures k.life == Retired ==> k.past.disconnected == k.past.connected && k.past.released == 1
    ensures k.life != Retired ==> k.past.disconnected == k.past.released == k.past.freed == 0 && k.past.connected == Bit(k.past.diedEarly)
    ensures k.life == Retired ==> !k.past.diedEarly && !k.past.cleared && (n == 0 ==> k.past.freed == 1)
    ensures k.life != Retired && k.life != Unknown ==> k.past.diedEarly || k.past.cleared
  {}

  lemma FinishedLedger(st: State, s: nat)
    requires Control(st) && forall w | w in st.workers :: w.pc == Done
    ensures Ledger(st, s) == Waits(SumR(st.release, s, Retire))
    ensures st.queue == [] && Draining(st.main) && st.todo == {} && !st.main.MDrainRef?
  {
    hide Ledger, Waits;
    AllDone(st);
    Settled(st, s);
  }

  lemma Finished(st: State, s: nat)
    requires Inv(st) && forall w | w in st.workers :: w.pc == Done
    ensures st.queue == [] && s !in st.cons
    ensures var k := Get(st, s); s in st.drained ==> k.life == Retired && k.past.connected == 1 && k.past.disconnected == 1
  {
    hide Ledger, SockOk;
    FinishedLedger(st, s);
    assert DrainOk(st, s);
    assert SockOk(Get(st, s), s in st.cons, Ledger(st, s));
    FinishedSock(Get(st, s), s in st.cons, Ledger(st, s), SumR(st.release, s, Retire));
  }

  /** The drain is complete: once all workers have returned, the queue and the connection map are empty, and each socket
      that was registered when the drain started has been disconnected exactly once. */
  lemma DrainComplete(threads: nat, actions: seq<Action>, s: nat)
    requires threads > 0
    ensures var st := Exec(Init(threads), actions);
            (forall w | w in st.workers :: w.pc == Done) ==>
              && st.queue == [] && s !in st.cons
              && (s in st.drained ==> Get(st, s).past.connected == 1 && Get(st, s).past.disconnected == 1)
  {
    hide Inv;
    ExecInv(threads, actions);
    var st := Exec(Init(threads), actions);
    if forall w | w in st.workers :: w.pc == Done { Finished(st, s); }
  }

  lemma Ended(st: State, s: nat)
    requires Inv(st) && st.main == MDone
    ensures var k := Get(st, s);
            && (k.past.connected == 1 && k.past.disconnected == 0 <==> k.past.diedEarly)
            && (k.past.freed == 0 <==> k.life == Unknown || k.past.diedEarly || k.past.cleared)
  {
    hide Ledger, SockOk;
    forall w | w in st.workers ensures w.pc == Done { assert WorkerOk(st, w); }
    FinishedLedger(st, s);
    assert SumR(st.release, s, Retire) == 0;
    assert DrainOk(st, s);
    assert SockOk(Get(st, s), s in st.cons, Ledger(st, s));
    FinishedSock(Get(st, s), s in st.cons, Ledger(st, s), SumR(st.release, s, Retire));
  }
}
