/**
Every step of every thread keeps the invariant of the stream server.
*/
module StreamServerSteps {
  import opened StreamServer
  import opened StreamServerProof

  // --------------------------------------------------------- ledgers of lists

  lemma QLedgerOf(q: seq<Entry>, s: nat, k: Kind)
    ensures Of(QLedger(q, s), k) == SumQ(q, s, k)
  {}

  lemma QAppend(q: seq<Entry>, e: Entry, s: nat)
    ensures QLedger(q + [e], s) == Plus(QLedger(q, s), EntryShare(e, s))
  {
    var l, x, y := QLedger(q + [e], s), QLedger(q, s), EntryShare(e, s);
    forall k: Kind ensures Of(l, k) == Of(x, k) + Of(y, k) {
      QLedgerOf(q + [e], s, k);
      QLedgerOf(q, s, k);
      SumQAppend(q, e, s, k);
    }
    ShareSum(l, x, y);
  }

  lemma QHead(q: seq<Entry>, s: nat)
    requires q != []
    ensures QLedger(q, s) == Plus(EntryShare(q[0], s), QLedger(q[1..], s))
  {
    var l, x, y := QLedger(q, s), EntryShare(q[0], s), QLedger(q[1..], s);
    forall k: Kind ensures Of(l, k) == Of(x, k) + Of(y, k) {
      QLedgerOf(q, s, k);
      QLedgerOf(q[1..], s, k);
    }
    ShareSum(l, x, y);
  }

  lemma RLedgerOf(r: seq<nat>, s: nat, k: Kind)
    ensures Of(RLedger(r, s), k) == SumR(r, s, k)
  {}

  lemma RAppend(r: seq<nat>, x: nat, s: nat)
    ensures RLedger(r + [x], s) == Plus(RLedger(r, s), ReleaseShare(x, s))
  {
    var l, a, b := RLedger(r + [x], s), RLedger(r, s), ReleaseShare(x, s);
    forall k: Kind ensures Of(l, k) == Of(a, k) + Of(b, k) {
      RLedgerOf(r + [x], s, k);
      RLedgerOf(r, s, k);
      SumRAppend(r, x, s, k);
    }
    ShareSum(l, a, b);
  }

  lemma RHead(r: seq<nat>, s: nat)
    requires r != []
    ensures RLedger(r, s) == Plus(ReleaseShare(r[0], s), RLedger(r[1..], s))
  {
    var l, a, b := RLedger(r, s), ReleaseShare(r[0], s), RLedger(r[1..], s);
    forall k: Kind ensures Of(l, k) == Of(a, k) + Of(b, k) {
      RLedgerOf(r, s, k);
      RLedgerOf(r[1..], s, k);
    }
    ShareSum(l, a, b);
  }

  lemma BLedgerOf(b: seq<Ready>, s: nat, k: Kind)
    ensures Of(BLedger(b, s), k) == SumB(b, s, k)
  {}

  lemma BHead(b: seq<Ready>, s: nat)
    requires b != []
    ensures BLedger(b, s) == Plus(ReadyShare(b[0], s), BLedger(b[1..], s))
  {
    var l, x, y := BLedger(b, s), ReadyShare(b[0], s), BLedger(b[1..], s);
    forall k: Kind ensures Of(l, k) == Of(x, k) + Of(y, k) {
      BLedgerOf(b, s, k);
      BLedgerOf(b[1..], s, k);
    }
    ShareSum(l, x, y);
  }

  /** The four parts outside the workers. */
  function Out(q: Share, b: Share, r: Share, m: Share): Share {
    Plus(Plus(q, b), Plus(r, m))
  }

  lemma OutMoves(q: Share, b: Share, r: Share, m: Share, x: Share)
    ensures Out(Plus(q, x), b, r, m) == Plus(Out(q, b, r, m), x)
    ensures Out(q, Plus(x, b), r, m) == Plus(Out(q, b, r, m), x)
    ensures Out(q, b, Plus(r, x), m) == Plus(Out(q, b, r, m), x)
    ensures Out(q, b, r, Plus(m, x)) == Plus(Out(q, b, r, m), x)
    ensures Out(Plus(x, q), b, r, m) == Plus(Out(q, b, r, m), x)
    ensures Out(q, b, Plus(x, r), m) == Plus(Out(q, b, r, m), x)
  {}

  lemma OutsideIs(st: State, s: nat)
    ensures Outside(st, s)
         == Out(QLedger(st.queue, s), BLedger(st.batch, s), RLedger(st.release, s), MainShare(st.main, s))
  {}

  // ------------------------------------------------------------- worker steps

  /** The share that a step of an event handler moves to the release list or the queue is all that changes outside. */
  lemma OutsideGift(st: State, st': State, e: Entry, at: Place, s: nat)
    requires st'.batch == st.batch && st'.main == st.main
    requires st'.queue == if at == RequeueAdd then st.queue + [e] else st.queue
    requires st'.release == if at == FreeAdd then st.release + [e.sock] else st.release
    ensures Outside(st', s) == Plus(Outside(st, s), if s == e.sock then Gift(e.typ, at) else ZERO)
  {
    var q, b, r, m := QLedger(st.queue, s), BLedger(st.batch, s), RLedger(st.release, s), MainShare(st.main, s);
    OutsideIs(st, s);
    OutsideIs(st', s);
    if at == RequeueAdd {
      QAppend(st.queue, e, s);
      OutMoves(q, b, r, m, EntryShare(e, s));
    } else if at == FreeAdd {
      RAppend(st.release, e.sock, s);
      OutMoves(q, b, r, m, ReleaseShare(e.sock, s));
    } else {
      PlusLaws(Outside(st, s), ZERO, ZERO);
    }
  }

  lemma WLedgerStep(ws: seq<Worker>, i: nat, w: Worker, s: nat)
    requires i < |ws|
    ensures WLedger(ws, s) == Plus(WorkerShare(ws[i], s), WLedger(ws[i := IDLE], s))
    ensures WLedger(ws[i := w], s) == Plus(WorkerShare(w, s), WLedger(ws[i := IDLE], s))
  {
    assert ws[i := ws[i]] == ws;
    WLedgerReplace(ws, i, ws[i], s);
    WLedgerReplace(ws, i, w, s);
  }

  lemma Regroup(w: Share, ws: Share, o: Share, g: Share)
    ensures Plus(Plus(w, ws), Plus(o, g)) == Plus(Plus(w, Plus(ws, o)), g)
    ensures Plus(Plus(w, ws), o) == Plus(w, Plus(ws, o))
  {}

  lemma WorkerShareIs(w: Worker, e: Entry, at: Place)
    requires w.pc == Busy(e, at) || (at == Gone && w.pc == Idle)
    ensures WorkerShare(w, e.sock) == PlaceShare(e.typ, at)
  {}

  lemma Combine(lw: Share, lw': Share, x: Share, y: Share, ws: Share, o: Share, o': Share, g: Share)
    requires lw == Plus(x, ws) && lw' == Plus(y, ws) && o' == Plus(o, g)
    ensures Plus(lw, o) == Plus(x, Plus(ws, o)) && Plus(lw', o') == Plus(Plus(y, Plus(ws, o)), g)
  {}

  lemma WorkerLedger(st: State, i: nat, e: Entry, at: Place)
    requires i < |st.workers| && st.workers[i].pc == Busy(e, at)
    ensures Ledger(st, e.sock) == Plus(PlaceShare(e.typ, at), Rest(st, i, e.sock))
  {
    WLedgerStep(st.workers, i, IDLE, e.sock);
    WorkerShareIs(st.workers[i], e, at);
    Regroup(PlaceShare(e.typ, at), WLedger(st.workers[i := IDLE], e.sock), Outside(st, e.sock), ZERO);
  }

  /** The sums for the socket of the entry before and after a step of worker `i`. */
  lemma EventLedger(st: State, st': State, i: nat, e: Entry, at: Place, next: Place)
    requires i < |st.workers| && st.workers[i].pc == Busy(e, at)
    requires st'.workers == st.workers[i := st.workers[i].(pc := if next == Gone then Idle else Busy(e, next))]
    requires Outside(st', e.sock) == Plus(Outside(st, e.sock), Gift(e.typ, at))
    ensures Ledger(st, e.sock) == Plus(PlaceShare(e.typ, at), Rest(st, i, e.sock))
    ensures Ledger(st', e.sock) == Plus(Plus(PlaceShare(e.typ, next), Rest(st, i, e.sock)), Gift(e.typ, at))
  {
    var w, w', s := st.workers[i], st'.workers[i], e.sock;
    WLedgerStep(st.workers, i, w', s);
    WorkerShareIs(w, e, at);
    WorkerShareIs(w', e, next);
    Combine(WLedger(st.workers, s), WLedger(st'.workers, s), PlaceShare(e.typ, at), PlaceShare(e.typ, next),
            WLedger(st.workers[i := IDLE], s), Outside(st, s), Outside(st', s), Gift(e.typ, at));
  }

  /** The sums for any other socket do not change. */
  lemma EventLedgerOther(st: State, st': State, i: nat, e: Entry, at: Place, next: Place, s: nat)
    requires i < |st.workers| && st.workers[i].pc == Busy(e, at) && s != e.sock
    requires st'.workers == st.workers[i := st.workers[i].(pc := if next == Gone then Idle else Busy(e, next))]
    requires Outside(st', s) == Plus(Outside(st, s), ZERO)
    ensures Ledger(st', s) == Ledger(st, s)
  {
    WLedgerStep(st.workers, i, st'.workers[i], s);
    PlusLaws(Outside(st, s), ZERO, ZERO);
  }

  /** A worker in the middle of an event. */
  ghost predicate Handling(st: State, i: nat, e: Entry, at: Place) {
    i < |st.workers| && st.workers[i].pc == Busy(e, at) && !Blocked(st.main, at) && PathOk(e.typ, at)
  }

  ghost predicate SocksOk(st: State) {
    forall s: nat :: SockOk(Get(st, s), s in st.cons, Ledger(st, s))
  }

  /** `o` is a step of worker `i` that keeps the invariant of its socket. */
  ghost predicate GoodOutcome(st: State, i: nat, e: Entry, at: Place, o: Outcome) {
    && i < |st.workers|
    && e.sock < |st.socks| && !o.fault && Get(st, e.sock).past.freed == 0
    && (o.next.Gone? || PathOk(e.typ, o.next))
    && SockOk(o.sock, o.member, Plus(Plus(PlaceShare(e.typ, o.next), Rest(st, i, e.sock)), Gift(e.typ, at)))
  }

  lemma EventSock(st: State, i: nat, e: Entry, at: Place, input: Input)
    requires Handling(st, i, e, at) && SocksOk(st)
    ensures GoodOutcome(st, i, e, at, Handle(e.typ, at, Get(st, e.sock), e.sock in st.cons, input))
  {
    var k, member, rest := Get(st, e.sock), e.sock in st.cons, Rest(st, i, e.sock);
    var o := Handle(e.typ, at, k, member, input);
    var l, l' := Plus(PlaceShare(e.typ, at), rest), Plus(Plus(PlaceShare(e.typ, o.next), rest), Gift(e.typ, at));
    WorkerLedger(st, i, e, at);
    RestBacked(st, i, e.sock);
    HandleKeeps(e.typ, at, k, member, input, rest, o, l, l');
    assert l.refs >= 1;
  }

  lemma ApplyIs(st: State, i: nat, e: Entry, at: Place, o: Outcome, s: nat)
    requires i < |st.workers| && e.sock < |st.socks|
    ensures var st' := Apply(st, i, e, at, o);
            && (s != e.sock ==> Get(st', s) == Get(st, s) && (s in st'.cons <==> s in st.cons))
            && Get(st', e.sock) == o.sock && (e.sock in st'.cons <==> o.member)
  {}

  lemma ApplySock(st: State, i: nat, e: Entry, at: Place, o: Outcome, s: nat)
    requires Handling(st, i, e, at) && SockOk(Get(st, s), s in st.cons, Ledger(st, s))
    requires GoodOutcome(st, i, e, at, o)
    ensures var st' := Apply(st, i, e, at, o); SockOk(Get(st', s), s in st'.cons, Ledger(st', s))
  {
    var st' := Apply(st, i, e, at, o);
    ApplyIs(st, i, e, at, o, s);
    OutsideGift(st, st', e, at, s);
    if s == e.sock {
      EventLedger(st, st', i, e, at, o.next);
    } else {
      EventLedgerOther(st, st', i, e, at, o.next, s);
    }
  }

  lemma ApplySocks(st: State, i: nat, e: Entry, at: Place, o: Outcome)
    requires Handling(st, i, e, at) && SocksOk(st) && !st.fault
    requires GoodOutcome(st, i, e, at, o)
    ensures SocksOk(Apply(st, i, e, at, o)) && !Apply(st, i, e, at, o).fault
  {
    hide Ledger, SockOk, Handling;
    forall s: nat
      ensures var st' := Apply(st, i, e, at, o); SockOk(Get(st', s), s in st'.cons, Ledger(st', s))
    {
      ApplySock(st, i, e, at, o, s);
    }
  }

  ghost predicate DrainsOk(st: State) {
    forall s: nat :: DrainOk(st, s)
  }

  /** A worker that handles an event in the drain phase has been released from the run latch. */
  lemma BusyPhase(st: State, i: nat, e: Entry, at: Place)
    requires Control(st) && i < |st.workers| && st.workers[i].pc == Busy(e, at)
    ensures Draining(st.main) ==> RunReleased(st.main) && st.workers[i].draining && DrainPc(st.workers[i].pc)
    ensures Draining(st.main) ==> st.todo == {}
    ensures !st.main.MFreeAll? && !st.main.MDone?
    ensures st.workers[i].draining ==> Draining(st.main)
    ensures PathOk(e.typ, at)
  {
    assert WorkerOk(st, st.workers[i]);
    if st.prepare == 0 {
      UncountedZero(st.workers);
      assert Counted(st.workers[i]);
    }
  }

  /** The only reference to a registered socket in the drain phase is its CLOSED event, so its locks are free; no other
      socket has such an event. */
  lemma LocksFree(k: Sock, member: bool, l: Share, rest: Share)
    requires l == Plus(PlaceShare(Closed, TryLock), rest) && Backed(rest)
    requires LocksOk(k, l) && LifeOk(k, member, l)
    requires k.life == Registered ==> l.refs == 1
    ensures !k.readLocked && !k.writeLocked
  {}

  lemma DrainLocksFree(st: State, i: nat, e: Entry)
    requires i < |st.workers| && st.workers[i].pc == Busy(e, TryLock) && e.typ == Closed
    requires SockOk(Get(st, e.sock), e.sock in st.cons, Ledger(st, e.sock)) && DrainOk(st, e.sock)
    requires RunReleased(st.main) && st.todo == {}
    ensures !Get(st, e.sock).readLocked && !Get(st, e.sock).writeLocked
  {
    WorkerLedger(st, i, e, TryLock);
    RestBacked(st, i, e.sock);
    LocksFree(Get(st, e.sock), e.sock in st.cons, Ledger(st, e.sock), Rest(st, i, e.sock));
  }

  /** How the handling of a CLOSED event moves the token, the life and the history of its socket. */
  ghost predicate DrainFlow(at: Place, k: Sock, member: bool, o: Outcome) {
    && (HasToken(o.next) ==> HasToken(at) && !at.Remove?)
    && (HasToken(at) && !HasToken(o.next) ==> at.Remove?)
    && o.sock.life == (if !at.Remove? then k.life else if member then Retired
                       else if k.life == Pending then Abandoned else k.life)
    && o.sock.past.connected == k.past.connected
    && (!o.next.Gone? && !at.Finish? ==> RefsAt(o.next) == 1 || o.next.FreeAdd?)
  }

  /** In the drain phase a CLOSED event is never requeued. */
  lemma DrainPlaces(e: Entry, at: Place, k: Sock, member: bool, input: Input, o: Outcome)
    requires e.typ == Closed && DrainPc(Busy(e, at)) && o == Handle(Closed, at, k, member, input)
    requires at == TryLock ==> !k.readLocked && !k.writeLocked
    ensures o.next.Gone? || DrainPc(Busy(e, o.next))
    ensures o.member ==> member
    ensures at.Got? || at.TryLock? ==> HasToken(o.next)
    ensures DrainFlow(at, k, member, o)
  {
    hide AtFailClose, AtConnect, AtCheck, AtRearm, AtRegister, AtAddFailed;
  }

  /** What an event handler's step does to the connection map outside the drain phase needs no restriction; in the drain
      phase it only removes, and the handler stays on the path of a CLOSED event. */
  ghost predicate DrainPath(st: State, e: Entry, at: Place, o: Outcome) {
    Draining(st.main) ==>
      && (o.next.Gone? || DrainPc(Busy(e, o.next)))
      && (o.member ==> e.sock in st.cons)
      && (at.Got? || at.TryLock? ==> HasToken(o.next))
      && DrainFlow(at, Get(st, e.sock), e.sock in st.cons, o)
  }

  lemma EventDrainPath(st: State, i: nat, e: Entry, at: Place, input: Input)
    requires Control(st) && i < |st.workers| && st.workers[i].pc == Busy(e, at)
    requires SockOk(Get(st, e.sock), e.sock in st.cons, Ledger(st, e.sock)) && DrainOk(st, e.sock)
    ensures DrainPath(st, e, at, Handle(e.typ, at, Get(st, e.sock), e.sock in st.cons, input))
  {
    BusyPhase(st, i, e, at);
    if Draining(st.main) {
      if at == TryLock { DrainLocksFree(st, i, e); }
      DrainPlaces(e, at, Get(st, e.sock), e.sock in st.cons, input,
                  Handle(e.typ, at, Get(st, e.sock), e.sock in st.cons, input));
    }
  }

  lemma ApplyWorkers(st: State, i: nat, e: Entry, at: Place, o: Outcome)
    requires Control(st) && Handling(st, i, e, at) && GoodOutcome(st, i, e, at, o) && DrainPath(st, e, at, o)
    ensures forall w | w in Apply(st, i, e, at, o).workers :: WorkerOk(Apply(st, i, e, at, o), w)
  {
    hide Ledger, SockOk, Rest, Plus, PlaceShare, DrainFlow, Gift;
    var st' := Apply(st, i, e, at, o);
    BusyPhase(st, i, e, at);
    forall w | w in st'.workers ensures WorkerOk(st', w) {
      assert w == st'.workers[i] || w in st.workers;
      assert WorkerOk(st, st.workers[i]);
    }
  }

  lemma ApplyControl(st: State, i: nat, e: Entry, at: Place, o: Outcome)
    requires Control(st) && Handling(st, i, e, at) && GoodOutcome(st, i, e, at, o) && DrainPath(st, e, at, o)
    ensures Control(Apply(st, i, e, at, o))
  {
    hide Ledger, SockOk, DrainFlow, WorkerOk, PathOk, PlaceShare, Gift, Rest, Plus;
    ApplyWorkers(st, i, e, at, o);
    BusyPhase(st, i, e, at);
    UncountedUpdate(st.workers, i, Apply(st, i, e, at, o).workers[i]);
  }

  lemma EmptyBatch(s: nat)
    ensures BLedger([], s) == ZERO
  {}

  /** With an empty batch, and the main thread past the drain, every event comes with a reference. */
  lemma RestReg(st: State, i: nat, s: nat)
    requires i < |st.workers| && st.batch == [] && RunReleased(st.main)
    ensures Rest(st, i, s).reg <= Rest(st, i, s).refs
  {
    hide WLedger, QLedger, BLedger, RLedger;
    var w, q, r := WLedger(st.workers[i := IDLE], s), QLedger(st.queue, s), RLedger(st.release, s);
    SumWBacked(st.workers[i := IDLE], s);
    SumQBacked(st.queue, s);
    SumRBacked(st.release, s);
    OutsideIs(st, s);
    EmptyBatch(s);
    assert Out(q, ZERO, r, ZERO).reg == q.reg + r.reg && Out(q, ZERO, r, ZERO).refs == q.refs + r.refs;
  }

  /** In the drain phase the socket of the entry stays registered with its CLOSED event as the only reference, or it is
      retired. */
  ghost predicate DrainGood(st: State, i: nat, e: Entry, at: Place, o: Outcome)
    requires i < |st.workers|
  {
    var l' := Plus(Plus(PlaceShare(e.typ, o.next), Rest(st, i, e.sock)), Gift(e.typ, at));
    && (o.sock.life == Registered ==> l'.refs == 1 && l'.reg == 1)
    && (e.sock in st.drained ==> o.sock.life.Registered? || (o.sock.life.Retired? && o.sock.past.connected == 1))
  }

  lemma DrainRegistered(e: Entry, at: Place, k: Sock, member: bool, o: Outcome, rest: Share, l: Share, l': Share)
    requires e.typ == Closed && PathOk(Closed, at) && DrainPc(Busy(e, at)) && rest.reg <= rest.refs
    requires LifeOk(k, member, l) && l == Plus(PlaceShare(Closed, at), rest)
    requires l' == Plus(Plus(PlaceShare(Closed, o.next), rest), Gift(Closed, at))
    requires DrainFlow(at, k, member, o)
    requires (at.Got? || at.TryLock? ==> HasToken(o.next)) && !o.next.RequeueAdd?
    requires k.life == Registered ==> l.refs == 1 && l.reg == 1
    ensures o.sock.life == Registered ==> l'.refs == 1 && l'.reg == 1
  {}

  lemma DrainRetired(e: Entry, at: Place, k: Sock, member: bool, o: Outcome, l: Share)
    requires e.typ == Closed && PathOk(Closed, at) && DrainPc(Busy(e, at))
    requires LifeOk(k, member, l) && HistoryOk(k, l)
    requires DrainFlow(at, k, member, o)
    requires k.life.Registered? || (k.life.Retired? && k.past.connected == 1)
    ensures o.sock.life.Registered? || (o.sock.life.Retired? && o.sock.past.connected == 1)
  {}

  lemma DrainSock(st: State, i: nat, e: Entry, at: Place, o: Outcome)
    requires Handling(st, i, e, at) && e.typ == Closed && DrainPc(Busy(e, at))
    requires (at.Got? || at.TryLock? ==> HasToken(o.next)) && !o.next.RequeueAdd?
    requires SockOk(Get(st, e.sock), e.sock in st.cons, Ledger(st, e.sock)) && DrainOk(st, e.sock)
    requires RunReleased(st.main) && st.todo == {} && st.batch == []
    requires DrainFlow(at, Get(st, e.sock), e.sock in st.cons, o)
    ensures DrainGood(st, i, e, at, o)
  {
    hide Ledger, Rest;
    var k, s, rest, l := Get(st, e.sock), e.sock, Rest(st, i, e.sock), Ledger(st, e.sock);
    WorkerLedger(st, i, e, at);
    RestReg(st, i, s);
    DrainRegistered(e, at, k, s in st.cons, o, rest, l,
                    Plus(Plus(PlaceShare(Closed, o.next), rest), Gift(Closed, at)));
    if s in st.drained { DrainRetired(e, at, k, s in st.cons, o, l); }
  }

  lemma ApplyDrain(st: State, i: nat, e: Entry, at: Place, o: Outcome, s: nat)
    requires Handling(st, i, e, at) && GoodOutcome(st, i, e, at, o)
    requires DrainOk(st, s)
    requires s == e.sock && Draining(st.main) ==> RunReleased(st.main) && st.todo == {} && DrainGood(st, i, e, at, o)
    requires st.drained != {} ==> Draining(st.main)
    ensures DrainOk(Apply(st, i, e, at, o), s)
  {
    hide Ledger, Rest, Outside, PlaceShare, Gift;
    var st' := Apply(st, i, e, at, o);
    ApplyIs(st, i, e, at, o, s);
    OutsideGift(st, st', e, at, s);
    if s != e.sock {
      EventLedgerOther(st, st', i, e, at, o.next, s);
    } else {
      EventLedger(st, st', i, e, at, o.next);
    }
  }

  /** The drain part of the invariant after a step of an event handler. */
  lemma ApplyDrains(st: State, i: nat, e: Entry, at: Place, o: Outcome)
    requires Handling(st, i, e, at) && GoodOutcome(st, i, e, at, o) && DrainPath(st, e, at, o)
    requires Control(st) && SocksOk(st) && DrainsOk(st)
    ensures DrainsOk(Apply(st, i, e, at, o))
  {
    hide Ledger, SockOk, DrainOk, Apply, GoodOutcome, DrainGood, DrainFlow;
    BusyPhase(st, i, e, at);
    if Draining(st.main) { DrainSock(st, i, e, at, o); }
    forall s: nat ensures DrainOk(Apply(st, i, e, at, o), s) {
      ApplyDrain(st, i, e, at, o, s);
    }
  }

  /** A step of an event handler keeps the invariant. */
  lemma EventKeeps(st: State, i: nat, e: Entry, at: Place, input: Input)
    requires Inv(st) && i < |st.workers| && st.workers[i].pc == Busy(e, at)
    ensures Inv(EventStep(st, i, e, at, input))
  {
    hide Ledger, SockOk, DrainOk, Apply, GoodOutcome, Handle, DrainFlow;
    BusyPhase(st, i, e, at);
    if !Blocked(st.main, at) {
      var o := Handle(e.typ, at, Get(st, e.sock), e.sock in st.cons, input);
      EventSock(st, i, e, at, input);
      ApplySocks(st, i, e, at, o);
      EventDrainPath(st, i, e, at, input);
      ApplyControl(st, i, e, at, o);
      ApplyDrains(st, i, e, at, o);
    }
  }

  // ------------------------------------------- workers between two events

  lemma SocksKept(st: State, st': State)
    requires SocksOk(st) && st'.socks == st.socks && st'.cons == st.cons
    requires forall s: nat :: Ledger(st', s) == Ledger(st, s)
    ensures SocksOk(st')
  {
    hide Ledger;
    forall s: nat ensures SockOk(Get(st', s), s in st'.cons, Ledger(st', s)) {
      assert Ledger(st', s) == Ledger(st, s);
      assert Get(st', s) == Get(st, s);
      assert SockOk(Get(st, s), s in st.cons, Ledger(st, s));
    }
  }

  lemma DrainsKept(st: State, st': State)
    requires DrainsOk(st) && st'.socks == st.socks && st'.todo == st.todo && st'.drained == st.drained
    requires st'.main == st.main || !Draining(st'.main)
          || (Draining(st.main) && !st.main.MDrainRef? && !st'.main.MDrainRef?)
    requires forall s: nat :: Ledger(st', s) == Ledger(st, s)
    ensures DrainsOk(st')
  {
    hide Ledger;
    forall s: nat ensures DrainOk(st', s) {
      assert Ledger(st', s) == Ledger(st, s);
      assert Get(st', s) == Get(st, s);
      assert DrainOk(st, s);
    }
  }

  /** A worker that moves between two places where it holds nothing changes no sum. */
  lemma IdleLedger(st: State, st': State, i: nat, w: Worker, s: nat)
    requires i < |st.workers| && !st.workers[i].pc.Busy? && !w.pc.Busy?
    requires st'.workers == st.workers[i := w] && Outside(st', s) == Outside(st, s)
    ensures Ledger(st', s) == Ledger(st, s)
  {
    WLedgerStep(st.workers, i, w, s);
  }

  /** Taking the head of the queue moves its share to the worker. */
  lemma PollLedger(st: State, i: nat, s: nat)
    requires i < |st.workers| && !st.workers[i].pc.Busy? && st.queue != []
    ensures Ledger(Poll(st, i), s) == Ledger(st, s)
  {
    var st', x := Poll(st, i), EntryShare(st.queue[0], s);
    var q, b, r, m := QLedger(st'.queue, s), BLedger(st.batch, s), RLedger(st.release, s), MainShare(st.main, s);
    var ws := WLedger(st.workers[i := IDLE], s);
    WLedgerStep(st.workers, i, st'.workers[i], s);
    QHead(st.queue, s);
    OutsideIs(st, s);
    OutsideIs(st', s);
    OutMoves(q, b, r, m, x);
    EntryAtGot(st.queue[0], st'.workers[i], s);
    PlusLaws(ws, ZERO, ZERO);
    Shift(x, ws, Outside(st', s));
  }

  lemma EntryAtGot(e: Entry, w: Worker, s: nat)
    requires w.pc == Busy(e, Got)
    ensures WorkerShare(w, s) == EntryShare(e, s)
  {}

  lemma Shift(x: Share, ws: Share, o: Share)
    ensures Plus(Plus(x, ws), o) == Plus(ws, Plus(o, x))
  {}

  /** One worker changes; the rest of the control state does not, apart from the queue and the prepare latch. */
  lemma WorkerControl(st: State, st': State, i: nat, w: Worker)
    requires Control(st) && i < |st.workers|
    requires st'.workers == st.workers[i := w] && st'.main == st.main && !st'.fault
    requires st'.running == st.running && st'.runLatch == st.runLatch && st'.batch == st.batch
    requires st'.todo == st.todo && st'.cons == st.cons && st'.drained == st.drained && st'.release == st.release
    requires st'.prepare + Bit(!Counted(st.workers[i])) == st.prepare + Bit(!Counted(w))
    requires (Stopped(st.main) && !st.main.MAwaitPrepare?) ==> st'.prepare == st.prepare
    requires WorkerOk(st', w)
    requires st'.queue == st.queue || (st.queue != [] && st'.queue == st.queue[1..])
    ensures Control(st')
  {
    UncountedUpdate(st.workers, i, w);
    forall v | v in st'.workers ensures WorkerOk(st', v) {
      assert v == w || v in st.workers;
    }
  }

  lemma PollKeeps(st: State, i: nat)
    requires Inv(st) && i < |st.workers| && !st.workers[i].pc.Busy? && st.queue != []
    requires !st.workers[i].pc.Count? && !st.workers[i].pc.AwaitRun? && !st.workers[i].pc.Done?
    ensures Inv(Poll(st, i))
  {
    hide Ledger, SockOk, DrainOk;
    var st' := Poll(st, i);
    assert WorkerOk(st, st.workers[i]);
    assert st.queue[0] in st.queue;
    WorkerControl(st, st', i, st'.workers[i]);
    forall s: nat ensures Ledger(st', s) == Ledger(st, s) { PollLedger(st, i, s); }
    SocksKept(st, st');
    DrainsKept(st, st');
  }

  /** The worker moves between two places where it holds nothing. */
  lemma IdleKeeps(st: State, st': State, i: nat, w: Worker)
    requires Inv(st) && i < |st.workers| && !st.workers[i].pc.Busy? && !w.pc.Busy?
    requires st' == st.(workers := st.workers[i := w], prepare := st'.prepare)
    requires st'.prepare + Bit(!Counted(st.workers[i])) == st.prepare + Bit(!Counted(w))
    requires (Stopped(st.main) && !st.main.MAwaitPrepare?) ==> st'.prepare == st.prepare
    requires WorkerOk(st', w)
    ensures Inv(st')
  {
    hide Ledger, SockOk, DrainOk;
    WorkerControl(st, st', i, w);
    forall s: nat ensures Ledger(st', s) == Ledger(st, s) { IdleLedger(st, st', i, w, s); }
    SocksKept(st, st');
    DrainsKept(st, st');
  }

  /** A worker that has not counted down yet keeps the prepare latch above zero, so its count cannot fail. */
  lemma CountSafe(st: State, i: nat)
    requires Control(st) && i < |st.workers| && !Counted(st.workers[i])
    ensures st.prepare > 0 && (Stopped(st.main) ==> st.main.MAwaitPrepare?)
  {
    if st.prepare == 0 { UncountedZero(st.workers); }
  }

  lemma WorkerKeeps(st: State, i: nat, input: Input)
    requires Inv(st) && i < |st.workers|
    ensures Inv(WorkerStep(st, i, input))
  {
    hide Ledger, SockOk, DrainOk, EventStep;
    var w := st.workers[i];
    assert WorkerOk(st, w);
    match w.pc
    case Idle =>
      if w.draining {
        if !HoldsEvents(st.main) {
          if st.queue == [] { IdleKeeps(st, SetPc(st, i, Done), i, w.(pc := Done)); } else { PollKeeps(st, i); }
        }
      } else {
        var pc := if st.running then Waiting else Count;
        IdleKeeps(st, SetPc(st, i, pc), i, w.(pc := pc));
      }
    case Waiting =>
      if !HoldsEvents(st.main) {
        if st.queue != [] { PollKeeps(st, i); }
        else if !st.running { IdleKeeps(st, SetPc(st, i, Count), i, w.(pc := Count)); }
      }
    case Busy(e, at) => EventKeeps(st, i, e, at, input);
    case Count =>
      CountSafe(st, i);
      IdleKeeps(st, WorkerStep(st, i, input), i, w.(pc := AwaitRun));
    case AwaitRun =>
      if st.runLatch == 0 { IdleKeeps(st, WorkerStep(st, i, input), i, Worker(true, Idle)); }
    case Done =>
  }
}
