/**
Every step of the main thread keeps the invariant of the stream server.
*/
module StreamServerMain {
  import opened StreamServer
  import opened StreamServerProof
  import opened StreamServerSteps

  // ----------------------------------------------------------- shared pieces

  lemma TouchSock(st: State, st': State, s: nat, k: Sock, l: Share, t: nat, m: Share)
    requires SockOk(Get(st, t), t in st.cons, m) && s < |st.socks|
    requires st'.socks == st.socks[s := k] && st'.cons == st.cons
    requires SockOk(k, s in st.cons, l)
    ensures SockOk(Get(st', t), t in st'.cons, if t == s then l else m)
  {
    if t == s { assert Get(st', t) == k; } else { assert Get(st', t) == Get(st, t); }
  }

  /** The main thread stores `k` for socket `s`; no other socket is affected. */
  lemma TouchSocks(st: State, st': State, s: nat, k: Sock, l: Share)
    requires SocksOk(st) && s < |st.socks| && l == Ledger(st', s)
    requires st'.socks == st.socks[s := k] && st'.cons == st.cons
    requires forall t: nat | t != s :: Ledger(st', t) == Ledger(st, t)
    requires SockOk(k, s in st.cons, l)
    ensures SocksOk(st')
  {
    hide Ledger, SockOk;
    forall t: nat ensures SockOk(Get(st', t), t in st'.cons, Ledger(st', t)) {
      TouchSock(st, st', s, k, l, t, Ledger(st, t));
    }
  }

  /** Control before the drain phase. */
  lemma EarlyControl(st: State, st': State)
    requires Control(st) && !Draining(st.main) && !Draining(st'.main) && !st'.fault
    requires st'.workers == st.workers && st'.prepare == st.prepare && st'.runLatch == st.runLatch
    requires st'.drained == st.drained
    requires Stopped(st'.main) ==> !st'.running
    requires Stopped(st'.main) && !st'.main.MAwaitPrepare? ==> st'.prepare == 0
    requires !ReadsBatch(st'.main) ==> st'.batch == []
    requires forall r | r in st'.batch :: r.Ready? ==> r.entry.typ != Accepted
    requires st'.main.MRefReady? || st'.main.MAddReady? ==> st'.main.entry.typ != Accepted
    ensures Control(st')
  {
    forall w | w in st'.workers ensures WorkerOk(st', w) {
      assert WorkerOk(st, w);
    }
  }

  lemma EarlyDrains(st: State)
    requires !Draining(st.main) && st.drained == {}
    ensures DrainsOk(st)
  {}

  /** A socket something refers to exists. */
  lemma Exists(st: State, s: nat)
    requires SocksOk(st) && Ledger(st, s) != ZERO
    ensures s < |st.socks| && Get(st, s) == st.socks[s]
  {
    assert SockOk(Get(st, s), s in st.cons, Ledger(st, s));
  }

  /** Everything but the main thread that refers to socket `s`. */
  function All(st: State, s: nat): Share {
    Plus(WLedger(st.workers, s),
         Out(QLedger(st.queue, s), BLedger(st.batch, s), RLedger(st.release, s), ZERO))
  }

  lemma AllIs(w: Share, q: Share, b: Share, r: Share, x: Share)
    ensures Plus(w, Out(q, b, r, x)) == Plus(Plus(w, Out(q, b, r, ZERO)), x)
    ensures Plus(w, Out(Plus(q, x), b, r, ZERO)) == Plus(Plus(w, Out(q, b, r, ZERO)), x)
    ensures Plus(w, Out(Plus(x, q), b, r, ZERO)) == Plus(Plus(w, Out(q, b, r, ZERO)), x)
    ensures Plus(w, Out(q, Plus(x, b), r, ZERO)) == Plus(Plus(w, Out(q, b, r, ZERO)), x)
    ensures Plus(w, Out(q, b, Plus(x, r), ZERO)) == Plus(Plus(w, Out(q, b, r, ZERO)), x)
  {}

  lemma AllMain(st: State, s: nat)
    ensures Ledger(st, s) == Plus(All(st, s), MainShare(st.main, s))
  {
    OutsideIs(st, s);
    AllIs(WLedger(st.workers, s), QLedger(st.queue, s), BLedger(st.batch, s), RLedger(st.release, s),
          MainShare(st.main, s));
  }

  lemma AllRelease(st: State, st': State, s: nat)
    requires st'.workers == st.workers && st'.queue == st.queue && st'.batch == st.batch
    requires st.release != [] && st'.release == st.release[1..]
    ensures All(st, s) == Plus(All(st', s), ReleaseShare(st.release[0], s))
  {
    RHead(st.release, s);
    AllIs(WLedger(st.workers, s), QLedger(st.queue, s), BLedger(st.batch, s), RLedger(st'.release, s),
          ReleaseShare(st.release[0], s));
  }

  lemma AllBatch(st: State, st': State, s: nat)
    requires st'.workers == st.workers && st'.queue == st.queue && st'.release == st.release
    requires st.batch != [] && st'.batch == st.batch[1..]
    ensures All(st, s) == Plus(All(st', s), ReadyShare(st.batch[0], s))
  {
    BHead(st.batch, s);
    AllIs(WLedger(st.workers, s), QLedger(st.queue, s), BLedger(st'.batch, s), RLedger(st.release, s),
          ReadyShare(st.batch[0], s));
  }

  lemma AllAppend(st: State, st': State, e: Entry, s: nat)
    requires st'.workers == st.workers && st'.release == st.release && st'.batch == st.batch
    requires st'.queue == st.queue + [e]
    ensures All(st', s) == Plus(All(st, s), EntryShare(e, s))
  {
    QAppend(st.queue, e, s);
    AllIs(WLedger(st.workers, s), QLedger(st.queue, s), BLedger(st.batch, s), RLedger(st.release, s),
          EntryShare(e, s));
  }

  lemma AllPop(st: State, st': State, s: nat)
    requires st'.workers == st.workers && st'.release == st.release && st'.batch == st.batch
    requires st.queue != [] && st'.queue == st.queue[1..]
    ensures All(st, s) == Plus(All(st', s), EntryShare(st.queue[0], s))
  {
    QHead(st.queue, s);
    AllIs(WLedger(st.workers, s), QLedger(st'.queue, s), BLedger(st.batch, s), RLedger(st.release, s),
          EntryShare(st.queue[0], s));
  }

  lemma AllSame(st: State, st': State, s: nat)
    requires st'.workers == st.workers && st'.queue == st.queue && st'.batch == st.batch && st'.release == st.release
    ensures All(st', s) == All(st, s)
  {}

  // -------------------------------------------------------- one socket, sums

  lemma ReleasePops(k: Sock, member: bool, l: Share, rest: Share)
    requires SockOk(k, member, l) && l == Plus(rest, RELEASED)
    ensures SockOk(FreeEnabled(k), member, Plus(rest, REF)) && k.past.freed == 0
  {}

  lemma CloseKeeps(k: Sock, member: bool, l: Share)
    requires SockOk(k, member, l) && l.reg > 0
    ensures SockOk(ClosedSock(k), member, l) && k.past.freed == 0
  {}

  lemma RefKeeps(k: Sock, member: bool, l: Share, rest: Share, t: EventType)
    requires SockOk(k, member, l) && l == Plus(rest, Token(t, 0, true, false, false)) && t != Accepted
    ensures SockOk(Reffed(k), member, Plus(rest, Token(t, 1, true, false, false))) && k.past.freed == 0
  {}

  lemma DropKeeps(k: Sock, member: bool, l: Share, rest: Share, t: EventType)
    requires SockOk(k, member, l) && l == Plus(rest, Token(t, 1, true, false, false)) && Backed(rest)
    ensures SockOk(Dropped(k, t), member, rest) && k.past.freed == 0 && k.refcount > 0
  {}

  // --------------------------------------------------------- the steps

  /** Steps before the drain phase that change no socket and no sum. */
  lemma QuietKeeps(st: State, st': State)
    requires Inv(st) && !Draining(st.main) && !Draining(st'.main)
    requires st' == st.(main := st'.main, running := st'.running, accepting := st'.accepting, queue := st'.queue,
                        batch := st'.batch, serverArmed := st'.serverArmed)
    requires forall s: nat :: Ledger(st', s) == Ledger(st, s)
    requires Stopped(st'.main) ==> !st'.running
    requires Stopped(st'.main) && !st'.main.MAwaitPrepare? ==> st'.prepare == 0
    requires !ReadsBatch(st'.main) ==> st'.batch == []
    requires forall r | r in st'.batch :: r in st.batch
    requires st'.main.MRefReady? || st'.main.MAddReady? ==> st'.main.entry.typ != Accepted
    ensures Inv(st')
  {
    EarlyControl(st, st');
    EarlyDrains(st');
    SocksKept(st, st');
  }

  /** Steps that change nothing but the program counter. */
  lemma MoveKeeps(st: State, st': State)
    requires Inv(st) && !Draining(st.main) && !Draining(st'.main)
    requires st' == st.(main := st'.main, running := st'.running, accepting := st'.accepting,
                        serverArmed := st'.serverArmed)
    requires forall s: nat :: MainShare(st.main, s) == MainShare(st'.main, s)
    requires Stopped(st'.main) ==> !st'.running
    requires Stopped(st'.main) && !st'.main.MAwaitPrepare? ==> st'.prepare == 0
    requires !ReadsBatch(st'.main) ==> st'.batch == []
    requires st'.main.MRefReady? || st'.main.MAddReady? ==> st'.main.entry.typ != Accepted
    ensures Inv(st')
  {
    forall s: nat ensures Ledger(st', s) == Ledger(st, s) {
      assert MainShare(st.main, s) == MainShare(st'.main, s);
    }
    QuietKeeps(st, st');
  }

  lemma BatchLedger(st: State, st': State, s: nat, x: Share)
    requires st.batch != [] && st'.batch == st.batch[1..] && MainShare(st.main, s) == ZERO
    requires st'.workers == st.workers && st'.release == st.release && st'.queue == st.queue
    requires ReadyShare(st.batch[0], s) == x && MainShare(st'.main, s) == x
    ensures Ledger(st', s) == Ledger(st, s)
  {
    AllMain(st, s);
    AllMain(st', s);
    AllBatch(st, st', s);
    PlusLaws(All(st, s), ZERO, ZERO);
  }

  /** The main thread takes the first event of the batch in hand. */
  lemma BatchKeeps(st: State, st': State)
    requires Inv(st) && st.main == MBatch && st.batch != []
    requires st' == st.(batch := st.batch[1..], main := st'.main, accepting := st'.accepting)
    requires st'.main == NextReady(st.batch[0])
    ensures Inv(st')
  {
    forall s: nat ensures Ledger(st', s) == Ledger(st, s) {
      BatchLedger(st, st', s, ReadyShare(st.batch[0], s));
    }
    assert st.batch[0] in st.batch;
    QuietKeeps(st, st');
  }

  /** The main thread puts an event, already referenced, into the queue. */
  lemma AddLedger(st: State, st': State, e: Entry, s: nat)
    requires st'.workers == st.workers && st'.release == st.release && st'.batch == st.batch
    requires st'.queue == st.queue + [e]
    requires MainShare(st.main, s) == EntryShare(e, s) && MainShare(st'.main, s) == ZERO
    ensures Ledger(st', s) == Ledger(st, s)
  {
    AllMain(st, s);
    AllMain(st', s);
    AllAppend(st, st', e, s);
    PlusLaws(All(st', s), ZERO, ZERO);
  }

  lemma AddKeeps(st: State, st': State, e: Entry)
    requires Inv(st) && ((st.main == MAddReady(e) && st'.main == MBatch)
                         || (st.main == MAcceptAdd(e.sock) && e.typ == Accepted && st'.main == MAccept))
    requires st' == st.(queue := st.queue + [e], main := st'.main)
    ensures Inv(st')
  {
    forall s: nat ensures Ledger(st', s) == Ledger(st, s) { AddLedger(st, st', e, s); }
    QuietKeeps(st, st');
  }

  /** The steps of the main thread that touch socket `s` before the drain phase. */
  lemma TouchKeeps(st: State, st': State, s: nat, k: Sock, l: Share)
    requires Inv(st) && !Draining(st.main) && !Draining(st'.main)
    requires s < |st.socks| && st.socks[s].past.freed == 0
    requires st' == Upd(st, s, k).(main := st'.main, queue := st'.queue, release := st'.release)
    requires forall t: nat | t != s :: Ledger(st', t) == Ledger(st, t)
    requires l == Ledger(st', s) && SockOk(k, s in st.cons, l)
    requires Stopped(st'.main) ==> st'.main == st.main
    requires !ReadsBatch(st'.main) ==> st'.batch == []
    requires st'.main.MRefReady? || st'.main.MAddReady? ==> st'.main.entry.typ != Accepted
    ensures Inv(st')
  {
    hide Ledger, SockOk;
    EarlyControl(st, st');
    EarlyDrains(st');
    TouchSocks(st, st', s, k, l);
  }

  lemma ReleaseLedger(st: State, st': State, s: nat, t: nat)
    requires st.main == MRelease && st.release != [] && s == st.release[0]
    requires st'.workers == st.workers && st'.queue == st.queue && st'.batch == st.batch
    requires st'.release == st.release[1..] && st'.main == MUnref(s)
    ensures Ledger(st, t) == Plus(All(st', t), ReleaseShare(s, t))
    ensures Ledger(st', t) == Plus(All(st', t), MainShare(MUnref(s), t))
    ensures t != s ==> Ledger(st', t) == Ledger(st, t)
  {
    AllMain(st, t);
    AllMain(st', t);
    AllRelease(st, st', t);
    PlusLaws(All(st, t), ZERO, ZERO);
  }

  lemma ReleaseSock(st: State, s: nat, rest: Share)
    requires SocksOk(st) && Ledger(st, s) == Plus(rest, RELEASED)
    ensures s < |st.socks| && st.socks[s].past.freed == 0
    ensures SockOk(FreeEnabled(st.socks[s]), s in st.cons, Plus(rest, REF))
  {
    Exists(st, s);
    ReleasePops(Get(st, s), s in st.cons, Ledger(st, s), rest);
  }

  lemma ReleaseKeeps(st: State, st': State, s: nat)
    requires Inv(st) && st.main == MRelease && st.release != [] && s == st.release[0]
    requires st' == Upd(st, s, FreeEnabled(Get(st, s))).(release := st.release[1..], main := MUnref(s))
    ensures Inv(st')
  {
    hide Ledger, SockOk, DrainOk, All, WorkerOk;
    forall t: nat | t != s ensures Ledger(st', t) == Ledger(st, t) { ReleaseLedger(st, st', s, t); }
    ReleaseLedger(st, st', s, s);
    ReleaseSock(st, s, All(st', s));
    TouchKeeps(st, st', s, FreeEnabled(st.socks[s]), Plus(All(st', s), REF));
  }

  lemma UnrefLedger(st: State, st': State, s: nat, t: nat)
    requires st.main == MUnref(s) && st'.main == MRelease
    requires st'.workers == st.workers && st'.queue == st.queue && st'.batch == st.batch && st'.release == st.release
    ensures Ledger(st, t) == Plus(All(st', t), MainShare(MUnref(s), t))
    ensures Ledger(st', t) == All(st', t)
    ensures t != s ==> Ledger(st', t) == Ledger(st, t)
  {
    AllMain(st, t);
    AllMain(st', t);
    AllSame(st, st', t);
    PlusLaws(All(st, t), ZERO, ZERO);
  }

  lemma UnrefSock(st: State, s: nat, rest: Share)
    requires SocksOk(st) && Ledger(st, s) == Plus(rest, REF)
    ensures s < |st.socks| && st.socks[s].past.freed == 0 && st.socks[s].refcount > 0
    ensures SockOk(Unreffed(st.socks[s]), s in st.cons, rest)
  {
    Exists(st, s);
    UnrefKeeps(Get(st, s), s in st.cons, Ledger(st, s), rest);
  }

  lemma UnrefStep(st: State, st': State, s: nat)
    requires Inv(st) && st.main == MUnref(s)
    requires st' == Upd(st, s, Unreffed(Get(st, s))).(main := MRelease)
    ensures Inv(st') && Get(st, s).refcount > 0
  {
    hide Ledger, SockOk, Control, All;
    forall t: nat | t != s ensures Ledger(st', t) == Ledger(st, t) { UnrefLedger(st, st', s, t); }
    UnrefLedger(st, st', s, s);
    UnrefSock(st, s, All(st', s));
    TouchKeeps(st, st', s, Unreffed(st.socks[s]), All(st', s));
  }

  lemma SameMainLedger(st: State, st': State, t: nat)
    requires st'.workers == st.workers && st'.queue == st.queue && st'.batch == st.batch && st'.release == st.release
    requires MainShare(st.main, t) == MainShare(st'.main, t)
    ensures Ledger(st', t) == Ledger(st, t)
  {}

  lemma CloseReadySock(st: State, s: nat)
    requires SocksOk(st) && Token(Closed, 0, true, false, false) == MainShare(st.main, s)
    ensures s < |st.socks| && st.socks[s].past.freed == 0
    ensures SockOk(ClosedSock(st.socks[s]), s in st.cons, Ledger(st, s))
  {
    AllMain(st, s);
    Exists(st, s);
    CloseKeeps(Get(st, s), s in st.cons, Ledger(st, s));
  }

  lemma CloseReadyKeeps(st: State, st': State, s: nat)
    requires Inv(st) && st.main == MCloseReady(s)
    requires st' == Upd(st, s, ClosedSock(Get(st, s))).(main := MRefReady(Entry(s, Closed)))
    ensures Inv(st')
  {
    hide Ledger, SockOk, DrainOk, All, WorkerOk;
    forall t: nat ensures Ledger(st', t) == Ledger(st, t) { SameMainLedger(st, st', t); }
    CloseReadySock(st, s);
    TouchKeeps(st, st', s, ClosedSock(st.socks[s]), Ledger(st, s));
  }

  lemma RefLedger(st: State, st': State, e: Entry, t: nat)
    requires st.main == MRefReady(e) && st'.main == MAddReady(e)
    requires st'.workers == st.workers && st'.queue == st.queue && st'.batch == st.batch && st'.release == st.release
    ensures t == e.sock ==> Ledger(st, t) == Plus(All(st, t), Token(e.typ, 0, true, false, false))
    ensures t == e.sock ==> Ledger(st', t) == Plus(All(st, t), Token(e.typ, 1, true, false, false))
    ensures t != e.sock ==> Ledger(st', t) == Ledger(st, t)
  {
    AllMain(st, t);
    AllMain(st', t);
    AllSame(st, st', t);
  }

  lemma RefSock(st: State, e: Entry, rest: Share)
    requires SocksOk(st) && e.typ != Accepted && Ledger(st, e.sock) == Plus(rest, Token(e.typ, 0, true, false, false))
    ensures e.sock < |st.socks| && st.socks[e.sock].past.freed == 0
    ensures SockOk(Reffed(st.socks[e.sock]), e.sock in st.cons, Plus(rest, Token(e.typ, 1, true, false, false)))
  {
    Exists(st, e.sock);
    RefKeeps(Get(st, e.sock), e.sock in st.cons, Ledger(st, e.sock), rest, e.typ);
  }

  lemma RefReadyKeeps(st: State, st': State, e: Entry)
    requires Inv(st) && st.main == MRefReady(e)
    requires st' == Upd(st, e.sock, Reffed(Get(st, e.sock))).(main := MAddReady(e))
    ensures Inv(st')
  {
    hide Ledger, SockOk, DrainOk, All, WorkerOk;
    RefLedger(st, st', e, e.sock);
    RefSock(st, e, All(st, e.sock));
    forall t: nat | t != e.sock ensures Ledger(st', t) == Ledger(st, t) { RefLedger(st, st', e, t); }
    TouchKeeps(st, st', e.sock, Reffed(st.socks[e.sock]), Plus(All(st, e.sock), Token(e.typ, 1, true, false, false)));
  }

  // ------------------------------------------------------ listener and accept

  /** An event of a registered socket, without a reference. */
  function Event(present: bool): Share { Share(0, 0, 0, 0, Bit(present), 0, 0, 0, 0, 0) }

  /** The listener reports a socket at most once, and never as accepted. */
  ghost predicate Distinct(b: seq<Ready>) {
    && (forall r | r in b :: r.Ready? ==> r.entry.typ != Accepted)
    && (forall x, y | 0 <= x < y < |b| :: b[x].Ready? && b[y].Ready? ==> b[x].entry.sock != b[y].entry.sock)
  }

  lemma BatchTail(b: seq<Ready>)
    requires b != [] && Distinct(b)
    ensures Distinct(b[1..])
    ensures b[0].Ready? ==> b[0].entry.typ != Accepted && b[0].entry.sock !in ReadySocks(b[1..])
    ensures forall s :: s in ReadySocks(b) <==> (b[0].Ready? && b[0].entry.sock == s) || s in ReadySocks(b[1..])
  {
    assert b == [b[0]] + b[1..];
    forall r | r in b[1..] && r.Ready? && b[0].Ready? ensures r.entry.sock != b[0].entry.sock {
      var y :| 0 <= y < |b[1..]| && b[1..][y] == r;
      assert b[y + 1] == r;
    }
  }

  /** A batch holds one event for each socket it reports. */
  lemma {:induction false} BatchSum(b: seq<Ready>, s: nat, k: Kind)
    requires Distinct(b)
    ensures SumB(b, s, k) == Of(Event(s in ReadySocks(b)), k)
  {
    if b != [] {
      BatchTail(b);
      BatchSum(b[1..], s, k);
    }
  }

  lemma ShareIs(x: Share, y: Share)
    requires forall k: Kind :: Of(x, k) == Of(y, k)
    ensures x == y
  {
    assert Of(x, Refs) == Of(y, Refs) && Of(x, Pend) == Of(y, Pend) && Of(x, Unseen) == Of(y, Unseen);
    assert Of(x, Doomed) == Of(y, Doomed) && Of(x, Reg) == Of(y, Reg) && Of(x, Retire) == Of(y, Retire);
    assert Of(x, Unreleased) == Of(y, Unreleased) && Of(x, Owed) == Of(y, Owed);
    assert Of(x, Rd) == Of(y, Rd) && Of(x, Wr) == Of(y, Wr);
  }

  lemma BatchShare(b: seq<Ready>, s: nat)
    requires Distinct(b)
    ensures BLedger(b, s) == Event(s in ReadySocks(b))
  {
    var l, x := BLedger(b, s), Event(s in ReadySocks(b));
    forall k: Kind ensures Of(l, k) == Of(x, k) {
      BLedgerOf(b, s, k);
      BatchSum(b, s, k);
    }
    ShareIs(l, x);
  }

  lemma ListenLedger(st: State, st': State, t: nat, x: Share)
    requires st.batch == [] && BLedger(st'.batch, t) == x
    requires MainShare(st.main, t) == ZERO && MainShare(st'.main, t) == ZERO
    requires st'.workers == st.workers && st'.queue == st.queue && st'.release == st.release
    ensures Ledger(st', t) == Plus(Ledger(st, t), x)
  {
    AllMain(st, t);
    AllMain(st', t);
    AllIs(WLedger(st.workers, t), QLedger(st.queue, t), ZERO, RLedger(st.release, t), x);
    PlusLaws(x, ZERO, ZERO);
    PlusLaws(All(st, t), ZERO, ZERO);
    PlusLaws(All(st', t), ZERO, ZERO);
    assert BLedger(st.batch, t) == ZERO;
  }

  /** Reporting an armed socket disarms it and creates its event. */
  lemma Reported(k: Sock, member: bool, l: Share, hit: bool)
    requires SockOk(k, member, l) && (hit ==> k.armed)
    ensures SockOk(k.(armed := k.armed && !hit), member, Plus(l, Event(hit)))
  {}

  lemma ListenSock(st: State, st': State, batch: seq<Ready>, t: nat)
    requires SocksOk(st) && ValidBatch(st, batch)
    requires forall r | r in batch :: r.Ready? ==> r.entry.typ != Accepted
    requires st'.socks == Disarmed(st.socks, ReadySocks(batch)) && st'.cons == st.cons
    requires Ledger(st', t) == Plus(Ledger(st, t), Event(t in ReadySocks(batch)))
    ensures SockOk(Get(st', t), t in st'.cons, Ledger(st', t))
  {
    var hit, k := t in ReadySocks(batch), Get(st, t);
    Reported(k, t in st.cons, Ledger(st, t), hit);
    assert Get(st', t) == k.(armed := k.armed && !hit);
  }

  lemma ListenKeeps(st: State, st': State, batch: seq<Ready>)
    requires Inv(st) && st.main == MListen && ValidBatch(st, batch)
    requires st' == st.(main := MRelease, batch := batch, accepting := false, serverArmed := st'.serverArmed,
                        socks := Disarmed(st.socks, ReadySocks(batch)))
    ensures Inv(st')
  {
    EarlyControl(st, st');
    EarlyDrains(st');
    forall t: nat ensures SockOk(Get(st', t), t in st'.cons, Ledger(st', t)) {
      BatchShare(batch, t);
      ListenLedger(st, st', t, Event(t in ReadySocks(batch)));
      ListenSock(st, st', batch, t);
    }
  }

  const FRESH: Sock := Reffed(BLANK).(life := Pending)

  lemma MainGains(st: State, st': State, x: Share, t: nat)
    requires MainShare(st.main, t) == ZERO && MainShare(st'.main, t) == x
    requires st'.workers == st.workers && st'.queue == st.queue && st'.batch == st.batch && st'.release == st.release
    ensures Ledger(st', t) == Plus(Ledger(st, t), x)
  {
    AllMain(st, t);
    AllMain(st', t);
    AllSame(st, st', t);
    PlusLaws(All(st, t), ZERO, ZERO);
  }

  lemma OldSock(st: State, st': State, t: nat, l: Share)
    requires SockOk(Get(st, t), t in st.cons, l) && t != |st.socks|
    requires st'.socks == st.socks + [FRESH] && st'.cons == st.cons
    ensures SockOk(Get(st', t), t in st'.cons, l)
  {
    assert Get(st', t) == Get(st, t);
  }

  lemma NewSock(st: State, st': State, l: Share)
    requires st'.socks == st.socks + [FRESH] && l == EntryShare(Entry(|st.socks|, Accepted), |st.socks|)
    ensures SockOk(Get(st', |st.socks|), false, l)
  {
    assert Get(st', |st.socks|) == FRESH;
  }

  lemma NoSock(st: State, s: nat)
    requires SocksOk(st) && s >= |st.socks|
    ensures s !in st.cons && Ledger(st, s) == ZERO
  {
    assert SockOk(Get(st, s), s in st.cons, Ledger(st, s));
  }

  lemma AcceptNew(st: State, st': State, t: nat)
    requires SocksOk(st) && t == |st.socks| && Ledger(st', t) == Plus(Ledger(st, t), EntryShare(Entry(t, Accepted), t))
    requires st'.socks == st.socks + [FRESH] && st'.cons == st.cons
    ensures SockOk(Get(st', t), t in st'.cons, EntryShare(Entry(t, Accepted), t))
    ensures Ledger(st', t) == EntryShare(Entry(t, Accepted), t)
  {
    NoSock(st, t);
    PlusLaws(EntryShare(Entry(t, Accepted), t), ZERO, ZERO);
    NewSock(st, st', EntryShare(Entry(t, Accepted), t));
  }

  lemma AcceptOld(st: State, st': State, t: nat)
    requires SocksOk(st) && t != |st.socks| && Ledger(st', t) == Plus(Ledger(st, t), ZERO)
    requires st'.socks == st.socks + [FRESH] && st'.cons == st.cons
    ensures SockOk(Get(st', t), t in st'.cons, Ledger(st, t))
    ensures Ledger(st', t) == Ledger(st, t)
  {
    PlusLaws(Ledger(st, t), ZERO, ZERO);
    OldSock(st, st', t, Ledger(st, t));
  }

  lemma AcceptKeeps(st: State, st': State)
    requires Inv(st) && st.main == MAccept
    requires st' == st.(socks := st.socks + [FRESH], main := MAcceptAdd(|st.socks|))
    ensures Inv(st')
  {
    hide Ledger, SockOk, DrainOk;
    EarlyControl(st, st');
    EarlyDrains(st');
    forall t: nat ensures SockOk(Get(st', t), t in st'.cons, Ledger(st', t)) {
      MainGains(st, st', EntryShare(Entry(|st.socks|, Accepted), t), t);
      if t == |st.socks| { AcceptNew(st, st', t); } else { AcceptOld(st, st', t); }
    }
  }

  // ------------------------------------------------------------ drain phase

  lemma LedgerBacked(st: State, s: nat)
    ensures Backed(Ledger(st, s))
  {
    SumWBacked(st.workers, s);
    OutsideBacked(st, s);
    PlusLaws(WLedger(st.workers, s), Outside(st, s), ZERO);
  }

  lemma ClearLedger(st: State, st': State, t: nat)
    requires st.queue != [] && st'.queue == st.queue[1..]
    requires st'.workers == st.workers && st'.batch == st.batch && st'.release == st.release
    requires MainShare(st.main, t) == ZERO && MainShare(st'.main, t) == ZERO
    ensures Ledger(st, t) == Plus(Ledger(st', t), EntryShare(st.queue[0], t))
  {
    AllMain(st, t);
    AllMain(st', t);
    AllPop(st, st', t);
    PlusLaws(All(st, t), ZERO, ZERO);
    PlusLaws(All(st', t), ZERO, ZERO);
  }

  lemma DropSock(st: State, e: Entry, rest: Share)
    requires SocksOk(st) && Ledger(st, e.sock) == Plus(rest, Token(e.typ, 1, true, false, false)) && Backed(rest)
    ensures e.sock < |st.socks| && st.socks[e.sock].past.freed == 0 && st.socks[e.sock].refcount > 0
    ensures SockOk(Dropped(st.socks[e.sock], e.typ), e.sock in st.cons, rest)
  {
    Exists(st, e.sock);
    DropKeeps(Get(st, e.sock), e.sock in st.cons, Ledger(st, e.sock), rest, e.typ);
  }

  lemma ClearKeeps(st: State, st': State, e: Entry)
    requires Inv(st) && st.main == MDrainClear && st.queue != [] && e == st.queue[0]
    requires st' == Upd(st, e.sock, Dropped(Get(st, e.sock), e.typ)).(queue := st.queue[1..])
    ensures Inv(st') && Get(st, e.sock).refcount > 0
  {
    hide Ledger, SockOk, DrainOk, All;
    ClearLedger(st, st', e.sock);
    LedgerBacked(st', e.sock);
    DropSock(st, e, Ledger(st', e.sock));
    forall t: nat | t != e.sock ensures Ledger(st', t) == Ledger(st, t) {
      ClearLedger(st, st', t);
      PlusLaws(Ledger(st', t), ZERO, ZERO);
    }
    TouchKeeps(st, st', e.sock, Dropped(st.socks[e.sock], e.typ), Ledger(st', e.sock));
  }

  lemma {:induction false} SumWIdle(ws: seq<Worker>, s: nat, k: Kind)
    requires forall w | w in ws :: !w.pc.Busy?
    ensures SumW(ws, s, k) == 0
  {
    if ws != [] {
      assert ws[0] in ws;
      SumWIdle(ws[1..], s, k);
    }
  }

  lemma {:induction false} SumRKinds(r: seq<nat>, s: nat, k: Kind)
    ensures SumR(r, s, k) == if k.Refs? then SumR(r, s, Retire) else if k.Retire? then SumR(r, s, k) else 0
  {
    if r != [] { SumRKinds(r[1..], s, k); }
  }

  /** What the release list holds of a socket that is on it `n` times. */
  function Waits(n: nat): Share { Share(n, 0, 0, 0, 0, n, 0, 0, 0, 0) }

  /** When no worker handles an event and nothing is queued, only the release list refers to sockets. */
  lemma Settled(st: State, s: nat)
    requires forall w | w in st.workers :: !w.pc.Busy?
    requires st.queue == [] && st.batch == [] && MainShare(st.main, s) == ZERO
    ensures Ledger(st, s) == Waits(SumR(st.release, s, Retire))
  {
    var w, r, n := WLedger(st.workers, s), RLedger(st.release, s), SumR(st.release, s, Retire);
    forall k: Kind ensures Of(w, k) == Of(ZERO, k) { WLedgerOf(st.workers, s, k); SumWIdle(st.workers, s, k); }
    ShareIs(w, ZERO);
    forall k: Kind ensures Of(r, k) == Of(Waits(n), k) {
      RLedgerOf(st.release, s, k);
      SumRKinds(st.release, s, k);
    }
    ShareIs(r, Waits(n));
    SettledSum(st, s, r);
  }

  lemma SettledSum(st: State, s: nat, r: Share)
    requires WLedger(st.workers, s) == ZERO && r == RLedger(st.release, s)
    requires st.queue == [] && st.batch == [] && MainShare(st.main, s) == ZERO
    ensures Ledger(st, s) == r
  {
    OutsideIs(st, s);
    assert QLedger(st.queue, s) == ZERO && BLedger(st.batch, s) == ZERO;
    PlusLaws(ZERO, ZERO, r);
    PlusLaws(r, ZERO, ZERO);
  }

  /** Once the prepare latch is down and before the run latch is, every worker waits for the run latch: no callback
      runs. */
  lemma AllWait(st: State)
    requires Control(st) && st.prepare == 0 && !RunReleased(st.main)
    ensures forall w | w in st.workers :: w == Worker(false, AwaitRun)
  {
    UncountedZero(st.workers);
    forall w | w in st.workers ensures w == Worker(false, AwaitRun) {
      assert WorkerOk(st, w) && Counted(w);
    }
  }

  /** Control in the drain phase, up to the release of the run latch. */
  lemma LateControl(st: State, st': State)
    requires Control(st) && Stopped(st.main) && !st.main.MAwaitPrepare?
    requires !RunReleased(st.main) && !RunReleased(st'.main) && Draining(st'.main) && !st'.fault
    requires st'.workers == st.workers && st'.prepare == st.prepare && st'.runLatch == st.runLatch
    requires st'.running == st.running && st'.batch == [] && st'.cons == st.cons
    requires forall e | e in st'.queue :: e.typ == Closed
    requires st'.main.MCountRun? ==> st'.todo == {}
    requires st'.main.MDrainRef? ==> st'.main.sock !in st'.todo
    requires st'.todo <= st.cons && st.cons <= st'.drained
    ensures Control(st')
  {
    AllWait(st);
    forall w | w in st'.workers ensures WorkerOk(st', w) {
      assert WorkerOk(st, w);
    }
  }

  lemma NoRefs(k: Sock, member: bool, l: Share, n: nat)
    requires SockOk(k, member, l) && k.life == Registered && l == Waits(n)
    ensures l.refs == 0
  {}

  lemma ClearedSock(st: State, s: nat)
    requires Control(st) && SocksOk(st) && st.main == MDrainClear && st.queue == []
    ensures Get(st, s).life == Registered ==> Ledger(st, s).refs == 0
  {
    if Get(st, s).life == Registered {
      AllWait(st);
      Settled(st, s);
      NoRefs(Get(st, s), s in st.cons, Ledger(st, s), SumR(st.release, s, Retire));
    }
  }

  lemma ClearedKeeps(st: State, st': State)
    requires Inv(st) && st.main == MDrainClear && st.queue == []
    requires st' == st.(main := MDrainConns, todo := st.cons, drained := st.cons)
    ensures Inv(st')
  {
    LateControl(st, st');
    forall s: nat ensures Ledger(st', s) == Ledger(st, s) { SameMainLedger(st, st', s); }
    SocksKept(st, st');
    forall s: nat ensures DrainOk(st', s) {
      ClearedDrain(st, st', s);
    }
  }

  lemma ClearedDrain(st: State, st': State, s: nat)
    requires Control(st) && SocksOk(st) && st.main == MDrainClear && st.queue == []
    requires st'.main == MDrainConns && st'.todo == st.cons && st'.drained == st.cons && st'.socks == st.socks
    requires Ledger(st', s) == Ledger(st, s)
    ensures DrainOk(st', s)
  {
    ClearedSock(st, s);
    assert Get(st', s) == Get(st, s);
    RegisteredMember(st, s);
  }

  lemma RegisteredMember(st: State, s: nat)
    requires SocksOk(st)
    ensures s in st.cons <==> Get(st, s).life == Registered
  {
    assert SockOk(Get(st, s), s in st.cons, Ledger(st, s));
  }

  lemma LateDrain(st: State, st': State, s: nat, t: nat)
    requires DrainOk(st, t) && t != s && Draining(st.main) && Draining(st'.main)
    requires Get(st', t) == Get(st, t) && Ledger(st', t) == Ledger(st, t) && st'.drained == st.drained
    requires st.main.MDrainRef? ==> st.main.sock == s
    requires st'.main.MDrainRef? ==> st'.main.sock == s
    requires t in st'.todo <==> t in st.todo
    ensures DrainOk(st', t)
  {}

  /** The steps of the main thread that touch socket `s` in the drain phase. */
  lemma LateTouch(st: State, st': State, s: nat, k: Sock, l: Share)
    requires Inv(st) && Draining(st.main) && Draining(st'.main) && Control(st')
    requires s < |st.socks|
    requires st' == Upd(st, s, k).(main := st'.main, todo := st'.todo, release := st'.release)
    requires forall t: nat | t != s :: Ledger(st', t) == Ledger(st, t)
    requires l == Ledger(st', s) && SockOk(k, s in st.cons, l) && DrainOk(st', s)
    requires st.main.MDrainRef? ==> st.main.sock == s
    requires st'.main.MDrainRef? ==> st'.main.sock == s
    requires forall t: nat | t != s :: t in st'.todo <==> t in st.todo
    ensures Inv(st')
  {
    hide Ledger, SockOk, DrainOk;
    TouchSocks(st, st', s, k, l);
    LateDrains(st, st', s);
  }

  lemma LateDrains(st: State, st': State, s: nat)
    requires DrainsOk(st) && Draining(st.main) && Draining(st'.main) && DrainOk(st', s)
    requires st'.drained == st.drained
    requires forall t: nat | t != s :: Get(st', t) == Get(st, t) && Ledger(st', t) == Ledger(st, t)
    requires st.main.MDrainRef? ==> st.main.sock == s
    requires st'.main.MDrainRef? ==> st'.main.sock == s
    requires forall t: nat | t != s :: t in st'.todo <==> t in st.todo
    ensures DrainsOk(st')
  {
    hide Ledger, DrainOk;
    forall t: nat ensures DrainOk(st', t) {
      if t != s { LateDrain(st, st', s, t); }
    }
  }

  lemma PickLedger(st: State, st': State, s: nat, t: nat)
    requires st.main == MDrainConns && st'.main == MDrainRef(s)
    requires st'.workers == st.workers && st'.queue == st.queue && st'.batch == st.batch && st'.release == st.release
    ensures Ledger(st', t) == Plus(Ledger(st, t), Event(t == s))
  {
    MainGains(st, st', Event(t == s), t);
  }

  /** A registered socket nothing refers to is closed for the drain. */
  lemma PickKeeps(k: Sock, member: bool, l: Share)
    requires SockOk(k, member, l) && k.life == Registered && l.refs == 0 && l.reg == 0
    ensures SockOk(ClosedSock(k), member, Plus(l, Event(true))) && k.past.freed == 0
  {}

  /** Without a batch, outside the main thread every event comes with a reference. */
  lemma RegCounted(st: State, s: nat)
    requires st.batch == [] && MainShare(st.main, s) == ZERO
    ensures Ledger(st, s).reg <= Ledger(st, s).refs
  {
    hide WLedger, QLedger, BLedger, RLedger;
    var w, q, r := WLedger(st.workers, s), QLedger(st.queue, s), RLedger(st.release, s);
    SumWBacked(st.workers, s);
    SumQBacked(st.queue, s);
    SumRBacked(st.release, s);
    OutsideIs(st, s);
    EmptyBatch(s);
    assert Out(q, ZERO, r, ZERO).reg == q.reg + r.reg && Out(q, ZERO, r, ZERO).refs == q.refs + r.refs;
  }

  lemma PickSock(st: State, s: nat)
    requires Inv(st) && st.main == MDrainConns && s in st.todo
    ensures s < |st.socks| && st.socks[s].life == Registered && st.socks[s].past.freed == 0
    ensures Ledger(st, s).refs == 0
    ensures SockOk(ClosedSock(st.socks[s]), s in st.cons, Plus(Ledger(st, s), Event(true)))
  {
    assert SockOk(Get(st, s), s in st.cons, Ledger(st, s)) && DrainOk(st, s);
    RegCounted(st, s);
    PickKeeps(Get(st, s), s in st.cons, Ledger(st, s));
  }

  lemma DrainPickKeeps(st: State, st': State, s: nat)
    requires Inv(st) && st.main == MDrainConns && s in st.todo
    requires st' == Upd(st, s, ClosedSock(Get(st, s))).(todo := st.todo - {s}, main := MDrainRef(s))
    ensures Inv(st')
  {
    hide Ledger, SockOk, WorkerOk;
    PickSock(st, s);
    LateControl(st, st');
    forall t: nat | t != s ensures Ledger(st', t) == Ledger(st, t) {
      PickLedger(st, st', s, t);
      PlusLaws(Ledger(st, t), ZERO, ZERO);
    }
    PickLedger(st, st', s, s);
    LateTouch(st, st', s, ClosedSock(st.socks[s]), Plus(Ledger(st, s), Event(true)));
  }

  lemma DrainRefLedger(st: State, st': State, s: nat, t: nat)
    requires st.main == MDrainRef(s) && st'.main == MDrainAdd(s)
    requires st'.workers == st.workers && st'.queue == st.queue && st'.batch == st.batch && st'.release == st.release
    ensures t == s ==> Ledger(st, t) == Plus(All(st, t), Token(Closed, 0, true, false, false))
    ensures t == s ==> Ledger(st', t) == Plus(All(st, t), Token(Closed, 1, true, false, false))
    ensures t != s ==> Ledger(st', t) == Ledger(st, t)
  {
    AllMain(st, t);
    AllMain(st', t);
    AllSame(st, st', t);
  }

  lemma OneEvent(k: Sock, member: bool, l: Share, l': Share, rest: Share)
    requires SockOk(k, member, l) && l == Plus(rest, Token(Closed, 0, true, false, false)) && l.refs == 0
    requires l' == Plus(rest, Token(Closed, 1, true, false, false))
    ensures l'.refs == 1 && l'.reg == 1
  {}

  lemma DrainRefKeeps(st: State, st': State, s: nat)
    requires Inv(st) && st.main == MDrainRef(s)
    requires st' == Upd(st, s, Reffed(Get(st, s))).(main := MDrainAdd(s))
    ensures Inv(st')
  {
    hide Ledger, All, WorkerOk;
    DrainRefLedger(st, st', s, s);
    RefSock(st, Entry(s, Closed), All(st, s));
    assert SockOk(Get(st, s), s in st.cons, Ledger(st, s)) && DrainOk(st, s);
    OneEvent(Get(st, s), s in st.cons, Ledger(st, s), Ledger(st', s), All(st, s));
    LateControl(st, st');
    forall t: nat | t != s ensures Ledger(st', t) == Ledger(st, t) { DrainRefLedger(st, st', s, t); }
    LateTouch(st, st', s, Reffed(st.socks[s]), Plus(All(st, s), Token(Closed, 1, true, false, false)));
  }

  lemma DrainAddKeeps(st: State, st': State, s: nat)
    requires Inv(st) && st.main == MDrainAdd(s)
    requires st' == st.(queue := st.queue + [Entry(s, Closed)], main := MDrainConns)
    ensures Inv(st')
  {
    LateControl(st, st');
    forall t: nat ensures Ledger(st', t) == Ledger(st, t) { AddLedger(st, st', Entry(s, Closed), t); }
    SocksKept(st, st');
    DrainsKept(st, st');
  }

  /** The steps in the drain phase that only move the main thread. */
  lemma LateMoveKeeps(st: State, st': State)
    requires Inv(st) && Draining(st.main) && Draining(st'.main) && Control(st')
    requires st' == st.(main := st'.main, runLatch := st'.runLatch)
    requires !st.main.MDrainRef? && !st'.main.MDrainRef?
    requires forall t: nat :: MainShare(st.main, t) == MainShare(st'.main, t)
    ensures Inv(st')
  {
    forall t: nat ensures Ledger(st', t) == Ledger(st, t) {
      assert MainShare(st.main, t) == MainShare(st'.main, t);
    }
    SocksKept(st, st');
    DrainsKept(st, st');
  }

  lemma CountRunKeeps(st: State, st': State)
    requires Inv(st) && st.main == MCountRun && st' == st.(runLatch := 0, main := MJoin)
    ensures Inv(st') && st.runLatch == 1
  {
    UncountedZero(st.workers);
    forall w | w in st'.workers ensures WorkerOk(st', w) {
      assert WorkerOk(st, w);
    }
    LateMoveKeeps(st, st');
  }

  lemma JoinKeeps(st: State, st': State)
    requires Inv(st) && st.main == MJoin && st' == st.(main := MFreeAll)
    requires forall w | w in st.workers :: w.pc == Done
    ensures Inv(st')
  {
    forall w | w in st'.workers ensures WorkerOk(st', w) {
      assert WorkerOk(st, w);
    }
    LateMoveKeeps(st, st');
  }

  /** When all workers have returned, the queue is empty. */
  lemma AllDone(st: State)
    requires Control(st) && forall w | w in st.workers :: w.pc == Done
    ensures st.queue == [] && RunReleased(st.main)
  {
    assert WorkerOk(st, st.workers[0]);
  }

  lemma FreeKeeps(k: Sock, member: bool, l: Share, rest: Share)
    requires SockOk(k, member, l) && l == Plus(rest, RELEASED) && rest.refs == rest.retire
    ensures SockOk(Freed(k), member, rest) && k.past.freed == 0 && k.life == Retired
  {}

  lemma FreeLedger(st: State, st': State, s: nat, t: nat)
    requires MainShare(st.main, t) == ZERO && MainShare(st'.main, t) == ZERO
    requires st.release != [] && s == st.release[0] && st'.release == st.release[1..]
    requires st'.workers == st.workers && st'.queue == st.queue && st'.batch == st.batch
    ensures Ledger(st, t) == Plus(Ledger(st', t), ReleaseShare(s, t))
  {
    AllMain(st, t);
    AllMain(st', t);
    AllRelease(st, st', t);
    PlusLaws(All(st, t), ZERO, ZERO);
    PlusLaws(All(st', t), ZERO, ZERO);
  }

  lemma FreeSock(st: State, s: nat, rest: Share)
    requires SocksOk(st) && Ledger(st, s) == Plus(rest, RELEASED) && rest.refs == rest.retire
    ensures s < |st.socks| && st.socks[s].past.freed == 0 && st.socks[s].life == Retired
    ensures SockOk(Freed(st.socks[s]), s in st.cons, rest)
  {
    Exists(st, s);
    FreeKeeps(Get(st, s), s in st.cons, Ledger(st, s), rest);
  }

  lemma FreeControl(st: State, st': State, s: nat, k: Sock)
    requires Control(st) && st.main == MFreeAll && st.release != [] && s < |st.socks| && st.socks[s].past.freed == 0
    requires st' == Upd(st, s, k).(release := st.release[1..])
    ensures Control(st')
  {
    forall w | w in st'.workers ensures WorkerOk(st', w) {
      assert WorkerOk(st, w);
    }
  }

  lemma FreeFirst(st: State, st': State, s: nat)
    requires Inv(st) && st.main == MFreeAll && st.release != [] && s == st.release[0]
    requires st'.workers == st.workers && st'.queue == st.queue && st'.batch == st.batch
    requires st'.release == st.release[1..] && st'.main == MFreeAll
    ensures s < |st.socks| && st.socks[s].past.freed == 0 && st.socks[s].life == Retired
    ensures SockOk(Freed(st.socks[s]), s in st.cons, Ledger(st', s))
  {
    hide SockOk, Ledger;
    forall w | w in st.workers ensures w.pc == Done { assert WorkerOk(st, w); }
    AllDone(st);
    FreeLedger(st, st', s, s);
    Settled(st', s);
    FreeSock(st, s, Ledger(st', s));
  }

  lemma FreeAllKeeps(st: State, st': State, s: nat, k: Sock)
    requires Inv(st) && st.main == MFreeAll && st.release != [] && s == st.release[0]
    requires k == Freed(Get(st, s))
    requires st' == Upd(st, s, k).(release := st.release[1..])
    ensures Inv(st')
  {
    hide Ledger, SockOk, WorkerOk;
    FreeFirst(st, st', s);
    FreeControl(st, st', s, k);
    forall t: nat | t != s ensures Ledger(st', t) == Ledger(st, t) {
      FreeLedger(st, st', s, t);
      PlusLaws(Ledger(st', t), ZERO, ZERO);
    }
    assert DrainOk(st, s);
    LateTouch(st, st', s, k, Ledger(st', s));
  }

  lemma DoneKeeps(st: State, st': State)
    requires Inv(st) && st.main == MFreeAll && st.release == [] && st' == st.(main := MDone)
    ensures Inv(st')
  {
    forall w | w in st'.workers ensures WorkerOk(st', w) {
      assert WorkerOk(st, w);
    }
    LateMoveKeeps(st, st');
  }

  lemma ListenPhaseKeeps(st: State, st': State, input: MainInput)
    requires Inv(st) && (st.main.MCheck? || st.main.MListen?) && st' == ListenStep(st, input)
    ensures Inv(st')
  {
    hide Ledger, SockOk, DrainOk, WorkerOk;
    if st.main == MCheck || !input.ok { MoveKeeps(st, st'); }
    else if ValidBatch(st, input.batch) { ListenKeeps(st, st', input.batch); }
  }

  lemma UnrefIs(st: State, input: MainInput, s: nat)
    requires st.main == MUnref(s) && Get(st, s).refcount > 0
    ensures ListenStep(st, input) == Upd(st, s, Unreffed(Get(st, s))).(main := MRelease)
  {}

  lemma UnrefPhaseKeeps(st: State, st': State, input: MainInput)
    requires Inv(st) && st.main.MUnref? && st' == ListenStep(st, input)
    ensures Inv(st')
  {
    var s := st.main.sock;
    UnrefStep(st, Upd(st, s, Unreffed(Get(st, s))).(main := MRelease), s);
    UnrefIs(st, input, s);
  }

  lemma ReleasePhaseKeeps(st: State, st': State, input: MainInput)
    requires Inv(st) && st.main.MRelease? && st' == ListenStep(st, input)
    ensures Inv(st')
  {
    hide Inv, Ledger, FreeEnabled;
    if st.release == [] { MoveKeeps(st, st'); } else { ReleaseKeeps(st, st', st.release[0]); }
  }

  lemma BatchPhaseKeeps(st: State, st': State, input: MainInput)
    requires Inv(st) && Batches(st.main) && st' == BatchStep(st, input)
    ensures Inv(st')
  {
    hide Inv, Ledger, Reffed, ClosedSock;
    match st.main
    case MBatch => if st.batch == [] { MoveKeeps(st, st'); } else { BatchKeeps(st, st'); }
    case MCloseReady(s) => CloseReadyKeeps(st, st', s);
    case MRefReady(e) => RefReadyKeeps(st, st', e);
    case MAddReady(e) => AddKeeps(st, st', e);
  }

  lemma AcceptPhaseKeeps(st: State, st': State, input: MainInput)
    requires Inv(st) && st.main.MAccept? && st' == AcceptStep(st, input)
    ensures Inv(st')
  {
    hide Ledger, SockOk, DrainOk, WorkerOk;
    if input.ok { AcceptKeeps(st, st'); } else { MoveKeeps(st, st'); }
  }

  lemma AddPhaseKeeps(st: State, st': State, input: MainInput)
    requires Inv(st) && st.main.MAcceptAdd? && st' == AcceptStep(st, input)
    ensures Inv(st')
  {
    hide Inv;
    AddKeeps(st, st', Entry(st.main.sock, Accepted));
  }

  lemma StopPhaseKeeps(st: State, st': State, input: MainInput)
    requires Inv(st) && (st.main.MFinish? || st.main.MAwaitPrepare?) && st' == StopStep(st, input)
    ensures Inv(st')
  {
    hide Ledger, SockOk, DrainOk, WorkerOk;
    if st.main == MFinish || st.prepare == 0 { MoveKeeps(st, st'); }
  }

  lemma ClearIs(st: State, input: MainInput, e: Entry)
    requires st.main == MDrainClear && st.queue != [] && e == st.queue[0] && Get(st, e.sock).refcount > 0
    ensures StopStep(st, input) == Upd(st, e.sock, Dropped(Get(st, e.sock), e.typ)).(queue := st.queue[1..])
  {}

  lemma ClearPhaseKeeps(st: State, st': State, input: MainInput)
    requires Inv(st) && st.main.MDrainClear? && st' == StopStep(st, input)
    ensures Inv(st')
  {
    if st.queue == [] {
      ClearedKeeps(st, st');
    } else {
      var e := st.queue[0];
      ClearKeeps(st, Upd(st, e.sock, Dropped(Get(st, e.sock), e.typ)).(queue := st.queue[1..]), e);
      ClearIs(st, input, e);
    }
  }

  lemma ConnsPhaseKeeps(st: State, st': State, input: MainInput)
    requires Inv(st) && st.main.MDrainConns? && st' == DrainStep(st, input)
    ensures Inv(st')
  {
    hide Ledger, SockOk, DrainOk;
    if st.todo == {} {
      LateControl(st, st');
      LateMoveKeeps(st, st');
    } else if input.pick in st.todo {
      DrainPickKeeps(st, st', input.pick);
    }
  }

  lemma DrainPhaseKeeps(st: State, st': State, input: MainInput)
    requires Inv(st) && (st.main.MDrainRef? || st.main.MDrainAdd?) && st' == DrainStep(st, input)
    ensures Inv(st')
  {
    hide Inv, Ledger;
    match st.main
    case MDrainRef(s) => DrainRefKeeps(st, st', s);
    case MDrainAdd(s) => DrainAddKeeps(st, st', s);
  }

  lemma EndPhaseKeeps(st: State, st': State, input: MainInput)
    requires Inv(st) && (st.main.MJoin? || st.main.MDone?) && st' == EndStep(st, input)
    ensures Inv(st')
  {
    if st.main.MJoin? {
      if forall w | w in st.workers :: w.pc == Done { JoinKeeps(st, st'); }
    }
  }

  lemma CountRunPhaseKeeps(st: State, st': State, input: MainInput)
    requires Inv(st) && st.main.MCountRun? && st' == DrainStep(st, input)
    ensures Inv(st')
  {
    CountRunKeeps(st, st.(runLatch := 0, main := MJoin));
  }

  lemma FreePhaseKeeps(st: State, st': State, input: MainInput)
    requires Inv(st) && st.main.MFreeAll? && st' == EndStep(st, input)
    ensures Inv(st')
  {
    hide Inv, Ledger;
    if st.release == [] { DoneKeeps(st, st'); }
    else { FreeAllKeeps(st, st', st.release[0], Freed(Get(st, st.release[0]))); }
  }

  /** Every step of the main thread keeps the invariant. */
  lemma MainKeeps(st: State, input: MainInput)
    requires Inv(st)
    ensures Inv(MainStep(st, input))
  {
    hide Inv;
    var st', m := MainStep(st, input), st.main;
    if m.MCheck? || m.MListen? { ListenPhaseKeeps(st, st', input); }
    else if m.MUnref? { UnrefPhaseKeeps(st, st', input); }
    else if m.MRelease? { ReleasePhaseKeeps(st, st', input); }
    else if Batches(m) { BatchPhaseKeeps(st, st', input); }
    else if m.MAccept? { AcceptPhaseKeeps(st, st', input); }
    else if m.MAcceptAdd? { AddPhaseKeeps(st, st', input); }
    else if m.MFinish? || m.MAwaitPrepare? { StopPhaseKeeps(st, st', input); }
    else if m.MDrainClear? { ClearPhaseKeeps(st, st', input); }
    else if m.MDrainConns? { ConnsPhaseKeeps(st, st', input); }
    else if m.MDrainRef? || m.MDrainAdd? { DrainPhaseKeeps(st, st', input); }
    else if m.MCountRun? { CountRunPhaseKeeps(st, st', input); }
    else if m.MFreeAll? { FreePhaseKeeps(st, st', input); }
    else { EndPhaseKeeps(st, st', input); }
  }
}
