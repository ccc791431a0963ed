/**
The inductive invariant of the stream server and its preservation by every step of every thread.

For one socket, everything that refers to it (queue entries, listener batch, release list, workers, main thread) is
summed into a `Share`. The invariant of a socket relates its record to that sum, so a step of one thread only has to be
checked against the sum of all the others.
*/
module StreamServerProof {
  import opened StreamServer

  /** What a part of the state holds of one socket.
      refs: counted references; pend: unhandled ACCEPTED events; unseen: those whose callback has not run; doomed: those
      that died in their callback; reg: other unhandled events; retire: pending frees; unreleased: those not yet on the
      release list; owed: disconnect callbacks still to run; rd, wr: lock flags held. */
  datatype Share = Share(refs: nat, pend: nat, unseen: nat, doomed: nat, reg: nat, retire: nat, unreleased: nat,
                         owed: nat, rd: nat, wr: nat)

  const ZERO: Share := Share(0, 0, 0, 0, 0, 0, 0, 0, 0, 0)

  function Plus(a: Share, b: Share): Share {
    Share(a.refs + b.refs, a.pend + b.pend, a.unseen + b.unseen, a.doomed + b.doomed, a.reg + b.reg,
          a.retire + b.retire, a.unreleased + b.unreleased, a.owed + b.owed, a.rd + b.rd, a.wr + b.wr)
  }

  function Bit(b: bool): nat { if b then 1 else 0 }

  /** A worker, or the main thread, with `refs` references that still has to handle an event of type `t`. */
  function Token(t: EventType, refs: nat, unseen: bool, doomed: bool, locked: bool): Share {
    var a := t == Accepted;
    Share(refs, Bit(a), Bit(a && unseen), Bit(a && doomed), Bit(!a), 0, 0, 0,
          Bit(locked && NeedsRead(t)), Bit(locked && NeedsWrite(t)))
  }

  /** An entry of the release list. */
  const RELEASED: Share := Share(1, 0, 0, 0, 0, 1, 0, 0, 0, 0)

  predicate HasToken(at: Place) {
    !(Frees(at) || at.Unlock? || at.Finish? || at.Gone?)
  }

  predicate BeforeCallback(at: Place) {
    at.Got? || at.TryLock? || at.Locked? || at.FailClose? || at.Connect? || at.RequeueRef? || at.RequeueAdd?
  }

  predicate Dying(at: Place) { at.ErrorCallback? || at.Close? || at.Remove? }

  predicate HoldsLocks(at: Place) {
    !(at.Got? || at.TryLock? || at.RequeueRef? || at.RequeueAdd? || at.Finish? || at.Gone?)
  }

  predicate Frees(at: Place) { at.Unlisten? || at.Notify? || at.FreeRef? || at.FreeAdd? }

  predicate Owes(at: Place) { at.Unlisten? || at.Notify? }

  function RefsAt(at: Place): nat { if at.Gone? then 0 else if at.FreeAdd? || at.RequeueAdd? then 2 else 1 }

  /** What a worker at `at`, with an event of type `t`, holds of the socket of the event. */
  function PlaceShare(t: EventType, at: Place): Share {
    var a := t == Accepted;
    Share(RefsAt(at),
          Bit(HasToken(at) && a), Bit(BeforeCallback(at) && a), Bit(Dying(at) && a), Bit(HasToken(at) && !a),
          Bit(Frees(at)), Bit(Frees(at)), Bit(Owes(at)),
          Bit(HoldsLocks(at) && NeedsRead(t)), Bit(HoldsLocks(at) && NeedsWrite(t)))
  }

  function WorkerShare(w: Worker, s: nat): Share {
    if w.pc.Busy? && w.pc.entry.sock == s then PlaceShare(w.pc.entry.typ, w.pc.at) else ZERO
  }

  function EntryShare(e: Entry, s: nat): Share {
    if e.sock == s then Token(e.typ, 1, true, false, false) else ZERO
  }

  function ReadyShare(r: Ready, s: nat): Share {
    if r.Ready? && r.entry.sock == s then Token(r.entry.typ, 0, true, false, false) else ZERO
  }

  function ReleaseShare(r: nat, s: nat): Share {
    if r == s then RELEASED else ZERO
  }

  function MainShare(m: MainPc, s: nat): Share {
    match m
    case MUnref(r) => if r == s then Share(1, 0, 0, 0, 0, 0, 0, 0, 0, 0) else ZERO
    case MCloseReady(r) => if r == s then Token(Closed, 0, true, false, false) else ZERO
    case MRefReady(e) => if e.sock == s then Token(e.typ, 0, true, false, false) else ZERO
    case MAddReady(e) => EntryShare(e, s)
    case MAcceptAdd(r) => EntryShare(Entry(r, Accepted), s)
    case MDrainRef(r) => if r == s then Token(Closed, 0, true, false, false) else ZERO
    case MDrainAdd(r) => EntryShare(Entry(r, Closed), s)
    case _ => ZERO
  }

  datatype Kind = Refs | Pend | Unseen | Doomed | Reg | Retire | Unreleased | Owed | Rd | Wr

  function Of(x: Share, k: Kind): nat {
    match k
    case Refs => x.refs
    case Pend => x.pend
    case Unseen => x.unseen
    case Doomed => x.doomed
    case Reg => x.reg
    case Retire => x.retire
    case Unreleased => x.unreleased
    case Owed => x.owed
    case Rd => x.rd
    case Wr => x.wr
  }

  function SumW(ws: seq<Worker>, s: nat, k: Kind): nat {
    if ws == [] then 0 else Of(WorkerShare(ws[0], s), k) + SumW(ws[1..], s, k)
  }

  function SumQ(q: seq<Entry>, s: nat, k: Kind): nat {
    if q == [] then 0 else Of(EntryShare(q[0], s), k) + SumQ(q[1..], s, k)
  }

  function SumB(b: seq<Ready>, s: nat, k: Kind): nat {
    if b == [] then 0 else Of(ReadyShare(b[0], s), k) + SumB(b[1..], s, k)
  }

  function SumR(r: seq<nat>, s: nat, k: Kind): nat {
    if r == [] then 0 else Of(ReleaseShare(r[0], s), k) + SumR(r[1..], s, k)
  }

  function WLedger(ws: seq<Worker>, s: nat): Share {
    Share(SumW(ws, s, Refs), SumW(ws, s, Pend), SumW(ws, s, Unseen), SumW(ws, s, Doomed), SumW(ws, s, Reg),
          SumW(ws, s, Retire), SumW(ws, s, Unreleased), SumW(ws, s, Owed), SumW(ws, s, Rd), SumW(ws, s, Wr))
  }

  function QLedger(q: seq<Entry>, s: nat): Share {
    Share(SumQ(q, s, Refs), SumQ(q, s, Pend), SumQ(q, s, Unseen), SumQ(q, s, Doomed), SumQ(q, s, Reg),
          SumQ(q, s, Retire), SumQ(q, s, Unreleased), SumQ(q, s, Owed), SumQ(q, s, Rd), SumQ(q, s, Wr))
  }

  function BLedger(b: seq<Ready>, s: nat): Share {
    Share(SumB(b, s, Refs), SumB(b, s, Pend), SumB(b, s, Unseen), SumB(b, s, Doomed), SumB(b, s, Reg),
          SumB(b, s, Retire), SumB(b, s, Unreleased), SumB(b, s, Owed), SumB(b, s, Rd), SumB(b, s, Wr))
  }

  function RLedger(r: seq<nat>, s: nat): Share {
    Share(SumR(r, s, Refs), SumR(r, s, Pend), SumR(r, s, Unseen), SumR(r, s, Doomed), SumR(r, s, Reg),
          SumR(r, s, Retire), SumR(r, s, Unreleased), SumR(r, s, Owed), SumR(r, s, Rd), SumR(r, s, Wr))
  }

  /** Everything outside the workers that refers to socket `s`. */
  function Outside(st: State, s: nat): Share {
    Plus(Plus(QLedger(st.queue, s), BLedger(st.batch, s)), Plus(RLedger(st.release, s), MainShare(st.main, s)))
  }

  /** Everything that refers to socket `s`. */
  function Ledger(st: State, s: nat): Share {
    Plus(WLedger(st.workers, s), Outside(st, s))
  }

  // ---------------------------------------------------------------- invariant

  /** The reference count is exact, and the last reference to a socket that is marked for it frees the socket. */
  ghost predicate RefsOk(k: Sock, l: Share) {
    && (k.past.freed == 0 ==> k.refcount == l.refs)
    && (k.past.freed > 0 ==> k.past.freed == 1 && l.refs == 0 && k.life == Retired && k.refcount <= 1)
    && (k.freeOnUnref ==> k.life == Retired && (l.refs == 0 ==> k.past.freed == 1))
  }

  /** A lock flag is set if and only if exactly one worker holds it. */
  ghost predicate LocksOk(k: Sock, l: Share) {
    && l.rd == Bit(k.readLocked)
    && l.wr == Bit(k.writeLocked)
  }

  /** One thread or queue at a time may drive the socket's life on: the single token. */
  ghost predicate LifeOk(k: Sock, member: bool, l: Share) {
    && (member <==> k.life == Registered)
    && match k.life
       case Unknown => l == ZERO && k == BLANK
       case Pending => l.refs <= l.pend <= 1 && l.reg == 0 && l.retire == 0 && !k.armed
       case Registered => l.pend == 0 && l.reg <= 1 && l.retire == 0 && (k.armed ==> l.reg == 0)
       case Retired => l.pend == 0 && l.reg == 0 && l.retire == Bit(!k.freeOnUnref && k.past.freed == 0) && !k.armed
       case Abandoned => l.pend == 0 && l.reg == 0 && l.retire == 0 && !k.armed
  }

  /** What has happened to the socket so far. */
  ghost predicate HistoryOk(k: Sock, l: Share) {
    match k.life
    case Unknown => true
    case Pending =>
      && k.past.connected == l.pend - l.unseen && Bit(k.past.diedEarly) == l.doomed
      && k.past.disconnected == 0 && l.owed == 0 && k.past.released == 0 && l.unreleased == 0
      && Bit(k.past.cleared) + l.pend == 1
    case Registered =>
      && k.past.connected == 1 && !k.past.diedEarly && !k.past.cleared
      && k.past.disconnected == 0 && l.owed == 0 && k.past.released == 0 && l.unreleased == 0
    case Retired =>
      && k.past.connected <= 1 && !k.past.diedEarly && !k.past.cleared
      && k.past.disconnected == k.past.connected - l.owed && k.past.released == 1 - l.unreleased
    case Abandoned =>
      && k.past.connected == 1 && k.past.diedEarly && !k.past.cleared
      && k.past.disconnected == 0 && l.owed == 0 && k.past.released == 0 && l.unreleased == 0
  }

  /** The record of a socket agrees with the sum of everything that refers to it. */
  ghost predicate SockOk(k: Sock, member: bool, l: Share) {
    RefsOk(k, l) && LocksOk(k, l) && LifeOk(k, member, l) && HistoryOk(k, l)
  }

  function Uncounted(ws: seq<Worker>): nat {
    if ws == [] then 0 else Bit(!Counted(ws[0])) + Uncounted(ws[1..])
  }

  /** The worker has counted down the prepare latch. */
  predicate Counted(w: Worker) { w.draining || w.pc == AwaitRun }

  /** The main thread has counted down the run latch. */
  predicate RunReleased(m: MainPc) { m.MJoin? || m.MFreeAll? || m.MDone? }

  /** The main thread is past the clearing of the queue in `drain_queued`. */
  predicate Draining(m: MainPc) {
    m.MDrainConns? || m.MDrainRef? || m.MDrainAdd? || m.MCountRun? || RunReleased(m)
  }

  /** The main thread has stopped the server. */
  predicate Stopped(m: MainPc) { m.MAwaitPrepare? || m.MDrainClear? || Draining(m) }

  predicate ReadsBatch(m: MainPc) {
    m.MRelease? || m.MUnref? || m.MBatch? || m.MCloseReady? || m.MRefReady? || m.MAddReady?
  }

  /** In the drain phase a worker only handles CLOSED events and never requeues one. */
  predicate DrainPc(pc: WorkerPc) {
    match pc
    case Idle => true
    case Done => true
    case Busy(e, at) =>
      e.typ == Closed && (at.Got? || at.TryLock? || at.Locked? || at.Remove? || Frees(at) || at.Unlock? || at.Finish?)
    case _ => false
  }

  ghost predicate WorkerOk(st: State, w: Worker) {
    && (w.pc.Busy? ==> PathOk(w.pc.entry.typ, w.pc.at))
    && (w.draining ==> RunReleased(st.main) && DrainPc(w.pc))
    && (w.pc == Done ==> w.draining && st.queue == [])
    && (RunReleased(st.main) ==> Counted(w))
    && (st.main.MFreeAll? || st.main.MDone? ==> w.pc == Done)
  }

  ghost predicate Control(st: State) {
    && !st.fault && |st.workers| > 0
    && st.prepare == Uncounted(st.workers)
    && st.runLatch == (if RunReleased(st.main) then 0 else 1)
    && (Stopped(st.main) ==> !st.running)
    && (Stopped(st.main) && !st.main.MAwaitPrepare? ==> st.prepare == 0)
    && (!ReadsBatch(st.main) ==> st.batch == [])
    && (forall r | r in st.batch :: r.Ready? ==> r.entry.typ != Accepted)
    && (st.main.MRefReady? || st.main.MAddReady? ==> st.main.entry.typ != Accepted)
    && (forall w | w in st.workers :: WorkerOk(st, w))
    && (Draining(st.main) ==> forall e | e in st.queue :: e.typ == Closed)
    && (Draining(st.main) && !st.main.MDrainConns? && !st.main.MDrainRef? && !st.main.MDrainAdd? ==> st.todo == {})
    && (st.main.MDrainRef? ==> st.main.sock !in st.todo)
    && (Draining(st.main) ==> st.todo <= st.cons && st.cons <= st.drained)
    && (!Draining(st.main) ==> st.drained == {})
    && (st.main.MDone? ==> st.release == [])
  }

  /** In the drain phase a registered socket has exactly one reference, its CLOSED event, once the main thread has
      reached it, and none before. */
  ghost predicate DrainOk(st: State, s: nat) {
    && (Draining(st.main) && Get(st, s).life == Registered ==>
         if s in st.todo || st.main == MDrainRef(s) then Ledger(st, s).refs == 0
         else Ledger(st, s).refs == 1 && Ledger(st, s).reg == 1)
    && (s in st.drained ==> Get(st, s).life.Registered? || (Get(st, s).life.Retired? && Get(st, s).past.connected == 1))
  }

  ghost predicate Inv(st: State) {
    && Control(st)
    && (forall s: nat :: SockOk(Get(st, s), s in st.cons, Ledger(st, s)))
    && (forall s: nat :: DrainOk(st, s))
  }

  // ------------------------------------------------------------- sum algebra

  lemma {:induction false} SumQAppend(q: seq<Entry>, e: Entry, s: nat, k: Kind)
    ensures SumQ(q + [e], s, k) == SumQ(q, s, k) + Of(EntryShare(e, s), k)
  {
    if q != [] {
      assert (q + [e])[1..] == q[1..] + [e];
      SumQAppend(q[1..], e, s, k);
    }
  }

  lemma {:induction false} SumRAppend(r: seq<nat>, x: nat, s: nat, k: Kind)
    ensures SumR(r + [x], s, k) == SumR(r, s, k) + Of(ReleaseShare(x, s), k)
  {
    if r != [] {
      assert (r + [x])[1..] == r[1..] + [x];
      SumRAppend(r[1..], x, s, k);
    }
  }

  /** Replacing one worker changes a sum by the difference of its shares. */
  lemma {:induction false} SumWUpdate(ws: seq<Worker>, i: nat, w: Worker, s: nat, k: Kind)
    requires i < |ws|
    ensures SumW(ws[i := w], s, k) + Of(WorkerShare(ws[i], s), k) == SumW(ws, s, k) + Of(WorkerShare(w, s), k)
  {
    if i > 0 {
      assert ws[i := w][1..] == ws[1..][i - 1 := w];
      SumWUpdate(ws[1..], i - 1, w, s, k);
    } else {
      assert ws[i := w][1..] == ws[1..];
    }
  }

  lemma {:induction false} UncountedUpdate(ws: seq<Worker>, i: nat, w: Worker)
    requires i < |ws|
    ensures Uncounted(ws[i := w]) + Bit(!Counted(ws[i])) == Uncounted(ws) + Bit(!Counted(w))
  {
    if i > 0 {
      assert ws[i := w][1..] == ws[1..][i - 1 := w];
      UncountedUpdate(ws[1..], i - 1, w);
    } else {
      assert ws[i := w][1..] == ws[1..];
    }
  }

  lemma {:induction false} UncountedZero(ws: seq<Worker>)
    requires Uncounted(ws) == 0
    ensures forall w | w in ws :: Counted(w)
  {
    if ws != [] {
      UncountedZero(ws[1..]);
      assert ws == [ws[0]] + ws[1..];
    }
  }

  /** Locks are held together with a reference; an ACCEPTED event is in at most one of its phases. */
  ghost predicate Backed(a: Share) {
    a.rd <= a.refs && a.wr <= a.refs && a.unseen + a.doomed <= a.pend
  }

  lemma PlusLaws(a: Share, b: Share, c: Share)
    ensures Plus(Plus(a, b), c) == Plus(a, Plus(b, c))
    ensures Plus(a, b) == Plus(b, a)
    ensures Plus(a, ZERO) == a && Plus(ZERO, a) == a
    ensures Backed(a) && Backed(b) ==> Backed(Plus(a, b))
  {}

  lemma WorkerShareBacked(w: Worker, s: nat)
    ensures Backed(WorkerShare(w, s)) && WorkerShare(w, s).reg <= WorkerShare(w, s).refs
  {}

  lemma {:induction false} SumWBacked(ws: seq<Worker>, s: nat)
    ensures Backed(WLedger(ws, s)) && WLedger(ws, s).reg <= WLedger(ws, s).refs
  {
    if ws != [] {
      WorkerShareBacked(ws[0], s);
      SumWBacked(ws[1..], s);
    }
  }

  lemma {:induction false} SumQBacked(q: seq<Entry>, s: nat)
    ensures Backed(QLedger(q, s)) && QLedger(q, s).reg <= QLedger(q, s).refs
  {
    if q != [] { SumQBacked(q[1..], s); }
  }

  lemma {:induction false} SumBBacked(b: seq<Ready>, s: nat)
    ensures Backed(BLedger(b, s))
  {
    if b != [] { SumBBacked(b[1..], s); }
  }

  lemma {:induction false} SumRBacked(r: seq<nat>, s: nat)
    ensures Backed(RLedger(r, s)) && RLedger(r, s).reg == 0
  {
    if r != [] { SumRBacked(r[1..], s); }
  }

  lemma MainBacked(m: MainPc, s: nat)
    ensures Backed(MainShare(m, s))
  {}

  lemma OutsideBacked(st: State, s: nat)
    ensures Backed(Outside(st, s))
  {
    var q, b, r, m := QLedger(st.queue, s), BLedger(st.batch, s), RLedger(st.release, s), MainShare(st.main, s);
    SumQBacked(st.queue, s);
    SumBBacked(st.batch, s);
    SumRBacked(st.release, s);
    MainBacked(st.main, s);
    PlusLaws(q, b, ZERO);
    PlusLaws(r, m, ZERO);
    PlusLaws(Plus(q, b), Plus(r, m), ZERO);
  }

  const IDLE: Worker := Worker(false, Idle)

  /** What everybody except worker `i` holds of `s`. */
  function Rest(st: State, i: nat, s: nat): Share
    requires i < |st.workers|
  {
    Plus(WLedger(st.workers[i := IDLE], s), Outside(st, s))
  }

  lemma RestBacked(st: State, i: nat, s: nat)
    requires i < |st.workers|
    ensures Backed(Rest(st, i, s))
  {
    SumWBacked(st.workers[i := IDLE], s);
    OutsideBacked(st, s);
    PlusLaws(WLedger(st.workers[i := IDLE], s), Outside(st, s), ZERO);
  }

  lemma SumWReplace(ws: seq<Worker>, i: nat, w: Worker, s: nat, k: Kind)
    requires i < |ws|
    ensures SumW(ws[i := w], s, k) == Of(WorkerShare(w, s), k) + SumW(ws[i := IDLE], s, k)
  {
    assert ws[i := IDLE][i := w] == ws[i := w];
    SumWUpdate(ws[i := IDLE], i, w, s, k);
  }

  lemma ShareSum(l: Share, x: Share, y: Share)
    requires forall k: Kind :: Of(l, k) == Of(x, k) + Of(y, k)
    ensures l == Plus(x, y)
  {
    assert Of(l, Refs) == Of(x, Refs) + Of(y, Refs) && Of(l, Pend) == Of(x, Pend) + Of(y, Pend);
    assert Of(l, Unseen) == Of(x, Unseen) + Of(y, Unseen) && Of(l, Doomed) == Of(x, Doomed) + Of(y, Doomed);
    assert Of(l, Reg) == Of(x, Reg) + Of(y, Reg) && Of(l, Retire) == Of(x, Retire) + Of(y, Retire);
    assert Of(l, Unreleased) == Of(x, Unreleased) + Of(y, Unreleased) && Of(l, Owed) == Of(x, Owed) + Of(y, Owed);
    assert Of(l, Rd) == Of(x, Rd) + Of(y, Rd) && Of(l, Wr) == Of(x, Wr) + Of(y, Wr);
  }

  lemma WLedgerOf(ws: seq<Worker>, s: nat, k: Kind)
    ensures Of(WLedger(ws, s), k) == SumW(ws, s, k)
  {}

  lemma WLedgerReplace(ws: seq<Worker>, i: nat, w: Worker, s: nat)
    requires i < |ws|
    ensures WLedger(ws[i := w], s) == Plus(WorkerShare(w, s), WLedger(ws[i := IDLE], s))
  {
    var l, x, y := WLedger(ws[i := w], s), WorkerShare(w, s), WLedger(ws[i := IDLE], s);
    forall k: Kind ensures Of(l, k) == Of(x, k) + Of(y, k) {
      WLedgerOf(ws[i := w], s, k);
      WLedgerOf(ws[i := IDLE], s, k);
      SumWReplace(ws, i, w, s, k);
    }
    ShareSum(l, x, y);
  }

  // --------------------------------------------------- one worker, one socket

  /** The share a step hands to the release list or the queue. */
  function Gift(t: EventType, at: Place): Share {
    if at.FreeAdd? then RELEASED else if at.RequeueAdd? then Token(t, 1, true, false, false) else ZERO
  }

  /** Events of accepted sockets and of registered sockets take different paths. */
  predicate PathOk(t: EventType, at: Place) {
    && !at.Gone?
    && if t == Accepted then !(at.RequeueRef? || at.RequeueAdd? || at.Rearm? || at.RearmFailed?)
       else !(at.FailClose? || at.Connect? || at.Register? || at.AddFailed?)
  }

  /** `l` and `l'` are the sums for a socket before and after a worker moves from `at` to `next`; `rest` is what the other
      threads hold. */
  ghost predicate Sums(t: EventType, at: Place, next: Place, rest: Share, l: Share, l': Share) {
    && Backed(rest) && PathOk(t, at)
    && l == Plus(PlaceShare(t, at), rest)
    && l' == Plus(Plus(PlaceShare(t, next), rest), Gift(t, at))
  }

  const REF: Share := Share(1, 0, 0, 0, 0, 0, 0, 0, 0, 0)

  lemma UnrefKeeps(k: Sock, member: bool, l: Share, rest: Share)
    requires SockOk(k, member, l) && l == Plus(rest, REF)
    ensures SockOk(Unreffed(k), member, rest) && k.past.freed == 0 && k.refcount > 0
  {}

  // One lemma for each place of an event handler: the step fails no assertion and keeps the invariant of its socket,
  // whatever the other threads hold.

  lemma GotKeeps(t: EventType, k: Sock, member: bool, rest: Share, o: Outcome, l: Share, l': Share)
    requires o == AtGot(t, k, member)
    requires Sums(t, Got, o.next, rest, l, l') && SockOk(k, member, l)
    ensures !o.fault && k.past.freed == 0 && SockOk(o.sock, o.member, l')
  {}

  /** The lock attempt for an ACCEPTED event succeeds, because its entry is the only reference to the socket. */
  lemma TryLockKeeps(t: EventType, k: Sock, member: bool, rest: Share, o: Outcome, l: Share, l': Share)
    requires o == AtTryLock(t, k, member)
    requires Sums(t, TryLock, o.next, rest, l, l') && SockOk(k, member, l)
    ensures !o.fault && k.past.freed == 0 && SockOk(o.sock, o.member, l')
  {}

  lemma LockedAccepted(t: EventType, k: Sock, member: bool, i: Input, rest: Share, o: Outcome, l: Share, l': Share)
    requires o == AtLocked(t, k, member, i)
    requires Sums(t, Locked, o.next, rest, l, l') && SockOk(k, member, l)
    requires t == Accepted
    ensures !o.fault && k.past.freed == 0 && SockOk(o.sock, o.member, l')
  {}

  lemma LockedOther(t: EventType, k: Sock, member: bool, i: Input, rest: Share, o: Outcome, l: Share, l': Share)
    requires o == AtLocked(t, k, member, i)
    requires Sums(t, Locked, o.next, rest, l, l') && SockOk(k, member, l)
    requires t != Accepted
    ensures !o.fault && k.past.freed == 0 && SockOk(o.sock, o.member, l')
  {}

  lemma LockedKeeps(t: EventType, k: Sock, member: bool, i: Input, rest: Share, o: Outcome, l: Share, l': Share)
    requires o == AtLocked(t, k, member, i)
    requires Sums(t, Locked, o.next, rest, l, l') && SockOk(k, member, l)
    ensures !o.fault && k.past.freed == 0 && SockOk(o.sock, o.member, l')
  {
    hide SockOk, Sums, AtLocked;
    if t == Accepted { LockedAccepted(t, k, member, i, rest, o, l, l'); } else { LockedOther(t, k, member, i, rest, o, l, l'); }
  }

  lemma FailCloseKeeps(t: EventType, k: Sock, member: bool, rest: Share, o: Outcome, l: Share, l': Share)
    requires o == AtFailClose(k, member)
    requires Sums(t, FailClose, o.next, rest, l, l') && SockOk(k, member, l)
    ensures !o.fault && k.past.freed == 0 && SockOk(o.sock, o.member, l')
  {}

  lemma ConnectKeeps(t: EventType, k: Sock, member: bool, i: Input, rest: Share, o: Outcome, l: Share, l': Share)
    requires o == AtConnect(k, member, i)
    requires Sums(t, Connect, o.next, rest, l, l') && SockOk(k, member, l)
    ensures !o.fault && k.past.freed == 0 && SockOk(o.sock, o.member, l')
  {}

  lemma CheckAccepted(t: EventType, k: Sock, member: bool, rest: Share, o: Outcome, l: Share, l': Share)
    requires o == AtCheck(t, k, member)
    requires Sums(t, Check, o.next, rest, l, l') && SockOk(k, member, l)
    requires t == Accepted
    ensures !o.fault && k.past.freed == 0 && SockOk(o.sock, o.member, l')
  {}

  lemma CheckOther(t: EventType, k: Sock, member: bool, rest: Share, o: Outcome, l: Share, l': Share)
    requires o == AtCheck(t, k, member)
    requires Sums(t, Check, o.next, rest, l, l') && SockOk(k, member, l)
    requires t != Accepted
    ensures !o.fault && k.past.freed == 0 && SockOk(o.sock, o.member, l')
  {}

  lemma CheckKeeps(t: EventType, k: Sock, member: bool, rest: Share, o: Outcome, l: Share, l': Share)
    requires o == AtCheck(t, k, member)
    requires Sums(t, Check, o.next, rest, l, l') && SockOk(k, member, l)
    ensures !o.fault && k.past.freed == 0 && SockOk(o.sock, o.member, l')
  {
    hide SockOk, Sums, AtCheck;
    if t == Accepted { CheckAccepted(t, k, member, rest, o, l, l'); } else { CheckOther(t, k, member, rest, o, l, l'); }
  }

  lemma ErrorCallbackKeeps(t: EventType, k: Sock, member: bool, i: Input, rest: Share, o: Outcome, l: Share, l': Share)
    requires o == Outcome(Close, AfterCallback(k, i), member, false)
    requires Sums(t, ErrorCallback, o.next, rest, l, l') && SockOk(k, member, l)
    ensures !o.fault && k.past.freed == 0 && SockOk(o.sock, o.member, l')
  {}

  lemma CloseKeeps(t: EventType, k: Sock, member: bool, rest: Share, o: Outcome, l: Share, l': Share)
    requires o == Outcome(Remove, ClosedSock(k), member, false)
    requires Sums(t, Close, o.next, rest, l, l') && SockOk(k, member, l)
    ensures !o.fault && k.past.freed == 0 && SockOk(o.sock, o.member, l')
  {}

  lemma RearmKeeps(t: EventType, k: Sock, member: bool, i: Input, rest: Share, o: Outcome, l: Share, l': Share)
    requires o == AtRearm(k, member, i)
    requires Sums(t, Rearm, o.next, rest, l, l') && SockOk(k, member, l)
    ensures !o.fault && k.past.freed == 0 && SockOk(o.sock, o.member, l')
  {}

  lemma RearmFailedKeeps(t: EventType, k: Sock, member: bool, rest: Share, o: Outcome, l: Share, l': Share)
    requires o == Outcome(Check, ClosedSock(k), member, false)
    requires Sums(t, RearmFailed, o.next, rest, l, l') && SockOk(k, member, l)
    ensures !o.fault && k.past.freed == 0 && SockOk(o.sock, o.member, l')
  {}

  lemma RegisterKeeps(t: EventType, k: Sock, member: bool, i: Input, rest: Share, o: Outcome, l: Share, l': Share)
    requires o == AtRegister(k, member, i)
    requires Sums(t, Register, o.next, rest, l, l') && SockOk(k, member, l)
    ensures !o.fault && k.past.freed == 0 && SockOk(o.sock, o.member, l')
  {}

  lemma AddFailedKeeps(t: EventType, k: Sock, member: bool, rest: Share, o: Outcome, l: Share, l': Share)
    requires o == AtAddFailed(k, member)
    requires Sums(t, AddFailed, o.next, rest, l, l') && SockOk(k, member, l)
    ensures !o.fault && k.past.freed == 0 && SockOk(o.sock, o.member, l')
  {}

  lemma RemoveKeeps(t: EventType, k: Sock, member: bool, rest: Share, o: Outcome, l: Share, l': Share)
    requires o == AtRemove(k, member)
    requires Sums(t, Remove, o.next, rest, l, l') && SockOk(k, member, l)
    ensures !o.fault && k.past.freed == 0 && SockOk(o.sock, o.member, l')
  {}

  lemma UnlistenKeeps(t: EventType, k: Sock, member: bool, rest: Share, o: Outcome, l: Share, l': Share)
    requires o == Outcome(Notify, k.(armed := false), member, false)
    requires Sums(t, Unlisten, o.next, rest, l, l') && SockOk(k, member, l)
    ensures !o.fault && k.past.freed == 0 && SockOk(o.sock, o.member, l')
  {}

  lemma NotifyKeeps(t: EventType, k: Sock, member: bool, i: Input, rest: Share, o: Outcome, l: Share, l': Share)
    requires o == AtNotify(k, member, i)
    requires Sums(t, Notify, o.next, rest, l, l') && SockOk(k, member, l)
    ensures !o.fault && k.past.freed == 0 && SockOk(o.sock, o.member, l')
  {}

  lemma FreeRefKeeps(t: EventType, k: Sock, member: bool, rest: Share, o: Outcome, l: Share, l': Share)
    requires o == Outcome(FreeAdd, Reffed(k), member, false)
    requires Sums(t, FreeRef, o.next, rest, l, l') && SockOk(k, member, l)
    ensures !o.fault && k.past.freed == 0 && SockOk(o.sock, o.member, l')
  {}

  lemma FreeAddKeeps(t: EventType, k: Sock, member: bool, rest: Share, o: Outcome, l: Share, l': Share)
    requires o == Outcome(Unlock, k.(past := k.past.(released := k.past.released + 1)), member, false)
    requires Sums(t, FreeAdd, o.next, rest, l, l') && SockOk(k, member, l)
    ensures !o.fault && k.past.freed == 0 && SockOk(o.sock, o.member, l')
  {}

  lemma UnlockAccepted(t: EventType, k: Sock, member: bool, rest: Share, o: Outcome, l: Share, l': Share)
    requires o == Outcome(Finish, Unlocked(k, t), member, false)
    requires Sums(t, Unlock, o.next, rest, l, l') && SockOk(k, member, l)
    requires t == Accepted
    ensures !o.fault && k.past.freed == 0 && SockOk(o.sock, o.member, l')
  {}

  lemma UnlockOther(t: EventType, k: Sock, member: bool, rest: Share, o: Outcome, l: Share, l': Share)
    requires o == Outcome(Finish, Unlocked(k, t), member, false)
    requires Sums(t, Unlock, o.next, rest, l, l') && SockOk(k, member, l)
    requires t != Accepted
    ensures !o.fault && k.past.freed == 0 && SockOk(o.sock, o.member, l')
  {}

  lemma UnlockKeeps(t: EventType, k: Sock, member: bool, rest: Share, o: Outcome, l: Share, l': Share)
    requires o == Outcome(Finish, Unlocked(k, t), member, false)
    requires Sums(t, Unlock, o.next, rest, l, l') && SockOk(k, member, l)
    ensures !o.fault && k.past.freed == 0 && SockOk(o.sock, o.member, l')
  {
    hide SockOk, Sums, Unlocked;
    if t == Accepted { UnlockAccepted(t, k, member, rest, o, l, l'); } else { UnlockOther(t, k, member, rest, o, l, l'); }
  }

  lemma RequeueRefKeeps(t: EventType, k: Sock, member: bool, rest: Share, o: Outcome, l: Share, l': Share)
    requires o == Outcome(RequeueAdd, Reffed(k), member, false)
    requires Sums(t, RequeueRef, o.next, rest, l, l') && SockOk(k, member, l)
    ensures !o.fault && k.past.freed == 0 && SockOk(o.sock, o.member, l')
  {}

  lemma RequeueAddKeeps(t: EventType, k: Sock, member: bool, rest: Share, o: Outcome, l: Share, l': Share)
    requires o == Outcome(Finish, k, member, false)
    requires Sums(t, RequeueAdd, o.next, rest, l, l') && SockOk(k, member, l)
    ensures !o.fault && k.past.freed == 0 && SockOk(o.sock, o.member, l')
  {}

  lemma FinishShares(t: EventType, rest: Share)
    ensures Plus(PlaceShare(t, Finish), rest) == Plus(rest, REF)
    ensures Plus(Plus(PlaceShare(t, Gone), rest), Gift(t, Finish)) == rest
  {}

  /** Nobody drops a reference that is not counted. */
  lemma FinishKeeps(t: EventType, k: Sock, member: bool, rest: Share, o: Outcome, l: Share, l': Share)
    requires o == AtFinish(k, member)
    requires Sums(t, Finish, o.next, rest, l, l') && SockOk(k, member, l)
    ensures !o.fault && k.past.freed == 0 && SockOk(o.sock, o.member, l')
  {
    hide SockOk, PlaceShare, Gift, Plus;
    FinishShares(t, rest);
    UnrefKeeps(k, member, l, rest);
  }

  /** The places up to the end of the callbacks, and the others. */
  predicate Early(at: Place) {
    at.Got? || at.TryLock? || at.Locked? || at.FailClose? || at.Connect? || at.Check?
    || at.ErrorCallback? || at.Close? || at.Rearm? || at.RearmFailed? || at.Register?
  }

  lemma HandleEarly(t: EventType, at: Place, k: Sock, member: bool, i: Input, rest: Share, o: Outcome, l: Share, l': Share)
    requires o == Handle(t, at, k, member, i) && Early(at)
    requires Sums(t, at, o.next, rest, l, l') && SockOk(k, member, l)
    ensures !o.fault && k.past.freed == 0 && SockOk(o.sock, o.member, l')
  {
    match at
    case Got => GotKeeps(t, k, member, rest, o, l, l');
    case TryLock => TryLockKeeps(t, k, member, rest, o, l, l');
    case Locked => LockedKeeps(t, k, member, i, rest, o, l, l');
    case FailClose => FailCloseKeeps(t, k, member, rest, o, l, l');
    case Connect => ConnectKeeps(t, k, member, i, rest, o, l, l');
    case Check => CheckKeeps(t, k, member, rest, o, l, l');
    case ErrorCallback => ErrorCallbackKeeps(t, k, member, i, rest, o, l, l');
    case Close => CloseKeeps(t, k, member, rest, o, l, l');
    case Rearm => RearmKeeps(t, k, member, i, rest, o, l, l');
    case RearmFailed => RearmFailedKeeps(t, k, member, rest, o, l, l');
    case Register => RegisterKeeps(t, k, member, i, rest, o, l, l');
  }

  lemma HandleLate(t: EventType, at: Place, k: Sock, member: bool, i: Input, rest: Share, o: Outcome, l: Share, l': Share)
    requires o == Handle(t, at, k, member, i) && !Early(at)
    requires Sums(t, at, o.next, rest, l, l') && SockOk(k, member, l)
    ensures !o.fault && k.past.freed == 0 && SockOk(o.sock, o.member, l')
  {
    match at
    case AddFailed => AddFailedKeeps(t, k, member, rest, o, l, l');
    case Remove => RemoveKeeps(t, k, member, rest, o, l, l');
    case Unlisten => UnlistenKeeps(t, k, member, rest, o, l, l');
    case Notify => NotifyKeeps(t, k, member, i, rest, o, l, l');
    case FreeRef => FreeRefKeeps(t, k, member, rest, o, l, l');
    case FreeAdd => FreeAddKeeps(t, k, member, rest, o, l, l');
    case Unlock => UnlockKeeps(t, k, member, rest, o, l, l');
    case RequeueRef => RequeueRefKeeps(t, k, member, rest, o, l, l');
    case RequeueAdd => RequeueAddKeeps(t, k, member, rest, o, l, l');
    case Finish => FinishKeeps(t, k, member, rest, o, l, l');
  }

  lemma HandlePath(t: EventType, at: Place, k: Sock, member: bool, i: Input, o: Outcome)
    requires o == Handle(t, at, k, member, i) && PathOk(t, at)
    ensures o.next.Gone? || PathOk(t, o.next)
  {}

  /** One step of an event handler fails no assertion and keeps the invariant of its socket, whatever the other threads
      hold. */
  lemma HandleKeeps(t: EventType, at: Place, k: Sock, member: bool, i: Input, rest: Share, o: Outcome, l: Share, l': Share)
    requires o == Handle(t, at, k, member, i)
    requires Sums(t, at, o.next, rest, l, l')
    requires SockOk(k, member, l)
    ensures !o.fault && k.past.freed == 0 && (o.next.Gone? || PathOk(t, o.next))
    ensures SockOk(o.sock, o.member, l')
  {
    HandlePath(t, at, k, member, i, o);
    if Early(at) { HandleEarly(t, at, k, member, i, rest, o, l, l'); } else { HandleLate(t, at, k, member, i, rest, o, l, l'); }
  }
}
