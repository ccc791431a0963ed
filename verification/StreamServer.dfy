/**
The multi-threaded stream server as a labelled transition system.

One main thread turns listener events into queue entries; a fixed number of workers poll the queue, take the per-socket
lock flags, run the callbacks and either re-arm the socket or hand it to the release list. Each action below is one
step of one thread between two scheduling points: a critical section, a call that takes the lock of a single socket, a
callback, or a system call. `Exec` interleaves them in any order. A thread that has to wait (for a mutex, a condition
variable or a latch) leaves the state unchanged.

The fields `life`, `past`, `drained`, `fault` and `overflow` are history: no step reads them to decide what to do.
`fault` is set by a step that fails one of the source's assertions or that touches a socket after it was freed; only the
assertion in `vtm_socket_ref`, that the one-byte count is not at its maximum, has a field of its own, `overflow`. The
program ends with the first failure, so a state in which one of the two is set says no more than that.
*/
module StreamServer {

  datatype EventType = Accepted | Read | Write | Closed | Error

  datatype Entry = Entry(sock: nat, typ: EventType)

  /** Where a socket stands: unknown to the server, accepted, in the connection map, handed to `sock_free`, or dropped
      because `sock_closed` did not find it in the connection map. */
  datatype Life = Unknown | Pending | Registered | Retired | Abandoned

  /** What has happened to a socket: its callbacks, its way to the release list and out of memory, whether it died in its
      own `sock_connected` callback, and whether the drain dropped its ACCEPTED event. */
  datatype Past = Past(connected: nat, disconnected: nat, released: nat, freed: nat, diedEarly: bool, cleared: bool)

  datatype Sock = Sock(
    readLocked: bool, writeLocked: bool,
    closed: bool, err: bool, hup: bool,
    freeOnUnref: bool,
    refcount: nat,
    armed: bool,
    life: Life, past: Past)

  const BLANK: Sock := Sock(false, false, false, false, false, false, 0, false, Unknown,
                            Past(0, 0, 0, 0, false, false))

  /** One element of the listener's result: the server socket is readable, or an event for a connection. */
  datatype Ready = ServerReady | Ready(entry: Entry)

  /** Where a worker is while it handles a queue entry. */
  datatype Place =
    | Got | TryLock | Locked | FailClose | Connect | Check | ErrorCallback | Close | Rearm | RearmFailed
    | Register | AddFailed | Remove | Unlisten | Notify | FreeRef | FreeAdd | Unlock | RequeueRef | RequeueAdd
    | Finish | Gone

  datatype WorkerPc = Idle | Waiting | Busy(entry: Entry, at: Place) | Count | AwaitRun | Done

  datatype Worker = Worker(draining: bool, pc: WorkerPc)

  datatype MainPc =
    | MCheck | MListen
    | MRelease | MUnref(sock: nat)
    | MBatch | MCloseReady(sock: nat) | MRefReady(entry: Entry) | MAddReady(entry: Entry)
    | MAccept | MAcceptAdd(sock: nat)
    | MFinish | MAwaitPrepare | MDrainClear | MDrainConns | MDrainRef(sock: nat) | MDrainAdd(sock: nat)
    | MCountRun | MJoin | MFreeAll | MDone

  datatype State = State(
    running: bool,
    socks: seq<Sock>,
    queue: seq<Entry>,
    cons: set<nat>,
    release: seq<nat>,
    batch: seq<Ready>,
    accepting: bool,
    serverArmed: bool,
    todo: set<nat>,
    prepare: nat,
    runLatch: nat,
    main: MainPc,
    workers: seq<Worker>,
    drained: set<nat>,
    fault: bool,
    overflow: bool)

  /** What the environment decides in one step: whether a system call succeeds, and which of the state flags a callback
      leaves set on its own socket. */
  datatype Input = Input(ok: bool, closes: bool, fails: bool, hangsUp: bool)

  /** What the environment decides for the main thread: success of a call, the events the listener reports, and which
      remaining connection the drain loop takes next. */
  datatype MainInput = MainInput(ok: bool, batch: seq<Ready>, pick: nat)

  datatype Action = Stop | Main(mainInput: MainInput) | Work(worker: nat, input: Input)

  predicate NeedsRead(t: EventType) { t != Write }

  predicate NeedsWrite(t: EventType) { t == Write || t == Closed || t == Error }

  function Init(threads: nat): State {
    State(true, [], [], {}, [], [], false, true, {}, threads, 1, MCheck,
          seq(threads, i => Worker(false, Idle)), {}, false, false)
  }

  function Get(st: State, s: nat): Sock {
    if s < |st.socks| then st.socks[s] else BLANK
  }

  const UINT8_MAX: nat := 255

  /** Stores a socket record; touching a socket that does not exist, or no longer exists, is a fault. A count that no
      longer fits its byte comes from a reference that was taken at the maximum. */
  function Upd(st: State, s: nat, k: Sock): State {
    st.(socks := if s < |st.socks| then st.socks[s := k] else st.socks,
        fault := st.fault || s >= |st.socks| || st.socks[s].past.freed > 0,
        overflow := st.overflow || (s < |st.socks| && k.refcount > UINT8_MAX))
  }

  // --------------------------------------------------------------- one socket

  function Reffed(k: Sock): Sock { k.(refcount := k.refcount + 1) }

  /** `vtm_socket_unref`: the last reference frees a socket that was marked for it. */
  function Unreffed(k: Sock): Sock {
    k.(refcount := if k.refcount == 0 then 0 else k.refcount - 1,
       past := k.past.(freed := if k.refcount == 1 && k.freeOnUnref then k.past.freed + 1 else k.past.freed))
  }

  /** The memory is given back. */
  function Freed(k: Sock): Sock { k.(past := k.past.(freed := k.past.freed + 1)) }

  /** The drain drops an event of type `t`. */
  function Dropped(k: Sock, t: EventType): Sock {
    var u := Unreffed(k);
    u.(past := u.past.(cleared := u.past.cleared || t == Accepted))
  }

  /** `vtm_socket_enable_free_on_unref`. */
  function FreeEnabled(k: Sock): Sock {
    k.(freeOnUnref := true, past := k.past.(freed := if k.refcount == 0 then k.past.freed + 1 else k.past.freed))
  }

  /** `vtm_socket_close`; closing the descriptor takes it out of the listener. */
  function ClosedSock(k: Sock): Sock { k.(closed := true, armed := false) }

  /** A callback may leave its own socket closed, in error or hung up. */
  function AfterCallback(k: Sock, i: Input): Sock {
    k.(closed := k.closed || i.closes, armed := k.armed && !i.closes, err := k.err || i.fails, hup := k.hup || i.hangsUp)
  }

  /** The input of a step that runs a callback only if `b`. */
  function Ran(i: Input, b: bool): Input {
    Input(i.ok, b && i.closes, b && i.fails, b && i.hangsUp)
  }

  /** `sock_unlock`. */
  function Unlocked(k: Sock, t: EventType): Sock {
    k.(readLocked := k.readLocked && !NeedsRead(t), writeLocked := k.writeLocked && !NeedsWrite(t))
  }

  datatype Outcome = Outcome(next: Place, sock: Sock, member: bool, fault: bool)

  function AtGot(t: EventType, k: Sock, member: bool): Outcome {
    Outcome(if (t == Read || t == Write) && k.closed then Finish else TryLock, k, member, false)
  }

  function AtTryLock(t: EventType, k: Sock, member: bool): Outcome {
    var free := !(NeedsRead(t) && k.readLocked) && !(NeedsWrite(t) && k.writeLocked);
    Outcome(if free then Locked else if t == Closed || t == Error then RequeueRef else Finish,
            k.(readLocked := k.readLocked || (free && NeedsRead(t)),
               writeLocked := k.writeLocked || (free && NeedsWrite(t))),
            member, t == Accepted && !free)
  }

  function AtLocked(t: EventType, k: Sock, member: bool, i: Input): Outcome {
    var next := match t
                case Accepted => if i.ok then Connect else FailClose
                case Closed => Remove
                case Error => Close
                case _ => Check;
    Outcome(next, AfterCallback(k, Ran(i, t != Accepted && t != Closed)), member, false)
  }

  function AtFailClose(k: Sock, member: bool): Outcome {
    Outcome(FreeRef, ClosedSock(k).(life := Retired), member, false)
  }

  function AtConnect(k: Sock, member: bool, i: Input): Outcome {
    Outcome(Check, AfterCallback(k, i).(past := k.past.(connected := k.past.connected + 1)), member, false)
  }

  function AtCheck(t: EventType, k: Sock, member: bool): Outcome {
    var next := if k.err then ErrorCallback else if k.closed then Remove else if k.hup then Close
                else if t == Accepted then Register else Rearm;
    Outcome(next, k.(past := k.past.(diedEarly := k.past.diedEarly || (t == Accepted && next != Register))), member, false)
  }

  function AtRearm(k: Sock, member: bool, i: Input): Outcome {
    Outcome(if i.ok then Unlock else RearmFailed, k.(armed := k.armed || i.ok), member, false)
  }

  function AtRegister(k: Sock, member: bool, i: Input): Outcome {
    Outcome(if i.ok then Unlock else AddFailed,
            k.(armed := k.armed || i.ok, life := if i.ok then Registered else k.life), member || i.ok, false)
  }

  function AtAddFailed(k: Sock, member: bool): Outcome {
    Outcome(Notify, ClosedSock(k).(life := Retired), member, false)
  }

  function AtRemove(k: Sock, member: bool): Outcome {
    Outcome(if member then Unlisten else Unlock,
            k.(life := if member then Retired else if k.life == Pending then Abandoned else k.life), false, false)
  }

  function AtNotify(k: Sock, member: bool, i: Input): Outcome {
    Outcome(FreeRef, AfterCallback(k, i).(past := k.past.(disconnected := k.past.disconnected + 1)), member, false)
  }

  function AtFinish(k: Sock, member: bool): Outcome {
    Outcome(Gone, Unreffed(k), member, k.refcount == 0)
  }

  /** One step of `worker_event`, `sock_event` and the functions they call, on the socket of the entry. `member` says
      whether the socket is in the connection map. */
  function Handle(t: EventType, at: Place, k: Sock, member: bool, i: Input): Outcome {
    match at
    case Got => AtGot(t, k, member)
    case TryLock => AtTryLock(t, k, member)
    case Locked => AtLocked(t, k, member, i)
    case FailClose => AtFailClose(k, member)
    case Connect => AtConnect(k, member, i)
    case Check => AtCheck(t, k, member)
    case ErrorCallback => Outcome(Close, AfterCallback(k, i), member, false)
    case Close => Outcome(Remove, ClosedSock(k), member, false)
    case Rearm => AtRearm(k, member, i)
    case RearmFailed => Outcome(Check, ClosedSock(k), member, false)
    case Register => AtRegister(k, member, i)
    case AddFailed => AtAddFailed(k, member)
    case Remove => AtRemove(k, member)
    case Unlisten => Outcome(Notify, k.(armed := false), member, false)
    case Notify => AtNotify(k, member, i)
    case FreeRef => Outcome(FreeAdd, Reffed(k), member, false)
    case FreeAdd => Outcome(Unlock, k.(past := k.past.(released := k.past.released + 1)), member, false)
    case Unlock => Outcome(Finish, Unlocked(k, t), member, false)
    case RequeueRef => Outcome(RequeueAdd, Reffed(k), member, false)
    case RequeueAdd => Outcome(Finish, k, member, false)
    case Finish => AtFinish(k, member)
    case Gone => Outcome(Gone, k, member, false)
  }

  // ------------------------------------------------------------------ workers

  /** The main thread is inside a section of the events mutex. */
  predicate HoldsEvents(m: MainPc) {
    m.MRelease? || m.MUnref? || m.MBatch? || m.MCloseReady? || m.MRefReady? || m.MAddReady? || HoldsCons(m)
  }

  /** The main thread is inside a section of the connections mutex. */
  predicate HoldsCons(m: MainPc) {
    m.MDrainClear? || m.MDrainConns? || m.MDrainRef? || m.MDrainAdd?
  }

  function SetPc(st: State, i: nat, pc: WorkerPc): State
    requires i < |st.workers|
  {
    st.(workers := st.workers[i := st.workers[i].(pc := pc)])
  }

  /** Takes the head of the queue. */
  function Poll(st: State, i: nat): State
    requires i < |st.workers| && |st.queue| > 0
  {
    SetPc(st, i, Busy(st.queue[0], Got)).(queue := st.queue[1..])
  }

  predicate Blocked(m: MainPc, at: Place) {
    ((at.FreeAdd? || at.RequeueAdd?) && HoldsEvents(m)) || ((at.Remove? || at.Register?) && HoldsCons(m))
  }

  /** Worker `i` carries out `o`. */
  function Apply(st: State, i: nat, e: Entry, at: Place, o: Outcome): State
    requires i < |st.workers|
  {
    var st1 := SetPc(Upd(st, e.sock, o.sock), i, if o.next == Gone then Idle else Busy(e, o.next));
    st1.(cons := if o.member then st.cons + {e.sock} else st.cons - {e.sock},
         queue := if at == RequeueAdd then st.queue + [e] else st.queue,
         release := if at == FreeAdd then st.release + [e.sock] else st.release,
         fault := st1.fault || o.fault)
  }

  function EventStep(st: State, i: nat, e: Entry, at: Place, input: Input): State
    requires i < |st.workers|
  {
    if Blocked(st.main, at) then st
    else Apply(st, i, e, at, Handle(e.typ, at, Get(st, e.sock), e.sock in st.cons, input))
  }

  function WorkerStep(st: State, i: nat, input: Input): State
    requires i < |st.workers|
  {
    var w := st.workers[i];
    match w.pc
    case Idle =>
      if w.draining then
        if HoldsEvents(st.main) then st
        else if st.queue == [] then SetPc(st, i, Done)
        else Poll(st, i)
      else SetPc(st, i, if st.running then Waiting else Count)
    case Waiting =>
      if HoldsEvents(st.main) then st
      else if st.queue != [] then Poll(st, i)
      else if st.running then st
      else SetPc(st, i, Count)
    case Busy(e, at) => EventStep(st, i, e, at, input)
    case Count =>
      if st.prepare == 0 then st.(fault := true)
      else SetPc(st, i, AwaitRun).(prepare := st.prepare - 1)
    case AwaitRun =>
      if st.runLatch > 0 then st
      else st.(workers := st.workers[i := Worker(true, Idle)])
    case Done => st
  }

  // -------------------------------------------------------------- main thread

  function ReadySocks(batch: seq<Ready>): set<nat> {
    set r | r in batch && r.Ready? :: r.entry.sock
  }

  /** One-shot arming: the listener reports armed sockets only, each with one event. */
  predicate ValidBatch(st: State, batch: seq<Ready>) {
    && (forall r | r in batch :: r.ServerReady? ==> st.serverArmed)
    && (forall r | r in batch :: r.Ready? ==> Get(st, r.entry.sock).armed && r.entry.typ != Accepted)
    && (forall a, b | 0 <= a < b < |batch| :: batch[a].Ready? && batch[b].Ready? ==>
         batch[a].entry.sock != batch[b].entry.sock)
  }

  function Disarmed(socks: seq<Sock>, who: set<nat>): (r: seq<Sock>)
    ensures |r| == |socks|
    ensures forall s :: 0 <= s < |socks| ==> r[s] == socks[s].(armed := socks[s].armed && s !in who)
  {
    seq(|socks|, s requires 0 <= s < |socks| => socks[s].(armed := socks[s].armed && s !in who))
  }

  /** The loop of `main_run`, and the release list in `handle_queued`. */
  function ListenStep(st: State, input: MainInput): State {
    match st.main
    case MCheck => st.(main := if st.running then MListen else MFinish)
    case MListen =>
      if !input.ok then st.(main := MFinish)
      else if !ValidBatch(st, input.batch) then st
      else st.(main := MRelease, batch := input.batch, accepting := false,
               serverArmed := st.serverArmed && ServerReady !in input.batch,
               socks := Disarmed(st.socks, ReadySocks(input.batch)))
    case MRelease =>
      // the list is private to this section, so its elements can be taken off one by one
      if st.release == [] then st.(main := MBatch)
      else Upd(st, st.release[0], FreeEnabled(Get(st, st.release[0])))
           .(release := st.release[1..], main := MUnref(st.release[0]))
    case MUnref(s) =>
      var k := Get(st, s);
      var st1 := Upd(st, s, Unreffed(k)).(main := MRelease);
      st1.(fault := st1.fault || k.refcount == 0)
    case _ => st
  }

  function NextReady(r: Ready): MainPc {
    match r
    case ServerReady => MBatch
    case Ready(e) => if e.typ == Closed then MCloseReady(e.sock) else MRefReady(e)
  }

  /** The events of the listener in `handle_queued`. */
  function BatchStep(st: State, input: MainInput): State {
    match st.main
    case MBatch =>
      if st.batch == [] then st.(main := if st.accepting then MAccept else MCheck)
      else st.(batch := st.batch[1..], main := NextReady(st.batch[0]),
               accepting := st.accepting || st.batch[0].ServerReady?)
    case MCloseReady(s) => Upd(st, s, ClosedSock(Get(st, s))).(main := MRefReady(Entry(s, Closed)))
    case MRefReady(e) => Upd(st, e.sock, Reffed(Get(st, e.sock))).(main := MAddReady(e))
    case MAddReady(e) => st.(queue := st.queue + [e], main := MBatch)
    case _ => st
  }

  /** `accept`. */
  function AcceptStep(st: State, input: MainInput): State {
    match st.main
    case MAccept =>
      if input.ok then
        // no other thread knows the new socket yet, so its first reference belongs to this step
        st.(socks := st.socks + [Reffed(BLANK).(life := Pending)], main := MAcceptAdd(|st.socks|))
      else if input.pick == 0 then st.(serverArmed := true, main := MCheck)
      else st.(main := MFinish)
    case MAcceptAdd(s) => st.(queue := st.queue + [Entry(s, Accepted)], main := MAccept)
    case _ => st
  }

  /** The end of `main_run`, and the clearing of the queue in `drain_queued`. */
  function StopStep(st: State, input: MainInput): State {
    match st.main
    case MFinish => st.(running := false, main := MAwaitPrepare)
    case MAwaitPrepare => if st.prepare > 0 then st else st.(main := MDrainClear)
    case MDrainClear =>
      if st.queue == [] then st.(main := MDrainConns, todo := st.cons, drained := st.cons)
      else
        var e := st.queue[0];
        var k := Get(st, e.sock);
        var st1 := Upd(st, e.sock, Dropped(k, e.typ)).(queue := st.queue[1..]);
        st1.(fault := st1.fault || k.refcount == 0)
    case _ => st
  }

  /** The rest of `drain_queued`. */
  function DrainStep(st: State, input: MainInput): State {
    match st.main
    case MDrainConns =>
      if st.todo == {} then st.(main := MCountRun)
      else if input.pick !in st.todo then st
      else Upd(st, input.pick, ClosedSock(Get(st, input.pick)))
           .(todo := st.todo - {input.pick}, main := MDrainRef(input.pick))
    case MDrainRef(s) => Upd(st, s, Reffed(Get(st, s))).(main := MDrainAdd(s))
    case MDrainAdd(s) => st.(queue := st.queue + [Entry(s, Closed)], main := MDrainConns)
    case MCountRun =>
      if st.runLatch == 0 then st.(fault := true) else st.(runLatch := st.runLatch - 1, main := MJoin)
    case _ => st
  }

  /** The join, and what is left on the release list. */
  function EndStep(st: State, input: MainInput): State {
    match st.main
    case MJoin =>
      if forall w | w in st.workers :: w.pc == Done then st.(main := MFreeAll) else st
    case MFreeAll =>
      if st.release == [] then st.(main := MDone)
      else
        var k := Get(st, st.release[0]);
        Upd(st, st.release[0], Freed(k)).(release := st.release[1..])
    case _ => st
  }

  predicate Listens(m: MainPc) { m.MCheck? || m.MListen? || m.MRelease? || m.MUnref? }

  predicate Batches(m: MainPc) { m.MBatch? || m.MCloseReady? || m.MRefReady? || m.MAddReady? }

  predicate Accepts(m: MainPc) { m.MAccept? || m.MAcceptAdd? }

  predicate Stops(m: MainPc) { m.MFinish? || m.MAwaitPrepare? || m.MDrainClear? }

  predicate Drains(m: MainPc) { m.MDrainConns? || m.MDrainRef? || m.MDrainAdd? || m.MCountRun? }

  function MainStep(st: State, input: MainInput): State {
    if Listens(st.main) then ListenStep(st, input)
    else if Batches(st.main) then BatchStep(st, input)
    else if Accepts(st.main) then AcceptStep(st, input)
    else if Stops(st.main) then StopStep(st, input)
    else if Drains(st.main) then DrainStep(st, input)
    else EndStep(st, input)
  }

  // --------------------------------------------------------------------- runs

  function Step(st: State, a: Action): State {
    match a
    case Stop => st.(running := false)
    case Main(input) => MainStep(st, input)
    case Work(i, input) => if i < |st.workers| then WorkerStep(st, i, input) else st
  }

  /** The state after a sequence of actions: every schedule of every thread is one such sequence. */
  function Exec(st: State, actions: seq<Action>): State {
    if actions == [] then st else Step(Exec(st, actions[..|actions| - 1]), actions[|actions| - 1])
  }
}
