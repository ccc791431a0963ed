/**
The reference count and the lock flags of a socket, as its methods change them. Each method is one critical section of
the socket's own lock, and does to the record of the stream server's model what the model says.
*/
module Socket {
  import S = StreamServer
  import B = StreamServerBounds

  /** The assertion of `vtm_socket_ref`. */
  predicate MayRef(k: S.Sock) { k.refcount != S.UINT8_MAX }

  /** The assertion of `vtm_socket_unref`. */
  predicate MayUnref(k: S.Sock) { k.refcount > 0 }

  /** Worker `i` handles an entry and is at `at`. */
  predicate IsAt(st: S.State, i: nat, at: S.Place) {
    i < |st.workers| && st.workers[i].pc.Busy? && st.workers[i].pc.at == at && !S.Blocked(st.main, at)
  }

  /** The step takes a reference to socket `s`. */
  predicate Refs(st: S.State, a: S.Action, s: nat) {
    match a
    case Stop => false
    case Main(_) => (st.main.MRefReady? && st.main.entry.sock == s) || st.main == S.MDrainRef(s)
    case Work(i, _) => (IsAt(st, i, S.FreeRef) || IsAt(st, i, S.RequeueRef)) && st.workers[i].pc.entry.sock == s
  }

  /** The step drops a reference to socket `s`. */
  predicate Unrefs(st: S.State, a: S.Action, s: nat) {
    match a
    case Stop => false
    case Main(_) => st.main == S.MUnref(s) || (st.main == S.MDrainClear && st.queue != [] && st.queue[0].sock == s)
    case Work(i, _) => IsAt(st, i, S.Finish) && st.workers[i].pc.entry.sock == s
  }

  lemma TakenAt(st: S.State, s: nat)
    requires !S.Upd(st, s, S.Reffed(S.Get(st, s))).fault && !S.Upd(st, s, S.Reffed(S.Get(st, s))).overflow
    ensures MayRef(S.Get(st, s))
  {}

  lemma MainRefs(st: S.State, input: S.MainInput, s: nat)
    requires !S.MainStep(st, input).fault && !S.MainStep(st, input).overflow
    ensures Refs(st, S.Main(input), s) ==> MayRef(S.Get(st, s))
  {
    hide S.Upd, S.ListenStep, S.AcceptStep, S.StopStep, S.EndStep, S.Reffed;
    if Refs(st, S.Main(input), s) { TakenAt(st, s); }
  }

  lemma MainUnrefs(st: S.State, input: S.MainInput, s: nat)
    requires !S.MainStep(st, input).fault
    ensures Unrefs(st, S.Main(input), s) ==> MayUnref(S.Get(st, s))
  {
    hide S.Upd, S.BatchStep, S.AcceptStep, S.DrainStep, S.EndStep, S.Unreffed, S.Dropped;
  }

  lemma WorkRefs(st: S.State, i: nat, input: S.Input, s: nat)
    requires i < |st.workers| && !S.WorkerStep(st, i, input).fault && !S.WorkerStep(st, i, input).overflow
    ensures Refs(st, S.Work(i, input), s) ==> MayRef(S.Get(st, s))
    ensures Unrefs(st, S.Work(i, input), s) ==> MayUnref(S.Get(st, s))
  {
    hide S.Upd, S.AtTryLock, S.AtLocked, S.AtConnect, S.AtCheck, S.AtRemove, S.Unlocked, S.Reffed, S.Unreffed;
    if Refs(st, S.Work(i, input), s) { TakenAt(st, s); }
  }

  lemma StepRefs(st: S.State, a: S.Action, s: nat)
    requires !S.Step(st, a).fault && !S.Step(st, a).overflow
    ensures Refs(st, a, s) ==> MayRef(S.Get(st, s))
    ensures Unrefs(st, a, s) ==> MayUnref(S.Get(st, s))
  {
    hide S.MainStep, S.WorkerStep;
    match a
    case Stop =>
    case Main(input) => MainRefs(st, input, s); MainUnrefs(st, input, s);
    case Work(i, input) => if i < |st.workers| { WorkRefs(st, i, input, s); }
  }

  /** In every reachable state of a server with 1 to 254 workers, whichever step takes or drops a reference meets the
      assertion, so the conditions of the methods below hold where they are called. */
  lemma CallsAllowed(threads: nat, actions: seq<S.Action>, a: S.Action, s: nat)
    requires 0 < threads < S.UINT8_MAX
    ensures var st := S.Exec(S.Init(threads), actions);
            (Refs(st, a, s) ==> MayRef(S.Get(st, s))) && (Unrefs(st, a, s) ==> MayUnref(S.Get(st, s)))
  {
    B.NoFailure(threads, actions);
    B.NoFailure(threads, actions + [a]);
    assert (actions + [a])[..|actions|] == actions;
    StepRefs(S.Exec(S.Init(threads), actions), a, s);
  }

  class Sock {
    var refcount: nat
    var freeOnUnref: bool
    var readLocked: bool
    var writeLocked: bool
    var closed: bool

    /** How often the memory was given back. */
    var freed: nat

    /** The fields are those of the record. */
    ghost predicate Represents(k: S.Sock)
      reads this
    {
      && k.refcount == refcount && k.freeOnUnref == freeOnUnref && k.past.freed == freed
      && k.readLocked == readLocked && k.writeLocked == writeLocked && k.closed == closed
    }

    constructor ()
      ensures Represents(S.BLANK)
    {
      refcount, freeOnUnref, readLocked, writeLocked, closed, freed := 0, false, false, false, false, 0;
    }

    /** `vtm_socket_ref`, with the condition it asserts. */
    method Ref(ghost k: S.Sock)
      requires Represents(k) && MayRef(k)
      modifies this
      ensures Represents(S.Reffed(k))
    {
      refcount := refcount + 1;
    }

    /** `vtm_socket_unref`, with the condition it asserts. */
    method Unref(ghost k: S.Sock)
      requires Represents(k) && MayUnref(k)
      modifies this
      ensures Represents(S.Unreffed(k))
    {
      refcount := refcount - 1;
      var release := refcount == 0 && freeOnUnref;
      if release {
        freed := freed + 1;
      }
    }

    /** `vtm_socket_enable_free_on_unref`. */
    method EnableFreeOnUnref(ghost k: S.Sock)
      requires Represents(k)
      modifies this
      ensures Represents(S.FreeEnabled(k))
    {
      freeOnUnref := true;
      var release := refcount == 0;
      if release {
        freed := freed + 1;
      }
    }

    /** `vtm_socket_close`, when the descriptor closes. */
    method Close(ghost k: S.Sock)
      requires Represents(k)
      modifies this
      ensures Represents(S.ClosedSock(k))
    {
      if !closed {
        closed := true;
      }
    }

    /** `sock_trylock`: takes all of the flags that an event needs, or none of them. */
    method TryLock(t: S.EventType, ghost k: S.Sock, ghost member: bool) returns (ok: bool)
      requires Represents(k)
      modifies this
      ensures Represents(S.AtTryLock(t, k, member).sock)
      ensures ok <==> S.AtTryLock(t, k, member).next == S.Locked
      ensures !ok ==> Represents(k)
    {
      var read, write := S.NeedsRead(t), S.NeedsWrite(t);
      if (read && readLocked) || (write && writeLocked) {
        ok := false;
      } else {
        readLocked, writeLocked := readLocked || read, writeLocked || write;
        ok := true;
      }
    }

    /** `sock_unlock`. */
    method Unlock(t: S.EventType, ghost k: S.Sock)
      requires Represents(k)
      modifies this
      ensures Represents(S.Unlocked(k, t))
    {
      if S.NeedsRead(t) {
        readLocked := false;
      }
      if S.NeedsWrite(t) {
        writeLocked := false;
      }
    }
  }
}
