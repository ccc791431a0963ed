/**
The bounded queue of the datagram server: one receiving thread, any number of workers, a mutex and two condition
variables, as a labelled transition system.

A datagram is represented by its number: the first one received is 0. The fields `left`, `arrived`, `taken`, `processed`
and `dropped` are history: no step reads them to decide what to do. A run does not reset the counter, so it starts with the
number of datagrams that the last run on the same object left in its queue; the field `left` keeps this number.

A thread that must wait for the mutex leaves the state unchanged. Between testing `running` and going to sleep a thread
holds the mutex, but the flag can still be cleared and a signal be sent by a thread that does not.
*/
module DgramServer {
  datatype Producer =
    | Receiving | Adding(id: nat) | Deciding(id: nat) | Sleeping(id: nat) | Interrupting | Joining | Over

  datatype Worker = Idle | Polling | Doubting | Dozing | Processing(id: nat) | Gone

  datatype Lock = Free | Receiver | Held(worker: nat)

  datatype State = State(
    limit: nat,
    left: nat,
    running: bool,
    queue: seq<nat>,
    count: nat,
    lock: Lock,
    producer: Producer,
    workers: seq<Worker>,
    arrived: nat,
    taken: seq<nat>,
    processed: seq<nat>,
    dropped: seq<nat>)

  /** `Wake` and `WakeMain` are spurious wakeups. */
  datatype Action = Stop | Produce(ok: bool) | Work(worker: nat) | Wake(sleeper: nat) | WakeMain

  function Init(threads: nat, limit: nat, left: nat): State {
    State(limit, left, true, [], left, Free, Receiving, seq(threads, i => Idle), 0, [], [], [])
  }

  /** Signalling `dgrams_cond_not_empty`. */
  function Roused(ws: seq<Worker>): (r: seq<Worker>)
    ensures |r| == |ws|
    ensures forall i | 0 <= i < |ws| :: r[i] == (if ws[i] == Dozing then Polling else ws[i])
  {
    seq(|ws|, i requires 0 <= i < |ws| => if ws[i] == Dozing then Polling else ws[i])
  }

  /** Signalling `dgrams_cond_not_full`. */
  function Noticed(p: Producer): Producer {
    if p.Sleeping? then Adding(p.id) else p
  }

  /** The receiving loop, and `enqueue_dgram` for the datagram it got. */
  function ProducerStep(s: State, ok: bool): State {
    match s.producer
    case Receiving =>
      if s.running && ok then s.(producer := Adding(s.arrived), arrived := s.arrived + 1)
      else s.(running := false, producer := Interrupting)
    case Adding(id) =>
      if s.lock != Free then s
      else if s.count < s.limit then
        s.(queue := s.queue + [id], count := s.count + 1, workers := Roused(s.workers), producer := Receiving)
      else if s.running then s.(lock := Receiver, producer := Deciding(id))
      else s.(dropped := s.dropped + [id], producer := Receiving)
    case Deciding(id) => s.(lock := Free, producer := Sleeping(id))
    case Sleeping(_) => s
    case Interrupting => s.(workers := Roused(s.workers), producer := Joining)
    case Joining => if forall w | w in s.workers :: w == Gone then s.(producer := Over) else s
    case Over => s
  }

  function SetWorker(s: State, i: nat, w: Worker): State
    requires i < |s.workers|
  {
    s.(workers := s.workers[i := w])
  }

  function WorkerStep(s: State, i: nat): State
    requires i < |s.workers|
  {
    match s.workers[i]
    case Idle => SetWorker(s, i, if s.running then Polling else Gone)
    case Polling =>
      if s.lock != Free then s
      else if s.queue != [] then
        SetWorker(s, i, Processing(s.queue[0]))
        .(queue := s.queue[1..], count := if s.count == 0 then 0 else s.count - 1, taken := s.taken + [s.queue[0]],
          producer := Noticed(s.producer))
      else if s.running then SetWorker(s, i, Doubting).(lock := Held(i))
      else SetWorker(s, i, Gone)
    case Doubting => SetWorker(s, i, Dozing).(lock := Free)
    case Dozing => s
    case Processing(id) => SetWorker(s, i, Idle).(processed := s.processed + [id])
    case Gone => s
  }

  function Step(s: State, a: Action): State {
    match a
    case Stop => s.(running := false)
    case Produce(ok) => ProducerStep(s, ok)
    case Work(i) => if i < |s.workers| then WorkerStep(s, i) else s
    case Wake(i) => if i < |s.workers| && s.workers[i] == Dozing then SetWorker(s, i, Polling) else s
    case WakeMain => s.(producer := Noticed(s.producer))
  }

  function Exec(s: State, actions: seq<Action>): State {
    if actions == [] then s else Step(Exec(s, actions[..|actions| - 1]), actions[|actions| - 1])
  }

  // ---------------------------------------------------------------- invariant

  /** The datagram that the receiving thread has not yet enqueued. */
  function InHand(p: Producer): seq<nat> {
    if p.Adding? || p.Deciding? || p.Sleeping? then [p.id] else []
  }

  function Own(w: Worker, id: nat): nat {
    if w == Processing(id) then 1 else 0
  }

  /** How many workers are processing a datagram. */
  function Busy(ws: seq<Worker>, id: nat): nat {
    if ws == [] then 0 else Busy(ws[..|ws| - 1], id) + Own(ws[|ws| - 1], id)
  }

  /** How often a number occurs. */
  function Times(ids: seq<nat>, id: nat): nat {
    if ids == [] then 0 else Times(ids[..|ids| - 1], id) + if ids[|ids| - 1] == id then 1 else 0
  }

  function Upto(n: nat): seq<nat> {
    seq(n, i => i)
  }

  /** The counter is off by what was left, and within the limit when there is something in the queue. */
  ghost predicate Bounded(s: State) {
    s.count == |s.queue| + s.left && (s.queue != [] ==> s.count <= s.limit)
  }

  /** The datagrams taken, queued, in hand and dropped are, in this order, those that arrived. Only the last one can have
      been dropped. */
  ghost predicate InOrder(s: State) {
    && s.taken + s.queue + InHand(s.producer) + s.dropped == Upto(s.arrived)
    && |s.dropped| <= 1
    && (s.dropped != [] ==> !s.running && InHand(s.producer) == [])
  }

  /** What was taken was processed, or is being processed by one worker. */
  ghost predicate Conserved(s: State) {
    forall id :: Times(s.taken, id) == Times(s.processed, id) + Busy(s.workers, id)
  }

  ghost predicate LockKept(s: State) {
    && (s.lock == Receiver <==> s.producer.Deciding?)
    && (forall i | 0 <= i < |s.workers| :: s.workers[i] == Doubting <==> s.lock == Held(i))
    && (s.lock.Held? ==> s.lock.worker < |s.workers|)
  }

  /** No worker sleeps while there is something in the queue, and the receiving thread does not while there is room. */
  ghost predicate Awake(s: State) {
    && (s.queue != [] ==> forall i | 0 <= i < |s.workers| :: s.workers[i] != Doubting && s.workers[i] != Dozing)
    && (s.count < s.limit ==> !s.producer.Deciding? && !s.producer.Sleeping?)
  }

  ghost predicate Phases(s: State) {
    && (s.running ==> s.producer == Receiving || InHand(s.producer) != [])
    && (s.running ==> forall i | 0 <= i < |s.workers| :: s.workers[i] != Gone)
    && (s.producer == Over ==> forall i | 0 <= i < |s.workers| :: s.workers[i] == Gone)
  }

  ghost predicate Inv(s: State) {
    Bounded(s) && InOrder(s) && Conserved(s) && LockKept(s) && Awake(s) && Phases(s)
  }

  lemma {:induction false} BusyUpdate(ws: seq<Worker>, i: nat, w: Worker, id: nat)
    requires i < |ws|
    ensures Busy(ws[i := w], id) + Own(ws[i], id) == Busy(ws, id) + Own(w, id)
  {
    var front := ws[..|ws| - 1];
    if i == |front| {
      assert ws[i := w][..|front|] == front;
    } else {
      BusyUpdate(front, i, w, id);
      assert ws[i := w][..|front|] == front[i := w];
    }
  }

  lemma {:induction false} BusyRoused(ws: seq<Worker>, id: nat)
    ensures Busy(Roused(ws), id) == Busy(ws, id)
  {
    if ws != [] {
      BusyRoused(ws[..|ws| - 1], id);
      assert Roused(ws)[..|ws| - 1] == Roused(ws[..|ws| - 1]);
    }
  }

  lemma {:induction false} BusyNone(ws: seq<Worker>, id: nat)
    requires forall i | 0 <= i < |ws| :: !ws[i].Processing?
    ensures Busy(ws, id) == 0
  {
    if ws != [] { BusyNone(ws[..|ws| - 1], id); }
  }

  lemma TimesSnoc(ids: seq<nat>, x: nat, id: nat)
    ensures Times(ids + [x], id) == Times(ids, id) + if x == id then 1 else 0
  {
    assert (ids + [x])[..|ids|] == ids;
  }

  lemma InvInit(threads: nat, limit: nat, left: nat)
    ensures Inv(Init(threads, limit, left))
  {
    forall id ensures Busy(Init(threads, limit, left).workers, id) == 0 { BusyNone(Init(threads, limit, left).workers, id); }
  }

  lemma Regroup(a: seq<nat>, b: seq<nat>, id: nat)
    ensures a + b + [id] + [] == a + (b + [id]) + [] + []
    ensures a + b + [id] + [] == a + b + [] + [id]
    ensures a + b + [] + [] + [id] == a + b + [id] + []
  {}

  lemma ProducerInOrder(s: State, ok: bool)
    requires InOrder(s) && Phases(s)
    ensures InOrder(ProducerStep(s, ok))
  {
    match s.producer
    case Receiving =>
      if s.running {
        assert s.dropped == [];
        Regroup(s.taken, s.queue, s.arrived);
        assert Upto(s.arrived + 1) == Upto(s.arrived) + [s.arrived];
      }
    case Adding(id) =>
      assert s.dropped == [];
      Regroup(s.taken, s.queue, id);
    case _ =>
  }

  lemma ProducerConserved(s: State, ok: bool)
    requires Conserved(s)
    ensures Conserved(ProducerStep(s, ok))
  {
    hide Times, Busy;
    forall id ensures Busy(Roused(s.workers), id) == Busy(s.workers, id) { BusyRoused(s.workers, id); }
  }

  lemma ProducerLock(s: State, ok: bool)
    requires LockKept(s) && Awake(s) && Bounded(s)
    ensures LockKept(ProducerStep(s, ok)) && Awake(ProducerStep(s, ok)) && Bounded(ProducerStep(s, ok))
  {}

  lemma ProducerPhases(s: State, ok: bool)
    requires Phases(s)
    ensures Phases(ProducerStep(s, ok))
  {
    assert forall i | 0 <= i < |s.workers| :: s.workers[i] in s.workers;
  }

  lemma TakeHead(taken: seq<nat>, queue: seq<nat>, rest: seq<nat>)
    requires queue != []
    ensures (taken + [queue[0]]) + queue[1..] + rest == taken + queue + rest
  {
    assert (taken + [queue[0]]) + queue[1..] == taken + queue;
  }

  lemma WorkerInOrder(s: State, i: nat)
    requires InOrder(s) && i < |s.workers|
    ensures InOrder(WorkerStep(s, i))
  {
    if s.workers[i] == Polling && s.queue != [] {
      assert InHand(Noticed(s.producer)) == InHand(s.producer);
      TakeHead(s.taken, s.queue, InHand(s.producer));
    }
  }

  /** A worker's step moves at most one number: from the queue to its hands, or from there to the processed ones. */
  lemma WorkerMoves(s: State, i: nat)
    requires i < |s.workers|
    ensures var t, w := WorkerStep(s, i), s.workers[i];
            && t.workers == s.workers[i := t.workers[i]]
            && (if t.workers[i].Processing? && !w.Processing? then
                  t.taken == s.taken + [t.workers[i].id] && t.processed == s.processed
                else if w.Processing? then
                  t.taken == s.taken && t.processed == s.processed + [w.id] && t.workers[i] == Idle
                else t.taken == s.taken && t.processed == s.processed)
  {
    assert s.workers[i := s.workers[i]] == s.workers;
  }

  lemma WorkerConservedAt(s: State, t: State, i: nat, id: nat)
    requires i < |s.workers| && t == WorkerStep(s, i)
    requires Times(s.taken, id) == Times(s.processed, id) + Busy(s.workers, id)
    ensures Times(t.taken, id) == Times(t.processed, id) + Busy(t.workers, id)
  {
    hide Times, Busy, WorkerStep;
    WorkerMoves(s, i);
    var w, x := s.workers[i], t.workers[i];
    BusyUpdate(s.workers, i, x, id);
    if x.Processing? { TimesSnoc(s.taken, x.id, id); }
    if w.Processing? { TimesSnoc(s.processed, w.id, id); }
  }

  lemma WorkerConserved(s: State, i: nat)
    requires Conserved(s) && i < |s.workers|
    ensures Conserved(WorkerStep(s, i))
  {
    var t := WorkerStep(s, i);
    forall id ensures Times(t.taken, id) == Times(t.processed, id) + Busy(t.workers, id) {
      WorkerConservedAt(s, t, i, id);
    }
  }

  lemma WorkerLock(s: State, i: nat)
    requires LockKept(s) && Awake(s) && i < |s.workers|
    ensures LockKept(WorkerStep(s, i)) && Awake(WorkerStep(s, i))
  {}

  lemma WorkerPhases(s: State, i: nat)
    requires Phases(s) && Bounded(s) && i < |s.workers|
    ensures Phases(WorkerStep(s, i)) && Bounded(WorkerStep(s, i))
  {}

  lemma WorkerKeeps(s: State, i: nat)
    requires Inv(s) && i < |s.workers|
    ensures Inv(WorkerStep(s, i))
  {
    WorkerInOrder(s, i);
    WorkerConserved(s, i);
    WorkerLock(s, i);
    WorkerPhases(s, i);
  }

  lemma WakeConserved(s: State, i: nat)
    requires Conserved(s) && i < |s.workers| && s.workers[i] == Dozing
    ensures Conserved(SetWorker(s, i, Polling))
  {
    forall id ensures Busy(SetWorker(s, i, Polling).workers, id) == Busy(s.workers, id) {
      BusyUpdate(s.workers, i, Polling, id);
    }
  }

  lemma StepKeeps(s: State, a: Action)
    requires Inv(s)
    ensures Inv(Step(s, a))
  {
    hide ProducerStep, WorkerStep;
    match a
    case Produce(ok) =>
      ProducerInOrder(s, ok);
      ProducerConserved(s, ok);
      ProducerLock(s, ok);
      ProducerPhases(s, ok);
    case Work(i) => if i < |s.workers| { WorkerKeeps(s, i); }
    case Wake(i) => if i < |s.workers| && s.workers[i] == Dozing { WakeConserved(s, i); }
    case _ =>
  }

  lemma {:induction false} ExecInv(threads: nat, limit: nat, left: nat, actions: seq<Action>)
    ensures Inv(Exec(Init(threads, limit, left), actions))
    decreases |actions|
  {
    if actions == [] {
      InvInit(threads, limit, left);
    } else {
      ExecInv(threads, limit, left, actions[..|actions| - 1]);
      StepKeeps(Exec(Init(threads, limit, left), actions[..|actions| - 1]), actions[|actions| - 1]);
    }
  }

  // ----------------------------------------------------------------- theorems

  lemma {:induction false} TimesConcat(a: seq<nat>, b: seq<nat>, id: nat)
    ensures Times(a + b, id) == Times(a, id) + Times(b, id)
  {
    if b == [] {
      assert a + b == a;
    } else {
      var n := |b| - 1;
      TimesConcat(a, b[..n], id);
      assert (a + b)[..|a| + n] == a + b[..n];
    }
  }

  lemma {:induction false} TimesUpto(n: nat, id: nat)
    ensures Times(Upto(n), id) == if id < n then 1 else 0
  {
    if n > 0 {
      TimesUpto(n - 1, id);
      assert Upto(n)[..n - 1] == Upto(n - 1);
    }
  }

  /** The counter is the length of the queue if and only if the last run left nothing in it; the limit is never exceeded. */
  lemma CountIsLength(threads: nat, limit: nat, left: nat, actions: seq<Action>)
    ensures var s := Exec(Init(threads, limit, left), actions);
            && s.count == |s.queue| + left && (s.queue != [] ==> s.count <= limit)
            && (s.count == |s.queue| <==> left == 0)
  {
    ExecInv(threads, limit, left, actions);
    LimitKept(Init(threads, limit, left), actions);
  }

  lemma StepLimit(s: State, a: Action)
    ensures Step(s, a).limit == s.limit && Step(s, a).left == s.left && |Step(s, a).workers| == |s.workers|
  {
    hide Noticed;
  }

  lemma {:induction false} LimitKept(s: State, actions: seq<Action>)
    ensures Exec(s, actions).limit == s.limit && Exec(s, actions).left == s.left
    ensures |Exec(s, actions).workers| == |s.workers|
    decreases |actions|
  {
    hide Step;
    if actions != [] {
      LimitKept(s, actions[..|actions| - 1]);
      StepLimit(Exec(s, actions[..|actions| - 1]), actions[|actions| - 1]);
    }
  }

  /** First come, first served: the datagrams are taken in the order in which they arrived, and none is skipped. */
  lemma FirstCome(threads: nat, limit: nat, left: nat, actions: seq<Action>)
    ensures var s := Exec(Init(threads, limit, left), actions); s.taken == Upto(|s.taken|)
  {
    ExecInv(threads, limit, left, actions);
    var s := Exec(Init(threads, limit, left), actions);
    Front(s.taken, s.queue + InHand(s.producer) + s.dropped, s.arrived);
    assert s.taken + (s.queue + InHand(s.producer) + s.dropped) == s.taken + s.queue + InHand(s.producer) + s.dropped;
  }

  lemma Front(a: seq<nat>, b: seq<nat>, n: nat)
    requires a + b == Upto(n)
    ensures a == Upto(|a|)
  {
    assert a == (a + b)[..|a|];
  }

  /** Every datagram that arrived is in exactly one place: processed, with one worker, in the queue, with the receiving
      thread, or dropped. */
  lemma ExactlyOnce(threads: nat, limit: nat, left: nat, actions: seq<Action>, id: nat)
    ensures var s := Exec(Init(threads, limit, left), actions);
            Times(s.processed, id) + Busy(s.workers, id) + Times(s.queue, id) + Times(InHand(s.producer), id)
            + Times(s.dropped, id) == if id < s.arrived then 1 else 0
  {
    ExecInv(threads, limit, left, actions);
    var s := Exec(Init(threads, limit, left), actions);
    TimesConcat(s.taken + s.queue + InHand(s.producer), s.dropped, id);
    TimesConcat(s.taken + s.queue, InHand(s.producer), id);
    TimesConcat(s.taken, s.queue, id);
    TimesUpto(s.arrived, id);
  }

  /** At most one datagram is ever dropped: the last one, after the server was stopped. */
  lemma OnlyTheLastIsDropped(threads: nat, limit: nat, left: nat, actions: seq<Action>)
    ensures var s := Exec(Init(threads, limit, left), actions);
            s.dropped == [] || (!s.running && s.dropped == [s.arrived - 1])
  {
    ExecInv(threads, limit, left, actions);
    var s := Exec(Init(threads, limit, left), actions);
    if s.dropped != [] { assert Upto(s.arrived)[s.arrived - 1] == s.dropped[0]; }
  }

  lemma {:induction false} TimesMultiset(ids: seq<nat>, id: nat)
    ensures Times(ids, id) == multiset(ids)[id]
  {
    if ids != [] {
      var n := |ids| - 1;
      TimesMultiset(ids[..n], id);
      assert ids == ids[..n] + [ids[n]];
    }
  }

  lemma SameTimes(a: seq<nat>, b: seq<nat>)
    requires forall id :: Times(a, id) == Times(b, id)
    ensures multiset(a) == multiset(b) && |a| == |b|
  {
    forall id ensures multiset(a)[id] == multiset(b)[id] {
      TimesMultiset(a, id);
      TimesMultiset(b, id);
    }
    assert multiset(a) == multiset(b);
    assert |multiset(a)| == |a| && |multiset(b)| == |b|;
  }

  /** After all threads have ended, the datagrams processed are exactly the first ones that arrived, each once; the others
      were left in the queue or dropped. */
  lemma Ended(threads: nat, limit: nat, left: nat, actions: seq<Action>)
    requires Exec(Init(threads, limit, left), actions).producer == Over
    ensures var s := Exec(Init(threads, limit, left), actions);
            && multiset(s.processed) == multiset(Upto(|s.processed|))
            && s.arrived == |s.processed| + |s.queue| + |s.dropped|
  {
    ExecInv(threads, limit, left, actions);
    FirstCome(threads, limit, left, actions);
    var s := Exec(Init(threads, limit, left), actions);
    forall id ensures Times(s.taken, id) == Times(s.processed, id) { BusyNone(s.workers, id); }
    SameTimes(s.taken, s.processed);
    assert |Upto(s.arrived)| == |s.taken| + |s.queue| + |s.dropped|;
  }

  /** A signal for a datagram or for room in the queue is never lost: whoever sleeps has nothing to do. */
  lemma SleepersHaveNothingToDo(threads: nat, limit: nat, left: nat, actions: seq<Action>)
    ensures var s := Exec(Init(threads, limit, left), actions);
            && ((exists i :: 0 <= i < |s.workers| && s.workers[i] == Dozing) ==> s.queue == [])
            && (s.producer.Sleeping? ==> |s.queue| + left >= limit)
  {
    ExecInv(threads, limit, left, actions);
    LimitKept(Init(threads, limit, left), actions);
  }

  /** After a run that left as many datagrams as the limit allows, or more, the next one never handles any. */
  lemma Starves(threads: nat, limit: nat, left: nat, actions: seq<Action>)
    requires left >= limit
    ensures var s := Exec(Init(threads, limit, left), actions); s.queue == s.taken == s.processed == []
  {
    NothingTaken(threads, limit, left, actions);
    ExecInv(threads, limit, left, actions);
    var s := Exec(Init(threads, limit, left), actions);
    if s.processed != [] { TimesMultiset(s.processed, s.processed[0]); }
  }

  lemma TakesFromQueue(s: State, a: Action)
    requires s.queue == []
    ensures Step(s, a).taken == s.taken
  {
    hide Noticed, Roused;
  }

  lemma {:induction false} NothingTaken(threads: nat, limit: nat, left: nat, actions: seq<Action>)
    requires left >= limit
    ensures var s := Exec(Init(threads, limit, left), actions); s.queue == s.taken == []
    decreases |actions|
  {
    hide Step, Inv;
    CountIsLength(threads, limit, left, actions);
    if actions != [] {
      NothingTaken(threads, limit, left, actions[..|actions| - 1]);
      TakesFromQueue(Exec(Init(threads, limit, left), actions[..|actions| - 1]), actions[|actions| - 1]);
    }
  }

  // -------------------------------------------------------------------- stall

  /** The server was stopped and some thread has not ended, but no thread can take a step: only a spurious wakeup could
      change the state. */
  ghost predicate Stalled(s: State) {
    && !s.running && s.producer != Over
    && (forall ok :: ProducerStep(s, ok) == s)
    && (forall i | 0 <= i < |s.workers| :: WorkerStep(s, i) == s)
  }

  /** The receiving thread sleeps because the queue is full by the counter, and no worker is left or awake to take
      anything. */
  ghost predicate FullAndAbandoned(s: State) {
    s.producer.Sleeping? && forall i | 0 <= i < |s.workers| :: s.workers[i] == Gone || s.workers[i] == Dozing
  }

  /** Workers went to sleep after the last signal was sent. */
  ghost predicate MissedTheEnd(s: State) {
    && s.producer == Joining
    && (forall i | 0 <= i < |s.workers| :: s.workers[i] == Gone || s.workers[i] == Dozing)
    && (exists i :: 0 <= i < |s.workers| && s.workers[i] == Dozing)
  }

  lemma WorkerStuck(s: State, i: nat)
    requires LockKept(s) && i < |s.workers| && s.lock == Free
    ensures WorkerStep(s, i) == s <==> s.workers[i] == Gone || s.workers[i] == Dozing
  {
    assert WorkerStep(s, i) == s ==> WorkerStep(s, i).workers[i] == s.workers[i];
  }

  lemma LockHolderMoves(s: State)
    requires LockKept(s) && s.lock != Free
    ensures !Stalled(s)
  {
    match s.lock
    case Receiver => assert ProducerStep(s, true).producer != s.producer;
    case Held(i) => assert WorkerStep(s, i).workers[i] != s.workers[i];
  }

  /** A stopped server can stall in exactly two ways. */
  lemma StallsIff(threads: nat, limit: nat, left: nat, actions: seq<Action>)
    ensures var s := Exec(Init(threads, limit, left), actions);
            && (Stalled(s) <==> !s.running && (FullAndAbandoned(s) || MissedTheEnd(s)))
            && (FullAndAbandoned(s) && left < limit ==> forall i | 0 <= i < |s.workers| :: s.workers[i] == Gone)
  {
    ExecInv(threads, limit, left, actions);
    LimitKept(Init(threads, limit, left), actions);
    var s := Exec(Init(threads, limit, left), actions);
    if s.lock != Free { LockHolderMoves(s); }
    if Stalled(s) {
      forall i | 0 <= i < |s.workers| ensures s.workers[i] == Gone || s.workers[i] == Dozing { WorkerStuck(s, i); }
      assert ProducerStep(s, true).producer == s.producer;
      if s.producer == Joining && forall i | 0 <= i < |s.workers| :: s.workers[i] == Gone {
        assert forall w | w in s.workers :: w == Gone;
        assert false;
      }
    } else if FullAndAbandoned(s) || MissedTheEnd(s) {
      if MissedTheEnd(s) {
        var i :| 0 <= i < |s.workers| && s.workers[i] == Dozing;
        assert s.workers[i] in s.workers;
      }
      forall i | 0 <= i < |s.workers| ensures WorkerStep(s, i) == s {}
    }
  }
}
