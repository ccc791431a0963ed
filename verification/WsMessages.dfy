/**
Reassembly: the messages a WebSocket parser hands out are those the frames carry.
*/
module WsMessages {
  import opened Wrappers
  import opened Bytes
  import opened Buffer
  import opened WsFrame
  import opened WsParser
  import opened WsReassembly

  // --------------------------------------------------- frames and messages

  datatype Frame = Frame(fin: bit, opcode: nat, masked: bit, mask: nat, payload: seq<byte>)

  function DescOf(f: Frame): Desc { Desc(f.fin, 0, 0, 0, f.opcode, f.masked, f.mask, |f.payload|) }

  function Body(f: Frame): seq<byte> {
    if f.masked == 1 then Masked(f.payload, Word(f.mask, 4)) else f.payload
  }

  function WireOf(f: Frame): seq<byte>
    requires f.opcode < 16
  {
    Header(DescOf(f)) + Body(f)
  }

  /** The message in progress: the number of its fragments so far, its type and their payloads. */
  datatype Open = Open(count: nat, typ: nat, data: seq<byte>)

  const CLOSED: Open := Open(0, CLOSE, [])

  /** What a frame adds: a control message is complete by itself and leaves the message in progress alone; a data frame
      adds a fragment, and the first one sets the type. */
  function AddFrame(st: Open, f: Frame): (Open, seq<Msg>) {
    if ControlOpcode(f.opcode) then (st, [Msg(f.opcode, f.payload)]) else
    var next := Open(st.count + 1, if st.count == 0 then f.opcode else st.typ, st.data + f.payload);
    if f.fin == 1 then (CLOSED, [Msg(next.typ, next.data)]) else (next, [])
  }

  /** The messages of a sequence of frames, in wire order. */
  function Messages(st: Open, fs: seq<Frame>): seq<Msg>
    decreases |fs|
  {
    if fs == [] then [] else AddFrame(st, fs[0]).1 + Messages(AddFrame(st, fs[0]).0, fs[1..])
  }

  /** The frame is one that a peer may send next to an endpoint in mode `m`. */
  predicate Allowed(m: Mode, st: Open, f: Frame) {
    IsDesc(DescOf(f)) && Readable(|f.payload|) && Suits(m, f.masked) && Follows(f.fin, f.opcode, st.count)
  }

  predicate Valid(m: Mode, st: Open, fs: seq<Frame>)
    decreases |fs|
  {
    fs != [] ==> Allowed(m, st, fs[0]) && Valid(m, AddFrame(st, fs[0]).0, fs[1..])
  }

  /** The size of the message buffer after a fragment of `len` bytes behind `used` bytes. */
  function Grown(size: nat, used: nat, len: nat): nat {
    if size < used + len then 2 * size else size
  }

  /** A fragment of `len` bytes finds room after at most one doubling of a buffer below the maximum. */
  predicate Room(size: nat, used: nat, len: nat) {
    var size' := Grown(size, used, len);
    used + len <= size' && (size' != size ==> size < BUF_MAX)
  }

  predicate HasRoom(size: nat, st: Open, f: Frame) {
    ControlOpcode(f.opcode) || Room(size, |st.data|, |f.payload|)
  }

  /** The size of the message buffer after a frame. */
  function SizeAfter(size: nat, st: Open, f: Frame): nat {
    if ControlOpcode(f.opcode) then size else Grown(size, |st.data|, |f.payload|)
  }

  /** How many frames are collected before the first one that finds no room. */
  function Fitting(size: nat, st: Open, fs: seq<Frame>): (n: nat)
    ensures n <= |fs|
    decreases |fs|
  {
    if fs == [] || !HasRoom(size, st, fs[0]) then 0
    else 1 + Fitting(SizeAfter(size, st, fs[0]), AddFrame(st, fs[0]).0, fs[1..])
  }

  predicate Fits(size: nat, st: Open, fs: seq<Frame>) { Fitting(size, st, fs) == |fs| }

  function WireAll(fs: seq<Frame>): seq<byte>
    requires forall f | f in fs :: f.opcode < 16
  {
    if fs == [] then [] else WireOf(fs[0]) + WireAll(fs[1..])
  }

  // ------------------------------------------------------------ one frame

  /** The parser is between two frames, with message `st` in progress. */
  predicate Ready(p: Parser, st: Open) {
    && p.ctrl == None && (p.stage == MsgBegin || p.stage == FrameBegin)
    && (p.stage == MsgBegin ==> st == CLOSED)
    && (p.stage == FrameBegin ==> InProgress(p, st))
  }

  predicate InProgress(p: Parser, st: Open) {
    && p.count == st.count && p.data == st.data && |st.data| <= p.size
    && (st.count > 0 ==> p.typ == st.typ) && (st.count == 0 ==> st == CLOSED)
  }

  /** The parser with the payload of a frame unmasked. */
  function Arrived(p: Parser, f: Frame): Parser {
    AfterHeader(p.(len := 0), DescOf(f)).(payload := f.payload,
                                          stage := if ControlOpcode(f.opcode) then FinishCtrl else FinishData)
  }

  lemma BodyParses(m: Mode, p: Parser, f: Frame, rest: seq<byte>)
    requires p.stage == Payload && p.len == |f.payload| && p.masked == f.masked && (f.masked == 1 ==> p.mask == f.mask)
    ensures var q := p.(payload := f.payload, stage := if ControlOpcode(p.opcode) then FinishCtrl else FinishData);
            Run(m, p, Body(f) + rest) == Later(|Body(f)|, Run(m, q, rest))
  {
    assert (Body(f) + rest)[..|f.payload|] == Body(f);
    if f.masked == 1 { MaskedTwice(f.payload, Word(f.mask, 4)); }
    Eat(m, p, Body(f), rest, p.(payload := f.payload, stage := if ControlOpcode(p.opcode) then FinishCtrl else FinishData));
  }

  lemma FrameArrives(m: Mode, p: Parser, f: Frame, rest: seq<byte>)
    requires p.stage == FrameBegin && IsDesc(DescOf(f)) && Readable(|f.payload|) && Suits(m, f.masked)
    requires Follows(f.fin, f.opcode, p.count)
    ensures Run(m, p, WireOf(f) + rest) == Later(|WireOf(f)|, Run(m, Arrived(p, f), rest))
  {
    hide Run, Extended, Header, Masked;
    var d, s := DescOf(f), Body(f) + rest;
    var p1 := p.(len := 0, stage := FinOpcode);
    assert WireOf(f) + rest == Header(d) + s;
    Skip(m, p, Header(d) + s, p1);
    HeaderParses(m, p1, d, s);
    BodyParses(m, AfterHeader(p1, d), f, rest);
    LaterTwice(|Header(d)|, |Body(f)|, Run(m, Arrived(p, f), rest));
  }

  lemma ControlCompletes(m: Mode, p: Parser, f: Frame, rest: seq<byte>)
    requires ControlOpcode(f.opcode) && p.ctrl == None
    ensures Run(m, Arrived(p, f), rest)
         == Outcome(Arrived(p, f).(ctrl := Some(Msg(f.opcode, f.payload)), payload := [], stage := FrameBegin), 0, Complete)
  {
    var q := Arrived(p, f);
    var q1 := q.(ctrl := Some(Msg(f.opcode, f.payload)), payload := [], stage := FrameComplete);
    Skip(m, q, rest, q1);
  }

  /** The parser after a data frame. */
  function Collected(p: Parser, f: Frame): Parser {
    Arrived(p, f).(size := Grown(p.size, |p.data|, |f.payload|), data := p.data + f.payload, payload := [],
                   count := p.count + 1, stage := if f.fin == 1 then MsgComplete else FrameBegin)
  }

  lemma DataCollects(m: Mode, p: Parser, f: Frame, rest: seq<byte>)
    requires ValidOpcode(f.opcode) && !ControlOpcode(f.opcode) && p.ctrl == None && |p.data| <= p.size
    requires Room(p.size, |p.data|, |f.payload|)
    ensures Run(m, Arrived(p, f), rest) == Run(m, Collected(p, f), rest)
  {
    var q1 := Collected(p, f).(stage := FrameComplete);
    Skip(m, Arrived(p, f), rest, q1);
    Skip(m, q1, rest, Collected(p, f));
  }

  // ------------------------------------------------------- run and get_msg

  datatype Drained = Drained(msgs: seq<Msg>, par: Parser, used: nat, stat: Stat)

  function Before(msgs: seq<Msg>, n: nat, d: Drained): Drained { d.(msgs := msgs + d.msgs, used := n + d.used) }

  /** Runs the parser and takes its messages until it returns none. */
  function Drain(m: Mode, p: Parser, s: seq<byte>): (d: Drained)
    ensures d.used <= |s|
    decreases |s|, Rank(p.stage)
  {
    var o := Run(m, p, s);
    if o.stat != Complete then Drained([], o.par, o.used, o.stat) else
    var (msg, q) := GetMsg(o.par);
    Before([msg], o.used, Drain(m, q, s[o.used..]))
  }

  /** Draining on from the outcome of a run on `s`. */
  function DrainOf(m: Mode, o: Outcome, s: seq<byte>): Drained
    requires o.used <= |s|
  {
    if o.stat != Complete then Drained([], o.par, o.used, o.stat)
    else Before([GetMsg(o.par).0], o.used, Drain(m, GetMsg(o.par).1, s[o.used..]))
  }

  lemma DrainIs(m: Mode, p: Parser, s: seq<byte>)
    ensures Drain(m, p, s) == DrainOf(m, Run(m, p, s), s)
  {}

  lemma DrainOfLater(m: Mode, o: Outcome, a: seq<byte>, rest: seq<byte>)
    requires o.used <= |rest|
    ensures DrainOf(m, Later(|a|, o), a + rest) == Before([], |a|, DrainOf(m, o, rest))
  {
    assert (a + rest)[|a| + o.used..] == rest[o.used..];
  }

  lemma DrainLater(m: Mode, p: Parser, a: seq<byte>, q: Parser, rest: seq<byte>)
    requires Run(m, p, a + rest) == Later(|a|, Run(m, q, rest))
    ensures Drain(m, p, a + rest) == Before([], |a|, Drain(m, q, rest))
  {
    DrainIs(m, p, a + rest);
    DrainIs(m, q, rest);
    DrainOfLater(m, Run(m, q, rest), a, rest);
  }

  lemma DrainComplete(m: Mode, p: Parser, a: seq<byte>, q: Parser, rest: seq<byte>)
    requires Run(m, p, a + rest) == Outcome(q, |a|, Complete)
    ensures Drain(m, p, a + rest) == Before([GetMsg(q).0], |a|, Drain(m, GetMsg(q).1, rest))
  {
    DrainIs(m, p, a + rest);
    assert (a + rest)[|a|..] == rest;
  }

  /** The start of the next message forgets the last one. */
  lemma Begins(m: Mode, p: Parser, st: Open, s: seq<byte>) returns (q: Parser)
    requires Ready(p, st)
    ensures q.stage == FrameBegin && Ready(q, st) && q.size == p.size
    ensures Run(m, p, s) == Run(m, q, s)
  {
    q := p;
    if p.stage == MsgBegin {
      q := p.(data := [], count := 0, typ := CLOSE, stage := FrameBegin);
      Skip(m, p, s, q);
    }
  }

  lemma SameDrain(m: Mode, p: Parser, q: Parser, s: seq<byte>)
    requires Run(m, p, s) == Run(m, q, s)
    ensures Drain(m, p, s) == Drain(m, q, s)
  {}

  lemma ControlFrame(m: Mode, p: Parser, st: Open, f: Frame, rest: seq<byte>) returns (q: Parser)
    requires p.stage == FrameBegin && Ready(p, st) && Allowed(m, st, f) && ControlOpcode(f.opcode)
    ensures Ready(q, st) && q.size == p.size
    ensures Drain(m, p, WireOf(f) + rest) == Before([Msg(f.opcode, f.payload)], |WireOf(f)|, Drain(m, q, rest))
  {
    FrameArrives(m, p, f, rest);
    ControlCompletes(m, p, f, rest);
    var r := Arrived(p, f).(ctrl := Some(Msg(f.opcode, f.payload)), payload := [], stage := FrameBegin);
    DrainComplete(m, p, WireOf(f), r, rest);
    q := r.(ctrl := None);
  }

  lemma FragmentFrame(m: Mode, p: Parser, st: Open, f: Frame, rest: seq<byte>) returns (q: Parser)
    requires p.stage == FrameBegin && Ready(p, st) && Allowed(m, st, f) && !ControlOpcode(f.opcode) && f.fin == 0
    requires Room(p.size, |p.data|, |f.payload|)
    ensures Ready(q, AddFrame(st, f).0) && q.size == Grown(p.size, |p.data|, |f.payload|)
    ensures Drain(m, p, WireOf(f) + rest) == Before([], |WireOf(f)|, Drain(m, q, rest))
  {
    FrameArrives(m, p, f, rest);
    DataCollects(m, p, f, rest);
    q := Collected(p, f);
    DrainLater(m, p, WireOf(f), q, rest);
  }

  lemma DataEnds(m: Mode, p: Parser, f: Frame, rest: seq<byte>)
    requires f.fin == 1
    ensures Run(m, Collected(p, f), rest) == Outcome(Collected(p, f).(stage := MsgBegin), 0, Complete)
  {}

  lemma DataCompletes(m: Mode, p: Parser, f: Frame, rest: seq<byte>)
    requires p.stage == FrameBegin && IsDesc(DescOf(f)) && Readable(|f.payload|) && Suits(m, f.masked)
    requires Follows(f.fin, f.opcode, p.count) && !ControlOpcode(f.opcode) && f.fin == 1
    requires p.ctrl == None && |p.data| <= p.size && Room(p.size, |p.data|, |f.payload|)
    ensures Run(m, p, WireOf(f) + rest) == Outcome(Collected(p, f).(stage := MsgBegin), |WireOf(f)|, Complete)
  {
    FrameArrives(m, p, f, rest);
    DataCollects(m, p, f, rest);
    DataEnds(m, p, f, rest);
  }

  lemma FinalFrame(m: Mode, p: Parser, st: Open, f: Frame, rest: seq<byte>) returns (q: Parser)
    requires p.stage == FrameBegin && Ready(p, st) && Allowed(m, st, f) && !ControlOpcode(f.opcode) && f.fin == 1
    requires Room(p.size, |p.data|, |f.payload|)
    ensures Ready(q, CLOSED) && q.size == Grown(p.size, |p.data|, |f.payload|)
    ensures Drain(m, p, WireOf(f) + rest) == Before(AddFrame(st, f).1, |WireOf(f)|, Drain(m, q, rest))
  {
    DataCompletes(m, p, f, rest);
    q := Collected(p, f).(stage := MsgBegin);
    DrainComplete(m, p, WireOf(f), q, rest);
  }

  lemma OneFrame(m: Mode, p: Parser, st: Open, f: Frame, rest: seq<byte>) returns (q: Parser)
    requires Ready(p, st) && Allowed(m, st, f) && HasRoom(p.size, st, f)
    ensures Ready(q, AddFrame(st, f).0)
    ensures q.size == SizeAfter(p.size, st, f)
    ensures Drain(m, p, WireOf(f) + rest) == Before(AddFrame(st, f).1, |WireOf(f)|, Drain(m, q, rest))
  {
    var b := Begins(m, p, st, WireOf(f) + rest);
    SameDrain(m, p, b, WireOf(f) + rest);
    if ControlOpcode(f.opcode) { q := ControlFrame(m, b, st, f, rest); }
    else if f.fin == 0 { q := FragmentFrame(m, b, st, f, rest); }
    else { q := FinalFrame(m, b, st, f, rest); }
  }

  lemma BeforeTwice(a: seq<Msg>, n: nat, b: seq<Msg>, k: nat, d: Drained)
    ensures Before(a, n, Before(b, k, d)) == Before(a + b, n + k, d)
  {}

  /** Reassembly refines its definition: from a parser between two frames, a valid sequence within the capacity of the
      message buffer yields exactly its messages, processes exactly its bytes and leaves the parser between two frames. */
  lemma {:induction false} Reassembles(m: Mode, p: Parser, st: Open, fs: seq<Frame>, rest: seq<byte>) returns (q: Parser)
    requires Ready(p, st) && Valid(m, st, fs) && Fits(p.size, st, fs) && forall f | f in fs :: f.opcode < 16
    ensures exists st' :: Ready(q, st')
    ensures Drain(m, p, WireAll(fs) + rest) == Before(Messages(st, fs), |WireAll(fs)|, Drain(m, q, rest))
    decreases |fs|
  {
    if fs == [] {
      assert [] + rest == rest;
      q := p;
    } else {
      var f, tail := fs[0], WireAll(fs[1..]) + rest;
      WireSplit(fs, rest);
      var q1 := OneFrame(m, p, st, f, tail);
      q := Reassembles(m, q1, AddFrame(st, f).0, fs[1..], rest);
      Chained(Drain(m, p, WireOf(f) + tail), AddFrame(st, f).1, |WireOf(f)|, Drain(m, q1, tail),
              Messages(AddFrame(st, f).0, fs[1..]), |WireAll(fs[1..])|, Drain(m, q, rest));
    }
  }

  lemma WireSplit(fs: seq<Frame>, rest: seq<byte>)
    requires fs != [] && forall f | f in fs :: f.opcode < 16
    ensures WireAll(fs) + rest == WireOf(fs[0]) + (WireAll(fs[1..]) + rest)
    ensures |WireAll(fs)| == |WireOf(fs[0])| + |WireAll(fs[1..])|
  {
    Associate(WireOf(fs[0]), WireAll(fs[1..]), rest);
  }

  lemma Chained(d: Drained, a: seq<Msg>, n: nat, d1: Drained, b: seq<Msg>, k: nat, d2: Drained)
    requires d == Before(a, n, d1) && d1 == Before(b, k, d2)
    ensures d == Before(a + b, n + k, d2)
  {
    BeforeTwice(a, n, b, k, d2);
  }

  /** Between two frames, with nothing left, the parser waits, with the status for invalid input. */
  lemma ReadyWaits(m: Mode, p: Parser, st: Open)
    requires Ready(p, st)
    ensures var d := Drain(m, p, []); d.msgs == [] && d.stat == Invalid && Waiting(d.stat, d.par)
  {
    var q := Begins(m, p, st, []);
    SameDrain(m, p, q, []);
    Skip(m, q, [], q.(len := 0, stage := FinOpcode));
  }

  // -------------------------------------------------------- arbitrary pieces

  /** Draining what has arrived and then the rest is draining everything at once, as long as the parser waits. */
  lemma {:induction false} DrainSplits(m: Mode, p: Parser, a: seq<byte>, b: seq<byte>)
    ensures var d := Drain(m, p, a);
            Drain(m, p, a + b) == if Waiting(d.stat, d.par) then Before(d.msgs, d.used, Drain(m, d.par, a[d.used..] + b)) else d
    decreases |a|, Rank(p.stage)
  {
    var o := Run(m, p, a);
    DrainIs(m, p, a);
    if Waiting(o.stat, o.par) {
      RunResumes(m, p, a, b);
      ResumedDrain(m, p, a, b, o);
    } else {
      RunExtends(m, p, a, b);
      DrainIs(m, p, a + b);
      if o.stat == Complete {
        DrainSplits(m, GetMsg(o.par).1, a[o.used..], b);
        var d := Drain(m, GetMsg(o.par).1, a[o.used..]);
        Tails(a, b, o.used, d.used);
        SplitAfter(m, o, a, b, d, Drain(m, GetMsg(o.par).1, a[o.used..] + b),
                   Drain(m, d.par, a[o.used + d.used..] + b));
      }
    }
  }

  lemma ResumedDrain(m: Mode, p: Parser, a: seq<byte>, b: seq<byte>, o: Outcome)
    requires o.used <= |a| && Later(o.used, Run(m, o.par, a[o.used..] + b)) == Run(m, p, a + b)
    ensures Drain(m, p, a + b) == Before([], o.used, Drain(m, o.par, a[o.used..] + b))
  {
    assert a + b == a[..o.used] + (a[o.used..] + b);
    DrainLater(m, p, a[..o.used], o.par, a[o.used..] + b);
  }

  /** The first message has been taken: `d` and `whole` come from draining the bytes behind it. */
  lemma SplitAfter(m: Mode, o: Outcome, a: seq<byte>, b: seq<byte>, d: Drained, whole: Drained, later: Drained)
    requires o.used <= |a| && o.stat == Complete && d == Drain(m, GetMsg(o.par).1, a[o.used..])
    requires whole == Drain(m, GetMsg(o.par).1, (a + b)[o.used..])
    requires whole == if Waiting(d.stat, d.par) then Before(d.msgs, d.used, later) else d
    ensures var e := DrainOf(m, o, a);
            && DrainOf(m, o, a + b) == (if Waiting(e.stat, e.par) then Before(e.msgs, e.used, later) else e)
            && e.used == o.used + d.used && e.par == d.par
  {
    OneMore(GetMsg(o.par).0, o.used, d, whole, later);
  }

  lemma OneMore(msg: Msg, n: nat, d: Drained, whole: Drained, later: Drained)
    requires whole == if Waiting(d.stat, d.par) then Before(d.msgs, d.used, later) else d
    ensures var d' := Before([msg], n, d);
            Before([msg], n, whole) == if Waiting(d'.stat, d'.par) then Before(d'.msgs, d'.used, later) else d'
  {
    BeforeTwice([msg], n, d.msgs, d.used, later);
  }

  /** The messages taken when the bytes arrive in pieces and the parser is drained after each, by a caller that goes on
      whenever the parser waits, even if its status is the one for invalid input. */
  function Fed(m: Mode, p: Parser, unread: seq<byte>, pieces: seq<seq<byte>>): seq<Msg>
    decreases |pieces|
  {
    if pieces == [] then [] else
    var s := unread + pieces[0];
    var d := Drain(m, p, s);
    d.msgs + Fed(m, d.par, s[d.used..], pieces[1..])
  }

  lemma {:induction false} FedIsDrained(m: Mode, p: Parser, unread: seq<byte>, pieces: seq<seq<byte>>)
    requires var d := Drain(m, p, unread + Joined(pieces)); Waiting(d.stat, d.par)
    requires pieces == [] ==> Drain(m, p, unread).msgs == []
    ensures Fed(m, p, unread, pieces) == Drain(m, p, unread + Joined(pieces)).msgs
    decreases |pieces|
  {
    if pieces == [] {
      assert unread + [] == unread;
    } else {
      var s, rest := unread + pieces[0], Joined(pieces[1..]);
      var d := Drain(m, p, s);
      assert unread + Joined(pieces) == s + rest;
      DrainSplits(m, p, s, rest);
      if pieces[1..] == [] {
        assert s + [] == s && s[d.used..] + [] == s[d.used..];
      }
      FedIsDrained(m, d.par, s[d.used..], pieces[1..]);
    }
  }

  /** Draining all bytes of a valid sequence yields its messages and then waits. */
  lemma WholeWire(m: Mode, p: Parser, st: Open, fs: seq<Frame>)
    requires Ready(p, st) && Valid(m, st, fs) && Fits(p.size, st, fs) && forall f | f in fs :: f.opcode < 16
    ensures var d := Drain(m, p, WireAll(fs)); d.msgs == Messages(st, fs) && Waiting(d.stat, d.par)
  {
    var q := Reassembles(m, p, st, fs, []);
    var st' :| Ready(q, st');
    ReadyWaits(m, q, st');
    assert WireAll(fs) + [] == WireAll(fs);
  }

  /** If the parser waits after all bytes, it has waited after any part of them, and the messages taken until then are the
      first ones. */
  lemma PartDrained(m: Mode, p: Parser, a: seq<byte>, s: seq<byte>)
    requires a <= s && Waiting(Drain(m, p, s).stat, Drain(m, p, s).par)
    ensures Waiting(Drain(m, p, a).stat, Drain(m, p, a).par) && Drain(m, p, a).msgs <= Drain(m, p, s).msgs
  {
    assert a + s[|a|..] == s;
    DrainSplits(m, p, a, s[|a|..]);
  }

  lemma FedIsPart(m: Mode, p: Parser, st: Open, pieces: seq<seq<byte>>, s: seq<byte>)
    requires Ready(p, st) && Joined(pieces) <= s && Waiting(Drain(m, p, s).stat, Drain(m, p, s).par)
    ensures Fed(m, p, [], pieces) == Drain(m, p, Joined(pieces)).msgs <= Drain(m, p, s).msgs
  {
    PartDrained(m, p, Joined(pieces), s);
    assert [] + Joined(pieces) == Joined(pieces);
    if pieces == [] { ReadyWaits(m, p, st); }
    FedIsDrained(m, p, [], pieces);
  }

  /** However the bytes of a valid sequence of frames are split, and however many of them have arrived: the messages taken
      are the first ones of those the frames carry, and all of them once all bytes have arrived. A new parser is one between
      two frames, with a buffer of size BUF_INIT. */
  lemma Streaming(m: Mode, p: Parser, st: Open, fs: seq<Frame>, pieces: seq<seq<byte>>)
    requires Ready(p, st) && Valid(m, st, fs) && Fits(p.size, st, fs)
    requires (forall f | f in fs :: f.opcode < 16) && Joined(pieces) <= WireAll(fs)
    ensures Fed(m, p, [], pieces) <= Messages(st, fs)
    ensures Joined(pieces) == WireAll(fs) ==> Fed(m, p, [], pieces) == Messages(st, fs)
  {
    WholeWire(m, p, st, fs);
    FedIsPart(m, p, st, pieces, WireAll(fs));
  }

  // ------------------------------------------------------------ lack of room

  lemma FirstMessages(st: Open, fs: seq<Frame>, n: nat)
    requires n < |fs|
    ensures Messages(st, fs[..n + 1]) == AddFrame(st, fs[0]).1 + Messages(AddFrame(st, fs[0]).0, fs[1..][..n])
  {
    assert fs[..n + 1][1..] == fs[1..][..n];
  }

  lemma RefusedAt(m: Mode, p: Parser, rest: seq<byte>)
    requires p.stage == FinishData && |p.data| <= p.size
    requires p.size < |p.data| + p.len && (p.size < BUF_MAX ==> 2 * p.size < |p.data| + p.len)
    ensures Run(m, p, rest).stat == if p.size >= BUF_MAX then Error else Overrun
  {}

  /** A data frame without room ends the run: in the maximal buffer with an error, in a smaller one with a write behind the
      end of the doubled buffer. */
  lemma NoRoom(m: Mode, p: Parser, st: Open, f: Frame, rest: seq<byte>)
    requires Ready(p, st) && Allowed(m, st, f) && !HasRoom(p.size, st, f)
    ensures var d := Drain(m, p, WireOf(f) + rest);
            d.msgs == [] && d.stat == if p.size >= BUF_MAX then Error else Overrun
  {
    var b := Begins(m, p, st, WireOf(f) + rest);
    SameDrain(m, p, b, WireOf(f) + rest);
    FrameArrives(m, b, f, rest);
    RefusedAt(m, Arrived(b, f), rest);
  }

  /** What draining yields: the messages of the first `n` frames; and then the parser waits if these are all. */
  predicate Yields(d: Drained, st: Open, fs: seq<Frame>, n: nat)
    requires n <= |fs|
  {
    && d.msgs == Messages(st, fs[..n])
    && (if n == |fs| then Waiting(d.stat, d.par) else d.stat == Error || d.stat == Overrun)
  }

  lemma YieldsMore(d: Drained, k: nat, d1: Drained, size: nat, st: Open, fs: seq<Frame>)
    requires fs != [] && HasRoom(size, st, fs[0]) && d == Before(AddFrame(st, fs[0]).1, k, d1)
    requires Yields(d1, AddFrame(st, fs[0]).0, fs[1..], Fitting(SizeAfter(size, st, fs[0]), AddFrame(st, fs[0]).0, fs[1..]))
    ensures Yields(d, st, fs, Fitting(size, st, fs))
  {
    FirstMessages(st, fs, Fitting(size, st, fs) - 1);
  }

  lemma YieldsNone(d: Drained, size: nat, st: Open, fs: seq<Frame>)
    requires fs == [] || !HasRoom(size, st, fs[0])
    requires d.msgs == [] && if fs == [] then Waiting(d.stat, d.par) else d.stat == Error || d.stat == Overrun
    ensures Yields(d, st, fs, Fitting(size, st, fs))
  {}

  /** A valid sequence of frames whatever its size: the messages are those of the frames before the first one without
      room, and the parser reports an error or overruns its buffer exactly if there is such a frame. */
  lemma {:induction false} Reassembled(m: Mode, p: Parser, st: Open, fs: seq<Frame>)
    requires Ready(p, st) && Valid(m, st, fs) && forall f | f in fs :: f.opcode < 16
    ensures Yields(Drain(m, p, WireAll(fs)), st, fs, Fitting(p.size, st, fs))
    decreases |fs|
  {
    if fs == [] {
      ReadyWaits(m, p, st);
      YieldsNone(Drain(m, p, []), p.size, st, fs);
    } else {
      var f, tail := fs[0], WireAll(fs[1..]);
      if HasRoom(p.size, st, f) {
        var q := OneFrame(m, p, st, f, tail);
        Reassembled(m, q, AddFrame(st, f).0, fs[1..]);
        YieldsMore(Drain(m, p, WireOf(f) + tail), |WireOf(f)|, Drain(m, q, tail), p.size, st, fs);
      } else {
        NoRoom(m, p, st, f, tail);
        YieldsNone(Drain(m, p, WireOf(f) + tail), p.size, st, fs);
      }
    }
  }
}
