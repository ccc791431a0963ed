/**
`vtm_nm_stream_con` and the `vtm_socket_con` inside it, over their buffers and the parser.
*/
module NmConnection {
  import opened Wrappers
  import opened Bytes
  import opened Buffer
  import opened NmProtocol
  import opened NmParser
  import opened NmRoundTrip
  import opened NmStream

  /** The space the receive buffer has before every read. */
  const READ_SPACE: nat := 1024

  /** `p`, `s` and `stat` are what reading makes of a parser `p0` with the bytes `s0`: if it returned a message or refused
      the bytes, they are what one run of the parser gives; otherwise reading can go on from there. */
  ghost predicate Leads(p0: Parser, s0: seq<byte>, p: Parser, s: seq<byte>, stat: Option<Stat>) {
    if stat == Some(Complete) || stat == Some(Invalid) then
      |s| <= |s0| && s == s0[|s0| - |s|..] && Run(p0, s0) == Outcome(p, |s0| - |s|, stat.value)
    else
      Resumes(p0, s0, p, s)
  }

  /** What can be said of a call that asks for more bytes, or fails: the parser has asked for more, or it did not run. */
  ghost predicate Asks(p0: Parser, s0: seq<byte>, got: seq<byte>, p: Parser, s: seq<byte>) {
    Run(p0, s0 + got).stat == Again || (got == [] && p == p0 && s == s0)
  }

  predicate Held(p: Parser, s: seq<byte>) { true }

  /** Between two rounds; the quantifier keeps the runs out of sight until `ProgressAt` asks for them. */
  ghost predicate Progress(p0: Parser, s0: seq<byte>, got: seq<byte>, p: Parser, s: seq<byte>) {
    forall q, t {:trigger Held(q, t)} | Held(q, t) && q == p && t == s ::
      Resumes(p0, s0 + got, q, t) && Asks(p0, s0, got, q, t)
  }

  lemma ProgressAt(p0: Parser, s0: seq<byte>, got: seq<byte>, p: Parser, s: seq<byte>)
    requires Progress(p0, s0, got, p, s)
    ensures Resumes(p0, s0 + got, p, s) && Asks(p0, s0, got, p, s)
  {
    var held := Held(p, s);
  }

  lemma ProgressStarts(p0: Parser, s0: seq<byte>, pending: seq<byte>)
    ensures Progress(p0, s0, pending[..0], p0, s0)
  {
    ResumesItself(p0, s0);
    assert pending[..0] == [] && s0 + [] == s0;
  }

  /** One more piece, and what the parser makes of it. */
  lemma RoundLeads(p0: Parser, s0: seq<byte>, pending: seq<byte>, a: nat, b: nat, p: Parser, s: seq<byte>, o: Outcome)
    requires a <= b <= |pending| && Progress(p0, s0, pending[..a], p, s) && o == Run(p, s + pending[a..b])
    ensures Ends(p0, s0, pending[..b], o.par, (s + pending[a..b])[o.used..], Some(o.stat))
    ensures o.stat == Again ==> Progress(p0, s0, pending[..b], o.par, (s + pending[a..b])[o.used..])
  {
    ProgressAt(p0, s0, pending[..a], p, s);
    PieceLeads(p0, s0 + pending[..a], p, s, pending[a..b], o);
    PiecesJoin(s0, pending, a, b);
  }

  lemma PieceLeads(p0: Parser, got: seq<byte>, p: Parser, s: seq<byte>, piece: seq<byte>, o: Outcome)
    requires Resumes(p0, got, p, s) && o == Run(p, s + piece)
    ensures Leads(p0, got + piece, o.par, (s + piece)[o.used..], Some(o.stat)) && Run(p0, got + piece).stat == o.stat
  {
    assert ResumesWith(p0, got, p, s, piece);
    if o.stat == Again {
      ResumesLater(p0, got, p, s, piece);
    } else {
      Suffix(got, s, piece, o.used);
    }
  }

  lemma PiecesJoin(s: seq<byte>, pending: seq<byte>, a: nat, b: nat)
    requires a <= b <= |pending|
    ensures (s + pending[..a]) + pending[a..b] == s + pending[..b]
  {}

  /** How a call ends. */
  ghost predicate Ends(p0: Parser, s0: seq<byte>, got: seq<byte>, p: Parser, s: seq<byte>, stat: Option<Stat>) {
    && Leads(p0, s0 + got, p, s, stat)
    && (stat == None ==> Asks(p0, s0, got, p, s))
    && (stat == Some(Again) ==> Run(p0, s0 + got).stat == Again || (got == [] && s0 == [] && p == p0 && s == s0))
  }

  lemma StopLeads(p0: Parser, s0: seq<byte>, got: seq<byte>, p: Parser, s: seq<byte>, stat: Option<Stat>)
    requires Progress(p0, s0, got, p, s) && (stat == None || (stat == Some(Again) && s == []))
    ensures Ends(p0, s0, got, p, s, stat)
  {
    ProgressAt(p0, s0, got, p, s);
  }

  /** `r`, `stat` and `msg` are what receiving the bytes `got` makes of the receiver `r0`: what `Feed` gives, if the parser
      returned a message or refused the bytes; otherwise no message, and a receiver that goes on as one that was fed. */
  ghost predicate Received(r0: Receiver, got: seq<byte>, r: Receiver, stat: Option<Stat>, msg: Option<Dataset>) {
    var (r1, stat1, msg1) := Feed(r0, got);
    if stat == Some(Complete) || stat == Some(Invalid) then
      (r, stat.value, msg) == (r1, stat1, msg1)
    else
      && Resumes(r0.par, r0.unread + got, r.par, r.unread) && msg == None
      && (stat == Some(Again) ==> stat1 == Again || (got == [] && r == r0))
  }

  lemma EndsFeed(r0: Receiver, got: seq<byte>, p: Parser, s: seq<byte>, stat: Option<Stat>)
    requires Ends(r0.par, r0.unread, got, p, s, stat)
    ensures stat == Some(Complete) ==> Feed(r0, got) == (Receiver(p.(msg := None, at := MsgBegin), s), Complete, p.msg)
    ensures stat == Some(Complete) ==> p.at == MsgComplete
    ensures stat != Some(Complete) ==> Received(r0, got, Receiver(p, s), stat, None)
  {
    HaltedState(r0.par, r0.unread + got);
  }

  lemma ResumesChain(p0: Parser, s0: seq<byte>, p: Parser, s: seq<byte>, piece: seq<byte>, q: Parser, t: seq<byte>)
    requires Resumes(p0, s0, p, s) && Resumes(p, s + piece, q, t)
    ensures Resumes(p0, s0 + piece, q, t)
  {
    assert t == (s0 + piece)[|s0 + piece| - |t|..];
    forall more ensures ResumesWith(p0, s0 + piece, q, t, more) {
      assert ResumesWith(p0, s0, p, s, piece + more) && ResumesWith(p, s + piece, q, t, more);
      Associate(s0, piece, more);
      Associate(s, piece, more);
      LaterTwice(|s0| - |s|, |s + piece| - |t|, Run(q, t + more));
    }
  }

  /** The channel after a call that received `n` bytes. */
  function Accept(c: Channel, n: nat, r: Receiver, stat: Option<Stat>, msg: Option<Dataset>): Channel {
    c.(taken := c.taken + n, receiver := r, got := if stat == Some(Complete) then c.got + [msg] else c.got,
       refused := c.refused || stat == Some(Invalid))
  }

  lemma AcceptResumed(c: Channel, n: nat, r: Receiver, p: Parser)
    requires Carried(c) && Underway(c, p) && c.taken + n <= |c.sender.wire|
    requires Resumes(c.receiver.par, c.receiver.unread + Piece(c, n), r.par, r.unread)
    ensures Sound(c.(taken := c.taken + n, receiver := r))
  {
    var c' := c.(taken := c.taken + n, receiver := r);
    Slices(c.sender.wire, Begin(c), c.taken, n);
    assert Current(c') == Current(c) + Piece(c, n);
    ResumesChain(p, Current(c), c.receiver.par, c.receiver.unread, Piece(c, n), r.par, r.unread);
    assert Underway(c', p);
  }

  lemma AcceptIs(c: Channel, n: nat, r: Receiver, stat: Stat, msg: Option<Dataset>)
    requires c.taken + n <= |c.sender.wire| && (r, stat, msg) == Feed(c.receiver, Piece(c, n))
    ensures Accept(c, n, r, Some(stat), msg) == Next(c, Receive(n))
  {
    hide Feed;
  }

  /** In place of the event `Receive`, a call with such an outcome keeps the channel sound, so that what `EndToEnd` says of
      sound channels holds with connections at both ends. */
  lemma AcceptSound(c: Channel, n: nat, r: Receiver, stat: Option<Stat>, msg: Option<Dataset>)
    requires Sound(c) && c.taken + n <= |c.sender.wire| && Received(c.receiver, Piece(c, n), r, stat, msg)
    ensures Sound(Accept(c, n, r, stat, msg))
    ensures stat == Some(Complete) || stat == Some(Invalid) ==> Accept(c, n, r, stat, msg) == Next(c, Receive(n))
  {
    hide Feed, Next;
    if stat == Some(Complete) || stat == Some(Invalid) {
      AcceptIs(c, n, r, stat.value, msg);
      ReceiveSound(c, n);
    } else {
      var p :| Underway(c, p);
      AcceptResumed(c, n, r, p);
    }
  }

  function Least(a: nat, b: nat): nat { if a < b then a else b }

  /** What the reads take at least, if there is so much: each finds room for `READ_SPACE` bytes, and the first that delivers
      nothing is the last one. */
  function Offered(sizes: seq<nat>): nat {
    if sizes == [] || sizes[0] == 0 then 0 else Least(sizes[0], READ_SPACE) + Offered(sizes[1..])
  }

  /** The return codes of a write to the socket. */
  datatype SocketRc = AllTaken | WouldBlock | IsClosed | Failed

  function WriteRc(n: nat, io: Io): SocketRc {
    if io.closed then IsClosed else if io.accept >= n then AllTaken else if io.failing then Failed else WouldBlock
  }

  /** The return code of `vtm_nm_stream_con_send`: a socket that would block is not an error. */
  datatype SendRc = Sent | NotEncoded(rc: Rc) | NotWritten(io: SocketRc)

  function SendResult(s: Sender, fs: seq<Field>, io: Io, unset: Rc): SendRc {
    if ReturnCode(fs, unset) != Fine then NotEncoded(ReturnCode(fs, unset)) else
    var rc := WriteRc(|s.unsent| + |Emit(fs).bytes|, io);
    if s.writing || rc == AllTaken || rc == WouldBlock then Sent else NotWritten(rc)
  }

  class Connection {
    const host: Order
    const sendbuf: Buf
    const recvbuf: Buf
    const parser: MsgParser
    var writing: bool
    /** Everything the socket has taken. */
    ghost var wire: seq<byte>

    ghost predicate Valid()
      reads this, sendbuf, recvbuf, parser
    {
      && sendbuf.Valid() && sendbuf.order == BigEndian && sendbuf.len < SIZE && sendbuf.read == 0
      && recvbuf.Valid() && recvbuf.order == BigEndian && recvbuf.len < SIZE
      && sendbuf != recvbuf && sendbuf.data != recvbuf.data
    }

    ghost function Sending(): Sender
      requires Valid()
      reads this, sendbuf, sendbuf.data, recvbuf, parser
    {
      Sender(sendbuf.Unread(), writing, wire)
    }

    constructor (host: Order)
      ensures Valid() && Sending() == IDLE_SENDER && recvbuf.Unread() == [] && parser.View() == START
      ensures fresh(sendbuf) && fresh(recvbuf) && fresh(parser) && fresh(sendbuf.data) && fresh(recvbuf.data)
    {
      this.host := host;
      sendbuf := new Buf(BigEndian);
      recvbuf := new Buf(BigEndian);
      parser := new MsgParser(host);
      writing := false;
      wire := [];
    }

    /** `vtm_socket_con_write_internal`: hands the unsent bytes to the socket and keeps what it did not take. */
    method WriteInternal(io: Io) returns (rc: SocketRc)
      requires Valid()
      modifies this`writing, this`wire, sendbuf`used, sendbuf`read, sendbuf.data
      ensures Valid() && Sending() == WriteStep(old(Sending()), io)
      ensures rc == WriteRc(|old(sendbuf.Unread())|, io)
      ensures rc == AllTaken <==> !io.closed && sendbuf.Unread() == []
    {
      var unsent := sendbuf.used - sendbuf.read;
      var written := Written(unsent, io);
      wire := wire + sendbuf.Unread()[..written];
      sendbuf.read := sendbuf.read + written;
      sendbuf.DiscardProcessed();
      rc := WriteRc(unsent, io);
      if rc == AllTaken {
        writing := false;
      }
    }

    /** `vtm_socket_con_write_start`: starts writing, unless a write is under way. */
    method WriteStart(io: Io) returns (rc: SocketRc)
      requires Valid()
      modifies this`writing, this`wire, sendbuf`used, sendbuf`read, sendbuf.data
      ensures Valid()
      ensures Sending() == if old(writing) then old(Sending()) else WriteStep(old(Sending()).(writing := true), io)
      ensures rc == if old(writing) then AllTaken else WriteRc(|old(sendbuf.Unread())|, io)
    {
      if writing {
        return AllTaken;
      }
      writing := true;
      rc := WriteInternal(io);
    }

    /** `vtm_nm_stream_con_send`. */
    method Send(fs: seq<Field>, io: Io, unset: Rc) returns (result: SendRc)
      requires Valid() && forall f | f in fs :: IsField(f)
      modifies this`writing, this`wire, sendbuf, sendbuf.data
      ensures Valid() && (old(sendbuf.err) != Ok ==> sendbuf.err != Ok)
      ensures sendbuf.err == Ok ==> result == SendResult(old(Sending()), fs, io, unset)
      ensures sendbuf.err == Ok && (fs != [] || unset == Fine) ==> Sending() == SendStep(old(Sending()), fs, io)
      ensures sendbuf.err == Ok && fs == [] && unset != Fine ==>
                Sending() == old(Sending()).(unsent := old(sendbuf.Unread()) + Emit(fs).bytes)
      ensures sendbuf.err != Ok ==> result.NotEncoded? && wire == old(wire)
      ensures old(sendbuf.err) == Ok && |old(sendbuf.Unread())| + |Emit(fs).bytes| <= QUARTER ==> sendbuf.err == Ok
    {
      hide Capacity;
      var rc := MsgToBuf(fs, sendbuf, host, unset);
      if rc != Fine {
        return NotEncoded(rc);
      }
      var io := WriteStart(io);
      result := if io == AllTaken || io == WouldBlock then Sent else NotWritten(io);
    }

    /** One round: at most `size` of the `pending` bytes behind the first `at` are read, as many as fit, and the parser
        runs. */
    method Attempt(pending: seq<byte>, at: nat, size: nat) returns (stat: Stat, end: nat)
      requires Valid() && recvbuf.err == Ok && recvbuf.used + READ_SPACE <= recvbuf.len && at <= |pending| < SIZE
      modifies recvbuf, recvbuf.data, parser
      ensures Valid() && recvbuf.err == Ok && (recvbuf.data == old(recvbuf.data) || fresh(recvbuf.data))
      ensures recvbuf.used == old(recvbuf.used) + end - at
      ensures at <= end <= |pending| && (end == at <==> size == 0 || at == |pending|)
      ensures end == |pending| || end >= at + Least(size, READ_SPACE)
      ensures var s := old(recvbuf.Unread()) + pending[at..end]; var o := Run(old(parser.View()), s);
              stat == o.stat && parser.View() == o.par && recvbuf.Unread() == s[o.used..]
    {
      hide Run, Capacity;
      var n := recvbuf.len - recvbuf.used;
      n := if size < n then size else n;
      end := if |pending| - at < n then |pending| else at + n;
      var _ := recvbuf.PutM(pending[at..end]);
      assert recvbuf.Unread() == old(recvbuf.Unread()) + pending[at..end];
      stat := parser.RunOn(recvbuf);
    }

    /** One round of the loop below. The socket would block if `blocks`, or fails if it is also `broken`. */
    method Round(pending: seq<byte>, at: nat, size: nat, blocks: bool, broken: bool, ghost p0: Parser, ghost s0: seq<byte>)
      returns (stop: bool, stat: Option<Stat>, end: nat)
      requires Valid() && at <= |pending| < SIZE && (blocks || (size > 0 && at < |pending|))
      requires Progress(p0, s0, pending[..at], parser.View(), recvbuf.Unread())
      modifies recvbuf, recvbuf.data, parser
      ensures Valid() && (recvbuf.data == old(recvbuf.data) || fresh(recvbuf.data))
      ensures at <= end <= |pending| && (end == at <==> blocks || recvbuf.err != Ok)
      ensures blocks || recvbuf.err != Ok || end == |pending| || end >= at + Least(size, READ_SPACE)
      ensures recvbuf.used == old(recvbuf.used) + end - at
      ensures recvbuf.err == if old(recvbuf.err) == Ok && !old(recvbuf.Fits(READ_SPACE)) then Overflow else old(recvbuf.err)
      ensures stop <==> blocks || recvbuf.err != Ok || stat != Some(Again)
      ensures stat == None <==> recvbuf.err != Ok || (blocks && broken)
      ensures if stop then Ends(p0, s0, pending[..end], parser.View(), recvbuf.Unread(), stat)
              else Progress(p0, s0, pending[..end], parser.View(), recvbuf.Unread())
    {
      ghost var p, s := parser.View(), recvbuf.Unread();
      var rc := recvbuf.Ensure(READ_SPACE);
      end := at;
      if rc != Ok || (blocks && (broken || recvbuf.used == recvbuf.read)) {
        StopLeads(p0, s0, pending[..at], p, s, if rc != Ok || broken then None else Some(Again));
        return true, if rc != Ok || broken then None else Some(Again), at;
      }
      var r;
      r, end := Attempt(pending, at, if blocks then 0 else size);
      RoundLeads(p0, s0, pending, at, end, p, s, Run(p, s + pending[at..end]));
      stop, stat := blocks || r != Again, Some(r);
    }

    /** `vtm_nm_stream_con_read`. The socket has `pending` bytes; its k-th read delivers at most `sizes[k]` of them, and at
        most as many as fit; afterwards, or at a size of zero, it would block, or fails if `broken`. However the bytes are
        split, the outcome is that of one run of the parser on all of them; `None` stands for VTM_NET_RECV_STAT_ERROR,
        which means a broken socket or a buffer that is too large. Before more bytes are asked for, all that the reads offer
        are taken. */
    method Read(pending: seq<byte>, sizes: seq<nat>, broken: bool) returns (stat: Option<Stat>, taken: nat)
      requires Valid() && |pending| < SIZE
      modifies recvbuf, recvbuf.data, parser
      ensures Valid() && taken <= |pending| && (recvbuf.data == old(recvbuf.data) || fresh(recvbuf.data))
      ensures Ends(old(parser.View()), old(recvbuf.Unread()), pending[..taken], parser.View(), recvbuf.Unread(), stat)
      ensures stat == Some(Again) ==> !broken && taken >= Least(|pending|, Offered(sizes))
      ensures stat == None ==> broken || recvbuf.err != Ok
      ensures old(recvbuf.err) == Ok && old(recvbuf.used) + |pending| + READ_SPACE <= QUARTER ==> recvbuf.err == Ok
    {
      ghost var p0, s0 := parser.View(), recvbuf.Unread();
      taken := 0;
      var i := 0;
      ProgressStarts(p0, s0, pending);
      while true
        invariant Valid() && i <= taken <= |pending| && 0 <= i <= |sizes|
        invariant recvbuf.data == old(recvbuf.data) || fresh(recvbuf.data)
        invariant Progress(p0, s0, pending[..taken], parser.View(), recvbuf.Unread())
        invariant recvbuf.err == old(recvbuf.err) && recvbuf.used == old(recvbuf.used) + taken
        invariant taken == |pending| || taken + Offered(sizes[i..]) >= Offered(sizes)
        decreases |sizes| - i
      {
        var blocks := i == |sizes| || sizes[i] == 0 || taken == |pending|;
        assert i < |sizes| ==> sizes[i..][0] == sizes[i] && sizes[i..][1..] == sizes[i + 1..];
        var stop;
        stop, stat, taken := Round(pending, taken, if blocks then 0 else sizes[i], blocks, broken, p0, s0);
        if stop {
          return;
        }
        i := i + 1;
      }
    }

    /** `vtm_nm_stream_con_get_msg`. */
    method GetMsg() returns (msg: Option<Dataset>)
      requires Valid()
      modifies parser, recvbuf`used, recvbuf`read, recvbuf.data
      ensures Valid() && recvbuf.Unread() == old(recvbuf.Unread()) && recvbuf.read == 0
      ensures old(parser.at) == MsgComplete ==>
                msg == old(parser.msg) && parser.View() == old(parser.View()).(msg := None, at := MsgBegin)
      ensures old(parser.at) != MsgComplete ==> msg == None && parser.View() == old(parser.View())
    {
      msg := parser.GetMsg();
      recvbuf.DiscardProcessed();
    }

    ghost function Receiving(): Receiver
      requires Valid()
      reads this, sendbuf, recvbuf, recvbuf.data, parser
    {
      Receiver(parser.View(), recvbuf.Unread())
    }

    /** The calls of `vtm_nm_stream_con_read` and, for a complete message, `vtm_nm_stream_con_get_msg`. */
    method Receive(pending: seq<byte>, sizes: seq<nat>, broken: bool)
      returns (stat: Option<Stat>, taken: nat, msg: Option<Dataset>)
      requires Valid() && |pending| < SIZE
      modifies recvbuf, recvbuf.data, parser
      ensures Valid() && taken <= |pending| && (recvbuf.data == old(recvbuf.data) || fresh(recvbuf.data))
      ensures Received(old(Receiving()), pending[..taken], Receiving(), stat, msg)
    {
      ghost var r0 := Receiving();
      stat, taken := Read(pending, sizes, broken);
      EndsFeed(r0, pending[..taken], parser.View(), recvbuf.Unread(), stat);
      msg := None;
      if stat == Some(Complete) {
        msg := GetMsg();
      }
    }
  }
}
