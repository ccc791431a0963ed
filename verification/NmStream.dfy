/**
NM messages over a stream socket: a sender that survives partial writes, a receiver that is fed in arbitrary pieces, and
the end-to-end property of the two.
*/
module NmStream {
  import opened Wrappers
  import opened Bytes
  import opened Buffer
  import opened NmProtocol
  import opened NmParser
  import opened NmRoundTrip

  // ------------------------------------------------------------------ sender

  /** How the socket answers a write: it is closed, or it takes `accept` bytes before it would block or, if `failing`,
      fails. */
  datatype Io = Io(closed: bool, accept: nat, failing: bool)

  /** The send buffer, the flag that a write is under way, and, as history, what the socket has taken. */
  datatype Sender = Sender(unsent: seq<byte>, writing: bool, wire: seq<byte>)

  datatype Op = Send(fields: seq<Field>, io: Io) | Write(io: Io)

  const IDLE_SENDER: Sender := Sender([], false, [])

  function Written(n: nat, io: Io): (r: nat)
    ensures r <= n
  {
    if io.closed then 0 else if io.accept < n then io.accept else n
  }

  /** `vtm_socket_con_write_internal`. */
  function WriteStep(s: Sender, io: Io): Sender {
    var n := Written(|s.unsent|, io);
    Sender(s.unsent[n..], s.writing && (io.closed || n < |s.unsent|), s.wire + s.unsent[..n])
  }

  /** `vtm_nm_stream_con_send`. */
  function SendStep(s: Sender, fs: seq<Field>, io: Io): Sender {
    var t := s.(unsent := s.unsent + Emit(fs).bytes);
    if Emit(fs).rc != Fine || s.writing then t else WriteStep(t.(writing := true), io)
  }

  function Perform(s: Sender, op: Op): Sender {
    match op
    case Send(fs, io) => SendStep(s, fs, io)
    case Write(io) => WriteStep(s, io)
  }

  function Performs(ops: seq<Op>): Sender {
    if ops == [] then IDLE_SENDER else Perform(Performs(ops[..|ops| - 1]), ops[|ops| - 1])
  }

  /** All bytes that were appended to the send buffer. */
  function Appended(ops: seq<Op>): seq<byte> {
    if ops == [] then [] else
    var op := ops[|ops| - 1];
    Appended(ops[..|ops| - 1]) + if op.Send? then Emit(op.fields).bytes else []
  }

  lemma WriteConserves(s: Sender, io: Io)
    ensures WriteStep(s, io).wire + WriteStep(s, io).unsent == s.wire + s.unsent
  {
    var n := Written(|s.unsent|, io);
    assert s.unsent == s.unsent[..n] + s.unsent[n..];
  }

  lemma SendConserves(s: Sender, fs: seq<Field>, io: Io) returns (x: seq<byte>)
    ensures SendStep(s, fs, io).wire == s.wire + x
    ensures SendStep(s, fs, io).wire + SendStep(s, fs, io).unsent == s.wire + s.unsent + Emit(fs).bytes
  {
    var t := s.(unsent := s.unsent + Emit(fs).bytes, writing := true);
    WriteConserves(t, io);
    Associate(s.wire, s.unsent, Emit(fs).bytes);
    x := if Emit(fs).rc != Fine || s.writing then [] else t.unsent[..Written(|t.unsent|, io)];
  }

  /** No byte is lost, duplicated or reordered: at every point, the bytes written and the unsent ones are, in this order,
      all bytes appended, even if some messages could not be encoded. */
  lemma {:induction false} Conservation(ops: seq<Op>)
    ensures Performs(ops).wire + Performs(ops).unsent == Appended(ops)
    decreases |ops|
  {
    if ops != [] {
      var s, op := Performs(ops[..|ops| - 1]), ops[|ops| - 1];
      Conservation(ops[..|ops| - 1]);
      match op
      case Write(io) => WriteConserves(s, io);
      case Send(fs, io) => var _ := SendConserves(s, fs, io);
    }
  }

  /** Outside the write lock: without a write under way nothing is unsent. */
  predicate Idle(s: Sender) { s.writing || s.unsent == [] }

  /** Sending keeps this if and only if the message could be encoded or a write was under way anyway. */
  lemma SendKeepsIdle(s: Sender, fs: seq<Field>, io: Io)
    requires Idle(s)
    ensures Idle(SendStep(s, fs, io)) <==> Emit(fs).rc == Fine || s.writing
  {
    assert |Emit(fs).bytes| >= 2;
  }

  lemma WriteKeepsIdle(s: Sender, io: Io)
    requires Idle(s)
    ensures Idle(WriteStep(s, io))
  {}

  /** The k-th operation does not leave bytes behind. */
  predicate Clean(ops: seq<Op>, k: nat)
    requires k < |ops|
  {
    ops[k].Send? ==> Emit(ops[k].fields).rc == Fine || Performs(ops[..k]).writing
  }

  lemma IdleStep(ops: seq<Op>, k: nat)
    requires k < |ops| && Idle(Performs(ops[..k]))
    ensures Idle(Performs(ops[..k + 1])) <==> Clean(ops, k)
  {
    assert ops[..k + 1][..k] == ops[..k];
    match ops[k]
    case Write(io) => WriteKeepsIdle(Performs(ops[..k]), io);
    case Send(fs, io) => SendKeepsIdle(Performs(ops[..k]), fs, io);
  }

  lemma {:induction false} CleanIdle(ops: seq<Op>, k: nat)
    requires k <= |ops| && forall i | 0 <= i < |ops| :: Clean(ops, i)
    ensures Idle(Performs(ops[..k]))
  {
    if k > 0 {
      CleanIdle(ops, k - 1);
      IdleStep(ops, k - 1);
    }
  }

  /** It holds throughout a run if and only if every message that could not be encoded came while a write was under way. */
  lemma AlwaysIdle(ops: seq<Op>)
    ensures (forall k | 0 <= k <= |ops| :: Idle(Performs(ops[..k]))) <==> (forall k | 0 <= k < |ops| :: Clean(ops, k))
  {
    if forall k | 0 <= k < |ops| :: Clean(ops, k) {
      forall k | 0 <= k <= |ops| ensures Idle(Performs(ops[..k])) { CleanIdle(ops, k); }
    }
    if forall k | 0 <= k <= |ops| :: Idle(Performs(ops[..k])) {
      forall k | 0 <= k < |ops| ensures Clean(ops, k) { IdleStep(ops, k); }
    }
  }

  const NAME: cstring := [97]

  const UNPACKABLE: seq<Field> := [Field(NAME, NotANumber(Float))]

  /** What a failed send leaves behind is not harmless: after it, a good message arrives as one that was never sent. */
  lemma Garbled(fs: seq<Field>, io: Io)
    requires Emit(fs).rc == Fine && !io.closed && io.accept >= 7 + |Emit(fs).bytes|
    ensures var s := Performs([Send(UNPACKABLE, io), Send(fs, io)]);
            var o := Run(START, s.wire);
            o.stat == Complete && o.par.msg == Stored(None, NAME, Scalar(Float, Number(Emit(fs).bytes[..4])))
  {
    var bad, good := Emit(UNPACKABLE).bytes, Emit(fs).bytes;
    var ops := [Send(UNPACKABLE, io), Send(fs, io)];
    assert ops[..1] == [Send(UNPACKABLE, io)] && ops[..1][..0] == [];
    assert Performs(ops[..1]) == Sender(bad, false, []);
    BadBytes();
    var t := Sender(bad + good, true, []);
    assert Performs(ops) == Perform(Performs(ops[..1]), ops[1]) == WriteStep(t, io);
    assert t.unsent[..|t.unsent|] == t.unsent;
    GarbledRun(good);
  }

  lemma BadField()
    ensures EmitField(UNPACKABLE[0]).bytes == [1] + [97] + [13]
  {}

  lemma BadBytes()
    ensures Emit(UNPACKABLE).bytes == PREFIX + Word(1, 2) + [1] + [97] + [13]
  {
    hide EmitField, Word;
    BadField();
    assert UNPACKABLE[..0] == [];
    assert EmitFields(UNPACKABLE) == EmitField(UNPACKABLE[0]);
  }

  /** The parser takes the first bytes of the good message for the missing value. */
  lemma GarbledValue(p: Parser, good: seq<byte>)
    requires |good| >= 4 && p.at == ValueType && p.count == 1 && p.parsed == 0 && p.msg == None
    ensures var o := Run(p, [13] + good);
            o.stat == Complete && o.par.msg == Stored(None, p.name, Scalar(Float, Number(good[..4])))
  {
    var v, rest := Scalar(Float, Number(good[..4])), good[4..];
    EatType(p, Float, good);
    var p3 := p.(typ := Float, valueLen := 4, at := ValueBody);
    assert good == good[..4] + rest;
    EatBody(p3, good[..4], v, rest);
    LastField(p3.(value := v, at := FieldComplete), rest);
  }

  lemma LastField(p: Parser, rest: seq<byte>)
    requires p.at == FieldComplete && p.count == 1 && p.parsed == 0 && p.msg == None
    ensures var o := Run(p, rest); o.stat == Complete && o.par.msg == Stored(None, p.name, p.value)
  {
    var p1 := p.(msg := Stored(None, p.name, p.value), parsed := 1, at := FieldBegin);
    Skip(p, rest, p1);
    Skip(p1, rest, p1.(at := MsgComplete));
  }

  lemma BadFollowed(good: seq<byte>)
    ensures Emit(UNPACKABLE).bytes + good == PREFIX + Word(1, 2) + ([1] + (NAME + ([13] + good)))
  {
    BadBytes();
    var head := PREFIX + Word(1, 2);
    assert (head + [1] + [97] + [13]) + good == head + ([1] + ([97] + ([13] + good)));
  }

  lemma NamedRun(p: Parser, tail: seq<byte>)
    requires p.at == FieldBegin && p.count == 1 && p.parsed == 0
    ensures Run(p, [1] + (NAME + tail)) == Later(2, Run(p.(nameLen := 1, name := NAME, at := ValueType), tail))
  {
    Skip(p, [1] + (NAME + tail), p.(at := NameLen));
    NameParses(p.(at := NameLen), NAME, tail);
  }

  lemma GarbledRun(good: seq<byte>)
    requires |good| >= 4
    ensures var o := Run(START, Emit(UNPACKABLE).bytes + good);
            o.stat == Complete && o.par.msg == Stored(None, NAME, Scalar(Float, Number(good[..4])))
  {
    var tail := [13] + good;
    var p := START.(at := FieldBegin, count := 1, parsed := 0);
    BadFollowed(good);
    HeadParses(START, 1, [1] + (NAME + tail));
    NamedRun(p, tail);
    GarbledValue(p.(nameLen := 1, name := NAME, at := ValueType), good);
  }

  // ---------------------------------------------------------------- receiver

  /** Reading on from `p` with `s` unread is reading from `p0` with `s0`, whatever bytes come later. */
  ghost predicate Resumes(p0: Parser, s0: seq<byte>, p: Parser, s: seq<byte>) {
    && |s| <= |s0| && s == s0[|s0| - |s|..]
    && forall more :: ResumesWith(p0, s0, p, s, more)
  }

  predicate ResumesWith(p0: Parser, s0: seq<byte>, p: Parser, s: seq<byte>, more: seq<byte>)
    requires |s| <= |s0|
  {
    Run(p0, s0 + more) == Later(|s0| - |s|, Run(p, s + more))
  }

  lemma ResumesItself(p: Parser, s: seq<byte>)
    ensures Resumes(p, s, p, s)
  {}

  lemma ResumesMore(p0: Parser, s0: seq<byte>, p: Parser, s: seq<byte>, piece: seq<byte>, more: seq<byte>)
    requires |s| <= |s0| && ResumesWith(p0, s0, p, s, piece + more) && Run(p, s + piece).stat == Again
    ensures var o := Run(p, s + piece); ResumesWith(p0, s0 + piece, o.par, (s + piece)[o.used..], more)
  {
    var o := Run(p, s + piece);
    Associate(s0, piece, more);
    Associate(s, piece, more);
    RunResumes(p, s + piece, more);
    LaterTwice(|s0| - |s|, o.used, Run(o.par, (s + piece)[o.used..] + more));
  }

  lemma Suffix(s0: seq<byte>, s: seq<byte>, piece: seq<byte>, used: nat)
    requires |s| <= |s0| && s == s0[|s0| - |s|..] && used <= |s + piece|
    ensures (s + piece)[used..] == (s0 + piece)[|s0| - |s| + used..]
  {}

  /** A piece more, and a run that asked for still more. */
  lemma ResumesLater(p0: Parser, s0: seq<byte>, p: Parser, s: seq<byte>, piece: seq<byte>)
    requires Resumes(p0, s0, p, s) && Run(p, s + piece).stat == Again
    ensures var o := Run(p, s + piece); Resumes(p0, s0 + piece, o.par, (s + piece)[o.used..])
  {
    var o := Run(p, s + piece);
    Suffix(s0, s, piece, o.used);
    forall more ensures ResumesWith(p0, s0 + piece, o.par, (s + piece)[o.used..], more) {
      ResumesMore(p0, s0, p, s, piece, more);
    }
  }

  /** What the receiver holds between two calls: the parser and the unread bytes. */
  datatype Receiver = Receiver(par: Parser, unread: seq<byte>)

  /** A piece arrives and the parser runs; a complete message is handed out and its bytes are discarded. */
  function Feed(r: Receiver, piece: seq<byte>): (Receiver, Stat, Option<Dataset>) {
    var o := Run(r.par, r.unread + piece);
    var unread := (r.unread + piece)[o.used..];
    if o.stat == Complete then (Receiver(o.par.(msg := None, at := MsgBegin), unread), Complete, o.par.msg)
    else (Receiver(o.par, unread), o.stat, None)
  }

  // -------------------------------------------------------------- end to end

  /** A message that can be sent: a dataset and its entry set. */
  datatype Message = Message(fields: seq<Field>, content: Dataset)

  predicate Sendable(m: Message) {
    && m.fields != [] && |m.fields| <= MAX_FIELDS && Lists(m.fields, m.content) && [] !in m.content
    && forall f | f in m.fields :: Writable(f)
  }

  lemma SendableParses(p: Parser, m: Message, rest: seq<byte>)
    requires Sendable(m) && Between(p)
    ensures Emit(m.fields).rc == Fine
    ensures var o := Run(p, Emit(m.fields).bytes + rest);
            o.stat == Complete && o.used == |Emit(m.fields).bytes| && o.par.msg == Some(m.content)
  {
    EmitSucceeds(m.fields);
    RoundTrip(p, m.fields, m.content, rest);
  }

  function Stream(ms: seq<Message>): seq<byte> {
    if ms == [] then [] else Emit(ms[0].fields).bytes + Stream(ms[1..])
  }

  lemma {:induction false} StreamAppend(ms: seq<Message>, m: Message)
    ensures Stream(ms + [m]) == Stream(ms) + Emit(m.fields).bytes
  {
    if ms != [] {
      assert (ms + [m])[1..] == ms[1..] + [m];
      StreamAppend(ms[1..], m);
    } else {
      assert [m][1..] == [];
    }
  }

  lemma {:induction false} StreamSplit(ms: seq<Message>, k: nat)
    requires k <= |ms|
    ensures Stream(ms) == Stream(ms[..k]) + Stream(ms[k..])
  {
    if k > 0 {
      assert ms[..k][1..] == ms[1..][..k - 1] && ms[1..][k - 1..] == ms[k..];
      StreamSplit(ms[1..], k - 1);
    } else {
      assert ms[0..] == ms;
    }
  }

  /** A sender, a receiver and the bytes between them: `taken` of the bytes on the wire have been read. */
  datatype Channel = Channel(sender: Sender, taken: nat, receiver: Receiver, sent: seq<Message>, got: seq<Option<Dataset>>,
                             refused: bool)

  datatype Event = SendMessage(message: Message, io: Io) | Flush(io: Io) | Receive(n: nat)

  const OPEN: Channel := Channel(IDLE_SENDER, 0, Receiver(START, []), [], [], false)

  /** One event; `Receive` reads any number of the bytes that are on the wire. */
  function Next(c: Channel, e: Event): Channel {
    match e
    case SendMessage(m, io) => c.(sender := SendStep(c.sender, m.fields, io), sent := c.sent + [m])
    case Flush(io) => c.(sender := WriteStep(c.sender, io))
    case Receive(n) =>
      if c.taken + n > |c.sender.wire| then c else
      var (r, stat, msg) := Feed(c.receiver, c.sender.wire[c.taken..c.taken + n]);
      c.(taken := c.taken + n, receiver := r, got := if stat == Complete then c.got + [msg] else c.got,
         refused := c.refused || stat == Invalid)
  }

  function Play(es: seq<Event>): Channel {
    if es == [] then OPEN else Next(Play(es[..|es| - 1]), es[|es| - 1])
  }

  function Contents(ms: seq<Message>): (r: seq<Option<Dataset>>)
    ensures |r| == |ms| && forall i | 0 <= i < |ms| :: r[i] == Some(ms[i].content)
  {
    seq(|ms|, i requires 0 <= i < |ms| => Some(ms[i].content))
  }

  /** Where on the wire the message begins that comes after those handed out. */
  function Begin(c: Channel): nat
    requires |c.got| <= |c.sent|
  {
    |Stream(c.sent[..|c.got|])|
  }

  /** The bytes of that message that have been read. */
  function Current(c: Channel): seq<byte>
    requires Handed(c)
  {
    c.sender.wire[Begin(c)..c.taken]
  }

  /** The messages handed out are the first ones sent. */
  predicate Handed(c: Channel) {
    && |c.got| <= |c.sent| && c.got == Contents(c.sent[..|c.got|]) && !c.refused
    && Begin(c) <= c.taken <= |c.sender.wire|
  }

  /** Everything sent is on the wire or unsent. */
  ghost predicate Carried(c: Channel) {
    && (forall m | m in c.sent :: Sendable(m))
    && c.sender.wire + c.sender.unsent == Stream(c.sent)
  }

  /** The receiver is where reading the current message leads. */
  ghost predicate Underway(c: Channel, p: Parser) {
    Handed(c) && Between(p) && Resumes(p, Current(c), c.receiver.par, c.receiver.unread)
  }

  ghost predicate Sound(c: Channel) {
    Carried(c) && Handed(c) && exists p :: Underway(c, p)
  }

  /** Writing and sending only extend the wire. */
  lemma WireGrows(c: Channel, c': Channel, x: seq<byte>)
    requires Sound(c) && c' == c.(sender := c'.sender, sent := c'.sent)
    requires c'.sender.wire == c.sender.wire + x && Carried(c') && c.sent <= c'.sent
    ensures Sound(c')
  {
    var p :| Underway(c, p);
    assert c'.sent[..|c.got|] == c.sent[..|c.got|];
    assert Current(c') == Current(c);
    assert Underway(c', p);
  }

  lemma SendSound(c: Channel, m: Message, io: Io)
    requires Sound(c) && Sendable(m)
    ensures Sound(Next(c, SendMessage(m, io)))
  {
    StreamAppend(c.sent, m);
    var x := SendConserves(c.sender, m.fields, io);
    WireGrows(c, Next(c, SendMessage(m, io)), x);
  }

  lemma FlushSound(c: Channel, io: Io)
    requires Sound(c)
    ensures Sound(Next(c, Flush(io)))
  {
    WriteConserves(c.sender, io);
    WireGrows(c, Next(c, Flush(io)), c.sender.unsent[..Written(|c.sender.unsent|, io)]);
  }

  /** The outcome of parsing the bytes of `m`. */
  predicate Accepted(o: Outcome, m: Message) {
    o.stat == Complete && o.used == |Emit(m.fields).bytes| && o.par.msg == Some(m.content)
  }

  /** The bytes after the messages handed out belong to the next message, which the parser will accept. */
  lemma NextMessage(p: Parser, q: seq<byte>, x: seq<byte>, ms: seq<Message>)
    requires Between(p) && q + x == Stream(ms) && forall m | m in ms :: Sendable(m)
    ensures Run(p, q).stat != Again ==> ms != [] && Accepted(Run(p, q), ms[0])
    ensures ms != [] && x == [] ==> Run(p, q).stat == Complete
  {
    if ms == [] {
      assert q == [];
      Skip(p, q, p.(at := Magic));
    } else {
      SendableParses(p, ms[0], Stream(ms[1..]));
      if Run(p, q).stat != Again { RunExtends(p, q, x); }
      if x == [] { assert q == q + x; }
    }
  }

  /** What the sender still has to deliver behind position `b` of the wire. */
  lemma Pending(c: Channel, b: nat) returns (x: seq<byte>)
    requires Carried(c) && Handed(c) && c.taken <= b <= |c.sender.wire|
    ensures c.sender.wire[Begin(c)..b] + x == Stream(c.sent[|c.got|..])
    ensures b == |Stream(c.sent)| ==> x == []
  {
    var w, u, a := c.sender.wire, c.sender.unsent, Begin(c);
    StreamSplit(c.sent, |c.got|);
    x := w[b..] + u;
    Behind(w, u, b, Stream(c.sent[..|c.got|]), Stream(c.sent[|c.got|..]));
  }

  lemma Behind(w: seq<byte>, u: seq<byte>, b: nat, front: seq<byte>, back: seq<byte>)
    requires w + u == front + back && |front| <= b <= |w|
    ensures w[|front|..b] + (w[b..] + u) == back
    ensures b == |front| + |back| ==> w[b..] + u == []
  {
    assert (w + u)[|front|..] == back;
  }

  /** The piece that is read, and what the parser makes of it. */
  function Piece(c: Channel, n: nat): seq<byte>
    requires c.taken + n <= |c.sender.wire|
  {
    c.sender.wire[c.taken..c.taken + n]
  }

  function Parsed(c: Channel, n: nat): Outcome
    requires c.taken + n <= |c.sender.wire|
  {
    Run(c.receiver.par, c.receiver.unread + Piece(c, n))
  }

  lemma AgainReceives(c: Channel, n: nat, o: Outcome)
    requires c.taken + n <= |c.sender.wire| && o == Parsed(c, n) && o.stat == Again
    ensures Next(c, Receive(n))
            == c.(taken := c.taken + n, receiver := Receiver(o.par, (c.receiver.unread + Piece(c, n))[o.used..]))
  {}

  lemma Slices(w: seq<byte>, a: nat, b: nat, n: nat)
    requires a <= b && b + n <= |w|
    ensures w[a..b + n] == w[a..b] + w[b..b + n]
  {}

  lemma AgainIs(c: Channel, n: nat)
    requires Handed(c) && c.taken + n <= |c.sender.wire| && Parsed(c, n).stat == Again
    ensures var c', o := Next(c, Receive(n)), Parsed(c, n);
            && Handed(c') && Current(c') == Current(c) + Piece(c, n)
            && c'.receiver == Receiver(o.par, (c.receiver.unread + Piece(c, n))[o.used..])
  {
    AgainReceives(c, n, Parsed(c, n));
    Slices(c.sender.wire, Begin(c), c.taken, n);
  }

  lemma ReceiveAgain(c: Channel, n: nat, p: Parser)
    requires Handed(c) && Underway(c, p) && c.taken + n <= |c.sender.wire| && Parsed(c, n).stat == Again
    ensures Underway(Next(c, Receive(n)), p)
  {
    ResumesLater(p, Current(c), c.receiver.par, c.receiver.unread, Piece(c, n));
    AgainIs(c, n);
  }

  lemma {:induction false} ContentsAppend(ms: seq<Message>, k: nat)
    requires k < |ms|
    ensures Contents(ms[..k + 1]) == Contents(ms[..k]) + [Some(ms[k].content)]
  {
    assert ms[..k + 1] == ms[..k] + [ms[k]];
  }

  /** The parser has accepted the next message. */
  lemma HandsOut(c: Channel, c': Channel)
    requires Handed(c) && |c.got| < |c.sent|
    requires c'.sent == c.sent && c'.got == c.got + [Some(c.sent[|c.got|].content)] && c'.refused == c.refused
    requires Begin(c) + |Emit(c.sent[|c.got|].fields).bytes| <= c'.taken <= |c'.sender.wire|
    ensures Handed(c') && Begin(c') == Begin(c) + |Emit(c.sent[|c.got|].fields).bytes|
  {
    ContentsAppend(c.sent, |c.got|);
    StreamAppend(c.sent[..|c.got|], c.sent[|c.got|]);
    assert c.sent[..|c.got| + 1] == c.sent[..|c.got|] + [c.sent[|c.got|]];
  }

  lemma LeftOver(c: Channel, n: nat, p: Parser)
    requires Underway(c, p) && c.taken + n <= |c.sender.wire|
    ensures c.receiver.unread + Piece(c, n) == c.sender.wire[c.taken - |c.receiver.unread|..c.taken + n]
  {}

  /** A run that does not ask for more has accepted the next message. */
  lemma Accepts(c: Channel, n: nat, p: Parser)
    requires Carried(c) && Underway(c, p) && c.taken + n <= |c.sender.wire| && Parsed(c, n).stat != Again
    ensures |c.got| < |c.sent|
    ensures Accepted(Later(|Current(c)| - |c.receiver.unread|, Parsed(c, n)), c.sent[|c.got|])
  {
    hide Run, Stream;
    var q := c.sender.wire[Begin(c)..c.taken + n];
    assert Current(c) + Piece(c, n) == q;
    assert ResumesWith(p, Current(c), c.receiver.par, c.receiver.unread, Piece(c, n));
    var x := Pending(c, c.taken + n);
    NextMessage(p, q, x, c.sent[|c.got|..]);
    assert c.sent[|c.got|..][0] == c.sent[|c.got|];
  }

  lemma CompleteReceives(c: Channel, n: nat, o: Outcome)
    requires c.taken + n <= |c.sender.wire| && o == Parsed(c, n) && o.stat == Complete
    ensures Next(c, Receive(n))
            == c.(taken := c.taken + n, got := c.got + [o.par.msg],
                  receiver := Receiver(o.par.(msg := None, at := MsgBegin), (c.receiver.unread + Piece(c, n))[o.used..]))
  {}

  lemma TailOf(w: seq<byte>, a: nat, b: nat, n: nat)
    requires a + n <= b <= |w|
    ensures w[a..b][n..] == w[a + n..b]
  {}

  lemma UnderwayFresh(c: Channel)
    requires Handed(c) && Between(c.receiver.par) && c.receiver.unread == Current(c)
    ensures Underway(c, c.receiver.par)
  {
    ResumesItself(c.receiver.par, c.receiver.unread);
  }

  /** The receiver holds exactly what it has read of the message after the one handed out. */
  lemma Lands(c: Channel, n: nat, p: Parser)
    requires Carried(c) && Underway(c, p) && c.taken + n <= |c.sender.wire| && Parsed(c, n).stat != Again
    ensures var c' := Next(c, Receive(n));
            Handed(c') && Between(c'.receiver.par) && c'.receiver.unread == Current(c')
  {
    hide Run, Stream, Feed;
    var o := Parsed(c, n);
    Accepts(c, n, p);
    CompleteReceives(c, n, o);
    LeftOver(c, n, p);
    HandsOut(c, Next(c, Receive(n)));
    TailOf(c.sender.wire, c.taken - |c.receiver.unread|, c.taken + n, o.used);
  }

  lemma ReceiveComplete(c: Channel, n: nat, p: Parser)
    requires Carried(c) && Underway(c, p) && c.taken + n <= |c.sender.wire| && Parsed(c, n).stat != Again
    ensures var c' := Next(c, Receive(n)); Underway(c', c'.receiver.par)
  {
    Lands(c, n, p);
    UnderwayFresh(Next(c, Receive(n)));
  }

  lemma ReceiveSound(c: Channel, n: nat)
    requires Sound(c)
    ensures Sound(Next(c, Receive(n)))
  {
    if c.taken + n <= |c.sender.wire| {
      var p :| Underway(c, p);
      if Parsed(c, n).stat == Again { ReceiveAgain(c, n, p); } else { ReceiveComplete(c, n, p); }
    }
  }

  lemma OpenSound()
    ensures Sound(OPEN)
  {
    ResumesItself(START, []);
    assert Current(OPEN) == [] && Underway(OPEN, START);
  }

  lemma {:induction false} PlaySound(es: seq<Event>)
    requires forall e | e in es :: e.SendMessage? ==> Sendable(e.message)
    ensures Sound(Play(es))
    decreases |es|
  {
    if es == [] {
      OpenSound();
    } else {
      assert forall e | e in es[..|es| - 1] :: e in es;
      PlaySound(es[..|es| - 1]);
      var c := Play(es[..|es| - 1]);
      match es[|es| - 1]
      case SendMessage(m, io) => SendSound(c, m, io);
      case Flush(io) => FlushSound(c, io);
      case Receive(n) => ReceiveSound(c, n);
    }
  }

  /** End to end: whatever messages are sent, however the socket splits the writes and however the reads split the
      stream, the messages handed out are a prefix of those sent, in order, with nothing refused. Once all bytes have
      arrived and the receiver asks for more, they are all of them. */
  lemma EndToEnd(es: seq<Event>)
    requires forall e | e in es :: e.SendMessage? ==> Sendable(e.message)
    ensures var c := Play(es);
            && !c.refused && c.got <= Contents(c.sent)
            && (c.taken == |Stream(c.sent)| && Feed(c.receiver, []).1 == Again ==> c.got == Contents(c.sent))
  {
    PlaySound(es);
    var c := Play(es);
    assert Contents(c.sent)[..|c.got|] == Contents(c.sent[..|c.got|]);
    if |c.got| == |c.sent| {
      assert c.sent[..|c.got|] == c.sent;
    } else if c.taken == |Stream(c.sent)| {
      var p :| Underway(c, p);
      var x := Pending(c, c.taken);
      NextMessage(p, Current(c), x, c.sent[|c.got|..]);
      assert Current(c) + [] == Current(c);
      assert ResumesWith(p, Current(c), c.receiver.par, c.receiver.unread, []);
    }
  }
}
