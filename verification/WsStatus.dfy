/**
The status of the WebSocket parser while a valid sequence of frames arrives, and what its callers make of it: between two
frames it is the one for invalid input, for which `vtm_http_srv_sock_can_read` closes the socket and `vtm_ws_client_recv`
returns an error.
*/
module WsStatus {
  import opened Bytes
  import opened Buffer
  import opened WsFrame
  import opened WsParser
  import opened WsReassembly
  import opened WsMessages

  // ------------------------------------------------------------ inside a frame

  lemma PartOf(x: seq<byte>, y: seq<byte>, b: seq<byte>) returns (b': seq<byte>)
    requires b < x + y && |b| >= |x|
    ensures b == x + b' && b' < y
  {
    b' := b[|x|..];
    assert (x + y)[..|x|] == x && (x + y)[|x|..] == y;
  }

  lemma BeforeKey(m: Mode, p: Parser, mask: nat, body: seq<byte>, b: seq<byte>)
    requires p.stage == Mask32 && mask < WORD && |body| == p.len && b < Key(p.masked, mask) + body
    ensures Run(m, p, b).stat == Again
  {
    if |b| >= |Key(p.masked, mask)| {
      var c := PartOf(Key(p.masked, mask), body, b);
      KeyParses(m, p, mask, c);
    }
  }

  lemma BeforeLength(m: Mode, p: Parser, masked: bit, len: nat, mask: nat, body: seq<byte>, b: seq<byte>)
    requires Readable(len) && mask < WORD && |body| == len && b < Extended(len) + (Key(masked, mask) + body)
    ensures Run(m, AfterLen7(p, masked, len), b).stat == Again
  {
    if |b| >= |Extended(len)| {
      var c := PartOf(Extended(len), Key(masked, mask) + body, b);
      LengthParses(m, p, masked, len, c);
      BeforeKey(m, p.(masked := masked, len := len, stage := Mask32), mask, body, c);
    }
  }

  lemma NoSecond(m: Mode, p: Parser)
    requires p.stage == MaskLen7
    ensures Run(m, p, []).stat == Again
  {}

  lemma BeforeSecond(m: Mode, p: Parser, f: Frame, b: seq<byte>)
    requires p.stage == MaskLen7 && Suits(m, f.masked) && IsDesc(DescOf(f)) && Readable(|f.payload|)
    requires b < [128 * f.masked + Len7(|f.payload|)] + (Extended(|f.payload|) + (Key(f.masked, f.mask) + Body(f)))
    ensures Run(m, p, b).stat == Again
  {
    hide Run, Extended, Key;
    if b == [] {
      NoSecond(m, p);
    } else {
      var second := [128 * f.masked + Len7(|f.payload|)];
      var c := PartOf(second, Extended(|f.payload|) + (Key(f.masked, f.mask) + Body(f)), b);
      SecondParses(m, p, f.masked, |f.payload|, c);
      BeforeLength(m, p, f.masked, |f.payload|, f.mask, Body(f), c);
    }
  }

  /** With a part of a frame, but not all of it, the parser asks for more. */
  lemma InsideFrame(m: Mode, p: Parser, f: Frame, b: seq<byte>)
    requires p.stage == FrameBegin && IsDesc(DescOf(f)) && Readable(|f.payload|) && Suits(m, f.masked)
    requires Follows(f.fin, f.opcode, p.count) && b != [] && b < WireOf(f)
    ensures Run(m, p, b).stat == Again
  {
    hide Run, Extended, Key;
    var d, p1 := DescOf(f), p.(len := 0, stage := FinOpcode);
    HeaderIs(d, Body(f));
    var tail := [128 * d.masked + Len7(d.len)] + (Extended(d.len) + (Key(d.masked, d.mask) + Body(f)));
    var c := PartOf([First(d)], tail, b);
    Skip(m, p, b, p1);
    FirstParses(m, p1, d, c);
    BeforeSecond(m, AfterFirst(p1, d), f, c);
  }

  // ------------------------------------------------------------------- the status

  /** The bytes end where a frame ends. */
  ghost predicate Whole(fs: seq<Frame>, a: seq<byte>)
    requires forall f | f in fs :: f.opcode < 16
  {
    exists k | 0 <= k <= |fs| :: a == WireAll(fs[..k])
  }

  lemma WholeNone(fs: seq<Frame>)
    requires forall f | f in fs :: f.opcode < 16
    ensures Whole(fs, [])
  {
    assert WireAll(fs[..0]) == [];
  }

  lemma WireTake(fs: seq<Frame>, k: nat)
    requires 0 < k <= |fs| && forall f | f in fs :: f.opcode < 16
    ensures WireAll(fs[..k]) == WireOf(fs[0]) + WireAll(fs[1..][..k - 1])
  {
    assert fs[..k][1..] == fs[1..][..k - 1];
  }

  /** Behind the first frame. */
  lemma WholeNext(fs: seq<Frame>, a: seq<byte>)
    requires fs != [] && forall f | f in fs :: f.opcode < 16
    ensures Whole(fs, WireOf(fs[0]) + a) <==> Whole(fs[1..], a)
  {
    var w := WireOf(fs[0]);
    if Whole(fs, w + a) {
      var k :| 0 <= k <= |fs| && w + a == WireAll(fs[..k]);
      if k > 0 {
        WireTake(fs, k);
        assert (w + a)[|w|..] == a && (w + WireAll(fs[1..][..k - 1]))[|w|..] == WireAll(fs[1..][..k - 1]);
      }
    }
    if Whole(fs[1..], a) {
      var k :| 0 <= k <= |fs[1..]| && a == WireAll(fs[1..][..k]);
      WireTake(fs, k + 1);
    }
  }

  /** A part of the first frame. */
  lemma NotWhole(fs: seq<Frame>, a: seq<byte>)
    requires fs != [] && (forall f | f in fs :: f.opcode < 16) && a != [] && |a| < |WireOf(fs[0])|
    ensures !Whole(fs, a)
  {
    forall k | 0 <= k <= |fs| ensures a != WireAll(fs[..k]) {
      if k > 0 { WireTake(fs, k); }
    }
  }

  lemma PartOfFrame(m: Mode, p: Parser, st: Open, f: Frame, a: seq<byte>)
    requires Ready(p, st) && Allowed(m, st, f) && a != [] && a < WireOf(f)
    ensures Drain(m, p, a).msgs == [] && Drain(m, p, a).stat == Again
  {
    var q := Begins(m, p, st, a);
    SameDrain(m, p, q, a);
    InsideFrame(m, q, f, a);
  }

  /** While a valid sequence of frames arrives, the status after draining is the one for invalid input exactly when the bytes
      so far end where a frame ends, and asks for more otherwise. */
  lemma {:induction false} CutStatus(m: Mode, p: Parser, st: Open, fs: seq<Frame>, a: seq<byte>)
    requires Ready(p, st) && Valid(m, st, fs) && Fits(p.size, st, fs) && (forall f | f in fs :: f.opcode < 16)
    requires a <= WireAll(fs)
    ensures Drain(m, p, a).stat == if Whole(fs, a) then Invalid else Again
    decreases |fs|
  {
    hide Run, Drain, Whole, WireOf, Allowed, Follows;
    if a == [] {
      WholeNone(fs);
      ReadyWaits(m, p, st);
    } else {
      var w, tail := WireOf(fs[0]), WireAll(fs[1..]);
      if |a| < |w| {
        assert a < w by { assert (w + tail)[..|a|] == w[..|a|]; }
        NotWhole(fs, a);
        PartOfFrame(m, p, st, fs[0], a);
      } else {
        var b := a[|w|..];
        assert a == w + b && b <= tail by { assert (w + tail)[..|w|] == w && (w + tail)[|w|..] == tail; }
        var q := OneFrame(m, p, st, fs[0], b);
        WholeNext(fs, b);
        CutStatus(m, q, AddFrame(st, fs[0]).0, fs[1..], b);
      }
    }
  }

  // ------------------------------------------------------------------ the callers

  /** What a connection has handed out, its parser and the bytes in its buffer, and whether its socket is still open. */
  datatype Served = Served(msgs: seq<Msg>, par: Parser, unread: seq<byte>, open: bool)

  /** One call of `vtm_ws_con_read`, whose read delivers `more`, and what `vtm_http_srv_sock_can_read` makes of its status: a
      message is handed out; the status for invalid input closes the socket. */
  function Call(m: Mode, v: Served, more: seq<byte>): Served {
    var s := v.unread + more;
    var o := Run(m, v.par, s);
    if o.stat == Complete then Served(v.msgs + [GetMsg(o.par).0], GetMsg(o.par).1, s[o.used..], true)
    else Served(v.msgs, o.par, s[o.used..], o.stat == Again)
  }

  /** A call for each read, until the socket is closed. */
  function Serve(m: Mode, p: Parser, pieces: seq<seq<byte>>): Served {
    if pieces == [] then Served([], p, [], true) else
    var v := Serve(m, p, pieces[..|pieces| - 1]);
    if v.open then Call(m, v, pieces[|pieces| - 1]) else v
  }

  lemma {:induction false} JoinedSnoc(pieces: seq<seq<byte>>)
    requires pieces != []
    ensures Joined(pieces) == Joined(pieces[..|pieces| - 1]) + pieces[|pieces| - 1]
  {
    if |pieces| > 1 {
      JoinedSnoc(pieces[1..]);
      assert pieces[1..][..|pieces| - 2] == pieces[..|pieces| - 1][1..];
      Associate(pieces[0], Joined(pieces[1..][..|pieces| - 2]), pieces[|pieces| - 1]);
    }
  }

  /** A call that leaves the socket open does not change what draining yields, whatever follows. */
  lemma CallDrains(m: Mode, v: Served, more: seq<byte>, b: seq<byte>) returns (n: nat)
    requires Call(m, v, more).open
    ensures var v' := Call(m, v, more);
            && n + |v'.unread| == |v.unread| + |more| && v.msgs <= v'.msgs
            && Drain(m, v.par, v.unread + (more + b))
               == Before(v'.msgs[|v.msgs|..], n, Drain(m, v'.par, v'.unread + b))
  {
    var s := v.unread + more;
    var o := Run(m, v.par, s);
    n := o.used;
    Associate(v.unread, more, b);
    assert s + b == s[..n] + (s[n..] + b);
    if o.stat == Complete {
      RunExtends(m, v.par, s, b);
      DrainComplete(m, v.par, s[..n], o.par, s[n..] + b);
    } else {
      RunResumes(m, v.par, s, b);
      DrainLater(m, v.par, s[..n], o.par, s[n..] + b);
    }
  }

  /** As long as the socket is open, what was handed out and what draining the rest would yield make up what draining all
      bytes yields. */
  lemma {:induction false} ServeDrains(m: Mode, p: Parser, pieces: seq<seq<byte>>, b: seq<byte>) returns (n: nat)
    requires Serve(m, p, pieces).open
    ensures var v := Serve(m, p, pieces); Drain(m, p, Joined(pieces) + b) == Before(v.msgs, n, Drain(m, v.par, v.unread + b))
    decreases |pieces|
  {
    if pieces == [] {
      n := 0;
      assert [] + b == b;
    } else {
      var front, more := pieces[..|pieces| - 1], pieces[|pieces| - 1];
      var v := Serve(m, p, front);
      JoinedSnoc(pieces);
      Associate(Joined(front), more, b);
      var k := ServeDrains(m, p, front, more + b);
      var l := CallDrains(m, v, more, b);
      n := k + l;
      ChainedMsgs(v.msgs, k, Serve(m, p, pieces).msgs, l, Drain(m, Serve(m, p, pieces).par, Serve(m, p, pieces).unread + b));
    }
  }

  lemma ChainedMsgs(a: seq<Msg>, k: nat, b: seq<Msg>, l: nat, d: Drained)
    requires a <= b
    ensures Before(a, k, Before(b[|a|..], l, d)) == Before(b, k + l, d)
  {
    BeforeTwice(a, k, b[|a|..], l, d);
    assert a + b[|a|..] == b;
  }

  /** The messages handed out are the first ones that the frames carry. */
  lemma {:induction false} ServedInOrder(m: Mode, p: Parser, st: Open, fs: seq<Frame>, pieces: seq<seq<byte>>)
    requires Ready(p, st) && Valid(m, st, fs) && Fits(p.size, st, fs) && (forall f | f in fs :: f.opcode < 16)
    requires Joined(pieces) <= WireAll(fs)
    ensures Serve(m, p, pieces).msgs <= Messages(st, fs)
    decreases |pieces|
  {
    hide Drain, Messages, WireAll, Valid, Fitting, Run;
    if Serve(m, p, pieces).open {
      WholeWire(m, p, st, fs);
      var b := WireAll(fs)[|Joined(pieces)|..];
      assert Joined(pieces) + b == WireAll(fs);
      var n := ServeDrains(m, p, pieces, b);
    } else {
      JoinedSnoc(pieces);
      ServedInOrder(m, p, st, fs, pieces[..|pieces| - 1]);
    }
  }

  lemma {:induction false} PrefixFits(m: Mode, size: nat, st: Open, fs: seq<Frame>, k: nat)
    requires Valid(m, st, fs) && Fits(size, st, fs) && k <= |fs|
    ensures Valid(m, st, fs[..k]) && Fits(size, st, fs[..k])
    decreases k
  {
    if k > 0 {
      assert fs[..k][1..] == fs[1..][..k - 1];
      PrefixFits(m, SizeAfter(size, st, fs[0]), AddFrame(st, fs[0]).0, fs[1..], k - 1);
    }
  }

  /** The bytes end where a frame ends, and all messages of the frames so far have been handed out. */
  ghost predicate Quiet(st: Open, fs: seq<Frame>, a: seq<byte>, msgs: seq<Msg>)
    requires forall f | f in fs :: f.opcode < 16
  {
    exists k | 0 <= k <= |fs| :: a == WireAll(fs[..k]) && msgs == Messages(st, fs[..k])
  }

  lemma QuietIs(m: Mode, p: Parser, st: Open, fs: seq<Frame>, a: seq<byte>, msgs: seq<Msg>)
    requires Ready(p, st) && Valid(m, st, fs) && Fits(p.size, st, fs) && (forall f | f in fs :: f.opcode < 16)
    ensures Quiet(st, fs, a, msgs) <==> Whole(fs, a) && msgs == Drain(m, p, a).msgs
  {
    forall k | 0 <= k <= |fs| && a == WireAll(fs[..k]) ensures Drain(m, p, a).msgs == Messages(st, fs[..k]) {
      PrefixFits(m, p.size, st, fs, k);
      WholeWire(m, p, st, fs[..k]);
    }
  }

  /** The next call closes the socket if and only if, with what it pieces, the bytes end where a frame ends and nothing is
      left to hand out: so whenever a valid peer pauses between two frames. */
  lemma ClosesIff(m: Mode, p: Parser, st: Open, fs: seq<Frame>, pieces: seq<seq<byte>>, more: seq<byte>)
    requires Ready(p, st) && Valid(m, st, fs) && Fits(p.size, st, fs) && (forall f | f in fs :: f.opcode < 16)
    requires Serve(m, p, pieces).open && Joined(pieces) + more <= WireAll(fs)
    ensures !Call(m, Serve(m, p, pieces), more).open
            <==> Quiet(st, fs, Joined(pieces) + more, Serve(m, p, pieces).msgs)
  {
    hide WireAll, Messages, Valid, Fitting, Run;
    var v, a := Serve(m, p, pieces), Joined(pieces) + more;
    var n := ServeDrains(m, p, pieces, more);
    DrainIs(m, v.par, v.unread + more);
    CutStatus(m, p, st, fs, a);
    QuietIs(m, p, st, fs, a, v.msgs);
  }

  /** The smallest case: a message without data, in one masked frame. It is handed out, and the next call, to which the
      socket has nothing to deliver, closes the connection. */
  lemma ClosedAfterMessage()
    ensures var f := Frame(1, TEXT, 1, 0, []);
            && Drain(Server, START, WireOf(f)).stat == Invalid
            && (var v := Serve(Server, START, [WireOf(f)]); v.open && v.msgs == [Msg(TEXT, [])])
            && !Serve(Server, START, [WireOf(f), []]).open
  {
    var f := Frame(1, TEXT, 1, 0, []);
    OneMessage(START, f);
  }

  lemma Single(f: Frame)
    requires f.fin == 1 && !ControlOpcode(f.opcode)
    ensures Messages(CLOSED, [f]) == [Msg(f.opcode, f.payload)]
  {
    assert [f][1..] == [] && [] + f.payload == f.payload;
  }

  lemma OneMessage(p: Parser, f: Frame)
    requires p == START && f == Frame(1, TEXT, 1, 0, [])
    ensures Drain(Server, p, WireOf(f)).stat == Invalid
    ensures var v := Serve(Server, p, [WireOf(f)]); v.open && v.msgs == [Msg(TEXT, [])]
    ensures !Serve(Server, p, [WireOf(f), []]).open
  {
    hide Run, Drain;
    var fs, one, two := [f], [WireOf(f)], [WireOf(f), []];
    assert fs[1..] == [] && WireAll(fs) == WireOf(f) + [] == WireOf(f) && fs[..1] == fs;
    assert one[..0] == [] && two[..1] == one && one[1..] == [] && [] + WireOf(f) == WireOf(f);
    CutStatus(Server, p, CLOSED, fs, WireOf(f));
    var b := Begins(Server, p, CLOSED, WireOf(f));
    DataCompletes(Server, b, f, []);
    assert Serve(Server, p, []) == Served([], p, [], true);
    assert Serve(Server, p, one) == Call(Server, Serve(Server, p, []), WireOf(f));
    assert WireOf(f) + [] == WireOf(f) && b.data + [] == [];
    assert Serve(Server, p, one).msgs == [Msg(TEXT, [])];
    Single(f);
    assert Joined(one) + [] == WireAll(fs[..1]);
    ClosesIff(Server, p, CLOSED, fs, one, []);
  }
}
