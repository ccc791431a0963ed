/**
The WebSocket frame parser: a resumable state machine that unmasks payloads, collects the fragments of a message and
hands out control messages in between, sections 5.2 to 5.5 of RFC 6455.
*/
module WsParser {
  import opened Wrappers
  import opened Bytes
  import opened Buffer
  import opened WsFrame

  const BUF_INIT: nat := 1024

  const BUF_MAX: nat := 65536

  const CONTINUE: nat := 0

  const TEXT: nat := 1

  const BINARY: nat := 2

  const CLOSE: nat := 8

  const PING: nat := 9

  const PONG: nat := 10

  datatype Mode = Server | Client

  datatype Stage =
    | MsgBegin | FrameBegin | FinOpcode | MaskLen7 | Len16 | Len64 | Mask32 | Payload | FinishCtrl | FinishData
    | FrameComplete | MsgComplete | Failed

  datatype Msg = Msg(typ: nat, data: seq<byte>)

  /** `Overrun` stands for a write behind the end of the message buffer, which is doubled at most once per frame. */
  datatype Stat = Again | Complete | Invalid | Error | Overrun

  datatype Parser = Parser(stage: Stage, count: nat, typ: nat, fin: bit, opcode: nat, masked: bit, mask: nat, len: nat,
                           payload: seq<byte>, data: seq<byte>, size: nat, ctrl: Option<Msg>)

  const START: Parser := Parser(MsgBegin, 0, CLOSE, 0, 0, 0, 0, 0, [], [], BUF_INIT, None)

  datatype Move = Go(par: Parser, used: nat) | Halt(par: Parser, used: nat, stat: Stat)

  predicate ValidOpcode(op: nat) {
    op == CONTINUE || op == TEXT || op == BINARY || op == CLOSE || op == PING || op == PONG
  }

  predicate ControlOpcode(op: nat) { op == CLOSE || op == PING || op == PONG }

  /** The frame may follow `count` fragments of an unfinished message. */
  predicate Follows(fin: bit, op: nat, count: nat) {
    && ValidOpcode(op)
    && (op >= CLOSE ==> fin == 1)
    && (op == CONTINUE ==> count > 0)
    && (CONTINUE < op < CLOSE ==> count == 0)
  }

  function AtFinOpcode(p: Parser, c: byte): Move {
    var fin: bit, op := c / 128, c % 16;
    if c / 16 % 8 != 0 || !Follows(fin, op, p.count) then Halt(p.(fin := fin, opcode := op, stage := Failed), 1, Invalid)
    else Go(p.(fin := fin, opcode := op, typ := if p.count == 0 && op < CLOSE then op else p.typ, stage := MaskLen7), 1)
  }

  function AtMaskLen7(m: Mode, p: Parser, c: byte): Move {
    var masked: bit := c / 128;
    var len := c % 128;
    var q := p.(masked := masked, len := len);
    if (m == Server) != (masked == 1) then Halt(q.(stage := Failed), 1, Invalid)
    else Go(q.(stage := if len == LEN16_ID then Len16 else if len == LEN64_ID then Len64 else Mask32), 1)
  }

  /** Bit 31 of a 64-bit length, which is the bit the parser tests, and the shortest form. */
  predicate Accepted64(len: nat) { len / 0x8000_0000 % 2 == 0 && len > LEN16_MAX }

  function AtLen16(p: Parser, len: nat): Move {
    if len <= LEN7_MAX then Halt(p.(len := len, stage := Failed), 2, Invalid) else Go(p.(len := len, stage := Mask32), 2)
  }

  function AtLen64(p: Parser, len: nat): Move {
    if !Accepted64(len) then Halt(p.(stage := Failed), 8, Invalid) else Go(p.(len := len, stage := Mask32), 8)
  }

  function AtFinishData(p: Parser): Move {
    if p.size - |p.data| < p.len && p.size >= BUF_MAX then Halt(p, 0, Error) else
    var size := if p.size - |p.data| < p.len then 2 * p.size else p.size;
    if size - |p.data| < p.len then Halt(p.(size := size), 0, Overrun)
    else Go(p.(size := size, data := p.data + p.payload, payload := [], count := p.count + 1, stage := FrameComplete), 0)
  }

  function AtFrameComplete(p: Parser): Move {
    if p.ctrl.Some? then Halt(p.(stage := FrameBegin), 0, Complete)
    else Go(p.(stage := if p.fin == 1 then MsgComplete else FrameBegin), 0)
  }

  /** One round of the loop in `vtm_ws_parser_run` on the unread bytes. */
  function Step(m: Mode, p: Parser, s: seq<byte>): (r: Move)
    ensures r.used <= |s|
    ensures r.used == 0 && (r.Go? || r.stat == Complete) ==> Rank(r.par.stage) < Rank(p.stage)
    ensures r.Halt? && Waiting(r.stat, r.par) ==> r.par == p && r.used == 0
  {
    match p.stage
    case MsgBegin => Go(p.(data := [], count := 0, typ := CLOSE, stage := FrameBegin), 0)
    case FrameBegin => Go(p.(len := 0, stage := FinOpcode), 0)
    case FinOpcode => if |s| < 1 then Halt(p, 0, Invalid) else AtFinOpcode(p, s[0])
    case MaskLen7 => if |s| < 1 then Halt(p, 0, Again) else AtMaskLen7(m, p, s[0])
    case Len16 =>
      if |s| < 2 then Halt(p, 0, Again) else
      AtLen16(p, Number(s[..2]))
    case Len64 =>
      if |s| < 8 then Halt(p, 0, Again) else
      AtLen64(p, Number(s[..8]))
    case Mask32 =>
      if p.masked == 0 then Go(p.(stage := Payload), 0)
      else if |s| < 4 then Halt(p, 0, Again) else Go(p.(mask := Number(s[..4]), stage := Payload), 4)
    case Payload =>
      if |s| < p.len then Halt(p, 0, Again) else
      Go(p.(payload := if p.masked == 1 then Masked(s[..p.len], Word(p.mask, 4)) else s[..p.len],
            stage := if ControlOpcode(p.opcode) then FinishCtrl else FinishData), p.len)
    case FinishCtrl =>
      if p.ctrl.Some? then Halt(p.(payload := [], stage := Failed), 0, Invalid)
      else Go(p.(ctrl := Some(Msg(p.opcode, p.payload)), payload := [], stage := FrameComplete), 0)
    case FinishData => AtFinishData(p)
    case FrameComplete => AtFrameComplete(p)
    case MsgComplete => Halt(p.(stage := MsgBegin), 0, Complete)
    case Failed => Halt(p, 0, Error)
  }

  /** A round that processes no byte lowers the rank, so every run ends. */
  function Rank(stage: Stage): nat {
    match stage
    case Mask32 => 8
    case Payload => 7
    case FinishCtrl => 6
    case FinishData => 6
    case FrameComplete => 5
    case MsgComplete => 4
    case MsgBegin => 3
    case FrameBegin => 2
    case _ => 1
  }

  /** The parser needs more bytes. At the start of a frame it says so with the status for invalid input, but its stage
      does not change. */
  predicate Waiting(stat: Stat, p: Parser) { stat == Again || (stat == Invalid && p.stage == FinOpcode) }

  datatype Outcome = Outcome(par: Parser, used: nat, stat: Stat)

  function Later(n: nat, o: Outcome): Outcome { o.(used := n + o.used) }

  /** `vtm_ws_parser_run`. */
  function Run(m: Mode, p: Parser, s: seq<byte>): (o: Outcome)
    ensures o.used <= |s|
    ensures o.used == 0 && o.stat == Complete ==> Rank(o.par.stage) < Rank(p.stage)
    decreases |s|, Rank(p.stage)
  {
    var r := Step(m, p, s);
    if r.Halt? then Outcome(r.par, r.used, r.stat) else Later(r.used, Run(m, r.par, s[r.used..]))
  }

  /** `vtm_ws_parser_get_msg`: a pending control message comes first. */
  function GetMsg(p: Parser): (Msg, Parser) {
    if p.ctrl.Some? then (p.ctrl.value, p.(ctrl := None)) else (Msg(p.typ, p.data), p)
  }

  // ---------------------------------------------------------- resumability

  lemma Prefixes(a: seq<byte>, b: seq<byte>, n: nat)
    requires n <= |a|
    ensures (a + b)[..n] == a[..n]
  {}

  lemma Tails(a: seq<byte>, b: seq<byte>, n: nat, k: nat)
    requires n + k <= |a|
    ensures (a + b)[n..] == a[n..] + b && a[n..][k..] == a[n + k..]
  {}

  lemma StepExtends(m: Mode, p: Parser, a: seq<byte>, b: seq<byte>)
    requires !(Step(m, p, a).Halt? && Waiting(Step(m, p, a).stat, Step(m, p, a).par))
    ensures Step(m, p, a + b) == Step(m, p, a)
  {
    if |a| >= 2 { Prefixes(a, b, 2); }
    if |a| >= 4 { Prefixes(a, b, 4); }
    if |a| >= 8 { Prefixes(a, b, 8); }
    if |a| >= p.len { Prefixes(a, b, p.len); }
  }

  lemma LaterTwice(a: nat, b: nat, o: Outcome)
    ensures Later(a, Later(b, o)) == Later(a + b, o)
  {}

  /** A run that does not wait is not affected by later bytes. */
  lemma {:induction false} RunExtends(m: Mode, p: Parser, a: seq<byte>, b: seq<byte>)
    requires !Waiting(Run(m, p, a).stat, Run(m, p, a).par)
    ensures Run(m, p, a + b) == Run(m, p, a)
    decreases |a|, Rank(p.stage)
  {
    StepExtends(m, p, a, b);
    var r := Step(m, p, a);
    if r.Go? {
      Tails(a, b, r.used, 0);
      RunExtends(m, r.par, a[r.used..], b);
    }
  }

  lemma RunNext(m: Mode, p: Parser, s: seq<byte>, q: Parser, n: nat, rest: seq<byte>)
    requires Step(m, p, s) == Go(q, n) && rest == s[n..]
    ensures Run(m, p, s) == Later(n, Run(m, q, rest))
  {}

  /** A run that waits has processed some bytes and left `rest`, from where the next one goes on. */
  lemma {:induction false} RunGoesOn(m: Mode, p: Parser, a: seq<byte>, b: seq<byte>, o: Outcome, rest: seq<byte>)
    requires o == Run(m, p, a) && Waiting(o.stat, o.par) && rest == a[o.used..]
    ensures Run(m, p, a + b) == Later(o.used, Run(m, o.par, rest + b))
    decreases |a|, Rank(p.stage)
  {
    var r := Step(m, p, a);
    if r.Go? {
      var a1 := a[r.used..];
      var o1 := Run(m, r.par, a1);
      RunNext(m, p, a, r.par, r.used, a1);
      Tails(a, b, r.used, o1.used);
      StepExtends(m, p, a, b);
      RunNext(m, p, a + b, r.par, r.used, a1 + b);
      RunGoesOn(m, r.par, a1, b, o1, rest);
      LaterTwice(r.used, o1.used, Run(m, o1.par, rest + b));
    } else {
      assert a[0..] == a;
    }
  }

  /** A run that waits is resumed by the next one, with the bytes it left and those that came. */
  lemma RunResumes(m: Mode, p: Parser, a: seq<byte>, b: seq<byte>)
    requires Waiting(Run(m, p, a).stat, Run(m, p, a).par)
    ensures Later(Run(m, p, a).used, Run(m, Run(m, p, a).par, a[Run(m, p, a).used..] + b)) == Run(m, p, a + b)
  {
    RunGoesOn(m, p, a, b, Run(m, p, a), a[Run(m, p, a).used..]);
  }

  // ------------------------------------------------------- the imperative code

  /** `p`, `s` and `stat` are what one round makes of `p0` and `s0`. */
  ghost predicate Moved(m: Mode, p0: Parser, s0: seq<byte>, p: Parser, s: seq<byte>, stat: Option<Stat>) {
    var r := Step(m, p0, s0);
    p == r.par && s == s0[r.used..] && stat == (if r.Go? then None else Some(r.stat))
  }

  /** What a round means for the run it belongs to. */
  lemma MovedRun(m: Mode, p0: Parser, s0: seq<byte>, p: Parser, s: seq<byte>, stat: Option<Stat>) returns (n: nat)
    requires Moved(m, p0, s0, p, s, stat)
    ensures n <= |s0| && s == s0[n..] && (stat == None && n == 0 ==> Rank(p.stage) < Rank(p0.stage))
    ensures Run(m, p0, s0) == if stat == None then Later(n, Run(m, p, s)) else Outcome(p, n, stat.value)
  {
    n := Step(m, p0, s0).used;
  }

  /** The first `n` of the bytes `s` in an array, and the others. */
  lemma Cut(a: array<byte>, at: nat, n: nat, to: nat, s: seq<byte>)
    requires at + n <= to <= a.Length && s == a[at..to]
    ensures a[at..at + n] == s[..n] && a[at + n..to] == s[n..]
  {}

  /** `struct vtm_ws_parser`. */
  class FrameParser {
    const mode: Mode
    var stage: Stage
    var count: nat
    var typ: nat
    var fin: bit
    var opcode: nat
    var masked: bit
    var mask: nat
    var len: nat
    /** Where the payload of the frame begins in the buffer. */
    var begin: nat
    var data: array<byte>
    var used: nat
    var ctrl: Option<Msg>

    ghost predicate Valid(buf: Buf)
      reads this, buf
    {
      && buf.Valid() && buf.len < SIZE && used <= data.Length && data != buf.data && mask < WORD && len < SIZE
      && (stage == Payload ==> begin == buf.read)
      && (stage == FinishCtrl || stage == FinishData ==> begin + len == buf.read)
    }

    ghost function View(buf: Buf): Parser
      requires Valid(buf)
      reads this, data, buf, buf.data
    {
      Parser(stage, count, typ, fin, opcode, masked, mask, len,
             if stage == FinishCtrl || stage == FinishData then buf.data[begin..begin + len] else [],
             data[..used], data.Length, ctrl)
    }

    /** `vtm_ws_parser_init`. */
    constructor (mode: Mode)
      ensures this.mode == mode && fresh(data) && data.Length == BUF_INIT && used == 0
      ensures stage == MsgBegin && ctrl == None && mask < WORD && len < SIZE
    {
      this.mode := mode;
      stage, count, typ, fin, opcode, masked, mask, len, begin := MsgBegin, 0, CLOSE, 0, 0, 0, 0, 0, 0;
      data := new byte[BUF_INIT];
      used := 0;
      ctrl := None;
    }

    /** A number of `n` bytes in network byte order, as the byte-by-byte sums in the source compute it. */
    method GetNumber(buf: Buf, n: nat) returns (v: nat)
      requires buf.Valid() && n <= |buf.Unread()|
      modifies buf`read
      ensures buf.Valid() && buf.read == old(buf.read) + n && v == Number(old(buf.Unread())[..n])
    {
      ghost var u := buf.Unread();
      v := 0;
      var i := 0;
      while i < n
        invariant 0 <= i <= n && buf.Valid() && buf.read == old(buf.read) + i
        invariant buf.Unread() == u[i..] && v == Number(u[..i])
      {
        var c := buf.GetC();
        v := 256 * v + c;
        i := i + 1;
        assert u[..i] == u[..i - 1] + [c];
      }
    }

    /** The fields of the parser, outside the stages that hold a payload. */
    ghost function Fields(): Parser
      requires used <= data.Length
      reads this, data
    {
      Parser(stage, count, typ, fin, opcode, masked, mask, len, [], data[..used], data.Length, ctrl)
    }

    /** The checks on the first byte of a frame. */
    method CheckFinOpcode(c: byte) returns (ok: bool)
      requires used <= data.Length
      modifies this`fin, this`opcode, this`typ, this`stage
      ensures var r := AtFinOpcode(old(Fields()), c); Fields() == r.par && ok == r.Go?
      ensures stage == MaskLen7 || stage == Failed
    {
      fin, opcode := c / 128, c % 16;
      if c / 16 % 8 != 0 || !Follows(fin, opcode, count) {
        stage := Failed;
        return false;
      }
      if count == 0 && opcode < CLOSE {
        typ := opcode;
      }
      stage := MaskLen7;
      ok := true;
    }

    method ReadFinOpcode(buf: Buf) returns (stat: Option<Stat>)
      requires Valid(buf) && stage == FinOpcode
      modifies this`fin, this`opcode, this`typ, this`stage, buf`read
      ensures Valid(buf)
      ensures Moved(mode, old(View(buf)), old(buf.Unread()), View(buf), buf.Unread(), stat)
    {
      var avail := buf.GetAvail(1);
      if !avail {
        return Some(Invalid);
      }
      var c := buf.GetC();
      var ok := CheckFinOpcode(c);
      stat := if ok then None else Some(Invalid);
    }

    /** The checks on the second byte. */
    method CheckMaskLen7(c: byte) returns (ok: bool)
      requires used <= data.Length
      modifies this`masked, this`len, this`stage
      ensures var r := AtMaskLen7(mode, old(Fields()), c); Fields() == r.par && ok == r.Go?
      ensures stage.Len16? || stage.Len64? || stage.Mask32? || stage.Failed?
      ensures len < 128
    {
      masked, len := c / 128, c % 128;
      if (mode == Server && masked == 0) || (mode == Client && masked == 1) {
        stage := Failed;
        return false;
      }
      stage := if len == LEN16_ID then Len16 else if len == LEN64_ID then Len64 else Mask32;
      ok := true;
    }

    method ReadMaskLen7(buf: Buf) returns (stat: Option<Stat>)
      requires Valid(buf) && stage == MaskLen7
      modifies this`masked, this`len, this`stage, buf`read
      ensures Valid(buf)
      ensures Moved(mode, old(View(buf)), old(buf.Unread()), View(buf), buf.Unread(), stat)
    {
      var avail := buf.GetAvail(1);
      if !avail {
        return Some(Again);
      }
      var c := buf.GetC();
      var ok := CheckMaskLen7(c);
      stat := if ok then None else Some(Invalid);
    }

    method CheckLen16(len16: nat) returns (ok: bool)
      requires used <= data.Length && stage == Len16
      modifies this`len, this`stage
      ensures var r := AtLen16(old(Fields()), len16); Fields() == r.par && ok == r.Go?
      ensures len == len16 && (stage.Mask32? || stage.Failed?)
    {
      len := len16;
      if len <= LEN7_MAX {
        stage := Failed;
        return false;
      }
      stage := Mask32;
      ok := true;
    }

    method ReadLen16(buf: Buf) returns (stat: Option<Stat>)
      requires Valid(buf) && stage == Len16
      modifies this`len, this`stage, buf`read
      ensures Valid(buf)
      ensures Moved(mode, old(View(buf)), old(buf.Unread()), View(buf), buf.Unread(), stat)
    {
      hide Number, Capacity;
      var avail := buf.GetAvail(2);
      if !avail {
        return Some(Again);
      }
      Ranges();
      var len16 := GetNumber(buf, 2);
      var ok := CheckLen16(len16);
      stat := if ok then None else Some(Invalid);
    }

    method CheckLen64(len64: nat) returns (ok: bool)
      requires used <= data.Length && stage == Len64
      modifies this`len, this`stage
      ensures var r := AtLen64(old(Fields()), len64); Fields() == r.par && ok == r.Go?
      ensures (len == len64 || len == old(len)) && (stage.Mask32? || stage.Failed?)
    {
      if len64 / 0x8000_0000 % 2 == 1 || len64 <= LEN16_MAX {
        stage := Failed;
        return false;
      }
      len := len64;
      stage := Mask32;
      ok := true;
    }

    method ReadLen64(buf: Buf) returns (stat: Option<Stat>)
      requires Valid(buf) && stage == Len64
      modifies this`len, this`stage, buf`read
      ensures Valid(buf)
      ensures Moved(mode, old(View(buf)), old(buf.Unread()), View(buf), buf.Unread(), stat)
    {
      hide Number, Capacity;
      var avail := buf.GetAvail(8);
      if !avail {
        return Some(Again);
      }
      Ranges();
      var len64 := GetNumber(buf, 8);
      var ok := CheckLen64(len64);
      stat := if ok then None else Some(Invalid);
    }

    method ReadMask(buf: Buf) returns (stat: Option<Stat>)
      requires Valid(buf) && stage == Mask32
      modifies this`len, this`mask, this`begin, this`stage, buf`read
      ensures Valid(buf)
      ensures Moved(mode, old(View(buf)), old(buf.Unread()), View(buf), buf.Unread(), stat)
    {
      hide Number, Capacity, Masked, Follows;
      if masked == 1 {
        var avail := buf.GetAvail(4);
        if !avail {
          return Some(Again);
        }
        Ranges();
        mask := GetNumber(buf, 4);
      }
      begin := buf.read;
      stage := Payload;
      stat := None;
    }

    /** The payload is unmasked where it lies in the buffer. */
    method Unmask(buf: Buf)
      requires Valid(buf) && stage == Payload && len <= |buf.Unread()|
      modifies buf`read, buf.data
      ensures buf.Valid() && buf.read == begin + len && buf.Unread() == old(buf.Unread())[len..]
      ensures var s := old(buf.Unread())[..len];
              buf.data[begin..begin + len] == if masked == 1 then Masked(s, Word(mask, 4)) else s
    {
      hide Masked, Capacity;
      ghost var s := buf.Unread();
      Cut(buf.data, begin, len, buf.used, s);
      var _ := buf.MarkProcessed(len);
      if masked == 1 {
        MaskPayload(buf.data, begin, len, mask);
      }
      assert buf.Unread() == s[len..];
    }

    method ReadPayload(buf: Buf) returns (stat: Option<Stat>)
      requires Valid(buf) && stage == Payload
      modifies this`stage, buf`read, buf.data
      ensures Valid(buf)
      ensures Moved(mode, old(View(buf)), old(buf.Unread()), View(buf), buf.Unread(), stat)
    {
      hide Capacity, Masked;
      var avail := buf.GetAvail(len);
      if !avail {
        return Some(Again);
      }
      Unmask(buf);
      stage := if ControlOpcode(opcode) then FinishCtrl else FinishData;
      stat := None;
    }

    method FinishControl(buf: Buf) returns (stat: Option<Stat>)
      requires Valid(buf) && stage == FinishCtrl
      modifies this
      ensures Valid(buf) && data == old(data)
      ensures Moved(mode, old(View(buf)), old(buf.Unread()), View(buf), buf.Unread(), stat)
    {
      if ctrl.Some? {
        stage := Failed;
        return Some(Invalid);
      }
      ctrl := Some(Msg(opcode, buf.data[begin..begin + len]));
      stage := FrameComplete;
      stat := None;
    }

    /** `realloc` to twice the size. */
    method Double(buf: Buf)
      requires Valid(buf)
      modifies this`data
      ensures Valid(buf) && fresh(data) && data.Length == 2 * old(data.Length) && data[..used] == old(data[..used])
    {
      var mem := new byte[2 * data.Length];
      forall i | 0 <= i < used {
        mem[i] := data[i];
      }
      data := mem;
    }

    /** Room for the fragment, as far as one doubling makes it. */
    method MakeRoom(buf: Buf) returns (stat: Option<Stat>)
      requires Valid(buf)
      modifies this`data
      ensures Valid(buf) && (data == old(data) || fresh(data)) && data[..used] == old(data[..used])
      ensures var size := old(data.Length);
              if size - used >= len then stat == None && data.Length == size
              else if size >= BUF_MAX then stat == Some(Error) && data.Length == size
              else data.Length == 2 * size && stat == if 2 * size - used < len then Some(Overrun) else None
    {
      if data.Length - used >= len {
        return None;
      }
      if data.Length >= BUF_MAX {
        return Some(Error);
      }
      Double(buf);
      stat := if data.Length - used < len then Some(Overrun) else None;
    }

    /** `memcpy` behind the fragments collected so far. */
    method Append(buf: Buf)
      requires Valid(buf) && stage == FinishData && used + len <= data.Length
      modifies this`used, data
      ensures Valid(buf) && data[..used] == old(data[..used]) + buf.data[begin..begin + len]
    {
      forall i | 0 <= i < len {
        data[used + i] := buf.data[begin + i];
      }
      used := used + len;
    }

    method Collect(buf: Buf)
      requires Valid(buf) && stage == FinishData && used + len <= data.Length
      modifies this`count, this`stage, this`used, data
      ensures Valid(buf)
      ensures var p := old(View(buf));
              View(buf) == p.(data := p.data + p.payload, payload := [], count := p.count + 1, stage := FrameComplete)
    {
      Append(buf);
      count := count + 1;
      stage := FrameComplete;
    }

    method FinishFragment(buf: Buf) returns (stat: Option<Stat>)
      requires Valid(buf) && stage == FinishData
      modifies this`count, this`stage, this`used, this`data, data
      ensures Valid(buf) && (data == old(data) || fresh(data))
      ensures var r := AtFinishData(old(View(buf)));
              View(buf) == r.par && stat == if r.Go? then None else Some(r.stat)
    {
      hide Capacity;
      stat := MakeRoom(buf);
      if stat == None {
        Collect(buf);
      }
    }

    method FinishFrame(buf: Buf) returns (stat: Option<Stat>)
      requires Valid(buf) && stage == FrameComplete
      modifies this, buf`used, buf`read, buf.data
      ensures Valid(buf) && data == old(data)
      ensures Moved(mode, old(View(buf)), old(buf.Unread()), View(buf), buf.Unread(), stat)
    {
      buf.DiscardProcessed();
      if ctrl.Some? {
        stage := FrameBegin;
        return Some(Complete);
      }
      stage := if fin == 1 then MsgComplete else FrameBegin;
      stat := None;
    }

    /** The stages that read the header. */
    method HeaderRound(buf: Buf) returns (stat: Option<Stat>)
      requires Valid(buf) && (stage == FinOpcode || stage == MaskLen7 || stage == Len16 || stage == Len64 || stage == Mask32)
      modifies this, buf`read
      ensures Valid(buf) && data == old(data)
      ensures Moved(mode, old(View(buf)), old(buf.Unread()), View(buf), buf.Unread(), stat)
    {
      match stage
      case FinOpcode => stat := ReadFinOpcode(buf);
      case MaskLen7 => stat := ReadMaskLen7(buf);
      case Len16 => stat := ReadLen16(buf);
      case Len64 => stat := ReadLen64(buf);
      case Mask32 => stat := ReadMask(buf);
    }

    /** The stages from the payload to the end of the frame. */
    method PayloadRound(buf: Buf) returns (stat: Option<Stat>)
      requires Valid(buf) && (stage == Payload || stage == FinishCtrl || stage == FinishData || stage == FrameComplete)
      modifies this, data, buf`used, buf`read, buf.data
      ensures Valid(buf) && (data == old(data) || fresh(data))
      ensures Moved(mode, old(View(buf)), old(buf.Unread()), View(buf), buf.Unread(), stat)
    {
      match stage
      case Payload => stat := ReadPayload(buf);
      case FinishCtrl => stat := FinishControl(buf);
      case FinishData =>
        stat := FinishFragment(buf);
        assert buf.Unread()[0..] == buf.Unread();
      case FrameComplete => stat := FinishFrame(buf);
    }

    /** One round of the loop below. */
    method Round(buf: Buf) returns (stat: Option<Stat>)
      requires Valid(buf)
      modifies this, data, buf`used, buf`read, buf.data
      ensures Valid(buf) && (data == old(data) || fresh(data))
      ensures Moved(mode, old(View(buf)), old(buf.Unread()), View(buf), buf.Unread(), stat)
    {
      match stage
      case MsgBegin => used, count, typ, stage := 0, 0, CLOSE, FrameBegin; stat := None;
      case FrameBegin => begin, len, stage := 0, 0, FinOpcode; stat := None;
      case FinOpcode | MaskLen7 | Len16 | Len64 | Mask32 => stat := HeaderRound(buf);
      case Payload | FinishCtrl | FinishData | FrameComplete => stat := PayloadRound(buf);
      case MsgComplete => stage := MsgBegin; stat := Some(Complete);
      case Failed => stat := Some(Error);
    }

    /** A round as a part of a run. */
    method Advance(buf: Buf) returns (stat: Option<Stat>, ghost n: nat)
      requires Valid(buf)
      modifies this, data, buf`used, buf`read, buf.data
      ensures Valid(buf) && (data == old(data) || fresh(data))
      ensures n <= |old(buf.Unread())| && buf.Unread() == old(buf.Unread())[n..]
      ensures stat == None && n == 0 ==> Rank(stage) < old(Rank(stage))
      ensures Run(mode, old(View(buf)), old(buf.Unread()))
           == if stat == None then Later(n, Run(mode, View(buf), buf.Unread())) else Outcome(View(buf), n, stat.value)
    {
      hide Run, Step;
      stat := Round(buf);
      n := MovedRun(mode, old(View(buf)), old(buf.Unread()), View(buf), buf.Unread(), stat);
    }

    /** `vtm_ws_parser_run`. */
    method RunOn(buf: Buf) returns (stat: Stat)
      requires Valid(buf)
      modifies this, data, buf`used, buf`read, buf.data
      ensures Valid(buf) && (data == old(data) || fresh(data))
      ensures var o := Run(mode, old(View(buf)), old(buf.Unread()));
              stat == o.stat && View(buf) == o.par && buf.Unread() == old(buf.Unread())[o.used..]
    {
      hide Run, Rank;
      ghost var p0, s0 := View(buf), buf.Unread();
      ghost var n: nat := 0;
      while true
        invariant Valid(buf) && (data == old(data) || fresh(data)) && buf.data == old(buf.data)
        invariant n <= |s0| && buf.Unread() == s0[n..]
        invariant Run(mode, p0, s0) == Later(n, Run(mode, View(buf), buf.Unread()))
        decreases |buf.Unread()|, Rank(stage)
      {
        var res, k := Advance(buf);
        LaterTwice(n, k, Run(mode, View(buf), buf.Unread()));
        n := n + k;
        if res.Some? {
          return res.value;
        }
      }
    }

    /** `vtm_ws_parser_get_msg`. */
    method TakeMsg(buf: Buf) returns (msg: Msg)
      requires Valid(buf)
      modifies this
      ensures Valid(buf) && (data == old(data) || fresh(data))
      ensures (msg, View(buf)) == GetMsg(old(View(buf)))
    {
      if ctrl.Some? {
        msg := ctrl.value;
        ctrl := None;
        return;
      }
      msg := Msg(typ, data[..used]);
    }
  }
}
