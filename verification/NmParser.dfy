/**
The resumable NM message parser: a state machine that can stop after any byte.
*/
module NmParser {
  import opened Wrappers
  import opened Bytes
  import opened Buffer
  import opened NmProtocol

  type Dataset = map<cstring, Value>

  datatype Stat = Again | Complete | Invalid

  datatype Place =
    | MsgBegin | Magic | Version | FieldCount | FieldBegin | NameLen | Name | ValueType | ValueLen | ValueBody
    | FieldComplete | MsgComplete

  datatype Parser = Parser(at: Place, msg: Option<Dataset>, count: nat, parsed: nat, nameLen: nat, name: cstring,
                           typ: ElemType, valueLen: nat, value: Value)

  const START: Parser := Parser(MsgBegin, None, 0, 0, 0, [], Null, 0, Scalar(Null, 0))

  /** The bytes of a C string: everything up to the first NUL. */
  function CStr(s: seq<byte>): (r: cstring)
    ensures r <= s && (r == s || s[|r|] == 0)
    ensures 0 !in s ==> r == s
  {
    if s == [] || s[0] == 0 then [] else [s[0]] + CStr(s[1..])
  }

  /** The outcome of one round of the parser's loop on unread bytes: it goes on, or it returns a status; either way it has
      processed `used` bytes. */
  datatype Move = Go(par: Parser, used: nat) | Halt(par: Parser, used: nat, stat: Stat)

  /** The value in the first bytes of `s`. */
  function ValueOf(t: ElemType, s: seq<byte>): Value {
    match t
    case String => Text(CStr(s))
    case Blob => Bytes(s)
    case _ => Scalar(t, Number(s))
  }

  function Stored(msg: Option<Dataset>, name: cstring, v: Value): Option<Dataset> {
    var fields: Dataset := if msg.Some? then msg.value else map[];
    Some(fields[name := v])
  }

  function AtType(p: Parser, c: byte): Move {
    var t := TypeFromNum(c);
    if t == Null then Halt(p, 1, Invalid)
    else if t == String || t == Blob then Go(p.(typ := t, at := ValueLen), 1)
    else Go(p.(typ := t, valueLen := Size(t), at := ValueBody), 1)
  }

  /** One round of the loop in `vtm_nm_parser_run`. */
  function Step(p: Parser, s: seq<byte>): (m: Move)
    ensures m.used <= |s|
    ensures m.Go? && m.used == 0 ==> Rank(m.par.at) < Rank(p.at)
    ensures m.Halt? && m.stat == Again ==> m.par == p && m.used == 0
    ensures m.Halt? && m.stat == Complete ==> m.par == p && m.used == 0 && p.at == MsgComplete
    ensures m.Halt? && m.stat == Invalid ==>
              m.used == 1 && m.par.at == p.at && (p.at == Magic || p.at == Version || p.at == NameLen || p.at == ValueType)
  {
    match p.at
    case MsgBegin => Go(p.(at := Magic), 0)
    case Magic =>
      if |s| < 1 then Halt(p, 0, Again) else if s[0] != MAGIC then Halt(p, 1, Invalid) else Go(p.(at := Version), 1)
    case Version =>
      if |s| < 1 then Halt(p, 0, Again) else if s[0] != VERSION then Halt(p, 1, Invalid) else Go(p.(at := FieldCount), 1)
    case FieldCount =>
      if |s| < 2 then Halt(p, 0, Again) else Go(p.(count := Number(s[..2]), parsed := 0, at := FieldBegin), 2)
    case FieldBegin => Go(p.(at := if p.parsed == p.count then MsgComplete else NameLen), 0)
    case NameLen =>
      if |s| < 1 then Halt(p, 0, Again) else if s[0] == 0 then Halt(p.(nameLen := 0), 1, Invalid)
      else Go(p.(nameLen := s[0], at := Name), 1)
    case Name =>
      if |s| < p.nameLen then Halt(p, 0, Again)
      else Go(p.(name := CStr(s[..p.nameLen]), at := ValueType), p.nameLen)
    case ValueType => if |s| < 1 then Halt(p, 0, Again) else AtType(p, s[0])
    case ValueLen => if |s| < 4 then Halt(p, 0, Again) else Go(p.(valueLen := Number(s[..4]), at := ValueBody), 4)
    case ValueBody =>
      if |s| < p.valueLen then Halt(p, 0, Again)
      else Go(p.(value := ValueOf(p.typ, s[..p.valueLen]), at := FieldComplete), p.valueLen)
    case FieldComplete =>
      Go(p.(msg := Stored(p.msg, p.name, p.value), parsed := p.parsed + 1, at := FieldBegin), 0)
    case MsgComplete => Halt(p, 0, Complete)
  }

  /** A round that processes no byte lowers the rank, so every run ends. */
  function Rank(at: Place): nat {
    match at
    case Name => 5
    case ValueType => 4
    case ValueBody => 3
    case FieldComplete => 2
    case FieldBegin => 1
    case MsgBegin => 1
    case _ => 0
  }

  datatype Outcome = Outcome(par: Parser, used: nat, stat: Stat)

  function Later(n: nat, o: Outcome): Outcome { o.(used := n + o.used) }

  /** `vtm_nm_parser_run` on the unread bytes of a buffer. */
  function Run(p: Parser, s: seq<byte>): (o: Outcome)
    ensures o.used <= |s|
    decreases |s|, Rank(p.at)
  {
    var m := Step(p, s);
    if m.Halt? then Outcome(m.par, m.used, m.stat) else Later(m.used, Run(m.par, s[m.used..]))
  }

  // ---------------------------------------------------------- resumability

  /** More bytes behind those a round looks at change nothing. */
  lemma StepExtends(p: Parser, a: seq<byte>, b: seq<byte>)
    requires !(Step(p, a).Halt? && Step(p, a).stat == Again)
    ensures Step(p, a + b) == Step(p, a)
  {
    assert |a| >= 2 ==> (a + b)[..2] == a[..2];
    assert |a| >= 4 ==> (a + b)[..4] == a[..4];
    assert |a| >= p.nameLen ==> (a + b)[..p.nameLen] == a[..p.nameLen];
    assert |a| >= p.valueLen ==> (a + b)[..p.valueLen] == a[..p.valueLen];
  }

  /** A run that does not ask for more bytes is not affected by them. */
  lemma {:induction false} RunExtends(p: Parser, a: seq<byte>, b: seq<byte>)
    requires Run(p, a).stat != Again
    ensures Run(p, a + b) == Run(p, a)
    decreases |a|, Rank(p.at)
  {
    StepExtends(p, a, b);
    var m := Step(p, a);
    if m.Go? {
      assert (a + b)[m.used..] == a[m.used..] + b;
      RunExtends(m.par, a[m.used..], b);
    }
  }

  /** A run that asked for more bytes can be resumed once they are there. */
  lemma {:induction false} RunResumes(p: Parser, a: seq<byte>, b: seq<byte>)
    requires Run(p, a).stat == Again
    ensures Later(Run(p, a).used, Run(Run(p, a).par, a[Run(p, a).used..] + b)) == Run(p, a + b)
    decreases |a|, Rank(p.at)
  {
    var m := Step(p, a);
    if m.Go? {
      StepExtends(p, a, b);
      assert (a + b)[m.used..] == a[m.used..] + b;
      RunResumes(m.par, a[m.used..], b);
      assert a[m.used..][Run(m.par, a[m.used..]).used..] == a[Run(p, a).used..];
    } else {
      assert a[0..] == a;
    }
  }

  /** A run on `a` and then a run on the rest of `a` followed by `b`. */
  function TwoRuns(p: Parser, a: seq<byte>, b: seq<byte>): Outcome {
    var o := Run(p, a);
    Later(o.used, Run(o.par, a[o.used..] + b))
  }

  lemma {:induction false} HaltedState(p: Parser, a: seq<byte>)
    ensures var o := Run(p, a);
            && (o.stat == Complete ==> o.par.at == MsgComplete)
            && (o.stat == Invalid ==> o.par.at == Magic || o.par.at == Version || o.par.at == NameLen || o.par.at == ValueType)
    decreases |a|, Rank(p.at)
  {
    var m := Step(p, a);
    if m.Go? { HaltedState(m.par, a[m.used..]); }
  }

  /** A run that starts where a byte is expected processes one, or has none to process. */
  lemma Proceeds(p: Parser, s: seq<byte>)
    requires p.at == Magic || p.at == Version || p.at == NameLen || p.at == ValueType
    ensures Run(p, s).stat == Again || Run(p, s).used > 0
  {}

  /** Split independence: feeding the bytes in two parts leaves the same parser, read position and status as feeding them
      at once, unless the first part was already refused; then a second run would go on behind the byte that was
      refused. */
  lemma SplitIndependence(p: Parser, a: seq<byte>, b: seq<byte>)
    ensures TwoRuns(p, a, b) == Run(p, a + b) <==> Run(p, a).stat != Invalid
  {
    var o := Run(p, a);
    HaltedState(p, a);
    if o.stat == Again {
      RunResumes(p, a, b);
    } else {
      RunExtends(p, a, b);
      if o.stat == Invalid { Proceeds(o.par, a[o.used..] + b); }
    }
  }

  // ------------------------------------------------------- the imperative code

  /** `struct vtm_nm_parser`. */
  class MsgParser {
    const host: Order
    var at: Place
    var msg: Option<Dataset>
    var count: nat
    var parsed: nat
    var nameLen: nat
    var name: cstring
    var typ: ElemType
    var valueLen: nat
    var value: Value

    function View(): Parser
      reads this
    {
      Parser(at, msg, count, parsed, nameLen, name, typ, valueLen, value)
    }

    /** `vtm_nm_parser_init`. */
    constructor (host: Order)
      ensures this.host == host && View() == START
    {
      this.host := host;
      at, msg, count, parsed, nameLen := MsgBegin, None, 0, 0, 0;
      name, typ, valueLen, value := [], Null, 0, Scalar(Null, 0);
    }

    /** Reads a number of `n` bytes in the byte order of the host. */
    method GetNumber(buf: Buf, n: nat) returns (v: nat)
      requires buf.Valid() && buf.order == BigEndian && n <= |buf.Unread()|
      modifies buf`read
      ensures buf.Valid() && buf.Contents() == old(buf.Contents())
      ensures v == Number(old(buf.Unread())[..n]) && buf.Unread() == old(buf.Unread())[n..]
    {
      ReorderedTwice(buf.Unread()[..n], BigEndian, host);
      var mem := buf.GetO(n, host);
      v := FromMemory(mem, host);
    }

    method GetValue(buf: Buf) returns (v: Value)
      requires buf.Valid() && buf.order == BigEndian && valueLen <= |buf.Unread()|
      modifies buf`read
      ensures buf.Valid() && buf.Contents() == old(buf.Contents())
      ensures v == ValueOf(typ, old(buf.Unread())[..valueLen]) && buf.Unread() == old(buf.Unread())[valueLen..]
    {
      if typ == String || typ == Blob {
        var mem := buf.GetO(valueLen, buf.order);
        v := ValueOf(typ, mem);
      } else {
        var bits := GetNumber(buf, valueLen);
        v := Scalar(typ, bits);
      }
    }

    /** The two bytes every message starts with. */
    method ReadMark(buf: Buf) returns (stat: Option<Stat>)
      requires buf.Valid() && buf.order == BigEndian && buf.len < SIZE
      requires at == Magic || at == Version
      modifies this, buf`read
      ensures buf.Valid() && buf.Contents() == old(buf.Contents())
      ensures Moved(old(View()), old(buf.Unread()), View(), buf.Unread(), stat)
    {
      if buf.used - buf.read < 1 {
        return Some(Again);
      }
      var c := buf.GetC();
      if c != if at == Magic then MAGIC else VERSION {
        return Some(Invalid);
      }
      at := if at == Magic then Version else FieldCount;
      stat := None;
    }

    /** The number of fields. */
    method ReadCount(buf: Buf) returns (stat: Option<Stat>)
      requires buf.Valid() && buf.order == BigEndian && buf.len < SIZE
      requires at == FieldCount
      modifies this, buf`read
      ensures buf.Valid() && buf.Contents() == old(buf.Contents())
      ensures Moved(old(View()), old(buf.Unread()), View(), buf.Unread(), stat)
    {
      if buf.used - buf.read < 2 {
        return Some(Again);
      }
      count := GetNumber(buf, 2);
      parsed := 0;
      at := FieldBegin;
      stat := None;
    }

    /** The length of a name, which must not be empty. */
    method ReadNameLen(buf: Buf) returns (stat: Option<Stat>)
      requires buf.Valid() && buf.order == BigEndian && buf.len < SIZE
      requires at == NameLen
      modifies this, buf`read
      ensures buf.Valid() && buf.Contents() == old(buf.Contents())
      ensures Moved(old(View()), old(buf.Unread()), View(), buf.Unread(), stat)
    {
      if buf.used - buf.read < 1 {
        return Some(Again);
      }
      nameLen := buf.GetC();
      if nameLen == 0 {
        return Some(Invalid);
      }
      at := Name;
      stat := None;
    }

    /** The name of a field. */
    method ReadName(buf: Buf) returns (stat: Option<Stat>)
      requires buf.Valid() && buf.order == BigEndian && buf.len < SIZE
      requires at == Name
      modifies this, buf`read
      ensures buf.Valid() && buf.Contents() == old(buf.Contents())
      ensures Moved(old(View()), old(buf.Unread()), View(), buf.Unread(), stat)
    {
      if buf.used - buf.read < nameLen {
        return Some(Again);
      }
      var mem := buf.GetO(nameLen, buf.order);
      name := CStr(mem);
      at := ValueType;
      stat := None;
    }

    /** The type of a value, which fixes its length unless it is a string or a blob. */
    method ReadType(buf: Buf) returns (stat: Option<Stat>)
      requires buf.Valid() && buf.order == BigEndian && buf.len < SIZE
      requires at == ValueType
      modifies this, buf`read
      ensures buf.Valid() && buf.Contents() == old(buf.Contents())
      ensures Moved(old(View()), old(buf.Unread()), View(), buf.Unread(), stat)
    {
      if buf.used - buf.read < 1 {
        return Some(Again);
      }
      var c := buf.GetC();
      var t := TypeFromNum(c);
      if t == Null {
        return Some(Invalid);
      }
      typ := t;
      if t == String || t == Blob {
        at := ValueLen;
      } else {
        valueLen := Size(t);
        at := ValueBody;
      }
      stat := None;
    }

    /** The length of a string or a blob. */
    method ReadValueLen(buf: Buf) returns (stat: Option<Stat>)
      requires buf.Valid() && buf.order == BigEndian && buf.len < SIZE
      requires at == ValueLen
      modifies this, buf`read
      ensures buf.Valid() && buf.Contents() == old(buf.Contents())
      ensures Moved(old(View()), old(buf.Unread()), View(), buf.Unread(), stat)
    {
      if buf.used - buf.read < 4 {
        return Some(Again);
      }
      valueLen := GetNumber(buf, 4);
      at := ValueBody;
      stat := None;
    }

    /** The value of a field. */
    method ReadBody(buf: Buf) returns (stat: Option<Stat>)
      requires buf.Valid() && buf.order == BigEndian && buf.len < SIZE
      requires at == ValueBody
      modifies this, buf`read
      ensures buf.Valid() && buf.Contents() == old(buf.Contents())
      ensures Moved(old(View()), old(buf.Unread()), View(), buf.Unread(), stat)
    {
      if buf.used - buf.read < valueLen {
        return Some(Again);
      }
      value := GetValue(buf);
      at := FieldComplete;
      stat := None;
    }

    /** One round of the loop below. */
    method Round(buf: Buf) returns (stat: Option<Stat>)
      requires buf.Valid() && buf.order == BigEndian && buf.len < SIZE
      modifies this, buf`read
      ensures buf.Valid() && buf.Contents() == old(buf.Contents())
      ensures Moved(old(View()), old(buf.Unread()), View(), buf.Unread(), stat)
    {
      match at
      case MsgBegin => at := Magic; stat := None;
      case FieldBegin => at := if parsed == count then MsgComplete else NameLen; stat := None;
      case FieldComplete =>
        msg := Stored(msg, name, value);
        parsed := parsed + 1;
        at := FieldBegin;
        stat := None;
      case MsgComplete => stat := Some(Complete);
      case FieldCount => stat := ReadCount(buf);
      case NameLen => stat := ReadNameLen(buf);
      case Name => stat := ReadName(buf);
      case ValueType => stat := ReadType(buf);
      case ValueLen => stat := ReadValueLen(buf);
      case ValueBody => stat := ReadBody(buf);
      case _ => stat := ReadMark(buf);
    }

    /** `vtm_nm_parser_run`: whatever the byte order of the host, it does what `Run` says. */
    method RunOn(buf: Buf) returns (stat: Stat)
      requires buf.Valid() && buf.order == BigEndian && buf.len < SIZE
      modifies this, buf`read
      ensures buf.Valid() && buf.Contents() == old(buf.Contents())
      ensures var o := Run(old(View()), old(buf.Unread()));
              stat == o.stat && View() == o.par && buf.Unread() == old(buf.Unread())[o.used..]
    {
      ghost var p0, s0, n := View(), buf.Unread(), 0;
      while true
        invariant buf.Valid() && buf.Contents() == old(buf.Contents())
        invariant 0 <= n <= |s0| && buf.Unread() == s0[n..]
        invariant Run(p0, s0) == Later(n, Run(View(), buf.Unread()))
        decreases |buf.Unread()|, Rank(at)
      {
        ghost var m := Step(View(), buf.Unread());
        var r := Round(buf);
        n := n + m.used;
        if r.Some? {
          return r.value;
        }
      }
    }

    /** `vtm_nm_parser_get_msg`: hands out the message of a finished run, once. */
    method GetMsg() returns (res: Option<Dataset>)
      modifies this
      ensures old(at) != MsgComplete ==> res == None && View() == old(View())
      ensures old(at) == MsgComplete ==> res == old(msg) && View() == old(View()).(msg := None, at := MsgBegin)
    {
      if at != MsgComplete {
        return None;
      }
      res := msg;
      msg := None;
      at := MsgBegin;
    }
  }

  /** `p`, `s` and `stat` are what one round makes of `p0` and `s0`. */
  ghost predicate Moved(p0: Parser, s0: seq<byte>, p: Parser, s: seq<byte>, stat: Option<Stat>) {
    var m := Step(p0, s0);
    p == m.par && s == s0[m.used..] && stat == (if m.Go? then None else Some(m.stat))
  }
}
