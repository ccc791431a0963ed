/**
What the WebSocket parser makes of frames: headers are read back exactly, and a valid sequence of frames yields the
messages that sections 5.4 and 5.5 of RFC 6455 define, however the bytes arrive.
*/
module WsReassembly {
  import opened Wrappers
  import opened Bytes
  import opened Buffer
  import opened WsFrame
  import opened WsParser

  // ----------------------------------------------------------- single rounds

  /** One round that processes exactly `a`. */
  lemma Eat(m: Mode, p: Parser, a: seq<byte>, rest: seq<byte>, p': Parser)
    requires Step(m, p, a + rest) == Go(p', |a|)
    ensures Run(m, p, a + rest) == Later(|a|, Run(m, p', rest))
  {
    assert (a + rest)[|a|..] == rest;
  }

  /** One round that processes nothing. */
  lemma Skip(m: Mode, p: Parser, s: seq<byte>, p': Parser)
    requires Step(m, p, s) == Go(p', 0)
    ensures Run(m, p, s) == Run(m, p', s)
  {
    assert s[0..] == s;
  }

  // ----------------------------------------------------------------- headers

  predicate Suits(m: Mode, masked: bit) { (m == Server) == (masked == 1) }

  /** The parser after the header of a frame. */
  function AfterHeader(p: Parser, d: Desc): Parser {
    p.(fin := d.fin, opcode := d.opcode, typ := if p.count == 0 && d.opcode < CLOSE then d.opcode else p.typ,
       masked := d.masked, len := d.len, mask := if d.masked == 1 then d.mask else p.mask, stage := Payload)
  }

  function AfterFirst(p: Parser, d: Desc): Parser {
    p.(fin := d.fin, opcode := d.opcode, typ := if p.count == 0 && d.opcode < CLOSE then d.opcode else p.typ,
       stage := MaskLen7)
  }

  predicate Plain(d: Desc) { IsDesc(d) && d.rsv1 == 0 && d.rsv2 == 0 && d.rsv3 == 0 }

  lemma FirstParses(m: Mode, p: Parser, d: Desc, rest: seq<byte>)
    requires p.stage == FinOpcode && Plain(d) && Follows(d.fin, d.opcode, p.count)
    ensures Run(m, p, [First(d)] + rest) == Later(1, Run(m, AfterFirst(p, d), rest))
  {
    Eat(m, p, [First(d)], rest, AfterFirst(p, d));
  }

  /** The parser after the second byte of a frame. */
  function AfterLen7(p: Parser, masked: bit, len: nat): Parser {
    p.(masked := masked, len := Len7(len),
       stage := if len > LEN16_MAX then Len64 else if len > LEN7_MAX then Len16 else Mask32)
  }

  lemma SecondByte(m: Mode, p: Parser, masked: bit, len: nat, c: byte)
    requires Suits(m, masked) && c == 128 * masked + Len7(len)
    ensures AtMaskLen7(m, p, c) == Go(AfterLen7(p, masked, len), 1)
  {}

  lemma SecondParses(m: Mode, p: Parser, masked: bit, len: nat, rest: seq<byte>)
    requires p.stage == MaskLen7 && Suits(m, masked)
    ensures Run(m, p, [128 * masked + Len7(len)] + rest) == Later(1, Run(m, AfterLen7(p, masked, len), rest))
  {
    hide Run, Extended;
    var c := 128 * masked + Len7(len);
    SecondByte(m, p, masked, len, c);
    Eat(m, p, [c], rest, AfterLen7(p, masked, len));
  }

  lemma Len16Parses(m: Mode, p: Parser, len: nat, rest: seq<byte>)
    requires p.stage == Len16 && LEN7_MAX < len <= LEN16_MAX
    ensures Run(m, p, Word(len, 2) + rest) == Later(2, Run(m, p.(len := len, stage := Mask32), rest))
  {
    Ranges();
    NumberOfWord(len, 2);
    assert (Word(len, 2) + rest)[..2] == Word(len, 2);
    Eat(m, p, Word(len, 2), rest, p.(len := len, stage := Mask32));
  }

  lemma Len64Parses(m: Mode, p: Parser, len: nat, rest: seq<byte>)
    requires p.stage == Len64 && LEN16_MAX < len <= LEN64_MAX && Accepted64(len)
    ensures Run(m, p, Word(len, 8) + rest) == Later(8, Run(m, p.(len := len, stage := Mask32), rest))
  {
    Ranges();
    NumberOfWord(len, 8);
    assert (Word(len, 8) + rest)[..8] == Word(len, 8);
    Eat(m, p, Word(len, 8), rest, p.(len := len, stage := Mask32));
  }

  lemma Len64Refused(m: Mode, p: Parser, len: nat, rest: seq<byte>)
    requires p.stage == Len64 && LEN16_MAX < len <= LEN64_MAX && !Accepted64(len)
    ensures Run(m, p, Word(len, 8) + rest).stat == Invalid
  {
    Ranges();
    NumberOfWord(len, 8);
    assert (Word(len, 8) + rest)[..8] == Word(len, 8);
  }

  /** The lengths the parser can read. */
  predicate Readable(len: nat) { len <= LEN16_MAX || (len <= LEN64_MAX && Accepted64(len)) }

  /** The extended length, if any. */
  lemma LengthParses(m: Mode, p: Parser, masked: bit, len: nat, rest: seq<byte>)
    requires Readable(len)
    ensures Run(m, AfterLen7(p, masked, len), Extended(len) + rest)
         == Later(|Extended(len)|, Run(m, p.(masked := masked, len := len, stage := Mask32), rest))
  {
    var q := AfterLen7(p, masked, len);
    if len > LEN16_MAX {
      Len64Parses(m, q, len, rest);
    } else if len > LEN7_MAX {
      Len16Parses(m, q, len, rest);
    } else {
      assert [] + rest == rest;
    }
  }

  function Key(masked: bit, mask: nat): seq<byte> {
    if masked == 1 then Word(mask, 4) else []
  }

  lemma KeyParses(m: Mode, p: Parser, mask: nat, rest: seq<byte>)
    requires p.stage == Mask32 && mask < WORD
    ensures var q := p.(mask := if p.masked == 1 then mask else p.mask, stage := Payload);
            Run(m, p, Key(p.masked, mask) + rest) == Later(|Key(p.masked, mask)|, Run(m, q, rest))
  {
    if p.masked == 1 {
      Ranges();
      NumberOfWord(mask, 4);
      assert (Word(mask, 4) + rest)[..4] == Word(mask, 4);
      Eat(m, p, Word(mask, 4), rest, p.(mask := mask, stage := Payload));
    } else {
      assert [] + rest == rest;
      Eat(m, p, [], rest, p.(stage := Payload));
    }
  }

  lemma HeaderIs(d: Desc, rest: seq<byte>)
    requires IsDesc(d)
    ensures Header(d) + rest == [First(d)] + ([128 * d.masked + Len7(d.len)] + (Extended(d.len) + (Key(d.masked, d.mask) + rest)))
    ensures |Header(d)| == 1 + (1 + (|Extended(d.len)| + |Key(d.masked, d.mask)|))
  {
    var a, b, c := [First(d)], [128 * d.masked + Len7(d.len)], Extended(d.len);
    assert (a + b + c + Key(d.masked, d.mask)) + rest == a + (b + (c + (Key(d.masked, d.mask) + rest)));
    assert [First(d), 128 * d.masked + Len7(d.len)] == a + b;
  }

  function AfterSecond(p: Parser, d: Desc): Parser {
    p.(masked := d.masked, len := d.len, mask := if d.masked == 1 then d.mask else p.mask, stage := Payload)
  }

  lemma TailParses(m: Mode, p: Parser, d: Desc, rest: seq<byte>)
    requires p.stage == MaskLen7 && Suits(m, d.masked) && IsDesc(d) && Readable(d.len)
    ensures Run(m, p, [128 * d.masked + Len7(d.len)] + (Extended(d.len) + (Key(d.masked, d.mask) + rest)))
         == Later(1 + (|Extended(d.len)| + |Key(d.masked, d.mask)|), Run(m, AfterSecond(p, d), rest))
  {
    var s3 := Key(d.masked, d.mask) + rest;
    var q := p.(masked := d.masked, len := d.len, stage := Mask32);
    SecondParses(m, p, d.masked, d.len, Extended(d.len) + s3);
    LengthParses(m, p, d.masked, d.len, s3);
    KeyParses(m, q, d.mask, rest);
    LaterTwice(|Extended(d.len)|, |Key(d.masked, d.mask)|, Run(m, AfterSecond(p, d), rest));
    LaterTwice(1, |Extended(d.len)| + |Key(d.masked, d.mask)|, Run(m, AfterSecond(p, d), rest));
  }

  lemma TailRefused(m: Mode, p: Parser, d: Desc, rest: seq<byte>)
    requires p.stage == MaskLen7 && Suits(m, d.masked) && IsDesc(d) && d.len <= LEN64_MAX && !Readable(d.len)
    ensures Run(m, p, [128 * d.masked + Len7(d.len)] + (Extended(d.len) + (Key(d.masked, d.mask) + rest))).stat == Invalid
  {
    var s3 := Key(d.masked, d.mask) + rest;
    SecondParses(m, p, d.masked, d.len, Extended(d.len) + s3);
    Len64Refused(m, AfterLen7(p, d.masked, d.len), d.len, s3);
  }

  /** Reading a written header recovers the flag, the opcode, the key and the length; the parser refuses it if and only if
      the length needs 64 bits and its bit 31 is set. */
  lemma HeaderParses(m: Mode, p: Parser, d: Desc, rest: seq<byte>)
    requires p.stage == FinOpcode && Plain(d) && Follows(d.fin, d.opcode, p.count) && Suits(m, d.masked)
    requires d.len <= LEN64_MAX
    ensures if d.len <= LEN16_MAX || d.len / 0x8000_0000 % 2 == 0
            then Run(m, p, Header(d) + rest) == Later(|Header(d)|, Run(m, AfterHeader(p, d), rest))
            else Run(m, p, Header(d) + rest).stat == Invalid
  {
    HeaderIs(d, rest);
    FirstParses(m, p, d, [128 * d.masked + Len7(d.len)] + (Extended(d.len) + (Key(d.masked, d.mask) + rest)));
    if Readable(d.len) {
      TailParses(m, AfterFirst(p, d), d, rest);
      LaterTwice(1, 1 + (|Extended(d.len)| + |Key(d.masked, d.mask)|), Run(m, AfterHeader(p, d), rest));
    } else {
      TailRefused(m, AfterFirst(p, d), d, rest);
    }
  }

  /** The rounds of the parser up to the payload of a frame, and how many bytes they process. */
  function ToPayload(m: Mode, p: Parser, s: seq<byte>): (r: Option<(Parser, nat)>)
    ensures r.Some? ==> r.value.1 <= |s|
    decreases |s|, Rank(p.stage)
  {
    if p.stage == Payload then Some((p, 0)) else
    var r := Step(m, p, s);
    if r.Halt? then None else
    var t := ToPayload(m, r.par, s[r.used..]);
    if t.None? then None else Some((t.value.0, r.used + t.value.1))
  }

  /** The first of the rounds, and the others. */
  lemma OneRound(m: Mode, p: Parser, s: seq<byte>)
    requires p.stage != Payload && ToPayload(m, p, s).Some?
    ensures var r := Step(m, p, s);
            && r.Go? && ToPayload(m, r.par, s[r.used..]).Some?
            && ToPayload(m, p, s).value.0 == ToPayload(m, r.par, s[r.used..]).value.0
            && s[..ToPayload(m, p, s).value.1] == s[..r.used] + s[r.used..][..ToPayload(m, r.par, s[r.used..]).value.1]
  {}

  lemma KeyCanonical(m: Mode, p: Parser, s: seq<byte>)
    requires p.stage == Mask32 && ToPayload(m, p, s).Some?
    ensures var (q, n) := ToPayload(m, p, s).value;
            s[..n] == Key(q.masked, q.mask) && q == p.(mask := q.mask, stage := Payload)
  {
    OneRound(m, p, s);
    if p.masked == 1 { WordOfNumber(s[..4]); }
  }

  /** The bytes after the second. */
  lemma LengthCanonical(m: Mode, p: Parser, s: seq<byte>)
    requires p.stage == (if p.len == LEN16_ID then Len16 else if p.len == LEN64_ID then Len64 else Mask32)
    requires p.len < 128 && ToPayload(m, p, s).Some?
    ensures var (q, n) := ToPayload(m, p, s).value;
            && s[..n] == Extended(q.len) + Key(q.masked, q.mask) && Len7(q.len) == p.len
            && q.fin == p.fin && q.opcode == p.opcode && q.masked == p.masked
  {
    if p.stage == Mask32 {
      KeyCanonical(m, p, s);
    } else {
      var n := if p.stage == Len16 then 2 else 8;
      OneRound(m, p, s);
      Ranges();
      WordOfNumber(s[..n]);
      KeyCanonical(m, p.(len := Number(s[..n]), stage := Mask32), s[n..]);
    }
  }

  lemma SecondCanonical(m: Mode, p: Parser, c: byte)
    requires AtMaskLen7(m, p, c).Go?
    ensures var q := AtMaskLen7(m, p, c).par;
            && q.stage == (if q.len == LEN16_ID then Len16 else if q.len == LEN64_ID then Len64 else Mask32)
            && q.len < 128 && 128 * q.masked + q.len == c && q.fin == p.fin && q.opcode == p.opcode
  {}

  lemma TailCanonical(m: Mode, p: Parser, s: seq<byte>)
    requires p.stage == MaskLen7 && ToPayload(m, p, s).Some?
    ensures var (q, n) := ToPayload(m, p, s).value;
            && s[..n] == [128 * q.masked + Len7(q.len)] + (Extended(q.len) + Key(q.masked, q.mask))
            && q.fin == p.fin && q.opcode == p.opcode
  {
    OneRound(m, p, s);
    SecondCanonical(m, p, s[0]);
    LengthCanonical(m, AtMaskLen7(m, p, s[0]).par, s[1..]);
  }

  lemma FirstCanonical(p: Parser, c: byte)
    requires AtFinOpcode(p, c).Go?
    ensures var q := AtFinOpcode(p, c).par; q.stage == MaskLen7 && q.opcode < 16 && 128 * q.fin + q.opcode == c
  {
    assert c == 128 * (c / 128) + 16 * (c / 16 % 8) + c % 16;
  }

  lemma HeaderParts(d: Desc)
    requires d.opcode < 16 && d.rsv1 == 0 && d.rsv2 == 0 && d.rsv3 == 0
    ensures Header(d) == [128 * d.fin + d.opcode] + ([128 * d.masked + Len7(d.len)] + (Extended(d.len) + Key(d.masked, d.mask)))
  {}

  /** Only one byte sequence is read as a given header: the one that is written, with the length in its shortest form. */
  lemma HeaderCanonical(m: Mode, p: Parser, s: seq<byte>)
    requires p.stage == FinOpcode && ToPayload(m, p, s).Some?
    ensures var (q, n) := ToPayload(m, p, s).value;
            q.opcode < 16 && s[..n] == Header(Desc(q.fin, 0, 0, 0, q.opcode, q.masked, q.mask, q.len))
  {
    hide ToPayload, Extended, Key;
    var (q, n) := ToPayload(m, p, s).value;
    OneRound(m, p, s);
    FirstCanonical(p, s[0]);
    TailCanonical(m, AtFinOpcode(p, s[0]).par, s[1..]);
    Glue(s, n, q, ToPayload(m, AtFinOpcode(p, s[0]).par, s[1..]).value.1);
  }

  lemma Glue(s: seq<byte>, n: nat, q: Parser, k: nat)
    requires |s| > 0 && n <= |s| && k <= |s| - 1 && s[..n] == s[..1] + s[1..][..k]
    requires q.opcode < 16 && 128 * q.fin + q.opcode == s[0]
    requires s[1..][..k] == [128 * q.masked + Len7(q.len)] + (Extended(q.len) + Key(q.masked, q.mask))
    ensures s[..n] == Header(Desc(q.fin, 0, 0, 0, q.opcode, q.masked, q.mask, q.len))
  {
    HeaderParts(Desc(q.fin, 0, 0, 0, q.opcode, q.masked, q.mask, q.len));
    assert s[..1] == [s[0]];
  }
}
