/**
Chunked message bodies, section 4.1 of RFC 7230: what `vtm_http_res_write_chunked` writes, and how the body states of
`vtm_http_parser_run` decode it in place, moving the chunks together within the buffer.
*/
module Chunked {
  import opened Wrappers
  import opened Bytes
  import opened Buffer
  import opened HexDigits

  const CR: byte := 13

  const LF: byte := 10

  const CRLF: seq<byte> := [13, 10]

  // ------------------------------------------------------------------ writer

  /** The hexadecimal representation without leading zeros. */
  function Hex(v: nat): (s: seq<byte>)
    ensures |s| > 0
  {
    if v < 16 then [HexChar(v)] else Hex(v / 16) + [HexChar(v % 16)]
  }

  lemma HexStep(v: nat, n: nat)
    requires v < 16 * n && n > 0
    ensures v / 16 < n
  {}

  /** A 64-bit size has at most 16 digits. */
  lemma HexShort(v: nat)
    requires v < SIZE
    ensures |Hex(v)| <= 16
  {
    HexBound(v, 15);
  }

  lemma {:induction false} HexBound(v: nat, k: nat)
    requires v < 16 * Sixteens(k)
    ensures |Hex(v)| <= k + 1
    decreases k
  {
    if k > 0 && v >= 16 {
      HexStep(v, Sixteens(k));
      HexBound(v / 16, k - 1);
    }
  }

  /** 16 to the power of `k`. */
  function Sixteens(k: nat): (r: nat)
    ensures r > 0
  {
    if k == 0 then 1 else 16 * Sixteens(k - 1)
  }

  /** The counting loop of `vtm_fmt_hex_size`. */
  method HexLength(val: nat) returns (n: nat)
    ensures n == |Hex(val)|
  {
    var r := val;
    n := 1;
    while r > 15
      invariant n >= 1 && n - 1 + |Hex(r)| == |Hex(val)|
      decreases r
    {
      r := r / 16;
      n := n + 1;
    }
  }

  /** `vtm_fmt_hex_size` into `dst` from `at` on: the digits are written from the last to the first. */
  method FormatHex(dst: array<byte>, at: nat, val: nat) returns (n: nat)
    requires at + |Hex(val)| <= dst.Length
    modifies dst
    ensures n == |Hex(val)| && dst[at..at + n] == Hex(val)
    ensures dst[..at] == old(dst[..at])
  {
    n := HexLength(val);
    var r, v := n, val;
    while r > 0
      invariant 0 <= r <= n
      invariant r > 0 ==> Hex(v) + dst[at + r..at + n] == Hex(val) && |Hex(v)| == r
      invariant r == 0 ==> dst[at..at + n] == Hex(val)
      invariant dst[..at] == old(dst[..at])
    {
      dst[at + r - 1] := HexChar(v % 16);
      assert dst[at + r - 1..at + n] == [HexChar(v % 16)] + dst[at + r..at + n];
      v := v / 16;
      r := r - 1;
    }
  }

  /** One chunk; without data, the one that ends the body. */
  function Chunk(data: seq<byte>): seq<byte> { Hex(|data|) + CRLF + data + CRLF }

  /** Writes the size where the buffer has room for it. */
  method PutHex(buf: Buf, v: nat)
    requires buf.Valid() && buf.len < SIZE && v < SIZE
    modifies buf, buf.data
    ensures buf.Valid() && buf.len < SIZE && (buf.data == old(buf.data) || fresh(buf.data))
    ensures old(buf.err) != Ok ==> buf.err != Ok
    ensures old(buf.Contents()) <= buf.Contents() && buf.read == old(buf.read)
    ensures buf.err == Ok ==> buf.Contents() == old(buf.Contents()) + Hex(v)
    ensures old(buf.err) == Ok && old(buf.used) + |Hex(v)| <= QUARTER ==> buf.err == Ok
  {
    var n := HexLength(v);
    HexShort(v);
    var rc := buf.Ensure(n);
    if rc != Ok {
      return;
    }
    ghost var was := buf.Contents();
    var _ := FormatHex(buf.data, buf.used, v);
    assert buf.data[..buf.used + n] == was + Hex(v);
    buf.used := buf.used + n;
  }

  /** What follows the size. */
  method PutContent(buf: Buf, src: seq<byte>) returns (rc: Error)
    requires buf.Valid() && buf.len < SIZE && |src| < SIZE
    modifies buf, buf.data
    ensures buf.Valid() && buf.len < SIZE && rc == buf.err
    ensures buf.read == old(buf.read) && (buf.data == old(buf.data) || fresh(buf.data))
    ensures old(buf.err) != Ok ==> rc != Ok
    ensures rc == Ok ==> buf.Contents() == old(buf.Contents()) + (CRLF + src + CRLF)
    ensures old(buf.err) == Ok && old(buf.used) + |src| + 4 <= QUARTER ==> rc == Ok
  {
    var _ := buf.PutM(CRLF);
    var _ := buf.PutM(src);
    var _ := buf.PutM(CRLF);
    rc := buf.err;
  }

  lemma ChunkIs(data: seq<byte>, before: seq<byte>)
    ensures before + Chunk(data) == (before + Hex(|data|)) + (CRLF + data + CRLF)
    ensures |Chunk(data)| == |Hex(|data|)| + |data| + 4
  {
    Associate(before, Hex(|data|), CRLF + data + CRLF);
    assert Chunk(data) == Hex(|data|) + (CRLF + data + CRLF);
  }

  /** `vtm_http_res_write_chunked`. */
  method WriteChunked(buf: Buf, src: seq<byte>) returns (rc: Error)
    requires buf.Valid() && buf.len < SIZE && |src| < SIZE
    modifies buf, buf.data
    ensures buf.Valid() && buf.len < SIZE && rc == buf.err
    ensures buf.read == old(buf.read) && (buf.data == old(buf.data) || fresh(buf.data))
    ensures old(buf.err) != Ok ==> rc != Ok
    ensures rc == Ok ==> buf.Contents() == old(buf.Contents()) + Chunk(src)
    ensures old(buf.err) == Ok && old(buf.used) + |Chunk(src)| <= QUARTER ==> rc == Ok
  {
    hide Hex, Chunk;
    ChunkIs(src, buf.Contents());
    PutHex(buf, |src|);
    if buf.err != Ok {
      return buf.err;
    }
    rc := PutContent(buf, src);
  }

  // ------------------------------------------------------------------ parser

  datatype Place = Body | Size | SizeLf | Content | EndLf | Done

  datatype Stat = Again | Complete | Invalid

  /** The decoder: the size of the chunk, what has been read of it, and the decoded body. */
  datatype Decoder = Decoder(at: Place, size: nat, cur: seq<byte>, out: seq<byte>)

  const START: Decoder := Decoder(Body, 0, [], [])

  function AtSize(d: Decoder, c: byte): (Decoder, Option<Stat>) {
    if c == CR then (d.(at := SizeLf), None)
    else if HexValue(c) == None then (d, Some(Invalid))
    else (d.(size := (16 * d.size + HexValue(c).value) % SIZE), None)
  }

  /** One byte of the body. */
  function Eat(d: Decoder, c: byte): (Decoder, Option<Stat>) {
    match d.at
    case Body => AtSize(d.(at := Size, size := 0), c)
    case Size => AtSize(d, c)
    case SizeLf => if c == LF then (d.(at := Content, cur := []), None) else (d, Some(Invalid))
    case Content =>
      if |d.cur| < d.size then (d.(cur := d.cur + [c]), None)
      else if c == CR then (d.(at := EndLf), None) else (d, Some(Invalid))
    case EndLf =>
      if c != LF then (d, Some(Invalid))
      else if d.size == 0 then (d.(at := Done), Some(Complete))
      else (d.(at := Body, out := d.out + d.cur, cur := []), None)
    case Done => (d, Some(Complete))
  }

  lemma AtEnd(d: Decoder, c: byte)
    requires d.at == EndLf
    ensures Eat(d, c) == if c != LF then (d, Some(Invalid)) else if d.size == 0 then (d.(at := Done), Some(Complete))
                         else (d.(at := Body, out := d.out + d.cur, cur := []), None)
  {}

  datatype Outcome = Outcome(dec: Decoder, used: nat, stat: Stat)

  function Later(n: nat, o: Outcome): Outcome { o.(used := n + o.used) }

  /** One run on the bytes `s`, of which `limit` may be processed before the body counts as too large. */
  function Decode(d: Decoder, s: seq<byte>, limit: int): (o: Outcome)
    ensures o.used <= |s|
    decreases |s|
  {
    if s == [] then Outcome(d, 0, Again)
    else if limit < 0 then Outcome(d, 0, Invalid)
    else
      var (e, stat) := Eat(d, s[0]);
      if stat.Some? then Outcome(e, 1, stat.value) else Later(1, Decode(e, s[1..], limit - 1))
  }

  /** One round, when `n` bytes were decoded before. */
  lemma DecodeOne(o: Outcome, n: nat, d: Decoder, s: seq<byte>, limit: int, e: Decoder, stat: Option<Stat>)
    requires s != [] && o == Later(n, Decode(d, s, limit)) && limit >= 0 && (e, stat) == Eat(d, s[0])
    ensures o == if stat.Some? then Outcome(e, n + 1, stat.value) else Later(n + 1, Decode(e, s[1..], limit - 1))
  {}

  // -------------------------------------------------------------- round trip

  /** The chunks and the one that ends the body. */
  function Encoded(chunks: seq<seq<byte>>): seq<byte> {
    if chunks == [] then Chunk([]) else Chunk(chunks[0]) + Encoded(chunks[1..])
  }

  /** Bytes that are all processed without an end. */
  function Eats(d: Decoder, s: seq<byte>): (Decoder, bool)
    decreases |s|
  {
    if s == [] then (d, true) else
    var (e, stat) := Eat(d, s[0]);
    if stat.Some? then (e, false) else Eats(e, s[1..])
  }

  lemma {:induction false} DecodeEats(d: Decoder, a: seq<byte>, rest: seq<byte>, limit: int)
    requires Eats(d, a).1 && limit >= |a| - 1
    ensures Decode(d, a + rest, limit) == Later(|a|, Decode(Eats(d, a).0, rest, limit - |a|))
    decreases |a|
  {
    if a == [] {
      assert [] + rest == rest;
    } else {
      assert (a + rest)[0] == a[0] && (a + rest)[1..] == a[1..] + rest;
      DecodeEats(Eat(d, a[0]).0, a[1..], rest, limit - 1);
    }
  }

  lemma {:induction false} EatsJoin(d: Decoder, a: seq<byte>, b: seq<byte>)
    requires Eats(d, a).1
    ensures Eats(d, a + b) == Eats(Eats(d, a).0, b)
    decreases |a|
  {
    if a == [] {
      assert [] + b == b;
    } else {
      assert (a + b)[0] == a[0] && (a + b)[1..] == a[1..] + b;
      EatsJoin(Eat(d, a[0]).0, a[1..], b);
    }
  }

  lemma DigitValue(d: nat)
    requires d < 16
    ensures HexValue(HexChar(d)) == Some(d) && HexChar(d) != CR
  {}

  /** Reading a written size recovers it. */
  lemma {:induction false} HexParses(d: Decoder, v: nat)
    requires d.at == Body && v < SIZE
    ensures Eats(d, Hex(v)) == (d.(at := Size, size := v), true)
  {
    DigitValue(v % 16);
    if v < 16 {
      assert Hex(v)[1..] == [];
    } else {
      HexParses(d, v / 16);
      var last := [HexChar(v % 16)];
      EatsJoin(d, Hex(v / 16), last);
      assert last[1..] == [];
      assert 16 * (v / 16) + v % 16 == v;
    }
  }

  lemma {:induction false} ContentParses(d: Decoder, data: seq<byte>)
    requires d.at == Content && |d.cur| + |data| == d.size
    ensures Eats(d, data) == (d.(cur := d.cur + data), true)
    decreases |data|
  {
    if data == [] {
      assert d.cur + [] == d.cur;
    } else {
      ContentParses(Eat(d, data[0]).0, data[1..]);
      assert d.cur + [data[0]] + data[1..] == d.cur + data;
    }
  }

  lemma LineParses(d: Decoder)
    ensures d.at == Size ==> Eats(d, CRLF) == (d.(at := Content, cur := []), true)
    ensures d.at == Content && |d.cur| == d.size > 0 ==>
              Eats(d, CRLF) == (d.(at := Body, out := d.out + d.cur, cur := []), true)
  {
    assert CRLF[1..] == [LF] && [LF][1..] == [];
    assert Eats(d, CRLF) == Eats(Eat(d, CR).0, [LF]) || Eat(d, CR).1.Some?;
  }

  /** The decoder after a chunk. */
  function AfterChunk(d: Decoder, data: seq<byte>): Decoder {
    d.(size := |data|, cur := [], out := d.out + data)
  }

  /** A chunk with data is added to the body. */
  lemma ChunkParses(d: Decoder, data: seq<byte>)
    requires d.at == Body && 0 < |data| < SIZE
    ensures Eats(d, Chunk(data)) == (AfterChunk(d, data), true)
  {
    var d1 := d.(at := Size, size := |data|);
    var d2 := d1.(at := Content, cur := []);
    HexParses(d, |data|);
    LineParses(d1);
    ContentParses(d2, data);
    assert [] + data == data;
    LineParses(d2.(cur := data));
    EatsJoin(d, Hex(|data|), CRLF);
    EatsJoin(d, Hex(|data|) + CRLF, data);
    EatsJoin(d, Hex(|data|) + CRLF + data, CRLF);
  }

  /** The chunk without data ends the body. */
  lemma EndParses(d: Decoder, rest: seq<byte>, limit: int)
    requires d.at == Body && limit >= 4
    ensures Decode(d, Chunk([]) + rest, limit) == Outcome(d.(at := Done, size := 0, cur := []), 5, Complete)
  {
    var d1 := d.(at := Content, size := 0, cur := []);
    var s := [LF] + rest;
    assert Chunk([]) == [48] + CRLF + CRLF;
    assert Chunk([]) + rest == ([48] + CRLF) + (CRLF + rest);
    HexParses(d, 0);
    assert Hex(0) == [48];
    EatsJoin(d, [48], CRLF);
    LineParses(d.(at := Size, size := 0));
    DecodeEats(d, [48] + CRLF, CRLF + rest, limit);
    assert (CRLF + rest)[0] == CR && (CRLF + rest)[1..] == s && s[0] == LF;
    assert Eat(d1, CR) == (d1.(at := EndLf), None);
  }

  lemma ChunkDecodes(d: Decoder, data: seq<byte>, tail: seq<byte>, limit: int)
    requires d.at == Body && 0 < |data| < SIZE && limit >= |Chunk(data)| - 1
    ensures Decode(d, Chunk(data) + tail, limit)
         == Later(|Chunk(data)|, Decode(AfterChunk(d, data), tail, limit - |Chunk(data)|))
  {
    ChunkParses(d, data);
    DecodeEats(d, Chunk(data), tail, limit);
  }

  /** Decoding what was written for non-empty chunks gives their concatenation and processes exactly their bytes. */
  lemma {:induction false} RoundTrip(d: Decoder, chunks: seq<seq<byte>>, rest: seq<byte>, limit: int)
    requires d.at == Body && (forall c | c in chunks :: 0 < |c| < SIZE) && limit >= |Encoded(chunks)| - 1
    ensures var o := Decode(d, Encoded(chunks) + rest, limit);
            o.stat == Complete && o.used == |Encoded(chunks)| && o.dec.out == d.out + Joined(chunks)
    decreases |chunks|
  {
    hide Decode;
    if chunks == [] {
      EndParses(d, rest, limit);
    } else {
      var c, tail := chunks[0], Encoded(chunks[1..]) + rest;
      Associate(Chunk(c), Encoded(chunks[1..]), rest);
      ChunkDecodes(d, c, tail, limit);
      RoundTrip(AfterChunk(d, c), chunks[1..], rest, limit - |Chunk(c)|);
      Associate(d.out, c, Joined(chunks[1..]));
    }
  }

  lemma {:induction false} DecodeTooLarge(d: Decoder, a: seq<byte>, s: seq<byte>, limit: int)
    requires Eats(d, a).1 && a < s && limit < |a|
    ensures Decode(d, s, limit).stat == Invalid
    decreases |a|
  {
    if limit >= 0 {
      DecodeTooLarge(Eat(d, a[0]).0, a[1..], s[1..], limit - 1);
    }
  }

  lemma EndTooLarge(d: Decoder, rest: seq<byte>, limit: int)
    requires d.at == Body && limit < 4
    ensures Decode(d, Chunk([]) + rest, limit).stat == Invalid
  {
    var d0, d1 := d.(at := Size, size := 0), d.(at := Content, size := 0, cur := []);
    var a, b := [48] + CRLF, [CR];
    HexParses(d, 0);
    assert Hex(0) == [48];
    EatsJoin(d, [48], CRLF);
    LineParses(d0);
    EatsJoin(d, a, b);
    assert b[1..] == [] && Eat(d1, CR).1 == None;
    assert Chunk([]) + rest == (a + b) + ([LF] + rest);
    DecodeTooLarge(d, a + b, Chunk([]) + rest, limit);
  }

  /** A body whose last byte lies behind the limit is refused. */
  lemma {:induction false} TooLarge(d: Decoder, chunks: seq<seq<byte>>, rest: seq<byte>, limit: int)
    requires d.at == Body && (forall c | c in chunks :: 0 < |c| < SIZE) && limit < |Encoded(chunks)| - 1
    ensures Decode(d, Encoded(chunks) + rest, limit).stat == Invalid
    decreases |chunks|
  {
    hide Decode;
    if chunks == [] {
      EndTooLarge(d, rest, limit);
    } else {
      var c, tail := chunks[0], Encoded(chunks[1..]) + rest;
      Associate(Chunk(c), Encoded(chunks[1..]), rest);
      if limit < |Chunk(c)| {
        ChunkParses(d, c);
        DecodeTooLarge(d, Chunk(c), Chunk(c) + tail, limit);
      } else {
        ChunkDecodes(d, c, tail, limit);
        TooLarge(AfterChunk(d, c), chunks[1..], rest, limit - |Chunk(c)|);
      }
    }
  }

  // ------------------------------------------------------- decoding in place

  /** The bytes of an array after `n` of them were copied from `src` to `dst`. */
  function Copied(w: seq<byte>, dst: nat, src: nat, n: nat): seq<byte>
    requires dst <= src && src + n <= |w|
  {
    w[..dst] + w[src..src + n] + w[dst + n..]
  }

  lemma CopiedParts(w: seq<byte>, dst: nat, src: nat, n: nat, i: nat, j: nat, k: nat)
    requires i <= dst <= src && src + n <= j <= k <= |w|
    ensures var c := Copied(w, dst, src, n);
            |c| == |w| && c[..i] == w[..i] && c[i..dst + n] == w[i..dst] + w[src..src + n] && c[j..k] == w[j..k]
  {}

  /** `memmove` towards the start of an array. */
  method CopyDown(a: array<byte>, dst: nat, src: nat, n: nat)
    requires dst <= src && src + n <= a.Length
    modifies a
    ensures a[..] == Copied(old(a[..]), dst, src, n)
  {
    forall k | 0 <= k < n {
      a[dst + k] := a[src + k];
    }
  }

  lemma FirstOf(a: array<byte>, i: nat, j: nat)
    requires i < j <= a.Length
    ensures a[i..j][0] == a[i] && a[i..j][1..] == a[i + 1..j]
  {}

  lemma Slice(a: array<byte>, i: nat, j: nat)
    requires i <= j <= a.Length
    ensures a[i..j] == a[..][i..j]
  {}

  /** The fields of `struct vtm_http_parser` that the chunked body states use. */
  class BodyParser {
    const maxBody: nat
    const bodyBegin: nat
    var at: Place
    /** The state of the previous byte, and the bytes seen in the present state. */
    var oldAt: Place
    var chars: nat
    var dst: nat
    var begin: nat
    var size: nat
    var bodyLen: nat

    /** The parser after the headers of a message with a chunked body. */
    constructor (bodyBegin: nat, maxBody: nat)
      requires bodyBegin > 0
      ensures this.bodyBegin == bodyBegin && this.maxBody == maxBody
      ensures at == Body && oldAt == Body && dst == 0 && begin == 0 && bodyLen == 0 && size == 0
    {
      this.bodyBegin, this.maxBody := bodyBegin, maxBody;
      at, oldAt, chars, dst, begin, size, bodyLen := Body, Body, 0, 0, 0, 0, 0;
    }

    /** Where the next chunk goes. */
    function Target(): nat
      reads this
    {
      if dst == 0 then bodyBegin else dst
    }

    /** With the bytes before `pos` processed: the decoded body never reaches the chunk that is being read, so no unread
        byte is overwritten. */
    ghost predicate ValidAt(buf: Buf, pos: nat)
      reads this, buf
    {
      && buf.Valid() && 0 < bodyBegin && Target() == bodyBegin + bodyLen && Target() <= pos <= buf.read
      && (at == Content ==> Target() <= begin <= pos && pos - begin <= size
                            && (oldAt != Content ==> begin == pos) && (oldAt == Content ==> chars == pos - begin))
      && (at == EndLf ==> Target() <= begin && begin + size + 1 == pos)
    }

    ghost function ViewAt(buf: Buf, pos: nat): Decoder
      requires ValidAt(buf, pos)
      reads this, buf, buf.data
    {
      Decoder(at, size, if at == Content then buf.data[begin..pos] else if at == EndLf then buf.data[begin..begin + size]
                        else [],
              buf.data[bodyBegin..Target()])
    }

    /** `memmove` of the chunk behind the body decoded so far. */
    method MoveChunk(buf: Buf)
      requires buf.Valid() && bodyBegin <= dst <= begin && begin + size <= buf.read
      modifies buf.data
      ensures buf.data[bodyBegin..dst + size] == old(buf.data[bodyBegin..dst] + buf.data[begin..begin + size])
      ensures buf.Unread() == old(buf.Unread())
      ensures buf.data[..bodyBegin] == old(buf.data[..bodyBegin])
    {
      hide Copied;
      CopiedParts(buf.data[..], dst, begin, size, bodyBegin, buf.read, buf.used);
      Slice(buf.data, bodyBegin, dst);
      Slice(buf.data, begin, begin + size);
      Slice(buf.data, buf.read, buf.used);
      Slice(buf.data, 0, bodyBegin);
      CopyDown(buf.data, dst, begin, size);
      Slice(buf.data, bodyBegin, dst + size);
      Slice(buf.data, buf.read, buf.used);
      Slice(buf.data, 0, bodyBegin);
    }

    /** The end of a chunk with data, which is moved to the decoded ones. */
    method FinishChunk(buf: Buf, pos: nat)
      requires ValidAt(buf, pos) && buf.read == pos + 1 && at == EndLf && size > 0
      modifies this`dst, this`bodyLen, this`at, buf.data
      ensures ValidAt(buf, pos + 1) && buf.Unread() == old(buf.Unread())
      ensures var d := old(ViewAt(buf, pos)); ViewAt(buf, pos + 1) == d.(at := Body, out := d.out + d.cur, cur := [])
      ensures buf.data[..bodyBegin] == old(buf.data[..bodyBegin])
    {
      hide Capacity;
      ghost var d := ViewAt(buf, pos);
      dst := Target();
      assert d.out == buf.data[bodyBegin..dst] && d.cur == buf.data[begin..begin + size];
      MoveChunk(buf);
      assert buf.data[bodyBegin..dst + size] == d.out + d.cur;
      dst := dst + size;
      bodyLen := bodyLen + size;
      at := Body;
    }

    /** A byte of a chunk size. */
    method EvalSize(buf: Buf, pos: nat, c: byte) returns (stat: Option<Stat>)
      requires ValidAt(buf, pos) && buf.read == pos + 1 && at == Size
      modifies this`size, this`at
      ensures ValidAt(buf, pos + 1) && (ViewAt(buf, pos + 1), stat) == AtSize(old(ViewAt(buf, pos)), c)
    {
      if c == CR {
        at := SizeLf;
        return None;
      }
      var v := HexValue(c);
      if v == None {
        return Some(Invalid);
      }
      size := (16 * size + v.value) % SIZE;
      stat := None;
    }

    /** A byte of a chunk, or the one behind it. */
    method EvalContent(buf: Buf, pos: nat, c: byte) returns (stat: Option<Stat>)
      requires ValidAt(buf, pos) && buf.read == pos + 1 && at == Content && c == buf.data[pos]
      modifies this`at, this`oldAt, this`chars
      ensures (stat != Some(Invalid) ==> ValidAt(buf, pos + 1))
      ensures var r := Eat(old(ViewAt(buf, pos)), c);
              stat == r.1 && (stat != Some(Invalid) ==> ViewAt(buf, pos + 1) == r.0)
    {
      if at != oldAt {
        oldAt := at;
        chars := 0;
      }
      chars := chars + 1;
      stat := None;
      if chars <= size {
        assert buf.data[begin..pos + 1] == buf.data[begin..pos] + [c];
        return;
      }
      if c != CR {
        return Some(Invalid);
      }
      at := EndLf;
    }

    /** The first byte of a chunk size. */
    method EvalBody(buf: Buf, pos: nat, c: byte) returns (stat: Option<Stat>)
      requires ValidAt(buf, pos) && buf.read == pos + 1 && at == Body
      modifies this
      ensures ValidAt(buf, pos + 1) && (ViewAt(buf, pos + 1), stat) == Eat(old(ViewAt(buf, pos)), c)
    {
      dst := Target();
      size := 0;
      at, oldAt, chars := Size, Size, 1;
      stat := EvalSize(buf, pos, c);
    }

    /** The byte that ends a chunk. */
    method EvalEnd(buf: Buf, pos: nat, c: byte) returns (stat: Option<Stat>)
      requires ValidAt(buf, pos) && buf.read == pos + 1 && at == EndLf
      modifies this, buf.data
      ensures (stat != Some(Invalid) ==> ValidAt(buf, pos + 1)) && buf.Unread() == old(buf.Unread())
      ensures var r := Eat(old(ViewAt(buf, pos)), c);
              stat == r.1 && (stat != Some(Invalid) ==> ViewAt(buf, pos + 1) == r.0)
      ensures buf.data[..bodyBegin] == old(buf.data[..bodyBegin])
    {
      hide Eat;
      AtEnd(ViewAt(buf, pos), c);
      oldAt := EndLf;
      if c != LF {
        return Some(Invalid);
      }
      if size == 0 {
        at := Done;
        return Some(Complete);
      }
      FinishChunk(buf, pos);
      stat := None;
    }

    /** One round of the loop below, for the byte at `pos`. */
    method Eval(buf: Buf, pos: nat, c: byte) returns (stat: Option<Stat>)
      requires ValidAt(buf, pos) && buf.read == pos + 1 && c == buf.data[pos]
      modifies this, buf.data
      ensures (stat != Some(Invalid) ==> ValidAt(buf, pos + 1)) && buf.Unread() == old(buf.Unread())
      ensures var r := Eat(old(ViewAt(buf, pos)), c);
              stat == r.1 && (stat != Some(Invalid) ==> ViewAt(buf, pos + 1) == r.0)
      ensures buf.data[..bodyBegin] == old(buf.data[..bodyBegin])
    {
      match at
      case Body => stat := EvalBody(buf, pos, c);
      case Size => oldAt := Size; stat := EvalSize(buf, pos, c);
      case SizeLf =>
        oldAt := SizeLf;
        if c != LF {
          return Some(Invalid);
        }
        begin := buf.read;
        at := Content;
        stat := None;
      case Content => stat := EvalContent(buf, pos, c);
      case EndLf => stat := EvalEnd(buf, pos, c);
      case Done => stat := Some(Complete);
    }

    /** Takes one byte. */
    method Advance(buf: Buf) returns (stat: Option<Stat>)
      requires ValidAt(buf, buf.read) && buf.read < buf.used
      modifies this, buf.data, buf`read
      ensures buf.Valid() && buf.used == old(buf.used) && buf.data == old(buf.data)
      ensures buf.read == old(buf.read) + 1 && buf.Unread() == old(buf.Unread())[1..]
      ensures stat != Some(Invalid) ==> ValidAt(buf, buf.read)
      ensures var r := Eat(old(ViewAt(buf, buf.read)), old(buf.Unread())[0]);
              stat == r.1 && (stat != Some(Invalid) ==> ViewAt(buf, buf.read) == r.0)
      ensures buf.data[..bodyBegin] == old(buf.data[..bodyBegin])
    {
      hide Eat;
      var pos := buf.read;
      var c := buf.data[pos];
      FirstOf(buf.data, pos, buf.used);
      buf.read := buf.read + 1;
      stat := Eval(buf, pos, c);
    }

    /** `o` is the outcome of a run that is over, or will be once the rest is decoded. */
    ghost predicate Leads(buf: Buf, o: Outcome, n: nat)
      requires ValidAt(buf, buf.read)
      reads this, buf, buf.data
    {
      o == Later(n, Decode(ViewAt(buf, buf.read), buf.Unread(), maxBody - buf.read))
    }

    /** A byte as a part of a run. */
    method Proceed(buf: Buf, ghost o: Outcome, ghost n: nat) returns (stat: Option<Stat>)
      requires ValidAt(buf, buf.read) && buf.read < buf.used && buf.read <= maxBody && Leads(buf, o, n)
      modifies this, buf.data, buf`read
      ensures buf.Valid() && buf.used == old(buf.used) && buf.data == old(buf.data)
      ensures buf.read == old(buf.read) + 1 && buf.Unread() == old(buf.Unread())[1..]
      ensures stat == None ==> ValidAt(buf, buf.read) && Leads(buf, o, n + 1)
      ensures stat != None ==> stat == Some(o.stat) && o.used == n + 1
      ensures stat == Some(Complete) ==> ValidAt(buf, buf.read) && ViewAt(buf, buf.read) == o.dec
      ensures buf.data[..bodyBegin] == old(buf.data[..bodyBegin])
    {
      hide Eat, Decode;
      ghost var d, s, limit := ViewAt(buf, buf.read), buf.Unread(), maxBody - buf.read;
      stat := Advance(buf);
      DecodeOne(o, n, d, s, limit, Eat(d, s[0]).0, stat);
    }

    /** The loop over the bytes. */
    method Loop(buf: Buf, ghost o: Outcome) returns (stat: Stat, ghost n: nat)
      requires ValidAt(buf, buf.read) && Leads(buf, o, 0)
      modifies this, buf.data, buf`read
      ensures buf.Valid() && n <= |old(buf.Unread())| && buf.read == old(buf.read) + n
      ensures stat == o.stat && n == o.used && buf.Unread() == old(buf.Unread())[n..]
      ensures stat == Complete ==> ValidAt(buf, buf.read) && ViewAt(buf, buf.read) == o.dec
      ensures buf.data[..bodyBegin] == old(buf.data[..bodyBegin])
    {
      hide Eat;
      n := 0;
      while buf.read < buf.used
        invariant ValidAt(buf, buf.read) && buf.data == old(buf.data) && buf.used == old(buf.used)
        invariant n <= |old(buf.Unread())| && buf.read == old(buf.read) + n && buf.Unread() == old(buf.Unread())[n..]
        invariant Leads(buf, o, n)
      invariant buf.data[..bodyBegin] == old(buf.data[..bodyBegin])
        decreases buf.used - buf.read
      {
        if buf.read > maxBody {
          return Invalid, n;
        }
        var r := Proceed(buf, o, n);
        n := n + 1;
        if r.Some? {
          return r.value, n;
        }
      }
      stat := Again;
    }

    /** The body states of `vtm_http_parser_run`, in one run from the start of the body on: the decoded body ends up where
        the body began, and the bytes behind the encoded one are not touched. */
    method RunOn(buf: Buf) returns (stat: Stat)
      requires ValidAt(buf, buf.read) && at == Body && oldAt == Body && dst == 0 && bodyLen == 0
      modifies this, buf.data, buf`read
      ensures var o := Decode(START.(size := old(size)), old(buf.Unread()), maxBody - old(buf.read));
              && stat == o.stat && buf.Valid() && buf.read == old(buf.read) + o.used
              && buf.Unread() == old(buf.Unread())[o.used..]
              && (stat == Complete ==> bodyBegin + bodyLen <= buf.read
                                       && buf.data[bodyBegin..bodyBegin + bodyLen] == o.dec.out)
      ensures buf.data[..bodyBegin] == old(buf.data[..bodyBegin])
    {
      hide Decode, Eat;
      assert ViewAt(buf, buf.read) == START.(size := size);
      ghost var n;
      stat, n := Loop(buf, Decode(START.(size := size), buf.Unread(), maxBody - buf.read));
    }
  }

  lemma EncodedNext(chunks: seq<seq<byte>>, i: nat)
    requires i < |chunks|
    ensures Encoded(chunks[i..]) == Chunk(chunks[i]) + Encoded(chunks[i + 1..])
  {
    assert chunks[i..][1..] == chunks[i + 1..];
  }

  /** What is written and what is left make up the whole. */
  ghost predicate Remains(whole: seq<byte>, done: seq<byte>, left: seq<byte>) {
    done + left == whole
  }

  lemma RemainsNext(whole: seq<byte>, done: seq<byte>, x: seq<byte>, left: seq<byte>)
    requires Remains(whole, done, x + left)
    ensures Remains(whole, done + x, left) && |whole| == |done| + |x| + |left|
  {
    Associate(done, x, left);
  }

  /** The chunks of a response, one after the other, and the one that ends it. */
  method WriteBody(buf: Buf, chunks: seq<seq<byte>>) returns (rc: Error)
    requires buf.Valid() && buf.len < SIZE && forall c | c in chunks :: 0 < |c| < SIZE
    modifies buf, buf.data
    ensures buf.Valid() && buf.len < SIZE && rc == buf.err
    ensures buf.read == old(buf.read) && (buf.data == old(buf.data) || fresh(buf.data))
    ensures rc == Ok ==> buf.Contents() == old(buf.Contents()) + Encoded(chunks)
    ensures old(buf.err) == Ok && old(buf.used) + |Encoded(chunks)| <= QUARTER ==> rc == Ok
  {
    hide Chunk;
    ghost var whole := buf.Contents() + Encoded(chunks);
    var i := 0;
    assert chunks[0..] == chunks;
    while i < |chunks|
      invariant 0 <= i <= |chunks| && buf.Valid() && buf.len < SIZE
      invariant buf.read == old(buf.read) && (buf.data == old(buf.data) || fresh(buf.data))
      invariant old(buf.err) == Ok && |whole| <= QUARTER ==> buf.err == Ok
      invariant buf.err == Ok ==> Remains(whole, buf.Contents(), Encoded(chunks[i..]))
    {
      EncodedNext(chunks, i);
      if buf.err == Ok {
        RemainsNext(whole, buf.Contents(), Chunk(chunks[i]), Encoded(chunks[i + 1..]));
      }
      rc := WriteChunked(buf, chunks[i]);
      if rc != Ok {
        return;
      }
      i := i + 1;
    }
    rc := WriteChunked(buf, []);
  }

  /** An encoded body is decoded if its last byte is within the limit, and refused otherwise. */
  lemma BodyDecodes(chunks: seq<seq<byte>>, limit: int)
    requires forall c | c in chunks :: 0 < |c| < SIZE
    ensures var o := Decode(START, Encoded(chunks), limit);
            if limit < |Encoded(chunks)| - 1 then o.stat == Invalid
            else o.stat == Complete && o.used == |Encoded(chunks)| && o.dec.out == Joined(chunks)
  {
    assert Encoded(chunks) + [] == Encoded(chunks) && START.out + Joined(chunks) == Joined(chunks);
    if limit < |Encoded(chunks)| - 1 {
      TooLarge(START, chunks, [], limit);
    } else {
      RoundTrip(START, chunks, [], limit);
    }
  }

  /** The body behind the headers, decoded where it lies. */
  method ReadBody(buf: Buf, maxBody: nat, ghost chunks: seq<seq<byte>>) returns (stat: Stat, body: seq<byte>)
    requires buf.Valid() && buf.read > 0 && buf.Unread() == Encoded(chunks) && forall c | c in chunks :: 0 < |c| < SIZE
    modifies buf.data, buf`read
    ensures stat == if old(buf.read) + |Encoded(chunks)| - 1 <= maxBody then Complete else Invalid
    ensures stat == Complete ==> body == Joined(chunks) && buf.read == buf.used
    ensures buf.data[..old(buf.read)] == old(buf.data[..buf.read])
  {
    hide Decode, Encoded, Joined;
    BodyDecodes(chunks, maxBody - buf.read);
    var par := new BodyParser(buf.read, maxBody);
    stat := par.RunOn(buf);
    body := if stat == Complete then buf.data[par.bodyBegin..par.bodyBegin + par.bodyLen] else [];
  }

  /** A body written behind the headers of a message and decoded where it lies. It arrives if and only if the last byte of
      its encoding is at most at the limit, which counts from the start of the message. */
  method Exchange(buf: Buf, chunks: seq<seq<byte>>, maxBody: nat) returns (rc: Error, stat: Stat, body: seq<byte>)
    requires buf.Valid() && buf.len < SIZE && buf.read == 0 < buf.used && forall c | c in chunks :: 0 < |c| < SIZE
    modifies buf, buf.data
    ensures old(buf.err) == Ok && old(buf.used) + |Encoded(chunks)| <= QUARTER ==> rc == Ok
    ensures rc == Ok ==>
              && stat == (if old(buf.used) + |Encoded(chunks)| - 1 <= maxBody then Complete else Invalid)
              && (stat == Complete ==> body == Joined(chunks) && buf.read == buf.used)
    ensures rc == Ok ==> old(buf.used) <= buf.data.Length && buf.data[..old(buf.used)] == old(buf.Contents())
  {
    hide Encoded, Joined;
    var begin := buf.used;
    stat, body := Again, [];
    rc := WriteBody(buf, chunks);
    if rc == Ok {
      buf.read := begin;
      assert buf.Unread() == Encoded(chunks);
      stat, body := ReadBody(buf, maxBody, chunks);
    }
  }
}
