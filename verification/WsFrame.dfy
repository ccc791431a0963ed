/**
WebSocket frame headers and payload masking, sections 5.2 and 5.3 of RFC 6455.
*/
module WsFrame {
  import opened Bytes
  import opened Buffer

  const LEN7_MAX: nat := 125

  const LEN16_MAX: nat := 0xffff

  const LEN64_MAX: nat := 0x7fff_ffff_ffff_ffff

  const LEN16_ID: byte := 126

  const LEN64_ID: byte := 127

  const WORD: nat := 0x1_0000_0000

  // ----------------------------------------------------------------- masking

  function Xor(a: byte, b: byte): (r: byte) {
    EightBits();
    XorBits(a, b, 8)
  }

  lemma XorInvolution(a: byte, b: byte)
    ensures Xor(Xor(a, b), b) == a
  {
    EightBits();
    XorTwice(a, b, 8);
  }

  /** The payload with octet `i` transformed with octet `i` modulo 4 of the key. */
  function Masked(s: seq<byte>, key: seq<byte>): (r: seq<byte>)
    requires |key| == 4
    ensures |r| == |s|
  {
    seq(|s|, i requires 0 <= i < |s| => Xor(s[i], key[i % 4]))
  }

  /** Masking twice with one key is the identity. */
  lemma MaskedTwice(s: seq<byte>, key: seq<byte>)
    requires |key| == 4
    ensures Masked(Masked(s, key), key) == s
  {
    forall i | 0 <= i < |s| ensures Masked(Masked(s, key), key)[i] == s[i] {
      XorInvolution(s[i], key[i % 4]);
    }
  }

  /** `vtm_ws_frame_mask_payload`, in place on `len` bytes from `at`. */
  method MaskPayload(a: array<byte>, at: nat, len: nat, mask: nat)
    requires at + len <= a.Length && mask < WORD
    modifies a
    ensures a[at..at + len] == Masked(old(a[at..at + len]), Word(mask, 4))
    ensures forall k | 0 <= k < a.Length && !(at <= k < at + len) :: a[k] == old(a[k])
  {
    var key := [mask / 0x100_0000 % 256, mask / 0x1_0000 % 256, mask / 0x100 % 256, mask % 256];
    KeyBytes(mask);
    var i := 0;
    while i < len
      invariant 0 <= i <= len
      invariant forall k | 0 <= k < a.Length && !(at <= k < at + i) :: a[k] == old(a[k])
      invariant forall k | 0 <= k < i :: a[at + k] == Xor(old(a[at + k]), key[k % 4])
    {
      a[at + i] := Xor(a[at + i], key[i % 4]);
      i := i + 1;
    }
  }

  lemma KeyBytes(mask: nat)
    ensures Word(mask, 4) == [mask / 0x100_0000 % 256, mask / 0x1_0000 % 256, mask / 0x100 % 256, mask % 256]
  {
    assert Word(mask, 4) == Word(mask / 256, 3) + [mask % 256];
    assert Word(mask / 256, 3) == Word(mask / 256 / 256, 2) + [mask / 256 % 256];
    assert Word(mask / 256 / 256, 2) == Word(mask / 256 / 256 / 256, 1) + [mask / 256 / 256 % 256];
    assert Word(mask / 256 / 256 / 256, 1) == [mask / 256 / 256 / 256 % 256];
    assert mask / 256 / 256 / 256 == mask / 0x100_0000 && mask / 256 / 256 == mask / 0x1_0000;
  }

  // ----------------------------------------------------------------- headers

  type bit = x: int | 0 <= x < 2

  /** `struct vtm_ws_frame_desc`. */
  datatype Desc = Desc(fin: bit, rsv1: bit, rsv2: bit, rsv3: bit, opcode: nat, masked: bit, mask: nat, len: nat)

  predicate IsDesc(d: Desc) { d.opcode < 16 && d.mask < WORD && d.len < SIZE }

  function First(d: Desc): byte
    requires d.opcode < 16
  {
    128 * d.fin + 64 * d.rsv1 + 32 * d.rsv2 + 16 * d.rsv3 + d.opcode
  }

  function Len7(len: nat): byte {
    if len > LEN16_MAX then LEN64_ID else if len > LEN7_MAX then LEN16_ID else len
  }

  /** The extended length. */
  function Extended(len: nat): seq<byte> {
    if len > LEN16_MAX then Word(len, 8) else if len > LEN7_MAX then Word(len, 2) else []
  }

  /** The header: the length in its shortest form, and the masking key if there is one. */
  function Header(d: Desc): (h: seq<byte>)
    requires d.opcode < 16
    ensures 2 <= |h| <= 14
  {
    [First(d), 128 * d.masked + Len7(d.len)] + Extended(d.len) + if d.masked == 1 then Word(d.mask, 4) else []
  }

  /** `vtm_ws_frame_write_header`: refuses lengths with the highest bit set, and otherwise appends the header. */
  method WriteHeader(buf: Buf, d: Desc) returns (ok: bool)
    requires buf.Valid() && buf.len < SIZE && IsDesc(d)
    modifies buf, buf.data
    ensures buf.Valid() && buf.len < SIZE && buf.read == old(buf.read)
    ensures ok <==> d.len <= LEN64_MAX && buf.err == Ok
    ensures buf.Contents() == old(buf.Contents()) + if ok then Header(d) else []
    ensures buf.err == if d.len <= LEN64_MAX && old(buf.err) == Ok && !old(buf.Fits(|Header(d)|)) then Overflow
                       else old(buf.err)
  {
    if d.len > LEN64_MAX {
      return false;
    }
    var header := new byte[14](_ => 0);
    header[0], header[1] := First(d), 128 * d.masked + Len7(d.len);
    var n := StoreLength(header, d.len);
    if d.masked == 1 {
      n := StoreMask(header, n, d.mask);
    }
    assert header[..n] == Header(d);
    var rc := buf.PutM(header[..n]);
    ok := rc == Ok;
  }

  /** The branches for the 16-bit and the 64-bit length. */
  method StoreLength(header: array<byte>, len: nat) returns (n: nat)
    requires header.Length == 14
    modifies header
    ensures n == 2 + |Extended(len)| <= 10 && header[..n] == old(header[..2]) + Extended(len)
  {
    n := 2;
    if Len7(len) == LEN16_ID {
      header[2], header[3] := len / 256 % 256, len % 256;
      n := 4;
      TwoBytes(len);
    }
    if Len7(len) == LEN64_ID {
      header[2], header[3] := len / 0x100_0000_0000_0000 % 256, len / 0x1_0000_0000_0000 % 256;
      header[4], header[5] := len / 0x100_0000_0000 % 256, len / 0x1_0000_0000 % 256;
      header[6], header[7] := len / 0x100_0000 % 256, len / 0x1_0000 % 256;
      header[8], header[9] := len / 0x100 % 256, len % 256;
      n := 10;
      EightBytes(len);
    }
  }

  method StoreMask(header: array<byte>, at: nat, mask: nat) returns (n: nat)
    requires header.Length == 14 && at <= 10
    modifies header
    ensures n == at + 4 && header[..n] == old(header[..at]) + Word(mask, 4)
  {
    header[at], header[at + 1] := mask / 0x100_0000 % 256, mask / 0x1_0000 % 256;
    header[at + 2], header[at + 3] := mask / 0x100 % 256, mask % 256;
    n := at + 4;
    KeyBytes(mask);
  }

  lemma TwoBytes(v: nat)
    ensures Word(v, 2) == [v / 256 % 256, v % 256]
  {
    assert Word(v, 2) == Word(v / 256, 1) + [v % 256];
    assert Word(v / 256, 1) == Word(v / 256 / 256, 0) + [v / 256 % 256];
  }

  lemma FourAndFour(v: nat)
    ensures Word(v, 8) == Word(v / 0x1_0000_0000, 4) + Word(v, 4)
  {
    var a, b, c := v / 256, v / 0x1_0000, v / 0x100_0000;
    assert Word(v, 8) == Word(a, 7) + [v % 256] && Word(v, 4) == Word(a, 3) + [v % 256];
    assert a / 256 == b && b / 256 == c && c / 256 == v / 0x1_0000_0000;
    assert Word(a, 7) == Word(b, 6) + [a % 256] && Word(a, 3) == Word(b, 2) + [a % 256];
    assert Word(b, 6) == Word(c, 5) + [b % 256] && Word(b, 2) == Word(c, 1) + [b % 256];
    assert Word(c, 5) == Word(c / 256, 4) + [c % 256] && Word(c, 1) == [] + [c % 256];
  }

  lemma EightBytes(v: nat)
    ensures Word(v, 8) == [v / 0x100_0000_0000_0000 % 256, v / 0x1_0000_0000_0000 % 256, v / 0x100_0000_0000 % 256,
                           v / 0x1_0000_0000 % 256, v / 0x100_0000 % 256, v / 0x1_0000 % 256, v / 0x100 % 256, v % 256]
  {
    FourAndFour(v);
    KeyBytes(v);
    KeyBytes(v / 0x1_0000_0000);
    Divisions(v);
  }

  lemma Divisions(v: nat)
    ensures v / 0x1_0000_0000 / 0x100_0000 == v / 0x100_0000_0000_0000
    ensures v / 0x1_0000_0000 / 0x1_0000 == v / 0x1_0000_0000_0000
    ensures v / 0x1_0000_0000 / 0x100 == v / 0x100_0000_0000
  {}
}
