/**
Base64, section 4 of RFC 4648.
*/
module Base64 {
  import opened Bytes
  import Buffer

  const PAD: byte := 61

  /** VTM_BASE64_ENCODING. */
  function EncodeChar(v: nat): (c: byte)
    requires v < 64
    ensures c != PAD
  {
    if v < 26 then 65 + v else if v < 52 then 71 + v else if v < 62 then v - 4 else if v == 62 then 43 else 47
  }

  /** VTM_BASE64_DECODING; characters outside the alphabet count as zero. */
  function DecodeChar(c: byte): (v: nat)
    ensures v < 64
  {
    if 65 <= c <= 90 then c - 65 else if 97 <= c <= 122 then c - 71 else if 48 <= c <= 57 then c + 4
    else if c == 43 then 62 else if c == 47 then 63 else 0
  }

  lemma CharRoundTrip(v: nat)
    requires v < 64
    ensures DecodeChar(EncodeChar(v)) == v
  {}

  /** 64 to the power of `n`. */
  function Pow64(n: nat): (r: nat)
    ensures r > 0
  {
    if n == 0 then 1 else 64 * Pow64(n - 1)
  }

  /** A number in `n` characters, six bits each. */
  function Digits(v: nat, n: nat): (t: seq<byte>)
    ensures |t| == n
  {
    if n == 0 then [] else Digits(v / 64, n - 1) + [EncodeChar(v % 64)]
  }

  /** The number that characters stand for. */
  function FromDigits(t: seq<byte>): (v: nat)
    ensures v < Pow64(|t|)
  {
    if t == [] then 0 else
      var high := FromDigits(t[..|t| - 1]);
      64 * high + DecodeChar(t[|t| - 1])
  }

  lemma Quotient(v: nat, p: nat)
    requires v < 64 * p
    ensures v / 64 < p && v == 64 * (v / 64) + v % 64
  {}

  lemma LastChar(t: seq<byte>, c: byte)
    ensures FromDigits(t + [c]) == 64 * FromDigits(t) + DecodeChar(c)
  {
    assert (t + [c])[..|t|] == t;
  }

  lemma {:induction false} DigitsRoundTrip(v: nat, n: nat)
    requires v < Pow64(n)
    ensures FromDigits(Digits(v, n)) == v
  {
    if n > 0 {
      hide FromDigits, EncodeChar, DecodeChar;
      Quotient(v, Pow64(n - 1));
      DigitsRoundTrip(v / 64, n - 1);
      CharRoundTrip(v % 64);
      LastChar(Digits(v / 64, n - 1), EncodeChar(v % 64));
    }
  }

  lemma {:induction false} DigitsUnpadded(v: nat, n: nat)
    ensures PAD !in Digits(v, n)
  {
    if n > 0 { DigitsUnpadded(v / 64, n - 1); }
  }

  /** The number of groups of three bytes, the last of which may be shorter. */
  function Groups(n: nat): (g: nat)
    ensures n > 0 ==> g > 0
  {
    if n == 0 then 0 else if n <= 3 then 1 else 1 + Groups(n - 3)
  }

  lemma {:induction false} GroupCount(n: nat)
    ensures Groups(n) == (n + 2) / 3
  {
    if n > 3 { GroupCount(n - 3); }
  }

  /** One group: three bytes in four characters; two or one, with zero bits added on the right, in three or two characters
      and padding. */
  function EncodeGroup(s: seq<byte>): (t: seq<byte>)
    requires 1 <= |s| <= 3
    ensures |t| == 4
  {
    if |s| == 1 then Digits(16 * Number(s), 2) + [PAD, PAD]
    else if |s| == 2 then Digits(4 * Number(s), 3) + [PAD]
    else Digits(Number(s), 4)
  }

  function Encoded(s: seq<byte>): (t: seq<byte>)
    ensures |t| == 4 * Groups(|s|)
  {
    if s == [] then [] else if |s| <= 3 then EncodeGroup(s) else EncodeGroup(s[..3]) + Encoded(s[3..])
  }

  /** The number of padding characters among the last two. */
  function Padding(t: seq<byte>): (p: nat)
    requires |t| >= 2
    ensures p <= 2
  {
    (if t[|t| - 1] == PAD then 1 else 0) + (if t[|t| - 2] == PAD then 1 else 0)
  }

  /** The bytes of one group with the given padding. */
  function DecodeGroup(t: seq<byte>, pad: nat): (s: seq<byte>)
    requires |t| == 4 && pad <= 2
    ensures |s| == 3 - pad
  {
    if pad == 2 then Word(FromDigits(t[..2]) / 16, 1)
    else if pad == 1 then Word(FromDigits(t[..3]) / 4, 2)
    else Word(FromDigits(t), 3)
  }

  /** The decoding of a text of `g` groups of four characters. */
  function Decoded(t: seq<byte>, g: nat): (s: seq<byte>)
    requires |t| == 4 * g && g > 0
    ensures |s| == 3 * g - Padding(t)
    decreases g
  {
    if g == 1 then DecodeGroup(t, Padding(t)) else DecodeGroup(t[..4], 0) + Decoded(t[4..], g - 1)
  }

  // -------------------------------------------------------------- round trip

  lemma Powers()
    ensures Pow64(2) == 0x1000 && Pow64(3) == 0x4_0000 && Pow64(4) == 0x100_0000
    ensures Range(1) == 0x100 && Range(2) == 0x1_0000 && Range(3) == 0x100_0000
  {
    assert Pow64(2) == 64 * Pow64(1) && Pow64(3) == 64 * Pow64(2) && Pow64(4) == 64 * Pow64(3);
    assert Range(2) == 256 * Range(1) && Range(3) == 256 * Range(2);
  }

  lemma GroupRoundTrip(s: seq<byte>)
    requires 1 <= |s| <= 3
    ensures Padding(EncodeGroup(s)) == 3 - |s| && DecodeGroup(EncodeGroup(s), 3 - |s|) == s
  {
    var t := EncodeGroup(s);
    Powers();
    WordOfNumber(s);
    var k, v := |s| + 1, if |s| == 1 then 16 * Number(s) else if |s| == 2 then 4 * Number(s) else Number(s);
    DigitsRoundTrip(v, k);
    DigitsUnpadded(v, k);
    assert t[..k] == Digits(v, k);
    assert t[1] == Digits(v, k)[1] && (k > 2 ==> t[2] == Digits(v, k)[2]) && (k > 3 ==> t[3] == Digits(v, k)[3]);
  }

  /** Decoding the encoding of a non-empty string of bytes, without the terminator, returns these bytes. */
  lemma {:induction false} RoundTrip(s: seq<byte>)
    requires s != []
    ensures Decoded(Encoded(s), Groups(|s|)) == s
    decreases |s|
  {
    if |s| <= 3 {
      GroupRoundTrip(s);
    } else {
      var t, rest := EncodeGroup(s[..3]), Encoded(s[3..]);
      GroupRoundTrip(s[..3]);
      RoundTrip(s[3..]);
      assert Encoded(s)[..4] == t && Encoded(s)[4..] == rest;
      assert s == s[..3] + s[3..];
    }
  }

  // ------------------------------------------------------- the imperative code

  lemma LastDigit(c: nat, n: nat)
    ensures Digits(c, n + 1) == Digits(c / 64, n) + [EncodeChar(c % 64)] && Digits(c, 0) == []
  {}

  lemma Shifts(c: nat)
    requires c < 0x100_0000
    ensures c / 64 / 64 == c / 0x1000 && c / 0x1000 / 64 == c / 0x4_0000 && c / 0x4_0000 < 64
  {}

  lemma FourDigits(c: nat)
    requires c < 0x100_0000
    ensures Digits(c, 4) == [EncodeChar(c / 0x4_0000), EncodeChar(c / 0x1000 % 64), EncodeChar(c / 64 % 64), EncodeChar(c % 64)]
  {
    hide Digits, EncodeChar;
    Shifts(c);
    LastDigit(c, 3);
    LastDigit(c / 64, 2);
    LastDigit(c / 0x1000, 1);
    LastDigit(c / 0x4_0000, 0);
  }

  lemma ThreeBytes(s: seq<byte>)
    requires |s| == 3
    ensures Number(s) == 0x1_0000 * (s[0] as nat) + 0x100 * (s[1] as nat) + s[2]
  {
    assert s[..2][..1] == s[..1] && s[..1][..0] == [];
    assert Number(s[..1]) == s[0] && Number(s[..2]) == 256 * Number(s[..1]) + s[1];
  }

  lemma FewerBytes(s: seq<byte>)
    ensures |s| == 1 ==> Number(s) == s[0]
    ensures |s| == 2 ==> Number(s) == 0x100 * (s[0] as nat) + s[1]
  {
    if |s| == 2 { assert s[..1][..0] == []; }
  }

  /** The four characters of 24 bits. */
  method StoreQuad(buf: array<byte>, w: nat, c: nat)
    requires w + 4 <= buf.Length && c < 0x100_0000
    modifies buf
    ensures buf[..w + 4] == old(buf[..w]) + Digits(c, 4)
    ensures forall k | w + 4 <= k < buf.Length :: buf[k] == old(buf[k])
  {
    FourDigits(c);
    buf[w] := EncodeChar(c / 0x4_0000);
    buf[w + 1] := EncodeChar(c / 0x1000 % 64);
    buf[w + 2] := EncodeChar(c / 64 % 64);
    buf[w + 3] := EncodeChar(c % 64);
  }

  /** The padded group of one or two last bytes. */
  method StoreLast(buf: array<byte>, w: nat, s: seq<byte>)
    requires w + 4 <= buf.Length && 1 <= |s| <= 2
    modifies buf
    ensures buf[..w + 4] == old(buf[..w]) + EncodeGroup(s)
    ensures forall k | w + 4 <= k < buf.Length :: buf[k] == old(buf[k])
  {
    var c: nat := 0x1_0000 * (s[0] as nat) + if |s| > 1 then 0x100 * (s[1] as nat) else 0;
    LastGroup(s, c);
    buf[w] := EncodeChar(c / 0x4_0000);
    buf[w + 1] := EncodeChar(c / 0x1000 % 64);
    buf[w + 2] := if |s| > 1 then EncodeChar(c / 64 % 64) else PAD;
    buf[w + 3] := PAD;
  }

  lemma LastGroup(s: seq<byte>, c: nat)
    requires 1 <= |s| <= 2 && c == 0x1_0000 * (s[0] as nat) + if |s| > 1 then 0x100 * (s[1] as nat) else 0
    ensures EncodeGroup(s)
         == [EncodeChar(c / 0x4_0000), EncodeChar(c / 0x1000 % 64), if |s| > 1 then EncodeChar(c / 64 % 64) else PAD, PAD]
  {
    var d := if |s| == 1 then c / 0x1000 else c / 64;
    FewerBytes(s);
    assert d == if |s| == 1 then 16 * Number(s) else 4 * Number(s);
    FourDigits(c);
    Prefix(c);
  }

  lemma Prefix(c: nat)
    ensures Digits(c, 4)[..3] == Digits(c / 64, 3) && Digits(c, 4)[..2] == Digits(c / 0x1000, 2)
  {
    assert c / 64 / 64 == c / 0x1000;
    assert Digits(c, 4) == Digits(c / 64, 3) + [EncodeChar(c % 64)];
    assert Digits(c / 64, 3) == Digits(c / 0x1000, 2) + [EncodeChar(c / 64 % 64)];
  }

  /** `vtm_base64_encode`: fails if the buffer is smaller than the macro VTM_BASE64_ENC_BUF_LEN says; otherwise it writes
      the encoding and a terminating NUL, and nothing behind it. */
  method Encode(input: seq<byte>, buf: array<byte>) returns (ok: bool)
    modifies buf
    ensures ok <==> buf.Length >= 4 * Groups(|input|) + 1
    ensures !ok ==> buf[..] == old(buf[..])
    ensures ok ==> var n := 4 * Groups(|input|);
              buf[..n] == Encoded(input) && buf[n] == 0 && forall k | n < k < buf.Length :: buf[k] == old(buf[k])
  {
    GroupCount(|input|);
    if buf.Length < 4 * ((|input| + 2) / 3) + 1 {
      return false;
    }
    EncodeGroups(input, buf);
    buf[4 * Groups(|input|)] := 0;
    ok := true;
  }

  /** A group of three bytes. */
  method StoreGroup(buf: array<byte>, w: nat, s: seq<byte>)
    requires w + 4 <= buf.Length && |s| == 3
    modifies buf
    ensures buf[..w + 4] == old(buf[..w]) + EncodeGroup(s)
    ensures forall k | w + 4 <= k < buf.Length :: buf[k] == old(buf[k])
  {
    ThreeBytes(s);
    StoreQuad(buf, w, 0x1_0000 * (s[0] as nat) + 0x100 * (s[1] as nat) + s[2]);
  }

  /** The encoding proper. */
  method EncodeGroups(input: seq<byte>, buf: array<byte>)
    requires buf.Length >= 4 * Groups(|input|)
    modifies buf
    ensures buf[..4 * Groups(|input|)] == Encoded(input)
    ensures forall k | 4 * Groups(|input|) <= k < buf.Length :: buf[k] == old(buf[k])
  {
    var rest, w := input, 0;
    while |rest| >= 3
      invariant w + 4 * Groups(|rest|) == 4 * Groups(|input|)
      invariant buf[..w] + Encoded(rest) == Encoded(input)
      invariant forall k | w <= k < buf.Length :: buf[k] == old(buf[k])
      decreases |rest|
    {
      OneGroup(rest);
      ghost var before := buf[..w];
      StoreGroup(buf, w, rest[..3]);
      Associate(before, EncodeGroup(rest[..3]), Encoded(rest[3..]));
      rest := rest[3..];
      w := w + 4;
    }
    if |rest| > 0 {
      StoreLast(buf, w, rest);
    }
  }

  lemma OneGroup(s: seq<byte>)
    requires |s| >= 3
    ensures Encoded(s) == EncodeGroup(s[..3]) + Encoded(s[3..]) && Groups(|s|) == 1 + Groups(|s| - 3)
  {
    hide EncodeGroup;
    if |s| == 3 { assert s[..3] == s; }
  }

  lemma FourChars(t: seq<byte>)
    requires |t| == 4
    ensures FromDigits(t[..2]) == 64 * DecodeChar(t[0]) + DecodeChar(t[1])
    ensures FromDigits(t[..3]) == 0x1000 * DecodeChar(t[0]) + 64 * DecodeChar(t[1]) + DecodeChar(t[2])
    ensures FromDigits(t) == 0x4_0000 * DecodeChar(t[0]) + 0x1000 * DecodeChar(t[1]) + 64 * DecodeChar(t[2]) + DecodeChar(t[3])
  {
    assert t[..3][..2] == t[..2] && t[..2][..1] == t[..1] && t[..1][..0] == [];
    assert FromDigits(t[..1]) == DecodeChar(t[0]) && FromDigits(t[..2]) == 64 * FromDigits(t[..1]) + DecodeChar(t[1]);
    assert FromDigits(t[..3]) == 64 * FromDigits(t[..2]) + DecodeChar(t[2]);
  }

  lemma WordBytes(c: nat)
    requires c < 0x100_0000
    ensures Word(c, 3) == [c / 0x1_0000, c / 0x100 % 256, c % 256]
    ensures Word(c / 0x100, 2) == [c / 0x1_0000, c / 0x100 % 256] && Word(c / 0x1_0000, 1) == [c / 0x1_0000]
  {
    assert c / 0x100 / 0x100 == c / 0x1_0000;
    assert Word(c / 0x1_0000, 1) == [] + [c / 0x1_0000 % 256];
    assert Word(c / 0x100, 2) == Word(c / 0x1_0000, 1) + [c / 0x100 % 256];
    assert Word(c, 3) == Word(c / 0x100, 2) + [c % 256];
  }

  /** The bytes of a group without padding. */
  method StoreTriple(buf: array<byte>, w: nat, t: seq<byte>)
    requires w + 3 <= buf.Length && |t| == 4
    modifies buf
    ensures buf[..w + 3] == old(buf[..w]) + DecodeGroup(t, 0)
    ensures forall k | w + 3 <= k < buf.Length :: buf[k] == old(buf[k])
  {
    var c := 0x4_0000 * DecodeChar(t[0]) + 0x1000 * DecodeChar(t[1]) + 64 * DecodeChar(t[2]) + DecodeChar(t[3]);
    FourChars(t);
    WordBytes(c);
    buf[w], buf[w + 1], buf[w + 2] := c / 0x1_0000, c / 0x100 % 256, c % 256;
  }

  /** The bytes of a padded group. */
  method StoreRest(buf: array<byte>, w: nat, t: seq<byte>, pad: nat)
    requires |t| == 4 && 1 <= pad <= 2 && w + 3 <= buf.Length
    modifies buf
    ensures buf[..w + 3 - pad] == old(buf[..w]) + DecodeGroup(t, pad)
    ensures forall k | w + 3 - pad <= k < buf.Length :: buf[k] == old(buf[k])
  {
    var c := 0x4_0000 * DecodeChar(t[0]) + 0x1000 * DecodeChar(t[1]) + if pad == 1 then 64 * DecodeChar(t[2]) else 0;
    FourChars(t);
    WordBytes(c);
    RestBits(t, pad, c);
    buf[w] := c / 0x1_0000;
    if pad == 1 {
      buf[w + 1] := c / 0x100 % 256;
    }
  }

  lemma RestBits(t: seq<byte>, pad: nat, c: nat)
    requires |t| == 4 && 1 <= pad <= 2
    requires c == 0x4_0000 * DecodeChar(t[0]) + 0x1000 * DecodeChar(t[1]) + if pad == 1 then 64 * DecodeChar(t[2]) else 0
    ensures if pad == 1 then FromDigits(t[..3]) / 4 == c / 0x100 else FromDigits(t[..2]) / 16 == c / 0x1_0000
  {
    FourChars(t);
    var x := if pad == 1 then FromDigits(t[..3]) else FromDigits(t[..2]);
    assert c == if pad == 1 then 64 * x else 0x1000 * x;
  }

  /** How much of the input the loop of `vtm_base64_decode` takes to be left after `k` rounds, in 64 bits. */
  function Remaining(len: nat, k: nat): nat { (len - 4 * k) % Buffer.SIZE }

  /** The loop of `vtm_base64_decode` comes to an end if and only if the length of its text, without or with a padded group,
      is a multiple of four; for any other length it goes on behind the input. */
  lemma DecodeLoopEnds(len: nat)
    requires len < Buffer.SIZE
    ensures (exists k: nat :: Remaining(len, k) == 0) <==> len % 4 == 0
  {
    if len % 4 == 0 {
      assert Remaining(len, len / 4) == 0;
    }
    forall k: nat | Remaining(len, k) == 0 ensures len % 4 == 0 {
      var q := (len - 4 * k) / Buffer.SIZE;
      assert len == 4 * (k + 0x4000_0000_0000_0000 * q);
    }
  }

  /** `vtm_base64_decode`, where it reads only its input: fails without a group or if the buffer is smaller than
      VTM_BASE64_DEC_BUF_LEN says; otherwise it writes the decoded bytes and nothing behind them. */
  method Decode(input: seq<byte>, buf: array<byte>) returns (ok: bool, used: nat)
    requires |input| % 4 == 0 || |input| < 4 || buf.Length < |input| / 4 * 3
    modifies buf
    ensures ok <==> |input| >= 4 && buf.Length >= |input| / 4 * 3
    ensures !ok ==> buf[..] == old(buf[..])
    ensures ok ==> used <= buf.Length && buf[..used] == Decoded(input, |input| / 4)
    ensures ok ==> forall k | used <= k < buf.Length :: buf[k] == old(buf[k])
  {
    if |input| < 4 || buf.Length < |input| / 4 * 3 {
      return false, 0;
    }
    DecodeGroups(input, |input| / 4, buf);
    ok, used := true, |input| / 4 * 3 - Padding(input);
  }

  /** The decoding proper. */
  method DecodeGroups(input: seq<byte>, g: nat, buf: array<byte>)
    requires |input| == 4 * g && g > 0 && buf.Length >= 3 * g
    modifies buf
    ensures buf[..3 * g - Padding(input)] == Decoded(input, g)
    ensures forall k | 3 * g - Padding(input) <= k < buf.Length :: buf[k] == old(buf[k])
  {
    hide DecodeGroup;
    var pad := Padding(input);
    var full := if pad > 0 then g - 1 else g;
    var rest, n := input, 0;
    ghost var whole := Decoded(input, g);
    while n < full
      invariant 0 <= n <= full && |rest| == 4 * (g - n)
      invariant n < g ==> buf[..3 * n] + Decoded(rest, g - n) == whole && Padding(rest) == pad
      invariant n == g ==> buf[..3 * n] == whole
      invariant forall k | 3 * n <= k < buf.Length :: buf[k] == old(buf[k])
    {
      DecodeStep(rest, g - n);
      ghost var before := buf[..3 * n];
      StoreTriple(buf, 3 * n, rest[..4]);
      if n + 1 < g { Associate(before, DecodeGroup(rest[..4], 0), Decoded(rest[4..], g - n - 1)); }
      rest := rest[4..];
      n := n + 1;
    }
    if pad > 0 {
      StoreRest(buf, 3 * n, rest, pad);
    }
  }

  /** One unpadded group. */
  lemma DecodeStep(t: seq<byte>, g: nat)
    requires |t| == 4 * g && g > 0 && (g == 1 ==> Padding(t) == 0)
    ensures g == 1 ==> Decoded(t, g) == DecodeGroup(t[..4], 0)
    ensures g > 1 ==> Decoded(t, g) == DecodeGroup(t[..4], 0) + Decoded(t[4..], g - 1) && Padding(t[4..]) == Padding(t)
  {
    if g == 1 { assert t[..4] == t; }
  }
}
