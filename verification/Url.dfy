/**
Percent-encoding, sections 2.1 and 2.3 of RFC 3986.
*/
module Url {
  import opened Wrappers
  import opened Bytes
  import opened HexDigits

  const PERCENT: byte := 37

  datatype Rc = Fine | MaxReached | InvalidArg

  /** Letters, digits, hyphen, period, underscore and tilde. */
  predicate Unreserved(c: byte) {
    65 <= c <= 90 || 97 <= c <= 122 || 48 <= c <= 57 || c == 46 || c == 45 || c == 95 || c == 126
  }

  function EncodedChar(c: byte): (t: seq<byte>)
    ensures 1 <= |t| <= 3 && (c != 0 ==> 0 !in t)
  {
    if Unreserved(c) then [c] else [PERCENT, HexChar(c / 16), HexChar(c % 16)]
  }

  function Encoded(s: seq<byte>): (t: seq<byte>)
    ensures 0 !in s ==> 0 !in t
  {
    if s == [] then [] else Encoded(s[..|s| - 1]) + EncodedChar(s[|s| - 1])
  }

  /** The decoded text, or none if a percent sign is not followed by two hexadecimal digits. */
  function Decoded(t: seq<byte>): Option<seq<byte>>
    decreases |t|
  {
    if t == [] then Some([])
    else if t[0] != PERCENT then Prepend(t[0], Decoded(t[1..]))
    else if |t| < 3 || HexValue(t[1]) == None || HexValue(t[2]) == None then None
    else Prepend(16 * HexValue(t[1]).value + HexValue(t[2]).value, Decoded(t[3..]))
  }

  function Prepend(c: byte, rest: Option<seq<byte>>): Option<seq<byte>> {
    if rest == None then None else Some([c] + rest.value)
  }

  // -------------------------------------------------------------- round trip

  lemma HexRoundTrip(c: byte)
    ensures HexValue(HexChar(c / 16)) == Some(c / 16) && HexValue(HexChar(c % 16)) == Some(c % 16)
  {}

  lemma CharDecodes(c: byte, rest: seq<byte>)
    ensures Decoded(EncodedChar(c) + rest) == Prepend(c, Decoded(rest))
  {
    var t := EncodedChar(c) + rest;
    if Unreserved(c) {
      assert t[1..] == rest;
    } else {
      HexRoundTrip(c);
      assert t[3..] == rest;
    }
  }

  lemma {:induction false} EncodedFront(s: seq<byte>)
    requires s != []
    ensures Encoded(s) == EncodedChar(s[0]) + Encoded(s[1..])
    decreases |s|
  {
    if |s| == 1 {
      assert s[..0] == [] && s[1..] == [];
    } else {
      var last := s[|s| - 1];
      EncodedFront(s[..|s| - 1]);
      assert s[..|s| - 1][1..] == s[1..][..|s| - 2];
      Associate(EncodedChar(s[0]), Encoded(s[1..][..|s| - 2]), EncodedChar(last));
    }
  }

  lemma PrependFirst(s: seq<byte>)
    requires s != []
    ensures Prepend(s[0], Some(s[1..])) == Some(s)
  {
    assert [s[0]] + s[1..] == s;
  }

  /** Decoding the encoded text is the identity. */
  lemma {:induction false} RoundTrip(s: seq<byte>)
    ensures Decoded(Encoded(s)) == Some(s)
  {
    if s != [] {
      var text, rest := Encoded(s), Encoded(s[1..]);
      EncodedFront(s);
      CharDecodes(s[0], rest);
      RoundTrip(s[1..]);
      PrependFirst(s);
    }
  }

  /** Only unreserved characters and percent signs occur in an encoded text. */
  lemma {:induction false} OnlyUnreserved(s: seq<byte>)
    ensures forall c | c in Encoded(s) :: Unreserved(c) || c == PERCENT
  {
    if s != [] { OnlyUnreserved(s[..|s| - 1]); }
  }

  /** Exactly the unreserved characters are left as they are; each other one takes three bytes. */
  lemma {:induction false} EncodedLength(s: seq<byte>)
    ensures |Encoded(s)| == |s| + 2 * Escapes(s)
    ensures Escapes(s) == 0 <==> Encoded(s) == s
  {
    hide HexChar, Unreserved;
    if s != [] {
      var front, last := s[..|s| - 1], s[|s| - 1];
      EncodedLength(front);
      assert s == front + [last];
      if Unreserved(last) { Ends(Encoded(front), front, last); }
    }
  }

  lemma Ends(t: seq<byte>, front: seq<byte>, c: byte)
    ensures t + [c] == front + [c] <==> t == front
  {
    if t + [c] == front + [c] { assert t == (t + [c])[..|t|] && front == (front + [c])[..|front|]; }
  }

  function Escapes(s: seq<byte>): nat {
    if s == [] then 0 else Escapes(s[..|s| - 1]) + if Unreserved(s[|s| - 1]) then 0 else 1
  }

  // ------------------------------------------------------- the imperative code

  /** The body of the encoding loop: appends one character, unless it does not fit. */
  method EncodeChar(c: byte, buf: array<byte>, at: nat) returns (fits: bool, idx: nat)
    requires at <= buf.Length
    modifies buf
    ensures fits <==> at + |EncodedChar(c)| <= buf.Length
    ensures fits ==> idx == at + |EncodedChar(c)| && buf[..idx] == old(buf[..at]) + EncodedChar(c)
    ensures fits ==> forall k | idx <= k < buf.Length :: buf[k] == old(buf[k])
  {
    idx := at;
    if Unreserved(c) {
      if idx >= buf.Length {
        return false, idx;
      }
      buf[idx] := c;
      idx := idx + 1;
    } else {
      if idx + 2 >= buf.Length {
        return false, idx;
      }
      buf[idx], buf[idx + 1], buf[idx + 2] := PERCENT, HexChar(c / 16), HexChar(c % 16);
      idx := idx + 3;
    }
    fits := true;
  }

  /** `vtm_url_encode`: succeeds exactly when the buffer is longer than the encoded text, and then holds this text with a
      terminating NUL. */
  method Encode(s: cstring, buf: array<byte>) returns (rc: Rc)
    modifies buf
    ensures rc == if buf.Length > |Encoded(s)| then Fine else MaxReached
    ensures rc == Fine ==> buf[..|Encoded(s)|] == Encoded(s) && buf[|Encoded(s)|] == 0
    ensures rc == Fine ==> forall k | |Encoded(s)| < k < buf.Length :: buf[k] == old(buf[k])
  {
    var i, idx := 0, 0;
    while CharAt(s, i) != 0
      invariant i <= |s| && idx == |Encoded(s[..i])| <= buf.Length && buf[..idx] == Encoded(s[..i])
      invariant forall k | idx <= k < buf.Length :: buf[k] == old(buf[k])
      decreases |s| - i
    {
      var fits;
      LongerPrefix(s, i);
      fits, idx := EncodeChar(CharAt(s, i), buf, idx);
      if !fits {
        return MaxReached;
      }
      i := i + 1;
    }
    assert s[..i] == s;
    if idx >= buf.Length {
      return MaxReached;
    }
    buf[idx] := 0;
    rc := Fine;
  }

  lemma LongerPrefix(s: seq<byte>, i: nat)
    requires i < |s|
    ensures Encoded(s[..i + 1]) == Encoded(s[..i]) + EncodedChar(s[i]) && |Encoded(s[..i + 1])| <= |Encoded(s)|
  {
    assert s[..i + 1][..i] == s[..i];
    PrefixLength(s, i + 1);
  }

  lemma {:induction false} PrefixLength(s: seq<byte>, i: nat)
    requires i <= |s|
    ensures |Encoded(s[..i])| <= |Encoded(s)|
    decreases |s|
  {
    if i < |s| {
      PrefixLength(s[..|s| - 1], i);
      assert s[..|s| - 1][..i] == s[..i];
    } else {
      assert s[..i] == s;
    }
  }

  /** Some prefix of a text decodes to `out`, and `rest` is left. */
  ghost predicate Reads(t: seq<byte>, out: seq<byte>, rest: seq<byte>) {
    Decoded(t) == PrependAll(out, Decoded(rest))
  }

  function PrependAll(out: seq<byte>, rest: Option<seq<byte>>): Option<seq<byte>> {
    if rest == None then None else Some(out + rest.value)
  }

  lemma ReadsNothing(t: seq<byte>)
    ensures Reads(t, [], t)
  {
    if Decoded(t).Some? { assert [] + Decoded(t).value == Decoded(t).value; }
  }

  lemma ReadsOne(t: seq<byte>, out: seq<byte>, rest: seq<byte>, c: byte, next: seq<byte>)
    requires Reads(t, out, rest) && Decoded(rest) == Prepend(c, Decoded(next))
    ensures Reads(t, out + [c], next)
  {
    if Decoded(next).Some? { assert out + ([c] + Decoded(next).value) == (out + [c]) + Decoded(next).value; }
  }

  /** `vtm_url_decode`: if it succeeds, the buffer holds the decoded text with a terminating NUL. It reports an invalid text
      only if the text is invalid, and a buffer that is too small only if it is; of a text that is neither, nothing is
      refused. */
  method Decode(s: cstring, buf: array<byte>) returns (rc: Rc)
    modifies buf
    ensures rc == Fine ==> Decoded(s).Some? && |Decoded(s).value| < buf.Length
    ensures rc == Fine ==> buf[..|Decoded(s).value|] == Decoded(s).value && buf[|Decoded(s).value|] == 0
    ensures rc == InvalidArg ==> Decoded(s) == None
    ensures rc == MaxReached ==> Decoded(s) == None || |Decoded(s).value| >= buf.Length
  {
    var i, idx := 0, 0;
    assert s[0..] == s && buf[..0] == [];
    ReadsNothing(s);
    while CharAt(s, i) != 0
      invariant i <= |s| && idx <= buf.Length && Reads(s, buf[..idx], s[i..])
      decreases |s| - i
    {
      var c := CharAt(s, i);
      i := i + 1;
      ghost var rest := s[i - 1..];
      assert rest[1..] == s[i..];
      if idx >= buf.Length {
        assert Decoded(rest) == None || |Decoded(rest).value| > 0;
        return MaxReached;
      }
      if c == PERCENT {
        if CharAt(s, i) == 0 || CharAt(s, i + 1) == 0 {
          return InvalidArg;
        }
        var hi, lo := HexValue(CharAt(s, i)), HexValue(CharAt(s, i + 1));
        if hi == None || lo == None {
          return InvalidArg;
        }
        assert rest[1] == s[i] && rest[2] == s[i + 1] && rest[3..] == s[i + 2..];
        c := 16 * hi.value + lo.value;
        i := i + 2;
      }
      ReadsOne(s, buf[..idx], rest, c, s[i..]);
      ghost var out := buf[..idx];
      buf[idx] := c;
      idx := idx + 1;
      assert buf[..idx] == out + [c];
    }
    assert s[i..] == [];
    if idx >= buf.Length {
      return MaxReached;
    }
    buf[idx] := 0;
    rc := Fine;
  }
}
