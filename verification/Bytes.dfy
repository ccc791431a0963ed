/**
Bytes, byte orders and the values of multi-byte words.
*/
module Bytes {

  type byte = x: int | 0 <= x < 256

  /** A C string: its bytes up to, and without, the terminating NUL. */
  type cstring = s: seq<byte> | 0 !in s

  /** What a C program sees at a position of such a string, up to its terminator. */
  function CharAt(s: cstring, i: nat): byte {
    if i < |s| then s[i] else 0
  }

  datatype Order = BigEndian | LittleEndian

  lemma Associate(a: seq<byte>, b: seq<byte>, c: seq<byte>)
    ensures (a + b) + c == a + (b + c)
  {}

  /** Pieces one after the other. */
  function Joined(pieces: seq<seq<byte>>): seq<byte> {
    if pieces == [] then [] else pieces[0] + Joined(pieces[1..])
  }

  function Reversed(s: seq<byte>): (r: seq<byte>)
    ensures |r| == |s|
    ensures forall i :: 0 <= i < |s| ==> r[i] == s[|s| - 1 - i]
  {
    if s == [] then [] else Reversed(s[1..]) + [s[0]]
  }

  lemma ReversedTwice(s: seq<byte>)
    ensures Reversed(Reversed(s)) == s
  {}

  /** The bytes `s`, stored in one order, as they are seen in the other. */
  function Reordered(s: seq<byte>, a: Order, b: Order): (r: seq<byte>)
    ensures |r| == |s|
  {
    if a == b then s else Reversed(s)
  }

  /** Storing in a foreign order and loading in the same foreign order gives the bytes back. */
  lemma ReorderedTwice(s: seq<byte>, a: Order, b: Order)
    ensures Reordered(Reordered(s, a, b), b, a) == s
    ensures Reordered(Reordered(s, a, b), a, b) == s
  {
    ReversedTwice(s);
  }

  /** 256 to the power of `n`. */
  function Range(n: nat): (r: nat)
    ensures r > 0
  {
    if n == 0 then 1 else 256 * Range(n - 1)
  }

  /** The big-endian representation of a word of `n` bytes. */
  function Word(v: nat, n: nat): (s: seq<byte>)
    ensures |s| == n
  {
    if n == 0 then [] else Word(v / 256, n - 1) + [v % 256]
  }

  /** The value of a big-endian word. */
  function Number(s: seq<byte>): (v: nat)
    ensures v < Range(|s|)
  {
    if s == [] then 0 else
      var high := Number(s[..|s| - 1]);
      256 * high + s[|s| - 1]
  }

  lemma {:induction false} NumberOfWord(v: nat, n: nat)
    requires v < Range(n)
    ensures Number(Word(v, n)) == v
  {
    if n > 0 {
      NumberOfWord(v / 256, n - 1);
      assert Word(v, n)[..n - 1] == Word(v / 256, n - 1);
    }
  }

  lemma {:induction false} WordOfNumber(s: seq<byte>)
    ensures Word(Number(s), |s|) == s
  {
    if s != [] {
      WordOfNumber(s[..|s| - 1]);
      assert s == s[..|s| - 1] + [s[|s| - 1]];
    }
  }

  /** How a word of `n` bytes lies in the memory of a host. */
  function InMemory(v: nat, n: nat, host: Order): seq<byte> {
    Reordered(Word(v, n), BigEndian, host)
  }

  /** The word a host reads from its memory. */
  function FromMemory(s: seq<byte>, host: Order): nat {
    Number(Reordered(s, host, BigEndian))
  }

  lemma MemoryRoundTrip(v: nat, n: nat, host: Order)
    requires v < Range(n)
    ensures FromMemory(InMemory(v, n, host), host) == v
  {
    ReorderedTwice(Word(v, n), BigEndian, host);
    NumberOfWord(v, n);
  }

  lemma Ranges()
    ensures Range(1) == 0x100 && Range(2) == 0x1_0000 && Range(4) == 0x1_0000_0000
    ensures Range(8) == 0x1_0000_0000_0000_0000
  {
    assert Range(2) == 256 * Range(1);
    assert Range(4) == 256 * Range(3) && Range(3) == 256 * Range(2);
    assert Range(8) == 256 * Range(7) && Range(7) == 256 * Range(6);
    assert Range(6) == 256 * Range(5) && Range(5) == 256 * Range(4);
  }

  // ------------------------------------------------------------- exclusive or

  /** Exclusive or of the lowest `n` bits. */
  function XorBits(a: nat, b: nat, n: nat): (r: nat)
    ensures r < Power(n)
  {
    if n == 0 then 0 else (a + b) % 2 + 2 * XorBits(a / 2, b / 2, n - 1)
  }

  function Power(n: nat): (r: nat)
    ensures r > 0
  {
    if n == 0 then 1 else 2 * Power(n - 1)
  }

  lemma Parity(a: nat, b: nat, x: nat)
    ensures var y := (a + b) % 2 + 2 * x; y / 2 == x && (y + b) % 2 == a % 2
  {
    assert (a + b) % 2 == (a % 2 + b % 2) % 2;
  }

  lemma {:induction false} XorTwice(a: nat, b: nat, n: nat)
    requires a < Power(n)
    ensures XorBits(XorBits(a, b, n), b, n) == a
  {
    if n > 0 {
      XorTwice(a / 2, b / 2, n - 1);
      Parity(a, b, XorBits(a / 2, b / 2, n - 1));
    }
  }

  lemma EightBits()
    ensures Power(8) == 256
  {
    assert Power(4) == 16;
  }
}
