/**
Hash functions and comparison functions of keys, and their agreement: keys that compare equal hash equally.
*/
module Hash {
  import opened Bytes

  const INIT: nat := 2503

  const MAGIC_32: nat := 0x54321bb7

  const MAGIC_64: nat := 0x4c13b5651eba82cb

  const WORD: nat := 0x1_0000_0000

  const WORD_64: nat := 0x1_0000_0000_0000_0000

  /** `tolower` in the C locale. */
  function ToLower(c: byte): (r: byte)
    ensures r == 0 <==> c == 0
  {
    if 65 <= c <= 90 then c + 32 else c
  }

  function Lower(s: seq<byte>): (r: seq<byte>)
    ensures |r| == |s| && (forall i | 0 <= i < |s| :: r[i] == ToLower(s[i])) && (0 !in s ==> 0 !in r)
  {
    seq(|s|, i requires 0 <= i < |s| => ToLower(s[i]))
  }

  lemma LowerTwice(s: seq<byte>)
    ensures Lower(Lower(s)) == Lower(s)
  {}

  /** A (signed) char, converted to 32 bits. */
  function Extended(c: byte): nat {
    if c < 128 then c else c + 0xffff_ff00
  }

  /** `((h << 13) - h) ^ c` in 32 bits. */
  function Mix(h: nat, c: byte): nat { XorBits(8191 * h % WORD, Extended(c), 32) }

  /** The hash of bytes, on top of the hash of those before them. */
  function HashBytes(h: nat, s: seq<byte>): nat {
    if s == [] then h else Mix(HashBytes(h, s[..|s| - 1]), s[|s| - 1])
  }

  /** `vtm_hash_str`. */
  method HashStr(s: cstring) returns (hash: nat)
    ensures hash == HashBytes(INIT, s)
  {
    hash := INIT;
    var i := 0;
    while CharAt(s, i) != 0
      invariant i <= |s| && hash == HashBytes(INIT, s[..i])
      decreases |s| - i
    {
      hash := Mix(hash, CharAt(s, i));
      assert s[..i + 1][..i] == s[..i];
      i := i + 1;
    }
    assert s[..i] == s;
  }

  /** `vtm_hash_strcase`: the hash of the string in lower case. */
  method HashStrCase(s: cstring) returns (hash: nat)
    ensures hash == HashBytes(INIT, Lower(s))
  {
    hash := INIT;
    var i := 0;
    while CharAt(s, i) != 0
      invariant i <= |s| && hash == HashBytes(INIT, Lower(s)[..i])
      decreases |s| - i
    {
      hash := Mix(hash, ToLower(CharAt(s, i)));
      assert Lower(s)[..i + 1][..i] == Lower(s)[..i];
      i := i + 1;
    }
    assert Lower(s)[..i] == Lower(s);
  }

  /** `vtm_str_casecmp` returns zero if and only if the strings differ at most in the case of letters. */
  method StrCaseCmp(s1: cstring, s2: cstring) returns (r: int)
    ensures r == 0 <==> Lower(s1) == Lower(s2)
  {
    var i := 0;
    while ToLower(CharAt(s1, i)) == ToLower(CharAt(s2, i))
      invariant i <= |s1| && i <= |s2| && Lower(s1)[..i] == Lower(s2)[..i]
      decreases |s1| - i
    {
      if CharAt(s1, i) == 0 || CharAt(s2, i) == 0 {
        break;
      }
      assert Lower(s1)[..i + 1] == Lower(s1)[..i] + [Lower(s1)[i]];
      assert Lower(s2)[..i + 1] == Lower(s2)[..i] + [Lower(s2)[i]];
      i := i + 1;
    }
    r := ToLower(CharAt(s1, i)) - ToLower(CharAt(s2, i));
    if r == 0 {
      assert i == |s1| && i == |s2| && Lower(s1)[..i] == Lower(s1) && Lower(s2)[..i] == Lower(s2);
    } else {
      EqualAt(s1, s2, i);
    }
  }

  lemma EqualAt(s1: cstring, s2: cstring, i: nat)
    ensures Lower(s1) == Lower(s2) ==> ToLower(CharAt(s1, i)) == ToLower(CharAt(s2, i))
  {
    if Lower(s1) == Lower(s2) {
      assert |s1| == |Lower(s1)| == |s2|;
      if i < |s1| { assert Lower(s1)[i] == Lower(s2)[i]; }
    }
  }

  // -------------------------------------------------------------------- keys

  /** How a table treats its keys; `Caseless` are strings with VTM_DS_HINT_IGNORE_CASE. */
  datatype KeyType = Number | Pointer | String | Caseless | Blob

  /** A key of the matching type; numbers and pointers as 64-bit patterns. */
  datatype Key = Num(num: nat) | Str(str: cstring) | Mem(mem: seq<byte>)

  /** `vtm_hash_unum`. */
  function HashUNum(n: nat): nat {
    (n / WORD + n % WORD) % WORD * MAGIC_32 % WORD
  }

  /** The hash function of a key type. */
  function HashOf(t: KeyType, k: Key): nat {
    match k
    case Num(n) => if t == Pointer then HashUNum(n * MAGIC_64 % WORD_64) else HashUNum(n)
    case Str(s) => HashBytes(INIT, if t == Caseless then Lower(s) else s)
    case Mem(b) => HashBytes(INIT, b)
  }

  /** The comparison function of a key type. */
  predicate Same(t: KeyType, a: Key, b: Key) {
    if t == Caseless && a.Str? && b.Str? then Lower(a.str) == Lower(b.str) else a == b
  }

  /** The representative of all keys that compare equal. */
  function Canonical(t: KeyType, k: Key): Key {
    if t == Caseless && k.Str? then Str(Lower(k.str)) else k
  }

  lemma SameIsCanonical(t: KeyType, a: Key, b: Key)
    ensures Same(t, a, b) <==> Canonical(t, a) == Canonical(t, b)
    ensures Canonical(t, Canonical(t, a)) == Canonical(t, a)
  {
    if a.Str? { LowerTwice(a.str); }
  }

  /** Keys that compare equal hash equally. */
  lemma HashCongruent(t: KeyType, a: Key, b: Key)
    requires Same(t, a, b)
    ensures HashOf(t, a) == HashOf(t, b)
  {}

  lemma HashCanonical(t: KeyType, a: Key)
    ensures HashOf(t, Canonical(t, a)) == HashOf(t, a)
  {
    if a.Str? { LowerTwice(a.str); }
  }
}
