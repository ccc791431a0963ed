/**
Named query parameters (`vtm_sql_extract_query_params`): each unquoted `:name` becomes a question mark.
*/
module Sql {
  import opened Bytes
  import B = Buffer

  const APOSTROPHE: byte := 39
  const COLON: byte := 58
  const MARK: byte := 63

  /** The rewritten query and the names of its parameters. */
  datatype Rewritten = Rewritten(out: seq<byte>, names: seq<seq<byte>>)

  /** `isalnum` in the C locale, or an underscore. */
  predicate NameChar(c: byte) {
    48 <= c <= 57 || 65 <= c <= 90 || 97 <= c <= 122 || c == 95
  }

  predicate IsName(name: seq<byte>) { forall k | 0 <= k < |name| :: NameChar(name[k]) }

  /** Length of the name at the front of a text: the longest run of name characters. */
  function NameLength(q: seq<byte>): (n: nat)
    ensures n <= |q|
  {
    if q == [] || !NameChar(q[0]) then 0 else 1 + NameLength(q[1..])
  }

  /** It is the longest such run. */
  lemma {:induction false} LongestName(q: seq<byte>, n: nat)
    requires n <= |q|
    ensures n == NameLength(q) <==> (forall k | 0 <= k < n :: NameChar(q[k])) && (n < |q| ==> !NameChar(q[n]))
  {
    if q != [] && NameChar(q[0]) && n > 0 {
      LongestName(q[1..], n - 1);
      assert forall k | 0 < k < n :: q[k] == q[1..][k - 1];
      assert forall k | 0 <= k < n - 1 :: q[1..][k] == q[k + 1];
    }
  }

  function Prepend(c: byte, r: Rewritten): Rewritten {
    Rewritten([c] + r.out, r.names)
  }

  function Quoting(c: byte, quote: bool): bool {
    if c == APOSTROPHE then !quote else quote
  }

  /** What becomes of the text `q`, which starts inside quotes or outside. */
  function Rewrite(q: seq<byte>, quote: bool): Rewritten
    decreases |q|
  {
    if q == [] then Rewritten([], [])
    else if q[0] == COLON && !quote then
      var n := NameLength(q[1..]);
      var rest := Rewrite(q[1 + n..], quote);
      Rewritten([MARK] + rest.out, [q[1..1 + n]] + rest.names)
    else Prepend(q[0], Rewrite(q[1..], Quoting(q[0], quote)))
  }

  // -------------------------------------------------------------- properties

  /** How often the character `c` occurs outside quotes. */
  function Outside(q: seq<byte>, c: byte, quote: bool): nat {
    if q == [] then 0
    else (if q[0] == c && !quote then 1 else 0) + Outside(q[1..], c, Quoting(q[0], quote))
  }

  /** The characters inside quotes, each tagged with the number of apostrophes before it. */
  function Inside(q: seq<byte>, quote: bool, apostrophes: nat): seq<(nat, byte)> {
    if q == [] then []
    else if q[0] == APOSTROPHE then Inside(q[1..], !quote, apostrophes + 1)
    else (if quote then [(apostrophes, q[0])] else []) + Inside(q[1..], quote, apostrophes)
  }

  /** A name can begin behind a mark only if no name character follows it. */
  predicate Loose(q: seq<byte>, quote: bool) {
    q != [] && q[0] == MARK && !quote && (|q| == 1 || !NameChar(q[1]))
  }

  /** How many marks outside quotes are not followed by a name character. */
  function LooseMarks(q: seq<byte>, quote: bool): nat {
    if q == [] then 0
    else (if Loose(q, quote) then 1 else 0) + LooseMarks(q[1..], Quoting(q[0], quote))
  }

  /** The query that results if the names are put back, in turn, at the first loose marks, or at the last ones. */
  function Restored(out: seq<byte>, names: seq<seq<byte>>, quote: bool, first: bool): seq<byte> {
    if out == [] then []
    else if Loose(out, quote) && names != [] && (first || |names| == LooseMarks(out, quote)) then
      [COLON] + names[0] + Restored(out[1..], names[1..], quote, first)
    else [out[0]] + Restored(out[1..], names, Quoting(out[0], quote), first)
  }

  /** A run of name characters holds no apostrophe, colon or mark, so it can be skipped. */
  lemma {:induction false} SkipName(q: seq<byte>, n: nat, c: byte, quote: bool, apostrophes: nat)
    requires n <= |q| && !NameChar(c) && forall k | 0 <= k < n :: NameChar(q[k])
    ensures Outside(q, c, quote) == Outside(q[n..], c, quote)
    ensures !quote ==> Inside(q, quote, apostrophes) == Inside(q[n..], quote, apostrophes)
  {
    if n > 0 {
      SkipName(q[1..], n - 1, c, quote, apostrophes);
      assert q[1..][n - 1..] == q[n..];
    } else {
      assert q[0..] == q;
    }
  }

  /** The parameters are as many as the unquoted colons. The marks outside quotes are these parameters and the marks that
      the query had; no colon is left outside quotes. */
  lemma {:induction false} MarksAndNames(q: seq<byte>, quote: bool)
    ensures |Rewrite(q, quote).names| == Outside(q, COLON, quote)
    ensures Outside(Rewrite(q, quote).out, MARK, quote) == Outside(q, MARK, quote) + |Rewrite(q, quote).names|
    ensures Outside(Rewrite(q, quote).out, COLON, quote) == 0
    decreases |q|
  {
    if q == [] {
    } else if q[0] == COLON && !quote {
      var n := NameLength(q[1..]);
      LongestName(q[1..], n);
      MarksAndNames(q[1 + n..], quote);
      SkipName(q[1..], n, MARK, quote, 0);
      SkipName(q[1..], n, COLON, quote, 0);
      assert q[1..][n..] == q[1 + n..];
      assert Rewrite(q, quote).out[1..] == Rewrite(q[1 + n..], quote).out;
    } else {
      MarksAndNames(q[1..], Quoting(q[0], quote));
      assert Rewrite(q, quote).out[1..] == Rewrite(q[1..], Quoting(q[0], quote)).out;
    }
  }

  /** Quoted text is unchanged. */
  lemma {:induction false} QuotedText(q: seq<byte>, quote: bool, apostrophes: nat)
    ensures Inside(Rewrite(q, quote).out, quote, apostrophes) == Inside(q, quote, apostrophes)
    decreases |q|
  {
    if q == [] {
    } else if q[0] == COLON && !quote {
      var n := NameLength(q[1..]);
      LongestName(q[1..], n);
      QuotedText(q[1 + n..], quote, apostrophes);
      SkipName(q[1..], n, MARK, quote, apostrophes);
      assert q[1..][n..] == q[1 + n..];
      assert Rewrite(q, quote).out[1..] == Rewrite(q[1 + n..], quote).out;
    } else {
      QuotedText(q[1..], Quoting(q[0], quote), if q[0] == APOSTROPHE then apostrophes + 1 else apostrophes);
      assert Rewrite(q, quote).out[1..] == Rewrite(q[1..], Quoting(q[0], quote)).out;
    }
  }

  /** A text without an unquoted colon has no parameters and stays as it is. */
  lemma {:induction false} NothingToRewrite(q: seq<byte>, quote: bool)
    requires Outside(q, COLON, quote) == 0
    ensures Rewrite(q, quote) == Rewritten(q, [])
  {
    if q != [] {
      NothingToRewrite(q[1..], Quoting(q[0], quote));
      assert [q[0]] + q[1..] == q;
    }
  }

  /** Rewriting a second time changes nothing. */
  lemma RewriteTwice(q: seq<byte>)
    ensures Rewrite(Rewrite(q, false).out, false) == Rewritten(Rewrite(q, false).out, [])
  {
    MarksAndNames(q, false);
    NothingToRewrite(Rewrite(q, false).out, false);
  }

  // ----------------------------------------------------------- the way back

  /** The first characters of a text and of what becomes of it are name characters together. */
  lemma FirstChar(q: seq<byte>, quote: bool)
    ensures Rewrite(q, quote).out == [] <==> q == []
    ensures q != [] ==> (NameChar(Rewrite(q, quote).out[0]) <==> NameChar(q[0]))
    ensures q != [] && q[0] != COLON ==> Rewrite(q, quote).out[0] == q[0]
  {}

  lemma {:induction false} SkipLoose(q: seq<byte>, n: nat, quote: bool)
    requires n <= |q| && forall k | 0 <= k < n :: NameChar(q[k])
    ensures LooseMarks(q, quote) == LooseMarks(q[n..], quote)
  {
    if n > 0 {
      SkipLoose(q[1..], n - 1, quote);
      assert q[1..][n - 1..] == q[n..];
    } else {
      assert q[0..] == q;
    }
  }

  /** A parameter at the front of a text. */
  lemma ParameterFirst(q: seq<byte>, quote: bool)
    requires q != [] && q[0] == COLON && !quote
    ensures var n, r := NameLength(q[1..]), Rewrite(q, quote);
            && r.out != [] && r.names != []
            && r.out[1..] == Rewrite(q[1 + n..], quote).out && r.names[1..] == Rewrite(q[1 + n..], quote).names
            && r.out[0] == MARK && r.names[0] == q[1..1 + n] && Loose(r.out, quote)
            && IsName(r.names[0])
            && LooseMarks(q, quote) == LooseMarks(q[1 + n..], quote)
  {
    var n := NameLength(q[1..]);
    LongestName(q[1..], n);
    FirstChar(q[1 + n..], quote);
    SkipLoose(q[1..], n, quote);
    assert q[1..][n..] == q[1 + n..] && forall k | 0 <= k < n :: q[1..][k] == q[1 + k];
    if 1 + n < |q| { assert q[1..][n] == q[1 + n]; }
  }

  /** Any other character at the front. */
  lemma OtherFirst(q: seq<byte>, quote: bool)
    requires q != [] && (q[0] != COLON || quote)
    ensures var r, rest := Rewrite(q, quote), Rewrite(q[1..], Quoting(q[0], quote));
            r.out != [] && r.out[0] == q[0] && r.out[1..] == rest.out && r.names == rest.names && (Loose(r.out, quote) <==> Loose(q, quote))
  {
    FirstChar(q[1..], Quoting(q[0], quote));
    if |q| > 1 { assert q[1..][0] == q[1]; }
  }

  /** The loose marks of the result are the parameters and the ones the query had. */
  lemma {:induction false} LooseAndNames(q: seq<byte>, quote: bool)
    ensures LooseMarks(Rewrite(q, quote).out, quote) == LooseMarks(q, quote) + |Rewrite(q, quote).names|
    ensures forall i | 0 <= i < |Rewrite(q, quote).names| :: IsName(Rewrite(q, quote).names[i])
    decreases |q|
  {
    if q == [] {
    } else if q[0] == COLON && !quote {
      ParameterFirst(q, quote);
      LooseAndNames(q[1 + NameLength(q[1..])..], quote);
    } else {
      OtherFirst(q, quote);
      LooseAndNames(q[1..], Quoting(q[0], quote));
    }
  }

  /** A name is put back at the first character. */
  predicate Restores(out: seq<byte>, names: seq<seq<byte>>, quote: bool, first: bool) {
    Loose(out, quote) && names != [] && (first || |names| == LooseMarks(out, quote))
  }

  lemma RestoredNext(out: seq<byte>, names: seq<seq<byte>>, quote: bool, first: bool)
    requires out != []
    ensures Restored(out, names, quote, first)
         == if Restores(out, names, quote, first) then [COLON] + names[0] + Restored(out[1..], names[1..], quote, first)
            else [out[0]] + Restored(out[1..], names, Quoting(out[0], quote), first)
  {}

  lemma LooseNext(q: seq<byte>, quote: bool)
    requires q != [] && LooseMarks(q, quote) == 0
    ensures !Loose(q, quote) && LooseMarks(q[1..], Quoting(q[0], quote)) == 0
  {}

  /** The rewriting of `q`, with the names put back. */
  function Undone(q: seq<byte>, quote: bool): seq<byte> {
    Restored(Rewrite(q, quote).out, Rewrite(q, quote).names, quote, true)
  }

  lemma UndoneParameter(q: seq<byte>, quote: bool)
    requires q != [] && q[0] == COLON && !quote
    ensures var n := NameLength(q[1..]); Undone(q, quote) == [COLON] + q[1..1 + n] + Undone(q[1 + n..], quote)
  {
    hide Rewrite, Restored, NameLength, LooseMarks, Loose, IsName;
    ParameterFirst(q, quote);
    RestoredNext(Rewrite(q, quote).out, Rewrite(q, quote).names, quote, true);
  }

  lemma UndoneOther(q: seq<byte>, quote: bool)
    requires q != [] && (q[0] != COLON || quote) && !Loose(q, quote)
    ensures Undone(q, quote) == [q[0]] + Undone(q[1..], Quoting(q[0], quote))
  {
    hide Rewrite, Restored, LooseMarks, Loose;
    OtherFirst(q, quote);
    RestoredNext(Rewrite(q, quote).out, Rewrite(q, quote).names, quote, true);
  }

  /** Putting the names back at the first loose marks restores a query that has none of its own. */
  lemma {:induction false} RestoreInverts(q: seq<byte>, quote: bool)
    requires LooseMarks(q, quote) == 0
    ensures Undone(q, quote) == q
    decreases |q|
  {
    if q == [] {
    } else if q[0] == COLON && !quote {
      hide Undone, NameLength, LooseMarks;
      var n := NameLength(q[1..]);
      ParameterFirst(q, quote);
      UndoneParameter(q, quote);
      RestoreInverts(q[1 + n..], quote);
      assert [COLON] + q[1..1 + n] + q[1 + n..] == q;
    } else {
      hide Undone, LooseMarks;
      LooseNext(q, quote);
      UndoneOther(q, quote);
      RestoreInverts(q[1..], Quoting(q[0], quote));
      assert [q[0]] + q[1..] == q;
    }
  }

  lemma RestoredFirst(out: seq<byte>, names: seq<seq<byte>>, quote: bool, first: bool)
    ensures var q := Restored(out, names, quote, first);
            (q == [] <==> out == []) && (q != [] ==> q[0] == out[0] || (q[0] == COLON && out[0] == MARK))
  {}

  lemma NameFits(name: seq<byte>, rest: seq<byte>)
    requires IsName(name) && (rest != [] ==> !NameChar(rest[0]))
    ensures NameLength(name + rest) == |name|
  {
    LongestName(name + rest, |name|);
  }

  lemma RewriteParameter(name: seq<byte>, rest: seq<byte>)
    requires NameLength(name + rest) == |name|
    ensures Rewrite([COLON] + name + rest, false)
            == Rewritten([MARK] + Rewrite(rest, false).out, [name] + Rewrite(rest, false).names)
  {
    var q := [COLON] + name + rest;
    assert q[1..] == name + rest && q[1 + |name|..] == rest && q[1..1 + |name|] == name;
  }

  lemma RewriteOther(c: byte, rest: seq<byte>, quote: bool)
    requires c != COLON || quote
    ensures var r := Rewrite(rest, Quoting(c, quote)); Rewrite([c] + rest, quote) == Rewritten([c] + r.out, r.names)
  {
    assert ([c] + rest)[1..] == rest;
  }

  /** Wherever the names are put back, the result has the same rewriting. */
  lemma {:induction false} RestoredRewrites(out: seq<byte>, names: seq<seq<byte>>, quote: bool, first: bool)
    requires Outside(out, COLON, quote) == 0 && |names| <= LooseMarks(out, quote)
    requires forall i | 0 <= i < |names| :: IsName(names[i])
    ensures Rewrite(Restored(out, names, quote, first), quote) == Rewritten(out, names)
  {
    if out != [] {
      hide Restored, Rewrite, IsName;
      RestoredNext(out, names, quote, first);
      if Restores(out, names, quote, first) {
        var rest := Restored(out[1..], names[1..], quote, first);
        RestoredRewrites(out[1..], names[1..], quote, first);
        RestoredFirst(out[1..], names[1..], quote, first);
        NameFits(names[0], rest);
        RewriteParameter(names[0], rest);
        assert [MARK] + out[1..] == out && [names[0]] + names[1..] == names;
      } else {
        RestoredRewrites(out[1..], names, Quoting(out[0], quote), first);
        RewriteOther(out[0], Restored(out[1..], names, Quoting(out[0], quote), first), quote);
        assert [out[0]] + out[1..] == out;
      }
    }
  }

  /** With names and loose marks to spare, the first and the last places differ. */
  lemma {:induction false} RestoredDiffers(out: seq<byte>, names: seq<seq<byte>>, quote: bool)
    requires 0 < |names| < LooseMarks(out, quote)
    ensures Restored(out, names, quote, true) != Restored(out, names, quote, false)
  {
    var a, b := Restored(out, names, quote, true), Restored(out, names, quote, false);
    if Loose(out, quote) {
      assert a[0] == COLON && b[0] == MARK;
    } else {
      RestoredDiffers(out[1..], names, Quoting(out[0], quote));
      assert a[1..] == Restored(out[1..], names, Quoting(out[0], quote), true);
      assert b[1..] == Restored(out[1..], names, Quoting(out[0], quote), false);
    }
  }

  lemma SameQuery(p: seq<byte>, q: seq<byte>)
    requires Rewrite(p, false) == Rewrite(q, false) && (Outside(q, COLON, false) == 0 || LooseMarks(q, false) == 0)
    ensures p == q
  {
    MarksAndNames(p, false);
    MarksAndNames(q, false);
    LooseAndNames(p, false);
    LooseAndNames(q, false);
    if Outside(q, COLON, false) == 0 {
      NothingToRewrite(p, false);
      NothingToRewrite(q, false);
    } else {
      RestoreInverts(p, false);
      RestoreInverts(q, false);
    }
  }

  lemma OtherQuery(q: seq<byte>) returns (p: seq<byte>)
    requires Outside(q, COLON, false) > 0 && LooseMarks(q, false) > 0
    ensures p != q && Rewrite(p, false) == Rewrite(q, false)
  {
    var r := Rewrite(q, false);
    MarksAndNames(q, false);
    LooseAndNames(q, false);
    RestoredRewrites(r.out, r.names, false, true);
    RestoredRewrites(r.out, r.names, false, false);
    RestoredDiffers(r.out, r.names, false);
    p := Restored(r.out, r.names, false, true);
    if p == q { p := Restored(r.out, r.names, false, false); }
  }

  /** The result determines the query, so that the rewriting can be undone, if and only if the query has no parameter or no
      loose mark; `:a ?` and `? :a`, for example, have the same result. */
  lemma Determined(q: seq<byte>)
    ensures (forall p :: Rewrite(p, false) == Rewrite(q, false) ==> p == q)
            <==> Outside(q, COLON, false) == 0 || LooseMarks(q, false) == 0
  {
    if Outside(q, COLON, false) == 0 || LooseMarks(q, false) == 0 {
      forall p | Rewrite(p, false) == Rewrite(q, false) ensures p == q { SameQuery(p, q); }
    } else {
      var p := OtherQuery(q);
    }
  }

  /** A query without a mark outside quotes has no loose mark, and its result has a mark for each name and no other. */
  lemma Unmarked(q: seq<byte>)
    requires Outside(q, MARK, false) == 0
    ensures LooseMarks(q, false) == 0 && Outside(Rewrite(q, false).out, MARK, false) == |Rewrite(q, false).names|
    ensures Restored(Rewrite(q, false).out, Rewrite(q, false).names, false, true) == q
  {
    LooseAreMarks(q, false);
    MarksAndNames(q, false);
    RestoreInverts(q, false);
  }

  lemma {:induction false} LooseAreMarks(q: seq<byte>, quote: bool)
    ensures LooseMarks(q, quote) <= Outside(q, MARK, quote)
  {
    if q != [] { LooseAreMarks(q[1..], Quoting(q[0], quote)); }
  }

  // ------------------------------------------------------- the imperative code

  function Continued(done: Rewritten, rest: Rewritten): Rewritten {
    Rewritten(done.out + rest.out, done.names + rest.names)
  }

  lemma ContinuedChar(done: Rewritten, c: byte, rest: Rewritten)
    ensures Continued(done, Prepend(c, rest)) == Continued(Rewritten(done.out + [c], done.names), rest)
  {
    assert done.out + ([c] + rest.out) == (done.out + [c]) + rest.out;
  }

  lemma ContinuedName(done: Rewritten, name: seq<byte>, rest: Rewritten)
    ensures Continued(done, Rewritten([MARK] + rest.out, [name] + rest.names))
            == Continued(Rewritten(done.out + [MARK], done.names + [name]), rest)
  {
    ContinuedChar(done, MARK, Rewritten(rest.out, [name] + rest.names));
    assert done.names + ([name] + rest.names) == (done.names + [name]) + rest.names;
  }

  /** `done` is what becomes of the first `i` characters. */
  ghost predicate Reached(query: seq<byte>, i: nat, quote: bool, done: Rewritten) {
    i <= |query| && Rewrite(query, false) == Continued(done, Rewrite(query[i..], quote))
  }

  lemma ReachedStart(query: seq<byte>)
    ensures Reached(query, 0, false, Rewritten([], []))
  {
    assert query[0..] == query;
  }

  lemma ReachedEnd(query: seq<byte>, quote: bool, done: Rewritten)
    requires Reached(query, |query|, quote, done)
    ensures Rewrite(query, false) == done
  {
    assert query[|query|..] == [];
  }

  lemma CharStep(query: seq<byte>, i: nat, quote: bool, done: Rewritten)
    requires i < |query| && Reached(query, i, quote, done) && (query[i] != COLON || quote)
    ensures Reached(query, i + 1, Quoting(query[i], quote), Rewritten(done.out + [query[i]], done.names))
  {
    assert query[i..][1..] == query[i + 1..];
    ContinuedChar(done, query[i], Rewrite(query[i + 1..], Quoting(query[i], quote)));
  }

  lemma NameStep(query: seq<byte>, i: nat, done: Rewritten)
    requires i < |query| && Reached(query, i, false, done) && query[i] == COLON
    ensures var next := i + 1 + NameLength(query[i + 1..]);
            Reached(query, next, false, Rewritten(done.out + [MARK], done.names + [query[i + 1..next]]))
  {
    var rest := query[i..];
    var n := NameLength(query[i + 1..]);
    assert rest[1..] == query[i + 1..] && rest[1 + n..] == query[i + 1 + n..] && rest[1..1 + n] == query[i + 1..i + 1 + n];
    ContinuedName(done, rest[1..1 + n], Rewrite(query[i + 1 + n..], false));
  }

  /** The inner loop: collects a name and returns the position behind it. */
  method TakeName(query: cstring, start: nat) returns (i: nat, name: seq<byte>)
    requires start <= |query|
    ensures i == start + NameLength(query[start..]) && name == query[start..i]
  {
    i, name := start, [];
    while CharAt(query, i) != 0 && NameChar(CharAt(query, i))
      invariant start <= i <= |query| && name == query[start..i]
      invariant forall k | start <= k < i :: NameChar(query[k])
      decreases |query| - i
    {
      name := name + [query[i]];
      i := i + 1;
    }
    LongestName(query[start..], i - start);
  }

  /** What is in the buffer after `out` was put there, byte by byte. */
  predicate Written(before: seq<byte>, out: seq<byte>, contents: seq<byte>, err: B.Error) {
    before <= contents <= before + out && (err == B.Ok ==> contents == before + out)
  }

  lemma WriteOne(before: seq<byte>, out: seq<byte>, contents: seq<byte>, c: byte, err: B.Error)
    requires Written(before, out, contents, err)
    ensures Written(before, out + [c], contents + if err == B.Ok then [c] else [], err)
    ensures |before + (out + [c])| == |before| + |out| + 1
  {
    assert before + (out + [c]) == (before + out) + [c];
  }

  /** `vtm_sql_extract_query_params`, which always reports success. The names are always complete; the rewritten query is,
      unless the buffer is or gets too large, and then a prefix of it was appended. */
  method ExtractQueryParams(buf: B.Buf, query: cstring, names: seq<seq<byte>>)
    returns (rc: B.Error, extended: seq<seq<byte>>)
    requires buf.Valid() && buf.len < B.SIZE
    modifies buf, buf.data
    ensures rc == B.Ok && buf.Valid() && extended == names + Rewrite(query, false).names
    ensures old(buf.err) == B.Ok && |old(buf.Contents())| + |Rewrite(query, false).out| <= B.QUARTER ==> buf.err == B.Ok
    ensures old(buf.err) != B.Ok ==> buf.err != B.Ok
    ensures buf.err == B.Ok ==> buf.Contents() == old(buf.Contents()) + Rewrite(query, false).out
    ensures old(buf.Contents()) <= buf.Contents() <= old(buf.Contents()) + Rewrite(query, false).out
  {
    hide Rewrite;
    var quote := false;
    var i := 0;
    extended := names;
    ghost var before, done := buf.Contents(), Rewritten([], []);
    ReachedStart(query);
    while CharAt(query, i) != 0
      invariant Reached(query, i, quote, done)
      invariant extended == names + done.names
      invariant buf.Valid() && buf.len < B.SIZE && (buf.data == old(buf.data) || fresh(buf.data))
      invariant Written(before, done.out, buf.Contents(), buf.err)
      invariant old(buf.err) == B.Ok && |before| + |done.out| <= B.QUARTER ==> buf.err == B.Ok
      invariant old(buf.err) != B.Ok ==> buf.err != B.Ok
      decreases |query| - i
    {
      var c := query[i];
      ghost var out := done.out;
      if c == COLON && !quote {
        NameStep(query, i, done);
        var name;
        i, name := TakeName(query, i + 1);
        extended := extended + [name];
        c := MARK;
        done := Rewritten(done.out + [MARK], done.names + [name]);
      } else {
        CharStep(query, i, quote, done);
        quote := Quoting(c, quote);
        i := i + 1;
        done := Rewritten(done.out + [c], done.names);
      }
      ghost var written := buf.Contents();
      rc := buf.PutC(c);
      WriteOne(before, out, written, c, rc);
    }
    ReachedEnd(query, quote, done);
    rc := B.Ok;
  }
}
