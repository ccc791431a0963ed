/**
The printer and the parser of NM messages are inverse to each other.
*/
module NmRoundTrip {
  import opened Wrappers
  import opened Bytes
  import opened Buffer
  import opened NmProtocol
  import opened NmParser

  // ------------------------------------------------------------ what is sent

  /** The field can be written. */
  predicate Writable(f: Field) {
    && IsField(f) && |f.name| <= MAX_NAME && TypeNum(TypeOf(f.value)) != 0 && !f.value.NotANumber?
    && (f.value.Text? ==> |f.value.str| <= MAX_LENGTH) && (f.value.Bytes? ==> |f.value.blob| <= MAX_LENGTH)
  }

  lemma EmitsField(f: Field)
    requires IsField(f)
    ensures EmitField(f).rc == Fine <==> Writable(f)
  {}

  lemma {:induction false} EmitsFields(fs: seq<Field>)
    requires forall f | f in fs :: IsField(f)
    ensures EmitFields(fs).rc == Fine <==> forall f | f in fs :: Writable(f)
    decreases |fs|
  {
    if fs != [] {
      var before, last := fs[..|fs| - 1], fs[|fs| - 1];
      assert fs == before + [last];
      EmitsFields(before);
      EmitsField(last);
    }
  }

  /** Exactly when `vtm_nm_msg_to_buf` succeeds. */
  lemma EmitSucceeds(fs: seq<Field>)
    requires forall f | f in fs :: IsField(f)
    ensures Emit(fs).rc == Fine <==> |fs| <= MAX_FIELDS && forall f | f in fs :: Writable(f)
  {
    EmitsFields(fs);
  }

  function Wire(fs: seq<Field>): seq<byte> {
    if fs == [] then [] else EmitField(fs[0]).bytes + Wire(fs[1..])
  }

  lemma {:induction false} WireAppend(fs: seq<Field>, f: Field)
    ensures Wire(fs + [f]) == Wire(fs) + EmitField(f).bytes
  {
    if fs != [] {
      assert (fs + [f])[1..] == fs[1..] + [f];
      WireAppend(fs[1..], f);
    } else {
      assert [f][1..] == [];
    }
  }

  lemma {:induction false} FieldsAreWire(fs: seq<Field>)
    requires EmitFields(fs).rc == Fine
    ensures EmitFields(fs).bytes == Wire(fs)
    decreases |fs|
  {
    if fs != [] {
      var before, last := fs[..|fs| - 1], fs[|fs| - 1];
      FieldsAreWire(before);
      WireAppend(before, last);
      assert fs == before + [last];
    }
  }

  // -------------------------------------------------------- what is received

  /** One round that processes exactly `a`. */
  lemma Eat(p: Parser, a: seq<byte>, rest: seq<byte>, p': Parser)
    requires Step(p, a + rest) == Go(p', |a|)
    ensures Run(p, a + rest) == Later(|a|, Run(p', rest))
  {
    assert (a + rest)[|a|..] == rest;
  }

  /** One round that processes nothing. */
  lemma Skip(p: Parser, s: seq<byte>, p': Parser)
    requires Step(p, s) == Go(p', 0)
    ensures Run(p, s) == Run(p', s)
  {
    assert s[0..] == s;
  }

  lemma EatNumber(p: Parser, v: nat, n: nat, rest: seq<byte>, p': Parser)
    requires (p.at == FieldCount && n == 2 && v <= MAX_FIELDS && p' == p.(count := v, parsed := 0, at := FieldBegin))
          || (p.at == ValueLen && n == 4 && v <= MAX_LENGTH && p' == p.(valueLen := v, at := ValueBody))
    ensures Run(p, Word(v, n) + rest) == Later(n, Run(p', rest))
  {
    Ranges();
    NumberOfWord(v, n);
    assert (Word(v, n) + rest)[..n] == Word(v, n);
    Eat(p, Word(v, n), rest, p');
  }

  lemma EatNameLen(p: Parser, n: byte, rest: seq<byte>)
    requires p.at == NameLen && n > 0
    ensures Run(p, [n] + rest) == Later(1, Run(p.(nameLen := n, at := Name), rest))
  {
    Eat(p, [n], rest, p.(nameLen := n, at := Name));
  }

  lemma EatName(p: Parser, name: cstring, rest: seq<byte>)
    requires p.at == Name && p.nameLen == |name|
    ensures Run(p, name + rest) == Later(|name|, Run(p.(name := name, at := ValueType), rest))
  {
    assert (name + rest)[..|name|] == name;
    Eat(p, name, rest, p.(name := name, at := ValueType));
  }

  lemma EatType(p: Parser, t: ElemType, rest: seq<byte>)
    requires p.at == ValueType && TypeNum(t) != 0
    ensures var p' := if t == String || t == Blob then p.(typ := t, at := ValueLen)
                      else p.(typ := t, valueLen := Size(t), at := ValueBody);
            Run(p, [TypeNum(t)] + rest) == Later(1, Run(p', rest))
  {
    TypeTables(t, 0);
    Eat(p, [TypeNum(t)], rest, AtType(p, TypeNum(t)).par);
  }

  lemma EatBody(p: Parser, body: seq<byte>, v: Value, rest: seq<byte>)
    requires p.at == ValueBody && p.valueLen == |body| && v == ValueOf(p.typ, body)
    ensures Run(p, body + rest) == Later(|body|, Run(p.(value := v, at := FieldComplete), rest))
  {
    assert (body + rest)[..|body|] == body;
    Eat(p, body, rest, p.(value := v, at := FieldComplete));
  }

  lemma LaterTwice(a: nat, b: nat, o: Outcome)
    ensures Later(a, Later(b, o)) == Later(a + b, o)
  {}

  /** The state in which the value of a field has been read. */
  function AfterValue(p: Parser, v: Value): Parser {
    p.(at := FieldComplete, typ := TypeOf(v), value := v,
       valueLen := match v
                   case Text(s) => |s|
                   case Bytes(b) => |b|
                   case _ => Size(TypeOf(v)))
  }

  lemma SizedParses(p: Parser, v: Value, data: seq<byte>, rest: seq<byte>)
    requires (v == Bytes(data) && p.typ == Blob) || (v.Text? && v.str == data && p.typ == String)
    requires p.at == ValueLen && |data| <= MAX_LENGTH
    ensures Run(p, Sized(data).bytes + rest)
         == Later(|Sized(data).bytes|, Run(p.(valueLen := |data|, value := v, at := FieldComplete), rest))
  {
    hide Run, Step, Word;
    var p1 := p.(valueLen := |data|, at := ValueBody);
    EatNumber(p, |data|, 4, data + rest, p1);
    EatBody(p1, data, v, rest);
    LaterTwice(4, |data|, Run(p.(valueLen := |data|, value := v, at := FieldComplete), rest));
    Regroup(Word(|data|, 4), data, [], [], rest);
    assert Word(|data|, 4) + data + [] + [] == Sized(data).bytes && [] + ([] + rest) == rest;
  }

  lemma ScalarParses(p: Parser, v: Value, rest: seq<byte>)
    requires v.Scalar? && Writable(Field([], v)) && p.at == ValueBody && p.typ == v.typ && p.valueLen == Size(v.typ)
    ensures Run(p, Content(v).bytes + rest) == Later(|Content(v).bytes|, Run(p.(value := v, at := FieldComplete), rest))
  {
    NumberOfWord(v.bits, Size(v.typ));
    EatBody(p, Word(v.bits, Size(v.typ)), v, rest);
  }

  lemma ContentParses(p: Parser, v: Value, rest: seq<byte>)
    requires Writable(Field([], v)) && p.at == ValueType
    ensures var n := 1 + |Content(v).bytes|;
            Run(p, [TypeNum(TypeOf(v))] + (Content(v).bytes + rest)) == Later(n, Run(AfterValue(p, v), rest))
  {
    var t := TypeOf(v);
    var p1 := if t == String || t == Blob then p.(typ := t, at := ValueLen)
              else p.(typ := t, valueLen := Size(t), at := ValueBody);
    EatType(p, t, Content(v).bytes + rest);
    match v
    case Text(s) => SizedParses(p1, v, s, rest);
    case Bytes(b) => SizedParses(p1, v, b, rest);
    case Scalar(_, _) => ScalarParses(p1, v, rest);
    LaterTwice(1, |Content(v).bytes|, Run(AfterValue(p, v), rest));
  }

  /** The state in which a field has been read completely. */
  function AfterField(p: Parser, f: Field): Parser {
    AfterValue(p, f.value).(nameLen := |f.name|, name := f.name, msg := Stored(p.msg, f.name, f.value),
                            parsed := p.parsed + 1, at := FieldBegin)
  }

  lemma NameParses(p: Parser, name: cstring, rest: seq<byte>)
    requires p.at == NameLen && 0 < |name| <= MAX_NAME
    ensures Run(p, [|name|] + (name + rest))
         == Later(1 + |name|, Run(p.(nameLen := |name|, name := name, at := ValueType), rest))
  {
    EatNameLen(p, |name|, name + rest);
    EatName(p.(nameLen := |name|, at := Name), name, rest);
    LaterTwice(1, |name|, Run(p.(nameLen := |name|, name := name, at := ValueType), rest));
  }

  lemma Regroup(a: seq<byte>, b: seq<byte>, c: seq<byte>, d: seq<byte>, rest: seq<byte>)
    ensures (a + b + c + d) + rest == a + (b + (c + (d + rest)))
  {}

  lemma FieldBytes(f: Field, rest: seq<byte>)
    requires Writable(f)
    ensures EmitField(f).bytes + rest == [|f.name|] + (f.name + ([TypeNum(TypeOf(f.value))] + (Content(f.value).bytes + rest)))
    ensures |EmitField(f).bytes| == 1 + |f.name| + (1 + |Content(f.value).bytes|)
  {
    Regroup([|f.name|], f.name, [TypeNum(TypeOf(f.value))], Content(f.value).bytes, rest);
  }

  lemma FieldSteps(p: Parser, f: Field, tail: seq<byte>, n: nat, rest: seq<byte>)
    requires Writable(f) && f.name != [] && p.at == NameLen
    requires var p2 := p.(nameLen := |f.name|, name := f.name, at := ValueType);
             Run(p2, tail) == Later(n, Run(AfterValue(p2, f.value), rest))
    ensures Run(p, [|f.name|] + (f.name + tail)) == Later(1 + |f.name| + n, Run(AfterField(p, f), rest))
  {
    hide Word;
    var p2 := p.(nameLen := |f.name|, name := f.name, at := ValueType);
    NameParses(p, f.name, tail);
    LaterTwice(1 + |f.name|, n, Run(AfterValue(p2, f.value), rest));
    Skip(AfterValue(p2, f.value), rest, AfterField(p, f));
  }

  lemma FieldParses(p: Parser, f: Field, rest: seq<byte>)
    requires Writable(f) && f.name != [] && p.at == NameLen
    ensures Run(p, EmitField(f).bytes + rest) == Later(|EmitField(f).bytes|, Run(AfterField(p, f), rest))
  {
    var tail, n := [TypeNum(TypeOf(f.value))] + (Content(f.value).bytes + rest), 1 + |Content(f.value).bytes|;
    ContentParses(p.(nameLen := |f.name|, name := f.name, at := ValueType), f.value, rest);
    FieldSteps(p, f, tail, n, rest);
    FieldBytes(f, rest);
  }

  /** The dataset after storing the fields in turn. */
  function Merged(msg: Option<Dataset>, fs: seq<Field>): Option<Dataset>
    decreases |fs|
  {
    if fs == [] then msg else Merged(Stored(msg, fs[0].name, fs[0].value), fs[1..])
  }

  lemma {:induction false} FieldsParse(p: Parser, fs: seq<Field>, rest: seq<byte>)
    requires forall f | f in fs :: Writable(f) && f.name != []
    requires p.at == FieldBegin && p.parsed + |fs| == p.count
    ensures var o := Run(p, Wire(fs) + rest);
            o.stat == Complete && o.used == |Wire(fs)| && o.par.at == MsgComplete && o.par.msg == Merged(p.msg, fs)
    decreases |fs|
  {
    if fs == [] {
      Skip(p, Wire(fs) + rest, p.(at := MsgComplete));
    } else {
      FirstField(p, fs, rest);
      FieldsParse(AfterField(p.(at := NameLen), fs[0]), fs[1..], rest);
    }
  }

  lemma WireHead(fs: seq<Field>, rest: seq<byte>)
    requires fs != []
    ensures Wire(fs) + rest == EmitField(fs[0]).bytes + (Wire(fs[1..]) + rest)
  {
    var a, b := EmitField(fs[0]).bytes, Wire(fs[1..]);
    assert (a + b) + rest == a + (b + rest);
  }

  lemma FirstField(p: Parser, fs: seq<Field>, rest: seq<byte>)
    requires fs != [] && Writable(fs[0]) && fs[0].name != [] && p.at == FieldBegin && p.parsed != p.count
    ensures Run(p, Wire(fs) + rest)
         == Later(|EmitField(fs[0]).bytes|, Run(AfterField(p.(at := NameLen), fs[0]), Wire(fs[1..]) + rest))
  {
    Skip(p, Wire(fs) + rest, p.(at := NameLen));
    WireHead(fs, rest);
    FieldParses(p.(at := NameLen), fs[0], Wire(fs[1..]) + rest);
  }

  lemma Nameless(p: Parser, s: seq<byte>)
    requires p.at == NameLen && s != [] && s[0] == 0
    ensures Run(p, s).stat == Invalid
  {}

  /** A field without a name is written, but the parser refuses it. */
  lemma {:induction false} FieldsRefused(p: Parser, fs: seq<Field>, rest: seq<byte>)
    requires (forall f | f in fs :: Writable(f)) && exists f :: f in fs && f.name == []
    requires p.at == FieldBegin && p.parsed + |fs| == p.count
    ensures Run(p, Wire(fs) + rest).stat == Invalid
    decreases |fs|
  {
    if fs[0].name == [] {
      Skip(p, Wire(fs) + rest, p.(at := NameLen));
      FieldBytes(fs[0], Wire(fs[1..]) + rest);
      WireHead(fs, rest);
      Nameless(p.(at := NameLen), Wire(fs) + rest);
    } else {
      FirstField(p, fs, rest);
      FieldsRefused(AfterField(p.(at := NameLen), fs[0]), fs[1..], rest);
    }
  }

  /** A parser between two messages. */
  predicate Between(p: Parser) { p.at == MsgBegin && p.msg == None }

  lemma HeadParses(p: Parser, n: nat, rest: seq<byte>)
    requires p.at == MsgBegin && n <= MAX_FIELDS
    ensures Run(p, PREFIX + Word(n, 2) + rest) == Later(4, Run(p.(at := FieldBegin, count := n, parsed := 0), rest))
  {
    var s := Word(n, 2) + rest;
    assert PREFIX + Word(n, 2) + rest == [MAGIC] + ([VERSION] + s);
    Skip(p, [MAGIC] + ([VERSION] + s), p.(at := Magic));
    Eat(p.(at := Magic), [MAGIC], [VERSION] + s, p.(at := Version));
    Eat(p.(at := Version), [VERSION], s, p.(at := FieldCount));
    EatNumber(p.(at := FieldCount), n, 2, rest, p.(at := FieldBegin, count := n, parsed := 0));
  }

  /** Parsing what was written for a message: if and only if every field has a name, the parser processes exactly these
      bytes and stores exactly these fields. */
  lemma MessageParses(p: Parser, fs: seq<Field>, rest: seq<byte>)
    requires p.at == MsgBegin && (forall f | f in fs :: IsField(f)) && Emit(fs).rc == Fine
    ensures var o := Run(p, Emit(fs).bytes + rest);
            if forall f | f in fs :: f.name != []
            then o.stat == Complete && o.used == |Emit(fs).bytes| && o.par.at == MsgComplete && o.par.msg == Merged(p.msg, fs)
            else o.stat == Invalid
  {
    EmitSucceeds(fs);
    FieldsAreWire(fs);
    var q := p.(at := FieldBegin, count := |fs|, parsed := 0);
    assert Emit(fs).bytes + rest == PREFIX + Word(|fs|, 2) + (Wire(fs) + rest);
    HeadParses(p, |fs|, Wire(fs) + rest);
    if forall f | f in fs :: f.name != [] {
      FieldsParse(q, fs, rest);
    } else {
      FieldsRefused(q, fs, rest);
    }
  }

  // ------------------------------------------------------------- round trip

  /** The entry set of a dataset, in any order. */
  predicate Lists(fs: seq<Field>, m: Dataset) {
    && (forall f | f in fs :: f.name in m && m[f.name] == f.value)
    && (forall name | name in m :: Field(name, m[name]) in fs)
  }

  lemma {:induction false} MergeKeeps(msg: Option<Dataset>, fs: seq<Field>, m: Dataset, name: cstring)
    requires forall f | f in fs :: f.name in m && m[f.name] == f.value
    requires msg.Some? && name in msg.value && (name in m ==> msg.value[name] == m[name])
    ensures var r := Merged(msg, fs); r.Some? && name in r.value && r.value[name] == msg.value[name]
    decreases |fs|
  {
    if fs != [] {
      assert fs[0] in fs;
      MergeKeeps(Stored(msg, fs[0].name, fs[0].value), fs[1..], m, name);
    }
  }

  lemma {:induction false} MergeBrings(msg: Option<Dataset>, fs: seq<Field>, m: Dataset, f: Field)
    requires forall f | f in fs :: f.name in m && m[f.name] == f.value
    requires f in fs
    ensures var r := Merged(msg, fs); r.Some? && f.name in r.value && r.value[f.name] == f.value
    decreases |fs|
  {
    var next := Stored(msg, fs[0].name, fs[0].value);
    if fs[0] == f {
      MergeKeeps(next, fs[1..], m, f.name);
    } else {
      MergeBrings(next, fs[1..], m, f);
    }
  }

  lemma {:induction false} MergeOnly(msg: Option<Dataset>, fs: seq<Field>, m: Dataset)
    requires forall f | f in fs :: f.name in m
    requires msg.Some? ==> msg.value.Keys <= m.Keys
    ensures Merged(msg, fs).Some? ==> Merged(msg, fs).value.Keys <= m.Keys
    decreases |fs|
  {
    if fs != [] {
      assert fs[0] in fs;
      MergeOnly(Stored(msg, fs[0].name, fs[0].value), fs[1..], m);
    }
  }

  /** Storing the entries of a dataset rebuilds it. */
  lemma MergeRebuilds(fs: seq<Field>, m: Dataset)
    requires Lists(fs, m) && fs != []
    ensures Merged(None, fs) == Some(m)
  {
    assert fs[0] in fs;
    MergeBrings(None, fs, m, fs[0]);
    MergeOnly(None, fs, m);
    var r := Merged(None, fs).value;
    forall name | name in m ensures name in r && r[name] == m[name] {
      MergeBrings(None, fs, m, Field(name, m[name]));
    }
    assert r == m;
  }

  /** `from_buf(to_buf(m))` is `m`, for every dataset that can be written, whatever follows it in the buffer, and exactly
      the bytes of the message are processed; if and only if no field has an empty name. */
  lemma RoundTrip(p: Parser, fs: seq<Field>, m: Dataset, rest: seq<byte>)
    requires Between(p) && Lists(fs, m) && fs != [] && (forall f | f in fs :: IsField(f)) && Emit(fs).rc == Fine
    ensures var o := Run(p, Emit(fs).bytes + rest);
            (o.stat == Complete && o.par.msg == Some(m) && o.used == |Emit(fs).bytes|) <==> [] !in m
  {
    MessageParses(p, fs, rest);
    MergeRebuilds(fs, m);
    if [] in m { assert Field([], m[[]]) in fs; }
  }

  /** Storing the entries of a dataset into another one. */
  lemma MergeInto(msg: Dataset, fs: seq<Field>, m: Dataset)
    requires Lists(fs, m)
    ensures Merged(Some(msg), fs) == Some(msg + m)
  {
    MergeOnly(Some(msg), fs, msg + m);
    MergeSome(msg, fs);
    var r := Merged(Some(msg), fs).value;
    forall name | name in m ensures name in r && r[name] == m[name] {
      MergeBrings(Some(msg), fs, m, Field(name, m[name]));
    }
    forall name | name in msg && name !in m ensures name in r && r[name] == msg[name] {
      MergeKeeps(Some(msg), fs, m, name);
    }
    assert r == msg + m;
  }

  lemma {:induction false} MergeSome(msg: Dataset, fs: seq<Field>)
    ensures Merged(Some(msg), fs).Some?
    decreases |fs|
  {
    if fs != [] { MergeSome(msg[fs[0].name := fs[0].value], fs[1..]); }
  }

  /** The parser never takes a dataset away. */
  lemma {:induction false} RunKeepsMsg(p: Parser, s: seq<byte>)
    requires p.msg.Some?
    ensures Run(p, s).par.msg.Some?
    decreases |s|, Rank(p.at)
  {
    var m := Step(p, s);
    if m.Go? { RunKeepsMsg(m.par, s[m.used..]); }
  }

  /** `vtm_nm_msg_from_buf`: the fields are stored in the dataset of the caller, also those before an error. */
  method MsgFromBuf(msg: Dataset, buf: Buf, host: Order) returns (ok: bool, result: Dataset)
    requires buf.Valid() && buf.order == BigEndian && buf.len < SIZE
    modifies buf`read
    ensures buf.Valid() && buf.Contents() == old(buf.Contents())
    ensures var o := Run(START.(msg := Some(msg)), old(buf.Unread()));
            buf.Unread() == old(buf.Unread())[o.used..] && (ok <==> o.stat == Complete) && Some(result) == o.par.msg
  {
    var par := new MsgParser(host);
    par.msg := Some(msg);
    RunKeepsMsg(par.View(), buf.Unread());
    var stat := par.RunOn(buf);
    ok, result := stat == Complete, par.msg.value;
  }

  /** Writing a message on one host and reading it on another, whatever their byte orders: it is added to the dataset there,
      if and only if it could be written and no name is empty. */
  method Exchange(fs: seq<Field>, m: Dataset, target: Dataset, sender: Order, receiver: Order, unset: Rc)
    returns (rc: Rc, ok: bool, result: Dataset)
    requires Lists(fs, m) && forall f | f in fs :: IsField(f)
    ensures |Emit(fs).bytes| <= QUARTER ==> rc == ReturnCode(fs, unset)
    ensures ok <==> rc == Fine && [] !in m
    ensures ok ==> result == target + m
  {
    hide Run, Merged;
    var buf := new Buf(BigEndian);
    rc := MsgToBuf(fs, buf, sender, unset);
    if rc != Fine {
      return rc, false, target;
    }
    assert buf.Unread() == Emit(fs).bytes + [];
    MessageParses(START.(msg := Some(target)), fs, []);
    MergeInto(target, fs, m);
    if [] in m { assert Field([], m[[]]) in fs; }
    ok, result := MsgFromBuf(target, buf, receiver);
  }
}
