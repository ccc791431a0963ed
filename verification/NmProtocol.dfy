/**
The NM message format: what `vtm_nm_msg_to_buf` writes for a dataset, in the order its entry set lists the fields.

Values are kept as bit patterns. The packing of floating-point numbers into words is not modelled: a FLOAT or DOUBLE is
its packed word, or it is not a number and cannot be packed.
*/
module NmProtocol {
  import opened Bytes
  import opened Buffer

  datatype ElemType =
    | Null | Int8 | UInt8 | Int16 | UInt16 | Int32 | UInt32 | Int64 | UInt64 | Bool | Char | SChar | UChar
    | Short | UShort | Int | UInt | Long | ULong | Float | Double | String | Blob | Pointer

  datatype Value = Scalar(typ: ElemType, bits: nat) | NotANumber(typ: ElemType) | Text(str: cstring) | Bytes(blob: seq<byte>)

  datatype Field = Field(name: cstring, value: Value)

  datatype Rc = Fine | NotSupported | InvalidArg | TooMany | BufferFull

  const MAGIC: byte := 86

  const VERSION: byte := 1

  const MAX_NAME: nat := 255

  const MAX_FIELDS: nat := 0xffff

  const MAX_LENGTH: nat := 0xffff_ffff

  function TypeOf(v: Value): ElemType {
    match v
    case Scalar(t, _) => t
    case NotANumber(t) => t
    case Text(_) => String
    case Bytes(_) => Blob
  }

  /** `vtm_elem_size` of the types with a number; the others never get as far. */
  function Size(t: ElemType): nat {
    match t
    case Int16 => 2
    case UInt16 => 2
    case Int32 => 4
    case UInt32 => 4
    case Int64 => 8
    case UInt64 => 8
    case Float => 4
    case Double => 8
    case _ => 1
  }

  /** `vtm_nm_type_to_num`; zero stands for VTM_E_NOT_SUPPORTED. */
  function TypeNum(t: ElemType): byte {
    match t
    case Int8 => 1
    case UInt8 => 2
    case Int16 => 3
    case UInt16 => 4
    case Int32 => 5
    case UInt32 => 6
    case Int64 => 7
    case UInt64 => 8
    case Bool => 9
    case Char => 10
    case SChar => 11
    case UChar => 12
    case Float => 13
    case Double => 14
    case String => 15
    case Blob => 16
    case _ => 0
  }

  /** `vtm_nm_type_from_num`; `Null` stands for VTM_E_NOT_SUPPORTED. */
  function TypeFromNum(c: byte): ElemType {
    if c == 1 then Int8 else if c == 2 then UInt8 else if c == 3 then Int16 else if c == 4 then UInt16
    else if c == 5 then Int32 else if c == 6 then UInt32 else if c == 7 then Int64 else if c == 8 then UInt64
    else if c == 9 then Bool else if c == 10 then Char else if c == 11 then SChar else if c == 12 then UChar
    else if c == 13 then Float else if c == 14 then Double else if c == 15 then String else if c == 16 then Blob
    else Null
  }

  /** The two tables are inverse to each other, and cover the same types. */
  lemma TypeTables(t: ElemType, c: byte)
    ensures TypeNum(t) != 0 ==> TypeFromNum(TypeNum(t)) == t
    ensures TypeFromNum(c) != Null ==> TypeNum(TypeFromNum(c)) == c
    ensures TypeNum(t) == 0 <==> t.Null? || t.Short? || t.UShort? || t.Int? || t.UInt? || t.Long? || t.ULong? || t.Pointer?
    ensures TypeFromNum(c) == Null <==> c == 0 || c > 16
  {}

  /** What a dataset can hold: a scalar fits its type, and everything fits into memory. */
  predicate IsField(f: Field) {
    && |f.name| < SIZE
    && match f.value
       case Scalar(t, bits) => t != String && t != Blob && bits < Range(Size(t))
       case NotANumber(t) => t == Float || t == Double
       case Text(s) => |s| < SIZE
       case Bytes(b) => |b| < SIZE
  }

  /** Bytes that were written, and whether writing stopped there with an error. */
  datatype Emitted = Emitted(bytes: seq<byte>, rc: Rc)

  /** The content that follows the type number. */
  function Content(v: Value): Emitted {
    match v
    case Scalar(t, bits) => Emitted(Word(bits, Size(t)), Fine)
    case NotANumber(t) => Emitted([], InvalidArg)
    case Text(s) => Sized(s)
    case Bytes(b) => Sized(b)
  }

  function Sized(s: seq<byte>): Emitted {
    if |s| > MAX_LENGTH then Emitted([], NotSupported) else Emitted(Word(|s|, 4) + s, Fine)
  }

  function EmitField(f: Field): Emitted {
    if |f.name| > MAX_NAME then Emitted([], NotSupported) else
    var head := [|f.name|] + f.name;
    var num := TypeNum(TypeOf(f.value));
    if num == 0 then Emitted(head, NotSupported) else
    Emitted(head + [num] + Content(f.value).bytes, Content(f.value).rc)
  }

  /** The fields, up to and including the first that cannot be written. */
  function EmitFields(fs: seq<Field>): Emitted {
    if fs == [] then Emitted([], Fine) else
    var before := EmitFields(fs[..|fs| - 1]);
    if before.rc != Fine then before else
    var last := EmitField(fs[|fs| - 1]);
    Emitted(before.bytes + last.bytes, last.rc)
  }

  const PREFIX: seq<byte> := [MAGIC, VERSION]

  /** Everything `vtm_nm_msg_to_buf` appends, and its return code. The bytes written before an error stay. */
  function Emit(fs: seq<Field>): Emitted {
    if |fs| > MAX_FIELDS then Emitted(PREFIX, TooMany) else
    Emitted(PREFIX + Word(|fs|, 2) + EmitFields(fs).bytes, EmitFields(fs).rc)
  }

  // ------------------------------------------------------- the imperative code

  /** The shape of a step that appends: the buffer stays valid, keeps what it had, and either holds `more` in addition or
      has recorded an error; which it only does if it becomes too large. */
  twostate predicate Appends(buf: Buf, more: seq<byte>)
    reads buf, buf.data
  {
    && old(buf.Valid()) && buf.Valid() && buf.len < SIZE && buf.read == old(buf.read)
    && (buf.data == old(buf.data) || fresh(buf.data))
    && old(buf.Contents()) <= buf.Contents()
    && (old(buf.err) != Ok ==> buf.err != Ok)
    && (buf.err == Ok ==> buf.Contents() == old(buf.Contents()) + more)
    && (old(buf.err) == Ok && |old(buf.Contents())| + |more| <= QUARTER ==> buf.err == Ok)
  }

  /** Appends a word of `n` bytes that the host keeps in its own byte order. */
  method PutWord(buf: Buf, v: nat, n: nat, host: Order)
    requires buf.Valid() && buf.len < SIZE && buf.order == BigEndian && n < SIZE
    modifies buf, buf.data
    ensures Appends(buf, Word(v, n))
  {
    ReorderedTwice(Word(v, n), BigEndian, host);
    var _ := buf.PutO(InMemory(v, n, host), host);
  }

  method PutSized(buf: Buf, s: seq<byte>, host: Order) returns (rc: Rc)
    requires buf.Valid() && buf.len < SIZE && buf.order == BigEndian && |s| < SIZE
    modifies buf, buf.data
    ensures Appends(buf, Sized(s).bytes) && rc == Sized(s).rc
  {
    if |s| > MAX_LENGTH {
      return NotSupported;
    }
    PutWord(buf, |s|, 4, host);
    var _ := buf.PutM(s);
    rc := Fine;
  }

  method PutContent(buf: Buf, v: Value, host: Order) returns (rc: Rc)
    requires buf.Valid() && buf.len < SIZE && buf.order == BigEndian && IsField(Field([], v))
    modifies buf, buf.data
    ensures Appends(buf, Content(v).bytes) && rc == Content(v).rc
  {
    match v
    case Scalar(t, bits) => PutWord(buf, bits, Size(t), host); rc := Fine;
    case NotANumber(_) => rc := InvalidArg;
    case Text(s) => rc := PutSized(buf, s, host);
    case Bytes(b) => rc := PutSized(buf, b, host);
  }

  /** A byte and the bytes that follow it. */
  method PutBlock(buf: Buf, c: byte, s: seq<byte>)
    requires buf.Valid() && buf.len < SIZE && |s| < SIZE
    modifies buf, buf.data
    ensures Appends(buf, [c] + s)
  {
    var _ := buf.PutC(c);
    var _ := buf.PutM(s);
  }

  method PutValue(buf: Buf, num: byte, v: Value, host: Order) returns (rc: Rc)
    requires buf.Valid() && buf.len < SIZE && buf.order == BigEndian && IsField(Field([], v))
    modifies buf, buf.data
    ensures Appends(buf, [num] + Content(v).bytes) && rc == Content(v).rc
  {
    hide Content, Capacity;
    var _ := buf.PutC(num);
    rc := PutContent(buf, v, host);
  }

  /** One round of the loop over the fields. */
  method PutField(buf: Buf, f: Field, host: Order) returns (rc: Rc)
    requires buf.Valid() && buf.len < SIZE && buf.order == BigEndian && IsField(f)
    modifies buf, buf.data
    ensures Appends(buf, EmitField(f).bytes) && rc == EmitField(f).rc
  {
    hide Content, Capacity;
    if |f.name| > MAX_NAME {
      return NotSupported;
    }
    ghost var head := [|f.name|] + f.name;
    PutBlock(buf, |f.name|, f.name);
    var num := TypeNum(TypeOf(f.value));
    if num == 0 {
      return NotSupported;
    }
    rc := PutValue(buf, num, f.value, host);
    assert head + ([num] + Content(f.value).bytes) == head + [num] + Content(f.value).bytes;
  }

  lemma EmitNext(fs: seq<Field>, i: nat)
    requires i < |fs| && EmitFields(fs[..i]).rc == Fine
    ensures EmitFields(fs[..i + 1])
            == Emitted(EmitFields(fs[..i]).bytes + EmitField(fs[i]).bytes, EmitField(fs[i]).rc)
  {
    assert fs[..i + 1][..i] == fs[..i];
  }

  lemma {:induction false} EmitStops(fs: seq<Field>, i: nat)
    requires i <= |fs| && EmitFields(fs[..i]).rc != Fine
    ensures EmitFields(fs) == EmitFields(fs[..i])
    decreases |fs|
  {
    if i < |fs| {
      assert fs[..|fs| - 1][..i] == fs[..i];
      EmitStops(fs[..|fs| - 1], i);
    } else {
      assert fs[..i] == fs;
    }
  }

  /** The loop over the fields. */
  method PutFields(buf: Buf, fs: seq<Field>, host: Order) returns (rc: Rc)
    requires forall f | f in fs :: IsField(f)
    requires buf.Valid() && buf.len < SIZE && buf.order == BigEndian
    modifies buf, buf.data
    ensures Appends(buf, EmitFields(fs).bytes) && rc == EmitFields(fs).rc
  {
    var i := 0;
    rc := Fine;
    ghost var more: seq<byte> := [];
    while i < |fs|
      invariant 0 <= i <= |fs| && rc == Fine && EmitFields(fs[..i]) == Emitted(more, Fine)
      invariant Appends(buf, more)
    {
      EmitNext(fs, i);
      ghost var one := EmitField(fs[i]).bytes;
      rc := PutField(buf, fs[i], host);
      Associate(old(buf.Contents()), more, one);
      more := more + one;
      i := i + 1;
      if rc != Fine {
        EmitStops(fs, i);
        return;
      }
    }
    assert fs[..i] == fs;
  }

  /** The return code when the buffer has not overflowed. For a message without fields the source never sets it, so it is
      what happens to be in the variable. */
  function ReturnCode(fs: seq<Field>, unset: Rc): Rc {
    if fs == [] then unset else Emit(fs).rc
  }

  /** `vtm_nm_msg_to_buf`: unless the buffer overflows, it appends the format above, whatever the byte order of the host;
      and it reports success only if everything was written. */
  method MsgToBuf(fs: seq<Field>, buf: Buf, host: Order, unset: Rc) returns (rc: Rc)
    requires forall f | f in fs :: IsField(f)
    requires buf.Valid() && buf.len < SIZE && buf.order == BigEndian
    modifies buf, buf.data
    ensures Appends(buf, Emit(fs).bytes)
    ensures buf.err == Ok ==> rc == ReturnCode(fs, unset)
    ensures rc == Fine ==> buf.err == Ok
  {
    hide EmitFields, Word, Capacity;
    PutBlock(buf, MAGIC, [VERSION]);
    if |fs| > MAX_FIELDS {
      return TooMany;
    }
    PutWord(buf, |fs|, 2, host);
    rc := PutFields(buf, fs, host);
    if fs == [] {
      rc := unset;
    }
    if rc == Fine && buf.err != Ok {
      rc := BufferFull;
    }
  }
}
