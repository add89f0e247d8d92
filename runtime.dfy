/**
 * The emitted code at run time (src/generator/generator.go): the stream
 * collaborator over an in-memory buffer, the PacketHeader's Read and Write,
 * a generated type's instance with its Length, AdjustLength, Read and Write
 * methods, and the packet factory with its optional cacher. Each method is
 * proved against the function in module Wire that states what it computes.
 */
module Runtime {
  import opened Wrappers
  import opened Bytes
  import opened Layout
  import opened Wire
  import opened WireProofs
  import opened Generator

  /** r is the outcome `(v, err)` reports, with `rest` the unread part of the stream. */
  predicate Outcome<T(==)>(r: Result<(T, seq<byte>), ReadError>, v: T, err: Option<ReadError>, rest: seq<byte>)
  {
    match r
    case Success((w, left)) => err.None? && v == w && rest == left
    case Failure(e) => err == Some(e)
  }

  // ---------------------------------------------------------------------------
  // Streams
  // ---------------------------------------------------------------------------

  /**
   * A ReadStream over a buffer. Integers are big-endian; a read that runs
   * out of bytes fails with EOF and leaves the position where it was.
   */
  class ReadStream {
    const buf: array<byte>
    /** The contents of buf, which no read changes. */
    ghost const bytes: seq<byte>
    var pos: nat

    constructor (buf: array<byte>)
      ensures this.buf == buf && bytes == buf[..] && pos == 0 && Valid()
    {
      this.buf := buf;
      bytes := buf[..];
      pos := 0;
    }

    ghost predicate Valid()
      reads this, buf
    {
      pos <= |bytes| && buf[..] == bytes
    }

    /** What is left to read. */
    ghost function Rest(): seq<byte>
      reads this, buf
      requires Valid()
    {
      bytes[pos..]
    }

    /** ReadByte, ReadUint16, ReadUint32 and ReadUint64, for w = 1, 2, 4 and 8. */
    method ReadUnsigned(w: nat) returns (n: nat, err: Option<ReadError>)
      requires Valid()
      modifies this
      ensures Valid()
      ensures old(pos) <= pos
      ensures Outcome(ReadUint(w, old(Rest())), n, err, Rest())
      ensures err.Some? ==> pos == old(pos)
    {
      if buf.Length - pos < w {
        return 0, Some(EOF);
      }
      assert buf[pos..][..w] == buf[pos..pos + w];
      assert buf[pos..][w..] == buf[pos + w..];
      n := UintValue(buf[pos..pos + w]);
      pos := pos + w;
      err := None;
    }

    method ReadUint32() returns (n: uint32, err: Option<ReadError>)
      requires Valid()
      modifies this
      ensures Valid()
      ensures old(pos) <= pos
      ensures Outcome(ReadU32(old(Rest())), n, err, Rest())
    {
      var u, e := ReadUnsigned(4);
      assert Pow256(4) == UINT32_LIMIT;
      if e.Some? {
        return 0, e;
      }
      return u, None;
    }

    /** ReadBuff(n): the next n bytes. */
    method ReadBuff(n: nat) returns (bs: seq<byte>, err: Option<ReadError>)
      requires Valid()
      modifies this
      ensures Valid()
      ensures old(pos) <= pos
      ensures Outcome(Wire.ReadBuff(n, old(Rest())), bs, err, Rest())
      ensures err.Some? ==> pos == old(pos)
    {
      if buf.Length - pos < n {
        return [], Some(EOF);
      }
      assert buf[pos..][..n] == buf[pos..pos + n];
      assert buf[pos..][n..] == buf[pos + n..];
      bs := buf[pos..pos + n];
      pos := pos + n;
      err := None;
    }
  }

  /** A WriteStream that collects what is written. Write errors are not modelled. */
  class WriteStream {
    var data: seq<byte>

    constructor ()
      ensures data == []
    {
      data := [];
    }

    /** WriteByte, WriteUint16, WriteUint32 and WriteUint64, for w = 1, 2, 4 and 8. */
    method WriteUnsigned(w: nat, n: nat)
      requires n < Pow256(w)
      modifies this
      ensures data == old(data) + UintBytes(w, n)
    {
      data := data + UintBytes(w, n);
    }

    method WriteBuff(bs: seq<byte>)
      modifies this
      ensures data == old(data) + bs
    {
      data := data + bs;
    }
  }

  // ---------------------------------------------------------------------------
  // PacketHeader
  // ---------------------------------------------------------------------------

  /** PacketHeader.Read: six uint32 reads, returning at the first failure. */
  method ReadHeader(s: ReadStream) returns (h: Header, err: Option<ReadError>)
    requires s.Valid()
    modifies s
    ensures s.Valid()
    ensures Outcome(DecodeHeader(old(s.Rest())), h, err, s.Rest())
  {
    h := Header(0, 0, 0, 0, 0, 0);
    var bs := s.Rest();
    var id, e1 := s.ReadUint32();
    if e1.Some? {
      return h, e1;
    }
    var packetType, e2 := s.ReadUint32();
    if e2.Some? {
      return h, e2;
    }
    var len, e3 := s.ReadUint32();
    if e3.Some? {
      return h, e3;
    }
    var version, e4 := s.ReadUint32();
    if e4.Some? {
      return h, e4;
    }
    var ack, e5 := s.ReadUint32();
    if e5.Some? {
      return h, e5;
    }
    var token, e6 := s.ReadUint32();
    if e6.Some? {
      return h, e6;
    }
    h := Header(id, packetType, len, version, ack, token);
    assert bs[4..][4..][4..][4..][4..][4..] == bs[24..];
    err := None;
  }

  /** PacketHeader.Write: the six fields in order. */
  method WriteHeader(s: WriteStream, h: Header)
    modifies s
    ensures s.data == old(s.data) + EncodeHeader(h)
  {
    ghost var start := s.data;
    s.WriteUnsigned(4, h.id);
    s.WriteUnsigned(4, h.packetType);
    ConcatAssoc(start, U32(h.id), U32(h.packetType));
    s.WriteUnsigned(4, h.len);
    ConcatAssoc(start, U32(h.id) + U32(h.packetType), U32(h.len));
    s.WriteUnsigned(4, h.version);
    ConcatAssoc(start, U32(h.id) + U32(h.packetType) + U32(h.len), U32(h.version));
    s.WriteUnsigned(4, h.ack);
    ConcatAssoc(start, U32(h.id) + U32(h.packetType) + U32(h.len) + U32(h.version), U32(h.ack));
    s.WriteUnsigned(4, h.token);
    ConcatAssoc(start, U32(h.id) + U32(h.packetType) + U32(h.len) + U32(h.version) + U32(h.ack), U32(h.token));
  }

  // ---------------------------------------------------------------------------
  // The emitted Write()
  // ---------------------------------------------------------------------------

  /** One step of the element loop: the suffix from i is element i, then the suffix from i + 1. */
  lemma ElemsUnfold(env: Env, sub: FieldKind, name: string, items: seq<Value>, i: nat)
    requires ElemsConform(env, sub, name, items) && i < |items|
    ensures ElemsConform(env, sub, name, items[i..]) && ElemsConform(env, sub, name, items[i + 1..])
    ensures EncodeElems(env, sub, name, items[i..])
      == EncodeElem(env, sub, name, items[i]) + EncodeElems(env, sub, name, items[i + 1..])
  {
    assert items[i..][0] == items[i] && items[i..][1..] == items[i + 1..];
    assert forall k :: 0 <= k < |items[i..]| ==> items[i..][k] == items[i + k];
  }

  /** One step of the field loop, for Write() and Length(). */
  lemma FieldsUnfold(env: Env, fs: seq<FieldLayout>, vs: seq<Value>, i: nat)
    requires FieldsConform(env, fs, vs) && i < |vs|
    ensures FieldsConform(env, fs[i..], vs[i..]) && FieldsConform(env, fs[i + 1..], vs[i + 1..])
    ensures EncodeFields(env, fs[i..], vs[i..])
      == EncodeField(env, fs[i], vs[i]) + EncodeFields(env, fs[i + 1..], vs[i + 1..])
    ensures FieldsLength(env, fs[i..], vs[i..])
      == FieldLength(env, fs[i], vs[i]) + FieldsLength(env, fs[i + 1..], vs[i + 1..])
  {
    assert fs[i..][0] == fs[i] && fs[i..][1..] == fs[i + 1..];
    assert vs[i..][0] == vs[i] && vs[i..][1..] == vs[i + 1..];
    assert forall k :: 0 <= k < |vs[i..]| ==> fs[i..][k] == fs[i + k] && vs[i..][k] == vs[i + k];
  }

  /** The buffer `stream.WriteBuff(s.X)` sends for a []byte. */
  function RawBuffer(items: seq<Value>): (r: seq<byte>)
    requires forall k :: 0 <= k < |items| ==> items[k].Num? && 0 <= items[k].n < 256
    ensures |r| == |items| && forall k :: 0 <= k < |items| ==> r[k] == items[k].n
  {
    seq(|items|, k requires 0 <= k < |items| => items[k].n as byte)
  }

  method WriteField(s: WriteStream, env: Env, f: FieldLayout, v: Value)
    requires FieldConforms(env, f, v)
    modifies s
    ensures s.data == old(s.data) + EncodeField(env, f, v)
    decreases v, 1
  {
    assert Pow256(4) == UINT32_LIMIT;
    if IsScalar(f.kind) {
      s.WriteUnsigned(Width(f.kind), Truncate(Width(f.kind), v.n));
    } else if f.kind == StringFieldKind {
      ghost var start := s.data;
      s.WriteUnsigned(4, |v.bytes| % UINT32_LIMIT);
      s.WriteBuff(v.bytes);
      ConcatAssoc(start, LengthPrefix(|v.bytes|), v.bytes);
    } else if f.kind == StructFieldKind {
      WriteRecord(s, env, f.fieldType, v.fields);
    } else if f.kind == SliceFieldKind {
      ghost var start := s.data;
      s.WriteUnsigned(4, |v.items| % UINT32_LIMIT);
      ghost var encoded := EncodeElems(env, f.subElementKind, f.fieldType, v.items);
      if f.subElementKind == ByteFieldKind {
        RawBytes(env, f.subElementKind, f.fieldType, v.items);
        var raw := RawBuffer(v.items);
        assert forall k :: 0 <= k < |raw| ==> raw[k] == encoded[k] by {
          forall k | 0 <= k < |raw|
            ensures raw[k] == encoded[k]
          {
            assert Nums(encoded)[k] == v.items[k];
          }
        }
        s.WriteBuff(raw);
      } else {
        WriteElems(s, env, f.subElementKind, f.fieldType, v.items);
      }
      ConcatAssoc(start, LengthPrefix(|v.items|), encoded);
    } else {
      WriteElems(s, env, f.subElementKind, f.fieldType, v.items);
    }
  }

  /** The per-element loop of a slice or array. */
  method WriteElems(s: WriteStream, env: Env, sub: FieldKind, name: string, items: seq<Value>)
    requires ElemsConform(env, sub, name, items)
    modifies s
    ensures s.data == old(s.data) + EncodeElems(env, sub, name, items)
    decreases items, 2
  {
    assert items[0..] == items;
    ghost var start := s.data;
    for i := 0 to |items|
      invariant ElemsConform(env, sub, name, items[i..])
      invariant start + EncodeElems(env, sub, name, items) == s.data + EncodeElems(env, sub, name, items[i..])
    {
      ElemsUnfold(env, sub, name, items, i);
      ghost var before := s.data;
      ghost var head := EncodeElem(env, sub, name, items[i]);
      ghost var tail := EncodeElems(env, sub, name, items[i + 1..]);
      WriteElem(s, env, sub, name, items[i]);
      ConcatAssoc(before, head, tail);
    }
    assert items[|items|..] == [];
  }

  method WriteElem(s: WriteStream, env: Env, sub: FieldKind, name: string, v: Value)
    requires ElemConforms(env, sub, name, v)
    modifies s
    ensures s.data == old(s.data) + EncodeElem(env, sub, name, v)
    decreases v, 0
  {
    assert Pow256(4) == UINT32_LIMIT;
    if IsScalar(sub) {
      s.WriteUnsigned(Width(sub), Truncate(Width(sub), v.n));
    } else if sub == StringFieldKind {
      ghost var start := s.data;
      s.WriteUnsigned(4, |v.bytes| % UINT32_LIMIT);
      s.WriteBuff(v.bytes);
      ConcatAssoc(start, LengthPrefix(|v.bytes|), v.bytes);
    } else {
      WriteRecord(s, env, name, v.fields);
    }
  }

  /** `s.X.Write(stream)` for a nested struct. */
  method WriteRecord(s: WriteStream, env: Env, name: string, vs: seq<Value>)
    requires RecordConforms(env, name, vs)
    modifies s
    ensures s.data == old(s.data) + EncodeRecord(env, name, vs)
    decreases vs, 3
  {
    var j := ResolveStruct(env, name).value;
    WriteFields(s, env, env[j].fields, vs);
  }

  /** The field loop of a generated Write(). */
  method WriteFields(s: WriteStream, env: Env, fs: seq<FieldLayout>, vs: seq<Value>)
    requires FieldsConform(env, fs, vs)
    modifies s
    ensures s.data == old(s.data) + EncodeFields(env, fs, vs)
    decreases vs, 2
  {
    assert fs[0..] == fs && vs[0..] == vs;
    ghost var start := s.data;
    for i := 0 to |vs|
      invariant FieldsConform(env, fs[i..], vs[i..])
      invariant start + EncodeFields(env, fs, vs) == s.data + EncodeFields(env, fs[i..], vs[i..])
    {
      FieldsUnfold(env, fs, vs, i);
      ghost var before := s.data;
      ghost var head := EncodeField(env, fs[i], vs[i]);
      ghost var tail := EncodeFields(env, fs[i + 1..], vs[i + 1..]);
      WriteField(s, env, fs[i], vs[i]);
      ConcatAssoc(before, head, tail);
    }
    assert vs[|vs|..] == [];
  }

  // ---------------------------------------------------------------------------
  // The emitted Read()
  // ---------------------------------------------------------------------------

  /** The result of a read that has already produced `vs`, followed by the read r. */
  function Prepend(vs: seq<Value>, r: Result<(seq<Value>, seq<byte>), ReadError>): Result<(seq<Value>, seq<byte>), ReadError>
  {
    match r
    case Success((ws, rest)) => Success((vs + ws, rest))
    case Failure(e) => Failure(e)
  }

  lemma PrependNothing(r: Result<(seq<Value>, seq<byte>), ReadError>)
    ensures Prepend([], r) == r
  {
    if r.Success? {
      assert [] + r.value.0 == r.value.0;
    }
  }

  lemma PrependTwice(vs: seq<Value>, v: Value, r: Result<(seq<Value>, seq<byte>), ReadError>)
    ensures Prepend(vs, Prepend([v], r)) == Prepend(vs + [v], r)
  {
    if r.Success? {
      assert vs + ([v] + r.value.0) == (vs + [v]) + r.value.0;
    }
  }

  method ReadString(s: ReadStream) returns (v: Value, err: Option<ReadError>)
    requires s.Valid()
    modifies s
    ensures s.Valid()
    ensures old(s.pos) <= s.pos
    ensures Outcome(DecodeString(old(s.Rest())), v, err, s.Rest())
  {
    v := Str([]);
    var size, e := s.ReadUnsigned(4);
    if e.Some? {
      return v, e;
    }
    var buff, e2 := s.ReadBuff(size);
    if e2.Some? {
      return v, e2;
    }
    return Str(buff), None;
  }

  method ReadField(s: ReadStream, env: Env, rank: nat, f: FieldLayout) returns (v: Value, err: Option<ReadError>)
    requires s.Valid()
    modifies s
    ensures s.Valid() && old(s.pos) <= s.pos
    ensures Outcome(DecodeField(env, rank, f, old(s.Rest())), v, err, s.Rest())
    decreases |s.Rest()|, rank, 2, 0
  {
    v := Num(0);
    var bs := s.Rest();
    if IsScalar(f.kind) {
      var u, e := s.ReadUnsigned(Width(f.kind));
      if e.Some? {
        return v, e;
      }
      return Num(ScalarOf(f.kind, u)), None;
    } else if f.kind == StringFieldKind {
      v, err := ReadString(s);
    } else if f.kind == StructFieldKind {
      v, err := ReadRecord(s, env, rank, f.fieldType);
    } else if f.kind == SliceFieldKind {
      if f.subElementKind == Int8FieldKind {
        return v, Some(NoCode);
      }
      var size, e := s.ReadUnsigned(4);
      if e.Some? {
        return v, e;
      }
      if f.subElementKind == ByteFieldKind || f.subElementKind == Uint8FieldKind {
        var buff, e2 := s.ReadBuff(size);
        if e2.Some? {
          return v, e2;
        }
        return Elements(Nums(buff)), None;
      }
      var items, e3 := ReadElems(s, env, |env|, f.subElementKind, f.fieldType, size);
      if e3.Some? {
        return v, e3;
      }
      return Elements(items), None;
    } else {
      if OneByte(f.subElementKind) || ArrayBound(f).None? {
        return v, Some(NoCode);
      }
      var items, e := ReadElems(s, env, rank, f.subElementKind, f.fieldType, ArrayBound(f).value);
      if e.Some? {
        return v, e;
      }
      return Elements(items), None;
    }
  }

  lemma ElemsStepFail(env: Env, rank: nat, sub: FieldKind, name: string, m: nat, bs: seq<byte>,
                      items: seq<Value>, e: ReadError)
    requires m > 0 && DecodeElem(env, rank, sub, name, bs) == Failure(e)
    ensures Prepend(items, DecodeElems(env, rank, sub, name, m, bs)) == Failure(e)
  {
  }

  lemma ElemsStepOk(env: Env, rank: nat, sub: FieldKind, name: string, m: nat, bs: seq<byte>,
                    items: seq<Value>, v: Value, rest: seq<byte>)
    requires m > 0 && DecodeElem(env, rank, sub, name, bs) == Success((v, rest))
    ensures Prepend(items, DecodeElems(env, rank, sub, name, m, bs))
      == Prepend(items + [v], DecodeElems(env, rank, sub, name, m - 1, rest))
  {
    PrependTwice(items, v, DecodeElems(env, rank, sub, name, m - 1, rest));
  }

  lemma PrependDone(vs: seq<Value>, bs: seq<byte>)
    ensures Prepend(vs, Success(([], bs))) == Success((vs, bs))
  {
    assert vs + [] == vs;
  }

  /** One turn of the per-element loop: the next element, appended to those read so far. */
  method ReadNext(s: ReadStream, env: Env, rank: nat, sub: FieldKind, name: string, m: nat, items: seq<Value>)
    returns (next: seq<Value>, err: Option<ReadError>)
    requires s.Valid() && m > 0
    modifies s
    ensures s.Valid() && old(s.pos) <= s.pos
    ensures err.None? ==>
      Prepend(items, DecodeElems(env, rank, sub, name, m, old(s.Rest())))
      == Prepend(next, DecodeElems(env, rank, sub, name, m - 1, s.Rest()))
    ensures err.Some? ==> Prepend(items, DecodeElems(env, rank, sub, name, m, old(s.Rest()))) == Failure(err.value)
    decreases |s.Rest()|, rank, 0, 3
  {
    ghost var before := s.Rest();
    var v, e := ReadElem(s, env, rank, sub, name);
    if e.Some? {
      ElemsStepFail(env, rank, sub, name, m, before, items, e.value);
      return items, e;
    }
    ElemsStepOk(env, rank, sub, name, m, before, items, v, s.Rest());
    return items + [v], None;
  }

  /** The per-element loop of a slice or array: n elements, returning at the first failure. */
  method ReadElems(s: ReadStream, env: Env, rank: nat, sub: FieldKind, name: string, n: nat)
    returns (items: seq<Value>, err: Option<ReadError>)
    requires s.Valid()
    modifies s
    ensures s.Valid() && old(s.pos) <= s.pos
    ensures Outcome(DecodeElems(env, rank, sub, name, n, old(s.Rest())), items, err, s.Rest())
    decreases |s.Rest()|, rank, 1, n
  {
    items := [];
    PrependNothing(DecodeElems(env, rank, sub, name, n, s.Rest()));
    var m: nat := n;
    while m > 0
      invariant s.Valid() && m <= n && old(s.pos) <= s.pos
      invariant DecodeElems(env, rank, sub, name, n, old(s.Rest()))
        == Prepend(items, DecodeElems(env, rank, sub, name, m, s.Rest()))
    {
      var e;
      items, e := ReadNext(s, env, rank, sub, name, m, items);
      if e.Some? {
        return items, e;
      }
      m := m - 1;
    }
    PrependDone(items, s.Rest());
    err := None;
  }

  method ReadElem(s: ReadStream, env: Env, rank: nat, sub: FieldKind, name: string) returns (v: Value, err: Option<ReadError>)
    requires s.Valid()
    modifies s
    ensures s.Valid() && old(s.pos) <= s.pos
    ensures Outcome(DecodeElem(env, rank, sub, name, old(s.Rest())), v, err, s.Rest())
    decreases |s.Rest()|, rank, 0, 2
  {
    if IsScalar(sub) {
      var u, e := s.ReadUnsigned(Width(sub));
      if e.Some? {
        return Num(0), e;
      }
      return Num(ScalarOf(sub, u)), None;
    } else if sub == StringFieldKind {
      v, err := ReadString(s);
    } else if sub == StructFieldKind {
      v, err := ReadRecord(s, env, rank, name);
    } else {
      return Num(0), Some(NoCode);
    }
  }

  /** `s.X.Read(stream)` for a nested struct. */
  method ReadRecord(s: ReadStream, env: Env, rank: nat, name: string) returns (v: Value, err: Option<ReadError>)
    requires s.Valid()
    modifies s
    ensures s.Valid() && old(s.pos) <= s.pos
    ensures Outcome(DecodeRecord(env, rank, name, old(s.Rest())), v, err, s.Rest())
    decreases |s.Rest()|, rank, 0, 1
  {
    var j := ResolveStruct(env, name);
    if j.None? || j.value >= rank {
      return Num(0), Some(NoCode);
    }
    var vs, e := ReadFields(s, env, j.value, env[j.value].fields);
    if e.Some? {
      return Num(0), e;
    }
    return Record(vs), None;
  }

  lemma FieldsStep(env: Env, rank: nat, fs: seq<FieldLayout>, i: nat, bs: seq<byte>,
                   vs: seq<Value>, r: Result<(Value, seq<byte>), ReadError>)
    requires i < |fs| && r == DecodeField(env, rank, fs[i], bs)
    ensures r.Failure? ==> Prepend(vs, DecodeFields(env, rank, fs[i..], bs)) == Failure(r.error)
    ensures r.Success? ==>
      Prepend(vs, DecodeFields(env, rank, fs[i..], bs))
      == Prepend(vs + [r.value.0], DecodeFields(env, rank, fs[i + 1..], r.value.1))
  {
    assert fs[i..][0] == fs[i] && fs[i..][1..] == fs[i + 1..];
    if r.Success? {
      PrependTwice(vs, r.value.0, DecodeFields(env, rank, fs[i + 1..], r.value.1));
    }
  }

  /** The field loop of a generated Read(), returning at the first failure. */
  method ReadFields(s: ReadStream, env: Env, rank: nat, fs: seq<FieldLayout>) returns (vs: seq<Value>, err: Option<ReadError>)
    requires s.Valid()
    modifies s
    ensures s.Valid() && old(s.pos) <= s.pos
    ensures Outcome(DecodeFields(env, rank, fs, old(s.Rest())), vs, err, s.Rest())
    decreases |s.Rest()|, rank, 3, |fs|
  {
    vs := [];
    PrependNothing(DecodeFields(env, rank, fs, s.Rest()));
    assert fs[0..] == fs;
    var i := 0;
    while i < |fs|
      invariant s.Valid() && i <= |fs| && old(s.pos) <= s.pos
      invariant DecodeFields(env, rank, fs, old(s.Rest())) == Prepend(vs, DecodeFields(env, rank, fs[i..], s.Rest()))
    {
      ghost var before := s.Rest();
      var v, e := ReadField(s, env, rank, fs[i]);
      FieldsStep(env, rank, fs, i, before, vs, DecodeField(env, rank, fs[i], before));
      if e.Some? {
        return vs, e;
      }
      vs := vs + [v];
      i := i + 1;
    }
    assert fs[i..] == [];
    PrependDone(vs, s.Rest());
    err := None;
  }

  // ---------------------------------------------------------------------------
  // A generated type
  // ---------------------------------------------------------------------------

  /**
   * A value of a generated type: the layout it was generated from (entry
   * `index` of the environment), its PacketHeader (ignored for Struct kinds)
   * and the values of its fields.
   */
  class Instance {
    const env: Env
    const index: nat
    var header: Header
    var body: seq<Value>

    predicate Valid()
      reads this
    {
      index < |env| && FieldsConform(env, env[index].fields, body)
    }

    /** NewT(): PacketType preset to the type's id constant, everything else zero. */
    constructor New(env: Env, index: nat)
      requires Ordered(env) && Typed(env)
      requires index < |env| && env[index].kind != StructKind && 0 <= env[index].id < UINT32_LIMIT
      ensures Valid() && this.env == env && this.index == index
      ensures header == NewHeader(env[index]) && body == ZeroFields(env, |env|, env[index].fields)
    {
      ZeroFieldsConform(env, |env|, env[index].fields);
      this.env := env;
      this.index := index;
      header := NewHeader(env[index]);
      body := ZeroFields(env, |env|, env[index].fields);
    }

    /** `&T{PacketHeader: header}` in CreatePacket: the header given, the fields zero. */
    constructor WithHeader(env: Env, index: nat, h: Header)
      requires Ordered(env) && Typed(env) && index < |env|
      ensures Valid() && this.env == env && this.index == index
      ensures header == h && body == ZeroFields(env, |env|, env[index].fields)
    {
      ZeroFieldsConform(env, |env|, env[index].fields);
      this.env := env;
      this.index := index;
      header := h;
      body := ZeroFields(env, |env|, env[index].fields);
    }

    /** Length(): 36 for the header of a packet, then each field in turn. */
    method Length() returns (total: nat)
      requires Valid()
      ensures total == LayoutLength(env, env[index], body)
    {
      var fs := env[index].fields;
      total := if env[index].kind != StructKind then HEADER_LENGTH else 0;
      assert fs[0..] == fs && body[0..] == body;
      for i := 0 to |body|
        invariant FieldsConform(env, fs[i..], body[i..])
        invariant LayoutLength(env, env[index], body) == total + FieldsLength(env, fs[i..], body[i..])
      {
        FieldsUnfold(env, fs, body, i);
        total := total + FieldLength(env, fs[i], body[i]);
      }
      assert body[|body|..] == [];
    }

    /** AdjustLength(): the header's Len becomes uint32(Length()); a Struct kind has none to adjust. */
    method AdjustLength()
      requires Valid()
      modifies this
      ensures Valid() && body == old(body)
      ensures header == AdjustedHeader(env, env[index], old(header), body)
    {
      if env[index].kind != StructKind {
        var n := Length();
        header := header.(len := n % UINT32_LIMIT);
      }
    }

    /** Write(stream): the header first for packets, then the fields. */
    method Write(s: WriteStream)
      requires Valid()
      modifies s
      ensures s.data == old(s.data) + LayoutWrite(env, env[index], header, body)
    {
      if env[index].kind != StructKind {
        WriteHeader(s, header);
      }
      WriteFields(s, env, env[index].fields, body);
    }

    /** Read(stream): the fields only, never the header. */
    method Read(s: ReadStream) returns (err: Option<ReadError>)
      requires Valid() && s.Valid()
      modifies this, s
      ensures Valid() && s.Valid() && header == old(header)
      ensures match LayoutRead(env, env[index], old(s.Rest()))
        case Success((vs, rest)) => err.None? && body == vs && s.Rest() == rest
        case Failure(e) => err == Some(e) && body == old(body)
    {
      var vs, e := ReadFields(s, env, |env|, env[index].fields);
      if e.Some? {
        return e;
      }
      FieldsDecodedConform(env, |env|, env[index].fields, old(s.Rest()));
      body := vs;
      err := None;
    }
  }

  // ---------------------------------------------------------------------------
  // PacketFactory
  // ---------------------------------------------------------------------------

  /** The cacher, an oracle holding instances by packet type. Put is not modelled. */
  class PacketCacher {
    const cached: map<uint32, Instance>

    constructor (cached: map<uint32, Instance>)
      ensures this.cached == cached
    {
      this.cached := cached;
    }

    /** Get(id, &header): the instance held for id, or nil. */
    method Get(id: uint32, h: Header) returns (p: Instance?)
      ensures p == (if id in cached then cached[id] else null)
    {
      p := if id in cached then cached[id] else null;
    }
  }

  datatype FactoryError = StreamError(e: ReadError) | ErrUnknownPacket

  datatype Created = Created(index: nat, header: Header, body: seq<Value>, rest: seq<byte>)

  /**
   * What CreatePacket yields when nothing is cached: the header, the type its
   * PacketType dispatches to, and that type's fields read from what follows.
   */
  function Create(env: Env, bs: seq<byte>): (r: Result<Created, FactoryError>)
    ensures r.Success? ==>
      && r.value.index < |env| && env[r.value.index].kind != StructKind
      && env[r.value.index].id == r.value.header.packetType
  {
    match DecodeHeader(bs)
    case Failure(e) => Failure(StreamError(e))
    case Success((h, rest)) =>
      match Dispatch(DispatchCases(env), h.packetType)
      case None => Failure(ErrUnknownPacket)
      case Some(i) =>
        DispatchSound(env, h.packetType);
        match LayoutRead(env, env[i], rest)
        case Failure(e) => Failure(StreamError(e))
        case Success((body, left)) => Success(Created(i, h, body, left))
  }

  /** A packet written by its own Write() is recreated by the factory, whatever follows it. */
  lemma CreateRoundTrip(env: Env, i: nat, h: Header, body: seq<Value>, rest: seq<byte>)
    requires Ordered(env) && DistinctIds(env)
    requires i < |env| && env[i].kind != StructKind && h.packetType == env[i].id
    requires FieldsConform(env, env[i].fields, body)
    ensures Create(env, LayoutWrite(env, env[i], h, body) + rest) == Success(Created(i, h, body, rest))
  {
    PacketRoundTrip(env, env[i], h, body, rest);
    DispatchComplete(env, i);
  }

  /** A packet type no packet layout has is ErrUnknownPacket, once the header was read. */
  lemma CreateUnknown(env: Env, bs: seq<byte>)
    requires DecodeHeader(bs).Success?
    requires forall i :: 0 <= i < |env| && env[i].kind != StructKind ==> env[i].id != DecodeHeader(bs).value.0.packetType
    ensures Create(env, bs) == Failure(ErrUnknownPacket)
  {
    DispatchUnknown(env, DecodeHeader(bs).value.0.packetType);
  }

  /** A header that cannot be read is the stream's error, returned before anything else. */
  lemma CreateShortHeader(env: Env, bs: seq<byte>)
    requires |bs| < 24
    ensures Create(env, bs) == Failure(StreamError(EOF))
  {
  }

  /** Whatever the factory creates holds values of its type's fields. */
  lemma CreatedConforms(env: Env, bs: seq<byte>)
    requires Create(env, bs).Success?
    ensures var c := Create(env, bs).value; FieldsConform(env, env[c.index].fields, c.body)
  {
    var h := DecodeHeader(bs).value;
    FieldsDecodedConform(env, |env|, env[Create(env, bs).value.index].fields, h.1);
  }

  /** The generated PacketFactory over the generated types `env`. */
  class PacketFactory {
    const env: Env
    const cases: seq<Case>
    const cacher: PacketCacher?

    /** NewPacketFactory(cacher). */
    constructor (env: Env, cacher: PacketCacher?)
      requires Ordered(env) && Typed(env)
      ensures Valid() && this.env == env && this.cacher == cacher
    {
      this.env := env;
      cases := DispatchCases(env);
      this.cacher := cacher;
    }

    predicate Valid()
    {
      Ordered(env) && Typed(env) && cases == DispatchCases(env)
    }

    /** The instances a cacher holds. */
    function Cached(): set<Instance>
    {
      if cacher == null then {} else cacher.cached.Values
    }

    predicate CacheValid()
      reads Cached()
    {
      forall q :: q in Cached() ==> q.Valid()
    }

    /** The cacher holds an instance for the packet type of the header at the head of bs. */
    predicate Hit(bs: seq<byte>)
    {
      cacher != null && DecodeHeader(bs).Success? && DecodeHeader(bs).value.0.packetType in cacher.cached
    }

    function HitInstance(bs: seq<byte>): Instance
      requires Hit(bs)
    {
      cacher.cached[DecodeHeader(bs).value.0.packetType]
    }

    /** The cached instances CreatePacket may fill in when the stream holds bs: the hit one, if any. */
    function Touched(bs: seq<byte>): set<Instance>
    {
      if Hit(bs) then {HitInstance(bs)} else {}
    }

    /**
     * CreatePacket(stream): read the header; ask the cacher, if any; else
     * dispatch on PacketType and build the type with that header; then read
     * its fields. Every error returns no packet.
     */
    method CreatePacket(s: ReadStream) returns (p: Instance?, err: Option<FactoryError>)
      requires Valid() && CacheValid() && s.Valid()
      modifies s, Touched(s.Rest())
      ensures s.Valid() && CacheValid()
      ensures forall q :: q in Cached() && q !in Touched(old(s.Rest())) ==>
        q.header == old(q.header) && q.body == old(q.body)
      ensures !Hit(old(s.Rest())) ==>
        match Create(env, old(s.Rest()))
        case Success(c) =>
          && err.None? && p != null && fresh(p) && p.Valid()
          && p.env == env && p.index == c.index && p.header == c.header && p.body == c.body
          && s.Rest() == c.rest
        case Failure(e) => p == null && err == Some(e)
      ensures Hit(old(s.Rest())) ==>
        var q := HitInstance(old(s.Rest()));
        q.index < |q.env| &&
        match LayoutRead(q.env, q.env[q.index], DecodeHeader(old(s.Rest())).value.1)
        case Success((vs, rest)) =>
          && err.None? && p == q && q.Valid() && q.header == old(q.header) && q.body == vs
          && s.Rest() == rest
        case Failure(e) => p == null && err == Some(StreamError(e))
    {
      var h, e := ReadHeader(s);
      if e.Some? {
        return null, Some(StreamError(e.value));
      }
      p := null;
      if cacher != null {
        p := cacher.Get(h.packetType, h);
      }
      if p == null {
        var i := Dispatch(cases, h.packetType);
        if i.None? {
          return null, Some(ErrUnknownPacket);
        }
        DispatchSound(env, h.packetType);
        p := new Instance.WithHeader(env, i.value, h);
      }
      var e2 := p.Read(s);
      if e2.Some? {
        return null, Some(StreamError(e2.value));
      }
      err := None;
    }
  }
}
