/**
 * What the emitted Length(), Write() and Read() promise together: Length()
 * counts exactly the bytes Write() emits for a struct, and 12 bytes more than
 * that for a packet; Read() gives back what Write() wrote and leaves the rest
 * of the stream untouched.
 */
module WireProofs {
  import opened Wrappers
  import opened Bytes
  import opened Layout
  import opened Wire

  // ---------------------------------------------------------------------------
  // Length() counts the bytes Write() emits
  // ---------------------------------------------------------------------------

  /** For a scalar element kind, count * width is the size of the per-element writes. */
  lemma {:induction false} ScalarElemsSize(env: Env, sub: FieldKind, name: string, items: seq<Value>)
    requires IsScalar(sub) && ElemsConform(env, sub, name, items)
    ensures |EncodeElems(env, sub, name, items)| == |items| * Width(sub)
  {
    if items != [] {
      var w := Width(sub);
      assert ElemConforms(env, sub, name, items[0]);
      assert |EncodeElem(env, sub, name, items[0])| == w;
      ScalarElemsSize(env, sub, name, items[1..]);
      assert |items| * w == (|items| - 1) * w + w;
    }
  }

  lemma {:induction false} FieldSize(env: Env, f: FieldLayout, v: Value)
    requires FieldConforms(env, f, v)
    ensures |EncodeField(env, f, v)| == FieldLength(env, f, v)
    decreases v, 1
  {
    if !IsScalar(f.kind) {
      match f.kind
      case StringFieldKind =>
      case StructFieldKind => RecordSize(env, f.fieldType, v.fields);
      case SliceFieldKind =>
        if IsScalar(f.subElementKind) {
          ScalarElemsSize(env, f.subElementKind, f.fieldType, v.items);
        } else {
          ElemsSize(env, f.subElementKind, f.fieldType, v.items);
        }
      case ArrayFieldKind =>
        if IsScalar(f.subElementKind) {
          ScalarElemsSize(env, f.subElementKind, f.fieldType, v.items);
        } else {
          ElemsSize(env, f.subElementKind, f.fieldType, v.items);
        }
    }
  }

  lemma {:induction false} ElemsSize(env: Env, sub: FieldKind, name: string, items: seq<Value>)
    requires ElemsConform(env, sub, name, items)
    ensures |EncodeElems(env, sub, name, items)| == ElemsLength(env, sub, name, items)
    decreases items, 2
  {
    if items != [] {
      ElemSize(env, sub, name, items[0]);
      ElemsSize(env, sub, name, items[1..]);
    }
  }

  lemma {:induction false} ElemSize(env: Env, sub: FieldKind, name: string, v: Value)
    requires ElemConforms(env, sub, name, v)
    ensures |EncodeElem(env, sub, name, v)| == ElemLength(env, sub, name, v)
    decreases v, 0
  {
    if !IsScalar(sub) && sub != StringFieldKind {
      RecordSize(env, name, v.fields);
    }
  }

  lemma {:induction false} RecordSize(env: Env, name: string, vs: seq<Value>)
    requires RecordConforms(env, name, vs)
    ensures |EncodeRecord(env, name, vs)| == RecordLength(env, name, vs)
    decreases vs, 3
  {
    var j := ResolveStruct(env, name).value;
    FieldsSize(env, env[j].fields, vs);
  }

  /** The field loop of Length() adds up what the field loop of Write() emits. */
  lemma {:induction false} FieldsSize(env: Env, fs: seq<FieldLayout>, vs: seq<Value>)
    requires FieldsConform(env, fs, vs)
    ensures |EncodeFields(env, fs, vs)| == FieldsLength(env, fs, vs)
    decreases vs, 2
  {
    if vs != [] {
      FieldSize(env, fs[0], vs[0]);
      FieldsSize(env, fs[1..], vs[1..]);
    }
  }

  /** A header-carrying packet: Length() is 12 more than the bytes Write() emits (36 counted, 24 written). */
  lemma PacketLengthOvercounts(env: Env, p: PacketLayout, h: Header, body: seq<Value>)
    requires p.kind != StructKind && FieldsConform(env, p.fields, body)
    ensures LayoutLength(env, p, body) == |LayoutWrite(env, p, h, body)| + 12
  {
    FieldsSize(env, p.fields, body);
  }

  /** A struct: Length() is exactly the number of bytes Write() emits. */
  lemma StructLengthExact(env: Env, p: PacketLayout, h: Header, body: seq<Value>)
    requires p.kind == StructKind && FieldsConform(env, p.fields, body)
    ensures LayoutLength(env, p, body) == |LayoutWrite(env, p, h, body)|
  {
    FieldsSize(env, p.fields, body);
  }

  // ---------------------------------------------------------------------------
  // Read() inverts Write()
  // ---------------------------------------------------------------------------

  lemma ReadUintOf(w: nat, n: nat, rest: seq<byte>)
    requires n < Pow256(w)
    ensures ReadUint(w, UintBytes(w, n) + rest) == Success((n, rest))
  {
    var bs := UintBytes(w, n) + rest;
    assert bs[..w] == UintBytes(w, n);
    assert bs[w..] == rest;
    UintRoundTrip(w, n);
  }

  lemma ScalarRoundTrip(k: FieldKind, n: int, rest: seq<byte>)
    requires IsScalar(k) && InRange(k, n)
    ensures DecodeScalar(k, EncodeScalar(k, n) + rest) == Success((Num(n), rest))
  {
    var w := Width(k);
    ReadUintOf(w, Truncate(w, n), rest);
    if IsSigned(k) {
      SignedRoundTrip(w, n);
    } else {
      ModOfSmall(n, Pow256(w));
    }
  }

  lemma PrefixRoundTrip(n: nat, rest: seq<byte>)
    requires n < UINT32_LIMIT
    ensures ReadUint(4, LengthPrefix(n) + rest) == Success((n, rest))
  {
    assert Pow256(4) == UINT32_LIMIT;
    ModOfSmall(n, UINT32_LIMIT);
    ReadUintOf(4, n, rest);
  }

  lemma StringRoundTrip(b: seq<byte>, rest: seq<byte>)
    requires |b| < UINT32_LIMIT
    ensures DecodeString(LengthPrefix(|b|) + b + rest) == Success((Str(b), rest))
  {
    assert LengthPrefix(|b|) + b + rest == LengthPrefix(|b|) + (b + rest);
    PrefixRoundTrip(|b|, b + rest);
    assert (b + rest)[..|b|] == b && (b + rest)[|b|..] == rest;
  }

  /** A []byte or []uint8 slice written element by element is the raw buffer Read takes back. */
  lemma {:induction false} RawBytes(env: Env, sub: FieldKind, name: string, items: seq<Value>)
    requires (sub == ByteFieldKind || sub == Uint8FieldKind) && ElemsConform(env, sub, name, items)
    ensures |EncodeElems(env, sub, name, items)| == |items|
    ensures Nums(EncodeElems(env, sub, name, items)) == items
  {
    if items != [] {
      RawBytes(env, sub, name, items[1..]);
      var head := EncodeElem(env, sub, name, items[0]);
      ModOfSmall(items[0].n, 256);
      assert head == [items[0].n];
      var all := EncodeElems(env, sub, name, items);
      assert all == head + EncodeElems(env, sub, name, items[1..]);
      assert forall k :: 0 <= k < |items| ==> Nums(all)[k] == items[k] by {
        forall k | 0 <= k < |items|
          ensures Nums(all)[k] == items[k]
        {
          if k > 0 {
            assert all[k] == EncodeElems(env, sub, name, items[1..])[k - 1];
            assert Nums(EncodeElems(env, sub, name, items[1..]))[k - 1] == items[1..][k - 1];
          }
        }
      }
    }
  }

  /** The struct references a field may enter point below the rank it is read at. */
  predicate ElemRefsBelow(env: Env, sub: FieldKind, name: string, rank: nat)
  {
    sub == StructFieldKind && ResolveStruct(env, name).Some? ==> ResolveStruct(env, name).value < rank
  }

  lemma {:induction false} FieldRoundTrip(env: Env, rank: nat, f: FieldLayout, v: Value, rest: seq<byte>)
    requires Ordered(env) && RefsBelow(env, f, rank) && FieldConforms(env, f, v)
    ensures DecodeField(env, rank, f, EncodeField(env, f, v) + rest) == Success((v, rest))
    decreases v, 1
  {
    if IsScalar(f.kind) {
      ScalarRoundTrip(f.kind, v.n, rest);
    } else {
      match f.kind
      case StringFieldKind =>
        StringRoundTrip(v.bytes, rest);
      case StructFieldKind =>
        RecordRoundTrip(env, rank, f.fieldType, v.fields, rest);
      case SliceFieldKind =>
        var sub := f.subElementKind;
        var body := EncodeElems(env, sub, f.fieldType, v.items);
        assert EncodeField(env, f, v) + rest == LengthPrefix(|v.items|) + (body + rest);
        PrefixRoundTrip(|v.items|, body + rest);
        if sub == ByteFieldKind || sub == Uint8FieldKind {
          RawBytes(env, sub, f.fieldType, v.items);
          assert (body + rest)[..|v.items|] == body && (body + rest)[|v.items|..] == rest;
        } else {
          ElemsRoundTrip(env, |env|, sub, f.fieldType, v.items, rest);
        }
      case ArrayFieldKind =>
        ElemsRoundTrip(env, rank, f.subElementKind, f.fieldType, v.items, rest);
    }
  }

  /** An encoding of elements is the first element's, then the others'. */
  lemma ElemsSplit(env: Env, sub: FieldKind, name: string, items: seq<Value>, rest: seq<byte>)
    requires ElemsConform(env, sub, name, items) && items != []
    ensures ElemConforms(env, sub, name, items[0]) && ElemsConform(env, sub, name, items[1..])
    ensures EncodeElems(env, sub, name, items) + rest
      == EncodeElem(env, sub, name, items[0]) + (EncodeElems(env, sub, name, items[1..]) + rest)
  {
    assert ElemConforms(env, sub, name, items[0]);
    assert forall k :: 0 <= k < |items[1..]| ==> items[1..][k] == items[k + 1];
    ConcatAssoc(EncodeElem(env, sub, name, items[0]), EncodeElems(env, sub, name, items[1..]), rest);
  }

  /** An encoding of fields is the first field's, then the others'. */
  lemma FieldsSplit(env: Env, fs: seq<FieldLayout>, vs: seq<Value>, rest: seq<byte>)
    requires FieldsConform(env, fs, vs) && vs != []
    ensures FieldConforms(env, fs[0], vs[0]) && FieldsConform(env, fs[1..], vs[1..])
    ensures EncodeFields(env, fs, vs) + rest
      == EncodeField(env, fs[0], vs[0]) + (EncodeFields(env, fs[1..], vs[1..]) + rest)
  {
    assert FieldConforms(env, fs[0], vs[0]);
    assert forall k :: 0 <= k < |vs[1..]| ==> fs[1..][k] == fs[k + 1] && vs[1..][k] == vs[k + 1];
    ConcatAssoc(EncodeField(env, fs[0], vs[0]), EncodeFields(env, fs[1..], vs[1..]), rest);
  }

  /** One element decoded, then the others: the whole encoding decoded. */
  lemma ElemsRoundTripStep(env: Env, rank: nat, sub: FieldKind, name: string, items: seq<Value>, rest: seq<byte>)
    requires items != [] && ElemConforms(env, sub, name, items[0]) && ElemsConform(env, sub, name, items[1..])
    requires ElemsConform(env, sub, name, items)
    requires EncodeElems(env, sub, name, items) + rest
      == EncodeElem(env, sub, name, items[0]) + (EncodeElems(env, sub, name, items[1..]) + rest)
    requires DecodeElem(env, rank, sub, name, EncodeElem(env, sub, name, items[0]) + (EncodeElems(env, sub, name, items[1..]) + rest))
      == Success((items[0], EncodeElems(env, sub, name, items[1..]) + rest))
    requires DecodeElems(env, rank, sub, name, |items[1..]|, EncodeElems(env, sub, name, items[1..]) + rest)
      == Success((items[1..], rest))
    ensures DecodeElems(env, rank, sub, name, |items|, EncodeElems(env, sub, name, items) + rest) == Success((items, rest))
  {
    assert [items[0]] + items[1..] == items;
  }

  lemma {:induction false} ElemsRoundTrip(env: Env, rank: nat, sub: FieldKind, name: string, items: seq<Value>, rest: seq<byte>)
    requires Ordered(env) && ElemRefsBelow(env, sub, name, rank) && ElemsConform(env, sub, name, items)
    ensures DecodeElems(env, rank, sub, name, |items|, EncodeElems(env, sub, name, items) + rest) == Success((items, rest))
    decreases items, 2
  {
    if items != [] {
      ElemsSplit(env, sub, name, items, rest);
      ElemRoundTrip(env, rank, sub, name, items[0], EncodeElems(env, sub, name, items[1..]) + rest);
      ElemsRoundTrip(env, rank, sub, name, items[1..], rest);
      ElemsRoundTripStep(env, rank, sub, name, items, rest);
    }
  }

  lemma {:induction false} ElemRoundTrip(env: Env, rank: nat, sub: FieldKind, name: string, v: Value, rest: seq<byte>)
    requires Ordered(env) && ElemRefsBelow(env, sub, name, rank) && ElemConforms(env, sub, name, v)
    ensures DecodeElem(env, rank, sub, name, EncodeElem(env, sub, name, v) + rest) == Success((v, rest))
    decreases v, 0
  {
    if IsScalar(sub) {
      ScalarRoundTrip(sub, v.n, rest);
    } else if sub == StringFieldKind {
      StringRoundTrip(v.bytes, rest);
    } else {
      RecordRoundTrip(env, rank, name, v.fields, rest);
    }
  }

  lemma {:induction false} RecordRoundTrip(env: Env, rank: nat, name: string, vs: seq<Value>, rest: seq<byte>)
    requires Ordered(env) && RecordConforms(env, name, vs) && ResolveStruct(env, name).value < rank
    ensures DecodeRecord(env, rank, name, EncodeRecord(env, name, vs) + rest) == Success((Record(vs), rest))
    decreases vs, 3
  {
    var j := ResolveStruct(env, name).value;
    assert forall k :: 0 <= k < |env[j].fields| ==> RefsBelow(env, env[j].fields[k], j);
    FieldsRoundTrip(env, j, env[j].fields, vs, rest);
  }

  lemma {:induction false} FieldsRoundTrip(env: Env, rank: nat, fs: seq<FieldLayout>, vs: seq<Value>, rest: seq<byte>)
    requires Ordered(env) && FieldsConform(env, fs, vs)
    requires forall k :: 0 <= k < |fs| ==> RefsBelow(env, fs[k], rank)
    ensures DecodeFields(env, rank, fs, EncodeFields(env, fs, vs) + rest) == Success((vs, rest))
    decreases vs, 2
  {
    if vs != [] {
      FieldsSplit(env, fs, vs, rest);
      var tail := EncodeFields(env, fs[1..], vs[1..]);
      FieldRoundTrip(env, rank, fs[0], vs[0], tail + rest);
      FieldsRoundTrip(env, rank, fs[1..], vs[1..], rest);
      assert [vs[0]] + vs[1..] == vs;
    }
  }

  lemma HeaderRoundTrip(h: Header, rest: seq<byte>)
    ensures DecodeHeader(EncodeHeader(h) + rest) == Success((h, rest))
  {
    assert Pow256(4) == UINT32_LIMIT;
    var (a, b, c, d, e, f) := (U32(h.id), U32(h.packetType), U32(h.len), U32(h.version), U32(h.ack), U32(h.token));
    var f' := f + rest;
    var e' := e + f';
    var d' := d + e';
    var c' := c + d';
    var b' := b + c';
    ConcatAssoc(a + b + c + d + e, f, rest);
    ConcatAssoc(a + b + c + d, e, f');
    ConcatAssoc(a + b + c, d, e');
    ConcatAssoc(a + b, c, d');
    ConcatAssoc(a, b, c');
    assert EncodeHeader(h) + rest == a + b';
    ReadUintOf(4, h.id, b');
    ReadUintOf(4, h.packetType, c');
    ReadUintOf(4, h.len, d');
    ReadUintOf(4, h.version, e');
    ReadUintOf(4, h.ack, f');
    ReadUintOf(4, h.token, rest);
  }

  /** A struct's Read() gives back what its Write() wrote, consuming exactly Length() bytes. */
  lemma StructRoundTrip(env: Env, p: PacketLayout, h: Header, body: seq<Value>, rest: seq<byte>)
    requires Ordered(env) && p.kind == StructKind && FieldsConform(env, p.fields, body)
    ensures LayoutRead(env, p, LayoutWrite(env, p, h, body) + rest) == Success((body, rest))
    ensures |LayoutWrite(env, p, h, body)| == LayoutLength(env, p, body)
  {
    FieldsRoundTrip(env, |env|, p.fields, body, rest);
    FieldsSize(env, p.fields, body);
    assert LayoutWrite(env, p, h, body) == EncodeFields(env, p.fields, body);
  }

  /**
   * A packet's Write() is its header followed by its body; reading the header
   * and then running its Read() gives back both.
   */
  lemma PacketRoundTrip(env: Env, p: PacketLayout, h: Header, body: seq<Value>, rest: seq<byte>)
    requires Ordered(env) && p.kind != StructKind && FieldsConform(env, p.fields, body)
    ensures var fields := EncodeFields(env, p.fields, body);
      && DecodeHeader(LayoutWrite(env, p, h, body) + rest) == Success((h, fields + rest))
      && LayoutRead(env, p, fields + rest) == Success((body, rest))
  {
    var fields := EncodeFields(env, p.fields, body);
    assert LayoutWrite(env, p, h, body) + rest == EncodeHeader(h) + (fields + rest);
    HeaderRoundTrip(h, fields + rest);
    FieldsRoundTrip(env, |env|, p.fields, body, rest);
  }

  /**
   * generateSimplePacket: a SimplePacket's Length() is the header's 36, its
   * Write() is the header's Write() (24 bytes), and its Read() consumes nothing.
   */
  lemma SimplePacketBehaviour(env: Env, d: Decl, h: Header, bs: seq<byte>)
    requires ParseDecl(d).Success? && ParseDecl(d).value.kind == SimplePacketKind
    ensures var p := ParseDecl(d).value;
      && FieldsConform(env, p.fields, [])
      && LayoutLength(env, p, []) == HEADER_LENGTH
      && LayoutWrite(env, p, h, []) == EncodeHeader(h)
      && |LayoutWrite(env, p, h, [])| == 24
      && LayoutRead(env, p, bs) == Success(([], bs))
  {
    ParsedLayoutRules(d);
  }

  /** AdjustLength on a packet records its Length(), reduced to 32 bits; on a struct it changes nothing. */
  lemma AdjustLengthRecords(env: Env, p: PacketLayout, h: Header, body: seq<Value>)
    requires FieldsConform(env, p.fields, body) && p.kind != StructKind
    ensures AdjustedHeader(env, p, h, body).len == (|LayoutWrite(env, p, h, body)| + 12) % UINT32_LIMIT
  {
    PacketLengthOvercounts(env, p, h, body);
  }

  // ---------------------------------------------------------------------------
  // Read() only yields values of the declared types
  // ---------------------------------------------------------------------------

  lemma ElemsConformCons(env: Env, sub: FieldKind, name: string, v: Value, vs: seq<Value>)
    requires ElemConforms(env, sub, name, v) && ElemsConform(env, sub, name, vs)
    ensures ElemsConform(env, sub, name, [v] + vs)
  {
    assert forall k :: 1 <= k < |[v] + vs| ==> ([v] + vs)[k] == vs[k - 1];
  }

  lemma FieldsConformCons(env: Env, f: FieldLayout, fs: seq<FieldLayout>, v: Value, vs: seq<Value>)
    requires FieldConforms(env, f, v) && FieldsConform(env, fs, vs)
    ensures FieldsConform(env, [f] + fs, [v] + vs)
  {
    assert forall k :: 1 <= k < |[v] + vs| ==> ([f] + fs)[k] == fs[k - 1] && ([v] + vs)[k] == vs[k - 1];
  }

  lemma ScalarDecodedInRange(k: FieldKind, bs: seq<byte>)
    requires IsScalar(k) && DecodeScalar(k, bs).Success?
    ensures DecodeScalar(k, bs).value.0.Num? && InRange(k, DecodeScalar(k, bs).value.0.n)
  {
    var u := ReadUint(Width(k), bs).value.0;
    if IsSigned(k) {
      AsSignedInRange(Width(k), u);
    }
  }

  lemma StringDecodedFits(bs: seq<byte>)
    requires DecodeString(bs).Success?
    ensures DecodeString(bs).value.0.Str? && |DecodeString(bs).value.0.bytes| < UINT32_LIMIT
  {
    assert Pow256(4) == UINT32_LIMIT;
  }

  lemma {:induction false} FieldDecodedConforms(env: Env, rank: nat, f: FieldLayout, bs: seq<byte>)
    requires DecodeField(env, rank, f, bs).Success?
    ensures FieldConforms(env, f, DecodeField(env, rank, f, bs).value.0)
    decreases |bs|, rank, 2, 0
  {
    if IsScalar(f.kind) {
      ScalarDecodedInRange(f.kind, bs);
    } else {
      match f.kind
      case StringFieldKind =>
        StringDecodedFits(bs);
      case StructFieldKind =>
        RecordDecodedConforms(env, rank, f.fieldType, bs);
      case SliceFieldKind =>
        var sub := f.subElementKind;
        var (size, rest) := ReadUint(4, bs).value;
        assert Pow256(4) == UINT32_LIMIT;
        if sub == ByteFieldKind || sub == Uint8FieldKind {
          var buff := ReadBuff(size, rest).value.0;
          assert forall k :: 0 <= k < |buff| ==> Nums(buff)[k] == Num(buff[k]);
        } else {
          ElemsDecodedConform(env, |env|, sub, f.fieldType, size, rest);
        }
      case ArrayFieldKind =>
        ElemsDecodedConform(env, rank, f.subElementKind, f.fieldType, ArrayBound(f).value, bs);
    }
  }

  lemma {:induction false} ElemsDecodedConform(env: Env, rank: nat, sub: FieldKind, name: string, n: nat, bs: seq<byte>)
    requires DecodeElems(env, rank, sub, name, n, bs).Success?
    ensures ElemsConform(env, sub, name, DecodeElems(env, rank, sub, name, n, bs).value.0)
    decreases |bs|, rank, 1, n
  {
    if n > 0 {
      var (v, rest) := DecodeElem(env, rank, sub, name, bs).value;
      ElemDecodedConforms(env, rank, sub, name, bs);
      ElemsDecodedConform(env, rank, sub, name, n - 1, rest);
      ElemsConformCons(env, sub, name, v, DecodeElems(env, rank, sub, name, n - 1, rest).value.0);
    }
  }

  lemma {:induction false} ElemDecodedConforms(env: Env, rank: nat, sub: FieldKind, name: string, bs: seq<byte>)
    requires DecodeElem(env, rank, sub, name, bs).Success?
    ensures ElemConforms(env, sub, name, DecodeElem(env, rank, sub, name, bs).value.0)
    decreases |bs|, rank, 0, 2
  {
    if IsScalar(sub) {
      ScalarDecodedInRange(sub, bs);
    } else if sub == StringFieldKind {
      StringDecodedFits(bs);
    } else {
      RecordDecodedConforms(env, rank, name, bs);
    }
  }

  lemma {:induction false} RecordDecodedConforms(env: Env, rank: nat, name: string, bs: seq<byte>)
    requires DecodeRecord(env, rank, name, bs).Success?
    ensures DecodeRecord(env, rank, name, bs).value.0.Record?
    ensures RecordConforms(env, name, DecodeRecord(env, rank, name, bs).value.0.fields)
    decreases |bs|, rank, 0, 1
  {
    var j := ResolveStruct(env, name).value;
    FieldsDecodedConform(env, j, env[j].fields, bs);
  }

  /** Whatever Read() accepts is a value of the declared field types. */
  lemma {:induction false} FieldsDecodedConform(env: Env, rank: nat, fs: seq<FieldLayout>, bs: seq<byte>)
    requires DecodeFields(env, rank, fs, bs).Success?
    ensures FieldsConform(env, fs, DecodeFields(env, rank, fs, bs).value.0)
    decreases |bs|, rank, 3, |fs|
  {
    if fs != [] {
      var (v, rest) := DecodeField(env, rank, fs[0], bs).value;
      FieldDecodedConforms(env, rank, fs[0], bs);
      FieldsDecodedConform(env, rank, fs[1..], rest);
      FieldsConformCons(env, fs[0], fs[1..], v, DecodeFields(env, rank, fs[1..], rest).value.0);
      assert [fs[0]] + fs[1..] == fs;
    }
  }

  // ---------------------------------------------------------------------------
  // Zero values are values of the declared types
  // ---------------------------------------------------------------------------

  lemma {:induction false} ZeroFieldConforms(env: Env, rank: nat, f: FieldLayout)
    requires Ordered(env) && Typed(env) && Supported(env, f) && RefsBelow(env, f, rank)
    ensures FieldConforms(env, f, ZeroField(env, rank, f))
    decreases rank, 2
  {
    if !IsScalar(f.kind) {
      match f.kind
      case StringFieldKind =>
      case StructFieldKind =>
        ZeroRecordConforms(env, rank, f.fieldType);
      case SliceFieldKind =>
      case ArrayFieldKind =>
        ZeroElemConforms(env, rank, f.subElementKind, f.fieldType);
    }
  }

  lemma {:induction false} ZeroElemConforms(env: Env, rank: nat, sub: FieldKind, name: string)
    requires Ordered(env) && Typed(env) && ElemSupported(env, sub, name) && ElemRefsBelow(env, sub, name, rank)
    ensures ElemConforms(env, sub, name, ZeroElem(env, rank, sub, name))
    decreases rank, 1
  {
    if !IsScalar(sub) && sub != StringFieldKind {
      ZeroRecordConforms(env, rank, name);
    }
  }

  lemma {:induction false} ZeroRecordConforms(env: Env, rank: nat, name: string)
    requires Ordered(env) && Typed(env) && ResolveStruct(env, name).Some? && ResolveStruct(env, name).value < rank
    ensures ZeroRecord(env, rank, name).Record?
    ensures RecordConforms(env, name, ZeroRecord(env, rank, name).fields)
    decreases rank, 0
  {
    var j := ResolveStruct(env, name).value;
    ZeroFieldsConform(env, j, env[j].fields);
  }

  /**
   * The zero value of every supported field list is a value of its types, so
   * a freshly constructed packet has a Length() and a Write().
   */
  lemma {:induction false} ZeroFieldsConform(env: Env, rank: nat, fs: seq<FieldLayout>)
    requires Ordered(env) && Typed(env)
    requires forall k :: 0 <= k < |fs| ==> Supported(env, fs[k]) && RefsBelow(env, fs[k], rank)
    ensures FieldsConform(env, fs, ZeroFields(env, rank, fs))
    decreases rank, 3
  {
    forall k | 0 <= k < |fs|
      ensures FieldConforms(env, fs[k], ZeroFields(env, rank, fs)[k])
    {
      ZeroFieldConforms(env, rank, fs[k]);
    }
  }
}
