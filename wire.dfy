/**
 * The binary behaviour of the code the generator emits
 * (src/generator/generator.go): what each generated type's Length(),
 * Write() and Read() compute, stated as functions over a Value and a byte
 * sequence. The stream collaborator the emitted code calls is not part of
 * the repository; its integers are fixed here to be big-endian (module
 * Bytes), and a read that runs out of bytes fails with EOF.
 */
module Wire {
  import opened Wrappers
  import opened Bytes
  import opened Text
  import opened Layout

  /** The layouts of one IDL file, in declaration order. */
  type Env = seq<PacketLayout>

  /** The first layout with the given type name. */
  function FindName(env: Env, name: string): (r: Option<nat>)
    ensures r.Some? ==> r.value < |env| && env[r.value].name == name
    ensures r.Some? ==> forall k :: 0 <= k < r.value ==> env[k].name != name
    ensures r.None? ==> forall k :: 0 <= k < |env| ==> env[k].name != name
  {
    if env == [] then None
    else if env[0].name == name then Some(0)
    else
      match FindName(env[1..], name)
      case None => None
      case Some(k) => Some(k + 1)
  }

  /**
   * The layout a by-name struct reference denotes. Only references to
   * Struct-kind layouts are modelled: a packet type used as a field type is
   * outside the model, and so is a name declared nowhere in the file (the
   * emitted code would not compile).
   */
  function ResolveStruct(env: Env, name: string): (r: Option<nat>)
    ensures r.Some? ==> r.value < |env| && env[r.value].name == name && env[r.value].kind == StructKind
  {
    match FindName(env, name)
    case None => None
    case Some(j) => if env[j].kind == StructKind then Some(j) else None
  }

  // ---------------------------------------------------------------------------
  // Scalars
  // ---------------------------------------------------------------------------

  predicate IsScalar(k: FieldKind)
  {
    FieldKindLength(k).Some?
  }

  function Width(k: FieldKind): nat
    requires IsScalar(k)
  {
    FieldKindLength(k).value
  }

  predicate IsSigned(k: FieldKind)
  {
    k == Int8FieldKind || k == Int16FieldKind || k == Int32FieldKind || k == Int64FieldKind
  }

  /** The 1-byte kinds, read as one raw buffer when they are slice elements. */
  predicate OneByte(k: FieldKind)
  {
    k == ByteFieldKind || k == Int8FieldKind || k == Uint8FieldKind
  }

  /** The values of the Go type a scalar kind names. */
  predicate InRange(k: FieldKind, n: int)
    requires IsScalar(k)
  {
    if IsSigned(k) then SignedRange(Width(k), n) else 0 <= n < Pow256(Width(k))
  }

  /**
   * A scalar on the wire: signed values go through the conversion to the
   * unsigned type of the same width (two's complement), as the emitted
   * `uint16(s.X)` does.
   */
  function EncodeScalar(k: FieldKind, n: int): (r: seq<byte>)
    requires IsScalar(k)
    ensures |r| == Width(k)
  {
    UintBytes(Width(k), Truncate(Width(k), n))
  }

  /** The conversion back, as the emitted `int16(val)` does. */
  function ScalarOf(k: FieldKind, u: nat): int
    requires IsScalar(k)
  {
    if IsSigned(k) then AsSigned(Width(k), u) else u
  }

  /** The uint32 that prefixes strings and slices: `uint32(len(x))`. */
  function LengthPrefix(n: nat): (r: seq<byte>)
    ensures |r| == 4
  {
    UintBytes(4, n % UINT32_LIMIT)
  }

  // ---------------------------------------------------------------------------
  // Values and the Go types they inhabit
  // ---------------------------------------------------------------------------

  /**
   * A field value of a generated type: a number for every scalar kind, the
   * bytes of a string, the field values of a struct, the elements of a slice
   * or array.
   */
  datatype Value =
    | Num(n: int)
    | Str(bytes: seq<byte>)
    | Record(fields: seq<Value>)
    | Elements(items: seq<Value>)

  /** getArrayTypeLength: the bound of `[N]T`, when N is a literal Atoi accepts. */
  function GetArrayTypeLength(t: TypeExpr): Option<int>
  {
    match t
    case ArrayType(Some(BasicLit(v)), _) => Atoi(v)
    case _ => None
  }

  /** The declared length of an array field; a negative bound does not compile. */
  function ArrayBound(f: FieldLayout): Option<nat>
  {
    match GetArrayTypeLength(f.typ)
    case Some(n) => if n >= 0 then Some(n) else None
    case None => None
  }

  /**
   * v is a value of the Go type the field declares, in a program the
   * generator's output compiles to, and every length it carries fits the
   * uint32 prefix. Excluded are the emitted constructs that do not compile:
   * slices of int8 (the raw-buffer conversion `[]int8(buff)`), arrays of
   * 1-byte kinds (their Read names an undeclared `size`), struct references
   * that resolve to no Struct layout.
   */
  predicate FieldConforms(env: Env, f: FieldLayout, v: Value)
    decreases v, 1
  {
    if IsScalar(f.kind) then v.Num? && InRange(f.kind, v.n)
    else
      match f.kind
      case StringFieldKind => v.Str? && |v.bytes| < UINT32_LIMIT
      case StructFieldKind => v.Record? && RecordConforms(env, f.fieldType, v.fields)
      case SliceFieldKind =>
        && v.Elements? && |v.items| < UINT32_LIMIT
        && f.subElementKind != Int8FieldKind
        && ElemsConform(env, f.subElementKind, f.fieldType, v.items)
      case ArrayFieldKind =>
        && v.Elements? && ArrayBound(f) == Some(|v.items|)
        && !OneByte(f.subElementKind)
        && ElemsConform(env, f.subElementKind, f.fieldType, v.items)
      case _ => false
  }

  predicate ElemsConform(env: Env, sub: FieldKind, name: string, items: seq<Value>)
    decreases items, 2
  {
    forall k :: 0 <= k < |items| ==> ElemConforms(env, sub, name, items[k])
  }

  predicate ElemConforms(env: Env, sub: FieldKind, name: string, v: Value)
    decreases v, 0
  {
    if IsScalar(sub) then v.Num? && InRange(sub, v.n)
    else if sub == StringFieldKind then v.Str? && |v.bytes| < UINT32_LIMIT
    else if sub == StructFieldKind then v.Record? && RecordConforms(env, name, v.fields)
    else false
  }

  predicate RecordConforms(env: Env, name: string, vs: seq<Value>)
    decreases vs, 3
  {
    match ResolveStruct(env, name)
    case None => false
    case Some(j) => FieldsConform(env, env[j].fields, vs)
  }

  predicate FieldsConform(env: Env, fs: seq<FieldLayout>, vs: seq<Value>)
    decreases vs, 2
  {
    |fs| == |vs| && forall k :: 0 <= k < |vs| ==> FieldConforms(env, fs[k], vs[k])
  }

  // ---------------------------------------------------------------------------
  // Length()
  // ---------------------------------------------------------------------------

  /** What the emitted Length() adds for one field. */
  function FieldLength(env: Env, f: FieldLayout, v: Value): nat
    requires FieldConforms(env, f, v)
    decreases v, 1
  {
    if IsScalar(f.kind) then Width(f.kind)
    else
      match f.kind
      case StringFieldKind => 4 + |v.bytes|
      case StructFieldKind => RecordLength(env, f.fieldType, v.fields)
      case SliceFieldKind =>
        if IsScalar(f.subElementKind) then 4 + |v.items| * Width(f.subElementKind)
        else 4 + ElemsLength(env, f.subElementKind, f.fieldType, v.items)
      case ArrayFieldKind =>
        if IsScalar(f.subElementKind) then ArrayBound(f).value * Width(f.subElementKind)
        else ElemsLength(env, f.subElementKind, f.fieldType, v.items)
  }

  /** The per-element loop of a slice or array of strings or structs. */
  function ElemsLength(env: Env, sub: FieldKind, name: string, items: seq<Value>): nat
    requires ElemsConform(env, sub, name, items)
    decreases items, 2
  {
    if items == [] then 0
    else ElemLength(env, sub, name, items[0]) + ElemsLength(env, sub, name, items[1..])
  }

  function ElemLength(env: Env, sub: FieldKind, name: string, v: Value): nat
    requires ElemConforms(env, sub, name, v)
    decreases v, 0
  {
    if IsScalar(sub) then Width(sub)
    else if sub == StringFieldKind then 4 + |v.bytes|
    else RecordLength(env, name, v.fields)
  }

  /** A nested struct's own Length(): the sum over its fields, no header. */
  function RecordLength(env: Env, name: string, vs: seq<Value>): nat
    requires RecordConforms(env, name, vs)
    decreases vs, 3
  {
    var j := ResolveStruct(env, name).value;
    FieldsLength(env, env[j].fields, vs)
  }

  function FieldsLength(env: Env, fs: seq<FieldLayout>, vs: seq<Value>): nat
    requires FieldsConform(env, fs, vs)
    decreases vs, 2
  {
    if vs == [] then 0
    else FieldLength(env, fs[0], vs[0]) + FieldsLength(env, fs[1..], vs[1..])
  }

  // ---------------------------------------------------------------------------
  // Write()
  // ---------------------------------------------------------------------------

  /** The bytes the emitted Write() sends for one field. */
  function EncodeField(env: Env, f: FieldLayout, v: Value): seq<byte>
    requires FieldConforms(env, f, v)
    decreases v, 1
  {
    if IsScalar(f.kind) then EncodeScalar(f.kind, v.n)
    else
      match f.kind
      case StringFieldKind => LengthPrefix(|v.bytes|) + v.bytes
      case StructFieldKind => EncodeRecord(env, f.fieldType, v.fields)
      case SliceFieldKind =>
        LengthPrefix(|v.items|) + EncodeElems(env, f.subElementKind, f.fieldType, v.items)
      case ArrayFieldKind => EncodeElems(env, f.subElementKind, f.fieldType, v.items)
  }

  function EncodeElems(env: Env, sub: FieldKind, name: string, items: seq<Value>): seq<byte>
    requires ElemsConform(env, sub, name, items)
    decreases items, 2
  {
    if items == [] then []
    else EncodeElem(env, sub, name, items[0]) + EncodeElems(env, sub, name, items[1..])
  }

  function EncodeElem(env: Env, sub: FieldKind, name: string, v: Value): seq<byte>
    requires ElemConforms(env, sub, name, v)
    decreases v, 0
  {
    if IsScalar(sub) then EncodeScalar(sub, v.n)
    else if sub == StringFieldKind then LengthPrefix(|v.bytes|) + v.bytes
    else EncodeRecord(env, name, v.fields)
  }

  function EncodeRecord(env: Env, name: string, vs: seq<Value>): seq<byte>
    requires RecordConforms(env, name, vs)
    decreases vs, 3
  {
    var j := ResolveStruct(env, name).value;
    EncodeFields(env, env[j].fields, vs)
  }

  function EncodeFields(env: Env, fs: seq<FieldLayout>, vs: seq<Value>): seq<byte>
    requires FieldsConform(env, fs, vs)
    decreases vs, 2
  {
    if vs == [] then []
    else EncodeField(env, fs[0], vs[0]) + EncodeFields(env, fs[1..], vs[1..])
  }

  // ---------------------------------------------------------------------------
  // Read()
  // ---------------------------------------------------------------------------

  /**
   * Why a read fails: the stream ran out of bytes, or the emitted code for
   * this field does not compile, so there is no Read to run.
   */
  datatype ReadError = EOF | NoCode

  /** rest is what is left of bs after a read. */
  predicate IsSuffix(rest: seq<byte>, bs: seq<byte>)
  {
    |rest| <= |bs| && rest == bs[|bs| - |rest|..]
  }

  /** The stream's ReadUint16/32/64 and ReadByte. */
  function ReadUint(w: nat, bs: seq<byte>): (r: Result<(nat, seq<byte>), ReadError>)
    ensures r.Failure? <==> |bs| < w
    ensures r.Failure? ==> r.error == EOF
    ensures r.Success? ==> r.value.0 < Pow256(w) && r.value.1 == bs[w..]
  {
    if |bs| < w then Failure(EOF) else Success((UintValue(bs[..w]), bs[w..]))
  }

  /** The stream's ReadBuff(n). */
  function ReadBuff(n: nat, bs: seq<byte>): (r: Result<(seq<byte>, seq<byte>), ReadError>)
    ensures r.Failure? <==> |bs| < n
    ensures r.Failure? ==> r.error == EOF
    ensures r.Success? ==> r.value.0 + r.value.1 == bs && |r.value.0| == n
  {
    if |bs| < n then Failure(EOF) else Success((bs[..n], bs[n..]))
  }

  function DecodeScalar(k: FieldKind, bs: seq<byte>): (r: Result<(Value, seq<byte>), ReadError>)
    requires IsScalar(k)
    ensures r.Success? ==> |bs| >= Width(k) && r.value.1 == bs[Width(k)..]
  {
    match ReadUint(Width(k), bs)
    case Failure(e) => Failure(e)
    case Success((u, rest)) => Success((Num(ScalarOf(k, u)), rest))
  }

  /** A uint32 length, then that many raw bytes. */
  function DecodeString(bs: seq<byte>): (r: Result<(Value, seq<byte>), ReadError>)
    ensures r.Success? ==> IsSuffix(r.value.1, bs) && |r.value.1| + 4 <= |bs|
  {
    match ReadUint(4, bs)
    case Failure(e) => Failure(e)
    case Success((size, rest)) =>
      match ReadBuff(size, rest)
      case Failure(e) => Failure(e)
      case Success((buff, rest2)) => Success((Str(buff), rest2))
  }

  /**
   * The emitted Read() for one field. `rank` bounds the layouts a by-value
   * struct reference may enter: a struct field or an array of structs of the
   * layout at index j reads layouts below j, so that decoding terminates (see
   * Ordered); the elements of a slice, which always consume a count first,
   * may refer to any layout.
   */
  function DecodeField(env: Env, rank: nat, f: FieldLayout, bs: seq<byte>): (r: Result<(Value, seq<byte>), ReadError>)
    ensures r.Success? ==> IsSuffix(r.value.1, bs)
    decreases |bs|, rank, 2, 0
  {
    if IsScalar(f.kind) then DecodeScalar(f.kind, bs)
    else
      match f.kind
      case StringFieldKind => DecodeString(bs)
      case StructFieldKind => DecodeRecord(env, rank, f.fieldType, bs)
      case SliceFieldKind =>
        if f.subElementKind == Int8FieldKind then Failure(NoCode)
        else (
          match ReadUint(4, bs)
          case Failure(e) => Failure(e)
          case Success((size, rest)) =>
            if f.subElementKind == ByteFieldKind || f.subElementKind == Uint8FieldKind then (
              match ReadBuff(size, rest)
              case Failure(e) => Failure(e)
              case Success((buff, rest2)) => Success((Elements(Nums(buff)), rest2)))
            else (
              match DecodeElems(env, |env|, f.subElementKind, f.fieldType, size, rest)
              case Failure(e) => Failure(e)
              case Success((items, rest2)) => Success((Elements(items), rest2))))
      case ArrayFieldKind =>
        if OneByte(f.subElementKind) then Failure(NoCode)
        else (
          match ArrayBound(f)
          case None => Failure(NoCode)
          case Some(n) =>
            match DecodeElems(env, rank, f.subElementKind, f.fieldType, n, bs)
            case Failure(e) => Failure(e)
            case Success((items, rest)) => Success((Elements(items), rest)))
      case _ => Failure(NoCode)
  }

  /** The elements `[]byte(buff)` holds. */
  function Nums(buff: seq<byte>): (r: seq<Value>)
    ensures |r| == |buff| && forall k :: 0 <= k < |buff| ==> r[k] == Num(buff[k])
  {
    seq(|buff|, k requires 0 <= k < |buff| => Num(buff[k]))
  }

  /** The per-element loop: n elements, in order, the first failure ends it. */
  function DecodeElems(env: Env, rank: nat, sub: FieldKind, name: string, n: nat, bs: seq<byte>)
    : (r: Result<(seq<Value>, seq<byte>), ReadError>)
    ensures r.Success? ==> IsSuffix(r.value.1, bs) && |r.value.0| == n
    decreases |bs|, rank, 1, n
  {
    if n == 0 then Success(([], bs))
    else
      match DecodeElem(env, rank, sub, name, bs)
      case Failure(e) => Failure(e)
      case Success((v, rest)) =>
        match DecodeElems(env, rank, sub, name, n - 1, rest)
        case Failure(e) => Failure(e)
        case Success((vs, rest2)) => Success(([v] + vs, rest2))
  }

  function DecodeElem(env: Env, rank: nat, sub: FieldKind, name: string, bs: seq<byte>)
    : (r: Result<(Value, seq<byte>), ReadError>)
    ensures r.Success? ==> IsSuffix(r.value.1, bs)
    decreases |bs|, rank, 0, 2
  {
    if IsScalar(sub) then DecodeScalar(sub, bs)
    else if sub == StringFieldKind then DecodeString(bs)
    else if sub == StructFieldKind then DecodeRecord(env, rank, name, bs)
    else Failure(NoCode)
  }

  /** A by-value struct: `s.X.Read(stream)`, the fields of the referenced layout. */
  function DecodeRecord(env: Env, rank: nat, name: string, bs: seq<byte>)
    : (r: Result<(Value, seq<byte>), ReadError>)
    ensures r.Success? ==> IsSuffix(r.value.1, bs)
    decreases |bs|, rank, 0, 1
  {
    match ResolveStruct(env, name)
    case None => Failure(NoCode)
    case Some(j) =>
      if j >= rank then Failure(NoCode)
      else
        match DecodeFields(env, j, env[j].fields, bs)
        case Failure(e) => Failure(e)
        case Success((vs, rest)) => Success((Record(vs), rest))
  }

  /** The fields in declaration order; the first failure ends the read. */
  function DecodeFields(env: Env, rank: nat, fs: seq<FieldLayout>, bs: seq<byte>)
    : (r: Result<(seq<Value>, seq<byte>), ReadError>)
    ensures r.Success? ==> IsSuffix(r.value.1, bs) && |r.value.0| == |fs|
    decreases |bs|, rank, 3, |fs|
  {
    if fs == [] then Success(([], bs))
    else
      match DecodeField(env, rank, fs[0], bs)
      case Failure(e) => Failure(e)
      case Success((v, rest)) =>
        match DecodeFields(env, rank, fs[1..], rest)
        case Failure(e) => Failure(e)
        case Success((vs, rest2)) => Success(([v] + vs, rest2))
  }

  /** Struct references by value (a struct field, an array of structs) of a layout at `rank` point below it. */
  predicate RefsBelow(env: Env, f: FieldLayout, rank: nat)
  {
    ((f.kind == StructFieldKind || (f.kind == ArrayFieldKind && f.subElementKind == StructFieldKind)) &&
     ResolveStruct(env, f.fieldType).Some?)
    ==> ResolveStruct(env, f.fieldType).value < rank
  }

  /**
   * Every struct is declared after the structs it contains by value. Go
   * accepts any declaration order and rejects only by-value cycles; this
   * model decodes the ordered case.
   */
  predicate Ordered(env: Env)
  {
    forall j, k :: 0 <= j < |env| && 0 <= k < |env[j].fields| ==> RefsBelow(env, env[j].fields[k], j)
  }

  // ---------------------------------------------------------------------------
  // Zero values
  // ---------------------------------------------------------------------------

  /**
   * Go's zero value of a field's type, which a composite literal gives every
   * field it does not name: 0, "", a nil slice, N zero elements, a struct of
   * zero fields. `rank` plays the role it plays in DecodeField.
   */
  function ZeroField(env: Env, rank: nat, f: FieldLayout): Value
    decreases rank, 2
  {
    if IsScalar(f.kind) then Num(0)
    else
      match f.kind
      case StringFieldKind => Str([])
      case StructFieldKind => ZeroRecord(env, rank, f.fieldType)
      case ArrayFieldKind =>
        (match ArrayBound(f)
         case None => Elements([])
         case Some(n) =>
           var z := ZeroElem(env, rank, f.subElementKind, f.fieldType);
           Elements(seq(n, _ => z)))
      case _ => Elements([])
  }

  function ZeroElem(env: Env, rank: nat, sub: FieldKind, name: string): Value
    decreases rank, 1
  {
    if IsScalar(sub) then Num(0)
    else if sub == StringFieldKind then Str([])
    else ZeroRecord(env, rank, name)
  }

  function ZeroRecord(env: Env, rank: nat, name: string): Value
    decreases rank, 0
  {
    match ResolveStruct(env, name)
    case Some(j) => if j < rank then Record(ZeroFields(env, j, env[j].fields)) else Record([])
    case None => Record([])
  }

  function ZeroFields(env: Env, rank: nat, fs: seq<FieldLayout>): (r: seq<Value>)
    ensures |r| == |fs|
    decreases rank, 3
  {
    seq(|fs|, k requires 0 <= k < |fs| => ZeroField(env, rank, fs[k]))
  }

  /** An element kind the emitted code can declare and name. */
  predicate ElemSupported(env: Env, sub: FieldKind, name: string)
  {
    IsScalar(sub) || sub == StringFieldKind || (sub == StructFieldKind && ResolveStruct(env, name).Some?)
  }

  /** A field whose emitted declaration, Read and Write compile (see FieldConforms). */
  predicate Supported(env: Env, f: FieldLayout)
  {
    || IsScalar(f.kind)
    || f.kind == StringFieldKind
    || (f.kind == StructFieldKind && ResolveStruct(env, f.fieldType).Some?)
    || (f.kind == SliceFieldKind && f.subElementKind != Int8FieldKind
        && ElemSupported(env, f.subElementKind, f.fieldType))
    || (f.kind == ArrayFieldKind && ArrayBound(f).Some? && !OneByte(f.subElementKind)
        && ElemSupported(env, f.subElementKind, f.fieldType))
  }

  /** Every field of every layout is supported. */
  predicate Typed(env: Env)
  {
    forall j, k :: 0 <= j < |env| && 0 <= k < |env[j].fields| ==> Supported(env, env[j].fields[k])
  }

  // ---------------------------------------------------------------------------
  // PacketHeader
  // ---------------------------------------------------------------------------

  datatype Header = Header(id: uint32, packetType: uint32, len: uint32, version: uint32, ack: uint32, token: uint32)

  /** What PacketHeader.Length() returns; Write sends only 24 bytes. */
  const HEADER_LENGTH: nat := 36

  function U32(n: uint32): seq<byte>
  {
    UintBytes(4, n)
  }

  /** PacketHeader.Write: the six fields as uint32, in declaration order. */
  function EncodeHeader(h: Header): (r: seq<byte>)
    ensures |r| == 24
  {
    U32(h.id) + U32(h.packetType) + U32(h.len) + U32(h.version) + U32(h.ack) + U32(h.token)
  }

  function ReadU32(bs: seq<byte>): (r: Result<(uint32, seq<byte>), ReadError>)
    ensures r.Failure? <==> |bs| < 4
    ensures r.Success? ==> r.value.1 == bs[4..]
  {
    match ReadUint(4, bs)
    case Failure(e) => Failure(e)
    case Success((n, rest)) =>
      assert n < Pow256(4) == UINT32_LIMIT;
      Success((n, rest))
  }

  /** PacketHeader.Read: six uint32 reads; the first failing one ends it. */
  function DecodeHeader(bs: seq<byte>): (r: Result<(Header, seq<byte>), ReadError>)
    ensures r.Failure? <==> |bs| < 24
    ensures r.Failure? ==> r.error == EOF
    ensures r.Success? ==> r.value.1 == bs[24..]
  {
    if |bs| < 24 then Failure(EOF)
    else
      var id := ReadU32(bs).value;
      var packetType := ReadU32(id.1).value;
      var len := ReadU32(packetType.1).value;
      var version := ReadU32(len.1).value;
      var ack := ReadU32(version.1).value;
      var token := ReadU32(ack.1).value;
      Success((Header(id.0, packetType.0, len.0, version.0, ack.0, token.0), bs[24..]))
  }

  // ---------------------------------------------------------------------------
  // Whole types
  // ---------------------------------------------------------------------------

  /** generatePacketLengthCode: the header's 36 for packets, then each field. */
  function LayoutLength(env: Env, p: PacketLayout, body: seq<Value>): nat
    requires FieldsConform(env, p.fields, body)
  {
    (if p.kind != StructKind then HEADER_LENGTH else 0) + FieldsLength(env, p.fields, body)
  }

  /** generateWriteCode: the header first for packets, then each field. */
  function LayoutWrite(env: Env, p: PacketLayout, h: Header, body: seq<Value>): seq<byte>
    requires FieldsConform(env, p.fields, body)
  {
    (if p.kind != StructKind then EncodeHeader(h) else []) + EncodeFields(env, p.fields, body)
  }

  /** generateReadCode: never the header, only the fields, for every kind. */
  function LayoutRead(env: Env, p: PacketLayout, bs: seq<byte>): Result<(seq<Value>, seq<byte>), ReadError>
  {
    DecodeFields(env, |env|, p.fields, bs)
  }

  /** generatePacketAdjustLengthCode: the header's Len after AdjustLength. */
  function AdjustedHeader(env: Env, p: PacketLayout, h: Header, body: seq<Value>): (r: Header)
    requires FieldsConform(env, p.fields, body)
    ensures r.id == h.id && r.packetType == h.packetType && r.version == h.version
    ensures r.ack == h.ack && r.token == h.token
    ensures p.kind == StructKind ==> r == h
    ensures p.kind != StructKind ==> r.len == LayoutLength(env, p, body) % UINT32_LIMIT
  {
    if p.kind != StructKind then h.(len := LayoutLength(env, p, body) % UINT32_LIMIT) else h
  }

  /** generateNewPacketFunc: `PacketType` preset to the id constant, every other header field zero. */
  function NewHeader(p: PacketLayout): Header
    requires 0 <= p.id < UINT32_LIMIT
  {
    Header(0, p.id, 0, 0, 0, 0)
  }
}
