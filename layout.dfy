/**
 * The IDL front half of the generator (src/generator/parser.go): the packet
 * and field taxonomies, the annotation classifier that reads a declaration's
 * doc comment, the field type classifier, the per-kind layout rules and the
 * Parse loop that collects one layout per declaration.
 *
 * The Go front end (go/parser and go/ast) is replaced by the small Decl /
 * Field / TypeExpr datatypes below: a declaration is a struct type with its
 * doc comment lines and its fields, a field is its list of names and its type
 * expression.
 */
module Layout {
  import opened Wrappers
  import opened Text

  /** PacketKind, with the numeric codes the source gives its constants. */
  datatype PacketKind = SimplePacketKind | VLFPacketKind | GenericPacketKind | StructKind
  {
    function Code(): int
    {
      match this
      case SimplePacketKind => 0x00
      case VLFPacketKind => 0x01
      case GenericPacketKind => 0x02
      case StructKind => 0x04
    }
  }

  /**
   * FieldKind. The source encodes each kind as a distinct bit (`1 << iota`) but
   * never combines them; here they are the constructors of one datatype, and
   * Bit() gives the flag value.
   */
  datatype FieldKind =
    | SliceFieldKind | ArrayFieldKind | StructFieldKind
    | ByteFieldKind | Uint8FieldKind | Uint16FieldKind | Uint32FieldKind | Uint64FieldKind
    | Int8FieldKind | Int16FieldKind | Int32FieldKind | Int64FieldKind
    | StringFieldKind
  {
    function Bit(): nat
    {
      match this
      case SliceFieldKind => 1
      case ArrayFieldKind => 2
      case StructFieldKind => 4
      case ByteFieldKind => 8
      case Uint8FieldKind => 16
      case Uint16FieldKind => 32
      case Uint32FieldKind => 64
      case Uint64FieldKind => 128
      case Int8FieldKind => 256
      case Int16FieldKind => 512
      case Int32FieldKind => 1024
      case Int64FieldKind => 2048
      case StringFieldKind => 4096
    }
  }

  /** FieldKindLengthMap: the wire width in bytes of the nine fixed-width kinds. */
  function FieldKindLength(k: FieldKind): Option<nat>
  {
    match k
    case ByteFieldKind => Some(1)
    case Uint8FieldKind => Some(1)
    case Uint16FieldKind => Some(2)
    case Uint32FieldKind => Some(4)
    case Uint64FieldKind => Some(8)
    case Int8FieldKind => Some(1)
    case Int16FieldKind => Some(2)
    case Int32FieldKind => Some(4)
    case Int64FieldKind => Some(8)
    case _ => None
  }

  /** The length expression of an array type: a basic literal, or anything else. */
  datatype LenExpr = BasicLit(value: string) | OtherLen

  /**
   * A field's type expression: an identifier, an inline struct body, an array
   * or slice type (`len` is None for `[]T`), or any other shape (map, `*T`,
   * function, qualified name, ...).
   */
  datatype TypeExpr =
    | Ident(name: string)
    | InlineStruct
    | ArrayType(len: Option<LenExpr>, elt: TypeExpr)
    | Other

  /** One entry of a struct's field list; `A, B uint32` has two names, an embedded field none. */
  datatype Field = Field(names: seq<string>, typ: TypeExpr)

  /** A struct type declaration with its doc comment lines (empty when it has none). */
  datatype Decl = Decl(name: string, doc: seq<string>, fields: seq<Field>)

  datatype FieldLayout = FieldLayout(
    name: string,
    kind: FieldKind,
    subElementKind: FieldKind,
    fieldType: string,
    typ: TypeExpr)

  datatype PacketLayout = PacketLayout(
    name: string,
    kind: PacketKind,
    id: int,
    idName: string,
    fields: seq<FieldLayout>)

  /**
   * The error returns of the parser; their message texts are not modelled.
   * IndexPanic stands for the run-time panic of NewFieldLayout reading
   * `field.Names[0]` of an anonymous field, which the VLF rule reaches
   * without checking for a name: like an error, it ends Parse at that
   * declaration, and nothing after it runs.
   */
  datatype ParseError = BadPacketId | InvalidVLFPacket | AnonymousField | InvalidFieldType | IndexPanic

  // ---------------------------------------------------------------------------
  // Annotation classifier
  // ---------------------------------------------------------------------------

  /** A comment line as the classifier compares it: lower-cased, every '/' and ' ' deleted. */
  function Normalize(line: string): string
  {
    RemoveAll(RemoveAll(ToLower(line), '/'), ' ')
  }

  /** The kind a comment line sets: its text before the first ':' must be one of the three tags. */
  function LineTag(line: string): (r: Option<PacketKind>)
    ensures r != Some(StructKind)
  {
    var typeComment := Split(Normalize(line), ':');
    if |typeComment| < 2 then None
    else if typeComment[0] == "@simplepacket" then Some(SimplePacketKind)
    else if typeComment[0] == "@packet" then Some(GenericPacketKind)
    else if typeComment[0] == "@vlfpacket" then Some(VLFPacketKind)
    else None
  }

  /**
   * The id name and id literal a comment line sets: the text between the first
   * and second ':' must hold a ','; the name precedes it, the literal runs to
   * the next ','. Whether the line carries a recognised tag does not matter.
   */
  function LineId(line: string): Option<(string, string)>
  {
    var typeComment := Split(Normalize(line), ':');
    if |typeComment| < 2 then None
    else
      var params := Split(typeComment[1], ',');
      if |params| < 2 then None else Some((params[0], params[1]))
  }

  /** The kind of the last line that sets one, StructKind if none does. */
  function DocKind(lines: seq<string>): PacketKind
  {
    if lines == [] then StructKind
    else
      match LineTag(lines[|lines| - 1])
      case Some(k) => k
      case None => DocKind(lines[..|lines| - 1])
  }

  /** The id name and literal of the last line that sets them. */
  function DocId(lines: seq<string>): Option<(string, string)>
  {
    if lines == [] then None
    else
      match LineId(lines[|lines| - 1])
      case Some(p) => Some(p)
      case None => DocId(lines[..|lines| - 1])
  }

  /** What parsePacketType returns; `id` is meaningful only when the literal parsed. */
  datatype Annotation = Annotation(kind: PacketKind, idName: string, id: int, failed: bool)

  function Annotate(doc: seq<string>): Annotation
  {
    match DocId(doc)
    case None => Annotation(DocKind(doc), "", 0, false)
    case Some((name, literal)) =>
      match ParseInt(literal)
      case Some(v) => Annotation(DocKind(doc), name, v, false)
      case None => Annotation(DocKind(doc), name, 0, true)
  }

  /** What one more comment line does to the annotation read so far. */
  function StepAnnotation(a: Annotation, line: string): Annotation
  {
    var kind := match LineTag(line) case Some(k) => k case None => a.kind;
    match LineId(line)
    case None => a.(kind := kind)
    case Some((name, literal)) =>
      match ParseInt(literal)
      case Some(v) => Annotation(kind, name, v, false)
      case None => Annotation(kind, name, 0, true)
  }

  lemma AnnotateStep(lines: seq<string>, line: string)
    ensures Annotate(lines + [line]) == StepAnnotation(Annotate(lines), line)
  {
    var next := lines + [line];
    assert next[..|next| - 1] == lines;
  }

  /** A declaration is a plain struct exactly when none of its lines carries a recognised tag. */
  lemma {:induction false} DocKindStruct(lines: seq<string>)
    ensures DocKind(lines) == StructKind <==> forall k :: 0 <= k < |lines| ==> LineTag(lines[k]).None?
  {
    if lines != [] {
      var init := lines[..|lines| - 1];
      DocKindStruct(init);
      assert forall k :: 0 <= k < |init| ==> init[k] == lines[k];
    }
  }

  /** The last tagged line decides the kind, whatever the earlier lines say. */
  lemma {:induction false} LastTagWins(lines: seq<string>, k: nat)
    requires k < |lines| && LineTag(lines[k]).Some?
    requires forall m :: k < m < |lines| ==> LineTag(lines[m]).None?
    ensures DocKind(lines) == LineTag(lines[k]).value
  {
    if k < |lines| - 1 {
      var init := lines[..|lines| - 1];
      assert init[k] == lines[k];
      assert forall m :: k < m < |init| ==> init[m] == lines[m];
      LastTagWins(init, k);
    }
  }

  /** Likewise the last line that carries an id decides the id name and literal. */
  lemma {:induction false} LastIdWins(lines: seq<string>, k: nat)
    requires k < |lines| && LineId(lines[k]).Some?
    requires forall m :: k < m < |lines| ==> LineId(lines[m]).None?
    ensures DocId(lines) == LineId(lines[k])
  {
    if k < |lines| - 1 {
      var init := lines[..|lines| - 1];
      assert init[k] == lines[k];
      assert forall m :: k < m < |init| ==> init[m] == lines[m];
      LastIdWins(init, k);
    }
  }

  /** A run of comment markers and spaces. */
  predicate IsMarker(m: string)
  {
    forall i :: 0 <= i < |m| ==> m[i] == '/' || m[i] == ' '
  }

  lemma {:induction false} MarkerVanishes(m: string)
    requires IsMarker(m)
    ensures RemoveAll(RemoveAll(m, '/'), ' ') == []
  {
    if m != [] {
      assert IsMarker(m[1..]) by {
        assert forall i :: 0 <= i < |m[1..]| ==> m[1..][i] == m[i + 1];
      }
      MarkerVanishes(m[1..]);
      var head: string := if m[0] == '/' then [] else [m[0]];
      assert RemoveAll(m, '/') == head + RemoveAll(m[1..], '/');
      RemoveAllConcat(head, RemoveAll(m[1..], '/'), ' ');
      assert RemoveAll(head, ' ') == [];
    }
  }

  lemma NormalizeMarker(m: string, line: string)
    requires IsMarker(m)
    ensures Normalize(m + line) == Normalize(line)
  {
    LowerConcat(m, line);
    assert ToLower(m) == m by {
      assert forall i :: 0 <= i < |m| ==> ToLower(m)[i] == m[i];
    }
    var lower := ToLower(line);
    assert ToLower(m + line) == m + lower;
    RemoveAllConcat(m, lower, '/');
    RemoveAllConcat(RemoveAll(m, '/'), RemoveAll(lower, '/'), ' ');
    MarkerVanishes(m);
  }

  /** Leading comment markers and spaces do not change what a line says. */
  lemma MarkersIgnored(m: string, line: string)
    requires IsMarker(m)
    ensures LineTag(m + line) == LineTag(line)
    ensures LineId(m + line) == LineId(line)
  {
    NormalizeMarker(m, line);
  }

  /** Tags are matched whatever their case. */
  lemma CaseIgnored(line: string)
    ensures LineTag(ToUpper(line)) == LineTag(line)
  {
    LowerOfUpper(line);
  }

  /** How Split takes apart a line of the form tag ":" name "," literal. */
  lemma SplitWellFormed(tag: string, name: string, literal: string)
    requires ':' !in tag && ':' !in name && ',' !in name && ':' !in literal && ',' !in literal
    ensures Split(tag + ":" + name + "," + literal, ':') == [tag, name + "," + literal]
    ensures Split(name + "," + literal, ',') == [name, literal]
  {
    var rest := name + "," + literal;
    assert tag + ":" + name + "," + literal == tag + [':'] + rest;
    assert ':' !in rest;
    SplitAt(tag, rest, ':');
    SplitNoSep(rest, ':');
    assert rest == name + [','] + literal;
    SplitAt(name, literal, ',');
    SplitNoSep(literal, ',');
  }

  /**
   * A line of the documented form tag ":" name "," literal (already lower
   * case, with no '/' or ' ') is classified by its tag and yields that name
   * and literal.
   */
  lemma WellFormedLine(tag: string, name: string, literal: string)
    requires tag in {"@simplepacket", "@packet", "@vlfpacket"}
    requires ':' !in name && ',' !in name && ':' !in literal && ',' !in literal
    requires Normalize(tag + ":" + name + "," + literal) == tag + ":" + name + "," + literal
    ensures LineTag(tag + ":" + name + "," + literal)
      == Some(if tag == "@simplepacket" then SimplePacketKind
              else if tag == "@packet" then GenericPacketKind else VLFPacketKind)
    ensures LineId(tag + ":" + name + "," + literal) == Some((name, literal))
  {
    assert ':' !in tag;
    SplitWellFormed(tag, name, literal);
  }

  // ---------------------------------------------------------------------------
  // Field type classifier
  // ---------------------------------------------------------------------------

  /** parseNameByType: descend through every array layer to the innermost name. */
  function ParseNameByType(t: TypeExpr): string
  {
    match t
    case InlineStruct => "struct"
    case ArrayType(_, elt) => ParseNameByType(elt)
    case Ident(name) => name
    case Other => "unknown"
  }

  /** The classification of a type name, shared by parseFieldKind and parseFieldType. */
  function KindOfName(name: string): FieldKind
  {
    if name == "byte" then ByteFieldKind
    else if name == "uint8" then Uint8FieldKind
    else if name == "uint16" then Uint16FieldKind
    else if name == "uint32" then Uint32FieldKind
    else if name == "uint64" then Uint64FieldKind
    else if name == "int8" then Int8FieldKind
    else if name == "int16" then Int16FieldKind
    else if name == "int32" then Int32FieldKind
    else if name == "int64" then Int64FieldKind
    else if name == "string" then StringFieldKind
    else StructFieldKind
  }

  const PRIMITIVE_NAMES: set<string> :=
    {"byte", "uint8", "uint16", "uint32", "uint64", "int8", "int16", "int32", "int64", "string"}

  /** The ten primitive names get their own kinds; every other name is a struct reference. */
  lemma KindOfNameCases(name: string)
    ensures KindOfName(name) != StructFieldKind <==> name in PRIMITIVE_NAMES
    ensures FieldKindLength(KindOfName(name)).Some? <==> name in PRIMITIVE_NAMES - {"string"}
    ensures KindOfName(name) != SliceFieldKind && KindOfName(name) != ArrayFieldKind
  {
  }

  /** parseFieldKind: the field kind from the shape of the type expression. */
  function ParseFieldKind(t: TypeExpr): Result<FieldKind, ParseError>
  {
    match t
    case InlineStruct => Success(StructFieldKind)
    case ArrayType(len, _) => Success(if len.None? then SliceFieldKind else ArrayFieldKind)
    case Ident(name) => Success(KindOfName(name))
    case Other => Failure(InvalidFieldType)
  }

  /** NewFieldLayout: classify a named field; any shape other than the four supported fails. */
  function NewFieldLayout(f: Field): (r: Result<FieldLayout, ParseError>)
    requires |f.names| > 0
    ensures r.Success? <==> !f.typ.Other?
    ensures r.Failure? ==> r.error == InvalidFieldType
    ensures r.Success? ==> r.value.name == f.names[0] && r.value.typ == f.typ
    ensures r.Success? ==> r.value.subElementKind != SliceFieldKind && r.value.subElementKind != ArrayFieldKind
    ensures f.typ.InlineStruct? ==> r.Success? && r.value.kind == StructFieldKind
    ensures f.typ.Ident? ==> r.Success? && r.value.kind == KindOfName(f.typ.name)
    ensures f.typ.ArrayType? ==>
      r.Success? && r.value.kind == (if f.typ.len.None? then SliceFieldKind else ArrayFieldKind)
    ensures r.Success? ==> r.value.fieldType == ParseNameByType(f.typ) && r.value.subElementKind == KindOfName(r.value.fieldType)
  {
    match ParseFieldKind(f.typ)
    case Failure(e) => Failure(e)
    case Success(kind) =>
      var fieldType := ParseNameByType(f.typ);
      Success(FieldLayout(f.names[0], kind, KindOfName(fieldType), fieldType, f.typ))
  }

  /** `n` array or slice layers (bounds[i] is the length of layer i) around t. */
  function Nest(bounds: seq<Option<LenExpr>>, t: TypeExpr): TypeExpr
  {
    if bounds == [] then t else ArrayType(bounds[0], Nest(bounds[1..], t))
  }

  /**
   * Only one container level is classified: however many layers wrap a name,
   * the element kind is that of the innermost name, and the field kind is that
   * of the outermost layer. So [][]uint32 is a slice of uint32.
   */
  lemma {:induction false} ElementKindThroughLayers(bounds: seq<Option<LenExpr>>, fieldName: string, name: string)
    requires |bounds| > 0
    ensures NewFieldLayout(Field([fieldName], Nest(bounds, Ident(name)))) == Success(FieldLayout(
      fieldName,
      if bounds[0].None? then SliceFieldKind else ArrayFieldKind,
      KindOfName(name), name, Nest(bounds, Ident(name))))
  {
    InnermostName(bounds, name);
  }

  lemma {:induction false} InnermostName(bounds: seq<Option<LenExpr>>, name: string)
    ensures ParseNameByType(Nest(bounds, Ident(name))) == name
  {
    if bounds != [] {
      InnermostName(bounds[1..], name);
    }
  }

  // ---------------------------------------------------------------------------
  // Per-kind layout rules
  // ---------------------------------------------------------------------------

  /** One field of a Struct or Packet layout: anonymous fields are refused. */
  function NamedField(f: Field): Result<FieldLayout, ParseError>
  {
    if |f.names| == 0 then Failure(AnonymousField) else NewFieldLayout(f)
  }

  /** The loop of the Struct/Packet rule over the fields' results: the first failure ends it. */
  function Gather(rs: seq<Result<FieldLayout, ParseError>>): Result<seq<FieldLayout>, ParseError>
  {
    if rs == [] then Success([])
    else
      match Gather(rs[..|rs| - 1])
      case Failure(e) => Failure(e)
      case Success(done) =>
        match rs[|rs| - 1]
        case Failure(e) => Failure(e)
        case Success(f) => Success(done + [f])
  }

  /** The result of each field on its own. */
  function FieldResults(fs: seq<Field>): (rs: seq<Result<FieldLayout, ParseError>>)
    ensures |rs| == |fs|
  {
    seq(|fs|, k requires 0 <= k < |fs| => NamedField(fs[k]))
  }

  /** The fields of a Struct or Packet layout, in order; the first refused field ends it. */
  function NamedFields(fs: seq<Field>): Result<seq<FieldLayout>, ParseError>
  {
    Gather(FieldResults(fs))
  }

  /** Once a prefix of the results fails, the whole list fails with the same error. */
  lemma {:induction false} GatherFailureSticks(rs: seq<Result<FieldLayout, ParseError>>, j: nat)
    requires j <= |rs| && Gather(rs[..j]).Failure?
    ensures Gather(rs) == Gather(rs[..j])
  {
    if j < |rs| {
      var init := rs[..|rs| - 1];
      assert init[..j] == rs[..j];
      GatherFailureSticks(init, j);
    } else {
      assert rs[..j] == rs;
    }
  }

  /**
   * Gather succeeds exactly when every result does, and then lists their
   * values in order.
   */
  lemma {:induction false} GatherShape(rs: seq<Result<FieldLayout, ParseError>>)
    ensures Gather(rs).Success? <==> forall k :: 0 <= k < |rs| ==> rs[k].Success?
    ensures Gather(rs).Success? ==>
      |Gather(rs).value| == |rs| && forall k :: 0 <= k < |rs| ==> Gather(rs).value[k] == rs[k].value
  {
    if rs != [] {
      var n := |rs| - 1;
      var init := rs[..n];
      GatherShape(init);
      assert forall k :: 0 <= k < n ==> init[k] == rs[k];
    }
  }

  /** The first failing result decides the error. */
  lemma {:induction false} GatherFirstFailure(rs: seq<Result<FieldLayout, ParseError>>, k: nat)
    requires k < |rs| && rs[k].Failure?
    requires forall m :: 0 <= m < k ==> rs[m].Success?
    ensures Gather(rs) == Failure(rs[k].error)
  {
    var n := |rs| - 1;
    var init := rs[..n];
    if k < n {
      assert init[k] == rs[k];
      assert forall m :: 0 <= m < k ==> init[m] == rs[m];
      GatherFirstFailure(init, k);
    } else {
      assert forall m :: 0 <= m < n ==> init[m] == rs[m];
      GatherShape(init);
    }
  }

  /**
   * The Struct/Packet rule: the list is accepted exactly when every field is
   * named and of a supported shape, and then each field keeps its first name
   * and its type, in declaration order.
   */
  lemma NamedFieldsShape(fs: seq<Field>)
    ensures NamedFields(fs).Success? <==>
      forall k :: 0 <= k < |fs| ==> |fs[k].names| > 0 && !fs[k].typ.Other?
    ensures NamedFields(fs).Success? ==>
      |NamedFields(fs).value| == |fs| &&
      forall k :: 0 <= k < |fs| ==>
        && |fs[k].names| > 0 && NamedFields(fs).value[k] == NewFieldLayout(fs[k]).value
        && NamedFields(fs).value[k].name == fs[k].names[0] && NamedFields(fs).value[k].typ == fs[k].typ
  {
    var rs := FieldResults(fs);
    GatherShape(rs);
    assert forall k :: 0 <= k < |fs| ==> (rs[k].Success? <==> |fs[k].names| > 0 && !fs[k].typ.Other?);
  }

  /** The first refused field decides the error: AnonymousField or InvalidFieldType. */
  lemma FirstRefusalWins(fs: seq<Field>, k: nat)
    requires k < |fs| && NamedField(fs[k]).Failure?
    requires forall m :: 0 <= m < k ==> NamedField(fs[m]).Success?
    ensures NamedFields(fs) == Failure(NamedField(fs[k]).error)
  {
    GatherFirstFailure(FieldResults(fs), k);
  }

  /**
   * The field list parseField leaves in a layout of the given kind, or its
   * error: none for a SimplePacket; for a VLFPacket its first field, which
   * must be a slice; otherwise every field, each named.
   */
  function BuildFields(kind: PacketKind, fs: seq<Field>): (r: Result<seq<FieldLayout>, ParseError>)
    ensures kind == SimplePacketKind ==> r == Success([])
    ensures kind == VLFPacketKind ==>
      (r.Success? <==> |fs| > 0 && |fs[0].names| > 0 && fs[0].typ.ArrayType? && fs[0].typ.len.None?)
    ensures kind == VLFPacketKind && r.Success? ==>
      && |r.value| == 1 && |fs[0].names| > 0
      && r.value == [NewFieldLayout(fs[0]).value]
      && r.value[0].kind == SliceFieldKind && r.value[0].name == fs[0].names[0]
    ensures kind == VLFPacketKind && |fs| == 0 ==> r == Failure(InvalidVLFPacket)
    ensures kind == VLFPacketKind && |fs| > 0 && |fs[0].names| == 0 ==> r == Failure(IndexPanic)
    ensures kind == VLFPacketKind && |fs| > 0 && |fs[0].names| > 0 ==>
      (fs[0].typ.Other? ==> r == Failure(InvalidFieldType)) &&
      (r.Failure? && !fs[0].typ.Other? ==> r.error == InvalidVLFPacket)
    ensures (kind == StructKind || kind == GenericPacketKind) ==> r == NamedFields(fs)
  {
    match kind
    case SimplePacketKind => Success([])
    case VLFPacketKind =>
      if |fs| == 0 then Failure(InvalidVLFPacket)
      else if |fs[0].names| == 0 then Failure(IndexPanic)
      else (
        match NewFieldLayout(fs[0])
        case Failure(e) => Failure(e)
        case Success(f) => if f.kind != SliceFieldKind then Failure(InvalidVLFPacket) else Success([f]))
    case _ => NamedFields(fs)
  }

  /** PacketLayout.parseField: apply the rule of the layout's kind to the declared fields. */
  method ParseField(kind: PacketKind, fs: seq<Field>) returns (fields: seq<FieldLayout>, err: Option<ParseError>)
    ensures err.None? ==> BuildFields(kind, fs) == Success(fields)
    ensures err.Some? ==> BuildFields(kind, fs) == Failure(err.value)
  {
    fields, err := [], None;
    if kind == SimplePacketKind {
      assert BuildFields(kind, fs) == Success(fields);
      return;
    } else if kind == VLFPacketKind {
      if |fs| == 0 {
        err := Some(InvalidVLFPacket);
        return;
      }
      if |fs[0].names| == 0 {
        err := Some(IndexPanic);
        return;
      }
      var r := NewFieldLayout(fs[0]);
      if r.Failure? {
        err := Some(r.error);
        return;
      }
      if r.value.kind != SliceFieldKind {
        err := Some(InvalidVLFPacket);
        return;
      }
      fields := fields + [r.value];
      assert BuildFields(kind, fs) == Success([r.value]);
      assert fields == [r.value];
    } else {
      ghost var rs := FieldResults(fs);
      assert BuildFields(kind, fs) == Gather(rs);
      var index := 0;
      while index < |fs|
        invariant 0 <= index <= |fs|
        invariant Gather(rs[..index]) == Success(fields)
      {
        var field := fs[index];
        assert rs[..index + 1][..index] == rs[..index];
        assert rs[index] == NamedField(field);
        if |field.names| == 0 {
          err := Some(AnonymousField);
          GatherFailureSticks(rs, index + 1);
          return;
        }
        var r := NewFieldLayout(field);
        if r.Failure? {
          err := Some(r.error);
          GatherFailureSticks(rs, index + 1);
          return;
        }
        fields := fields + [r.value];
        index := index + 1;
      }
      assert rs[..index] == rs;
      assert BuildFields(kind, fs) == Success(fields);
    }
  }

  // ---------------------------------------------------------------------------
  // Parse
  // ---------------------------------------------------------------------------

  /** The layout one declaration yields, or the error that stops Parse. */
  function ParseDecl(d: Decl): Result<PacketLayout, ParseError>
  {
    var a := Annotate(d.doc);
    if a.failed then Failure(BadPacketId)
    else
      match BuildFields(a.kind, d.fields)
      case Failure(e) => Failure(e)
      case Success(fields) => Success(PacketLayout(d.name, a.kind, a.id, a.idName, fields))
  }

  /** The layouts Parse appends and the error it returns. */
  datatype ParseOutcome = ParseOutcome(packets: seq<PacketLayout>, err: Option<ParseError>)

  /**
   * Parse's loop over the results of the declarations: append each layout
   * and stop at the first failure.
   */
  function Collect(rs: seq<Result<PacketLayout, ParseError>>): ParseOutcome
  {
    if rs == [] then ParseOutcome([], None)
    else
      var before := Collect(rs[..|rs| - 1]);
      if before.err.Some? then before
      else
        match rs[|rs| - 1]
        case Failure(e) => ParseOutcome(before.packets, Some(e))
        case Success(p) => ParseOutcome(before.packets + [p], None)
  }

  /** The result of each declaration on its own. */
  function Results(decls: seq<Decl>): (rs: seq<Result<PacketLayout, ParseError>>)
    ensures |rs| == |decls|
  {
    seq(|decls|, k requires 0 <= k < |decls| => ParseDecl(decls[k]))
  }

  function ParseAll(decls: seq<Decl>): ParseOutcome
  {
    Collect(Results(decls))
  }

  lemma {:induction false} CollectFailureSticks(rs: seq<Result<PacketLayout, ParseError>>, j: nat)
    requires j <= |rs| && Collect(rs[..j]).err.Some?
    ensures Collect(rs) == Collect(rs[..j])
  {
    if j < |rs| {
      var init := rs[..|rs| - 1];
      assert init[..j] == rs[..j];
      CollectFailureSticks(init, j);
    } else {
      assert rs[..j] == rs;
    }
  }

  /** One more result: Collect either keeps its error or handles the new one. */
  lemma CollectStep(rs: seq<Result<PacketLayout, ParseError>>, i: nat)
    requires i < |rs| && Collect(rs[..i]).err.None?
    ensures var before := Collect(rs[..i]);
      Collect(rs[..i + 1]) ==
        match rs[i]
        case Failure(e) => ParseOutcome(before.packets, Some(e))
        case Success(p) => ParseOutcome(before.packets + [p], None)
  {
    assert rs[..i + 1][..i] == rs[..i];
  }

  /**
   * Collect keeps order and stops at the first failure: without one there is
   * one layout per result; with one, the layouts are those before the first
   * failing result, and the error is that result's.
   */
  lemma {:induction false} CollectShape(rs: seq<Result<PacketLayout, ParseError>>)
    ensures var out := Collect(rs);
      && |out.packets| <= |rs|
      && (forall k :: 0 <= k < |out.packets| ==> rs[k] == Success(out.packets[k]))
      && (out.err.None? <==> |out.packets| == |rs|)
      && (out.err.Some? ==> rs[|out.packets|] == Failure(out.err.value))
  {
    if rs != [] {
      var init := rs[..|rs| - 1];
      CollectShape(init);
      var before := Collect(init);
      if before.err.None? && rs[|rs| - 1].Success? {
        var out := before.packets + [rs[|rs| - 1].value];
        assert forall k :: 0 <= k < |out| ==> rs[k] == Success(out[k]) by {
          forall k | 0 <= k < |out|
            ensures rs[k] == Success(out[k])
          {
            if k < |before.packets| {
              assert out[k] == before.packets[k] && init[k] == rs[k];
            }
          }
        }
      }
    }
  }

  /**
   * Parse keeps declaration order and stops at the first error: without an
   * error there is one layout per declaration, each the one ParseDecl gives;
   * with an error, the layouts are those of the declarations before the first
   * failing one, and the error is that declaration's.
   */
  lemma ParseAllShape(decls: seq<Decl>)
    ensures var out := ParseAll(decls);
      && |out.packets| <= |decls|
      && (forall k :: 0 <= k < |out.packets| ==> ParseDecl(decls[k]) == Success(out.packets[k]))
      && (out.err.None? <==> |out.packets| == |decls|)
      && (out.err.Some? ==> ParseDecl(decls[|out.packets|]) == Failure(out.err.value))
  {
    CollectShape(Results(decls));
  }

  /** The structural invariants every parsed layout satisfies, per kind. */
  lemma ParsedLayoutRules(d: Decl)
    requires ParseDecl(d).Success?
    ensures var p := ParseDecl(d).value;
      && p.name == d.name
      && p.kind == DocKind(d.doc)
      && (p.kind == SimplePacketKind ==> p.fields == [])
      && (p.kind == VLFPacketKind ==> |p.fields| == 1 && p.fields[0].kind == SliceFieldKind)
      && ((p.kind == StructKind || p.kind == GenericPacketKind) ==>
            |p.fields| == |d.fields| &&
            forall k :: 0 <= k < |d.fields| ==>
              |d.fields[k].names| > 0 && p.fields[k].name == d.fields[k].names[0])
  {
    NamedFieldsShape(d.fields);
  }

  /**
   * The body of parsePacketType's loop for one comment line: a recognised tag
   * sets the kind, a "name,literal" part after the first ':' sets the id name
   * and id, and a literal ParseInt rejects sets the error.
   */
  method ScanLine(line: string, kind0: PacketKind, idName0: string, id0: int, err0: Option<ParseError>)
    returns (kind: PacketKind, idName: string, id: int, err: Option<ParseError>)
    requires err0.Some? ==> err0.value == BadPacketId
    ensures Annotation(kind, idName, id, err.Some?) == StepAnnotation(Annotation(kind0, idName0, id0, err0.Some?), line)
    ensures err.Some? ==> err.value == BadPacketId
  {
    kind, idName, id, err := kind0, idName0, id0, err0;
    var text := ToLower(line);
    text := RemoveAll(text, '/');
    text := RemoveAll(text, ' ');
    var typeComment := Split(text, ':');
    assert typeComment == Split(Normalize(line), ':');
    if |typeComment| < 2 {
      return;
    }
    if typeComment[0] == "@simplepacket" {
      kind := SimplePacketKind;
    } else if typeComment[0] == "@packet" {
      kind := GenericPacketKind;
    } else if typeComment[0] == "@vlfpacket" {
      kind := VLFPacketKind;
    }
    var params := Split(typeComment[1], ',');
    if |params| < 2 {
      return;
    }
    idName := params[0];
    var value := ParseInt(params[1]);
    if value.Some? {
      id, err := value.value, None;
    } else {
      id, err := 0, Some(BadPacketId);
    }
  }

  /** The parser: the declarations of one source file and the layouts collected so far. */
  class ProtoParser {
    const decls: seq<Decl>
    var packets: seq<PacketLayout>

    constructor (decls: seq<Decl>)
      ensures this.decls == decls && packets == []
    {
      this.decls := decls;
      packets := [];
    }

    /** parsePacketType: scan the doc lines; every qualifying line overwrites what came before. */
    method ParsePacketType(doc: seq<string>) returns (kind: PacketKind, idName: string, id: int, err: Option<ParseError>)
      ensures kind == Annotate(doc).kind && idName == Annotate(doc).idName
      ensures err.Some? <==> Annotate(doc).failed
      ensures err.Some? ==> err.value == BadPacketId
      ensures err.None? ==> id == Annotate(doc).id
    {
      kind, idName, id, err := StructKind, "", 0, None;
      var i := 0;
      while i < |doc|
        invariant 0 <= i <= |doc|
        invariant Annotate(doc[..i]) == Annotation(kind, idName, id, err.Some?)
        invariant err.Some? ==> err.value == BadPacketId
      {
        assert doc[..i + 1] == doc[..i] + [doc[i]];
        AnnotateStep(doc[..i], doc[i]);
        kind, idName, id, err := ScanLine(doc[i], kind, idName, id, err);
        i := i + 1;
      }
      assert doc[..i] == doc;
    }

    /** The body of Parse's loop for one declaration: its annotation, then its fields. */
    method ParseDeclaration(decl: Decl) returns (layout: PacketLayout, err: Option<ParseError>)
      ensures err.None? ==> ParseDecl(decl) == Success(layout)
      ensures err.Some? ==> ParseDecl(decl) == Failure(err.value)
    {
      var kind, idName, id, e := ParsePacketType(decl.doc);
      layout := PacketLayout(decl.name, kind, id, idName, []);
      if e.Some? {
        return layout, e;
      }
      var fields, fe := ParseField(kind, decl.fields);
      if fe.Some? {
        return layout, fe;
      }
      return PacketLayout(decl.name, kind, id, idName, fields), None;
    }

    /** Parse: one layout per declaration, appended in order; the first error ends the loop. */
    method Parse() returns (err: Option<ParseError>)
        modifies this
      ensures packets == old(packets) + ParseAll(decls).packets
      ensures err == ParseAll(decls).err
    {
      err := None;
      ghost var rs := Results(decls);
      var i := 0;
      while i < |decls|
        invariant 0 <= i <= |decls|
        invariant packets == old(packets) + Collect(rs[..i]).packets
        invariant Collect(rs[..i]).err.None?
      {
        CollectStep(rs, i);
        var layout, e := ParseDeclaration(decls[i]);
        assert rs[i] == ParseDecl(decls[i]);
        if e.Some? {
          err := e;
          CollectFailureSticks(rs, i + 1);
          return;
        }
        packets := packets + [layout];
        i := i + 1;
      }
      assert rs[..i] == rs;
    }
  }
}
