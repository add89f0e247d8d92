/**
 * The generator proper (src/generator/generator.go): the packet id constant
 * table, the struct declarations, the dispatch cases of the packet factory,
 * and the Generate driver that stops at the first error. The emitted source
 * text and its formatting are not modelled; each generator is modelled by
 * the table or declaration it emits.
 */
module Generator {
  import opened Wrappers
  import opened Text
  import opened Layout
  import opened Wire

  // ---------------------------------------------------------------------------
  // The id constant table (addPacketID)
  // ---------------------------------------------------------------------------

  /** One `NAME = 0x%08x` line of the const block. */
  datatype IdConst = IdConst(name: string, value: int)

  function ConstOf(p: PacketLayout): IdConst
  {
    IdConst(ToUpper(p.idName), p.id)
  }

  /** The constants, one per non-Struct layout, in layout order. */
  function IdTable(packets: seq<PacketLayout>): seq<IdConst>
  {
    if packets == [] then []
    else
      var last := packets[|packets| - 1];
      IdTable(packets[..|packets| - 1]) + (if last.kind != StructKind then [ConstOf(last)] else [])
  }

  /** addPacketID: the loop that writes one constant per non-Struct layout. */
  method AddPacketID(packets: seq<PacketLayout>) returns (consts: seq<IdConst>)
    ensures consts == IdTable(packets)
  {
    consts := [];
    for i := 0 to |packets|
      invariant consts == IdTable(packets[..i])
    {
      assert packets[..i + 1][..i] == packets[..i];
      var p := packets[i];
      if p.kind != StructKind {
        consts := consts + [IdConst(ToUpper(p.idName), p.id)];
      }
    }
    assert packets[..|packets|] == packets;
  }

  /** The packets the tables are about: the non-Struct layouts, in order. */
  function PacketsOnly(packets: seq<PacketLayout>): seq<nat>
  {
    if packets == [] then []
    else
      var n := |packets| - 1;
      PacketsOnly(packets[..n]) + (if packets[n].kind != StructKind then [n] else [])
  }

  /** PacketsOnly lists indices of non-Struct layouts only, in increasing order. */
  lemma {:induction false} PacketsOnlySound(packets: seq<PacketLayout>)
    ensures forall k :: 0 <= k < |PacketsOnly(packets)| ==>
      PacketsOnly(packets)[k] < |packets| && packets[PacketsOnly(packets)[k]].kind != StructKind
    ensures forall k, m :: 0 <= k < m < |PacketsOnly(packets)| ==> PacketsOnly(packets)[k] < PacketsOnly(packets)[m]
  {
    if packets != [] {
      var n := |packets| - 1;
      var init := packets[..n];
      PacketsOnlySound(init);
      assert forall i :: 0 <= i < n ==> init[i] == packets[i];
    }
  }

  /** Every non-Struct layout is listed by PacketsOnly. */
  lemma {:induction false} PacketsOnlyComplete(packets: seq<PacketLayout>, i: nat)
    requires i < |packets| && packets[i].kind != StructKind
    ensures i in PacketsOnly(packets)
  {
    var n := |packets| - 1;
    var init := packets[..n];
    if i < n {
      assert init[i] == packets[i];
      PacketsOnlyComplete(init, i);
    }
  }

  /**
   * The constant table holds exactly the non-Struct layouts in layout order,
   * each named by its upper-cased id name and valued by its id.
   */
  lemma {:induction false} IdTableExact(packets: seq<PacketLayout>)
    ensures |IdTable(packets)| == |PacketsOnly(packets)|
    ensures forall k :: 0 <= k < |IdTable(packets)| ==>
      PacketsOnly(packets)[k] < |packets| &&
      IdTable(packets)[k] == ConstOf(packets[PacketsOnly(packets)[k]])
  {
    if packets != [] {
      var n := |packets| - 1;
      var init := packets[..n];
      IdTableExact(init);
      PacketsOnlySound(init);
      assert forall i :: 0 <= i < n ==> init[i] == packets[i];
    }
  }

  // ---------------------------------------------------------------------------
  // The factory's dispatch cases (generatePacketFactory)
  // ---------------------------------------------------------------------------

  /** One `case NAME: newPacket = &T{PacketHeader: header}` of the factory switch. */
  datatype Case = Case(constName: string, value: int, index: nat)

  function DispatchCases(packets: seq<PacketLayout>): seq<Case>
  {
    if packets == [] then []
    else
      var n := |packets| - 1;
      var p := packets[n];
      DispatchCases(packets[..n]) + (if p.kind != StructKind then [Case(ToUpper(p.idName), p.id, n)] else [])
  }

  /** generatePacketFactory: the loop that writes one case per non-Struct layout. */
  method GeneratePacketFactory(packets: seq<PacketLayout>) returns (cases: seq<Case>)
    ensures cases == DispatchCases(packets)
  {
    cases := [];
    for i := 0 to |packets|
      invariant cases == DispatchCases(packets[..i])
    {
      assert packets[..i + 1][..i] == packets[..i];
      var p := packets[i];
      if p.kind == StructKind {
        continue;
      }
      cases := cases + [Case(ToUpper(p.idName), p.id, i)];
    }
    assert packets[..|packets|] == packets;
  }

  /**
   * The cases and the constants line up: case k switches on constant k of
   * the table, and creates the layout PacketsOnly names.
   */
  lemma {:induction false} CasesMatchConstants(packets: seq<PacketLayout>)
    ensures |DispatchCases(packets)| == |IdTable(packets)| == |PacketsOnly(packets)|
    ensures forall k :: 0 <= k < |DispatchCases(packets)| ==>
      && DispatchCases(packets)[k].index == PacketsOnly(packets)[k]
      && DispatchCases(packets)[k].constName == IdTable(packets)[k].name
      && DispatchCases(packets)[k].value == IdTable(packets)[k].value
  {
    if packets != [] {
      var n := |packets| - 1;
      CasesMatchConstants(packets[..n]);
    }
    IdTableExact(packets);
  }

  /** The Go switch: the first case whose constant equals the packet type. */
  function Dispatch(cases: seq<Case>, packetType: int): (r: Option<nat>)
    ensures r.Some? ==> exists k :: 0 <= k < |cases| && cases[k].value == packetType && cases[k].index == r.value
    ensures r.None? ==> forall k :: 0 <= k < |cases| ==> cases[k].value != packetType
  {
    if cases == [] then None
    else if cases[0].value == packetType then Some(cases[0].index)
    else Dispatch(cases[1..], packetType)
  }

  /** A dispatched type is a non-Struct layout whose id is the packet type. */
  lemma DispatchSound(packets: seq<PacketLayout>, packetType: int)
    requires Dispatch(DispatchCases(packets), packetType).Some?
    ensures var i := Dispatch(DispatchCases(packets), packetType).value;
      i < |packets| && packets[i].kind != StructKind && packets[i].id == packetType
  {
    CasesMatchConstants(packets);
    PacketsOnlySound(packets);
    IdTableExact(packets);
  }

  /** Packet ids that no other non-Struct layout repeats (Go rejects duplicate switch cases). */
  predicate DistinctIds(packets: seq<PacketLayout>)
  {
    forall i, j :: 0 <= i < j < |packets| && packets[i].kind != StructKind && packets[j].kind != StructKind
      ==> packets[i].id != packets[j].id
  }

  /** Every packet is reachable: its id dispatches to it, and an id no packet has is unknown. */
  lemma DispatchComplete(packets: seq<PacketLayout>, i: nat)
    requires i < |packets| && packets[i].kind != StructKind && DistinctIds(packets)
    ensures Dispatch(DispatchCases(packets), packets[i].id) == Some(i)
  {
    var cases := DispatchCases(packets);
    CasesMatchConstants(packets);
    PacketsOnlySound(packets);
    PacketsOnlyComplete(packets, i);
    IdTableExact(packets);
    var k :| 0 <= k < |PacketsOnly(packets)| && PacketsOnly(packets)[k] == i;
    assert cases[k].value == packets[i].id;
    DispatchFirst(cases, packets[i].id, k);
    var r := Dispatch(cases, packets[i].id).value;
    var m :| 0 <= m < |cases| && cases[m].value == packets[i].id && cases[m].index == r;
    assert packets[r].id == packets[i].id && packets[r].kind != StructKind;
  }

  lemma {:induction false} DispatchFirst(cases: seq<Case>, packetType: int, k: nat)
    requires k < |cases| && cases[k].value == packetType
    ensures Dispatch(cases, packetType).Some?
  {
    if cases[0].value != packetType {
      DispatchFirst(cases[1..], packetType, k - 1);
    }
  }

  lemma DispatchUnknown(packets: seq<PacketLayout>, packetType: int)
    requires forall i :: 0 <= i < |packets| && packets[i].kind != StructKind ==> packets[i].id != packetType
    ensures Dispatch(DispatchCases(packets), packetType).None?
  {
    if Dispatch(DispatchCases(packets), packetType).Some? {
      DispatchSound(packets, packetType);
    }
  }

  // ---------------------------------------------------------------------------
  // Struct declarations (generateStructData, getArrayTypeLength)
  // ---------------------------------------------------------------------------

  /** The Go type a field is declared with: `T`, `[]T` or `[N]T`, T the element name. */
  datatype GoType = Named(name: string) | SliceOf(elem: string) | ArrayOf(bound: int, elem: string)

  datatype GoField = GoField(name: string, typ: GoType)

  /** `type Name struct { PacketHeader (packets only); fields }`. */
  datatype TypeDecl = TypeDecl(name: string, embedsHeader: bool, fields: seq<GoField>)

  datatype GenError = ParseFailed(e: ParseError) | InvalidField

  function DeclaredField(f: FieldLayout): Result<GoField, GenError>
  {
    if f.kind == ArrayFieldKind then
      match GetArrayTypeLength(f.typ)
      case None => Failure(InvalidField)
      case Some(n) => Success(GoField(f.name, ArrayOf(n, f.fieldType)))
    else if f.kind == SliceFieldKind then Success(GoField(f.name, SliceOf(f.fieldType)))
    else Success(GoField(f.name, Named(f.fieldType)))
  }

  function DeclaredFields(fs: seq<FieldLayout>): (r: Result<seq<GoField>, GenError>)
    ensures r.Failure? ==> r.error == InvalidField
  {
    if fs == [] then Success([])
    else
      match DeclaredFields(fs[..|fs| - 1])
      case Failure(e) => Failure(e)
      case Success(done) =>
        match DeclaredField(fs[|fs| - 1])
        case Failure(e) => Failure(e)
        case Success(g) => Success(done + [g])
  }

  /** generateStructData: `type Name struct {`, the embedded PacketHeader for packet kinds, then the fields. */
  function StructData(p: PacketLayout): (r: Result<TypeDecl, GenError>)
    ensures r.Success? <==> DeclaredFields(p.fields).Success?
    ensures r.Success? ==> r.value.name == p.name && r.value.embedsHeader == (p.kind != StructKind)
    ensures r.Success? ==> r.value.fields == DeclaredFields(p.fields).value
    ensures r.Failure? ==> r.error == InvalidField
  {
    match DeclaredFields(p.fields)
    case Failure(e) => Failure(e)
    case Success(gs) => Success(TypeDecl(p.name, p.kind != StructKind, gs))
  }

  lemma {:induction false} DeclaredFieldsFailureSticks(fs: seq<FieldLayout>, j: nat)
    requires j <= |fs| && DeclaredFields(fs[..j]).Failure?
    ensures DeclaredFields(fs) == DeclaredFields(fs[..j])
  {
    if j < |fs| {
      var init := fs[..|fs| - 1];
      assert init[..j] == fs[..j];
      DeclaredFieldsFailureSticks(init, j);
    } else {
      assert fs[..j] == fs;
    }
  }

  /**
   * The fields of a declaration are emitted exactly when every array field's
   * bound is a literal Atoi accepts; then each field keeps its name and order
   * and is declared `[N]T` (N that bound), `[]T` or `T`, T the type name the
   * classifier found. (StructData adds the embedded header for packets.)
   */
  lemma {:induction false} StructDataExact(fs: seq<FieldLayout>)
    ensures DeclaredFields(fs).Success? <==>
      forall k :: 0 <= k < |fs| && fs[k].kind == ArrayFieldKind ==> GetArrayTypeLength(fs[k].typ).Some?
    ensures DeclaredFields(fs).Success? ==>
      |DeclaredFields(fs).value| == |fs| &&
      forall k :: 0 <= k < |fs| ==>
        DeclaredFields(fs).value[k].name == fs[k].name &&
        (fs[k].kind == ArrayFieldKind ==>
           DeclaredFields(fs).value[k].typ == ArrayOf(GetArrayTypeLength(fs[k].typ).value, fs[k].fieldType)) &&
        (fs[k].kind == SliceFieldKind ==> DeclaredFields(fs).value[k].typ == SliceOf(fs[k].fieldType)) &&
        (fs[k].kind != ArrayFieldKind && fs[k].kind != SliceFieldKind ==>
           DeclaredFields(fs).value[k].typ == Named(fs[k].fieldType))
  {
    if fs != [] {
      var init := fs[..|fs| - 1];
      StructDataExact(init);
      assert forall k :: 0 <= k < |init| ==> init[k] == fs[k];
    }
  }

  /** generateStructData: the field loop; the first bad array bound aborts it. */
  method GenerateStructData(p: PacketLayout) returns (decl: TypeDecl, err: Option<GenError>)
    ensures err.None? ==> StructData(p) == Success(decl)
    ensures err.Some? ==> StructData(p) == Failure(err.value)
  {
    var gs: seq<GoField> := [];
    decl := TypeDecl(p.name, p.kind != StructKind, []);
    err := None;
    for i := 0 to |p.fields|
      invariant DeclaredFields(p.fields[..i]) == Success(gs)
    {
      var f := p.fields[i];
      assert p.fields[..i + 1][..i] == p.fields[..i];
      if f.kind == ArrayFieldKind {
        var index := GetArrayTypeLength(f.typ);
        if index.None? {
          err := Some(InvalidField);
          DeclaredFieldsFailureSticks(p.fields, i + 1);
          return;
        }
        gs := gs + [GoField(f.name, ArrayOf(index.value, f.fieldType))];
      } else if f.kind == SliceFieldKind {
        gs := gs + [GoField(f.name, SliceOf(f.fieldType))];
      } else {
        gs := gs + [GoField(f.name, Named(f.fieldType))];
      }
    }
    assert p.fields[..|p.fields|] == p.fields;
    decl := TypeDecl(p.name, p.kind != StructKind, gs);
  }

  // ---------------------------------------------------------------------------
  // Generate
  // ---------------------------------------------------------------------------

  /** What Generate emits, as tables: the constants, one declaration per layout, the factory cases. */
  datatype Program = Program(layouts: seq<PacketLayout>, consts: seq<IdConst>, types: seq<TypeDecl>, cases: seq<Case>)

  /** The declarations of all layouts, in order, or the first layout's error. */
  function AllStructData(packets: seq<PacketLayout>): Result<seq<TypeDecl>, GenError>
  {
    if packets == [] then Success([])
    else
      match AllStructData(packets[..|packets| - 1])
      case Failure(e) => Failure(e)
      case Success(done) =>
        match StructData(packets[|packets| - 1])
        case Failure(e) => Failure(e)
        case Success(t) => Success(done + [t])
  }

  lemma {:induction false} AllStructDataFailureSticks(packets: seq<PacketLayout>, j: nat)
    requires j <= |packets| && AllStructData(packets[..j]).Failure?
    ensures AllStructData(packets) == AllStructData(packets[..j])
  {
    if j < |packets| {
      var init := packets[..|packets| - 1];
      assert init[..j] == packets[..j];
      AllStructDataFailureSticks(init, j);
    } else {
      assert packets[..j] == packets;
    }
  }

  /** The whole generation run: parse, then declare every layout; any error means no output. */
  function GenerateSpec(decls: seq<Decl>): Result<Program, GenError>
  {
    var parsed := ParseAll(decls);
    if parsed.err.Some? then Failure(ParseFailed(parsed.err.value))
    else
      match AllStructData(parsed.packets)
      case Failure(e) => Failure(e)
      case Success(types) =>
        Success(Program(parsed.packets, IdTable(parsed.packets), types, DispatchCases(parsed.packets)))
  }

  /**
   * Up to format.Source's check of the emitted text, which is not modelled,
   * Generate succeeds exactly when every declaration parses and every
   * layout's array bounds are literals Atoi accepts; its program then holds
   * one declaration per declared type, in order, and the tables of the
   * non-Struct ones.
   */
  lemma GenerateExact(decls: seq<Decl>)
    ensures GenerateSpec(decls).Success? <==>
      && ParseAll(decls).err.None?
      && forall i, k :: 0 <= i < |ParseAll(decls).packets| && 0 <= k < |ParseAll(decls).packets[i].fields| &&
           ParseAll(decls).packets[i].fields[k].kind == ArrayFieldKind
           ==> GetArrayTypeLength(ParseAll(decls).packets[i].fields[k].typ).Some?
    ensures GenerateSpec(decls).Success? ==>
      && |GenerateSpec(decls).value.layouts| == |decls|
      && |GenerateSpec(decls).value.types| == |decls|
      && forall i :: 0 <= i < |decls| ==> GenerateSpec(decls).value.types[i].name == decls[i].name
  {
    ParseAllShape(decls);
    AllStructDataExact(ParseAll(decls).packets);
  }

  lemma {:induction false} AllStructDataExact(packets: seq<PacketLayout>)
    ensures AllStructData(packets).Success? <==>
      forall i, k :: 0 <= i < |packets| && 0 <= k < |packets[i].fields| && packets[i].fields[k].kind == ArrayFieldKind
        ==> GetArrayTypeLength(packets[i].fields[k].typ).Some?
    ensures AllStructData(packets).Success? ==>
      |AllStructData(packets).value| == |packets| &&
      forall i :: 0 <= i < |packets| ==> AllStructData(packets).value[i].name == packets[i].name
  {
    if packets != [] {
      var init := packets[..|packets| - 1];
      AllStructDataExact(init);
      StructDataExact(packets[|packets| - 1].fields);
      assert forall i :: 0 <= i < |init| ==> init[i] == packets[i];
    }
  }

  /**
   * The per-layout loop of Generate: the declaration of each layout in turn,
   * returning at the first error.
   */
  method GenerateAllStructData(packets: seq<PacketLayout>) returns (types: seq<TypeDecl>, err: Option<GenError>)
    ensures err.None? ==> AllStructData(packets) == Success(types)
    ensures err.Some? ==> AllStructData(packets) == Failure(err.value)
  {
    types := [];
    for i := 0 to |packets|
      invariant AllStructData(packets[..i]) == Success(types)
    {
      assert packets[..i + 1][..i] == packets[..i];
      var decl, e := GenerateStructData(packets[i]);
      if e.Some? {
        AllStructDataFailureSticks(packets, i + 1);
        return types, e;
      }
      types := types + [decl];
    }
    assert packets[..|packets|] == packets;
    err := None;
  }

  /**
   * Generate: parse; write the constants; generate each layout in turn,
   * returning at the first error; then the factory. Every per-layout
   * generator starts with generateStructData, the only one of them that can
   * fail (the array bound check inside generatePacketLengthCode repeats the
   * one generateStructData has already passed).
   */
  method Generate(decls: seq<Decl>) returns (r: Result<Program, GenError>)
    ensures r == GenerateSpec(decls)
  {
    var parser := new ProtoParser(decls);
    var err := parser.Parse();
    if err.Some? {
      return Failure(ParseFailed(err.value));
    }
    var packets := parser.packets;
    ghost var parsed := ParseAll(decls);
    assert [] + parsed.packets == parsed.packets;
    assert packets == parsed.packets && parsed.err.None?;
    var consts := AddPacketID(packets);
    var types, e := GenerateAllStructData(packets);
    if e.Some? {
      return Failure(e.value);
    }
    var cases := GeneratePacketFactory(packets);
    r := Success(Program(packets, consts, types, cases));
  }
}
