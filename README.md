# goproto in Dafny

goproto reads a Go source file of struct declarations that their doc comments
annotate as packets. It emits Go code that gives each declaration a binary wire
format: `Length()`, `AdjustLength()`, `Read(stream)` and `Write(stream)`, an id
constant table, and a `PacketFactory` that reads a header and rebuilds the
packet it announces. This project models the two parts of that core.

- **The classifier and layout builder** (`src/generator/parser.go`), module
  `Layout`:
  - A declaration is a name, its comment lines and its fields. Each field has
    its names and a small type expression: an identifier, an inline struct, an
    array or slice layer over an element type, or anything else.
  - `parsePacketType` becomes a comment-line classifier. It is a loop in
    `ProtoParser.ParsePacketType`, specified by the left fold `Annotate`.
  - The field classifier (`parseFieldKind`, `parseFieldType`,
    `parseNameByType`) becomes the functions `ParseFieldKind`, `KindOfName`,
    `ParseNameByType` and `NewFieldLayout`.
  - The per-kind field rules (`parseField`) become the method `ParseField`,
    specified by the function `BuildFields`.
  - The declaration loop (`Parse`) becomes the method `ProtoParser.Parse`,
    which appends to the parser's `packets`. It is specified by `ParseAll`.
- **The behaviour of the emitted code** (`src/generator/generator.go`),
  modules `Wire`, `WireProofs`, `Generator` and `Runtime`:
  - The generator builds Go text. The model states what that text computes.
  - In `Wire`, field values are a `Value` datatype. What each generated
    type's `Length()`, `Write()` and `Read()` compute are the functions
    `FieldLength`, `EncodeField` and `DecodeField` and their
    element/record/field-list relatives, over the list of layouts the file
    declared.
  - The 6×uint32 `PacketHeader` is `Header`, with `EncodeHeader` and
    `DecodeHeader`.
  - `addPacketID` and the factory's switch cases are the functions `IdTable`
    and `DispatchCases`, each built by a method with a loop.
  - In `Runtime`, the streams are classes: a read stream holds an `array` and
    a position, a write stream holds the bytes written so far. A generated
    type's value is an `Instance` object whose `Length`, `AdjustLength`,
    `Read` and `Write` are methods proved against the `Wire` functions.
  - `CreatePacket` is a method of `PacketFactory`. Its cacher is an oracle
    object.
- **Integer encoding is an assumption.** The stream's byte order is not part
  of the repository. `Bytes` fixes one: most significant byte first, with Go's
  two's-complement conversions for the signed kinds. Nothing proved depends on
  the choice except the concrete bytes.

Round trips are stated for the declarations the emitted code can serve:
- `Ordered`: every struct is declared after the structs it contains by value.
- `FieldConforms`: a value inhabits its field's Go type, and its lengths fit
  the uint32 prefix.

Where the emitted code does not compile for a construct, decoding that
construct yields the error `NoCode`.

Two facts about the code that its own comments do not lead one to expect:
- **The header's length.** `PacketHeader.Length()` is the constant 36
  (`src/generator/generator.go:83`), and a SimplePacket's `Length()` returns it
  (line 245). The header's `Write` emits six uint32 values, 24 bytes (lines
  110-131), and a SimplePacket's `Write` is exactly that (line 248). So every
  packet's `Length()` exceeds the bytes it writes by 12
  (`PacketLengthOvercounts`, `SimplePacketBehaviour`).
- **Slices of structs and strings.** `src/generator/doc.go:48` says `[]struct`
  and `[]string` are not supported, but the generator emits Length, Read and
  Write code for both (`src/generator/generator.go:360-363`, 406-417,
  536-544). The model covers them, and arrays of structs and strings too.

## Model

| member | source | states |
|---|---|---|
| Layout.LineTag | src/generator/parser.go:91-106 | A comment line can set only SimplePacket, GenericPacket or VLFPacket, never Struct; an unrecognised tag sets nothing |
| Layout.AnnotateStep | src/generator/parser.go:90-115 | Adding one comment line changes the result exactly as one more iteration of the comment loop would, so the whole loop is a left fold |
| Layout.DocKindStruct | src/generator/parser.go:85-110 | A declaration is StructKind if and only if none of its comment lines (there may be none) carries a recognised tag before its first ':' |
| Layout.LastTagWins | src/generator/parser.go:90-106 | The kind is the one set by the last tagged line; earlier lines are overwritten |
| Layout.LastIdWins | src/generator/parser.go:107-114 | The id name and id literal come from the last line whose second ':'-part holds a ','; earlier ones are overwritten |
| Layout.MarkersIgnored | src/generator/parser.go:91-93 | Prefixing a line with any mix of '/' and ' ' (a `//` comment marker) changes neither the tag nor the id it carries |
| Layout.CaseIgnored | src/generator/parser.go:91 | Tags are recognised regardless of letter case |
| Layout.WellFormedLine | src/generator/parser.go:94-111 | A normalised line `tag:name,literal` with one of the three tags yields that tag's kind (@simplepacket, @packet, @vlfpacket → SimplePacket, GenericPacket, VLFPacket) and exactly (name, literal) |
| Layout.ProtoParser.ParsePacketType | src/generator/parser.go:84-118 | The loop over comment lines returns the fold's kind and id name; it reports the bad-id error exactly when the last id literal fails `ParseInt(_, 0, 64)`, and otherwise returns that literal's value |
| Layout.ScanLine | src/generator/parser.go:91-114 | One loop iteration updates kind, id name, id and error exactly as the fold's step does |
| Text.ParseInt | src/generator/parser.go:113 | An accepted id literal is a signed 64-bit value |
| Text.ParseIntRejectsEmpty | src/generator/parser.go:113 | An empty literal or a bare sign is rejected |
| Text.ParseIntRejectsDigit | src/generator/parser.go:113 | A literal with any character after its prefix that is not a digit of the base the prefix selects (2, 8, 16, 8 for a leading zero, else 10) is rejected; `0x` alone is rejected |
| Text.ParseIntRejectsRange | src/generator/parser.go:113 | A well-formed literal whose signed value lies outside int64 is rejected |
| Text.ParseIntAccepts | src/generator/parser.go:113 | A literal whose digits all belong to its base is accepted exactly when its signed value lies in int64, and then yields that value; with the rejection lemmas this decides every literal |
| Text.ParseIntRejectionExamples | src/generator/parser.go:113 | `""`, `"-"`, `"12z"`, `"0x"`, `"0x1g"` and `"09"` set the bad-id error |
| Text.DigitsAccepted | src/generator/parser.go:113 | A run of digits has a value exactly when every character is a digit of the base |
| Text.ParseIntDecimal | src/generator/parser.go:113 | Every decimal numeral of a value in int64 range parses to that value |
| Text.ParseIntNegative | src/generator/parser.go:113 | A '-' followed by a decimal numeral, down to the int64 minimum, parses to the negative value |
| Text.ParseIntHex | src/generator/parser.go:113 | `0x` followed by hex digits parses to their value (base 0) |
| Text.ParseIntOctal | src/generator/parser.go:113 | A leading `0` followed by octal digits parses to their value (base 0) |
| Text.RemoveAllConcat | src/generator/parser.go:92-93 | Deleting every copy of a character distributes over concatenation |
| Text.LowerOfUpper | src/generator/parser.go:91 | Lower-casing discards any earlier upper-casing |
| Text.SplitJoin | src/generator/parser.go:94 | Splitting the join of separator-free parts returns those parts |
| Text.JoinSplit | src/generator/parser.go:94 | Joining the parts of a split gives back the string |
| Layout.KindOfNameCases | src/generator/parser.go:213-239 | An identifier is classified as a non-Struct kind exactly when it is one of the ten primitive names, as a fixed-width kind exactly when it is one of the nine that are not `string`, and never as Slice or Array |
| Layout.NewFieldLayout | src/generator/parser.go:185-246 | A named field gets a layout exactly when its type is an inline struct, an array/slice or an identifier; otherwise InvalidFieldType. The kind is Struct for an inline struct, the identifier's kind (KindOfName) for an identifier, and Slice or Array by whether the outer layer has a bound. The layout keeps the first name and the type; its type name is the innermost name and its element kind is that name's kind, never Slice or Array |
| Layout.ElementKindThroughLayers | src/generator/parser.go:204-293 | Through any number of array/slice layers the outermost layer decides Slice or Array, and the innermost identifier decides the element kind and type name (so `[][]uint32` is a Slice of Uint32) |
| Layout.InnermostName | src/generator/parser.go:279-293 | The type name of a nested array type is the name of its innermost identifier |
| Layout.NamedFieldsShape | src/generator/parser.go:167-179 | The Struct/Packet rule succeeds if and only if every field is named and has a classifiable type; it then holds, in order, each field's NewFieldLayout (so its kind, element kind and type name), under its first name |
| Layout.FirstRefusalWins | src/generator/parser.go:168-177 | The first anonymous or unclassifiable field decides the error; later fields are not looked at |
| Layout.BuildFields | src/generator/parser.go:150-183 | A SimplePacket has no fields. A VLFPacket succeeds if and only if it has a named first field of slice type, and then holds exactly that field's NewFieldLayout; an empty list is InvalidVLFPacket, an anonymous first field is IndexPanic (the source panics), an unclassifiable type is InvalidFieldType, any other type InvalidVLFPacket. Struct and Packet kinds take NamedFields |
| Layout.ParseField | src/generator/parser.go:150-183 | The method that appends field layouts returns the fields, or the error, that the per-kind rule gives |
| Layout.ParsedLayoutRules | src/generator/parser.go:150-183 | A parsed layout keeps the declaration's name and the kind its comments give; SimplePacket layouts have no fields, VLFPacket layouts one slice field, Struct/Packet layouts every field under its first name |
| Layout.CollectStep | src/generator/parser.go:69-80 | One more declaration either appends its layout or records its error and stops |
| Layout.CollectShape | src/generator/parser.go:69-81 | Parse's loop keeps a prefix of the results in order; it reports no error if and only if it kept them all, and otherwise reports the first failure's error |
| Layout.ParseAllShape | src/generator/parser.go:67-82 | The layouts are those of the leading declarations, in order; the error, if any, is that of the first declaration that fails, and nothing after it is parsed |
| Layout.ProtoParser.constructor | src/generator/parser.go:51-54 | A parser starts over its declarations with no layouts |
| Layout.ProtoParser.ParseDeclaration | src/generator/parser.go:70-78 | One iteration of Parse yields the declaration's layout, or the error that stops Parse |
| Layout.ProtoParser.Parse | src/generator/parser.go:67-82 | The parser's layouts grow by exactly the layouts Parse's specification keeps, and the returned error is the first failure's |
| Generator.AddPacketID | src/generator/generator.go:142-155 | The method that builds the const block returns the id table |
| Generator.PacketsOnlySound | src/generator/generator.go:142-155 | The table's entries come from non-Struct layouts, in increasing layout order |
| Generator.PacketsOnlyComplete | src/generator/generator.go:142-155 | Every non-Struct layout has an entry |
| Generator.IdTableExact | src/generator/generator.go:142-155 | Entry k is named with the upper-cased id name of the k-th non-Struct layout and has that layout's id as its value |
| Generator.GeneratePacketFactory | src/generator/generator.go:681-686 | The method that emits the switch returns the dispatch cases |
| Generator.CasesMatchConstants | src/generator/generator.go:681-686 | The switch has one case per id constant, in the same order, naming the same constant with the same value, for the same layout |
| Generator.Dispatch | src/generator/generator.go:679-692 | A switch on PacketType selects a case whose value matches, or reports that no case matches |
| Generator.DispatchSound | src/generator/generator.go:679-692 | A dispatched layout is a non-Struct layout whose id is the PacketType that was read |
| Generator.DispatchComplete | src/generator/generator.go:679-686 | When the ids are distinct, as a compiling switch requires, every non-Struct layout's id dispatches to that layout |
| Generator.DispatchUnknown | src/generator/generator.go:679-691 | A PacketType that is no non-Struct layout's id matches no case, which is the branch that returns ErrUnknownPacket |
| Generator.StructDataExact | src/generator/generator.go:189-201 | The fields are declared if and only if every array field's bound is a literal Atoi accepts; each field is then declared in order under its name, as `[N]T` for an array (N the bound Atoi read), `[]T` for a slice and `T` otherwise, T the type name the classifier found |
| Generator.StructData | src/generator/generator.go:184-204 | The declaration is `type Name struct` under the layout's name; it embeds PacketHeader exactly for packet kinds; it fails only with the bad-bound error |
| Generator.GenerateStructData | src/generator/generator.go:184-204 | The loop over fields returns the type declaration, or the bound error, that the specification gives |
| Generator.AllStructDataExact | src/generator/generator.go:31-48 | All types are generated if and only if every array bound of every layout is accepted; their names are the layouts' names, in order |
| Generator.GenerateAllStructData | src/generator/generator.go:31-48 | The per-packet loop returns every type declaration, or the first error |
| Generator.GenerateExact | src/generator/generator.go:11-54 | Up to `format.Source` (see Left out), generation succeeds if and only if parsing succeeds and every array bound is accepted; it then has one layout and one type per declaration, named as declared |
| Generator.Generate | src/generator/generator.go:11-56 | Generate returns its specification's result: on the first parse or per-packet error it returns that error and no output |
| Text.AtoiDecimal | src/generator/generator.go:174-182 | A decimal array bound is read as its value |
| Text.AtoiRejectsHex | src/generator/generator.go:177 | A hex array bound (`[0x10]T`) is rejected |
| Wire.FindName | src/generator/generator.go:195-199 | A type name resolves to the first layout declared with that name, and fails only when no layout has it |
| Wire.ReadUint | src/generator/generator.go:482-514 | A w-byte read fails with EOF exactly when fewer than w bytes remain, and otherwise consumes exactly w bytes |
| Wire.ReadBuff | src/generator/generator.go:399-477 | ReadBuff(n) fails with EOF exactly when fewer than n bytes remain, and otherwise returns exactly the next n bytes |
| Wire.DecodeElems | src/generator/generator.go:404-452 | The per-element read loop returns exactly n elements and leaves a suffix of the input |
| Wire.DecodeFields | src/generator/generator.go:456-520 | Read returns one value per field, in order, and leaves a suffix of the input |
| Wire.DecodeHeader | src/generator/generator.go:87-108 | The header read fails with EOF exactly when fewer than 24 bytes remain, and otherwise consumes exactly 24 bytes |
| Wire.EncodeHeader | src/generator/generator.go:110-131 | The header write emits exactly 24 bytes |
| Wire.AdjustedHeader | src/generator/generator.go:337-344 | AdjustLength sets Len to uint32(Length()) for packet kinds and leaves every other header field, and the whole header of a Struct kind, unchanged |
| WireProofs.FieldSize | src/generator/generator.go:346-647 | Length() of a field equals the number of bytes its Write emits (scalars by width, strings 4+len, slices 4+elements, arrays without prefix, structs their own length) |
| WireProofs.FieldsSize | src/generator/generator.go:351-385 | The sum of the field lengths equals the number of bytes the fields' Write emits |
| WireProofs.ScalarElemsSize | src/generator/generator.go:365-379 | A slice or array of scalars writes count × width bytes for its elements |
| WireProofs.PacketLengthOvercounts | src/generator/generator.go:83-131 | For every packet kind, Length() is the number of bytes Write emits plus 12, because the header reports 36 but writes 24 |
| WireProofs.StructLengthExact | src/generator/generator.go:346-647 | For Struct kinds, Length() is exactly the number of bytes Write emits |
| WireProofs.ScalarRoundTrip | src/generator/generator.go:482-625 | Writing an in-range scalar, including a signed one through its unsigned conversion, and reading it back gives the value and leaves what follows |
| WireProofs.StringRoundTrip | src/generator/generator.go:472-605 | Reading a written string (uint32 length, raw bytes) gives the string and leaves what follows |
| WireProofs.RawBytes | src/generator/generator.go:398-532 | A slice of byte or uint8 written element by element is exactly the raw buffer whose bytes, converted back, are the elements |
| WireProofs.FieldRoundTrip | src/generator/generator.go:391-647 | Read of what Write emitted for a conforming field returns that value and consumes exactly those bytes |
| WireProofs.ElemsRoundTrip | src/generator/generator.go:404-578 | The element loops invert each other: n written elements are read back as the same n elements |
| WireProofs.RecordRoundTrip | src/generator/generator.go:462-591 | A nested struct written by its Write is read back by its Read |
| WireProofs.FieldsRoundTrip | src/generator/generator.go:456-644 | Reading a type's fields from what their Write emitted gives back all of them, in declaration order |
| WireProofs.HeaderRoundTrip | src/generator/generator.go:87-131 | Reading a written header gives back all six fields in the order ID, PacketType, Len, Version, Ack, Token, and consumes 24 bytes |
| WireProofs.StructRoundTrip | src/generator/generator.go:346-647 | For a Struct kind, Read of what Write produced returns the original value and consumes exactly Length() bytes |
| WireProofs.PacketRoundTrip | src/generator/generator.go:582-647 | For a packet kind, Write emits the header and then the fields; Read reads no header, and from the bytes after the header returns the original fields |
| WireProofs.SimplePacketBehaviour | src/generator/generator.go:239-257 | A SimplePacket's Length() is 36, its Write is exactly the header's 24 bytes, and its Read consumes nothing and succeeds |
| WireProofs.AdjustLengthRecords | src/generator/generator.go:337-344 | After AdjustLength a packet's Len is the number of bytes Write emits plus 12, modulo 2^32 |
| WireProofs.FieldDecodedConforms | src/generator/generator.go:391-520 | Whatever Read accepts is a value of the field's Go type |
| WireProofs.FieldsDecodedConform | src/generator/generator.go:456-520 | Whatever Read accepts for a type's fields is a value of that type |
| WireProofs.ZeroFieldsConform | src/generator/generator.go:649-651 | The zero value a composite literal gives the fields of a generated type is a value of that type |
| Runtime.ReadStream.ReadUnsigned | src/generator/generator.go:482-514 | ReadByte/ReadUint16/32/64 advance the position by the width and return the value, or fail with EOF without moving |
| Runtime.ReadStream.ReadUint32 | src/generator/generator.go:394-475 | A uint32 count or length read from the stream, as the field reads do |
| Runtime.ReadStream.ReadBuff | src/generator/generator.go:399-477 | ReadBuff(n) returns the next n bytes and advances by n, or fails with EOF without moving |
| Runtime.WriteStream.WriteUnsigned | src/generator/generator.go:606-640 | A fixed-width write appends exactly the value's bytes |
| Runtime.WriteStream.WriteBuff | src/generator/generator.go:529-604 | WriteBuff appends exactly the buffer |
| Runtime.ReadHeader | src/generator/generator.go:87-108 | The header is read with six uint32 reads, and the first failing one ends it, as DecodeHeader states |
| Runtime.WriteHeader | src/generator/generator.go:110-131 | The header is written with six uint32 writes, appending EncodeHeader's bytes |
| Runtime.WriteField | src/generator/generator.go:522-643 | The emitted write of one field appends exactly EncodeField's bytes; a `[]byte` slice goes as one raw buffer |
| Runtime.WriteElems | src/generator/generator.go:534-578 | The element loop appends the elements' encodings in order |
| Runtime.WriteFields | src/generator/generator.go:587-644 | The loop over fields appends the fields' encodings in declaration order |
| Runtime.ReadString | src/generator/generator.go:472-479 | A string field read consumes and returns what DecodeString gives |
| Runtime.ReadField | src/generator/generator.go:391-516 | The emitted read of one field consumes and returns what DecodeField gives, or fails with its error |
| Runtime.ReadElems | src/generator/generator.go:404-452 | The element loop reads the elements one by one, stopping at the first error, as DecodeElems does |
| Runtime.ReadFields | src/generator/generator.go:456-520 | The loop over fields reads them in order and returns the first error, as DecodeFields does |
| Runtime.Instance.New | src/generator/generator.go:649-651 | `NewT()` presets PacketType to the type's id constant and leaves every other header field and every field zero |
| Runtime.Instance.WithHeader | src/generator/generator.go:685 | `&T{PacketHeader: header}` carries the header that was read and zero fields |
| Runtime.Instance.Length | src/generator/generator.go:346-389 | The emitted Length() loop returns the header's 36 (for packets) plus every field's length |
| Runtime.Instance.AdjustLength | src/generator/generator.go:337-344 | Only the header's Len changes, becoming uint32(Length()) for packets; a Struct kind is untouched |
| Runtime.Instance.Write | src/generator/generator.go:582-647 | Write appends the header (packet kinds only) and then every field's encoding |
| Runtime.Instance.Read | src/generator/generator.go:456-520 | Read never touches the header; on success the fields become what was decoded and the stream is past them, and otherwise the decode's error is returned |
| Runtime.PacketCacher.Get | src/generator/generator.go:675-677 | The cacher returns the instance it holds for the packet type, or nil |
| Runtime.Create | src/generator/generator.go:670-698 | Without a cache hit, a created packet's layout is a non-Struct layout whose id is the PacketType read |
| Runtime.CreateRoundTrip | src/generator/generator.go:670-698 | When ids are distinct, the factory recreates any packet from the bytes its own Write emitted, with the header that was written, whatever follows |
| Runtime.CreateUnknown | src/generator/generator.go:688-691 | A header whose PacketType is no packet's id yields ErrUnknownPacket |
| Runtime.CreateShortHeader | src/generator/generator.go:672-674 | A stream shorter than a header yields the header's EOF error at once |
| Runtime.CreatedConforms | src/generator/generator.go:694-697 | A created packet's fields are a value of its type |
| Runtime.PacketFactory.constructor | src/generator/generator.go:664-668 | NewPacketFactory keeps the cacher it is given |
| Runtime.PacketFactory.CreatePacket | src/generator/generator.go:670-698 | Header errors and unknown types return no packet. Otherwise, when the cacher holds the type, its instance is re-read from the body; when it does not, a fresh instance with the header read gets the decoded fields. A body read error returns no packet. Only the hit instance can change: every other cached instance keeps its header and fields, and all cached instances stay valid |

## Left out

- Generator.GenerateExact: `format.Source` (`src/generator/generator.go:55`) also fails Generate when the emitted text does not parse as Go. Examples are an id name left empty by a tag line without ',' (`// @packet:Foo`), which emits ` = 0x00000000`, `PacketType:,` and `case :`; an id name that is no Go identifier (`@packet:a-b,1`); and a negative id, printed as `0x-0000001`. GenerateSpec does not model that check and succeeds on these inputs.
- The text of the emitted Go and the constant declarations `addImportPackageCode`, `addPacketInterfaceCode` and `addPacketHeaderCode`: the model states what the emitted code computes, not its characters or layout.
- `NewProtoParser`, `parseStructInfo` and `go/ast`: Go's own parser is replaced by the `Decl`, `Field` and `TypeExpr` datatypes. `ast.SliceExpr`, an expression and never a field's type, has no counterpart.
- `src/goproto/main.go`: flag parsing and file writing only.
- Byte order: the stream's ReadUintN/WriteUintN are not part of the repository; big-endian is assumed.
- Wire.FieldConforms: a struct-typed field that names a packet-kind layout, or a name declared nowhere in the file, is outside the model.
- Wire.Ordered: Go accepts structs in any declaration order and rejects only by-value cycles. Decoding here is defined for files where each struct follows the structs it contains by value, which every acyclic file can be reordered into.
- Wire.DecodeField: slices of int8 (`[]int8(buff[:])` does not convert) and arrays of 1-byte kinds (their Read names an undeclared `size`) do not compile, so they decode to `NoCode` and are excluded from the round trips.
- Runtime.WriteField: write errors from the stream are not modelled; the write stream is an append-only byte sequence that cannot fail.
- Runtime.Instance.Read: on a failed read the generated code has already assigned the fields read before the failure. The model keeps the old fields instead. This is visible to any caller of Read, including CreatePacket on a cached instance.
- Runtime.PacketFactory.CreatePacket: on a cache hit, the `&header` argument of `Get` is not modelled as changing the instance, which keeps its own header. The cacher is an oracle holding instances by packet type, and `PacketCacher.Put` is never called by the generated code.
- Generator.DistinctIds: the generator never checks for duplicate ids. Two packets with the same id produce a switch with duplicate cases, which Go rejects, so dispatch completeness is stated for distinct ids.
- Generator.Dispatch: ids are unbounded `int`s, as ParseInt's int64 results are (`src/generator/parser.go:113`), and Generate accepts every one. An id of `0x100000000` or more is emitted as a constant (`src/generator/generator.go:147`). `format.Source` accepts it, but the emitted code does not compile: the constant is compared with, and assigned to, the uint32 `PacketType` (`src/generator/generator.go:679-686`). The model's Generate succeeds on such a file as the source's does, and Dispatch on a header's 32-bit PacketType never selects that packet. Runtime.Instance.New and the wire model require ids below 2^32.
- Generator.IdTable: two packets whose upper-cased id names coincide, for example `@packet:a,1` and `@vlfpacket:A,2`, declare the same constant twice. The emitted code fails to compile; Generate does not check this and neither does the model. DistinctIds is about the ids' values, not their names.
- generatePacketLengthCode's swallowed error (`return "", nil` when an array bound fails): it cannot happen, because generateStructData rejects the same bound first. Generate therefore fails with the bound error before Length is generated.
- The `returne` typos in the reads of int8 and uint8 slice elements: those loops are never emitted, because 1-byte slices are read as one buffer.
- Text.ParseInt: underscore digit separators and the value returned alongside a range error are not modelled. Parse stops on any id error, so the value is never used; the model sets the id to 0.
- Text.ToLower: only ASCII letters are case-folded; Go's Unicode case mapping of other letters is not modelled.
- Error message texts: errors are the constructors of `ParseError`, `GenError`, `ReadError` and `FactoryError`.
- Layout.BuildFields: a VLFPacket whose first field is anonymous makes `NewFieldLayout` index `field.Names[0]` and panic (`src/generator/parser.go:157-158`, 187). The model gives that declaration the outcome `IndexPanic`. As the panic does, it ends Parse at that declaration and only when Parse reaches it with a valid annotation. The model then returns `ParseFailed(IndexPanic)` from Generate, where the process crashes.
