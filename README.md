# Torch asset codecs, modelled in Dafny

This project models the asset decoders and encoders of the Torch ROM-asset
extractor for three game families:

- **Banjo-Kazooie (BK64):**
  - the geo-layout command stream (`GeoLayoutFactory`);
  - the model header and its display-list splitter (`ModelFactory`);
  - three text formats (`DialogFactory`, `QuizQuestionFactory` and `GruntyQuestionFactory`).
- **Ocarina of Time:** player animations (`PlayerAnimationFactory`).
- **Z64 engine:** skeleton limbs (`LimbFactory`).

Every factory turns a big-endian byte segment into a record. Exporters turn that record back into one of four outputs:

- a binary resource;
- a YAML "modding" document;
- C source text;
- a list of asset registrations.

The model has two layers:

- **Specification functions.** Each byte layout, document shape and text rendering is a pure function: `Decode`, `SegmentBytes`, `BinaryBytes`, `ModdingDoc`, `Import`, `CodeText` and so on.
- **Imperative methods.** Each loop of the original is a Dafny method over a `Reader` (a byte sequence with a cursor), a `Writer` (a growing byte sequence) or a `Companion` (the log of registered assets). Each method is proved equal to its specification function.

The properties are lemmas about the specification functions:

- round trips:
  - decode of encode;
  - the C text compiled back to bytes;
  - import of a modding export;
- exact counts, offsets and symbols;
- the error cases.

| file | module | models |
|---|---|---|
| `results.dfy` | `Results` | `Option`, `Result` and the error cases (read past the end, unknown opcode, bad texture type, missing VRAM, YAML type errors, wrong option count) |
| `bytes.dfy` | `Bytes` | byte, 16- and 32-bit values, two's complement, big- and little-endian byte order, hexadecimal and decimal spelling |
| `binary_reader.dfy`, `binary_writer.dfy` | `BinaryReader`, `BinaryWriter` | the cursor reader and the appending writer the factories use |
| `yaml_doc.dfy` | `Yaml` | a YAML node (scalar, list, map) and the lookups and `as<T>` conversions the importers use |
| `c_text.dfy` | `CText` | the exporters' per-character C rendering, and a reader of the resulting `u8` array body (`Compile`) |
| `geo_layout.dfy`, `geo_layout_facts.dfy` | `GeoLayout`, `GeoLayoutFacts` | the geo-layout decode loop and binary exporter, and what is proved about them |
| `model.dfy` | `Model` | the GBI opcode tables, `ModelFactory::parse` and its asset registrations |
| `dialog.dfy` | `Dialog` | the dialog parser, binary, modding and code exporters, and modding import |
| `quiz_question.dfy` | `QuizQuestion` | the same for quiz questions (text plus exactly three options) |
| `grunty_question.dfy` | `GruntyQuestion` | the same for Grunty questions (options with two extra bytes) |
| `player_animation.dfy` | `PlayerAnimation` | the player-animation parser, binary and modding exporters, and modding import |
| `limb.dfy` | `Limb` | the 12-byte limb record and its C rendering |

Design points the model fixes:

- **Geo-layout offsets.** The geo-layout parser fetches `offset` and `end_offset` as `std::string`. So `rollingOffset += cmdLength` appends a character, and `rollingOffset >= endOffset` compares strings lexicographically. The model treats both as natural numbers with numeric addition and comparison, which is what the loop evidently means.
- **Geo-layout reader.** The reader starts at byte 0 of the segment and never seeks. Child offsets are only counted (`extraCommandsToProcess`, a `uint32_t`, kept modulo 2^32), never followed.
- **Quiz and Grunty count byte.** The two question parsers compute `textSize - 3` in `int` and compare it with a `uint8_t` counter. So a count byte below 3 gives no text entries and no options. `DecodeCounts` states this.
- **Grunty option length.** A Grunty option's length byte counts its two unknown bytes. A length below 2 makes `ReadString` ask for a negative count; the model treats that as a failed read.
- **Characters at or above 0x80.** The code exporters' `char` is signed. A byte of 0x80 or more therefore takes the `c < ' '` branch, and its `(uint32_t)` conversion prints `FFFFFFxx`. `CText.CharItem` renders exactly that.
- **Model asset log.** `ModelFactory::parse` registers assets through a global `Companion`. The model records those calls in `Companion.log`, and keeps them when a later step fails. The specification function `Model.Decode` returns the result together with the log.

## Model

| member | source | states |
|---|---|---|
| GeoLayout.Tag | src/factories/bk64/GeoLayoutFactory.h:7-11 | the argument-type enumerator of an argument has the ordinal of the variant alternative it holds, and names that alternative |
| GeoLayout.OpCodeOf | src/factories/bk64/GeoLayoutFactory.h:13-24 | a 32-bit word that names an opcode names it by the enum's numeric value |
| GeoLayoutFacts.OpCodeNumbering | src/factories/bk64/GeoLayoutFactory.h:13-24 | the opcodes are Sort=1, Bone=2, LoadDL=3, Skinning=5, Branch=6, LOD=8, ReferencePoint=10, Selector=12, DrawDistance=13, UnknownCmd=14; exactly these ten words decode to an opcode and 4, 7, 9 and 11 do not |
| GeoLayout.Parse | src/factories/bk64/GeoLayoutFactory.cpp:88-315 | the decoder, reading from segment byte 0 with the rolling offset starting at `offset`, returns exactly the commands the loop specification produces, or its error |
| GeoLayout.ReadTurn | src/factories/bk64/GeoLayoutFactory.cpp:100-312 | one loop iteration decodes one command and updates the counter, the rolling offset and the command list as the loop specification says, leaving the cursor after the record |
| GeoLayout.DecodeCommand | src/factories/bk64/GeoLayoutFactory.cpp:103-301 | reads the opcode word and the record its case lays out; fails on an unknown opcode or a read past the end |
| GeoLayout.ReadLayout | src/factories/bk64/GeoLayoutFactory.cpp:106-298 | reads an opcode's fixed fields in order, storing the non-pad ones, as the field-by-field specification does |
| GeoLayout.ReadTail | src/factories/bk64/GeoLayoutFactory.cpp:152-251 | reads the data-dependent tail: the Bone/LoadDL pad word when the length is 0x10, the Skinning u16 run up to its 0, and the Selector's `childCount` u32 offsets |
| GeoLayout.ReadArg | src/factories/bk64/GeoLayoutFactory.cpp:103-298 | reads one field at its width (1, 2 or 4 bytes, big-endian), or fails past the end without a value |
| GeoLayout.Opened | src/factories/bk64/GeoLayoutFactory.cpp:103-105 | a record decoded from a position ends strictly after that position and within the segment |
| GeoLayout.Turn | src/factories/bk64/GeoLayoutFactory.cpp:303-311 | an iteration that continues moves the cursor strictly forward within the segment, so the loop terminates |
| GeoLayout.Reach | src/factories/bk64/GeoLayoutFactory.cpp:100-312 | the loop state at the head of any iteration has its cursor inside the segment |
| GeoLayout.ReachWalk | src/factories/bk64/GeoLayoutFactory.cpp:100-312 | running the loop from the start gives the same result as running it from the state reached at any iteration head |
| GeoLayoutFacts.DecodedShape | src/factories/bk64/GeoLayoutFactory.cpp:106-298 | every record the decoder accepts is well formed for its opcode, adds `Pending` children and `Advance` bytes, and spans exactly its ROM size; a verbatim record's arguments re-encode to its bytes |
| GeoLayoutFacts.TurnCounts | src/factories/bk64/GeoLayoutFactory.cpp:131-311 | after a command is appended, the loop stops exactly when the counter plus the command's pending children is 0 and the rolling offset plus its advance reaches `endOffset`; otherwise it continues with one pending child spent |
| GeoLayoutFacts.TurnOf | src/factories/bk64/GeoLayoutFactory.cpp:299-303 | an iteration fails exactly when the record does not decode (an unknown opcode throws, so nothing is appended), and otherwise appends exactly the decoded command |
| GeoLayoutFacts.TurnCovers | src/factories/bk64/GeoLayoutFactory.cpp:100-312 | each iteration appends one command and leaves the cursor right after the commands read so far |
| GeoLayoutFacts.WalkCovers | src/factories/bk64/GeoLayoutFactory.cpp:100-312 | a successful loop only adds commands after those it started with, and the commands lie back to back from byte 0 |
| GeoLayoutFacts.ParseCovers | src/factories/bk64/GeoLayoutFactory.cpp:88-315 | a successful parse yields at least one command, every command well formed, their ROM sizes within the segment, and, when every command is verbatim, an encoding equal to the segment prefix they were read from |
| GeoLayoutFacts.ParseUnknownOpCode | src/factories/bk64/GeoLayoutFactory.cpp:299-300 | a segment whose first word is not an opcode fails with that word as the unknown opcode |
| GeoLayoutFacts.SortShape | src/factories/bk64/GeoLayoutFactory.cpp:106-139 | Sort stores 10 arguments (u32, six floats, u8, u16, u16) from 36 bytes of fields; its two pad fields are not stored |
| GeoLayoutFacts.BoneShape | src/factories/bk64/GeoLayoutFactory.cpp:141-157 | Bone stores 4 arguments (u16, u8, u8, u16) after a u16 pad field |
| GeoLayoutFacts.LoadDLShape | src/factories/bk64/GeoLayoutFactory.cpp:159-171 | LoadDL stores 3 arguments (u32, u16, u16) |
| GeoLayoutFacts.SkinningShape | src/factories/bk64/GeoLayoutFactory.cpp:173-178 | Skinning's fixed part stores 2 arguments (u32, u16) |
| GeoLayoutFacts.SkinShape | src/factories/bk64/GeoLayoutFactory.cpp:180-186 | a Skinning record completed from its u16 run is well formed: every argument after the first two is a nonzero u16 (the terminating 0 is not stored), and the record spans exactly its ROM size |
| GeoLayoutFacts.BranchShape | src/factories/bk64/GeoLayoutFactory.cpp:191-199 | Branch stores 2 arguments (u32, u32) and skips a pad word |
| GeoLayoutFacts.LODShape | src/factories/bk64/GeoLayoutFactory.cpp:201-220 | LOD stores 7 arguments (u32, five floats, u32) |
| GeoLayoutFacts.ReferencePointShape | src/factories/bk64/GeoLayoutFactory.cpp:222-236 | ReferencePoint stores 6 arguments (u32, u16, u16, three floats) |
| GeoLayoutFacts.SelectorShape | src/factories/bk64/GeoLayoutFactory.cpp:238-245 | Selector's fixed part stores 3 arguments (u32, u16, u16) |
| GeoLayoutFacts.ChildrenShape | src/factories/bk64/GeoLayoutFactory.cpp:247-251 | a Selector record completed from its child loop is well formed, with 3 + `childCount` arguments whose tail is u32 offsets, and spans exactly its ROM size |
| GeoLayoutFacts.DrawDistanceShape | src/factories/bk64/GeoLayoutFactory.cpp:257-278 | DrawDistance stores 9 arguments (u32, eight s16) |
| GeoLayoutFacts.UnknownCmdShape | src/factories/bk64/GeoLayoutFactory.cpp:280-297 | UnknownCmd stores 7 arguments (u32, six s16) and skips a pad word |
| GeoLayoutFacts.RecordRoundTrip | src/factories/bk64/GeoLayoutFactory.cpp:33-298 | a decoded command re-encodes to exactly its bytes iff it is verbatim (no pad field, no pad word, no sentinel); otherwise its encoding is strictly shorter |
| GeoLayoutFacts.ArgRoundTrip | src/factories/bk64/GeoLayoutFactory.cpp:37-70 | one argument is written at its tag's width, and reading those bytes back at that tag gives the argument |
| GeoLayoutFacts.ArgBytesAt | src/factories/bk64/GeoLayoutFactory.cpp:103-298 | a field read at a tag has that tag, and writing it back gives the bytes it was read from |
| GeoLayoutFacts.ArgsBytesConcat | src/factories/bk64/GeoLayoutFactory.cpp:37-71 | the arguments' encoding is the concatenation of each argument's encoding, in stored order |
| GeoLayout.WriteArg | src/factories/bk64/GeoLayoutFactory.cpp:38-70 | appends one argument at its variant's width and nothing else |
| GeoLayout.WriteArgs | src/factories/bk64/GeoLayoutFactory.cpp:37-71 | appends every argument in stored order |
| GeoLayout.WriteCommand | src/factories/bk64/GeoLayoutFactory.cpp:33-72 | appends the opcode as a u32, then the arguments |
| GeoLayout.WriteCommands | src/factories/bk64/GeoLayoutFactory.cpp:30-74 | the command buffer is the concatenation of the commands' encodings in order |
| GeoLayout.Export | src/factories/bk64/GeoLayoutFactory.cpp:29-86 | the blob is the resource header, the u32 buffer size, then the buffer |
| GeoLayoutFacts.BlobSize | src/factories/bk64/GeoLayoutFactory.cpp:77-81 | the blob's size prefix equals the length of the serialised commands, and the commands follow it unchanged |
| GeoLayoutFacts.ExportOfParse | src/factories/bk64/GeoLayoutFactory.cpp:29-315 | exporting a parse whose commands are all verbatim gives the header, the commands' total size, and exactly the segment bytes they were read from |
| Model.GbiTables | src/factories/bk64/ModelFactory.cpp:19-65 | `G_ENDDL` is 0xB8 for f3d and f3dex and 0xDF for f3dex2; f3d's `G_QUAD` is the byte 0xFF; f3d and f3dex differ only in `G_QUAD` |
| Model.OpcodeNamesOneCommand | src/factories/bk64/ModelFactory.cpp:19-59 | within one microcode table no two commands share an opcode byte |
| Model.FormatOf | src/factories/bk64/ModelFactory.cpp:161-208 | exactly the texture types 0x1, 0x2, 0x4, 0x8 and 0x10 have a format; any other type is the error case |
| Model.FormatOfTypeCode | src/factories/bk64/ModelFactory.cpp:161-205 | the type-to-format mapping is one-to-one: CI4=0x1, CI8=0x2, RGBA16=0x4, RGBA32=0x8, IA8=0x10 |
| Model.TlutColors | src/factories/bk64/ModelFactory.cpp:168-184 | only CI4 and CI8 have a palette (0x10 and 0x100 colours) |
| Model.TextureFollowsPalette | src/factories/bk64/ModelFactory.cpp:161-216 | a CI texture registers its palette first, at the TLUT offset, then the texture at that offset plus 2·colours and pointing to the palette; other formats register one texture at the data offset; the symbol is `_TEX_` and the index |
| Model.TextureEntriesKinds | src/factories/bk64/ModelFactory.cpp:147-217 | the texture loop registers only palettes and textures |
| Model.Companion.SetCompressedSegment | src/factories/bk64/ModelFactory.cpp:125-126 | records one compressed-segment registration at the end of the log |
| Model.Companion.AddAsset | src/factories/bk64/ModelFactory.cpp:171 | records one asset registration at the end of the log |
| Model.ReadHeader | src/factories/bk64/ModelFactory.cpp:110-123 | reads the header fields at their offsets; fails with a read past the end exactly when the segment is shorter than the header |
| Model.ReadTextureRecord | src/factories/bk64/ModelFactory.cpp:148-154 | reads one 16-byte texture record (offset, type, width, height) |
| Model.ReadTexture | src/factories/bk64/ModelFactory.cpp:148-216 | one texture-loop iteration logs exactly what the texture step specification registers, and fails as it does |
| Model.ReadTextureEntries | src/factories/bk64/ModelFactory.cpp:147-217 | the texture loop logs the textures of all `textureCount` records in order, stopping at the first failure |
| Model.ReadTextures | src/factories/bk64/ModelFactory.cpp:137-218 | the texture section registers segment 2 at the data start, then every texture |
| Model.ReadVertices | src/factories/bk64/ModelFactory.cpp:220-242 | the vertex section registers one VTX asset as the specification says |
| Model.VertexAsset | src/factories/bk64/ModelFactory.cpp:233-241 | the vertex section registers exactly one VTX asset: count `doubleVtxCount/2`, offset `modelOffset + vertexSetupOffset` plus the 0x18-byte vertex header, symbol `_VTX` |
| Model.SplitDisplayLists | src/factories/bk64/ModelFactory.cpp:249-261 | the split loop returns 0 followed by the split points, or its read error; on success the cursor has passed all `dlCount` 8-byte commands |
| Model.SplitPointsOk | src/factories/bk64/ModelFactory.cpp:252-261 | the split loop succeeds exactly when all its commands are inside the segment |
| Model.SplitOffsets | src/factories/bk64/ModelFactory.cpp:249-261 | the offset list starts with 0, is strictly increasing, has every entry a multiple of 8 below `dlCount*8`, and holds a nonzero offset exactly when the command before it is `G_ENDDL` and it is not the end |
| Model.SplitPointsSorted | src/factories/bk64/ModelFactory.cpp:252-261 | the split points are multiples of 8 strictly between the start and the end, strictly increasing |
| Model.SplitPointsMembers | src/factories/bk64/ModelFactory.cpp:252-261 | an offset is a split point exactly when it is below the end and the command before it is `G_ENDDL` |
| Model.SplitPointsAreEnds | src/factories/bk64/ModelFactory.cpp:252-261 | the split points are exactly the ends of the non-final `G_ENDDL` commands |
| Model.DisplayListCount | src/factories/bk64/ModelFactory.cpp:244-273 | the number of GFX assets is 1 plus the number of non-final `G_ENDDL` commands |
| Model.GfxAssets | src/factories/bk64/ModelFactory.cpp:263-272 | one GFX asset per split offset |
| Model.GfxSymbolsDistinct | src/factories/bk64/ModelFactory.cpp:269 | the GFX symbols `_GFX_0`, `_GFX_1`, … are pairwise distinct |
| Model.FirstDisplayList | src/factories/bk64/ModelFactory.cpp:263-272 | the first GFX asset is at `modelOffset + displayListSetupOffset` plus the 8-byte display-list header, named `_GFX_0` |
| Model.EmitDisplayLists | src/factories/bk64/ModelFactory.cpp:263-272 | logs exactly the GFX assets of the offset list |
| Model.ReadDisplayLists | src/factories/bk64/ModelFactory.cpp:244-273 | the display-list section logs what its specification registers |
| Model.RegisterSections | src/factories/bk64/ModelFactory.cpp:125-273 | segments 1 and 3, then the texture, vertex and display-list sections, logged as the specification says |
| Model.SectionsInOrder | src/factories/bk64/ModelFactory.cpp:125-273 | when every section succeeds, the log is segments 1 and 3, then the textures, the vertices and the display lists, in that order |
| Model.SectionsMembers | src/factories/bk64/ModelFactory.cpp:125-273 | every registration comes from segment 1 or 3 or from one of the three sections |
| Model.SectionKinds | src/factories/bk64/ModelFactory.cpp:137-244 | each section registers only its own kind of asset, and only when its setup offset is nonzero |
| Model.ZeroOffsetsSkip | src/factories/bk64/ModelFactory.cpp:137-244 | a zero texture, vertex or display-list setup offset means no asset of that section appears in the log |
| Model.SegmentsLocateAssets | src/factories/bk64/ModelFactory.cpp:125-270 | the log opens with segments 1 and 3, whose offsets are where the VTX asset and the first display list are registered |
| Model.Decode | src/factories/bk64/ModelFactory.cpp:95-107 | a wrong magic word gives no model and registers nothing; no VRAM is the error case; a parsed model had a full header |
| Model.Parse | src/factories/bk64/ModelFactory.cpp:95-278 | the parser returns the specification's result and appends exactly its registrations to the log |
| Dialog.Decode | src/factories/bk64/DialogFactory.cpp:151-158 | a segment of at least three bytes whose header is not 01 03 00 gives no dialog; a shorter segment is a read error |
| Dialog.Parse | src/factories/bk64/DialogFactory.cpp:145-189 | the parser returns exactly the specification's result |
| Dialog.ReadEntries | src/factories/bk64/DialogFactory.cpp:164-186 | reads `n` (cmd, len, len bytes) entries in order, as the specification says |
| Dialog.BytesOfSection | src/factories/bk64/DialogFactory.cpp:162-186 | a parsed section holds as many entries as its count byte, each re-encoding to the bytes it was read from |
| Dialog.SegmentOfDecode | src/factories/bk64/DialogFactory.cpp:145-189 | a parsed dialog re-encodes to exactly the segment prefix it was read from |
| Dialog.DecodeSegment | src/factories/bk64/DialogFactory.cpp:145-189 | decoding an encoded dialog, with anything after it, gives that dialog back |
| Dialog.WriteSection | src/factories/bk64/DialogFactory.cpp:79-84 | a section is a u32 count, then each entry's cmd byte, u32 length and string |
| Dialog.BinaryExport | src/factories/bk64/DialogFactory.cpp:73-95 | the binary export is the header, the bottom section, then the top section |
| Dialog.ReadBinaryOfExport | src/factories/bk64/DialogFactory.cpp:73-95 | reading the binary export back gives the dialog |
| Dialog.ItemNodes | src/factories/bk64/DialogFactory.cpp:114-120 | one `[hex cmd, string]` item per entry, in order |
| Dialog.EmitItems | src/factories/bk64/DialogFactory.cpp:113-121 | the exporter's loop emits exactly those items |
| Dialog.ModdingExport | src/factories/bk64/DialogFactory.cpp:97-143 | the document has the symbol as key, then `Bottom` and `Top`; the file name gains `.yaml` |
| Dialog.ImportEntry | src/factories/bk64/DialogFactory.cpp:212-215 | an item imports iff its first element is a u32 and its second a scalar; the command is that value's low byte and the string gains one NUL |
| Dialog.ImportEntriesEach | src/factories/bk64/DialogFactory.cpp:211-225 | import succeeds iff every item does, keeps order and count, and imports each item as `ImportEntry` does |
| Dialog.ParseModding | src/factories/bk64/DialogFactory.cpp:191-228 | the importer returns exactly the specification's result; an unparsable document gives no dialog |
| Dialog.ImportOfExport | src/factories/bk64/DialogFactory.cpp:114-225 | importing the modding export gives each string cut at its first NUL plus one NUL, in the same order and sections |
| Dialog.ImportOfExportCStrings | src/factories/bk64/DialogFactory.cpp:114-225 | when every string ends in its only NUL, importing the export gives the dialog back |
| Dialog.CodeExport | src/factories/bk64/DialogFactory.cpp:29-71 | writes the `u8` array exactly as the exporter does (header line, each section's comment, count and entry lines, the backslash written bare) and returns the offset unchanged |
| Dialog.WriteCodeLines | src/factories/bk64/DialogFactory.cpp:39-51 | writes one line per entry, in order, each as the exporter writes it |
| Dialog.CompileCodeLine | src/factories/bk64/DialogFactory.cpp:40-50 | one entry's line compiles to its cmd, its length and its bytes: as written when the string holds no backslash, and always with the backslash escaped |
| Dialog.CompileCodeText | src/factories/bk64/DialogFactory.cpp:34-68 | the array body compiles to exactly the segment bytes of the dialog: as written when no string holds a backslash, and always with the backslash escaped |
| Dialog.DecodeOfCodeText | src/factories/bk64/DialogFactory.cpp:29-189 | parsing the bytes the C array stands for gives the dialog back: as written when no string holds a backslash, and always with the backslash escaped |
| CText.WidenedChar | src/factories/bk64/DialogFactory.cpp:42-43 | `(uint32_t)c` keeps the byte in its low 8 bits, and is below 0x20 exactly for the control characters below 0x80 |
| CText.WriteChars | src/factories/bk64/DialogFactory.cpp:41-49 | the character loop as written appends one element per byte: control bytes in hex, the quote escaped, every other byte (the backslash too) quoted bare |
| CText.ReadRendered | src/factories/bk64/DialogFactory.cpp:41-49 | an element list reads back as its string: as written when the string holds no backslash, and always with the backslash escaped |
| CText.ReadCharItem | src/factories/bk64/DialogFactory.cpp:42-48 | one element as written reads back as its byte, except the backslash |
| CText.ReadEscapedList | src/factories/bk64/DialogFactory.cpp:41-49 | with the backslash escaped, every string's element list reads back as that string |
| CText.BackslashUnreadable | src/factories/bk64/DialogFactory.cpp:46-47 | as written, a backslash renders as `'\'`, which does not read back |
| Yaml.AsU32 | src/factories/bk64/DialogFactory.cpp:213 | `as<uint32_t>` succeeds exactly on a scalar holding a number below 2^32, and gives that number |
| Yaml.AsU16 | src/factories/oot/PlayerAnimationFactory.cpp:102 | `as<uint16_t>` succeeds exactly on a scalar holding a number below 2^16 |
| Yaml.CStr | src/factories/bk64/DialogFactory.cpp:118 | `c_str()` is the longest NUL-free prefix |
| Yaml.CStrOfTerminated | src/factories/bk64/DialogFactory.cpp:215 | a string with one NUL appended prints as the string |
| Yaml.AsU32OfHexScalar | src/factories/bk64/DialogFactory.cpp:213 | a value emitted in hex reads back as that value |
| Yaml.FirstValue | src/factories/bk64/DialogFactory.cpp:203 | `begin()->second` is the first entry's value of a non-empty map, and fails otherwise |
| Yaml.Lookup | src/factories/bk64/DialogFactory.cpp:208-209 | a key lookup finds an entry with that key exactly when there is one |
| QuizQuestion.Decode | src/factories/bk64/QuizQuestionFactory.cpp:153-162 | a segment of at least five bytes whose header is not 01 01 02 05 00 gives no question; a shorter segment is a read error |
| QuizQuestion.DecodeCounts | src/factories/bk64/QuizQuestionFactory.cpp:166-188 | with a count byte of at least 3, the text has count−3 entries and the options exactly 3; below 3 both are empty |
| QuizQuestion.Parse | src/factories/bk64/QuizQuestionFactory.cpp:147-191 | the parser returns exactly the specification's result |
| QuizQuestion.SegmentOfDecode | src/factories/bk64/QuizQuestionFactory.cpp:147-191 | a parsed question re-encodes to exactly the segment prefix it was read from |
| QuizQuestion.DecodeSegment | src/factories/bk64/QuizQuestionFactory.cpp:147-191 | decoding an encoded question (exactly 3 options) gives it back |
| QuizQuestion.BinaryExport | src/factories/bk64/QuizQuestionFactory.cpp:75-97 | the header, a u32 text count and the text entries, then a u32 option count and the options |
| QuizQuestion.ReadBinaryOfExport | src/factories/bk64/QuizQuestionFactory.cpp:75-97 | reading the binary export back gives the question |
| QuizQuestion.ModdingExport | src/factories/bk64/QuizQuestionFactory.cpp:99-145 | the document lists `Text` then `Options` as `[hex cmd, string]` items in order; the file name gains `.yaml` |
| QuizQuestion.Kept | src/factories/bk64/QuizQuestionFactory.cpp:221-232 | the option loop keeps the first three items, or all of them when there are fewer |
| QuizQuestion.ImportOptionItems | src/factories/bk64/QuizQuestionFactory.cpp:221-236 | the option loop returns exactly the specification's result |
| QuizQuestion.ImportOptionsOf | src/factories/bk64/QuizQuestionFactory.cpp:221-236 | fewer than 3 options is an error; with 3 or more exactly the first 3 are kept, each with one NUL appended |
| QuizQuestion.ParseModding | src/factories/bk64/QuizQuestionFactory.cpp:193-239 | the importer returns exactly the specification's result |
| QuizQuestion.ImportShape | src/factories/bk64/QuizQuestionFactory.cpp:213-236 | an imported question has exactly 3 options, and every text and option string ends in NUL |
| QuizQuestion.ImportOfExport | src/factories/bk64/QuizQuestionFactory.cpp:111-236 | importing the export gives the text and the first 3 options cut at NUL plus one NUL, or the option-count error |
| QuizQuestion.CodeExport | src/factories/bk64/QuizQuestionFactory.cpp:31-73 | writes the `u8` array exactly as the exporter does (the header line, then the text and the options each with its own comment and count, the backslash written bare) and returns the offset unchanged |
| QuizQuestion.CompileCodeText | src/factories/bk64/QuizQuestionFactory.cpp:36-70 | the corrected array body (one count of text plus options, the backslash escaped) compiles to exactly the segment bytes |
| QuizQuestion.DecodeOfCodeText | src/factories/bk64/QuizQuestionFactory.cpp:31-191 | parsing the bytes the corrected C array stands for gives the question back |
| QuizQuestion.CompileWrittenCodeText | src/factories/bk64/QuizQuestionFactory.cpp:36-70 | the array as written, when no string holds a backslash, compiles to the header, the text count and entries, then a separate option count and the options |
| QuizQuestion.WrittenCodeTextMismatch | src/factories/bk64/QuizQuestionFactory.cpp:40-188 | the array as written, when no string holds a backslash, is one byte longer than the segment the parser reads |
| GruntyQuestion.Decode | src/factories/bk64/GruntyQuestionFactory.cpp:140-149 | a segment of at least five bytes whose header is not 01 03 00 05 00 gives no question; a shorter segment is a read error |
| GruntyQuestion.DecodeCounts | src/factories/bk64/GruntyQuestionFactory.cpp:153-177 | with a count byte of at least 3, the text has count−3 entries and the options exactly 3; below 3 both are empty |
| GruntyQuestion.Parse | src/factories/bk64/GruntyQuestionFactory.cpp:134-180 | the parser returns exactly the specification's result |
| GruntyQuestion.ReadOption | src/factories/bk64/GruntyQuestionFactory.cpp:169-176 | an option record is cmd, length, unk0, unk1, then length−2 string bytes |
| GruntyQuestion.BytesOfOptionAt | src/factories/bk64/GruntyQuestionFactory.cpp:169-175 | a parsed option re-encodes with a length byte of string length + 2 |
| GruntyQuestion.SegmentOfDecode | src/factories/bk64/GruntyQuestionFactory.cpp:134-180 | a parsed question re-encodes to exactly the segment prefix it was read from |
| GruntyQuestion.DecodeSegment | src/factories/bk64/GruntyQuestionFactory.cpp:134-180 | decoding an encoded question (exactly 3 options) gives it back |
| GruntyQuestion.BinaryExport | src/factories/bk64/GruntyQuestionFactory.cpp:76-82 | the binary export writes nothing, whatever the question |
| GruntyQuestion.OptionNodes | src/factories/bk64/GruntyQuestionFactory.cpp:114-122 | one `[hex cmd, hex unk0, hex unk1, string]` item per option, in order |
| GruntyQuestion.ModdingExport | src/factories/bk64/GruntyQuestionFactory.cpp:84-132 | the document lists `Text` then `Options`; the file name gains `.yaml` |
| GruntyQuestion.ImportOption | src/factories/bk64/GruntyQuestionFactory.cpp:212-217 | an option item imports iff its first three elements are u32s and its fourth a scalar; each byte is that value's low byte and the string gains one NUL |
| GruntyQuestion.ImportOptionItems | src/factories/bk64/GruntyQuestionFactory.cpp:210-227 | the option loop returns exactly the specification's result |
| GruntyQuestion.ImportOptionsOfNodes | src/factories/bk64/GruntyQuestionFactory.cpp:210-227 | fewer than 3 options is an error; with 3 or more exactly the first 3 are kept |
| GruntyQuestion.ParseModding | src/factories/bk64/GruntyQuestionFactory.cpp:182-230 | the importer returns exactly the specification's result |
| GruntyQuestion.ImportShape | src/factories/bk64/GruntyQuestionFactory.cpp:210-227 | an imported question has exactly 3 options, each string ending in NUL |
| GruntyQuestion.ImportOfExport | src/factories/bk64/GruntyQuestionFactory.cpp:100-227 | importing the export gives the text and the first 3 options (cmd, unk0, unk1 kept) cut at NUL plus one NUL, or the option-count error |
| GruntyQuestion.CodeExport | src/factories/bk64/GruntyQuestionFactory.cpp:31-74 | writes the `u8` array exactly as the exporter does (two sections with their own counts, each option's length element its string length alone, the backslash written bare) and returns the offset unchanged |
| GruntyQuestion.WriteOptionSection | src/factories/bk64/GruntyQuestionFactory.cpp:54-69 | the options comment, the option count, then one line per option with `str.length()` as its length element |
| GruntyQuestion.CompileOptionLine | src/factories/bk64/GruntyQuestionFactory.cpp:57-68 | an option line compiles to cmd, length, unk0, unk1 and the string's bytes: as written when the string holds no backslash, and always with the backslash escaped |
| GruntyQuestion.CompileCodeText | src/factories/bk64/GruntyQuestionFactory.cpp:36-71 | the corrected array body (one count, option lengths that include the two unknown bytes, the backslash escaped) compiles to exactly the segment bytes |
| GruntyQuestion.DecodeOfCodeText | src/factories/bk64/GruntyQuestionFactory.cpp:31-180 | parsing the bytes the corrected C array stands for gives the question back |
| GruntyQuestion.CompileWrittenCodeText | src/factories/bk64/GruntyQuestionFactory.cpp:36-71 | the array as written, when no string holds a backslash, compiles to two counts and option lengths without the two unknown bytes |
| GruntyQuestion.WrittenCodeTextMismatch | src/factories/bk64/GruntyQuestionFactory.cpp:40-175 | the array as written, when no string holds a backslash, is one byte longer than the segment, and each option's length byte is 2 short |
| PlayerAnimation.Decode | src/factories/oot/PlayerAnimationFactory.cpp:67-82 | parsing reads exactly 67·frameCount int16 values, or fails when the segment is shorter |
| PlayerAnimation.Parse | src/factories/oot/PlayerAnimationFactory.cpp:67-82 | the parser returns exactly the specification's result |
| PlayerAnimation.ValuesBytesOfDecode | src/factories/oot/PlayerAnimationFactory.cpp:76-78 | the parsed values, written back big-endian, are exactly the bytes read, in order |
| PlayerAnimation.BinaryExport | src/factories/oot/PlayerAnimationFactory.cpp:20-35 | the header, a u32 count, then every value in order |
| PlayerAnimation.ReadBinaryOfExport | src/factories/oot/PlayerAnimationFactory.cpp:27-31 | the count equals the data length and reading the values back gives the data |
| PlayerAnimation.ModdingDoc | src/factories/oot/PlayerAnimationFactory.cpp:55-57 | the export succeeds exactly when there is at least one value |
| PlayerAnimation.ModdingExport | src/factories/oot/PlayerAnimationFactory.cpp:37-65 | emits the specification's document; the file name gains `.yaml` |
| PlayerAnimation.ImportValuesEach | src/factories/oot/PlayerAnimationFactory.cpp:101-103 | a successful import keeps order and count, and each item is the u16 bit pattern of the int16 it gives |
| PlayerAnimation.ParseModding | src/factories/oot/PlayerAnimationFactory.cpp:84-106 | the importer returns exactly the specification's result |
| PlayerAnimation.ImportOfExport | src/factories/oot/PlayerAnimationFactory.cpp:55-103 | importing the export gives the data without its last value |
| Limb.Decode | src/factories/z64/LimbFactory.cpp:70-88 | a limb needs 12 bytes; fewer is a read error |
| Limb.Parse | src/factories/z64/LimbFactory.cpp:70-88 | the parser returns exactly the specification's result |
| Limb.DecodeOfLimbBytes | src/factories/z64/LimbFactory.cpp:75-87 | three i16, child, sibling and a u32 display list, encoded and decoded, give the limb back |
| Limb.LimbBytesOfDecode | src/factories/z64/LimbFactory.cpp:75-87 | a parsed limb re-encodes to exactly the 12 bytes it was read from |
| Limb.LinkTextReads | src/factories/z64/LimbFactory.cpp:30-39 | a child or sibling renders as `LIMB_DONE` exactly when it is 0xFF, and otherwise as `0x` and hex digits that read back as the value |
| Limb.CodeExport | src/factories/z64/LimbFactory.cpp:21-57 | writes the limb initializer and returns `offset + 0xC` |
| Limb.BinaryExport | src/factories/z64/LimbFactory.cpp:59-68 | the binary export is the resource header alone, whatever the limb |

## Left out

- Segment decompression (`Decompressor::AutoDecode`): each parser takes the decompressed segment as its input.
- ROM reading is not modelled.
- YAML text parsing and emitting (yaml-cpp) are not modelled. A document is a `Yaml.Node` tree and a scalar is its text. An unparsable document is the input `None`. Hex or decimal presentation is kept only as far as the importers read it back.
- `BinaryReader` and `BinaryWriter`:
  - The LUS internals are not part of this model.
  - Reads are big-endian.
  - A read past the end fails with `ReadPastEnd`, with no value.
  - The writers' byte order is a parameter, because the default endianness of the LUS writer is not visible.
  - `Write(std::string)` is the parameter `writeString`, and `ReadString` on the binary side is the parameter `readString`.
  - `WriteHeader` is the parameter `header`.
- The `Companion` singleton:
  - The OTR flag, the GBI version and the current VRAM are parameters.
  - `AddAsset` and `SetCompressedSegment` are entries of `Model.Companion.log`.
  - `GetNodeByAddr` is the `lookup` parameter of `Limb.CodeExport`.
- The YAML nodes `ModelFactory` registers keep only `offset`, `symbol`, `colors`, `count`, `width`, `height`, `format` and `tlut`. The `type` and `ctype` keys are left out, because they follow from the kind and the format.
- The geo-layout registration `geoLayoutOffset != 0 && false` is dead code. It is absent from the model, and `Model.ZeroOffsetsSkip` shows no geo layout is logged.
- Floats (Sort, LOD, ReferencePoint arguments): these are opaque 32-bit patterns, read and written unchanged. Float semantics are not modelled.
- `Vec3s` rendering in the limb initializer (`operator<<`) is not part of this model. It is the parameter `vecText`.
- Header exporters (the `__OTR__` line, `extern StandardLimb`) and logging (spdlog) are not modelled, because they have no bearing on the data.
- `GeoLayoutCodeExporter` and `ModelCodeExporter` only return the offset, and `ModelBinaryExporter` writes nothing, so none of the three is modelled.
- `GetSafeNode` lookups of `symbol`, `offset` and `count` are parameters.
- GBI versions other than f3d, f3dex and f3dex2: `gGBITable.at` throws for them, and the model's `GbiVersion` has only these three.
- `GeoLayout.Parse`: the string-typed `offset` and `end_offset` (character append and lexicographic comparison) are modelled as natural numbers with addition and numeric comparison.
- `Dialog.ImportEntries`: YAML iteration over a map node (possible in yaml-cpp) is modelled as an error.
- `GruntyQuestion.Decode`: a length byte below 2 makes the source call `ReadString` with a negative count. The model treats that as a failed read; the LUS behaviour is not visible.
- Yaml.AsU32: a scalar reads as a number only in `0x` hex (lower-case `x`) or plain decimal digits. yaml-cpp's stream conversion also reads a leading `0` as octal (`010` is 8), accepts `0X` and a leading `+`, and these are not modelled.
- Yaml.AsU16: the same as `Yaml.AsU32`; only `0x` hex and plain decimal scalars are read.
- Yaml.AsString: a null node is an error in the model. yaml-cpp's `as<std::string>` gives `"null"` for it.
- `PlayerAnimation.ModdingDoc`: with empty data, `size() - 1` wraps around and `.at(0)` throws. The model gives an error there.

## Findings

| source | as written | input that shows it | evidently intended | confidence | as-written member | corrected member |
|---|---|---|---|---|---|---|
| src/factories/bk64/DialogFactory.cpp:42-48 (the same loop in QuizQuestionFactory.cpp:43-65 and GruntyQuestionFactory.cpp:43-66) | a backslash byte is written as `'\'`, which opens an escape sequence, so the array does not compile | a dialog string `"\"` (one byte 0x5C) | escape the backslash as `'\\'` like the quote | high, not executed | CText.BackslashUnreadable | CText.ReadEscapedList |
| src/factories/bk64/QuizQuestionFactory.cpp:40, 55 | the C array writes a text count and a separate option count, but the parser reads one count (text plus options) and no second count | any question, e.g. one empty text entry and three empty options: the written array compiles to 15 bytes where the segment has 14 | one count of text plus options after the header, options following the text directly | high, not executed | QuizQuestion.WrittenCodeTextMismatch | QuizQuestion.DecodeOfCodeText |
| src/factories/bk64/GruntyQuestionFactory.cpp:40, 55, 57 | the same two counts, and each option's length is `str.length()` where the parser reads a length that counts unk0 and unk1 (`strLen - 2`) | any question, e.g. one empty text entry and three empty options: the written array compiles to 21 bytes where the segment has 20, and every option length byte is 0 where the parser needs 2 | one count, and option lengths of string length + 2 | high, not executed | GruntyQuestion.WrittenCodeTextMismatch | GruntyQuestion.DecodeOfCodeText |
