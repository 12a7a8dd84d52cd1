/** BK64 quiz question (`QuizQuestionFactory.cpp`): a five-byte header, one
    count byte covering the question's text entries and its three options,
    then the entries, laid out as dialog entries (command byte, length
    byte, string bytes). The text entries come first; the last three
    entries are the options.

    Partners: the segment parses back (`DecodeSegment`), the binary export
    reads back (`ReadBinaryOfExport`), the modding import undoes the export
    up to the string terminator and the three-option rule
    (`ImportOfExport`), the corrected C array compiles to the segment
    (`CompileCodeText`), and the C array as written compiles to one byte
    more (`CompileWrittenCodeText`). */
module QuizQuestion {
  import opened Results
  import opened Bytes
  import opened BinaryReader
  import opened BinaryWriter
  import opened Yaml
  import opened CText
  import Dialog

  type DialogString = Dialog.DialogString

  /** `QuizQuestionData`. */
  datatype QuizQuestionData = QuizQuestionData(text: seq<DialogString>, options: seq<DialogString>)

  /** QUIZ_QUESTION_HEADER_1..5. */
  const Header: seq<u8> := [0x01, 0x01, 0x02, 0x05, 0x00]

  /** The options every question has. */
  const OptionsPerQuestion: nat := 3

  // ---------------------------------------------------------------------
  // The segment

  /** How many times `for (uint8_t i = 0; i < textSize - 3; i++)` runs:
      `textSize - 3` is an `int`, so a count below 3 runs it zero times. */
  function TextCount(textSize: u8): nat {
    if textSize >= 3 then textSize - 3 else 0
  }

  /** How many times `for (uint8_t i = textSize - 3; i < textSize; i++)`
      runs: `i` starts at the count minus 3 as a byte, which for a count
      below 3 wraps to 253 or above, so the loop runs three times or none. */
  function OptionCount(textSize: u8): nat {
    if textSize >= 3 then 3 else 0
  }

  /** What `QuizQuestionFactory::parse` makes of a segment: `Ok(None)` is
      the rejected header. */
  function Decode(s: seq<u8>): (r: Result<Option<QuizQuestionData>>)
    ensures |s| < 5 ==> r == Err(ReadPastEnd)
    ensures r == Ok(None) <==> 5 <= |s| && s[..5] != Header
  {
    if |s| < 5 then Err(ReadPastEnd)
    else if s[..5] != Header then Ok(None)
    else
      var textSize :- ByteAt(s, 5);
      var text :- Dialog.Entries(s, 6, TextCount(textSize));
      var options :- Dialog.Entries(s, text.1, OptionCount(textSize));
      Ok(Some(QuizQuestionData(text.0, options.0)))
  }

  /** `QuizQuestionFactory::parse`. */
  method Parse(segment: seq<u8>) returns (r: Result<Option<QuizQuestionData>>)
    ensures r == Decode(segment)
  {
    var reader := new Reader(segment);
    var header1 :- reader.ReadInt8();
    var header2 :- reader.ReadInt8();
    var header3 :- reader.ReadInt8();
    var header4 :- reader.ReadInt8();
    var header5 :- reader.ReadInt8();
    if header1 != 0x01 || header2 != 0x01 || header3 != 0x02 || header4 != 0x05 || header5 != 0x00 {
      assert segment[..5] != Header by {
        assert forall k :: 0 <= k < 5 ==> segment[..5][k] == segment[k];
      }
      return Ok(None);
    }
    assert segment[..5] == Header;
    var textSize :- reader.ReadUByte();
    // `for (uint8_t i = 0; i < textSize - 3; i++)`
    var text :- Dialog.ReadEntries(reader, TextCount(textSize));
    // `for (uint8_t i = textSize - 3; i < textSize; i++)`
    var options :- Dialog.ReadEntries(reader, OptionCount(textSize));
    return Ok(Some(QuizQuestionData(text, options)));
  }

  /** A question the segment layout can hold: three options, a count that
      fits its byte, strings that fit their length bytes. */
  predicate Fits(q: QuizQuestionData) {
    |q.options| == OptionsPerQuestion && |q.text| + OptionsPerQuestion < 0x100
    && Dialog.ShortStrings(q.text) && Dialog.ShortStrings(q.options)
  }

  /** The segment a question is stored as. */
  function SegmentBytes(q: QuizQuestionData): seq<u8>
    requires Fits(q)
  {
    Header + [(|q.text| + |q.options|) as u8] + Dialog.EntriesBytes(q.text) + Dialog.EntriesBytes(q.options)
  }

  /** A parse yields `textSize - 3` text entries and three options, or none
      at all when the count is below 3. */
  lemma {:induction false} DecodeCounts(s: seq<u8>, q: QuizQuestionData)
    requires Decode(s) == Ok(Some(q))
    ensures |s| > 5
    ensures |q.text| == TextCount(s[5]) && |q.options| == OptionCount(s[5])
    ensures s[5] >= 3 ==> |q.options| == 3 && |q.text| + 3 == s[5]
    ensures s[5] < 3 ==> q.text == [] && q.options == []
  {
    Dialog.BytesOfSection(s, 6, TextCount(s[5]));
    var (text, p) := Dialog.Entries(s, 6, TextCount(s[5])).value;
    Dialog.BytesOfSection(s, p, OptionCount(s[5]));
  }

  /** Where the parts of a header-count-two-sections segment sit. */
  lemma {:induction false} Layout(s: seq<u8>, h: seq<u8>, n: u8, tb: seq<u8>, ob: seq<u8>, rest: seq<u8>)
    requires |h| == 5 && s == h + [n] + tb + ob + rest
    ensures 6 + |tb| + |ob| <= |s| && s[..5] == h && s[5] == n
    ensures s[6..6 + |tb|] == tb && s[6 + |tb|..6 + |tb| + |ob|] == ob
  {
    assert s == h + ([n] + (tb + (ob + rest)));
  }

  /** The same segment, regrouped at the end of its second section. */
  lemma {:induction false} Regroup(s: seq<u8>, p: nat, e: nat)
    requires 6 <= p <= e <= |s|
    ensures s[..e] == s[..5] + [s[5]] + s[6..p] + s[p..e]
  {
  }

  /** The parser's steps, each succeeding. */
  lemma {:induction false} DecodeOf(s: seq<u8>, text: seq<DialogString>, p: nat, options: seq<DialogString>, e: nat)
    requires |s| > 5 && s[..5] == Header && s[5] >= 3 && |text| == TextCount(s[5])
    requires Dialog.Entries(s, 6, |text|) == Ok((text, p))
    requires |options| == OptionCount(s[5]) && Dialog.Entries(s, p, |options|) == Ok((options, e))
    ensures Decode(s) == Ok(Some(QuizQuestionData(text, options)))
  {
  }

  /** A segment whose parts are those of `q` parses as `q`. */
  lemma {:induction false} DecodeParts(s: seq<u8>, q: QuizQuestionData, tb: seq<u8>, ob: seq<u8>)
    requires Fits(q) && tb == Dialog.EntriesBytes(q.text) && ob == Dialog.EntriesBytes(q.options)
    requires 6 + |tb| + |ob| <= |s| && s[..5] == Header && s[5] as int == |q.text| + |q.options|
    requires s[6..6 + |tb|] == tb && s[6 + |tb|..6 + |tb| + |ob|] == ob
    ensures Decode(s) == Ok(Some(q))
  {
    var p := 6 + |tb|;
    var e := p + |ob|;
    assert |q.text| == TextCount(s[5]) && |q.options| == OptionCount(s[5]);
    Dialog.SectionOfBytes(s, 6, q.text);
    Dialog.SectionOfBytes(s, p, q.options);
    DecodeOf(s, q.text, p, q.options, e);
  }

  /** A question laid out as a segment parses back, whatever follows it. */
  lemma {:induction false} DecodeSegment(q: QuizQuestionData, rest: seq<u8>)
    requires Fits(q)
    ensures Decode(SegmentBytes(q) + rest) == Ok(Some(q))
  {
    var tb, ob := Dialog.EntriesBytes(q.text), Dialog.EntriesBytes(q.options);
    var s := SegmentBytes(q) + rest;
    Layout(s, Header, (|q.text| + |q.options|) as u8, tb, ob, rest);
    DecodeParts(s, q, tb, ob);
  }

  /** A parsed question with a count of 3 or more is exactly what the
      segment starts with. */
  lemma {:induction false} SegmentOfDecode(s: seq<u8>, q: QuizQuestionData)
    requires Decode(s) == Ok(Some(q)) && |s| > 5 && s[5] >= 3
    ensures Fits(q) && |SegmentBytes(q)| <= |s| && s[..|SegmentBytes(q)|] == SegmentBytes(q)
  {
    DecodeCounts(s, q);
    Dialog.BytesOfSection(s, 6, TextCount(s[5]));
    var (text, p) := Dialog.Entries(s, 6, TextCount(s[5])).value;
    Dialog.BytesOfSection(s, p, 3);
    var (options, e) := Dialog.Entries(s, p, 3).value;
    Regroup(s, p, e);
  }

  // ---------------------------------------------------------------------
  // The binary export

  /** The export: the resource header, the text section, the options
      section, each a `uint32_t` count followed by its entries. */
  function BinaryBytes(q: QuizQuestionData, order: ByteOrder, header: seq<u8>, writeString: seq<u8> -> seq<u8>): seq<u8> {
    header + Dialog.Section(q.text, order, writeString) + Dialog.Section(q.options, order, writeString)
  }

  /** `QuizQuestionBinaryExporter::Export`. */
  method BinaryExport(q: QuizQuestionData, order: ByteOrder, header: seq<u8>, writeString: seq<u8> -> seq<u8>)
    returns (out: seq<u8>)
    ensures out == BinaryBytes(q, order, header, writeString)
  {
    var w := new Writer(order);
    w.WriteBytes(header);
    Dialog.WriteSection(w, q.text, writeString);
    Dialog.WriteSection(w, q.options, writeString);
    out := w.data;
  }

  /** Reads a whole binary export after its resource header. */
  function ReadBinary(b: seq<u8>, order: ByteOrder, readString: seq<u8> -> Option<(seq<u8>, seq<u8>)>)
    : Option<QuizQuestionData>
  {
    match Dialog.ReadSection(b, order, readString)
    case None => None
    case Some((text, rest)) =>
      match Dialog.ReadSection(rest, order, readString)
      case Some((options, after)) => if after == [] then Some(QuizQuestionData(text, options)) else None
      case None => None
  }

  /** The binary export reads back to the question it was written from. */
  lemma {:induction false} ReadBinaryOfExport(q: QuizQuestionData, order: ByteOrder, header: seq<u8>,
                                              writeString: seq<u8> -> seq<u8>,
                                              readString: seq<u8> -> Option<(seq<u8>, seq<u8>)>)
    requires Dialog.ReadsBack(writeString, readString) && Dialog.Sized(q.text) && Dialog.Sized(q.options)
    ensures ReadBinary(BinaryBytes(q, order, header, writeString)[|header|..], order, readString) == Some(q)
  {
    var text, options := Dialog.Section(q.text, order, writeString), Dialog.Section(q.options, order, writeString);
    AfterPrefix(header, text, options);
    Dialog.ReadSectionOf(q.text, order, writeString, readString, options);
    Dialog.ReadSectionOf(q.options, order, writeString, readString, []);
    assert options + [] == options;
  }

  // ---------------------------------------------------------------------
  // The modding document

  /** The document `QuizQuestionModdingExporter::Export` emits. */
  function ModdingDoc(symbol: string, q: QuizQuestionData): Node {
    Dict([Entry(symbol, Dict([Entry("Text", List(Dialog.ItemNodes(q.text))),
                              Entry("Options", List(Dialog.ItemNodes(q.options)))]))])
  }

  /** `QuizQuestionModdingExporter::Export`: the document, and the asset path
      with `.yaml` appended. */
  method ModdingExport(symbol: string, q: QuizQuestionData, replacement: string) returns (doc: Node, path: string)
    ensures doc == ModdingDoc(symbol, q) && path == replacement + ".yaml"
  {
    path := replacement + ".yaml";
    var text := Dialog.EmitItems(q.text);
    var options := Dialog.EmitItems(q.options);
    doc := Dict([Entry(symbol, Dict([Entry("Text", List(text)), Entry("Options", List(options))]))]);
  }

  /** The option items the import loop reaches before its `break`. */
  function Kept(items: seq<Node>): (r: seq<Node>)
    ensures |r| <= 3 && |r| <= |items| && r == items[..|r|]
    ensures |r| == 3 || r == items
  {
    if |items| >= 3 then items[..3] else items
  }

  /** The importer's option loop and the check after it: the first three
      items are imported, and fewer than three is an error. */
  function ImportOptions(items: seq<Node>): Result<seq<DialogString>> {
    var options :- Dialog.ImportEntries(Kept(items), []);
    if |Kept(items)| != 3 then Err(WrongOptionCount) else Ok(options)
  }

  /** What `QuizQuestionFactory::parse_modding` makes of a loaded document;
      `None` is text the YAML parser rejects. */
  function Import(doc: Option<Node>): Result<Option<QuizQuestionData>> {
    if doc.None? then Ok(None)
    else
      var info :- FirstValue(doc.value);
      var textNode :- Child(info, "Text");
      var optionsNode := Child(info, "Options").value;   // `info` is not a scalar here: the subscript cannot throw
      var textItems :- Members(textNode);
      var text :- Dialog.ImportEntries(textItems, []);
      var optionItems :- Members(optionsNode);
      var options :- ImportOptions(optionItems);
      Ok(Some(QuizQuestionData(text, options)))
  }

  /** The option loop: a counter, a `break` at the third option, and the
      check that exactly three were read. */
  method ImportOptionItems(items: seq<Node>) returns (r: Result<seq<DialogString>>)
    ensures r == ImportOptions(items)
  {
    var options: seq<DialogString> := [];
    var i: u32 := 0;
    var k := 0;
    ghost var kept := Kept(items);
    while k < |items|
      invariant k == i as int == |options| && k < 3 && k <= |kept|
      invariant Dialog.ImportEntries(kept, []) == Dialog.ImportEntries(kept[k..], options)
    {
      assert items[k] == kept[k] && kept[k..][1..] == kept[k + 1..];
      var cmdNode :- Element(items[k], 0);
      var cmd :- AsU32(cmdNode);
      var strNode := Element(items[k], 1).value;
      var str :- AsString(strNode);
      options := options + [Dialog.DialogString(cmd % 0x100, str + [0])];
      i := i + 1;
      if i >= 3 {
        break;
      }
      k := k + 1;
    }
    if i != 3 {
      return Err(WrongOptionCount);
    }
    return Ok(options);
  }

  /** `QuizQuestionFactory::parse_modding`. */
  method ParseModding(doc: Option<Node>) returns (r: Result<Option<QuizQuestionData>>)
    ensures r == Import(doc)
  {
    if doc.None? {
      return Ok(None);
    }
    var info :- FirstValue(doc.value);
    var textNode :- Child(info, "Text");
    var optionsNode := Child(info, "Options").value;
    var textItems :- Members(textNode);
    var text :- Dialog.ImportItems(textItems);
    var optionItems :- Members(optionsNode);
    var options :- ImportOptionItems(optionItems);
    return Ok(Some(QuizQuestionData(text, options)));
  }

  lemma {:induction false} DocLookups(symbol: string, q: QuizQuestionData)
    ensures var info := Dict([Entry("Text", List(Dialog.ItemNodes(q.text))),
                              Entry("Options", List(Dialog.ItemNodes(q.options)))]);
      FirstValue(ModdingDoc(symbol, q)) == Ok(info)
      && Child(info, "Text") == Ok(Some(List(Dialog.ItemNodes(q.text))))
      && Child(info, "Options") == Ok(Some(List(Dialog.ItemNodes(q.options))))
  {
    var inner := [Entry("Text", List(Dialog.ItemNodes(q.text))), Entry("Options", List(Dialog.ItemNodes(q.options)))];
    assert Lookup(inner, "Text") == Some(List(Dialog.ItemNodes(q.text)));
    assert inner[1..] == [Entry("Options", List(Dialog.ItemNodes(q.options)))];
    assert Lookup(inner, "Options") == Some(List(Dialog.ItemNodes(q.options)));
  }

  /** Importing the modding export of a question with three or more options
      gives back its text and its first three options, in order, each string
      cut at its first NUL and terminated by one NUL; with fewer than three
      options the import fails. */
  lemma {:induction false} ImportOfExport(symbol: string, q: QuizQuestionData)
    ensures |q.options| >= 3 ==>
      Import(Some(ModdingDoc(symbol, q))) == Ok(Some(QuizQuestionData(Dialog.Terminated(q.text), Dialog.Terminated(q.options[..3]))))
    ensures |q.options| < 3 ==> Import(Some(ModdingDoc(symbol, q))) == Err(WrongOptionCount)
  {
    DocLookups(symbol, q);
    Dialog.ImportItemNodes(q.text, []);
    assert [] + Dialog.Terminated(q.text) == Dialog.Terminated(q.text);
    ImportOptionsOf(q.options);
  }

  /** The option nodes of an export import as the first three options, or
      fail when there are fewer. */
  lemma {:induction false} ImportOptionsOf(os: seq<DialogString>)
    ensures ImportOptions(Dialog.ItemNodes(os))
      == if |os| >= 3 then Ok(Dialog.Terminated(os[..3])) else Err(WrongOptionCount)
  {
    var items := Dialog.ItemNodes(os);
    var first := if |os| >= 3 then os[..3] else os;
    assert Kept(items) == Dialog.ItemNodes(first);
    Dialog.ImportItemNodes(first, []);
    assert [] + Dialog.Terminated(first) == Dialog.Terminated(first);
  }

  /** A string as the importer stores it: followed by one appended NUL. */
  predicate NulTerminated(e: DialogString) {
    |e.str| >= 1 && e.str[|e.str| - 1] == 0
  }

  /** Every entry that `ImportEntries` produces carries an appended NUL. */
  lemma {:induction false} ImportedTerminated(items: seq<Node>)
    requires Dialog.ImportEntries(items, []).Ok?
    ensures var es := Dialog.ImportEntries(items, []).value;
      |es| == |items| && forall i :: 0 <= i < |es| ==> NulTerminated(es[i])
  {
    Dialog.ImportEntriesEach(items, []);
    var es := Dialog.ImportEntries(items, []).value;
    forall i | 0 <= i < |es|
      ensures NulTerminated(es[i])
    {
      assert Ok(es[0 + i]) == Dialog.ImportEntry(items[i]);
    }
  }

  /** An imported question has exactly three options, and every string of
      it ends with the NUL the import appends. */
  lemma {:induction false} ImportShape(doc: Option<Node>, q: QuizQuestionData)
    requires Import(doc) == Ok(Some(q))
    ensures |q.options| == 3
    ensures forall i :: 0 <= i < |q.text| ==> NulTerminated(q.text[i])
    ensures forall i :: 0 <= i < |q.options| ==> NulTerminated(q.options[i])
  {
    var info := FirstValue(doc.value).value;
    var textItems := Members(Child(info, "Text").value).value;
    var optionItems := Members(Child(info, "Options").value).value;
    ImportedTerminated(textItems);
    ImportedTerminated(Kept(optionItems));
  }

  // ---------------------------------------------------------------------
  // The C source

  /** The header macros after the first. */
  const HeaderNames: seq<string> := ["QUIZ_QUESTION_HEADER_2", "QUIZ_QUESTION_HEADER_3", "QUIZ_QUESTION_HEADER_4",
    "QUIZ_QUESTION_HEADER_5"]

  /** The header line: the five macro names separated by `, `. */
  const HeaderLine: string := Tab + "QUIZ_QUESTION_HEADER_1" + NameElements(HeaderNames) + ",\n"

  /** The values the header macros are defined with. */
  const Defines: map<string, u8> := map["QUIZ_QUESTION_HEADER_1" := 0x01, "QUIZ_QUESTION_HEADER_2" := 0x01,
    "QUIZ_QUESTION_HEADER_3" := 0x02, "QUIZ_QUESTION_HEADER_4" := 0x05, "QUIZ_QUESTION_HEADER_5" := 0x00]

  /** The array body as the exporter writes it: the text section and the
      options section each open with their own entry count, and the bytes
      are rendered as written. */
  function WrittenBodyLines(q: QuizQuestionData): seq<string> {
    [HeaderLine] + Dialog.SectionLines("/* QuizQuestion */", q.text, AsWritten)
    + Dialog.SectionLines("/* Options */", q.options, AsWritten)
  }

  /** The text `QuizQuestionCodeExporter::Export` writes. */
  function CodeText(symbol: string, q: QuizQuestionData): string {
    "u8 " + symbol + "[] = {\n" + Join(WrittenBodyLines(q)) + "};\n\n"
  }

  /** The corrected array body, laid out as the segment is: one count for
      text and options together, then every entry, backslashes escaped. */
  function BodyLines(q: QuizQuestionData): seq<string> {
    TextHead(q) + Dialog.CodeLines(q.text, Escaped) + (OptionsHead() + Dialog.CodeLines(q.options, Escaped))
  }

  /** The header line, the question comment and the count of all entries. */
  function TextHead(q: QuizQuestionData): seq<string> {
    [HeaderLine, Tab + "/* QuizQuestion */" + "\n", Tab + Decimal(|q.text| + |q.options|) + ",\n"]
  }

  function OptionsHead(): seq<string> {
    [Tab + "/* Options */" + "\n"]
  }

  /** `QuizQuestionCodeExporter::Export`: the text, and the offset it returns;
      the entry lines are the dialog exporter's. */
  method CodeExport(symbol: string, q: QuizQuestionData, offset: u32) returns (text: string, size: u32)
    ensures text == CodeText(symbol, q) && size == offset
  {
    var textSection := Dialog.WriteCodeSection("/* QuizQuestion */", q.text);
    var optionSection := Dialog.WriteCodeSection("/* Options */", q.options);
    JoinLineThen(HeaderLine, Dialog.SectionLines("/* QuizQuestion */", q.text, AsWritten),
                 Dialog.SectionLines("/* Options */", q.options, AsWritten));
    Enclose("u8 " + symbol + "[] = {\n", Join(WrittenBodyLines(q)), HeaderLine, textSection, optionSection, "};\n\n");
    text := "u8 " + symbol + "[] = {\n" + HeaderLine + textSection + optionSection + "};\n\n";
    size := offset;
  }

  lemma {:induction false} HeaderNameIsName(k: nat)
    requires 1 <= k <= 5
    ensures IsName("QUIZ_QUESTION_HEADER_" + [('0' as int + k) as char])
  {
    var name := "QUIZ_QUESTION_HEADER_" + [('0' as int + k) as char];
    assert forall i :: 0 <= i < |name| ==> IsNameChar(name[i]);
  }

  lemma {:induction false} HeaderNamesDefined()
    ensures IsName("QUIZ_QUESTION_HEADER_1") && "QUIZ_QUESTION_HEADER_1" in Defines
    ensures forall i :: 0 <= i < |HeaderNames| ==> IsName(HeaderNames[i]) && HeaderNames[i] in Defines
  {
    HeaderNameIsName(1);
    HeaderNameIsName(2);
    HeaderNameIsName(3);
    HeaderNameIsName(4);
    HeaderNameIsName(5);
    assert "QUIZ_QUESTION_HEADER_1" == "QUIZ_QUESTION_HEADER_" + ['1'];
    assert HeaderNames[0] == "QUIZ_QUESTION_HEADER_" + ['2'];
    assert HeaderNames[1] == "QUIZ_QUESTION_HEADER_" + ['3'];
    assert HeaderNames[2] == "QUIZ_QUESTION_HEADER_" + ['4'];
    assert HeaderNames[3] == "QUIZ_QUESTION_HEADER_" + ['5'];
  }

  lemma {:induction false} CompileHeaderLine()
    ensures CompileLine(HeaderLine, Defines) == Some(Header)
  {
    var names := HeaderNames;
    HeaderNamesDefined();
    CompileNameLine("QUIZ_QUESTION_HEADER_1", names, Defines);
    var vs := Values(names, Defines);
    assert vs == [0x01, 0x02, 0x05, 0x00] by {
      assert vs[0] == Defines["QUIZ_QUESTION_HEADER_2"] && vs[1] == Defines["QUIZ_QUESTION_HEADER_3"];
      assert vs[2] == Defines["QUIZ_QUESTION_HEADER_4"] && vs[3] == Defines["QUIZ_QUESTION_HEADER_5"];
    }
    assert [Defines["QUIZ_QUESTION_HEADER_1"]] + vs == Header;
  }

  /** The lines of one run of entries compile to their segment bytes. */
  lemma {:induction false} CompileEntries(es: seq<DialogString>)
    requires Dialog.ShortStrings(es)
    ensures Compile(Dialog.CodeLines(es, Escaped), Defines) == Some(Dialog.EntriesBytes(es))
  {
    Dialog.CompileCodeLines(es, Escaped, Defines);
  }

  lemma {:induction false} CompileTextHead(q: QuizQuestionData)
    ensures Compile(TextHead(q), Defines) == Some(Header + [(|q.text| + |q.options|) % 0x100])
  {
    CompileHeaderLine();
    CompileHeadLines(HeaderLine, Header, "/* QuizQuestion */", |q.text| + |q.options|, Defines);
  }

  lemma {:induction false} CompileOptions(q: QuizQuestionData)
    requires Dialog.ShortStrings(q.options)
    ensures Compile(OptionsHead() + Dialog.CodeLines(q.options, Escaped), Defines) == Some(Dialog.EntriesBytes(q.options))
  {
    CompileCommentLine("/* Options */", Defines);
    CompileOne(Tab + "/* Options */" + "\n", Defines);
    CompileEntries(q.options);
    CompileAppend(OptionsHead(), Dialog.CodeLines(q.options, Escaped), Defines);
    assert ([] + []) + Dialog.EntriesBytes(q.options) == Dialog.EntriesBytes(q.options);
  }

  /** The corrected array body, with one shared count and backslashes
      escaped, holds exactly the segment the question is stored as. */
  lemma {:induction false} CompileCodeText(q: QuizQuestionData)
    requires Fits(q)
    ensures Compile(BodyLines(q), Defines) == Some(SegmentBytes(q))
  {
    var head, options := TextHead(q), OptionsHead() + Dialog.CodeLines(q.options, Escaped);
    CompileTextHead(q);
    CompileEntries(q.text);
    CompileOptions(q);
    CompileThree(head, Dialog.CodeLines(q.text, Escaped), options, Header + [(|q.text| + |q.options|) % 0x100],
                 Dialog.EntriesBytes(q.text), Dialog.EntriesBytes(q.options), Defines);
    LowByte(|q.text| + |q.options|);
  }

  /** Parsing the compiled corrected array body gives back the question. */
  lemma {:induction false} DecodeOfCodeText(q: QuizQuestionData)
    requires Fits(q)
    ensures Compile(BodyLines(q), Defines).Some?
    ensures Decode(Compile(BodyLines(q), Defines).value) == Ok(Some(q))
  {
    CompileCodeText(q);
    DecodeSegment(q, []);
    assert SegmentBytes(q) + [] == SegmentBytes(q);
  }

  /** The array as written, when no string holds a backslash, compiles to
      the text count alone in the count byte and an extra options count
      byte between the sections. */
  lemma {:induction false} CompileWrittenCodeText(q: QuizQuestionData)
    requires Dialog.ShortStrings(q.text) && Dialog.ShortStrings(q.options)
    requires Dialog.AllReadable(AsWritten, q.text) && Dialog.AllReadable(AsWritten, q.options)
    ensures Compile(WrittenBodyLines(q), Defines)
      == Some(Header + ([|q.text| % 0x100] + Dialog.EntriesBytes(q.text)) + ([|q.options| % 0x100] + Dialog.EntriesBytes(q.options)))
  {
    var text := Dialog.SectionLines("/* QuizQuestion */", q.text, AsWritten);
    var options := Dialog.SectionLines("/* Options */", q.options, AsWritten);
    CompileHeaderLine();
    CompileOne(HeaderLine, Defines);
    assert Header + [] == Header;
    Dialog.CompileSection("/* QuizQuestion */", q.text, AsWritten, Defines);
    Dialog.CompileSection("/* Options */", q.options, AsWritten, Defines);
    CompileThree([HeaderLine], text, options, Header, [|q.text| % 0x100] + Dialog.EntriesBytes(q.text),
                 [|q.options| % 0x100] + Dialog.EntriesBytes(q.options), Defines);
  }

  /** The array as written, for a question whose strings hold no
      backslash, is never the segment the question is stored as: it is
      one byte longer. */
  lemma {:induction false} WrittenCodeTextMismatch(q: QuizQuestionData)
    requires Fits(q)
    requires Dialog.AllReadable(AsWritten, q.text) && Dialog.AllReadable(AsWritten, q.options)
    ensures Compile(WrittenBodyLines(q), Defines).Some?
    ensures |Compile(WrittenBodyLines(q), Defines).value| == |SegmentBytes(q)| + 1
  {
    CompileWrittenCodeText(q);
  }
}
