/** BK64 Grunty question (`GruntyQuestionFactory.cpp`): laid out as a quiz
    question, except that each of the three options carries two unknown
    bytes between its length byte and its string, and its length byte
    counts those two bytes as well.

    Partners: the segment parses back (`DecodeSegment`), the modding import
    undoes the export up to the string terminator and the three-option rule
    (`ImportOfExport`), the corrected C array compiles to the segment
    (`CompileCodeText`), and the C array as written compiles to one byte
    more (`CompileWrittenCodeText`). */
module GruntyQuestion {
  import opened Results
  import opened Bytes
  import opened BinaryReader
  import opened BinaryWriter
  import opened Yaml
  import opened CText
  import Dialog
  import QuizQuestion

  type DialogString = Dialog.DialogString

  /** `OptionString`. */
  datatype OptionString = OptionString(cmd: u8, unk0: u8, unk1: u8, str: seq<u8>)

  /** `GruntyQuestionData`. */
  datatype GruntyQuestionData = GruntyQuestionData(text: seq<DialogString>, options: seq<OptionString>)

  /** GRUNTY_QUESTION_HEADER_1..5. */
  const Header: seq<u8> := [0x01, 0x03, 0x00, 0x05, 0x00]

  // ---------------------------------------------------------------------
  // The segment

  /** One option at `p`: command byte, length byte, the two unknown bytes,
      then the length minus two string bytes. A length below 2 asks
      `ReadString` for a negative count, which converts to a huge size:
      the read fails. */
  function OptionAt(s: seq<u8>, p: nat): Result<(OptionString, nat)> {
    if p + 4 > |s| || s[p + 1] < 2 || p + 2 + s[p + 1] > |s| then Err(ReadPastEnd)
    else Ok((OptionString(s[p], s[p + 2], s[p + 3], s[p + 4..p + 2 + s[p + 1]]), p + 2 + s[p + 1]))
  }

  /** `n` options from `p`, after those already read in `acc`, and the
      position that follows them. */
  function OptionsFrom(s: seq<u8>, p: nat, n: nat, acc: seq<OptionString>): Result<(seq<OptionString>, nat)>
    decreases n
  {
    if n == 0 then Ok((acc, p))
    else
      var o :- OptionAt(s, p);
      OptionsFrom(s, o.1, n - 1, acc + [o.0])
  }

  function Options(s: seq<u8>, p: nat, n: nat): Result<(seq<OptionString>, nat)> {
    OptionsFrom(s, p, n, [])
  }

  /** What `GruntyQuestionFactory::parse` makes of a segment: `Ok(None)` is
      the rejected header. The loops run as the quiz question's do. */
  function Decode(s: seq<u8>): (r: Result<Option<GruntyQuestionData>>)
    ensures |s| < 5 ==> r == Err(ReadPastEnd)
    ensures r == Ok(None) <==> 5 <= |s| && s[..5] != Header
  {
    if |s| < 5 then Err(ReadPastEnd)
    else if s[..5] != Header then Ok(None)
    else
      var textSize :- ByteAt(s, 5);
      var text :- Dialog.Entries(s, 6, QuizQuestion.TextCount(textSize));
      var options :- Options(s, text.1, QuizQuestion.OptionCount(textSize));
      Ok(Some(GruntyQuestionData(text.0, options.0)))
  }

  /** Reads `n` options at the cursor (the parser's second loop). */
  method ReadOptions(reader: Reader, n: nat) returns (r: Result<seq<OptionString>>)
    modifies reader
    ensures Positioned(r, reader.pos) == Options(reader.data, old(reader.pos), n)
  {
    var options: seq<OptionString> := [];
    var i := 0;
    while i < n
      invariant 0 <= i <= n
      invariant OptionsFrom(reader.data, old(reader.pos), n, []) == OptionsFrom(reader.data, reader.pos, n - i, options)
    {
      var option :- ReadOption(reader);
      options := options + [option];
      i := i + 1;
    }
    return Ok(options);
  }

  /** One turn of the option loop: the command, the length, the unknown
      bytes and the string that the length counts. */
  method ReadOption(reader: Reader) returns (r: Result<OptionString>)
    modifies reader
    ensures Positioned(r, reader.pos) == OptionAt(reader.data, old(reader.pos))
  {
    var cmd :- reader.ReadUByte();
    var strLen :- reader.ReadUByte();
    var unk0 :- reader.ReadUByte();
    var unk1 :- reader.ReadUByte();
    if strLen < 2 {
      return Err(ReadPastEnd);
    }
    var str :- reader.ReadString(strLen - 2);
    return Ok(OptionString(cmd, unk0, unk1, str));
  }

  /** `GruntyQuestionFactory::parse`. */
  method Parse(segment: seq<u8>) returns (r: Result<Option<GruntyQuestionData>>)
    ensures r == Decode(segment)
  {
    var reader := new Reader(segment);
    var header1 :- reader.ReadInt8();
    var header2 :- reader.ReadInt8();
    var header3 :- reader.ReadInt8();
    var header4 :- reader.ReadInt8();
    var header5 :- reader.ReadInt8();
    if header1 != 0x01 || header2 != 0x03 || header3 != 0x00 || header4 != 0x05 || header5 != 0x00 {
      assert segment[..5] != Header by {
        assert forall k :: 0 <= k < 5 ==> segment[..5][k] == segment[k];
      }
      return Ok(None);
    }
    assert segment[..5] == Header;
    var textSize :- reader.ReadUByte();
    // `for (uint8_t i = 0; i < textSize - 3; i++)`
    var text :- Dialog.ReadEntries(reader, QuizQuestion.TextCount(textSize));
    // `for (uint8_t i = textSize - 3; i < textSize; i++)`
    var options :- ReadOptions(reader, QuizQuestion.OptionCount(textSize));
    return Ok(Some(GruntyQuestionData(text, options)));
  }

  /** Every option's string length, plus `extra`, fits a length byte; the
      segment adds 2, for the unknown bytes. */
  predicate ShortOptions(os: seq<OptionString>, extra: nat) {
    forall i :: 0 <= i < |os| ==> |os[i].str| + extra < 0x100
  }

  lemma {:induction false} ShortTail(os: seq<OptionString>, extra: nat)
    requires os != [] && ShortOptions(os, extra)
    ensures |os[0].str| + extra < 0x100 && ShortOptions(os[1..], extra)
  {
    assert forall i :: 0 <= i < |os[1..]| ==> os[1..][i] == os[i + 1];
  }

  /** A question the segment layout can hold. */
  predicate Fits(g: GruntyQuestionData) {
    |g.options| == 3 && |g.text| + 3 < 0x100 && Dialog.ShortStrings(g.text) && ShortOptions(g.options, 2)
  }

  /** An option's bytes, with `extra` added to its string length in the
      length byte; the segment stores 2 there, for the unknown bytes. */
  function OptionBytes(o: OptionString, extra: nat): seq<u8>
    requires |o.str| + extra < 0x100
  {
    [o.cmd, (|o.str| + extra) as u8, o.unk0, o.unk1] + o.str
  }

  function OptionsBytes(os: seq<OptionString>, extra: nat): seq<u8>
    requires ShortOptions(os, extra)
  {
    if os == [] then [] else OptionBytes(os[0], extra) + OptionsBytes(os[1..], extra)
  }

  /** The segment a question is stored as. */
  function SegmentBytes(g: GruntyQuestionData): seq<u8>
    requires Fits(g)
  {
    Header + [(|g.text| + |g.options|) as u8] + Dialog.EntriesBytes(g.text) + OptionsBytes(g.options, 2)
  }

  lemma {:induction false} OptionAtBytes(s: seq<u8>, p: nat, o: OptionString)
    requires |o.str| + 2 < 0x100
    requires p + |OptionBytes(o, 2)| <= |s| && s[p..p + |OptionBytes(o, 2)|] == OptionBytes(o, 2)
    ensures OptionAt(s, p) == Ok((o, p + |OptionBytes(o, 2)|))
  {
    var b := OptionBytes(o, 2);
    assert s[p] == b[0] && s[p + 1] == b[1] && s[p + 2] == b[2] && s[p + 3] == b[3];
    Dialog.SliceOfConcat(s, p, b[..4], o.str);
  }

  /** One step of the option loop. */
  lemma {:induction false} OptionsFromStep(s: seq<u8>, p: nat, n: nat, acc: seq<OptionString>, o: OptionString, p1: nat)
    requires n > 0 && OptionAt(s, p) == Ok((o, p1))
    ensures OptionsFrom(s, p, n, acc) == OptionsFrom(s, p1, n - 1, acc + [o])
  {
  }

  /** The first of the options laid out at `p` reads back, and the others
      are laid out right after it. */
  lemma {:induction false} FirstOptionOfBytes(s: seq<u8>, p: nat, os: seq<OptionString>)
    requires os != [] && ShortOptions(os, 2)
    requires p + |OptionsBytes(os, 2)| <= |s| && s[p..p + |OptionsBytes(os, 2)|] == OptionsBytes(os, 2)
    ensures |os[0].str| + 2 < 0x100 && ShortOptions(os[1..], 2)
    ensures OptionAt(s, p) == Ok((os[0], p + |OptionBytes(os[0], 2)|))
    ensures var p1 := p + |OptionBytes(os[0], 2)|;
      p1 + |OptionsBytes(os[1..], 2)| == p + |OptionsBytes(os, 2)|
      && s[p1..p1 + |OptionsBytes(os[1..], 2)|] == OptionsBytes(os[1..], 2)
  {
    ShortTail(os, 2);
    var a, b := OptionBytes(os[0], 2), OptionsBytes(os[1..], 2);
    Dialog.SliceOfConcat(s, p, a, b);
    OptionAtBytes(s, p, os[0]);
  }

  /** Options laid out at `p` read back, and the cursor ends after them. */
  lemma {:induction false} OptionsOfBytes(s: seq<u8>, p: nat, os: seq<OptionString>, acc: seq<OptionString>)
    requires ShortOptions(os, 2)
    requires p + |OptionsBytes(os, 2)| <= |s| && s[p..p + |OptionsBytes(os, 2)|] == OptionsBytes(os, 2)
    ensures OptionsFrom(s, p, |os|, acc) == Ok((acc + os, p + |OptionsBytes(os, 2)|))
    decreases |os|
  {
    if os == [] {
      assert acc + os == acc;
    } else {
      FirstOptionOfBytes(s, p, os);
      var p1 := p + |OptionBytes(os[0], 2)|;
      OptionsFromStep(s, p, |os|, acc, os[0], p1);
      OptionsOfBytes(s, p1, os[1..], acc + [os[0]]);
      Dialog.SnocCons(acc, os);
    }
  }

  lemma {:induction false} OptionsSection(s: seq<u8>, p: nat, os: seq<OptionString>)
    requires ShortOptions(os, 2)
    requires p + |OptionsBytes(os, 2)| <= |s| && s[p..p + |OptionsBytes(os, 2)|] == OptionsBytes(os, 2)
    ensures Options(s, p, |os|) == Ok((os, p + |OptionsBytes(os, 2)|))
  {
    OptionsOfBytes(s, p, os, []);
    assert [] + os == os;
  }

  /** An option that reads at `p` is the bytes from `p` to the position after it. */
  lemma {:induction false} BytesOfOptionAt(s: seq<u8>, p: nat)
    requires OptionAt(s, p).Ok?
    ensures var (o, p1) := OptionAt(s, p).value;
      |o.str| + 2 < 0x100 && p <= p1 <= |s| && s[p..p1] == OptionBytes(o, 2)
  {
    var (o, p1) := OptionAt(s, p).value;
    assert s[p..p1] == s[p..p + 4] + s[p + 4..p1];
  }

  lemma {:induction false} ShortCons(o: OptionString, os: seq<OptionString>, extra: nat)
    requires |o.str| + extra < 0x100 && ShortOptions(os, extra)
    ensures ShortOptions([o] + os, extra) && ([o] + os)[1..] == os
  {
    assert forall i :: 1 <= i < |[o] + os| ==> ([o] + os)[i] == os[i - 1];
  }

  /** What the options read from `p` are: exactly the bytes between `p` and
      the final cursor, laid out option by option. */
  lemma {:induction false} BytesOfOptions(s: seq<u8>, p: nat, n: nat, acc: seq<OptionString>)
    requires p <= |s| && OptionsFrom(s, p, n, acc).Ok?
    ensures var (xs, q) := OptionsFrom(s, p, n, acc).value;
      |xs| == |acc| + n && xs[..|acc|] == acc && ShortOptions(xs[|acc|..], 2)
      && p <= q <= |s| && s[p..q] == OptionsBytes(xs[|acc|..], 2)
    decreases n
  {
    var (xs, q) := OptionsFrom(s, p, n, acc).value;
    if n == 0 {
      assert xs[|acc|..] == [];
    } else {
      var (o, p1) := OptionAt(s, p).value;
      BytesOfOptionAt(s, p);
      OptionsFromStep(s, p, n, acc, o, p1);
      BytesOfOptions(s, p1, n - 1, acc + [o]);
      var ys := xs[|acc| + 1..];
      Dialog.PrefixStep(xs, acc, o);
      ShortCons(o, ys, 2);
      AdjacentSlices(s, p, p1, q);
    }
  }

  lemma {:induction false} BytesOfOptionsSection(s: seq<u8>, p: nat, n: nat)
    requires p <= |s| && Options(s, p, n).Ok?
    ensures var (xs, q) := Options(s, p, n).value;
      |xs| == n && ShortOptions(xs, 2) && p <= q <= |s| && s[p..q] == OptionsBytes(xs, 2)
  {
    BytesOfOptions(s, p, n, []);
    var xs := Options(s, p, n).value.0;
    assert xs[0..] == xs;
  }

  /** A parse yields `textSize - 3` text entries and three options, or none
      at all when the count is below 3. */
  lemma {:induction false} DecodeCounts(s: seq<u8>, g: GruntyQuestionData)
    requires Decode(s) == Ok(Some(g))
    ensures |s| > 5
    ensures s[5] >= 3 ==> |g.options| == 3 && |g.text| + 3 == s[5]
    ensures s[5] < 3 ==> g.text == [] && g.options == []
  {
    Dialog.BytesOfSection(s, 6, QuizQuestion.TextCount(s[5]));
    var (text, p) := Dialog.Entries(s, 6, QuizQuestion.TextCount(s[5])).value;
    BytesOfOptionsSection(s, p, QuizQuestion.OptionCount(s[5]));
  }

  /** The parser's steps, each succeeding. */
  lemma {:induction false} DecodeOf(s: seq<u8>, text: seq<DialogString>, p: nat, options: seq<OptionString>, e: nat)
    requires |s| > 5 && s[..5] == Header && s[5] >= 3 && |text| == QuizQuestion.TextCount(s[5])
    requires Dialog.Entries(s, 6, |text|) == Ok((text, p))
    requires |options| == QuizQuestion.OptionCount(s[5]) && Options(s, p, |options|) == Ok((options, e))
    ensures Decode(s) == Ok(Some(GruntyQuestionData(text, options)))
  {
  }

  /** A segment whose parts are those of `g` parses as `g`. */
  lemma {:induction false} DecodeParts(s: seq<u8>, g: GruntyQuestionData, tb: seq<u8>, ob: seq<u8>)
    requires Fits(g) && tb == Dialog.EntriesBytes(g.text) && ob == OptionsBytes(g.options, 2)
    requires 6 + |tb| + |ob| <= |s| && s[..5] == Header && s[5] as int == |g.text| + |g.options|
    requires s[6..6 + |tb|] == tb && s[6 + |tb|..6 + |tb| + |ob|] == ob
    ensures Decode(s) == Ok(Some(g))
  {
    var p := 6 + |tb|;
    var e := p + |ob|;
    assert |g.text| == QuizQuestion.TextCount(s[5]) && |g.options| == QuizQuestion.OptionCount(s[5]);
    Dialog.SectionOfBytes(s, 6, g.text);
    OptionsSection(s, p, g.options);
    DecodeOf(s, g.text, p, g.options, e);
  }

  /** A question laid out as a segment parses back, whatever follows it. */
  lemma {:induction false} DecodeSegment(g: GruntyQuestionData, rest: seq<u8>)
    requires Fits(g)
    ensures Decode(SegmentBytes(g) + rest) == Ok(Some(g))
  {
    var tb, ob := Dialog.EntriesBytes(g.text), OptionsBytes(g.options, 2);
    var s := SegmentBytes(g) + rest;
    QuizQuestion.Layout(s, Header, (|g.text| + |g.options|) as u8, tb, ob, rest);
    DecodeParts(s, g, tb, ob);
  }

  /** A parsed question with a count of 3 or more is exactly what the
      segment starts with. */
  lemma {:induction false} SegmentOfDecode(s: seq<u8>, g: GruntyQuestionData)
    requires Decode(s) == Ok(Some(g)) && |s| > 5 && s[5] >= 3
    ensures Fits(g) && |SegmentBytes(g)| <= |s| && s[..|SegmentBytes(g)|] == SegmentBytes(g)
  {
    DecodeCounts(s, g);
    Dialog.BytesOfSection(s, 6, QuizQuestion.TextCount(s[5]));
    var (text, p) := Dialog.Entries(s, 6, QuizQuestion.TextCount(s[5])).value;
    BytesOfOptionsSection(s, p, 3);
    var (options, e) := Options(s, p, 3).value;
    QuizQuestion.Regroup(s, p, e);
  }

  // ---------------------------------------------------------------------
  // The binary export

  /** `GruntyQuestionBinaryExporter::Export`: the writer is finished without
      a single write, not even the resource header, whatever the question
      holds. */
  method BinaryExport(g: GruntyQuestionData, order: ByteOrder) returns (out: seq<u8>)
    ensures out == []
  {
    var w := new Writer(order);
    out := w.data;
  }

  // ---------------------------------------------------------------------
  // The modding document

  /** One option as the modding exporter emits it:
      `[0xcmd, 0xunk0, 0xunk1, c_str]`. */
  function OptionNode(o: OptionString): Node {
    List([HexScalar(o.cmd), HexScalar(o.unk0), HexScalar(o.unk1), Scalar(CStr(o.str))])
  }

  function OptionNodes(os: seq<OptionString>): (r: seq<Node>)
    ensures |r| == |os| && forall i :: 0 <= i < |os| ==> r[i] == OptionNode(os[i])
  {
    seq(|os|, i requires 0 <= i < |os| => OptionNode(os[i]))
  }

  /** The document `GruntyQuestionModdingExporter::Export` emits. */
  function ModdingDoc(symbol: string, g: GruntyQuestionData): Node {
    Dict([Entry(symbol, Dict([Entry("Text", List(Dialog.ItemNodes(g.text))),
                              Entry("Options", List(OptionNodes(g.options)))]))])
  }

  /** Emits the options (the exporter's second loop). */
  method EmitOptions(os: seq<OptionString>) returns (items: seq<Node>)
    ensures items == OptionNodes(os)
  {
    items := [];
    var i := 0;
    while i < |os|
      invariant 0 <= i <= |os|
      invariant items == OptionNodes(os[..i])
    {
      items := items + [OptionNode(os[i])];
      i := i + 1;
    }
    assert os[..|os|] == os;
  }

  /** `GruntyQuestionModdingExporter::Export`: the document, and the asset
      path with `.yaml` appended. */
  method ModdingExport(symbol: string, g: GruntyQuestionData, replacement: string) returns (doc: Node, path: string)
    ensures doc == ModdingDoc(symbol, g) && path == replacement + ".yaml"
  {
    path := replacement + ".yaml";
    var text := Dialog.EmitItems(g.text);
    var options := EmitOptions(g.options);
    doc := Dict([Entry(symbol, Dict([Entry("Text", List(text)), Entry("Options", List(options))]))]);
  }

  /** One imported option: `[0]`, `[1]` and `[2]` as `uint32_t` stored into
      bytes, `[3]` as a string with a NUL appended. */
  function ImportOption(item: Node): (r: Result<OptionString>)
    ensures r.Ok? <==> (item.List? && |item.items| >= 4 && AsU32(Some(item.items[0])).Ok?
                        && AsU32(Some(item.items[1])).Ok? && AsU32(Some(item.items[2])).Ok? && item.items[3].Scalar?)
    ensures r.Ok? ==> r.value == OptionString(AsU32(Some(item.items[0])).value % 0x100,
      AsU32(Some(item.items[1])).value % 0x100, AsU32(Some(item.items[2])).value % 0x100, item.items[3].text + [0])
  {
    var cmdNode :- Element(item, 0);
    var cmd :- AsU32(cmdNode);
    var unk0 :- AsU32(Element(item, 1).value);   // `item` is a sequence here: the subscripts cannot throw
    var unk1 :- AsU32(Element(item, 2).value);
    var str :- AsString(Element(item, 3).value);
    Ok(OptionString(cmd % 0x100, unk0 % 0x100, unk1 % 0x100, str + [0]))
  }

  /** The options of `items`, after those already imported in `acc`. */
  function ImportOptionsFrom(items: seq<Node>, acc: seq<OptionString>): Result<seq<OptionString>>
    decreases |items|
  {
    if items == [] then Ok(acc)
    else
      var o :- ImportOption(items[0]);
      ImportOptionsFrom(items[1..], acc + [o])
  }

  /** The importer's option loop and the check after it: the first three
      items are imported, and fewer than three is an error. */
  function ImportOptions(items: seq<Node>): Result<seq<OptionString>> {
    var options :- ImportOptionsFrom(QuizQuestion.Kept(items), []);
    if |QuizQuestion.Kept(items)| != 3 then Err(WrongOptionCount) else Ok(options)
  }

  /** What `GruntyQuestionFactory::parse_modding` makes of a loaded
      document; `None` is text the YAML parser rejects. */
  function Import(doc: Option<Node>): Result<Option<GruntyQuestionData>> {
    if doc.None? then Ok(None)
    else
      var info :- FirstValue(doc.value);
      var textNode :- Child(info, "Text");
      var optionsNode := Child(info, "Options").value;   // `info` is not a scalar here: the subscript cannot throw
      var textItems :- Members(textNode);
      var text :- Dialog.ImportEntries(textItems, []);
      var optionItems :- Members(optionsNode);
      var options :- ImportOptions(optionItems);
      Ok(Some(GruntyQuestionData(text, options)))
  }

  /** The option loop: a counter, a `break` at the third option, and the
      check that exactly three were read. */
  method ImportOptionItems(items: seq<Node>) returns (r: Result<seq<OptionString>>)
    ensures r == ImportOptions(items)
  {
    var options: seq<OptionString> := [];
    var i: u32 := 0;
    var k := 0;
    ghost var kept := QuizQuestion.Kept(items);
    while k < |items|
      invariant k == i as int == |options| && k < 3 && k <= |kept|
      invariant ImportOptionsFrom(kept, []) == ImportOptionsFrom(kept[k..], options)
    {
      assert items[k] == kept[k] && kept[k..][1..] == kept[k + 1..];
      var cmdNode :- Element(items[k], 0);
      var cmd :- AsU32(cmdNode);
      var unk0 :- AsU32(Element(items[k], 1).value);
      var unk1 :- AsU32(Element(items[k], 2).value);
      var str :- AsString(Element(items[k], 3).value);
      options := options + [OptionString(cmd % 0x100, unk0 % 0x100, unk1 % 0x100, str + [0])];
      i := i + 1;
      if i >= 3 {
        break;
      }
      k := k + 1;
    }
    if i != 3 {
      return Err(WrongOptionCount);
    }
    return Ok(options);
  }

  /** `GruntyQuestionFactory::parse_modding`. */
  method ParseModding(doc: Option<Node>) returns (r: Result<Option<GruntyQuestionData>>)
    ensures r == Import(doc)
  {
    if doc.None? {
      return Ok(None);
    }
    var info :- FirstValue(doc.value);
    var textNode :- Child(info, "Text");
    var optionsNode := Child(info, "Options").value;
    var textItems :- Members(textNode);
    var text :- Dialog.ImportItems(textItems);
    var optionItems :- Members(optionsNode);
    var options :- ImportOptionItems(optionItems);
    return Ok(Some(GruntyQuestionData(text, options)));
  }

  /** Each option's string cut at its first NUL and terminated by one NUL,
      in order. */
  function TerminatedOptions(os: seq<OptionString>): (r: seq<OptionString>)
    ensures |r| == |os|
  {
    seq(|os|, i requires 0 <= i < |os| => OptionString(os[i].cmd, os[i].unk0, os[i].unk1, CStr(os[i].str) + [0]))
  }

  lemma {:induction false} TerminatedCons(os: seq<OptionString>)
    requires os != []
    ensures TerminatedOptions(os)
         == [OptionString(os[0].cmd, os[0].unk0, os[0].unk1, CStr(os[0].str) + [0])] + TerminatedOptions(os[1..])
  {
  }

  lemma {:induction false} OptionNodesTail(os: seq<OptionString>)
    requires os != []
    ensures OptionNodes(os)[0] == OptionNode(os[0]) && OptionNodes(os)[1..] == OptionNodes(os[1..])
  {
  }

  lemma {:induction false} ImportOptionNode(o: OptionString)
    ensures ImportOption(OptionNode(o)) == Ok(OptionString(o.cmd, o.unk0, o.unk1, CStr(o.str) + [0]))
  {
    var item := OptionNode(o);
    AsU32OfHexScalar(o.cmd);
    AsU32OfHexScalar(o.unk0);
    AsU32OfHexScalar(o.unk1);
    LowByte(o.cmd);
    LowByte(o.unk0);
    LowByte(o.unk1);
    assert Element(item, 0) == Ok(Some(HexScalar(o.cmd)));
    assert Element(item, 1) == Ok(Some(HexScalar(o.unk0)));
    assert Element(item, 2) == Ok(Some(HexScalar(o.unk1)));
    assert Element(item, 3) == Ok(Some(Scalar(CStr(o.str))));
  }

  lemma {:induction false} ImportOptionNodes(os: seq<OptionString>, acc: seq<OptionString>)
    ensures ImportOptionsFrom(OptionNodes(os), acc) == Ok(acc + TerminatedOptions(os))
    decreases |os|
  {
    if os == [] {
      assert OptionNodes(os) == [];
      assert acc + TerminatedOptions(os) == acc;
    } else {
      var o := os[0];
      var t := OptionString(o.cmd, o.unk0, o.unk1, CStr(o.str) + [0]);
      ImportOptionNode(o);
      OptionNodesTail(os);
      ImportOptionNodes(os[1..], acc + [t]);
      TerminatedCons(os);
      assert (acc + [t]) + TerminatedOptions(os[1..]) == acc + TerminatedOptions(os);
    }
  }

  lemma {:induction false} DocLookups(symbol: string, g: GruntyQuestionData)
    ensures var info := Dict([Entry("Text", List(Dialog.ItemNodes(g.text))),
                              Entry("Options", List(OptionNodes(g.options)))]);
      FirstValue(ModdingDoc(symbol, g)) == Ok(info)
      && Child(info, "Text") == Ok(Some(List(Dialog.ItemNodes(g.text))))
      && Child(info, "Options") == Ok(Some(List(OptionNodes(g.options))))
  {
    var inner := [Entry("Text", List(Dialog.ItemNodes(g.text))), Entry("Options", List(OptionNodes(g.options)))];
    assert Lookup(inner, "Text") == Some(List(Dialog.ItemNodes(g.text)));
    assert inner[1..] == [Entry("Options", List(OptionNodes(g.options)))];
    assert Lookup(inner, "Options") == Some(List(OptionNodes(g.options)));
  }

  /** Importing the modding export of a question with three or more options
      gives back its text and its first three options, in order, each string
      cut at its first NUL and terminated by one NUL, the command and the
      unknown bytes unchanged; with fewer than three options the import
      fails. */
  lemma {:induction false} ImportOfExport(symbol: string, g: GruntyQuestionData)
    ensures |g.options| >= 3 ==>
      Import(Some(ModdingDoc(symbol, g)))
      == Ok(Some(GruntyQuestionData(Dialog.Terminated(g.text), TerminatedOptions(g.options[..3]))))
    ensures |g.options| < 3 ==> Import(Some(ModdingDoc(symbol, g))) == Err(WrongOptionCount)
  {
    DocLookups(symbol, g);
    Dialog.ImportItemNodes(g.text, []);
    assert [] + Dialog.Terminated(g.text) == Dialog.Terminated(g.text);
    ImportOptionsOfNodes(g.options);
  }

  /** The option import of emitted options: the first three, terminated,
      or an error when there are fewer. */
  lemma {:induction false} ImportOptionsOfNodes(os: seq<OptionString>)
    ensures |os| >= 3 ==> ImportOptions(OptionNodes(os)) == Ok(TerminatedOptions(os[..3]))
    ensures |os| < 3 ==> ImportOptions(OptionNodes(os)) == Err(WrongOptionCount)
  {
    var items := OptionNodes(os);
    var first := if |os| >= 3 then os[..3] else os;
    assert QuizQuestion.Kept(items) == OptionNodes(first);
    ImportOptionNodes(first, []);
    assert [] + TerminatedOptions(first) == TerminatedOptions(first);
  }

  /** One step of the import loop. */
  lemma {:induction false} ImportOptionsStep(items: seq<Node>, acc: seq<OptionString>)
    requires items != [] && ImportOptionsFrom(items, acc).Ok?
    ensures ImportOption(items[0]).Ok?
    ensures ImportOptionsFrom(items, acc) == ImportOptionsFrom(items[1..], acc + [ImportOption(items[0]).value])
  {
  }

  lemma {:induction false} ImportOptionsEach(items: seq<Node>, acc: seq<OptionString>)
    requires ImportOptionsFrom(items, acc).Ok?
    ensures var r := ImportOptionsFrom(items, acc).value;
      |r| == |acc| + |items| && r[..|acc|] == acc
      && forall i :: 0 <= i < |items| ==> Ok(r[|acc| + i]) == ImportOption(items[i])
    decreases |items|
  {
    if items != [] {
      ImportOptionsStep(items, acc);
      var v := ImportOption(items[0]).value;
      ImportOptionsEach(items[1..], acc + [v]);
      var r := ImportOptionsFrom(items, acc).value;
      Dialog.PrefixStep(r, acc, v);
      forall i | 0 <= i < |items|
        ensures Ok(r[|acc| + i]) == ImportOption(items[i])
      {
        if i == 0 {
          assert r[|acc|] == (acc + [v])[|acc|];
        } else {
          assert items[1..][i - 1] == items[i];
        }
      }
    }
  }

  /** An imported question has exactly three options, and every option
      string ends with the NUL the import appends. */
  lemma {:induction false} ImportShape(doc: Option<Node>, g: GruntyQuestionData)
    requires Import(doc) == Ok(Some(g))
    ensures |g.options| == 3
    ensures forall i :: 0 <= i < |g.options| ==> |g.options[i].str| >= 1 && g.options[i].str[|g.options[i].str| - 1] == 0
  {
    var info := FirstValue(doc.value).value;
    var optionItems := Members(Child(info, "Options").value).value;
    var kept := QuizQuestion.Kept(optionItems);
    ImportOptionsEach(kept, []);
    forall i | 0 <= i < |g.options|
      ensures |g.options[i].str| >= 1 && g.options[i].str[|g.options[i].str| - 1] == 0
    {
      assert Ok(g.options[0 + i]) == ImportOption(kept[i]);
    }
  }

  // ---------------------------------------------------------------------
  // The C source

  /** The header macros after the first. */
  const HeaderNames: seq<string> := ["GRUNTY_QUESTION_HEADER_2", "GRUNTY_QUESTION_HEADER_3", "GRUNTY_QUESTION_HEADER_4",
    "GRUNTY_QUESTION_HEADER_5"]

  /** The header line: the five macro names separated by `, `. */
  const HeaderLine: string := Tab + "GRUNTY_QUESTION_HEADER_1" + NameElements(HeaderNames) + ",\n"

  /** The values the header macros are defined with. */
  const Defines: map<string, u8> := map["GRUNTY_QUESTION_HEADER_1" := 0x01, "GRUNTY_QUESTION_HEADER_2" := 0x03,
    "GRUNTY_QUESTION_HEADER_3" := 0x00, "GRUNTY_QUESTION_HEADER_4" := 0x05, "GRUNTY_QUESTION_HEADER_5" := 0x00]

  /** An option line after its command: the length `len`, the unknown bytes,
      the string's bytes rendered by `r`. */
  function OptionElements(o: OptionString, len: nat, r: Rendering): string {
    DecimalElement(len) + (HexElement(o.unk0) + (HexElement(o.unk1) + Rendered(r, o.str)))
  }

  /** An option line whose length element is `len`. */
  function OptionLineWith(o: OptionString, len: nat, r: Rendering): string {
    Tab + "0x" + HexUpper(o.cmd, 2) + OptionElements(o, len, r) + ",\n"
  }

  /** Option lines whose length elements are the string length plus `extra`. */
  function OptionLines(os: seq<OptionString>, extra: nat, r: Rendering): (lines: seq<string>)
    ensures |lines| == |os| && forall i :: 0 <= i < |os| ==> lines[i] == OptionLineWith(os[i], |os[i].str| + extra, r)
  {
    seq(|os|, i requires 0 <= i < |os| => OptionLineWith(os[i], |os[i].str| + extra, r))
  }

  /** Every option string reads back under rendering `r`. */
  predicate OptionsReadable(r: Rendering, os: seq<OptionString>) {
    forall i :: 0 <= i < |os| ==> Readable(r, os[i].str)
  }

  /** The options section as the exporter writes it: its comment, its own
      count, and option lengths that are the string length alone. */
  function WrittenOptionLines(os: seq<OptionString>): seq<string> {
    [Tab + "/* Options */" + "\n", Tab + Decimal(|os|) + ",\n"] + OptionLines(os, 0, AsWritten)
  }

  /** The array body as the exporter writes it: the text section and the
      options section each open with their own count, each option's length
      element is its string length alone, and the bytes are rendered as
      written. */
  function WrittenBodyLines(g: GruntyQuestionData): seq<string> {
    [HeaderLine] + Dialog.SectionLines("/* GruntyQuestion */", g.text, AsWritten) + WrittenOptionLines(g.options)
  }

  /** The text `GruntyQuestionCodeExporter::Export` writes. */
  function CodeText(symbol: string, g: GruntyQuestionData): string {
    "u8 " + symbol + "[] = {\n" + Join(WrittenBodyLines(g)) + "};\n\n"
  }

  /** The header line, the question comment and the count of all entries. */
  function TextHead(g: GruntyQuestionData): seq<string> {
    [HeaderLine, Tab + "/* GruntyQuestion */" + "\n", Tab + Decimal(|g.text| + |g.options|) + ",\n"]
  }

  function OptionsHead(): seq<string> {
    [Tab + "/* Options */" + "\n"]
  }

  /** The corrected array body, laid out as the segment is: one count for
      text and options together, option lengths that count the unknown
      bytes, and backslashes escaped. */
  function BodyLines(g: GruntyQuestionData): seq<string> {
    TextHead(g) + Dialog.CodeLines(g.text, Escaped) + (OptionsHead() + OptionLines(g.options, 2, Escaped))
  }

  /** Writes one option line as the exporter does. */
  method WriteOptionLine(o: OptionString, len: nat) returns (line: string)
    ensures line == OptionLineWith(o, len, AsWritten)
  {
    var chars := WriteChars(", 0x" + HexUpper(o.unk1, 2), o.str);
    line := Tab + "0x" + HexUpper(o.cmd, 2) + (", " + Decimal(len) + (", 0x" + HexUpper(o.unk0, 2) + chars)) + ",\n";
  }

  /** Writes the options section (the exporter's second loop, with the
      string length as each option's length element). */
  method WriteOptionSection(os: seq<OptionString>) returns (text: string)
    ensures text == Join(WrittenOptionLines(os))
  {
    ghost var lines := OptionLines(os, 0, AsWritten);
    var comment := Tab + "/* Options */" + "\n";
    var count := Tab + Decimal(|os|) + ",\n";
    var body := "";
    var i := 0;
    while i < |os|
      invariant 0 <= i <= |os|
      invariant body == Join(lines[..i])
    {
      var line := WriteOptionLine(os[i], |os[i].str|);
      JoinStep(lines, i);
      body := body + line;
      i := i + 1;
    }
    assert lines[..|os|] == lines;
    JoinTwoThen(comment, count, lines);
    text := comment + count + body;
  }

  /** `GruntyQuestionCodeExporter::Export`: the text, and the offset it
      returns; the text lines are the dialog exporter's. */
  method CodeExport(symbol: string, g: GruntyQuestionData, offset: u32) returns (text: string, size: u32)
    ensures text == CodeText(symbol, g) && size == offset
  {
    var textSection := Dialog.WriteCodeSection("/* GruntyQuestion */", g.text);
    var optionSection := WriteOptionSection(g.options);
    JoinLineThen(HeaderLine, Dialog.SectionLines("/* GruntyQuestion */", g.text, AsWritten), WrittenOptionLines(g.options));
    Enclose("u8 " + symbol + "[] = {\n", Join(WrittenBodyLines(g)), HeaderLine, textSection, optionSection, "};\n\n");
    text := "u8 " + symbol + "[] = {\n" + HeaderLine + textSection + optionSection + "};\n\n";
    size := offset;
  }

  lemma {:induction false} HeaderNameIsName(k: nat)
    requires 1 <= k <= 5
    ensures IsName("GRUNTY_QUESTION_HEADER_" + [('0' as int + k) as char])
  {
    var name := "GRUNTY_QUESTION_HEADER_" + [('0' as int + k) as char];
    assert forall i :: 0 <= i < |name| ==> IsNameChar(name[i]);
  }

  lemma {:induction false} HeaderNamesDefined()
    ensures IsName("GRUNTY_QUESTION_HEADER_1") && "GRUNTY_QUESTION_HEADER_1" in Defines
    ensures forall i :: 0 <= i < |HeaderNames| ==> IsName(HeaderNames[i]) && HeaderNames[i] in Defines
  {
    HeaderNameIsName(1);
    HeaderNameIsName(2);
    HeaderNameIsName(3);
    HeaderNameIsName(4);
    HeaderNameIsName(5);
    assert "GRUNTY_QUESTION_HEADER_1" == "GRUNTY_QUESTION_HEADER_" + ['1'];
    assert HeaderNames[0] == "GRUNTY_QUESTION_HEADER_" + ['2'];
    assert HeaderNames[1] == "GRUNTY_QUESTION_HEADER_" + ['3'];
    assert HeaderNames[2] == "GRUNTY_QUESTION_HEADER_" + ['4'];
    assert HeaderNames[3] == "GRUNTY_QUESTION_HEADER_" + ['5'];
  }

  lemma {:induction false} CompileHeaderLine()
    ensures CompileLine(HeaderLine, Defines) == Some(Header)
  {
    var names := HeaderNames;
    HeaderNamesDefined();
    CompileNameLine("GRUNTY_QUESTION_HEADER_1", names, Defines);
    var vs := Values(names, Defines);
    assert vs == [0x03, 0x00, 0x05, 0x00] by {
      assert vs[0] == Defines["GRUNTY_QUESTION_HEADER_2"] && vs[1] == Defines["GRUNTY_QUESTION_HEADER_3"];
      assert vs[2] == Defines["GRUNTY_QUESTION_HEADER_4"] && vs[3] == Defines["GRUNTY_QUESTION_HEADER_5"];
    }
    assert [Defines["GRUNTY_QUESTION_HEADER_1"]] + vs == Header;
  }

  /** The elements after an option's command read as its length byte, its
      unknown bytes and its string, when the string reads back under `r`. */
  lemma {:induction false} ReadOptionElements(o: OptionString, len: nat, r: Rendering, defines: map<string, u8>)
    requires Readable(r, o.str)
    ensures Delimited(OptionElements(o, len, r))
    ensures ReadItems(OptionElements(o, len, r), defines) == Some([len % 0x100] + ([o.unk0] + ([o.unk1] + o.str)))
  {
    var chars := Rendered(r, o.str);
    ReadRendered(r, o.str, defines);
    ReadHexFront(o.unk1, chars, o.str, defines);
    ReadHexFront(o.unk0, HexElement(o.unk1) + chars, [o.unk1] + o.str, defines);
    ReadDecimalFront(len, HexElement(o.unk0) + (HexElement(o.unk1) + chars), [o.unk0] + ([o.unk1] + o.str), defines);
  }

  /** An option line compiles to the option's bytes with that length:
      always with backslashes escaped, and as written when the string
      holds no backslash. */
  lemma {:induction false} CompileOptionLine(o: OptionString, extra: nat, r: Rendering, defines: map<string, u8>)
    requires |o.str| + extra < 0x100 && Readable(r, o.str)
    ensures CompileLine(OptionLineWith(o, |o.str| + extra, r), defines) == Some(OptionBytes(o, extra))
  {
    CompileOptionLineOf(o, |o.str| + extra, r, defines);
  }

  /** An option line whose length element is `len` compiles to the command,
      `len` and the rest of the option. */
  lemma {:induction false} CompileOptionLineOf(o: OptionString, len: nat, r: Rendering, defines: map<string, u8>)
    requires len < 0x100 && Readable(r, o.str)
    ensures CompileLine(OptionLineWith(o, len, r), defines) == Some([o.cmd, len as u8, o.unk0, o.unk1] + o.str)
  {
    ReadOptionElements(o, len, r, defines);
    FrontBytes(o.cmd, len, o.unk0, o.unk1, o.str);
    CompileItemsLine(o.cmd, OptionElements(o, len, r), OptionLineWith(o, len, r),
                     [len % 0x100] + ([o.unk0] + ([o.unk1] + o.str)), [o.cmd, len as u8, o.unk0, o.unk1] + o.str, defines);
  }

  lemma {:induction false} FrontBytes(a: nat, b: nat, c: u8, d: u8, s: seq<u8>)
    requires a < 0x100 && b < 0x100
    ensures [a % 0x100] + ([b % 0x100] + ([c] + ([d] + s))) == [a as u8, b as u8, c, d] + s
  {
  }

  lemma {:induction false} OptionsBytesConcat(os: seq<OptionString>, extra: nat)
    requires ShortOptions(os, extra)
    ensures OptionsBytes(os, extra) == Concat(seq(|os|, i requires 0 <= i < |os| => OptionBytes(os[i], extra)))
    decreases |os|
  {
    if os != [] {
      ShortTail(os, extra);
      OptionsBytesConcat(os[1..], extra);
      var parts := seq(|os|, i requires 0 <= i < |os| => OptionBytes(os[i], extra));
      assert parts[1..] == seq(|os| - 1, i requires 0 <= i < |os| - 1 => OptionBytes(os[1..][i], extra));
    }
  }

  /** The option lines compile to the options' bytes, one after the other. */
  lemma {:induction false} CompileOptionLines(os: seq<OptionString>, extra: nat, r: Rendering, defines: map<string, u8>)
    requires ShortOptions(os, extra) && OptionsReadable(r, os)
    ensures Compile(OptionLines(os, extra, r), defines) == Some(OptionsBytes(os, extra))
  {
    var lines := OptionLines(os, extra, r);
    var parts := seq(|os|, i requires 0 <= i < |os| => OptionBytes(os[i], extra));
    forall i | 0 <= i < |os|
      ensures CompileLine(lines[i], defines) == Some(parts[i])
    {
      CompileOptionLine(os[i], extra, r, defines);
    }
    CompileEach(lines, parts, defines);
    OptionsBytesConcat(os, extra);
  }

  lemma {:induction false} CompileTextHead(g: GruntyQuestionData)
    ensures Compile(TextHead(g), Defines) == Some(Header + [(|g.text| + |g.options|) % 0x100])
  {
    CompileHeaderLine();
    CompileHeadLines(HeaderLine, Header, "/* GruntyQuestion */", |g.text| + |g.options|, Defines);
  }

  lemma {:induction false} CompileOptions(g: GruntyQuestionData)
    requires ShortOptions(g.options, 2)
    ensures Compile(OptionsHead() + OptionLines(g.options, 2, Escaped), Defines) == Some(OptionsBytes(g.options, 2))
  {
    CompileCommentLine("/* Options */", Defines);
    CompileOne(Tab + "/* Options */" + "\n", Defines);
    CompileOptionLines(g.options, 2, Escaped, Defines);
    CompileAppend(OptionsHead(), OptionLines(g.options, 2, Escaped), Defines);
    assert ([] + []) + OptionsBytes(g.options, 2) == OptionsBytes(g.options, 2);
  }

  /** The corrected array body, with one shared count, option lengths that
      count the unknown bytes and backslashes escaped, holds exactly the
      segment the question is stored as. */
  lemma {:induction false} CompileCodeText(g: GruntyQuestionData)
    requires Fits(g)
    ensures Compile(BodyLines(g), Defines) == Some(SegmentBytes(g))
  {
    var head, options := TextHead(g), OptionsHead() + OptionLines(g.options, 2, Escaped);
    CompileTextHead(g);
    Dialog.CompileCodeLines(g.text, Escaped, Defines);
    CompileOptions(g);
    CompileThree(head, Dialog.CodeLines(g.text, Escaped), options, Header + [(|g.text| + |g.options|) % 0x100],
                 Dialog.EntriesBytes(g.text), OptionsBytes(g.options, 2), Defines);
    LowByte(|g.text| + |g.options|);
  }

  /** Parsing the compiled corrected array body gives back the question. */
  lemma {:induction false} DecodeOfCodeText(g: GruntyQuestionData)
    requires Fits(g)
    ensures Compile(BodyLines(g), Defines).Some?
    ensures Decode(Compile(BodyLines(g), Defines).value) == Ok(Some(g))
  {
    CompileCodeText(g);
    DecodeSegment(g, []);
    assert SegmentBytes(g) + [] == SegmentBytes(g);
  }

  /** The array as written, when no string holds a backslash, compiles to
      the text count alone in the count byte, an extra options count byte,
      and option length bytes that leave out the two unknown bytes. */
  lemma {:induction false} CompileWrittenCodeText(g: GruntyQuestionData)
    requires Dialog.ShortStrings(g.text) && ShortOptions(g.options, 0)
    requires Dialog.AllReadable(AsWritten, g.text) && OptionsReadable(AsWritten, g.options)
    ensures Compile(WrittenBodyLines(g), Defines)
      == Some(Header + ([|g.text| % 0x100] + Dialog.EntriesBytes(g.text)) + ([|g.options| % 0x100] + OptionsBytes(g.options, 0)))
  {
    var text := Dialog.SectionLines("/* GruntyQuestion */", g.text, AsWritten);
    CompileHeaderLine();
    CompileOne(HeaderLine, Defines);
    assert Header + [] == Header;
    Dialog.CompileSection("/* GruntyQuestion */", g.text, AsWritten, Defines);
    CompileWrittenOptions(g.options);
    CompileThree([HeaderLine], text, WrittenOptionLines(g.options), Header, [|g.text| % 0x100] + Dialog.EntriesBytes(g.text),
                 [|g.options| % 0x100] + OptionsBytes(g.options, 0), Defines);
  }

  lemma {:induction false} CompileWrittenOptions(os: seq<OptionString>)
    requires ShortOptions(os, 0) && OptionsReadable(AsWritten, os)
    ensures Compile(WrittenOptionLines(os), Defines) == Some([|os| % 0x100] + OptionsBytes(os, 0))
  {
    var head := [Tab + "/* Options */" + "\n", Tab + Decimal(|os|) + ",\n"];
    CompileCommentAndCount("/* Options */", |os|, Defines);
    CompileOptionLines(os, 0, AsWritten, Defines);
    CompileAppend(head, OptionLines(os, 0, AsWritten), Defines);
  }

  lemma {:induction false} OptionsBytesLength(os: seq<OptionString>, a: nat, b: nat)
    requires ShortOptions(os, a) && ShortOptions(os, b)
    ensures |OptionsBytes(os, a)| == |OptionsBytes(os, b)|
    decreases |os|
  {
    if os != [] {
      ShortTail(os, a);
      ShortTail(os, b);
      OptionsBytesLength(os[1..], a, b);
    }
  }

  /** The array as written, for a question whose strings hold no
      backslash, is never the segment the question is stored as: it is one
      byte longer, and every option's length byte is two short. */
  lemma {:induction false} WrittenCodeTextMismatch(g: GruntyQuestionData)
    requires Fits(g)
    requires Dialog.AllReadable(AsWritten, g.text) && OptionsReadable(AsWritten, g.options)
    ensures Compile(WrittenBodyLines(g), Defines).Some?
    ensures |Compile(WrittenBodyLines(g), Defines).value| == |SegmentBytes(g)| + 1
    ensures forall i :: 0 <= i < |g.options| ==> OptionBytes(g.options[i], 0)[1] + 2 == OptionBytes(g.options[i], 2)[1]
  {
    assert ShortOptions(g.options, 0);
    CompileWrittenCodeText(g);
    OptionsBytesLength(g.options, 0, 2);
  }
}
