/** BK64 dialog (`DialogFactory.cpp`): a segment holding the bottom and the
    top dialog sections, each a count byte followed by that many entries;
    an entry is a command byte, a length byte and that many string bytes.

    The parser and the exporters are methods proved against the functions
    that state the formats:
    - `Decode`/`SegmentBytes`: the segment, parsed and laid out;
    - `BinaryBytes`: the binary export;
    - `ModdingDoc`/`Import`: the modding document and its import;
    - `CodeText`: the C source.
    Each format is tied to a partner: the segment decodes back
    (`DecodeSegment`, `SegmentOfDecode`), the binary export reads back
    (`ReadBinaryOfExport`), the modding import undoes the export up to the
    string terminator (`ImportOfExport`), and the C array compiles to the
    very segment bytes (`CompileCodeText`). */
module Dialog {
  import opened Results
  import opened Bytes
  import opened BinaryReader
  import opened BinaryWriter
  import opened Yaml
  import opened CText

  /** `DialogString`: a command byte and the bytes of its string. */
  datatype DialogString = DialogString(cmd: u8, str: seq<u8>)

  /** `DialogData`: the bottom and the top dialog sections, in segment order. */
  datatype DialogData = DialogData(bottom: seq<DialogString>, top: seq<DialogString>)

  /** DIALOG_HEADER_1..3. */
  const Header: seq<u8> := [0x01, 0x03, 0x00]

  // ---------------------------------------------------------------------
  // The segment

  /** One entry at `p`: command byte, length byte, then that many bytes. */
  function EntryAt(s: seq<u8>, p: nat): Result<(DialogString, nat)> {
    if p + 2 > |s| || p + 2 + s[p + 1] > |s| then Err(ReadPastEnd)
    else Ok((DialogString(s[p], s[p + 2..p + 2 + s[p + 1]]), p + 2 + s[p + 1]))
  }

  /** `n` entries from `p`, after those already read in `acc`, and the
      position that follows them. */
  function EntriesFrom(s: seq<u8>, p: nat, n: nat, acc: seq<DialogString>): Result<(seq<DialogString>, nat)>
    decreases n
  {
    if n == 0 then Ok((acc, p))
    else
      var e :- EntryAt(s, p);
      EntriesFrom(s, e.1, n - 1, acc + [e.0])
  }

  /** `n` entries from `p`: one section of the segment. */
  function Entries(s: seq<u8>, p: nat, n: nat): Result<(seq<DialogString>, nat)> {
    EntriesFrom(s, p, n, [])
  }

  /** What `DialogFactory::parse` makes of a segment. */
  function Decode(s: seq<u8>): (r: Result<Option<DialogData>>)
    ensures |s| < 3 ==> r == Err(ReadPastEnd)
    ensures r == Ok(None) <==> 3 <= |s| && s[..3] != Header
  {
    if |s| < 3 then Err(ReadPastEnd)
    else if s[..3] != Header then Ok(None)
    else
      var bottomSize :- ByteAt(s, 3);
      var bottom :- Entries(s, 4, bottomSize);
      var topSize :- ByteAt(s, bottom.1);
      var top :- Entries(s, bottom.1 + 1, topSize);
      Ok(Some(DialogData(bottom.0, top.0)))
  }

  /** Reads `n` entries at the cursor (the counted loops of the parser). */
  method ReadEntries(reader: Reader, n: nat) returns (r: Result<seq<DialogString>>)
    modifies reader
    ensures Positioned(r, reader.pos) == Entries(reader.data, old(reader.pos), n)
  {
    var entries: seq<DialogString> := [];
    var i := 0;
    while i < n
      invariant 0 <= i <= n
      invariant EntriesFrom(reader.data, old(reader.pos), n, []) == EntriesFrom(reader.data, reader.pos, n - i, entries)
    {
      var cmd :- reader.ReadUByte();
      var strLen :- reader.ReadUByte();
      var str :- reader.ReadString(strLen);
      entries := entries + [DialogString(cmd, str)];
      i := i + 1;
    }
    return Ok(entries);
  }

  /** `DialogFactory::parse`: `Ok(None)` is the rejected header. */
  method Parse(segment: seq<u8>) returns (r: Result<Option<DialogData>>)
    ensures r == Decode(segment)
  {
    var reader := new Reader(segment);
    var header1 :- reader.ReadInt8();
    var header2 :- reader.ReadInt8();
    var header3 :- reader.ReadInt8();
    if header1 != 0x01 || header2 != 0x03 || header3 != 0x00 {
      assert segment[..3] != Header by {
        assert segment[..3][0] == segment[0] && segment[..3][1] == segment[1] && segment[..3][2] == segment[2];
      }
      return Ok(None);
    }
    assert segment[..3] == Header;
    var bottomSize :- reader.ReadUByte();
    var bottom :- ReadEntries(reader, bottomSize);
    var topSize :- reader.ReadUByte();
    var top :- ReadEntries(reader, topSize);
    return Ok(Some(DialogData(bottom, top)));
  }

  /** Every string fits a length byte. */
  predicate ShortStrings(es: seq<DialogString>) {
    forall i :: 0 <= i < |es| ==> |es[i].str| < 0x100
  }

  /** Both sections fit the segment's count and length bytes. */
  predicate Fits(d: DialogData) {
    |d.bottom| < 0x100 && |d.top| < 0x100 && ShortStrings(d.bottom) && ShortStrings(d.top)
  }

  function EntryBytes(e: DialogString): seq<u8>
    requires |e.str| < 0x100
  {
    [e.cmd, |e.str|] + e.str
  }

  function EntriesBytes(es: seq<DialogString>): seq<u8>
    requires ShortStrings(es)
  {
    if es == [] then [] else EntryBytes(es[0]) + EntriesBytes(es[1..])
  }

  /** The segment a dialog is stored as. */
  function SegmentBytes(d: DialogData): seq<u8>
    requires Fits(d)
  {
    Header + [|d.bottom| as u8] + EntriesBytes(d.bottom) + [|d.top| as u8] + EntriesBytes(d.top)
  }

  lemma {:induction false} SliceOfConcat(s: seq<u8>, p: nat, a: seq<u8>, b: seq<u8>)
    requires p + |a| + |b| <= |s| && s[p..p + |a| + |b|] == a + b
    ensures s[p..p + |a|] == a && s[p + |a|..p + |a| + |b|] == b
  {
    assert s[p..p + |a|] == s[p..p + |a| + |b|][..|a|];
    assert s[p + |a|..p + |a| + |b|] == s[p..p + |a| + |b|][|a|..];
  }

  lemma {:induction false} EntryAtBytes(s: seq<u8>, p: nat, e: DialogString)
    requires |e.str| < 0x100
    requires p + |EntryBytes(e)| <= |s| && s[p..p + |EntryBytes(e)|] == EntryBytes(e)
    ensures EntryAt(s, p) == Ok((e, p + |EntryBytes(e)|))
  {
    var b := EntryBytes(e);
    assert s[p] == s[p..p + |b|][0];
    assert s[p + 1] == s[p..p + |b|][1];
    SliceOfConcat(s, p, [e.cmd, |e.str| as u8], e.str);
  }

  lemma {:induction false} SnocCons<T>(acc: seq<T>, es: seq<T>)
    requires es != []
    ensures (acc + [es[0]]) + es[1..] == acc + es
  {
  }

  lemma {:induction false} ShortTail(es: seq<DialogString>)
    requires es != [] && ShortStrings(es)
    ensures |es[0].str| < 0x100 && ShortStrings(es[1..])
  {
    assert forall i :: 0 <= i < |es[1..]| ==> es[1..][i] == es[i + 1];
  }

  lemma {:induction false} ShortCons(e: DialogString, es: seq<DialogString>)
    requires |e.str| < 0x100 && ShortStrings(es)
    ensures ShortStrings([e] + es) && ([e] + es)[1..] == es
  {
    assert forall i :: 1 <= i < |[e] + es| ==> ([e] + es)[i] == es[i - 1];
  }

  /** One step of the entry loop. */
  lemma {:induction false} EntriesFromStep(s: seq<u8>, p: nat, n: nat, acc: seq<DialogString>, e: DialogString, p1: nat)
    requires n > 0 && EntryAt(s, p) == Ok((e, p1))
    ensures EntriesFrom(s, p, n, acc) == EntriesFrom(s, p1, n - 1, acc + [e])
  {
  }

  /** The first of the entries laid out at `p` reads back, and the others
      are laid out right after it. */
  lemma {:induction false} FirstEntryOfBytes(s: seq<u8>, p: nat, es: seq<DialogString>)
    requires es != [] && ShortStrings(es)
    requires p + |EntriesBytes(es)| <= |s| && s[p..p + |EntriesBytes(es)|] == EntriesBytes(es)
    ensures |es[0].str| < 0x100 && ShortStrings(es[1..])
    ensures EntryAt(s, p) == Ok((es[0], p + |EntryBytes(es[0])|))
    ensures var p1 := p + |EntryBytes(es[0])|;
      p1 + |EntriesBytes(es[1..])| == p + |EntriesBytes(es)|
      && s[p1..p1 + |EntriesBytes(es[1..])|] == EntriesBytes(es[1..])
  {
    ShortTail(es);
    var a, b := EntryBytes(es[0]), EntriesBytes(es[1..]);
    SliceOfConcat(s, p, a, b);
    EntryAtBytes(s, p, es[0]);
  }

  /** Entries laid out at `p` read back, and the cursor ends after them. */
  lemma {:induction false} EntriesOfBytes(s: seq<u8>, p: nat, es: seq<DialogString>, acc: seq<DialogString>)
    requires ShortStrings(es)
    requires p + |EntriesBytes(es)| <= |s| && s[p..p + |EntriesBytes(es)|] == EntriesBytes(es)
    ensures EntriesFrom(s, p, |es|, acc) == Ok((acc + es, p + |EntriesBytes(es)|))
    decreases |es|
  {
    if es == [] {
      assert acc + es == acc;
    } else {
      FirstEntryOfBytes(s, p, es);
      var p1 := p + |EntryBytes(es[0])|;
      EntriesFromStep(s, p, |es|, acc, es[0], p1);
      EntriesOfBytes(s, p1, es[1..], acc + [es[0]]);
      SnocCons(acc, es);
    }
  }

  lemma {:induction false} SectionOfBytes(s: seq<u8>, p: nat, es: seq<DialogString>)
    requires ShortStrings(es)
    requires p + |EntriesBytes(es)| <= |s| && s[p..p + |EntriesBytes(es)|] == EntriesBytes(es)
    ensures Entries(s, p, |es|) == Ok((es, p + |EntriesBytes(es)|))
  {
    EntriesOfBytes(s, p, es, []);
    assert [] + es == es;
  }

  /** An entry that reads at `p` is the bytes from `p` to the position after it. */
  lemma {:induction false} BytesOfEntryAt(s: seq<u8>, p: nat)
    requires EntryAt(s, p).Ok?
    ensures var (e, p1) := EntryAt(s, p).value;
      |e.str| < 0x100 && p <= p1 <= |s| && s[p..p1] == EntryBytes(e)
  {
    var (e, p1) := EntryAt(s, p).value;
    assert s[p..p1] == [s[p], s[p + 1]] + s[p + 2..p1];
  }

  /** The split of a result that extends `acc` by `x` and then more. */
  lemma {:induction false} PrefixStep<T>(xs: seq<T>, acc: seq<T>, x: T)
    requires |xs| > |acc| && xs[..|acc| + 1] == acc + [x]
    ensures xs[..|acc|] == acc && xs[|acc|..] == [x] + xs[|acc| + 1..]
  {
    assert xs[..|acc|] == xs[..|acc| + 1][..|acc|];
    assert xs[|acc|] == xs[..|acc| + 1][|acc|];
  }

  /** What the entries read from `p` are: exactly the bytes between `p` and
      the final cursor, laid out entry by entry. */
  lemma {:induction false} BytesOfEntries(s: seq<u8>, p: nat, n: nat, acc: seq<DialogString>)
    requires p <= |s| && EntriesFrom(s, p, n, acc).Ok?
    ensures var (xs, q) := EntriesFrom(s, p, n, acc).value;
      |xs| == |acc| + n && xs[..|acc|] == acc && ShortStrings(xs[|acc|..])
      && p <= q <= |s| && s[p..q] == EntriesBytes(xs[|acc|..])
    decreases n
  {
    var (xs, q) := EntriesFrom(s, p, n, acc).value;
    if n == 0 {
      assert xs[|acc|..] == [];
    } else {
      var (e, p1) := EntryAt(s, p).value;
      BytesOfEntryAt(s, p);
      EntriesFromStep(s, p, n, acc, e, p1);
      BytesOfEntries(s, p1, n - 1, acc + [e]);
      var ys := xs[|acc| + 1..];
      PrefixStep(xs, acc, e);
      ShortCons(e, ys);
      AdjacentSlices(s, p, p1, q);
    }
  }

  /** Where the parts of a laid-out segment sit. */
  lemma {:induction false} Layout(s: seq<u8>, h: seq<u8>, x: u8, bb: seq<u8>, y: u8, tb: seq<u8>, rest: seq<u8>)
    requires |h| == 3 && s == h + [x] + bb + [y] + tb + rest
    ensures 5 + |bb| + |tb| <= |s| && s[..3] == h && s[3] == x && s[4..4 + |bb|] == bb
    ensures s[4 + |bb|] == y && s[5 + |bb|..5 + |bb| + |tb|] == tb
  {
    assert s == h + ([x] + (bb + ([y] + (tb + rest))));
  }

  lemma {:induction false} BytesOfSection(s: seq<u8>, p: nat, n: nat)
    requires p <= |s| && Entries(s, p, n).Ok?
    ensures var (xs, q) := Entries(s, p, n).value;
      |xs| == n && ShortStrings(xs) && p <= q <= |s| && s[p..q] == EntriesBytes(xs)
  {
    BytesOfEntries(s, p, n, []);
    var xs := Entries(s, p, n).value.0;
    assert xs[0..] == xs;
  }

  /** A dialog laid out as a segment parses back, whatever follows it. */
  lemma {:induction false} DecodeSegment(d: DialogData, rest: seq<u8>)
    requires Fits(d)
    ensures Decode(SegmentBytes(d) + rest) == Ok(Some(d))
  {
    var s := SegmentBytes(d) + rest;
    var bb, tb := EntriesBytes(d.bottom), EntriesBytes(d.top);
    Layout(s, Header, |d.bottom| as u8, bb, |d.top| as u8, tb, rest);
    DecodeParts(s, d, bb, tb);
  }

  /** A segment whose parts are those of `d` parses as `d`. */
  lemma {:induction false} DecodeParts(s: seq<u8>, d: DialogData, bb: seq<u8>, tb: seq<u8>)
    requires Fits(d) && bb == EntriesBytes(d.bottom) && tb == EntriesBytes(d.top)
    requires 5 + |bb| + |tb| <= |s| && s[..3] == Header && s[3] as int == |d.bottom| && s[4..4 + |bb|] == bb
    requires s[4 + |bb|] as int == |d.top| && s[5 + |bb|..5 + |bb| + |tb|] == tb
    ensures Decode(s) == Ok(Some(d))
  {
    var p := 4 + |bb|;
    SectionOfBytes(s, 4, d.bottom);
    SectionOfBytes(s, p + 1, d.top);
    DecodeOf(s, d.bottom, p, d.top, p + 1 + |tb|);
  }

  /** The parser's steps, each succeeding. */
  lemma {:induction false} DecodeOf(s: seq<u8>, bottom: seq<DialogString>, p: nat, top: seq<DialogString>, q: nat)
    requires |s| >= 4 && s[..3] == Header && s[3] == |bottom|
    requires Entries(s, 4, |bottom|) == Ok((bottom, p))
    requires p < |s| && s[p] == |top| && Entries(s, p + 1, |top|) == Ok((top, q))
    ensures Decode(s) == Ok(Some(DialogData(bottom, top)))
  {
  }

  /** A parsed dialog is exactly what the segment starts with. */
  lemma {:induction false} SegmentOfDecode(s: seq<u8>, d: DialogData)
    requires Decode(s) == Ok(Some(d))
    ensures Fits(d) && |SegmentBytes(d)| <= |s| && s[..|SegmentBytes(d)|] == SegmentBytes(d)
  {
    var bottomSize := s[3];
    BytesOfSection(s, 4, bottomSize);
    var (bottom, p) := Entries(s, 4, bottomSize).value;
    var topSize := s[p];
    BytesOfSection(s, p + 1, topSize);
    var (top, q) := Entries(s, p + 1, topSize).value;
    assert d == DialogData(bottom, top);
    assert s[..3] == Header;
    SegmentParts(s, p, q);
  }

  lemma {:induction false} SegmentParts(s: seq<u8>, p: nat, q: nat)
    requires 4 <= p < q <= |s|
    ensures s[..q] == s[..3] + [s[3]] + s[4..p] + [s[p]] + s[p + 1..q]
  {
  }

  // ---------------------------------------------------------------------
  // The binary export

  /** One entry as the binary exporter writes it: the command byte, the
      string's length as a `uint32_t`, and whatever the writer's
      `Write(std::string)` makes of the string. */
  function Frame(e: DialogString, order: ByteOrder, writeString: seq<u8> -> seq<u8>): seq<u8> {
    [e.cmd] + Bytes32(Wrap32(|e.str|), order) + writeString(e.str)
  }

  function Frames(es: seq<DialogString>, order: ByteOrder, writeString: seq<u8> -> seq<u8>): seq<u8> {
    if es == [] then [] else Frame(es[0], order, writeString) + Frames(es[1..], order, writeString)
  }

  /** A section: its entry count as a `uint32_t`, then the entries. */
  function Section(es: seq<DialogString>, order: ByteOrder, writeString: seq<u8> -> seq<u8>): seq<u8> {
    Bytes32(Wrap32(|es|), order) + Frames(es, order, writeString)
  }

  /** The binary export: the resource header, the bottom section, the top section. */
  function BinaryBytes(d: DialogData, order: ByteOrder, header: seq<u8>, writeString: seq<u8> -> seq<u8>): seq<u8> {
    header + Section(d.bottom, order, writeString) + Section(d.top, order, writeString)
  }

  lemma {:induction false} FramesSnoc(es: seq<DialogString>, order: ByteOrder, writeString: seq<u8> -> seq<u8>)
    requires es != []
    ensures Frames(es, order, writeString)
      == Frames(es[..|es| - 1], order, writeString) + Frame(es[|es| - 1], order, writeString)
    decreases |es|
  {
    if |es| > 1 {
      var init := es[..|es| - 1];
      var last := Frame(es[|es| - 1], order, writeString);
      assert init[0] == es[0];
      assert init[1..] == es[1..][..|es[1..]| - 1];
      FramesSnoc(es[1..], order, writeString);
      var first := Frame(es[0], order, writeString);
      assert Frames(es, order, writeString) == first + Frames(es[1..], order, writeString);
      assert Frames(init, order, writeString) == first + Frames(init[1..], order, writeString);
      Regroup(first, Frames(init[1..], order, writeString), last);
    } else {
      assert es[..0] == [] && es[1..] == [];
    }
  }

  /** Writing the next entry's frame extends the frames written so far. */
  lemma {:induction false} FramesStep(start: seq<u8>, es: seq<DialogString>, i: nat, order: ByteOrder,
                                      writeString: seq<u8> -> seq<u8>)
    requires i < |es|
    ensures start + Frames(es[..i], order, writeString) + Frame(es[i], order, writeString)
            == start + Frames(es[..i + 1], order, writeString)
  {
    FramesSnoc(es[..i + 1], order, writeString);
    assert es[..i + 1][..i] == es[..i];
  }

  /** Writes one section (one of the exporter's two loops). */
  method WriteSection(w: Writer, es: seq<DialogString>, writeString: seq<u8> -> seq<u8>)
    modifies w
    ensures w.data == old(w.data) + Section(es, w.order, writeString)
  {
    w.WriteU32(Wrap32(|es|));
    ghost var start := w.data;
    var i := 0;
    while i < |es|
      invariant 0 <= i <= |es|
      invariant w.data == start + Frames(es[..i], w.order, writeString)
    {
      FramesStep(start, es, i, w.order, writeString);
      ghost var before := w.data;
      w.WriteU8(es[i].cmd);
      w.WriteU32(Wrap32(|es[i].str|));
      w.WriteBytes(writeString(es[i].str));
      Regroup3(before, [es[i].cmd], Bytes32(Wrap32(|es[i].str|), w.order), writeString(es[i].str));
      i := i + 1;
    }
    assert es[..|es|] == es;
  }

  /** `DialogBinaryExporter::Export`; `header` is what `WriteHeader` writes. */
  method BinaryExport(d: DialogData, order: ByteOrder, header: seq<u8>, writeString: seq<u8> -> seq<u8>)
    returns (out: seq<u8>)
    ensures out == BinaryBytes(d, order, header, writeString)
  {
    var w := new Writer(order);
    w.WriteBytes(header);
    WriteSection(w, d.bottom, writeString);
    WriteSection(w, d.top, writeString);
    out := w.data;
  }

  /** `readString` recovers what `writeString` wrote, and the bytes after it. */
  ghost predicate ReadsBack(writeString: seq<u8> -> seq<u8>, readString: seq<u8> -> Option<(seq<u8>, seq<u8>)>) {
    forall str: seq<u8>, rest: seq<u8> :: readString(writeString(str) + rest) == Some((str, rest))
  }

  /** Counts and lengths fit the `uint32_t` fields they are written to. */
  predicate Sized(es: seq<DialogString>) {
    |es| < 0x1_0000_0000 && forall i :: 0 <= i < |es| ==> |es[i].str| < 0x1_0000_0000
  }

  /** Reads `n` entries of a binary export. */
  function ReadFrames(b: seq<u8>, n: nat, order: ByteOrder, readString: seq<u8> -> Option<(seq<u8>, seq<u8>)>)
    : Option<(seq<DialogString>, seq<u8>)>
    decreases n
  {
    if n == 0 then Some(([], b))
    else if |b| < 5 then None
    else
      match readString(b[5..])
      case None => None
      case Some((str, rest)) =>
        if Value32(b[1..5], order) != |str| then None
        else
          match ReadFrames(rest, n - 1, order, readString)
          case None => None
          case Some((es, after)) => Some(([DialogString(b[0], str)] + es, after))
  }

  function ReadSection(b: seq<u8>, order: ByteOrder, readString: seq<u8> -> Option<(seq<u8>, seq<u8>)>)
    : Option<(seq<DialogString>, seq<u8>)>
  {
    if |b| < 4 then None else ReadFrames(b[4..], Value32(b[..4], order), order, readString)
  }

  /** Reads a whole binary export after its resource header; nothing may follow the top section. */
  function ReadBinary(b: seq<u8>, order: ByteOrder, readString: seq<u8> -> Option<(seq<u8>, seq<u8>)>)
    : Option<DialogData>
  {
    match ReadSection(b, order, readString)
    case None => None
    case Some((bottom, rest)) =>
      match ReadSection(rest, order, readString)
      case Some((top, after)) => if after == [] then Some(DialogData(bottom, top)) else None
      case None => None
  }

  lemma {:induction false} SizedTail(es: seq<DialogString>)
    requires Sized(es) && es != []
    ensures Sized(es[1..]) && |es[0].str| < 0x1_0000_0000
  {
    assert forall i :: 0 <= i < |es[1..]| ==> es[1..][i] == es[i + 1];
  }

  /** The first frame reads back as the first entry, leaving the other frames. */
  lemma {:induction false} FrameFront(es: seq<DialogString>, order: ByteOrder, writeString: seq<u8> -> seq<u8>,
                                      readString: seq<u8> -> Option<(seq<u8>, seq<u8>)>, rest: seq<u8>)
    requires ReadsBack(writeString, readString) && es != [] && |es[0].str| < 0x1_0000_0000
    ensures var b := Frames(es, order, writeString) + rest;
      |b| >= 5 && b[0] == es[0].cmd && Value32(b[1..5], order) == |es[0].str|
      && readString(b[5..]) == Some((es[0].str, Frames(es[1..], order, writeString) + rest))
  {
    var e := es[0];
    var len := Bytes32(Wrap32(|e.str|), order);
    var more := Frames(es[1..], order, writeString);
    assert Frames(es, order, writeString) + rest == [e.cmd] + len + writeString(e.str) + (more + rest);
    TagAndWord(e.cmd, len, writeString(e.str), more + rest);
    Value32OfBytes32(Wrap32(|e.str|), order);
  }

  lemma {:induction false} ReadFramesOf(es: seq<DialogString>, order: ByteOrder, writeString: seq<u8> -> seq<u8>,
                                        readString: seq<u8> -> Option<(seq<u8>, seq<u8>)>, rest: seq<u8>)
    requires ReadsBack(writeString, readString) && Sized(es)
    ensures ReadFrames(Frames(es, order, writeString) + rest, |es|, order, readString) == Some((es, rest))
    decreases |es|
  {
    if es == [] {
      assert Frames(es, order, writeString) + rest == rest;
    } else {
      SizedTail(es);
      ReadFramesOf(es[1..], order, writeString, readString, rest);
      ReadFramesCons(es, order, writeString, readString, rest);
    }
  }

  /** The first frame in front of frames that read back. */
  lemma {:induction false} ReadFramesCons(es: seq<DialogString>, order: ByteOrder, writeString: seq<u8> -> seq<u8>,
                                          readString: seq<u8> -> Option<(seq<u8>, seq<u8>)>, rest: seq<u8>)
    requires ReadsBack(writeString, readString) && es != [] && |es[0].str| < 0x1_0000_0000
    requires ReadFrames(Frames(es[1..], order, writeString) + rest, |es| - 1, order, readString) == Some((es[1..], rest))
    ensures ReadFrames(Frames(es, order, writeString) + rest, |es|, order, readString) == Some((es, rest))
  {
    var more := es[1..];
    var b := Frames(es, order, writeString) + rest;
    FrameFront(es, order, writeString, readString, rest);
    ReadFramesStep(b, |es|, order, readString, es[0].str, Frames(more, order, writeString) + rest);
    assert DialogString(b[0], es[0].str) == es[0];
    assert [es[0]] + more == es;
  }

  /** One frame read off the front of the rest. */
  lemma {:induction false} ReadFramesStep(b: seq<u8>, n: nat, order: ByteOrder,
                                          readString: seq<u8> -> Option<(seq<u8>, seq<u8>)>, str: seq<u8>, r: seq<u8>)
    requires n > 0 && |b| >= 5 && readString(b[5..]) == Some((str, r)) && Value32(b[1..5], order) == |str|
    ensures ReadFrames(b, n, order, readString) ==
      match ReadFrames(r, n - 1, order, readString)
      case None => None
      case Some((es, after)) => Some(([DialogString(b[0], str)] + es, after))
  {
  }

  lemma {:induction false} ReadSectionOf(es: seq<DialogString>, order: ByteOrder, writeString: seq<u8> -> seq<u8>,
                                         readString: seq<u8> -> Option<(seq<u8>, seq<u8>)>, rest: seq<u8>)
    requires ReadsBack(writeString, readString) && Sized(es)
    ensures ReadSection(Section(es, order, writeString) + rest, order, readString) == Some((es, rest))
  {
    var b := Section(es, order, writeString) + rest;
    var count := Bytes32(Wrap32(|es|), order);
    assert b == count + (Frames(es, order, writeString) + rest);
    assert b[..4] == count && b[4..] == Frames(es, order, writeString) + rest;
    Value32OfBytes32(Wrap32(|es|), order);
    ReadFramesOf(es, order, writeString, readString, rest);
  }

  /** The binary export reads back to the dialog it was written from. */
  lemma {:induction false} ReadBinaryOfExport(d: DialogData, order: ByteOrder, header: seq<u8>,
                                              writeString: seq<u8> -> seq<u8>,
                                              readString: seq<u8> -> Option<(seq<u8>, seq<u8>)>)
    requires ReadsBack(writeString, readString) && Sized(d.bottom) && Sized(d.top)
    ensures ReadBinary(BinaryBytes(d, order, header, writeString)[|header|..], order, readString) == Some(d)
  {
    var bottom, top := Section(d.bottom, order, writeString), Section(d.top, order, writeString);
    var b := BinaryBytes(d, order, header, writeString)[|header|..];
    AfterPrefix(header, bottom, top);
    ReadSectionOf(d.bottom, order, writeString, readString, top);
    ReadSectionOf(d.top, order, writeString, readString, []);
    assert top + [] == top;
  }

  // ---------------------------------------------------------------------
  // The modding document

  /** One entry as the modding exporter emits it: `[0xcmd, c_str]`. */
  function ItemNode(e: DialogString): Node {
    List([HexScalar(e.cmd), Scalar(CStr(e.str))])
  }

  function ItemNodes(es: seq<DialogString>): (r: seq<Node>)
    ensures |r| == |es| && forall i :: 0 <= i < |es| ==> r[i] == ItemNode(es[i])
  {
    seq(|es|, i requires 0 <= i < |es| => ItemNode(es[i]))
  }

  /** The document `DialogModdingExporter::Export` emits. */
  function ModdingDoc(symbol: string, d: DialogData): Node {
    Dict([Entry(symbol, Dict([Entry("Bottom", List(ItemNodes(d.bottom))), Entry("Top", List(ItemNodes(d.top)))]))])
  }

  /** Emits one section's entries (the exporter's loops). */
  method EmitItems(es: seq<DialogString>) returns (items: seq<Node>)
    ensures items == ItemNodes(es)
  {
    items := [];
    var i := 0;
    while i < |es|
      invariant 0 <= i <= |es|
      invariant items == ItemNodes(es[..i])
    {
      items := items + [ItemNode(es[i])];
      i := i + 1;
    }
    assert es[..|es|] == es;
  }

  /** `DialogModdingExporter::Export`: the document, and the asset path with `.yaml` appended. */
  method ModdingExport(symbol: string, d: DialogData, replacement: string) returns (doc: Node, path: string)
    ensures doc == ModdingDoc(symbol, d) && path == replacement + ".yaml"
  {
    path := replacement + ".yaml";
    var bottom := EmitItems(d.bottom);
    var top := EmitItems(d.top);
    doc := Dict([Entry(symbol, Dict([Entry("Bottom", List(bottom)), Entry("Top", List(top))]))]);
  }

  /** One imported entry: `[0]` as a `uint32_t` stored into the command byte,
      `[1]` as a string with a NUL appended. */
  function ImportEntry(item: Node): (r: Result<DialogString>)
    ensures r.Ok? <==> item.List? && |item.items| >= 2 && AsU32(Some(item.items[0])).Ok? && item.items[1].Scalar?
    ensures r.Ok? ==> r.value == DialogString(AsU32(Some(item.items[0])).value % 0x100, item.items[1].text + [0])
  {
    var cmdNode :- Element(item, 0);
    var cmd :- AsU32(cmdNode);
    var strNode := Element(item, 1).value;   // `item` is a sequence here: the subscript cannot throw
    var str :- AsString(strNode);
    Ok(DialogString(cmd % 0x100, str + [0]))
  }

  /** The entries of `items`, after those already imported in `acc`. */
  function ImportEntries(items: seq<Node>, acc: seq<DialogString>): Result<seq<DialogString>>
    decreases |items|
  {
    if items == [] then Ok(acc)
    else
      var e :- ImportEntry(items[0]);
      ImportEntries(items[1..], acc + [e])
  }

  /** What `DialogFactory::parse_modding` makes of a loaded document;
      `None` is text the YAML parser rejects. */
  function Import(doc: Option<Node>): Result<Option<DialogData>> {
    if doc.None? then Ok(None)
    else
      var info :- FirstValue(doc.value);
      var bottomNode :- Child(info, "Bottom");
      var topNode := Child(info, "Top").value;   // `info` is not a scalar here: the subscript cannot throw
      var bottomItems :- Members(bottomNode);
      var bottom :- ImportEntries(bottomItems, []);
      var topItems :- Members(topNode);
      var top :- ImportEntries(topItems, []);
      Ok(Some(DialogData(bottom, top)))
  }

  /** Imports one section's entries (the importer's loops). */
  method ImportItems(items: seq<Node>) returns (r: Result<seq<DialogString>>)
    ensures r == ImportEntries(items, [])
  {
    var entries: seq<DialogString> := [];
    var i := 0;
    while i < |items|
      invariant 0 <= i <= |items|
      invariant ImportEntries(items, []) == ImportEntries(items[i..], entries)
    {
      assert items[i..][1..] == items[i + 1..];
      var cmdNode :- Element(items[i], 0);
      var cmd :- AsU32(cmdNode);
      var strNode := Element(items[i], 1).value;
      var str :- AsString(strNode);
      entries := entries + [DialogString(cmd % 0x100, str + [0])];
      i := i + 1;
    }
    return Ok(entries);
  }

  /** `DialogFactory::parse_modding`. */
  method ParseModding(doc: Option<Node>) returns (r: Result<Option<DialogData>>)
    ensures r == Import(doc)
  {
    if doc.None? {
      return Ok(None);
    }
    var info :- FirstValue(doc.value);
    var bottomNode :- Child(info, "Bottom");
    var topNode := Child(info, "Top").value;
    var bottomItems :- Members(bottomNode);
    var bottom :- ImportItems(bottomItems);
    var topItems :- Members(topNode);
    var top :- ImportItems(topItems);
    return Ok(Some(DialogData(bottom, top)));
  }

  /** Each string cut at its first NUL and terminated by one NUL, in order. */
  function Terminated(es: seq<DialogString>): (r: seq<DialogString>)
    ensures |r| == |es|
  {
    seq(|es|, i requires 0 <= i < |es| => DialogString(es[i].cmd, CStr(es[i].str) + [0]))
  }

  /** The import keeps count and order, and appends one NUL to every string. */
  lemma {:induction false} ImportEntriesEach(items: seq<Node>, acc: seq<DialogString>)
    ensures ImportEntries(items, acc).Ok? <==> forall i :: 0 <= i < |items| ==> ImportEntry(items[i]).Ok?
    ensures ImportEntries(items, acc).Ok? ==>
      var r := ImportEntries(items, acc).value;
      |r| == |acc| + |items| && r[..|acc|] == acc
      && forall i :: 0 <= i < |items| ==> Ok(r[|acc| + i]) == ImportEntry(items[i])
    decreases |items|
  {
    if items != [] {
      assert forall i :: 1 <= i < |items| ==> items[1..][i - 1] == items[i];
      if ImportEntry(items[0]).Ok? {
        ImportEntriesEach(items[1..], acc + [ImportEntry(items[0]).value]);
      }
      if ImportEntries(items, acc).Ok? {
        var r := ImportEntries(items, acc).value;
        assert r[..|acc|] == r[..|acc| + 1][..|acc|];
      }
    }
  }

  lemma {:induction false} ImportItemNode(e: DialogString)
    ensures ImportEntry(ItemNode(e)) == Ok(DialogString(e.cmd, CStr(e.str) + [0]))
  {
    AsU32OfHexScalar(e.cmd);
  }

  lemma {:induction false} ItemNodesTail(es: seq<DialogString>)
    requires es != []
    ensures ItemNodes(es)[0] == ItemNode(es[0]) && ItemNodes(es)[1..] == ItemNodes(es[1..])
  {
  }

  lemma {:induction false} TerminatedCons(es: seq<DialogString>)
    requires es != []
    ensures Terminated(es) == [DialogString(es[0].cmd, CStr(es[0].str) + [0])] + Terminated(es[1..])
  {
  }

  lemma {:induction false} ImportItemNodes(es: seq<DialogString>, acc: seq<DialogString>)
    ensures ImportEntries(ItemNodes(es), acc) == Ok(acc + Terminated(es))
    decreases |es|
  {
    if es == [] {
      assert ItemNodes(es) == [];
      assert acc + Terminated(es) == acc;
    } else {
      var t := DialogString(es[0].cmd, CStr(es[0].str) + [0]);
      ImportItemNode(es[0]);
      ItemNodesTail(es);
      ImportItemNodes(es[1..], acc + [t]);
      TerminatedCons(es);
      assert (acc + [t]) + Terminated(es[1..]) == acc + Terminated(es);
    }
  }

  /** Importing the modding export gives back every entry, in order, with
      its string cut at the first NUL and terminated by one NUL. */
  lemma {:induction false} ImportOfExport(symbol: string, d: DialogData)
    ensures Import(Some(ModdingDoc(symbol, d))) == Ok(Some(DialogData(Terminated(d.bottom), Terminated(d.top))))
  {
    var inner := [Entry("Bottom", List(ItemNodes(d.bottom))), Entry("Top", List(ItemNodes(d.top)))];
    assert Lookup(inner, "Bottom") == Some(List(ItemNodes(d.bottom)));
    assert inner[1..] == [Entry("Top", List(ItemNodes(d.top)))];
    assert Lookup(inner, "Top") == Some(List(ItemNodes(d.top)));
    ImportItemNodes(d.bottom, []);
    ImportItemNodes(d.top, []);
    assert [] + Terminated(d.bottom) == Terminated(d.bottom);
    assert [] + Terminated(d.top) == Terminated(d.top);
  }

  /** A string that ends at its only NUL, as the game stores them. */
  predicate CString(s: seq<u8>) {
    |s| >= 1 && s[|s| - 1] == 0 && 0 !in s[..|s| - 1]
  }

  lemma {:induction false} TerminatedOfCStrings(es: seq<DialogString>)
    requires forall i :: 0 <= i < |es| ==> CString(es[i].str)
    ensures Terminated(es) == es
  {
    forall i | 0 <= i < |es|
      ensures Terminated(es)[i] == es[i]
    {
      var s := es[i].str;
      CStrOfTerminated(s[..|s| - 1]);
      assert s[..|s| - 1] + [0] == s;
    }
  }

  /** With NUL-terminated strings, the import undoes the modding export exactly. */
  lemma {:induction false} ImportOfExportCStrings(symbol: string, d: DialogData)
    requires forall i :: 0 <= i < |d.bottom| ==> CString(d.bottom[i].str)
    requires forall i :: 0 <= i < |d.top| ==> CString(d.top[i].str)
    ensures Import(Some(ModdingDoc(symbol, d))) == Ok(Some(d))
  {
    ImportOfExport(symbol, d);
    TerminatedOfCStrings(d.bottom);
    TerminatedOfCStrings(d.top);
  }

  // ---------------------------------------------------------------------
  // The C source

  /** One entry line: `0x` and the command, the length, then the bytes in
      rendering `r` (`AsWritten` is the exporter's, `Escaped` corrects its
      unescaped backslash). */
  function CodeLine(e: DialogString, r: Rendering): string {
    Tab + "0x" + HexUpper(e.cmd, 2) + (DecimalElement(|e.str|) + Rendered(r, e.str)) + ",\n"
  }

  function CodeLines(es: seq<DialogString>, r: Rendering): (lines: seq<string>)
    ensures |lines| == |es| && forall i :: 0 <= i < |es| ==> lines[i] == CodeLine(es[i], r)
  {
    seq(|es|, i requires 0 <= i < |es| => CodeLine(es[i], r))
  }

  /** A section of the array: its comment, its count, its entries. */
  function SectionLines(title: string, es: seq<DialogString>, r: Rendering): seq<string> {
    [Tab + title + "\n", Tab + Decimal(|es|) + ",\n"] + CodeLines(es, r)
  }

  const HeaderLine: string := Tab + "DIALOG_HEADER_1" + ", " + "DIALOG_HEADER_2" + ", " + "DIALOG_HEADER_3" + ",\n"

  /** The values the header macros are defined with. */
  const Defines: map<string, u8> := map["DIALOG_HEADER_1" := 0x01, "DIALOG_HEADER_2" := 0x03, "DIALOG_HEADER_3" := 0x00]

  /** The lines between the array's opening and closing brace. */
  function BodyLines(d: DialogData, r: Rendering): seq<string> {
    [HeaderLine] + SectionLines("/* Bottom Dialog */", d.bottom, r) + SectionLines("/* Top Dialog */", d.top, r)
  }

  /** The text `DialogCodeExporter::Export` writes. */
  function CodeText(symbol: string, d: DialogData): string {
    "u8 " + symbol + "[] = {\n" + Join(BodyLines(d, AsWritten)) + "};\n\n"
  }

  /** Every string of `es` reads back in rendering `r`. */
  predicate AllReadable(r: Rendering, es: seq<DialogString>) {
    forall i :: 0 <= i < |es| ==> Readable(r, es[i].str)
  }

  /** Writes one entry line. */
  method WriteCodeLine(e: DialogString) returns (line: string)
    ensures line == CodeLine(e, AsWritten)
  {
    var chars := WriteChars(", " + Decimal(|e.str|), e.str);
    line := Tab + "0x" + HexUpper(e.cmd, 2) + chars + ",\n";
  }

  /** Writes one section of the array (one of the exporter's outer loops). */
  method WriteCodeSection(title: string, es: seq<DialogString>) returns (text: string)
    ensures text == Join(SectionLines(title, es, AsWritten))
  {
    var comment := Tab + title + "\n";
    var count := Tab + Decimal(|es|) + ",\n";
    var lines := WriteCodeLines(es);
    text := comment + count + lines;
    JoinTwoThen(comment, count, CodeLines(es, AsWritten));
  }

  /** Writes a run of entry lines (one of the exporter's loops). */
  method WriteCodeLines(es: seq<DialogString>) returns (text: string)
    ensures text == Join(CodeLines(es, AsWritten))
  {
    ghost var lines := CodeLines(es, AsWritten);
    text := "";
    var i := 0;
    while i < |es|
      invariant 0 <= i <= |es|
      invariant text == Join(lines[..i])
    {
      var line := WriteCodeLine(es[i]);
      JoinStep(lines, i);
      text := text + line;
      i := i + 1;
    }
    assert lines[..|es|] == lines;
  }

  /** `DialogCodeExporter::Export`: the text, and the offset it returns. */
  method CodeExport(symbol: string, d: DialogData, offset: u32) returns (text: string, size: u32)
    ensures text == CodeText(symbol, d) && size == offset
  {
    var bottom := WriteCodeSection("/* Bottom Dialog */", d.bottom);
    var top := WriteCodeSection("/* Top Dialog */", d.top);
    JoinLineThen(HeaderLine, SectionLines("/* Bottom Dialog */", d.bottom, AsWritten),
                 SectionLines("/* Top Dialog */", d.top, AsWritten));
    Enclose("u8 " + symbol + "[] = {\n", Join(BodyLines(d, AsWritten)), HeaderLine, bottom, top, "};\n\n");
    text := "u8 " + symbol + "[] = {\n" + HeaderLine + bottom + top + "};\n\n";
    size := offset;
  }

  /** The length and the bytes of an entry read back. */
  lemma {:induction false} ReadLengthAndChars(str: seq<u8>, r: Rendering, defines: map<string, u8>)
    requires Readable(r, str)
    ensures Delimited(DecimalElement(|str|) + Rendered(r, str))
    ensures ReadItems(DecimalElement(|str|) + Rendered(r, str), defines) == Some([|str| % 0x100] + str)
  {
    var chars := Rendered(r, str);
    ReadRendered(r, str, defines);
    ReadDecimalElement(|str|, chars, defines);
    ReadItemsCons(DecimalElement(|str|), |str| % 0x100, chars, str, defines);
  }

  lemma {:induction false} ConsCommand(cmd: u8, rest: seq<u8>)
    ensures [cmd % 0x100] + rest == [cmd] + rest
  {
  }

  /** An entry line compiles to the entry's segment bytes, in either
      rendering that reads back. */
  lemma {:induction false} CompileCodeLine(e: DialogString, r: Rendering, defines: map<string, u8>)
    requires Readable(r, e.str)
    ensures CompileLine(CodeLine(e, r), defines) == Some([e.cmd] + ([|e.str| % 0x100] + e.str))
  {
    ReadLengthAndChars(e.str, r, defines);
    CompileHexLine(e.cmd, DecimalElement(|e.str|) + Rendered(r, e.str), CodeLine(e, r), defines);
    ConsCommand(e.cmd, [|e.str| % 0x100] + e.str);
  }

  lemma {:induction false} CompileCodeLines(es: seq<DialogString>, r: Rendering, defines: map<string, u8>)
    requires ShortStrings(es) && AllReadable(r, es)
    ensures Compile(CodeLines(es, r), defines) == Some(EntriesBytes(es))
  {
    var lines := CodeLines(es, r);
    var parts := seq(|es|, i requires 0 <= i < |es| => EntryBytes(es[i]));
    forall i | 0 <= i < |es|
      ensures CompileLine(lines[i], defines) == Some(parts[i])
    {
      CompileCodeLine(es[i], r, defines);
      EntryBytesForm(es[i]);
    }
    CompileEach(lines, parts, defines);
    EntriesBytesConcat(es);
  }

  lemma {:induction false} EntryBytesForm(e: DialogString)
    requires |e.str| < 0x100
    ensures EntryBytes(e) == [e.cmd] + ([|e.str| % 0x100] + e.str)
  {
  }

  /** The entries' bytes are those of each entry, one after the other. */
  lemma {:induction false} EntriesBytesConcat(es: seq<DialogString>)
    requires ShortStrings(es)
    ensures EntriesBytes(es) == Concat(seq(|es|, i requires 0 <= i < |es| => EntryBytes(es[i])))
    decreases |es|
  {
    if es != [] {
      assert ShortStrings(es[1..]) by {
        assert forall i :: 0 <= i < |es[1..]| ==> es[1..][i] == es[i + 1];
      }
      EntriesBytesConcat(es[1..]);
      var parts := seq(|es|, i requires 0 <= i < |es| => EntryBytes(es[i]));
      assert parts[1..] == seq(|es| - 1, i requires 0 <= i < |es| - 1 => EntryBytes(es[1..][i]));
    }
  }

  lemma {:induction false} CompileSection(title: string, es: seq<DialogString>, r: Rendering, defines: map<string, u8>)
    requires |title| >= 2 && title[..2] == "/*"
    requires ShortStrings(es) && AllReadable(r, es)
    ensures Compile(SectionLines(title, es, r), defines) == Some([|es| % 0x100] + EntriesBytes(es))
  {
    CompileCommentAndCount(title, |es|, defines);
    CompileCodeLines(es, r, defines);
    CompileAppend([Tab + title + "\n", Tab + Decimal(|es|) + ",\n"], CodeLines(es, r), defines);
  }

  lemma {:induction false} CompileHeaderLine()
    ensures CompileLine(HeaderLine, Defines) == Some(Header)
  {
    var names := ["DIALOG_HEADER_2", "DIALOG_HEADER_3"];
    assert NameElements(names) == ", " + "DIALOG_HEADER_2" + ", " + "DIALOG_HEADER_3";
    assert HeaderLine == Tab + "DIALOG_HEADER_1" + NameElements(names) + ",\n";
    CompileNameLine("DIALOG_HEADER_1", names, Defines);
    assert Values(names, Defines) == [0x03, 0x00];
    assert [Defines["DIALOG_HEADER_1"]] + [0x03, 0x00] == Header;
  }

  /** The C array holds exactly the segment the dialog was parsed from:
      with the backslash escaped always, and as the exporter writes it
      whenever no string holds a backslash. */
  lemma {:induction false} CompileCodeText(d: DialogData, r: Rendering)
    requires Fits(d) && AllReadable(r, d.bottom) && AllReadable(r, d.top)
    ensures Compile(BodyLines(d, r), Defines) == Some(SegmentBytes(d))
  {
    var bottom := SectionLines("/* Bottom Dialog */", d.bottom, r);
    var top := SectionLines("/* Top Dialog */", d.top, r);
    CompileHeaderLine();
    CompileOne(HeaderLine, Defines);
    assert Header + [] == Header;
    CompileSection("/* Bottom Dialog */", d.bottom, r, Defines);
    CompileSection("/* Top Dialog */", d.top, r, Defines);
    CompileThree([HeaderLine], bottom, top, Header, [|d.bottom| % 0x100] + EntriesBytes(d.bottom),
                 [|d.top| % 0x100] + EntriesBytes(d.top), Defines);
    SegmentRegrouped(d);
  }

  lemma {:induction false} SegmentRegrouped(d: DialogData)
    requires Fits(d)
    ensures SegmentBytes(d) == Header + ([|d.bottom| % 0x100] + EntriesBytes(d.bottom)) + ([|d.top| % 0x100] + EntriesBytes(d.top))
  {
  }

  /** Parsing the compiled array gives back the dialog. */
  lemma {:induction false} DecodeOfCodeText(d: DialogData, r: Rendering)
    requires Fits(d) && AllReadable(r, d.bottom) && AllReadable(r, d.top)
    ensures Compile(BodyLines(d, r), Defines).Some?
    ensures Decode(Compile(BodyLines(d, r), Defines).value) == Ok(Some(d))
  {
    CompileCodeText(d, r);
    DecodeSegment(d, []);
    assert SegmentBytes(d) + [] == SegmentBytes(d);
  }
}
