/** Z64 skeletal limb (`LimbFactory.cpp`): a 12-byte record of three
    signed joint coordinates, the child and sibling limb indices and a
    display-list address, and the C initializer the code exporter writes
    for it. */
module Limb {
  import opened Results
  import opened Bytes
  import opened BinaryReader

  /** `Vec3s`: three signed 16-bit coordinates. */
  datatype Vec3s = Vec3s(x: i16, y: i16, z: i16)

  /** `LimbData`. */
  datatype LimbData = LimbData(jointPos: Vec3s, child: u8, sibling: u8, dList: u32)

  /** `LIMB_DONE`: the index that marks "no further limb". */
  const LimbDone: u8 := 0xFF

  /** The bytes a limb occupies in its segment. */
  const LimbSize: nat := 0xC

  // ---------------------------------------------------------------------
  // The record

  /** What `LimbFactory::parse` reads from the start of a segment. */
  function Decode(s: seq<u8>): (r: Result<LimbData>)
    ensures r.Ok? <==> |s| >= LimbSize
    ensures r.Err? ==> r.error == ReadPastEnd
  {
    if |s| < LimbSize then Err(ReadPastEnd)
    else
      Ok(LimbData(Vec3s(I16OfBits(Be16At(s, 0)), I16OfBits(Be16At(s, 2)), I16OfBits(Be16At(s, 4))),
                  s[6], s[7], Be32At(s, 8)))
  }

  /** `LimbFactory::parse`: straight-line reads from segment byte 0. */
  method Parse(segment: seq<u8>) returns (r: Result<LimbData>)
    ensures r == Decode(segment)
  {
    var reader := new Reader(segment);
    var jointPosX :- reader.ReadInt16();
    var jointPosY :- reader.ReadInt16();
    var jointPosZ :- reader.ReadInt16();
    var child :- reader.ReadUByte();
    var sibling :- reader.ReadUByte();
    var dList :- reader.ReadUInt32();
    return Ok(LimbData(Vec3s(jointPosX, jointPosY, jointPosZ), child, sibling, dList));
  }

  /** The 12 bytes a limb is stored as, big-endian. */
  function LimbBytes(l: LimbData): (b: seq<u8>)
    ensures |b| == LimbSize
  {
    Bytes16(I16Bits(l.jointPos.x), BigEndian) + Bytes16(I16Bits(l.jointPos.y), BigEndian)
    + Bytes16(I16Bits(l.jointPos.z), BigEndian) + [l.child, l.sibling] + Bytes32(l.dList, BigEndian)
  }

  /** A stored limb parses back, whatever follows its 12 bytes. */
  lemma {:induction false} DecodeOfLimbBytes(l: LimbData, rest: seq<u8>)
    ensures Decode(LimbBytes(l) + rest) == Ok(l)
  {
    var s := LimbBytes(l) + rest;
    assert s[0..2] == Bytes16(I16Bits(l.jointPos.x), BigEndian);
    assert s[2..4] == Bytes16(I16Bits(l.jointPos.y), BigEndian);
    assert s[4..6] == Bytes16(I16Bits(l.jointPos.z), BigEndian);
    assert s[8..12] == Bytes32(l.dList, BigEndian);
    Be16OfBytes16(I16Bits(l.jointPos.x), s, 0);
    Be16OfBytes16(I16Bits(l.jointPos.y), s, 2);
    Be16OfBytes16(I16Bits(l.jointPos.z), s, 4);
    Be32OfBytes32(l.dList, s, 8);
    TwosComplementRoundTrip();
  }

  /** A parse consumes exactly the first 12 bytes: storing what was parsed
      gives them back. */
  lemma {:induction false} LimbBytesOfDecode(s: seq<u8>)
    requires |s| >= LimbSize
    ensures LimbBytes(Decode(s).value) == s[..LimbSize]
  {
    var l := Decode(s).value;
    TwosComplementRoundTrip();
    Bytes16OfBe16At(s, 0);
    Bytes16OfBe16At(s, 2);
    Bytes16OfBe16At(s, 4);
    Bytes32OfBe32At(s, 8);
    assert s[..LimbSize] == s[0..2] + s[2..4] + s[4..6] + [s[6], s[7]] + s[8..12];
  }

  // ---------------------------------------------------------------------
  // The C initializer

  /** How the code exporter writes a child or sibling index. */
  function LinkText(v: u8): string {
    if v == LimbDone then "LIMB_DONE" else "0x" + Hex(v, false)
  }

  /** An index renders as `LIMB_DONE` exactly when it is 0xFF; any other
      index renders as `0x` and lowercase hexadecimal digits that spell it. */
  lemma {:induction false} LinkTextReads(v: u8)
    ensures LinkText(v) == "LIMB_DONE" <==> v == LimbDone
    ensures v != LimbDone ==> LinkText(v)[..2] == "0x" && ParseHex(LinkText(v)[2..]) == Some(v)
  {
    if v != LimbDone {
      var t := LinkText(v);
      assert t[2..] == Hex(v, false);
      ParseHexOfHex(v, false);
      assert t[2] != 'I';
      assert t != "LIMB_DONE" by {
        assert "LIMB_DONE"[2] == 'M';
      }
    }
  }

  /** How the display list is written: the symbol of the asset registered at
      that address when there is one (`lookup`), otherwise `0x` and the
      address in lowercase hexadecimal. */
  function DListText(dList: u32, lookup: u32 -> Option<string>): string {
    match lookup(dList)
    case Some(symbol) => symbol
    case None => "0x" + Hex(dList, false)
  }

  /** The exporter's text; `vecText` is the stream rendering of `Vec3s`,
      which lives outside this model. */
  function CodeText(symbol: string, l: LimbData, vecText: Vec3s -> string, lookup: u32 -> Option<string>): string {
    "StandardLimb " + symbol + "= {\n"
    + vecText(l.jointPos) + ", " + LinkText(l.child) + ", " + LinkText(l.sibling) + ",\n"
    + DListText(l.dList, lookup)
    + "\n};\n"
  }

  /** `LimbCodeExporter::Export`: the text, and the offset just past the limb. */
  method CodeExport(symbol: string, offset: u32, l: LimbData, vecText: Vec3s -> string,
                    lookup: u32 -> Option<string>) returns (text: string, next: nat)
    ensures text == CodeText(symbol, l, vecText, lookup)
    ensures next == offset + LimbSize
  {
    text := "StandardLimb " + symbol + "= {\n";
    var child: string;
    var sibling: string;
    if l.child == LimbDone {
      child := "LIMB_DONE";
    } else {
      child := "0x" + Hex(l.child, false);
    }
    if l.sibling == LimbDone {
      sibling := "LIMB_DONE";
    } else {
      sibling := "0x" + Hex(l.sibling, false);
    }
    text := text + vecText(l.jointPos) + ", " + child + ", " + sibling + ",\n";
    var dec := lookup(l.dList);
    if dec.Some? {
      text := text + dec.value;
    } else {
      text := text + "0x" + Hex(l.dList, false);
    }
    text := text + "\n};\n";
    var size := 0xC;
    next := offset + size;
  }

  /** `LimbBinaryExporter::Export`: only the resource header (`header`) is
      written, whatever the limb holds. */
  method BinaryExport(l: LimbData, header: seq<u8>) returns (out: seq<u8>)
    ensures out == header
  {
    out := header;
  }
}
