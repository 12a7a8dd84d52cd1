/** BK64 model header and display-list splitter (`ModelFactory::parse`).

    The parser checks the model's magic word, reads the 52-byte header,
    then registers the model's pieces as assets of their own: compressed
    segments 1 and 3 (vertices, display lists), and, for each setup offset
    that is not zero, segment 2 and the textures and palettes, the vertex
    buffer, and one display list per run of commands ending in `G_ENDDL`.
    Registration goes through `Companion::Instance`; here the companion is
    an object whose log records every registration in order. A registration
    made before a read fails stays made, so the log is kept on errors too.

    Every offset arithmetic of the source is `uint32_t` arithmetic and is
    written out with `Wrap32`. The geo-layout registration of the source is
    guarded by `&& false` and never runs, so no geo-layout asset exists. */
module Model {
  import opened Results
  import opened Bytes
  import opened BinaryReader

  /** `BK64_MODEL_HEADER`: the first word of every model. */
  const ModelMagic: int := 0xB

  /** The bytes the header occupies, the magic word included. */
  const HeaderSize: nat := 52

  const TextureHeaderSize: nat := 0x8
  const TextureMetadataSize: nat := 0x10
  const GfxHeaderSize: nat := 0x8
  const GfxCmdSize: nat := 0x8
  const VtxHeaderSize: nat := 0x18

  // ---------------------------------------------------------------------
  // The GBI opcode tables

  datatype GbiVersion = F3D | F3DEX | F3DEX2

  /** The commands the tables name. */
  datatype GbiCommand = GVtx | GDl | GMtx | GEndDl | GSetTImg | GMoveMem | GMvL0 | GMvL1 | GMvLight | GTri2 | GQuad

  /** `GBI(cmd)`: the opcode of `cmd` in the table of version `v`. */
  function Opcode(v: GbiVersion, c: GbiCommand): u8 {
    match v
    case F3D =>
      (match c
       case GVtx => 0x04 case GDl => 0x06 case GMtx => 0x1 case GEndDl => 0xB8 case GSetTImg => 0xFD
       case GMoveMem => 0x03 case GMvL0 => 0x86 case GMvL1 => 0x88 case GMvLight => 0xA case GTri2 => 0xB1
       // `-1` stored in a `uint8_t`
       case GQuad => (-1) % 0x100)
    case F3DEX =>
      (match c
       case GVtx => 0x04 case GDl => 0x06 case GMtx => 0x1 case GEndDl => 0xB8 case GSetTImg => 0xFD
       case GMoveMem => 0x03 case GMvL0 => 0x86 case GMvL1 => 0x88 case GMvLight => 0xA case GTri2 => 0xB1
       case GQuad => 0xB5)
    case F3DEX2 =>
      (match c
       case GVtx => 0x01 case GDl => 0xDE case GMtx => 0xDA case GEndDl => 0xDF case GSetTImg => 0xFD
       case GMoveMem => 0xDC case GMvL0 => 0x86 case GMvL1 => 0x88 case GMvLight => 0xA case GTri2 => 0x06
       case GQuad => 0x07)
  }

  /** `G_ENDDL` is 0xB8 in F3D and F3DEX and 0xDF in F3DEX2; F3D has no
      quad command and stores 0xFF for it; F3D and F3DEX agree on every
      other command. */
  lemma {:induction false} GbiTables()
    ensures Opcode(F3D, GEndDl) == Opcode(F3DEX, GEndDl) == 0xB8 && Opcode(F3DEX2, GEndDl) == 0xDF
    ensures Opcode(F3D, GQuad) == 0xFF
    ensures forall c :: c != GQuad ==> Opcode(F3D, c) == Opcode(F3DEX, c)
  {
  }

  /** Within one table an opcode names one command, so the splitter's
      `G_ENDDL` test matches nothing but `G_ENDDL`. */
  lemma {:induction false} OpcodeNamesOneCommand(v: GbiVersion, a: GbiCommand, b: GbiCommand)
    requires Opcode(v, a) == Opcode(v, b)
    ensures a == b
  {
    match v
    case F3D => match a { case _ => match b { case _ => } }
    case F3DEX => match a { case _ => match b { case _ => } }
    case F3DEX2 => match a { case _ => match b { case _ => } }
  }

  // ---------------------------------------------------------------------
  // Registered assets

  /** The texture formats of the texture-type switch. */
  datatype TextureFormat = CI4 | CI8 | RGBA16 | RGBA32 | IA8

  /** The switch on the texture type; any other type throws. */
  function FormatOf(textureType: u16): (r: Option<TextureFormat>)
    ensures r.Some? <==> textureType in {0x1, 0x2, 0x4, 0x8, 0x10}
  {
    if textureType == 0x1 then Some(CI4)
    else if textureType == 0x2 then Some(CI8)
    else if textureType == 0x4 then Some(RGBA16)
    else if textureType == 0x8 then Some(RGBA32)
    else if textureType == 0x10 then Some(IA8)
    else None
  }

  /** The type code each format is stored with. */
  function TypeCode(f: TextureFormat): u16 {
    match f
    case CI4 => 0x1
    case CI8 => 0x2
    case RGBA16 => 0x4
    case RGBA32 => 0x8
    case IA8 => 0x10
  }

  /** The switch and the type codes are inverse: every format has one code. */
  lemma {:induction false} FormatOfTypeCode(f: TextureFormat, textureType: u16)
    ensures FormatOf(TypeCode(f)) == Some(f)
    ensures FormatOf(textureType) == Some(f) ==> TypeCode(f) == textureType
  {
  }

  /** `tlutSize`: the palette colours of an indexed format, 0 otherwise. */
  function TlutColors(f: TextureFormat): (n: nat)
    ensures n != 0 <==> f == CI4 || f == CI8
  {
    match f
    case CI4 => 0x10
    case CI8 => 0x100
    case _ => 0
  }

  /** A registration with `Companion::Instance`. The YAML node of each asset
      is reduced to its fields; `type`, `format` and `ctype` follow from the
      constructor and the format. */
  datatype Asset =
    | CompressedSegment(segment: nat, fileOffset: u32, offset: u32)
    | TlutAsset(colors: nat, offset: u32, symbol: string)
    | TextureAsset(format: TextureFormat, width: u8, height: u8, tlut: Option<u32>, offset: u32, symbol: string)
    | VtxAsset(count: nat, offset: u32, symbol: string)
    | GfxAsset(offset: u32, symbol: string)

  /** The companion's registrations, in the order they were made. */
  class Companion {
    var log: seq<Asset>

    constructor ()
      ensures log == []
    {
      log := [];
    }

    /** `SetCompressedSegment(segment, fileOffset, offset)`. */
    method SetCompressedSegment(segment: nat, fileOffset: u32, offset: u32)
      modifies this
      ensures log == old(log) + [CompressedSegment(segment, fileOffset, offset)]
    {
      log := log + [CompressedSegment(segment, fileOffset, offset)];
    }

    /** `AddAsset(node)`. */
    method AddAsset(asset: Asset)
      modifies this
      ensures log == old(log) + [asset]
    {
      log := log + [asset];
    }
  }

  /** What one part of the parse registers, and whether it then threw. */
  datatype Logged = Logged(status: Result<()>, log: seq<Asset>)

  /** One part after another: the second runs only if the first did not throw. */
  function Then(a: Logged, b: Logged): (r: Logged)
    ensures a.status.Err? ==> r == a
    ensures a.status.Ok? ==> r.status == b.status
  {
    if a.status.Err? then a else Logged(b.status, a.log + b.log)
  }

  /** A chain registers what its first part registers and, when that part
      succeeds, what the second part registers. */
  lemma {:induction false} ThenMembers(a: Logged, b: Logged)
    ensures forall x :: x in Then(a, b).log <==> x in a.log || (a.status.Ok? && x in b.log)
  {
  }

  lemma {:induction false} ThenDone(done: seq<Asset>, more: seq<Asset>, rest: Logged)
    ensures Then(Logged(Ok(()), done), Then(Logged(Ok(()), more), rest)) == Then(Logged(Ok(()), done + more), rest)
  {
    assert done + (more + rest.log) == done + more + rest.log;
  }

  // ---------------------------------------------------------------------
  // The header

  datatype ModelData = ModelData

  /** The header fields after the magic word, padding left out. */
  datatype ModelHeader = ModelHeader(
    geoLayoutOffset: u32, textureSetupOffset: u16, geoType: u16, displayListSetupOffset: u32,
    vertexSetupOffset: u32, unkHitboxInfo: u32, animationSetupOffset: u32, collisionSetupOffset: u32,
    effectsSetupEndOffset: u32, effectsSetupOffset: u32, animatedTextureOffset: u32,
    triCount: u16, vertCount: u16)

  function HeaderAt(s: seq<u8>): ModelHeader
    requires |s| >= HeaderSize
  {
    ModelHeader(Be32At(s, 4), Be16At(s, 8), Be16At(s, 10), Be32At(s, 12), Be32At(s, 16), Be32At(s, 20),
                Be32At(s, 24), Be32At(s, 28), Be32At(s, 32), Be32At(s, 36), Be32At(s, 44),
                Be16At(s, 48), Be16At(s, 50))
  }

  /** Reads the header fields after the magic word. */
  method ReadHeader(reader: Reader) returns (r: Result<ModelHeader>)
    requires reader.pos == 4
    modifies reader
    ensures r.Ok? <==> |reader.data| >= HeaderSize
    ensures r.Err? ==> r.error == ReadPastEnd
    ensures r.Ok? ==> r.value == HeaderAt(reader.data)
  {
    var offsets :- ReadSetupOffsets(reader);
    var more :- ReadOtherOffsets(reader);
    var counts :- ReadCounts(reader);
    var (geoLayoutOffset, textureSetupOffset, geoType, displayListSetupOffset, vertexSetupOffset) := offsets;
    var (unkHitboxInfo, animationSetupOffset, collisionSetupOffset, effectsSetupEndOffset, effectsSetupOffset) := more;
    var (animatedTextureOffset, triCount, vertCount) := counts;
    return Ok(ModelHeader(geoLayoutOffset, textureSetupOffset, geoType, displayListSetupOffset,
                          vertexSetupOffset, unkHitboxInfo, animationSetupOffset, collisionSetupOffset,
                          effectsSetupEndOffset, effectsSetupOffset, animatedTextureOffset, triCount, vertCount));
  }

  /** The geo-layout, texture, display-list and vertex setup offsets and the geo type. */
  method ReadSetupOffsets(reader: Reader) returns (r: Result<(u32, u16, u16, u32, u32)>)
    requires reader.pos == 4
    modifies reader
    ensures r.Ok? <==> |reader.data| >= 20
    ensures r.Err? ==> r.error == ReadPastEnd
    ensures r.Ok? ==> reader.pos == 20 && r.value == (Be32At(reader.data, 4), Be16At(reader.data, 8),
                        Be16At(reader.data, 10), Be32At(reader.data, 12), Be32At(reader.data, 16))
  {
    var geoLayoutOffset :- reader.ReadUInt32();
    var textureSetupOffset :- reader.ReadUInt16();
    var geoType :- reader.ReadUInt16();
    var displayListSetupOffset :- reader.ReadUInt32();
    var vertexSetupOffset :- reader.ReadUInt32();
    return Ok((geoLayoutOffset, textureSetupOffset, geoType, displayListSetupOffset, vertexSetupOffset));
  }

  /** The hitbox word and the animation, collision and effects offsets. */
  method ReadOtherOffsets(reader: Reader) returns (r: Result<(u32, u32, u32, u32, u32)>)
    requires reader.pos == 20
    modifies reader
    ensures r.Ok? <==> |reader.data| >= 40
    ensures r.Err? ==> r.error == ReadPastEnd
    ensures r.Ok? ==> reader.pos == 40 && r.value == (Be32At(reader.data, 20), Be32At(reader.data, 24),
                        Be32At(reader.data, 28), Be32At(reader.data, 32), Be32At(reader.data, 36))
  {
    var unkHitboxInfo :- reader.ReadUInt32();
    var animationSetupOffset :- reader.ReadUInt32();
    var collisionSetupOffset :- reader.ReadUInt32();
    var effectsSetupEndOffset :- reader.ReadUInt32();
    var effectsSetupOffset :- reader.ReadUInt32();
    return Ok((unkHitboxInfo, animationSetupOffset, collisionSetupOffset, effectsSetupEndOffset, effectsSetupOffset));
  }

  /** A padding word, the animated-texture offset and the triangle and vertex counts. */
  method ReadCounts(reader: Reader) returns (r: Result<(u32, u16, u16)>)
    requires reader.pos == 40
    modifies reader
    ensures r.Ok? <==> |reader.data| >= HeaderSize
    ensures r.Err? ==> r.error == ReadPastEnd
    ensures r.Ok? ==> reader.pos == HeaderSize
                      && r.value == (Be32At(reader.data, 44), Be16At(reader.data, 48), Be16At(reader.data, 50))
  {
    var pad :- reader.ReadUInt32();
    var animatedTextureOffset :- reader.ReadUInt32();
    var triCount :- reader.ReadUInt16();
    var vertCount :- reader.ReadUInt16();
    return Ok((animatedTextureOffset, triCount, vertCount));
  }

  // ---------------------------------------------------------------------
  // Textures

  /** The assets one texture record registers: the palette first for an
      indexed format, then the texture, whose texels follow the palette's
      2-byte colours. `start` is where the record's data begins. */
  function TextureAssets(f: TextureFormat, width: u8, height: u8, start: nat, symbol: string, i: nat): seq<Asset> {
    var colors := TlutColors(f);
    var tlut := if colors != 0 then Some(Wrap32(start)) else None;
    var texture := TextureAsset(f, width, height, tlut, Wrap32(start + colors * 2), symbol + "_TEX_" + Decimal(i));
    if colors != 0 then [TlutAsset(colors, Wrap32(start), symbol + "_TLUT_" + Decimal(i)), texture] else [texture]
  }

  /** An indexed texture registers its palette, then itself, pointing at the
      palette and starting right after its colours; a direct texture
      registers itself alone. */
  lemma {:induction false} TextureFollowsPalette(f: TextureFormat, width: u8, height: u8, start: nat, symbol: string, i: nat)
    ensures var a := TextureAssets(f, width, height, start, symbol, i);
      && (|a| == 2 <==> f == CI4 || f == CI8) && 1 <= |a| <= 2
      && a[|a| - 1].TextureAsset? && a[|a| - 1].format == f
      && a[|a| - 1].symbol == symbol + "_TEX_" + Decimal(i)
      && (|a| == 2 ==> a[0].TlutAsset? && a[1].tlut == Some(a[0].offset)
                       && a[1].offset == Wrap32(a[0].offset + 2 * a[0].colors))
      && (|a| == 1 ==> a[0].tlut.None? && a[0].offset == Wrap32(start))
  {
    var a := TextureAssets(f, width, height, start, symbol, i);
    if TlutColors(f) != 0 {
      WrapSum(start, 2 * TlutColors(f));
    }
  }

  lemma {:induction false} WrapSum(x: nat, y: nat)
    ensures Wrap32(Wrap32(x) + y) == Wrap32(x + y)
  {
  }

  /** The 16-byte record of texture `i` at `p`: its data offset, its type,
      its width and height, and padding. */
  function TextureStep(s: seq<u8>, p: nat, i: nat, base: nat, symbol: string): Logged {
    if p + TextureMetadataSize > |s| then Logged(Err(ReadPastEnd), [])
    else
      var textureType := Be16At(s, p + 4);
      match FormatOf(textureType)
      case None => Logged(Err(InvalidTextureFormat(textureType)), [])
      case Some(f) => Logged(Ok(()), TextureAssets(f, s[p + 8], s[p + 9], base + Be32At(s, p), symbol, i))
  }

  /** The records of textures `i` to `count - 1`, the first at `p`. */
  function TextureEntries(s: seq<u8>, p: nat, i: nat, count: nat, base: nat, symbol: string): Logged
    decreases count - i, 1
  {
    if i >= count then Logged(Ok(()), [])
    else RecordThenRest(s, p, i, count, base, symbol)
  }

  /** Record `i` at `p`, then the records after it. */
  function RecordThenRest(s: seq<u8>, p: nat, i: nat, count: nat, base: nat, symbol: string): Logged
    requires i < count
    decreases count - i, 0
  {
    Then(TextureStep(s, p, i, base, symbol), TextureEntries(s, p + TextureMetadataSize, i + 1, count, base, symbol))
  }

  /** The texture section at `t`: its 8-byte header, segment 2 at the first
      texture's data, then the records. */
  function Textures(s: seq<u8>, t: nat, modelOffset: u32, fileOffset: u32, symbol: string): Logged {
    if t == 0 then Logged(Ok(()), [])
    else if t + TextureHeaderSize > |s| then Logged(Err(ReadPastEnd), [])
    else
      var count := Be16At(s, t + 4);
      var base := modelOffset + t + TextureHeaderSize + count * TextureMetadataSize;
      Then(Logged(Ok(()), [CompressedSegment(2, fileOffset, Wrap32(base))]),
           TextureEntries(s, t + TextureHeaderSize, 0, count, base, symbol))
  }

  /** The texture records register palettes and textures only. */
  lemma {:induction false} TextureEntriesKinds(s: seq<u8>, p: nat, i: nat, count: nat, base: nat, symbol: string)
    ensures forall a :: a in TextureEntries(s, p, i, count, base, symbol).log ==> a.TlutAsset? || a.TextureAsset?
    decreases count - i
  {
    if i < count {
      TextureEntriesKinds(s, p + TextureMetadataSize, i + 1, count, base, symbol);
      assert TextureEntries(s, p, i, count, base, symbol) == RecordThenRest(s, p, i, count, base, symbol);
      ThenMembers(TextureStep(s, p, i, base, symbol), TextureEntries(s, p + TextureMetadataSize, i + 1, count, base, symbol));
    }
  }

  /** The fields of a texture record the parser keeps: the data offset,
      the type, the width and the height. */
  method ReadTextureRecord(reader: Reader) returns (r: Result<(u32, u16, u8, u8)>)
    modifies reader
    ensures var p, s := old(reader.pos), reader.data;
      && (r.Ok? <==> p + TextureMetadataSize <= |s|)
      && (r.Err? ==> r.error == ReadPastEnd)
      && (r.Ok? ==> reader.pos == p + TextureMetadataSize && r.value == (Be32At(s, p), Be16At(s, p + 4), s[p + 8], s[p + 9]))
  {
    var textureDataOffset :- reader.ReadUInt32();
    var textureType :- reader.ReadUInt16();
    var pad0 :- reader.ReadUInt16();
    var width :- reader.ReadUByte();
    var height :- reader.ReadUByte();
    var pad1 :- reader.ReadUInt16();
    var pad2 :- reader.ReadUInt32();
    return Ok((textureDataOffset, textureType, width, height));
  }

  /** One texture record, read at the cursor: the body of the texture loop. */
  method ReadTexture(reader: Reader, i: nat, base: nat, symbol: string, companion: Companion) returns (r: Result<()>)
    modifies reader, companion
    ensures r == TextureStep(reader.data, old(reader.pos), i, base, symbol).status
    ensures companion.log == old(companion.log) + TextureStep(reader.data, old(reader.pos), i, base, symbol).log
    ensures r.Ok? ==> reader.pos == old(reader.pos) + TextureMetadataSize
  {
    var record :- ReadTextureRecord(reader);
    var (textureDataOffset, textureType, width, height) := record;
    var format: TextureFormat;
    var tlut: Option<u32> := None;
    var tlutSize := 0;
    if textureType == 0x1 || textureType == 0x2 {
      var tlutOffset := Wrap32(base + textureDataOffset);
      format := if textureType == 0x1 then CI4 else CI8;
      tlutSize := if textureType == 0x1 then 0x10 else 0x100;
      companion.AddAsset(TlutAsset(tlutSize, tlutOffset, symbol + "_TLUT_" + Decimal(i)));
      tlut := Some(tlutOffset);
    } else if textureType == 0x4 {
      format := RGBA16;
    } else if textureType == 0x8 {
      format := RGBA32;
    } else if textureType == 0x10 {
      format := IA8;
    } else {
      return Err(InvalidTextureFormat(textureType));
    }
    var textureOffset := Wrap32(base + textureDataOffset + tlutSize * 2);
    companion.AddAsset(TextureAsset(format, width, height, tlut, textureOffset, symbol + "_TEX_" + Decimal(i)));
    return Ok(());
  }

  /** The 8-byte texture header at `t`: the data size, the texture count
      and padding. */
  method ReadTextureHeader(reader: Reader, t: nat) returns (r: Result<u16>)
    modifies reader
    ensures r.Ok? <==> t + TextureHeaderSize <= |reader.data|
    ensures r.Err? ==> r.error == ReadPastEnd
    ensures r.Ok? ==> reader.pos == t + TextureHeaderSize && r.value == Be16At(reader.data, t + 4)
  {
    reader.Seek(t);
    var textureDataSize :- reader.ReadUInt32();
    var textureCount :- reader.ReadUInt16();
    var pad :- reader.ReadUInt16();
    return Ok(textureCount);
  }

  /** One turn of the texture loop: a failed record ends the section with
      what came before it; a read one adds its assets. */
  lemma {:induction false} EntriesStep(s: seq<u8>, p: nat, i: nat, count: nat, base: nat, symbol: string, done: seq<Asset>)
    requires i < count
    ensures var step := TextureStep(s, p, i, base, symbol);
      var here := Then(Logged(Ok(()), done), TextureEntries(s, p, i, count, base, symbol));
      && (step.status.Err? ==> here == Logged(step.status, done + step.log))
      && (step.status.Ok? ==> here == Then(Logged(Ok(()), done + step.log), TextureEntries(s, p + TextureMetadataSize, i + 1, count, base, symbol)))
  {
    var step := TextureStep(s, p, i, base, symbol);
    var rest := TextureEntries(s, p + TextureMetadataSize, i + 1, count, base, symbol);
    assert TextureEntries(s, p, i, count, base, symbol) == RecordThenRest(s, p, i, count, base, symbol) == Then(step, rest);
    if step.status.Ok? {
      assert step == Logged(Ok(()), step.log);
      ThenDone(done, step.log, rest);
    }
  }

  /** The texture loop: `count` records from the cursor on. */
  method ReadTextureEntries(reader: Reader, count: u16, base: nat, symbol: string, companion: Companion)
    returns (r: Result<()>)
    modifies reader, companion
    ensures r == TextureEntries(reader.data, old(reader.pos), 0, count, base, symbol).status
    ensures companion.log == old(companion.log) + TextureEntries(reader.data, old(reader.pos), 0, count, base, symbol).log
  {
    ghost var s := reader.data;
    ghost var start := companion.log;
    ghost var entries := TextureEntries(s, reader.pos, 0, count, base, symbol);
    ghost var done: seq<Asset> := [];
    assert entries == Then(Logged(Ok(()), done), entries);
    var i := 0;
    while i < count
      invariant 0 <= i <= count
      invariant reader.data == s
      invariant companion.log == start + done
      invariant entries == Then(Logged(Ok(()), done), TextureEntries(s, reader.pos, i, count, base, symbol))
    {
      ghost var p := reader.pos;
      ghost var step := TextureStep(s, p, i, base, symbol);
      EntriesStep(s, p, i, count, base, symbol, done);
      var read := ReadTexture(reader, i, base, symbol, companion);
      if read.Err? {
        return read;
      }
      done := done + step.log;
      i := i + 1;
    }
    assert entries.log == done;
    return Ok(());
  }

  /** The texture section (the `textureSetupOffset != 0` branch). */
  method ReadTextures(reader: Reader, t: u16, modelOffset: u32, fileOffset: u32, symbol: string, companion: Companion)
    returns (r: Result<()>)
    requires t != 0
    modifies reader, companion
    ensures r == Textures(reader.data, t, modelOffset, fileOffset, symbol).status
    ensures companion.log == old(companion.log) + Textures(reader.data, t, modelOffset, fileOffset, symbol).log
  {
    ghost var s := reader.data;
    var textureCount :- ReadTextureHeader(reader, t);
    var base := modelOffset + t + TextureHeaderSize + textureCount * TextureMetadataSize;
    companion.SetCompressedSegment(2, fileOffset, Wrap32(base));
    ghost var entries := TextureEntries(s, t + TextureHeaderSize, 0, textureCount, base, symbol);
    assert Textures(s, t, modelOffset, fileOffset, symbol)
      == Then(Logged(Ok(()), [CompressedSegment(2, fileOffset, Wrap32(base))]), entries);
    r := ReadTextureEntries(reader, textureCount, base, symbol, companion);
  }

  // ---------------------------------------------------------------------
  // Vertices

  /** The vertex section at `v`: eleven 16-bit words, of which the tenth
      counts the vertices twice. */
  function Vertices(s: seq<u8>, v: nat, modelOffset: u32, symbol: string): Logged {
    if v == 0 then Logged(Ok(()), [])
    else if v + 22 > |s| then Logged(Err(ReadPastEnd), [])
    else Logged(Ok(()), [VtxAsset(Be16At(s, v + 18) / 2, Wrap32(modelOffset + v + VtxHeaderSize), symbol + "_VTX")])
  }

  /** The minimum, maximum and centre coordinates: nine 16-bit words the
      parser reads and drops. */
  method ReadBounds(reader: Reader) returns (r: Result<()>)
    modifies reader
    ensures r.Ok? <==> old(reader.pos) + 18 <= |reader.data|
    ensures r.Err? ==> r.error == ReadPastEnd
    ensures r.Ok? ==> reader.pos == old(reader.pos) + 18
  {
    var minCoordsX :- reader.ReadUInt16();
    var minCoordsY :- reader.ReadUInt16();
    var minCoordsZ :- reader.ReadUInt16();
    var maxCoordsX :- reader.ReadUInt16();
    var maxCoordsY :- reader.ReadUInt16();
    var maxCoordsZ :- reader.ReadUInt16();
    var centerCoordsX :- reader.ReadUInt16();
    var centerCoordsY :- reader.ReadUInt16();
    var centerCoordsZ :- reader.ReadUInt16();
    return Ok(());
  }

  /** The vertex section (the `vertexSetupOffset != 0` branch). */
  method ReadVertices(reader: Reader, v: u32, modelOffset: u32, symbol: string, companion: Companion)
    returns (r: Result<()>)
    requires v != 0
    modifies reader, companion
    ensures r == Vertices(reader.data, v, modelOffset, symbol).status
    ensures companion.log == old(companion.log) + Vertices(reader.data, v, modelOffset, symbol).log
  {
    reader.Seek(v);
    var bounds :- ReadBounds(reader);
    var doubleVtxCount :- reader.ReadUInt16();
    var largestDistToOrigin :- reader.ReadUInt16();
    companion.AddAsset(VtxAsset(doubleVtxCount / 2, Wrap32(modelOffset + v + VtxHeaderSize), symbol + "_VTX"));
    return Ok(());
  }

  // ---------------------------------------------------------------------
  // Display lists

  /** `w0 >> 24`: the opcode byte of the command at `p`. */
  function OpCodeAt(s: seq<u8>, p: nat): (op: u8)
    requires p + 4 <= |s|
    ensures op == s[p]
  {
    Be32At(s, p) / 0x100_0000
  }

  /** `dlCount * GFX_CMD_SIZE` as a `uint32_t`: the loop reads `dlCount`
      commands modulo 2^29. */
  lemma {:induction false} SplitLimit(dlCount: u32)
    ensures Wrap32(dlCount * GfxCmdSize) == GfxCmdSize * (dlCount % 0x2000_0000)
    ensures Wrap32(dlCount * GfxCmdSize) % GfxCmdSize == 0
  {
  }

  /** The split offsets the loop adds from `dlOffset == off` on; `start` is
      where the commands begin. */
  function SplitPoints(s: seq<u8>, start: nat, endDl: u8, off: nat, limit: nat): Result<seq<nat>>
    decreases limit - off
  {
    if off >= limit then Ok([])
    else if start + off + GfxCmdSize > |s| then Err(ReadPastEnd)
    else
      var next := off + GfxCmdSize;
      var rest :- SplitPoints(s, start, endDl, next, limit);
      Ok((if OpCodeAt(s, start + off) == endDl && next != limit then [next] else []) + rest)
  }

  /** `xs` ahead of a successful outcome. */
  function Prefixed(xs: seq<nat>, r: Result<seq<nat>>): Result<seq<nat>> {
    match r
    case Ok(v) => Ok(xs + v)
    case Err(e) => Err(e)
  }

  lemma {:induction false} SplitStep(s: seq<u8>, start: nat, endDl: u8, off: nat, limit: nat, xs: seq<nat>)
    requires off < limit && start + off + GfxCmdSize <= |s|
    ensures Prefixed(xs, SplitPoints(s, start, endDl, off, limit))
      == Prefixed(xs + (if OpCodeAt(s, start + off) == endDl && off + GfxCmdSize != limit then [off + GfxCmdSize] else []),
                  SplitPoints(s, start, endDl, off + GfxCmdSize, limit))
  {
    var step := if OpCodeAt(s, start + off) == endDl && off + GfxCmdSize != limit then [off + GfxCmdSize] else [];
    match SplitPoints(s, start, endDl, off + GfxCmdSize, limit)
    case Ok(v) => assert xs + (step + v) == xs + step + v;
    case Err(_) =>
  }

  /** The split loop succeeds exactly when every command up to the limit is
      inside the segment. */
  lemma {:induction false} SplitPointsOk(s: seq<u8>, start: nat, endDl: u8, off: nat, limit: nat)
    requires off % GfxCmdSize == 0 && limit % GfxCmdSize == 0 && off <= limit
    ensures SplitPoints(s, start, endDl, off, limit).Ok? <==> off == limit || start + limit <= |s|
    ensures SplitPoints(s, start, endDl, off, limit).Err? ==> SplitPoints(s, start, endDl, off, limit).error == ReadPastEnd
    decreases limit - off
  {
    if off < limit && start + off + GfxCmdSize <= |s| {
      SplitPointsOk(s, start, endDl, off + GfxCmdSize, limit);
    }
  }

  /** The boundary after a command before the limit is at most the limit. */
  lemma {:induction false} NextBoundary(off: nat, limit: nat)
    requires off < limit && off % GfxCmdSize == 0 && limit % GfxCmdSize == 0
    ensures off + GfxCmdSize <= limit && (off + GfxCmdSize) % GfxCmdSize == 0
  {
    assert off / GfxCmdSize < limit / GfxCmdSize;
  }

  /** `ps` climbs from above `lo` in command boundaries, all below `limit`. */
  predicate Ascending(ps: seq<nat>, lo: nat, limit: nat)
    decreases |ps|
  {
    ps == [] || (lo < ps[0] < limit && ps[0] % GfxCmdSize == 0 && Ascending(ps[1..], ps[0], limit))
  }

  /** What climbing means element by element. */
  lemma {:induction false} AscendingFacts(ps: seq<nat>, lo: nat, limit: nat)
    requires Ascending(ps, lo, limit)
    ensures forall i :: 0 <= i < |ps| ==> lo < ps[i] < limit && ps[i] % GfxCmdSize == 0
    ensures forall i, j :: 0 <= i < j < |ps| ==> ps[i] < ps[j]
    decreases |ps|
  {
    if ps != [] {
      var rest := ps[1..];
      AscendingFacts(rest, ps[0], limit);
      assert forall i :: 1 <= i < |ps| ==> ps[i] == rest[i - 1];
    }
  }

  /** A climbing sequence does not hold its lower bound. */
  lemma {:induction false} AscendingAbove(ps: seq<nat>, lo: nat, limit: nat)
    requires Ascending(ps, lo, limit)
    ensures lo !in ps
  {
    AscendingFacts(ps, lo, limit);
  }

  /** The offsets the section emits, 0 and then a climbing sequence. */
  lemma {:induction false} OffsetsFacts(ps: seq<nat>, limit: nat)
    requires Ascending(ps, 0, limit)
    ensures var offsets := [0] + ps;
      && offsets[0] == 0
      && (forall i :: 1 <= i < |offsets| ==> offsets[i] < limit)
      && (forall i :: 0 <= i < |offsets| ==> offsets[i] % GfxCmdSize == 0)
      && (forall i, j :: 0 <= i < j < |offsets| ==> offsets[i] < offsets[j])
  {
    AscendingFacts(ps, 0, limit);
    var offsets := [0] + ps;
    assert forall i :: 1 <= i < |offsets| ==> offsets[i] == ps[i - 1];
  }

  /** The split offsets after `off` climb from `off`. */
  lemma {:induction false} SplitPointsAscending(s: seq<u8>, start: nat, endDl: u8, off: nat, limit: nat)
    requires SplitPoints(s, start, endDl, off, limit).Ok? && off % GfxCmdSize == 0 && limit % GfxCmdSize == 0
    ensures Ascending(SplitPoints(s, start, endDl, off, limit).value, off, limit)
    decreases limit - off
  {
    if off < limit {
      var next := off + GfxCmdSize;
      NextBoundary(off, limit);
      SplitPointsAscending(s, start, endDl, next, limit);
      var rest := SplitPoints(s, start, endDl, next, limit).value;
      var ps := SplitPoints(s, start, endDl, off, limit).value;
      if OpCodeAt(s, start + off) == endDl && next != limit {
        assert ps == [next] + rest;
        assert ps[1..] == rest;
      } else {
        assert ps == rest;
      }
    }
  }

  /** Every split offset after `off` is a command boundary before the limit,
      and the offsets only grow. */
  lemma {:induction false} SplitPointsSorted(s: seq<u8>, start: nat, endDl: u8, off: nat, limit: nat)
    requires SplitPoints(s, start, endDl, off, limit).Ok? && off % GfxCmdSize == 0 && limit % GfxCmdSize == 0
    ensures var ps := SplitPoints(s, start, endDl, off, limit).value;
      && (forall i :: 0 <= i < |ps| ==> off < ps[i] < limit && ps[i] % GfxCmdSize == 0)
      && (forall i, j :: 0 <= i < j < |ps| ==> ps[i] < ps[j])
  {
    SplitPointsAscending(s, start, endDl, off, limit);
    AscendingFacts(SplitPoints(s, start, endDl, off, limit).value, off, limit);
  }

  /** A boundary after `off` is a split offset exactly when the command
      before it is `G_ENDDL` and it is not the limit itself. */
  lemma {:induction false} SplitPointsMembers(s: seq<u8>, start: nat, endDl: u8, off: nat, limit: nat, o: nat)
    requires SplitPoints(s, start, endDl, off, limit).Ok? && off % GfxCmdSize == 0 && limit % GfxCmdSize == 0
    requires off < o && o % GfxCmdSize == 0
    ensures o in SplitPoints(s, start, endDl, off, limit).value
        <==> o < limit && start + o <= |s| && OpCodeAt(s, start + o - GfxCmdSize) == endDl
    decreases limit - off
  {
    if off < limit {
      var next := off + GfxCmdSize;
      NextBoundary(off, limit);
      NextBoundary(off, o);
      if o != next {
        SplitPointsMembers(s, start, endDl, next, limit, o);
      } else {
        SplitPointsAscending(s, start, endDl, next, limit);
        AscendingAbove(SplitPoints(s, start, endDl, next, limit).value, next, limit);
      }
    }
  }

  /** The GFX assets of the split offsets, numbered in order. */
  function GfxAssets(offsets: seq<nat>, modelOffset: u32, d: nat, symbol: string): (r: seq<Asset>)
    ensures |r| == |offsets| && forall k :: 0 <= k < |r| ==> r[k].GfxAsset?
  {
    seq(|offsets|, k requires 0 <= k < |offsets| =>
      GfxAsset(Wrap32(modelOffset + d + GfxHeaderSize + offsets[k]), symbol + "_GFX_" + Decimal(k)))
  }

  /** The display-list section at `d`: the command count, a checksum word,
      the split loop, then one GFX asset per split offset, the first at 0. */
  function DisplayLists(s: seq<u8>, d: nat, modelOffset: u32, symbol: string, endDl: u8): Logged {
    if d == 0 then Logged(Ok(()), [])
    else if d + GfxHeaderSize > |s| then Logged(Err(ReadPastEnd), [])
    else
      var limit := Wrap32(Be32At(s, d) * GfxCmdSize);
      match SplitPoints(s, d + GfxHeaderSize, endDl, 0, limit)
      case Err(e) => Logged(Err(e), [])
      case Ok(points) => Logged(Ok(()), GfxAssets([0] + points, modelOffset, d, symbol))
  }

  /** The split loop: reads `limit / 8` commands and returns the offsets,
      starting with 0. */
  method SplitDisplayLists(reader: Reader, limit: nat, endDl: u8) returns (r: Result<seq<nat>>)
    requires limit % GfxCmdSize == 0
    modifies reader
    ensures r == Prefixed([0], SplitPoints(reader.data, old(reader.pos), endDl, 0, limit))
    ensures r.Ok? ==> reader.pos == old(reader.pos) + limit
  {
    ghost var start := reader.pos;
    ghost var s := reader.data;
    var dlOffsets: seq<nat> := [0];
    var dlOffset := 0;
    while dlOffset < limit
      invariant dlOffset % GfxCmdSize == 0 && dlOffset <= limit
      invariant reader.data == s && reader.pos == start + dlOffset
      invariant Prefixed([0], SplitPoints(s, start, endDl, 0, limit)) == Prefixed(dlOffsets, SplitPoints(s, start, endDl, dlOffset, limit))
      decreases limit - dlOffset
    {
      var w0 :- reader.ReadUInt32();
      var w1 :- reader.ReadUInt32();
      ghost var step := if OpCodeAt(s, start + dlOffset) == endDl && dlOffset + GfxCmdSize != limit
                        then [dlOffset + GfxCmdSize] else [];
      SplitStep(s, start, endDl, dlOffset, limit, dlOffsets);
      NextBoundary(dlOffset, limit);
      ghost var before := dlOffsets;
      dlOffset := dlOffset + GfxCmdSize;
      var opCode := w0 / 0x100_0000;
      assert opCode == OpCodeAt(s, start + dlOffset - GfxCmdSize);
      if opCode == endDl && dlOffset != limit {
        dlOffsets := dlOffsets + [dlOffset];
      }
      assert dlOffsets == before + step;
    }
    assert dlOffsets + [] == dlOffsets;
    return Ok(dlOffsets);
  }

  /** The display-list section (the `displayListSetupOffset != 0` branch). */
  method ReadDisplayLists(reader: Reader, d: u32, modelOffset: u32, symbol: string, endDl: u8, companion: Companion)
    returns (r: Result<()>)
    requires d != 0
    modifies reader, companion
    ensures r == DisplayLists(reader.data, d, modelOffset, symbol, endDl).status
    ensures companion.log == old(companion.log) + DisplayLists(reader.data, d, modelOffset, symbol, endDl).log
  {
    reader.Seek(d);
    var dlCount :- reader.ReadUInt32();
    var checksum :- reader.ReadUInt32();
    SplitLimit(dlCount);
    var dlOffsets :- SplitDisplayLists(reader, Wrap32(dlCount * GfxCmdSize), endDl);
    EmitDisplayLists(dlOffsets, modelOffset, d, symbol, companion);
    return Ok(());
  }

  /** The emit loop: one GFX asset per split offset, in order. */
  method EmitDisplayLists(dlOffsets: seq<nat>, modelOffset: u32, d: nat, symbol: string, companion: Companion)
    modifies companion
    ensures companion.log == old(companion.log) + GfxAssets(dlOffsets, modelOffset, d, symbol)
  {
    ghost var start := companion.log;
    ghost var assets := GfxAssets(dlOffsets, modelOffset, d, symbol);
    for count := 0 to |dlOffsets|
      invariant companion.log == start + assets[..count]
    {
      assert assets[..count + 1] == assets[..count] + [assets[count]];
      companion.AddAsset(GfxAsset(Wrap32(modelOffset + d + GfxHeaderSize + dlOffsets[count]),
                                  symbol + "_GFX_" + Decimal(count)));
    }
    assert assets[..|dlOffsets|] == assets;
  }

  /** The offsets start at 0 and only grow; every later one is a command
      boundary before `dlCount * 8`, and a boundary is one exactly when the
      command before it is `G_ENDDL` (one landing on the end does not
      count). The loop reads exactly the commands before the limit. */
  lemma {:induction false} SplitOffsets(s: seq<u8>, start: nat, endDl: u8, limit: nat)
    requires limit % GfxCmdSize == 0
    ensures SplitPoints(s, start, endDl, 0, limit).Ok? <==> limit == 0 || start + limit <= |s|
    ensures SplitPoints(s, start, endDl, 0, limit).Ok? ==>
      var offsets := [0] + SplitPoints(s, start, endDl, 0, limit).value;
      && offsets[0] == 0
      && (forall i :: 1 <= i < |offsets| ==> offsets[i] < limit)
      && (forall i :: 0 <= i < |offsets| ==> offsets[i] % GfxCmdSize == 0)
      && (forall i, j :: 0 <= i < j < |offsets| ==> offsets[i] < offsets[j])
      && (forall o :: 0 < o && o % GfxCmdSize == 0 ==>
            (o in offsets <==> o < limit && OpCodeAt(s, start + o - GfxCmdSize) == endDl))
  {
    SplitPointsOk(s, start, endDl, 0, limit);
    if SplitPoints(s, start, endDl, 0, limit).Ok? {
      var ps := SplitPoints(s, start, endDl, 0, limit).value;
      var offsets := [0] + ps;
      SplitPointsAscending(s, start, endDl, 0, limit);
      OffsetsFacts(ps, limit);
      OffsetsMembers(s, start, endDl, limit);
    }
  }

  /** Which boundaries the emitted offsets hold. */
  lemma {:induction false} OffsetsMembers(s: seq<u8>, start: nat, endDl: u8, limit: nat)
    requires limit % GfxCmdSize == 0 && SplitPoints(s, start, endDl, 0, limit).Ok?
    requires limit == 0 || start + limit <= |s|
    ensures forall o :: 0 < o && o % GfxCmdSize == 0 ==>
      (o in [0] + SplitPoints(s, start, endDl, 0, limit).value <==> o < limit && OpCodeAt(s, start + o - GfxCmdSize) == endDl)
  {
    var offsets := [0] + SplitPoints(s, start, endDl, 0, limit).value;
    forall o | 0 < o && o % GfxCmdSize == 0
      ensures o in offsets <==> o < limit && OpCodeAt(s, start + o - GfxCmdSize) == endDl
    {
      SplitPointsMembers(s, start, endDl, 0, limit, o);
    }
  }

  /** The boundaries that follow a `G_ENDDL` other than the last command. */
  function NonFinalEnds(s: seq<u8>, start: nat, endDl: u8, limit: nat): set<nat> {
    set o: nat | 0 < o < limit && o % GfxCmdSize == 0 && start + o <= |s| && OpCodeAt(s, start + o - GfxCmdSize) == endDl
  }

  /** The values a sequence holds. */
  function Elems(xs: seq<nat>): (r: set<nat>)
    ensures forall x :: x in r <==> x in xs
  {
    if xs == [] then {} else {xs[0]} + Elems(xs[1..])
  }

  /** A sequence whose elements only grow has as many elements as values. */
  lemma {:induction false} IncreasingCard(xs: seq<nat>)
    requires forall i, j :: 0 <= i < j < |xs| ==> xs[i] < xs[j]
    ensures |Elems(xs)| == |xs|
    decreases |xs|
  {
    if xs != [] {
      var rest := xs[1..];
      assert forall i :: 0 <= i < |rest| ==> rest[i] == xs[i + 1];
      IncreasingCard(rest);
      assert xs[0] !in rest;
    }
  }

  /** The split offsets are exactly the boundaries after a non-final `G_ENDDL`. */
  lemma {:induction false} SplitPointsAreEnds(s: seq<u8>, start: nat, endDl: u8, limit: nat)
    requires SplitPoints(s, start, endDl, 0, limit).Ok? && limit % GfxCmdSize == 0
    ensures Elems(SplitPoints(s, start, endDl, 0, limit).value) == NonFinalEnds(s, start, endDl, limit)
  {
    var ps := SplitPoints(s, start, endDl, 0, limit).value;
    forall o | o in NonFinalEnds(s, start, endDl, limit)
      ensures o in ps
    {
      SplitPointsMembers(s, start, endDl, 0, limit, o);
    }
    SplitPointsSorted(s, start, endDl, 0, limit);
    forall o | o in ps
      ensures o in NonFinalEnds(s, start, endDl, limit)
    {
      SplitPointsMembers(s, start, endDl, 0, limit, o);
    }
  }

  /** The section registers one display list more than there are
      `G_ENDDL` commands before the last command. */
  lemma {:induction false} DisplayListCount(s: seq<u8>, d: nat, modelOffset: u32, symbol: string, endDl: u8)
    requires d != 0 && DisplayLists(s, d, modelOffset, symbol, endDl).status.Ok?
    ensures |DisplayLists(s, d, modelOffset, symbol, endDl).log|
      == 1 + |NonFinalEnds(s, d + GfxHeaderSize, endDl, Wrap32(Be32At(s, d) * GfxCmdSize))|
  {
    var start, limit := d + GfxHeaderSize, Wrap32(Be32At(s, d) * GfxCmdSize);
    SplitLimit(Be32At(s, d));
    var ps := SplitPoints(s, start, endDl, 0, limit).value;
    assert |DisplayLists(s, d, modelOffset, symbol, endDl).log| == 1 + |ps|;
    SplitPointsSorted(s, start, endDl, 0, limit);
    IncreasingCard(ps);
    SplitPointsAreEnds(s, start, endDl, limit);
  }

  /** Distinct display lists get distinct symbols, `_GFX_0`, `_GFX_1`, … */
  lemma {:induction false} GfxSymbolsDistinct(offsets: seq<nat>, modelOffset: u32, d: nat, symbol: string, i: nat, j: nat)
    requires i < j < |offsets|
    ensures GfxAssets(offsets, modelOffset, d, symbol)[i].symbol != GfxAssets(offsets, modelOffset, d, symbol)[j].symbol
  {
    var a, b := GfxAssets(offsets, modelOffset, d, symbol)[i].symbol, GfxAssets(offsets, modelOffset, d, symbol)[j].symbol;
    var n := |symbol + "_GFX_"|;
    if a == b {
      assert a[n..] == Decimal(i) && b[n..] == Decimal(j);
      DecimalInjective(i, j);
    }
  }

  // ---------------------------------------------------------------------
  // The parse

  /** What the parse returns and what it registered. */
  datatype Outcome = Outcome(result: Result<Option<ModelData>>, log: seq<Asset>)

  /** Segments 1 and 3: the vertex buffer and the first display list. */
  function SetupSegments(h: ModelHeader, modelOffset: u32, fileOffset: u32): seq<Asset> {
    [CompressedSegment(1, fileOffset, Wrap32(modelOffset + h.vertexSetupOffset + VtxHeaderSize)),
     CompressedSegment(3, fileOffset, Wrap32(modelOffset + h.displayListSetupOffset + GfxHeaderSize))]
  }

  /** The texture, vertex and display-list sections, in the order the parser runs them. */
  function Assets(s: seq<u8>, h: ModelHeader, symbol: string, modelOffset: u32, fileOffset: u32, endDl: u8): Logged {
    Then(Textures(s, h.textureSetupOffset, modelOffset, fileOffset, symbol),
         Then(Vertices(s, h.vertexSetupOffset, modelOffset, symbol),
              DisplayLists(s, h.displayListSetupOffset, modelOffset, symbol, endDl)))
  }

  /** Everything after the header. */
  function Sections(s: seq<u8>, h: ModelHeader, symbol: string, modelOffset: u32, fileOffset: u32, gbi: GbiVersion): Logged {
    Then(Logged(Ok(()), SetupSegments(h, modelOffset, fileOffset)),
         Assets(s, h, symbol, modelOffset, fileOffset, Opcode(gbi, GEndDl)))
  }

  /** The sections' log holds the two segments and what each section registered. */
  lemma {:induction false} SectionsMembers(s: seq<u8>, h: ModelHeader, symbol: string, modelOffset: u32, fileOffset: u32, gbi: GbiVersion)
    ensures forall a :: a in Sections(s, h, symbol, modelOffset, fileOffset, gbi).log ==>
      || (a.CompressedSegment? && (a.segment == 1 || a.segment == 3))
      || a in Textures(s, h.textureSetupOffset, modelOffset, fileOffset, symbol).log
      || a in Vertices(s, h.vertexSetupOffset, modelOffset, symbol).log
      || a in DisplayLists(s, h.displayListSetupOffset, modelOffset, symbol, Opcode(gbi, GEndDl)).log
  {
    var endDl := Opcode(gbi, GEndDl);
    var textures := Textures(s, h.textureSetupOffset, modelOffset, fileOffset, symbol);
    var vertices := Vertices(s, h.vertexSetupOffset, modelOffset, symbol);
    var lists := DisplayLists(s, h.displayListSetupOffset, modelOffset, symbol, endDl);
    ThenMembers(Logged(Ok(()), SetupSegments(h, modelOffset, fileOffset)), Assets(s, h, symbol, modelOffset, fileOffset, endDl));
    ThenMembers(textures, Then(vertices, lists));
    ThenMembers(vertices, lists);
  }

  /** When every section succeeds, the log is the two segments followed by
      the sections' logs in order. */
  lemma {:induction false} SectionsInOrder(s: seq<u8>, h: ModelHeader, symbol: string, modelOffset: u32, fileOffset: u32, gbi: GbiVersion)
    requires Sections(s, h, symbol, modelOffset, fileOffset, gbi).status.Ok?
    ensures var textures := Textures(s, h.textureSetupOffset, modelOffset, fileOffset, symbol);
      var vertices := Vertices(s, h.vertexSetupOffset, modelOffset, symbol);
      var lists := DisplayLists(s, h.displayListSetupOffset, modelOffset, symbol, Opcode(gbi, GEndDl));
      && textures.status.Ok? && vertices.status.Ok? && lists.status.Ok?
      && Sections(s, h, symbol, modelOffset, fileOffset, gbi).log
         == SetupSegments(h, modelOffset, fileOffset) + textures.log + vertices.log + lists.log
  {
    var textures := Textures(s, h.textureSetupOffset, modelOffset, fileOffset, symbol);
    var vertices := Vertices(s, h.vertexSetupOffset, modelOffset, symbol);
    var lists := DisplayLists(s, h.displayListSetupOffset, modelOffset, symbol, Opcode(gbi, GEndDl));
    var segments := SetupSegments(h, modelOffset, fileOffset);
    assert segments + (textures.log + (vertices.log + lists.log)) == segments + textures.log + vertices.log + lists.log;
  }

  /** `ModelFactory::parse`. `vram` is the companion's current VRAM entry,
      `modelOffset` the node's `offset`. Without a VRAM entry the parse
      throws before reading; a first word other than 0xB is `nullopt` with
      nothing registered. */
  function Decode(s: seq<u8>, symbol: string, modelOffset: u32, vram: Option<u32>, gbi: GbiVersion): (r: Outcome)
    ensures r.result == Ok(None) <==> vram.Some? && |s| >= 4 && I32OfBits(Be32At(s, 0)) != ModelMagic
    ensures r.result == Ok(None) ==> r.log == []
    ensures vram.None? ==> r == Outcome(Err(MissingVram), [])
    ensures r.result.Ok? && r.result.value.Some? ==> |s| >= HeaderSize
  {
    if vram.None? then Outcome(Err(MissingVram), [])
    else if |s| < 4 then Outcome(Err(ReadPastEnd), [])
    else if I32OfBits(Be32At(s, 0)) != ModelMagic then Outcome(Ok(None), [])
    else if |s| < HeaderSize then Outcome(Err(ReadPastEnd), [])
    else
      var l := Sections(s, HeaderAt(s), symbol, modelOffset, vram.value, gbi);
      Outcome(if l.status.Err? then Err(l.status.error) else Ok(Some(ModelData)), l.log)
  }

  lemma {:induction false} LogGrows(start: seq<Asset>, more: seq<Asset>, rest: seq<Asset>)
    ensures start + more + rest == start + (more + rest)
  {
  }

  /** The vertex and display-list sections. */
  method RegisterGeometry(reader: Reader, h: ModelHeader, symbol: string, modelOffset: u32, endDl: u8,
                          companion: Companion) returns (r: Result<()>)
    modifies reader, companion
    ensures var vertices := Vertices(reader.data, h.vertexSetupOffset, modelOffset, symbol);
      var lists := DisplayLists(reader.data, h.displayListSetupOffset, modelOffset, symbol, endDl);
      && r == Then(vertices, lists).status
      && companion.log == old(companion.log) + Then(vertices, lists).log
  {
    ghost var s := reader.data;
    ghost var start := companion.log;
    if h.vertexSetupOffset != 0 {
      r := ReadVertices(reader, h.vertexSetupOffset, modelOffset, symbol, companion);
      if r.Err? {
        return;
      }
    }
    ghost var vertices := Vertices(s, h.vertexSetupOffset, modelOffset, symbol);
    ghost var lists := DisplayLists(s, h.displayListSetupOffset, modelOffset, symbol, endDl);
    assert companion.log == start + vertices.log;
    r := Ok(());
    if h.displayListSetupOffset != 0 {
      r := ReadDisplayLists(reader, h.displayListSetupOffset, modelOffset, symbol, endDl, companion);
    }
    LogGrows(start, vertices.log, lists.log);
  }

  /** The texture, vertex and display-list sections. */
  method RegisterAssets(reader: Reader, h: ModelHeader, symbol: string, modelOffset: u32, fileOffset: u32, endDl: u8,
                        companion: Companion) returns (r: Result<()>)
    modifies reader, companion
    ensures r == Assets(reader.data, h, symbol, modelOffset, fileOffset, endDl).status
    ensures companion.log == old(companion.log) + Assets(reader.data, h, symbol, modelOffset, fileOffset, endDl).log
  {
    ghost var start := companion.log;
    if h.textureSetupOffset != 0 {
      r := ReadTextures(reader, h.textureSetupOffset, modelOffset, fileOffset, symbol, companion);
      if r.Err? {
        return;
      }
    }
    ghost var middle := companion.log;
    ghost var textures := Textures(reader.data, h.textureSetupOffset, modelOffset, fileOffset, symbol);
    ghost var geometry := Then(Vertices(reader.data, h.vertexSetupOffset, modelOffset, symbol),
                               DisplayLists(reader.data, h.displayListSetupOffset, modelOffset, symbol, endDl));
    assert middle == start + textures.log;
    r := RegisterGeometry(reader, h, symbol, modelOffset, endDl, companion);
    LogGrows(start, textures.log, geometry.log);
  }

  /** The registrations after the header: segments 1 and 3, then the
      texture, vertex and display-list sections whose offsets are not zero. */
  method RegisterSections(reader: Reader, h: ModelHeader, symbol: string, modelOffset: u32, fileOffset: u32,
                          gbi: GbiVersion, companion: Companion) returns (r: Result<()>)
    modifies reader, companion
    ensures r == Sections(reader.data, h, symbol, modelOffset, fileOffset, gbi).status
    ensures companion.log == old(companion.log) + Sections(reader.data, h, symbol, modelOffset, fileOffset, gbi).log
  {
    ghost var start := companion.log;
    companion.SetCompressedSegment(1, fileOffset, Wrap32(modelOffset + h.vertexSetupOffset + VtxHeaderSize));
    companion.SetCompressedSegment(3, fileOffset, Wrap32(modelOffset + h.displayListSetupOffset + GfxHeaderSize));
    assert companion.log == start + SetupSegments(h, modelOffset, fileOffset);
    ghost var assets := Assets(reader.data, h, symbol, modelOffset, fileOffset, Opcode(gbi, GEndDl));
    r := RegisterAssets(reader, h, symbol, modelOffset, fileOffset, Opcode(gbi, GEndDl), companion);
    LogGrows(start, SetupSegments(h, modelOffset, fileOffset), assets.log);
  }

  /** `ModelFactory::parse`, registering with `companion`. */
  method Parse(segment: seq<u8>, symbol: string, modelOffset: u32, vram: Option<u32>, gbi: GbiVersion, companion: Companion)
    returns (r: Result<Option<ModelData>>)
    modifies companion
    ensures r == Decode(segment, symbol, modelOffset, vram, gbi).result
    ensures companion.log == old(companion.log) + Decode(segment, symbol, modelOffset, vram, gbi).log
  {
    var reader := new Reader(segment);
    if vram.None? {
      return Err(MissingVram);
    }
    var fileOffset := vram.value;
    var magic :- reader.ReadInt32();
    if magic != ModelMagic {
      return Ok(None);
    }
    var h :- ReadHeader(reader);
    var sections := RegisterSections(reader, h, symbol, modelOffset, fileOffset, gbi, companion);
    if sections.Err? {
      return Err(sections.error);
    }
    return Ok(Some(ModelData));
  }

  // ---------------------------------------------------------------------
  // Properties of the whole parse

  /** What each section can register. */
  lemma {:induction false} SectionKinds(s: seq<u8>, h: ModelHeader, symbol: string, modelOffset: u32, fileOffset: u32, endDl: u8)
    ensures forall a :: a in Textures(s, h.textureSetupOffset, modelOffset, fileOffset, symbol).log ==>
      h.textureSetupOffset != 0 && (a.TlutAsset? || a.TextureAsset? || (a.CompressedSegment? && a.segment == 2))
    ensures forall a :: a in Vertices(s, h.vertexSetupOffset, modelOffset, symbol).log ==>
      h.vertexSetupOffset != 0 && a.VtxAsset?
    ensures forall a :: a in DisplayLists(s, h.displayListSetupOffset, modelOffset, symbol, endDl).log ==>
      h.displayListSetupOffset != 0 && a.GfxAsset?
  {
    var t := h.textureSetupOffset;
    if t != 0 && t + TextureHeaderSize <= |s| {
      var count := Be16At(s, t + 4);
      var base := modelOffset + t + TextureHeaderSize + count * TextureMetadataSize;
      TextureEntriesKinds(s, t + TextureHeaderSize, 0, count, base, symbol);
      ThenMembers(Logged(Ok(()), [CompressedSegment(2, fileOffset, Wrap32(base))]),
                  TextureEntries(s, t + TextureHeaderSize, 0, count, base, symbol));
    }
  }

  /** A section whose setup offset is zero registers nothing of its kind:
      no palette, texture or segment 2 without a texture setup, no vertex
      buffer without a vertex setup, no display list without a display-list
      setup. */
  lemma {:induction false} ZeroOffsetsSkip(s: seq<u8>, symbol: string, modelOffset: u32, vram: Option<u32>, gbi: GbiVersion)
    requires |s| >= HeaderSize
    ensures var h := HeaderAt(s);
      var log := Decode(s, symbol, modelOffset, vram, gbi).log;
      && (h.textureSetupOffset == 0 ==> forall a :: a in log ==> !a.TlutAsset? && !a.TextureAsset? && !(a.CompressedSegment? && a.segment == 2))
      && (h.vertexSetupOffset == 0 ==> forall a :: a in log ==> !a.VtxAsset?)
      && (h.displayListSetupOffset == 0 ==> forall a :: a in log ==> !a.GfxAsset?)
  {
    if vram.Some? && I32OfBits(Be32At(s, 0)) == ModelMagic {
      var h := HeaderAt(s);
      assert Decode(s, symbol, modelOffset, vram, gbi).log == Sections(s, h, symbol, modelOffset, vram.value, gbi).log;
      SectionsSkip(s, h, symbol, modelOffset, vram.value, gbi);
    }
  }

  /** `ZeroOffsetsSkip` for the sections after a given header. */
  lemma {:induction false} SectionsSkip(s: seq<u8>, h: ModelHeader, symbol: string, modelOffset: u32, fileOffset: u32, gbi: GbiVersion)
    ensures var log := Sections(s, h, symbol, modelOffset, fileOffset, gbi).log;
      && (h.textureSetupOffset == 0 ==> forall a :: a in log ==> !a.TlutAsset? && !a.TextureAsset? && !(a.CompressedSegment? && a.segment == 2))
      && (h.vertexSetupOffset == 0 ==> forall a :: a in log ==> !a.VtxAsset?)
      && (h.displayListSetupOffset == 0 ==> forall a :: a in log ==> !a.GfxAsset?)
  {
    SectionKinds(s, h, symbol, modelOffset, fileOffset, Opcode(gbi, GEndDl));
    SectionsMembers(s, h, symbol, modelOffset, fileOffset, gbi);
  }

  /** Segment 1 starts at the vertex buffer and segment 3 at the first
      display list: when the parse succeeds, the log opens with the two
      segments, and the VTX asset and `_GFX_0` sit at their offsets. */
  lemma {:induction false} SegmentsLocateAssets(s: seq<u8>, symbol: string, modelOffset: u32, vram: Option<u32>, gbi: GbiVersion)
    requires Decode(s, symbol, modelOffset, vram, gbi).result.Ok?
    requires Decode(s, symbol, modelOffset, vram, gbi).result.value.Some?
    ensures var log := Decode(s, symbol, modelOffset, vram, gbi).log;
      var h := HeaderAt(s);
      && |log| >= 2 && log[0].CompressedSegment? && log[0].segment == 1
      && log[1].CompressedSegment? && log[1].segment == 3
      && (h.vertexSetupOffset != 0 ==> VtxAsset(Be16At(s, h.vertexSetupOffset + 18) / 2, log[0].offset, symbol + "_VTX") in log)
      && (h.displayListSetupOffset != 0 ==> GfxAsset(log[1].offset, symbol + "_GFX_" + Decimal(0)) in log)
  {
    var h := HeaderAt(s);
    SectionsLocateAssets(s, h, symbol, modelOffset, vram.value, gbi);
  }

  /** The same, for the sections after a header. */
  lemma {:induction false} SectionsLocateAssets(s: seq<u8>, h: ModelHeader, symbol: string, modelOffset: u32, fileOffset: u32, gbi: GbiVersion)
    requires Sections(s, h, symbol, modelOffset, fileOffset, gbi).status.Ok?
    ensures var log := Sections(s, h, symbol, modelOffset, fileOffset, gbi).log;
      && |log| >= 2 && log[0].CompressedSegment? && log[0].segment == 1
      && log[1].CompressedSegment? && log[1].segment == 3
      && (h.vertexSetupOffset != 0 ==> VtxAsset(Be16At(s, h.vertexSetupOffset + 18) / 2, log[0].offset, symbol + "_VTX") in log)
      && (h.displayListSetupOffset != 0 ==> GfxAsset(log[1].offset, symbol + "_GFX_" + Decimal(0)) in log)
  {
    SectionsInOrder(s, h, symbol, modelOffset, fileOffset, gbi);
    var segments := SetupSegments(h, modelOffset, fileOffset);
    var textures := Textures(s, h.textureSetupOffset, modelOffset, fileOffset, symbol).log;
    var vertices := Vertices(s, h.vertexSetupOffset, modelOffset, symbol);
    var lists := DisplayLists(s, h.displayListSetupOffset, modelOffset, symbol, Opcode(gbi, GEndDl));
    var log := segments + textures + vertices.log + lists.log;
    assert log[0] == segments[0] && log[1] == segments[1];
    if h.vertexSetupOffset != 0 {
      var vtx := VertexAsset(s, h.vertexSetupOffset, modelOffset, symbol);
      assert log[0].offset == vtx.offset;
      assert vertices.log[0] in log;
    }
    if h.displayListSetupOffset != 0 {
      FirstDisplayList(s, h.displayListSetupOffset, modelOffset, symbol, Opcode(gbi, GEndDl));
      assert log[1].offset == Wrap32(modelOffset + h.displayListSetupOffset + GfxHeaderSize);
      assert lists.log[0] in log;
    }
  }

  /** A vertex section that parses registers one VTX asset where segment 1 starts. */
  lemma {:induction false} VertexAsset(s: seq<u8>, v: nat, modelOffset: u32, symbol: string) returns (vtx: Asset)
    requires v != 0 && Vertices(s, v, modelOffset, symbol).status.Ok?
    ensures vtx == VtxAsset(Be16At(s, v + 18) / 2, Wrap32(modelOffset + v + VtxHeaderSize), symbol + "_VTX")
    ensures Vertices(s, v, modelOffset, symbol).log == [vtx]
  {
    vtx := VtxAsset(Be16At(s, v + 18) / 2, Wrap32(modelOffset + v + VtxHeaderSize), symbol + "_VTX");
  }

  /** A display-list section that parses registers `_GFX_0` where segment 3 starts. */
  lemma {:induction false} FirstDisplayList(s: seq<u8>, d: nat, modelOffset: u32, symbol: string, endDl: u8)
    requires d != 0 && DisplayLists(s, d, modelOffset, symbol, endDl).status.Ok?
    ensures var log := DisplayLists(s, d, modelOffset, symbol, endDl).log;
      |log| >= 1 && log[0] == GfxAsset(Wrap32(modelOffset + d + GfxHeaderSize), symbol + "_GFX_" + Decimal(0))
  {
    var limit := Wrap32(Be32At(s, d) * GfxCmdSize);
    var points := SplitPoints(s, d + GfxHeaderSize, endDl, 0, limit).value;
    assert ([0] + points)[0] == 0;
  }
}
