/** OoT player animation (`PlayerAnimationFactory.cpp`): per frame, one
    signed 16-bit value for each of three rotation axes of the player's 22
    limbs plus one more, 67 values in all, stored big-endian. */
module PlayerAnimation {
  import opened Results
  import opened Bytes
  import opened BinaryReader
  import opened BinaryWriter
  import opened Yaml

  /** PLAYER_LIMB_COUNT. */
  const PlayerLimbCount: nat := 22

  /** The values stored per frame. */
  const ValuesPerFrame: nat := PlayerLimbCount * 3 + 1

  /** `PlayerAnimationData`. */
  datatype PlayerAnimationData = PlayerAnimationData(limbRotData: seq<i16>)

  // ---------------------------------------------------------------------
  // The segment

  /** The `n` values stored from the start of `s`. */
  function ValuesAt(s: seq<u8>, n: nat): (r: seq<i16>)
    requires 2 * n <= |s|
    ensures |r| == n && forall i :: 0 <= i < n ==> r[i] == I16OfBits(Be16At(s, 2 * i))
  {
    seq(n, i requires 0 <= i < n => I16OfBits(Be16At(s, 2 * i)))
  }

  /** What `PlayerAnimationFactory::parse` reads for an animation of
      `frameCount` frames: 67 values per frame, in segment order. */
  function Decode(s: seq<u8>, frameCount: nat): (r: Result<PlayerAnimationData>)
    ensures r.Ok? <==> 2 * ValuesPerFrame * frameCount <= |s|
    ensures r.Err? ==> r.error == ReadPastEnd
    ensures r.Ok? ==> |r.value.limbRotData| == 67 * frameCount
  {
    var n := ValuesPerFrame * frameCount;
    if 2 * n > |s| then Err(ReadPastEnd) else Ok(PlayerAnimationData(ValuesAt(s, n)))
  }

  /** `PlayerAnimationFactory::parse`: one `ReadInt16` per value. */
  method Parse(segment: seq<u8>, frameCount: nat) returns (r: Result<PlayerAnimationData>)
    ensures r == Decode(segment, frameCount)
  {
    var reader := new Reader(segment);
    var limbRotData: seq<i16> := [];
    var n := (PlayerLimbCount * 3 + 1) * frameCount;
    for i := 0 to n
      invariant reader.data == segment && reader.pos == 2 * i <= |segment|
      invariant limbRotData == ValuesAt(segment, i)
    {
      var v := reader.ReadInt16();
      if v.Err? {
        return Err(v.error);
      }
      limbRotData := limbRotData + [v.value];
    }
    return Ok(PlayerAnimationData(limbRotData));
  }

  // ---------------------------------------------------------------------
  // The binary export

  /** Every value as two bytes, in order. */
  function ValuesBytes(vs: seq<i16>, order: ByteOrder): (b: seq<u8>)
    ensures |b| == 2 * |vs|
  {
    if vs == [] then [] else ValuesBytes(vs[..|vs| - 1], order) + Bytes16(I16Bits(vs[|vs| - 1]), order)
  }

  /** The export: the resource header, the value count as a `uint32_t`, the values. */
  function BinaryBytes(d: PlayerAnimationData, order: ByteOrder, header: seq<u8>): seq<u8> {
    header + Bytes32(Wrap32(|d.limbRotData|), order) + ValuesBytes(d.limbRotData, order)
  }

  /** `PlayerAnimationBinaryExporter::Export`. */
  method BinaryExport(d: PlayerAnimationData, order: ByteOrder, header: seq<u8>) returns (out: seq<u8>)
    ensures out == BinaryBytes(d, order, header)
  {
    var w := new Writer(order);
    w.WriteBytes(header);
    w.WriteU32(Wrap32(|d.limbRotData|));
    ghost var start := w.data;
    var vs := d.limbRotData;
    for i := 0 to |vs|
      invariant w.order == order
      invariant w.data == start + ValuesBytes(vs[..i], order)
    {
      ValuesBytesSnoc(vs, order, i);
      w.WriteI16(vs[i]);
      Regroup(start, ValuesBytes(vs[..i], order), Bytes16(I16Bits(vs[i]), order));
    }
    assert vs[..|vs|] == vs;
    out := w.data;
  }

  /** One more value adds its two bytes at the end. */
  lemma {:induction false} ValuesBytesSnoc(vs: seq<i16>, order: ByteOrder, i: nat)
    requires i < |vs|
    ensures ValuesBytes(vs[..i + 1], order) == ValuesBytes(vs[..i], order) + Bytes16(I16Bits(vs[i]), order)
  {
    assert vs[..i + 1][..i] == vs[..i];
  }

  /** The `n` values a binary export holds after its count word. */
  function ReadValues(b: seq<u8>, n: nat, order: ByteOrder): (r: seq<i16>)
    requires 2 * n <= |b|
    ensures |r| == n
  {
    seq(n, i requires 0 <= i < n => I16OfBits(Value16(b[2 * i..2 * i + 2], order)))
  }

  /** Where value `i` sits in `ValuesBytes`. */
  lemma {:induction false} ValuesBytesAt(vs: seq<i16>, order: ByteOrder, i: nat)
    requires i < |vs|
    ensures ValuesBytes(vs, order)[2 * i..2 * i + 2] == Bytes16(I16Bits(vs[i]), order)
    decreases |vs|
  {
    var init := vs[..|vs| - 1];
    if i < |vs| - 1 {
      ValuesBytesAt(init, order, i);
      assert init[i] == vs[i];
      assert ValuesBytes(vs, order)[2 * i..2 * i + 2] == ValuesBytes(init, order)[2 * i..2 * i + 2];
    }
  }

  /** The binary export reads back: its count word is the number of values
      and the words after it are the values, in order. */
  lemma {:induction false} ReadBinaryOfExport(d: PlayerAnimationData, order: ByteOrder, header: seq<u8>)
    requires |d.limbRotData| < 0x1_0000_0000
    ensures var b := BinaryBytes(d, order, header)[|header|..];
      && |b| == 4 + 2 * |d.limbRotData|
      && Value32(b[..4], order) == |d.limbRotData|
      && ReadValues(b[4..], |d.limbRotData|, order) == d.limbRotData
  {
    var vs := d.limbRotData;
    var b := BinaryBytes(d, order, header)[|header|..];
    AfterPrefix(header, Bytes32(|vs|, order), ValuesBytes(vs, order));
    SplitAppend(Bytes32(|vs|, order), ValuesBytes(vs, order));
    Value32OfBytes32(|vs|, order);
    ReadValuesOf(vs, order);
  }

  /** The values' bytes read back as the values. */
  lemma {:induction false} ReadValuesOf(vs: seq<i16>, order: ByteOrder)
    ensures ReadValues(ValuesBytes(vs, order), |vs|, order) == vs
  {
    var b := ValuesBytes(vs, order);
    forall i | 0 <= i < |vs|
      ensures ReadValues(b, |vs|, order)[i] == vs[i]
    {
      ReadValueAt(vs, order, i);
    }
  }

  /** Value `i` reads back from its two bytes. */
  lemma {:induction false} ReadValueAt(vs: seq<i16>, order: ByteOrder, i: nat)
    requires i < |vs|
    ensures I16OfBits(Value16(ValuesBytes(vs, order)[2 * i..2 * i + 2], order)) == vs[i]
  {
    ValuesBytesAt(vs, order, i);
    Value16OfBytes16(I16Bits(vs[i]), order);
    TwosComplementRoundTrip();
  }

  /** The two bytes an export writes for a parsed value are those it was read from. */
  lemma {:induction false} ValuePairOfDecode(s: seq<u8>, n: nat, vs: seq<i16>, i: nat)
    requires 2 * n <= |s| && vs == ValuesAt(s, n) && i < n
    ensures ValuesBytes(vs, BigEndian)[2 * i..2 * i + 2] == s[2 * i..2 * i + 2]
  {
    ValuesBytesAt(vs, BigEndian, i);
    TwosComplementRoundTrip();
    Bytes16OfBe16At(s, 2 * i);
  }

  /** Parsing consumes exactly the values' bytes: a big-endian export of what
      was parsed holds, after its count, the segment prefix it was read from. */
  lemma {:induction false} ValuesBytesOfDecode(s: seq<u8>, frameCount: nat)
    requires Decode(s, frameCount).Ok?
    ensures ValuesBytes(Decode(s, frameCount).value.limbRotData, BigEndian) == s[..2 * ValuesPerFrame * frameCount]
  {
    var n := ValuesPerFrame * frameCount;
    assert 2 * ValuesPerFrame * frameCount == 2 * n;
    var vs := Decode(s, frameCount).value.limbRotData;
    assert vs == ValuesAt(s, n);
    forall i | 0 <= i < n
      ensures ValuesBytes(vs, BigEndian)[2 * i..2 * i + 2] == s[2 * i..2 * i + 2]
    {
      ValuePairOfDecode(s, n, vs, i);
    }
    PairsEqual(ValuesBytes(vs, BigEndian), s, n);
  }

  // ---------------------------------------------------------------------
  // The modding document

  /** One value as `YAML::Hex` emits an `int16_t`: the stream prints the
      16-bit pattern in hexadecimal. */
  function ValueNode(v: i16): Node {
    HexScalar(I16Bits(v))
  }

  /** The document `PlayerAnimationModdingExporter::Export` emits: every
      value but the last, in order. The data must not be empty, or
      `size() - 1` wraps around and the first `.at` throws. */
  function ModdingDoc(symbol: string, d: PlayerAnimationData): (r: Result<Node>)
    ensures r.Ok? <==> |d.limbRotData| >= 1
  {
    var vs := d.limbRotData;
    if vs == [] then Err(OutOfRange)
    else Ok(Dict([Entry(symbol, Dict([Entry("Data", List(seq(|vs| - 1, i requires 0 <= i < |vs| - 1 => ValueNode(vs[i]))))]))]))
  }

  /** `PlayerAnimationModdingExporter::Export`: the document, and the asset
      path with `.yaml` appended. */
  method ModdingExport(symbol: string, d: PlayerAnimationData, replacement: string) returns (r: Result<Node>, path: string)
    ensures r == ModdingDoc(symbol, d) && path == replacement + ".yaml"
  {
    path := replacement + ".yaml";
    var vs := d.limbRotData;
    if |vs| == 0 {
      return Err(OutOfRange), path;
    }
    var items: seq<Node> := [];
    for i := 0 to |vs| - 1
      invariant items == seq(i, k requires 0 <= k < i => ValueNode(vs[k]))
    {
      items := items + [HexScalar(I16Bits(vs[i]))];
    }
    r := Ok(Dict([Entry(symbol, Dict([Entry("Data", List(items))]))]));
  }

  /** The values of `items`, after those already imported in `acc`: each
      converted as a `uint16_t` and cast to `int16_t`. */
  function ImportValues(items: seq<Node>, acc: seq<i16>): Result<seq<i16>>
    decreases |items|
  {
    if items == [] then Ok(acc)
    else
      var v :- AsU16(Some(items[0]));
      ImportValues(items[1..], acc + [I16OfBits(v)])
  }

  /** What `PlayerAnimationFactory::parse_modding` makes of a loaded
      document; `None` is text the YAML parser rejects. */
  function Import(doc: Option<Node>): Result<Option<PlayerAnimationData>> {
    if doc.None? then Ok(None)
    else
      var info :- FirstValue(doc.value);
      var data :- Child(info, "Data");
      var items :- Members(data);
      var values :- ImportValues(items, []);
      Ok(Some(PlayerAnimationData(values)))
  }

  /** `PlayerAnimationFactory::parse_modding`. */
  method ParseModding(doc: Option<Node>) returns (r: Result<Option<PlayerAnimationData>>)
    ensures r == Import(doc)
  {
    if doc.None? {
      return Ok(None);
    }
    var info :- FirstValue(doc.value);
    var data :- Child(info, "Data");
    var items :- Members(data);
    var limbRotData: seq<i16> := [];
    var i := 0;
    while i < |items|
      invariant 0 <= i <= |items|
      invariant ImportValues(items, []) == ImportValues(items[i..], limbRotData)
    {
      assert items[i..][1..] == items[i + 1..];
      var v :- AsU16(Some(items[i]));
      limbRotData := limbRotData + [I16OfBits(v)];
      i := i + 1;
    }
    return Ok(Some(PlayerAnimationData(limbRotData)));
  }

  lemma {:induction false} AsU16OfHexScalar(n: u16)
    ensures AsU16(Some(HexScalar(n))) == Ok(n)
  {
    HexScalarReads(n);
  }

  /** Importing hexadecimal renderings gives back the values, in order. */
  lemma {:induction false} ImportValueNodes(vs: seq<i16>, acc: seq<i16>)
    ensures ImportValues(seq(|vs|, i requires 0 <= i < |vs| => ValueNode(vs[i])), acc) == Ok(acc + vs)
    decreases |vs|
  {
    var items := seq(|vs|, i requires 0 <= i < |vs| => ValueNode(vs[i]));
    if vs == [] {
      assert acc + vs == acc;
    } else {
      AsU16OfHexScalar(I16Bits(vs[0]));
      TwosComplementRoundTrip();
      assert items[1..] == seq(|vs[1..]|, i requires 0 <= i < |vs[1..]| => ValueNode(vs[1..][i]));
      ImportValueNodes(vs[1..], acc + [vs[0]]);
      assert (acc + [vs[0]]) + vs[1..] == acc + vs;
    }
  }

  /** Importing the modding export gives back every value but the last,
      in order. */
  lemma {:induction false} ImportOfExport(symbol: string, d: PlayerAnimationData)
    requires |d.limbRotData| >= 1
    ensures Import(Some(ModdingDoc(symbol, d).value))
         == Ok(Some(PlayerAnimationData(d.limbRotData[..|d.limbRotData| - 1])))
  {
    var vs := d.limbRotData;
    var init := vs[..|vs| - 1];
    assert seq(|vs| - 1, i requires 0 <= i < |vs| - 1 => ValueNode(vs[i]))
        == seq(|init|, i requires 0 <= i < |init| => ValueNode(init[i]));
    ImportValueNodes(init, []);
    assert [] + init == init;
  }

  /** The import keeps the count and the order of the values it reads. */
  lemma {:induction false} ImportValuesEach(items: seq<Node>, acc: seq<i16>)
    requires ImportValues(items, acc).Ok?
    ensures var r := ImportValues(items, acc).value;
      |r| == |acc| + |items| && r[..|acc|] == acc
      && forall i :: 0 <= i < |items| ==> AsU16(Some(items[i])) == Ok(I16Bits(r[|acc| + i]))
    decreases |items|
  {
    if items != [] {
      var v := AsU16(Some(items[0])).value;
      ImportValuesEach(items[1..], acc + [I16OfBits(v)]);
      var r := ImportValues(items, acc).value;
      assert r[..|acc|] == r[..|acc| + 1][..|acc|];
      TwosComplementRoundTrip();
      forall i | 0 <= i < |items|
        ensures AsU16(Some(items[i])) == Ok(I16Bits(r[|acc| + i]))
      {
        if i > 0 {
          assert items[i] == items[1..][i - 1];
        }
      }
    }
  }
}
