/** BK64 geo-layout: the typed record model and the command-stream decoder
    (`GeoLayoutFactory::parse`).

    The decoder scans the segment from byte 0, one opcode-tagged record
    after another, and never seeks: child offsets found in Sort, LOD and
    Selector records are only counted, into a pending-children counter. The
    scan ends after a record that leaves the counter at 0 while the rolling
    offset has reached the end offset; a record decoded while the counter is
    positive only decrements it.

    The source holds `offset`, `end_offset` and the rolling offset as
    `std::string` (so `+=` appends a character and `>=` compares text);
    this model takes them as natural numbers, added and compared as numbers. */
module GeoLayout {
  import opened Results
  import opened Bytes
  import opened BinaryReader
  import opened BinaryWriter

  // ---------------------------------------------------------------------
  // Typed record model

  /** `GeoLayoutArgType`, in declaration order. */
  datatype ArgType = U8 | S8 | U16 | S16 | U32 | S32 | Float

  /** The enumerator's ordinal. */
  function Ordinal(t: ArgType): nat {
    match t
    case U8 => 0
    case S8 => 1
    case U16 => 2
    case S16 => 3
    case U32 => 4
    case S32 => 5
    case Float => 6
  }

  /** `GeoLayoutArg`, a `std::variant` whose alternatives are listed in this
      order; a float is kept as its raw 32-bit pattern. */
  datatype Arg =
    | ArgU8(u8value: u8)
    | ArgS8(s8value: i8)
    | ArgU16(u16value: u16)
    | ArgS16(s16value: i16)
    | ArgU32(u32value: u32)
    | ArgS32(s32value: i32)
    | ArgFloat(bits: u32)

  /** `std::variant::index()`: the position of the held alternative. */
  function VariantIndex(a: Arg): nat {
    match a
    case ArgU8(_) => 0
    case ArgS8(_) => 1
    case ArgU16(_) => 2
    case ArgS16(_) => 3
    case ArgU32(_) => 4
    case ArgS32(_) => 5
    case ArgFloat(_) => 6
  }

  /** `static_cast<GeoLayoutArgType>(i)`. */
  function TypeOfIndex(i: nat): ArgType
    requires i < 7
  {
    [U8, S8, U16, S16, U32, S32, Float][i]
  }

  /** The tag the binary exporter switches on, `static_cast<GeoLayoutArgType>(args.index())`:
      its ordinal is the variant index, and it names the alternative actually held. */
  function Tag(a: Arg): (t: ArgType)
    ensures Ordinal(t) == VariantIndex(a)
    ensures (t == U8 <==> a.ArgU8?) && (t == S8 <==> a.ArgS8?)
    ensures (t == U16 <==> a.ArgU16?) && (t == S16 <==> a.ArgS16?)
    ensures (t == U32 <==> a.ArgU32?) && (t == S32 <==> a.ArgS32?)
    ensures t == Float <==> a.ArgFloat?
  {
    TypeOfIndex(VariantIndex(a))
  }

  /** The byte width each tag is written at. */
  function Width(t: ArgType): nat {
    match t
    case U8 | S8 => 1
    case U16 | S16 => 2
    case U32 | S32 | Float => 4
  }

  /** The unsigned value of an argument read as an unsigned field (0 otherwise). */
  function Unsigned(a: Arg): nat {
    match a
    case ArgU8(x) => x
    case ArgU16(x) => x
    case ArgU32(x) => x
    case _ => 0
  }

  /** `GeoLayoutOpCode`. The numbering has gaps: 4, 7, 9 and 11 are unassigned. */
  datatype OpCode =
    | Sort | Bone | LoadDL | Skinning | Branch | LOD | ReferencePoint | Selector | DrawDistance | UnknownCmd

  function OpCodeValue(op: OpCode): u32 {
    match op
    case Sort => 1
    case Bone => 2
    case LoadDL => 3
    case Skinning => 5
    case Branch => 6
    case LOD => 8
    case ReferencePoint => 10
    case Selector => 12
    case DrawDistance => 13
    case UnknownCmd => 14
  }

  /** The `switch` over `static_cast<GeoLayoutOpCode>(opCode)`: `None` is the
      `default` that throws. */
  function OpCodeOf(v: u32): (r: Option<OpCode>)
    ensures r.Some? ==> OpCodeValue(r.value) == v
  {
    if v == 1 then Some(Sort)
    else if v == 2 then Some(Bone)
    else if v == 3 then Some(LoadDL)
    else if v == 5 then Some(Skinning)
    else if v == 6 then Some(Branch)
    else if v == 8 then Some(LOD)
    else if v == 10 then Some(ReferencePoint)
    else if v == 12 then Some(Selector)
    else if v == 13 then Some(DrawDistance)
    else if v == 14 then Some(UnknownCmd)
    else
      assert forall op: OpCode :: OpCodeValue(op) in {1, 2, 3, 5, 6, 8, 10, 12, 13, 14};
      None
  }

  /** `GeoLayoutCommand`: an opcode and its arguments in read order. It owns
      no children; child links exist only as offsets among the arguments. */
  datatype Command = Command(opCode: OpCode, args: seq<Arg>)

  /** `GeoLayoutData`: the commands in decode order. */
  datatype GeoLayoutData = GeoLayoutData(cmds: seq<Command>)

  // ---------------------------------------------------------------------
  // What a decoded command says about itself

  function Tags(args: seq<Arg>): (r: seq<ArgType>)
    ensures |r| == |args|
    ensures forall i :: 0 <= i < |args| ==> r[i] == Tag(args[i])
  {
    seq(|args|, i requires 0 <= i < |args| => Tag(args[i]))
  }

  function Repeat(t: ArgType, n: nat): (r: seq<ArgType>)
    ensures |r| == n && forall i :: 0 <= i < n ==> r[i] == t
  {
    seq(n, _ => t)
  }

  /** The argument list each opcode stores: its length and the tag of every
      argument. Pad fields are read but never stored. */
  ghost predicate WellFormed(c: Command) {
    var args := c.args;
    match c.opCode
    case Sort => Tags(args) == [U32] + Repeat(Float, 6) + [U8, U16, U16]
    case Bone => Tags(args) == [U16, U8, U8, U16]
    case LoadDL => Tags(args) == [U32, U16, U16]
    case Skinning =>
      2 <= |args| && Tags(args[..2]) == [U32, U16]
      && forall i :: 2 <= i < |args| ==> args[i].ArgU16? && args[i].u16value != 0
    case Branch => Tags(args) == [U32, U32]
    case LOD => Tags(args) == [U32] + Repeat(Float, 5) + [U32]
    case ReferencePoint => Tags(args) == [U32, U16, U16, Float, Float, Float]
    case Selector =>
      3 <= |args| && Tags(args[..3]) == [U32, U16, U16]
      && |args| == 3 + args[1].u16value
      && forall i :: 3 <= i < |args| ==> args[i].ArgU32?
    case DrawDistance => Tags(args) == [U32] + Repeat(S16, 8)
    case UnknownCmd => Tags(args) == [U32] + Repeat(S16, 6)
  }

  function NonZero(args: seq<Arg>, i: nat): nat {
    if i < |args| && Unsigned(args[i]) != 0 then 1 else 0
  }

  /** How many pending children a command adds: one per nonzero child offset
      of Sort (two offsets) and LOD (one offset), `childCount` for a Selector,
      none for the other opcodes. */
  function Pending(c: Command): nat {
    match c.opCode
    case Sort => NonZero(c.args, 8) + NonZero(c.args, 9)
    case LOD => NonZero(c.args, 6)
    case Selector => if 2 <= |c.args| then Unsigned(c.args[1]) else 0
    case _ => 0
  }

  /** How far a command moves the rolling offset: its own length field (the
      one-byte field for Bone), and nothing for DrawDistance and UnknownCmd. */
  function Advance(c: Command): nat {
    match c.opCode
    case DrawDistance | UnknownCmd => 0
    case Bone => if 2 <= |c.args| then Unsigned(c.args[1]) else 0
    case _ => if 1 <= |c.args| then Unsigned(c.args[0]) else 0
  }

  /** The bytes a command occupies in the segment, opcode word included. */
  function RomSize(c: Command): nat {
    match c.opCode
    case Sort => 40
    case Bone => if Advance(c) == 0x10 then 16 else 12
    case LoadDL => if Advance(c) == 0x10 then 16 else 12
    case Skinning => 12 + 2 * (|c.args| - 2)
    case Branch => 16
    case LOD => 32
    case ReferencePoint => 24
    case Selector => 12 + 4 * (|c.args| - 3)
    case DrawDistance | UnknownCmd => 24
  }

  // ---------------------------------------------------------------------
  // Decoder specification: one record

  /** One field of a record layout: read and stored as an argument, or read
      at that width and dropped (a pad field). */
  datatype Field = Stored(t: ArgType) | Pad(p: ArgType)

  function FieldType(f: Field): ArgType {
    match f
    case Stored(t) => t
    case Pad(t) => t
  }

  function Stores(n: nat, t: ArgType): (r: seq<Field>)
    ensures |r| == n && forall i :: 0 <= i < n ==> r[i] == Stored(t)
  {
    seq(n, _ => Stored(t))
  }

  /** The fields every case of the decoder's `switch` reads unconditionally,
      in order, after the opcode word. */
  function Layout(op: OpCode): seq<Field> {
    match op
    case Sort =>
      [Stored(U32)] + Stores(6, Float) + [Pad(U8), Stored(U8), Stored(U16), Pad(U16), Stored(U16)]
    case Bone => [Pad(U16), Stored(U16), Stored(U8), Stored(U8), Stored(U16)]
    case LoadDL => [Stored(U32), Stored(U16), Stored(U16)]
    case Skinning => [Stored(U32), Stored(U16)]
    case Branch => [Stored(U32), Stored(U32), Pad(U32)]
    case LOD => [Stored(U32)] + Stores(5, Float) + [Stored(U32)]
    case ReferencePoint => [Stored(U32), Stored(U16), Stored(U16)] + Stores(3, Float)
    case Selector => [Stored(U32), Stored(U16), Stored(U16)]
    case DrawDistance => [Stored(U32)] + Stores(8, S16)
    case UnknownCmd => [Stored(U32)] + Stores(6, S16) + [Pad(U32)]
  }

  /** The argument a field of type `t` at `p` holds, read big-endian. */
  function ArgAt(s: seq<u8>, p: nat, t: ArgType): (a: Arg)
    requires p + Width(t) <= |s|
  {
    match t
    case U8 => ArgU8(s[p])
    case S8 => ArgS8(I8OfBits(s[p]))
    case U16 => ArgU16(Be16At(s, p))
    case S16 => ArgS16(I16OfBits(Be16At(s, p)))
    case U32 => ArgU32(Be32At(s, p))
    case S32 => ArgS32(I32OfBits(Be32At(s, p)))
    case Float => ArgFloat(Be32At(s, p))
  }

  /** One decoded record: the command and the position after it. */
  datatype Decoded = Decoded(cmd: Command, next: nat, children: nat, advance: nat)

  /** A finished record: the command, the position after it, and what the
      case adds to the pending-children counter and to the rolling offset. */
  function Done(op: OpCode, args: seq<Arg>, next: nat): Decoded {
    var c := Command(op, args);
    Decoded(c, next, Pending(c), Advance(c))
  }

  /** Where the reader stands inside one record, for the field-by-field
      account of the decoder that the imperative reader follows. */
  datatype Phase =
    | AtOpCode                                                  // before the opcode word
    | InFields(op: OpCode, fields: seq<Field>, args: seq<Arg>)  // `fields` still to read
    | InPad(op: OpCode, args: seq<Arg>)                         // Bone/LoadDL: the pad word
    | InSkinRun(args: seq<Arg>)                                 // Skinning: u16s up to a 0
    | InChildren(args: seq<Arg>, left: nat)                     // Selector: `left` offsets to go

  function Rank(ph: Phase): nat {
    match ph
    case AtOpCode => 3
    case InFields(_, _, _) => 1
    case _ => 0
  }

  /** The record at `p`: its opcode word, then the fields its opcode lays out. */
  function Opened(s: seq<u8>, p: nat): (r: Result<Decoded>)
    requires p <= |s|
    ensures r.Ok? ==> p < r.value.next <= |s|
    decreases |s| - p, 2
  {
    if p + 4 > |s| then Err(ReadPastEnd)
    else
      match OpCodeOf(Be32At(s, p))
      case None => Err(UnknownOpCode(Be32At(s, p)))
      case Some(op) => Record(s, p + 4, InFields(op, Layout(op), []))
  }

  /** The rest of the record from phase `ph` at position `p`, one field at a time. */
  function Record(s: seq<u8>, p: nat, ph: Phase): (r: Result<Decoded>)
    requires p <= |s|
    ensures r.Ok? ==> p <= r.value.next <= |s|
    decreases |s| - p, Rank(ph)
  {
    match ph
    case AtOpCode => Opened(s, p)
    case InFields(op, fields, args) =>
      if fields == [] then
        (match op
         case Bone | LoadDL =>
           if Advance(Command(op, args)) == 0x10 then Record(s, p, InPad(op, args)) else Ok(Done(op, args, p))
         case Skinning => Record(s, p, InSkinRun(args))
         case Selector => Record(s, p, InChildren(args, if 2 <= |args| then Unsigned(args[1]) else 0))
         case _ => Ok(Done(op, args, p)))
      else
        var t := FieldType(fields[0]);
        if p + Width(t) > |s| then Err(ReadPastEnd)
        else Record(s, p + Width(t), InFields(op, fields[1..], if fields[0].Stored? then args + [ArgAt(s, p, t)] else args))
    case InPad(op, args) =>
      if p + 4 > |s| then Err(ReadPastEnd) else Ok(Done(op, args, p + 4))
    case InSkinRun(args) =>
      if p + 2 > |s| then Err(ReadPastEnd)
      else if Be16At(s, p) == 0 then Ok(Done(Skinning, args, p + 2))
      else Record(s, p + 2, InSkinRun(args + [ArgU16(Be16At(s, p))]))
    case InChildren(args, left) =>
      if left == 0 then Ok(Done(Selector, args, p))
      else if p + 4 > |s| then Err(ReadPastEnd)
      else Record(s, p + 4, InChildren(args + [ArgU32(Be32At(s, p))], left - 1))
  }

  // ---------------------------------------------------------------------
  // Decoder specification: the loop

  /** The decode loop's variables at the head of an iteration. */
  datatype LoopState = LoopState(pos: nat, rolling: nat, pending: u32, cmds: seq<Command>)

  datatype Outcome = Failed(error: Error) | Stopped(cmds: seq<Command>) | Continues(next: LoopState)

  /** One iteration of the decode loop. */
  function Turn(s: seq<u8>, st: LoopState, endOffset: nat): (o: Outcome)
    requires st.pos <= |s|
    ensures o.Continues? ==> st.pos < o.next.pos <= |s|
  {
    match Record(s, st.pos, AtOpCode)
    case Err(e) => Failed(e)
    case Ok(d) =>
      var cmds := st.cmds + [d.cmd];
      var rolling := st.rolling + d.advance;
      var pending := Wrap32(st.pending + d.children);
      if pending > 0 then Continues(LoopState(d.next, rolling, pending - 1, cmds))
      else if rolling >= endOffset then Stopped(cmds)
      else Continues(LoopState(d.next, rolling, 0, cmds))
  }

  /** The decode loop from state `st` on. */
  function Walk(s: seq<u8>, st: LoopState, endOffset: nat): Result<seq<Command>>
    requires st.pos <= |s|
    decreases |s| - st.pos
  {
    match Turn(s, st, endOffset)
    case Failed(e) => Err(e)
    case Stopped(cmds) => Ok(cmds)
    case Continues(next) => Walk(s, next, endOffset)
  }

  function Start(offset: nat): LoopState {
    LoopState(0, offset, 0, [])
  }

  /** The loop state at the head of iteration `k`, if the loop gets there. */
  function Reach(s: seq<u8>, offset: nat, endOffset: nat, k: nat): (r: Option<LoopState>)
    ensures r.Some? ==> r.value.pos <= |s|
  {
    if k == 0 then Some(Start(offset))
    else
      match Reach(s, offset, endOffset, k - 1)
      case None => None
      case Some(st) =>
        match Turn(s, st, endOffset)
        case Continues(next) => Some(next)
        case _ => None
  }

  lemma {:induction false} ReachWalk(s: seq<u8>, offset: nat, endOffset: nat, k: nat)
    requires Reach(s, offset, endOffset, k).Some?
    ensures Walk(s, Start(offset), endOffset) == Walk(s, Reach(s, offset, endOffset, k).value, endOffset)
  {
    if k > 0 {
      ReachWalk(s, offset, endOffset, k - 1);
    }
  }

  /** `GeoLayoutFactory::parse` on a decompressed segment: the reader starts
      at segment byte 0 and the rolling offset at `offset`. */
  function ParseSpec(segment: seq<u8>, offset: nat, endOffset: nat): Result<GeoLayoutData> {
    match Walk(segment, Start(offset), endOffset)
    case Err(e) => Err(e)
    case Ok(cmds) => Ok(GeoLayoutData(cmds))
  }

  // ---------------------------------------------------------------------
  // The decoder

  method Parse(segment: seq<u8>, offset: nat, endOffset: nat) returns (r: Result<GeoLayoutData>)
    ensures r == ParseSpec(segment, offset, endOffset)
  {
    var reader := new Reader(segment);
    var st := Start(offset);
    ghost var turns := 0;
    while true
      invariant reader.data == segment && reader.pos == st.pos <= |segment|
      invariant Reach(segment, offset, endOffset, turns) == Some(st)
      decreases |segment| - reader.pos
    {
      var o := ReadTurn(reader, st, endOffset);
      ReachWalk(segment, offset, endOffset, turns);
      if o.Failed? {
        return Err(o.error);
      } else if o.Stopped? {
        return Ok(GeoLayoutData(o.cmds));
      }
      st := o.next;
      turns := turns + 1;
    }
  }

  /** The loop body: reads the record at the cursor and updates the command
      list, the rolling offset and the pending-children counter
      (`extraCommandsToProcess`), stopping once no child is pending and the
      rolling offset has reached the end offset. */
  method ReadTurn(reader: Reader, st: LoopState, endOffset: nat) returns (o: Outcome)
    requires reader.pos == st.pos <= |reader.data|
    modifies reader
    ensures o == Turn(reader.data, st, endOffset)
    ensures o.Continues? ==> reader.pos == o.next.pos
  {
    var d := DecodeCommand(reader);
    if d.Err? {
      return Failed(d.error);
    }
    var cmds := st.cmds + [d.value.cmd];
    var rollingOffset := st.rolling + d.value.advance;
    var extraCommandsToProcess := Wrap32(st.pending + d.value.children);
    if extraCommandsToProcess > 0 {
      return Continues(LoopState(d.value.next, rollingOffset, extraCommandsToProcess - 1, cmds));
    } else if rollingOffset >= endOffset {
      return Stopped(cmds);
    }
    return Continues(LoopState(d.value.next, rollingOffset, 0, cmds));
  }

  /** Reads one opcode word and the record it tags. */
  method DecodeCommand(reader: Reader) returns (r: Result<Decoded>)
    requires reader.pos <= |reader.data|
    modifies reader
    ensures r == Record(reader.data, old(reader.pos), AtOpCode)
    ensures r.Ok? ==> reader.pos == r.value.next
  {
    var opCode :- reader.ReadUInt32();
    var op := OpCodeOf(opCode);
    if op.None? {
      return Err(UnknownOpCode(opCode));
    }
    var args :- ReadLayout(reader, op.value);
    r := ReadTail(reader, op.value, args);
  }

  /** Reads one field of type `t`. */
  method ReadArg(reader: Reader, t: ArgType) returns (r: Result<Arg>)
    modifies reader
    ensures old(reader.pos) + Width(t) <= |reader.data| ==>
      r == Ok(ArgAt(reader.data, old(reader.pos), t)) && reader.pos == old(reader.pos) + Width(t)
    ensures old(reader.pos) + Width(t) > |reader.data| ==> r == Err(ReadPastEnd)
  {
    match t
    case U8 => var x :- reader.ReadUByte(); return Ok(ArgU8(x));
    case S8 => var x :- reader.ReadInt8(); return Ok(ArgS8(x));
    case U16 => var x :- reader.ReadUInt16(); return Ok(ArgU16(x));
    case S16 => var x :- reader.ReadInt16(); return Ok(ArgS16(x));
    case U32 => var x :- reader.ReadUInt32(); return Ok(ArgU32(x));
    case S32 => var x :- reader.ReadInt32(); return Ok(ArgS32(x));
    case Float => var x :- reader.ReadFloat(); return Ok(ArgFloat(x));
  }

  /** One fixed field read from phase `InFields`: its failure, or the phase after it. */
  lemma {:induction false} RecordField(s: seq<u8>, p: nat, op: OpCode, fields: seq<Field>, args: seq<Arg>)
    requires p <= |s| && fields != []
    ensures var t := FieldType(fields[0]);
      && (p + Width(t) > |s| ==> Record(s, p, InFields(op, fields, args)) == Err(ReadPastEnd))
      && (p + Width(t) <= |s| ==>
            Record(s, p, InFields(op, fields, args))
            == Record(s, p + Width(t), InFields(op, fields[1..], if fields[0].Stored? then args + [ArgAt(s, p, t)] else args)))
  {
  }

  /** Reads the fixed fields of an `op` record in order, keeping the stored ones. */
  method ReadLayout(reader: Reader, op: OpCode) returns (r: Result<seq<Arg>>)
    requires reader.pos <= |reader.data|
    modifies reader
    ensures r.Err? ==> Record(reader.data, old(reader.pos), InFields(op, Layout(op), [])) == Err(r.error)
    ensures r.Ok? ==> reader.pos <= |reader.data|
    ensures r.Ok? ==>
      Record(reader.data, old(reader.pos), InFields(op, Layout(op), [])) == Record(reader.data, reader.pos, InFields(op, [], r.value))
  {
    var rest := Layout(op);
    var args: seq<Arg> := [];
    ghost var s := reader.data;
    ghost var p0 := reader.pos;
    while rest != []
      invariant reader.data == s && reader.pos <= |s|
      invariant Record(s, p0, InFields(op, Layout(op), [])) == Record(s, reader.pos, InFields(op, rest, args))
      decreases |rest|
    {
      RecordField(s, reader.pos, op, rest, args);
      var a := ReadArg(reader, FieldType(rest[0]));
      if a.Err? {
        return Err(a.error);
      }
      if rest[0].Stored? {
        args := args + [a.value];
      }
      rest := rest[1..];
    }
    return Ok(args);
  }

  /** Reads what follows the fixed fields of an `op` record. */
  method ReadTail(reader: Reader, op: OpCode, args: seq<Arg>) returns (r: Result<Decoded>)
    requires reader.pos <= |reader.data|
    modifies reader
    ensures r == Record(reader.data, old(reader.pos), InFields(op, [], args))
    ensures r.Ok? ==> reader.pos == r.value.next
  {
    var c := Command(op, args);
    match op
    case Bone | LoadDL =>
      if Advance(c) == 0x10 {
        var pad :- reader.ReadUInt32();
      }
      return Ok(Done(op, args, reader.pos));
    case Skinning =>
      var offsets := args;
      while true
        invariant reader.pos <= |reader.data|
        invariant Record(reader.data, old(reader.pos), InFields(op, [], args))
               == Record(reader.data, reader.pos, InSkinRun(offsets))
        decreases |reader.data| - reader.pos
      {
        var dlOffset :- reader.ReadUInt16();
        if dlOffset == 0 {
          break;
        }
        offsets := offsets + [ArgU16(dlOffset)];
      }
      return Ok(Done(op, offsets, reader.pos));
    case Selector =>
      var childCount := if 2 <= |args| then Unsigned(args[1]) else 0;
      var children := args;
      for i := 0 to childCount
        invariant reader.pos <= |reader.data|
        invariant Record(reader.data, old(reader.pos), InFields(op, [], args))
               == Record(reader.data, reader.pos, InChildren(children, childCount - i))
      {
        var childOffset :- reader.ReadUInt32();
        children := children + [ArgU32(childOffset)];
      }
      return Ok(Done(op, children, reader.pos));
    case _ =>
      return Ok(Done(op, args, reader.pos));
  }

  // ---------------------------------------------------------------------
  // The binary exporter

  /** The bytes the exporter's `switch` writes for one argument: the value
      held, at the width of its tag (`ArgBytesWidth`), in the writer's byte order. */
  function ArgBytes(a: Arg, order: ByteOrder): seq<u8> {
    match a
    case ArgU8(x) => [x]
    case ArgS8(x) => [I8Bits(x)]
    case ArgU16(x) => Bytes16(x, order)
    case ArgS16(x) => Bytes16(I16Bits(x), order)
    case ArgU32(x) => Bytes32(x, order)
    case ArgS32(x) => Bytes32(I32Bits(x), order)
    case ArgFloat(x) => Bytes32(x, order)
  }

  /** The summed tag widths of an argument list. */
  function ArgsWidth(args: seq<Arg>): nat {
    if args == [] then 0 else ArgsWidth(args[..|args| - 1]) + Width(Tag(args[|args| - 1]))
  }

  /** Every argument in stored order. */
  function ArgsBytes(args: seq<Arg>, order: ByteOrder): seq<u8> {
    if args == [] then [] else ArgsBytes(args[..|args| - 1], order) + ArgBytes(args[|args| - 1], order)
  }

  /** One command: its opcode as a u32, then its arguments. */
  function CommandBytes(c: Command, order: ByteOrder): seq<u8> {
    Bytes32(OpCodeValue(c.opCode), order) + ArgsBytes(c.args, order)
  }

  function CommandsBytes(cmds: seq<Command>, order: ByteOrder): seq<u8> {
    if cmds == [] then [] else CommandsBytes(cmds[..|cmds| - 1], order) + CommandBytes(cmds[|cmds| - 1], order)
  }

  /** The exported resource: the header, the body's size as a u32, the body. */
  function Blob(header: seq<u8>, body: seq<u8>, order: ByteOrder): seq<u8> {
    header + Bytes32(Wrap32(|body|), order) + body
  }

  /** Writes one argument at the width of its tag. */
  method WriteArg(writer: Writer, a: Arg)
    modifies writer
    ensures writer.data == old(writer.data) + ArgBytes(a, writer.order)
  {
    match a
    case ArgU8(x) => writer.WriteU8(x);
    case ArgS8(x) => writer.WriteI8(x);
    case ArgU16(x) => writer.WriteU16(x);
    case ArgS16(x) => writer.WriteI16(x);
    case ArgU32(x) => writer.WriteU32(x);
    case ArgS32(x) => writer.WriteI32(x);
    case ArgFloat(x) => writer.WriteFloat(x);
  }

  /** Writes the arguments of one command, in stored order. */
  method WriteArgs(writer: Writer, args: seq<Arg>)
    modifies writer
    ensures writer.data == old(writer.data) + ArgsBytes(args, writer.order)
  {
    ghost var start := writer.data;
    for j := 0 to |args|
      invariant writer.data == start + ArgsBytes(args[..j], writer.order)
    {
      WriteArg(writer, args[j]);
      assert args[..j + 1][..j] == args[..j];
    }
    assert args[..|args|] == args;
  }

  /** Writes one command: the opcode as a u32, then its arguments. */
  method WriteCommand(writer: Writer, c: Command)
    modifies writer
    ensures writer.data == old(writer.data) + CommandBytes(c, writer.order)
  {
    writer.WriteU32(OpCodeValue(c.opCode));
    WriteArgs(writer, c.args);
  }

  /** The exporter's first writer: every command, in decode order. */
  method WriteCommands(cmds: seq<Command>, order: ByteOrder) returns (buffer: seq<u8>)
    ensures buffer == CommandsBytes(cmds, order)
  {
    var writer := new Writer(order);
    for i := 0 to |cmds|
      invariant writer.order == order
      invariant writer.data == CommandsBytes(cmds[..i], order)
    {
      WriteCommand(writer, cmds[i]);
      assert cmds[..i + 1][..i] == cmds[..i];
    }
    assert cmds[..|cmds|] == cmds;
    buffer := writer.data;
  }

  /** `GeoLayoutBinaryExporter::Export`. `header` stands for the bytes
      `WriteHeader` emits for a Blob resource. */
  method Export(geo: GeoLayoutData, order: ByteOrder, header: seq<u8>) returns (blob: seq<u8>)
    ensures blob == Blob(header, CommandsBytes(geo.cmds, order), order)
  {
    var buffer := WriteCommands(geo.cmds, order);
    var output := new Writer(order);
    output.WriteBytes(header);
    output.WriteU32(Wrap32(|buffer|));
    output.WriteBytes(buffer);
    blob := output.data;
  }
}
