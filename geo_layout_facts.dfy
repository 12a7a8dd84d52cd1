/** What the geo-layout decoder and encoder promise, proved about the
    specification functions of `GeoLayout`. */
module GeoLayoutFacts {
  import opened Results
  import opened Bytes
  import opened GeoLayout

  // ---------------------------------------------------------------------
  // Layout arithmetic

  /** The tags of the stored fields of a layout, in order. */
  function StoredTags(fields: seq<Field>): (r: seq<ArgType>)
    ensures |r| <= |fields|
  {
    if fields == [] then []
    else (if fields[0].Stored? then [FieldType(fields[0])] else []) + StoredTags(fields[1..])
  }

  /** The bytes a layout occupies, pad fields included. */
  function FieldsWidth(fields: seq<Field>): nat {
    if fields == [] then 0 else Width(FieldType(fields[0])) + FieldsWidth(fields[1..])
  }

  /** The bytes the stored fields of a layout occupy. */
  function StoredWidth(fields: seq<Field>): nat {
    if fields == [] then 0
    else (if fields[0].Stored? then Width(FieldType(fields[0])) else 0) + StoredWidth(fields[1..])
  }

  lemma {:induction false} StoredTagsAppend(a: seq<Field>, b: seq<Field>)
    ensures StoredTags(a + b) == StoredTags(a) + StoredTags(b)
    ensures FieldsWidth(a + b) == FieldsWidth(a) + FieldsWidth(b)
    ensures StoredWidth(a + b) == StoredWidth(a) + StoredWidth(b)
  {
    TagsOfAppend(a, b);
    FieldsWidthAppend(a, b);
    StoredWidthAppend(a, b);
  }

  lemma {:induction false} TagsOfAppend(a: seq<Field>, b: seq<Field>)
    ensures StoredTags(a + b) == StoredTags(a) + StoredTags(b)
    decreases |a|
  {
    if a == [] {
      assert a + b == b;
    } else {
      var h := if a[0].Stored? then [FieldType(a[0])] else [];
      assert (a + b)[0] == a[0] && (a + b)[1..] == a[1..] + b;
      assert StoredTags(a + b) == h + StoredTags(a[1..] + b);
      TagsOfAppend(a[1..], b);
      assert h + (StoredTags(a[1..]) + StoredTags(b)) == (h + StoredTags(a[1..])) + StoredTags(b);
    }
  }

  lemma {:induction false} FieldsWidthAppend(a: seq<Field>, b: seq<Field>)
    ensures FieldsWidth(a + b) == FieldsWidth(a) + FieldsWidth(b)
    decreases |a|
  {
    if a == [] {
      assert a + b == b;
    } else {
      assert (a + b)[1..] == a[1..] + b;
      FieldsWidthAppend(a[1..], b);
    }
  }

  lemma {:induction false} StoredWidthAppend(a: seq<Field>, b: seq<Field>)
    ensures StoredWidth(a + b) == StoredWidth(a) + StoredWidth(b)
    decreases |a|
  {
    if a == [] {
      assert a + b == b;
    } else {
      assert (a + b)[1..] == a[1..] + b;
      StoredWidthAppend(a[1..], b);
    }
  }

  lemma {:induction false} StoredTagsStores(n: nat, t: ArgType)
    ensures StoredTags(Stores(n, t)) == Repeat(t, n)
    ensures FieldsWidth(Stores(n, t)) == n * Width(t)
    ensures StoredWidth(Stores(n, t)) == n * Width(t)
  {
    if n > 0 {
    assert Stores(n, t)[1..] == Stores(n - 1, t);
    StoredTagsStores(n - 1, t);
    assert [t] + Repeat(t, n - 1) == Repeat(t, n);
    }
  }

  /** A layout followed by `n` stored fields of type `t`. */
  lemma {:induction false} ThenStores(h: seq<Field>, n: nat, t: ArgType)
    ensures StoredTags(h + Stores(n, t)) == StoredTags(h) + Repeat(t, n)
    ensures FieldsWidth(h + Stores(n, t)) == FieldsWidth(h) + n * Width(t)
    ensures StoredWidth(h + Stores(n, t)) == StoredWidth(h) + n * Width(t)
    ensures NoPad(h + Stores(n, t)) <==> NoPad(h)
  {
    StoredTagsAppend(h, Stores(n, t));
    StoredTagsStores(n, t);
    var l := h + Stores(n, t);
    if NoPad(h) {
      forall i | 0 <= i < |l| ensures l[i].Stored? {
        if i < |h| {
          assert l[i] == h[i];
        } else {
          assert l[i] == Stores(n, t)[i - |h|];
        }
      }
    } else {
      var i :| 0 <= i < |h| && !h[i].Stored?;
      assert l[i] == h[i];
    }
  }

  /** A word field, `n` stored fields of type `t`, then `tail`. */
  lemma {:induction false} WordThenStores(n: nat, t: ArgType, tail: seq<Field>)
    ensures StoredTags([Stored(U32)] + Stores(n, t) + tail) == [U32] + Repeat(t, n) + StoredTags(tail)
    ensures FieldsWidth([Stored(U32)] + Stores(n, t) + tail) == 4 + n * Width(t) + FieldsWidth(tail)
    ensures StoredWidth([Stored(U32)] + Stores(n, t) + tail) == 4 + n * Width(t) + StoredWidth(tail)
    ensures NoPad([Stored(U32)] + Stores(n, t) + tail) <==> NoPad(tail)
  {
    var head := [Stored(U32)] + Stores(n, t);
    StoredTagsAppend(head, tail);
    Cons(Stored(U32), Stores(n, t));
    StoredTagsStores(n, t);
    Unfold([Stored(U32)]);
    assert [Stored(U32)][1..] == [];
    var l := head + tail;
    if NoPad(tail) {
      forall i | 0 <= i < |l| ensures l[i].Stored? {
        if i >= |head| {
          assert l[i] == tail[i - |head|];
        }
      }
    } else {
      var i :| 0 <= i < |tail| && !tail[i].Stored?;
      assert l[|head| + i] == tail[i];
    }
  }

  /** No field of the layout is a pad. */
  predicate NoPad(fields: seq<Field>) {
    forall i :: 0 <= i < |fields| ==> fields[i].Stored?
  }

  lemma {:induction false} Cons(f: Field, rest: seq<Field>)
    ensures StoredTags([f] + rest) == (if f.Stored? then [FieldType(f)] else []) + StoredTags(rest)
    ensures FieldsWidth([f] + rest) == Width(FieldType(f)) + FieldsWidth(rest)
    ensures StoredWidth([f] + rest) == (if f.Stored? then Width(FieldType(f)) else 0) + StoredWidth(rest)
  {
    assert ([f] + rest)[1..] == rest;
  }

  /** The account of a layout, first field apart. */
  lemma {:induction false} Unfold(l: seq<Field>)
    requires l != []
    ensures StoredTags(l) == (if l[0].Stored? then [FieldType(l[0])] else []) + StoredTags(l[1..])
    ensures FieldsWidth(l) == Width(FieldType(l[0])) + FieldsWidth(l[1..])
    ensures StoredWidth(l) == (if l[0].Stored? then Width(FieldType(l[0])) else 0) + StoredWidth(l[1..])
  {
  }

  /** The account of a layout given field by field. */
  lemma {:induction false} Fields2(l: seq<Field>)
    requires |l| == 2
    ensures StoredTags(l) == StoredTags([l[0]]) + StoredTags([l[1]])
    ensures FieldsWidth(l) == Width(FieldType(l[0])) + Width(FieldType(l[1]))
    ensures StoredWidth(l) == StoredWidth([l[0]]) + StoredWidth([l[1]])
  {
    assert l == [l[0]] + [l[1]];
    StoredTagsAppend([l[0]], [l[1]]);
    Unfold([l[0]]);
    Unfold([l[1]]);
  }

  /** The fields of a Sort record after its floats. */
  lemma {:induction false} SortTail(tail: seq<Field>)
    requires tail == [Pad(U8), Stored(U8), Stored(U16), Pad(U16), Stored(U16)]
    ensures StoredTags(tail) == [U8, U16, U16] && FieldsWidth(tail) == 8 && StoredWidth(tail) == 5
  {
    assert tail == [Pad(U8), Stored(U8)] + [Stored(U16)] + [Pad(U16), Stored(U16)];
    StoredTagsAppend([Pad(U8), Stored(U8)], [Stored(U16)]);
    StoredTagsAppend([Pad(U8), Stored(U8)] + [Stored(U16)], [Pad(U16), Stored(U16)]);
    Fields2([Pad(U8), Stored(U8)]);
    Fields2([Pad(U16), Stored(U16)]);
    Unfold([Stored(U16)]);
    Unfold([Pad(U8)]);
    Unfold([Stored(U8)]);
    Unfold([Pad(U16)]);
  }

  lemma {:induction false} SortShape(op: OpCode)
    requires op == Sort
    ensures StoredTags(Layout(op)) == [U32] + Repeat(Float, 6) + [U8, U16, U16]
    ensures FieldsWidth(Layout(op)) == 36
    ensures StoredWidth(Layout(op)) == 33
    ensures !NoPad(Layout(op))
  {
    var tail := [Pad(U8), Stored(U8), Stored(U16), Pad(U16), Stored(U16)];
    assert Layout(op) == [Stored(U32)] + Stores(6, Float) + tail;
    SortTail(tail);
    WordThenStores(6, Float, tail);
    assert !tail[0].Stored?;
  }

  lemma {:induction false} BoneShape(op: OpCode)
    requires op == Bone
    ensures StoredTags(Layout(op)) == [U16, U8, U8, U16]
    ensures FieldsWidth(Layout(op)) == 8
    ensures StoredWidth(Layout(op)) == 6
    ensures !NoPad(Layout(op))
  {
    var l := Layout(op);
    var l4 := [Stored(U16)];
    var l3 := [Stored(U8)] + l4;
    var l2 := [Stored(U8)] + l3;
    var l1 := [Stored(U16)] + l2;
    assert l == [Pad(U16)] + l1;
    Unfold(l4);
    assert l4[1..] == [];
    Cons(Stored(U8), l4);
    Cons(Stored(U8), l3);
    Cons(Stored(U16), l2);
    Cons(Pad(U16), l1);
    assert !l[0].Stored?;
  }

  lemma {:induction false} LoadDLShape(op: OpCode)
    requires op == LoadDL
    ensures StoredTags(Layout(op)) == [U32, U16, U16]
    ensures FieldsWidth(Layout(op)) == 8
    ensures StoredWidth(Layout(op)) == 8
    ensures NoPad(Layout(op))
  {
    var l := Layout(op);
    assert l == [Stored(U32)] + [Stored(U16), Stored(U16)];
    StoredTagsAppend([Stored(U32)], [Stored(U16), Stored(U16)]);
    Fields2([Stored(U16), Stored(U16)]);
    Unfold([Stored(U32)]);
    Unfold([Stored(U16)]);
  }

  lemma {:induction false} SkinningShape(op: OpCode)
    requires op == Skinning
    ensures StoredTags(Layout(op)) == [U32, U16]
    ensures FieldsWidth(Layout(op)) == 6
    ensures StoredWidth(Layout(op)) == 6
    ensures NoPad(Layout(op))
  {
    Fields2(Layout(op));
    Unfold([Stored(U32)]);
    Unfold([Stored(U16)]);
  }

  lemma {:induction false} BranchShape(op: OpCode)
    requires op == Branch
    ensures StoredTags(Layout(op)) == [U32, U32]
    ensures FieldsWidth(Layout(op)) == 12
    ensures StoredWidth(Layout(op)) == 8
    ensures !NoPad(Layout(op))
  {
    var l := Layout(op);
    assert l == [Stored(U32)] + [Stored(U32), Pad(U32)];
    StoredTagsAppend([Stored(U32)], [Stored(U32), Pad(U32)]);
    Fields2([Stored(U32), Pad(U32)]);
    Unfold([Stored(U32)]);
    Unfold([Pad(U32)]);
    assert !l[2].Stored?;
  }

  lemma {:induction false} LODShape(op: OpCode)
    requires op == LOD
    ensures StoredTags(Layout(op)) == [U32] + Repeat(Float, 5) + [U32]
    ensures FieldsWidth(Layout(op)) == 28
    ensures StoredWidth(Layout(op)) == 28
    ensures NoPad(Layout(op))
  {
    WordThenStores(5, Float, [Stored(U32)]);
    Unfold([Stored(U32)]);
    assert [Stored(U32)][1..] == [];
    assert NoPad([Stored(U32)]);
  }


  lemma {:induction false} ReferencePointShape(op: OpCode)
    requires op == ReferencePoint
    ensures StoredTags(Layout(op)) == [U32, U16, U16, Float, Float, Float]
    ensures FieldsWidth(Layout(op)) == 20
    ensures StoredWidth(Layout(op)) == 20
    ensures NoPad(Layout(op))
  {
    var h := Layout(Selector);
    assert Layout(op) == h + Stores(3, Float);
    SelectorShape(Selector);
    ThenStores(h, 3, Float);
    assert [U32, U16, U16] + Repeat(Float, 3) == [U32, U16, U16, Float, Float, Float];
  }

  lemma {:induction false} SelectorShape(op: OpCode)
    requires op == Selector
    ensures StoredTags(Layout(op)) == [U32, U16, U16]
    ensures FieldsWidth(Layout(op)) == 8
    ensures StoredWidth(Layout(op)) == 8
    ensures NoPad(Layout(op))
  {
    var l := Layout(op);
    assert l == [Stored(U32)] + [Stored(U16), Stored(U16)];
    StoredTagsAppend([Stored(U32)], [Stored(U16), Stored(U16)]);
    Fields2([Stored(U16), Stored(U16)]);
    Unfold([Stored(U32)]);
    Unfold([Stored(U16)]);
  }

  lemma {:induction false} DrawDistanceShape(op: OpCode)
    requires op == DrawDistance
    ensures StoredTags(Layout(op)) == [U32] + Repeat(S16, 8)
    ensures FieldsWidth(Layout(op)) == 20
    ensures StoredWidth(Layout(op)) == 20
    ensures NoPad(Layout(op))
  {
    WordThenStores(8, S16, []);
    assert Layout(op) == [Stored(U32)] + Stores(8, S16) + [];
  }


  lemma {:induction false} UnknownCmdShape(op: OpCode)
    requires op == UnknownCmd
    ensures StoredTags(Layout(op)) == [U32] + Repeat(S16, 6)
    ensures FieldsWidth(Layout(op)) == 20
    ensures StoredWidth(Layout(op)) == 16
    ensures !NoPad(Layout(op))
  {
    WordThenStores(6, S16, [Pad(U32)]);
    Unfold([Pad(U32)]);
    assert [Pad(U32)][1..] == [];
    assert !NoPad([Pad(U32)]);
  }


  // ---------------------------------------------------------------------
  // One record: what the decoder stores, and how it relates to the encoder

  /** A field read back at its tag's width gives the bytes it came from. */
  lemma {:induction false} ArgBytesAt(s: seq<u8>, p: nat, t: ArgType)
    requires p + Width(t) <= |s|
    ensures Tag(ArgAt(s, p, t)) == t
    ensures ArgBytes(ArgAt(s, p, t), BigEndian) == s[p..p + Width(t)]
  {
    TwosComplementRoundTrip();
    match t
    case U8 | S8 =>
    case U16 | S16 => Bytes16OfBe16At(s, p);
    case _ => Bytes32OfBe32At(s, p);
  }

  lemma {:induction false} ArgsAppend(args: seq<Arg>, a: Arg, order: ByteOrder)
    ensures ArgsBytes(args + [a], order) == ArgsBytes(args, order) + ArgBytes(a, order)
    ensures ArgsWidth(args + [a]) == ArgsWidth(args) + Width(Tag(a))
    ensures Tags(args + [a]) == Tags(args) + [Tag(a)]
  {
    assert (args + [a])[..|args|] == args;
  }

  /** The commands whose encoding is byte for byte the record they were
      decoded from: those whose layout has no pad field, no trailing pad
      word and no sentinel. */
  predicate Verbatim(c: Command) {
    match c.opCode
    case LoadDL => Advance(c) != 0x10
    case LOD | ReferencePoint | Selector | DrawDistance => true
    case _ => false
  }

  /** What a record decoded from position `start` is: well formed, as long
      as its opcode's layout says, counting and advancing as its fields say,
      and, when verbatim, re-encoded to exactly its bytes. */
  ghost predicate ShapeOf(s: seq<u8>, start: nat, d: Decoded) {
    && start + 4 <= d.next <= |s|
    && Be32At(s, start) == OpCodeValue(d.cmd.opCode)
    && WellFormed(d.cmd)
    && d.children == Pending(d.cmd)
    && d.advance == Advance(d.cmd)
    && d.next == start + RomSize(d.cmd)
    && 4 + ArgsWidth(d.cmd.args) <= RomSize(d.cmd)
    && (Verbatim(d.cmd) <==> 4 + ArgsWidth(d.cmd.args) == RomSize(d.cmd))
    && (Verbatim(d.cmd) ==> ArgsBytes(d.cmd.args, BigEndian) == s[start + 4..d.next])
  }

  /** After the fixed fields: `args` holds the stored ones, the opcode's
      layout says how many, of which tags and how wide. */
  ghost predicate FixedShaped(s: seq<u8>, start: nat, p: nat, op: OpCode, args: seq<Arg>) {
    && start + 4 <= p <= |s| && Be32At(s, start) == OpCodeValue(op)
    && Tags(args) == StoredTags(Layout(op))
    && p == start + 4 + FieldsWidth(Layout(op))
    && ArgsWidth(args) == StoredWidth(Layout(op))
    && (NoPad(Layout(op)) ==> ArgsBytes(args, BigEndian) == s[start + 4..p])
  }

  ghost predicate PadShaped(s: seq<u8>, start: nat, p: nat, op: OpCode, args: seq<Arg>) {
    && start + 4 <= p <= |s| && Be32At(s, start) == OpCodeValue(op)
    && (op.Bone? || op.LoadDL?)
    && Tags(args) == StoredTags(Layout(op))
    && Advance(Command(op, args)) == 0x10
    && p == start + 4 + FieldsWidth(Layout(op))
    && ArgsWidth(args) == StoredWidth(Layout(op))
  }

  ghost predicate SkinShaped(s: seq<u8>, start: nat, p: nat, args: seq<Arg>) {
    && start + 4 <= p <= |s| && Be32At(s, start) == OpCodeValue(Skinning)
    && 2 <= |args| && Tags(args[..2]) == [U32, U16]
    && (forall i :: 2 <= i < |args| ==> args[i].ArgU16? && args[i].u16value != 0)
    && p == start + 10 + 2 * (|args| - 2)
    && ArgsWidth(args) == 6 + 2 * (|args| - 2)
  }

  ghost predicate ChildrenShaped(s: seq<u8>, start: nat, p: nat, args: seq<Arg>, left: nat) {
    && start + 4 <= p <= |s| && Be32At(s, start) == OpCodeValue(Selector)
    && 3 <= |args| && Tags(args[..3]) == [U32, U16, U16]
    && |args| + left == 3 + args[1].u16value
    && (forall i :: 3 <= i < |args| ==> args[i].ArgU32?)
    && p == start + 12 + 4 * (|args| - 3)
    && ArgsWidth(args) == 8 + 4 * (|args| - 3)
    && ArgsBytes(args, BigEndian) == s[start + 4..p]
  }

  lemma {:induction false} Associative<T>(a: seq<T>, b: seq<T>, c: seq<T>)
    ensures (a + b) + c == a + (b + c)
  {
  }

  lemma {:induction false} BytesStep(s: seq<u8>, start: nat, p: nat, args: seq<Arg>, a: Arg)
    requires start + 4 <= p && p + Width(Tag(a)) <= |s|
    requires ArgsBytes(args, BigEndian) == s[start + 4..p]
    requires ArgBytes(a, BigEndian) == s[p..p + Width(Tag(a))]
    ensures ArgsBytes(args + [a], BigEndian) == s[start + 4..p + Width(Tag(a))]
  {
    assert (args + [a])[..|args|] == args;
    assert s[start + 4..p + Width(Tag(a))] == s[start + 4..p] + s[p..p + Width(Tag(a))];
  }

  /** The record ends with its fixed fields. */
  lemma {:induction false} Finished(s: seq<u8>, start: nat, p: nat, op: OpCode, args: seq<Arg>)
    requires FixedShaped(s, start, p, op, args)
    requires !op.Skinning? && !op.Selector?
    requires (op.Bone? || op.LoadDL?) ==> Advance(Command(op, args)) != 0x10
    ensures ShapeOf(s, start, Done(op, args, p))
  {
    match op
    case Sort => FinishedSortFrom(s, start, p, args);
    case Bone => FinishedBone(s, start, p, args);
    case LoadDL => FinishedLoadDL(s, start, p, args);
    case Branch => FinishedBranch(s, start, p, args);
    case LOD => FinishedLOD(s, start, p, args);
    case ReferencePoint => FinishedReferencePoint(s, start, p, args);
    case DrawDistance => FinishedDrawDistance(s, start, p, args);
    case UnknownCmd => FinishedUnknownCmd(s, start, p, args);
  }

  lemma {:induction false} FinishedSortFrom(s: seq<u8>, start: nat, p: nat, args: seq<Arg>)
    requires FixedShaped(s, start, p, Sort, args)
    ensures ShapeOf(s, start, Done(Sort, args, p))
  {
    SortShape(Sort);
    FinishedSort(s, start, p, args);
  }

  lemma {:induction false} FinishedBone(s: seq<u8>, start: nat, p: nat, args: seq<Arg>)
    requires FixedShaped(s, start, p, Bone, args)
    requires Advance(Command(Bone, args)) != 0x10
    ensures ShapeOf(s, start, Done(Bone, args, p))
  {
    BoneShape(Bone);
    FinishedPadded(s, start, p, Bone, args);
  }

  lemma {:induction false} FinishedLoadDL(s: seq<u8>, start: nat, p: nat, args: seq<Arg>)
    requires FixedShaped(s, start, p, LoadDL, args)
    requires Advance(Command(LoadDL, args)) != 0x10
    ensures ShapeOf(s, start, Done(LoadDL, args, p))
  {
    LoadDLShape(LoadDL);
    FinishedVerbatim(s, start, p, LoadDL, args);
  }

  lemma {:induction false} FinishedBranch(s: seq<u8>, start: nat, p: nat, args: seq<Arg>)
    requires FixedShaped(s, start, p, Branch, args)
    ensures ShapeOf(s, start, Done(Branch, args, p))
  {
    BranchShape(Branch);
    FinishedPadded(s, start, p, Branch, args);
  }

  lemma {:induction false} FinishedLOD(s: seq<u8>, start: nat, p: nat, args: seq<Arg>)
    requires FixedShaped(s, start, p, LOD, args)
    ensures ShapeOf(s, start, Done(LOD, args, p))
  {
    LODShape(LOD);
    FinishedVerbatim(s, start, p, LOD, args);
  }

  lemma {:induction false} FinishedReferencePoint(s: seq<u8>, start: nat, p: nat, args: seq<Arg>)
    requires FixedShaped(s, start, p, ReferencePoint, args)
    ensures ShapeOf(s, start, Done(ReferencePoint, args, p))
  {
    ReferencePointShape(ReferencePoint);
    FinishedVerbatim(s, start, p, ReferencePoint, args);
  }

  lemma {:induction false} FinishedDrawDistance(s: seq<u8>, start: nat, p: nat, args: seq<Arg>)
    requires FixedShaped(s, start, p, DrawDistance, args)
    ensures ShapeOf(s, start, Done(DrawDistance, args, p))
  {
    DrawDistanceShape(DrawDistance);
    FinishedVerbatim(s, start, p, DrawDistance, args);
  }

  lemma {:induction false} FinishedUnknownCmd(s: seq<u8>, start: nat, p: nat, args: seq<Arg>)
    requires FixedShaped(s, start, p, UnknownCmd, args)
    ensures ShapeOf(s, start, Done(UnknownCmd, args, p))
  {
    UnknownCmdShape(UnknownCmd);
    FinishedPadded(s, start, p, UnknownCmd, args);
  }

  lemma {:induction false} FinishedSort(s: seq<u8>, start: nat, p: nat, args: seq<Arg>)
    requires start + 4 <= p <= |s| && Be32At(s, start) == OpCodeValue(Sort)
    requires Tags(args) == [U32] + Repeat(Float, 6) + [U8, U16, U16]
    requires p == start + 40 && ArgsWidth(args) == 33
    ensures ShapeOf(s, start, Done(Sort, args, p))
  {
  }

  lemma {:induction false} FinishedPadded(s: seq<u8>, start: nat, p: nat, op: OpCode, args: seq<Arg>)
    requires op.Bone? || op.Branch? || op.UnknownCmd?
    requires start + 4 <= p <= |s| && Be32At(s, start) == OpCodeValue(op)
    requires WellFormed(Command(op, args))
    requires p == start + RomSize(Command(op, args)) && 4 + ArgsWidth(args) < RomSize(Command(op, args))
    ensures ShapeOf(s, start, Done(op, args, p))
  {
  }

  lemma {:induction false} FinishedVerbatim(s: seq<u8>, start: nat, p: nat, op: OpCode, args: seq<Arg>)
    requires op.LoadDL? || op.LOD? || op.ReferencePoint? || op.DrawDistance?
    requires op.LoadDL? ==> Advance(Command(op, args)) != 0x10
    requires start + 4 <= p <= |s| && Be32At(s, start) == OpCodeValue(op)
    requires WellFormed(Command(op, args))
    requires p == start + RomSize(Command(op, args)) && 4 + ArgsWidth(args) == RomSize(Command(op, args))
    requires ArgsBytes(args, BigEndian) == s[start + 4..p]
    ensures ShapeOf(s, start, Done(op, args, p))
  {
  }

  /** Bone and LoadDL with a length field of 0x10 end with a pad word. */
  lemma {:induction false} PadFinished(s: seq<u8>, start: nat, p: nat, op: OpCode, args: seq<Arg>)
    requires PadShaped(s, start, p, op, args) && p + 4 <= |s|
    ensures ShapeOf(s, start, Done(op, args, p + 4))
  {
    if op.Bone? {
      BoneShape(Bone);
    } else {
      LoadDLShape(LoadDL);
    }
  }

  lemma {:induction false} PadStart(s: seq<u8>, start: nat, p: nat, op: OpCode, args: seq<Arg>)
    requires FixedShaped(s, start, p, op, args)
    requires (op.Bone? || op.LoadDL?) && Advance(Command(op, args)) == 0x10
    ensures PadShaped(s, start, p, op, args)
  {
  }

  lemma {:induction false} SkinStart(s: seq<u8>, start: nat, p: nat, args: seq<Arg>)
    requires FixedShaped(s, start, p, Skinning, args)
    ensures SkinShaped(s, start, p, args)
  {
    SkinningShape(Skinning);
    assert args[..2] == args;
  }

  lemma {:induction false} ChildrenStart(s: seq<u8>, start: nat, p: nat, args: seq<Arg>)
    requires FixedShaped(s, start, p, Selector, args)
    ensures |args| == 3 && ChildrenShaped(s, start, p, args, Unsigned(args[1]))
  {
    SelectorShape(Selector);
    assert args[..3] == args;
  }

  /** The end of the fixed fields: the record is finished, or goes on to
      its pad word, its sentinel run or its children. */
  lemma {:induction false} FieldsDone(s: seq<u8>, start: nat, p: nat, op: OpCode, args: seq<Arg>)
    requires FixedShaped(s, start, p, op, args)
    ensures Record(s, p, InFields(op, [], args)).Ok? ==> ShapeOf(s, start, Record(s, p, InFields(op, [], args)).value)
    decreases |s| - p, 1
  {
    if op.Skinning? {
      SkinStart(s, start, p, args);
      SkinShape(s, start, p, args);
    } else if op.Selector? {
      ChildrenStart(s, start, p, args);
      ChildrenShape(s, start, p, args, Unsigned(args[1]));
    } else if (op.Bone? || op.LoadDL?) && Advance(Command(op, args)) == 0x10 {
      PadStart(s, start, p, op, args);
      if p + 4 <= |s| {
        PadFinished(s, start, p, op, args);
      }
    } else {
      Finished(s, start, p, op, args);
    }
  }

  /** The arguments the stored fields of `fields` hold, read from `p` on. */
  function ArgsOf(s: seq<u8>, p: nat, fields: seq<Field>): seq<Arg>
    requires p + FieldsWidth(fields) <= |s|
    decreases |fields|
  {
    if fields == [] then []
    else
      var t := FieldType(fields[0]);
      (if fields[0].Stored? then [ArgAt(s, p, t)] else []) + ArgsOf(s, p + Width(t), fields[1..])
  }

  lemma {:induction false} ArgsOfUnfold(s: seq<u8>, p: nat, fields: seq<Field>)
    requires fields != [] && p + FieldsWidth(fields) <= |s|
    ensures var t := FieldType(fields[0]);
      && FieldsWidth(fields) == Width(t) + FieldsWidth(fields[1..])
      && ArgsOf(s, p, fields) == (if fields[0].Stored? then [ArgAt(s, p, t)] else []) + ArgsOf(s, p + Width(t), fields[1..])
  {
  }

  /** One fixed field, with the stored argument as a one-element list. */
  lemma {:induction false} RecordFieldCat(s: seq<u8>, p: nat, op: OpCode, fields: seq<Field>, args: seq<Arg>)
    requires p <= |s| && fields != [] && p + Width(FieldType(fields[0])) <= |s|
    ensures var t := FieldType(fields[0]);
      Record(s, p, InFields(op, fields, args))
      == Record(s, p + Width(t), InFields(op, fields[1..], args + if fields[0].Stored? then [ArgAt(s, p, t)] else []))
  {
    RecordField(s, p, op, fields, args);
    if !fields[0].Stored? {
      assert args + [] == args;
    }
  }

  lemma {:induction false} FieldsWidthUnfold(fields: seq<Field>)
    requires fields != []
    ensures FieldsWidth(fields) == Width(FieldType(fields[0])) + FieldsWidth(fields[1..])
  {
  }

  /** The first field read, then the rest read: all of them read. */
  lemma {:induction false} RecordFieldsJoin(s: seq<u8>, p: nat, op: OpCode, fields: seq<Field>, args: seq<Arg>,
                                            w: nat, a: seq<Arg>, r: Result<Decoded>)
    requires fields != [] && w == Width(FieldType(fields[0])) && p + FieldsWidth(fields) <= |s|
    requires a == if fields[0].Stored? then [ArgAt(s, p, FieldType(fields[0]))] else []
    requires r == Record(s, p + w + FieldsWidth(fields[1..]), InFields(op, [], (args + a) + ArgsOf(s, p + w, fields[1..])))
    ensures r == Record(s, p + FieldsWidth(fields), InFields(op, [], args + ArgsOf(s, p, fields)))
  {
    ArgsOfUnfold(s, p, fields);
    Associative(args, a, ArgsOf(s, p + w, fields[1..]));
  }

  /** The decoder reads the fixed fields one after another, or runs out of bytes. */
  lemma {:induction false} RecordFields(s: seq<u8>, p: nat, op: OpCode, fields: seq<Field>, args: seq<Arg>)
    requires p <= |s|
    ensures p + FieldsWidth(fields) <= |s| ==>
      Record(s, p, InFields(op, fields, args))
      == Record(s, p + FieldsWidth(fields), InFields(op, [], args + ArgsOf(s, p, fields)))
    ensures p + FieldsWidth(fields) > |s| ==> Record(s, p, InFields(op, fields, args)) == Err(ReadPastEnd)
    decreases |fields|
  {
    if fields == [] {
      assert args + [] == args;
    } else {
      var t := FieldType(fields[0]);
      var w := Width(t);
      FieldsWidthUnfold(fields);
      if p + w <= |s| {
        var a := if fields[0].Stored? then [ArgAt(s, p, t)] else [];
        RecordFieldCat(s, p, op, fields, args);
        RecordFields(s, p + w, op, fields[1..], args + a);
        if p + FieldsWidth(fields) <= |s| {
          RecordFieldsJoin(s, p, op, fields, args, w, a, Record(s, p + w, InFields(op, fields[1..], args + a)));
        }
      } else {
        RecordFieldsShort(s, p, op, fields, args);
      }
    }
  }

  /** A first field that does not fit: the record runs out of bytes. */
  lemma {:induction false} RecordFieldsShort(s: seq<u8>, p: nat, op: OpCode, fields: seq<Field>, args: seq<Arg>)
    requires p <= |s| && fields != [] && p + Width(FieldType(fields[0])) > |s|
    ensures p + FieldsWidth(fields) > |s| && Record(s, p, InFields(op, fields, args)) == Err(ReadPastEnd)
  {
    RecordField(s, p, op, fields, args);
    FieldsWidthUnfold(fields);
  }

  lemma {:induction false} TagsConcat(a: seq<Arg>, b: seq<Arg>)
    ensures Tags(a + b) == Tags(a) + Tags(b)
  {
  }

  lemma {:induction false} ArgsWidthConcat(a: seq<Arg>, b: seq<Arg>)
    ensures ArgsWidth(a + b) == ArgsWidth(a) + ArgsWidth(b)
    decreases |b|
  {
    if b == [] {
      assert a + b == a;
    } else {
      var init := b[..|b| - 1];
      assert (a + b)[..|a + b| - 1] == a + init;
      assert (a + b)[|a + b| - 1] == b[|b| - 1];
      ArgsWidthConcat(a, init);
    }
  }

  lemma {:induction false} ArgsBytesConcat(a: seq<Arg>, b: seq<Arg>, order: ByteOrder)
    ensures ArgsBytes(a + b, order) == ArgsBytes(a, order) + ArgsBytes(b, order)
    decreases |b|
  {
    if b == [] {
      assert a + b == a;
    } else {
      var init := b[..|b| - 1];
      var x := b[|b| - 1];
      assert (a + b)[..|a + b| - 1] == a + init;
      assert (a + b)[|a + b| - 1] == x;
      ArgsBytesConcat(a, init, order);
      Associative(ArgsBytes(a, order), ArgsBytes(init, order), ArgBytes(x, order));
    }
  }

  /** The stored fields keep their layout's tags, in order. */
  lemma {:induction false} ArgsOfTags(s: seq<u8>, p: nat, fields: seq<Field>)
    requires p + FieldsWidth(fields) <= |s|
    ensures Tags(ArgsOf(s, p, fields)) == StoredTags(fields)
    decreases |fields|
  {
    if fields != [] {
      var t := FieldType(fields[0]);
      var a := if fields[0].Stored? then [ArgAt(s, p, t)] else [];
      var rest := ArgsOf(s, p + Width(t), fields[1..]);
      ArgBytesAt(s, p, t);
      assert Tags(a) == if fields[0].Stored? then [t] else [];
      TagsConcat(a, rest);
      ArgsOfTags(s, p + Width(t), fields[1..]);
    }
  }

  /** The stored fields are as wide as their layout's stored fields. */
  lemma {:induction false} ArgsOfWidth(s: seq<u8>, p: nat, fields: seq<Field>)
    requires p + FieldsWidth(fields) <= |s|
    ensures ArgsWidth(ArgsOf(s, p, fields)) == StoredWidth(fields)
    decreases |fields|
  {
    if fields != [] {
      var t := FieldType(fields[0]);
      var a := if fields[0].Stored? then [ArgAt(s, p, t)] else [];
      var rest := ArgsOf(s, p + Width(t), fields[1..]);
      ArgBytesAt(s, p, t);
      if fields[0].Stored? {
        assert a[..0] == [];
      }
      assert ArgsWidth(a) == if fields[0].Stored? then Width(t) else 0;
      ArgsWidthConcat(a, rest);
      ArgsOfWidth(s, p + Width(t), fields[1..]);
    }
  }

  lemma {:induction false} NoPadTail(fields: seq<Field>)
    requires fields != [] && NoPad(fields)
    ensures fields[0].Stored? && NoPad(fields[1..])
  {
    forall i | 0 <= i < |fields[1..]| ensures fields[1..][i].Stored? {
      assert fields[1..][i] == fields[i + 1];
    }
  }

  lemma {:induction false} ArgsBytesSingle(a: Arg, order: ByteOrder)
    ensures ArgsBytes([a], order) == ArgBytes(a, order)
  {
    assert [a][..0] == [];
  }

  /** A layout without pad fields is stored byte for byte. */
  lemma {:induction false} ArgsOfBytes(s: seq<u8>, p: nat, fields: seq<Field>)
    requires p + FieldsWidth(fields) <= |s| && NoPad(fields)
    ensures ArgsBytes(ArgsOf(s, p, fields), BigEndian) == s[p..p + FieldsWidth(fields)]
    decreases |fields|
  {
    if fields == [] {
      assert s[p..p] == [];
    } else {
      var t := FieldType(fields[0]);
      var a := ArgAt(s, p, t);
      var q := p + Width(t);
      var rest := ArgsOf(s, q, fields[1..]);
      var e := q + FieldsWidth(fields[1..]);
      NoPadTail(fields);
      StoredArgsOf(s, p, fields, a, rest);
      ArgBytesAt(s, p, t);
      ArgsOfBytes(s, q, fields[1..]);
      BytesCons(s, p, q, e, a, rest);
    }
  }

  lemma {:induction false} StoredArgsOf(s: seq<u8>, p: nat, fields: seq<Field>, a: Arg, rest: seq<Arg>)
    requires fields != [] && fields[0].Stored? && p + FieldsWidth(fields) <= |s|
    requires a == ArgAt(s, p, FieldType(fields[0])) && rest == ArgsOf(s, p + Width(FieldType(fields[0])), fields[1..])
    ensures ArgsOf(s, p, fields) == [a] + rest
    ensures FieldsWidth(fields) == Width(FieldType(fields[0])) + FieldsWidth(fields[1..])
  {
    ArgsOfUnfold(s, p, fields);
  }

  lemma {:induction false} BytesCons(s: seq<u8>, p: nat, q: nat, e: nat, a: Arg, rest: seq<Arg>)
    requires p <= q <= e <= |s|
    requires ArgBytes(a, BigEndian) == s[p..q] && ArgsBytes(rest, BigEndian) == s[q..e]
    ensures ArgsBytes([a] + rest, BigEndian) == s[p..e]
  {
    ArgsBytesConcat([a], rest, BigEndian);
    ArgsBytesSingle(a, BigEndian);
    AdjacentSlices(s, p, q, e);
  }

  /** The fixed fields of a record, read in full. */
  lemma {:induction false} FixedFieldsAt(s: seq<u8>, start: nat, op: OpCode, q: nat, args: seq<Arg>)
    requires start + 4 + FieldsWidth(Layout(op)) <= |s| && Be32At(s, start) == OpCodeValue(op)
    requires q == start + 4 + FieldsWidth(Layout(op)) && args == ArgsOf(s, start + 4, Layout(op))
    ensures FixedShaped(s, start, q, op, args)
  {
    FixedFields(s, start, op);
  }

  lemma {:induction false} FixedFields(s: seq<u8>, start: nat, op: OpCode)
    requires start + 4 + FieldsWidth(Layout(op)) <= |s| && Be32At(s, start) == OpCodeValue(op)
    ensures FixedShaped(s, start, start + 4 + FieldsWidth(Layout(op)), op, ArgsOf(s, start + 4, Layout(op)))
  {
    var l := Layout(op);
    ArgsOfTags(s, start + 4, l);
    ArgsOfWidth(s, start + 4, l);
    if NoPad(l) {
      ArgsOfBytes(s, start + 4, l);
    }
  }

  lemma {:induction false} SkinStep(s: seq<u8>, start: nat, p: nat, args: seq<Arg>)
    requires SkinShaped(s, start, p, args) && p + 2 <= |s| && Be16At(s, p) != 0
    ensures SkinShaped(s, start, p + 2, args + [ArgU16(Be16At(s, p))])
  {
    var a := ArgU16(Be16At(s, p));
    ArgsAppend(args, a, BigEndian);
    assert (args + [a])[..2] == args[..2];
  }

  lemma {:induction false} SkinEnd(s: seq<u8>, start: nat, p: nat, args: seq<Arg>)
    requires SkinShaped(s, start, p, args) && p + 2 <= |s|
    ensures ShapeOf(s, start, Done(Skinning, args, p + 2))
  {
  }

  /** Skinning: the u16 run up to its zero sentinel. */
  lemma {:induction false} SkinShape(s: seq<u8>, start: nat, p: nat, args: seq<Arg>)
    requires SkinShaped(s, start, p, args)
    ensures Record(s, p, InSkinRun(args)).Ok? ==> ShapeOf(s, start, Record(s, p, InSkinRun(args)).value)
    decreases |s| - p, 0
  {
    if p + 2 <= |s| {
      if Be16At(s, p) != 0 {
        var next := args + [ArgU16(Be16At(s, p))];
        assert Record(s, p, InSkinRun(args)) == Record(s, p + 2, InSkinRun(next));
        SkinStep(s, start, p, args);
        SkinShape(s, start, p + 2, next);
      } else {
        SkinEnd(s, start, p, args);
      }
    }
  }

  lemma {:induction false} ChildrenStep(s: seq<u8>, start: nat, p: nat, args: seq<Arg>, left: nat)
    requires ChildrenShaped(s, start, p, args, left) && left > 0 && p + 4 <= |s|
    ensures ChildrenShaped(s, start, p + 4, args + [ArgU32(Be32At(s, p))], left - 1)
  {
    var a := ArgU32(Be32At(s, p));
    ArgBytesAt(s, p, U32);
    BytesStep(s, start, p, args, a);
    ArgsAppend(args, a, BigEndian);
    assert (args + [a])[..3] == args[..3];
  }

  lemma {:induction false} ChildrenEnd(s: seq<u8>, start: nat, p: nat, args: seq<Arg>)
    requires ChildrenShaped(s, start, p, args, 0)
    ensures ShapeOf(s, start, Done(Selector, args, p))
  {
  }

  /** The record read from `p` on, with `left` child offsets to go, if it
      is read at all, has the shape of a Selector record opened at `start`. */
  ghost predicate ChildrenOk(s: seq<u8>, start: nat, p: nat, args: seq<Arg>, left: nat) {
    p <= |s| && ChildrenRecord(s, p, args, left).Ok? ==> ShapeOf(s, start, ChildrenRecord(s, p, args, left).value)
  }

  ghost function ChildrenRecord(s: seq<u8>, p: nat, args: seq<Arg>, left: nat): Result<Decoded>
    requires p <= |s|
  {
    Record(s, p, InChildren(args, left))
  }

  lemma {:induction false} ChildrenLift(s: seq<u8>, start: nat, p: nat, args: seq<Arg>, left: nat, next: seq<Arg>)
    requires left > 0 && p + 4 <= |s| && next == args + [ArgU32(Be32At(s, p))]
    requires ChildrenOk(s, start, p + 4, next, left - 1)
    ensures ChildrenOk(s, start, p, args, left)
  {
    assert Record(s, p, InChildren(args, left)) == Record(s, p + 4, InChildren(next, left - 1));
  }

  /** Selector: `left` child offsets still to read. */
  lemma {:induction false} ChildrenShape(s: seq<u8>, start: nat, p: nat, args: seq<Arg>, left: nat)
    requires ChildrenShaped(s, start, p, args, left)
    ensures p <= |s| && ChildrenOk(s, start, p, args, left)
    decreases |s| - p, 0
  {
    if left == 0 {
      ChildrenEnd(s, start, p, args);
    } else if p + 4 <= |s| {
      var next := args + [ArgU32(Be32At(s, p))];
      ChildrenStep(s, start, p, args, left);
      ChildrenShape(s, start, p + 4, next, left - 1);
      ChildrenLift(s, start, p, args, left, next);
    }
  }

  /** Every record the decoder accepts at `p` has the shape its opcode lays out. */
  lemma {:induction false} DecodedShape(s: seq<u8>, p: nat)
    requires p <= |s|
    ensures Record(s, p, AtOpCode).Ok? ==> ShapeOf(s, p, Record(s, p, AtOpCode).value)
  {
    if p + 4 <= |s| && OpCodeOf(Be32At(s, p)).Some? {
      var op := OpCodeOf(Be32At(s, p)).value;
      assert Record(s, p, AtOpCode) == Record(s, p + 4, InFields(op, Layout(op), []));
      OpenedShape(s, p, op);
    }
  }

  lemma {:induction false} OpenedShape(s: seq<u8>, p: nat, op: OpCode)
    requires p + 4 <= |s| && Be32At(s, p) == OpCodeValue(op)
    ensures var r := Record(s, p + 4, InFields(op, Layout(op), []));
      r.Ok? ==> ShapeOf(s, p, r.value)
  {
    if p + 4 + FieldsWidth(Layout(op)) <= |s| {
      OpenedFits(s, p, op);
    } else {
      RecordFields(s, p + 4, op, Layout(op), []);
    }
  }

  lemma {:induction false} OpenedFits(s: seq<u8>, p: nat, op: OpCode)
    requires p + 4 + FieldsWidth(Layout(op)) <= |s| && Be32At(s, p) == OpCodeValue(op)
    ensures var r := Record(s, p + 4, InFields(op, Layout(op), []));
      r.Ok? ==> ShapeOf(s, p, r.value)
  {
    var q, args := FixedRead(s, p, op, Layout(op));
    FixedFieldsAt(s, p, op, q, args);
    ShapeFromFirstField(s, p, op, Layout(op), q, args);
  }

  /** What holds of the record once its fixed fields are read holds of it
      from the first fixed field on. */
  lemma {:induction false} ShapeFromFirstField(s: seq<u8>, start: nat, op: OpCode, fields: seq<Field>, q: nat, args: seq<Arg>)
    requires FixedShaped(s, start, q, op, args)
    requires Record(s, start + 4, InFields(op, fields, [])) == Record(s, q, InFields(op, [], args))
    ensures var r := Record(s, start + 4, InFields(op, fields, []));
      r.Ok? ==> ShapeOf(s, start, r.value)
  {
    FieldsDone(s, start, q, op, args);
  }

  /** The position after the fixed fields and the arguments they hold. */
  lemma {:induction false} FixedRead(s: seq<u8>, start: nat, op: OpCode, fields: seq<Field>) returns (q: nat, args: seq<Arg>)
    requires start + 4 + FieldsWidth(fields) <= |s|
    ensures q == start + 4 + FieldsWidth(fields) && args == ArgsOf(s, start + 4, fields)
    ensures Record(s, start + 4, InFields(op, fields, [])) == Record(s, q, InFields(op, [], args))
  {
    FromFirstField(s, start + 4, op, fields);
    q := start + 4 + FieldsWidth(fields);
    args := ArgsOf(s, start + 4, fields);
  }

  /** The fixed fields from the first on, with nothing read yet. */
  lemma {:induction false} FromFirstField(s: seq<u8>, p: nat, op: OpCode, fields: seq<Field>)
    requires p + FieldsWidth(fields) <= |s|
    ensures Record(s, p, InFields(op, fields, [])) == Record(s, p + FieldsWidth(fields), InFields(op, [], ArgsOf(s, p, fields)))
  {
    RecordFields(s, p, op, fields, []);
    var args := ArgsOf(s, p, fields);
    assert [] + args == args;
  }

  // ---------------------------------------------------------------------
  // Decoder and encoder together

  lemma {:induction false} ArgsBytesLength(args: seq<Arg>, order: ByteOrder)
    ensures |ArgsBytes(args, order)| == ArgsWidth(args)
  {
    if args != [] {
      ArgsBytesLength(args[..|args| - 1], order);
      var a := args[|args| - 1];
      assert |ArgBytes(a, order)| == Width(Tag(a));
    }
  }

  /** Re-encoding a decoded command big-endian gives back exactly the bytes
      it was decoded from if and only if it is verbatim; the other opcodes
      re-encode shorter, without their pad fields and sentinel. */
  lemma {:induction false} RecordRoundTrip(s: seq<u8>, p: nat)
    requires p <= |s| && Record(s, p, AtOpCode).Ok?
    ensures var d := Record(s, p, AtOpCode).value;
      && (Verbatim(d.cmd) <==> CommandBytes(d.cmd, BigEndian) == s[p..d.next])
      && (!Verbatim(d.cmd) ==> |CommandBytes(d.cmd, BigEndian)| < d.next - p)
  {
    var d := Record(s, p, AtOpCode).value;
    DecodedShape(s, p);
    ArgsBytesLength(d.cmd.args, BigEndian);
    Bytes32OfBe32At(s, p);
    if Verbatim(d.cmd) {
      assert s[p..d.next] == s[p..p + 4] + s[p + 4..d.next];
    }
  }

  /** The summed record sizes of a command list. */
  function Sizes(cmds: seq<Command>): nat {
    if cmds == [] then 0 else Sizes(cmds[..|cmds| - 1]) + RomSize(cmds[|cmds| - 1])
  }

  predicate AllVerbatim(cmds: seq<Command>) {
    forall i :: 0 <= i < |cmds| ==> Verbatim(cmds[i])
  }

  /** What the commands decoded so far say about the segment: they fill
      its first `Sizes(cmds)` bytes, each is well formed, and when all are
      verbatim their encoding is those bytes. */
  ghost predicate Covers(s: seq<u8>, cmds: seq<Command>) {
    && Sizes(cmds) <= |s|
    && (forall i :: 0 <= i < |cmds| ==> WellFormed(cmds[i]))
    && (AllVerbatim(cmds) ==> CommandsBytes(cmds, BigEndian) == s[..Sizes(cmds)])
  }

  lemma {:induction false} CoversNext(s: seq<u8>, cmds: seq<Command>, d: Decoded)
    requires Covers(s, cmds) && Record(s, Sizes(cmds), AtOpCode) == Ok(d)
    ensures Covers(s, cmds + [d.cmd]) && Sizes(cmds + [d.cmd]) == d.next
  {
    var p := Sizes(cmds);
    var more := cmds + [d.cmd];
    DecodedShape(s, p);
    assert more[..|cmds|] == cmds;
    assert Sizes(more) == d.next;
    assert forall i :: 0 <= i < |more| ==> WellFormed(more[i]) by {
      forall i | 0 <= i < |more| ensures WellFormed(more[i]) {
        if i < |cmds| {
          assert more[i] == cmds[i];
        }
      }
    }
    if AllVerbatim(more) {
      assert AllVerbatim(cmds) by {
        forall i | 0 <= i < |cmds| ensures Verbatim(cmds[i]) {
          assert more[i] == cmds[i];
        }
      }
      assert Verbatim(more[|cmds|]);
      RecordRoundTrip(s, p);
      VerbatimNext(s, cmds, d.cmd, p, d.next);
    }
  }

  lemma {:induction false} VerbatimNext(s: seq<u8>, cmds: seq<Command>, c: Command, p: nat, q: nat)
    requires p <= q <= |s|
    requires CommandsBytes(cmds, BigEndian) == s[..p] && CommandBytes(c, BigEndian) == s[p..q]
    ensures CommandsBytes(cmds + [c], BigEndian) == s[..q]
  {
    assert (cmds + [c])[..|cmds|] == cmds;
    assert s[..q] == s[..p] + s[p..q];
  }

  /** The loop's state at an iteration head: positioned right after the
      commands it holds. */
  ghost predicate Scanned(s: seq<u8>, st: LoopState) {
    st.pos == Sizes(st.cmds) && Covers(s, st.cmds)
  }

  /** One turn of the loop keeps the account and adds one command. */
  lemma {:induction false} TurnCovers(s: seq<u8>, st: LoopState, endOffset: nat)
    requires st.pos <= |s| && Scanned(s, st)
    ensures match Turn(s, st, endOffset)
      case Continues(next) => Scanned(s, next) && next.cmds == st.cmds + [next.cmds[|st.cmds|]]
      case Stopped(cmds) => Covers(s, cmds) && cmds == st.cmds + [cmds[|st.cmds|]]
      case Failed(_) => true
  {
    var r := Record(s, st.pos, AtOpCode);
    TurnOf(s, st, endOffset);
    if r.Ok? {
      CoversNext(s, st.cmds, r.value);
      assert (st.cmds + [r.value.cmd])[|st.cmds|] == r.value.cmd;
    }
  }

  /** What one turn of the loop appends, and where it leaves the cursor. */
  lemma {:induction false} TurnOf(s: seq<u8>, st: LoopState, endOffset: nat)
    requires st.pos <= |s|
    ensures Record(s, st.pos, AtOpCode).Err? ==> Turn(s, st, endOffset).Failed?
    ensures Record(s, st.pos, AtOpCode).Ok? ==>
      var d := Record(s, st.pos, AtOpCode).value;
      match Turn(s, st, endOffset)
      case Continues(next) => next.cmds == st.cmds + [d.cmd] && next.pos == d.next
      case Stopped(cmds) => cmds == st.cmds + [d.cmd]
      case Failed(_) => false
  {
  }

  /** The loop's exit test: a decoded command first adds its pending
      children (one per nonzero child offset, `childCount` for a Selector)
      and its advance to the counters; the loop stops only when the counter
      is then 0 and the rolling offset has reached `endOffset`, and
      otherwise spends one pending child. */
  lemma {:induction false} TurnCounts(s: seq<u8>, st: LoopState, endOffset: nat)
    requires st.pos <= |s| && Record(s, st.pos, AtOpCode).Ok?
    ensures var c := Record(s, st.pos, AtOpCode).value.cmd;
      var pending := Wrap32(st.pending + Pending(c));
      var rolling := st.rolling + Advance(c);
      && (Turn(s, st, endOffset).Stopped? <==> pending == 0 && rolling >= endOffset)
      && (Turn(s, st, endOffset).Continues? ==>
            && Turn(s, st, endOffset).next.rolling == rolling
            && Turn(s, st, endOffset).next.pending == (if pending > 0 then pending - 1 else 0))
  {
    DecodedShape(s, st.pos);
  }

  lemma {:induction false} WalkCovers(s: seq<u8>, st: LoopState, endOffset: nat)
    requires st.pos <= |s| && Scanned(s, st)
    ensures Walk(s, st, endOffset).Ok? ==>
      var cmds := Walk(s, st, endOffset).value;
      |st.cmds| < |cmds| && cmds[..|st.cmds|] == st.cmds && Covers(s, cmds)
    decreases |s| - st.pos
  {
    TurnCovers(s, st, endOffset);
    match Turn(s, st, endOffset)
    case Failed(_) =>
    case Stopped(cmds) =>
    case Continues(next) =>
      WalkCovers(s, next, endOffset);
      var all := Walk(s, next, endOffset);
      if all.Ok? {
        assert all.value[..|st.cmds|] == all.value[..|next.cmds|][..|st.cmds|];
      }
  }

  /** What a successful decode promises: at least one command, every
      command well formed, the records back to back from byte 0, and, when
      every command is verbatim, the big-endian encoding of the commands is
      exactly the segment's prefix they were decoded from. */
  lemma {:induction false} ParseCovers(segment: seq<u8>, offset: nat, endOffset: nat)
    ensures ParseSpec(segment, offset, endOffset).Ok? ==>
      var cmds := ParseSpec(segment, offset, endOffset).value.cmds;
      && 1 <= |cmds|
      && (forall i :: 0 <= i < |cmds| ==> WellFormed(cmds[i]))
      && Sizes(cmds) <= |segment|
      && (AllVerbatim(cmds) ==> CommandsBytes(cmds, BigEndian) == segment[..Sizes(cmds)])
  {
    WalkCovers(segment, Start(offset), endOffset);
  }

  /** Exporting what was decoded, when every command is verbatim, writes
      the header, the size of the decoded prefix and that prefix itself. */
  lemma {:induction false} ExportOfParse(segment: seq<u8>, offset: nat, endOffset: nat, header: seq<u8>)
    requires ParseSpec(segment, offset, endOffset).Ok?
    requires AllVerbatim(ParseSpec(segment, offset, endOffset).value.cmds)
    ensures var geo := ParseSpec(segment, offset, endOffset).value;
      var n := Sizes(geo.cmds);
      n <= |segment| && Blob(header, CommandsBytes(geo.cmds, BigEndian), BigEndian)
        == header + Bytes32(Wrap32(n), BigEndian) + segment[..n]
  {
    ParseCovers(segment, offset, endOffset);
  }

  /** A segment whose first word is not an opcode is refused with that word. */
  lemma {:induction false} ParseUnknownOpCode(segment: seq<u8>, offset: nat, endOffset: nat)
    requires 4 <= |segment| && OpCodeOf(Be32At(segment, 0)).None?
    ensures ParseSpec(segment, offset, endOffset) == Err(UnknownOpCode(Be32At(segment, 0)))
  {
    assert Record(segment, 0, AtOpCode) == Err(UnknownOpCode(Be32At(segment, 0)));
  }

  /** Every opcode value decodes to its opcode, and only the ten assigned
      values decode at all. */
  lemma {:induction false} OpCodeNumbering(v: u32)
    ensures forall op :: OpCodeOf(OpCodeValue(op)) == Some(op)
    ensures OpCodeOf(v).Some? <==> v in {1, 2, 3, 5, 6, 8, 10, 12, 13, 14}
  {
  }

  /** An argument written big-endian reads back as itself at its tag. */
  lemma {:induction false} ArgRoundTrip(a: Arg)
    ensures Width(Tag(a)) == |ArgBytes(a, BigEndian)|
    ensures ArgAt(ArgBytes(a, BigEndian), 0, Tag(a)) == a
  {
    TwosComplementRoundTrip();
    var b := ArgBytes(a, BigEndian);
    match a
    case ArgU8(_) =>
    case ArgS8(_) =>
    case ArgU16(x) => Be16OfBytes16(x, b, 0);
    case ArgS16(x) => Be16OfBytes16(I16Bits(x), b, 0);
    case ArgU32(x) => Be32OfBytes32(x, b, 0);
    case ArgS32(x) => Be32OfBytes32(I32Bits(x), b, 0);
    case ArgFloat(x) => Be32OfBytes32(x, b, 0);
  }

  /** The exported blob's size word is the body's length. */
  lemma {:induction false} BlobSize(header: seq<u8>, body: seq<u8>, order: ByteOrder)
    requires |body| < 0x1_0000_0000
    ensures var b := Blob(header, body, order);
      |b| == |header| + 4 + |body| && Value32(b[|header|..|header| + 4], order) == |body|
      && b[|header| + 4..] == body
  {
    var b := Blob(header, body, order);
    assert b[|header|..|header| + 4] == Bytes32(|body|, order);
    Value32OfBytes32(|body|, order);
  }
}
