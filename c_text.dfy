/** The C source the BK64 text exporters write: a `u8` array whose body
    is a list of lines, each line a run of initializer elements.

    `CharItem` renders one byte of a string the way the exporters write it:
    a control character as `, 0x` and two uppercase hexadecimal digits, a
    quote as `, '\''`, and anything else as `, 'c'`. `char` is signed on the
    targets the exporters are built for, so a byte of 0x80 or above also
    counts as below `' '`; its `(uint32_t)` conversion sign-extends and
    prints eight digits, `FFFFFFxx`, which the `u8` initializer narrows back
    to `xx`.

    `Compile` is what a C compiler makes of the array body: the bytes its
    elements stand for. It is the partner every code exporter is proved
    against. The rendering as written leaves a backslash unescaped, so
    `'\'` opens an escape sequence and the element is not a character
    constant (`BackslashUnreadable`); `EscapedCharItem` escapes the
    backslash too, and every list it renders reads back
    (`ReadEscapedList`). */
module CText {
  import opened Results
  import opened Bytes

  /** The exporters' `fourSpaceTab`. */
  const Tab: string := "    "

  /** The value of a byte read as a signed `char`. */
  function SignedChar(c: u8): (r: int)
    ensures -0x80 <= r < 0x80 && (r - c) % 0x100 == 0
  {
    if c < 0x80 then c else c - 0x100
  }

  /** `(uint32_t)c` for a signed `char`: sign extension to 32 bits. */
  function WidenedChar(c: u8): (r: u32)
    ensures r % 0x100 == c
    ensures r < 0x20 <==> SignedChar(c) < 0x20 && c < 0x80
  {
    if c < 0x80 then c else 0xFFFF_FF00 + c
  }

  /** `, 0x` and a number in uppercase hexadecimal, at least two digits. */
  function HexElement(n: nat): string {
    ", 0x" + HexUpper(n, 2)
  }

  /** `, ` and a number in decimal. */
  function DecimalElement(n: nat): string {
    ", " + Decimal(n)
  }

  /** One byte of a string, as the text exporters write it. */
  function CharItem(c: u8): string {
    if SignedChar(c) < 0x20 then HexElement(WidenedChar(c))
    else if c == 0x27 then ", '\\''"
    else ", '" + [c as char] + "'"
  }

  /** `CharItem` with the backslash escaped as well. */
  function EscapedCharItem(c: u8): string {
    if c == 0x5C then ", '\\\\'" else CharItem(c)
  }

  /** The exporters' inner loop over the bytes of a string. */
  function CharList(s: seq<u8>): string {
    if s == [] then "" else CharList(s[..|s| - 1]) + CharItem(s[|s| - 1])
  }

  function EscapedCharList(s: seq<u8>): string {
    if s == [] then "" else EscapedCharList(s[..|s| - 1]) + EscapedCharItem(s[|s| - 1])
  }

  /** How a string's bytes are rendered: as the exporters write them, or
      corrected, with the backslash escaped too. */
  datatype Rendering = AsWritten | Escaped

  function Rendered(r: Rendering, s: seq<u8>): string {
    match r
    case AsWritten => CharList(s)
    case Escaped => EscapedCharList(s)
  }

  /** The rendering reads back: the corrected one always, the one as
      written when the string holds no backslash. */
  predicate Readable(r: Rendering, s: seq<u8>) {
    r == Escaped || 0x5C !in s
  }

  /** Lines written one after the other. */
  function Join(lines: seq<string>): string {
    if lines == [] then "" else Join(lines[..|lines| - 1]) + lines[|lines| - 1]
  }

  lemma {:induction false} CharListSnoc(s: seq<u8>, i: nat)
    requires i < |s|
    ensures CharList(s[..i + 1]) == CharList(s[..i]) + CharItem(s[i])
  {
    assert s[..i + 1][..i] == s[..i];
  }

  /** The body of the exporters' loop: one byte's element. */
  method WriteChar(c: u8) returns (item: string)
    ensures item == CharItem(c)
  {
    if SignedChar(c) < 0x20 {
      item := ", 0x" + HexUpper(WidenedChar(c), 2);
    } else if c == 0x27 {
      item := ", '\\''";
    } else {
      item := ", '" + [c as char] + "'";
    }
  }

  /** The exporters' loop over the bytes of a string, appending each
      byte's element to `prefix` as written: a backslash goes out bare. */
  method WriteChars(prefix: string, s: seq<u8>) returns (text: string)
    ensures text == prefix + CharList(s)
  {
    text := prefix;
    var i := 0;
    while i < |s|
      invariant 0 <= i <= |s|
      invariant text == prefix + CharList(s[..i])
    {
      var item := WriteChar(s[i]);
      CharListSnoc(s, i);
      Associative(prefix, CharList(s[..i]), item);
      text := text + item;
      i := i + 1;
    }
    assert s[..|s|] == s;
  }

  lemma {:induction false} JoinSnoc(lines: seq<string>, line: string)
    ensures Join(lines + [line]) == Join(lines) + line
  {
    assert (lines + [line])[..|lines|] == lines;
  }

  lemma {:induction false} JoinOne(line: string)
    ensures Join([line]) == line
  {
    JoinSnoc([], line);
    assert [] + [line] == [line];
  }

  lemma {:induction false} JoinPair(a: string, b: string)
    ensures Join([a, b]) == a + b
  {
    JoinSnoc([a], b);
    JoinOne(a);
    assert [a] + [b] == [a, b];
  }

  /** Writing the next line of a run. */
  lemma {:induction false} JoinStep(lines: seq<string>, i: nat)
    requires i < |lines|
    ensures Join(lines[..i + 1]) == Join(lines[..i]) + lines[i]
  {
    assert lines[..i + 1][..i] == lines[..i];
  }

  /** Writing the next line of a run, after a head of other lines. */
  lemma {:induction false} JoinPrefixStep(head: seq<string>, lines: seq<string>, i: nat)
    requires i < |lines|
    ensures Join(head + lines[..i + 1]) == Join(head + lines[..i]) + lines[i]
  {
    assert head + lines[..i + 1] == (head + lines[..i]) + [lines[i]];
    JoinSnoc(head + lines[..i], lines[i]);
  }

  /** A body made of three parts, between an opening and a closing text. */
  lemma {:induction false} Enclose(open: string, body: string, a: string, b: string, c: string, close: string)
    requires body == a + b + c
    ensures open + body + close == open + a + b + c + close
  {
  }

  /** Writing two runs of lines one after the other. */
  lemma {:induction false} JoinAppend(a: seq<string>, b: seq<string>)
    ensures Join(a + b) == Join(a) + Join(b)
    decreases |b|
  {
    if b == [] {
      assert a + b == a;
    } else {
      var init, last := b[..|b| - 1], b[|b| - 1];
      assert a + b == (a + init) + [last];
      JoinSnoc(a + init, last);
      JoinAppend(a, init);
      Associative(Join(a), Join(init), last);
    }
  }

  /** Two lines, then a run of lines. */
  lemma {:induction false} JoinTwoThen(a: string, b: string, rest: seq<string>)
    ensures Join([a, b] + rest) == a + b + Join(rest)
  {
    JoinAppend([a, b], rest);
    JoinPair(a, b);
  }

  /** One line, then two runs of lines. */
  lemma {:induction false} JoinLineThen(line: string, a: seq<string>, b: seq<string>)
    ensures Join([line] + a + b) == line + Join(a) + Join(b)
  {
    JoinAppend([line] + a, b);
    JoinAppend([line], a);
    JoinOne(line);
  }

  /** Writing four runs of lines, grouped as two pairs. */
  lemma {:induction false} JoinFour(a: seq<string>, b: seq<string>, c: seq<string>, d: seq<string>)
    ensures Join(a + b + (c + d)) == Join(a) + Join(b) + Join(c) + Join(d)
  {
    JoinAppend(a + b, c + d);
    JoinAppend(a, b);
    JoinAppend(c, d);
  }

  // ---------------------------------------------------------------------
  // What a C compiler reads

  predicate IsDigit(c: char) {
    '0' <= c <= '9'
  }

  predicate IsNameStart(c: char) {
    'A' <= c <= 'Z' || 'a' <= c <= 'z' || c == '_'
  }

  predicate IsNameChar(c: char) {
    IsNameStart(c) || IsDigit(c)
  }

  /** How many hexadecimal digits `t` starts with. */
  function HexRun(t: string): (k: nat)
    ensures k <= |t|
    ensures forall i :: 0 <= i < k ==> HexValue(t[i]).Some?
    ensures k < |t| ==> HexValue(t[k]).None?
  {
    if t == [] || HexValue(t[0]).None? then 0 else 1 + HexRun(t[1..])
  }

  /** How many decimal digits `t` starts with. */
  function DigitRun(t: string): (k: nat)
    ensures k <= |t|
    ensures forall i :: 0 <= i < k ==> IsDigit(t[i])
    ensures k < |t| ==> !IsDigit(t[k])
  {
    if t == [] || !IsDigit(t[0]) then 0 else 1 + DigitRun(t[1..])
  }

  /** How many identifier characters `t` starts with. */
  function NameRun(t: string): (k: nat)
    ensures k <= |t|
    ensures forall i :: 0 <= i < k ==> IsNameChar(t[i])
    ensures k < |t| ==> !IsNameChar(t[k])
  {
    if t == [] || !IsNameChar(t[0]) then 0 else 1 + NameRun(t[1..])
  }

  /** One element of a `u8` initializer list: a hexadecimal or decimal
      constant narrowed to a byte, a macro from `defines`, an escaped quote
      or backslash, or a plain character. Returns the byte and the text
      after the element. */
  function ReadItem(t: string, defines: map<string, u8>): (r: Option<(u8, string)>)
    ensures r.Some? ==> |r.value.1| < |t| && r.value.1 == t[|t| - |r.value.1|..]
  {
    if |t| < 3 || t[0] != ',' || t[1] != ' ' then None
    else if |t| >= 4 && t[2] == '0' && t[3] == 'x' then
      var k := HexRun(t[4..]);
      if k == 0 then None
      else
        match ParseHex(t[4..4 + k])
        case Some(v) => Some((v % 0x100, t[4 + k..]))
        case None => None
    else if IsDigit(t[2]) then
      var k := DigitRun(t[2..]);
      if t[2] == '0' && k > 1 then None   // an octal constant: none is written
      else
        match ParseDecimal(t[2..2 + k])
        case Some(v) => Some((v % 0x100, t[2 + k..]))
        case None => None
    else if IsNameStart(t[2]) then
      var k := NameRun(t[2..]);
      if t[2..2 + k] in defines then Some((defines[t[2..2 + k]], t[2 + k..])) else None
    else if |t| < 5 || t[2] != '\'' then None
    else if t[3] == '\\' then
      if |t| >= 6 && (t[4] == '\'' || t[4] == '\\') && t[5] == '\'' then Some((t[4] as int, t[6..]))
      else None
    else if t[3] != '\'' && t[4] == '\'' && t[3] as int < 0x100 then Some((t[3] as int, t[5..]))
    else None
  }

  /** The bytes a run of elements stands for, if every element is well formed. */
  function ReadItems(t: string, defines: map<string, u8>): Option<seq<u8>>
    decreases |t|
  {
    if t == [] then Some([])
    else
      match ReadItem(t, defines)
      case None => None
      case Some((c, rest)) =>
        match ReadItems(rest, defines)
        case None => None
        case Some(cs) => Some([c] + cs)
  }

  /** The bytes one line of an array body contributes: none for a comment
      line, its elements for an indented line of elements ending in `,`. */
  function CompileLine(line: string, defines: map<string, u8>): Option<seq<u8>> {
    if |line| < 6 || line[..4] != Tab then None
    else if line[4] == '/' && line[5] == '*' then Some([])
    else if line[|line| - 2..] == ",\n" then ReadItems(", " + line[4..|line| - 2], defines)
    else None
  }

  /** The bytes of an array body. */
  function Compile(lines: seq<string>, defines: map<string, u8>): Option<seq<u8>> {
    if lines == [] then Some([])
    else
      match (CompileLine(lines[0], defines), Compile(lines[1..], defines))
      case (Some(a), Some(b)) => Some(a + b)
      case _ => None
  }

  /** What can follow an element: the end of the line's elements, or the next element. */
  predicate Delimited(rest: string) {
    rest == [] || rest[0] == ','
  }

  // ---------------------------------------------------------------------
  // Reading back what the exporters write

  lemma {:induction false} Associative(a: string, b: string, c: string)
    ensures (a + b) + c == a + (b + c)
  {
  }

  lemma {:induction false} SplitLast(s: seq<u8>, tail: seq<u8>)
    requires s != []
    ensures s[..|s| - 1] + ([s[|s| - 1]] + tail) == s + tail
  {
  }

  lemma {:induction false} HexRunOf(h: string, rest: string)
    requires forall i :: 0 <= i < |h| ==> HexValue(h[i]).Some?
    requires Delimited(rest)
    ensures HexRun(h + rest) == |h|
  {
    if h != [] {
      assert (h + rest)[1..] == h[1..] + rest;
      HexRunOf(h[1..], rest);
    } else {
      assert h + rest == rest;
    }
  }

  lemma {:induction false} DigitRunOf(d: string, rest: string)
    requires forall i :: 0 <= i < |d| ==> IsDigit(d[i])
    requires Delimited(rest)
    ensures DigitRun(d + rest) == |d|
  {
    if d != [] {
      assert (d + rest)[1..] == d[1..] + rest;
      DigitRunOf(d[1..], rest);
    } else {
      assert d + rest == rest;
    }
  }

  lemma {:induction false} NameRunOf(name: string, rest: string)
    requires forall i :: 0 <= i < |name| ==> IsNameChar(name[i])
    requires Delimited(rest)
    ensures NameRun(name + rest) == |name|
  {
    if name != [] {
      assert (name + rest)[1..] == name[1..] + rest;
      NameRunOf(name[1..], rest);
    } else {
      assert name + rest == rest;
    }
  }

  lemma {:induction false} ZeroPadDigits(s: string, w: nat)
    requires forall i :: 0 <= i < |s| ==> HexValue(s[i]).Some?
    ensures forall i :: 0 <= i < |ZeroPad(s, w)| ==> HexValue(ZeroPad(s, w)[i]).Some?
  {
    var r := ZeroPad(s, w);
    forall i | 0 <= i < |r|
      ensures HexValue(r[i]).Some?
    {
      if i >= |r| - |s| {
        assert r[i] == r[|r| - |s|..][i - (|r| - |s|)];
      }
    }
  }

  /** Only zero is written with a leading zero digit. */
  lemma {:induction false} DecimalLeading(n: nat)
    ensures Decimal(n)[0] == '0' ==> n == 0
    decreases n
  {
    if n >= 10 {
      DecimalLeading(n / 10);
    }
  }

  /** `, 0x` and a run of hexadecimal digits read as their value narrowed to a byte. */
  lemma {:induction false} ReadHexDigits(h: string, v: nat, rest: string, defines: map<string, u8>)
    requires h != [] && forall i :: 0 <= i < |h| ==> HexValue(h[i]).Some?
    requires ParseHex(h) == Some(v)
    requires Delimited(rest)
    ensures ReadItem(", 0x" + h + rest, defines) == Some((v % 0x100, rest))
  {
    var t := ", 0x" + h + rest;
    assert t[4..] == h + rest;
    HexRunOf(h, rest);
    assert t[4..4 + |h|] == h;
    assert t[4 + |h|..] == rest;
  }

  /** A hexadecimal element reads as its value narrowed to a byte. */
  lemma {:induction false} ReadHexElement(n: nat, rest: string, defines: map<string, u8>)
    requires Delimited(rest)
    ensures ReadItem(HexElement(n) + rest, defines) == Some((n % 0x100, rest))
  {
    var h := HexUpper(n, 2);
    ZeroPadDigits(Hex(n, true), 2);
    ParseHexOfHexUpper(n, 2);
    ReadHexDigits(h, n, rest, defines);
  }

  /** A decimal element reads as its value narrowed to a byte. */
  lemma {:induction false} ReadDecimalElement(n: nat, rest: string, defines: map<string, u8>)
    requires Delimited(rest)
    ensures ReadItem(DecimalElement(n) + rest, defines) == Some((n % 0x100, rest))
  {
    var d := Decimal(n);
    DecimalLeading(n);
    ParseDecimalOfDecimal(n);
    var t := DecimalElement(n) + rest;
    assert t == ", " + (d + rest);
    assert t[2..] == d + rest;
    assert t[2] == d[0];
    assert |d| > 1 ==> t[3] == d[1];
    assert |d| == 1 ==> |t| == 3 || t[3] == ',';
    DigitRunOf(d, rest);
    assert t[2..2 + |d|] == d;
    assert t[2 + |d|..] == rest;
  }

  /** A macro element reads as the macro's value. */
  lemma {:induction false} ReadNameElement(name: string, rest: string, defines: map<string, u8>)
    requires name != [] && IsNameStart(name[0])
    requires forall i :: 0 <= i < |name| ==> IsNameChar(name[i])
    requires name in defines
    requires Delimited(rest)
    ensures ReadItem(", " + name + rest, defines) == Some((defines[name], rest))
  {
    var t := ", " + name + rest;
    assert t[2..] == name + rest;
    assert t[2] == name[0];
    NameRunOf(name, rest);
    assert t[2..2 + |name|] == name;
    assert t[2 + |name|..] == rest;
  }

  /** Every byte but the backslash renders as an element that reads back. */
  lemma {:induction false} ReadCharItem(c: u8, rest: string, defines: map<string, u8>)
    requires c != 0x5C
    requires Delimited(rest)
    ensures ReadItem(CharItem(c) + rest, defines) == Some((c, rest))
  {
    if SignedChar(c) < 0x20 {
      ReadHexElement(WidenedChar(c), rest, defines);
    } else if c == 0x27 {
      var t := CharItem(c) + rest;
      assert t[..6] == ", '\\''";
      assert t[6..] == rest;
    } else {
      var t := CharItem(c) + rest;
      assert t[..5] == ", '" + [c as char] + "'";
      assert t[5..] == rest;
    }
  }

  lemma {:induction false} ReadEscapedItem(c: u8, rest: string, defines: map<string, u8>)
    requires Delimited(rest)
    ensures ReadItem(EscapedCharItem(c) + rest, defines) == Some((c, rest))
  {
    if c == 0x5C {
      var t := EscapedCharItem(c) + rest;
      assert t[..6] == ", '\\\\'";
      assert t[6..] == rest;
    } else {
      ReadCharItem(c, rest, defines);
    }
  }

  /** One element in front of a run of elements. */
  lemma {:induction false} ReadItemsCons(item: string, c: u8, rest: string, tail: seq<u8>, defines: map<string, u8>)
    requires ReadItem(item + rest, defines) == Some((c, rest))
    requires ReadItems(rest, defines) == Some(tail)
    ensures ReadItems(item + rest, defines) == Some([c] + tail)
  {
  }

  lemma {:induction false} CharListDelimited(s: seq<u8>)
    ensures Delimited(CharList(s)) && Delimited(EscapedCharList(s))
  {
    if s != [] {
      var init := s[..|s| - 1];
      CharListDelimited(init);
      assert CharItem(s[|s| - 1])[0] == ',';
      assert EscapedCharItem(s[|s| - 1])[0] == ',';
    }
  }

  /** The list as written reads back whenever the string has no backslash. */
  lemma {:induction false} ReadCharList(s: seq<u8>, defines: map<string, u8>)
    requires 0x5C !in s
    ensures ReadItems(CharList(s), defines) == Some(s)
  {
    ReadCharListFront(s, "", [], defines);
    assert CharList(s) + "" == CharList(s);
    assert s + [] == s;
  }

  /** Reading a list runs on into whatever follows it. */
  lemma {:induction false} ReadCharListFront(s: seq<u8>, rest: string, tail: seq<u8>, defines: map<string, u8>)
    requires 0x5C !in s
    requires Delimited(rest)
    requires ReadItems(rest, defines) == Some(tail)
    ensures ReadItems(CharList(s) + rest, defines) == Some(s + tail)
    decreases |s|
  {
    if s == [] {
      assert CharList(s) + rest == rest;
      assert s + tail == tail;
    } else {
      var init, last := s[..|s| - 1], s[|s| - 1];
      var next := CharItem(last) + rest;
      ReadCharItem(last, rest, defines);
      ReadItemsCons(CharItem(last), last, rest, tail, defines);
      assert next[0] == ',';
      ReadCharListFront(init, next, [last] + tail, defines);
      assert CharList(s) == CharList(init) + CharItem(last);
      Associative(CharList(init), CharItem(last), rest);
      SplitLast(s, tail);
    }
  }

  /** The escaped list reads back, whatever the string holds. */
  lemma {:induction false} ReadEscapedList(s: seq<u8>, defines: map<string, u8>)
    ensures ReadItems(EscapedCharList(s), defines) == Some(s)
  {
    ReadEscapedListFront(s, "", [], defines);
    assert EscapedCharList(s) + "" == EscapedCharList(s);
    assert s + [] == s;
  }

  /** Either rendering reads back when it is readable. */
  lemma {:induction false} ReadRendered(r: Rendering, s: seq<u8>, defines: map<string, u8>)
    requires Readable(r, s)
    ensures Delimited(Rendered(r, s))
    ensures ReadItems(Rendered(r, s), defines) == Some(s)
  {
    CharListDelimited(s);
    match r
    case AsWritten => ReadCharList(s, defines);
    case Escaped => ReadEscapedList(s, defines);
  }

  lemma {:induction false} ReadEscapedListFront(s: seq<u8>, rest: string, tail: seq<u8>, defines: map<string, u8>)
    requires Delimited(rest)
    requires ReadItems(rest, defines) == Some(tail)
    ensures ReadItems(EscapedCharList(s) + rest, defines) == Some(s + tail)
    decreases |s|
  {
    if s == [] {
      assert EscapedCharList(s) + rest == rest;
      assert s + tail == tail;
    } else {
      var init, last := s[..|s| - 1], s[|s| - 1];
      var next := EscapedCharItem(last) + rest;
      ReadEscapedItem(last, rest, defines);
      ReadItemsCons(EscapedCharItem(last), last, rest, tail, defines);
      assert next[0] == ',';
      ReadEscapedListFront(init, next, [last] + tail, defines);
      assert EscapedCharList(s) == EscapedCharList(init) + EscapedCharItem(last);
      Associative(EscapedCharList(init), EscapedCharItem(last), rest);
      SplitLast(s, tail);
    }
  }

  /** A string holding one backslash renders as `, '\'`, which is not a
      complete element: the list as written does not read back. */
  lemma {:induction false} BackslashUnreadable(defines: map<string, u8>)
    ensures CharList([0x5C]) == ", '\\'"
    ensures ReadItems(CharList([0x5C]), defines) == None
  {
    assert [0x5C][..0] == [];
    var t := CharList([0x5C]);
    assert t == ", '\\'";
    assert |t| == 5 && t[2] == '\'' && t[3] == '\\';
    assert ReadItem(t, defines) == None;
  }

  // ---------------------------------------------------------------------
  // Lines

  /** An indented line of elements ending in `,` contributes its elements. */
  lemma {:induction false} CompileElementLine(body: string, defines: map<string, u8>)
    requires body != [] && body[0] != '/'
    ensures CompileLine(Tab + body + ",\n", defines) == ReadItems(", " + body, defines)
  {
    var line := Tab + body + ",\n";
    assert line[..4] == Tab;
    assert line[4] == body[0];
    assert line[|line| - 2..] == ",\n";
    assert line[4..|line| - 2] == body;
  }

  /** A line of elements that starts with a hexadecimal constant, as the
      entry lines are written. */
  lemma {:induction false} CompileHexLine(n: nat, more: string, line: string, defines: map<string, u8>)
    requires Delimited(more) && line == Tab + "0x" + HexUpper(n, 2) + more + ",\n"
    ensures CompileLine(line, defines) ==
      match ReadItems(more, defines)
      case Some(t) => Some([n % 0x100] + t)
      case None => None
  {
    var h := HexUpper(n, 2);
    HexLineBody(h, more);
    CompileElementLine("0x" + h + more, defines);
    ReadHexElement(n, more, defines);
    ReadItemsFront(HexElement(n), n % 0x100, more, defines);
  }

  /** The same, for a caller that knows what the rest reads as and which
      bytes the whole line stands for. */
  lemma {:induction false} CompileItemsLine(n: nat, more: string, line: string, items: seq<u8>, bytes: seq<u8>,
                                            defines: map<string, u8>)
    requires Delimited(more) && line == Tab + "0x" + HexUpper(n, 2) + more + ",\n"
    requires ReadItems(more, defines) == Some(items) && [n % 0x100] + items == bytes
    ensures CompileLine(line, defines) == Some(bytes)
  {
    CompileHexLine(n, more, line, defines);
  }

  lemma {:induction false} HexLineBody(h: string, more: string)
    ensures Tab + "0x" + h + more + ",\n" == Tab + ("0x" + h + more) + ",\n"
    ensures ("0x" + h + more)[0] == '0'
    ensures ", " + ("0x" + h + more) == ", 0x" + h + more
  {
  }

  /** A byte's hexadecimal element in front of a run that reads. */
  lemma {:induction false} ReadHexFront(n: u8, rest: string, tail: seq<u8>, defines: map<string, u8>)
    requires Delimited(rest) && ReadItems(rest, defines) == Some(tail)
    ensures Delimited(HexElement(n) + rest)
    ensures ReadItems(HexElement(n) + rest, defines) == Some([n] + tail)
  {
    ReadHexElement(n, rest, defines);
    LowByte(n as nat);
    ReadItemsCons(HexElement(n), n, rest, tail, defines);
    assert (HexElement(n) + rest)[0] == ',';
  }

  /** A decimal element in front of a run that reads. */
  lemma {:induction false} ReadDecimalFront(n: nat, rest: string, tail: seq<u8>, defines: map<string, u8>)
    requires Delimited(rest) && ReadItems(rest, defines) == Some(tail)
    ensures Delimited(DecimalElement(n) + rest)
    ensures ReadItems(DecimalElement(n) + rest, defines) == Some([n % 0x100] + tail)
  {
    ReadDecimalElement(n, rest, defines);
    ReadItemsCons(DecimalElement(n), n % 0x100, rest, tail, defines);
    assert (DecimalElement(n) + rest)[0] == ',';
  }

  /** One element in front of a run that may or may not read. */
  lemma {:induction false} ReadItemsFront(item: string, c: u8, rest: string, defines: map<string, u8>)
    requires ReadItem(item + rest, defines) == Some((c, rest))
    ensures ReadItems(item + rest, defines) ==
      match ReadItems(rest, defines)
      case Some(t) => Some([c] + t)
      case None => None
  {
  }

  /** An identifier `ReadItem` looks up as a macro. */
  predicate IsName(name: string) {
    name != [] && IsNameStart(name[0]) && forall i :: 0 <= i < |name| ==> IsNameChar(name[i])
  }

  /** Each name preceded by `, `, as the header macros follow the first one. */
  function NameElements(names: seq<string>): string {
    if names == [] then "" else ", " + names[0] + NameElements(names[1..])
  }

  /** The values the macros of a run of names are defined with. */
  function Values(names: seq<string>, defines: map<string, u8>): (r: seq<u8>)
    requires forall i :: 0 <= i < |names| ==> names[i] in defines
    ensures |r| == |names| && forall i :: 0 <= i < |names| ==> r[i] == defines[names[i]]
  {
    if names == [] then [] else [defines[names[0]]] + Values(names[1..], defines)
  }

  lemma {:induction false} ReadNameElements(names: seq<string>, defines: map<string, u8>)
    requires forall i :: 0 <= i < |names| ==> IsName(names[i]) && names[i] in defines
    ensures ReadItems(NameElements(names), defines) == Some(Values(names, defines))
    decreases |names|
  {
    if names != [] {
      var more := NameElements(names[1..]);
      assert forall i :: 1 <= i < |names| ==> names[1..][i - 1] == names[i];
      ReadNameElements(names[1..], defines);
      if names[1..] != [] {
        assert more[0] == ',';
      }
      ReadNameElement(names[0], more, defines);
      ReadItemsCons(", " + names[0], defines[names[0]], more, Values(names[1..], defines), defines);
    }
  }

  /** A line of macro names, as the header lines are written. */
  lemma {:induction false} CompileNameLine(first: string, names: seq<string>, defines: map<string, u8>)
    requires IsName(first) && first in defines
    requires forall i :: 0 <= i < |names| ==> IsName(names[i]) && names[i] in defines
    ensures CompileLine(Tab + first + NameElements(names) + ",\n", defines) == Some([defines[first]] + Values(names, defines))
  {
    var more := NameElements(names);
    if names != [] {
      assert more[0] == ',';
    }
    NameLineBody(first, more);
    CompileElementLine(first + more, defines);
    ReadNameElement(first, more, defines);
    ReadNameElements(names, defines);
    ReadItemsFront(", " + first, defines[first], more, defines);
  }

  lemma {:induction false} NameLineBody(first: string, more: string)
    requires first != []
    ensures Tab + first + more + ",\n" == Tab + (first + more) + ",\n"
    ensures (first + more)[0] == first[0]
    ensures ", " + (first + more) == ", " + first + more
  {
  }

  /** An indented comment line contributes nothing. */
  lemma {:induction false} CompileCommentLine(comment: string, defines: map<string, u8>)
    requires |comment| >= 2 && comment[..2] == "/*"
    ensures CompileLine(Tab + comment + "\n", defines) == Some([])
  {
    var line := Tab + comment + "\n";
    assert line[..4] == Tab;
    assert line[4] == comment[0] && line[5] == comment[1];
  }

  /** A line holding one decimal number, as the count lines are written. */
  lemma {:induction false} CompileCountLine(n: nat, defines: map<string, u8>)
    ensures CompileLine(Tab + Decimal(n) + ",\n", defines) == Some([n % 0x100])
  {
    CompileElementLine(Decimal(n), defines);
    ReadDecimalElement(n, "", defines);
    assert DecimalElement(n) + "" == ", " + Decimal(n);
    assert ReadItems("", defines) == Some([]);
    ReadItemsCons(DecimalElement(n), n % 0x100, "", [], defines);
    assert [n % 0x100] + [] == [n % 0x100];
  }

  /** A comment line followed by a count line. */
  lemma {:induction false} CompileCommentAndCount(title: string, n: nat, defines: map<string, u8>)
    requires |title| >= 2 && title[..2] == "/*"
    ensures Compile([Tab + title + "\n", Tab + Decimal(n) + ",\n"], defines) == Some([n % 0x100])
  {
    var comment, count := Tab + title + "\n", Tab + Decimal(n) + ",\n";
    CompileCommentLine(title, defines);
    CompileCountLine(n, defines);
    CompileOne(comment, defines);
    CompileOne(count, defines);
    CompileAppend([comment], [count], defines);
    assert [comment] + [count] == [comment, count];
    assert ([] + []) + ([n % 0x100] + []) == [n % 0x100];
  }

  /** Byte runs one after the other. */
  function Concat(parts: seq<seq<u8>>): seq<u8> {
    if parts == [] then [] else parts[0] + Concat(parts[1..])
  }

  /** Lines that each compile compile to their bytes one after the other. */
  lemma {:induction false} CompileEach(lines: seq<string>, parts: seq<seq<u8>>, defines: map<string, u8>)
    requires |lines| == |parts|
    requires forall i :: 0 <= i < |lines| ==> CompileLine(lines[i], defines) == Some(parts[i])
    ensures Compile(lines, defines) == Some(Concat(parts))
    decreases |lines|
  {
    if lines != [] {
      assert forall i :: 1 <= i < |lines| ==> lines[1..][i - 1] == lines[i] && parts[1..][i - 1] == parts[i];
      CompileEach(lines[1..], parts[1..], defines);
    }
  }

  /** A header line, a comment line and a count line: the header's bytes
      and the count's low byte. */
  lemma {:induction false} CompileHeadLines(header: string, headerBytes: seq<u8>, title: string, n: nat,
                                            defines: map<string, u8>)
    requires CompileLine(header, defines) == Some(headerBytes)
    requires |title| >= 2 && title[..2] == "/*"
    ensures Compile([header, Tab + title + "\n", Tab + Decimal(n) + ",\n"], defines) == Some(headerBytes + [n % 0x100])
  {
    var rest := [Tab + title + "\n", Tab + Decimal(n) + ",\n"];
    CompileOne(header, defines);
    CompileCommentAndCount(title, n, defines);
    assert [header, Tab + title + "\n", Tab + Decimal(n) + ",\n"] == [header] + rest;
    CompileAppend([header], rest, defines);
    assert (headerBytes + []) + [n % 0x100] == headerBytes + [n % 0x100];
  }

  lemma {:induction false} CompileOne(line: string, defines: map<string, u8>)
    ensures Compile([line], defines) == match CompileLine(line, defines) case Some(a) => Some(a + []) case None => None
  {
    assert [line][1..] == [];
  }

  /** Three runs of lines that each compile, one after the other. */
  lemma {:induction false} CompileThree(a: seq<string>, b: seq<string>, c: seq<string>,
                                        x: seq<u8>, y: seq<u8>, z: seq<u8>, defines: map<string, u8>)
    requires Compile(a, defines) == Some(x) && Compile(b, defines) == Some(y) && Compile(c, defines) == Some(z)
    ensures Compile(a + b + c, defines) == Some(x + y + z)
  {
    CompileAppend(a, b, defines);
    CompileAppend(a + b, c, defines);
  }

  /** Compiling lines one after the other. */
  lemma {:induction false} CompileAppend(a: seq<string>, b: seq<string>, defines: map<string, u8>)
    ensures Compile(a + b, defines) ==
      match (Compile(a, defines), Compile(b, defines))
      case (Some(x), Some(y)) => Some(x + y)
      case _ => None
    decreases |a|
  {
    if a == [] {
      assert a + b == b;
      if Compile(b, defines).Some? {
        assert [] + Compile(b, defines).value == Compile(b, defines).value;
      }
    } else {
      assert (a + b)[0] == a[0];
      assert (a + b)[1..] == a[1..] + b;
      CompileAppend(a[1..], b, defines);
      match (CompileLine(a[0], defines), Compile(a[1..], defines), Compile(b, defines))
      case (Some(x0), Some(x1), Some(y)) =>
        assert x0 + (x1 + y) == (x0 + x1) + y;
      case _ =>
    }
  }
}
