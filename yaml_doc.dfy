/** The YAML documents the modding exporters emit and the modding importers
    load. A document is a tree of nodes; scalars keep their text, exactly as
    the YAML library presents them, and the numeric conversion reads that
    text. Emitting a tree and loading the emitted text back is taken to give
    the same tree. */
module Yaml {
  import opened Results
  import opened Bytes

  datatype Node =
    | Null
    | Scalar(text: seq<u8>)
    | List(items: seq<Node>)
    | Dict(entries: seq<Entry>)

  datatype Entry = Entry(key: string, value: Node)

  /** A run of ASCII characters as bytes. */
  function Ascii(s: string): (r: seq<u8>)
    requires forall i :: 0 <= i < |s| ==> s[i] as int < 0x100
    ensures |r| == |s| && forall i :: 0 <= i < |s| ==> r[i] == s[i] as int
  {
    seq(|s|, (i: int) requires 0 <= i < |s| => var b: u8 := s[i] as int; b)
  }

  /** Bytes read as characters. */
  function Chars(b: seq<u8>): (r: string)
    ensures |r| == |b| && forall i :: 0 <= i < |b| ==> r[i] as int == b[i]
  {
    seq(|b|, (i: int) requires 0 <= i < |b| => b[i] as char)
  }

  lemma {:induction false} CharsOfAscii(s: string)
    requires forall i :: 0 <= i < |s| ==> s[i] as int < 0x100
    ensures Chars(Ascii(s)) == s
  {
    var r := Chars(Ascii(s));
    assert forall i :: 0 <= i < |s| ==> r[i] == s[i];
  }

  /** `YAML::Hex << n`: the scalar `0x` followed by lowercase hexadecimal digits. */
  function HexScalar(n: nat): (r: Node)
    ensures r.Scalar? && |r.text| >= 3 && r.text[..2] == [0x30, 0x78]
  {
    var digits := Hex(n, false);
    assert forall i :: 0 <= i < |digits| ==> HexValue(digits[i]).Some?;
    Scalar(Ascii("0x" + digits))
  }

  /** `out << s.c_str()`: the bytes of `s` before its first NUL. */
  function CStr(s: seq<u8>): (r: seq<u8>)
    ensures |r| <= |s| && r == s[..|r|]
    ensures 0 !in r
    ensures |r| < |s| ==> s[|r|] == 0
  {
    if s == [] || s[0] == 0 then [] else [s[0]] + CStr(s[1..])
  }

  /** The number a scalar spells: `0x` and hexadecimal digits, or decimal digits. */
  function ParseNumber(t: seq<u8>): Option<nat> {
    if |t| >= 2 && t[0] == 0x30 && t[1] == 0x78 then ParseHex(Chars(t[2..]))
    else ParseDecimal(Chars(t))
  }

  /** `node.as<uint32_t>()`; `None` is a node that does not exist. */
  function AsU32(n: Option<Node>): (r: Result<u32>)
    ensures r.Ok? <==> n.Some? && n.value.Scalar? && ParseNumber(n.value.text).Some?
                          && ParseNumber(n.value.text).value < 0x1_0000_0000
    ensures r.Ok? ==> ParseNumber(n.value.text) == Some(r.value as nat)
  {
    if n.None? then Err(InvalidNode)
    else if !n.value.Scalar? then Err(BadConversion)
    else
      match ParseNumber(n.value.text)
      case Some(v) => if v < 0x1_0000_0000 then Ok(v) else Err(BadConversion)
      case None => Err(BadConversion)
  }

  /** `node.as<uint16_t>()`. */
  function AsU16(n: Option<Node>): (r: Result<u16>)
    ensures r.Ok? <==> n.Some? && n.value.Scalar? && ParseNumber(n.value.text).Some?
                          && ParseNumber(n.value.text).value < 0x1_0000
    ensures r.Ok? ==> ParseNumber(n.value.text) == Some(r.value as nat)
  {
    if n.None? then Err(InvalidNode)
    else if !n.value.Scalar? then Err(BadConversion)
    else
      match ParseNumber(n.value.text)
      case Some(v) => if v < 0x1_0000 then Ok(v) else Err(BadConversion)
      case None => Err(BadConversion)
  }

  /** `node.as<std::string>()`: the text of a scalar. */
  function AsString(n: Option<Node>): (r: Result<seq<u8>>)
    ensures r.Ok? <==> n.Some? && n.value.Scalar?
    ensures r.Ok? ==> r.value == n.value.text
  {
    if n.None? then Err(InvalidNode)
    else if n.value.Scalar? then Ok(n.value.text)
    else Err(BadConversion)
  }

  /** The value under the first entry with this key. */
  function Lookup(entries: seq<Entry>, key: string): (r: Option<Node>)
    ensures r.Some? <==> exists i :: 0 <= i < |entries| && entries[i].key == key
    ensures r.Some? ==> exists i :: 0 <= i < |entries| && entries[i] == Entry(key, r.value)
  {
    if entries == [] then None
    else if entries[0].key == key then Some(entries[0].value)
    else
      var r := Lookup(entries[1..], key);
      assert forall i :: 1 <= i < |entries| ==> entries[i] == entries[1..][i - 1];
      r
  }

  /** `node[key]`: a map looks the key up, a scalar refuses the subscript, and
      anything else has no such child. */
  function Child(n: Node, key: string): (r: Result<Option<Node>>)
    ensures r.Err? <==> n.Scalar?
    ensures n.Dict? ==> r == Ok(Lookup(n.entries, key))
  {
    match n
    case Dict(entries) => Ok(Lookup(entries, key))
    case Scalar(_) => Err(BadSubscript)
    case _ => Ok(None)
  }

  /** `node[i]` on an element of a sequence. */
  function Element(n: Node, i: nat): (r: Result<Option<Node>>)
    ensures r.Err? <==> n.Scalar?
    ensures n.List? && i < |n.items| ==> r == Ok(Some(n.items[i]))
    ensures r.Ok? && r.value.Some? ==> n.List? && i < |n.items|
  {
    match n
    case List(items) => if i < |items| then Ok(Some(items[i])) else Ok(None)
    case Scalar(_) => Err(BadSubscript)
    case _ => Ok(None)
  }

  /** What `for (it = node.begin(); it != node.end(); ++it)` visits: the
      elements of a sequence; nothing for a missing node, a null or a scalar.
      Visiting a map gives key/value pairs that the importers cannot index,
      taken here as a conversion error. */
  function Members(n: Option<Node>): (r: Result<seq<Node>>)
    ensures r.Err? <==> n.Some? && n.value.Dict?
    ensures n.Some? && n.value.List? ==> r == Ok(n.value.items)
  {
    if n.None? then Ok([])
    else if n.value.List? then Ok(n.value.items)
    else if n.value.Dict? then Err(BadConversion)
    else Ok([])
  }

  /** `assetNode.begin()->second`: the value of the document's first entry. */
  function FirstValue(doc: Node): (r: Result<Node>)
    ensures r.Ok? <==> doc.Dict? && |doc.entries| > 0
    ensures r.Ok? ==> r.value == doc.entries[0].value
  {
    if doc.Dict? && |doc.entries| > 0 then Ok(doc.entries[0].value) else Err(InvalidNode)
  }

  /** A number emitted with `YAML::Hex` converts back to the same number. */
  lemma {:induction false} HexScalarReads(n: nat)
    ensures ParseNumber(HexScalar(n).text) == Some(n)
  {
    var digits := Hex(n, false);
    assert forall i :: 0 <= i < |digits| ==> HexValue(digits[i]).Some?;
    var s := "0x" + digits;
    var t := HexScalar(n).text;
    assert t == Ascii(s);
    assert t[2..] == Ascii(digits);
    CharsOfAscii(digits);
    ParseHexOfHex(n, false);
  }

  lemma {:induction false} AsU32OfHexScalar(n: u32)
    ensures AsU32(Some(HexScalar(n))) == Ok(n)
  {
    HexScalarReads(n);
  }

  /** `c_str` of a string that already ends at its only NUL gives the
      string without that NUL. */
  lemma {:induction false} CStrOfTerminated(s: seq<u8>)
    requires 0 !in s
    ensures CStr(s + [0]) == s && CStr(s) == s
  {
    if s != [] {
      assert (s + [0])[1..] == s[1..] + [0];
      CStrOfTerminated(s[1..]);
      assert [s[0]] + s[1..] == s;
    }
  }
}
