/** Fixed-width integers, byte orders and the few number renderings the
    exporters use (`std::hex`, `std::uppercase`, `std::setw`, `std::to_string`).

    Integers are unbounded in Dafny; each C++ width is a subset type, and a
    wrap-around of unsigned arithmetic is written out with `Wrap32`. */
module Bytes {
  import opened Results

  type u8 = x: int | 0 <= x < 0x100
  type u16 = x: int | 0 <= x < 0x1_0000
  type u32 = x: int | 0 <= x < 0x1_0000_0000
  type i8 = x: int | -0x80 <= x < 0x80
  type i16 = x: int | -0x8000 <= x < 0x8000
  type i32 = x: int | -0x8000_0000 <= x < 0x8000_0000

  /** The value a `uint32_t` holds after an assignment of `x`. */
  function Wrap32(x: int): (r: u32)
    ensures 0 <= x < 0x1_0000_0000 ==> r == x
  {
    x % 0x1_0000_0000
  }

  // ---------------------------------------------------------------------
  // Two's complement reinterpretation (a cast between signed and unsigned)

  function I8Bits(x: i8): (r: u8)
    ensures (r - x) % 0x100 == 0
  {
    if x < 0 then x + 0x100 else x
  }

  function I8OfBits(b: u8): (r: i8)
    ensures (r - b) % 0x100 == 0
    ensures r < 0 <==> b >= 0x80
  {
    if b >= 0x80 then b - 0x100 else b
  }

  function I16Bits(x: i16): (r: u16)
    ensures (r - x) % 0x1_0000 == 0
  {
    if x < 0 then x + 0x1_0000 else x
  }

  function I16OfBits(b: u16): (r: i16)
    ensures (r - b) % 0x1_0000 == 0
    ensures r < 0 <==> b >= 0x8000
  {
    if b >= 0x8000 then b - 0x1_0000 else b
  }

  function I32Bits(x: i32): (r: u32)
    ensures (r - x) % 0x1_0000_0000 == 0
  {
    if x < 0 then x + 0x1_0000_0000 else x
  }

  function I32OfBits(b: u32): (r: i32)
    ensures (r - b) % 0x1_0000_0000 == 0
    ensures r < 0 <==> b >= 0x8000_0000
  {
    if b >= 0x8000_0000 then b - 0x1_0000_0000 else b
  }

  /** Reinterpreting a value as the other signedness and back is the identity. */
  lemma {:induction false} TwosComplementRoundTrip()
    ensures forall x: i8 :: I8OfBits(I8Bits(x)) == x
    ensures forall b: u8 :: I8Bits(I8OfBits(b)) == b
    ensures forall x: i16 :: I16OfBits(I16Bits(x)) == x
    ensures forall b: u16 :: I16Bits(I16OfBits(b)) == b
    ensures forall x: i32 :: I32OfBits(I32Bits(x)) == x
    ensures forall b: u32 :: I32Bits(I32OfBits(b)) == b
  {
  }

  // ---------------------------------------------------------------------
  // Reading big-endian words out of a byte sequence

  function Be16At(s: seq<u8>, p: nat): u16
    requires p + 2 <= |s|
  {
    (s[p] as int) * 0x100 + s[p + 1] as int
  }

  function Be32At(s: seq<u8>, p: nat): u32
    requires p + 4 <= |s|
  {
    (s[p] as int) * 0x100_0000 + (s[p + 1] as int) * 0x1_0000 + (s[p + 2] as int) * 0x100 + s[p + 3] as int
  }

  // ---------------------------------------------------------------------
  // Writing words in a chosen byte order

  datatype ByteOrder = BigEndian | LittleEndian

  /** `x` as two bytes, most significant first in big-endian order. */
  function Bytes16(x: u16, order: ByteOrder): (r: seq<u8>)
    ensures |r| == 2
  {
    var hi, lo := x / 0x100, x % 0x100;
    if order.BigEndian? then [hi, lo] else [lo, hi]
  }

  /** `x` as four bytes, most significant first in big-endian order. */
  function Bytes32(x: u32, order: ByteOrder): (r: seq<u8>)
    ensures |r| == 4
  {
    var q1 := x / 0x100;
    var q2 := q1 / 0x100;
    var b3, b2, b1, b0 := q2 / 0x100, q2 % 0x100, q1 % 0x100, x % 0x100;
    if order.BigEndian? then [b3, b2, b1, b0] else [b0, b1, b2, b3]
  }

  /** The word that two bytes written in `order` stand for. */
  function Value16(b: seq<u8>, order: ByteOrder): u16
    requires |b| == 2
  {
    if order.BigEndian? then Be16At(b, 0) else (b[1] as int) * 0x100 + b[0] as int
  }

  /** The word that four bytes written in `order` stand for. */
  function Value32(b: seq<u8>, order: ByteOrder): u32
    requires |b| == 4
  {
    if order.BigEndian? then Be32At(b, 0)
    else (b[3] as int) * 0x100_0000 + (b[2] as int) * 0x1_0000 + (b[1] as int) * 0x100 + b[0] as int
  }

  /** Writing a word and reading it back in the same order gives the word. */
  lemma {:induction false} Value16OfBytes16(x: u16, order: ByteOrder)
    ensures Value16(Bytes16(x, order), order) == x
  {
  }

  lemma {:induction false} Value32OfBytes32(x: u32, order: ByteOrder)
    ensures Value32(Bytes32(x, order), order) == x
  {
    var q1 := x / 0x100;
    var q2 := q1 / 0x100;
    assert x == q1 * 0x100 + x % 0x100;
    assert q1 == q2 * 0x100 + q1 % 0x100;
    assert q2 == (q2 / 0x100) * 0x100 + q2 % 0x100;
  }

  lemma {:induction false} Be32OfBytes32(x: u32, s: seq<u8>, p: nat)
    requires p + 4 <= |s| && s[p..p + 4] == Bytes32(x, BigEndian)
    ensures Be32At(s, p) == x
  {
    assert s[p..p + 4][0] == s[p];
    assert s[p..p + 4][1] == s[p + 1];
    assert s[p..p + 4][2] == s[p + 2];
    assert s[p..p + 4][3] == s[p + 3];
  }

  lemma {:induction false} Be16OfBytes16(x: u16, s: seq<u8>, p: nat)
    requires p + 2 <= |s| && s[p..p + 2] == Bytes16(x, BigEndian)
    ensures Be16At(s, p) == x
  {
    assert s[p..p + 2][0] == s[p];
    assert s[p..p + 2][1] == s[p + 1];
  }

  /** Dividing `hi * 0x100 + lo` by 0x100 separates the two parts. */
  lemma {:induction false} DivModByte(hi: nat, lo: nat)
    requires lo < 0x100
    ensures (hi * 0x100 + lo) / 0x100 == hi && (hi * 0x100 + lo) % 0x100 == lo
  {
  }

  /** Two adjacent slices make up the slice that spans them. */
  lemma {:induction false} AdjacentSlices(s: seq<u8>, p: nat, q: nat, e: nat)
    requires p <= q <= e <= |s|
    ensures s[p..e] == s[p..q] + s[q..e]
  {
  }

  /** A one-byte tag and a four-byte field at the front of a buffer. */
  lemma {:induction false} TagAndWord(x: u8, word: seq<u8>, w: seq<u8>, tail: seq<u8>)
    requires |word| == 4
    ensures var b := [x] + word + w + tail;
      |b| >= 5 && b[0] == x && b[1..5] == word && b[5..] == w + tail
  {
  }

  /** Dropping a prefix leaves what was appended after it. */
  lemma {:induction false} AfterPrefix(h: seq<u8>, x: seq<u8>, y: seq<u8>)
    ensures (h + x + y)[|h|..] == x + y
  {
  }

  /** A concatenation splits back into its parts. */
  lemma {:induction false} SplitAppend(x: seq<u8>, y: seq<u8>)
    ensures (x + y)[..|x|] == x && (x + y)[|x|..] == y
  {
  }

  lemma {:induction false} Regroup(a: seq<u8>, x: seq<u8>, y: seq<u8>)
    ensures a + x + y == a + (x + y)
  {
  }

  lemma {:induction false} Regroup3(a: seq<u8>, x: seq<u8>, y: seq<u8>, z: seq<u8>)
    ensures a + x + y + z == a + (x + y + z)
  {
  }

  /** Two buffers that agree two bytes at a time agree. */
  lemma {:induction false} PairsEqual(b: seq<u8>, s: seq<u8>, n: nat)
    requires |b| == 2 * n <= |s|
    requires forall i :: 0 <= i < n ==> b[2 * i..2 * i + 2] == s[2 * i..2 * i + 2]
    ensures b == s[..2 * n]
  {
    forall k | 0 <= k < 2 * n
      ensures b[k] == s[k]
    {
      var i := k / 2;
      assert b[k] == b[2 * i..2 * i + 2][k - 2 * i];
      assert s[k] == s[2 * i..2 * i + 2][k - 2 * i];
    }
  }

  lemma {:induction false} LowByte(n: nat)
    requires n < 0x100
    ensures n % 0x100 == n
  {
  }

  /** The four bytes at `p`, read as a big-endian word and written back, are those bytes. */
  lemma {:induction false} Bytes32OfBe32At(s: seq<u8>, p: nat)
    requires p + 4 <= |s|
    ensures Bytes32(Be32At(s, p), BigEndian) == s[p..p + 4]
  {
    var x := Be32At(s, p);
    var a: nat := (s[p] as int) * 0x1_0000 + (s[p + 1] as int) * 0x100 + s[p + 2] as int;
    var b: nat := (s[p] as int) * 0x100 + s[p + 1] as int;
    assert x == a * 0x100 + s[p + 3] as int;
    DivModByte(a, s[p + 3] as int);
    assert a == b * 0x100 + s[p + 2] as int;
    DivModByte(b, s[p + 2] as int);
    DivModByte(s[p] as int, s[p + 1] as int);
  }

  lemma {:induction false} Bytes16OfBe16At(s: seq<u8>, p: nat)
    requires p + 2 <= |s|
    ensures Bytes16(Be16At(s, p), BigEndian) == s[p..p + 2]
  {
    DivModByte(s[p] as int, s[p + 1] as int);
  }

  // ---------------------------------------------------------------------
  // Number renderings

  function HexDigit(d: nat, upper: bool): (c: char)
    requires d < 16
    ensures HexValue(c) == Some(d)
  {
    if d < 10 then ('0' as int + d) as char
    else if upper then ('A' as int + d - 10) as char
    else ('a' as int + d - 10) as char
  }

  /** The value of one hexadecimal digit, in either case. */
  function HexValue(c: char): Option<nat> {
    if '0' <= c <= '9' then Some(c as int - '0' as int)
    else if 'A' <= c <= 'F' then Some(c as int - 'A' as int + 10)
    else if 'a' <= c <= 'f' then Some(c as int - 'a' as int + 10)
    else None
  }

  /** `std::hex << n`: the shortest hexadecimal spelling of `n`. */
  function Hex(n: nat, upper: bool): (r: string)
    ensures 1 <= |r|
    ensures forall i :: 0 <= i < |r| ==> HexValue(r[i]).Some?
    decreases n
  {
    if n < 16 then [HexDigit(n, upper)] else Hex(n / 16, upper) + [HexDigit(n % 16, upper)]
  }

  function Zeros(k: nat): (r: string)
    ensures |r| == k && forall i :: 0 <= i < k ==> r[i] == '0'
  {
    seq(k, _ => '0')
  }

  /** `std::setfill('0') << std::setw(w)` in front of a rendering `s`. */
  function ZeroPad(s: string, w: nat): (r: string)
    ensures |r| == if |s| < w then w else |s|
    ensures r[|r| - |s|..] == s
    ensures forall i :: 0 <= i < |r| - |s| ==> r[i] == '0'
  {
    var r := Zeros(if |s| < w then w - |s| else 0) + s;
    assert r[|r| - |s|..] == s;
    r
  }

  /** The FORMAT_HEX(x, w) macro of the dialog exporters: uppercase, zero-filled to width `w`. */
  function HexUpper(n: nat, w: nat): string {
    ZeroPad(Hex(n, true), w)
  }

  /** The number a run of hexadecimal digits spells; the partner of `Hex` and `HexUpper`. */
  function ParseHex(s: string): (r: Option<nat>)
    ensures s == [] ==> r.None?
  {
    if s == [] then None
    else if |s| == 1 then HexValue(s[0])
    else
      match (ParseHex(s[..|s| - 1]), HexValue(s[|s| - 1]))
      case (Some(hi), Some(lo)) => Some(hi * 16 + lo)
      case _ => None
  }

  lemma {:induction false} ParseHexOfHex(n: nat, upper: bool)
    ensures ParseHex(Hex(n, upper)) == Some(n)
    decreases n
  {
    if n >= 16 {
      var r := Hex(n, upper);
      assert r[..|r| - 1] == Hex(n / 16, upper);
      ParseHexOfHex(n / 16, upper);
    }
  }

  lemma {:induction false} ParseHexLeadingZero(s: string)
    requires s != []
    ensures ParseHex("0" + s) == ParseHex(s)
    decreases |s|
  {
    if |s| > 1 {
      assert ("0" + s)[..|"0" + s| - 1] == "0" + s[..|s| - 1];
      ParseHexLeadingZero(s[..|s| - 1]);
    }
  }

  lemma {:induction false} ParseHexOfZeros(k: nat, s: string)
    requires s != []
    ensures ParseHex(Zeros(k) + s) == ParseHex(s)
  {
    if k == 0 {
      assert Zeros(k) + s == s;
    } else {
      assert Zeros(k) == "0" + Zeros(k - 1);
      assert Zeros(k) + s == "0" + (Zeros(k - 1) + s);
      ParseHexLeadingZero(Zeros(k - 1) + s);
      ParseHexOfZeros(k - 1, s);
    }
  }

  lemma {:induction false} ParseHexOfZeroPad(s: string, w: nat)
    requires s != []
    ensures ParseHex(ZeroPad(s, w)) == ParseHex(s)
  {
    ParseHexOfZeros(if |s| < w then w - |s| else 0, s);
  }

  /** Padding never changes the number: `HexUpper` renderings read back exactly. */
  lemma {:induction false} ParseHexOfHexUpper(n: nat, w: nat)
    ensures ParseHex(HexUpper(n, w)) == Some(n)
  {
    ParseHexOfZeroPad(Hex(n, true), w);
    ParseHexOfHex(n, true);
  }

  function DecimalDigit(d: nat): (c: char)
    requires d < 10
  {
    ('0' as int + d) as char
  }

  /** `std::to_string(n)` and `stream << n` for a non-negative integer. */
  function Decimal(n: nat): (r: string)
    ensures 1 <= |r|
    ensures forall i :: 0 <= i < |r| ==> '0' <= r[i] <= '9'
    decreases n
  {
    if n < 10 then [DecimalDigit(n)] else Decimal(n / 10) + [DecimalDigit(n % 10)]
  }

  /** `stream << x` for a signed integer. */
  function SignedDecimal(x: int): string {
    if x < 0 then "-" + Decimal(-x) else Decimal(x)
  }

  /** The number a run of decimal digits spells; the partner of `Decimal`. */
  function ParseDecimal(s: string): (r: Option<nat>) {
    if s == [] then None
    else
      var last := s[|s| - 1];
      if !('0' <= last <= '9') then None
      else if |s| == 1 then Some(last as int - '0' as int)
      else
        match ParseDecimal(s[..|s| - 1])
        case Some(hi) => Some(hi * 10 + (last as int - '0' as int))
        case None => None
  }

  lemma {:induction false} ParseDecimalOfDecimal(n: nat)
    ensures ParseDecimal(Decimal(n)) == Some(n)
    decreases n
  {
    if n >= 10 {
      var r := Decimal(n);
      assert r[..|r| - 1] == Decimal(n / 10);
      ParseDecimalOfDecimal(n / 10);
    }
  }

  /** Distinct numbers get distinct symbols: `symbol + "_GFX_" + to_string(i)` never repeats. */
  lemma {:induction false} DecimalInjective(m: nat, n: nat)
    requires Decimal(m) == Decimal(n)
    ensures m == n
  {
    ParseDecimalOfDecimal(m);
    ParseDecimalOfDecimal(n);
  }
}
