/** The tagged byte format of pulsecore/tagstruct.c, as far as database entries
    use it. */
module Tagstruct {
  import opened Options

  type Byte = b: int | 0 <= b < 256
  type Bytes = seq<Byte>

  /** A C string without its terminator. */
  ghost predicate IsCString(s: Bytes) {
    0 !in s
  }

  /** The result of reading one value: the value and what is left. */
  datatype Got<+T> = Fail | Got(value: T, rest: Bytes)

  const TAG_STRING: Byte := 't' as int
  const TAG_STRING_NULL: Byte := 'N' as int
  const TAG_U32: Byte := 'L' as int
  const TAG_U8: Byte := 'B' as int
  const TAG_S64: Byte := 'r' as int
  const TAG_TRUE: Byte := '1' as int
  const TAG_FALSE: Byte := '0' as int

  const U32: nat := 0x1_0000_0000
  const U64: nat := 0x1_0000_0000_0000_0000

  // ------------------------------------------------------------------ writing

  function WriteU32(u: nat): (r: Bytes)
    requires u < U32
    ensures |r| == 4
  {
    [u / 0x100_0000, u / 0x1_0000 % 0x100, u / 0x100 % 0x100, u % 0x100]
  }

  function PutU8(u: Byte): Bytes { [TAG_U8, u] }

  function PutU32(u: nat): Bytes
    requires u < U32
  {
    [TAG_U32] + WriteU32(u)
  }

  function PutS64(i: int): Bytes
    requires -0x8000_0000_0000_0000 <= i < 0x8000_0000_0000_0000
  {
    var u := i % U64;
    [TAG_S64] + WriteU32(u / U32) + WriteU32(u % U32)
  }

  function PutBoolean(b: bool): Bytes { [if b then TAG_TRUE else TAG_FALSE] }

  function PutString(s: Option<Bytes>): Bytes {
    match s
    case None => [TAG_STRING_NULL]
    case Some(c) => [TAG_STRING] + c + [0]
  }

  /** Examples of every format: numbers are big-endian, strings end with a zero. */
  lemma WireFormat()
    ensures PutU8(7) == [66, 7] && PutBoolean(true) == [49] && PutBoolean(false) == [48]
    ensures PutU32(0x0102_0304) == [76, 1, 2, 3, 4]
    ensures PutS64(-2) == [114, 255, 255, 255, 255, 255, 255, 255, 254]
    ensures PutString(None) == [78] && PutString(Some([65, 66])) == [116, 65, 66, 0]
  {
    assert (-2) % U64 == 0xFFFF_FFFF_FFFF_FFFE;
    assert WriteU32(0xFFFF_FFFF) == [255, 255, 255, 255] && WriteU32(0xFFFF_FFFE) == [255, 255, 255, 254];
    assert WriteU32(0x0102_0304) == [1, 2, 3, 4];
  }

  // ------------------------------------------------------------------ reading

  function ReadU32(b: Bytes): Got<nat> {
    if |b| < 4 then Fail
    else Got(b[0] as int * 0x100_0000 + b[1] as int * 0x1_0000 + b[2] as int * 0x100 + b[3] as int, b[4..])
  }

  function GetU8(b: Bytes): Got<Byte> {
    if |b| < 2 || b[0] != TAG_U8 then Fail else Got(b[1], b[2..])
  }

  function GetU32(b: Bytes): Got<nat> {
    if |b| < 1 || b[0] != TAG_U32 then Fail else ReadU32(b[1..])
  }

  function GetS64(b: Bytes): Got<int> {
    if |b| < 1 || b[0] != TAG_S64 then Fail
    else
      match ReadU32(b[1..])
      case Fail => Fail
      case Got(hi, r) =>
        match ReadU32(r)
        case Fail => Fail
        case Got(lo, r) =>
          var u := hi * U32 + lo;
          Got(if u < 0x8000_0000_0000_0000 then u else u - U64, r)
  }

  function GetBoolean(b: Bytes): Got<bool> {
    if |b| < 1 then Fail
    else if b[0] == TAG_TRUE then Got(true, b[1..])
    else if b[0] == TAG_FALSE then Got(false, b[1..])
    else Fail
  }

  /** The position of the first terminator, or the end. */
  function Terminator(b: Bytes): (n: nat)
    ensures n <= |b| && (n < |b| ==> b[n] == 0) && IsCString(b[..n])
  {
    if b == [] || b[0] == 0 then 0
    else
      var n := 1 + Terminator(b[1..]);
      assert b[..n] == [b[0]] + b[1..][..n - 1];
      n
  }

  function GetString(b: Bytes): Got<Option<Bytes>> {
    if |b| < 1 then Fail
    else if b[0] == TAG_STRING_NULL then Got(None, b[1..])
    else if b[0] != TAG_STRING then Fail
    else
      var n := Terminator(b[1..]);
      if n == |b| - 1 then Fail else Got(Some(b[1..1 + n]), b[n + 2..])
  }

  // --------------------------------------------------- reading what was written

  lemma U32RoundTrip(u: nat, r: Bytes)
    requires u < U32
    ensures ReadU32(WriteU32(u) + r) == Got(u, r)
  {
    var w := WriteU32(u);
    assert (w + r)[4..] == r;
    var a, b, c := u / 0x100, u / 0x1_0000, u / 0x100_0000;
    assert b == a / 0x100 && c == b / 0x100;
  }

  lemma GetU8Put(u: Byte, r: Bytes)
    ensures GetU8(PutU8(u) + r) == Got(u, r)
  {
    assert (PutU8(u) + r)[2..] == r;
  }

  lemma GetU32Put(u: nat, r: Bytes)
    requires u < U32
    ensures GetU32(PutU32(u) + r) == Got(u, r)
  {
    assert (PutU32(u) + r)[1..] == WriteU32(u) + r;
    U32RoundTrip(u, r);
  }

  lemma GetS64Put(i: int, r: Bytes)
    requires -0x8000_0000_0000_0000 <= i < 0x8000_0000_0000_0000
    ensures GetS64(PutS64(i) + r) == Got(i, r)
  {
    var u := i % U64;
    var hi, lo := WriteU32(u / U32), WriteU32(u % U32);
    assert (PutS64(i) + r)[1..] == hi + (lo + r);
    U32RoundTrip(u / U32, lo + r);
    U32RoundTrip(u % U32, r);
    hide WriteU32, ReadU32;
  }

  lemma GetBooleanPut(b: bool, r: Bytes)
    ensures GetBoolean(PutBoolean(b) + r) == Got(b, r)
  {
    assert (PutBoolean(b) + r)[1..] == r;
  }

  lemma {:induction false} TerminatorOf(c: Bytes, r: Bytes)
    requires IsCString(c)
    ensures Terminator(c + [0] + r) == |c|
  {
    if c != [] {
      TerminatorOf(c[1..], r);
      assert (c + [0] + r)[1..] == c[1..] + [0] + r;
    }
  }

  lemma GetStringPut(s: Option<Bytes>, r: Bytes)
    requires s.Some? ==> IsCString(s.value)
    ensures GetString(PutString(s) + r) == Got(s, r)
  {
    hide Terminator;
    var b := PutString(s) + r;
    if s.Some? {
      var c := s.value;
      assert b[1..] == c + [0] + r;
      TerminatorOf(c, r);
      assert b[1..1 + |c|] == c;
      assert b[|c| + 2..] == r;
    } else {
      assert b[1..] == r;
    }
  }

  // -------------------------------------- a successful read ignores what follows

  lemma {:induction false} TerminatorExtends(b: Bytes, x: Bytes)
    requires Terminator(b) < |b|
    ensures Terminator(b + x) == Terminator(b)
  {
    if b[0] != 0 {
      TerminatorExtends(b[1..], x);
      assert (b + x)[1..] == b[1..] + x;
    }
  }

  lemma GetStringExtends(b: Bytes, x: Bytes)
    requires GetString(b).Got?
    ensures GetString(b + x) == Got(GetString(b).value, GetString(b).rest + x)
  {
    assert (b + x)[1..] == b[1..] + x;
    if b[0] == TAG_STRING {
      TerminatorExtends(b[1..], x);
      var n := Terminator(b[1..]);
      assert (b + x)[1..1 + n] == b[1..1 + n] && (b + x)[n + 2..] == b[n + 2..] + x;
    }
  }

  lemma ReadU32Extends(b: Bytes, x: Bytes)
    requires ReadU32(b).Got?
    ensures ReadU32(b + x) == Got(ReadU32(b).value, ReadU32(b).rest + x)
  {
    assert (b + x)[4..] == b[4..] + x;
  }

  lemma GetU32Extends(b: Bytes, x: Bytes)
    requires GetU32(b).Got?
    ensures GetU32(b + x) == Got(GetU32(b).value, GetU32(b).rest + x)
  {
    assert (b + x)[1..] == b[1..] + x;
    ReadU32Extends(b[1..], x);
  }

  lemma GetS64Extends(b: Bytes, x: Bytes)
    requires GetS64(b).Got?
    ensures GetS64(b + x) == Got(GetS64(b).value, GetS64(b).rest + x)
  {
    assert (b + x)[1..] == b[1..] + x;
    ReadU32Extends(b[1..], x);
    ReadU32Extends(ReadU32(b[1..]).rest, x);
  }

  lemma GetU8Extends(b: Bytes, x: Bytes)
    requires GetU8(b).Got?
    ensures GetU8(b + x) == Got(GetU8(b).value, GetU8(b).rest + x)
  {
    assert (b + x)[2..] == b[2..] + x;
  }

  lemma GetBooleanExtends(b: Bytes, x: Bytes)
    requires GetBoolean(b).Got?
    ensures GetBoolean(b + x) == Got(GetBoolean(b).value, GetBoolean(b).rest + x)
  {
    assert (b + x)[1..] == b[1..] + x;
  }
}
