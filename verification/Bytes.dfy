/** Bytes, machine words, C integer division and link ids: the vocabulary every
    other module shares. Words are mathematical integers in range; where the
    firmware casts between signed and unsigned words the cast is written out. */
module Bytes {

  datatype Option<+T> = None | Some(value: T)

  type byte = b: int | 0 <= b < 256
  type u16 = v: int | 0 <= v < 0x1_0000
  type u32 = v: int | 0 <= v < 0x1_0000_0000
  type u64 = v: int | 0 <= v < 0x1_0000_0000_0000_0000
  type i64 = v: int | -0x8000_0000_0000_0000 <= v < 0x8000_0000_0000_0000

  // ---- big-endian accessors ------------------------------------------------

  function Be16(s: seq<byte>): u16
    requires |s| == 2
  {
    0x100 * s[0] as int + s[1] as int
  }

  function Be32(s: seq<byte>): u32
    requires |s| == 4
  {
    0x1_0000 * Be16(s[..2]) as int + Be16(s[2..]) as int
  }

  function Be64(s: seq<byte>): u64
    requires |s| == 8
  {
    0x1_0000_0000 * Be32(s[..4]) as int + Be32(s[4..]) as int
  }

  function Put16(v: u16): (s: seq<byte>)
    ensures |s| == 2 && Be16(s) == v
  {
    [v / 0x100, v % 0x100]
  }

  function Put32(v: u32): (s: seq<byte>)
    ensures |s| == 4 && Be32(s) == v
  {
    var hi, lo := Put16(v / 0x1_0000), Put16(v % 0x1_0000);
    assert (hi + lo)[..2] == hi && (hi + lo)[2..] == lo;
    hi + lo
  }

  function Put64(v: u64): (s: seq<byte>)
    ensures |s| == 8 && Be64(s) == v
  {
    var hi, lo := Put32(v / 0x1_0000_0000), Put32(v % 0x1_0000_0000);
    assert (hi + lo)[..4] == hi && (hi + lo)[4..] == lo;
    hi + lo
  }

  lemma Put16Be16(s: seq<byte>)
    requires |s| == 2
    ensures Put16(Be16(s)) == s
  {
  }

  /** The other direction: the four bytes of a word are the only ones that read as it. */
  lemma Put32Be32(s: seq<byte>)
    requires |s| == 4
    ensures Put32(Be32(s)) == s
  {
    var hi, lo := Be16(s[..2]), Be16(s[2..]);
    Put16Be16(s[..2]);
    Put16Be16(s[2..]);
    hide Put16, Be16;
    assert Be32(s) / 0x1_0000 == hi && Be32(s) % 0x1_0000 == lo;
    assert s == s[..2] + s[2..];
  }

  // ---- signed words ----------------------------------------------------------

  predicate InI64(x: int) {
    -0x8000_0000_0000_0000 <= x < 0x8000_0000_0000_0000
  }

  /** The cast (uint64_t)x. */
  function ToU64(x: i64): (u: u64)
    ensures ToI64(u) == x
  {
    if x < 0 then x + 0x1_0000_0000_0000_0000 else x
  }

  /** The cast (int64_t)u. */
  function ToI64(u: u64): i64 {
    if u >= 0x8000_0000_0000_0000 then u - 0x1_0000_0000_0000_0000 else u
  }

  /** C division: the quotient is truncated toward zero. */
  function CDiv(a: int, b: int): (q: int)
    requires b > 0
    ensures a >= 0 ==> q * b <= a < q * b + b
    ensures a <= 0 ==> q * b - b < a <= q * b
  {
    if a >= 0 then a / b else -((-a) / b)
  }

  // ---- link ids ----------------------------------------------------------------

  type LinkId = s: seq<byte> | |s| == 8 witness [0, 0, 0, 0, 0, 0, 0, 0]

  const ZERO_ID: LinkId := [0, 0, 0, 0, 0, 0, 0, 0]

  /** memcmp(a, b, n) < 0. */
  predicate MemLess(a: seq<byte>, b: seq<byte>)
    requires |a| == |b|
  {
    |a| > 0 && (a[0] < b[0] || (a[0] == b[0] && MemLess(a[1..], b[1..])))
  }

  lemma {:induction false} MemLessTotal(a: seq<byte>, b: seq<byte>)
    requires |a| == |b|
    ensures a != b ==> (MemLess(a, b) <==> !MemLess(b, a))
    ensures a == b ==> !MemLess(a, b)
  {
    if |a| > 0 {
      MemLessTotal(a[1..], b[1..]);
      assert a == [a[0]] + a[1..] && b == [b[0]] + b[1..];
    }
  }

  lemma {:induction false} MemLessTransitive(a: seq<byte>, b: seq<byte>, c: seq<byte>)
    requires |a| == |b| == |c|
    requires MemLess(a, b) && MemLess(b, c)
    ensures MemLess(a, c)
  {
    if a[0] == b[0] == c[0] {
      MemLessTransitive(a[1..], b[1..], c[1..]);
    }
  }
}
