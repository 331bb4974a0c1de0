/** Bytes and big-endian integers. */
module Bytes {
  import opened Sequences

  type byte = x: int | 0 <= x < 256

  type uint16 = x: int | 0 <= x < 0x1_0000

  type uint32 = x: int | 0 <= x < 0x1_0000_0000

  lemma AtSlice(data: seq<byte>, p: nat, t: seq<byte>)
    requires At(data, p, t)
    ensures data[p..p + |t|] == t
  {
  }

  lemma AtWhole(a: seq<byte>, b: seq<byte>, c: seq<byte>)
    ensures At(a + b + c, |a|, b)
  {
  }

  function Put16(n: uint16): (r: seq<byte>)
    ensures |r| == 2
  {
    [n / 256, n % 256]
  }

  function Get16(hi: byte, lo: byte): uint16 {
    hi * 256 + lo
  }

  function Put32(n: uint32): (r: seq<byte>)
    ensures |r| == 4
  {
    Put16(n / 0x1_0000) + Put16(n % 0x1_0000)
  }

  function Get32(a: byte, b: byte, c: byte, d: byte): uint32 {
    Get16(a, b) * 0x1_0000 + Get16(c, d)
  }

  lemma Get16Put16(n: uint16)
    ensures var r := Put16(n); Get16(r[0], r[1]) == n
  {
  }

  lemma Get32Put32(n: uint32)
    ensures var r := Put32(n); Get32(r[0], r[1], r[2], r[3]) == n
  {
    Get16Put16(n / 0x1_0000);
    Get16Put16(n % 0x1_0000);
  }
}
