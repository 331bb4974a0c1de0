/** Bits and Exp-Golomb codes (class Bits and class BitWriter in tools/sps_resolutions.py): section 9.1
    of ITU-T H.264. */
module BitCodec {
  import opened Sequences
  import opened Bytes
  import opened Wrappers

  type bit = x: int | 0 <= x < 2

  function Pow2(n: nat): (r: nat)
    ensures r > 0
  {
    if n == 0 then 1 else 2 * Pow2(n - 1)
  }

  /** value >> k */
  function ShiftRight(value: nat, k: nat): nat
    decreases k
  {
    if k == 0 then value else ShiftRight(value / 2, k - 1)
  }

  /** The low `n` bits, the most significant first. */
  function Fixed(value: nat, n: nat): (r: seq<bit>)
    ensures |r| == n
    decreases n
  {
    if n == 0 then [] else Fixed(value / 2, n - 1) + [value % 2]
  }

  function Value(bits: seq<bit>): nat {
    if bits == [] then 0 else 2 * Value(bits[..|bits| - 1]) + bits[|bits| - 1]
  }

  function Zeros(n: nat): seq<bit> {
    seq(n, _ => 0)
  }

  lemma {:induction false} FixedAt(value: nat, n: nat, i: nat)
    requires i < n
    ensures Fixed(value, n)[i] == ShiftRight(value, n - 1 - i) % 2
    decreases n
  {
    if i < n - 1 { FixedAt(value / 2, n - 1, i); }
  }

  lemma {:induction false} ValueFixed(value: nat, n: nat)
    requires value < Pow2(n)
    ensures Value(Fixed(value, n)) == value
    decreases n
  {
    if n > 0 {
      ValueFixed(value / 2, n - 1);
      assert Fixed(value, n)[..n - 1] == Fixed(value / 2, n - 1);
    }
  }

  lemma {:induction false} FixedValue(bits: seq<bit>)
    ensures Value(bits) < Pow2(|bits|) && Fixed(Value(bits), |bits|) == bits
    decreases |bits|
  {
    if bits != [] {
      var n := |bits| - 1;
      FixedValue(bits[..n]);
      assert Value(bits) / 2 == Value(bits[..n]) && Value(bits) % 2 == bits[n];
      assert bits == bits[..n] + [bits[n]];
    }
  }

  lemma {:induction false} ValueOfOne(bits: seq<bit>)
    ensures Value([1] + bits) == Pow2(|bits|) + Value(bits)
    decreases |bits|
  {
    var n := |bits| - 1;
    if bits == [] {
      assert [1] + bits == [1];
    } else {
      assert ([1] + bits)[..|bits|] == [1] + bits[..n];
      ValueOfOne(bits[..n]);
    }
  }

  lemma {:induction false} FixedZero(n: nat)
    ensures Fixed(0, n) == Zeros(n)
    decreases n
  {
    if n > 0 {
      FixedZero(n - 1);
      assert Zeros(n) == Zeros(n - 1) + [0];
    }
  }

  // ----- Bytes and bits -----

  function BitsOf(data: seq<byte>): (r: seq<bit>)
    ensures |r| == 8 * |data|
  {
    if data == [] then [] else Fixed(data[0], 8) + BitsOf(data[1..])
  }

  lemma {:induction false} BitsAt(data: seq<byte>, i: nat, k: nat)
    requires i < |data| && k < 8
    ensures BitsOf(data)[8 * i + k] == Fixed(data[i], 8)[k]
    decreases i
  {
    hide Fixed;
    if i > 0 {
      BitsAt(data[1..], i - 1, k);
      assert BitsOf(data)[8 * i + k] == BitsOf(data[1..])[8 * (i - 1) + k];
    }
  }

  predicate Whole(bits: seq<bit>) {
    |bits| % 8 == 0
  }

  function Pack(bits: seq<bit>): (r: seq<byte>)
    requires Whole(bits)
    ensures |bits| == 8 * |r|
    decreases |bits|
  {
    if bits == [] then []
    else
      EightBitsFit(bits[..8]);
      [Value(bits[..8])] + Pack(bits[8..])
  }

  lemma EightBitsFit(bits: seq<bit>)
    requires |bits| == 8
    ensures Value(bits) < 256
  {
    FixedValue(bits);
    hide Value, Fixed;
    assert Pow2(8) == 256 by { assert Pow2(4) == 16; }
  }

  lemma {:induction false} BitsOfPacked(bits: seq<bit>)
    requires Whole(bits)
    ensures BitsOf(Pack(bits)) == bits
    decreases |bits|
  {
    if bits != [] {
      FixedValue(bits[..8]);
      BitsOfPacked(bits[8..]);
      hide Value, Fixed;
      assert Pack(bits)[1..] == Pack(bits[8..]);
    }
  }

  lemma PackNothing()
    ensures Pack([]) == []
  {
  }

  lemma PackNext(data: seq<byte>, bits: seq<bit>, i: nat)
    requires Whole(bits) && i % 8 == 0 && i < |bits|
    ensures i + 8 <= |bits| && Value(bits[i..i + 8]) < 256
    ensures data + Pack(bits[i..]) == data + [Value(bits[i..i + 8])] + Pack(bits[i + 8..])
  {
    EightBitsFit(bits[i..i + 8]);
    hide Value;
    assert bits[i..][..8] == bits[i..i + 8] && bits[i..][8..] == bits[i + 8..];
  }

  /** Filled up to whole bytes with zeros. */
  function Padded(bits: seq<bit>): (r: seq<bit>)
    ensures Whole(r)
  {
    bits + Zeros((8 - |bits| % 8) % 8)
  }

  // ----- Exp-Golomb codes -----

  /** int.bit_length */
  function BitLength(n: nat): nat {
    if n == 0 then 0 else 1 + BitLength(n / 2)
  }

  /** ue(value) */
  function Golomb(value: nat): seq<bit> {
    var n := BitLength(value + 1);
    Zeros(if n == 0 then 0 else n - 1) + Fixed(value + 1, n)
  }

  lemma {:induction false} LeadingOne(n: nat)
    requires n > 0
    ensures BitLength(n) > 0 && Fixed(n, BitLength(n))[0] == 1 && n < Pow2(BitLength(n))
    decreases n
  {
    if n > 1 { LeadingOne(n / 2); }
  }

  datatype Coded = Coded(value: nat, pos: nat)

  function ReadU(bits: seq<bit>, pos: nat, n: nat): Option<Coded> {
    if pos + n > |bits| then None else Some(Coded(Value(bits[pos..pos + n]), pos + n))
  }

  /** The code at `pos` when `zeros` zeros have been read before; more than 32 are refused. */
  function ReadUe(bits: seq<bit>, pos: nat, zeros: nat): Option<Coded>
    decreases |bits| - pos
  {
    if pos >= |bits| then None
    else if bits[pos] == 1 then
      match ReadU(bits, pos + 1, zeros)
      case None => None
      case Some(c) => Some(Coded(Pow2(zeros) - 1 + c.value, c.pos))
    else if zeros + 1 > 32 then None
    else ReadUe(bits, pos + 1, zeros + 1)
  }

  function Signed(k: nat): int {
    if k % 2 == 1 then (k + 1) / 2 else -(k / 2)
  }

  /** What was written with u, wherever it stands, is read back. */
  lemma FixedReadsBack(bits: seq<bit>, p: nat, value: nat, n: nat)
    requires value < Pow2(n) && At(bits, p, Fixed(value, n))
    ensures ReadU(bits, p, n) == Some(Coded(value, p + n))
  {
    ValueFixed(value, n);
    assert bits[p..p + n] == Fixed(value, n);
  }

  lemma {:induction false} ZerosAreCounted(bits: seq<bit>, p: nat, n: nat, zeros: nat)
    requires At(bits, p, Zeros(n)) && zeros + n <= 32
    ensures ReadUe(bits, p, zeros) == ReadUe(bits, p + n, zeros + n)
    decreases n
  {
    if n > 0 {
      assert bits[p] == Zeros(n)[0];
      assert Zeros(n) == [0] + Zeros(n - 1);
      AtSplit(bits, p, [0], Zeros(n - 1));
      ZerosAreCounted(bits, p + 1, n - 1, zeros + 1);
    }
  }

  lemma OneReads(bits: seq<bit>, q: nat, rest: seq<bit>)
    requires At(bits, q, [1] + rest)
    ensures Value([1] + rest) >= 1
    ensures ReadUe(bits, q, |rest|) == Some(Coded(Value([1] + rest) - 1, q + 1 + |rest|))
  {
    AtSplit(bits, q, [1], rest);
    ValueOfOne(rest);
    hide Value;
    assert bits[q] == [1][0];
    assert bits[q + 1..q + 1 + |rest|] == rest;
  }

  /** What was written with ue, wherever it stands, is read back, up to 33-bit values. */
  lemma GolombReadsBack(bits: seq<bit>, p: nat, value: nat)
    requires BitLength(value + 1) <= 33 && At(bits, p, Golomb(value))
    ensures ReadUe(bits, p, 0) == Some(Coded(value, p + |Golomb(value)|))
  {
    var n := BitLength(value + 1);
    LeadingOne(value + 1);
    ValueFixed(value + 1, n);
    var code := Fixed(value + 1, n);
    assert Golomb(value) == Zeros(n - 1) + code;
    hide *;
    LengthOfZeros(n - 1);
    CodeReads(bits, p, n - 1, code);
  }

  /** Zeros, and behind them a code of one more bit that begins with a one. */
  lemma CodeReads(bits: seq<bit>, p: nat, n: nat, code: seq<bit>)
    requires n <= 32 && |code| == n + 1 && code[0] == 1 && At(bits, p, Zeros(n) + code)
    ensures Value(code) >= 1 && ReadUe(bits, p, 0) == Some(Coded(Value(code) - 1, p + n + |code|))
  {
    hide *;
    var rest := code[1..];
    assert code == [1] + rest;
    AtSplit(bits, p, Zeros(n), code);
    LengthOfZeros(n);
    ZerosAreCounted(bits, p, n, 0);
    OneReads(bits, p + n, rest);
  }

  lemma LengthOfZeros(n: nat)
    ensures |Zeros(n)| == n
  {
  }

  class BitWriter {
    var bits: seq<bit>

    constructor ()
      ensures bits == []
    {
      bits := [];
    }

    method U(value: nat, n: nat)
      modifies this
      ensures bits == old(bits) + Fixed(value, n)
    {
      hide Fixed, ShiftRight;
      var i := 0;
      while i < n
        invariant i <= n && bits == old(bits) + Fixed(value, n)[..i]
      {
        FixedAt(value, n, i);
        bits := bits + [ShiftRight(value, n - 1 - i) % 2];
        i := i + 1;
      }
      assert Fixed(value, n)[..n] == Fixed(value, n);
    }

    method Ue(value: nat)
      modifies this
      ensures bits == old(bits) + Golomb(value)
    {
      hide Fixed;
      var n := BitLength(value + 1);
      FixedZero(n - 1);
      U(0, n - 1);
      U(value + 1, n);
    }

    method Fill()
      modifies this
      ensures bits == Padded(old(bits))
    {
      ghost var missing := (8 - |bits| % 8) % 8;
      ghost var added := 0;
      while |bits| % 8 != 0
        invariant added <= missing && bits == old(bits) + Zeros(added)
        decreases missing - added
      {
        bits := bits + [0];
        added := added + 1;
      }
    }

    method Bytes() returns (data: seq<byte>)
      modifies this
      ensures data == Pack(Padded(old(bits)))
    {
      Fill();
      hide Value, Pack, Padded;
      data := [];
      PackNothing();
      assert bits[0..] == bits && bits[|bits|..] == [];
      var i := 0;
      while i < |bits|
        invariant i % 8 == 0 && i <= |bits| && Whole(bits) && bits == Padded(old(bits))
        invariant data + Pack(bits[i..]) == Pack(bits)
      {
        PackNext(data, bits, i);
        data := data + [Value(bits[i..i + 8])];
        i := i + 8;
      }
    }
  }

  class BitReader {
    const data: seq<byte>
    var pos: nat

    constructor (data: seq<byte>)
      ensures this.data == data && pos == 0 && Valid()
    {
      this.data := data;
      pos := 0;
    }

    predicate Valid()
      reads this
    {
      pos <= 8 * |data|
    }

    /** None where the source runs off the end of the data. */
    method U(n: nat) returns (r: Option<nat>)
      requires Valid()
      modifies this
      ensures Valid()
      ensures Outcome(r) == ReadU(BitsOf(data), old(pos), n)
    {
      hide Value, BitsOf, Fixed, ShiftRight;
      ghost var bits := BitsOf(data);
      assert bits[pos..pos] == [];
      ValueOfNothing();
      var v := 0;
      var i := 0;
      while i < n
        invariant i <= n && pos == old(pos) + i && Valid()
        invariant v == Value(bits[old(pos)..pos])
      {
        if pos / 8 >= |data| { return None; }
        NextBit(data, pos);
        var b := ShiftRight(data[pos / 8], 7 - pos % 8) % 2;
        ValueGrows(bits, old(pos), pos);
        v := 2 * v + b;
        pos := pos + 1;
        i := i + 1;
      }
      return Some(v);
    }

    ghost function Outcome(r: Option<nat>): Option<Coded>
      reads this
    {
      match r case None => None case Some(v) => Some(Coded(v, pos))
    }

    method Ue() returns (r: Option<nat>)
      requires Valid()
      modifies this
      ensures Valid()
      ensures Outcome(r) == ReadUe(BitsOf(data), old(pos), 0)
    {
      hide BitsOf, Pow2;
      ghost var bits := BitsOf(data);
      var zeros := 0;
      while true
        invariant Valid() && zeros <= 32 && ReadUe(bits, pos, zeros) == ReadUe(bits, old(pos), 0)
        decreases 33 - zeros
      {
        ghost var start := pos;
        var b := U(1);
        if b.None? { return None; }
        OneBit(bits, start);
        if b.value != 0 { break; }
        zeros := zeros + 1;
        if zeros > 32 { return None; }
      }
      var rest := Some(0);
      if zeros > 0 { rest := U(zeros); }
      if rest.None? { return None; }
      return Some(Pow2(zeros) - 1 + rest.value);
    }

    method Se() returns (r: Option<int>)
      requires Valid()
      modifies this
      ensures Valid()
      ensures var c := ReadUe(BitsOf(data), old(pos), 0);
              if c.None? then r == None else r == Some(Signed(c.value.value)) && pos == c.value.pos
    {
      var k := Ue();
      if k.None? { return None; }
      var code: int := k.value;
      var v := if code % 2 == 1 then (code + 1) / 2 else -(code / 2);
      return Some(v);
    }
  }

  lemma NextBit(data: seq<byte>, pos: nat)
    requires pos / 8 < |data|
    ensures pos < |BitsOf(data)|
    ensures BitsOf(data)[pos] == ShiftRight(data[pos / 8], 7 - pos % 8) % 2
  {
    BitsAt(data, pos / 8, pos % 8);
    FixedAt(data[pos / 8], 8, pos % 8);
  }

  lemma ValueOfNothing()
    ensures Value([]) == 0
  {
  }

  lemma ValueGrows(bits: seq<bit>, from: nat, to: nat)
    requires from <= to < |bits|
    ensures Value(bits[from..to + 1]) == 2 * Value(bits[from..to]) + bits[to]
  {
    assert bits[from..to + 1][..to - from] == bits[from..to];
  }

  lemma OneBit(bits: seq<bit>, p: nat)
    requires p < |bits|
    ensures ReadU(bits, p, 1) == Some(Coded(bits[p], p + 1))
  {
    assert bits[p..p + 1] == [bits[p]];
    assert Value([bits[p]]) == bits[p] by { assert [bits[p]][..0] == []; }
  }
}
