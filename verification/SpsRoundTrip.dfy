/** baue_sps in tools/sps_resolutions.py, and its sizes read back by sps_size. */
module SpsRoundTrip {
  import opened Sequences
  import opened Bytes
  import opened Wrappers
  import opened BitCodec
  import opened SpsSize

  // ----- Writing -----

  datatype Field = U(value: nat, width: nat) | Ue(value: nat)

  function FieldBits(f: Field): seq<bit> {
    match f case U(value, width) => Fixed(value, width) case Ue(value) => Golomb(value)
  }

  function Emit(fields: seq<Field>): seq<bit> {
    if fields == [] then [] else FieldBits(fields[0]) + Emit(fields[1..])
  }

  function Macroblocks(pixels: nat): nat {
    (pixels + 15) / 16
  }

  /** The crop at the right or at the bottom, in units of two pixels. */
  function CropUnits(pixels: nat): nat {
    (Macroblocks(pixels) * 16 - pixels) / 2
  }

  function CropFields(right: nat, bottom: nat): seq<Field> {
    if right != 0 || bottom != 0 then [U(1, 1), Ue(0), Ue(right), Ue(0), Ue(bottom)] else [U(0, 1)]
  }

  /** Up to the cropping flag. */
  function SpsHead(mbsWide: nat, mbsHigh: nat): (r: seq<Field>)
    requires mbsWide > 0 && mbsHigh > 0
    ensures |r| == 12
  {
    [U(66, 8), U(0, 8), U(31, 8), Ue(0), Ue(0), Ue(2), Ue(1), U(0, 1), Ue(mbsWide - 1), Ue(mbsHigh - 1), U(1, 1),
     U(1, 1)]
  }

  function SpsFields(width: nat, height: nat): seq<Field>
    requires width > 0 && height > 0
  {
    SpsHead(Macroblocks(width), Macroblocks(height)) + CropFields(CropUnits(width), CropUnits(height)) + [U(0, 1)]
  }

  function Sps(width: nat, height: nat): seq<byte>
    requires width > 0 && height > 0
  {
    Pack(Padded(Fixed(0x67, 8) + Emit(SpsFields(width, height))))
  }

  lemma {:induction false} EmitMore(fields: seq<Field>, more: seq<Field>)
    ensures Emit(fields + more) == Emit(fields) + Emit(more)
  {
    hide FieldBits;
    if fields == [] {
      assert fields + more == more;
    } else {
      EmitMore(fields[1..], more);
      assert (fields + more)[1..] == fields[1..] + more;
      var a, b, c := FieldBits(fields[0]), Emit(fields[1..]), Emit(more);
      assert a + (b + c) == a + b + c;
    }
  }

  method Write(w: BitWriter, fields: seq<Field>)
    modifies w
    ensures w.bits == old(w.bits) + Emit(fields)
  {
    var k := 0;
    while k < |fields|
      invariant k <= |fields| && w.bits + Emit(fields[k..]) == old(w.bits) + Emit(fields)
      decreases |fields| - k
    {
      EmitStep(w.bits, fields, k);
      match fields[k] {
        case U(value, width) => w.U(value, width);
        case Ue(value) => w.Ue(value);
      }
      k := k + 1;
    }
    assert fields[k..] == [] && w.bits + [] == w.bits;
  }

  lemma EmitStep(before: seq<bit>, fields: seq<Field>, k: nat)
    requires k < |fields|
    ensures Emit(fields[k..]) == FieldBits(fields[k]) + Emit(fields[k + 1..])
    ensures before + Emit(fields[k..]) == before + FieldBits(fields[k]) + Emit(fields[k + 1..])
  {
    hide FieldBits;
    assert fields[k..][1..] == fields[k + 1..];
    var a, b := FieldBits(fields[k]), Emit(fields[k + 1..]);
    assert before + (a + b) == before + a + b;
  }

  /** baue_sps: the same calls of the writer, in groups. */
  method BuildSps(width: nat, height: nat) returns (nal: seq<byte>)
    requires width > 0 && height > 0
    ensures nal == Sps(width, height)
  {
    hide Emit, Pack, Padded;
    var mbsWide, mbsHigh := (width + 15) / 16, (height + 15) / 16;
    var cropRight, cropBottom := (mbsWide * 16 - width) / 2, (mbsHigh * 16 - height) / 2;
    var w := new BitWriter();
    w.U(0x67, 8);
    ghost var header := Fixed(0x67, 8);
    assert w.bits == header;
    var head := SpsHead(mbsWide, mbsHigh);
    Write(w, head);
    var crop := CropFields(cropRight, cropBottom);
    Write(w, crop);
    Write(w, [U(0, 1)]);
    EmitMore(head, crop);
    EmitMore(head + crop, [U(0, 1)]);
    var a, b, c := Emit(head), Emit(crop), Emit([U(0, 1)]);
    assert header + a + b + c == header + (a + b + c);
    nal := w.Bytes();
  }

  // ----- No long run of zeros, so nothing looks like an escape -----

  const LONG := 22

  predicate HasOne(bits: seq<bit>, from: nat, to: nat) {
    exists k :: from <= k < to && k < |bits| && bits[k] == 1
  }

  /** One of the 22 bits from `i` on is a one. */
  predicate Lit(bits: seq<bit>, i: nat) {
    HasOne(bits, i, i + LONG)
  }

  predicate Gapless(bits: seq<bit>) {
    forall i: nat :: i <= |bits| - LONG ==> Lit(bits, i)
  }

  /** No 22 zeros in a row, and no more than `lead` of them at the front. */
  predicate Gap(bits: seq<bit>, lead: nat) {
    Gapless(bits) && lead < LONG && (HasOne(bits, 0, lead + 1) || |bits| <= lead)
  }

  /** A one of `bits` is one behind anything. */
  lemma ShiftedOne(x: seq<bit>, bits: seq<bit>, from: nat, to: nat)
    requires HasOne(bits, from, to)
    ensures HasOne(x + bits, |x| + from, |x| + to)
  {
    var k :| from <= k < to && k < |bits| && bits[k] == 1;
    assert (x + bits)[|x| + k] == 1;
  }

  lemma WiderHasOne(bits: seq<bit>, from: nat, to: nat, less: nat, more: nat)
    requires HasOne(bits, from, to) && less <= from && to <= more
    ensures HasOne(bits, less, more)
  {
  }

  lemma FrontOne(x: seq<bit>, at: nat, bits: seq<bit>, lead: nat)
    requires at < |x| < LONG && x[at] == 1 && |x| - 1 - at + lead < LONG && Gap(bits, lead)
    ensures Gap(x + bits, at)
  {
    var all := x + bits;
    assert all[at] == 1;
    assert HasOne(all, at, at + 1);
    hide HasOne;
    forall i: nat | i <= |all| - LONG ensures Lit(all, i) {
      if i <= at {
        WiderHasOne(all, at, at + 1, i, i + LONG);
      } else if i < |x| {
        ShiftedOne(x, bits, 0, lead + 1);
        WiderHasOne(all, |x|, |x| + lead + 1, i, i + LONG);
      } else {
        assert Lit(bits, i - |x|);
        ShiftedOne(x, bits, i - |x|, i - |x| + LONG);
      }
    }
    WiderHasOne(all, at, at + 1, 0, at + 1);
  }

  lemma FrontZeros(n: nat, bits: seq<bit>, lead: nat)
    requires n + lead < LONG && Gap(bits, lead)
    ensures Gap(Zeros(n) + bits, lead + n)
  {
    hide HasOne;
    var x := Zeros(n);
    var all := x + bits;
    if HasOne(bits, 0, lead + 1) {
      ShiftedOne(x, bits, 0, lead + 1);
      WiderHasOne(all, n, n + lead + 1, 0, lead + n + 1);
    }
    forall i: nat | i <= |all| - LONG ensures Lit(all, i) {
      if i < n {
        WiderHasOne(all, n, n + lead + 1, i, i + LONG);
      } else {
        assert Lit(bits, i - n);
        ShiftedOne(x, bits, i - n, i - n + LONG);
      }
    }
  }

  /** The fields from `k` on, and the zeros that fill the last byte. */
  predicate FieldGap(fields: seq<Field>, k: nat, pad: nat, lead: nat)
    requires k <= |fields|
  {
    Gap(Emit(fields[k..]) + Zeros(pad), lead)
  }

  lemma EmitFront(fields: seq<Field>, k: nat, pad: nat)
    requires k < |fields|
    ensures Emit(fields[k..]) + Zeros(pad) == FieldBits(fields[k]) + (Emit(fields[k + 1..]) + Zeros(pad))
  {
    EmitStep([], fields, k);
    hide FieldBits, Emit;
    var a, b, c := FieldBits(fields[k]), Emit(fields[k + 1..]), Zeros(pad);
    assert a + b + c == a + (b + c);
  }

  lemma GolombGap(fields: seq<Field>, k: nat, pad: nat, lead: nat)
    requires k < |fields| && fields[k].Ue? && BitLength(fields[k].value + 1) <= 11
    requires FieldGap(fields, k + 1, pad, lead) && BitLength(fields[k].value + 1) + lead <= LONG
    ensures FieldGap(fields, k, pad, BitLength(fields[k].value + 1) - 1)
  {
    var v := fields[k].value;
    EmitFront(fields, k, pad);
    GolombOne(v);
    hide Emit, Gap, Golomb, BitLength;
    FrontOne(Golomb(v), BitLength(v + 1) - 1, Emit(fields[k + 1..]) + Zeros(pad), lead);
  }

  lemma GolombOne(v: nat)
    ensures var n := BitLength(v + 1);
            n > 0 && |Golomb(v)| == 2 * n - 1 && Golomb(v)[n - 1] == 1
  {
    LeadingOne(v + 1);
    hide BitLength, Fixed;
  }

  lemma ZeroGap(fields: seq<Field>, k: nat, pad: nat, lead: nat)
    requires k < |fields| && fields[k].U? && fields[k].value == 0
    requires FieldGap(fields, k + 1, pad, lead) && fields[k].width + lead < LONG
    ensures FieldGap(fields, k, pad, lead + fields[k].width)
  {
    EmitFront(fields, k, pad);
    FixedZero(fields[k].width);
    hide Emit, Gap, Fixed;
    FrontZeros(fields[k].width, Emit(fields[k + 1..]) + Zeros(pad), lead);
  }

  lemma FixedGap(fields: seq<Field>, k: nat, pad: nat, lead: nat, at: nat)
    requires k < |fields| && fields[k].U? && at < fields[k].width < LONG
    requires ShiftRight(fields[k].value, fields[k].width - 1 - at) % 2 == 1
    requires FieldGap(fields, k + 1, pad, lead) && fields[k].width - 1 - at + lead < LONG
    ensures FieldGap(fields, k, pad, at)
  {
    var f := fields[k];
    EmitFront(fields, k, pad);
    FixedAt(f.value, f.width, at);
    hide Emit, Gap, Fixed, ShiftRight;
    FrontOne(Fixed(f.value, f.width), at, Emit(fields[k + 1..]) + Zeros(pad), lead);
  }

  lemma SmallShifts()
    ensures ShiftRight(1, 0) % 2 == 1
    ensures ShiftRight(66, 6) % 2 == 1 && ShiftRight(31, 4) % 2 == 1
  {
    assert ShiftRight(66, 6) == ShiftRight(33, 5) == ShiftRight(16, 4) == ShiftRight(8, 3) == ShiftRight(4, 2)
        == ShiftRight(2, 1) == ShiftRight(1, 0);
    assert ShiftRight(31, 4) == ShiftRight(15, 3) == ShiftRight(7, 2) == ShiftRight(3, 1) == ShiftRight(1, 0);
  }

  /** n < 2^k takes at most k bits. */
  lemma {:induction false} FewBits(n: nat, k: nat)
    requires n < Pow2(k)
    ensures BitLength(n) <= k
    decreases k
  {
    if n > 0 { FewBits(n / 2, k - 1); }
  }

  lemma CodeLengths()
    ensures BitLength(1) == 1 && BitLength(2) == 2 && BitLength(3) == 2
  {
  }

  const LARGEST := 32752

  predicate Coverable(pixels: nat) {
    0 < pixels <= LARGEST
  }

  lemma SizeLengths(pixels: nat)
    requires Coverable(pixels)
    ensures 0 < Macroblocks(pixels) <= 2047 && 0 < BitLength(Macroblocks(pixels)) <= 11
    ensures CropUnits(pixels) <= 7 && BitLength(CropUnits(pixels) + 1) <= 4
  {
    assert Pow2(11) == 2048 && Pow2(4) == 16 by { assert Pow2(8) == 256 by { assert Pow2(4) == 16; } }
    FewBits(Macroblocks(pixels), 11);
    FewBits(CropUnits(pixels) + 1, 4);
  }

  lemma CropGap(fields: seq<Field>, right: nat, bottom: nat, pad: nat)
    requires fields == CropFields(right, bottom) + [U(0, 1)] && pad < 8
    requires BitLength(right + 1) <= 4 && BitLength(bottom + 1) <= 4
    ensures FieldGap(fields, 0, pad, 9)
  {
    CodeLengths();
    SmallShifts();
    var n := |fields|;
    assert fields[n - 1] == U(0, 1);
    NothingBehind(fields, pad);
    hide FieldGap, BitLength, ShiftRight;
    if right != 0 || bottom != 0 {
      assert fields[0] == U(1, 1) && fields[1] == Ue(0) && fields[2] == Ue(right) && fields[3] == Ue(0) && fields[4] == Ue(bottom);
      ZeroGap(fields, 5, pad, 7);
      GolombGap(fields, 4, pad, 8);
      GolombGap(fields, 3, pad, BitLength(bottom + 1) - 1);
      GolombGap(fields, 2, pad, 0);
      GolombGap(fields, 1, pad, BitLength(right + 1) - 1);
      FixedGap(fields, 0, pad, 0, 0);
      WiderGap(fields, 0, pad, 0, 9);
    } else {
      assert fields[0] == U(0, 1);
      ZeroGap(fields, 1, pad, 7);
      ZeroGap(fields, 0, pad, 8);
    }
  }

  lemma NothingBehind(fields: seq<Field>, pad: nat)
    requires pad < 8
    ensures FieldGap(fields, |fields|, pad, 7)
  {
    assert fields[|fields|..] == [];
    assert [] + Zeros(pad) == Zeros(pad);
  }

  lemma WiderGap(fields: seq<Field>, k: nat, pad: nat, lead: nat, wider: nat)
    requires k <= |fields| && FieldGap(fields, k, pad, lead) && lead <= wider < LONG
    ensures FieldGap(fields, k, pad, wider)
  {
  }

  predicate HasHead(fields: seq<Field>, mbsWide: nat, mbsHigh: nat)
    requires mbsWide > 0 && mbsHigh > 0
  {
    |fields| >= 12 && forall k :: 0 <= k < 12 ==> fields[k] == SpsHead(mbsWide, mbsHigh)[k]
  }

  lemma HeadIs(fields: seq<Field>, mbsWide: nat, mbsHigh: nat)
    requires mbsWide > 0 && mbsHigh > 0 && HasHead(fields, mbsWide, mbsHigh)
    ensures |fields| >= 12
    ensures fields[0] == U(66, 8) && fields[1] == U(0, 8) && fields[2] == U(31, 8) && fields[3] == Ue(0)
    ensures fields[4] == Ue(0) && fields[5] == Ue(2) && fields[6] == Ue(1) && fields[7] == U(0, 1)
    ensures fields[8] == Ue(mbsWide - 1) && fields[9] == Ue(mbsHigh - 1) && fields[10] == U(1, 1) && fields[11] == U(1, 1)
  {
  }

  lemma SizeGap(fields: seq<Field>, mbsWide: nat, mbsHigh: nat, pad: nat)
    requires mbsWide > 0 && mbsHigh > 0 && 0 < BitLength(mbsWide) <= 11 && 0 < BitLength(mbsHigh) <= 11
    requires HasHead(fields, mbsWide, mbsHigh) && FieldGap(fields, 12, pad, 9)
    ensures FieldGap(fields, 8, pad, BitLength(mbsWide) - 1)
  {
    SmallShifts();
    hide FieldGap, HasHead, SpsHead, BitLength, ShiftRight;
    HeadIs(fields, mbsWide, mbsHigh);
    FixedGap(fields, 11, pad, 9, 0);
    FixedGap(fields, 10, pad, 0, 0);
    GolombGap(fields, 9, pad, 0);
    GolombGap(fields, 8, pad, BitLength(mbsHigh) - 1);
  }

  lemma HeadGap(fields: seq<Field>, mbsWide: nat, mbsHigh: nat, pad: nat)
    requires mbsWide > 0 && mbsHigh > 0 && 0 < BitLength(mbsWide) <= 11 && 0 < BitLength(mbsHigh) <= 11
    requires HasHead(fields, mbsWide, mbsHigh) && FieldGap(fields, 12, pad, 9)
    ensures FieldGap(fields, 0, pad, 1)
  {
    CodeLengths();
    SmallShifts();
    hide FieldGap, HasHead, SpsHead, BitLength, ShiftRight;
    SizeGap(fields, mbsWide, mbsHigh, pad);
    HeadIs(fields, mbsWide, mbsHigh);
    ZeroGap(fields, 7, pad, BitLength(mbsWide) - 1);
    GolombGap(fields, 6, pad, BitLength(mbsWide));
    GolombGap(fields, 5, pad, 1);
    GolombGap(fields, 4, pad, 1);
    GolombGap(fields, 3, pad, 0);
    FixedGap(fields, 2, pad, 0, 3);
    ZeroGap(fields, 1, pad, 3);
    FixedGap(fields, 0, pad, 11, 1);
  }

  lemma SpsHasHead(width: nat, height: nat)
    requires width > 0 && height > 0
    ensures HasHead(SpsFields(width, height), Macroblocks(width), Macroblocks(height))
    ensures SpsFields(width, height)[12..] == CropFields(CropUnits(width), CropUnits(height)) + [U(0, 1)]
  {
    hide SpsHead, CropFields, Macroblocks, CropUnits;
  }

  lemma SpsGap(width: nat, height: nat, pad: nat)
    requires Coverable(width) && Coverable(height) && pad < 8
    ensures FieldGap(SpsFields(width, height), 0, pad, 1)
  {
    var fields := SpsFields(width, height);
    var tail := CropFields(CropUnits(width), CropUnits(height)) + [U(0, 1)];
    SizeLengths(width);
    SizeLengths(height);
    SpsHasHead(width, height);
    assert tail[0..] == tail;
    hide SpsFields, CropFields, CropUnits, Macroblocks, BitLength, HasHead, Gap;
    CropGap(tail, CropUnits(width), CropUnits(height), pad);
    HeadGap(fields, Macroblocks(width), Macroblocks(height), pad);
  }

  // ----- Reading back -----

  predicate Fits(f: Field) {
    match f case U(value, width) => value < Pow2(width) case Ue(value) => BitLength(value + 1) <= 33
  }

  /** The fields from `k` on are what the bits from `p` on begin with. */
  predicate Stands(bits: seq<bit>, fields: seq<Field>, k: nat, p: nat)
    requires k <= |fields|
  {
    At(bits, p, Emit(fields[k..]))
  }

  lemma ReadsField(bits: seq<bit>, fields: seq<Field>, k: nat, p: nat) returns (q: nat)
    requires k < |fields| && Fits(fields[k]) && Stands(bits, fields, k, p)
    ensures Stands(bits, fields, k + 1, q)
    ensures fields[k].U? ==> ReadU(bits, p, fields[k].width) == Some(Coded(fields[k].value, q))
    ensures fields[k].Ue? ==> ReadUe(bits, p, 0) == Some(Coded(fields[k].value, q))
  {
    hide Fixed, Golomb, Emit, BitLength, Pow2, ReadU, ReadUe, At;
    EmitStep([], fields, k);
    AtSplit(bits, p, FieldBits(fields[k]), Emit(fields[k + 1..]));
    q := p + |FieldBits(fields[k])|;
    match fields[k]
    case U(value, width) => FixedReadsBack(bits, p, value, width);
    case Ue(value) => GolombReadsBack(bits, p, value);
  }

  lemma HeadFits(mbsWide: nat, mbsHigh: nat, k: nat)
    requires mbsWide > 0 && mbsHigh > 0 && BitLength(mbsWide) <= 33 && BitLength(mbsHigh) <= 33 && k < 12
    ensures Fits(SpsHead(mbsWide, mbsHigh)[k])
  {
    CodeLengths();
    assert Pow2(1) == 2;
    assert Pow2(8) == 256 by { assert Pow2(4) == 16; }
    hide BitLength, Pow2;
  }

  lemma BaselineHead(bits: seq<bit>, flags: nat, level: nat, id: nat, frameNum: nat, kind: nat, p4: nat, p: nat, q: nat)
    requires ReadU(bits, 0, 8) == Some(Coded(66, 8)) && ReadU(bits, 8, 8) == Some(Coded(flags, 16))
    requires ReadU(bits, 16, 8) == Some(Coded(level, 24)) && ReadUe(bits, 24, 0) == Some(Coded(id, p4))
    requires ReadUe(bits, p4, 0) == Some(Coded(frameNum, p)) && ReadUe(bits, p, 0) == Some(Coded(kind, q)) && kind >= 2
    ensures HeadFields(bits) == Some(Coded(1, p)) && PocFields(bits, p) == Some(q)
  {
    hide ReadU, ReadUe, HighFields, SkipCodes;
    assert 66 !in HIGH_PROFILES;
  }

  lemma AllFit(fields: seq<Field>, mbsWide: nat, mbsHigh: nat)
    requires mbsWide > 0 && mbsHigh > 0 && BitLength(mbsWide) <= 33 && BitLength(mbsHigh) <= 33
    requires HasHead(fields, mbsWide, mbsHigh)
    ensures forall k :: 0 <= k < 12 ==> Fits(fields[k])
  {
    forall k: nat | k < 12 ensures Fits(fields[k]) { HeadFits(mbsWide, mbsHigh, k); }
  }

  /** profile_idc to max_num_ref_frames' place. */
  lemma HeadReads(bits: seq<bit>, fields: seq<Field>, mbsWide: nat, mbsHigh: nat) returns (p: nat, q: nat)
    requires mbsWide > 0 && mbsHigh > 0 && BitLength(mbsWide) <= 33 && BitLength(mbsHigh) <= 33
    requires HasHead(fields, mbsWide, mbsHigh) && Stands(bits, fields, 0, 0)
    ensures HeadFields(bits) == Some(Coded(1, p)) && PocFields(bits, p) == Some(q) && Stands(bits, fields, 6, q)
  {
    hide *;
    AllFit(fields, mbsWide, mbsHigh);
    HeadIs(fields, mbsWide, mbsHigh);
    var p1 := ReadsField(bits, fields, 0, 0);
    ReadUMoves(bits, 0, 8);
    var p2 := ReadsField(bits, fields, 1, p1);
    ReadUMoves(bits, 8, 8);
    var p3 := ReadsField(bits, fields, 2, p2);
    ReadUMoves(bits, 16, 8);
    var p4 := ReadsField(bits, fields, 3, p3);
    p := ReadsField(bits, fields, 4, p4);
    q := ReadsField(bits, fields, 5, p);
    BaselineHead(bits, 0, 31, 0, 0, 2, p4, p, q);
  }

  lemma CropFits(right: nat, bottom: nat)
    requires BitLength(right + 1) <= 33 && BitLength(bottom + 1) <= 33
    ensures Fits(U(1, 1)) && Fits(U(0, 1)) && Fits(Ue(0)) && Fits(Ue(right)) && Fits(Ue(bottom))
  {
    CodeLengths();
    assert Pow2(1) == 2;
    hide BitLength;
  }

  lemma CropIs(fields: seq<Field>, right: nat, bottom: nat)
    requires |fields| > 12 && fields[12..] == CropFields(right, bottom) + [U(0, 1)]
    ensures if right != 0 || bottom != 0 then
              |fields| == 18 && fields[12] == U(1, 1) && fields[13] == Ue(0) && fields[14] == Ue(right)
              && fields[15] == Ue(0) && fields[16] == Ue(bottom)
            else fields[12] == U(0, 1)
  {
    var crop := fields[12..];
    assert forall k :: 0 <= k < |crop| ==> fields[12 + k] == crop[k];
  }

  lemma CropReads(bits: seq<bit>, fields: seq<Field>, p: nat, right: nat, bottom: nat)
    requires |fields| > 12 && fields[12..] == CropFields(right, bottom) + [U(0, 1)] && Stands(bits, fields, 12, p)
    requires BitLength(right + 1) <= 33 && BitLength(bottom + 1) <= 33
    ensures CropAt(bits, p) == Some(Crop(0, right, 0, bottom))
  {
    CropFits(right, bottom);
    CropIs(fields, right, bottom);
    hide BitLength, Stands, ReadU, ReadUe, Fits, CropFields;
    var p1 := ReadsField(bits, fields, 12, p);
    if right != 0 || bottom != 0 {
      var p2 := ReadsField(bits, fields, 13, p1);
      var p3 := ReadsField(bits, fields, 14, p2);
      var p4 := ReadsField(bits, fields, 15, p3);
      var p5 := ReadsField(bits, fields, 16, p4);
    }
  }

  lemma FramesOnly(bits: seq<bit>, refs: nat, gaps: nat, wide: nat, high: nat, direct: nat, crop: Crop, chroma: nat,
                   q: nat, p1: nat, p2: nat, p3: nat, p4: nat, p5: nat, p6: nat)
    requires ReadUe(bits, q, 0) == Some(Coded(refs, p1)) && ReadU(bits, p1, 1) == Some(Coded(gaps, p2))
    requires ReadUe(bits, p2, 0) == Some(Coded(wide, p3)) && ReadUe(bits, p3, 0) == Some(Coded(high, p4))
    requires ReadU(bits, p4, 1) == Some(Coded(1, p5)) && ReadU(bits, p5, 1) == Some(Coded(direct, p6))
    requires CropAt(bits, p6) == Some(crop)
    ensures SizeFields(bits, q, chroma) == Some(Dimensions(chroma, wide + 1, high + 1, 1, crop))
  {
    hide ReadU, ReadUe, CropAt, Dimensions;
  }

  lemma SizeReads(bits: seq<bit>, fields: seq<Field>, q: nat, mbsWide: nat, mbsHigh: nat, right: nat, bottom: nat)
    requires mbsWide > 0 && mbsHigh > 0 && BitLength(mbsWide) <= 33 && BitLength(mbsHigh) <= 33
    requires HasHead(fields, mbsWide, mbsHigh) && Stands(bits, fields, 6, q)
    requires |fields| > 12 && fields[12..] == CropFields(right, bottom) + [U(0, 1)]
    requires BitLength(right + 1) <= 33 && BitLength(bottom + 1) <= 33
    ensures SizeFields(bits, q, 1) == Some(Dimensions(1, mbsWide, mbsHigh, 1, Crop(0, right, 0, bottom)))
  {
    hide *;
    AllFit(fields, mbsWide, mbsHigh);
    HeadIs(fields, mbsWide, mbsHigh);
    var p1 := ReadsField(bits, fields, 6, q);
    var p2 := ReadsField(bits, fields, 7, p1);
    var p3 := ReadsField(bits, fields, 8, p2);
    var p4 := ReadsField(bits, fields, 9, p3);
    var p5 := ReadsField(bits, fields, 10, p4);
    var p6 := ReadsField(bits, fields, 11, p5);
    CropReads(bits, fields, p6, right, bottom);
    FramesOnly(bits, 1, 0, mbsWide - 1, mbsHigh - 1, 1, Crop(0, right, 0, bottom), 1, q, p1, p2, p3, p4, p5, p6);
  }

  // ----- The round trip -----

  /** The fields as bits, filled up: what follows the header byte. */
  function Payload(width: nat, height: nat): seq<bit>
    requires width > 0 && height > 0
  {
    Padded(Emit(SpsFields(width, height)))
  }

  lemma HeaderIsOneByte(header: seq<bit>, body: seq<bit>)
    requires |header| == 8
    ensures Pack(Padded(header + body)) != [] && Pack(Padded(header + body))[1..] == Pack(Padded(body))
  {
    var all := Padded(header + body);
    var pad := Zeros((8 - |body| % 8) % 8);
    assert all == header + body + pad;
    hide Value, Padded;
    assert header + body + pad == header + (body + pad);
    assert all[8..] == body + pad;
    assert Padded(body) == body + pad by { PaddedIs(body); }
    PackNext([], all, 0);
    assert all[0..] == all;
    hide Pack;
    assert Pack(all) == [] + Pack(all) == [] + [Value(all[0..8])] + Pack(all[8..]);
  }

  lemma PaddedIs(bits: seq<bit>)
    ensures Padded(bits) == bits + Zeros((8 - |bits| % 8) % 8)
  {
  }

  /** Bytes whose bits have no long run of zeros contain no escape. */
  lemma GaplessIsUnescaped(data: seq<byte>, k: nat)
    requires Gapless(BitsOf(data)) && k < |data|
    ensures !IsEscape(data, k)
  {
    hide BitsOf, Gapless;
    if IsEscape(data, k) {
      var i := LitAt(BitsOf(data), 8 * k);
      ZeroBit(data, k, i);
    }
  }

  lemma LitAt(bits: seq<bit>, i: nat) returns (j: nat)
    requires Gapless(bits) && i + LONG <= |bits|
    ensures i <= j < i + LONG && j < |bits| && bits[j] == 1
  {
    assert Lit(bits, i);
    j :| i <= j < i + LONG && j < |bits| && bits[j] == 1;
  }

  /** 0, 0, 3 begin with 22 zero bits. */
  lemma ZeroBit(data: seq<byte>, k: nat, i: nat)
    requires IsEscape(data, k) && 8 * k <= i < 8 * k + LONG && i < |BitsOf(data)|
    ensures BitsOf(data)[i] == 0
  {
    hide BitsOf;
    if i < 8 * k + 8 {
      ZeroByte(data, k, i - 8 * k);
    } else if i < 8 * k + 16 {
      ZeroByte(data, k + 1, i - 8 * k - 8);
    } else {
      BitsAt(data, k + 2, i - 8 * k - 16);
      ThreeStartsWithZeros(i - 8 * k - 16);
    }
  }

  lemma ZeroByte(data: seq<byte>, i: nat, k: nat)
    requires i < |data| && data[i] == 0 && k < 8
    ensures BitsOf(data)[8 * i + k] == 0
  {
    BitsAt(data, i, k);
    FixedZero(8);
  }

  lemma {:induction false} NothingLeft(k: nat)
    ensures ShiftRight(0, k) == 0
    decreases k
  {
    if k > 0 { NothingLeft(k - 1); }
  }

  lemma ThreeStartsWithZeros(k: nat)
    requires k < 6
    ensures Fixed(3, 8)[k] == 0
  {
    FixedAt(3, 8, k);
    NothingLeft(5 - k);
    hide Fixed;
    assert ShiftRight(3, 7 - k) == ShiftRight(1, 6 - k) == ShiftRight(0, 5 - k);
  }

  lemma PaddedGap(fields: seq<Field>)
    requires FieldGap(fields, 0, (8 - |Emit(fields)| % 8) % 8, 1)
    ensures Gapless(Padded(Emit(fields)))
  {
    hide Emit, Gapless;
    assert fields[0..] == fields;
  }

  lemma SpsHasNoEscape(width: nat, height: nat, k: nat)
    requires Coverable(width) && Coverable(height)
    ensures var data := Pack(Payload(width, height)); k < |data| ==> !IsEscape(data, k)
  {
    var fields := SpsFields(width, height);
    var bits := Payload(width, height);
    assert bits == Padded(Emit(fields));
    hide *;
    SpsGap(width, height, (8 - |Emit(fields)| % 8) % 8);
    PaddedGap(fields);
    BitsOfPacked(bits);
    var data := Pack(bits);
    if k < |data| { GaplessIsUnescaped(data, k); }
  }

  lemma PayloadReads(width: nat, height: nat)
    requires Coverable(width) && Coverable(height)
    ensures SizeInBits(Payload(width, height))
            == Some(Dimensions(1, Macroblocks(width), Macroblocks(height), 1, Crop(0, CropUnits(width), 0, CropUnits(height))))
  {
    var fields := SpsFields(width, height);
    var bits := Payload(width, height);
    SizeLengths(width);
    SizeLengths(height);
    SpsHasHead(width, height);
    assert fields[0..] == fields;
    assert Stands(bits, fields, 0, 0) by { PaddedIs(Emit(fields)); }
    assert |fields| > 12;
    hide *;
    var p, q := HeadReads(bits, fields, Macroblocks(width), Macroblocks(height));
    SizeReads(bits, fields, q, Macroblocks(width), Macroblocks(height), CropUnits(width), CropUnits(height));
    InParts(bits, 1, p, q);
  }

  lemma InParts(bits: seq<bit>, chroma: nat, p: nat, q: nat)
    requires HeadFields(bits) == Some(Coded(chroma, p)) && PocFields(bits, p) == Some(q)
    ensures SizeInBits(bits) == SizeFields(bits, q, chroma)
  {
    hide HeadFields, PocFields, SizeFields;
  }

  /** Sizes are read back as they were written, odd ones rounded up to even. */
  lemma SizeReadsBack(width: nat, height: nat)
    requires Coverable(width) && Coverable(height)
    ensures SizeOf(Sps(width, height)) == Some((width + width % 2, height + height % 2))
  {
    var nal := Sps(width, height);
    HeaderIsOneByte(Fixed(0x67, 8), Emit(SpsFields(width, height)));
    var data := Pack(Payload(width, height));
    assert nal[1..] == data;
    forall k: nat | k < |data| ensures !IsEscape(data, k) { SpsHasNoEscape(width, height, k); }
    NothingEscaped(data, 0);
    BitsOfPacked(Payload(width, height));
    PayloadReads(width, height);
    hide Payload, Pack, Sps, SizeInBits, Unescaped, BitsOf;
    RestoredByCrop(width, height);
  }

  /** Exactly the even sizes survive. */
  lemma EvenSizesSurvive(width: nat, height: nat)
    requires Coverable(width) && Coverable(height)
    ensures SizeOf(Sps(width, height)) == Some((width as int, height as int)) <==> width % 2 == 0 && height % 2 == 0
  {
    hide *;
    SizeReadsBack(width, height);
  }

  /** Rounded up, at most 15 pixels too many, and as many too many as are missing to even. */
  lemma RoundedUp(pixels: nat)
    ensures 0 <= Macroblocks(pixels) * 16 - pixels < 16
  {
  }

  lemma HalfOf(n: nat)
    ensures 2 * (n / 2) == n - n % 2
  {
  }

  lemma EvenAndRest(k: int, rest: nat)
    requires rest < 2
    ensures (2 * k + rest) % 2 == rest
  {
  }

  lemma SameParity(blocks: nat, pixels: nat)
    ensures (blocks * 16 - pixels) % 2 == pixels % 2
  {
    var rest := pixels % 2;
    var k := 8 * blocks - pixels / 2 - rest;
    assert blocks * 16 - pixels == 2 * k + rest;
    EvenAndRest(k, rest);
  }

  lemma AxisRestored(pixels: nat)
    ensures Macroblocks(pixels) * 16 - 2 * CropUnits(pixels) == pixels + pixels % 2
  {
    var blocks := Macroblocks(pixels);
    RoundedUp(pixels);
    hide Macroblocks;
    var excess: nat := blocks * 16 - pixels;
    HalfOf(excess);
    SameParity(blocks, pixels);
  }

  lemma RestoredByCrop(width: nat, height: nat)
    ensures Dimensions(1, Macroblocks(width), Macroblocks(height), 1, Crop(0, CropUnits(width), 0, CropUnits(height)))
            == (width + width % 2, height + height % 2)
  {
    AxisRestored(width);
    AxisRestored(height);
    hide Macroblocks, CropUnits;
  }
}
