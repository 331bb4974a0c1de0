/** Any sequence parameter set, written as section 7.3.2.1.1 of ITU-T H.264 has it, and the size that is
    read from it: all profiles, scaling lists, picture order count types, interlacing and cropping. */
module SpsSyntax {
  import opened Sequences
  import opened Bytes
  import opened Wrappers
  import opened BitCodec
  import opened SpsSize
  import opened SpsRoundTrip

  // ----- The syntax elements -----

  /** The scaling lists as their delta_scale values; a list that is not sent is None. */
  datatype High = High(chroma: nat, plane: nat, lumaDepth: nat, chromaDepth: nat, bypass: nat,
                       lists: Option<seq<Option<seq<int>>>>)

  datatype Poc =
    | Poc0(log2MaxLsb: nat)
    | Poc1(always: nat, nonRef: int, topToBottom: int, cycle: seq<int>)
    | Poc2

  /** frame_mbs_only_flag, or mb_adaptive_frame_field_flag. */
  datatype Coding = FramesOnly | Mixed(adaptive: nat)

  datatype Set = Set(profile: nat, flags: nat, level: nat, id: nat, high: Option<High>, frameNum: nat, poc: Poc,
                     refs: nat, gaps: nat, mbsWide: nat, mapUnits: nat, coding: Coding, direct: nat,
                     crop: Option<Crop>)

  /** se(v): section 9.1.1. */
  function SeCode(v: int): nat {
    if v > 0 then 2 * v - 1 else -2 * v
  }

  function DeltasThen(deltas: seq<int>, rest: seq<Field>): seq<Field> {
    if deltas == [] then rest else [Ue(SeCode(deltas[0]))] + DeltasThen(deltas[1..], rest)
  }

  function ListsThen(lists: seq<Option<seq<int>>>, rest: seq<Field>): seq<Field> {
    if lists == [] then rest
    else match lists[0]
      case None => [U(0, 1)] + ListsThen(lists[1..], rest)
      case Some(deltas) => [U(1, 1)] + DeltasThen(deltas, ListsThen(lists[1..], rest))
  }

  function ScalingThen(lists: Option<seq<Option<seq<int>>>>, rest: seq<Field>): seq<Field> {
    match lists case None => [U(0, 1)] + rest case Some(ls) => [U(1, 1)] + ListsThen(ls, rest)
  }

  function HighThen(h: High, rest: seq<Field>): seq<Field> {
    var depths := [Ue(h.lumaDepth)] + ([Ue(h.chromaDepth)] + ([U(h.bypass, 1)] + ScalingThen(h.lists, rest)));
    [Ue(h.chroma)] + if h.chroma == 3 then [U(h.plane, 1)] + depths else depths
  }

  function PocThen(poc: Poc, rest: seq<Field>): seq<Field> {
    match poc
    case Poc0(log2) => [Ue(0)] + ([Ue(log2)] + rest)
    case Poc1(always, nonRef, topToBottom, cycle) =>
      [Ue(1)] + ([U(always, 1)] + ([Ue(SeCode(nonRef))] + ([Ue(SeCode(topToBottom))]
                                                           + ([Ue(|cycle|)] + DeltasThen(cycle, rest)))))
    case Poc2 => [Ue(2)] + rest
  }

  function CropThen(crop: Option<Crop>, rest: seq<Field>): seq<Field> {
    match crop
    case None => [U(0, 1)] + rest
    case Some(c) => [U(1, 1)] + ([Ue(c.left)] + ([Ue(c.right)] + ([Ue(c.top)] + ([Ue(c.bottom)] + rest))))
  }

  function SizeThen(s: Set, rest: seq<Field>): seq<Field>
    requires s.mbsWide > 0 && s.mapUnits > 0
  {
    [Ue(s.refs)] + ([U(s.gaps, 1)] + ([Ue(s.mbsWide - 1)] + ([Ue(s.mapUnits - 1)]
                                                           + CodingThen(s, [U(s.direct, 1)] + CropThen(s.crop, rest)))))
  }

  function CodingThen(s: Set, rest: seq<Field>): seq<Field> {
    match s.coding case FramesOnly => [U(1, 1)] + rest case Mixed(adaptive) => [U(0, 1)] + ([U(adaptive, 1)] + rest)
  }

  function SetFields(s: Set): seq<Field>
    requires s.mbsWide > 0 && s.mapUnits > 0
  {
    [U(s.profile, 8)] + ([U(s.flags, 8)] + ([U(s.level, 8)] + ([Ue(s.id)]
                                                             + ProfileThen(s, [Ue(s.frameNum)]
                                                                              + PocThen(s.poc, SizeThen(s, []))))))
  }

  function ProfileThen(s: Set, rest: seq<Field>): seq<Field> {
    match s.high case None => rest case Some(h) => HighThen(h, rest)
  }

  // ----- What is allowed -----

  predicate Codable(n: nat) {
    BitLength(n + 1) <= 33
  }

  /** A list of `left` scales: it ends early once the next scale would be 0. */
  predicate IsList(deltas: seq<int>, left: nat, last: int, next: int)
    decreases left
  {
    if left == 0 || next == 0 then deltas == []
    else
      deltas != [] && Codable(SeCode(deltas[0])) &&
      var n := (last + deltas[0] + 256) % 256;
      IsList(deltas[1..], left - 1, if n == 0 then last else n, n)
  }

  /** Lists 0 to 5 are for blocks of 4x4, the others for blocks of 8x8. */
  predicate AreLists(lists: seq<Option<seq<int>>>, i: nat) {
    forall k :: 0 <= k < |lists| && lists[k].Some? ==> IsList(lists[k].value, if i + k < 6 then 16 else 64, 8, 8)
  }

  predicate IsHigh(h: High) {
    && Codable(h.chroma) && h.plane < 2 && Codable(h.lumaDepth) && Codable(h.chromaDepth) && h.bypass < 2
    && (h.lists.Some? ==> |h.lists.value| == (if h.chroma == 3 then 12 else 8) && AreLists(h.lists.value, 0))
  }

  predicate AllCodable(deltas: seq<int>) {
    forall k :: 0 <= k < |deltas| ==> Codable(SeCode(deltas[k]))
  }

  predicate IsPoc(poc: Poc) {
    match poc
    case Poc0(log2) => Codable(log2)
    case Poc1(always, nonRef, topToBottom, cycle) =>
      && always < 2 && Codable(SeCode(nonRef)) && Codable(SeCode(topToBottom)) && Codable(|cycle|) && AllCodable(cycle)
    case Poc2 => true
  }

  /** The profiles with the additional fields, section 7.3.2.1.1. */
  const HIGH := {100, 110, 122, 244, 44, 83, 86, 118, 128, 138, 139, 134, 135}

  predicate IsSet(s: Set) {
    && s.profile < 256 && s.flags < 256 && s.level < 256 && Codable(s.id) && Codable(s.frameNum)
    && (s.high.Some? <==> s.profile in HIGH) && (s.high.Some? ==> IsHigh(s.high.value)) && IsPoc(s.poc)
    && Codable(s.refs) && s.gaps < 2 && 0 < s.mbsWide && Codable(s.mbsWide - 1) && 0 < s.mapUnits
    && Codable(s.mapUnits - 1) && s.direct < 2 && (s.coding.Mixed? ==> s.coding.adaptive < 2)
    && (s.crop.Some? ==>
          var c := s.crop.value; Codable(c.left) && Codable(c.right) && Codable(c.top) && Codable(c.bottom))
  }

  // ----- Reading field by field -----

  lemma Front(bits: seq<bit>, p: nat, f: Field, rest: seq<Field>) returns (q: nat)
    requires At(bits, p, Emit([f] + rest)) && Fits(f)
    ensures At(bits, q, Emit(rest))
    ensures f.U? ==> ReadU(bits, p, f.width) == Some(Coded(f.value, q)) && q == p + f.width
    ensures f.Ue? ==> ReadUe(bits, p, 0) == Some(Coded(f.value, q))
  {
    hide *;
    EmitFirst(f, rest);
    AtSplit(bits, p, FieldBits(f), Emit(rest));
    q := FieldReads(bits, p, f);
  }

  lemma EmitFirst(f: Field, rest: seq<Field>)
    ensures Emit([f] + rest) == FieldBits(f) + Emit(rest)
  {
    hide FieldBits;
    assert ([f] + rest)[1..] == rest;
  }

  lemma FieldReads(bits: seq<bit>, p: nat, f: Field) returns (q: nat)
    requires At(bits, p, FieldBits(f)) && Fits(f)
    ensures q == p + |FieldBits(f)|
    ensures f.U? ==> ReadU(bits, p, f.width) == Some(Coded(f.value, q)) && q == p + f.width
    ensures f.Ue? ==> ReadUe(bits, p, 0) == Some(Coded(f.value, q))
  {
    hide Fixed, Golomb, BitLength, Pow2, ReadU, ReadUe, At;
    q := p + |FieldBits(f)|;
    match f
    case U(value, width) => FixedReadsBack(bits, p, value, width);
    case Ue(value) => GolombReadsBack(bits, p, value);
  }

  lemma SeReads(v: int)
    ensures Signed(SeCode(v)) == v
  {
  }

  lemma Flag(v: nat)
    requires v < 2
    ensures Fits(U(v, 1))
  {
    assert Pow2(1) == 2;
  }

  lemma Octet(v: nat)
    requires v < 256
    ensures Fits(U(v, 8))
  {
    assert Pow2(8) == 256 by { assert Pow2(4) == 16; }
  }

  lemma {:induction false} DeltasSkipped(bits: seq<bit>, p: nat, deltas: seq<int>, rest: seq<Field>) returns (q: nat)
    requires At(bits, p, Emit(DeltasThen(deltas, rest))) && AllCodable(deltas)
    ensures At(bits, q, Emit(rest)) && SkipCodes(bits, p, |deltas|) == Some(q)
    decreases |deltas|
  {
    hide At, Emit, ReadUe, Codable, SeCode;
    if deltas == [] {
      q := p;
    } else {
      var code := SeCode(deltas[0]);
      assert Fits(Ue(code)) by { CodableFits(code); }
      var next := Front(bits, p, Ue(code), DeltasThen(deltas[1..], rest));
      q := DeltasSkipped(bits, next, deltas[1..], rest);
    }
  }

  lemma CodableFits(n: nat)
    ensures Codable(n) <==> Fits(Ue(n))
  {
  }

  lemma {:induction false} ListRead(bits: seq<bit>, p: nat, deltas: seq<int>, left: nat, last: int, next: int,
                                    rest: seq<Field>) returns (q: nat)
    requires At(bits, p, Emit(DeltasThen(deltas, rest))) && IsList(deltas, left, last, next)
    ensures At(bits, q, Emit(rest)) && ScalingList(bits, p, left, last, next) == Some(q)
    decreases left
  {
    hide At, Emit, ReadUe, Codable, SeCode, Signed;
    if left == 0 {
      q := p;
    } else if next == 0 {
      q := ListRead(bits, p, deltas, left - 1, last, 0, rest);
    } else {
      var code := SeCode(deltas[0]);
      CodableFits(code);
      SeReads(deltas[0]);
      var after := Front(bits, p, Ue(code), DeltasThen(deltas[1..], rest));
      var n := (last + deltas[0] + 256) % 256;
      q := ListRead(bits, after, deltas[1..], left - 1, if n == 0 then last else n, n, rest);
    }
  }

  lemma {:induction false} ListsRead(bits: seq<bit>, p: nat, lists: seq<Option<seq<int>>>, i: nat, count: nat,
                                     rest: seq<Field>) returns (q: nat)
    requires i + |lists| == count && AreLists(lists, i) && At(bits, p, Emit(ListsThen(lists, rest)))
    ensures At(bits, q, Emit(rest)) && ScalingLists(bits, p, i, count) == Some(q)
    decreases |lists|
  {
    hide At, Emit, ReadU, ReadUe, IsList, ScalingList;
    if lists == [] {
      q := p;
    } else {
      Flag(0);
      Flag(1);
      assert AreLists(lists[1..], i + 1);
      match lists[0]
      case None =>
        var next := Front(bits, p, U(0, 1), ListsThen(lists[1..], rest));
        q := ListsRead(bits, next, lists[1..], i + 1, count, rest);
      case Some(deltas) =>
        var start := Front(bits, p, U(1, 1), DeltasThen(deltas, ListsThen(lists[1..], rest)));
        var next := ListRead(bits, start, deltas, if i < 6 then 16 else 64, 8, 8, ListsThen(lists[1..], rest));
        q := ListsRead(bits, next, lists[1..], i + 1, count, rest);
    }
  }

  lemma ScalingRead(bits: seq<bit>, p: nat, h: High, rest: seq<Field>) returns (flag: nat, p1: nat, q: nat)
    requires IsHigh(h) && At(bits, p, Emit(ScalingThen(h.lists, rest)))
    ensures At(bits, q, Emit(rest)) && ReadU(bits, p, 1) == Some(Coded(flag, p1))
    ensures flag == 0 ==> q == p1
    ensures flag != 0 ==> ScalingLists(bits, p1, 0, if h.chroma != 3 then 8 else 12) == Some(q)
  {
    hide At, Emit, ReadU, AreLists, ListsThen, ScalingLists;
    Flag(0);
    Flag(1);
    match h.lists
    case None =>
      flag := 0;
      q := Front(bits, p, U(0, 1), rest);
      p1 := q;
    case Some(ls) =>
      flag := 1;
      p1 := Front(bits, p, U(1, 1), ListsThen(ls, rest));
      q := ListsRead(bits, p1, ls, 0, |ls|, rest);
  }

  lemma DepthsRead(bits: seq<bit>, p: nat, h: High, rest: seq<Field>) returns (p2: nat, p3: nat)
    requires IsHigh(h)
    requires At(bits, p, Emit([Ue(h.lumaDepth)] + ([Ue(h.chromaDepth)] + ([U(h.bypass, 1)] + rest))))
    ensures SkipCodes(bits, p, 2) == Some(p2) && ReadU(bits, p2, 1) == Some(Coded(h.bypass, p3))
    ensures At(bits, p3, Emit(rest))
  {
    hide At, Emit, ReadU, ReadUe, Codable, AreLists;
    CodableFits(h.lumaDepth);
    CodableFits(h.chromaDepth);
    Flag(h.bypass);
    hide Fits;
    var p1 := Front(bits, p, Ue(h.lumaDepth), [Ue(h.chromaDepth)] + ([U(h.bypass, 1)] + rest));
    p2 := Front(bits, p1, Ue(h.chromaDepth), [U(h.bypass, 1)] + rest);
    assert SkipCodes(bits, p2, 0) == Some(p2);
    assert SkipCodes(bits, p1, 1) == Some(p2);
    p3 := Front(bits, p2, U(h.bypass, 1), rest);
  }

  lemma HighRead(bits: seq<bit>, p: nat, h: High, rest: seq<Field>) returns (q: nat)
    requires IsHigh(h) && At(bits, p, Emit(HighThen(h, rest)))
    ensures At(bits, q, Emit(rest)) && HighFields(bits, p) == Some(Coded(h.chroma, q))
  {
    hide At, Emit, ReadU, ReadUe, AreLists, ScalingThen, ScalingLists, SkipCodes, Codable;
    CodableFits(h.chroma);
    Flag(h.plane);
    hide Fits;
    var scaling := ScalingThen(h.lists, rest);
    var depths := [Ue(h.lumaDepth)] + ([Ue(h.chromaDepth)] + ([U(h.bypass, 1)] + scaling));
    var p1: nat;
    if h.chroma == 3 {
      var p0 := Front(bits, p, Ue(h.chroma), [U(h.plane, 1)] + depths);
      p1 := Front(bits, p0, U(h.plane, 1), depths);
    } else {
      p1 := Front(bits, p, Ue(h.chroma), depths);
    }
    var p2, p3 := DepthsRead(bits, p1, h, scaling);
    var flag, p4: nat;
    flag, p4, q := ScalingRead(bits, p3, h, rest);
  }

  lemma PocRead(bits: seq<bit>, p: nat, poc: Poc, rest: seq<Field>) returns (q: nat)
    requires IsPoc(poc) && At(bits, p, Emit(PocThen(poc, rest)))
    ensures At(bits, q, Emit(rest)) && PocFields(bits, p) == Some(q)
  {
    SmallFit();
    hide At, Emit, ReadU, ReadUe, AllCodable, Codable, DeltasThen, SeCode;
    match poc
    case Poc0(log2) =>
      CodableFits(log2);
      hide Fits;
      var p1 := Front(bits, p, Ue(0), [Ue(log2)] + rest);
      q := Front(bits, p1, Ue(log2), rest);
      assert SkipCodes(bits, q, 0) == Some(q);
    case Poc1(always, nonRef, topToBottom, cycle) =>
      q := CycleRead(bits, p, poc, rest);
    case Poc2 =>
      hide Fits;
      q := Front(bits, p, Ue(2), rest);
  }

  lemma SmallFit()
    ensures Fits(Ue(0)) && Fits(Ue(1)) && Fits(Ue(2)) && Fits(U(0, 1)) && Fits(U(1, 1))
  {
    CodeLengths();
    Flag(0);
    Flag(1);
    hide BitLength;
  }

  lemma CycleRead(bits: seq<bit>, p: nat, poc: Poc, rest: seq<Field>) returns (q: nat)
    requires poc.Poc1? && IsPoc(poc) && At(bits, p, Emit(PocThen(poc, rest)))
    ensures At(bits, q, Emit(rest)) && PocFields(bits, p) == Some(q)
  {
    SmallFit();
    var a, b, n := SeCode(poc.nonRef), SeCode(poc.topToBottom), |poc.cycle|;
    Flag(poc.always);
    CodableFits(a);
    CodableFits(b);
    CodableFits(n);
    hide At, Emit, ReadU, ReadUe, AllCodable, Codable, DeltasThen, SeCode, Fits;
    var cycle := DeltasThen(poc.cycle, rest);
    var p1 := Front(bits, p, Ue(1), [U(poc.always, 1)] + ([Ue(a)] + ([Ue(b)] + ([Ue(n)] + cycle))));
    var p2 := Front(bits, p1, U(poc.always, 1), [Ue(a)] + ([Ue(b)] + ([Ue(n)] + cycle)));
    var p3 := Front(bits, p2, Ue(a), [Ue(b)] + ([Ue(n)] + cycle));
    var p4 := Front(bits, p3, Ue(b), [Ue(n)] + cycle);
    assert SkipCodes(bits, p4, 0) == Some(p4);
    assert SkipCodes(bits, p3, 1) == Some(p4);
    var p5 := Front(bits, p4, Ue(n), cycle);
    q := DeltasSkipped(bits, p5, poc.cycle, rest);
    hide SkipCodes;
  }

  // ----- Size and crop -----

  function CropOf(s: Set): Crop {
    if s.crop.Some? then s.crop.value else Crop(0, 0, 0, 0)
  }

  lemma CropRead(bits: seq<bit>, p: nat, s: Set, rest: seq<Field>) returns (q: nat)
    requires IsSet(s) && At(bits, p, Emit(CropThen(s.crop, rest)))
    ensures At(bits, q, Emit(rest)) && CropAt(bits, p) == Some(CropOf(s))
  {
    SmallFit();
    hide At, Emit, ReadU, ReadUe, Codable, IsHigh, IsPoc;
    match s.crop
    case None =>
      hide Fits;
      q := Front(bits, p, U(0, 1), rest);
    case Some(c) =>
      CodableFits(c.left);
      CodableFits(c.right);
      CodableFits(c.top);
      CodableFits(c.bottom);
      hide Fits;
      var p1 := Front(bits, p, U(1, 1), [Ue(c.left)] + ([Ue(c.right)] + ([Ue(c.top)] + ([Ue(c.bottom)] + rest))));
      var p2 := Front(bits, p1, Ue(c.left), [Ue(c.right)] + ([Ue(c.top)] + ([Ue(c.bottom)] + rest)));
      var p3 := Front(bits, p2, Ue(c.right), [Ue(c.top)] + ([Ue(c.bottom)] + rest));
      var p4 := Front(bits, p3, Ue(c.top), [Ue(c.bottom)] + rest);
      q := Front(bits, p4, Ue(c.bottom), rest);
  }

  /** frame_mbs_only_flag as a number. */
  function OnlyFrames(s: Set): nat {
    if s.coding.FramesOnly? then 1 else 0
  }

  lemma CodingRead(bits: seq<bit>, p: nat, s: Set, rest: seq<Field>) returns (p1: nat, q: nat)
    requires IsSet(s) && At(bits, p, Emit(CodingThen(s, rest)))
    ensures At(bits, q, Emit(rest)) && ReadU(bits, p, 1) == Some(Coded(OnlyFrames(s), p1))
    ensures s.coding.FramesOnly? ==> q == p1
    ensures s.coding.Mixed? ==> ReadU(bits, p1, 1) == Some(Coded(s.coding.adaptive, q))
  {
    SmallFit();
    hide At, Emit, ReadU, ReadUe, Codable, IsHigh, IsPoc;
    match s.coding
    case FramesOnly =>
      p1 := Front(bits, p, U(1, 1), rest);
      q := p1;
    case Mixed(adaptive) =>
      Flag(adaptive);
      p1 := Front(bits, p, U(0, 1), [U(adaptive, 1)] + rest);
      q := Front(bits, p1, U(adaptive, 1), rest);
  }

  /** The picture of section 7.4.2.1.1: macroblocks of 16 by 16, and the crop in units of table 6-1, of
      two rows where fields are coded. */
  function Width(s: Set, chroma: nat): int {
    16 * s.mbsWide - (CropOf(s).left + CropOf(s).right) * (if chroma in {1, 2} then 2 else 1)
  }

  function Height(s: Set, chroma: nat): int {
    if s.coding.FramesOnly? then 16 * s.mapUnits - (CropOf(s).top + CropOf(s).bottom) * (if chroma == 1 then 2 else 1)
    else 32 * s.mapUnits - (CropOf(s).top + CropOf(s).bottom) * (if chroma == 1 then 4 else 2)
  }

  lemma SizeRead(bits: seq<bit>, p: nat, s: Set, chroma: nat)
    requires IsSet(s) && At(bits, p, Emit(SizeThen(s, [])))
    ensures SizeFields(bits, p, chroma) == Some((Width(s, chroma), Height(s, chroma)))
  {
    var crop, direct := CropThen(s.crop, []), U(s.direct, 1);
    SizeFits(s);
    hide *;
    var p1, p2, p3, p4 := CountsRead(bits, p, s);
    var p5, p6 := CodingRead(bits, p4, s, [direct] + crop);
    var p7 := Front(bits, p6, direct, crop);
    var p8 := CropRead(bits, p7, s, []);
    SizeAre(bits, s, chroma, p, p1, p2, p3, p4, p5, p6, p7);
    SizeIs(s, chroma);
  }

  lemma CountsRead(bits: seq<bit>, p: nat, s: Set) returns (p1: nat, p2: nat, p3: nat, p4: nat)
    requires IsSet(s) && At(bits, p, Emit(SizeThen(s, [])))
    ensures s.mbsWide > 0 && s.mapUnits > 0
    ensures ReadUe(bits, p, 0) == Some(Coded(s.refs, p1)) && ReadU(bits, p1, 1) == Some(Coded(s.gaps, p2))
    ensures ReadUe(bits, p2, 0) == Some(Coded(s.mbsWide - 1, p3)) && ReadUe(bits, p3, 0) == Some(Coded(s.mapUnits - 1, p4))
    ensures At(bits, p4, Emit(CodingThen(s, [U(s.direct, 1)] + CropThen(s.crop, []))))
  {
    SizeFits(s);
    SizeThenIs(s);
    hide *;
    var coding := CodingThen(s, [U(s.direct, 1)] + CropThen(s.crop, []));
    p1, p2, p3, p4 := FourRead(bits, p, s.refs, s.gaps, s.mbsWide - 1, s.mapUnits - 1, coding);
  }

  lemma FourRead(bits: seq<bit>, p: nat, a: nat, b: nat, c: nat, d: nat, rest: seq<Field>)
      returns (p1: nat, p2: nat, p3: nat, p4: nat)
    requires At(bits, p, Emit([Ue(a)] + ([U(b, 1)] + ([Ue(c)] + ([Ue(d)] + rest)))))
    requires Fits(Ue(a)) && Fits(U(b, 1)) && Fits(Ue(c)) && Fits(Ue(d))
    ensures ReadUe(bits, p, 0) == Some(Coded(a, p1)) && ReadU(bits, p1, 1) == Some(Coded(b, p2))
    ensures ReadUe(bits, p2, 0) == Some(Coded(c, p3)) && ReadUe(bits, p3, 0) == Some(Coded(d, p4))
    ensures At(bits, p4, Emit(rest))
  {
    hide *;
    p1 := Front(bits, p, Ue(a), [U(b, 1)] + ([Ue(c)] + ([Ue(d)] + rest)));
    p2 := Front(bits, p1, U(b, 1), [Ue(c)] + ([Ue(d)] + rest));
    p3 := Front(bits, p2, Ue(c), [Ue(d)] + rest);
    p4 := Front(bits, p3, Ue(d), rest);
  }

  lemma SizeThenIs(s: Set)
    requires s.mbsWide > 0 && s.mapUnits > 0
    ensures SizeThen(s, []) == [Ue(s.refs)] + ([U(s.gaps, 1)] + ([Ue(s.mbsWide - 1)] + ([Ue(s.mapUnits - 1)]
                                 + CodingThen(s, [U(s.direct, 1)] + CropThen(s.crop, [])))))
  {
    hide CodingThen, CropThen;
  }

  lemma SizeFits(s: Set)
    requires IsSet(s)
    ensures s.mbsWide > 0 && s.mapUnits > 0
    ensures Fits(Ue(s.refs)) && Fits(U(s.gaps, 1)) && Fits(Ue(s.mbsWide - 1)) && Fits(Ue(s.mapUnits - 1))
    ensures Fits(U(s.direct, 1))
  {
    hide BitLength, IsHigh, IsPoc, Pow2;
    Flag(s.gaps);
    Flag(s.direct);
  }

  lemma SizeAre(bits: seq<bit>, s: Set, chroma: nat, p: nat, p1: nat, p2: nat, p3: nat, p4: nat, p5: nat, p6: nat, p7: nat)
    requires s.mbsWide > 0 && s.mapUnits > 0
    requires ReadUe(bits, p, 0) == Some(Coded(s.refs, p1)) && ReadU(bits, p1, 1) == Some(Coded(s.gaps, p2))
    requires ReadUe(bits, p2, 0) == Some(Coded(s.mbsWide - 1, p3)) && ReadUe(bits, p3, 0) == Some(Coded(s.mapUnits - 1, p4))
    requires ReadU(bits, p4, 1) == Some(Coded(OnlyFrames(s), p5))
    requires s.coding.FramesOnly? ==> p6 == p5
    requires s.coding.Mixed? ==> ReadU(bits, p5, 1) == Some(Coded(s.coding.adaptive, p6))
    requires ReadU(bits, p6, 1) == Some(Coded(s.direct, p7)) && CropAt(bits, p7) == Some(CropOf(s))
    ensures SizeFields(bits, p, chroma) == Some(Dimensions(chroma, s.mbsWide, s.mapUnits, OnlyFrames(s), CropOf(s)))
  {
    hide ReadU, ReadUe, CropAt, Dimensions, CropOf;
  }

  lemma SizeIs(s: Set, chroma: nat)
    requires s.mbsWide > 0 && s.mapUnits > 0
    ensures Dimensions(chroma, s.mbsWide, s.mapUnits, OnlyFrames(s), CropOf(s)) == (Width(s, chroma), Height(s, chroma))
  {
    hide CropOf;
    var rows := CropOf(s).top + CropOf(s).bottom;
    assert rows * 2 * 2 == rows * 4 && rows * 1 * 2 == rows * 2;
  }

  // ----- The whole set -----

  /** chroma_format_idc, or 1 where it is not sent. */
  function ChromaOf(s: Set): nat {
    if s.high.Some? then s.high.value.chroma else 1
  }

  lemma SetRead(bits: seq<bit>, s: Set)
    requires IsSet(s) && At(bits, 0, Emit(SetFields(s)))
    ensures SizeInBits(bits) == Some((Width(s, ChromaOf(s)), Height(s, ChromaOf(s))))
  {
    var profile, flags, level, id, frameNum := U(s.profile, 8), U(s.flags, 8), U(s.level, 8), Ue(s.id), Ue(s.frameNum);
    HeadFit(s);
    var size := SizeThen(s, []);
    var poc := PocThen(s.poc, size);
    var high := ProfileThen(s, [frameNum] + poc);
    assert SetFields(s) == [profile] + ([flags] + ([level] + ([id] + high)));
    hide *;
    var p1 := Front(bits, 0, profile, [flags] + ([level] + ([id] + high)));
    var p2 := Front(bits, 8, flags, [level] + ([id] + high));
    var p3 := Front(bits, 16, level, [id] + high);
    var p4 := Front(bits, 24, id, high);
    var p5 := ProfileRead(bits, p4, s, [frameNum] + poc);
    var p6 := Front(bits, p5, frameNum, poc);
    var p7 := PocRead(bits, p6, s.poc, size);
    HeadAre(bits, s, p4, p5, p6);
    SizeRead(bits, p7, s, ChromaOf(s));
    BitsAre(bits, ChromaOf(s), p6, p7);
  }

  lemma HeadFit(s: Set)
    requires IsSet(s)
    ensures s.mbsWide > 0 && s.mapUnits > 0 && IsPoc(s.poc)
    ensures Fits(U(s.profile, 8)) && Fits(U(s.flags, 8)) && Fits(U(s.level, 8)) && Fits(Ue(s.id)) && Fits(Ue(s.frameNum))
  {
    hide BitLength, IsHigh, IsPoc, Pow2;
    Octet(s.profile);
    Octet(s.flags);
    Octet(s.level);
  }

  lemma ProfileRead(bits: seq<bit>, p: nat, s: Set, rest: seq<Field>) returns (q: nat)
    requires IsSet(s) && At(bits, p, Emit(ProfileThen(s, rest)))
    ensures At(bits, q, Emit(rest))
    ensures if s.profile in HIGH then HighFields(bits, p) == Some(Coded(ChromaOf(s), q)) else q == p && ChromaOf(s) == 1
  {
    hide At, Emit, HighFields, HighThen, Codable, IsHigh, IsPoc, HIGH;
    q := p;
    if s.high.Some? { q := HighRead(bits, p, s.high.value, rest); }
  }

  lemma HeadAre(bits: seq<bit>, s: Set, p4: nat, p5: nat, p6: nat)
    requires ReadU(bits, 0, 8) == Some(Coded(s.profile, 8)) && ReadU(bits, 8, 8) == Some(Coded(s.flags, 16))
    requires ReadU(bits, 16, 8) == Some(Coded(s.level, 24)) && ReadUe(bits, 24, 0) == Some(Coded(s.id, p4))
    requires if s.profile in HIGH then HighFields(bits, p4) == Some(Coded(ChromaOf(s), p5)) else p5 == p4 && ChromaOf(s) == 1
    requires ReadUe(bits, p5, 0) == Some(Coded(s.frameNum, p6))
    ensures HeadFields(bits) == Some(Coded(ChromaOf(s), p6))
  {
    assert HIGH == HIGH_PROFILES;
    hide ReadU, ReadUe, HighFields, ChromaOf;
  }

  lemma BitsAre(bits: seq<bit>, chroma: nat, p6: nat, p7: nat)
    requires HeadFields(bits) == Some(Coded(chroma, p6)) && PocFields(bits, p6) == Some(p7)
    ensures SizeInBits(bits) == SizeFields(bits, p7, chroma)
  {
    hide HeadFields, PocFields, SizeFields;
  }

  // ----- Escaping -----

  /** Section 7.4.1: a third byte of at most 3 behind two zero bytes is kept apart from them by a 3. */
  function Escaped(data: seq<byte>): seq<byte> {
    if data == [] then []
    else if |data| > 2 && data[0] == 0 && data[1] == 0 && data[2] <= 3 then [0, 0, 3] + Escaped(data[2..])
    else [data[0]] + Escaped(data[1..])
  }

  /** What is escaped does not begin with a zero and a 3 unless it did before. */
  lemma SecondByte(data: seq<byte>)
    requires |data| > 1
    ensures |Escaped(data)| > 1 && (Escaped(data)[1] == 3 ==> data[1] == 3)
    ensures Escaped(data)[0] == data[0]
  {
    if !(|data| > 2 && data[0] == 0 && data[1] == 0 && data[2] <= 3) {
      assert Escaped(data)[1..] == Escaped(data[1..]);
      assert Escaped(data[1..])[0] == data[1];
    }
  }

  lemma NoEscapeMade(data: seq<byte>)
    requires data != [] && !(|data| > 2 && data[0] == 0 && data[1] == 0 && data[2] <= 3)
    ensures !IsEscape(Escaped(data), 0)
  {
    assert Escaped(data)[1..] == Escaped(data[1..]);
    if |data| > 2 { SecondByte(data[1..]); }
  }

  lemma {:induction false} UnescapedFrom(pre: seq<byte>, data: seq<byte>)
    ensures Unescaped(pre + data, |pre|) == Unescaped(data, 0)
  {
    UnescapedAt(pre, data, 0);
  }

  lemma {:induction false} UnescapedAt(pre: seq<byte>, data: seq<byte>, i: nat)
    ensures Unescaped(pre + data, |pre| + i) == Unescaped(data, i)
    decreases |data| - i
  {
    if i < |data| {
      assert IsEscape(pre + data, |pre| + i) <==> IsEscape(data, i);
      if IsEscape(data, i) { UnescapedAt(pre, data, i + 3); } else { UnescapedAt(pre, data, i + 1); }
    }
  }

  /** Unescaping undoes escaping, whatever the bytes. */
  lemma {:induction false} EscapingUndone(data: seq<byte>)
    ensures Unescaped(Escaped(data), 0) == data
    decreases |data|
  {
    if data != [] {
      if |data| > 2 && data[0] == 0 && data[1] == 0 && data[2] <= 3 {
        var rest := Escaped(data[2..]);
        EscapingUndone(data[2..]);
        UnescapedFrom([0, 0, 3], rest);
        assert data == [0, 0] + data[2..];
      } else {
        var rest := Escaped(data[1..]);
        NoEscapeMade(data);
        EscapingUndone(data[1..]);
        UnescapedFrom([data[0]], rest);
        assert data == [data[0]] + data[1..];
      }
    }
  }

  /** Any set that the standard allows, with whatever follows it and escaped as it is sent, has the size
      of its picture read from it. */
  lemma AnySetIsMeasured(s: Set, header: byte, more: seq<bit>)
    requires IsSet(s) && s.mbsWide > 0 && s.mapUnits > 0
    ensures SizeOf([header] + Escaped(Pack(Padded(Emit(SetFields(s)) + more))))
            == Some((Width(s, ChromaOf(s)), Height(s, ChromaOf(s))))
  {
    HeadFit(s);
    hide *;
    var bits := Emit(SetFields(s)) + more;
    var data := Pack(Padded(bits));
    EscapingUndone(data);
    PaddedPacks(bits);
    StandsInFront(Emit(SetFields(s)), more);
    SetRead(Padded(bits), s);
    SizeOfNal(header, data);
  }

  lemma PaddedPacks(bits: seq<bit>)
    ensures BitsOf(Pack(Padded(bits))) == Padded(bits)
  {
    BitsOfPacked(Padded(bits));
  }

  lemma StandsInFront(bits: seq<bit>, more: seq<bit>)
    ensures At(Padded(bits + more), 0, bits)
  {
    PaddedIs(bits + more);
  }

  lemma SizeOfNal(header: byte, data: seq<byte>)
    requires Unescaped(Escaped(data), 0) == data
    ensures SizeOf([header] + Escaped(data)) == SizeInBits(BitsOf(data))
  {
    hide SizeInBits, Unescaped, BitsOf, Escaped;
    assert ([header] + Escaped(data))[1..] == Escaped(data);
  }
}
