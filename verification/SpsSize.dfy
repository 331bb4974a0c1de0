/** The picture size of a sequence parameter set (unescape, sps_size and baue_sps in
    tools/sps_resolutions.py): sections 7.3.2.1.1 and 7.4.1 of ITU-T H.264. */
module SpsSize {
  import opened Bytes
  import opened Wrappers
  import opened BitCodec

  // ----- Emulation prevention -----

  predicate IsEscape(nal: seq<byte>, i: nat) {
    i + 2 < |nal| && nal[i] == 0 && nal[i + 1] == 0 && nal[i + 2] == 3
  }

  function Unescaped(nal: seq<byte>, i: nat): seq<byte>
    decreases |nal| - i
  {
    if i >= |nal| then [] else if IsEscape(nal, i) then [0, 0] + Unescaped(nal, i + 3) else [nal[i]] + Unescaped(nal, i + 1)
  }

  lemma UnescapeStep(out: seq<byte>, nal: seq<byte>, i: nat)
    requires i < |nal|
    ensures IsEscape(nal, i) ==> out + Unescaped(nal, i) == out + [0, 0] + Unescaped(nal, i + 3)
    ensures !IsEscape(nal, i) ==> out + Unescaped(nal, i) == out + [nal[i]] + Unescaped(nal, i + 1)
  {
    var u, v := Unescaped(nal, i + 3), Unescaped(nal, i + 1);
    assert out + ([0, 0] + u) == out + [0, 0] + u;
    assert out + ([nal[i]] + v) == out + [nal[i]] + v;
  }

  method Unescape(nal: seq<byte>) returns (out: seq<byte>)
    ensures out == Unescaped(nal, 0)
  {
    hide Unescaped;
    out := [];
    var i := 0;
    assert [] + Unescaped(nal, 0) == Unescaped(nal, 0);
    while i < |nal|
      invariant i <= |nal| && out + Unescaped(nal, i) == Unescaped(nal, 0)
    {
      UnescapeStep(out, nal, i);
      if i + 2 < |nal| && nal[i] == 0 && nal[i + 1] == 0 && nal[i + 2] == 3 {
        out := out + [0, 0];
        i := i + 3;
      } else {
        out := out + [nal[i]];
        i := i + 1;
      }
    }
    UnescapeEnd(nal);
    assert out + [] == out;
  }

  lemma UnescapeEnd(nal: seq<byte>)
    ensures Unescaped(nal, |nal|) == []
  {
  }

  lemma {:induction false} NothingEscaped(nal: seq<byte>, i: nat)
    requires i <= |nal| && forall k :: i <= k < |nal| ==> !IsEscape(nal, k)
    ensures Unescaped(nal, i) == nal[i..]
    decreases |nal| - i
  {
    if i < |nal| { NothingEscaped(nal, i + 1); }
  }

  // ----- Reading -----

  const HIGH_PROFILES := {100, 110, 122, 244, 44, 83, 86, 118, 128, 138, 139, 134, 135}

  /** `count` codes, signed or not, are passed over. */
  function SkipCodes(bits: seq<bit>, pos: nat, count: nat): Option<nat>
    decreases count
  {
    if count == 0 then Some(pos)
    else
      match ReadUe(bits, pos, 0)
      case None => None
      case Some(c) => SkipCodes(bits, c.pos, count - 1)
  }

  function ScalingList(bits: seq<bit>, pos: nat, left: nat, last: int, next: int): Option<nat>
    decreases left
  {
    if left == 0 then Some(pos)
    else if next == 0 then ScalingList(bits, pos, left - 1, last, 0)
    else
      match ReadUe(bits, pos, 0)
      case None => None
      case Some(c) =>
        var n := (last + Signed(c.value) + 256) % 256;
        ScalingList(bits, c.pos, left - 1, if n != 0 then n else last, n)
  }

  function ScalingLists(bits: seq<bit>, pos: nat, i: nat, count: nat): Option<nat>
    requires i <= count
    decreases count - i
  {
    if i == count then Some(pos)
    else
      match ReadU(bits, pos, 1)
      case None => None
      case Some(present) =>
        if present.value == 0 then ScalingLists(bits, present.pos, i + 1, count)
        else
          match ScalingList(bits, present.pos, if i < 6 then 16 else 64, 8, 8)
          case None => None
          case Some(p) => ScalingLists(bits, p, i + 1, count)
  }

  /** The fields only the high profiles have: chroma_format_idc is kept. */
  function HighFields(bits: seq<bit>, pos: nat): Option<Coded> {
    match ReadUe(bits, pos, 0)
    case None => None
    case Some(chroma) =>
      match (if chroma.value == 3 then ReadU(bits, chroma.pos, 1) else Some(chroma))
      case None => None
      case Some(plane) =>
        match SkipCodes(bits, plane.pos, 2)
        case None => None
        case Some(p) =>
          match ReadU(bits, p, 1)
          case None => None
          case Some(bypass) =>
            match ReadU(bits, bypass.pos, 1)
            case None => None
            case Some(scaling) =>
              var rest := if scaling.value == 0 then Some(scaling.pos)
                          else ScalingLists(bits, scaling.pos, 0, if chroma.value != 3 then 8 else 12);
              if rest.None? then None else Some(Coded(chroma.value, rest.value))
  }

  /** The picture order count fields. */
  function PocFields(bits: seq<bit>, pos: nat): Option<nat> {
    match ReadUe(bits, pos, 0)
    case None => None
    case Some(kind) =>
      if kind.value == 0 then SkipCodes(bits, kind.pos, 1)
      else if kind.value != 1 then Some(kind.pos)
      else
        match ReadU(bits, kind.pos, 1)
        case None => None
        case Some(always) =>
          match SkipCodes(bits, always.pos, 2)
          case None => None
          case Some(p) =>
            match ReadUe(bits, p, 0)
            case None => None
            case Some(cycle) => SkipCodes(bits, cycle.pos, cycle.value)
  }

  /** From profile_idc to the picture order count type: chroma_format_idc, 1 when it is not there. */
  function HeadFields(bits: seq<bit>): Option<Coded> {
    match ReadU(bits, 0, 8)
    case None => None
    case Some(profile) =>
      match ReadU(bits, 8, 8)
      case None => None
      case Some(_) =>
        match ReadU(bits, 16, 8)
        case None => None
        case Some(_) =>
          match ReadUe(bits, 24, 0)
          case None => None
          case Some(id) =>
            match (if profile.value in HIGH_PROFILES then HighFields(bits, id.pos) else Some(Coded(1, id.pos)))
            case None => None
            case Some(chroma) =>
              match ReadUe(bits, chroma.pos, 0)
              case None => None
              case Some(frameNum) => Some(Coded(chroma.value, frameNum.pos))
  }

  datatype Crop = Crop(left: nat, right: nat, top: nat, bottom: nat)

  /** The cropping rectangle, if its flag at `pos` is set. */
  function CropAt(bits: seq<bit>, pos: nat): Option<Crop> {
    match ReadU(bits, pos, 1)
    case None => None
    case Some(flag) =>
      if flag.value == 0 then Some(Crop(0, 0, 0, 0))
      else
        match ReadUe(bits, flag.pos, 0)
        case None => None
        case Some(left) =>
          match ReadUe(bits, left.pos, 0)
          case None => None
          case Some(right) =>
            match ReadUe(bits, right.pos, 0)
            case None => None
            case Some(top) =>
              match ReadUe(bits, top.pos, 0)
              case None => None
              case Some(bottom) => Some(Crop(left.value, right.value, top.value, bottom.value))
  }

  /** Macroblocks of 16 pixels, less the crop in its units (table 6-1 of ITU-T H.264). */
  function Dimensions(chroma: nat, mbsWide: nat, mapUnits: nat, frameMbsOnly: nat, crop: Crop): (int, int) {
    var subWidth := if chroma == 1 || chroma == 2 then 2 else 1;
    var subHeight := if chroma == 1 then 2 else 1;
    var fields := 2 - frameMbsOnly;
    (mbsWide * 16 - (crop.left + crop.right) * subWidth,
     mapUnits * 16 * fields - (crop.top + crop.bottom) * subHeight * fields)
  }

  /** From max_num_ref_frames on. */
  function SizeFields(bits: seq<bit>, pos: nat, chroma: nat): Option<(int, int)> {
    match ReadUe(bits, pos, 0)
    case None => None
    case Some(refs) =>
      match ReadU(bits, refs.pos, 1)
      case None => None
      case Some(gaps) =>
        match ReadUe(bits, gaps.pos, 0)
        case None => None
        case Some(wide) =>
          match ReadUe(bits, wide.pos, 0)
          case None => None
          case Some(high) =>
            match ReadU(bits, high.pos, 1)
            case None => None
            case Some(frames) =>
              match (if frames.value == 0 then ReadU(bits, frames.pos, 1) else Some(frames))
              case None => None
              case Some(adaptive) =>
                match ReadU(bits, adaptive.pos, 1)
                case None => None
                case Some(direct) =>
                  match CropAt(bits, direct.pos)
                  case None => None
                  case Some(crop) => Some(Dimensions(chroma, wide.value + 1, high.value + 1, frames.value, crop))
  }

  function SizeInBits(bits: seq<bit>): Option<(int, int)> {
    match HeadFields(bits)
    case None => None
    case Some(chroma) =>
      match PocFields(bits, chroma.pos)
      case None => None
      case Some(p) => SizeFields(bits, p, chroma.value)
  }

  /** The NAL header byte is dropped. None where the source raises an error. */
  function SizeOf(nal: seq<byte>): Option<(int, int)> {
    SizeInBits(BitsOf(Unescaped(if nal == [] then [] else nal[1..], 0)))
  }

  // ----- sps_size, on a reader that moves forward -----

  method SkipUes(b: BitReader, count: nat) returns (ok: bool)
    requires b.Valid()
    modifies b
    ensures b.Valid() && Outcome(ok, b) == SkipCodes(BitsOf(b.data), old(b.pos), count)
  {
    hide BitsOf, ReadUe;
    var k := 0;
    while k < count
      invariant k <= count && b.Valid()
      invariant SkipCodes(BitsOf(b.data), b.pos, count - k) == SkipCodes(BitsOf(b.data), old(b.pos), count)
    {
      var r := b.Ue();
      if r.None? { return false; }
      k := k + 1;
    }
    return true;
  }

  ghost function Outcome(ok: bool, b: BitReader): Option<nat>
    reads b
  {
    if ok then Some(b.pos) else None
  }

  method ReadScalingList(b: BitReader, count: nat) returns (ok: bool)
    requires b.Valid()
    modifies b
    ensures b.Valid() && Outcome(ok, b) == ScalingList(BitsOf(b.data), old(b.pos), count, 8, 8)
  {
    hide BitsOf, ReadUe;
    var last: int, next: int := 8, 8;
    var k := 0;
    while k < count
      invariant k <= count && b.Valid()
      invariant ScalingList(BitsOf(b.data), b.pos, count - k, last, next)
                == ScalingList(BitsOf(b.data), old(b.pos), count, 8, 8)
    {
      if next != 0 {
        var delta := b.Se();
        if delta.None? { return false; }
        next := (last + delta.value + 256) % 256;
      }
      last := if next != 0 then next else last;
      k := k + 1;
    }
    return true;
  }

  method ReadScalingLists(b: BitReader, count: nat) returns (ok: bool)
    requires b.Valid()
    modifies b
    ensures b.Valid() && Outcome(ok, b) == ScalingLists(BitsOf(b.data), old(b.pos), 0, count)
  {
    hide BitsOf, ReadU, ScalingList;
    var i := 0;
    while i < count
      invariant i <= count && b.Valid()
      invariant ScalingLists(BitsOf(b.data), b.pos, i, count) == ScalingLists(BitsOf(b.data), old(b.pos), 0, count)
    {
      var present := b.U(1);
      if present.None? { return false; }
      if present.value != 0 {
        var read := ReadScalingList(b, if i < 6 then 16 else 64);
        if !read { return false; }
      }
      i := i + 1;
    }
    return true;
  }

  method ReadHighFields(b: BitReader) returns (chroma: Option<nat>)
    requires b.Valid()
    modifies b
    ensures b.Valid() && b.Outcome(chroma) == HighFields(BitsOf(b.data), old(b.pos))
  {
    hide BitsOf, ReadU, ReadUe, ScalingLists, SkipCodes;
    var format := b.Ue();
    if format.None? { return None; }
    if format.value == 3 {
      var plane := b.U(1);
      if plane.None? { return None; }
    }
    var depths := SkipUes(b, 2);
    if !depths { return None; }
    var bypass := b.U(1);
    if bypass.None? { return None; }
    var scaling := b.U(1);
    if scaling.None? { return None; }
    if scaling.value != 0 {
      var read := ReadScalingLists(b, if format.value != 3 then 8 else 12);
      if !read { return None; }
    }
    return format;
  }

  method ReadPocFields(b: BitReader) returns (ok: bool)
    requires b.Valid()
    modifies b
    ensures b.Valid() && Outcome(ok, b) == PocFields(BitsOf(b.data), old(b.pos))
  {
    hide BitsOf, ReadU, ReadUe, SkipCodes;
    var kind := b.Ue();
    if kind.None? { return false; }
    if kind.value == 0 {
      ok := SkipUes(b, 1);
      return;
    }
    if kind.value != 1 { return true; }
    var always := b.U(1);
    if always.None? { return false; }
    ok := SkipUes(b, 2);
    if !ok { return; }
    var cycle := b.Ue();
    if cycle.None? { return false; }
    ok := SkipUes(b, cycle.value);
  }

  method ReadCrop(b: BitReader) returns (crop: Option<Crop>)
    requires b.Valid()
    modifies b
    ensures b.Valid() && crop == CropAt(BitsOf(b.data), old(b.pos))
  {
    hide BitsOf, ReadU, ReadUe;
    var flag := b.U(1);
    if flag.None? { return None; }
    if flag.value == 0 { return Some(Crop(0, 0, 0, 0)); }
    var left := b.Ue();
    if left.None? { return None; }
    var right := b.Ue();
    if right.None? { return None; }
    var top := b.Ue();
    if top.None? { return None; }
    var bottom := b.Ue();
    if bottom.None? { return None; }
    return Some(Crop(left.value, right.value, top.value, bottom.value));
  }

  method ReadHead(b: BitReader) returns (chroma: Option<nat>)
    requires b.Valid() && b.pos == 0
    modifies b
    ensures b.Valid() && b.Outcome(chroma) == HeadFields(BitsOf(b.data))
  {
    hide BitsOf, ReadU, ReadUe, HighFields;
    ghost var bits := BitsOf(b.data);
    var profile := b.U(8);
    if profile.None? { return None; }
    assert b.pos == 8 by { ReadUMoves(bits, 0, 8); }
    var flags := b.U(8);
    if flags.None? { return None; }
    assert b.pos == 16 by { ReadUMoves(bits, 8, 8); }
    var level := b.U(8);
    if level.None? { return None; }
    assert b.pos == 24 by { ReadUMoves(bits, 16, 8); }
    var id := b.Ue();
    if id.None? { return None; }
    chroma := Some(1);
    if profile.value in HIGH_PROFILES {
      chroma := ReadHighFields(b);
      if chroma.None? { return; }
    }
    var frameNum := b.Ue();
    if frameNum.None? { return None; }
  }

  lemma ReadUMoves(bits: seq<bit>, pos: nat, n: nat)
    ensures ReadU(bits, pos, n).Some? ==> ReadU(bits, pos, n).value.pos == pos + n
  {
  }

  method ReadSize(b: BitReader, chroma: nat) returns (size: Option<(int, int)>)
    requires b.Valid()
    modifies b
    ensures b.Valid() && size == SizeFields(BitsOf(b.data), old(b.pos), chroma)
  {
    hide BitsOf, ReadU, ReadUe, CropAt, Dimensions;
    var refs := b.Ue();
    if refs.None? { return None; }
    var gaps := b.U(1);
    if gaps.None? { return None; }
    var wide := b.Ue();
    if wide.None? { return None; }
    var high := b.Ue();
    if high.None? { return None; }
    var frames := b.U(1);
    if frames.None? { return None; }
    if frames.value == 0 {
      var adaptive := b.U(1);
      if adaptive.None? { return None; }
    }
    var direct := b.U(1);
    if direct.None? { return None; }
    var crop := ReadCrop(b);
    if crop.None? { return None; }
    return Some(Dimensions(chroma, wide.value + 1, high.value + 1, frames.value, crop.value));
  }

  method SpsSize(nal: seq<byte>) returns (size: Option<(int, int)>)
    ensures size == SizeOf(nal)
  {
    hide BitsOf, Unescaped, HeadFields, PocFields, SizeFields;
    var data := Unescape(if nal == [] then [] else nal[1..]);
    var b := new BitReader(data);
    var chroma := ReadHead(b);
    if chroma.None? { return None; }
    var ok := ReadPocFields(b);
    if !ok { return None; }
    size := ReadSize(b, chroma.value);
  }
}
