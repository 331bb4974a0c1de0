/** The Annex-B pipeline of src/encode/AnnexB.cpp: the start-code scan and its inverse. */
module AnnexB {
  import opened Sequences
  import opened Bytes

  /** A NAL unit: its type is the low five bits of its first byte. */
  datatype NalUnit = NalUnit(kind: nat, payload: seq<byte>)

  datatype Marker = Marker(codeBegin: nat, payloadBegin: nat)

  const SPS := 7
  const PPS := 8
  const IDR := 5

  // ----- Start codes -----

  predicate LongCode(data: seq<byte>, i: nat) {
    i + 3 < |data| && data[i] == 0 && data[i + 1] == 0 && data[i + 2] == 0 && data[i + 3] == 1
  }

  predicate ShortCode(data: seq<byte>, i: nat) {
    i + 2 < |data| && data[i] == 0 && data[i + 1] == 0 && data[i + 2] == 1
  }

  /** The start codes found from `i` on; a four-byte code is taken before the three-byte one in it. */
  function Markers(data: seq<byte>, i: nat): seq<Marker>
    decreases |data| - i
  {
    if i + 1 >= |data| then []
    else if LongCode(data, i) then [Marker(i, i + 4)] + Markers(data, i + 4)
    else if ShortCode(data, i) then [Marker(i, i + 3)] + Markers(data, i + 3)
    else Markers(data, i + 1)
  }

  /** Where the payload behind marker `k` ends. */
  function PayloadEnd(data: seq<byte>, markers: seq<Marker>, k: nat): nat
    requires k < |markers|
  {
    if k + 1 < |markers| then markers[k + 1].codeBegin else |data|
  }

  function Unit(data: seq<byte>, markers: seq<Marker>, k: nat): seq<NalUnit>
    requires k < |markers|
  {
    var begin, end := markers[k].payloadBegin, PayloadEnd(data, markers, k);
    if begin < end <= |data| then [NalUnit(data[begin] % 32, data[begin..end])] else []
  }

  /** The units behind markers `k`, `k + 1`, ... */
  function Units(data: seq<byte>, markers: seq<Marker>, k: nat): seq<NalUnit>
    requires k <= |markers|
    decreases |markers| - k
  {
    if k == |markers| then [] else Unit(data, markers, k) + Units(data, markers, k + 1)
  }

  function Scan(data: seq<byte>): seq<NalUnit> {
    Units(data, Markers(data, 0), 0)
  }

  function Framed(n: NalUnit): seq<byte> {
    [0, 0, 0, 1] + n.payload
  }

  function Build(nals: seq<NalUnit>): seq<byte> {
    if nals == [] then [] else Framed(nals[0]) + Build(nals[1..])
  }

  // ----- The loops of the program -----

  method FindMarkers(data: seq<byte>) returns (markers: seq<Marker>)
    ensures markers == Markers(data, 0)
  {
    markers := [];
    var i := 0;
    while i + 1 < |data|
      invariant markers + Markers(data, i) == Markers(data, 0)
      decreases |data| - i
    {
      MarkersStep(data, i);
      hide Markers;
      if data[i] == 0 && data[i + 1] == 0 {
        if i + 3 < |data| && data[i + 2] == 0 && data[i + 3] == 1 {
          markers := markers + [Marker(i, i + 4)];
          i := i + 4;
          continue;
        }
        if i + 2 < |data| && data[i + 2] == 1 {
          markers := markers + [Marker(i, i + 3)];
          i := i + 3;
          continue;
        }
      }
      i := i + 1;
    }
  }

  lemma MarkersStep(data: seq<byte>, i: nat)
    requires i + 1 < |data|
    ensures Markers(data, i) ==
            if LongCode(data, i) then [Marker(i, i + 4)] + Markers(data, i + 4)
            else if ShortCode(data, i) then [Marker(i, i + 3)] + Markers(data, i + 3)
            else Markers(data, i + 1)
  {
  }

  method ScanStartCodes(data: seq<byte>) returns (result: seq<NalUnit>)
    ensures result == Scan(data)
    ensures forall k :: 0 <= k < |result| ==> Clean(result[k])
  {
    ScanIsClean(data);
    result := [];
    if |data| == 0 {
      return;
    }
    var markers := FindMarkers(data);
    UnitsStart(data, markers);
    hide *;
    var idx := 0;
    while idx < |markers|
      invariant 0 <= idx <= |markers|
      invariant Collected(result, data, markers, idx)
    {
      UnitsStep(result, data, markers, idx);
      var payloadBegin := markers[idx].payloadBegin;
      var payloadEnd := if idx + 1 < |markers| then markers[idx + 1].codeBegin else |data|;
      if payloadBegin < payloadEnd {
        result := result + [NalUnit(data[payloadBegin] % 32, data[payloadBegin..payloadEnd])];
      }
      idx := idx + 1;
    }
    UnitsDone(result, data, markers);
  }

  /** `result` and the units still to come are the whole scan. */
  ghost predicate Collected(result: seq<NalUnit>, data: seq<byte>, markers: seq<Marker>, k: nat) {
    k <= |markers| && result + Units(data, markers, k) == Scan(data)
  }

  lemma UnitsStart(data: seq<byte>, markers: seq<Marker>)
    requires markers == Markers(data, 0)
    ensures Collected([], data, markers, 0)
  {
  }

  lemma UnitsStep(result: seq<NalUnit>, data: seq<byte>, markers: seq<Marker>, k: nat)
    requires markers == Markers(data, 0) && k < |markers| && Collected(result, data, markers, k)
    ensures var begin := markers[k].payloadBegin;
            var end := if k + 1 < |markers| then markers[k + 1].codeBegin else |data|;
            end <= |data| &&
            Collected(if begin < end then result + [NalUnit(data[begin] % 32, data[begin..end])] else result,
                      data, markers, k + 1)
  {
    MarkersInside(data, 0);
    var u := Unit(data, markers, k);
    var rest := Units(data, markers, k + 1);
    assert Units(data, markers, k) == u + rest;
    assert result + (u + rest) == (result + u) + rest;
    hide Markers, IsCode, Scan, Units;
    assert result + [] == result;
  }

  lemma UnitsDone(result: seq<NalUnit>, data: seq<byte>, markers: seq<Marker>)
    requires Collected(result, data, markers, |markers|)
    ensures result == Scan(data)
  {
    hide Scan;
  }

  method BuildAccessUnit(nals: seq<NalUnit>) returns (out: seq<byte>)
    ensures out == Build(nals)
  {
    out := [];
    var k := 0;
    while k < |nals|
      invariant 0 <= k <= |nals|
      invariant out + Build(nals[k..]) == Build(nals)
    {
      BuildStep(nals, k);
      hide Build;
      ghost var before := out;
      out := out + [0];
      out := out + [0];
      out := out + [0];
      out := out + [1];
      out := out + nals[k].payload;
      assert out == before + Framed(nals[k]);
      k := k + 1;
    }
  }

  lemma BuildStep(nals: seq<NalUnit>, k: nat)
    requires k < |nals|
    ensures Build(nals[k..]) == Framed(nals[k]) + Build(nals[k + 1..])
  {
    assert nals[k..][1..] == nals[k + 1..];
  }

  // ----- What comes out of a scan -----

  /** No three-byte code, hence no four-byte one either. */
  predicate FreeOfCodes(p: seq<byte>) {
    forall k :: 0 <= k < |p| ==> !ShortCode(p, k)
  }

  predicate Clean(n: NalUnit) {
    n.payload != [] && n.kind == n.payload[0] % 32 && FreeOfCodes(n.payload)
  }

  predicate AllClean(nals: seq<NalUnit>) {
    forall k :: 0 <= k < |nals| ==> Clean(nals[k])
  }

  /** The code that `Markers(data, i)` begins with, or the end of the data. */
  function FirstCode(data: seq<byte>, i: nat): nat {
    var ms := Markers(data, i);
    if ms == [] then |data| else ms[0].codeBegin
  }

  lemma {:induction false} NothingBeforeFirstCode(data: seq<byte>, i: nat)
    requires i <= |data|
    ensures i <= FirstCode(data, i) <= |data|
    ensures forall k :: i <= k && k + 3 <= FirstCode(data, i) ==> !ShortCode(data, k)
    decreases |data| - i
  {
    if i + 1 < |data| && !LongCode(data, i) && !ShortCode(data, i) {
      NothingBeforeFirstCode(data, i + 1);
    }
  }

  /** Markers stand inside the data, in order, each ending where the search for the next begins. */
  lemma {:induction false} MarkersInside(data: seq<byte>, i: nat)
    requires i <= |data|
    ensures var ms := Markers(data, i);
            && (forall k :: 0 <= k < |ms| ==> ms[k].codeBegin < ms[k].payloadBegin <= |data| && IsCode(data, ms[k]))
            && (forall k :: 0 <= k < |ms| ==> ms[k + 1..] == Markers(data, ms[k].payloadBegin))
    decreases |data| - i
  {
    var ms := Markers(data, i);
    if i + 1 < |data| {
      MarkersStep(data, i);
      if LongCode(data, i) || ShortCode(data, i) {
        var m := ms[0];
        var rest := Markers(data, m.payloadBegin);
        MarkersInside(data, m.payloadBegin);
        hide Markers;
        assert ms == [m] + rest;
        forall k | 0 <= k < |ms| ensures ms[k + 1..] == Markers(data, ms[k].payloadBegin) {
          if k > 0 {
            assert ms[k] == rest[k - 1] && ms[k + 1..] == rest[k..];
          }
        }
      } else {
        MarkersInside(data, i + 1);
        assert ms == Markers(data, i + 1);
        hide Markers;
      }
    } else {
      assert ms == [];
    }
  }

  predicate IsCode(data: seq<byte>, m: Marker) {
    || (m.payloadBegin == m.codeBegin + 4 && LongCode(data, m.codeBegin))
    || (m.payloadBegin == m.codeBegin + 3 && ShortCode(data, m.codeBegin))
  }

  lemma UnitIsClean(data: seq<byte>, k: nat)
    requires k < |Markers(data, 0)|
    ensures AllClean(Unit(data, Markers(data, 0), k))
  {
    var ms := Markers(data, 0);
    MarkersInside(data, 0);
    var begin, end := ms[k].payloadBegin, PayloadEnd(data, ms, k);
    assert end == FirstCode(data, begin) by {
      assert ms[k + 1..] == Markers(data, begin);
      if k + 1 < |ms| { assert ms[k + 1..][0] == ms[k + 1]; }
    }
    NothingBeforeFirstCode(data, begin);
    if begin < end {
      var p := data[begin..end];
      forall j | 0 <= j < |p| ensures !ShortCode(p, j) {
        if j + 2 < |p| { assert p[j] == data[begin + j] && p[j + 2] == data[begin + j + 2]; assert !ShortCode(data, begin + j); }
      }
    }
  }

  lemma {:induction false} UnitsAreClean(data: seq<byte>, k: nat)
    requires k <= |Markers(data, 0)|
    ensures AllClean(Units(data, Markers(data, 0), k))
    decreases |Markers(data, 0)| - k
  {
    if k < |Markers(data, 0)| {
      UnitIsClean(data, k);
      UnitsAreClean(data, k + 1);
    }
  }

  /** On every byte buffer: non-empty payloads without start codes, typed by their first byte. */
  lemma ScanIsClean(data: seq<byte>)
    ensures AllClean(Scan(data))
  {
    UnitsAreClean(data, 0);
  }

  // ----- Scanning what was built -----

  /** Inside a payload that is free of codes the scan finds nothing up to its end `e`, where the
      data ends or a four-byte code stands; trailing zeros of the payload do not shift that code. */
  lemma {:induction false} ScanOverPayload(data: seq<byte>, begin: nat, i: nat, e: nat)
    requires begin <= i <= e <= |data| && FreeOfCodes(data[begin..e])
    requires e == |data| || LongCode(data, e)
    ensures Markers(data, i) == Markers(data, e)
    decreases e - i
  {
    if i < e {
      NoCodeInPayload(data, begin, i, e);
      ScanOverPayload(data, begin, i + 1, e);
    }
  }

  lemma NoCodeInPayload(data: seq<byte>, begin: nat, i: nat, e: nat)
    requires begin <= i < e <= |data| && FreeOfCodes(data[begin..e])
    requires e == |data| || LongCode(data, e)
    ensures !LongCode(data, i) && !ShortCode(data, i)
  {
    var p := data[begin..e];
    var j := i - begin;
    assert !ShortCode(p, j);
    if j + 1 < |p| { assert !ShortCode(p, j + 1); }
  }

  /** The marker in front of each unit of `nals` when they are built from offset `p` on. */
  function BuiltMarkers(nals: seq<NalUnit>, p: nat): seq<Marker> {
    if nals == [] then [] else [Marker(p, p + 4)] + BuiltMarkers(nals[1..], p + 4 + |nals[0].payload|)
  }

  lemma {:induction false} MarkersOfBuild(data: seq<byte>, p: nat, nals: seq<NalUnit>)
    requires AllClean(nals) && At(data, p, Build(nals)) && p + |Build(nals)| == |data|
    ensures Markers(data, p) == BuiltMarkers(nals, p)
    decreases |nals|
  {
    if nals != [] {
      var n := nals[0];
      var e := p + 4 + |n.payload|;
      BuiltUnitAt(data, p, nals);
      if nals[1..] != [] { BuiltUnitAt(data, e, nals[1..]); }
      assert Clean(n);
      assert p + 4 + |n.payload| + |Build(nals[1..])| == |data|;
      MarkersOfBuild(data, e, nals[1..]);
      hide Build, At, Clean;
      ScanOverPayload(data, p + 4, p + 4, e);
      MarkersStep(data, p);
      hide Markers;
    } else {
      assert Markers(data, p) == [];
    }
  }

  /** The first unit built at `p`: its code, its bytes and the others behind it. */
  lemma BuiltUnitAt(data: seq<byte>, p: nat, nals: seq<NalUnit>)
    requires nals != [] && At(data, p, Build(nals))
    ensures var e := p + 4 + |nals[0].payload|;
            LongCode(data, p) && e <= |data| && data[p + 4..e] == nals[0].payload && At(data, e, Build(nals[1..]))
    ensures |Build(nals)| == 4 + |nals[0].payload| + |Build(nals[1..])|
  {
    AtSplit(data, p, Framed(nals[0]), Build(nals[1..]));
    AtSplit(data, p, [0, 0, 0, 1], nals[0].payload);
    CodeAt(data, p);
  }

  lemma CodeAt(data: seq<byte>, p: nat)
    requires At(data, p, [0, 0, 0, 1])
    ensures LongCode(data, p)
  {
    var c: seq<byte> := [0, 0, 0, 1];
    assert data[p + 0] == c[0] && data[p + 1] == c[1] && data[p + 2] == c[2] && data[p + 3] == c[3];
  }

  /** Built units are found again: by position, and with their bytes. */
  lemma {:induction false} UnitsOfBuild(data: seq<byte>, p: nat, nals: seq<NalUnit>, ms: seq<Marker>, k: nat)
    requires AllClean(nals) && At(data, p, Build(nals)) && p + |Build(nals)| == |data|
    requires k <= |ms| && ms[k..] == BuiltMarkers(nals, p)
    ensures Units(data, ms, k) == nals
    decreases |nals|
  {
    if nals != [] {
      var n := nals[0];
      var e := p + 4 + |n.payload|;
      BuiltUnitAt(data, p, nals);
      assert ms[k] == ms[k..][0] == Marker(p, p + 4);
      assert ms[k + 1..] == ms[k..][1..] == BuiltMarkers(nals[1..], e);
      assert Clean(n);
      hide Build, At, LongCode;
      UnitsOfBuild(data, e, nals[1..], ms, k + 1);
      assert PayloadEnd(data, ms, k) == e by {
        if nals[1..] != [] { assert ms[k + 1] == ms[k + 1..][0]; } else { EmptyBuild(); }
      }
      assert data[p + 4..e][0] == data[p + 4];
      assert nals == [n] + nals[1..];
    }
  }

  lemma EmptyBuild()
    ensures Build([]) == []
  {
  }

  lemma BuildScansBack(nals: seq<NalUnit>)
    requires AllClean(nals)
    ensures Scan(Build(nals)) == nals
    ensures Markers(Build(nals), 0) == BuiltMarkers(nals, 0)
  {
    var data := Build(nals);
    MarkersOfBuild(data, 0, nals);
    var ms := Markers(data, 0);
    assert ms[0..] == ms;
    UnitsOfBuild(data, 0, nals, ms, 0);
  }

  /** The round trip holds for the clean lists and for no others. */
  lemma ScanInvertsBuild(nals: seq<NalUnit>)
    ensures Scan(Build(nals)) == nals <==> AllClean(nals)
  {
    if AllClean(nals) { BuildScansBack(nals); }
    ScanIsClean(Build(nals));
  }

  /** Normalizing a buffer once is enough, whatever the buffer was. */
  lemma NormalizingIsIdempotent(data: seq<byte>)
    ensures Scan(Build(Scan(data))) == Scan(data)
  {
    ScanIsClean(data);
    BuildScansBack(Scan(data));
  }

  lemma {:induction false} BuiltMarkersAre(nals: seq<NalUnit>, p: nat)
    ensures var ms := BuiltMarkers(nals, p);
            |ms| == |nals| && forall k :: 0 <= k < |ms| ==> ms[k].payloadBegin == ms[k].codeBegin + 4
    decreases |nals|
  {
    if nals != [] { BuiltMarkersAre(nals[1..], p + 4 + |nals[0].payload|); }
  }

  /** Only four-byte codes are emitted, one per unit. */
  lemma BuildEmitsLongCodes(nals: seq<NalUnit>)
    requires AllClean(nals)
    ensures var ms := Markers(Build(nals), 0);
            |ms| == |nals| && forall k :: 0 <= k < |ms| ==> ms[k].payloadBegin == ms[k].codeBegin + 4
  {
    BuildScansBack(nals);
    BuiltMarkersAre(nals, 0);
  }
}
