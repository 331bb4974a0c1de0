/** The receiver's own check of a video frame, tools/mock_receiver.py, against what the sender builds. */
module ReceiverCheck {
  import opened Sequences
  import opened Bytes
  import opened Wrappers
  import opened AnnexB
  import opened ParameterSets

  datatype Code = Code(offset: nat, length: nat)

  datatype Problem = NoStartCodes | ThreeByteCode | MissingParameterSets | WrongOrder

  /** find_start_codes: its loop stops one byte earlier than the sender's. */
  function Codes(payload: seq<byte>, i: nat): seq<Code>
    decreases |payload| - i
  {
    if i + 2 >= |payload| then []
    else if LongCode(payload, i) then [Code(i, 4)] + Codes(payload, i + 4)
    else if ShortCode(payload, i) then [Code(i, 3)] + Codes(payload, i + 3)
    else Codes(payload, i + 1)
  }

  method FindStartCodes(payload: seq<byte>) returns (codes: seq<Code>)
    ensures codes == Codes(payload, 0)
  {
    codes := [];
    var i := 0;
    var n := |payload|;
    while i < n - 2
      invariant codes + Codes(payload, i) == Codes(payload, 0)
      decreases n - i
    {
      CodesStep(payload, i);
      hide Codes, LongCode, ShortCode;
      CodeShapes(payload, i);
      if payload[i] == 0 && payload[i + 1] == 0 {
        if i < n - 3 && payload[i + 2] == 0 && payload[i + 3] == 1 {
          codes := codes + [Code(i, 4)];
          i := i + 4;
          continue;
        }
        if payload[i + 2] == 1 {
          codes := codes + [Code(i, 3)];
          i := i + 3;
          continue;
        }
      }
      i := i + 1;
    }
  }

  lemma CodeShapes(payload: seq<byte>, i: nat)
    ensures LongCode(payload, i) <==>
            i + 3 < |payload| && payload[i] == 0 && payload[i + 1] == 0 && payload[i + 2] == 0 && payload[i + 3] == 1
    ensures ShortCode(payload, i) <==>
            i + 2 < |payload| && payload[i] == 0 && payload[i + 1] == 0 && payload[i + 2] == 1
  {
  }

  lemma CodesStep(payload: seq<byte>, i: nat)
    requires i + 2 < |payload|
    ensures Codes(payload, i) ==
            if LongCode(payload, i) then [Code(i, 4)] + Codes(payload, i + 4)
            else if ShortCode(payload, i) then [Code(i, 3)] + Codes(payload, i + 3)
            else Codes(payload, i + 1)
  {
  }

  /** The types behind the codes; None where a code ends the frame. */
  function Types(payload: seq<byte>, codes: seq<Code>): seq<Option<nat>> {
    seq(|codes|, k requires 0 <= k < |codes| =>
      var at := codes[k].offset + codes[k].length;
      if at < |payload| then Some(payload[at] % 32) else None)
  }

  /** list.index, or the length when the type does not occur. */
  function Index(types: seq<Option<nat>>, t: nat): (r: nat)
    ensures r <= |types|
    ensures r < |types| ==> types[r] == Some(t)
    ensures forall k :: 0 <= k < r ==> types[k] != Some(t)
  {
    if types == [] then 0 else if types[0] == Some(t) then 0 else 1 + Index(types[1..], t)
  }

  predicate AnyShort(codes: seq<Code>) {
    exists k :: 0 <= k < |codes| && codes[k].length == 3
  }

  function OrderProblems(types: seq<Option<nat>>): seq<Problem> {
    var idr, sps, pps := Index(types, 5), Index(types, 7), Index(types, 8);
    if idr == |types| then []
    else if sps == |types| || pps == |types| then [MissingParameterSets]
    else if sps < pps < idr then []
    else [WrongOrder]
  }

  /** validate_annexb_frame: an empty list means the frame looks correct. */
  function Problems(payload: seq<byte>): seq<Problem> {
    var codes := Codes(payload, 0);
    if codes == [] then [NoStartCodes]
    else (if AnyShort(codes) then [ThreeByteCode] else []) + OrderProblems(Types(payload, codes))
  }

  method ValidateAnnexbFrame(payload: seq<byte>) returns (problems: seq<Problem>)
    ensures problems == Problems(payload)
  {
    problems := [];
    var codes := FindStartCodes(payload);
    if codes == [] {
      problems := problems + [NoStartCodes];
      return;
    }
    var short := false;
    var k := 0;
    while k < |codes| && !short
      invariant 0 <= k <= |codes|
      invariant short ==> AnyShort(codes)
      invariant !short ==> forall j :: 0 <= j < k ==> codes[j].length != 3
    {
      short := codes[k].length == 3;
      k := k + 1;
    }
    if short {
      problems := problems + [ThreeByteCode];
    }
    var nalTypes := CollectTypes(payload, codes);
    var idr, sps, pps := Index(nalTypes, 5), Index(nalTypes, 7), Index(nalTypes, 8);
    if idr < |nalTypes| {
      if sps == |nalTypes| || pps == |nalTypes| {
        problems := problems + [MissingParameterSets];
      } else if !(sps < pps < idr) {
        problems := problems + [WrongOrder];
      }
    }
  }

  lemma IndexFinds(types: seq<Option<nat>>, t: nat)
    ensures Index(types, t) < |types| <==> Some(t) in types
  {
  }

  /** Which problem is reported when: the types are those of section 7.4.1 of ITU-T H.264, 5 for an IDR
      slice, 7 and 8 for the parameter sets. */
  lemma ProblemsExactly(payload: seq<byte>)
    ensures var r, codes := Problems(payload), Codes(payload, 0);
            var types := Types(payload, codes);
            && (NoStartCodes in r <==> codes == [])
            && (ThreeByteCode in r <==> exists k :: 0 <= k < |codes| && codes[k].length == 3)
            && (MissingParameterSets in r <==> Some(5) in types && (Some(7) !in types || Some(8) !in types))
            && (WrongOrder in r <==>
                  && Some(5) in types && Some(7) in types && Some(8) in types
                  && !(Index(types, 7) < Index(types, 8) < Index(types, 5)))
            && |r| <= 2
  {
    var types := Types(payload, Codes(payload, 0));
    IndexFinds(types, 5);
    IndexFinds(types, 7);
    IndexFinds(types, 8);
    hide Codes, Index;
  }

  method CollectTypes(payload: seq<byte>, codes: seq<Code>) returns (types: seq<Option<nat>>)
    ensures types == Types(payload, codes)
  {
    types := [];
    var idx := 0;
    while idx < |codes|
      invariant 0 <= idx <= |codes|
      invariant types == Types(payload, codes)[..idx]
    {
      var nalStart := codes[idx].offset + codes[idx].length;
      if nalStart < |payload| {
        types := types + [Some(payload[nalStart] % 32)];
      } else {
        types := types + [None];
      }
      idx := idx + 1;
    }
  }

  // ----- Receiver and sender agree on where units begin -----

  function AsCode(m: Marker): Code {
    Code(m.codeBegin, if m.payloadBegin < m.codeBegin then 0 else m.payloadBegin - m.codeBegin)
  }

  lemma {:induction false} SameCodes(payload: seq<byte>, i: nat)
    ensures |Codes(payload, i)| == |Markers(payload, i)|
    ensures forall k :: 0 <= k < |Codes(payload, i)| ==> Codes(payload, i)[k] == AsCode(Markers(payload, i)[k])
    decreases |payload| - i
  {
    if i + 2 < |payload| {
      CodesStep(payload, i);
      MarkersStep(payload, i);
      if LongCode(payload, i) {
        SameCodes(payload, i + 4);
      } else if ShortCode(payload, i) {
        SameCodes(payload, i + 3);
      } else {
        SameCodes(payload, i + 1);
      }
      hide Codes, Markers;
    } else if i + 1 < |payload| {
      assert Markers(payload, i) == Markers(payload, i + 1) == [];
    }
  }

  /** The types the receiver sees in a built frame are the kinds of its units. */
  lemma {:induction false} TypesOfBuilt(data: seq<byte>, p: nat, nals: seq<NalUnit>, k: nat)
    requires AllClean(nals) && At(data, p, Build(nals)) && k < |nals|
    ensures k < |BuiltMarkers(nals, p)|
    ensures var m := BuiltMarkers(nals, p)[k];
            m.payloadBegin == m.codeBegin + 4 && m.payloadBegin < |data| && data[m.payloadBegin] % 32 == nals[k].kind
    decreases |nals|
  {
    BuiltUnitAt(data, p, nals);
    assert Clean(nals[0]);
    var e := p + 4 + |nals[0].payload|;
    if k > 0 {
      TypesOfBuilt(data, e, nals[1..], k - 1);
    } else {
      assert data[p + 4..e][0] == data[p + 4];
    }
  }

  function Kinds(nals: seq<NalUnit>): seq<Option<nat>> {
    seq(|nals|, k requires 0 <= k < |nals| => Some(nals[k].kind))
  }

  lemma ReceiverSeesKinds(nals: seq<NalUnit>)
    requires AllClean(nals)
    ensures var data := Build(nals); var codes := Codes(data, 0);
            Types(data, codes) == Kinds(nals) && !AnyShort(codes) && |codes| == |nals|
  {
    var data := Build(nals);
    var codes := Codes(data, 0);
    SameCodes(data, 0);
    BuildScansBack(nals);
    BuiltMarkersAre(nals, 0);
    hide Codes, Markers, Build, BuiltMarkers, At;
    forall k | 0 <= k < |nals|
      ensures codes[k].length == 4 && codes[k].offset + 4 < |data| && data[codes[k].offset + 4] % 32 == nals[k].kind
    {
      WholeAt(data);
      TypesOfBuilt(data, 0, nals, k);
    }
    assert forall k :: 0 <= k < |nals| ==> Types(data, codes)[k] == Kinds(nals)[k];
  }

  lemma WholeAt(data: seq<byte>)
    ensures At(data, 0, data)
  {
  }

  lemma {:induction false} IndexIsFirst(nals: seq<NalUnit>, kind: nat)
    ensures Index(Kinds(nals), kind) == FirstOf(nals, kind)
    decreases |nals|
  {
    if nals != [] {
      assert Kinds(nals)[1..] == Kinds(nals[1..]);
      IndexIsFirst(nals[1..], kind);
    }
  }

  /** The order the receiver wants: SPS, then PPS, then the first IDR. */
  predicate WellOrdered(nals: seq<NalUnit>) {
    Has(nals, IDR) ==> FirstOf(nals, SPS) < FirstOf(nals, PPS) < FirstOf(nals, IDR)
  }

  /** A built frame passes the receiver's check exactly when it has a unit and the right order. */
  lemma BuiltFramePasses(nals: seq<NalUnit>)
    requires AllClean(nals)
    ensures Problems(Build(nals)) == [] <==> nals != [] && WellOrdered(nals)
  {
    ReceiverSeesKinds(nals);
    IndexIsFirst(nals, IDR);
    IndexIsFirst(nals, SPS);
    IndexIsFirst(nals, PPS);
    hide Build, Codes, Index, FirstOf, Types;
  }

  /** What the cache lets out passes the check exactly when the access unit has a unit and, if it has
      an IDR slice, either brings its own sets in the right order or brings not both of them while
      both have been seen. */
  predicate Deliverable(nals: seq<NalUnit>, sps: Option<NalUnit>, pps: Option<NalUnit>) {
    nals != [] &&
    (Has(nals, IDR) ==>
       if CarriesOwn(nals) then FirstOf(nals, SPS) < FirstOf(nals, PPS) else sps.Some? && pps.Some?)
  }

  predicate CachedKinds(sps: Option<NalUnit>, pps: Option<NalUnit>) {
    (sps.Some? ==> Clean(sps.value) && sps.value.kind == SPS) && (pps.Some? ==> Clean(pps.value) && pps.value.kind == PPS)
  }

  lemma EnsuredFramePasses(nals: seq<NalUnit>, sps: Option<NalUnit>, pps: Option<NalUnit>)
    requires AllClean(nals) && CachedKinds(sps, pps)
    requires Has(nals, SPS) ==> sps.Some?
    requires Has(nals, PPS) ==> pps.Some?
    ensures Problems(Build(Ensured(nals, sps, pps))) == [] <==> Deliverable(nals, sps, pps)
  {
    var out := Ensured(nals, sps, pps);
    if out != nals {
      PrependedFirst(sps.value, pps.value, nals);
    }
    BuiltFramePasses(out);
    hide Problems, Build, Clean;
  }

  /** The same for a whole stream of scanned access units: everything the encoder's output can be. */
  lemma StreamFramesPass(stream: seq<seq<NalUnit>>)
    requires stream != [] && forall u :: 0 <= u < |stream| ==> AllClean(stream[u])
    ensures Problems(Build(Sent(stream))) == [] <==>
            Deliverable(stream[|stream| - 1], LastOf(Flatten(stream), SPS, None), LastOf(Flatten(stream), PPS, None))
  {
    var unit, seen := stream[|stream| - 1], Flatten(stream);
    var sps, pps := LastOf(seen, SPS, None), LastOf(seen, PPS, None);
    hide *;
    FlattenIsClean(stream);
    CacheIsLatest(stream, SPS);
    CacheIsLatest(stream, PPS);
    LastOfFound(seen, SPS);
    LastOfFound(seen, PPS);
    LastSeen(stream, SPS);
    LastSeen(stream, PPS);
    CachedAreClean(sps, pps);
    SentIs(stream);
    EnsuredFramePasses(unit, sps, pps);
  }

  lemma SentIs(stream: seq<seq<NalUnit>>)
    requires stream != []
    ensures Sent(stream) == Ensured(stream[|stream| - 1], CacheAfter(stream, SPS), CacheAfter(stream, PPS))
  {
  }

  lemma CachedAreClean(sps: Option<NalUnit>, pps: Option<NalUnit>)
    requires sps.Some? ==> Clean(sps.value) && sps.value.kind == SPS
    requires pps.Some? ==> Clean(pps.value) && pps.value.kind == PPS
    ensures CachedKinds(sps, pps)
  {
  }

  lemma {:induction false} FlattenIsClean(stream: seq<seq<NalUnit>>)
    requires forall u :: 0 <= u < |stream| ==> AllClean(stream[u])
    ensures forall n :: n in Flatten(stream) ==> Clean(n)
    decreases |stream|
  {
    if stream != [] {
      FlattenIsClean(stream[..|stream| - 1]);
      hide Clean;
      assert AllClean(stream[|stream| - 1]);
    }
  }

  lemma LastSeen(stream: seq<seq<NalUnit>>, kind: nat)
    requires stream != []
    ensures Has(stream[|stream| - 1], kind) ==> Has(Flatten(stream), kind)
  {
    var before := Flatten(stream[..|stream| - 1]);
    var unit := stream[|stream| - 1];
    if Has(unit, kind) {
      assert Flatten(stream)[|before| + FirstOf(unit, kind)] == unit[FirstOf(unit, kind)];
    }
  }
}
