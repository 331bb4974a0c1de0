/** SpsPpsCache of src/encode/AnnexB.cpp: no IDR picture leaves without its parameter sets. */
module ParameterSets {
  import opened Wrappers
  import opened AnnexB

  /** The last unit of a kind, or `before` when there is none. */
  function LastOf(nals: seq<NalUnit>, kind: nat, before: Option<NalUnit>): Option<NalUnit> {
    if nals == [] then before
    else if nals[|nals| - 1].kind == kind then Some(nals[|nals| - 1])
    else LastOf(nals[..|nals| - 1], kind, before)
  }

  /** The index of the first unit of a kind, or |nals|. */
  function FirstOf(nals: seq<NalUnit>, kind: nat): (r: nat)
    ensures r <= |nals|
    ensures r < |nals| ==> nals[r].kind == kind
    ensures forall k :: 0 <= k < r ==> nals[k].kind != kind
  {
    if nals == [] then 0 else if nals[0].kind == kind then 0 else 1 + FirstOf(nals[1..], kind)
  }

  predicate Has(nals: seq<NalUnit>, kind: nat) {
    FirstOf(nals, kind) < |nals|
  }

  /** A unit of the kind stands before index `end`. */
  predicate HasBefore(nals: seq<NalUnit>, kind: nat, end: nat)
    requires end <= |nals|
  {
    FirstOf(nals, kind) < end
  }

  /** Both parameter sets of the access unit's own stand before its first IDR slice. */
  predicate CarriesOwn(nals: seq<NalUnit>) {
    var idr := FirstOf(nals, IDR);
    HasBefore(nals, SPS, idr) && HasBefore(nals, PPS, idr)
  }

  /** What is sent for an access unit, with the cache as it is after seeing that unit. */
  function Ensured(nals: seq<NalUnit>, sps: Option<NalUnit>, pps: Option<NalUnit>): seq<NalUnit> {
    if !Has(nals, IDR) || CarriesOwn(nals) || sps.None? || pps.None? then nals
    else [sps.value, pps.value] + nals
  }

  class SpsPpsCache {
    var sps: Option<NalUnit>
    var pps: Option<NalUnit>

    constructor ()
      ensures sps == None && pps == None
    {
      sps, pps := None, None;
    }

    method EnsureParameterSets(nals: seq<NalUnit>) returns (result: seq<NalUnit>)
      modifies this
      ensures sps == LastOf(nals, SPS, old(sps)) && pps == LastOf(nals, PPS, old(pps))
      ensures result == Ensured(nals, sps, pps)
    {
      Remember(nals);
      var idrIndex := 0;
      while idrIndex < |nals| && nals[idrIndex].kind != IDR
        invariant 0 <= idrIndex <= |nals|
        invariant forall k :: 0 <= k < idrIndex ==> nals[k].kind != IDR
      {
        idrIndex := idrIndex + 1;
      }
      if idrIndex == |nals| {
        return nals;
      }
      assert idrIndex == FirstOf(nals, IDR);
      var hasSpsBefore, hasPpsBefore := false, false;
      var i := 0;
      while i < idrIndex
        invariant 0 <= i <= idrIndex
        invariant hasSpsBefore <==> FirstOf(nals, SPS) < i
        invariant hasPpsBefore <==> FirstOf(nals, PPS) < i
      {
        if nals[i].kind == SPS {
          hasSpsBefore := true;
        }
        if nals[i].kind == PPS {
          hasPpsBefore := true;
        }
        i := i + 1;
      }
      if hasSpsBefore && hasPpsBefore {
        return nals;
      }
      if sps.None? || pps.None? {
        return nals;
      }
      result := [];
      result := result + [sps.value];
      result := result + [pps.value];
      result := result + nals;
    }

    /** The first loop: the latest parameter sets are kept. */
    method Remember(nals: seq<NalUnit>)
      modifies this
      ensures sps == LastOf(nals, SPS, old(sps)) && pps == LastOf(nals, PPS, old(pps))
    {
      var i := 0;
      while i < |nals|
        invariant 0 <= i <= |nals|
        invariant sps == LastOf(nals[..i], SPS, old(sps)) && pps == LastOf(nals[..i], PPS, old(pps))
      {
        assert nals[..i + 1][..i] == nals[..i];
        if nals[i].kind == SPS {
          sps := Some(nals[i]);
        } else if nals[i].kind == PPS {
          pps := Some(nals[i]);
        }
        i := i + 1;
      }
      assert nals[..i] == nals;
    }
  }

  // ----- Whole streams of access units through one cache -----

  /** All units of the stream so far, in order. */
  function Flatten(stream: seq<seq<NalUnit>>): seq<NalUnit> {
    if stream == [] then [] else Flatten(stream[..|stream| - 1]) + stream[|stream| - 1]
  }

  /** The cache after a stream, one call per access unit. */
  function CacheAfter(stream: seq<seq<NalUnit>>, kind: nat): Option<NalUnit> {
    if stream == [] then None
    else LastOf(stream[|stream| - 1], kind, CacheAfter(stream[..|stream| - 1], kind))
  }

  /** What is sent for the last access unit of a stream. */
  function Sent(stream: seq<seq<NalUnit>>): seq<NalUnit>
    requires stream != []
  {
    Ensured(stream[|stream| - 1], CacheAfter(stream, SPS), CacheAfter(stream, PPS))
  }

  lemma {:induction false} LastOfConcat(a: seq<NalUnit>, b: seq<NalUnit>, kind: nat, before: Option<NalUnit>)
    ensures LastOf(a + b, kind, before) == LastOf(b, kind, LastOf(a, kind, before))
    decreases |b|
  {
    if b == [] {
      assert a + b == a;
    } else {
      var n := |b| - 1;
      assert (a + b)[..|a + b| - 1] == a + b[..n];
      LastOfConcat(a, b[..n], kind, before);
    }
  }

  /** The cache holds the latest set seen in the whole stream. */
  lemma {:induction false} CacheIsLatest(stream: seq<seq<NalUnit>>, kind: nat)
    ensures CacheAfter(stream, kind) == LastOf(Flatten(stream), kind, None)
    decreases |stream|
  {
    if stream != [] {
      var n := |stream| - 1;
      CacheIsLatest(stream[..n], kind);
      LastOfConcat(Flatten(stream[..n]), stream[n], kind, None);
    }
  }

  lemma {:induction false} LastOfFound(nals: seq<NalUnit>, kind: nat)
    ensures LastOf(nals, kind, None).Some? <==> Has(nals, kind)
    ensures LastOf(nals, kind, None).Some? ==>
              LastOf(nals, kind, None).value in nals && LastOf(nals, kind, None).value.kind == kind
    decreases |nals|
  {
    if nals != [] {
      var n := |nals| - 1;
      LastOfFound(nals[..n], kind);
      assert forall k :: 0 <= k < n ==> nals[k] == nals[..n][k];
      if nals[n].kind != kind {
        if Has(nals, kind) { assert nals[..n][FirstOf(nals, kind)].kind == kind; }
        if Has(nals[..n], kind) { assert nals[FirstOf(nals[..n], kind)].kind == kind; }
      }
    }
  }

  /** For every stream: the unit goes out as it came, or with the latest parameter sets seen so
      far in front.  Once both have been seen, every unit with an IDR carries both before it. */
  lemma EveryIdrHasParameterSets(stream: seq<seq<NalUnit>>)
    requires stream != []
    ensures var unit, seen, out := stream[|stream| - 1], Flatten(stream), Sent(stream);
            var sps, pps := LastOf(seen, SPS, None), LastOf(seen, PPS, None);
            && (out == unit || (sps.Some? && pps.Some? && out == [sps.value, pps.value] + unit))
            && (Has(seen, SPS) && Has(seen, PPS) && Has(unit, IDR) ==> CarriesOwn(out))
            && (!Has(unit, IDR) || CarriesOwn(unit) ==> out == unit)
  {
    var unit, seen, out := stream[|stream| - 1], Flatten(stream), Sent(stream);
    CacheIsLatest(stream, SPS);
    CacheIsLatest(stream, PPS);
    LastOfFound(seen, SPS);
    LastOfFound(seen, PPS);
    if out != unit {
      PrependedFirst(LastOf(seen, SPS, None).value, LastOf(seen, PPS, None).value, unit);
    }
  }

  lemma PrependedFirst(sps: NalUnit, pps: NalUnit, nals: seq<NalUnit>)
    requires sps.kind == SPS && pps.kind == PPS
    ensures var out := [sps, pps] + nals;
            FirstOf(out, SPS) == 0 && FirstOf(out, PPS) == 1 && FirstOf(out, IDR) == 2 + FirstOf(nals, IDR)
  {
    var out := [sps, pps] + nals;
    assert out[0] == sps && out[1] == pps;
    assert out[1..][1..] == nals;
    assert FirstOf(out[1..], PPS) == 0;
    assert FirstOf(out, IDR) == 1 + FirstOf(out[1..], IDR) == 2 + FirstOf(nals, IDR);
  }
}
