/** Where the devices of a loaded configuration come from: each is one entry of the text, in the order
    of the priorities and of the text, and the first of each group of duplicates is kept. */
module ConfigOrder {
  import opened Wrappers
  import opened ConfigJson
  import opened ConfigStore

  predicate Ascending(at: seq<nat>) {
    forall k, l :: 0 <= k < l < |at| ==> at[k] < at[l]
  }

  // ----- The entries -----

  /** An entry counts unless it is an empty string, an object without an endpoint, or neither. */
  predicate IsEntry(item: Json, port: nat)
    requires port <= 65535
  {
    ItemDevice(item, port, 0).Some?
  }

  lemma CountIsFree(item: Json, port: nat, count: nat)
    requires port <= 65535
    ensures ItemDevice(item, port, count).Some? <==> IsEntry(item, port)
  {
  }

  predicate EntriesAt(at: seq<nat>, items: seq<Json>, port: nat, ds: seq<DeviceConfig>)
    requires port <= 65535
  {
    && |at| == |ds| && Ascending(at)
    && (forall k :: 0 <= k < |at| ==> at[k] < |items| && ItemDevice(items[at[k]], port, k) == Some(ds[k]))
    && (forall i :: 0 <= i < |items| ==> (i in at <==> IsEntry(items[i], port)))
  }

  /** The accepted devices are the entries that count, each once and in their order. */
  lemma {:induction false} AcceptedAreEntries(items: seq<Json>, port: nat) returns (at: seq<nat>)
    requires port <= 65535
    ensures EntriesAt(at, items, port, Accepted(items, port))
    decreases |items|
  {
    if items == [] {
      at := [];
    } else {
      var n := |items| - 1;
      var before := AcceptedAreEntries(items[..n], port);
      var ds := Accepted(items[..n], port);
      hide ItemDevice, EntriesAt;
      var next := ItemDevice(items[n], port, |ds|);
      at := if next.Some? then before + [n] else before;
      OneMoreEntry(before, items, port, ds, next);
    }
  }

  lemma OneMoreEntry(at: seq<nat>, items: seq<Json>, port: nat, ds: seq<DeviceConfig>, next: Option<DeviceConfig>)
    requires items != [] && port <= 65535 && EntriesAt(at, items[..|items| - 1], port, ds)
    requires next == ItemDevice(items[|items| - 1], port, |ds|)
    ensures if next.Some? then EntriesAt(at + [|items| - 1], items, port, ds + [next.value]) else EntriesAt(at, items, port, ds)
  {
    var n := |items| - 1;
    CountIsFree(items[n], port, |ds|);
    hide ItemDevice, IsEntry;
    assert n !in at;
    assert forall i :: 0 <= i < n ==> items[..n][i] == items[i];
    var longer := at + [n];
    assert forall i :: i in longer <==> i == n || i in at;
  }

  // ----- Sorting -----

  predicate Before(ds: seq<DeviceConfig>, a: nat, b: nat) {
    a < |ds| && b < |ds| && (ds[a].priority < ds[b].priority || (ds[a].priority == ds[b].priority && a < b))
  }

  /** `r` lists the devices of `ds` at the positions `at`, by priority and then by position. */
  predicate OrderedFrom(at: seq<nat>, r: seq<DeviceConfig>, ds: seq<DeviceConfig>) {
    && |at| == |r|
    && (forall k :: 0 <= k < |at| ==> at[k] < |ds| && ds[at[k]] == r[k])
    && (forall k, l :: 0 <= k < l < |at| ==> Before(ds, at[k], at[l]))
  }

  lemma {:induction false} InsertedAt(d: DeviceConfig, ds: seq<DeviceConfig>) returns (p: nat)
    ensures p <= |ds| && Insert(d, ds) == ds[..p] + [d] + ds[p..]
    ensures forall k :: 0 <= k < p ==> ds[k].priority < d.priority
    ensures p < |ds| ==> d.priority <= ds[p].priority
    decreases |ds|
  {
    p := 0;
    if !(ds == [] || d.priority <= ds[0].priority) {
      var q := InsertedAt(d, ds[1..]);
      p := q + 1;
      assert ds[..p] == [ds[0]] + ds[1..][..q] && ds[p..] == ds[1..][q..];
    }
  }

  lemma {:induction false} SortedFrom(ds: seq<DeviceConfig>) returns (at: seq<nat>)
    ensures OrderedFrom(at, StableSort(ds), ds)
    ensures forall i :: 0 <= i < |ds| ==> i in at
    decreases |ds|
  {
    if ds == [] {
      at := [];
    } else {
      var d, rest := ds[0], ds[1..];
      var before := SortedFrom(rest);
      SortIsStable(rest);
      var p := InsertedAt(d, StableSort(rest));
      assert StableSort(ds) == Insert(d, StableSort(rest));
      hide StableSort, Insert;
      at := Spliced(before, p);
      Shifted(before, p, ds, StableSort(rest));
      Permuted(before, p, |rest|);
    }
  }

  /** One more position 0 at `p`; the others move up. */
  function Spliced(before: seq<nat>, p: nat): (at: seq<nat>)
    requires p <= |before|
    ensures |at| == |before| + 1 && at[p] == 0
    ensures forall k :: 0 <= k < |before| ==> at[if k < p then k else k + 1] == before[k] + 1
  {
    seq(|before| + 1, k requires 0 <= k <= |before| => if k < p then before[k] + 1 else if k == p then 0 else before[k - 1] + 1)
  }

  lemma Shifted(before: seq<nat>, p: nat, ds: seq<DeviceConfig>, sorted: seq<DeviceConfig>)
    requires ds != [] && OrderedFrom(before, sorted, ds[1..]) && Sorted(sorted) && p <= |sorted|
    requires forall k :: 0 <= k < p ==> sorted[k].priority < ds[0].priority
    requires p < |sorted| ==> ds[0].priority <= sorted[p].priority
    ensures OrderedFrom(Spliced(before, p), sorted[..p] + [ds[0]] + sorted[p..], ds)
  {
    var at, r := Spliced(before, p), sorted[..p] + [ds[0]] + sorted[p..];
    forall k | 0 <= k < |at| ensures at[k] < |ds| && ds[at[k]] == r[k] {
      if k != p {
        var o := if k < p then k else k - 1;
        assert at[k] == before[o] + 1 && r[k] == sorted[o] && ds[1..][before[o]] == sorted[o];
      }
    }
    forall k, l | 0 <= k < l < |at| ensures Before(ds, at[k], at[l]) {
      InOrder(before, p, ds, sorted, k, l);
    }
  }

  lemma InOrder(before: seq<nat>, p: nat, ds: seq<DeviceConfig>, sorted: seq<DeviceConfig>, k: nat, l: nat)
    requires ds != [] && OrderedFrom(before, sorted, ds[1..]) && Sorted(sorted) && p <= |sorted|
    requires forall k :: 0 <= k < p ==> sorted[k].priority < ds[0].priority
    requires p < |sorted| ==> ds[0].priority <= sorted[p].priority
    requires k < l <= |before|
    ensures Before(ds, Spliced(before, p)[k], Spliced(before, p)[l])
  {
    var at := Spliced(before, p);
    hide Before, Spliced;
    if k == p {
      var j := l - 1;
      assert at[if j < p then j else j + 1] == before[j] + 1 && ds[1..][before[j]] == sorted[j];
      assert sorted[p].priority <= sorted[j].priority;
      FirstIsBefore(ds, before[j] + 1);
    } else {
      var i := if k < p then k else k - 1;
      assert at[if i < p then i else i + 1] == before[i] + 1 && ds[1..][before[i]] == sorted[i];
      if l == p {
        FirstIsBehind(ds, before[i] + 1);
      } else {
        var j := if l < p then l else l - 1;
        assert at[if j < p then j else j + 1] == before[j] + 1 && Before(ds[1..], before[i], before[j]);
        RestIsBefore(ds, before[i], before[j]);
      }
    }
  }

  lemma FirstIsBefore(ds: seq<DeviceConfig>, b: nat)
    requires 0 < b < |ds| && ds[0].priority <= ds[b].priority
    ensures Before(ds, 0, b)
  {
  }

  lemma FirstIsBehind(ds: seq<DeviceConfig>, a: nat)
    requires 0 < a < |ds| && ds[a].priority < ds[0].priority
    ensures Before(ds, a, 0)
  {
  }

  lemma RestIsBefore(ds: seq<DeviceConfig>, a: nat, b: nat)
    requires ds != [] && Before(ds[1..], a, b)
    ensures Before(ds, a + 1, b + 1)
  {
  }

  lemma Permuted(before: seq<nat>, p: nat, n: nat)
    requires p <= |before| && forall i :: 0 <= i < n ==> i in before
    ensures forall i :: 0 <= i < n + 1 ==> i in Spliced(before, p)
  {
    var at := Spliced(before, p);
    forall i | 0 <= i < n + 1 ensures i in at {
      if i == 0 {
        assert at[p] == 0;
      } else {
        var j := i - 1;
        assert j in before;
        var k :| 0 <= k < |before| && before[k] == j;
        assert at[if k < p then k else k + 1] == i;
      }
    }
  }

  // ----- Duplicates -----

  /** The device at `i` duplicates one of those at `at` that come earlier in `ds`. */
  predicate Repeats(ds: seq<DeviceConfig>, at: seq<nat>, i: nat) {
    exists k :: 0 <= k < |at| && at[k] < i < |ds| && Duplicate(ds[i], ds[at[k]])
  }

  predicate FirstOnes(ds: seq<DeviceConfig>, at: seq<nat>) {
    forall i :: 0 <= i < |ds| ==> (i in at <==> !Repeats(ds, at, i))
  }

  lemma {:induction false} KeptAreFirst(ds: seq<DeviceConfig>) returns (at: seq<nat>)
    ensures Picks(at, Deduplicated(ds), ds) && FirstOnes(ds, at)
    decreases |ds|
  {
    if ds == [] {
      at := [];
    } else {
      var n := |ds| - 1;
      var before := KeptAreFirst(ds[..n]);
      var d, kept := ds[n], Deduplicated(ds[..n]);
      hide Duplicate, DuplicatesAny, FirstOnes, Picks;
      at := if DuplicatesAny(d, kept) then before else before + [n];
      PicksOneMore(before, kept, ds);
      OneMoreKept(before, kept, ds);
    }
  }

  lemma PicksOneMore(at: seq<nat>, kept: seq<DeviceConfig>, ds: seq<DeviceConfig>)
    requires ds != [] && Picks(at, kept, ds[..|ds| - 1])
    ensures Picks(at, kept, ds) && Picks(at + [|ds| - 1], kept + [ds[|ds| - 1]], ds)
  {
  }

  lemma OneMoreKept(at: seq<nat>, kept: seq<DeviceConfig>, ds: seq<DeviceConfig>)
    requires ds != [] && Picks(at, kept, ds[..|ds| - 1]) && FirstOnes(ds[..|ds| - 1], at)
    ensures var n := |ds| - 1; FirstOnes(ds, if DuplicatesAny(ds[n], kept) then at else at + [n])
  {
    var n := |ds| - 1;
    hide Duplicate, Repeats, DuplicatesAny;
    var longer := if DuplicatesAny(ds[n], kept) then at else at + [n];
    assert forall k :: 0 <= k < |at| ==> at[k] < n;
    LastRepeats(at, kept, ds);
    hide Picks;
    RepeatsBelow(at, longer, ds);
    assert forall i :: i in longer ==> i == n || i in at;
    assert forall i :: 0 <= i < n ==> (i in longer <==> i in at);
  }

  lemma LastRepeats(at: seq<nat>, kept: seq<DeviceConfig>, ds: seq<DeviceConfig>)
    requires ds != [] && Picks(at, kept, ds[..|ds| - 1])
    ensures DuplicatesAny(ds[|ds| - 1], kept) <==> Repeats(ds, at, |ds| - 1)
  {
    hide Duplicate;
    assert forall k :: 0 <= k < |at| ==> kept[k] == ds[at[k]];
  }

  lemma RepeatsBelow(at: seq<nat>, longer: seq<nat>, ds: seq<DeviceConfig>)
    requires ds != [] && longer in {at, at + [|ds| - 1]} && forall k :: 0 <= k < |at| ==> at[k] < |ds| - 1
    ensures forall i :: 0 <= i < |ds| - 1 ==> (Repeats(ds, longer, i) <==> Repeats(ds[..|ds| - 1], at, i))
    ensures Repeats(ds, longer, |ds| - 1) <==> Repeats(ds, at, |ds| - 1)
  {
    hide Duplicate;
    assert forall k :: 0 <= k < |at| ==> longer[k] == at[k];
  }

  // ----- All of it -----

  /** `from` says which entry each loaded device is: all fields but the priority are the entry's, the
      order is that of priority and then of the text, and an entry is left out exactly when it duplicates
      a device that was kept and comes before it. */
  predicate LoadedFrom(from: seq<nat>, r: seq<DeviceConfig>, entries: seq<DeviceConfig>) {
    && |from| == |r|
    && (forall k :: 0 <= k < |from| ==> from[k] < |entries| && r[k] == entries[from[k]].(priority := k % UINT32))
    && (forall k, l :: 0 <= k < l < |from| ==> Before(entries, from[k], from[l]))
    && (forall e :: 0 <= e < |entries| ==> (e in from <==> !Overruled(entries, from, e)))
  }

  predicate Overruled(entries: seq<DeviceConfig>, from: seq<nat>, e: nat) {
    exists k :: 0 <= k < |from| && Before(entries, from[k], e) && Duplicate(entries[e], entries[from[k]])
  }

  function Composed(at: seq<nat>, kept: seq<nat>): (r: seq<nat>)
    requires forall k :: 0 <= k < |kept| ==> kept[k] < |at|
    ensures |r| == |kept| && forall k :: 0 <= k < |kept| ==> r[k] == at[kept[k]]
  {
    seq(|kept|, k requires 0 <= k < |kept| => at[kept[k]])
  }

  lemma KeptComposes(entries: seq<DeviceConfig>, at: seq<nat>, ds: seq<DeviceConfig>, kept: seq<nat>,
                     unique: seq<DeviceConfig>)
    requires OrderedFrom(at, ds, entries) && Picks(kept, unique, ds)
    requires forall e :: 0 <= e < |entries| ==> e in at
    requires FirstOnes(ds, kept)
    ensures LoadedFrom(Composed(at, kept), Renumbered(unique), entries)
  {
    var from := Composed(at, kept);
    hide Duplicate, Before;
    forall k, l | 0 <= k < l < |from| ensures Before(entries, from[k], from[l]) {
      assert kept[k] < kept[l];
    }
    forall e | 0 <= e < |entries| ensures e in from <==> !Overruled(entries, from, e) {
      assert e in at;
      var i :| 0 <= i < |at| && at[i] == e;
      RepeatsComposes(entries, at, ds, kept, from, i);
      if i in kept {
        var k :| 0 <= k < |kept| && kept[k] == i;
        assert from[k] == e;
      }
      if e in from {
        var k :| 0 <= k < |from| && from[k] == e;
        OneIndex(entries, at, kept[k], i);
      }
    }
  }

  lemma RepeatsComposes(entries: seq<DeviceConfig>, at: seq<nat>, ds: seq<DeviceConfig>, kept: seq<nat>,
                        from: seq<nat>, i: nat)
    requires |at| == |ds| && i < |at|
    requires forall k :: 0 <= k < |at| ==> at[k] < |entries| && entries[at[k]] == ds[k]
    requires forall k, l :: 0 <= k < l < |at| ==> Before(entries, at[k], at[l])
    requires forall k :: 0 <= k < |kept| ==> kept[k] < |at|
    requires from == Composed(at, kept)
    ensures Overruled(entries, from, at[i]) <==> Repeats(ds, kept, i)
  {
    hide Duplicate;
    forall k | 0 <= k < |kept| ensures Before(entries, from[k], at[i]) <==> kept[k] < i {
      if kept[k] > i { assert Before(entries, at[i], from[k]); }
    }
    hide Before;
  }

  lemma OneIndex(entries: seq<DeviceConfig>, at: seq<nat>, i: nat, j: nat)
    requires forall k, l :: 0 <= k < l < |at| ==> Before(entries, at[k], at[l])
    requires i < |at| && j < |at| && at[i] == at[j]
    ensures i == j
  {
    forall k, l | 0 <= k < l < |at| ensures at[k] != at[l] {
      assert Before(entries, at[k], at[l]);
    }
  }

  /** Which of its text's entries a loaded configuration has. */
  lemma LoadedDevicesAreEntries(json: string, o: Fields) returns (from: seq<nat>)
    requires ReadAll(json) == Some(JObject(o))
    ensures LoadedFrom(from, ParseConfig(json).devices, AllDevices(o))
  {
    hide *;
    var entries := AllDevices(o);
    var at := SortedFrom(entries);
    var kept := KeptAreFirst(StableSort(entries));
    KeptComposes(entries, at, StableSort(entries), kept, Deduplicated(StableSort(entries)));
    KeptFits(entries, at, kept);
    from := Composed(at, kept);
    DevicesAre(json, o);
  }

  lemma KeptFits(entries: seq<DeviceConfig>, at: seq<nat>, kept: seq<nat>)
    requires OrderedFrom(at, StableSort(entries), entries)
    requires Picks(kept, Deduplicated(StableSort(entries)), StableSort(entries))
    ensures forall k :: 0 <= k < |kept| ==> kept[k] < |at|
  {
  }

  lemma DevicesAre(json: string, o: Fields)
    requires ReadAll(json) == Some(JObject(o))
    ensures ParseConfig(json).devices == Renumbered(Deduplicated(StableSort(AllDevices(o))))
  {
    hide ReadAll, AllDevices, StableSort, Deduplicated, Renumbered;
  }
}
