/** The discovery cache (class DiscoveryCache in src/net/Mdns.h and src/net/Mdns.cpp) and the simple map
    from id to last advertisement that it stands for. */
module DiscoveryCache {
  import opened Bytes
  import opened DnsName
  import opened MdnsResponse
  import opened MdnsMessage
  import opened Wrappers

  /** The lambda in Merge: a record with an id belongs to that id, one without to its instance name. */
  predicate Matches(existing: Receiver, incoming: Receiver) {
    || (incoming.id != [] && existing.id == incoming.id)
    || (incoming.id == [] && incoming.instance != [] && existing.instance == incoming.instance)
  }

  function Match(records: seq<Receiver>, incoming: Receiver, i: nat): (r: nat)
    requires i <= |records|
    ensures i <= r <= |records|
    ensures forall k :: i <= k < r ==> !Matches(records[k], incoming)
    ensures r < |records| ==> Matches(records[r], incoming)
    decreases |records| - i
  {
    if i == |records| || Matches(records[i], incoming) then i else Match(records, incoming, i + 1)
  }

  /** The TTL of a goodbye is 0. */
  predicate IsGoodbye(r: Receiver) {
    r.goodbye || r.ttlSeconds == 0
  }

  function Own(r: Receiver): seq<Address> {
    if r.addresses == [] && r.address.Some? then [r.address.value] else r.addresses
  }

  /** The older addresses are kept, behind the newest ones, each once. */
  function Recall(newest: seq<Address>, older: seq<Address>): seq<Address>
    decreases |older|
  {
    if older == [] then newest
    else Recall(if older[0] in newest then newest else newest + [older[0]], older[1..])
  }

  lemma RecallNothing(newest: seq<Address>)
    ensures Recall(newest, []) == newest
  {
  }

  function Advertised(r: Receiver, now: nat, older: seq<Address>): Receiver {
    r.(online := true, goodbye := false, lastSeen := now, expiresAt := now + r.ttlSeconds,
    addresses := Recall(Own(r), older))
  }

  function Withdrawn(r: Receiver, now: nat): Receiver {
    r.(online := false, goodbye := true, lastSeen := now, expiresAt := now)
  }

  function MergeOne(records: seq<Receiver>, incoming: Receiver, now: nat): seq<Receiver> {
    var i := Match(records, incoming, 0);
    if IsGoodbye(incoming) then
      if i < |records| then records[i := Withdrawn(records[i], now)] else records
    else if i < |records| then records[i := Advertised(incoming, now, records[i].addresses)]
    else records + [Advertised(incoming, now, [])]
  }

  function MergeAll(records: seq<Receiver>, batch: seq<Receiver>, now: nat): seq<Receiver> {
    if batch == [] then records
    else MergeOne(MergeAll(records, batch[..|batch| - 1], now), batch[|batch| - 1], now)
  }

  /** An expiry time of 0 is one that was never set. */
  function Expired(r: Receiver, now: nat): Receiver {
    if r.online && r.expiresAt != 0 && now >= r.expiresAt then r.(online := false) else r
  }

  function ExpireAll(records: seq<Receiver>, now: nat): seq<Receiver> {
    seq(|records|, i requires 0 <= i < |records| => Expired(records[i], now))
  }

  function IdIndex(records: seq<Receiver>, id: seq<byte>, i: nat): (r: nat)
    requires i <= |records|
    ensures i <= r <= |records|
    ensures forall k :: i <= k < r ==> records[k].id != id
    ensures r < |records| ==> records[r].id == id
    decreases |records| - i
  {
    if i == |records| || records[i].id == id then i else IdIndex(records, id, i + 1)
  }

  function Lookup(records: seq<Receiver>, id: seq<byte>): Option<Receiver> {
    var i := IdIndex(records, id, 0);
    if id == [] || i == |records| then None else Some(records[i])
  }

  class Cache {
    var records: seq<Receiver>

    constructor ()
      ensures records == []
    {
      records := [];
    }

    method Merge(batch: seq<Receiver>, now: nat)
      modifies this
      ensures records == MergeAll(old(records), batch, now)
    {
      var k := 0;
      while k < |batch|
        invariant k <= |batch|
        invariant records == MergeAll(old(records), batch[..k], now)
      {
        assert batch[..k + 1][..k] == batch[..k];
        MergeRecord(batch[k], now);
        k := k + 1;
      }
      assert batch[..k] == batch;
    }

    /** One turn of Merge's loop. */
    method MergeRecord(record: Receiver, now: nat)
      modifies this
      ensures records == MergeOne(old(records), record, now)
    {
      hide Recall;
      var incoming := record;
      var it := 0;
      while it < |records| && !Matches(records[it], incoming)
        invariant it <= |records|
        invariant forall k :: 0 <= k < it ==> !Matches(records[k], incoming)
      {
        it := it + 1;
      }
      if incoming.goodbye || incoming.ttlSeconds == 0 {
        if it < |records| {
          records := records[it := records[it].(online := false, goodbye := true, lastSeen := now, expiresAt := now)];
        }
        return;
      }
      incoming := incoming.(online := true, goodbye := false, lastSeen := now, expiresAt := now + incoming.ttlSeconds);
      if incoming.addresses == [] && incoming.address.Some? {
        incoming := incoming.(addresses := [incoming.address.value]);
      }
      if it == |records| {
        records := records + [incoming];
      } else {
        var addresses := AppendOlder(incoming.addresses, records[it].addresses);
        records := records[it := incoming.(addresses := addresses)];
      }
      RecallNothing(incoming.addresses);
    }

    static method AppendOlder(newest: seq<Address>, older: seq<Address>) returns (r: seq<Address>)
      ensures r == Recall(newest, older)
    {
      r := newest;
      var k := 0;
      while k < |older|
        invariant k <= |older|
        invariant Recall(r, older[k..]) == Recall(newest, older)
      {
        assert older[k..][1..] == older[k + 1..];
        if older[k] !in r {
          r := r + [older[k]];
        }
        k := k + 1;
      }
    }

    method Expire(now: nat)
      modifies this
      ensures records == ExpireAll(old(records), now)
    {
      var k := 0;
      while k < |records|
        invariant k <= |records| == |old(records)|
        invariant forall j :: 0 <= j < k ==> records[j] == Expired(old(records)[j], now)
        invariant forall j :: k <= j < |records| ==> records[j] == old(records)[j]
      {
        var record := records[k];
        if record.online && record.expiresAt != 0 && now >= record.expiresAt {
          records := records[k := record.(online := false)];
        }
        k := k + 1;
      }
    }

    method FindById(id: seq<byte>) returns (r: Option<Receiver>)
      ensures r == Lookup(records, id)
    {
      if id == [] { return None; }
      var it := 0;
      while it < |records| && records[it].id != id
        invariant it <= |records|
        invariant forall k :: 0 <= k < it ==> records[k].id != id
      {
        it := it + 1;
      }
      r := if it == |records| then None else Some(records[it]);
    }
  }

  // ----- Histories -----

  datatype Event = Heard(record: Receiver, now: nat) | Ticked(now: nat)

  function Apply(records: seq<Receiver>, e: Event): seq<Receiver> {
    match e
    case Heard(record, now) => MergeOne(records, record, now)
    case Ticked(now) => ExpireAll(records, now)
  }

  /** The cache after a history that started empty. */
  function Run(events: seq<Event>): seq<Receiver> {
    if events == [] then [] else Apply(Run(events[..|events| - 1]), events[|events| - 1])
  }

  function Batch(batch: seq<Receiver>, now: nat): seq<Event> {
    seq(|batch|, k requires 0 <= k < |batch| => Heard(batch[k], now))
  }

  /** One Merge is its records heard one after the other. */
  lemma {:induction false} MergeIsHeard(events: seq<Event>, batch: seq<Receiver>, now: nat)
    ensures MergeAll(Run(events), batch, now) == Run(events + Batch(batch, now))
    decreases |batch|
  {
    hide MergeOne, ExpireAll;
    if batch == [] {
      assert events + Batch(batch, now) == events;
    } else {
      var n := |batch| - 1;
      MergeIsHeard(events, batch[..n], now);
      var all := events + Batch(batch, now);
      assert all[..|all| - 1] == events + Batch(batch[..n], now);
      assert all[|all| - 1] == Heard(batch[n], now);
    }
  }

  /** Every record heard carries an id. */
  predicate WithIds(events: seq<Event>) {
    forall k :: 0 <= k < |events| && events[k].Heard? ==> events[k].record.id != []
  }

  predicate Ordered(events: seq<Event>) {
    forall i, j :: 0 <= i <= j < |events| ==> events[i].now <= events[j].now
  }

  // ----- The map from id to last advertisement -----

  /** What one id's entry is after a history: its last advertisement, with the goodbyes and expiries
      since, and the addresses of the advertisements before. */
  function EntryOf(events: seq<Event>, id: seq<byte>): Option<Receiver> {
    if events == [] then None
    else
      var before := EntryOf(events[..|events| - 1], id);
      match events[|events| - 1]
      case Ticked(now) => if before.None? then None else Some(Expired(before.value, now))
      case Heard(record, now) =>
        if record.id != id then before
        else if !IsGoodbye(record) then
          Some(Advertised(record, now, if before.None? then [] else before.value.addresses))
        else if before.None? then None
        else Some(Withdrawn(before.value, now))
  }

  predicate UniqueIds(records: seq<Receiver>) {
    && (forall i :: 0 <= i < |records| ==> records[i].id != [])
    && (forall i, j :: 0 <= i < j < |records| ==> records[i].id != records[j].id)
  }

  lemma IdMatch(records: seq<Receiver>, incoming: Receiver)
    requires incoming.id != []
    ensures Match(records, incoming, 0) == IdIndex(records, incoming.id, 0)
  {
    var i, j := Match(records, incoming, 0), IdIndex(records, incoming.id, 0);
    assert i < |records| ==> records[i].id == incoming.id;
    assert j < |records| ==> Matches(records[j], incoming);
  }

  lemma SameIndex(records: seq<Receiver>, others: seq<Receiver>, id: seq<byte>)
    requires |records| == |others| && forall k :: 0 <= k < |records| ==> records[k].id == others[k].id
    ensures IdIndex(records, id, 0) == IdIndex(others, id, 0)
  {
    var i, j := IdIndex(records, id, 0), IdIndex(others, id, 0);
    assert i < |records| ==> others[i].id == id;
    assert j < |records| ==> records[j].id == id;
  }

  lemma LookupUpdated(records: seq<Receiver>, i: nat, x: Receiver, id: seq<byte>)
    requires UniqueIds(records) && i < |records| && x.id == records[i].id && id != []
    ensures UniqueIds(records[i := x])
    ensures Lookup(records[i := x], id) == if x.id == id then Some(x) else Lookup(records, id)
  {
    SameIndex(records, records[i := x], id);
  }

  lemma LookupAppended(records: seq<Receiver>, x: Receiver, id: seq<byte>)
    requires UniqueIds(records) && x.id != [] && IdIndex(records, x.id, 0) == |records| && id != []
    ensures UniqueIds(records + [x])
    ensures Lookup(records + [x], id) == if x.id == id then Some(x) else Lookup(records, id)
  {
    var j := IdIndex(records + [x], id, 0);
    var i := IdIndex(records, id, 0);
    assert i < |records| ==> (records + [x])[i].id == id;
    assert j < |records| ==> records[j].id == id;
    assert (records + [x])[|records|] == x;
  }

  lemma LookupExpired(records: seq<Receiver>, now: nat, id: seq<byte>)
    requires UniqueIds(records) && id != []
    ensures UniqueIds(ExpireAll(records, now))
    ensures var r := Lookup(records, id);
            Lookup(ExpireAll(records, now), id) == if r.None? then None else Some(Expired(r.value, now))
  {
    SameIndex(records, ExpireAll(records, now), id);
  }

  lemma LookupMerged(records: seq<Receiver>, incoming: Receiver, now: nat, id: seq<byte>)
    requires UniqueIds(records) && incoming.id != [] && id != []
    ensures UniqueIds(MergeOne(records, incoming, now))
    ensures var r, merged := Lookup(records, id), Lookup(MergeOne(records, incoming, now), id);
            merged ==
              if incoming.id != id then r
              else if !IsGoodbye(incoming) then
                Some(Advertised(incoming, now, if r.None? then [] else r.value.addresses))
              else if r.None? then None
              else Some(Withdrawn(r.value, now))
  {
    hide Recall, Own;
    IdMatch(records, incoming);
    var i := Match(records, incoming, 0);
    if i < |records| {
      var x := if IsGoodbye(incoming) then Withdrawn(records[i], now)
               else Advertised(incoming, now, records[i].addresses);
      LookupUpdated(records, i, x, id);
    } else if !IsGoodbye(incoming) {
      LookupAppended(records, Advertised(incoming, now, []), id);
    }
  }

  /** When every record carries an id, the cache is that map: one record an id, and each is the id's
      entry. */
  lemma {:induction false} CacheIsMap(events: seq<Event>, id: seq<byte>)
    requires WithIds(events) && id != []
    ensures UniqueIds(Run(events)) && Lookup(Run(events), id) == EntryOf(events, id)
    decreases |events|
  {
    hide MergeOne, ExpireAll, Expired, Advertised, Withdrawn, Lookup, UniqueIds, IsGoodbye;
    if events == [] {
      NothingCached(id);
    } else {
      var n := |events| - 1;
      CacheIsMap(events[..n], id);
      match events[n]
      case Heard(record, now) => LookupMerged(Run(events[..n]), record, now, id);
      case Ticked(now) => LookupExpired(Run(events[..n]), now, id);
    }
  }

  lemma NothingCached(id: seq<byte>)
    ensures UniqueIds([]) && Lookup([], id) == None
  {
  }

  // ----- When a record is online -----

  predicate IsAdvertisement(e: Event, id: seq<byte>) {
    e.Heard? && e.record.id == id && !IsGoodbye(e.record)
  }

  /** The index of the last event about `id`, or the length. */
  function LastAbout(events: seq<Event>, id: seq<byte>): (r: nat)
    ensures r <= |events|
    ensures r < |events| ==> events[r].Heard? && events[r].record.id == id
    ensures forall k :: 0 <= k < |events| && events[k].Heard? && events[k].record.id == id ==> k <= r < |events|
  {
    if events == [] then 0
    else
      var n := |events| - 1;
      if events[n].Heard? && events[n].record.id == id then n
      else
        var r := LastAbout(events[..n], id);
        if r == n then |events| else r
  }

  /** An entry as its last event left it, at a time not before `clock`. */
  predicate Timed(r: Receiver, e: Event, clock: nat)
    requires e.Heard?
  {
    if IsGoodbye(e.record) then !r.online && r.goodbye
    else
      && !r.goodbye && r.lastSeen == e.now && r.expiresAt == e.now + e.record.ttlSeconds
      && (!r.online ==> clock >= r.expiresAt)
  }

  lemma {:induction false} EntryIsTimed(events: seq<Event>, id: seq<byte>)
    requires Ordered(events) && events != []
    ensures EntryOf(events, id).Some? <==> exists k :: 0 <= k < |events| && IsAdvertisement(events[k], id)
    ensures var r, last := EntryOf(events, id), LastAbout(events, id);
            r.Some? ==> last < |events| && Timed(r.value, events[last], events[|events| - 1].now)
    decreases |events|
  {
    hide Recall, Own;
    var n := |events| - 1;
    var before := events[..n];
    if n > 0 {
      EntryIsTimed(before, id);
      assert forall k :: 0 <= k < n ==> before[k] == events[k];
      assert events[n - 1].now <= events[n].now;
    } else {
      assert EntryOf(before, id) == None;
    }
    if EntryOf(before, id).Some? {
      var k :| 0 <= k < n && IsAdvertisement(before[k], id);
      assert IsAdvertisement(events[k], id);
    }
  }

  /** Right after Expire(now): an id is known exactly when it was ever advertised, and online exactly
      when the last event about it is an advertisement whose time to live is not over. */
  lemma OnlineIffFresh(events: seq<Event>, id: seq<byte>, now: nat)
    requires WithIds(events) && Ordered(events) && events != [] && events[|events| - 1] == Ticked(now) && id != []
    ensures var r, last := Lookup(Run(events), id), LastAbout(events, id);
            && (r.Some? <==> exists k :: 0 <= k < |events| && IsAdvertisement(events[k], id))
            && (r.Some? ==>
                  && last < |events|
                  && (r.value.online <==>
                        IsAdvertisement(events[last], id) && now < events[last].now + events[last].record.ttlSeconds))
  {
    CacheIsMap(events, id);
    EntryIsTimed(events, id);
    var before := events[..|events| - 1];
    hide Recall, Own, Run, Lookup;
    if EntryOf(events, id).Some? && before != [] {
      EntryIsTimed(before, id);
    }
  }

  // ----- Addresses -----

  function FirstIndex(s: seq<Address>, a: Address): (r: nat)
    requires a in s
    ensures r < |s| && s[r] == a && forall k :: 0 <= k < r ==> s[k] != a
  {
    if s[0] == a then 0 else 1 + FirstIndex(s[1..], a)
  }

  /** The newest list, followed by every other older address, once, in the older order. */
  ghost predicate Recalled(newest: seq<Address>, older: seq<Address>, r: seq<Address>) {
    && newest <= r
    && (forall a :: a in older ==> a in r)
    && (forall i :: |newest| <= i < |r| ==> r[i] in older && r[i] !in newest)
    && (forall i, j :: |newest| <= i < j < |r| ==> FirstIndex(older, r[i]) < FirstIndex(older, r[j]))
  }

  lemma {:induction false} RecallIsRecalled(newest: seq<Address>, older: seq<Address>)
    ensures Recalled(newest, older, Recall(newest, older))
    decreases |older|
  {
    if older != [] {
      var head := older[0];
      var longer := if head in newest then newest else newest + [head];
      RecallIsRecalled(longer, older[1..]);
      RecalledStep(newest, older, Recall(longer, older[1..]));
    }
  }

  lemma RecalledStep(newest: seq<Address>, older: seq<Address>, r: seq<Address>)
    requires older != []
    requires Recalled(if older[0] in newest then newest else newest + [older[0]], older[1..], r)
    ensures Recalled(newest, older, r)
  {
    var head := older[0];
    var longer := if head in newest then newest else newest + [head];
    assert head in longer && longer[..|newest|] == newest;
    assert r[..|newest|] == newest;
    if head !in newest { assert r[|newest|] == longer[|newest|] == head; }
    forall i | |newest| <= i < |r| ensures r[i] in older && r[i] !in newest {
      if i < |longer| { assert r[i] == head; }
    }
    forall i, j | |newest| <= i < j < |r| ensures FirstIndex(older, r[i]) < FirstIndex(older, r[j]) {
      if i < |longer| { assert r[i] == head; } else { assert r[i] != head; }
      assert r[j] != head;
    }
  }

  /** Every advertisement puts its own addresses first and forgets none of the older ones. */
  lemma AdvertisementRecalls(events: seq<Event>, record: Receiver, now: nat)
    requires WithIds(events) && record.id != [] && !IsGoodbye(record)
    ensures var older := Lookup(Run(events), record.id);
            var r := Lookup(Run(events + [Heard(record, now)]), record.id);
            && r.Some?
            && Recalled(Own(record), if older.None? then [] else older.value.addresses, r.value.addresses)
            && r.value == record.(online := true, goodbye := false, lastSeen := now,
                                  expiresAt := now + record.ttlSeconds, addresses := r.value.addresses)
  {
    var longer := events + [Heard(record, now)];
    assert longer[..|events|] == events;
    CacheIsMap(events, record.id);
    CacheIsMap(longer, record.id);
    var older := Lookup(Run(events), record.id);
    hide Recall, Run, Lookup;
    RecallIsRecalled(Own(record), if older.None? then [] else older.value.addresses);
  }

  /** So the addresses of an id are those of all its advertisements. */
  lemma {:induction false} AddressesOfHistory(events: seq<Event>, id: seq<byte>, a: Address)
    requires EntryOf(events, id).Some?
    ensures a in EntryOf(events, id).value.addresses <==>
            exists k :: 0 <= k < |events| && IsAdvertisement(events[k], id) && a in Own(events[k].record)
    decreases |events|
  {
    hide Own, Recall;
    var n := |events| - 1;
    var before := EntryOf(events[..n], id);
    if before.Some? {
      AddressesOfHistory(events[..n], id, a);
      assert forall k :: 0 <= k < n ==> events[..n][k] == events[k];
    } else {
      NeverAdvertised(events[..n], id);
      assert forall k :: 0 <= k < n ==> events[..n][k] == events[k];
    }
    if IsAdvertisement(events[n], id) {
      var record := events[n].record;
      var older := if before.None? then [] else before.value.addresses;
      RecallIsRecalled(Own(record), older);
      RecalledMembers(Own(record), older, Recall(Own(record), older), a);
    }
  }

  lemma RecalledMembers(newest: seq<Address>, older: seq<Address>, r: seq<Address>, a: Address)
    requires Recalled(newest, older, r)
    ensures a in r <==> a in newest || a in older
  {
    if a in newest {
      var i :| 0 <= i < |newest| && newest[i] == a;
      assert r[i] == a;
    }
    if a in r {
      var i :| 0 <= i < |r| && r[i] == a;
      assert i < |newest| ==> newest[i] == a;
    }
  }

  lemma {:induction false} NeverAdvertised(events: seq<Event>, id: seq<byte>)
    requires EntryOf(events, id).None?
    ensures forall k :: 0 <= k < |events| ==> !IsAdvertisement(events[k], id)
    decreases |events|
  {
    if events != [] {
      var n := |events| - 1;
      NeverAdvertised(events[..n], id);
      assert forall k :: 0 <= k < n ==> events[..n][k] == events[k];
    }
  }

  // ----- Records without an id -----

  /** A record with an id is told by it, one without by its instance name. */
  predicate SameReceiver(existing: Receiver, incoming: Receiver) {
    if incoming.id != [] then existing.id == incoming.id
    else incoming.instance != [] && existing.instance == incoming.instance
  }

  /** The first cached record of the receiver that `incoming` is about. */
  predicate IsFirstOf(records: seq<Receiver>, incoming: Receiver, i: nat) {
    i < |records| && SameReceiver(records[i], incoming) && forall k :: 0 <= k < i ==> !SameReceiver(records[k], incoming)
  }

  lemma MatchIsFirst(records: seq<Receiver>, incoming: Receiver, i: nat)
    requires IsFirstOf(records, incoming, i)
    ensures Match(records, incoming, 0) == i
  {
    assert forall k :: 0 <= k < |records| ==> (Matches(records[k], incoming) <==> SameReceiver(records[k], incoming));
  }

  /** Any record, with or without an id, about a receiver that is cached: its first record is withdrawn or
      replaced, and nothing else changes. */
  lemma MergeFindsReceiver(records: seq<Receiver>, incoming: Receiver, now: nat, i: nat)
    requires IsFirstOf(records, incoming, i)
    ensures var merged := MergeOne(records, incoming, now);
            && |merged| == |records| && merged == records[i := merged[i]]
            && if incoming.goodbye || incoming.ttlSeconds == 0 then
                 merged[i] == records[i].(online := false, goodbye := true, lastSeen := now, expiresAt := now)
               else
                 && merged[i] == incoming.(online := true, goodbye := false, lastSeen := now,
                                           expiresAt := now + incoming.ttlSeconds, addresses := merged[i].addresses)
                 && Recalled(Own(incoming), records[i].addresses, merged[i].addresses)
                 && incoming.addresses <= merged[i].addresses
                 && (incoming.addresses == [] && incoming.address.Some? ==> [incoming.address.value] <= merged[i].addresses)
  {
    MatchIsFirst(records, incoming, i);
    RecallIsRecalled(Own(incoming), records[i].addresses);
    assert Own(incoming) <= Recall(Own(incoming), records[i].addresses);
    assert incoming.addresses <= Own(incoming) && (incoming.addresses == [] && incoming.address.Some? ==> Own(incoming) == [incoming.address.value]);
    hide Recall, Own, Recalled;
  }

  /** About a receiver that is not: a goodbye changes nothing, an advertisement comes behind the others. */
  lemma MergeKnowsNot(records: seq<Receiver>, incoming: Receiver, now: nat)
    requires forall k :: 0 <= k < |records| ==> !SameReceiver(records[k], incoming)
    ensures MergeOne(records, incoming, now) ==
            if incoming.goodbye || incoming.ttlSeconds == 0 then records
            else records + [incoming.(online := true, goodbye := false, lastSeen := now,
                                      expiresAt := now + incoming.ttlSeconds, addresses := Own(incoming))]
  {
    assert forall k :: 0 <= k < |records| ==> (Matches(records[k], incoming) <==> SameReceiver(records[k], incoming));
    RecallNothing(Own(incoming));
    hide Recall, Own;
  }

  /** From the wire to the cache: a packet that only says goodbye for an instance carries no id, and takes
      the cached receiver of that instance offline, and no other. */
  lemma GoodbyePacketWithdraws(service: Name, instance: Name, records: seq<Receiver>, now: nat, i: nat)
    requires Writable(service, 0) && Writable(instance, 0) && |WireName(instance)| < 0x1_0000
    requires FirstLabel(instance) != [] && i < |records| && records[i].instance == FirstLabel(instance)
    requires forall k :: 0 <= k < i ==> records[k].instance != FirstLabel(instance)
    ensures var found := Parsed(Packet([Resource(service, 0, Ptr(instance))]), map[]);
            && instance in found
            && MergeOne(records, found[instance], now)
               == records[i := records[i].(online := false, goodbye := true, lastSeen := now, expiresAt := now)]
  {
    GoodbyeReadsBack(service, instance, map[]);
    hide Writable, WireName, FirstLabel, Parsed, Packet, MergeOne;
    var found := Parsed(Packet([Resource(service, 0, Ptr(instance))]), map[]);
    MergeFindsReceiver(records, found[instance], now, i);
  }
}
