/** What any response makes of the receivers known before it: every field of every receiver against the
    records of the packet that could be read. */
module MdnsMeaning {
  import opened Bytes
  import opened DnsName
  import opened MdnsResponse
  import opened MdnsGoodbye
  import opened MdnsMessage
  import opened Wrappers

  // ----- The last record that says something -----

  /** `value` is what the last of the records with something to say says, or `before` if none has. */
  ghost predicate LastSays<T(!new)>(told: seq<Told>, says: Told -> Option<T>, value: T, before: T) {
    || (value == before && forall i :: 0 <= i < |told| ==> says(told[i]) == None)
    || exists i: nat :: SaysLast(told, says, value, i)
  }

  ghost predicate SaysLast<T(!new)>(told: seq<Told>, says: Told -> Option<T>, value: T, i: nat) {
    i < |told| && says(told[i]) == Some(value) && forall j :: i < j < |told| ==> says(told[j]) == None
  }

  lemma OneSays<T(!new)>(told: seq<Told>, says: Told -> Option<T>, value: T, before: T)
    requires told != []
    requires LastSays(told[1..], says, value, match says(told[0]) case Some(x) => x case None => before)
    ensures LastSays(told, says, value, before)
  {
    var rest := told[1..];
    assert forall j :: 0 <= j < |rest| ==> rest[j] == told[j + 1];
    if i: nat :| SaysLast(rest, says, value, i) {
      assert SaysLast(told, says, value, i + 1);
    } else if says(told[0]).Some? {
      assert SaysLast(told, says, value, 0);
    }
  }

  function PortSaid(key: Name): Told -> Option<uint16> {
    (t: Told) => if t.owner == key && t.news.Serves? then Some(t.news.port) else None
  }

  function HostSaid(key: Name): Told -> Option<Name> {
    (t: Told) => if t.owner == key && t.news.Serves? then t.news.host else None
  }

  function IdSaid(key: Name): Told -> Option<seq<byte>> {
    (t: Told) => if t.owner == key && t.news.Describes? then t.news.id else None
  }

  // ----- Time to live -----

  /** A PTR record starts the time anew; SRV and TXT records can only shorten it. */
  predicate Counts(told: seq<Told>, key: Name, i: nat) {
    i < |told| && Names(told[i], key) && forall j :: i < j < |told| ==> told[j].news != Points(key)
  }

  ghost predicate Renewed(told: seq<Told>, key: Name) {
    exists i :: 0 <= i < |told| && told[i].news == Points(key)
  }

  /** The least of the times that count, and of `before` if no PTR record came. */
  ghost predicate TimeIs(told: seq<Told>, key: Name, ttl: int, before: int) {
    && (forall i: nat :: Counts(told, key, i) ==> ttl <= told[i].ttl)
    && (!Renewed(told, key) ==> ttl <= before)
    && ((!Renewed(told, key) && ttl == before) || exists i: nat :: Counts(told, key, i) && told[i].ttl == ttl)
  }

  function NextTime(t: Told, key: Name, before: int): int {
    if t.news == Points(key) then t.ttl else if Names(t, key) && t.ttl < before then t.ttl else before
  }

  lemma OneTime(told: seq<Told>, key: Name, ttl: int, before: int)
    requires told != [] && TimeIs(told[1..], key, ttl, NextTime(told[0], key, before))
    ensures TimeIs(told, key, ttl, before)
  {
    var rest := told[1..];
    assert forall j :: 0 <= j < |rest| ==> rest[j] == told[j + 1];
    CountsBelow(told, key);
    RenewedBelow(told, key);
    assert told[0].news == Points(key) ==> Names(told[0], key);
    hide Names, Counts, Renewed;
    forall i: nat | Counts(told, key, i) ensures ttl <= told[i].ttl {
      if i > 0 { assert Counts(rest, key, i - 1); }
    }
    if i: nat :| Counts(rest, key, i) && rest[i].ttl == ttl {
      var next := i + 1;
      assert Counts(told, key, next);
    } else if told[0].news == Points(key) || (Names(told[0], key) && told[0].ttl < before) {
      assert Counts(told, key, 0);
    }
  }

  lemma RenewedBelow(told: seq<Told>, key: Name)
    requires told != []
    ensures Renewed(told, key) <==> told[0].news == Points(key) || Renewed(told[1..], key)
  {
    var rest := told[1..];
    assert forall j :: 0 <= j < |rest| ==> rest[j] == told[j + 1];
    if i :| 0 <= i < |rest| && rest[i].news == Points(key) {
      var next := i + 1;
      assert told[next].news == Points(key);
    }
    if i :| 0 <= i < |told| && told[i].news == Points(key) {
      if i > 0 {
        var before := i - 1;
        assert rest[before].news == Points(key);
      }
    }
  }

  lemma CountsBelow(told: seq<Told>, key: Name)
    requires told != []
    ensures Counts(told, key, 0) <==> Names(told[0], key) && !Renewed(told[1..], key)
    ensures forall i: nat :: i < |told| - 1 ==> var next := i + 1; Counts(told[1..], key, i) <==> Counts(told, key, next)
  {
  }

  // ----- Addresses -----

  predicate IsAddress(t: Told, host: Name) {
    t.owner == host && t.news.Resolves?
  }

  /** The addresses told of a host, in the order of their records. */
  function AddressesTold(told: seq<Told>, host: Name): seq<Address> {
    if told == [] then []
    else (if IsAddress(told[0], host) then [told[0].news.address] else []) + AddressesTold(told[1..], host)
  }

  /** The least time of these records, and 120 at most. */
  function TimeTold(told: seq<Told>, host: Name, most: uint32): uint32 {
    if told == [] then most
    else TimeTold(told[1..], host, if IsAddress(told[0], host) && told[0].ttl < most then told[0].ttl else most)
  }

  /** The first IPv4 address of the list, or its first address if it has none. */
  predicate IsChosen(a: Option<Address>, list: seq<Address>) {
    exists i :: 0 <= i < |list| && a == Some(list[i]) && ChosenAt(list, i)
  }

  predicate ChosenAt(list: seq<Address>, i: nat)
    requires i < |list|
  {
    if list[i].V4? then forall j :: 0 <= j < i ==> list[j].V6?
    else i == 0 && forall j :: 0 <= j < |list| ==> list[j].V6?
  }

  lemma PreferredIsChosen(list: seq<Address>)
    requires list != []
    ensures IsChosen(Preferred(list), list)
  {
    var i := FirstV4(list, 0);
    if i < |list| { assert ChosenAt(list, i); } else { assert ChosenAt(list, 0); }
  }

  function HostOf(hosts: map<Name, HostAddress>, host: Name): HostAddress {
    if host in hosts then hosts[host] else HostAddress([], 120)
  }

  lemma OneAddress(t: Told, st: Learned, host: Name)
    ensures var hosts := Heed(t.owner, t.ttl, t.news, st).hosts;
            && HostOf(hosts, host) == (
                 var h := HostOf(st.hosts, host);
                 if IsAddress(t, host) then
                   HostAddress(h.addresses + [t.news.address], if t.ttl < h.ttl then t.ttl else h.ttl)
                 else h)
            && (host in hosts <==> host in st.hosts || IsAddress(t, host))
  {
    hide FirstLabel;
  }

  lemma {:induction false} HostIsTold(told: seq<Told>, st: Learned, host: Name)
    ensures var hosts, h := AfterTold(told, st).hosts, HostOf(st.hosts, host);
            && HostOf(hosts, host) == HostAddress(h.addresses + AddressesTold(told, host), TimeTold(told, host, h.ttl))
            && (host in hosts <==> host in st.hosts || AddressesTold(told, host) != [])
  {
    var h := HostOf(st.hosts, host);
    if told == [] {
      assert h.addresses + [] == h.addresses;
    } else {
      OneAddress(told[0], st, host);
      hide Heed, HostOf;
      HostIsTold(told[1..], Heed(told[0].owner, told[0].ttl, told[0].news, st), host);
      if IsAddress(told[0], host) {
        var a, rest := told[0].news.address, AddressesTold(told[1..], host);
        assert h.addresses + [a] + rest == h.addresses + ([a] + rest);
      }
    }
  }

  // ----- A receiver after the records -----

  /** The first label of its key. */
  predicate IsLabel(name: Name, key: Name) {
    && name <= key && (|name| < |key| ==> key[|name|] == 0x2E)
    && forall i :: 0 <= i < |name| ==> name[i] != 0x2E
  }

  ghost predicate IsNamed(told: seq<Told>, key: Name) {
    exists i :: 0 <= i < |told| && Names(told[i], key)
  }

  /** What the records say of a receiver, apart from its addresses and whether it has left: where its
      service is, who it is, and for how long; the last word counts. */
  ghost predicate Reached(told: seq<Told>, key: Name, before: Receiver, r: Receiver) {
    && LastSays(told, PortSaid(key), r.port, before.port)
    && LastSays(told, HostSaid(key), r.host, before.host)
    && LastSays(told, IdSaid(key), r.id, before.id)
    && TimeIs(told, key, r.ttlSeconds, before.ttlSeconds)
    && (if IsNamed(told, key) then r.name == FirstLabel(key) && r.instance == r.name && IsLabel(r.name, key)
        else r.name == before.name && r.instance == before.instance)
    && r.addresses == before.addresses && r.address == before.address && r.online == before.online
    && r.lastSeen == before.lastSeen && r.expiresAt == before.expiresAt
  }

  lemma Unnamed(t: Told, key: Name, st: Learned)
    requires !Names(t, key)
    ensures var n := Heed(t.owner, t.ttl, t.news, st).found;
            Entry(n, key) == Entry(st.found, key) && (key in n <==> key in st.found)
  {
    hide FirstLabel, AddAddress, Heard;
  }

  lemma Named(t: Told, key: Name, st: Learned)
    requires Names(t, key)
    ensures var n, before := Heed(t.owner, t.ttl, t.news, st).found, Entry(st.found, key);
            && key in n
            && n[key] == before.(
                 instance := FirstLabel(key), name := FirstLabel(key),
                 ttlSeconds := NextTime(t, key, before.ttlSeconds), goodbye := n[key].goodbye,
                 port := if t.news.Serves? then t.news.port else before.port,
                 host := if t.news.Serves? && t.news.host.Some? then t.news.host.value else before.host,
                 id := if t.news.Describes? && t.news.id.Some? then t.news.id.value else before.id)
  {
    hide FirstLabel, AddAddress;
  }

  lemma OneRecord(t: Told, key: Name, st: Learned)
    ensures var r, before := Entry(Heed(t.owner, t.ttl, t.news, st).found, key), Entry(st.found, key);
            && r.port == (match PortSaid(key)(t) case Some(x) => x case None => before.port)
            && r.host == (match HostSaid(key)(t) case Some(x) => x case None => before.host)
            && r.id == (match IdSaid(key)(t) case Some(x) => x case None => before.id)
            && r.ttlSeconds == NextTime(t, key, before.ttlSeconds)
            && r.name == (if Names(t, key) then FirstLabel(key) else before.name)
            && r.instance == (if Names(t, key) then FirstLabel(key) else before.instance)
            && r.addresses == before.addresses && r.address == before.address && r.online == before.online
            && r.lastSeen == before.lastSeen && r.expiresAt == before.expiresAt
    ensures key in Heed(t.owner, t.ttl, t.news, st).found <==> key in st.found || Names(t, key)
  {
    if Names(t, key) { Named(t, key, st); } else { Unnamed(t, key, st); }
    hide Heed, FirstLabel;
  }

  lemma NamedBelow(told: seq<Told>, key: Name)
    requires told != []
    ensures IsNamed(told, key) <==> Names(told[0], key) || IsNamed(told[1..], key)
  {
    var rest := told[1..];
    hide Names;
    if i :| 0 <= i < |rest| && Names(rest[i], key) {
      var next := i + 1;
      assert Names(told[next], key);
    }
    if i :| 0 <= i < |told| && Names(told[i], key) {
      if i > 0 {
        var before := i - 1;
        assert Names(rest[before], key);
      }
    }
  }

  lemma NothingSays<T(!new)>(says: Told -> Option<T>, x: T)
    ensures LastSays([], says, x, x)
  {
  }

  lemma NoTime(key: Name, ttl: int)
    ensures TimeIs([], key, ttl, ttl)
  {
  }

  lemma {:induction false} ReceiverIsReached(told: seq<Told>, key: Name, st: Learned)
    ensures Reached(told, key, Entry(st.found, key), Entry(AfterTold(told, st).found, key))
    ensures key in AfterTold(told, st).found <==> key in st.found || IsNamed(told, key)
  {
    var before := Entry(st.found, key);
    if told == [] {
      NothingSays(PortSaid(key), before.port);
      NothingSays(HostSaid(key), before.host);
      NothingSays(IdSaid(key), before.id);
      NoTime(key, before.ttlSeconds);
    } else {
      var next := Heed(told[0].owner, told[0].ttl, told[0].news, st);
      ReceiverIsReached(told[1..], key, next);
      OneRecord(told[0], key, st);
      NamedBelow(told, key);
      var r := Entry(AfterTold(told, st).found, key);
      hide Heed, Entry, Names, LastSays, TimeIs, NextTime, IsNamed, PortSaid, HostSaid, IdSaid, FirstLabel;
      OneSays(told, PortSaid(key), r.port, before.port);
      OneSays(told, HostSaid(key), r.host, before.host);
      OneSays(told, IdSaid(key), r.id, before.id);
      OneTime(told, key, r.ttlSeconds, before.ttlSeconds);
      LabelOf(key);
    }
  }

  lemma LabelOf(key: Name)
    ensures IsLabel(FirstLabel(key), key)
  {
  }

  // ----- A receiver after the packet -----

  ghost predicate SaidOf(told: seq<Told>, key: Name, before: Receiver, r: Receiver) {
    Reached(told, key, before, r) && (r.goodbye <==> HasLeft(told, key, before.goodbye))
  }

  /** At the end of a complete packet a receiver is given the addresses of its host, and the time of
      the one that lives shortest; then it is online unless it has left. */
  predicate SettledIs(told: seq<Told>, said: Receiver, r: Receiver) {
    var list, least := AddressesTold(told, said.host), TimeTold(told, said.host, 120);
    && r == said.(addresses := r.addresses, address := r.address, ttlSeconds := r.ttlSeconds, goodbye := r.goodbye,
                  online := !r.goodbye)
    && if list == [] then
         r.addresses == said.addresses && r.address == said.address && r.ttlSeconds == said.ttlSeconds
         && r.goodbye == said.goodbye
       else
         r.addresses == list && IsChosen(r.address, list)
         && r.ttlSeconds == (if least < said.ttlSeconds then least else said.ttlSeconds)
         && r.goodbye == (said.goodbye || least == 0)
  }

  lemma SettlesAs(told: seq<Told>, found: map<Name, Receiver>, said: Receiver)
    ensures SettledIs(told, said, Settled(said, AfterTold(told, Learned(found, map[])).hosts))
  {
    var hosts := AfterTold(told, Learned(found, map[])).hosts;
    var list := AddressesTold(told, said.host);
    HostIsTold(told, Learned(found, map[]), said.host);
    if list != [] {
      PreferredIsChosen(list);
      assert hosts[said.host] == HostAddress([] + list, TimeTold(told, said.host, 120));
      assert [] + list == list;
    }
    hide Preferred, IsChosen, AfterTold, AddressesTold, TimeTold;
  }

  /** Any bytes, whatever was found before, any receiver: it is known afterwards exactly if it was before
      or a readable record names it, and it is what the readable records say of it, with the addresses
      of its host if the packet is complete. */
  lemma ResponseSays(data: seq<byte>, found: map<Name, Receiver>, key: Name) returns (said: Receiver)
    ensures var told, r := Readable(data), Parsed(data, found);
            && (key in r <==> key in found || IsNamed(told, key))
            && SaidOf(told, key, Entry(found, key), said)
            && (key in r ==> if IsComplete(data) then SettledIs(told, said, r[key]) else r[key] == said)
  {
    hide Readable, IsComplete, WalkPacket, IsNamed, Settled, AfterTold, Reached, HasLeft, SettledIs;
    var told, st := Readable(data), Learned(found, map[]);
    PacketIsTold(data, found);
    ReceiverIsReached(told, key, st);
    GoodbyeIsLeaving(told, key, st);
    said := Entry(AfterTold(told, st).found, key);
    SettlesAs(told, found, said);
  }

  // ----- An advertisement with any addresses -----

  /** The record of an address: A with four bytes, AAAA with sixteen. */
  function AddressRecord(host: Name, a: Address, ttl: uint32): Resource {
    Resource(host, ttl, match a case V4(bytes) => A(bytes) case V6(bytes) => Aaaa(bytes))
  }

  predicate IsWhole(a: Address) {
    match a case V4(bytes) => |bytes| == 4 case V6(bytes) => |bytes| == 16
  }

  function AddressRecords(host: Name, list: seq<(Address, uint32)>): seq<Resource> {
    seq(|list|, i requires 0 <= i < |list| => AddressRecord(host, list[i].0, list[i].1))
  }

  function Addresses(list: seq<(Address, uint32)>): seq<Address> {
    seq(|list|, i requires 0 <= i < |list| => list[i].0)
  }

  /** The least of the times, and of `most`. */
  function LeastTime(list: seq<(Address, uint32)>, most: uint32): uint32 {
    if list == [] then most else LeastTime(list[1..], if list[0].1 < most then list[0].1 else most)
  }

  lemma {:induction false} HostHeeded(host: Name, list: seq<(Address, uint32)>, st: Learned)
    requires forall i :: 0 <= i < |list| ==> IsWhole(list[i].0)
    ensures var r, h := HeedAll(AddressRecords(host, list), st), HostOf(st.hosts, host);
            && r.found == st.found
            && HostOf(r.hosts, host) == HostAddress(h.addresses + Addresses(list), LeastTime(list, h.ttl))
            && (host in r.hosts <==> host in st.hosts || list != [])
    decreases |list|
  {
    var h := HostOf(st.hosts, host);
    if list == [] {
      assert h.addresses + Addresses(list) == h.addresses;
    } else {
      var rr, rest := AddressRecord(host, list[0].0, list[0].1), list[1..];
      assert AddressRecords(host, list)[1..] == AddressRecords(host, rest);
      var next := Heed(rr.name, rr.ttl, Meaning(rr.body), st);
      assert Meaning(rr.body) == Resolves(list[0].0);
      OneAddress(Told(host, list[0].1, Resolves(list[0].0)), st, host);
      HostHeeded(host, rest, next);
      assert Addresses(list) == [list[0].0] + Addresses(rest);
      assert h.addresses + [list[0].0] + Addresses(rest) == h.addresses + ([list[0].0] + Addresses(rest));
    }
  }

  lemma {:induction false} HeedsBoth(a: seq<Resource>, b: seq<Resource>, st: Learned)
    ensures HeedAll(a + b, st) == HeedAll(b, HeedAll(a, st))
    decreases |a|
  {
    hide Heed, Meaning;
    if a == [] {
      assert a + b == b;
    } else {
      assert (a + b)[1..] == a[1..] + b;
      HeedsBoth(a[1..], b, Heed(a[0].name, a[0].ttl, Meaning(a[0].body), st));
    }
  }

  /** PTR, SRV and TXT of a receiver; the times are given, and the id is tagged "id=". */
  function Service(service: Name, instance: Name, host: Name, port: uint16, id: seq<byte>,
                   ttls: (uint32, uint32, uint32)): seq<Resource> {
    [Resource(service, ttls.0, Ptr(instance)), Resource(instance, ttls.1, Srv(0, 0, port, host)),
     Resource(instance, ttls.2, Txt([[0x69, 0x64, 0x3D] + id]))]
  }

  lemma ServiceHeeded(service: Name, instance: Name, host: Name, port: uint16, id: seq<byte>,
                      ttls: (uint32, uint32, uint32))
    ensures var t := Min(Min(ttls.0, ttls.1), ttls.2);
            HeedAll(Service(service, instance, host, port, id, ttls), Learned(map[], map[])) ==
            Learned(map[instance := UNHEARD.(id := id, name := FirstLabel(instance), instance := FirstLabel(instance),
                                             host := host, port := port, ttlSeconds := t, goodbye := t == 0)], map[])
  {
    hide FirstLabel;
    var rrs := Service(service, instance, host, port, id, ttls);
    TagRead(id);
    var st0 := Learned(map[], map[]);
    var st1 := Heed(service, ttls.0, Points(instance), st0);
    var st2 := Heed(instance, ttls.1, Serves(port, Some(host)), st1);
    var st3 := Heed(instance, ttls.2, Describes(Some(id)), st2);
    assert HeedAll(rrs, st0) == st3 by {
      hide Heed;
      assert rrs[1..][1..] == rrs[2..] && rrs[2..][1..] == [];
      assert HeedAll(rrs, st0) == HeedAll(rrs[1..], st1) == HeedAll(rrs[2..], st2);
      assert HeedAll([], st3) == st3;
    }
    hide HeedAll;
  }

  lemma TagRead(id: seq<byte>)
    ensures Meaning(Txt([[0x69, 0x64, 0x3D] + id])) == Describes(Some(id))
  {
    assert ID_TAG == [0x69, 0x64, 0x3D];
    assert (ID_TAG + id)[3..] == id;
    OneEntry(ID_TAG + id);
  }

  lemma ServiceSendable(service: Name, instance: Name, host: Name, port: uint16, id: seq<byte>,
                        ttls: (uint32, uint32, uint32), list: seq<(Address, uint32)>)
    requires Writable(service, 0) && Writable(instance, 0) && Writable(host, 0) && |id| <= 252
    requires |WireName(instance)| < 0x1_0000 && |WireName(host)| + 6 < 0x1_0000
    requires forall i :: 0 <= i < |list| ==> IsWhole(list[i].0)
    ensures var rrs := Service(service, instance, host, port, id, ttls) + AddressRecords(host, list);
            forall k :: 0 <= k < |rrs| ==> Sendable(rrs[k])
  {
    hide Writable, WireName;
    OneString([0x69, 0x64, 0x3D] + id);
  }

  /** The receiver that is found: its service as announced, and its addresses as listed. */
  predicate IsFound(r: map<Name, Receiver>, instance: Name, host: Name, port: uint16, id: seq<byte>,
                    ttls: (uint32, uint32, uint32), list: seq<(Address, uint32)>) {
    && r.Keys == {instance}
    && var f := r[instance];
       && f.id == id && f.host == host && f.port == port && IsLabel(f.name, instance) && f.instance == f.name
       && f.addresses == Addresses(list) && IsChosen(f.address, Addresses(list))
       && f.ttlSeconds == Min(Min(Min(ttls.0, ttls.1), ttls.2), LeastTime(list, 120))
       && (f.goodbye <==> f.ttlSeconds == 0) && f.online == !f.goodbye
  }

  lemma FoundSettles(instance: Name, host: Name, port: uint16, id: seq<byte>, ttls: (uint32, uint32, uint32),
                     list: seq<(Address, uint32)>, st: Learned)
    requires list != [] && host in st.hosts && st.hosts[host] == HostAddress(Addresses(list), LeastTime(list, 120))
    requires var t := Min(Min(ttls.0, ttls.1), ttls.2);
             st.found == map[instance := UNHEARD.(id := id, name := FirstLabel(instance), instance := FirstLabel(instance),
                                                  host := host, port := port, ttlSeconds := t, goodbye := t == 0)]
    ensures IsFound(Settle(st), instance, host, port, id, ttls, list)
  {
    LabelOf(instance);
    PreferredIsChosen(Addresses(list));
    hide Preferred, FirstLabel, IsLabel, Addresses, IsChosen, LeastTime;
  }

  /** A receiver that announces any list of addresses, IPv4 and IPv6 in any order: it is found with all of
      them in that order, and is reached by the first IPv4 one, or by the first if there is none. */
  lemma AddressesReadBack(service: Name, instance: Name, host: Name, port: uint16, id: seq<byte>,
                          ttls: (uint32, uint32, uint32), list: seq<(Address, uint32)>)
    requires Writable(service, 0) && Writable(instance, 0) && Writable(host, 0) && |id| <= 252
    requires |WireName(instance)| < 0x1_0000 && |WireName(host)| + 6 < 0x1_0000
    requires 0 < |list| < 0x1_0000 - 3 && forall i :: 0 <= i < |list| ==> IsWhole(list[i].0)
    ensures IsFound(Parsed(Packet(Service(service, instance, host, port, id, ttls) + AddressRecords(host, list)), map[]),
                    instance, host, port, id, ttls, list)
  {
    var rrs, more := Service(service, instance, host, port, id, ttls), AddressRecords(host, list);
    var st0 := Learned(map[], map[]);
    ServiceSendable(service, instance, host, port, id, ttls, list);
    ServiceHeeded(service, instance, host, port, id, ttls);
    HostHeeded(host, list, HeedAll(rrs, st0));
    HeedsBoth(rrs, more, st0);
    hide Service, Writable, WireName, Packet, Parsed, HeedAll, Sendable, IsFound, LeastTime, FirstLabel;
    PacketReadsBack(rrs + more, map[]);
    assert [] + Addresses(list) == Addresses(list);
    FoundSettles(instance, host, port, id, ttls, list, HeedAll(rrs + more, st0));
  }
}
