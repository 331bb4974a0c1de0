/** The response parser of src/net/Mdns.cpp (ParseResponse): what a packet tells about receivers. */
module MdnsResponse {
  import opened Bytes
  import opened DnsName
  import opened Wrappers

  type Name = seq<byte>

  /** What inet_ntop prints: dotted decimal for four bytes, and for sixteen a text with a colon. */
  datatype Address = V4(bytes: seq<byte>) | V6(bytes: seq<byte>)

  /** DiscoveryRecord in src/net/Mdns.h. Its source field is always "mdns"; times are seconds. */
  datatype Receiver = Receiver(
    id: seq<byte>,
    name: Name,
    address: Option<Address>,
    addresses: seq<Address>,
    instance: Name,
    host: Name,
    port: uint16,
    ttlSeconds: uint32,
    lastSeen: nat,
    expiresAt: nat,
    online: bool,
    goodbye: bool)

  const UNHEARD := Receiver([], [], None, [], [], [], 0, 120, 0, 0, true, false)

  datatype HostAddress = HostAddress(addresses: seq<Address>, ttl: uint32)

  datatype Learned = Learned(found: map<Name, Receiver>, hosts: map<Name, HostAddress>)

  const TYPE_A: uint16 := 1
  const TYPE_PTR: uint16 := 12
  const TYPE_TXT: uint16 := 16
  const TYPE_AAAA: uint16 := 28
  const TYPE_SRV: uint16 := 33

  const ID_TAG: seq<byte> := [0x69, 0x64, 0x3D]

  function Min(a: uint32, b: uint32): uint32 {
    if b < a then b else a
  }

  function FirstLabel(name: Name): Name {
    name[..NextDot(name, 0)]
  }

  // ----- What one record tells -----

  datatype News =
    | Points(target: Name)                              // PTR
    | Serves(port: uint16, host: Option<Name>)          // SRV; None: its host name is unreadable
    | Describes(id: Option<seq<byte>>)                  // TXT, with the last id= string
    | Resolves(address: Address)                        // A, AAAA
    | Nothing

  function Entry(found: map<Name, Receiver>, key: Name): Receiver {
    if key in found then found[key] else UNHEARD
  }

  /** SRV and TXT records: they name the receiver and can only shorten its life. */
  function Heard(r: Receiver, key: Name, ttl: uint32): Receiver {
    r.(instance := FirstLabel(key), name := FirstLabel(key), ttlSeconds := Min(r.ttlSeconds, ttl),
    goodbye := r.goodbye || ttl == 0)
  }

  function AddAddress(hosts: map<Name, HostAddress>, host: Name, a: Address, ttl: uint32): map<Name, HostAddress> {
    var h := if host in hosts then hosts[host] else HostAddress([], 120);
    hosts[host := HostAddress(h.addresses + [a], Min(h.ttl, ttl))]
  }

  function Heed(owner: Name, ttl: uint32, news: News, st: Learned): Learned {
    match news
    case Points(target) =>
      st.(found := st.found[target := Entry(st.found, target).(
        instance := FirstLabel(target), name := FirstLabel(target), ttlSeconds := ttl, goodbye := ttl == 0)])
    case Serves(port, host) =>
      var r := Heard(Entry(st.found, owner), owner, ttl).(port := port);
      st.(found := st.found[owner := if host.Some? then r.(host := host.value) else r])
    case Describes(id) =>
      var r := Heard(Entry(st.found, owner), owner, ttl);
      st.(found := st.found[owner := if id.Some? then r.(id := id.value) else r])
    case Resolves(a) => st.(hosts := AddAddress(st.hosts, owner, a, ttl))
    case Nothing => st
  }

  /** The preferred address: the first IPv4 one, else the first. */
  function Preferred(addresses: seq<Address>): Option<Address> {
    if addresses == [] then None
    else if FirstV4(addresses, 0) < |addresses| then Some(addresses[FirstV4(addresses, 0)])
    else Some(addresses[0])
  }

  function FirstV4(addresses: seq<Address>, i: nat): (r: nat)
    requires i <= |addresses|
    ensures i <= r <= |addresses|
    ensures forall k :: i <= k < r ==> addresses[k].V6?
    ensures r < |addresses| ==> addresses[r].V4?
    decreases |addresses| - i
  {
    if i == |addresses| || addresses[i].V4? then i else FirstV4(addresses, i + 1)
  }

  /** The last loop: a receiver is given the addresses of its host. */
  function Settled(r: Receiver, hosts: map<Name, HostAddress>): Receiver {
    var known :=
      if r.host in hosts then
        var h := hosts[r.host];
        r.(addresses := h.addresses, address := Preferred(h.addresses), ttlSeconds := Min(r.ttlSeconds, h.ttl),
        goodbye := r.goodbye || h.ttl == 0)
      else r;
    known.(online := !known.goodbye)
  }

  function Settle(st: Learned): map<Name, Receiver> {
    map key | key in st.found :: Settled(st.found[key], st.hosts)
  }

  // ----- Reading records -----

  function Word(data: seq<byte>, at: nat): uint16
    requires at + 2 <= |data|
  {
    Get16(data[at], data[at + 1])
  }

  function Long(data: seq<byte>, at: nat): uint32
    requires at + 4 <= |data|
  {
    Get32(data[at], data[at + 1], data[at + 2], data[at + 3])
  }

  datatype RecordHead = RecordHead(name: Name, kind: uint16, ttl: uint32, start: nat, length: uint16)

  function HeadAt(data: seq<byte>, pos: nat): (r: Option<RecordHead>)
    ensures r.Some? ==> pos < r.value.start && r.value.start + r.value.length <= |data|
  {
    match NameAt(data, pos)
    case None => None
    case Some(read) =>
      if read.pos + 10 > |data| then None
      else
        var length := Word(data, read.pos + 8);
        if read.pos + 10 + length > |data| then None
        else Some(RecordHead(read.name, Word(data, read.pos), Long(data, read.pos + 4), read.pos + 10, length))
  }

  /** The last id= string of the TXT strings in [cursor, end), or what was found before. A string that
      would run past the end of the record ends the walk. */
  function IdIn(data: seq<byte>, cursor: nat, end: nat, before: Option<seq<byte>>): Option<seq<byte>>
    requires end <= |data|
    decreases end - cursor
  {
    if cursor >= end || cursor + 1 + data[cursor] > end then before
    else
      var next := cursor + 1 + data[cursor];
      var text := data[cursor + 1..next];
      IdIn(data, next, end, if ID_TAG <= text then Some(text[3..]) else before)
  }

  predicate Inside(data: seq<byte>, h: RecordHead) {
    h.start + h.length <= |data|
  }

  function NewsAt(data: seq<byte>, h: RecordHead): News
    requires Inside(data, h)
  {
    if h.kind == TYPE_PTR then
      match NameAt(data, h.start) { case None => Nothing case Some(read) => Points(read.name) }
    else if h.kind == TYPE_SRV then
      if h.length < 7 then Nothing
      else
        var host := NameAt(data, h.start + 6);
        Serves(Word(data, h.start + 4), if host.Some? then Some(host.value.name) else None)
    else if h.kind == TYPE_TXT then Describes(IdIn(data, h.start, h.start + h.length, None))
    else if h.kind == TYPE_A && h.length == 4 then Resolves(V4(data[h.start..h.start + 4]))
    else if h.kind == TYPE_AAAA && h.length == 16 then Resolves(V6(data[h.start..h.start + 16]))
    else Nothing
  }

  /** The state after the records that could be read, and whether that was all of them. */
  datatype Walked = Walked(st: Learned, complete: bool)

  function Walk(data: seq<byte>, pos: nat, count: nat, st: Learned): Walked
    decreases count
  {
    if count == 0 then Walked(st, true)
    else
      match HeadAt(data, pos)
      case None => Walked(st, false)
      case Some(h) => Walk(data, h.start + h.length, count - 1, Heed(h.name, h.ttl, NewsAt(data, h), st))
  }

  /** The offset behind `count` questions. */
  function Questions(data: seq<byte>, pos: nat, count: nat): Option<nat>
    decreases count
  {
    if count == 0 then Some(pos)
    else
      match NameAt(data, pos)
      case None => None
      case Some(read) => if read.pos + 4 > |data| then None else Questions(data, read.pos + 4, count - 1)
  }

  function WalkPacket(data: seq<byte>, found: map<Name, Receiver>): Walked {
    var st := Learned(found, map[]);
    if |data| < 12 then Walked(st, false)
    else
      match Questions(data, 12, Word(data, 4))
      case None => Walked(st, false)
      case Some(pos) => Walk(data, pos, Word(data, 6) + Word(data, 8) + Word(data, 10), st)
  }

  /** A packet that breaks off leaves what its records told, but nobody is given addresses. */
  function Parsed(data: seq<byte>, found: map<Name, Receiver>): map<Name, Receiver> {
    var w := WalkPacket(data, found);
    if w.complete then Settle(w.st) else w.st.found
  }

  // ----- ParseResponse -----

  /** The TXT case's loop. */
  method ReadId(data: seq<byte>, start: nat, length: nat) returns (id: Option<seq<byte>>)
    requires start + length <= |data|
    ensures id == IdIn(data, start, start + length, None)
  {
    id := None;
    var cursor := start;
    while cursor < start + length
      invariant IdIn(data, cursor, start + length, id) == IdIn(data, start, start + length, None)
      decreases start + length - cursor
    {
      var size := data[cursor];
      if cursor + 1 + size > start + length {
        break;
      }
      var entry := data[cursor + 1..cursor + 1 + size];
      if ID_TAG <= entry {
        id := Some(entry[3..]);
      }
      cursor := cursor + 1 + size;
    }
  }

  /** The switch over the record type. */
  method TakeRecord(data: seq<byte>, h: RecordHead, st: Learned) returns (r: Learned)
    requires Inside(data, h)
    ensures r == Heed(h.name, h.ttl, NewsAt(data, h), st)
  {
    hide NameAt, IdIn, Word, FirstLabel;
    var found, hosts := st.found, st.hosts;
    if h.kind == TYPE_PTR {
      var read := ReadName(data, h.start);
      if read.Some? {
        var instance := read.value.name;
        var receiver := Entry(found, instance);
        found := found[instance := receiver.(instance := FirstLabel(instance), name := FirstLabel(instance),
                                             ttlSeconds := h.ttl, goodbye := h.ttl == 0)];
      }
    } else if h.kind == TYPE_SRV {
      if h.length >= 7 {
        var receiver := Heard(Entry(found, h.name), h.name, h.ttl).(port := Word(data, h.start + 4));
        var host := ReadName(data, h.start + 6);
        if host.Some? {
          receiver := receiver.(host := host.value.name);
        }
        found := found[h.name := receiver];
      }
    } else if h.kind == TYPE_TXT {
      var receiver := Heard(Entry(found, h.name), h.name, h.ttl);
      var id := ReadId(data, h.start, h.length);
      if id.Some? {
        receiver := receiver.(id := id.value);
      }
      found := found[h.name := receiver];
    } else if h.kind == TYPE_A {
      if h.length == 4 {
        hosts := AddAddress(hosts, h.name, V4(data[h.start..h.start + 4]), h.ttl);
      }
    } else if h.kind == TYPE_AAAA {
      if h.length == 16 {
        hosts := AddAddress(hosts, h.name, V6(data[h.start..h.start + 16]), h.ttl);
      }
    }
    r := Learned(found, hosts);
  }

  method ParseResponse(data: seq<byte>, found: map<Name, Receiver>) returns (r: map<Name, Receiver>)
    ensures r == Parsed(data, found)
  {
    hide NameAt, NewsAt, Heed, Settled, Word, Long;
    if |data| < 12 { return found; }
    var questions: nat := Word(data, 4);
    var records: nat := Word(data, 6) + Word(data, 8) + Word(data, 10);
    var pos: nat, i: nat := 12, 0;
    while i < questions
      invariant i <= questions
      invariant Questions(data, pos, questions - i) == Questions(data, 12, questions)
    {
      var read := ReadName(data, pos);
      if read.None? || read.value.pos + 4 > |data| { return found; }
      pos := read.value.pos + 4;
      i := i + 1;
    }
    var st := Learned(found, map[]);
    i := 0;
    while i < records
      invariant i <= records
      invariant Walk(data, pos, records - i, st) == WalkPacket(data, found)
    {
      var read := ReadName(data, pos);
      if read.None? || read.value.pos + 10 > |data| { return st.found; }
      pos := read.value.pos;
      var length := Word(data, pos + 8);
      if pos + 10 + length > |data| { return st.found; }
      var h := RecordHead(read.value.name, Word(data, pos), Long(data, pos + 4), pos + 10, length);
      st := TakeRecord(data, h, st);
      pos := pos + 10 + length;
      i := i + 1;
    }
    r := GiveAddresses(st);
  }

  /** The last loop, over the receivers in any order. */
  method GiveAddresses(st: Learned) returns (r: map<Name, Receiver>)
    ensures r == Settle(st)
  {
    hide Settled;
    r := map[];
    var keys := st.found.Keys;
    while keys != {}
      invariant keys <= st.found.Keys
      invariant r.Keys == st.found.Keys - keys
      invariant forall key :: key in r ==> r[key] == Settled(st.found[key], st.hosts)
      decreases |keys|
    {
      var key :| key in keys;
      r := r[key := Settled(st.found[key], st.hosts)];
      keys := keys - {key};
    }
  }

  // ----- What every packet keeps -----

  /** A receiver as packets leave it: named after its key, gone exactly when it has no time left, and
      addressed by the preferred one of its addresses. */
  predicate Sound(key: Name, r: Receiver) {
    && r.instance == r.name == FirstLabel(key)
    && (r.goodbye <==> r.ttlSeconds == 0)
    && r.address == Preferred(r.addresses)
  }

  ghost predicate AllSound(found: map<Name, Receiver>) {
    forall key :: key in found ==> Sound(key, found[key])
  }

  lemma HeedKeepsSound(owner: Name, ttl: uint32, news: News, st: Learned)
    requires AllSound(st.found)
    ensures AllSound(Heed(owner, ttl, news, st).found)
    ensures st.found.Keys <= Heed(owner, ttl, news, st).found.Keys
    ensures forall key :: key in st.found ==> Heed(owner, ttl, news, st).found[key].online == st.found[key].online
    ensures forall key :: key in Heed(owner, ttl, news, st).found && key !in st.found ==>
              Heed(owner, ttl, news, st).found[key].online
  {
    hide FirstLabel, FirstV4;
    assert Preferred([]) == None;
  }

  lemma {:induction false} WalkKeepsSound(data: seq<byte>, pos: nat, count: nat, st: Learned)
    requires AllSound(st.found)
    ensures var w := Walk(data, pos, count, st);
            && AllSound(w.st.found) && st.found.Keys <= w.st.found.Keys
            && (forall key :: key in st.found ==> w.st.found[key].online == st.found[key].online)
            && (forall key :: key in w.st.found && key !in st.found ==> w.st.found[key].online)
    decreases count
  {
    hide AllSound, Heed, NewsAt, HeadAt;
    if count > 0 && HeadAt(data, pos).Some? {
      var h := HeadAt(data, pos).value;
      HeedKeepsSound(h.name, h.ttl, NewsAt(data, h), st);
      WalkKeepsSound(data, h.start + h.length, count - 1, Heed(h.name, h.ttl, NewsAt(data, h), st));
    }
  }

  /** Any bytes at all: what was found stays found and sound. Whoever has no time left is offline, and
      only they, if the packet is complete; a packet that breaks off changes nobody's online flag. */
  lemma ParsedKeepsSound(data: seq<byte>, found: map<Name, Receiver>)
    requires AllSound(found)
    ensures var r := Parsed(data, found);
            && AllSound(r) && found.Keys <= r.Keys
            && (WalkPacket(data, found).complete ==>
                  forall key :: key in r ==> (r[key].online <==> r[key].ttlSeconds > 0))
            && (!WalkPacket(data, found).complete ==>
                  forall key :: key in r ==> r[key].online == Entry(found, key).online)
  {
    var st := Learned(found, map[]);
    if |data| >= 12 && Questions(data, 12, Word(data, 4)).Some? {
      WalkKeepsSound(data, Questions(data, 12, Word(data, 4)).value,
                     Word(data, 6) + Word(data, 8) + Word(data, 10), st);
    }
    var w := WalkPacket(data, found);
    hide WalkPacket, Walk, Questions, Word, FirstLabel, Preferred;
    if w.complete { SettleKeepsSound(w.st); }
  }

  lemma SettleKeepsSound(st: Learned)
    requires AllSound(st.found)
    ensures AllSound(Settle(st)) && Settle(st).Keys == st.found.Keys
    ensures forall key :: key in Settle(st) ==> (Settle(st)[key].online <==> Settle(st)[key].ttlSeconds > 0)
  {
    hide FirstLabel, Preferred;
    forall key | key in st.found
      ensures Sound(key, Settled(st.found[key], st.hosts))
      ensures Settled(st.found[key], st.hosts).online <==> Settled(st.found[key], st.hosts).ttlSeconds > 0
    {
      assert Sound(key, st.found[key]);
    }
  }
}
