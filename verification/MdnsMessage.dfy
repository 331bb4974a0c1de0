/** Building a response (AppendRecord, ResponseHeader and GoodResponse in src/net/Mdns.cpp) and reading
    it back. */
module MdnsMessage {
  import opened Sequences
  import opened Bytes
  import opened DnsName
  import opened MdnsResponse
  import opened Wrappers

  // ----- Records before they are bytes -----

  datatype Body =
    | Ptr(target: Name)
    | Srv(priority: uint16, weight: uint16, port: uint16, host: Name)
    | Txt(entries: seq<seq<byte>>)
    | A(address: seq<byte>)
    | Aaaa(address: seq<byte>)
    | Other(kind: uint16, payload: seq<byte>)

  datatype Resource = Resource(name: Name, ttl: uint32, body: Body)

  /** The types of section 3.2.2 of RFC 1035, of RFC 2782 and of RFC 3596. */
  function Kind(b: Body): uint16 {
    match b
    case A(_) => 1
    case Ptr(_) => 12
    case Txt(_) => 16
    case Aaaa(_) => 28
    case Srv(_, _, _, _) => 33
    case Other(kind, _) => kind
  }

  function Strings(entries: seq<seq<byte>>): seq<byte> {
    if entries == [] then [] else [|entries[0]| % 256] + entries[0] + Strings(entries[1..])
  }

  function Payload(b: Body): seq<byte> {
    match b
    case Ptr(target) => WireName(target)
    case Srv(priority, weight, port, host) => Put16(priority) + Put16(weight) + Put16(port) + WireName(host)
    case Txt(entries) => Strings(entries)
    case A(address) => address
    case Aaaa(address) => address
    case Other(_, payload) => payload
  }

  /** The ten bytes between the name and the payload; the class is IN. */
  function Fixed(kind: uint16, ttl: uint32, length: nat): seq<byte> {
    Put16(kind) + Put16(1) + Put32(ttl) + Put16(length % 0x1_0000)
  }

  function Encode(rr: Resource): seq<byte> {
    WireName(rr.name) + Fixed(Kind(rr.body), rr.ttl, |Payload(rr.body)|) + Payload(rr.body)
  }

  /** AppendRecord. */
  method AppendRecord(out: seq<byte>, name: Name, kind: uint16, payload: seq<byte>, ttl: uint32)
    returns (r: seq<byte>)
    ensures r == out + (WireName(name) + Fixed(kind, ttl, |payload|) + payload)
  {
    r := AppendName(out, name);
    r := r + Put16(kind);
    r := r + Put16(1);
    r := r + Put16(ttl / 0x1_0000);
    r := r + Put16(ttl % 0x1_0000);
    r := r + Put16(|payload| % 0x1_0000);
    r := r + payload;
    FixedParts(out, WireName(name), kind, ttl, |payload|, payload);
  }

  lemma FixedParts(out: seq<byte>, name: seq<byte>, kind: uint16, ttl: uint32, length: nat, payload: seq<byte>)
    ensures out + name + Put16(kind) + Put16(1) + Put16(ttl / 0x1_0000) + Put16(ttl % 0x1_0000)
            + Put16(length % 0x1_0000) + payload
            == out + (name + Fixed(kind, ttl, length) + payload)
  {
    var k, c, hi, lo, l :=
      Put16(kind), Put16(1), Put16(ttl / 0x1_0000), Put16(ttl % 0x1_0000), Put16(length % 0x1_0000);
    assert Fixed(kind, ttl, length) == k + c + (hi + lo) + l;
    hide *;
    assert out + name + k + c + hi + lo + l + payload == out + (name + (k + c + (hi + lo) + l) + payload);
  }

  function EncodeAll(rrs: seq<Resource>): seq<byte> {
    if rrs == [] then [] else Encode(rrs[0]) + EncodeAll(rrs[1..])
  }

  function Header(answers: uint16): (r: seq<byte>)
    ensures |r| == 12
  {
    Put16(0) + Put16(0x8400) + Put16(0) + Put16(answers) + Put16(0) + Put16(0)
  }

  function Packet(rrs: seq<Resource>): seq<byte>
    requires |rrs| < 0x1_0000
  {
    Header(|rrs|) + EncodeAll(rrs)
  }

  // ----- What a record means -----

  function IdAmong(entries: seq<seq<byte>>, before: Option<seq<byte>>): Option<seq<byte>> {
    if entries == [] then before
    else IdAmong(entries[1..], if ID_TAG <= entries[0] then Some(entries[0][3..]) else before)
  }

  function Meaning(b: Body): News {
    match b
    case Ptr(target) => Points(target)
    case Srv(_, _, port, host) => Serves(port, Some(host))
    case Txt(entries) => Describes(IdAmong(entries, None))
    case A(address) => if |address| == 4 then Resolves(V4(address)) else Nothing
    case Aaaa(address) => if |address| == 16 then Resolves(V6(address)) else Nothing
    case Other(_, _) => Nothing
  }

  function HeedAll(rrs: seq<Resource>, st: Learned): Learned {
    if rrs == [] then st else HeedAll(rrs[1..], Heed(rrs[0].name, rrs[0].ttl, Meaning(rrs[0].body), st))
  }

  /** A record that fits the wire: names with labels of 1 to 191 bytes, strings of at most 255, a payload
      of less than 64 KiB. */
  predicate Sendable(rr: Resource) {
    && Writable(rr.name, 0) && |Payload(rr.body)| < 0x1_0000
    && match rr.body
       case Ptr(target) => Writable(target, 0)
       case Srv(_, _, _, host) => Writable(host, 0)
       case Txt(entries) => forall k :: 0 <= k < |entries| ==> |entries[k]| < 256
       case Other(kind, _) => kind !in {TYPE_A, TYPE_PTR, TYPE_TXT, TYPE_AAAA, TYPE_SRV}
       case _ => true
  }

  // ----- Reading back -----

  lemma WordReads(data: seq<byte>, p: nat, n: uint16)
    requires At(data, p, Put16(n))
    ensures Word(data, p) == n
  {
    assert data[p] == Put16(n)[0] && data[p + 1] == Put16(n)[1];
    Get16Put16(n);
  }

  lemma LongReads(data: seq<byte>, p: nat, n: uint32)
    requires At(data, p, Put32(n))
    ensures Long(data, p) == n
  {
    var r := Put32(n);
    assert data[p] == r[0] && data[p + 1] == r[1] && data[p + 2] == r[2] && data[p + 3] == r[3];
    Get32Put32(n);
  }

  lemma FixedReads(data: seq<byte>, p: nat, kind: uint16, ttl: uint32, length: uint16)
    requires At(data, p, Fixed(kind, ttl, length))
    ensures Word(data, p) == kind && Long(data, p + 4) == ttl && Word(data, p + 8) == length
  {
    var k, c, t, l := Put16(kind), Put16(1), Put32(ttl), Put16(length);
    assert Fixed(kind, ttl, length) == k + c + t + l;
    hide Fixed;
    AtSplit(data, p, k + c + t, l);
    AtSplit(data, p, k + c, t);
    AtSplit(data, p, k, c);
    WordReads(data, p, kind);
    LongReads(data, p + 4, ttl);
    WordReads(data, p + 8, length);
  }

  lemma {:induction false} StringsRead(data: seq<byte>, p: nat, entries: seq<seq<byte>>, before: Option<seq<byte>>)
    requires At(data, p, Strings(entries))
    requires forall k :: 0 <= k < |entries| ==> |entries[k]| < 256
    ensures IdIn(data, p, p + |Strings(entries)|, before) == IdAmong(entries, before)
    decreases |entries|
  {
    if entries != [] {
      var text, rest := entries[0], Strings(entries[1..]);
      assert Strings(entries) == [|text|] + text + rest;
      hide Strings;
      AtSplit(data, p, [|text|] + text, rest);
      AtSplit(data, p, [|text|], text);
      assert data[p] == [|text|][0];
      AtSlice(data, p + 1, text);
      StringsRead(data, p + 1 + |text|, entries[1..], if ID_TAG <= text then Some(text[3..]) else before);
    }
  }

  /** What a record's payload tells is what the record means. */
  lemma PayloadReads(data: seq<byte>, h: RecordHead, rr: Resource)
    requires Sendable(rr) && h == RecordHead(rr.name, Kind(rr.body), rr.ttl, h.start, |Payload(rr.body)|)
    requires At(data, h.start, Payload(rr.body))
    ensures NewsAt(data, h) == Meaning(rr.body)
  {
    hide At, Word, NameAt, IdIn, Writable, WireName, Strings;
    match rr.body
    case Ptr(target) => WrittenNameReads(target, data, h.start);
    case Srv(priority, weight, port, host) => SrvReads(data, h.start, priority, weight, port, host);
    case Txt(entries) => StringsRead(data, h.start, entries, None);
    case A(address) => AtSlice(data, h.start, address);
    case Aaaa(address) => AtSlice(data, h.start, address);
    case Other(_, _) =>
  }

  lemma SrvReads(data: seq<byte>, p: nat, priority: uint16, weight: uint16, port: uint16, host: Name)
    requires Writable(host, 0) && At(data, p, Put16(priority) + Put16(weight) + Put16(port) + WireName(host))
    ensures |WireName(host)| > 0 && p + 6 <= |data|
    ensures Word(data, p + 4) == port
    ensures NameAt(data, p + 6) == Some(NameRead(host, p + 6 + |WireName(host)|))
  {
    hide Put16, NameAt, Word;
    AtSplit(data, p, Put16(priority) + Put16(weight) + Put16(port), WireName(host));
    AtSplit(data, p, Put16(priority) + Put16(weight), Put16(port));
    WrittenNameReads(host, data, p + 6);
    WordReads(data, p + 4, port);
  }

  lemma RecordReads(data: seq<byte>, p: nat, rr: Resource) returns (h: RecordHead)
    requires Sendable(rr) && At(data, p, Encode(rr))
    ensures HeadAt(data, p) == Some(h) && h.name == rr.name && h.ttl == rr.ttl
    ensures Inside(data, h) && NewsAt(data, h) == Meaning(rr.body)
    ensures h.start + h.length == p + |Encode(rr)|
  {
    hide *;
    var name, payload, kind := WireName(rr.name), Payload(rr.body), Kind(rr.body);
    SendableParts(rr);
    var fixed := Fixed(kind, rr.ttl, |payload|);
    AtSplit(data, p, name + fixed, payload);
    AtSplit(data, p, name, fixed);
    WrittenNameReads(rr.name, data, p);
    var q := p + |name|;
    FixedReads(data, q, kind, rr.ttl, |payload|);
    FixedLength(kind, rr.ttl, |payload|);
    AtFits(data, q + 10, payload);
    h := RecordHead(rr.name, kind, rr.ttl, q + 10, |payload|);
    HeadIs(data, p, q, h);
    PayloadReads(data, h, rr);
  }

  lemma SendableParts(rr: Resource)
    requires Sendable(rr)
    ensures Writable(rr.name, 0) && |Payload(rr.body)| < 0x1_0000
    ensures Encode(rr) == WireName(rr.name) + Fixed(Kind(rr.body), rr.ttl, |Payload(rr.body)|) + Payload(rr.body)
  {
    hide Writable, WireName, Fixed, Payload, Kind;
  }

  lemma HeadIs(data: seq<byte>, p: nat, q: nat, h: RecordHead)
    requires NameAt(data, p) == Some(NameRead(h.name, q)) && h.start == q + 10 && q + 10 + h.length <= |data|
    requires Word(data, q) == h.kind && Long(data, q + 4) == h.ttl && Word(data, q + 8) == h.length
    ensures HeadAt(data, p) == Some(h) && Inside(data, h)
  {
    hide NameAt, Word, Long;
  }

  lemma FixedLength(kind: uint16, ttl: uint32, length: nat)
    ensures |Fixed(kind, ttl, length)| == 10
  {
  }

  lemma AtFits(data: seq<byte>, p: nat, t: seq<byte>)
    requires At(data, p, t)
    ensures p + |t| <= |data|
  {
  }

  lemma WalkStep(data: seq<byte>, p: nat, count: nat, h: RecordHead, news: News, st: Learned)
    requires HeadAt(data, p) == Some(h) && Inside(data, h) && NewsAt(data, h) == news
    ensures Walk(data, p, count + 1, st) == Walk(data, h.start + h.length, count, Heed(h.name, h.ttl, news, st))
  {
    hide HeadAt, NewsAt, Heed;
  }

  lemma NoRecords(data: seq<byte>, p: nat, st: Learned)
    ensures Walk(data, p, 0, st) == Walked(st, true) && HeedAll([], st) == st
  {
  }

  lemma FirstRecord(rrs: seq<Resource>, st: Learned)
    requires rrs != []
    ensures EncodeAll(rrs) == Encode(rrs[0]) + EncodeAll(rrs[1..])
    ensures HeedAll(rrs, st) == HeedAll(rrs[1..], Heed(rrs[0].name, rrs[0].ttl, Meaning(rrs[0].body), st))
  {
    hide Encode, Heed, Meaning;
  }

  lemma {:induction false} WalkReadsRecords(data: seq<byte>, p: nat, rrs: seq<Resource>, st: Learned)
    requires At(data, p, EncodeAll(rrs)) && forall k :: 0 <= k < |rrs| ==> Sendable(rrs[k])
    ensures Walk(data, p, |rrs|, st) == Walked(HeedAll(rrs, st), true)
    decreases |rrs|
  {
    hide *;
    if rrs == [] {
      NoRecords(data, p, st);
    } else {
      var rr, rest := rrs[0], rrs[1..];
      FirstRecord(rrs, st);
      AtSplit(data, p, Encode(rr), EncodeAll(rest));
      var h := RecordReads(data, p, rr);
      WalkStep(data, p, |rest|, h, Meaning(rr.body), st);
      WalkReadsRecords(data, p + |Encode(rr)|, rest, Heed(rr.name, rr.ttl, Meaning(rr.body), st));
    }
  }

  lemma HeaderReads(data: seq<byte>, answers: uint16)
    requires At(data, 0, Header(answers))
    ensures Word(data, 4) == 0 && Word(data, 6) == answers && Word(data, 8) == 0 && Word(data, 10) == 0
  {
    var a, b, c, d, e := Put16(0), Put16(0x8400), Put16(0), Put16(answers), Put16(0);
    assert Header(answers) == a + b + c + d + e + e;
    hide Header, Put16, Word, At;
    AtSplit(data, 0, a + b + c + d + e, e);
    AtSplit(data, 0, a + b + c + d, e);
    AtSplit(data, 0, a + b + c, d);
    AtSplit(data, 0, a + b, c);
    WordReads(data, 4, 0);
    WordReads(data, 6, answers);
    WordReads(data, 8, 0);
    WordReads(data, 10, 0);
  }

  /** Any response, read with anything already found: exactly its records are heeded, in order. */
  lemma PacketReadsBack(rrs: seq<Resource>, found: map<Name, Receiver>)
    requires |rrs| < 0x1_0000 && forall k :: 0 <= k < |rrs| ==> Sendable(rrs[k])
    ensures Parsed(Packet(rrs), found) == Settle(HeedAll(rrs, Learned(found, map[])))
  {
    hide Header, Settle, Sendable, HeedAll, EncodeAll, Walk, Parsed, Word, At;
    var data := Packet(rrs);
    TwoParts(Header(|rrs|), EncodeAll(rrs));
    HeaderReads(data, |rrs|);
    WalkReadsRecords(data, 12, rrs, Learned(found, map[]));
    ParsedWhole(data, found, |rrs|, HeedAll(rrs, Learned(found, map[])));
  }

  lemma TwoParts(a: seq<byte>, b: seq<byte>)
    ensures At(a + b, 0, a) && At(a + b, |a|, b)
  {
  }

  lemma ParsedWhole(data: seq<byte>, found: map<Name, Receiver>, answers: nat, st: Learned)
    requires |data| >= 12
    requires Word(data, 4) == 0 && Word(data, 6) == answers && Word(data, 8) == 0 && Word(data, 10) == 0
    requires Walk(data, 12, answers, Learned(found, map[])) == Walked(st, true)
    ensures Parsed(data, found) == Settle(st)
  {
    hide Walk, Settle, Word;
  }

  // ----- Any response -----

  /** A question that is echoed: its name, and the four bytes of type and class. */
  datatype Question = Question(name: Name, tail: seq<byte>)

  predicate Askable(q: Question) {
    Writable(q.name, 0) && |q.tail| == 4
  }

  function EncodeQuestions(qs: seq<Question>): seq<byte> {
    if qs == [] then [] else WireName(qs[0].name) + qs[0].tail + EncodeQuestions(qs[1..])
  }

  /** Section 4.1 of RFC 1035: a header with the four counts, and the four sections. */
  function FullHeader(id: uint16, flags: uint16, qs: uint16, answers: uint16, authority: uint16, additional: uint16):
      (r: seq<byte>)
    ensures |r| == 12
  {
    Put16(id) + Put16(flags) + Put16(qs) + Put16(answers) + Put16(authority) + Put16(additional)
  }

  lemma FullHeaderReads(data: seq<byte>, id: uint16, flags: uint16, qs: uint16, answers: uint16, authority: uint16,
                        additional: uint16)
    requires At(data, 0, FullHeader(id, flags, qs, answers, authority, additional))
    ensures Word(data, 4) == qs && Word(data, 6) == answers && Word(data, 8) == authority && Word(data, 10) == additional
  {
    var a, b, c, d, e, f := Put16(id), Put16(flags), Put16(qs), Put16(answers), Put16(authority), Put16(additional);
    assert FullHeader(id, flags, qs, answers, authority, additional) == a + b + c + d + e + f;
    hide FullHeader, Put16, Word, At;
    AtSplit(data, 0, a + b + c + d + e, f);
    AtSplit(data, 0, a + b + c + d, e);
    AtSplit(data, 0, a + b + c, d);
    AtSplit(data, 0, a + b, c);
    WordReads(data, 4, qs);
    WordReads(data, 6, answers);
    WordReads(data, 8, authority);
    WordReads(data, 10, additional);
  }

  lemma {:induction false} QuestionsRead(data: seq<byte>, p: nat, qs: seq<Question>)
    requires At(data, p, EncodeQuestions(qs)) && forall k :: 0 <= k < |qs| ==> Askable(qs[k])
    ensures Questions(data, p, |qs|) == Some(p + |EncodeQuestions(qs)|)
    decreases |qs|
  {
    if qs != [] {
      var q, rest := qs[0], EncodeQuestions(qs[1..]);
      hide At, NameAt, Writable, WireName;
      AtSplit(data, p, WireName(q.name) + q.tail, rest);
      AtSplit(data, p, WireName(q.name), q.tail);
      WrittenNameReads(q.name, data, p);
      AtFits(data, p + |WireName(q.name)|, q.tail);
      QuestionsRead(data, p + |WireName(q.name)| + 4, qs[1..]);
    }
  }

  /** Any response, with the questions echoed or not, and its records spread over the three sections: exactly
      its records are heeded, section after section. */
  lemma AnyPacketReadsBack(id: uint16, flags: uint16, qs: seq<Question>, rrs: seq<Resource>, answers: uint16,
                           authority: uint16, additional: uint16, found: map<Name, Receiver>)
    requires |qs| < 0x1_0000 && |rrs| == answers + authority + additional
    requires (forall k :: 0 <= k < |qs| ==> Askable(qs[k])) && (forall k :: 0 <= k < |rrs| ==> Sendable(rrs[k]))
    ensures Parsed(FullHeader(id, flags, |qs|, answers, authority, additional) + EncodeQuestions(qs) + EncodeAll(rrs), found)
            == Settle(HeedAll(rrs, Learned(found, map[])))
  {
    hide *;
    var header := FullHeader(id, flags, |qs|, answers, authority, additional);
    var data := header + EncodeQuestions(qs) + EncodeAll(rrs);
    ThreeStand(header, EncodeQuestions(qs), EncodeAll(rrs));
    FullHeaderReads(data, id, flags, |qs|, answers, authority, additional);
    QuestionsRead(data, 12, qs);
    var p := 12 + |EncodeQuestions(qs)|;
    WalkReadsRecords(data, p, rrs, Learned(found, map[]));
    ParsedSections(data, found, p, |rrs|, HeedAll(rrs, Learned(found, map[])));
  }

  lemma ThreeStand(a: seq<byte>, b: seq<byte>, c: seq<byte>)
    ensures At(a + b + c, 0, a) && At(a + b + c, |a|, b) && At(a + b + c, |a| + |b|, c)
  {
  }

  lemma ParsedSections(data: seq<byte>, found: map<Name, Receiver>, p: nat, count: nat, st: Learned)
    requires |data| >= 12 && Questions(data, 12, Word(data, 4)) == Some(p)
    requires count == Word(data, 6) + Word(data, 8) + Word(data, 10)
    requires Walk(data, p, count, Learned(found, map[])) == Walked(st, true)
    ensures Parsed(data, found) == Settle(st)
  {
    hide Walk, Settle, Word, Questions;
  }

  // ----- One receiver's answer -----

  /** PTR, SRV, TXT and A in one packet, as a receiver answers. */
  function Advertisement(service: Name, instance: Name, host: Name, port: uint16, id: seq<byte>, ip: seq<byte>,
                         ttls: (uint32, uint32, uint32, uint32)): seq<Resource> {
    [Resource(service, ttls.0, Ptr(instance)),
     Resource(instance, ttls.1, Srv(0, 0, port, host)),
     Resource(instance, ttls.2, Txt([ID_TAG + id])),
     Resource(host, ttls.3, A(ip))]
  }

  /** GoodResponse, with its literals and its one TTL as parameters. */
  method GoodResponse(service: Name, instance: Name, host: Name, port: uint16, id: seq<byte>, ip: seq<byte>,
                      ttl: uint32)
    returns (packet: seq<byte>)
    requires |id| <= 252
    ensures packet == Packet(Advertisement(service, instance, host, port, id, ip, (ttl, ttl, ttl, ttl)))
  {
    hide WireName, Fixed, Header;
    var rrs := Advertisement(service, instance, host, port, id, ip, (ttl, ttl, ttl, ttl));
    packet := Header(4);
    var ptr := AppendName([], instance);
    var srv := Put16(0) + Put16(0) + Put16(port);
    srv := AppendName(srv, host);
    var text := ID_TAG + id;
    var txt := [|text|] + text;
    assert ptr == Payload(rrs[0].body) by { assert [] + WireName(instance) == WireName(instance); }
    assert srv == Payload(rrs[1].body);
    assert txt == Payload(rrs[2].body) by { OneString(text); }
    FourRecords(rrs);
    hide Payload, Put16;
    packet := AppendRecord(packet, service, TYPE_PTR, ptr, ttl);
    packet := AppendRecord(packet, instance, TYPE_SRV, srv, ttl);
    packet := AppendRecord(packet, instance, TYPE_TXT, txt, ttl);
    packet := AppendRecord(packet, host, TYPE_A, ip, ttl);
    Regrouped(Header(4), Encode(rrs[0]), Encode(rrs[1]), Encode(rrs[2]), Encode(rrs[3]));
  }

  lemma OneString(text: seq<byte>)
    requires |text| < 256
    ensures Strings([text]) == [|text|] + text
  {
    assert [text][1..] == [];
    assert Strings([text][1..]) == [];
  }

  lemma FourRecords(rrs: seq<Resource>)
    requires |rrs| == 4
    ensures EncodeAll(rrs) == Encode(rrs[0]) + (Encode(rrs[1]) + (Encode(rrs[2]) + (Encode(rrs[3]) + [])))
  {
    hide Encode;
    assert rrs[1..][1..] == rrs[2..] && rrs[2..][1..] == rrs[3..] && rrs[3..][1..] == [];
    assert EncodeAll(rrs[3..]) == Encode(rrs[3]) + EncodeAll([]);
    assert EncodeAll(rrs[2..]) == Encode(rrs[2]) + EncodeAll(rrs[3..]);
    assert EncodeAll(rrs[1..]) == Encode(rrs[1]) + EncodeAll(rrs[2..]);
  }

  lemma Regrouped(h: seq<byte>, a: seq<byte>, b: seq<byte>, c: seq<byte>, d: seq<byte>)
    ensures h + a + b + c + d == h + (a + (b + (c + (d + []))))
  {
  }

  function Shortest(ttls: (uint32, uint32, uint32, uint32)): uint32 {
    Min(Min(Min(ttls.0, ttls.1), ttls.2), Min(120, ttls.3))
  }

  /** The one receiver an advertisement announces. */
  function Announced(instance: Name, host: Name, port: uint16, id: seq<byte>, ip: seq<byte>, ttl: uint32): Receiver {
    Receiver(id, FirstLabel(instance), Some(V4(ip)), [V4(ip)], FirstLabel(instance), host, port, ttl, 0, 0, ttl != 0,
             ttl == 0)
  }

  lemma AdvertisementIsHeeded(service: Name, instance: Name, host: Name, port: uint16, id: seq<byte>, ip: seq<byte>,
                              ttls: (uint32, uint32, uint32, uint32))
    requires |ip| == 4
    ensures Settle(HeedAll(Advertisement(service, instance, host, port, id, ip, ttls), Learned(map[], map[])))
            == map[instance := Announced(instance, host, port, id, ip, Shortest(ttls))]
  {
    hide FirstLabel, NextDot;
    var rrs := Advertisement(service, instance, host, port, id, ip, ttls);
    TaggedId(id);
    var st0 := Learned(map[], map[]);
    var st1 := Heed(service, ttls.0, Points(instance), st0);
    var st2 := Heed(instance, ttls.1, Serves(port, Some(host)), st1);
    var st3 := Heed(instance, ttls.2, Describes(Some(id)), st2);
    var st4 := Heed(host, ttls.3, Resolves(V4(ip)), st3);
    HeedFour(rrs, st0);
    OnlyAddress(ip);
    assert [] + [V4(ip)] == [V4(ip)];
    assert st4.hosts == map[host := HostAddress([V4(ip)], Min(120, ttls.3))];
    hide HeedAll, Preferred, Advertisement;
    var t := Min(Min(ttls.0, ttls.1), ttls.2);
    assert st4.found == map[instance := UNHEARD.(id := id, name := FirstLabel(instance), instance := FirstLabel(instance),
                                                 host := host, port := port, ttlSeconds := t, goodbye := t == 0)];
    assert Settled(st4.found[instance], st4.hosts) == Announced(instance, host, port, id, ip, Shortest(ttls));
  }

  lemma TaggedId(id: seq<byte>)
    ensures Meaning(Txt([ID_TAG + id])) == Describes(Some(id))
  {
    assert (ID_TAG + id)[3..] == id;
    OneEntry(ID_TAG + id);
  }

  lemma HeedFour(rrs: seq<Resource>, st: Learned)
    requires |rrs| == 4
    ensures var st1 := Heed(rrs[0].name, rrs[0].ttl, Meaning(rrs[0].body), st);
            var st2 := Heed(rrs[1].name, rrs[1].ttl, Meaning(rrs[1].body), st1);
            var st3 := Heed(rrs[2].name, rrs[2].ttl, Meaning(rrs[2].body), st2);
            HeedAll(rrs, st) == Heed(rrs[3].name, rrs[3].ttl, Meaning(rrs[3].body), st3)
  {
    hide *;
    var st1 := Heed(rrs[0].name, rrs[0].ttl, Meaning(rrs[0].body), st);
    var st2 := Heed(rrs[1].name, rrs[1].ttl, Meaning(rrs[1].body), st1);
    var st3 := Heed(rrs[2].name, rrs[2].ttl, Meaning(rrs[2].body), st2);
    var st4 := Heed(rrs[3].name, rrs[3].ttl, Meaning(rrs[3].body), st3);
    FirstRecord(rrs, st);
    FirstRecord(rrs[1..], st1);
    FirstRecord(rrs[2..], st2);
    FirstRecord(rrs[3..], st3);
    NoRecords([], 0, st4);
    assert rrs[1..][1..] == rrs[2..] && rrs[2..][1..] == rrs[3..] && rrs[3..][1..] == [];
  }

  lemma OneEntry(text: seq<byte>)
    requires ID_TAG <= text
    ensures IdAmong([text], None) == Some(text[3..])
  {
    assert [text][1..] == [];
  }

  lemma OnlyAddress(ip: seq<byte>)
    ensures Preferred([V4(ip)]) == Some(V4(ip))
  {
  }

  /** For any names, port, id, address and TTLs: exactly one receiver is found, with those fields. It
      lives for the shortest TTL, at most 120 s, and is gone and offline exactly when a TTL is 0
      (section 10.1 of RFC 6762). */
  lemma AdvertisementReadsBack(service: Name, instance: Name, host: Name, port: uint16, id: seq<byte>, ip: seq<byte>,
                               ttls: (uint32, uint32, uint32, uint32))
    requires Writable(service, 0) && Writable(instance, 0) && Writable(host, 0) && |ip| == 4 && |id| <= 252
    requires |WireName(instance)| < 0x1_0000 && |WireName(host)| + 6 < 0x1_0000
    ensures Parsed(Packet(Advertisement(service, instance, host, port, id, ip, ttls)), map[])
            == map[instance := Announced(instance, host, port, id, ip, Shortest(ttls))]
  {
    var rrs := Advertisement(service, instance, host, port, id, ip, ttls);
    assert forall k :: 0 <= k < |rrs| ==> Sendable(rrs[k]) by {
      hide Writable, WireName;
      OneString(ID_TAG + id);
    }
    hide *;
    PacketReadsBack(rrs, map[]);
    AdvertisementIsHeeded(service, instance, host, port, id, ip, ttls);
    FourOf(service, instance, host, port, id, ip, ttls);
  }

  lemma FourOf(service: Name, instance: Name, host: Name, port: uint16, id: seq<byte>, ip: seq<byte>,
               ttls: (uint32, uint32, uint32, uint32))
    ensures |Advertisement(service, instance, host, port, id, ip, ttls)| == 4
  {
  }

  /** A PTR record with TTL 0, whatever was found before: the instance is gone, and nothing else about
      it is forgotten. */
  lemma GoodbyeReadsBack(service: Name, instance: Name, found: map<Name, Receiver>)
    requires Writable(service, 0) && Writable(instance, 0) && |WireName(instance)| < 0x1_0000
    ensures var r := Parsed(Packet([Resource(service, 0, Ptr(instance))]), found);
            instance in r && r[instance] == Entry(found, instance).(
              name := FirstLabel(instance), instance := FirstLabel(instance), ttlSeconds := 0, goodbye := true,
              online := false)
  {
    var rrs := [Resource(service, 0, Ptr(instance))];
    hide Writable, WireName, FirstLabel;
    PacketReadsBack(rrs, found);
    hide Parsed, Packet;
    assert rrs[1..] == [];
    var st := Heed(service, 0, Points(instance), Learned(found, map[]));
    assert HeedAll(rrs, Learned(found, map[])) == st;
  }

  /** A packet that breaks off: a header that promises two records, then only a goodbye. The receiver
      is gone and still online. */
  lemma BrokenGoodbyeStaysOnline(service: Name, instance: Name)
    requires Writable(service, 0) && Writable(instance, 0) && |WireName(instance)| < 0x1_0000
    ensures var r := Parsed(Header(2) + Encode(Resource(service, 0, Ptr(instance))), map[]);
            instance in r && r[instance].goodbye && r[instance].online
  {
    var rr := Resource(service, 0, Ptr(instance));
    var data := Header(2) + Encode(rr);
    hide Writable, WireName, Header, Encode, At, Word;
    TwoParts(Header(2), Encode(rr));
    HeaderReads(data, 2);
    var h := RecordReads(data, 12, rr);
    OneOfTwo(data, h, instance);
  }

  lemma OneOfTwo(data: seq<byte>, h: RecordHead, instance: Name)
    requires |data| >= 12 && Word(data, 4) == 0 && Word(data, 6) == 2 && Word(data, 8) == 0 && Word(data, 10) == 0
    requires HeadAt(data, 12) == Some(h) && h.ttl == 0 && NewsAt(data, h) == Points(instance)
    requires h.start + h.length == |data|
    ensures var r := Parsed(data, map[]); instance in r && r[instance].goodbye && r[instance].online
  {
    hide Word, NewsAt, FirstLabel;
    var st := Heed(h.name, 0, Points(instance), Learned(map[], map[]));
    assert HeadAt(data, |data|) == None;
    assert Walk(data, |data|, 1, st) == Walked(st, false);
  }
}
