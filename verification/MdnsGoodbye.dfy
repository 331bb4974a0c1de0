/** When a receiver that has left is also shown as offline, for every packet. */
module MdnsGoodbye {
  import opened Bytes
  import opened MdnsResponse
  import opened Wrappers

  /** A record that could be read. */
  datatype Told = Told(owner: Name, ttl: uint32, news: News)

  function ToldFrom(data: seq<byte>, pos: nat, count: nat): seq<Told>
    decreases count
  {
    if count == 0 || HeadAt(data, pos).None? then []
    else
      var h := HeadAt(data, pos).value;
      [Told(h.name, h.ttl, NewsAt(data, h))] + ToldFrom(data, h.start + h.length, count - 1)
  }

  function Promised(data: seq<byte>): nat
    requires |data| >= 12
  {
    Word(data, 6) + Word(data, 8) + Word(data, 10)
  }

  predicate Opens(data: seq<byte>) {
    |data| >= 12 && Questions(data, 12, Word(data, 4)).Some?
  }

  /** The records of a packet up to the first that cannot be read. */
  function Readable(data: seq<byte>): seq<Told> {
    if Opens(data) then ToldFrom(data, Questions(data, 12, Word(data, 4)).value, Promised(data)) else []
  }

  /** Every record that the header promises can be read. */
  predicate IsComplete(data: seq<byte>) {
    Opens(data) && |Readable(data)| == Promised(data)
  }

  /** The record is about the receiver `key`. */
  predicate Names(t: Told, key: Name) {
    match t.news
    case Points(target) => target == key
    case Serves(_, _) => t.owner == key
    case Describes(_) => t.owner == key
    case Resolves(_) => false
    case Nothing => false
  }

  /** Only a PTR record that lives brings a receiver back. */
  predicate Revives(t: Told, key: Name) {
    t.news == Points(key) && t.ttl > 0
  }

  predicate LeavesAt(told: seq<Told>, key: Name, i: nat) {
    && i < |told| && told[i].ttl == 0 && Names(told[i], key)
    && forall j :: i < j < |told| ==> !Revives(told[j], key)
  }

  /** The receiver has left by the end of the records: one of them has no time left, or it had left
      `before`, and nothing has brought it back since. */
  predicate HasLeft(told: seq<Told>, key: Name, before: bool) {
    || (before && forall j :: 0 <= j < |told| ==> !Revives(told[j], key))
    || exists i :: 0 <= i < |told| && LeavesAt(told, key, i)
  }

  function AfterTold(told: seq<Told>, st: Learned): Learned {
    if told == [] then st else AfterTold(told[1..], Heed(told[0].owner, told[0].ttl, told[0].news, st))
  }

  lemma {:induction false} WalkIsTold(data: seq<byte>, pos: nat, count: nat, st: Learned)
    ensures Walk(data, pos, count, st).st == AfterTold(ToldFrom(data, pos, count), st)
    ensures Walk(data, pos, count, st).complete <==> |ToldFrom(data, pos, count)| == count
    decreases count
  {
    hide HeadAt, NewsAt, Heed;
    if count > 0 && HeadAt(data, pos).Some? {
      var h := HeadAt(data, pos).value;
      var t, rest := Told(h.name, h.ttl, NewsAt(data, h)), ToldFrom(data, h.start + h.length, count - 1);
      WalkIsTold(data, h.start + h.length, count - 1, Heed(t.owner, t.ttl, t.news, st));
      assert ([t] + rest)[1..] == rest;
    }
  }

  /** One more record: the receiver has left by it, or had before and is not brought back. */
  lemma OneTold(t: Told, key: Name, st: Learned)
    ensures var n := Heed(t.owner, t.ttl, t.news, st).found;
            && Entry(n, key).online == Entry(st.found, key).online
            && (Entry(n, key).goodbye <==>
                  (Names(t, key) && t.ttl == 0) || (Entry(st.found, key).goodbye && !Revives(t, key)))
  {
    hide FirstLabel, AddAddress, Min;
    var n := Heed(t.owner, t.ttl, t.news, st).found;
    if !Names(t, key) { assert key in n <==> key in st.found; }
  }

  lemma FirstTold(told: seq<Told>, key: Name, before: bool)
    requires told != []
    ensures HasLeft(told, key, before) <==>
            HasLeft(told[1..], key, (Names(told[0], key) && told[0].ttl == 0) || (before && !Revives(told[0], key)))
  {
    hide Names, Revives;
    var rest := told[1..];
    assert forall j :: 0 <= j < |rest| ==> rest[j] == told[j + 1];
    forall i: nat | LeavesAt(rest, key, i) ensures LeavesAt(told, key, i + 1) {
    }
    forall i: nat | LeavesAt(told, key, i) && i > 0 ensures LeavesAt(rest, key, i - 1) {
    }
    if Names(told[0], key) && told[0].ttl == 0 && forall j :: 0 <= j < |rest| ==> !Revives(rest[j], key) {
      assert LeavesAt(told, key, 0);
    }
  }

  lemma {:induction false} GoodbyeIsLeaving(told: seq<Told>, key: Name, st: Learned)
    ensures var n := AfterTold(told, st).found;
            && Entry(n, key).online == Entry(st.found, key).online
            && (Entry(n, key).goodbye <==> HasLeft(told, key, Entry(st.found, key).goodbye))
  {
    if told != [] {
      OneTold(told[0], key, st);
      FirstTold(told, key, Entry(st.found, key).goodbye);
      hide HasLeft, Heed, Entry;
      GoodbyeIsLeaving(told[1..], key, Heed(told[0].owner, told[0].ttl, told[0].news, st));
    }
  }

  lemma PacketIsTold(data: seq<byte>, found: map<Name, Receiver>)
    ensures WalkPacket(data, found) == Walked(AfterTold(Readable(data), Learned(found, map[])), IsComplete(data))
  {
    hide Questions, Walk, ToldFrom, Word, Heed;
    var st := Learned(found, map[]);
    assert AfterTold([], st) == st;
    hide AfterTold;
    if Opens(data) {
      var pos, count := Questions(data, 12, Word(data, 4)).value, Promised(data);
      WalkIsTold(data, pos, count, st);
      assert WalkPacket(data, found) == Walk(data, pos, count, st);
      hide WalkPacket;
    }
  }

  /** Any bytes, whatever was found before: everybody who has left is offline exactly if the packet is
      complete or nobody who has left by its readable records was online before it. A receiver that is
      new counts as online. */
  lemma LeftAreOfflineIff(data: seq<byte>, found: map<Name, Receiver>)
    ensures var r := Parsed(data, found);
            (forall key :: key in r && r[key].goodbye ==> !r[key].online) <==>
            || IsComplete(data)
            || forall key :: HasLeft(Readable(data), key, Entry(found, key).goodbye) ==> !Entry(found, key).online
  {
    PacketIsTold(data, found);
    var r := Parsed(data, found);
    var told, st := Readable(data), Learned(found, map[]);
    hide WalkPacket, IsComplete, Readable, HasLeft, AfterTold;
    if !IsComplete(data) {
      forall key
        ensures HasLeft(told, key, Entry(found, key).goodbye) <==> key in r && r[key].goodbye
        ensures key in r ==> r[key].online == Entry(found, key).online
      {
        GoodbyeIsLeaving(told, key, st);
      }
    }
  }

  /** The same in seconds: whoever has no time left is offline, under the same condition. */
  lemma ExpiredAreOfflineIff(data: seq<byte>, found: map<Name, Receiver>)
    requires AllSound(found)
    ensures var r := Parsed(data, found);
            (forall key :: key in r && r[key].ttlSeconds == 0 ==> !r[key].online) <==>
            || IsComplete(data)
            || forall key :: HasLeft(Readable(data), key, Entry(found, key).goodbye) ==> !Entry(found, key).online
  {
    LeftAreOfflineIff(data, found);
    ParsedKeepsSound(data, found);
    var r := Parsed(data, found);
    hide Parsed, HasLeft, Readable, IsComplete, WalkPacket, Preferred, FirstLabel;
    assert forall key :: key in r ==> Sound(key, r[key]);
  }
}
