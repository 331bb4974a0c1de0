/** Domain names on the wire (ReadName and AppendName in src/net/Mdns.cpp): section 4.1.4 of RFC 1035. */
module DnsName {
  import opened Sequences
  import opened Bytes
  import opened Wrappers

  const DOT: byte := 0x2E
  const MAX_POINTERS := 16

  // ----- What a compressed name is -----

  /** How a name is spelled in a packet: labels, pointers, and the empty label at the end. */
  datatype Spelling =
    | End
    | Label(text: seq<byte>, rest: Spelling)
    | Pointer(rest: Spelling)

  /** The offset a pointer's two bytes name. */
  function Target(hi: byte, lo: byte): nat
    requires hi >= 0xC0
  {
    (hi - 0xC0) * 256 + lo
  }

  /** `d` is spelled in `data` from `p` on. Length bytes 64 to 191, which RFC 1035 reserves, count as
      plain lengths here, as they do for ReadName. */
  ghost predicate Spelled(data: seq<byte>, p: nat, d: Spelling)
    decreases d
  {
    match d
    case End => p < |data| && data[p] == 0
    case Label(text, rest) =>
      && 0 < |text| < 0xC0 && p < |data| && data[p] == |text|
      && At(data, p + 1, text) && Spelled(data, p + 1 + |text|, rest)
    case Pointer(rest) =>
      p + 1 < |data| && data[p] >= 0xC0 && Spelled(data, Target(data[p], data[p + 1]), rest)
  }

  function Pointers(d: Spelling): nat {
    match d
    case End => 0
    case Label(_, rest) => Pointers(rest)
    case Pointer(rest) => 1 + Pointers(rest)
  }

  /** The dotted name, behind what has been read so far. */
  function Dotted(prefix: seq<byte>, d: Spelling): seq<byte>
    decreases d
  {
    match d
    case End => prefix
    case Label(text, rest) => Dotted(Joined(prefix, text), rest)
    case Pointer(rest) => Dotted(prefix, rest)
  }

  function Joined(prefix: seq<byte>, text: seq<byte>): seq<byte> {
    (if prefix == [] then [] else prefix + [DOT]) + text
  }

  /** Where the record goes on behind a name spelled at `p`: behind its first pointer, if there is one. */
  function Behind(p: nat, d: Spelling): nat
    decreases d
  {
    match d
    case End => p + 1
    case Label(text, rest) => Behind(p + 1 + |text|, rest)
    case Pointer(_) => p + 2
  }

  lemma {:induction false} SpellingIsUnique(data: seq<byte>, p: nat, d: Spelling, e: Spelling)
    requires Spelled(data, p, d) && Spelled(data, p, e)
    ensures d == e
    decreases d
  {
    match d
    case End =>
    case Label(text, rest) =>
      assert e.Label?;
      AtSlice(data, p + 1, text);
      AtSlice(data, p + 1, e.text);
      SpellingIsUnique(data, p + 1 + |text|, rest, e.rest);
    case Pointer(rest) =>
      assert e.Pointer?;
      SpellingIsUnique(data, Target(data[p], data[p + 1]), rest, e.rest);
  }

  // ----- ReadName -----

  /** What is left to read at `cursor` with `hops` pointers followed. */
  function Spell(data: seq<byte>, cursor: nat, hops: nat): (r: Option<Spelling>)
    requires hops <= MAX_POINTERS
    ensures r.Some? ==> Spelled(data, cursor, r.value) && hops + Pointers(r.value) <= MAX_POINTERS
    decreases MAX_POINTERS - hops, |data| - cursor
  {
    if cursor >= |data| then None
    else if data[cursor] == 0 then Some(End)
    else if data[cursor] >= 0xC0 then
      if cursor + 1 >= |data| || hops == MAX_POINTERS then None
      else
        match Spell(data, Target(data[cursor], data[cursor + 1]), hops + 1)
        case None => None
        case Some(rest) => Some(Pointer(rest))
    else if cursor + 1 + data[cursor] > |data| then None
    else
      match Spell(data, cursor + 1 + data[cursor], hops)
      case None => None
      case Some(rest) => Some(Label(data[cursor + 1..cursor + 1 + data[cursor]], rest))
  }

  /** Every spelling within the pointer limit is found. */
  lemma {:induction false} SpellFinds(data: seq<byte>, p: nat, hops: nat, d: Spelling)
    requires Spelled(data, p, d) && hops + Pointers(d) <= MAX_POINTERS
    ensures Spell(data, p, hops) == Some(d)
    decreases d
  {
    match d
    case End =>
    case Label(text, rest) =>
      AtSlice(data, p + 1, text);
      SpellFinds(data, p + 1 + |text|, hops, rest);
    case Pointer(rest) =>
      SpellFinds(data, Target(data[p], data[p + 1]), hops + 1, rest);
  }

  /** A name was read and the position moved behind it. */
  datatype NameRead = NameRead(name: seq<byte>, pos: nat)

  function NameAt(data: seq<byte>, pos: nat): (r: Option<NameRead>)
    ensures r.Some? ==> pos < r.value.pos <= |data|
  {
    match Spell(data, pos, 0)
    case None => None
    case Some(d) =>
      BehindIsInside(data, pos, d);
      Some(NameRead(Dotted([], d), Behind(pos, d)))
  }

  lemma {:induction false} BehindIsInside(data: seq<byte>, p: nat, d: Spelling)
    requires Spelled(data, p, d)
    ensures p < Behind(p, d) <= |data|
    decreases d
  {
    match d
    case End =>
    case Label(text, rest) => BehindIsInside(data, p + 1 + |text|, rest);
    case Pointer(_) =>
  }

  /** NameAt succeeds exactly on the names spelled with at most 16 pointers, and gives that name. */
  lemma NameAtMeansSpelled(data: seq<byte>, pos: nat)
    ensures NameAt(data, pos).Some? <==> exists d :: Spelled(data, pos, d) && Pointers(d) <= 16
    ensures forall d :: Spelled(data, pos, d) && Pointers(d) <= 16 ==>
              NameAt(data, pos) == Some(NameRead(Dotted([], d), Behind(pos, d)))
  {
    if NameAt(data, pos).Some? {
      var d := Spell(data, pos, 0).value;
      assert Spelled(data, pos, d) && Pointers(d) <= MAX_POINTERS;
    }
    forall d | Spelled(data, pos, d) && Pointers(d) <= MAX_POINTERS
      ensures NameAt(data, pos) == Some(NameRead(Dotted([], d), Behind(pos, d)))
    {
      SpellFinds(data, pos, 0, d);
    }
  }

  /** What ReadName returns when it has read `text`, stands at `cursor` and, if `after` is not 0, has
      followed a pointer that ended at `after`. */
  function Remaining(data: seq<byte>, text: seq<byte>, cursor: nat, after: nat, hops: nat): Option<NameRead>
    requires hops <= MAX_POINTERS
  {
    match Spell(data, cursor, hops)
    case None => None
    case Some(d) => Some(NameRead(Dotted(text, d), if after != 0 then after else Behind(cursor, d)))
  }

  lemma LabelStep(data: seq<byte>, text: seq<byte>, cursor: nat, after: nat, hops: nat)
    requires hops <= MAX_POINTERS && cursor < |data| && 0 < data[cursor] < 0xC0
    requires cursor + 1 + data[cursor] <= |data|
    ensures var next := cursor + 1 + data[cursor];
            Remaining(data, text, cursor, after, hops)
            == Remaining(data, Joined(text, data[cursor + 1..next]), next, after, hops)
  {
    hide Joined;
  }

  lemma PointerStep(data: seq<byte>, text: seq<byte>, cursor: nat, after: nat, hops: nat)
    requires hops < MAX_POINTERS && cursor + 1 < |data| && data[cursor] >= 0xC0
    ensures Remaining(data, text, cursor, after, hops)
            == Remaining(data, text, Target(data[cursor], data[cursor + 1]), if after == 0 then cursor + 2 else after,
                         hops + 1)
  {
    hide Target;
  }

  lemma NameEnds(data: seq<byte>, text: seq<byte>, cursor: nat, after: nat, hops: nat)
    requires hops <= MAX_POINTERS && cursor < |data| && data[cursor] == 0
    ensures Remaining(data, text, cursor, after, hops)
            == Some(NameRead(text, if after != 0 then after else cursor + 1))
  {
  }

  lemma NameBreaks(data: seq<byte>, text: seq<byte>, cursor: nat, after: nat, hops: nat)
    requires hops <= MAX_POINTERS
    requires cursor < |data| ==> data[cursor] != 0
    requires cursor < |data| && data[cursor] < 0xC0 ==> cursor + 1 + data[cursor] > |data|
    requires cursor < |data| && data[cursor] >= 0xC0 ==> cursor + 1 >= |data| || hops == MAX_POINTERS
    ensures Remaining(data, text, cursor, after, hops) == None
  {
  }

  lemma NothingRead(data: seq<byte>, pos: nat)
    ensures Remaining(data, [], pos, 0, 0) == NameAt(data, pos)
  {
  }

  method ReadName(data: seq<byte>, pos: nat) returns (r: Option<NameRead>)
    ensures r == NameAt(data, pos)
  {
    hide NameAt, Remaining, Target, Joined;
    var out: seq<byte> := [];
    var cursor: nat, after: nat, hops: nat := pos, 0, 0;
    NothingRead(data, pos);
    while cursor < |data|
      invariant hops <= MAX_POINTERS
      invariant Remaining(data, out, cursor, after, hops) == NameAt(data, pos)
      decreases MAX_POINTERS - hops, |data| - cursor
    {
      var length := data[cursor];
      if length == 0 {
        NameEnds(data, out, cursor, after, hops);
        cursor := cursor + 1;
        return Some(NameRead(out, if after != 0 then after else cursor));
      }
      if length >= 0xC0 {
        if cursor + 1 >= |data| || hops + 1 > MAX_POINTERS {
          NameBreaks(data, out, cursor, after, hops);
          return None;
        }
        PointerStep(data, out, cursor, after, hops);
        hops := hops + 1;
        if after == 0 { after := cursor + 2; }
        cursor := Target(length, data[cursor + 1]);
        continue;
      }
      if cursor + 1 + length > |data| {
        NameBreaks(data, out, cursor, after, hops);
        return None;
      }
      LabelStep(data, out, cursor, after, hops);
      out := Joined(out, data[cursor + 1..cursor + 1 + length]);
      cursor := cursor + 1 + length;
    }
    NameBreaks(data, out, cursor, after, hops);
    return None;
  }

  // ----- AppendName -----

  /** The offset of the first dot at or behind `start`, or the end. */
  function NextDot(name: seq<byte>, start: nat): (r: nat)
    requires start <= |name|
    ensures start <= r <= |name|
    ensures forall k :: start <= k < r ==> name[k] != DOT
    ensures r < |name| ==> name[r] == DOT
    decreases |name| - start
  {
    if start == |name| || name[start] == DOT then start else NextDot(name, start + 1)
  }

  /** A label behind its length, which is cast to one byte. */
  function OneLabel(text: seq<byte>): seq<byte> {
    [|text| % 256] + text
  }

  /** The labels from `start` on. */
  function Labels(name: seq<byte>, start: nat): seq<byte>
    requires start <= |name|
    decreases |name| - start
  {
    var dot := NextDot(name, start);
    OneLabel(name[start..dot]) + if dot < |name| then Labels(name, dot + 1) else []
  }

  function WireName(name: seq<byte>): seq<byte> {
    Labels(name, 0) + [0]
  }

  lemma LabelsStep(r: seq<byte>, name: seq<byte>, start: nat)
    requires start <= |name|
    ensures var dot := NextDot(name, start);
            r + Labels(name, start) == r + OneLabel(name[start..dot])
                                       + (if dot < |name| then Labels(name, dot + 1) else [])
  {
    hide NextDot, OneLabel;
    var dot := NextDot(name, start);
    var text := OneLabel(name[start..dot]);
    var rest := if dot < |name| then Labels(name, dot + 1) else [];
    assert Labels(name, start) == text + rest;
    hide *;
    assert r + (text + rest) == r + text + rest;
  }

  method AppendName(out: seq<byte>, name: seq<byte>) returns (r: seq<byte>)
    ensures r == out + WireName(name)
  {
    hide Labels, OneLabel;
    r := out;
    var start := 0;
    while start <= |name|
      invariant start <= |name| ==> r + Labels(name, start) == out + Labels(name, 0)
      invariant start > |name| ==> r == out + Labels(name, 0)
    {
      LabelsStep(r, name, start);
      var dot := NextDot(name, start);
      r := r + OneLabel(name[start..dot]);
      if dot == |name| { assert r + [] == r; }
      start := dot + 1;
    }
    r := r + [0];
  }

  /** Every label, from the one at `start` on, is 1 to 191 bytes long. */
  predicate Writable(name: seq<byte>, start: nat)
    requires start <= |name|
    decreases |name| - start
  {
    var dot := NextDot(name, start);
    0 < dot - start < 0xC0 && (dot < |name| ==> Writable(name, dot + 1))
  }

  /** The plain spelling of the labels from `start` on. */
  function Plain(name: seq<byte>, start: nat): (d: Spelling)
    requires start <= |name|
    ensures Pointers(d) == 0
    decreases |name| - start
  {
    var dot := NextDot(name, start);
    Label(name[start..dot], if dot < |name| then Plain(name, dot + 1) else End)
  }

  lemma LengthStands(data: seq<byte>, p: nat, text: seq<byte>, tail: seq<byte>)
    requires At(data, p, OneLabel(text) + tail)
    ensures p < |data| && data[p] == |text| % 256 && At(data, p + 1, text) && At(data, p + 1 + |text|, tail)
  {
    assert OneLabel(text) == [|text| % 256] + text;
    hide OneLabel;
    AtSplit(data, p, OneLabel(text), tail);
    AtSplit(data, p, [|text| % 256], text);
    assert data[p] == [|text| % 256][0];
  }

  /** The bytes of one label, with `d` spelled behind them. */
  lemma LabelSpelled(data: seq<byte>, p: nat, text: seq<byte>, d: Spelling)
    requires 0 < |text| < 0xC0 && p < |data| && data[p] == |text| && At(data, p + 1, text)
    requires Spelled(data, p + 1 + |text|, d)
    ensures Spelled(data, p, Label(text, d)) && Behind(p, Label(text, d)) == Behind(p + 1 + |text|, d)
  {
    hide At;
  }

  lemma LabelsUnfold(name: seq<byte>, start: nat, rest: seq<byte>)
    requires start <= |name|
    requires rest == if NextDot(name, start) < |name| then Labels(name, NextDot(name, start) + 1) else []
    ensures Labels(name, start) + [0] == OneLabel(name[start..NextDot(name, start)]) + (rest + [0])
    ensures |Labels(name, start)| == 1 + (NextDot(name, start) - start) + |rest|
  {
    hide NextDot;
    var text := name[start..NextDot(name, start)];
    assert Labels(name, start) == OneLabel(text) + rest;
    hide Labels;
    assert OneLabel(text) + rest + [0] == OneLabel(text) + (rest + [0]);
  }

  lemma {:induction false} PlainIsSpelled(name: seq<byte>, start: nat, data: seq<byte>, p: nat)
    requires start <= |name| && Writable(name, start)
    requires At(data, p, Labels(name, start) + [0])
    ensures Spelled(data, p, Plain(name, start))
    ensures Behind(p, Plain(name, start)) == p + |Labels(name, start)| + 1
    decreases |name| - start
  {
    hide At, NextDot, Spelled, Behind, Labels, OneLabel;
    var dot := NextDot(name, start);
    var text := name[start..dot];
    var rest := if dot < |name| then Labels(name, dot + 1) else [];
    LabelsUnfold(name, start, rest);
    LengthStands(data, p, text, rest + [0]);
    var q := p + 1 + |text|;
    if dot < |name| {
      PlainIsSpelled(name, dot + 1, data, q);
      LabelSpelled(data, p, text, Plain(name, dot + 1));
    } else {
      assert rest + [0] == [0];
      EndStands(data, q);
      LabelSpelled(data, p, text, End);
    }
  }

  lemma EndStands(data: seq<byte>, p: nat)
    requires At(data, p, [0])
    ensures Spelled(data, p, End) && Behind(p, End) == p + 1
  {
    assert data[p] == [0][0];
  }

  lemma {:induction false} PlainIsTheName(name: seq<byte>, start: nat)
    requires start <= |name| && Writable(name, start) && (start == 0 || (start > 1 && name[start - 1] == DOT))
    ensures Dotted(if start == 0 then [] else name[..start - 1], Plain(name, start)) == name
    decreases |name| - start
  {
    var dot := NextDot(name, start);
    var prefix := if start == 0 then [] else name[..start - 1];
    assert Joined(prefix, name[start..dot]) == name[..dot];
    if dot < |name| {
      PlainIsTheName(name, dot + 1);
    } else {
      assert name[..dot] == name;
    }
  }

  /** A written name stands anywhere in a packet: it is read back, and the position moves behind it. */
  lemma WrittenNameReads(name: seq<byte>, data: seq<byte>, p: nat)
    requires Writable(name, 0) && At(data, p, WireName(name))
    ensures NameAt(data, p) == Some(NameRead(name, p + |WireName(name)|))
  {
    PlainIsSpelled(name, 0, data, p);
    PlainIsTheName(name, 0);
    SpellFinds(data, p, 0, Plain(name, 0));
  }

  /** More labels are added behind a dot. */
  lemma {:induction false} DottedExtends(prefix: seq<byte>, d: Spelling)
    requires prefix != []
    ensures var r := Dotted(prefix, d);
            r == prefix || (|prefix| < |r| && r[..|prefix|] == prefix && r[|prefix|] == DOT)
    decreases d
  {
    match d
    case End =>
    case Label(text, rest) =>
      var longer := prefix + [DOT] + text;
      DottedExtends(longer, rest);
      var r := Dotted(longer, rest);
      assert r[..|longer|] == longer;
      assert r[..|prefix|] == longer[..|prefix|] == prefix;
      assert r[|prefix|] == longer[|prefix|];
    case Pointer(rest) => DottedExtends(prefix, rest);
  }

  predicate Starts(name: seq<byte>, start: nat) {
    start <= |name| && (start == 0 || (start > 1 && name[start - 1] == DOT))
  }

  /** What has been read before the label at `start`. */
  function Before(name: seq<byte>, start: nat): seq<byte>
    requires Starts(name, start)
  {
    if start == 0 then [] else name[..start - 1]
  }

  lemma SameText(data: seq<byte>, p: nat, t: seq<byte>, text: seq<byte>)
    requires |t| <= |text| && At(data, p, t) && At(data, p, text)
    ensures t == text[..|t|]
  {
  }

  /** A label that was read up to less than the next dot would have left a dot where there is none. */
  lemma ReadToTheDot(name: seq<byte>, start: nat, t: seq<byte>, e: Spelling)
    requires Starts(name, start) && 0 < |t| <= NextDot(name, start) - start && t == name[start..start + |t|]
    requires Dotted(Joined(Before(name, start), t), e) == name
    ensures |t| == NextDot(name, start) - start
    ensures Joined(Before(name, start), t) == name[..start + |t|]
  {
    hide NextDot;
    var prefix := Joined(Before(name, start), t);
    assert prefix == name[..start + |t|];
    DottedExtends(prefix, e);
  }

  lemma {:induction false} OnlyWritableReads(name: seq<byte>, start: nat, data: seq<byte>, p: nat, d: Spelling)
    requires Starts(name, start) && At(data, p, Labels(name, start) + [0]) && Spelled(data, p, d)
    requires Dotted(Before(name, start), d) == name && Behind(p, d) == p + |Labels(name, start)| + 1
    ensures Writable(name, start)
    decreases |name| - start
  {
    hide At, NextDot, Labels, OneLabel, Joined;
    var dot := NextDot(name, start);
    var text := name[start..dot];
    var rest := if dot < |name| then Labels(name, dot + 1) else [];
    LabelsUnfold(name, start, rest);
    LengthStands(data, p, text, rest + [0]);
    match d
    case End => assert false;
    case Pointer(_) => assert false;
    case Label(t, e) =>
      SameText(data, p + 1, t, text);
      assert t == name[start..start + |t|];
      ReadToTheDot(name, start, t, e);
      if dot < |name| {
        OnlyWritableReads(name, dot + 1, data, p + 1 + |text|, e);
      }
  }

  /** AppendName and ReadName undo each other exactly on the names whose labels are 1 to 191 bytes long. */
  lemma ReadsBackIffWritable(name: seq<byte>)
    ensures NameAt(WireName(name), 0) == Some(NameRead(name, |WireName(name)|)) <==> Writable(name, 0)
  {
    var data := WireName(name);
    assert At(data, 0, data);
    if Writable(name, 0) {
      WrittenNameReads(name, data, 0);
    }
    if NameAt(data, 0) == Some(NameRead(name, |data|)) {
      var d := Spell(data, 0, 0).value;
      OnlyWritableReads(name, 0, data, 0, d);
    }
  }
}
