/** The configuration reader is complete for RFC 8259 texts with integer numbers: it gives every
    such text its meaning.  The printer's escaping is undone by it, for any string at all. */
module ConfigReading {
  import opened Sequences
  import opened Wrappers
  import opened JsonGrammar
  import opened FieldScanner
  import opened NumberFields
  import opened Decimals
  import opened ConfigJson

  /** What the characters between two quotes stand for. */
  function Decode(body: string): string
    requires IsBody(body)
    decreases |body|
  {
    if body == [] then []
    else if body[0] != '\\' then [body[0]] + Decode(body[1..])
    else if body[1] == 'u' then Utf8(QuadValue(body[2..])) + Decode(body[6..])
    else [SimpleEscape(body[1])] + Decode(body[2..])
  }

  /** What the reader takes for whitespace: section 2 of RFC 8259, vertical tab and form feed. */
  predicate IsSpaces(s: string) {
    forall i :: 0 <= i < |s| ==> s[i] == ' ' || 0x09 <= s[i] as int <= 0x0D
  }

  lemma StopsBehind(s: string, p: nat, b: string)
    requires At(s, p, b) && IsSpaces(b) && p + |b| < |s| && !IsSpace(s[p + |b|])
    ensures SkipSpace(s, p) == p + |b|
  {
    SkipSpaceOver(s, p, b);
  }

  /** An integer of 64 bits; leading zeros are let pass. */
  predicate IsInt64(n: Number) {
    && AllDigits(n.whole) && n.whole != "" && n.fraction == "" && n.exponent.NoExponent?
    && -9223372036854775808 <= IntegerOf(n) <= 9223372036854775807
  }

  function IntegerOf(n: Number): int
    requires AllDigits(n.whole)
  {
    if n.minus then 0 - DigitsValue(n.whole) else DigitsValue(n.whole)
  }

  /** The values that are read: section 3 of RFC 8259 with 64-bit integers for numbers, and a little more. */
  predicate Readable(v: Value) {
    match v
    case Null => true
    case Bool(_) => true
    case Num(n) => IsInt64(n)
    case Str(body) => IsBody(body)
    case Obj(blank, members) => IsSpaces(blank) && ReadableMembers(members)
    case Arr(gap, elements) => IsSpaces(gap) && ReadableElements(elements)
  }

  predicate ReadableMembers(ms: Members) {
    ms.NoMember? ||
    (IsSpaces(ms.before) && IsBody(ms.name) && IsSpaces(ms.preColon) && IsSpaces(ms.postColon) &&
     Readable(ms.value) && IsSpaces(ms.after) && ReadableMembers(ms.others))
  }

  predicate ReadableElements(es: Elements) {
    es.NoElement? || (IsSpaces(es.lead) && Readable(es.item) && IsSpaces(es.trail) && ReadableElements(es.more))
  }

  function Meaning(v: Value): Json
    requires Readable(v)
  {
    match v
    case Null => JNull
    case Bool(b) => JBool(b)
    case Num(n) => JInt(IntegerOf(n))
    case Str(body) => JString(Decode(body))
    case Obj(_, members) => JObject(MembersMeaning(members, map[]))
    case Arr(_, elements) => JArray(ElementsMeaning(elements, []))
  }

  /** Of several members with one name the last counts. */
  function MembersMeaning(ms: Members, fields: map<string, Json>): map<string, Json>
    requires ReadableMembers(ms)
  {
    if ms.NoMember? then fields
    else MembersMeaning(ms.others, fields[Decode(ms.name) := Meaning(ms.value)])
  }

  function ElementsMeaning(es: Elements, items: seq<Json>): seq<Json>
    requires ReadableElements(es)
  {
    if es.NoElement? then items else ElementsMeaning(es.more, items + [Meaning(es.item)])
  }

  // ----- Reading gives the meaning -----

  lemma {:induction false} ReadsBody(s: string, p: nat, body: string, out: string)
    requires At(s, p, body) && IsBody(body) && p + |body| < |s| && s[p + |body|] == '"'
    ensures ReadBody(s, p, out) == Done(out + Decode(body), p + |body| + 1)
    decreases |body|
  {
    if body == [] {
      assert out + [] == out;
    } else {
      assert s[p + 0] == body[0];
      if body[0] != '\\' {
        ReadsBodyPart(s, p, body, 1, out, [body[0]]);
      } else if body[1] == 'u' {
        assert s[p + 1] == body[1];
        QuadAt(s, p, body);
        ReadsBodyPart(s, p, body, 6, out, Utf8(QuadValue(body[2..])));
      } else {
        assert s[p + 1] == body[1];
        ReadsBodyPart(s, p, body, 2, out, [SimpleEscape(body[1])]);
      }
    }
  }

  /** One character or escape of `k` characters, standing for `piece`, then the rest. */
  lemma {:induction false} ReadsBodyPart(s: string, p: nat, body: string, k: nat, out: string, piece: string)
    requires 0 < k <= |body| && At(s, p, body) && IsBody(body[k..])
    requires p + |body| < |s| && s[p + |body|] == '"'
    ensures ReadBody(s, p + k, out + piece) == Done(out + (piece + Decode(body[k..])), p + |body| + 1)
    decreases |body|, 0
  {
    AtSplit(s, p, body[..k], body[k..]) by { assert body == body[..k] + body[k..]; }
    ReadsBody(s, p + k, body[k..], out + piece);
    assert out + piece + Decode(body[k..]) == out + (piece + Decode(body[k..]));
  }

  lemma QuadAt(s: string, p: nat, body: string)
    requires At(s, p, body) && |body| >= 6 && IsHexQuad(body[2..])
    ensures p + 6 <= |s| && IsHexQuad(s[p + 2..]) && QuadValue(s[p + 2..]) == QuadValue(body[2..])
  {
    forall i | 0 <= i < 4 ensures s[p + 2..][i] == body[2..][i] {
      assert s[p + (2 + i)] == body[2 + i];
    }
  }

  /** The string alone, with whitespace before it. */
  lemma ReadsString(s: string, p: nat, b: string, body: string)
    requires At(s, p, b) && IsSpaces(b) && At(s, p + |b|, Quoted(body)) && IsBody(body)
    ensures ReadString(s, p) == Done(Decode(body), p + |b| + |Quoted(body)|)
  {
    var q := p + |b|;
    assert s[q + 0] == Quoted(body)[0];
    assert s[q + (1 + |body|)] == Quoted(body)[1 + |body|];
    StopsBehind(s, p, b);
    AtSplit3(s, q, "\"", body, "\"");
    ReadsBody(s, q + 1, body, "");
    assert "" + Decode(body) == Decode(body);
  }

  lemma ReadsChar(s: string, p: nat, b: string, c: char)
    requires At(s, p, b) && IsSpaces(b) && p + |b| < |s| && !IsSpace(s[p + |b|])
    ensures ReadChar(s, p, c) == if s[p + |b|] == c then Some(p + |b| + 1) else None
  {
    StopsBehind(s, p, b);
  }

  lemma ReadsInteger(s: string, p: nat, n: Number)
    requires IsInt64(n) && At(s, p, NumberText(n))
    requires p + |NumberText(n)| < |s| ==> !IsDigit(s[p + |NumberText(n)|])
    ensures ReadInteger(s, p) == Done(JInt(IntegerOf(n)), p + |NumberText(n)|)
  {
    hide *;
    var d := if n.minus then p + 1 else p;
    IntegerParts(s, p, n, d);
    DigitsEndOver(s, d, n.whole);
    AtSlice(s, d, n.whole);
    IntegerIs(s, p, n, d);
  }

  lemma IntegerParts(s: string, p: nat, n: Number, d: nat)
    requires IsInt64(n) && At(s, p, NumberText(n)) && d == if n.minus then p + 1 else p
    ensures AllDigits(n.whole) && n.whole != "" && At(s, d, n.whole) && p < |s| && d < |s|
    ensures (s[p] == '-') == n.minus && d + |n.whole| == p + |NumberText(n)|
  {
    var m := if n.minus then "-" else "";
    assert NumberText(n) == m + n.whole;
    AtSplit(s, p, m, n.whole);
    if n.minus { assert s[p + 0] == m[0]; }
    assert s[d + 0] == n.whole[0];
  }

  lemma IntegerIs(s: string, p: nat, n: Number, d: nat)
    requires IsInt64(n) && p < |s| && d == (if n.minus then p + 1 else p) && (s[p] == '-') == n.minus
    requires d + |n.whole| <= |s| && n.whole != "" && DigitsEnd(s, d) == d + |n.whole| && s[d..d + |n.whole|] == n.whole
    ensures ReadInteger(s, p) == Done(JInt(IntegerOf(n)), d + |n.whole|)
  {
    hide DigitsEnd, DigitsValue;
  }

  /** Behind a value nothing may continue a number. */
  predicate Delimited(s: string, i: nat) {
    i < |s| ==> !IsDigit(s[i])
  }

  /** Whitespace, then the value. */
  lemma {:induction false} ReadsValue(s: string, p: nat, b: string, v: Value)
    requires At(s, p, b) && IsSpaces(b) && At(s, p + |b|, Text(v)) && Readable(v)
    requires Delimited(s, p + |b| + |Text(v)|)
    ensures ReadValue(s, p) == Done(Meaning(v), p + |b| + |Text(v)|)
    decreases v, 5
  {
    var q := p + |b|;
    ReadableStart(v);
    assert s[q + 0] == Text(v)[0];
    StopsBehind(s, p, b);
    hide Sequences.At, IsSpaces, SkipSpace;
    match v
    case Null => ReadsAtom(s, p, q, v);
    case Bool(_) => ReadsAtom(s, p, q, v);
    case Num(_) => ReadsAtom(s, p, q, v);
    case Str(body) => ReadsText(s, p, q, body);
    case Obj(blank, members) =>
      ReadsObject(s, q, blank, members);
      ReadsBracket(s, p, q);
    case Arr(gap, elements) =>
      ReadsArray(s, q, gap, elements);
      ReadsBracket(s, p, q);
  }

  lemma ReadsText(s: string, p: nat, q: nat, body: string)
    requires p <= |s| && SkipSpace(s, p) == q && At(s, q, Quoted(body)) && IsBody(body)
    ensures ReadValue(s, p) == Done(JString(Decode(body)), q + |Quoted(body)|)
  {
    assert s[q + 0] == Quoted(body)[0];
    ReadsString(s, q, "", body);
    hide ReadString;
  }

  lemma ReadsBracket(s: string, p: nat, q: nat)
    requires p <= |s| && SkipSpace(s, p) == q < |s|
    ensures s[q] == '{' ==> ReadValue(s, p) == ReadObject(s, q)
    ensures s[q] == '[' ==> ReadValue(s, p) == ReadArray(s, q)
  {
  }

  lemma ReadsAtom(s: string, p: nat, q: nat, v: Value)
    requires p <= |s| && SkipSpace(s, p) == q && Readable(v) && (v.Null? || v.Bool? || v.Num?)
    requires At(s, q, Text(v)) && Delimited(s, q + |Text(v)|)
    ensures ReadValue(s, p) == Done(Meaning(v), q + |Text(v)|)
  {
    AtomStart(v);
    var t := Text(v);
    assert s[q + 0] == t[0];
    assert s[q..][0] == t[0];
    AtSlice(s, q, t);
    assert s[q..][..|t|] == t;
    if v.Num? {
      assert !("true" <= s[q..]) && !("false" <= s[q..]) && !("null" <= s[q..]);
      ReadsInteger(s, q, v.n);
    } else if v == Bool(false) {
      assert !("true" <= s[q..]);
    } else if v.Null? {
      assert !("true" <= s[q..]) && !("false" <= s[q..]);
    }
  }

  lemma AtomStart(v: Value)
    requires Readable(v) && (v.Null? || v.Bool? || v.Num?)
    ensures |Text(v)| > 0
    ensures v.Num? ==> IsDigit(Text(v)[0]) || Text(v)[0] == '-'
  {
  }

  /** No value begins with whitespace or with a closing bracket. */
  lemma ReadableStart(v: Value)
    requires Readable(v)
    ensures |Text(v)| > 0 && !IsSpace(Text(v)[0]) && Text(v)[0] != ']'
    ensures Text(v)[0] == '"' <==> v.Str?
  {
    if v.Num? { assert Text(v)[0] == '-' || Text(v)[0] == v.n.whole[0]; }
  }

  lemma {:induction false} ReadsObject(s: string, p: nat, blank: string, ms: Members)
    requires At(s, p, "{" + blank + MembersText(ms) + "}") && IsSpaces(blank) && ReadableMembers(ms)
    ensures ReadObject(s, p) == Done(JObject(MembersMeaning(ms, map[])), p + |"{" + blank + MembersText(ms) + "}"|)
    decreases ms, 4
  {
    hide Sequences.At, MembersMeaning, ReadMembers, ReadObject, IsSpaces;
    BracketParts(s, p, "{", blank, MembersText(ms), "}");
    ReadsOpen(s, p, '{');
    if ms.NoMember? {
      ReadsChar(s, p + 1, blank, '}');
      ObjectClosed(s, p, p + 2 + |blank|);
      NoMembers(ms);
    } else {
      NoCloseBeforeMember(s, p + 1, blank, ms);
      MembersAfterBlank(s, p + 1, blank, map[]);
      ReadsMembers(s, p + 1 + |blank|, ms, map[]);
      ObjectOpened(s, p);
    }
  }

  lemma NoMembers(ms: Members)
    requires ms.NoMember?
    ensures MembersText(ms) == "" && MembersMeaning(ms, map[]) == map[]
  {
  }

  lemma ObjectClosed(s: string, p: nat, n: nat)
    requires p < |s| && ReadChar(s, p, '{') == Some(p + 1) && ReadChar(s, p + 1, '}') == Some(n)
    ensures ReadObject(s, p) == Done(JObject(map[]), n)
  {
    hide ReadChar;
  }

  lemma ObjectOpened(s: string, p: nat)
    requires p < |s| && ReadChar(s, p, '{') == Some(p + 1) && ReadChar(s, p + 1, '}') == None
    ensures ReadObject(s, p) == ReadMembers(s, p + 1, map[])
  {
    hide ReadChar, ReadMembers;
  }

  lemma ReadsOpen(s: string, p: nat, c: char)
    requires p < |s| && s[p] == c && !IsSpace(c)
    ensures ReadChar(s, p, c) == Some(p + 1)
  {
  }

  lemma SkipsBlank(s: string, p: nat, blank: string)
    requires At(s, p, blank) && IsSpaces(blank)
    ensures SkipSpace(s, p) == SkipSpace(s, p + |blank|)
  {
    SkipSpaceOver(s, p, blank);
  }

  lemma MembersAfterBlank(s: string, p: nat, blank: string, fields: map<string, Json>)
    requires At(s, p, blank) && IsSpaces(blank)
    ensures ReadMembers(s, p, fields) == ReadMembers(s, p + |blank|, fields)
  {
    hide *;
    SkipsBlank(s, p, blank);
    MembersSkip(s, p, fields);
    MembersSkip(s, p + |blank|, fields);
  }

  lemma ElementsAfterBlank(s: string, p: nat, blank: string, items: seq<Json>)
    requires At(s, p, blank) && IsSpaces(blank)
    ensures ReadElements(s, p, items) == ReadElements(s, p + |blank|, items)
  {
    hide *;
    SkipsBlank(s, p, blank);
    ElementsSkip(s, p, items);
    ElementsSkip(s, p + |blank|, items);
  }

  /** Blank, more blank and then a quote: no closing brace here. */
  lemma NoCloseBeforeMember(s: string, p: nat, blank: string, ms: Members)
    requires ms.Member? && IsSpaces(blank) && IsSpaces(ms.before)
    requires At(s, p, blank) && At(s, p + |blank|, MembersText(ms))
    ensures ReadChar(s, p, '}') == None
  {
    MemberParts(s, p + |blank|, ms);
    var q := p + |blank| + |ms.before|;
    assert s[q + 0] == Quoted(ms.name)[0];
    SkipSpaceOver(s, p, blank);
    StopsBehind(s, p + |blank|, ms.before);
  }

  lemma {:induction false} ReadsMembers(s: string, p: nat, ms: Members, fields: map<string, Json>)
    requires ms.Member? && At(s, p, MembersText(ms)) && ReadableMembers(ms)
    requires p + |MembersText(ms)| < |s| && s[p + |MembersText(ms)|] == '}'
    ensures ReadMembers(s, p, fields) == Done(JObject(MembersMeaning(ms, fields)), p + |MembersText(ms)| + 1)
    decreases ms, 3
  {
    hide Sequences.At, IsSpaces, IsBody, ReadMembers, ReadMember, Decode, Meaning, Text, MemberHead, IsSpace;
    MemberParts(s, p, ms);
    var v := p + |MemberHead(ms)| + |Text(ms.value)|;
    var e := p + |MemberText(ms)|;
    if ms.others.Member? {
      AtHead(s, e, ",", MembersText(ms.others));
    }
    MemberDelimited(s, v, ms.after);
    ReadsMember(s, p, ms);
    MembersStep(s, p, v, ms.after, fields, (Decode(ms.name), Meaning(ms.value)));
    if ms.others.Member? {
      ReadsMembers(s, e + 1, ms.others, fields[Decode(ms.name) := Meaning(ms.value)]);
    }
  }

  lemma MembersStep(s: string, p: nat, v: nat, after: string, fields: map<string, Json>, m: (string, Json))
    requires p <= |s| && ReadMember(s, p) == Done(m, v) && At(s, v, after) && IsSpaces(after)
    requires v + |after| < |s| && (s[v + |after|] == ',' || s[v + |after|] == '}')
    ensures ReadMembers(s, p, fields) ==
            if s[v + |after|] == '}' then Done(JObject(fields[m.0 := m.1]), v + |after| + 1)
            else ReadMembers(s, v + |after| + 1, fields[m.0 := m.1])
  {
    hide *;
    var n := v + |after|;
    SeparatorsAreNoSpace();
    MembersUnfold(s, p, v, fields, m);
    ReadsChar(s, v, after, '}');
    if s[n] != '}' {
      ReadsChar(s, v, after, ',');
    }
  }

  lemma SeparatorsAreNoSpace()
    ensures !IsSpace(',') && !IsSpace('}') && !IsSpace(']')
  {
  }

  lemma MembersUnfold(s: string, p: nat, n: nat, fields: map<string, Json>, m: (string, Json))
    requires p <= |s| && n <= |s| && ReadMember(s, p) == Done(m, n)
    ensures ReadMembers(s, p, fields) ==
            if ReadChar(s, n, '}').Some? then Done(JObject(fields[m.0 := m.1]), ReadChar(s, n, '}').value)
            else if ReadChar(s, n, ',').None? then Fail
            else ReadMembers(s, ReadChar(s, n, ',').value, fields[m.0 := m.1])
  {
    hide ReadMember, ReadChar;
  }

  lemma MemberDelimited(s: string, i: nat, b: string)
    requires At(s, i, b) && IsSpaces(b) && i + |b| < |s| && (s[i + |b|] == ',' || s[i + |b|] == '}' || s[i + |b|] == ']')
    ensures Delimited(s, i) && !IsSpace(s[i + |b|])
  {
    if b != [] { assert s[i + 0] == b[0]; }
  }

  lemma {:induction false} ReadsMember(s: string, p: nat, ms: Members)
    requires ms.Member? && At(s, p, MembersText(ms)) && ReadableMembers(ms)
    requires Delimited(s, p + |MemberHead(ms)| + |Text(ms.value)|)
    ensures ReadMember(s, p) ==
            Done((Decode(ms.name), Meaning(ms.value)), p + |MemberHead(ms)| + |Text(ms.value)|)
    decreases ms, 2
  {
    MemberParts(s, p, ms);
    var c := p + |ms.before| + |Quoted(ms.name)|;
    assert s[c + |ms.preColon| + 0] == ":"[0];
    hide Sequences.At, IsSpaces, IsBody, Delimited, ReadString, ReadChar, ReadValue, Decode, ReadMember;
    ReadsString(s, p, ms.before, ms.name);
    ReadsChar(s, c, ms.preColon, ':');
    ReadsValue(s, c + |ms.preColon| + 1, ms.postColon, ms.value);
    MemberOfParts(s, p, Decode(ms.name), c, c + |ms.preColon| + 1, Meaning(ms.value),
                  p + |MemberHead(ms)| + |Text(ms.value)|);
  }

  lemma MemberOfParts(s: string, p: nat, name: string, c: nat, colon: nat, value: Json, end: nat)
    requires p <= |s| && c <= |s| && colon <= |s| && ReadString(s, p) == Done(name, c)
    requires ReadChar(s, c, ':') == Some(colon) && ReadValue(s, colon) == Done(value, end)
    ensures ReadMember(s, p) == Done((name, value), end)
  {
    hide ReadString, ReadChar, ReadValue;
  }

  lemma {:induction false} ReadsArray(s: string, p: nat, gap: string, es: Elements)
    requires At(s, p, "[" + gap + ElementsText(es) + "]") && IsSpaces(gap) && ReadableElements(es)
    ensures ReadArray(s, p) == Done(JArray(ElementsMeaning(es, [])), p + |"[" + gap + ElementsText(es) + "]"|)
    decreases es, 4
  {
    hide Sequences.At, ElementsMeaning, ReadElements, ReadArray, IsSpaces;
    BracketParts(s, p, "[", gap, ElementsText(es), "]");
    ReadsOpen(s, p, '[');
    if es.NoElement? {
      ReadsChar(s, p + 1, gap, ']');
      ArrayClosed(s, p, p + 2 + |gap|);
      NoElements(es);
    } else {
      NoCloseBeforeElement(s, p + 1, gap, es);
      ElementsAfterBlank(s, p + 1, gap, []);
      ReadsElements(s, p + 1 + |gap|, es, []);
      ArrayOpened(s, p);
    }
  }

  lemma NoElements(es: Elements)
    requires es.NoElement?
    ensures ElementsText(es) == "" && ElementsMeaning(es, []) == []
  {
  }

  lemma ArrayClosed(s: string, p: nat, n: nat)
    requires p < |s| && ReadChar(s, p, '[') == Some(p + 1) && ReadChar(s, p + 1, ']') == Some(n)
    ensures ReadArray(s, p) == Done(JArray([]), n)
  {
    hide ReadChar;
  }

  lemma ArrayOpened(s: string, p: nat)
    requires p < |s| && ReadChar(s, p, '[') == Some(p + 1) && ReadChar(s, p + 1, ']') == None
    ensures ReadArray(s, p) == ReadElements(s, p + 1, [])
  {
    hide ReadChar, ReadElements;
  }

  lemma ElementParts(s: string, p: nat, es: Elements)
    requires es.Element? && At(s, p, ElementsText(es))
    ensures At(s, p, es.lead) && At(s, p + |es.lead|, Text(es.item))
    ensures var v := p + |es.lead| + |Text(es.item)|;
            At(s, v, es.trail) && At(s, v + |es.trail|, MoreElementsText(es.more))
  {
    AtSplit(s, p, es.lead + Text(es.item) + es.trail, MoreElementsText(es.more));
    AtSplit3(s, p, es.lead, Text(es.item), es.trail);
  }

  lemma NoCloseBeforeElement(s: string, p: nat, gap: string, es: Elements)
    requires es.Element? && IsSpaces(gap) && IsSpaces(es.lead) && Readable(es.item)
    requires At(s, p, gap) && At(s, p + |gap|, ElementsText(es))
    ensures ReadChar(s, p, ']') == None
  {
    ElementParts(s, p + |gap|, es);
    ReadableStart(es.item);
    var q := p + |gap| + |es.lead|;
    assert s[q + 0] == Text(es.item)[0];
    SkipSpaceOver(s, p, gap);
    StopsBehind(s, p + |gap|, es.lead);
  }

  lemma {:induction false} ReadsElements(s: string, p: nat, es: Elements, items: seq<Json>)
    requires es.Element? && At(s, p, ElementsText(es)) && ReadableElements(es)
    requires p + |ElementsText(es)| < |s| && s[p + |ElementsText(es)|] == ']'
    ensures ReadElements(s, p, items) == Done(JArray(ElementsMeaning(es, items)), p + |ElementsText(es)| + 1)
    decreases es, 3
  {
    hide Sequences.At, IsSpaces, ReadElements, ReadValue, Meaning, Text, IsSpace;
    ElementParts(s, p, es);
    var v := p + |es.lead| + |Text(es.item)|;
    var e := v + |es.trail|;
    if es.more.Element? {
      AtHead(s, e, ",", ElementsText(es.more));
    }
    MemberDelimited(s, v, es.trail);
    ReadsValue(s, p, es.lead, es.item);
    ElementsStep(s, p, v, es.trail, items, Meaning(es.item));
    if es.more.Element? {
      ReadsElements(s, e + 1, es.more, items + [Meaning(es.item)]);
    }
  }

  lemma ElementsStep(s: string, p: nat, v: nat, trail: string, items: seq<Json>, m: Json)
    requires p <= |s| && ReadValue(s, p) == Done(m, v) && At(s, v, trail) && IsSpaces(trail)
    requires v + |trail| < |s| && (s[v + |trail|] == ',' || s[v + |trail|] == ']')
    ensures ReadElements(s, p, items) ==
            if s[v + |trail|] == ']' then Done(JArray(items + [m]), v + |trail| + 1)
            else ReadElements(s, v + |trail| + 1, items + [m])
  {
    hide *;
    SeparatorsAreNoSpace();
    ElementsUnfold(s, p, v, items, m);
    ReadsChar(s, v, trail, ']');
    if s[v + |trail|] != ']' { ReadsChar(s, v, trail, ','); }
  }

  lemma ElementsUnfold(s: string, p: nat, n: nat, items: seq<Json>, j: Json)
    requires p <= |s| && n <= |s| && ReadValue(s, p) == Done(j, n)
    ensures ReadElements(s, p, items) ==
            if ReadChar(s, n, ']').Some? then Done(JArray(items + [j]), ReadChar(s, n, ']').value)
            else if ReadChar(s, n, ',').None? then Fail
            else ReadElements(s, ReadChar(s, n, ',').value, items + [j])
  {
    hide ReadValue, ReadChar;
  }

  /** Every RFC 8259 text with integer numbers is read, and given its meaning. */
  lemma ReadsWhole(lead: string, v: Value, trail: string)
    requires IsSpaces(lead) && Readable(v) && IsSpaces(trail)
    ensures ReadAll(lead + Text(v) + trail) == Some(Meaning(v))
  {
    var t := Text(v);
    var s := lead + t + trail;
    AtPrefix(lead, t + trail) by { assert s == lead + (t + trail); }
    assert s == lead + (t + trail);
    AtWhole(lead, t, trail);
    AtWhole(lead + t, trail, "");
    assert lead + t + trail + "" == s;
    ReadsAllParts(s, lead, v, trail);
  }

  lemma ReadsAllParts(s: string, lead: string, v: Value, trail: string)
    requires IsSpaces(lead) && Readable(v) && IsSpaces(trail)
    requires At(s, 0, lead) && At(s, |lead|, Text(v)) && At(s, |lead| + |Text(v)|, trail)
    requires |s| == |lead| + |Text(v)| + |trail|
    ensures ReadAll(s) == Some(Meaning(v))
  {
    var e := |lead| + |Text(v)|;
    if trail != [] { assert s[e + 0] == trail[0]; }
    SkipSpaceOver(s, e, trail);
    hide Sequences.At, IsSpaces, Text, Meaning;
    ReadsValue(s, 0, lead, v);
  }

  // ----- Escaping -----

  function HexDigit(d: nat): (c: char)
    requires d < 16
    ensures IsHexDigit(c) && HexValue(c) == d
  {
    if d < 10 then ('0' as int + d) as char else ('a' as int + (d - 10)) as char
  }

  function EscapeChar(c: char): string {
    if c == '"' then "\\\""
    else if c == '\\' then "\\\\"
    else if c as int == 8 then "\\b"
    else if c as int == 12 then "\\f"
    else if c == '\n' then "\\n"
    else if c == '\r' then "\\r"
    else if c == '\t' then "\\t"
    else if c as int < 0x20 then "\\u00" + [HexDigit(c as int / 16), HexDigit(c as int % 16)]
    else [c]
  }

  function Escape(s: string): string {
    if s == [] then [] else EscapeChar(s[0]) + Escape(s[1..])
  }

  lemma {:induction false} EscapeAppend(a: string, c: char)
    ensures Escape(a + [c]) == Escape(a) + EscapeChar(c)
    decreases |a|
  {
    if a == [] {
      assert a + [c] == [c];
      assert Escape([c]) == EscapeChar(c) + Escape([c][1..]);
    } else {
      assert (a + [c])[1..] == a[1..] + [c];
      EscapeAppend(a[1..], c);
    }
  }

  /** The switch over one character. */
  method EscapeCharacter(c: char) returns (piece: string)
    ensures piece == EscapeChar(c)
  {
    if c == '"' {
      piece := "\\\"";
    } else if c == '\\' {
      piece := "\\\\";
    } else if c as int == 8 {
      piece := "\\b";
    } else if c as int == 12 {
      piece := "\\f";
    } else if c == '\n' {
      piece := "\\n";
    } else if c == '\r' {
      piece := "\\r";
    } else if c == '\t' {
      piece := "\\t";
    } else if c as int < 0x20 {
      piece := "\\u00" + [HexDigit(c as int / 16), HexDigit(c as int % 16)];
    } else {
      piece := [c];
    }
  }

  method EscapeJson(value: string) returns (out: string)
    ensures out == Escape(value)
    ensures IsBody(out) && Decode(out) == value
  {
    assert Escape(value[..0]) == "";
    hide Escape, IsBody, Decode;
    EscapeUndone(value);
    out := "";
    var i := 0;
    while i < |value|
      invariant 0 <= i <= |value|
      invariant out == Escape(value[..i])
    {
      var c := value[i];
      assert value[..i + 1] == value[..i] + [c];
      EscapeAppend(value[..i], c);
      var piece := EscapeCharacter(c);
      out := out + piece;
      i := i + 1;
    }
    assert value[..i] == value;
  }

  /** Escaping any string gives a well-formed body that decodes to the same string. */
  lemma {:induction false} EscapeUndone(s: string)
    ensures IsBody(Escape(s)) && Decode(Escape(s)) == s
    decreases |s|
  {
    if s != [] {
      EscapeUndone(s[1..]);
      EscapeCharUndone(s[0], Escape(s[1..]));
      assert s == [s[0]] + s[1..];
    }
  }

  lemma EscapeCharUndone(c: char, rest: string)
    requires IsBody(rest)
    ensures IsBody(EscapeChar(c) + rest) && Decode(EscapeChar(c) + rest) == [c] + Decode(rest)
  {
    var e := EscapeChar(c);
    var t := e + rest;
    assert t[|e|..] == rest;
    if |e| == 6 {
      ControlEscapeUndone(c, c as int / 16, c as int % 16, rest);
    }
  }

  lemma ControlEscapeUndone(c: char, hi: nat, lo: nat, rest: string)
    requires IsBody(rest) && hi < 2 && lo < 16 && c as int == hi * 16 + lo
    ensures var t := "\\u00" + [HexDigit(hi), HexDigit(lo)] + rest;
            IsBody(t) && Decode(t) == [c] + Decode(rest)
  {
    var t := "\\u00" + [HexDigit(hi), HexDigit(lo)] + rest;
    var q := t[2..];
    assert q[0] == '0' && q[1] == '0' && q[2] == HexDigit(hi) && q[3] == HexDigit(lo);
    assert HexValue('0') == 0;
    assert t[6..] == rest;
    assert QuadValue(q) == c as int;
    assert Utf8(c as int) == [c];
  }
}
