/** The configuration reader accepts nothing but the texts of its grammar: whatever is read is the text of
    a tree, and means what the tree means. */
module ConfigGrammar {
  import opened Sequences
  import opened Wrappers
  import opened JsonGrammar
  import opened FieldScanner
  import opened NumberFields
  import opened Decimals
  import opened ConfigJson
  import opened ConfigReading

  // ----- Pieces -----

  lemma {:induction false} OnlySpaces(s: string, p: nat)
    requires p <= |s|
    ensures forall i :: p <= i < SkipSpace(s, p) ==> IsSpace(s[i])
    decreases |s| - p
  {
    if p < |s| && IsSpace(s[p]) { OnlySpaces(s, p + 1); }
  }

  /** The whitespace at `p`. */
  function SpacesAt(s: string, p: nat): string
    requires p <= |s|
  {
    s[p..SkipSpace(s, p)]
  }

  lemma SpacesStand(s: string, p: nat)
    requires p <= |s|
    ensures IsSpaces(SpacesAt(s, p)) && At(s, p, SpacesAt(s, p)) && p + |SpacesAt(s, p)| == SkipSpace(s, p)
  {
    OnlySpaces(s, p);
  }

  /** The characters of a string up to its closing quote. */
  lemma {:induction false} BodyRead(s: string, p: nat, out: string) returns (body: string)
    requires p <= |s| && ReadBody(s, p, out).Done?
    ensures IsBody(body) && At(s, p, body) && p + |body| < |s| && s[p + |body|] == '"'
    ensures ReadBody(s, p, out) == Done(out + Decode(body), p + |body| + 1)
    decreases |s| - p
  {
    hide Decode, IsBody, Utf8, QuadValue, SimpleEscape;
    if s[p] == '"' {
      body := "";
      NoBody(out);
    } else if s[p] != '\\' {
      var rest := BodyRead(s, p + 1, out + [s[p]]);
      assert s[p..p + 1] == [s[p]];
      PlainPiece(s[p..p + 1], rest);
      body := OneMorePiece(s, p, 1, out, [s[p]], rest);
    } else if IsSimpleEscape(s[p + 1]) {
      var rest := BodyRead(s, p + 2, out + [SimpleEscape(s[p + 1])]);
      EscapePiece(s[p..p + 2], rest);
      body := OneMorePiece(s, p, 2, out, [SimpleEscape(s[p + 1])], rest);
    } else {
      var code := Utf8(QuadValue(s[p + 2..]));
      var rest := BodyRead(s, p + 6, out + code);
      QuadHere(s, p);
      CodePiece(s[p..p + 6], rest);
      body := OneMorePiece(s, p, 6, out, code, rest);
    }
  }

  lemma NoBody(out: string)
    ensures IsBody("") && out == out + Decode("")
  {
  }

  lemma QuadHere(s: string, p: nat)
    requires p + 6 <= |s| && IsHexQuad(s[p + 2..])
    ensures IsHexQuad(s[p..p + 6][2..]) && QuadValue(s[p..p + 6][2..]) == QuadValue(s[p + 2..])
  {
    assert s[p + 2..][..4] == s[p..p + 6][2..];
    var q := s[p..p + 6][2..];
    assert q[0] == s[p + 2..][0] && q[1] == s[p + 2..][1] && q[2] == s[p + 2..][2] && q[3] == s[p + 2..][3];
    hide HexValue;
  }

  /** `k` characters at `p` that stand for `piece`, and the rest behind them. */
  lemma OneMorePiece(s: string, p: nat, k: nat, out: string, piece: string, rest: string) returns (body: string)
    requires p + k <= |s| && At(s, p + k, rest) && IsBody(s[p..p + k] + rest) && IsBody(rest)
    requires Decode(s[p..p + k] + rest) == piece + Decode(rest)
    ensures body == s[p..p + k] + rest && IsBody(body) && At(s, p, body)
    ensures out + piece + Decode(rest) == out + Decode(body)
  {
    body := s[p..p + k] + rest;
    hide Decode, IsBody;
    assert out + piece + Decode(rest) == out + (piece + Decode(rest));
  }

  lemma PlainPiece(piece: string, rest: string)
    requires |piece| == 1 && piece[0] != '\\' && piece[0] != '"' && piece[0] as int >= 0x20 && IsBody(rest)
    ensures IsBody(piece + rest) && Decode(piece + rest) == piece + Decode(rest)
  {
    assert (piece + rest)[1..] == rest && piece == [piece[0]];
  }

  lemma EscapePiece(piece: string, rest: string)
    requires |piece| == 2 && piece[0] == '\\' && IsSimpleEscape(piece[1]) && IsBody(rest)
    ensures IsBody(piece + rest) && Decode(piece + rest) == [SimpleEscape(piece[1])] + Decode(rest)
  {
    hide SimpleEscape;
    assert (piece + rest)[2..] == rest;
  }

  lemma CodePiece(piece: string, rest: string)
    requires |piece| == 6 && piece[0] == '\\' && piece[1] == 'u' && IsHexQuad(piece[2..]) && IsBody(rest)
    ensures IsBody(piece + rest) && Decode(piece + rest) == Utf8(QuadValue(piece[2..])) + Decode(rest)
  {
    hide Utf8;
    var body := piece + rest;
    assert body[6..] == rest;
    SameQuad(body[2..], piece[2..]);
  }

  lemma SameQuad(a: string, b: string)
    requires |b| == 4 <= |a| && a[..4] == b && IsHexQuad(b)
    ensures IsHexQuad(a) && QuadValue(a) == QuadValue(b)
  {
    assert a[0] == b[0] && a[1] == b[1] && a[2] == b[2] && a[3] == b[3];
    hide HexValue;
  }

  lemma {:induction false} OnlyDigits(s: string, p: nat)
    requires p <= |s|
    ensures forall i :: p <= i < DigitsEnd(s, p) ==> IsDigit(s[i])
    decreases |s| - p
  {
    if p < |s| && IsDigit(s[p]) { OnlyDigits(s, p + 1); }
  }

  lemma IntegerRead(s: string, p: nat) returns (n: Number)
    requires p <= |s| && ReadInteger(s, p).Done?
    ensures IsInt64(n) && At(s, p, NumberText(n))
    ensures ReadInteger(s, p) == Done(JInt(IntegerOf(n)), p + |NumberText(n)|)
  {
    var minus := p < |s| && s[p] == '-';
    var d := if minus then p + 1 else p;
    var e := DigitsEnd(s, d);
    OnlyDigits(s, d);
    n := Number(minus, s[d..e], "", NoExponent);
    assert NumberText(n) == (if minus then "-" else "") + s[d..e];
  }

  // ----- Values -----

  /** The value at `p`, behind whitespace. */
  ghost predicate IsRead(s: string, p: nat, b: string, v: Value) {
    && p <= |s| && IsSpaces(b) && At(s, p, b) && Readable(v) && At(s, p + |b|, Text(v))
    && ReadValue(s, p) == Done(Meaning(v), p + |b| + |Text(v)|)
  }

  lemma {:induction false} ValueRead(s: string, p: nat) returns (b: string, v: Value)
    requires p <= |s| && ReadValue(s, p).Done?
    ensures IsRead(s, p, b, v)
    decreases |s| - p, 3
  {
    b := SpacesAt(s, p);
    SpacesStand(s, p);
    var q := SkipSpace(s, p);
    if s[q] == '"' {
      v := TextRead(s, q);
    } else if s[q] == '{' {
      v := ObjectRead(s, q);
    } else if s[q] == '[' {
      v := ArrayRead(s, q);
    } else {
      v := AtomRead(s, p, q);
    }
  }

  lemma AtomRead(s: string, p: nat, q: nat) returns (v: Value)
    requires p <= |s| && q == SkipSpace(s, p) < |s| && s[q] !in {'"', '{', '['} && ReadValue(s, p).Done?
    ensures Readable(v) && At(s, q, Text(v)) && ReadValue(s, p) == Done(Meaning(v), q + |Text(v)|)
  {
    if "true" <= s[q..] {
      v := Bool(true);
      assert At(s, q, "true") by { assert s[q..][..4] == "true"; }
    } else if "false" <= s[q..] {
      v := Bool(false);
      assert At(s, q, "false") by { assert s[q..][..5] == "false"; }
    } else if "null" <= s[q..] {
      v := Null;
      assert At(s, q, "null") by { assert s[q..][..4] == "null"; }
    } else {
      var n := IntegerRead(s, q);
      v := Num(n);
    }
  }

  lemma TextRead(s: string, q: nat) returns (v: Value)
    requires q < |s| && s[q] == '"' && ReadString(s, q).Done?
    ensures v.Str? && Readable(v) && At(s, q, Text(v)) && ReadString(s, q) == Done(Decode(v.body), q + |Text(v)|)
  {
    var body := BodyRead(s, q + 1, "");
    v := Str(body);
    assert "" + Decode(body) == Decode(body);
    assert At(s, q, "\"" + body + "\"");
  }

  // ----- Objects and arrays -----

  lemma Joined(s: string, p: nat, a: string, b: string)
    requires At(s, p, a) && At(s, p + |a|, b)
    ensures At(s, p, a + b)
  {
  }

  lemma CharRead(s: string, p: nat, c: char) returns (b: string)
    requires p <= |s| && ReadChar(s, p, c).Some?
    ensures IsSpaces(b) && At(s, p, b) && p + |b| < |s| && s[p + |b|] == c && At(s, p + |b|, [c])
    ensures ReadChar(s, p, c) == Some(p + |b| + 1)
  {
    b := SpacesAt(s, p);
    SpacesStand(s, p);
  }

  /** A name, a colon and a value, as a member with nothing behind it. */
  lemma {:induction false} MemberRead(s: string, p: nat) returns (m: Members)
    requires p <= |s| && ReadMember(s, p).Done?
    ensures m.Member? && m.after == "" && m.others == NoMember && ReadableMembers(m)
    ensures IsBody(m.name) && Readable(m.value)
    ensures At(s, p, MemberHead(m) + Text(m.value))
    ensures ReadMember(s, p) == Done((Decode(m.name), Meaning(m.value)), p + |MemberHead(m) + Text(m.value)|)
    decreases |s| - p, 0
  {
    hide *;
    var before := SpacesAt(s, p);
    SpacesStand(s, p);
    var q := SkipSpace(s, p);
    HasName(s, p);
    SameString(s, p);
    var name := TextRead(s, q);
    var body := NameOf(name);
    var k := q + |Text(name)|;
    HasColon(s, p, Decode(body), k);
    var preColon := CharRead(s, k, ':');
    var c := k + |preColon| + 1;
    HasMemberValue(s, p, Decode(body), k, c);
    var postColon, value := ValueRead(s, c);
    ReadGives(s, c, postColon, value);
    m := Member(before, body, preColon, postColon, value, "", NoMember);
    IsMember(m);
    HeadJoined(s, p, m, value);
    MemberIs(s, p, k, c, Decode(body), Meaning(value), c + |postColon| + |Text(value)|);
  }

  lemma NameOf(v: Value) returns (body: string)
    requires v.Str? && Readable(v)
    ensures v == Str(body) && IsBody(body) && Text(v) == Quoted(body)
  {
    body := v.body;
  }

  lemma IsMember(m: Members)
    requires m.Member? && m.after == "" && m.others == NoMember
    requires IsSpaces(m.before) && IsBody(m.name) && IsSpaces(m.preColon) && IsSpaces(m.postColon) && Readable(m.value)
    ensures ReadableMembers(m)
  {
    hide IsBody, Readable;
  }

  lemma HasName(s: string, p: nat)
    requires p <= |s| && ReadMember(s, p).Done?
    ensures ReadString(s, p).Done?
  {
    hide ReadString, ReadChar, ReadValue;
  }

  lemma HasColon(s: string, p: nat, key: string, k: nat)
    requires p <= |s| && k <= |s| && ReadMember(s, p).Done? && ReadString(s, p) == Done(key, k)
    ensures ReadChar(s, k, ':').Some?
  {
    hide ReadString, ReadChar, ReadValue;
  }

  lemma HasMemberValue(s: string, p: nat, key: string, k: nat, c: nat)
    requires p <= |s| && k <= |s| && c <= |s| && ReadMember(s, p).Done? && ReadString(s, p) == Done(key, k)
    requires ReadChar(s, k, ':') == Some(c)
    ensures ReadValue(s, c).Done?
  {
    hide ReadString, ReadChar, ReadValue;
  }

  lemma HeadJoined(s: string, p: nat, m: Members, value: Value)
    requires m.Member? && At(s, p, m.before) && At(s, p + |m.before|, Quoted(m.name))
    requires var k := p + |m.before| + |Quoted(m.name)|;
             && At(s, k, m.preColon) && At(s, k + |m.preColon|, ":") && At(s, k + |m.preColon| + 1, m.postColon)
             && At(s, k + |m.preColon| + 1 + |m.postColon|, Text(value))
    ensures At(s, p, MemberHead(m) + Text(value))
    ensures |MemberHead(m)| == |m.before| + |Quoted(m.name)| + |m.preColon| + 1 + |m.postColon|
  {
    hide Sequences.At, Text, Quoted;
    Joined(s, p, m.before, Quoted(m.name));
    Joined(s, p, m.before + Quoted(m.name), m.preColon);
    Joined(s, p, m.before + Quoted(m.name) + m.preColon, ":");
    Joined(s, p, m.before + Quoted(m.name) + m.preColon + ":", m.postColon);
    Joined(s, p, MemberHead(m), Text(value));
  }

  lemma SameString(s: string, p: nat)
    requires p <= |s| && ReadString(s, p).Done?
    ensures var q := SkipSpace(s, p); q < |s| && s[q] == '"' && ReadString(s, q) == ReadString(s, p)
  {
  }

  lemma MemberIs(s: string, p: nat, k: nat, c: nat, key: string, j: Json, n: nat)
    requires p <= |s| && k <= |s| && c <= |s|
    requires ReadString(s, p) == Done(key, k) && ReadChar(s, k, ':') == Some(c) && ReadValue(s, c) == Done(j, n)
    ensures ReadMember(s, p) == Done((key, j), n)
  {
    hide ReadString, ReadChar, ReadValue;
  }

  lemma HasFirstMember(s: string, p: nat, fields: map<string, Json>)
    requires p <= |s| && ReadMembers(s, p, fields).Done?
    ensures ReadMember(s, p).Done?
  {
    hide ReadMember, ReadChar;
  }

  /** Members up to the closing brace. */
  ghost predicate MembersAre(s: string, p: nat, fields: map<string, Json>, ms: Members) {
    && p <= |s| && ms.Member? && ReadableMembers(ms) && At(s, p, MembersText(ms))
    && p + |MembersText(ms)| < |s| && s[p + |MembersText(ms)|] == '}'
    && ReadMembers(s, p, fields) == Done(JObject(MembersMeaning(ms, fields)), p + |MembersText(ms)| + 1)
  }

  lemma {:induction false} MembersRead(s: string, p: nat, fields: map<string, Json>) returns (ms: Members)
    requires p <= |s| && ReadMembers(s, p, fields).Done?
    ensures MembersAre(s, p, fields, ms)
    decreases |s| - p, 1
  {
    hide *;
    HasFirstMember(s, p, fields);
    var m := MemberRead(s, p);
    var v := p + |MemberHead(m) + Text(m.value)|;
    var entry := (Decode(m.name), Meaning(m.value));
    MembersUnfold(s, p, v, fields, entry);
    if ReadChar(s, v, '}').Some? {
      var after := CharRead(s, v, '}');
      ms := m.(after := after);
      LastMember(s, p, m, after, fields);
    } else {
      var after := CharRead(s, v, ',');
      var others := MembersRead(s, v + |after| + 1, fields[entry.0 := entry.1]);
      ms := m.(after := after, others := others);
      NextMember(s, p, m, after, others, fields);
    }
  }

  lemma LastMember(s: string, p: nat, m: Members, after: string, fields: map<string, Json>)
    requires m.Member? && m.after == "" && m.others == NoMember && ReadableMembers(m) && IsSpaces(after)
    requires IsBody(m.name) && Readable(m.value)
    requires var v := p + |MemberHead(m) + Text(m.value)|;
             && At(s, p, MemberHead(m) + Text(m.value)) && At(s, v, after) && v + |after| < |s| && s[v + |after|] == '}'
             && ReadMembers(s, p, fields) == Done(JObject(fields[Decode(m.name) := Meaning(m.value)]), v + |after| + 1)
    ensures MembersAre(s, p, fields, m.(after := after))
  {
    var ms := m.(after := after);
    hide Sequences.At, IsSpaces, Text, Decode, Meaning, Readable, IsBody, ReadMembers;
    assert MemberHead(ms) == MemberHead(m);
    Joined(s, p, MemberHead(m) + Text(m.value), after);
    assert MembersText(ms) == MemberHead(m) + Text(m.value) + after + "";
    assert MemberHead(m) + Text(m.value) + after + "" == MemberHead(m) + Text(m.value) + after;
    assert ReadableMembers(ms);
    assert MembersMeaning(ms, fields) == MembersMeaning(NoMember, fields[Decode(m.name) := Meaning(m.value)]);
    hide MembersText, MemberHead;
  }

  lemma NextMember(s: string, p: nat, m: Members, after: string, others: Members, fields: map<string, Json>)
    requires m.Member? && m.after == "" && m.others == NoMember && ReadableMembers(m) && IsSpaces(after)
    requires IsBody(m.name) && Readable(m.value)
    requires var v, next := p + |MemberHead(m) + Text(m.value)|, fields[Decode(m.name) := Meaning(m.value)];
             && At(s, p, MemberHead(m) + Text(m.value)) && At(s, v, after) && At(s, v + |after|, ",")
             && MembersAre(s, v + |after| + 1, next, others)
             && ReadMembers(s, p, fields) == ReadMembers(s, v + |after| + 1, next)
    ensures MembersAre(s, p, fields, m.(after := after, others := others))
  {
    hide *;
    var ms := m.(after := after, others := others);
    var head, v := MemberHead(m) + Text(m.value), p + |MemberHead(m) + Text(m.value)|;
    AreMembers(s, v + |after| + 1, fields[Decode(m.name) := Meaning(m.value)], others);
    MemberConsed(m, after, others, fields);
    AtNothing(s, p);
    FourJoined(s, p, "", head, after, MembersText(others));
    NothingInFront(head);
    MembersFit(s, p, fields, ms);
  }

  lemma AtNothing(s: string, p: nat)
    ensures p <= |s| ==> At(s, p, "")
  {
  }

  lemma NothingInFront(head: string)
    ensures "" + head == head
  {
  }

  lemma AreMembers(s: string, p: nat, fields: map<string, Json>, ms: Members)
    requires MembersAre(s, p, fields, ms)
    ensures p <= |s| && ms.Member? && ReadableMembers(ms) && At(s, p, MembersText(ms))
    ensures p + |MembersText(ms)| < |s| && s[p + |MembersText(ms)|] == '}'
    ensures ReadMembers(s, p, fields) == Done(JObject(MembersMeaning(ms, fields)), p + |MembersText(ms)| + 1)
  {
  }

  lemma MembersFit(s: string, p: nat, fields: map<string, Json>, ms: Members)
    requires p <= |s| && ms.Member? && ReadableMembers(ms) && At(s, p, MembersText(ms))
    requires p + |MembersText(ms)| < |s| && s[p + |MembersText(ms)|] == '}'
    requires ReadMembers(s, p, fields) == Done(JObject(MembersMeaning(ms, fields)), p + |MembersText(ms)| + 1)
    ensures MembersAre(s, p, fields, ms)
  {
  }

  lemma MemberConsed(m: Members, after: string, others: Members, fields: map<string, Json>)
    requires m.Member? && m.after == "" && m.others == NoMember && ReadableMembers(m) && IsSpaces(after)
    requires IsBody(m.name) && Readable(m.value) && others.Member? && ReadableMembers(others)
    ensures var ms := m.(after := after, others := others);
            && ReadableMembers(ms)
            && MembersText(ms) == MemberHead(m) + Text(m.value) + after + ("," + MembersText(others))
            && MembersMeaning(ms, fields) == MembersMeaning(others, fields[Decode(m.name) := Meaning(m.value)])
  {
    hide IsSpaces, Text, Meaning, Readable, Decode, IsBody;
    var ms := m.(after := after, others := others);
    assert MemberHead(ms) == MemberHead(m);
    assert MoreMembersText(others) == "," + MembersText(others);
  }

  lemma {:induction false} ObjectRead(s: string, q: nat) returns (v: Value)
    requires q < |s| && s[q] == '{' && ReadObject(s, q).Done?
    ensures Readable(v) && At(s, q, Text(v)) && ReadObject(s, q) == Done(Meaning(v), q + |Text(v)|)
    decreases |s| - q, 2
  {
    hide *;
    ObjectOpens(s, q);
    if ReadChar(s, q + 1, '}').Some? {
      var blank := CharRead(s, q + 1, '}');
      v := EmptyObject(s, q, blank);
    } else {
      var ms := MembersRead(s, q + 1, map[]);
      v := FullObject(s, q, ms);
    }
  }

  lemma ObjectOpens(s: string, q: nat)
    requires q < |s| && s[q] == '{'
    ensures ReadObject(s, q) == match ReadChar(s, q + 1, '}')
                                case Some(n) => Done(JObject(map[]), n)
                                case None => ReadMembers(s, q + 1, map[])
  {
    hide ReadMembers;
    assert SkipSpace(s, q) == q;
  }

  lemma EmptyObject(s: string, q: nat, blank: string) returns (v: Value)
    requires q < |s| && s[q] == '{' && IsSpaces(blank) && At(s, q + 1, blank) && At(s, q + 1 + |blank|, "}")
    ensures Readable(v) && At(s, q, Text(v)) && |Text(v)| == |blank| + 2 && Meaning(v) == JObject(map[])
  {
    v := Obj(blank, NoMember);
    assert At(s, q, "{");
    hide Sequences.At, IsSpaces;
    Joined(s, q, "{", blank);
    Joined(s, q, "{" + blank, "}");
    assert Text(v) == "{" + blank + "" + "}";
    assert "{" + blank + "" + "}" == "{" + blank + "}";
  }

  lemma FullObject(s: string, q: nat, ms: Members) returns (v: Value)
    requires q < |s| && s[q] == '{' && MembersAre(s, q + 1, map[], ms)
    ensures Readable(v) && At(s, q, Text(v))
    ensures ReadMembers(s, q + 1, map[]) == Done(Meaning(v), q + |Text(v)|)
  {
    hide *;
    AreMembers(s, q + 1, map[], ms);
    v := Obj("", ms);
    ObjectText(ms);
    BraceJoined(s, q, MembersText(ms));
  }

  lemma ObjectText(ms: Members)
    requires ReadableMembers(ms)
    ensures var v := Obj("", ms);
            Readable(v) && Text(v) == "{" + MembersText(ms) + "}" && Meaning(v) == JObject(MembersMeaning(ms, map[]))
  {
    assert IsSpaces("");
    hide MembersText, MembersMeaning, ReadableMembers;
    assert "{" + "" + MembersText(ms) + "}" == "{" + MembersText(ms) + "}";
  }

  /** Elements up to the closing bracket. */
  ghost predicate ElementsAre(s: string, p: nat, items: seq<Json>, es: Elements) {
    && p <= |s| && es.Element? && ReadableElements(es) && At(s, p, ElementsText(es))
    && p + |ElementsText(es)| < |s| && s[p + |ElementsText(es)|] == ']'
    && ReadElements(s, p, items) == Done(JArray(ElementsMeaning(es, items)), p + |ElementsText(es)| + 1)
  }

  lemma {:induction false} ElementsRead(s: string, p: nat, items: seq<Json>) returns (es: Elements)
    requires p <= |s| && ReadElements(s, p, items).Done?
    ensures ElementsAre(s, p, items, es)
    decreases |s| - p, 4
  {
    hide *;
    HasFirstElement(s, p, items);
    var lead, item := ValueRead(s, p);
    ReadGives(s, p, lead, item);
    var v := p + |lead| + |Text(item)|;
    ElementsUnfold(s, p, v, items, Meaning(item));
    if ReadChar(s, v, ']').Some? {
      var trail := CharRead(s, v, ']');
      es := Element(lead, item, trail, NoElement);
      LastElement(s, p, lead, item, trail, items);
    } else {
      var trail := CharRead(s, v, ',');
      var more := ElementsRead(s, v + |trail| + 1, items + [Meaning(item)]);
      es := Element(lead, item, trail, more);
      NextElement(s, p, v, lead, item, trail, more, items);
    }
  }

  lemma HasFirstElement(s: string, p: nat, items: seq<Json>)
    requires p <= |s| && ReadElements(s, p, items).Done?
    ensures ReadValue(s, p).Done?
  {
    hide ReadValue, ReadChar;
  }

  lemma ReadGives(s: string, p: nat, b: string, v: Value)
    requires IsRead(s, p, b, v)
    ensures IsSpaces(b) && At(s, p, b) && Readable(v) && At(s, p + |b|, Text(v))
    ensures p + |b| + |Text(v)| <= |s| && ReadValue(s, p) == Done(Meaning(v), p + |b| + |Text(v)|)
  {
    hide IsSpaces, Readable, Text, ReadValue, Meaning;
  }

  lemma LastElement(s: string, p: nat, lead: string, item: Value, trail: string, items: seq<Json>)
    requires p <= |s| && IsSpaces(lead) && Readable(item) && IsSpaces(trail) && At(s, p, lead) && At(s, p + |lead|, Text(item))
    requires var v := p + |lead| + |Text(item)|;
             && At(s, v, trail) && v + |trail| < |s| && s[v + |trail|] == ']'
             && ReadElements(s, p, items) == Done(JArray(items + [Meaning(item)]), v + |trail| + 1)
    ensures ElementsAre(s, p, items, Element(lead, item, trail, NoElement))
  {
    var es := Element(lead, item, trail, NoElement);
    hide Sequences.At, IsSpaces, Text, Meaning, Readable, ReadElements;
    Joined(s, p, lead, Text(item));
    Joined(s, p, lead + Text(item), trail);
    assert ElementsText(es) == lead + Text(item) + trail + "";
    assert lead + Text(item) + trail + "" == lead + Text(item) + trail;
    assert ReadableElements(es);
    assert ElementsMeaning(es, items) == ElementsMeaning(NoElement, items + [Meaning(item)]);
    hide ElementsText;
  }

  lemma NextElement(s: string, p: nat, v: nat, lead: string, item: Value, trail: string, more: Elements, items: seq<Json>)
    requires p <= |s| && IsSpaces(lead) && Readable(item) && IsSpaces(trail) && At(s, p, lead) && At(s, p + |lead|, Text(item))
    requires v == p + |lead| + |Text(item)| && At(s, v, trail) && At(s, v + |trail|, ",")
    requires ElementsAre(s, v + |trail| + 1, items + [Meaning(item)], more)
    requires ReadElements(s, p, items) == ReadElements(s, v + |trail| + 1, items + [Meaning(item)])
    ensures ElementsAre(s, p, items, Element(lead, item, trail, more))
  {
    hide *;
    var es := Element(lead, item, trail, more);
    AreElements(s, v + |trail| + 1, items + [Meaning(item)], more);
    ElementConsed(lead, item, trail, more, items);
    FourJoined(s, p, lead, Text(item), trail, ElementsText(more));
    ElementsFit(s, p, items, es);
  }

  lemma AreElements(s: string, p: nat, items: seq<Json>, es: Elements)
    requires ElementsAre(s, p, items, es)
    ensures p <= |s| && es.Element? && ReadableElements(es) && At(s, p, ElementsText(es))
    ensures p + |ElementsText(es)| < |s| && s[p + |ElementsText(es)|] == ']'
    ensures ReadElements(s, p, items) == Done(JArray(ElementsMeaning(es, items)), p + |ElementsText(es)| + 1)
  {
  }

  lemma ElementsFit(s: string, p: nat, items: seq<Json>, es: Elements)
    requires p <= |s| && es.Element? && ReadableElements(es) && At(s, p, ElementsText(es))
    requires p + |ElementsText(es)| < |s| && s[p + |ElementsText(es)|] == ']'
    requires ReadElements(s, p, items) == Done(JArray(ElementsMeaning(es, items)), p + |ElementsText(es)| + 1)
    ensures ElementsAre(s, p, items, es)
  {
  }

  lemma ElementConsed(lead: string, item: Value, trail: string, more: Elements, items: seq<Json>)
    requires IsSpaces(lead) && Readable(item) && IsSpaces(trail) && more.Element? && ReadableElements(more)
    ensures var es := Element(lead, item, trail, more);
            && ReadableElements(es) && ElementsText(es) == lead + Text(item) + trail + ("," + ElementsText(more))
            && ElementsMeaning(es, items) == ElementsMeaning(more, items + [Meaning(item)])
  {
    hide IsSpaces, Text, Meaning, Readable;
    assert MoreElementsText(more) == "," + ElementsText(more);
  }

  lemma FourJoined(s: string, p: nat, a: string, b: string, c: string, d: string)
    requires At(s, p, a) && At(s, p + |a|, b) && At(s, p + |a| + |b|, c) && At(s, p + |a| + |b| + |c|, ",")
    requires At(s, p + |a| + |b| + |c| + 1, d)
    ensures At(s, p, a + b + c + ("," + d))
  {
    hide Sequences.At;
    Joined(s, p, a, b);
    Joined(s, p, a + b, c);
    Joined(s, p + |a| + |b| + |c|, ",", d);
    Joined(s, p, a + b + c, "," + d);
  }

  lemma BraceJoined(s: string, q: nat, inner: string)
    requires q < |s| && s[q] == '{' && At(s, q + 1, inner) && q + 1 + |inner| < |s| && s[q + 1 + |inner|] == '}'
    ensures At(s, q, "{" + inner + "}")
  {
  }

  lemma BracketJoined(s: string, q: nat, inner: string)
    requires q < |s| && s[q] == '[' && At(s, q + 1, inner) && q + 1 + |inner| < |s| && s[q + 1 + |inner|] == ']'
    ensures At(s, q, "[" + inner + "]")
  {
  }

  lemma {:induction false} ArrayRead(s: string, q: nat) returns (v: Value)
    requires q < |s| && s[q] == '[' && ReadArray(s, q).Done?
    ensures Readable(v) && At(s, q, Text(v)) && ReadArray(s, q) == Done(Meaning(v), q + |Text(v)|)
    decreases |s| - q, 2
  {
    hide *;
    ArrayOpens(s, q);
    if ReadChar(s, q + 1, ']').Some? {
      var gap := CharRead(s, q + 1, ']');
      v := EmptyArray(s, q, gap);
    } else {
      var es := ElementsRead(s, q + 1, []);
      v := FullArray(s, q, es);
    }
  }

  lemma ArrayOpens(s: string, q: nat)
    requires q < |s| && s[q] == '['
    ensures ReadArray(s, q) == match ReadChar(s, q + 1, ']')
                               case Some(n) => Done(JArray([]), n)
                               case None => ReadElements(s, q + 1, [])
  {
    hide ReadElements;
    assert SkipSpace(s, q) == q;
  }

  lemma EmptyArray(s: string, q: nat, gap: string) returns (v: Value)
    requires q < |s| && s[q] == '[' && IsSpaces(gap) && At(s, q + 1, gap) && At(s, q + 1 + |gap|, "]")
    ensures Readable(v) && At(s, q, Text(v)) && |Text(v)| == |gap| + 2 && Meaning(v) == JArray([])
  {
    v := Arr(gap, NoElement);
    assert At(s, q, "[");
    hide Sequences.At, IsSpaces;
    Joined(s, q, "[", gap);
    Joined(s, q, "[" + gap, "]");
    assert Text(v) == "[" + gap + "" + "]";
    assert "[" + gap + "" + "]" == "[" + gap + "]";
  }

  lemma FullArray(s: string, q: nat, es: Elements) returns (v: Value)
    requires q < |s| && s[q] == '[' && ElementsAre(s, q + 1, [], es)
    ensures Readable(v) && At(s, q, Text(v))
    ensures ReadElements(s, q + 1, []) == Done(Meaning(v), q + |Text(v)|)
  {
    hide *;
    AreElements(s, q + 1, [], es);
    v := Arr("", es);
    ArrayText(es);
    BracketJoined(s, q, ElementsText(es));
  }

  lemma ArrayText(es: Elements)
    requires ReadableElements(es)
    ensures var v := Arr("", es);
            Readable(v) && Text(v) == "[" + ElementsText(es) + "]" && Meaning(v) == JArray(ElementsMeaning(es, []))
  {
    assert IsSpaces("");
    hide ElementsText, ElementsMeaning, ReadableElements;
    assert "[" + "" + ElementsText(es) + "]" == "[" + ElementsText(es) + "]";
  }

  // ----- The whole text -----

  /** A tree whose text, with whitespace around it, is `s`, and which means `j`. */
  ghost predicate Derives(s: string, lead: string, v: Value, trail: string, j: Json) {
    IsSpaces(lead) && Readable(v) && IsSpaces(trail) && s == lead + Text(v) + trail && Meaning(v) == j
  }

  lemma WholeRead(s: string) returns (lead: string, v: Value, trail: string)
    requires ReadAll(s).Some?
    ensures Derives(s, lead, v, trail, ReadAll(s).value)
  {
    hide *;
    HasValue(s);
    lead, v := ValueRead(s, 0);
    ReadGives(s, 0, lead, v);
    var n := |lead| + |Text(v)|;
    trail := SpacesAt(s, n);
    SpacesStand(s, n);
    EndsThere(s, n, Meaning(v));
    ThreeParts(s, lead, Text(v), trail);
    DerivesSo(s, lead, v, trail);
  }

  lemma HasValue(s: string)
    requires ReadAll(s).Some?
    ensures ReadValue(s, 0).Done?
  {
    hide ReadValue;
  }

  lemma EndsThere(s: string, n: nat, j: Json)
    requires ReadAll(s).Some? && ReadValue(s, 0) == Done(j, n) && n <= |s|
    ensures ReadAll(s) == Some(j) && SkipSpace(s, n) == |s|
  {
    hide ReadValue;
  }

  lemma ThreeParts(s: string, a: string, b: string, c: string)
    requires At(s, 0, a) && At(s, |a|, b) && At(s, |a| + |b|, c) && |s| == |a| + |b| + |c|
    ensures s == a + b + c
  {
    AtSlice(s, 0, a);
    AtSlice(s, |a|, b);
    AtSlice(s, |a| + |b|, c);
    hide Sequences.At;
    assert s == s[0..|a|] + s[|a|..|a| + |b|] + s[|a| + |b|..];
  }

  lemma DerivesSo(s: string, lead: string, v: Value, trail: string)
    requires IsSpaces(lead) && Readable(v) && IsSpaces(trail) && s == lead + Text(v) + trail && ReadAll(s) == Some(Meaning(v))
    ensures Derives(s, lead, v, trail, ReadAll(s).value)
  {
    hide IsSpaces, Readable, Text, ReadAll, Meaning;
  }

  /** For every text and every value: the text is read as the value exactly if it derives it. */
  lemma ReadsExactly(s: string, j: Json)
    ensures ReadAll(s) == Some(j) <==> exists lead, v, trail :: Derives(s, lead, v, trail, j)
  {
    if ReadAll(s) == Some(j) {
      var lead, v, trail := WholeRead(s);
    }
    if lead, v, trail :| Derives(s, lead, v, trail, j) {
      ReadsWhole(lead, v, trail);
    }
  }

  // ----- What escapes stand for -----

  /** The number a UTF-8 sequence of up to three bytes stands for: section 3 of RFC 3629. */
  function FromUtf8(b: string): Option<nat> {
    if |b| == 1 && b[0] as int < 0x80 then Some(b[0] as int)
    else if |b| == 2 && 0xC0 <= b[0] as int < 0xE0 && 0x80 <= b[1] as int < 0xC0 then
      Some((b[0] as int - 0xC0) * 64 + (b[1] as int - 0x80))
    else if |b| == 3 && 0xE0 <= b[0] as int < 0xF0 && 0x80 <= b[1] as int < 0xC0 && 0x80 <= b[2] as int < 0xC0 then
      Some(((b[0] as int - 0xE0) * 64 + (b[1] as int - 0x80)) * 64 + (b[2] as int - 0x80))
    else None
  }

  /** A \u escape becomes the shortest UTF-8 sequence of its number. */
  lemma UnitIsUtf8(unit: nat)
    requires unit <= 0xFFFF
    ensures FromUtf8(Utf8(unit)) == Some(unit)
    ensures |Utf8(unit)| == (if unit < 0x80 then 1 else if unit < 0x800 then 2 else 3)
  {
    if unit > 0x7FF {
      var hi, lo := unit / 0x40, unit % 0x40;
      assert unit == 64 * hi + lo && hi / 0x40 == unit / 0x1000;
      assert hi == 64 * (hi / 0x40) + hi % 0x40;
    }
  }

  /** Hexadecimal digits of either case, the most significant of the four first; and section 7 of RFC 8259
      for the other escapes. */
  lemma EscapesMean(s: string, i: nat)
    requires i < 16
    ensures HexValue("0123456789abcdef"[i]) == i && HexValue("0123456789ABCDEF"[i]) == i
    ensures IsHexQuad(s) ==> QuadValue(s) == 4096 * HexValue(s[0]) + 256 * HexValue(s[1]) + 16 * HexValue(s[2]) + HexValue(s[3])
    ensures SimpleEscape('"') == '"' && SimpleEscape('\\') == '\\' && SimpleEscape('/') == '/'
    ensures SimpleEscape('b') as int == 0x08 && SimpleEscape('t') as int == 0x09 && SimpleEscape('n') as int == 0x0A
    ensures SimpleEscape('f') as int == 0x0C && SimpleEscape('r') as int == 0x0D
  {
  }
}
