/** FindValueStart of src/net/Protocol.cpp: it looks for a root member without building a tree. */
module FieldScanner {
  import opened Sequences
  import opened Wrappers
  import opened JsonGrammar

  // ----- The scan as functions of the text -----

  function SkipSpace(s: string, i: nat): (r: nat)
    requires i <= |s|
    ensures i <= r <= |s|
    ensures r < |s| ==> !IsSpace(s[r])
    decreases |s| - i
  {
    if i < |s| && IsSpace(s[i]) then SkipSpace(s, i + 1) else i
  }

  /** Steps back over whitespace, but never before the character after `root`. */
  function TrimBack(s: string, root: nat, i: nat): (r: nat)
    requires i <= |s|
    ensures r <= i
    ensures root <= i ==> root <= r
  {
    if i > root && IsSpace(s[i - 1]) then TrimBack(s, root, i - 1) else i
  }

  datatype Closing = Closing(end: nat, hasEscape: bool)

  /** Where the string whose contents start at `i` is closed, or |s|. */
  function StringEnd(s: string, i: nat, escaped: bool, hasEscape: bool): (r: Closing)
    requires i <= |s|
    ensures i <= r.end <= |s|
    decreases |s| - i
  {
    if i == |s| then Closing(i, hasEscape)
    else if escaped then StringEnd(s, i + 1, false, true)
    else if s[i] == '\\' then StringEnd(s, i + 1, true, hasEscape)
    else if s[i] == '"' then Closing(i, hasEscape)
    else StringEnd(s, i + 1, false, hasEscape)
  }

  /** Whether a string opened at `p` stands where a member name of the root may stand. */
  predicate NamePosition(s: string, root: nat, p: nat)
    requires p <= |s|
  {
    var q := TrimBack(s, root, p);
    q > root && (s[q - 1] == '{' || s[q - 1] == ',')
  }

  /** The offset after the colon that has to follow a matched name closed at `end`. */
  function AfterColon(s: string, end: nat): Option<nat>
    requires end < |s|
  {
    var colon := SkipSpace(s, end + 1);
    if colon >= |s| || s[colon] != ':' then None else Some(SkipSpace(s, colon + 1))
  }

  function Scan(s: string, key: string, root: nat, p: nat, depth: int): (r: Option<nat>)
    requires p <= |s|
    ensures r.Some? ==> r.value <= |s|
    decreases |s| - p
  {
    if p == |s| || depth <= 0 then None
    else if s[p] == '{' || s[p] == '[' then Scan(s, key, root, p + 1, depth + 1)
    else if s[p] == '}' || s[p] == ']' then Scan(s, key, root, p + 1, depth - 1)
    else if s[p] != '"' then Scan(s, key, root, p + 1, depth)
    else
      var close := StringEnd(s, p + 1, false, false);
      if close.end == |s| then None
      else if depth == 1 && NamePosition(s, root, p) && !close.hasEscape && s[p + 1..close.end] == key then
        AfterColon(s, close.end)
      else Scan(s, key, root, close.end + 1, depth)
  }

  function ValueStart(s: string, key: string): (r: Option<nat>)
    ensures r.Some? ==> r.value <= |s|
  {
    var root := SkipSpace(s, 0);
    if root >= |s| || s[root] != '{' then None else Scan(s, key, root, root + 1, 1)
  }

  // ----- The loops of the program -----

  method SkipSpaces(json: string, start: nat) returns (i: nat)
    requires start <= |json|
    ensures i == SkipSpace(json, start)
  {
    i := start;
    while i < |json| && IsSpace(json[i])
      invariant start <= i <= |json|
      invariant SkipSpace(json, i) == SkipSpace(json, start)
    {
      i := i + 1;
    }
  }

  method CloseString(json: string, stringStart: nat) returns (stringEnd: nat, keyHasEscape: bool)
    requires stringStart <= |json|
    ensures Closing(stringEnd, keyHasEscape) == StringEnd(json, stringStart, false, false)
  {
    stringEnd := stringStart;
    var escaped := false;
    keyHasEscape := false;
    while stringEnd < |json|
      invariant stringStart <= stringEnd <= |json|
      invariant StringEnd(json, stringEnd, escaped, keyHasEscape) == StringEnd(json, stringStart, false, false)
    {
      var sc := json[stringEnd];
      if escaped {
        escaped, keyHasEscape := false, true;
      } else if sc == '\\' {
        escaped := true;
      } else if sc == '"' {
        return;
      }
      stringEnd := stringEnd + 1;
    }
  }

  method StandsAsName(json: string, root: nat, pos: nat) returns (memberName: bool)
    requires root < pos <= |json|
    ensures memberName == NamePosition(json, root, pos)
  {
    var previous := pos;
    while previous > root && IsSpace(json[previous - 1])
      invariant root <= previous <= pos
      invariant TrimBack(json, root, previous) == TrimBack(json, root, pos)
    {
      previous := previous - 1;
    }
    memberName := previous > root && (json[previous - 1] == '{' || json[previous - 1] == ',');
  }

  /** On any text at all the loops compute `ValueStart`; what that is on a well-formed object
      text is `FindsRootMember` below. */
  method FindValueStart(json: string, key: string) returns (r: Option<nat>)
    ensures r == ValueStart(json, key)
  {
    hide SkipSpace, StringEnd, NamePosition;
    var root := SkipSpaces(json, 0);
    if root >= |json| || json[root] != '{' {
      return None;
    }
    var depth := 1;
    var pos := root + 1;
    while pos < |json| && depth > 0
      invariant root < pos <= |json|
      invariant Scan(json, key, root, pos, depth) == ValueStart(json, key)
      decreases |json| - pos
    {
      var c := json[pos];
      if c == '{' || c == '[' {
        depth := depth + 1;
      } else if c == '}' || c == ']' {
        depth := depth - 1;
      } else if c == '"' {
        var stringEnd, keyHasEscape := CloseString(json, pos + 1);
        if stringEnd >= |json| {
          return None;
        }
        var memberName := StandsAsName(json, root, pos);
        if depth == 1 && memberName && !keyHasEscape && json[pos + 1..stringEnd] == key {
          var colon := SkipSpaces(json, stringEnd + 1);
          if colon >= |json| || json[colon] != ':' {
            return None;
          }
          colon := SkipSpaces(json, colon + 1);
          return Some(colon);
        }
        pos := stringEnd;
      }
      pos := pos + 1;
    }
    return None;
  }

  // ----- What the scan finds in a well-formed object text -----

  /** A JSON text whose value is an object: lead { blank members } trail. */
  function RootText(lead: string, blank: string, ms: Members, trail: string): string {
    lead + Text(Obj(blank, ms)) + trail
  }

  predicate IsRootObject(lead: string, blank: string, ms: Members, trail: string) {
    IsBlank(lead) && IsBlank(trail) && Valid(Obj(blank, ms))
  }

  /** The first member with the name `key` spelt without escapes. */
  predicate Names(ms: Members, key: string)
    requires ms.Member?
  {
    ms.name == key && '\\' !in ms.name
  }

  /** The offset of its value from the start of the members. */
  function MemberOffset(ms: Members, key: string): Option<nat> {
    if ms.NoMember? then None
    else if Names(ms, key) then Some(|MemberHead(ms)|)
    else match MemberOffset(ms.others, key)
      case None => None
      case Some(o) => Some(|MemberText(ms)| + 1 + o)
  }

  /** The value itself. */
  function MemberValue(ms: Members, key: string): Option<Value> {
    if ms.NoMember? then None
    else if Names(ms, key) then Some(ms.value)
    else MemberValue(ms.others, key)
  }

  function RootMember(lead: string, blank: string, ms: Members, key: string): Option<nat> {
    match MemberOffset(ms, key)
    case None => None
    case Some(o) => Some(|lead| + 1 + |blank| + o)
  }

  lemma {:induction false} SkipSpaceOver(s: string, p: nat, b: string)
    requires At(s, p, b) && forall i :: 0 <= i < |b| ==> IsSpace(b[i])
    ensures SkipSpace(s, p) == SkipSpace(s, p + |b|)
    decreases |b|
  {
    if b != [] {
      assert b[0] == s[p + 0];
      AtSplit(s, p, b[..1], b[1..]) by { assert b == b[..1] + b[1..]; }
      SkipSpaceOver(s, p + 1, b[1..]);
    }
  }

  /** Whitespace, then a character that is not: that is where SkipSpace stops. */
  lemma SkipSpaceStops(s: string, p: nat, b: string)
    requires At(s, p, b) && IsBlank(b) && p + |b| < |s| && !IsSpace(s[p + |b|])
    ensures SkipSpace(s, p) == p + |b|
  {
    SkipSpaceOver(s, p, b);
  }

  lemma {:induction false} TrimBackOver(s: string, root: nat, p: nat, b: string)
    requires At(s, p, b) && IsBlank(b) && root < p && !IsSpace(s[p - 1])
    ensures TrimBack(s, root, p + |b|) == p
    decreases |b|
  {
    if b != [] {
      var n := |b| - 1;
      assert b[n] == s[p + n];
      AtSplit(s, p, b[..n], b[n..]) by { assert b == b[..n] + b[n..]; }
      TrimBackOver(s, root, p, b[..n]);
    }
  }

  lemma {:induction false} ScanPlain(s: string, key: string, root: nat, p: nat, depth: int, t: string)
    requires At(s, p, t) && depth >= 1 && forall i :: 0 <= i < |t| ==> IsPlain(t[i])
    ensures Scan(s, key, root, p, depth) == Scan(s, key, root, p + |t|, depth)
    decreases |t|
  {
    if t != [] {
      assert t[0] == s[p + 0];
      AtSplit(s, p, t[..1], t[1..]) by { assert t == t[..1] + t[1..]; }
      ScanPlain(s, key, root, p + 1, depth, t[1..]);
    }
  }

  /** A string body is closed by its own quote, and the escape flag is right. */
  lemma {:induction false} BodyEnd(s: string, p: nat, body: string, seen: bool)
    requires At(s, p, body) && IsBody(body) && p + |body| < |s| && s[p + |body|] == '"'
    ensures StringEnd(s, p, false, seen) == Closing(p + |body|, seen || '\\' in body)
    decreases |body|
  {
    if body != [] {
      assert body[0] == s[p + 0];
      if body[0] != '\\' {
        AtSplit(s, p, body[..1], body[1..]) by { assert body == body[..1] + body[1..]; }
        BodyEnd(s, p + 1, body[1..], seen);
      } else if body[1] != 'u' {
        AtSplit(s, p, body[..2], body[2..]) by { assert body == body[..2] + body[2..]; }
        BodyEnd(s, p + 2, body[2..], true);
        assert StringEnd(s, p, false, seen) == StringEnd(s, p + 1, true, seen) == StringEnd(s, p + 2, false, true);
      } else {
        AtSplit(s, p, body[..6], body[6..]) by { assert body == body[..6] + body[6..]; }
        BodyEnd(s, p + 6, body[6..], true);
        HexQuadSkipped(s, p, body);
      }
    }
  }

  lemma HexQuadSkipped(s: string, p: nat, body: string)
    requires At(s, p, body) && |body| >= 6 && body[0] == '\\' && IsHexQuad(body[2..])
    ensures forall seen :: StringEnd(s, p, false, seen) == StringEnd(s, p + 6, false, true)
  {
    forall i | 0 <= i < 6 ensures s[p + i] == body[i] { assert body[i] == s[p + i]; }
    assert body[2] == body[2..][0] && body[3] == body[2..][1] && body[4] == body[2..][2] && body[5] == body[2..][3];
    forall seen ensures StringEnd(s, p, false, seen) == StringEnd(s, p + 6, false, true) {
      assert StringEnd(s, p, false, seen) == StringEnd(s, p + 1, true, seen) == StringEnd(s, p + 2, false, true);
      assert StringEnd(s, p + 2, false, true) == StringEnd(s, p + 3, false, true);
      assert StringEnd(s, p + 3, false, true) == StringEnd(s, p + 4, false, true);
      assert StringEnd(s, p + 4, false, true) == StringEnd(s, p + 5, false, true);
    }
  }

  /** What the scan does at a whole string, wherever it stands. */
  lemma ScanQuoted(s: string, key: string, root: nat, p: nat, depth: int, body: string)
    requires At(s, p, Quoted(body)) && IsBody(body) && depth >= 1
    ensures p + 1 + |body| < |s|
    ensures Scan(s, key, root, p, depth) ==
            if depth == 1 && NamePosition(s, root, p) && '\\' !in body && body == key
            then AfterColon(s, p + 1 + |body|)
            else Scan(s, key, root, p + |Quoted(body)|, depth)
  {
    assert Quoted(body)[0] == s[p + 0];
    assert Quoted(body)[1 + |body|] == s[p + 1 + |body|];
    AtSplit(s, p, "\"", body + "\"") by { assert Quoted(body) == "\"" + (body + "\""); }
    AtSplit(s, p + 1, body, "\"");
    BodyEnd(s, p + 1, body, false);
  }

  /** A value is skipped whole at any depth below the root, and at the root unless it is a
      string standing where a name would. */
  lemma {:induction false} ScanValue(s: string, key: string, root: nat, p: nat, depth: int, v: Value)
    requires At(s, p, Text(v)) && Valid(v) && depth >= 1
    requires depth == 1 ==> !NamePosition(s, root, p)
    ensures Scan(s, key, root, p, depth) == Scan(s, key, root, p + |Text(v)|, depth)
    decreases v, 0
  {
    hide At, Scan, IsBlank, IsBody, NamePosition;
    match v
    case Null => ScanAtom(s, key, root, p, depth, v);
    case Bool(_) => ScanAtom(s, key, root, p, depth, v);
    case Num(_) => ScanAtom(s, key, root, p, depth, v);
    case Str(body) => ScanQuoted(s, key, root, p, depth, body);
    case Obj(blank, members) =>
      var inner := MembersText(members);
      BracketParts(s, p, "{", blank, inner, "}");
      ScanMembers(s, key, root, p + 1 + |blank|, depth + 1, members);
      ScanBracketed(s, key, root, p, depth, blank, inner);
    case Arr(gap, elements) =>
      var inner := ElementsText(elements);
      BracketParts(s, p, "[", gap, inner, "]");
      ScanElements(s, key, root, p + 1 + |gap|, depth + 1, elements);
      ScanBracketed(s, key, root, p, depth, gap, inner);
  }

  lemma ScanAtom(s: string, key: string, root: nat, p: nat, depth: int, v: Value)
    requires At(s, p, Text(v)) && Valid(v) && depth >= 1 && (v.Null? || v.Bool? || v.Num?)
    ensures Scan(s, key, root, p, depth) == Scan(s, key, root, p + |Text(v)|, depth)
  {
    if v.Num? { NumberCharacters(v.n); }
    ScanPlain(s, key, root, p, depth, Text(v));
  }

  /** Inside brackets the depth is one more, behind them it is back. */
  lemma ScanBracketed(s: string, key: string, root: nat, p: nat, depth: int, blank: string, inner: string)
    requires p + 2 + |blank| + |inner| <= |s| && depth >= 1
    requires s[p] == '{' || s[p] == '['
    requires var close := s[p + 1 + |blank| + |inner|]; close == '}' || close == ']'
    requires At(s, p + 1, blank) && IsBlank(blank)
    requires var q := p + 1 + |blank|;
             Scan(s, key, root, q, depth + 1) == Scan(s, key, root, q + |inner|, depth + 1)
    ensures Scan(s, key, root, p, depth) == Scan(s, key, root, p + 2 + |blank| + |inner|, depth)
  {
    ScanPlain(s, key, root, p + 1, depth + 1, blank);
  }

  lemma BracketParts(s: string, p: nat, open: string, blank: string, inner: string, close: string)
    requires At(s, p, open + blank + inner + close) && |open| == |close| == 1
    ensures s[p] == open[0] && At(s, p + 1, blank) && At(s, p + 1 + |blank|, inner)
    ensures s[p + 1 + |blank| + |inner|] == close[0]
  {
    AtSplit3(s, p, open + blank, inner, close);
    AtHead(s, p, open, blank);
    assert s[p + 1 + |blank| + |inner| + 0] == close[0];
  }

  lemma {:induction false} ScanMembers(s: string, key: string, root: nat, p: nat, depth: int, ms: Members)
    requires At(s, p, MembersText(ms)) && ValidMembers(ms) && depth >= 2
    ensures Scan(s, key, root, p, depth) == Scan(s, key, root, p + |MembersText(ms)|, depth)
    decreases ms, 1
  {
    hide At, Scan, IsBody;
    if ms.Member? {
      var q := p + |MemberHead(ms)|;
      MemberParts(s, p, ms);
      ScanPlain(s, key, root, p, depth, ms.before);
      ScanQuoted(s, key, root, p + |ms.before|, depth, ms.name);
      ScanPlain(s, key, root, p + |ms.before| + |Quoted(ms.name)|, depth, ms.preColon + ":" + ms.postColon);
      ScanValue(s, key, root, q, depth, ms.value);
      ScanPlain(s, key, root, q + |Text(ms.value)|, depth, ms.after);
      var e := p + |MemberText(ms)|;
      if ms.others.Member? {
        AtSplit(s, e, ",", MembersText(ms.others));
        ScanPlain(s, key, root, e, depth, ",");
        ScanMembers(s, key, root, e + 1, depth, ms.others);
      }
    }
  }

  lemma {:induction false} ScanElements(s: string, key: string, root: nat, p: nat, depth: int, es: Elements)
    requires At(s, p, ElementsText(es)) && ValidElements(es) && depth >= 2
    ensures Scan(s, key, root, p, depth) == Scan(s, key, root, p + |ElementsText(es)|, depth)
    decreases es, 1
  {
    hide At;
    if es.Element? {
      var t := Text(es.item);
      var e := p + |es.lead| + |t| + |es.trail|;
      AtSplit(s, p, es.lead + t + es.trail, MoreElementsText(es.more));
      AtSplit(s, p, es.lead + t, es.trail);
      AtSplit(s, p, es.lead, t);
      ScanPlain(s, key, root, p, depth, es.lead);
      ScanValue(s, key, root, p + |es.lead|, depth, es.item);
      ScanPlain(s, key, root, p + |es.lead| + |t|, depth, es.trail);
      if es.more.Element? {
        AtSplit(s, e, ",", ElementsText(es.more));
        ScanPlain(s, key, root, e, depth, ",");
        ScanElements(s, key, root, e + 1, depth, es.more);
      }
    }
  }

  /** Where the pieces of a member stand. */
  lemma MemberParts(s: string, p: nat, ms: Members)
    requires ms.Member? && At(s, p, MembersText(ms))
    ensures At(s, p, ms.before) && At(s, p + |ms.before|, Quoted(ms.name))
    ensures var c := p + |ms.before| + |Quoted(ms.name)|;
            At(s, c, ms.preColon + ":" + ms.postColon) &&
            At(s, c, ms.preColon) && At(s, c + |ms.preColon|, ":") && At(s, c + |ms.preColon| + 1, ms.postColon)
    ensures var q := p + |MemberHead(ms)|;
            At(s, q, Text(ms.value)) && At(s, q + |Text(ms.value)|, ms.after)
    ensures At(s, p + |MemberText(ms)|, MoreMembersText(ms.others))
  {
    hide At;
    AtSplit(s, p, MemberText(ms), MoreMembersText(ms.others));
    AtSplit3(s, p, MemberHead(ms), Text(ms.value), ms.after);
    AtSplit3(s, p, ms.before, Quoted(ms.name), ms.preColon + ":" + ms.postColon) by { HeadGrouping(ms); }
    AtSplit3(s, p + |ms.before| + |Quoted(ms.name)|, ms.preColon, ":", ms.postColon);
  }

  lemma HeadGrouping(ms: Members)
    requires ms.Member?
    ensures MemberHead(ms) == ms.before + Quoted(ms.name) + (ms.preColon + ":" + ms.postColon)
  {
  }

  lemma NameAfterComma(s: string, root: nat, e: nat)
    requires root <= e && At(s, e, ",")
    ensures NamePosition(s, root, e + 1) && !IsSpace(s[TrimBack(s, root, e + 1) - 1])
  {
    assert s[e + 0] == ","[0];
  }

  /** The members of the root are searched in order. */
  lemma {:induction false} ScanRootMembers(s: string, key: string, root: nat, p: nat, ms: Members)
    requires At(s, p, MembersText(ms)) && ValidMembers(ms) && root < p
    requires NamePosition(s, root, p) && !IsSpace(s[TrimBack(s, root, p) - 1])
    ensures Scan(s, key, root, p, 1) ==
            match MemberOffset(ms, key)
            case None => Scan(s, key, root, p + |MembersText(ms)|, 1)
            case Some(o) => Some(p + o)
    decreases ms
  {
    hide At, Scan, NamePosition, TrimBack, IsSpace, IsBody;
    if ms.Member? {
      MemberParts(s, p, ms);
      ScanRootName(s, key, root, p, ms);
      if !Names(ms, key) {
        ScanOtherMember(s, key, root, p + |ms.before| + |Quoted(ms.name)|, ms);
        var e := p + |MemberText(ms)|;
        if ms.others.Member? {
          AtHead(s, e, ",", MembersText(ms.others));
          ScanPlain(s, key, root, e, 1, ",");
          NameAfterComma(s, root, e);
          ScanRootMembers(s, key, root, e + 1, ms.others);
        }
      }
    }
  }

  /** The name of a root member either ends the search or is passed over. */
  lemma ScanRootName(s: string, key: string, root: nat, p: nat, ms: Members)
    requires ms.Member? && ValidMembers(ms) && root < p
    requires At(s, p, ms.before) && At(s, p + |ms.before|, Quoted(ms.name))
    requires var c := p + |ms.before| + |Quoted(ms.name)|;
             At(s, c, ms.preColon) && At(s, c + |ms.preColon|, ":") && At(s, c + |ms.preColon| + 1, ms.postColon) &&
             At(s, c + |ms.preColon| + 1 + |ms.postColon|, Text(ms.value))
    requires NamePosition(s, root, p) && !IsSpace(s[TrimBack(s, root, p) - 1])
    ensures var c := p + |ms.before| + |Quoted(ms.name)|;
            Scan(s, key, root, p, 1) ==
            if Names(ms, key) then Some(c + |ms.preColon| + 1 + |ms.postColon|) else Scan(s, key, root, c, 1)
  {
    var n := p + |ms.before|;
    ScanPlain(s, key, root, p, 1, ms.before);
    NamePositionAfterBlank(s, root, p, ms.before);
    ScanQuoted(s, key, root, n, 1, ms.name);
    if Names(ms, key) {
      ColonThenValue(s, n + 1 + |ms.name|, ms);
    }
  }

  lemma ColonThenValue(s: string, end: nat, ms: Members)
    requires ms.Member? && ValidMembers(ms) && end < |s|
    requires At(s, end + 1, ms.preColon) && At(s, end + 1 + |ms.preColon|, ":")
    requires var q := end + 2 + |ms.preColon|; At(s, q, ms.postColon) && At(s, q + |ms.postColon|, Text(ms.value))
    ensures AfterColon(s, end) == Some(end + 2 + |ms.preColon| + |ms.postColon|)
  {
    var colon := end + 1 + |ms.preColon|;
    var q := colon + 1 + |ms.postColon|;
    TextStart(ms.value);
    assert s[colon + 0] == ":"[0];
    assert s[q + 0] == Text(ms.value)[0];
    SkipSpaceStops(s, end + 1, ms.preColon);
    SkipSpaceStops(s, colon + 1, ms.postColon);
  }

  /** A root member that is not the one looked for is passed over from its name's end to its own end. */
  lemma ScanOtherMember(s: string, key: string, root: nat, c: nat, ms: Members)
    requires ms.Member? && Valid(ms.value) && IsBlank(ms.preColon) && IsBlank(ms.postColon) && IsBlank(ms.after)
    requires root < c && At(s, c, ms.preColon + ":" + ms.postColon) && At(s, c + |ms.preColon| + 1, ms.postColon)
    requires At(s, c + |ms.preColon|, ":")
    requires var q := c + |ms.preColon| + 1 + |ms.postColon|;
             At(s, q, Text(ms.value)) && At(s, q + |Text(ms.value)|, ms.after)
    ensures Scan(s, key, root, c, 1) ==
            Scan(s, key, root, c + |ms.preColon| + 1 + |ms.postColon| + |Text(ms.value)| + |ms.after|, 1)
  {
    var q := c + |ms.preColon| + 1 + |ms.postColon|;
    ScanPlain(s, key, root, c, 1, ms.preColon + ":" + ms.postColon);
    assert s[c + |ms.preColon| + 0] == ":"[0];
    TrimBackOver(s, root, c + |ms.preColon| + 1, ms.postColon);
    ScanValue(s, key, root, q, 1, ms.value);
    ScanPlain(s, key, root, q + |Text(ms.value)|, 1, ms.after);
  }

  lemma {:induction false} NamePositionAfterBlank(s: string, root: nat, p: nat, b: string)
    requires At(s, p, b) && IsBlank(b) && root < p
    requires NamePosition(s, root, p)
    ensures NamePosition(s, root, p + |b|) && TrimBack(s, root, p + |b|) == TrimBack(s, root, p)
    decreases |b|
  {
    if b != [] {
      var n := |b| - 1;
      assert b[n] == s[p + n];
      AtSplit(s, p, b[..n], b[n..]) by { assert b == b[..n] + b[n..]; }
      NamePositionAfterBlank(s, root, p, b[..n]);
    }
  }

  lemma RootParts(lead: string, blank: string, ms: Members, trail: string)
    ensures var s := RootText(lead, blank, ms, trail);
            var p := |lead| + 1 + |blank|;
            At(s, 0, lead) && At(s, |lead|, "{") && At(s, |lead| + 1, blank) &&
            At(s, p, MembersText(ms)) && At(s, p + |MembersText(ms)|, "}")
  {
    hide At;
    var s := RootText(lead, blank, ms, trail);
    var inner := MembersText(ms);
    var t := Text(Obj(blank, ms));
    AtPrefix(lead, t + trail) by { assert s == lead + (t + trail); }
    assert s == lead + (t + trail);
    AtWhole(lead, t, trail);
    AtSplit3(s, |lead|, "{" + blank, inner, "}");
    AtSplit(s, |lead|, "{", blank);
  }

  /** For every well-formed object text and every key, whatever the nesting, the whitespace and
      the braces or quotes inside strings. */
  lemma FindsRootMember(lead: string, blank: string, ms: Members, trail: string, key: string)
    requires IsRootObject(lead, blank, ms, trail)
    ensures ValueStart(RootText(lead, blank, ms, trail), key) == RootMember(lead, blank, ms, key)
  {
    RootParts(lead, blank, ms, trail);
    FindsInParts(RootText(lead, blank, ms, trail), lead, blank, ms, key);
  }

  lemma FindsInParts(s: string, lead: string, blank: string, ms: Members, key: string)
    requires IsBlank(lead) && IsBlank(blank) && ValidMembers(ms)
    requires At(s, 0, lead) && At(s, |lead|, "{") && At(s, |lead| + 1, blank)
    requires var p := |lead| + 1 + |blank|; At(s, p, MembersText(ms)) && At(s, p + |MembersText(ms)|, "}")
    ensures ValueStart(s, key) == RootMember(lead, blank, ms, key)
  {
    var inner := MembersText(ms);
    assert "{"[0] == s[|lead| + 0];
    assert "}"[0] == s[|lead| + 1 + |blank| + |inner| + 0];
    hide Scan, SkipSpace, NamePosition, MembersText, MemberOffset, ValidMembers, StringEnd;
    SkipSpaceStops(s, 0, lead);
    ScanPlain(s, key, |lead|, |lead| + 1, 1, blank);
    NamePositionAfterBlank(s, |lead|, |lead| + 1, blank);
    ScanRootMembers(s, key, |lead|, |lead| + 1 + |blank|, ms);
  }

  /** The offset found is that of the member's own value. */
  lemma {:induction false} MemberValueAt(s: string, p: nat, ms: Members, key: string)
    requires At(s, p, MembersText(ms))
    ensures MemberOffset(ms, key).Some? <==> MemberValue(ms, key).Some?
    ensures MemberOffset(ms, key).Some? ==>
              At(s, p + MemberOffset(ms, key).value, Text(MemberValue(ms, key).value))
    decreases ms
  {
    hide At;
    if ms.Member? {
      MemberParts(s, p, ms);
      if !Names(ms, key) && ms.others.Member? {
        AtSplit(s, p + |MemberText(ms)|, ",", MembersText(ms.others));
        MemberValueAt(s, p + |MemberText(ms)| + 1, ms.others, key);
      }
    }
  }

  /** The scan for `key` finds the value `v`, followed by whitespace and then a separator or the
      closing brace; or there is none and it finds nothing. */
  predicate Finds(s: string, key: string, v: Option<Value>) {
    var start := ValueStart(s, key);
    match v
    case None => start == None
    case Some(v) => Valid(v) && start.Some? && At(s, start.value, Text(v)) && Ended(s, start.value + |Text(v)|)
  }

  /** The two facts together, for the whole text. */
  lemma FindsRootValue(lead: string, blank: string, ms: Members, trail: string, key: string)
    requires IsRootObject(lead, blank, ms, trail)
    ensures Finds(RootText(lead, blank, ms, trail), key, MemberValue(ms, key))
  {
    RootParts(lead, blank, ms, trail);
    FindsValueInParts(RootText(lead, blank, ms, trail), lead, blank, ms, key);
  }

  lemma FindsValueInParts(s: string, lead: string, blank: string, ms: Members, key: string)
    requires IsBlank(lead) && IsBlank(blank) && ValidMembers(ms)
    requires At(s, 0, lead) && At(s, |lead|, "{") && At(s, |lead| + 1, blank)
    requires var p := |lead| + 1 + |blank|; At(s, p, MembersText(ms)) && At(s, p + |MembersText(ms)|, "}")
    ensures Finds(s, key, MemberValue(ms, key))
  {
    FindsInParts(s, lead, blank, ms, key);
    ValueInParts(s, |lead| + 1 + |blank|, ms, key);
  }

  lemma ValueInParts(s: string, p: nat, ms: Members, key: string)
    requires ValidMembers(ms) && At(s, p, MembersText(ms)) && At(s, p + |MembersText(ms)|, "}")
    ensures match MemberValue(ms, key)
            case None => MemberOffset(ms, key) == None
            case Some(v) =>
              MemberOffset(ms, key).Some? && Valid(v) && At(s, p + MemberOffset(ms, key).value, Text(v)) &&
              Ended(s, p + MemberOffset(ms, key).value + |Text(v)|)
  {
    MemberValueAt(s, p, ms, key);
    assert "}"[0] == s[p + |MembersText(ms)| + 0];
    MemberEnded(s, p, ms, key);
  }

  /** From `i` on there is only whitespace up to a separator or a closing brace. */
  predicate Ended(s: string, i: nat) {
    i <= |s| && var d := SkipSpace(s, i); d < |s| && (s[d] == ',' || s[d] == '}')
  }

  lemma {:induction false} MemberEnded(s: string, p: nat, ms: Members, key: string)
    requires At(s, p, MembersText(ms)) && ValidMembers(ms)
    requires p + |MembersText(ms)| < |s| && s[p + |MembersText(ms)|] == '}'
    ensures MemberOffset(ms, key).Some? ==>
              MemberValue(ms, key).Some? && Valid(MemberValue(ms, key).value) &&
              Ended(s, p + MemberOffset(ms, key).value + |Text(MemberValue(ms, key).value)|)
    decreases ms
  {
    hide At;
    if ms.Member? {
      MemberParts(s, p, ms);
      var e := p + |MemberText(ms)|;
      if ms.others.Member? {
        AtHead(s, e, ",", MembersText(ms.others));
      }
      if Names(ms, key) {
        SkipSpaceStops(s, e - |ms.after|, ms.after);
      } else if ms.others.Member? {
        MemberEnded(s, e + 1, ms.others, key);
      }
    }
  }
}
