/** The control messages of src/net/Protocol.cpp: which payloads are control messages, how a
    receiver message is read, and what the sender's own messages read back as. */
module ControlProtocol {
  import opened Sequences
  import opened Wrappers
  import opened JsonGrammar
  import opened FieldScanner
  import opened NumberFields

  // ----- Which payloads are control messages -----

  /** Below 32 KiB, opened by a brace, free of NUL. */
  predicate IsControl(payload: string) {
    0 < |payload| < 32768 && payload[0] == '{' && forall i :: 0 <= i < |payload| ==> payload[i] as int != 0
  }

  method IsControlPayload(data: string) returns (r: bool)
    ensures r <==> IsControl(data)
  {
    if |data| == 0 || |data| >= 32768 {
      return false;
    }
    if data[0] != '{' {
      return false;
    }
    var i := 0;
    while i < |data|
      invariant 0 <= i <= |data|
      invariant forall k :: 0 <= k < i ==> data[k] as int != 0
    {
      if data[i] as int == 0 {
        return false;
      }
      i := i + 1;
    }
    return true;
  }

  // ----- The fields of a text -----

  /** Up to the first quote, as std::string_view::find sees it. */
  function UpToQuote(s: string): (r: string)
    ensures |r| <= |s|
  {
    if s == [] || s[0] == '"' then [] else [s[0]] + UpToQuote(s[1..])
  }

  function StringField(s: string, key: string): Option<string> {
    match ValueStart(s, key)
    case None => None
    case Some(start) =>
      if start >= |s| || s[start] != '"' then None
      else
        var body := UpToQuote(s[start + 1..]);
        if start + 1 + |body| == |s| then None else Some(body)
  }

  lemma {:induction false} UpToQuoteEnds(s: string)
    ensures UpToQuote(s) == s[..|UpToQuote(s)|] && '"' !in UpToQuote(s)
    ensures |UpToQuote(s)| < |s| ==> s[|UpToQuote(s)|] == '"'
    decreases |s|
  {
    if s != [] && s[0] != '"' { UpToQuoteEnds(s[1..]); }
  }

  /** Any text at all: a string field is what stands between a quote at the value and the next one. */
  lemma StringFieldExactly(s: string, key: string, body: string)
    ensures StringField(s, key) == Some(body) <==>
            && ValueStart(s, key).Some?
            && var start := ValueStart(s, key).value;
               && start + 1 + |body| < |s| && s[start] == '"' && s[start + 1 + |body|] == '"'
               && s[start + 1..start + 1 + |body|] == body && '"' !in body
  {
    hide ValueStart;
    if ValueStart(s, key).Some? {
      var start := ValueStart(s, key).value;
      if start < |s| {
        var rest := s[start + 1..];
        UpToQuoteEnds(rest);
        var n := |UpToQuote(rest)|;
        hide UpToQuote;
        assert rest[..n] == s[start + 1..start + 1 + n];
        if start + 1 + |body| < |s| && s[start + 1 + |body|] == '"' && s[start + 1..start + 1 + |body|] == body && '"' !in body {
          FirstQuote(rest, n, |body|);
        }
      }
    }
  }

  lemma FirstQuote(s: string, n: nat, m: nat)
    requires n <= |s| && '"' !in s[..n] && (n < |s| ==> s[n] == '"')
    requires m < |s| && '"' !in s[..m] && s[m] == '"'
    ensures n == m
  {
    assert forall k :: 0 <= k < n ==> s[k] == s[..n][k];
    assert forall k :: 0 <= k < m ==> s[k] == s[..m][k];
  }

  function BoolField(s: string, key: string): Option<bool> {
    match ValueStart(s, key)
    case None => None
    case Some(start) => if "true" <= s[start..] then Some(true) else if "false" <= s[start..] then Some(false) else None
  }

  const INT_MIN := -0x8000_0000
  const INT_MAX := 0x7FFF_FFFF

  function NumberToInt(value: Option<real>, fallback: int): int {
    if value.None? || value.value < INT_MIN as real || value.value > INT_MAX as real ||
       value.value.Floor as real != value.value
    then fallback
    else value.value.Floor
  }

  // ----- Messages -----

  datatype TouchPhase = Began | Moved | Ended | Cancelled | UnknownTouch
  datatype PencilPhase = Hover | Down | Move | Up | UnknownPencil

  datatype ControlMessage =
    | Hello(pixelsWide: int, pixelsHigh: int, scale: int, device: string, id: string, pv: int)
    | Ping(t: string)
    | Touch(touchPhase: TouchPhase, x: real, y: real)
    | Scroll(dx: real, dy: real)
    | Pencil(pencilPhase: PencilPhase, px: real, py: real, pressure: real, azimuth: real, altitude: real)
    | Proximity(entering: bool, qx: real, qy: real)
    | Kf
    | Stats(json: string)
    | Sleeping
    | Closing
    | Unknown

  const UPRIGHT := 1.5707963267948966

  function ParseTouchPhase(phase: string): TouchPhase {
    if phase == "began" then Began else if phase == "moved" then Moved
    else if phase == "ended" then TouchPhase.Ended else if phase == "cancelled" then Cancelled else UnknownTouch
  }

  function ParsePencilPhase(phase: string): PencilPhase {
    if phase == "hover" then Hover else if phase == "down" then Down
    else if phase == "move" then Move else if phase == "up" then Up else UnknownPencil
  }

  function OrElse<T>(value: Option<T>, fallback: T): T {
    match value case None => fallback case Some(v) => v
  }

  /** The four ways in which the parser looks at a text. */
  datatype Fields = Fields(text: string -> Option<string>, number: string -> Option<real>,
                           token: string -> Option<string>, flag: string -> Option<bool>)

  function MessageOf(f: Fields, json: string): Option<ControlMessage> {
    match f.text("type")
    case None => None
    case Some(kind) => Some(
      if kind == "hello" then
        Hello(NumberToInt(f.number("pixelsWide"), 0), NumberToInt(f.number("pixelsHigh"), 0),
              NumberToInt(f.number("scale"), 1), OrElse(f.text("device"), ""), OrElse(f.text("id"), ""),
              NumberToInt(f.number("pv"), 1))
      else if kind == "ping" then Ping(OrElse(f.token("t"), ""))
      else if kind == "touch" then
        Touch(ParseTouchPhase(OrElse(f.text("phase"), "")), OrElse(f.number("x"), 0.0), OrElse(f.number("y"), 0.0))
      else if kind == "scroll" then Scroll(OrElse(f.number("dx"), 0.0), OrElse(f.number("dy"), 0.0))
      else if kind == "pencil" then
        Pencil(ParsePencilPhase(OrElse(f.text("phase"), "")), OrElse(f.number("x"), 0.0), OrElse(f.number("y"), 0.0),
               OrElse(f.number("pressure"), 0.0), OrElse(f.number("azimuth"), 0.0),
               OrElse(f.number("altitude"), UPRIGHT))
      else if kind == "proximity" then
        Proximity(OrElse(f.flag("entering"), false), OrElse(f.number("x"), 0.0), OrElse(f.number("y"), 0.0))
      else if kind == "kf" then Kf
      else if kind == "stats" then Stats(json)
      else if kind == "sleeping" then Sleeping
      else if kind == "closing" then ControlMessage.Closing
      else Unknown)
  }

  function ScannedFields(json: string, toDouble: Conversion): Fields {
    Fields(k => StringField(json, k), k => NumberField(json, k, toDouble),
           k => NumberToken(json, k, toDouble), k => BoolField(json, k))
  }

  function ParseControlMessage(json: string, toDouble: Conversion): Option<ControlMessage> {
    MessageOf(ScannedFields(json, toDouble), json)
  }

  predicate HelloMatchesExpectedDevice(hello: ControlMessage, expectedId: string)
    requires hello.Hello?
  {
    expectedId == "" || (hello.id != "" && hello.id == expectedId)
  }

  // ----- What the parser reads from a well-formed object text: root members only -----

  /** A string member gives its raw body up to the first quote character in it. */
  function TreeText(ms: Members, key: string): Option<string> {
    match MemberValue(ms, key)
    case Some(Str(body)) => Some(UpToQuote(body))
    case _ => None
  }

  function TreeToken(ms: Members, key: string, toDouble: Conversion): Option<string> {
    match MemberValue(ms, key)
    case Some(Num(n)) => if toDouble(NumberText(n)).Some? then Some(NumberText(n)) else None
    case _ => None
  }

  function TreeNumber(ms: Members, key: string, toDouble: Conversion): Option<real> {
    match MemberValue(ms, key)
    case Some(Num(n)) => toDouble(NumberText(n))
    case _ => None
  }

  function TreeFlag(ms: Members, key: string): Option<bool> {
    match MemberValue(ms, key)
    case Some(Bool(b)) => Some(b)
    case _ => None
  }

  function TreeFields(ms: Members, toDouble: Conversion): Fields {
    Fields(k => TreeText(ms, k), k => TreeNumber(ms, k, toDouble),
           k => TreeToken(ms, k, toDouble), k => TreeFlag(ms, k))
  }

  lemma {:induction false} UpToQuoteOver(body: string, rest: string)
    ensures UpToQuote(body + "\"" + rest) == UpToQuote(body)
    decreases |body|
  {
    var s := body + "\"" + rest;
    if body != [] && body[0] != '"' {
      assert s[1..] == body[1..] + "\"" + rest;
      UpToQuoteOver(body[1..], rest);
    }
  }

  lemma TextFieldFromTree(s: string, key: string, ms: Members)
    requires Finds(s, key, MemberValue(ms, key))
    ensures StringField(s, key) == TreeText(ms, key)
  {
    match MemberValue(ms, key)
    case None =>
    case Some(v) =>
      var start := ValueStart(s, key).value;
      TextStart(v);
      assert s[start + 0] == Text(v)[0];
      if v.Str? {
        var rest := s[start + |Text(v)|..];
        AtSlice(s, start, Text(v));
        assert s[start + 1..] == v.body + "\"" + rest by {
          assert s[start..] == s[start..start + |Text(v)|] + rest;
          assert s[start + 1..] == s[start..][1..];
        }
        UpToQuoteOver(v.body, rest);
      }
  }

  lemma NumberFieldFromTree(s: string, key: string, ms: Members, toDouble: Conversion)
    requires Finds(s, key, MemberValue(ms, key))
    ensures NumberField(s, key, toDouble) == TreeNumber(ms, key, toDouble)
    ensures NumberToken(s, key, toDouble) == TreeToken(ms, key, toDouble)
  {
    match MemberValue(ms, key)
    case None =>
    case Some(v) =>
      var start := ValueStart(s, key).value;
      if v.Num? {
        ReadsNumber(s, start, v.n, toDouble);
        AtSlice(s, start, NumberText(v.n));
      } else {
        NoNumberHere(s, start, v);
      }
  }

  /** No other value begins like a number. */
  lemma NoNumberHere(s: string, start: nat, v: Value)
    requires Valid(v) && !v.Num? && At(s, start, Text(v))
    ensures NumberEnd(s, start) == None
  {
    TextStart(v);
    assert s[start + 0] == Text(v)[0];
    assert !IsDigit(Text(v)[0]) && Text(v)[0] != '-';
  }

  lemma FlagFieldFromTree(s: string, key: string, ms: Members)
    requires Finds(s, key, MemberValue(ms, key))
    ensures BoolField(s, key) == TreeFlag(ms, key)
  {
    match MemberValue(ms, key)
    case None =>
    case Some(v) =>
      var start := ValueStart(s, key).value;
      TextStart(v);
      assert s[start..][0] == s[start + 0] == Text(v)[0];
      if v.Bool? {
        AtSlice(s, start, Text(v));
        assert s[start..][..|Text(v)|] == Text(v);
      } else {
        assert Text(v)[0] != 't' && Text(v)[0] != 'f' by {
          if v.Num? { NumberCharacters(v.n); }
        }
      }
  }

  /** The parser sees exactly the root members: whatever is nested, escaped or quoted inside the
      values, the message is the one the tree's own members give. */
  lemma ReadsRootMembersOnly(lead: string, blank: string, ms: Members, trail: string, toDouble: Conversion)
    requires IsRootObject(lead, blank, ms, trail)
    ensures var json := RootText(lead, blank, ms, trail);
            ParseControlMessage(json, toDouble) == MessageOf(TreeFields(ms, toDouble), json)
  {
    var json := RootText(lead, blank, ms, trail);
    forall k: string
      ensures StringField(json, k) == TreeText(ms, k)
      ensures NumberField(json, k, toDouble) == TreeNumber(ms, k, toDouble)
      ensures NumberToken(json, k, toDouble) == TreeToken(ms, k, toDouble)
      ensures BoolField(json, k) == TreeFlag(ms, k)
    {
      FindsRootValue(lead, blank, ms, trail, k);
      hide *;
      TextFieldFromTree(json, k, ms);
      NumberFieldFromTree(json, k, ms, toDouble);
      FlagFieldFromTree(json, k, ms);
    }
    SameFieldsSameMessage(ScannedFields(json, toDouble), TreeFields(ms, toDouble), json);
  }

  lemma SameFieldsSameMessage(f: Fields, g: Fields, json: string)
    requires forall k: string :: f.text(k) == g.text(k)
    requires forall k: string :: f.number(k) == g.number(k)
    requires forall k: string :: f.token(k) == g.token(k)
    requires forall k: string :: f.flag(k) == g.flag(k)
    ensures MessageOf(f, json) == MessageOf(g, json)
  {
  }
}
