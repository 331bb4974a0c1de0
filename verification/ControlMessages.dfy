/** Which member of a receiver's message each field of the parsed message comes from: an exact
    description of what is read from any well-formed object, and every message written as one is read back. */
module ControlMessages {
  import opened Wrappers
  import opened JsonGrammar
  import opened FieldScanner
  import opened NumberFields
  import opened ControlProtocol
  import opened Decimals

  // ----- What one root member says -----

  /** The string under `key`, up to the first quote character in its raw text; "" if there is none. */
  predicate TextIs(ms: Members, key: string, text: string) {
    text == match MemberValue(ms, key) case Some(Str(body)) => UpToQuote(body) case _ => ""
  }

  /** The double under `key`, or `fallback` without a number that converts. */
  predicate RealIs(ms: Members, key: string, x: real, fallback: real, toDouble: Conversion) {
    match MemberValue(ms, key)
    case Some(Num(n)) => x == (if toDouble(NumberText(n)).Some? then toDouble(NumberText(n)).value else fallback)
    case _ => x == fallback
  }

  predicate FitsInt(x: real, n: int) {
    x == n as real && -2147483648 <= n <= 2147483647
  }

  /** The number under `key` if it is a whole one of 32 bits, and else `fallback`. */
  predicate IntIs(ms: Members, key: string, n: int, fallback: int, toDouble: Conversion) {
    match MemberValue(ms, key)
    case Some(Num(token)) =>
      (match toDouble(NumberText(token))
       case Some(x) => if FitsInt(x, x.Floor) then FitsInt(x, n) else n == fallback
       case None => n == fallback)
    case _ => n == fallback
  }

  /** The number under `key` as it is spelt, or "" if it is none or does not convert. */
  predicate TokenIs(ms: Members, key: string, t: string, toDouble: Conversion) {
    match MemberValue(ms, key)
    case Some(Num(n)) => t == (if toDouble(NumberText(n)).Some? then NumberText(n) else "")
    case _ => t == ""
  }

  predicate FlagIs(ms: Members, key: string, b: bool) {
    b <==> MemberValue(ms, key) == Some(Bool(true))
  }

  // ----- The words -----

  function TouchWord(p: TouchPhase): string
    requires p != UnknownTouch
  {
    match p case Began => "began" case Moved => "moved" case Ended => "ended" case Cancelled => "cancelled"
  }

  function PencilWord(p: PencilPhase): string
    requires p != UnknownPencil
  {
    match p case Hover => "hover" case Down => "down" case Move => "move" case Up => "up"
  }

  const TOUCH_WORDS := {"began", "moved", "ended", "cancelled"}
  const PENCIL_WORDS := {"hover", "down", "move", "up"}

  predicate TouchPhaseIs(word: string, p: TouchPhase) {
    if p == UnknownTouch then word !in TOUCH_WORDS else word == TouchWord(p)
  }

  predicate PencilPhaseIs(word: string, p: PencilPhase) {
    if p == UnknownPencil then word !in PENCIL_WORDS else word == PencilWord(p)
  }

  function Kind(m: ControlMessage): string
    requires !m.Unknown?
  {
    match m
    case Hello(_, _, _, _, _, _) => "hello"
    case Ping(_) => "ping"
    case Touch(_, _, _) => "touch"
    case Scroll(_, _) => "scroll"
    case Pencil(_, _, _, _, _, _) => "pencil"
    case Proximity(_, _, _) => "proximity"
    case Kf => "kf"
    case Stats(_) => "stats"
    case Sleeping => "sleeping"
    case Closing => "closing"
  }

  const KINDS := {"hello", "ping", "touch", "scroll", "pencil", "proximity", "kf", "stats", "sleeping", "closing"}

  predicate KindIs(word: string, m: ControlMessage) {
    if m.Unknown? then word !in KINDS else word == Kind(m)
  }

  // ----- What a message says -----

  function Phase(ms: Members): (word: string)
    ensures TextIs(ms, "phase", word)
  {
    match MemberValue(ms, "phase") case Some(Str(body)) => UpToQuote(body) case _ => ""
  }

  /** Each field is what the member of its name says. */
  predicate FieldsAre(ms: Members, m: ControlMessage, json: string, toDouble: Conversion) {
    match m
    case Hello(wide, high, scale, device, id, pv) =>
      && IntIs(ms, "pixelsWide", wide, 0, toDouble) && IntIs(ms, "pixelsHigh", high, 0, toDouble)
      && IntIs(ms, "scale", scale, 1, toDouble) && IntIs(ms, "pv", pv, 1, toDouble)
      && TextIs(ms, "device", device) && TextIs(ms, "id", id)
    case Ping(t) => TokenIs(ms, "t", t, toDouble)
    case Touch(phase, x, y) =>
      && TouchPhaseIs(Phase(ms), phase)
      && RealIs(ms, "x", x, 0.0, toDouble) && RealIs(ms, "y", y, 0.0, toDouble)
    case Scroll(dx, dy) => RealIs(ms, "dx", dx, 0.0, toDouble) && RealIs(ms, "dy", dy, 0.0, toDouble)
    case Pencil(phase, x, y, pressure, azimuth, altitude) =>
      && PencilPhaseIs(Phase(ms), phase)
      && RealIs(ms, "x", x, 0.0, toDouble) && RealIs(ms, "y", y, 0.0, toDouble)
      && RealIs(ms, "pressure", pressure, 0.0, toDouble) && RealIs(ms, "azimuth", azimuth, 0.0, toDouble)
      && RealIs(ms, "altitude", altitude, 1.5707963267948966, toDouble)
    case Proximity(entering, x, y) =>
      && FlagIs(ms, "entering", entering)
      && RealIs(ms, "x", x, 0.0, toDouble) && RealIs(ms, "y", y, 0.0, toDouble)
    case Stats(text) => text == json
    case _ => true
  }

  predicate IsMessage(ms: Members, m: ControlMessage, json: string, toDouble: Conversion) {
    match MemberValue(ms, "type")
    case Some(Str(body)) => KindIs(UpToQuote(body), m) && FieldsAre(ms, m, json, toDouble)
    case _ => false
  }

  // ----- Field by field -----

  lemma IntOf(ms: Members, key: string, n: int, fallback: int, toDouble: Conversion)
    ensures IntIs(ms, key, n, fallback, toDouble) <==> NumberToInt(TreeNumber(ms, key, toDouble), fallback) == n
  {
    var value := TreeNumber(ms, key, toDouble);
    if value.Some? {
      var x := value.value;
      if n as real == x { assert x.Floor == n; }
      if x.Floor as real == x { Whole(x); }
    }
  }

  /** The range of the doubles and that of the whole numbers. */
  lemma Whole(x: real)
    requires x.Floor as real == x
    ensures -2147483648 <= x.Floor <= 2147483647 <==> INT_MIN as real <= x <= INT_MAX as real
  {
  }

  lemma RealOf(ms: Members, key: string, x: real, fallback: real, toDouble: Conversion)
    ensures RealIs(ms, key, x, fallback, toDouble) <==> OrElse(TreeNumber(ms, key, toDouble), fallback) == x
  {
  }

  lemma TextOf(ms: Members, key: string, text: string)
    ensures TextIs(ms, key, text) <==> OrElse(TreeText(ms, key), "") == text
  {
  }

  lemma TouchPhaseOf(word: string, p: TouchPhase)
    ensures TouchPhaseIs(word, p) <==> ParseTouchPhase(word) == p
  {
    assert "began"[0] != "moved"[0] && "began"[0] != "ended"[0] && "moved"[0] != "ended"[0];
  }

  lemma PencilPhaseOf(word: string, p: PencilPhase)
    ensures PencilPhaseIs(word, p) <==> ParsePencilPhase(word) == p
  {
    assert "down"[0] != "move"[0];
  }

  // ----- The kinds -----

  /** The ten words differ by their lengths or their first two characters. */
  lemma KindsDiffer(m: ControlMessage, n: ControlMessage)
    requires !m.Unknown? && !n.Unknown? && Kind(m) == Kind(n)
    ensures m.Hello? == n.Hello? && m.Ping? == n.Ping? && m.Touch? == n.Touch? && m.Scroll? == n.Scroll?
    ensures m.Pencil? == n.Pencil? && m.Proximity? == n.Proximity? && m.Kf? == n.Kf? && m.Stats? == n.Stats?
    ensures m.Sleeping? == n.Sleeping? && m.Closing? == n.Closing?
  {
    assert Kind(m)[0] == Kind(n)[0] && Kind(m)[1] == Kind(n)[1];
  }

  lemma KindOfResult(f: ControlProtocol.Fields, json: string, word: string)
    requires f.text("type") == Some(word)
    ensures MessageOf(f, json).Some? && KindIs(word, MessageOf(f, json).value)
  {
  }

  // ----- All messages -----

  predicate Reads(ms: Members, m: ControlMessage, json: string, toDouble: Conversion) {
    MessageOf(TreeFields(ms, toDouble), json) == Some(m)
  }

  lemma HelloIff(ms: Members, m: ControlMessage, json: string, toDouble: Conversion)
    requires m.Hello? && TreeText(ms, "type") == Some("hello")
    ensures Reads(ms, m, json, toDouble) <==> FieldsAre(ms, m, json, toDouble)
  {
    IntOf(ms, "pixelsWide", m.pixelsWide, 0, toDouble);
    IntOf(ms, "pixelsHigh", m.pixelsHigh, 0, toDouble);
    IntOf(ms, "scale", m.scale, 1, toDouble);
    IntOf(ms, "pv", m.pv, 1, toDouble);
    TextOf(ms, "device", m.device);
    TextOf(ms, "id", m.id);
    hide IntIs, TextIs, NumberToInt, TreeNumber, OrElse;
  }

  lemma PhaseIs(ms: Members)
    ensures OrElse(TreeText(ms, "phase"), "") == Phase(ms)
  {
  }

  lemma TouchIff(ms: Members, m: ControlMessage, json: string, toDouble: Conversion)
    requires m.Touch? && TreeText(ms, "type") == Some("touch")
    ensures Reads(ms, m, json, toDouble) <==> FieldsAre(ms, m, json, toDouble)
  {
    PhaseIs(ms);
    TouchPhaseOf(Phase(ms), m.touchPhase);
    RealOf(ms, "x", m.x, 0.0, toDouble);
    RealOf(ms, "y", m.y, 0.0, toDouble);
    hide RealIs, Phase, TreeNumber, OrElse, TouchPhaseIs, ParseTouchPhase;
    assert "touch"[0] != "hello"[0];
  }

  lemma ScrollIff(ms: Members, m: ControlMessage, json: string, toDouble: Conversion)
    requires m.Scroll? && TreeText(ms, "type") == Some("scroll")
    ensures Reads(ms, m, json, toDouble) <==> FieldsAre(ms, m, json, toDouble)
  {
    RealOf(ms, "dx", m.dx, 0.0, toDouble);
    RealOf(ms, "dy", m.dy, 0.0, toDouble);
    hide RealIs, TreeNumber, OrElse;
  }

  lemma PencilIff(ms: Members, m: ControlMessage, json: string, toDouble: Conversion)
    requires m.Pencil? && TreeText(ms, "type") == Some("pencil")
    ensures Reads(ms, m, json, toDouble) <==> FieldsAre(ms, m, json, toDouble)
  {
    PhaseIs(ms);
    PencilPhaseOf(Phase(ms), m.pencilPhase);
    RealOf(ms, "x", m.px, 0.0, toDouble);
    RealOf(ms, "y", m.py, 0.0, toDouble);
    RealOf(ms, "pressure", m.pressure, 0.0, toDouble);
    RealOf(ms, "azimuth", m.azimuth, 0.0, toDouble);
    RealOf(ms, "altitude", m.altitude, UPRIGHT, toDouble);
    hide RealIs, Phase, TreeNumber, OrElse, PencilPhaseIs, ParsePencilPhase;
    assert "pencil"[0] != "scroll"[0];
  }

  lemma ProximityIff(ms: Members, m: ControlMessage, json: string, toDouble: Conversion)
    requires m.Proximity? && TreeText(ms, "type") == Some("proximity")
    ensures Reads(ms, m, json, toDouble) <==> FieldsAre(ms, m, json, toDouble)
  {
    RealOf(ms, "x", m.qx, 0.0, toDouble);
    RealOf(ms, "y", m.qy, 0.0, toDouble);
    assert FlagIs(ms, "entering", m.entering) <==> OrElse(TreeFlag(ms, "entering"), false) == m.entering;
    hide RealIs, FlagIs, TreeNumber, TreeFlag, OrElse;
  }

  lemma PingIff(ms: Members, m: ControlMessage, json: string, toDouble: Conversion)
    requires m.Ping? && TreeText(ms, "type") == Some("ping")
    ensures Reads(ms, m, json, toDouble) <==> FieldsAre(ms, m, json, toDouble)
  {
    assert TokenIs(ms, "t", m.t, toDouble) <==> OrElse(TreeToken(ms, "t", toDouble), "") == m.t;
    hide TokenIs, TreeToken, OrElse;
  }

  lemma PlainIff(ms: Members, m: ControlMessage, json: string, toDouble: Conversion, word: string)
    requires m.Kf? || m.Stats? || m.Sleeping? || m.Closing? || m.Unknown?
    requires TreeText(ms, "type") == Some(word) && KindIs(word, m)
    ensures Reads(ms, m, json, toDouble) <==> FieldsAre(ms, m, json, toDouble)
  {
    hide OrElse, NumberToInt, ParseTouchPhase, ParsePencilPhase;
    assert "stats"[0] != "hello"[0] && "stats"[0] != "touch"[0];
  }

  lemma ReadsIff(ms: Members, m: ControlMessage, json: string, toDouble: Conversion)
    ensures Reads(ms, m, json, toDouble) <==> IsMessage(ms, m, json, toDouble)
  {
    var f := TreeFields(ms, toDouble);
    if TreeText(ms, "type").Some? {
      var word := TreeText(ms, "type").value;
      KindOfResult(f, json, word);
      if KindIs(word, m) {
        hide MessageOf, FieldsAre, KindIs;
        if m.Hello? { HelloIff(ms, m, json, toDouble); }
        else if m.Ping? { PingIff(ms, m, json, toDouble); }
        else if m.Touch? { TouchIff(ms, m, json, toDouble); }
        else if m.Scroll? { ScrollIff(ms, m, json, toDouble); }
        else if m.Pencil? { PencilIff(ms, m, json, toDouble); }
        else if m.Proximity? { ProximityIff(ms, m, json, toDouble); }
        else { PlainIff(ms, m, json, toDouble, word); }
      }
    }
  }

  /** For every well-formed object, whatever stands around, behind and inside its members: the parsed
      message is exactly the one its root members say, each field under its own name. */
  lemma ParsesExactly(lead: string, blank: string, ms: Members, trail: string, m: ControlMessage, toDouble: Conversion)
    requires IsRootObject(lead, blank, ms, trail)
    ensures var json := RootText(lead, blank, ms, trail);
            ParseControlMessage(json, toDouble) == Some(m) <==> IsMessage(ms, m, json, toDouble)
  {
    var json := RootText(lead, blank, ms, trail);
    ReadsRootMembersOnly(lead, blank, ms, trail, toDouble);
    ReadsIff(ms, m, json, toDouble);
    hide IsMessage, MessageOf, ParseControlMessage;
  }

  /** Nothing is parsed exactly without a type, and Unknown exactly for a type that is none of the ten. */
  lemma KindsExactly(lead: string, blank: string, ms: Members, trail: string, toDouble: Conversion)
    requires IsRootObject(lead, blank, ms, trail)
    ensures var r, kind := ParseControlMessage(RootText(lead, blank, ms, trail), toDouble), MemberValue(ms, "type");
            && (r.None? <==> kind.None? || !kind.value.Str?)
            && (r == Some(Unknown) <==> kind.Some? && kind.value.Str? && UpToQuote(kind.value.body) !in KINDS)
            && (r.Some? && r.value != Unknown ==> UpToQuote(kind.value.body) == Kind(r.value))
  {
    var json := RootText(lead, blank, ms, trail);
    ReadsRootMembersOnly(lead, blank, ms, trail, toDouble);
    ReadsIff(ms, Unknown, json, toDouble);
    var f := TreeFields(ms, toDouble);
    if TreeText(ms, "type").Some? { KindOfResult(f, json, TreeText(ms, "type").value); }
    hide ParseControlMessage, Kind;
  }

  // ----- Every message, written as an object, is read back -----

  /** How the receiver spells doubles, and the token of a ping. */
  datatype Spelling = Spelling(double: real -> Number, token: string -> Number)

  function RealItem(key: string, x: real, p: Spelling): (string, Value) {
    (key, Num(p.double(x)))
  }

  function IntItem(key: string, n: int): (string, Value) {
    (key, Num(IntegerToken(n)))
  }

  /** The members of a message; the text of statistics is free, and so it has no items of its own. */
  function Items(m: ControlMessage, p: Spelling): seq<(string, Value)> {
    match m
    case Hello(wide, high, scale, device, id, pv) =>
      [("type", Str("hello")), IntItem("pixelsWide", wide), IntItem("pixelsHigh", high), IntItem("scale", scale),
       ("device", Str(device)), ("id", Str(id)), IntItem("pv", pv)]
    case Ping(t) =>
      if t == "" then [("type", Str("ping"))] else [("type", Str("ping")), ("t", Num(p.token(t)))]
    case Touch(phase, x, y) =>
      [("type", Str("touch")), ("phase", Str(if phase == UnknownTouch then "" else TouchWord(phase))),
       RealItem("x", x, p), RealItem("y", y, p)]
    case Scroll(dx, dy) => [("type", Str("scroll")), RealItem("dx", dx, p), RealItem("dy", dy, p)]
    case Pencil(phase, x, y, pressure, azimuth, altitude) =>
      [("type", Str("pencil")), ("phase", Str(if phase == UnknownPencil then "" else PencilWord(phase))),
       RealItem("x", x, p), RealItem("y", y, p), RealItem("pressure", pressure, p), RealItem("azimuth", azimuth, p),
       RealItem("altitude", altitude, p)]
    case Proximity(entering, x, y) =>
      [("type", Str("proximity")), ("entering", Bool(entering)), RealItem("x", x, p), RealItem("y", y, p)]
    case Kf => [("type", Str("kf"))]
    case Stats(_) => [("type", Str("stats"))]
    case Sleeping => [("type", Str("sleeping"))]
    case Closing => [("type", Str("closing"))]
    case Unknown => [("type", Str(""))]
  }

  function Listed(items: seq<(string, Value)>): Members {
    if items == [] then NoMember else Member("", items[0].0, "", "", items[0].1, "", Listed(items[1..]))
  }

  /** A double that is spelt as a number that converts to it. */
  predicate Spelt(x: real, p: Spelling, toDouble: Conversion) {
    ValidNumber(p.double(x)) && toDouble(NumberText(p.double(x))) == Some(x)
  }

  predicate SpeltInt(n: int, toDouble: Conversion) {
    -2147483648 <= n <= 2147483647 && toDouble(Signed(n)) == Some(n as real)
  }

  /** A string that can stand between quotes as it is. */
  predicate Unquoted(s: string) {
    IsBody(s) && '"' !in s
  }

  /** The numbers convert and the strings can be written. */
  predicate Sendable(m: ControlMessage, p: Spelling, toDouble: Conversion) {
    match m
    case Hello(wide, high, scale, device, id, pv) =>
      && SpeltInt(wide, toDouble) && SpeltInt(high, toDouble) && SpeltInt(scale, toDouble) && SpeltInt(pv, toDouble)
      && Unquoted(device) && Unquoted(id)
    case Ping(t) => t != "" ==> ValidNumber(p.token(t)) && NumberText(p.token(t)) == t && toDouble(t).Some?
    case Touch(_, x, y) => Spelt(x, p, toDouble) && Spelt(y, p, toDouble)
    case Scroll(dx, dy) => Spelt(dx, p, toDouble) && Spelt(dy, p, toDouble)
    case Pencil(_, x, y, pressure, azimuth, altitude) =>
      && Spelt(x, p, toDouble) && Spelt(y, p, toDouble) && Spelt(pressure, p, toDouble)
      && Spelt(azimuth, p, toDouble) && Spelt(altitude, p, toDouble)
    case Proximity(_, x, y) => Spelt(x, p, toDouble) && Spelt(y, p, toDouble)
    case _ => true
  }

  /** Different keys, all of them plain. */
  predicate Keyed(items: seq<(string, Value)>) {
    && (forall i :: 0 <= i < |items| ==> '\\' !in items[i].0)
    && (forall i, j :: 0 <= i < j < |items| ==> items[i].0 != items[j].0)
  }

  lemma {:induction false} ItemFound(items: seq<(string, Value)>, i: nat)
    requires Keyed(items) && i < |items|
    ensures MemberValue(Listed(items), items[i].0) == Some(items[i].1)
    decreases |items|
  {
    if i > 0 {
      ItemFound(items[1..], i - 1);
      assert !Names(Listed(items), items[i].0);
    }
  }

  lemma {:induction false} NoItem(items: seq<(string, Value)>, key: string)
    requires forall i :: 0 <= i < |items| ==> items[i].0 != key
    ensures MemberValue(Listed(items), key) == None
    decreases |items|
  {
    if items != [] { NoItem(items[1..], key); }
  }


  function Keys(m: ControlMessage): seq<string> {
    match m
    case Hello(_, _, _, _, _, _) => ["type", "pixelsWide", "pixelsHigh", "scale", "device", "id", "pv"]
    case Ping(t) => if t == "" then ["type"] else ["type", "t"]
    case Touch(_, _, _) => ["type", "phase", "x", "y"]
    case Scroll(_, _) => ["type", "dx", "dy"]
    case Pencil(_, _, _, _, _, _) => ["type", "phase", "x", "y", "pressure", "azimuth", "altitude"]
    case Proximity(_, _, _) => ["type", "entering", "x", "y"]
    case _ => ["type"]
  }

  predicate KeysDiffer(keys: seq<string>) {
    && (forall i :: 0 <= i < |keys| ==> IsPlainBody(keys[i]))
    && (forall i, j :: 0 <= i < j < |keys| ==> keys[i] != keys[j])
  }

  lemma HelloKeys()
    ensures KeysDiffer(["type", "pixelsWide", "pixelsHigh", "scale", "device", "id", "pv"])
  {
    assert "pixelsWide"[6] != "pixelsHigh"[6] && "id"[0] != "pv"[0];
  }

  lemma PencilKeys()
    ensures KeysDiffer(["type", "phase", "x", "y", "pressure", "azimuth", "altitude"])
  {
    assert "x"[0] != "y"[0] && "azimuth"[1] != "altitude"[1];
    assert "pressure"[0] != "altitude"[0];
  }

  lemma OtherKeys()
    ensures KeysDiffer(["type", "phase", "x", "y"]) && KeysDiffer(["type", "entering", "x", "y"])
    ensures KeysDiffer(["type", "dx", "dy"]) && KeysDiffer(["type", "t"]) && KeysDiffer(["type"])
  {
    assert "x"[0] != "y"[0] && "dx"[1] != "dy"[1];
  }

  lemma ItemsHaveKeys(m: ControlMessage, p: Spelling)
    ensures |Items(m, p)| == |Keys(m)| && forall i :: 0 <= i < |Keys(m)| ==> Items(m, p)[i].0 == Keys(m)[i]
  {
  }

  lemma ItemsKeyed(m: ControlMessage, p: Spelling)
    ensures Keyed(Items(m, p))
    ensures forall i :: 0 <= i < |Items(m, p)| ==> IsPlainBody(Items(m, p)[i].0)
  {
    HelloKeys();
    PencilKeys();
    OtherKeys();
    ItemsHaveKeys(m, p);
    hide KeysDiffer, Items;
    KeysGiven(Items(m, p), Keys(m));
  }

  lemma KeysGiven(items: seq<(string, Value)>, keys: seq<string>)
    requires KeysDiffer(keys) && |items| == |keys| && forall i :: 0 <= i < |keys| ==> items[i].0 == keys[i]
    ensures Keyed(items) && forall i :: 0 <= i < |items| ==> IsPlainBody(items[i].0)
  {
  }

  lemma KindValid(m: ControlMessage)
    requires !m.Unknown?
    ensures Valid(Str(Kind(m)))
  {
    assert IsPlainBody(Kind(m));
    hide IsBody;
    PlainBody(Kind(m));
  }

  lemma TouchWordValid(t: TouchPhase)
    ensures Valid(Str(if t == UnknownTouch then "" else TouchWord(t)))
  {
    var word := if t == UnknownTouch then "" else TouchWord(t);
    assert IsPlainBody(word);
    hide *;
    StrValid(word);
  }

  lemma PencilWordValid(p: PencilPhase)
    ensures Valid(Str(if p == UnknownPencil then "" else PencilWord(p)))
  {
    var word := if p == UnknownPencil then "" else PencilWord(p);
    assert IsPlainBody(word);
    hide *;
    StrValid(word);
  }

  lemma StrValid(word: string)
    requires IsPlainBody(word)
    ensures Valid(Str(word))
  {
    PlainBody(word);
  }

  predicate AllValid(items: seq<(string, Value)>) {
    forall i :: 0 <= i < |items| ==> Valid(items[i].1)
  }

  lemma HelloItemsValid(m: ControlMessage, p: Spelling, toDouble: Conversion)
    requires m.Hello? && Sendable(m, p, toDouble)
    ensures AllValid(Items(m, p))
  {
    KindValid(m);
    hide IsBody, ValidNumber, JsonGrammar.NumberText, SpeltInt;
  }

  lemma PencilItemsValid(m: ControlMessage, p: Spelling, toDouble: Conversion)
    requires m.Pencil? && Sendable(m, p, toDouble)
    ensures AllValid(Items(m, p))
  {
    KindValid(m);
    PencilWordValid(m.pencilPhase);
    hide PencilWord, IsBody, ValidNumber, JsonGrammar.NumberText;
  }

  lemma TouchItemsValid(m: ControlMessage, p: Spelling, toDouble: Conversion)
    requires m.Touch? && Sendable(m, p, toDouble)
    ensures AllValid(Items(m, p))
  {
    KindValid(m);
    TouchWordValid(m.touchPhase);
    hide TouchWord, IsBody, ValidNumber, JsonGrammar.NumberText;
  }

  lemma OtherItemsValid(m: ControlMessage, p: Spelling, toDouble: Conversion)
    requires !m.Hello? && !m.Pencil? && !m.Touch? && !m.Unknown? && Sendable(m, p, toDouble)
    ensures AllValid(Items(m, p))
  {
    KindValid(m);
    assert Items(m, p)[0] == ("type", Str(Kind(m)));
    hide IsBody, ValidNumber, JsonGrammar.NumberText, Kind;
  }

  lemma ItemsValid(m: ControlMessage, p: Spelling, toDouble: Conversion)
    requires Sendable(m, p, toDouble)
    ensures AllValid(Items(m, p))
  {
    hide Sendable, AllValid;
    if m.Hello? { HelloItemsValid(m, p, toDouble); }
    else if m.Pencil? { PencilItemsValid(m, p, toDouble); }
    else if m.Touch? { TouchItemsValid(m, p, toDouble); }
    else if !m.Unknown? { OtherItemsValid(m, p, toDouble); }
    else { NothingValid(); }
  }

  lemma NothingValid()
    ensures AllValid([("type", Str(""))])
  {
    assert IsBody("");
  }

  lemma {:induction false} UpToNoQuote(s: string)
    requires '"' !in s
    ensures UpToQuote(s) == s
    decreases |s|
  {
    if s != [] { UpToNoQuote(s[1..]); }
  }

  /** The object holds every item of the message, whatever else it holds behind them and in whatever order. */
  predicate Holds(ms: Members, items: seq<(string, Value)>) {
    forall i :: 0 <= i < |items| ==> MemberValue(ms, items[i].0) == Some(items[i].1)
  }

  /** Statistics are the text itself. */
  function Received(m: ControlMessage, json: string): ControlMessage {
    if m.Stats? then Stats(json) else m
  }

  lemma RealItemSays(ms: Members, key: string, x: real, fallback: real, p: Spelling, toDouble: Conversion)
    requires MemberValue(ms, key) == Some(Num(p.double(x))) && Spelt(x, p, toDouble)
    ensures RealIs(ms, key, x, fallback, toDouble)
  {
  }

  lemma IntItemSays(ms: Members, key: string, n: int, fallback: int, toDouble: Conversion)
    requires MemberValue(ms, key) == Some(Num(IntegerToken(n))) && SpeltInt(n, toDouble)
    ensures IntIs(ms, key, n, fallback, toDouble)
  {
    assert (n as real).Floor == n;
  }

  lemma TextItemSays(ms: Members, key: string, text: string)
    requires MemberValue(ms, key) == Some(Str(text)) && '"' !in text
    ensures TextIs(ms, key, text)
  {
    UpToNoQuote(text);
  }

  lemma HelloHolds(ms: Members, m: ControlMessage, json: string, p: Spelling, toDouble: Conversion)
    requires m.Hello? && Holds(ms, Items(m, p)) && Sendable(m, p, toDouble)
    ensures FieldsAre(ms, m, json, toDouble)
  {
    var items := Items(m, p);
    assert items[1] == IntItem("pixelsWide", m.pixelsWide) && items[2] == IntItem("pixelsHigh", m.pixelsHigh);
    assert items[3] == IntItem("scale", m.scale) && items[6] == IntItem("pv", m.pv);
    assert items[4] == ("device", Str(m.device)) && items[5] == ("id", Str(m.id));
    IntItemSays(ms, "pixelsWide", m.pixelsWide, 0, toDouble);
    IntItemSays(ms, "pixelsHigh", m.pixelsHigh, 0, toDouble);
    IntItemSays(ms, "scale", m.scale, 1, toDouble);
    IntItemSays(ms, "pv", m.pv, 1, toDouble);
    TextItemSays(ms, "device", m.device);
    TextItemSays(ms, "id", m.id);
    hide IntIs, TextIs, Items;
  }

  lemma PencilHolds(ms: Members, m: ControlMessage, json: string, p: Spelling, toDouble: Conversion)
    requires m.Pencil? && Holds(ms, Items(m, p)) && Sendable(m, p, toDouble)
    ensures FieldsAre(ms, m, json, toDouble)
  {
    var items := Items(m, p);
    assert items[2] == RealItem("x", m.px, p) && items[3] == RealItem("y", m.py, p);
    assert items[4] == RealItem("pressure", m.pressure, p) && items[5] == RealItem("azimuth", m.azimuth, p);
    assert items[6] == RealItem("altitude", m.altitude, p);
    assert items[1].0 == "phase";
    RealItemSays(ms, "x", m.px, 0.0, p, toDouble);
    RealItemSays(ms, "y", m.py, 0.0, p, toDouble);
    RealItemSays(ms, "pressure", m.pressure, 0.0, p, toDouble);
    RealItemSays(ms, "azimuth", m.azimuth, 0.0, p, toDouble);
    RealItemSays(ms, "altitude", m.altitude, UPRIGHT, p, toDouble);
    UpToNoQuote(if m.pencilPhase == UnknownPencil then "" else PencilWord(m.pencilPhase));
    hide RealIs, Items;
  }

  lemma TouchHolds(ms: Members, m: ControlMessage, json: string, p: Spelling, toDouble: Conversion)
    requires m.Touch? && Holds(ms, Items(m, p)) && Sendable(m, p, toDouble)
    ensures FieldsAre(ms, m, json, toDouble)
  {
    var items := Items(m, p);
    assert items[1].0 == "phase" && items[2] == RealItem("x", m.x, p) && items[3] == RealItem("y", m.y, p);
    RealItemSays(ms, "x", m.x, 0.0, p, toDouble);
    RealItemSays(ms, "y", m.y, 0.0, p, toDouble);
    UpToNoQuote(if m.touchPhase == UnknownTouch then "" else TouchWord(m.touchPhase));
    hide RealIs, Items;
  }

  lemma OthersHold(ms: Members, m: ControlMessage, json: string, p: Spelling, toDouble: Conversion)
    requires Holds(ms, Items(m, p)) && Sendable(m, p, toDouble)
    requires m.Scroll? || m.Proximity? || (m.Ping? && (m.t == "" ==> MemberValue(ms, "t") == None))
    ensures FieldsAre(ms, m, json, toDouble)
  {
    var items := Items(m, p);
    if m.Scroll? {
      assert items[1] == RealItem("dx", m.dx, p) && items[2] == RealItem("dy", m.dy, p);
    } else if m.Proximity? {
      assert items[1] == ("entering", Bool(m.entering));
      assert items[2] == RealItem("x", m.qx, p) && items[3] == RealItem("y", m.qy, p);
    } else if m.t != "" {
      assert items[1] == ("t", Num(p.token(m.t)));
    }
    hide Items;
  }

  lemma HoldsKind(ms: Members, m: ControlMessage, p: Spelling)
    requires Holds(ms, Items(m, p))
    ensures MemberValue(ms, "type").Some? && MemberValue(ms, "type").value.Str?
    ensures KindIs(UpToQuote(MemberValue(ms, "type").value.body), m)
  {
    var word := if m.Unknown? then "" else Kind(m);
    assert Items(m, p)[0] == ("type", Str(word));
    hide Items;
    assert '"' !in word && KindIs(word, m);
    hide KindIs, Kind, UpToQuote;
    UpToNoQuote(word);
  }

  /** An object that holds the members of a message is parsed as that message. */
  lemma HolderIsMessage(ms: Members, m: ControlMessage, json: string, p: Spelling, toDouble: Conversion)
    requires Holds(ms, Items(m, p)) && Sendable(m, p, toDouble)
    requires m == Ping("") ==> MemberValue(ms, "t") == None
    ensures IsMessage(ms, Received(m, json), json, toDouble)
  {
    HoldsKind(ms, m, p);
    assert KindIs(UpToQuote(MemberValue(ms, "type").value.body), Received(m, json));
    FieldsHold(ms, m, json, p, toDouble);
    hide FieldsAre, KindIs;
  }

  lemma FieldsHold(ms: Members, m: ControlMessage, json: string, p: Spelling, toDouble: Conversion)
    requires Holds(ms, Items(m, p)) && Sendable(m, p, toDouble)
    requires m == Ping("") ==> MemberValue(ms, "t") == None
    ensures FieldsAre(ms, Received(m, json), json, toDouble)
  {
    hide Items, Holds, Sendable;
    if m.Hello? || m.Touch? || m.Pencil? || m.Scroll? || m.Proximity? || m.Ping? {
      hide FieldsAre;
      if m.Hello? { HelloHolds(ms, m, json, p, toDouble); }
      else if m.Touch? { TouchHolds(ms, m, json, p, toDouble); }
      else if m.Pencil? { PencilHolds(ms, m, json, p, toDouble); }
      else { OthersHold(ms, m, json, p, toDouble); }
    }
  }

  lemma ItemsFound(items: seq<(string, Value)>)
    requires Keyed(items)
    ensures Holds(Listed(items), items)
  {
    forall i | 0 <= i < |items| ensures MemberValue(Listed(items), items[i].0) == Some(items[i].1) { ItemFound(items, i); }
  }

  lemma {:induction false} ListedValid(items: seq<(string, Value)>)
    requires AllValid(items) && forall i :: 0 <= i < |items| ==> IsPlainBody(items[i].0)
    ensures ValidMembers(Listed(items))
    decreases |items|
  {
    if items != [] {
      PlainBody(items[0].0);
      ListedValid(items[1..]);
    }
  }

  lemma ListedIsRoot(lead: string, blank: string, m: ControlMessage, trail: string, p: Spelling, toDouble: Conversion)
    requires IsBlank(lead) && IsBlank(blank) && IsBlank(trail) && Sendable(m, p, toDouble)
    ensures IsRootObject(lead, blank, Listed(Items(m, p)), trail)
    ensures Holds(Listed(Items(m, p)), Items(m, p))
  {
    hide Sendable, Items, AllValid, Keyed, IsPlainBody, Holds, IsBlank;
    ItemsKeyed(m, p);
    ItemsValid(m, p, toDouble);
    ListedValid(Items(m, p));
    ItemsFound(Items(m, p));
  }

  lemma NoToken(p: Spelling)
    ensures MemberValue(Listed(Items(Ping(""), p)), "t") == None
  {
    NoItem(Items(Ping(""), p), "t");
  }

  /** Every message whose numbers convert and whose strings can be written is read back from its object. */
  lemma MessageReadsBack(lead: string, blank: string, trail: string, m: ControlMessage, p: Spelling, toDouble: Conversion)
    requires IsBlank(lead) && IsBlank(blank) && IsBlank(trail) && Sendable(m, p, toDouble)
    ensures var json := RootText(lead, blank, Listed(Items(m, p)), trail);
            ParseControlMessage(json, toDouble) == Some(Received(m, json))
  {
    hide *;
    var ms := Listed(Items(m, p));
    var json := RootText(lead, blank, ms, trail);
    ListedIsRoot(lead, blank, m, trail, p, toDouble);
    NoToken(p);
    HolderIsMessage(ms, m, json, p, toDouble);
    ParsesExactly(lead, blank, ms, trail, Received(m, json), toDouble);
  }
}
