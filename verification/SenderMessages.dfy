/** The sender's own control messages, src/net/Protocol.cpp: each is the text of a tree, so the
    receiver-side scan reads from it exactly what was put in. */
module SenderMessages {
  import opened Wrappers
  import opened JsonGrammar
  import opened FieldScanner
  import opened NumberFields
  import opened ControlProtocol
  import opened Decimals

  /** A member `"key":token`, or none. */
  function Field(key: string, token: Option<Number>, others: Members): Members {
    match token
    case None => others
    case Some(n) => Member("", key, "", "", Num(n), "", others)
  }

  function FieldText(key: string, token: Option<Number>): string {
    match token
    case None => ""
    case Some(n) => ",\"" + key + "\":" + NumberText(n)
  }

  lemma FieldGrouping(key: string, t: string, more: string)
    ensures "," + (Quoted(key) + ":" + t + more) == ",\"" + key + "\":" + t + more
  {
    assert "," + Quoted(key) + ":" == ",\"" + key + "\":";
  }

  lemma FieldTextOf(key: string, token: Option<Number>, others: Members)
    ensures MoreMembersText(Field(key, token, others)) == FieldText(key, token) + MoreMembersText(others)
  {
    if token.Some? {
      var t := NumberText(token.value);
      var m := Field(key, token, others);
      assert MemberHead(m) == Quoted(key) + ":";
      assert MemberText(m) == Quoted(key) + ":" + t;
      assert MoreMembersText(m) == "," + (MemberText(m) + MoreMembersText(others));
      hide JsonGrammar.MemberText, JsonGrammar.MoreMembersText, JsonGrammar.NumberText, JsonGrammar.Quoted;
      FieldGrouping(key, t, MoreMembersText(others));
    }
  }

  function Envelope(kind: string, fields: Members): Members {
    Member("", "type", "", "", Str(kind), "", fields)
  }

  /** `{"type":"kind"` and the fields and `}` is the text of the envelope. */
  lemma EnvelopeText(kind: string, fields: Members)
    ensures RootText("", "", Envelope(kind, fields), "") ==
            "{\"type\":\"" + kind + "\"" + MoreMembersText(fields) + "}"
  {
    hide *;
    var m := Envelope(kind, fields);
    EnvelopeHead(kind, fields);
    EnvelopeParts(m);
    EnvelopeGrouping(kind, MoreMembersText(fields));
  }

  lemma EnvelopeHead(kind: string, fields: Members)
    ensures var m := Envelope(kind, fields);
            m.Member? && m.others == fields && MemberText(m) == "\"type\":" + Quoted(kind)
  {
    var m := Envelope(kind, fields);
    assert MemberHead(m) == "\"type\":";
    assert Text(m.value) == Quoted(kind);
    hide Quoted, MemberHead;
  }

  lemma EnvelopeParts(m: Members)
    requires m.Member?
    ensures RootText("", "", m, "") == "{" + (MemberText(m) + MoreMembersText(m.others)) + "}"
  {
    hide JsonGrammar.MoreMembersText, JsonGrammar.MemberText;
    assert MembersText(m) == MemberText(m) + MoreMembersText(m.others);
    hide JsonGrammar.MembersText;
    assert Text(Obj("", m)) == "{" + "" + MembersText(m) + "}";
    assert "{" + "" + MembersText(m) + "}" == "{" + MembersText(m) + "}";
  }

  lemma EnvelopeGrouping(kind: string, more: string)
    ensures "{" + (("\"type\":" + Quoted(kind)) + more) + "}" == "{\"type\":\"" + kind + "\"" + more + "}"
  {
    assert "{" + ("\"type\":" + "\"") == "{\"type\":\"";
    assert "\"type\":" + Quoted(kind) == ("\"type\":" + "\"") + kind + "\"";
  }

  /** The envelope and its fields are well formed, and each field is found by its own name. */
  lemma EnvelopeValid(kind: string, fields: Members)
    requires IsPlainBody(kind) && ValidMembers(fields)
    ensures IsRootObject("", "", Envelope(kind, fields), "")
    ensures MemberValue(Envelope(kind, fields), "type") == Some(Str(kind))
    ensures forall key :: key != "type" ==> MemberValue(Envelope(kind, fields), key) == MemberValue(fields, key)
  {
    PlainBody("type");
    PlainBody(kind);
    assert IsBlank("") && Valid(Str(kind));
    assert ValidMembers(Envelope(kind, fields));
  }

  lemma FieldValid(key: string, token: Option<Number>, others: Members)
    requires IsPlainBody(key) && (token.Some? ==> ValidNumber(token.value)) && ValidMembers(others)
    ensures ValidMembers(Field(key, token, others))
    ensures forall k :: MemberValue(Field(key, token, others), k) ==
                        if k == key && token.Some? then Some(Num(token.value)) else MemberValue(others, k)
  {
    PlainBody(key);
  }

  // ----- pong -----

  function PongTree(n: Number, now: int): Members {
    Envelope("pong", Field("t", Some(n), Field("mt", Some(IntegerToken(now)), NoMember)))
  }

  function PongText(t: string, now: int): string {
    "{\"type\":\"pong\",\"t\":" + t + ",\"mt\":" + Signed(now) + "}"
  }

  /** None unless the echoed text is one number token.  `now` is the sender's clock. */
  method SerializePong(echoedT: string, now: int, toDouble: Conversion) returns (r: Option<string>)
    ensures r.Some? <==> IsNumber(echoedT) && toDouble(echoedT).Some?
    ensures r.Some? ==> r.value == PongText(echoedT, now)
  {
    var valid := IsValidJsonNumber(echoedT, toDouble);
    if !valid {
      return None;
    }
    var json := "{\"type\":\"pong\",\"t\":";
    json := json + echoedT;
    json := json + ",\"mt\":";
    json := json + Signed(now);
    json := json + "}";
    return Some(json);
  }

  lemma PongIsTree(n: Number, now: int)
    ensures PongText(NumberText(n), now) == RootText("", "", PongTree(n, now), "")
  {
    var mt := Field("mt", Some(IntegerToken(now)), NoMember);
    FieldTextOf("t", Some(n), mt);
    FieldTextOf("mt", Some(IntegerToken(now)), NoMember);
    EnvelopeText("pong", Field("t", Some(n), mt));
    hide FieldScanner.RootText, JsonGrammar.MoreMembersText, JsonGrammar.NumberText;
    EmptyTail();
    PongFields(n, now);
    PongGrouping(NumberText(n), Signed(now));
  }

  lemma PongFields(n: Number, now: int)
    ensures FieldText("mt", Some(IntegerToken(now))) == ",\"mt\":" + Signed(now)
    ensures FieldText("t", Some(n)) == ",\"t\":" + NumberText(n)
  {
    hide JsonGrammar.NumberText;
  }

  lemma PongGrouping(t: string, mt: string)
    ensures "{\"type\":\"pong\"" + ((",\"t\":" + t) + ((",\"mt\":" + mt) + "")) + "}"
            == "{\"type\":\"pong\",\"t\":" + t + ",\"mt\":" + mt + "}"
  {
    assert "{\"type\":\"pong\"" + ",\"t\":" == "{\"type\":\"pong\",\"t\":";
  }

  lemma EmptyTail()
    ensures MoreMembersText(NoMember) == ""
  {
  }

  /** The echo: whatever text a ping came in, a `t` that was read is answered, and the answer's own
      `t` reads back as the very same characters. */
  lemma PongEchoes(json: string, t: string, now: int, toDouble: Conversion)
    requires ParseControlMessage(json, toDouble) == Some(Ping(t)) && t != ""
    requires toDouble(Signed(now)).Some?
    ensures IsNumber(t) && toDouble(t).Some?
    ensures var pong := PongText(t, now);
            && NumberToken(pong, "t", toDouble) == Some(t)
            && NumberToken(pong, "mt", toDouble) == Some(Signed(now))
            && StringField(pong, "type") == Some("pong")
            && (|pong| < 32768 ==> IsControl(pong))
  {
    PingToken(json, t, toDouble);
    TokenIsNumber(json, "t", toDouble);
    PongReads(t, now, toDouble);
  }

  lemma PingToken(json: string, t: string, toDouble: Conversion)
    requires ParseControlMessage(json, toDouble) == Some(Ping(t)) && t != ""
    ensures NumberToken(json, "t", toDouble) == Some(t)
  {
  }

  lemma PongReads(t: string, now: int, toDouble: Conversion)
    requires IsNumber(t) && toDouble(t).Some? && toDouble(Signed(now)).Some?
    ensures var pong := PongText(t, now);
            && NumberToken(pong, "t", toDouble) == Some(t)
            && NumberToken(pong, "mt", toDouble) == Some(Signed(now))
            && StringField(pong, "type") == Some("pong")
            && (|pong| < 32768 ==> IsControl(pong))
  {
    var n: Number :| ValidNumber(n) && NumberText(n) == t;
    var ms := PongTree(n, now);
    var pong := PongText(t, now);
    PongIsTree(n, now);
    PongMembers(n, now);
    PongIsControl(n, now);
    assert IsPlainBody("pong");
    hide *;
    FindsRootValue("", "", ms, "", "t");
    FindsRootValue("", "", ms, "", "mt");
    FindsRootValue("", "", ms, "", "type");
    ReadsField(pong, "t", ms, n, toDouble);
    ReadsField(pong, "mt", ms, IntegerToken(now), toDouble);
    ReadsKind(pong, ms, "pong");
  }

  lemma PongIsControl(n: Number, now: int)
    requires ValidNumber(n)
    ensures var pong := PongText(NumberText(n), now); |pong| < 32768 ==> IsControl(pong)
  {
    NumberCharacters(n);
    NumberCharacters(IntegerToken(now));
  }

  lemma ReadsField(s: string, key: string, ms: Members, n: Number, toDouble: Conversion)
    requires Finds(s, key, MemberValue(ms, key)) && MemberValue(ms, key) == Some(Num(n))
    requires toDouble(NumberText(n)).Some?
    ensures NumberToken(s, key, toDouble) == Some(NumberText(n))
  {
    NumberFieldFromTree(s, key, ms, toDouble);
  }

  lemma ReadsKind(s: string, ms: Members, kind: string)
    requires Finds(s, "type", MemberValue(ms, "type")) && MemberValue(ms, "type") == Some(Str(kind))
    requires IsPlainBody(kind)
    ensures StringField(s, "type") == Some(kind)
  {
    TextFieldFromTree(s, "type", ms);
    UpToQuotePlain(kind);
  }

  lemma {:induction false} UpToQuotePlain(s: string)
    requires IsPlainBody(s)
    ensures UpToQuote(s) == s
    decreases |s|
  {
    if s != [] { UpToQuotePlain(s[1..]); }
  }

  lemma PongMembers(n: Number, now: int)
    requires ValidNumber(n)
    ensures var ms := PongTree(n, now);
            IsRootObject("", "", ms, "") && MemberValue(ms, "type") == Some(Str("pong")) &&
            MemberValue(ms, "t") == Some(Num(n)) && MemberValue(ms, "mt") == Some(Num(IntegerToken(now)))
  {
    var mt := Some(IntegerToken(now));
    var tail := Field("mt", mt, NoMember);
    FieldValid("mt", mt, NoMember);
    FieldValid("t", Some(n), tail);
    EnvelopeValid("pong", Field("t", Some(n), tail));
  }

  // ----- welcome -----

  function WelcomeTree(): Members {
    Envelope("welcome", Field("pv", Some(IntegerToken(3)), Field("min", Some(IntegerToken(1)), NoMember)))
  }

  method SerializeWelcome() returns (json: string)
    ensures json == RootText("", "", WelcomeTree(), "")
  {
    WelcomeIsTree();
    return "{\"type\":\"welcome\",\"pv\":3,\"min\":1}";
  }

  lemma OneDigit(d: nat)
    requires d < 10
    ensures Signed(d) == [Digit(d)] && NumberText(IntegerToken(d)) == Signed(d)
  {
  }

  function WelcomeText(pv: string, min: string): string {
    "{\"type\":\"welcome\",\"pv\":" + pv + ",\"min\":" + min + "}"
  }

  lemma WelcomeIsTree()
    ensures RootText("", "", WelcomeTree(), "") == "{\"type\":\"welcome\",\"pv\":3,\"min\":1}"
  {
    hide *;
    WelcomeIsText();
    WelcomeLiteral();
  }

  lemma WelcomeLiteral()
    ensures WelcomeText(Signed(3), Signed(1)) == "{\"type\":\"welcome\",\"pv\":3,\"min\":1}"
  {
    OneDigit(1);
    OneDigit(3);
    hide Signed;
    assert [Digit(1)] == "1" && [Digit(3)] == "3";
  }

  lemma WelcomeIsText()
    ensures RootText("", "", WelcomeTree(), "") == WelcomeText(Signed(3), Signed(1))
  {
    var min := Field("min", Some(IntegerToken(1)), NoMember);
    FieldTextOf("pv", Some(IntegerToken(3)), min);
    FieldTextOf("min", Some(IntegerToken(1)), NoMember);
    EnvelopeText("welcome", Field("pv", Some(IntegerToken(3)), min));
    hide FieldScanner.RootText, JsonGrammar.MoreMembersText, JsonGrammar.NumberText;
    EmptyTail();
    WelcomeFields();
    WelcomeGrouping(Signed(3), Signed(1));
  }

  lemma WelcomeFields()
    ensures FieldText("pv", Some(IntegerToken(3))) == ",\"pv\":" + Signed(3)
    ensures FieldText("min", Some(IntegerToken(1))) == ",\"min\":" + Signed(1)
  {
    hide JsonGrammar.NumberText;
  }

  lemma WelcomeGrouping(pv: string, min: string)
    ensures "{\"type\":\"welcome\"" + ((",\"pv\":" + pv) + ((",\"min\":" + min) + "")) + "}" == WelcomeText(pv, min)
  {
    assert "{\"type\":\"welcome\"" + ",\"pv\":" == "{\"type\":\"welcome\",\"pv\":";
  }

  /** The receiver is told protocol version 3, and that it works with version 1. */
  lemma WelcomeReads(toDouble: Conversion)
    requires toDouble("3").Some? && toDouble("1").Some?
    ensures var welcome := RootText("", "", WelcomeTree(), "");
            && StringField(welcome, "type") == Some("welcome")
            && NumberToken(welcome, "pv", toDouble) == Some("3") && NumberToken(welcome, "min", toDouble) == Some("1")
  {
    hide *;
    var one, three := IntegerToken(1), IntegerToken(3);
    WelcomeMembers();
    TokensAre();
    var ms := WelcomeTree();
    FindsRootValue("", "", ms, "", "type");
    FindsRootValue("", "", ms, "", "pv");
    FindsRootValue("", "", ms, "", "min");
    ReadsField(RootText("", "", ms, ""), "pv", ms, three, toDouble);
    ReadsField(RootText("", "", ms, ""), "min", ms, one, toDouble);
    ReadsKind(RootText("", "", ms, ""), ms, "welcome");
  }

  lemma TokensAre()
    ensures NumberText(IntegerToken(1)) == "1" && NumberText(IntegerToken(3)) == "3" && IsPlainBody("welcome")
  {
    OneDigit(1);
    OneDigit(3);
    hide Signed, JsonGrammar.NumberText, IntegerToken;
    assert [Digit(1)] == "1" && [Digit(3)] == "3";
  }

  lemma WelcomeMembers()
    ensures var ms := WelcomeTree();
            IsRootObject("", "", ms, "") && MemberValue(ms, "type") == Some(Str("welcome")) &&
            MemberValue(ms, "pv") == Some(Num(IntegerToken(3))) && MemberValue(ms, "min") == Some(Num(IntegerToken(1)))
  {
    var one, three := Some(IntegerToken(1)), Some(IntegerToken(3));
    var tail := Field("min", one, NoMember);
    FieldValid("min", one, NoMember);
    FieldValid("pv", three, tail);
    EnvelopeValid("welcome", Field("pv", three, tail));
  }

  // ----- the sender's own ping -----

  /** A double, known by the number token std::to_chars prints for it. */
  datatype Double = Finite(printed: Number) | NotFinite

  datatype SenderPingStats = SenderPingStats(
    drops: Option<nat>, encDrops: Option<nat>, netDrops: Option<nat>, pending: Option<nat>,
    inp50: Option<Double>, inp95: Option<Double>, capFps: Option<Double>)

  function Counter(value: Option<nat>): (r: Option<Number>)
    ensures r.Some? ==> ValidNumber(r.value)
  {
    match value case None => None case Some(n) => Some(IntegerToken(n))
  }

  function Gauge(value: Option<Double>): Option<Number> {
    match value
    case Some(Finite(n)) => Some(n)
    case _ => None
  }

  /** The seven fields in the order they are written. */
  function Rows(stats: SenderPingStats): seq<(string, Option<Number>)> {
    [("drops", Counter(stats.drops)), ("encDrops", Counter(stats.encDrops)), ("netDrops", Counter(stats.netDrops)),
     ("pending", Counter(stats.pending)), ("inp50", Gauge(stats.inp50)), ("inp95", Gauge(stats.inp95)),
     ("capFps", Gauge(stats.capFps))]
  }

  function FieldsFrom(rows: seq<(string, Option<Number>)>): Members {
    if rows == [] then NoMember else Field(rows[0].0, rows[0].1, FieldsFrom(rows[1..]))
  }

  function PingTree(stats: SenderPingStats): Members {
    Envelope("ping", FieldsFrom(Rows(stats)))
  }

  predicate ValidRows(rows: seq<(string, Option<Number>)>) {
    forall i :: 0 <= i < |rows| ==>
      IsPlainBody(rows[i].0) && rows[i].0 != "type" && (rows[i].1.Some? ==> ValidNumber(rows[i].1.value))
  }

  predicate DistinctNames(rows: seq<(string, Option<Number>)>) {
    forall i, j :: 0 <= i < j < |rows| ==> rows[i].0 != rows[j].0
  }

  /** The doubles are given by number tokens. */
  predicate ValidStats(stats: SenderPingStats) {
    ValidRows(Rows(stats))
  }

  method AppendIntegerField(json: string, key: string, value: Option<nat>) returns (r: string)
    ensures r == json + FieldText(key, Counter(value))
  {
    r := json;
    if value.None? {
      return;
    }
    r := r + ",\"";
    r := r + key;
    r := r + "\":";
    r := r + Decimal(value.value);
    assert NumberText(IntegerToken(value.value)) == Decimal(value.value);
    assert r == json + (",\"" + key + "\":" + Decimal(value.value));
  }

  method AppendDoubleField(json: string, key: string, value: Option<Double>) returns (r: string)
    ensures r == json + FieldText(key, Gauge(value))
  {
    r := json;
    if value.None? || value.value.NotFinite? {
      return;
    }
    r := r + ",\"";
    r := r + key;
    r := r + "\":";
    r := r + NumberText(value.value.printed);
    assert r == json + (",\"" + key + "\":" + NumberText(value.value.printed));
  }

  /** The appended field is the next piece of the tree's text. */
  lemma FieldAppended(json: string, whole: string, key: string, token: Option<Number>, others: Members)
    requires json + MoreMembersText(Field(key, token, others)) == whole
    ensures json + FieldText(key, token) + MoreMembersText(others) == whole
  {
    FieldTextOf(key, token, others);
    hide *;
    assert json + FieldText(key, token) + MoreMembersText(others) ==
           json + (FieldText(key, token) + MoreMembersText(others));
  }

  /** `json` is `whole` as far as field `i`. */
  ghost predicate Reaches(json: string, whole: string, rows: seq<(string, Option<Number>)>, i: nat) {
    i <= |rows| && json + MoreMembersText(FieldsFrom(rows[i..])) == whole
  }

  lemma RowsAre(stats: SenderPingStats)
    ensures var rows := Rows(stats);
            && |rows| == 7
            && rows[0] == ("drops", Counter(stats.drops)) && rows[1] == ("encDrops", Counter(stats.encDrops))
            && rows[2] == ("netDrops", Counter(stats.netDrops)) && rows[3] == ("pending", Counter(stats.pending))
            && rows[4] == ("inp50", Gauge(stats.inp50)) && rows[5] == ("inp95", Gauge(stats.inp95))
            && rows[6] == ("capFps", Gauge(stats.capFps))
  {
    hide Counter, Gauge;
  }

  lemma Start(stats: SenderPingStats, json: string)
    requires json == "{\"type\":\"ping\""
    ensures var rows := Rows(stats);
            var whole := json + MoreMembersText(FieldsFrom(rows));
            Reaches(json, whole, rows, 0) && RootText("", "", PingTree(stats), "") == whole + "}"
  {
    var rows := Rows(stats);
    assert rows[0..] == rows;
    EnvelopeText("ping", FieldsFrom(rows));
    assert "{\"type\":\"" + "ping" + "\"" == json;
    hide FieldScanner.RootText, JsonGrammar.MoreMembersText, FieldsFrom, Rows, Envelope;
  }

  /** The message is the text of the tree whose members are the present, finite values. */
  method SerializeSenderPing(stats: SenderPingStats) returns (json: string)
    ensures json == RootText("", "", PingTree(stats), "")
  {
    hide *;
    ghost var rows := Rows(stats);
    RowsAre(stats);
    json := "{\"type\":\"ping\"";
    ghost var whole := json + MoreMembersText(FieldsFrom(rows));
    Start(stats, json);
    RowAppended(json, whole, rows, 0);
    json := AppendIntegerField(json, "drops", stats.drops);
    RowAppended(json, whole, rows, 1);
    json := AppendIntegerField(json, "encDrops", stats.encDrops);
    RowAppended(json, whole, rows, 2);
    json := AppendIntegerField(json, "netDrops", stats.netDrops);
    RowAppended(json, whole, rows, 3);
    json := AppendIntegerField(json, "pending", stats.pending);
    RowAppended(json, whole, rows, 4);
    json := AppendDoubleField(json, "inp50", stats.inp50);
    RowAppended(json, whole, rows, 5);
    json := AppendDoubleField(json, "inp95", stats.inp95);
    RowAppended(json, whole, rows, 6);
    json := AppendDoubleField(json, "capFps", stats.capFps);
    FieldsEnd(json, whole, rows);
    json := json + "}";
  }

  lemma FieldsEnd(json: string, whole: string, rows: seq<(string, Option<Number>)>)
    requires Reaches(json, whole, rows, |rows|)
    ensures json == whole
  {
  }

  lemma RowAppended(json: string, whole: string, rows: seq<(string, Option<Number>)>, i: nat)
    requires i < |rows| && Reaches(json, whole, rows, i)
    ensures Reaches(json + FieldText(rows[i].0, rows[i].1), whole, rows, i + 1)
  {
    assert rows[i..][1..] == rows[i + 1..];
    FieldAppended(json, whole, rows[i].0, rows[i].1, FieldsFrom(rows[i + 1..]));
  }

  function Printed(token: Option<Number>): Option<string> {
    match token case None => None case Some(n) => Some(NumberText(n))
  }

  /** Printed integers and doubles are within the range of a double. */
  predicate AllConvert(rows: seq<(string, Option<Number>)>, toDouble: Conversion) {
    forall i :: 0 <= i < |rows| && rows[i].1.Some? ==> toDouble(NumberText(rows[i].1.value)).Some?
  }

  /** Every present field reads back as printed, every absent or non-finite one is absent. */
  lemma PingReads(stats: SenderPingStats, toDouble: Conversion)
    requires ValidStats(stats) && AllConvert(Rows(stats), toDouble)
    ensures var ping := RootText("", "", PingTree(stats), "");
            && StringField(ping, "type") == Some("ping")
            && forall i :: 0 <= i < 7 ==> NumberToken(ping, Rows(stats)[i].0, toDouble) == Printed(Rows(stats)[i].1)
  {
    var rows := Rows(stats);
    var ms := PingTree(stats);
    RowsDistinct(stats);
    RowsValid(rows);
    assert IsPlainBody("ping");
    EnvelopeValid("ping", FieldsFrom(rows));
    assert |rows| == 7;
    hide *;
    FindsRootValue("", "", ms, "", "type");
    ReadsKind(RootText("", "", ms, ""), ms, "ping");
    forall i | 0 <= i < 7
      ensures NumberToken(RootText("", "", ms, ""), rows[i].0, toDouble) == Printed(rows[i].1)
    {
      PingRowReads(stats, i, toDouble);
    }
  }

  lemma PingRowReads(stats: SenderPingStats, i: nat, toDouble: Conversion)
    requires ValidStats(stats) && AllConvert(Rows(stats), toDouble) && i < 7
    ensures NumberToken(RootText("", "", PingTree(stats), ""), Rows(stats)[i].0, toDouble) == Printed(Rows(stats)[i].1)
  {
    var rows := Rows(stats);
    RowsDistinct(stats);
    RowsValid(rows);
    assert IsPlainBody("ping");
    EnvelopeValid("ping", FieldsFrom(rows));
    RowValue(rows, i);
    hide FieldScanner.RootText, Rows, JsonGrammar.ValidNumber, JsonGrammar.NumberText, FieldsFrom, Envelope;
    ReadsMaybe(PingTree(stats), rows[i].0, rows[i].1, toDouble);
  }

  lemma RowsDistinct(stats: SenderPingStats)
    ensures DistinctNames(Rows(stats))
  {
    var r := Rows(stats);
    assert |r[0].0| == 5 && |r[1].0| == 8 && |r[2].0| == 8 && |r[3].0| == 7 && |r[4].0| == 5 && |r[5].0| == 5 && |r[6].0| == 6;
    assert r[1].0[0] == 'e' && r[2].0[0] == 'n';
    assert r[0].0[3] == 'p' && r[4].0[3] == '5' && r[5].0[3] == '9';
  }

  lemma {:induction false} RowsValid(rows: seq<(string, Option<Number>)>)
    requires ValidRows(rows)
    ensures ValidMembers(FieldsFrom(rows))
    decreases |rows|
  {
    if rows != [] {
      RowsValid(rows[1..]);
      FieldValid(rows[0].0, rows[0].1, FieldsFrom(rows[1..]));
    }
  }

  function AsValue(token: Option<Number>): Option<Value> {
    match token case None => None case Some(n) => Some(Num(n))
  }

  lemma {:induction false} RowValue(rows: seq<(string, Option<Number>)>, i: nat)
    requires ValidRows(rows) && DistinctNames(rows) && i < |rows|
    ensures MemberValue(FieldsFrom(rows), rows[i].0) == AsValue(rows[i].1)
    decreases i
  {
    var others := FieldsFrom(rows[1..]);
    RowsValid(rows[1..]);
    FieldValid(rows[0].0, rows[0].1, others);
    if i > 0 {
      RowValue(rows[1..], i - 1);
    } else {
      NoSuchRow(rows[1..], rows[0].0);
    }
  }

  lemma {:induction false} NoSuchRow(rows: seq<(string, Option<Number>)>, key: string)
    requires ValidRows(rows) && forall j :: 0 <= j < |rows| ==> rows[j].0 != key
    ensures MemberValue(FieldsFrom(rows), key) == None
    decreases |rows|
  {
    if rows != [] {
      RowsValid(rows[1..]);
      FieldValid(rows[0].0, rows[0].1, FieldsFrom(rows[1..]));
      NoSuchRow(rows[1..], key);
    }
  }

  lemma ReadsMaybe(ms: Members, key: string, token: Option<Number>, toDouble: Conversion)
    requires IsRootObject("", "", ms, "") && MemberValue(ms, key) == AsValue(token)
    requires token.Some? ==> toDouble(NumberText(token.value)).Some?
    ensures NumberToken(RootText("", "", ms, ""), key, toDouble) == Printed(token)
  {
    FindsRootValue("", "", ms, "", key);
    hide FieldScanner.RootText, FieldScanner.Finds, JsonGrammar.NumberText, NumberFields.NumberToken;
    NumberFieldFromTree(RootText("", "", ms, ""), key, ms, toDouble);
  }

  /** The message is one the receiver's demultiplexer takes for control. */
  lemma PingIsControl(stats: SenderPingStats)
    requires ValidStats(stats)
    ensures var ping := RootText("", "", PingTree(stats), "");
            |ping| < 32768 ==> IsControl(ping)
  {
    EnvelopeText("ping", FieldsFrom(Rows(stats)));
    RowsHaveNoNul(Rows(stats));
    hide FieldScanner.RootText, FieldsFrom, JsonGrammar.MoreMembersText, Rows;
  }

  predicate NoNul(s: string) {
    forall i :: 0 <= i < |s| ==> s[i] as int != 0
  }

  lemma FieldHasNoNul(key: string, token: Option<Number>, others: Members)
    requires NoNul(key) && (token.Some? ==> ValidNumber(token.value)) && NoNul(MoreMembersText(others))
    ensures NoNul(MoreMembersText(Field(key, token, others)))
  {
    FieldTextOf(key, token, others);
    if token.Some? { NumberCharacters(token.value); }
  }

  lemma {:induction false} RowsHaveNoNul(rows: seq<(string, Option<Number>)>)
    requires ValidRows(rows)
    ensures NoNul(MoreMembersText(FieldsFrom(rows)))
    decreases |rows|
  {
    if rows != [] {
      RowsHaveNoNul(rows[1..]);
      FieldHasNoNul(rows[0].0, rows[0].1, FieldsFrom(rows[1..]));
    }
  }
}
