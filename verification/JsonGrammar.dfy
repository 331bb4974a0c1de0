/** RFC 8259 texts, given by their derivation trees.

    A `Value` is a derivation of the grammar of sections 2 to 7 of RFC 8259 with all its
    whitespace kept, `Text` is the string it derives.  A text is well formed exactly when
    it is the `Text` of some `Valid` tree.  A byte of the program's text is a `char`. */
module JsonGrammar {
  import opened Sequences

  /** Whitespace of section 2 of RFC 8259. */
  predicate IsWs(c: char) {
    c == ' ' || c == '\t' || c == '\n' || c == '\r'
  }

  predicate IsBlank(s: string) {
    forall i :: 0 <= i < |s| ==> IsWs(s[i])
  }

  /** std::isspace in the "C" locale: the four above, vertical tab and form feed. */
  predicate IsSpace(c: char) {
    IsWs(c) || c as int == 0x0B || c as int == 0x0C
  }

  predicate IsDigit(c: char) {
    '0' <= c <= '9'
  }

  predicate AllDigits(s: string) {
    forall i :: 0 <= i < |s| ==> IsDigit(s[i])
  }

  predicate IsHexDigit(c: char) {
    IsDigit(c) || 'a' <= c <= 'f' || 'A' <= c <= 'F'
  }

  predicate IsSimpleEscape(c: char) {
    c == '"' || c == '\\' || c == '/' || c == 'b' || c == 'f' || c == 'n' || c == 'r' || c == 't'
  }

  predicate IsHexQuad(s: string) {
    |s| >= 4 && IsHexDigit(s[0]) && IsHexDigit(s[1]) && IsHexDigit(s[2]) && IsHexDigit(s[3])
  }

  /** What may stand between the quotes of a string, section 7 of RFC 8259. */
  predicate IsBody(s: string)
    decreases |s|
  {
    if s == [] then true
    else if s[0] != '\\' then s[0] != '"' && s[0] as int >= 0x20 && IsBody(s[1..])
    else if |s| < 2 then false
    else if s[1] == 'u' then IsHexQuad(s[2..]) && IsBody(s[6..])
    else IsSimpleEscape(s[1]) && IsBody(s[2..])
  }

  /** The number tokens of section 6 of RFC 8259. */
  datatype Number = Number(minus: bool, whole: string, fraction: string, exponent: Exponent)
  datatype Exponent = NoExponent | Exponent(letter: char, sign: string, digits: string)

  predicate ValidNumber(n: Number) {
    && AllDigits(n.whole) && |n.whole| > 0 && (n.whole[0] == '0' ==> |n.whole| == 1)
    && AllDigits(n.fraction)
    && (n.exponent.Exponent? ==>
          && (n.exponent.letter == 'e' || n.exponent.letter == 'E')
          && (n.exponent.sign == "" || n.exponent.sign == "+" || n.exponent.sign == "-")
          && AllDigits(n.exponent.digits) && |n.exponent.digits| > 0)
  }

  /** An empty `fraction` stands for none: section 6 asks for at least one digit after the point. */
  function NumberText(n: Number): string {
    (if n.minus then "-" else "") + n.whole
    + (if n.fraction == "" then "" else "." + n.fraction)
    + ExponentText(n.exponent)
  }

  function ExponentText(e: Exponent): string {
    if e.NoExponent? then "" else [e.letter] + e.sign + e.digits
  }

  ghost predicate IsNumber(t: string) {
    exists n: Number :: ValidNumber(n) && NumberText(n) == t
  }

  datatype Value =
    | Null
    | Bool(b: bool)
    | Num(n: Number)
    | Str(body: string)
    | Obj(blank: string, members: Members)
    | Arr(gap: string, elements: Elements)

  datatype Members =
    | NoMember
    | Member(before: string, name: string, preColon: string, postColon: string, value: Value,
             after: string, others: Members)

  datatype Elements =
    | NoElement
    | Element(lead: string, item: Value, trail: string, more: Elements)

  function Quoted(body: string): string {
    "\"" + body + "\""
  }

  function Text(v: Value): string
    decreases v, 0
  {
    match v
    case Null => "null"
    case Bool(b) => if b then "true" else "false"
    case Num(n) => NumberText(n)
    case Str(body) => Quoted(body)
    case Obj(blank, members) => "{" + blank + MembersText(members) + "}"
    case Arr(gap, elements) => "[" + gap + ElementsText(elements) + "]"
  }

  function MembersText(ms: Members): string
    decreases ms, 1
  {
    if ms.NoMember? then "" else MemberText(ms) + MoreMembersText(ms.others)
  }

  function MemberHead(ms: Members): string
    requires ms.Member?
  {
    ms.before + Quoted(ms.name) + ms.preColon + ":" + ms.postColon
  }

  function MemberText(ms: Members): string
    requires ms.Member?
    decreases ms, 0
  {
    MemberHead(ms) + Text(ms.value) + ms.after
  }

  function MoreMembersText(ms: Members): string
    decreases ms, 2
  {
    if ms.NoMember? then "" else "," + MembersText(ms)
  }

  function ElementsText(es: Elements): string
    decreases es, 1
  {
    if es.NoElement? then "" else es.lead + Text(es.item) + es.trail + MoreElementsText(es.more)
  }

  function MoreElementsText(es: Elements): string
    decreases es, 2
  {
    if es.NoElement? then "" else "," + ElementsText(es)
  }

  predicate Valid(v: Value) {
    match v
    case Null => true
    case Bool(_) => true
    case Num(n) => ValidNumber(n)
    case Str(body) => IsBody(body)
    case Obj(blank, members) => IsBlank(blank) && ValidMembers(members)
    case Arr(gap, elements) => IsBlank(gap) && ValidElements(elements)
  }

  predicate ValidMembers(ms: Members) {
    ms.NoMember? ||
    (IsBlank(ms.before) && IsBody(ms.name) && IsBlank(ms.preColon) && IsBlank(ms.postColon) &&
     Valid(ms.value) && IsBlank(ms.after) && ValidMembers(ms.others))
  }

  predicate ValidElements(es: Elements) {
    es.NoElement? || (IsBlank(es.lead) && Valid(es.item) && IsBlank(es.trail) && ValidElements(es.more))
  }

  lemma AtSplit3(s: string, p: nat, a: string, b: string, c: string)
    requires At(s, p, a + b + c)
    ensures At(s, p, a) && At(s, p + |a|, b) && At(s, p + |a| + |b|, c)
  {
    AtSplit(s, p, a + b, c);
    AtSplit(s, p, a, b);
  }

  /** One character, then the rest. */
  lemma AtHead(s: string, p: nat, a: string, b: string)
    requires At(s, p, a + b) && |a| == 1
    ensures s[p] == a[0] && At(s, p, a) && At(s, p + 1, b)
  {
    AtSplit(s, p, a, b);
    assert s[p + 0] == a[0];
  }

  lemma AtPrefix(a: string, b: string)
    ensures At(a + b, 0, a)
  {
  }

  lemma AtWhole(a: string, b: string, c: string)
    ensures At(a + b + c, |a|, b)
  {
  }

  lemma AtSlice(s: string, p: nat, t: string)
    requires At(s, p, t)
    ensures s[p..p + |t|] == t
  {
  }

  /** Characters that neither open, close nor quote anything. */
  predicate IsPlain(c: char) {
    c != '{' && c != '}' && c != '[' && c != ']' && c != '"'
  }

  lemma NumberCharacters(n: Number)
    requires ValidNumber(n)
    ensures var t := NumberText(n); |t| > 0 && forall i :: 0 <= i < |t| ==> IsNumberChar(t[i])
  {
  }

  /** The characters FindNumberToken collects. */
  predicate IsNumberChar(c: char) {
    IsDigit(c) || c == '-' || c == '+' || c == '.' || c == 'e' || c == 'E'
  }

  /** The first character of every value is neither whitespace nor a separator. */
  lemma TextStart(v: Value)
    requires Valid(v)
    ensures |Text(v)| > 0 && !IsSpace(Text(v)[0])
    ensures Text(v)[0] == '"' <==> v.Str?
  {
    if v.Num? { NumberCharacters(v.n); }
  }

  predicate IsPlainBody(s: string) {
    forall i :: 0 <= i < |s| ==> s[i] != '"' && s[i] != '\\' && s[i] as int >= 0x20
  }

  lemma {:induction false} PlainBody(s: string)
    requires IsPlainBody(s)
    ensures IsBody(s)
    decreases |s|
  {
    if s != [] { PlainBody(s[1..]); }
  }
}
