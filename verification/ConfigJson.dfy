/** The JSON reader and the string escaper of src/app/Config.cpp. */
module ConfigJson {
  import opened Wrappers
  import opened JsonGrammar
  import opened FieldScanner
  import opened NumberFields
  import opened Decimals

  /** The reader's values: integers only, and objects as maps. */
  datatype Json =
    | JNull
    | JBool(flag: bool)
    | JInt(number: int)
    | JString(text: string)
    | JObject(fields: map<string, Json>)
    | JArray(items: seq<Json>)

  /** A value read and the offset behind it. */
  datatype Read<+T> = Fail | Done(value: T, next: nat)

  const INT64_MIN := -0x8000_0000_0000_0000
  const INT64_MAX := 0x7FFF_FFFF_FFFF_FFFF

  /** UTF-8 of one 16-bit code unit, one char per byte. */
  function Utf8(unit: nat): string
    requires unit <= 0xFFFF
  {
    if unit <= 0x7F then [unit as char]
    else if unit <= 0x7FF then [(0xC0 + unit / 0x40) as char, (0x80 + unit % 0x40) as char]
    else [(0xE0 + unit / 0x1000) as char, (0x80 + unit / 0x40 % 0x40) as char, (0x80 + unit % 0x40) as char]
  }

  function HexValue(c: char): (d: nat)
    requires IsHexDigit(c)
    ensures d < 16
  {
    if IsDigit(c) then c as int - '0' as int
    else if 'a' <= c <= 'f' then c as int - 'a' as int + 10
    else c as int - 'A' as int + 10
  }

  function QuadValue(s: string): (r: nat)
    requires IsHexQuad(s)
    ensures r <= 0xFFFF
  {
    ((HexValue(s[0]) * 16 + HexValue(s[1])) * 16 + HexValue(s[2])) * 16 + HexValue(s[3])
  }

  function SimpleEscape(c: char): char
    requires IsSimpleEscape(c)
  {
    match c
    case 'b' => 8 as char
    case 'f' => 12 as char
    case 'n' => '\n'
    case 'r' => '\r'
    case 't' => '\t'
    case _ => c
  }

  // ----- The reader as functions of the text -----

  function ReadBody(s: string, p: nat, out: string): (r: Read<string>)
    requires p <= |s|
    ensures r.Done? ==> p < r.next <= |s|
    decreases |s| - p
  {
    if p == |s| then Fail
    else if s[p] == '"' then Done(out, p + 1)
    else if s[p] as int < 0x20 then Fail
    else if s[p] != '\\' then ReadBody(s, p + 1, out + [s[p]])
    else if p + 1 == |s| then Fail
    else if IsSimpleEscape(s[p + 1]) then ReadBody(s, p + 2, out + [SimpleEscape(s[p + 1])])
    else if s[p + 1] != 'u' || !IsHexQuad(s[p + 2..]) then Fail
    else ReadBody(s, p + 6, out + Utf8(QuadValue(s[p + 2..])))
  }

  function ReadString(s: string, p: nat): (r: Read<string>)
    requires p <= |s|
    ensures r.Done? ==> p < r.next <= |s|
  {
    var q := SkipSpace(s, p);
    if q == |s| || s[q] != '"' then Fail else ReadBody(s, q + 1, "")
  }

  /** The offset behind `c` when it is the next character that is not whitespace. */
  function ReadChar(s: string, p: nat, c: char): (r: Option<nat>)
    requires p <= |s|
    ensures r.Some? ==> p < r.value <= |s|
  {
    var q := SkipSpace(s, p);
    if q == |s| || s[q] != c then None else Some(q + 1)
  }

  function ReadInteger(s: string, p: nat): (r: Read<Json>)
    requires p <= |s|
    ensures r.Done? ==> p < r.next <= |s|
  {
    var d := if p < |s| && s[p] == '-' then p + 1 else p;
    var e := DigitsEnd(s, d);
    if e == d then Fail
    else
      DigitsTaken(s, d);
      var n := if d == p then DigitsValue(s[d..e]) as int else 0 - DigitsValue(s[d..e]);
      if INT64_MIN <= n <= INT64_MAX then Done(JInt(n), e) else Fail
  }

  function ReadValue(s: string, p: nat): (r: Read<Json>)
    requires p <= |s|
    ensures r.Done? ==> p < r.next <= |s|
    decreases |s| - p, 3
  {
    var q := SkipSpace(s, p);
    if q == |s| then Fail
    else if s[q] == '"' then
      match ReadString(s, q) case Fail => Fail case Done(t, n) => Done(JString(t), n)
    else if s[q] == '{' then ReadObject(s, q)
    else if s[q] == '[' then ReadArray(s, q)
    else if "true" <= s[q..] then Done(JBool(true), q + 4)
    else if "false" <= s[q..] then Done(JBool(false), q + 5)
    else if "null" <= s[q..] then Done(JNull, q + 4)
    else ReadInteger(s, q)
  }

  function ReadObject(s: string, p: nat): (r: Read<Json>)
    requires p <= |s|
    ensures r.Done? ==> p < r.next <= |s|
    decreases |s| - p, 2
  {
    match ReadChar(s, p, '{')
    case None => Fail
    case Some(q) =>
      match ReadChar(s, q, '}')
      case Some(n) => Done(JObject(map[]), n)
      case None => ReadMembers(s, q, map[])
  }

  /** A name, a colon, a value. */
  function ReadMember(s: string, p: nat): (r: Read<(string, Json)>)
    requires p <= |s|
    ensures r.Done? ==> p < r.next <= |s|
    decreases |s| - p, 0
  {
    match ReadString(s, p)
    case Fail => Fail
    case Done(key, k) =>
      match ReadChar(s, k, ':')
      case None => Fail
      case Some(c) =>
        match ReadValue(s, c)
        case Fail => Fail
        case Done(v, n) => Done((key, v), n)
  }

  function ReadMembers(s: string, p: nat, fields: map<string, Json>): (r: Read<Json>)
    requires p <= |s|
    ensures r.Done? ==> p < r.next <= |s|
    decreases |s| - p, 1
  {
    match ReadMember(s, p)
    case Fail => Fail
    case Done(m, n) =>
      match ReadChar(s, n, '}')
      case Some(e) => Done(JObject(fields[m.0 := m.1]), e)
      case None =>
        match ReadChar(s, n, ',')
        case None => Fail
        case Some(c) => ReadMembers(s, c, fields[m.0 := m.1])
  }

  function ReadArray(s: string, p: nat): (r: Read<Json>)
    requires p <= |s|
    ensures r.Done? ==> p < r.next <= |s|
    decreases |s| - p, 2
  {
    match ReadChar(s, p, '[')
    case None => Fail
    case Some(q) =>
      match ReadChar(s, q, ']')
      case Some(n) => Done(JArray([]), n)
      case None => ReadElements(s, q, [])
  }

  function ReadElements(s: string, p: nat, items: seq<Json>): (r: Read<Json>)
    requires p <= |s|
    ensures r.Done? ==> p < r.next <= |s|
    decreases |s| - p, 4
  {
    match ReadValue(s, p)
    case Fail => Fail
    case Done(v, n) =>
      match ReadChar(s, n, ']')
      case Some(e) => Done(JArray(items + [v]), e)
      case None =>
        match ReadChar(s, n, ',')
        case None => Fail
        case Some(m) => ReadElements(s, m, items + [v])
  }

  function ReadAll(s: string): Option<Json> {
    match ReadValue(s, 0)
    case Fail => None
    case Done(v, n) => if SkipSpace(s, n) == |s| then Some(v) else None
  }

  // ----- The reader of the program: one cursor moved by its methods -----

  predicate Agrees<T(==)>(r: Option<T>, spec: Read<T>, next: nat) {
    match r
    case None => spec.Fail?
    case Some(v) => spec == Done(v, next)
  }

  class JsonParser {
    const text: string
    var pos: nat

    constructor (text: string)
      ensures this.text == text && pos == 0
    {
      this.text := text;
      pos := 0;
    }

    method Parse() returns (r: Option<Json>)
      requires pos == 0
      modifies this
      ensures r == ReadAll(text)
    {
      var value := ParseValue();
      if value.None? {
        return None;
      }
      Skip();
      if pos != |text| {
        return None;
      }
      return value;
    }

    method Skip()
      requires pos <= |text|
      modifies this
      ensures pos == SkipSpace(text, old(pos))
    {
      while pos < |text| && IsSpace(text[pos])
        invariant pos <= |text|
        invariant SkipSpace(text, pos) == SkipSpace(text, old(pos))
      {
        pos := pos + 1;
      }
    }

    method Consume(c: char) returns (r: bool)
      requires pos <= |text|
      modifies this
      ensures pos <= |text|
      ensures r ==> ReadChar(text, old(pos), c) == Some(pos)
      ensures !r ==> ReadChar(text, old(pos), c) == None && pos == SkipSpace(text, old(pos))
    {
      Skip();
      if pos >= |text| || text[pos] != c {
        return false;
      }
      pos := pos + 1;
      return true;
    }

    /** The body of ParseString behind the opening quote. */
    method ParseBody() returns (r: Option<string>)
      requires pos <= |text|
      modifies this
      ensures pos <= |text| && Agrees(r, ReadBody(text, old(pos), ""), pos)
    {
      var out := "";
      while pos < |text|
        invariant pos <= |text|
        invariant ReadBody(text, pos, out) == ReadBody(text, old(pos), "")
      {
        var c := text[pos];
        if c == '"' {
          pos := pos + 1;
          return Some(out);
        }
        if c as int < 0x20 {
          return None;
        }
        if c != '\\' {
          pos := pos + 1;
          out := out + [c];
          continue;
        }
        if pos + 1 >= |text| {
          return None;
        }
        var e := text[pos + 1];
        if IsSimpleEscape(e) {
          pos := pos + 2;
          out := out + [SimpleEscape(e)];
        } else if e == 'u' {
          var unit := HexUnit(pos + 2);
          if unit.None? {
            return None;
          }
          pos := pos + 6;
          out := out + Utf8(unit.value);
        } else {
          return None;
        }
      }
      return None;
    }

    /** The four hex digits of a \u escape, shifted in one by one. */
    method HexUnit(at: nat) returns (r: Option<nat>)
      requires at <= |text|
      ensures r == if IsHexQuad(text[at..]) then Some(QuadValue(text[at..])) else None
      ensures r.Some? ==> r.value <= 0xFFFF && at + 4 <= |text|
    {
      if at + 4 > |text| {
        return None;
      }
      ghost var quad := text[at..];
      var unit := 0;
      var i := 0;
      while i < 4
        invariant 0 <= i <= 4
        invariant forall k :: 0 <= k < i ==> IsHexDigit(quad[k])
        invariant i == 0 ==> unit == 0
        invariant i == 1 ==> unit == HexValue(quad[0])
        invariant i == 2 ==> unit == HexValue(quad[0]) * 16 + HexValue(quad[1])
        invariant i == 3 ==> unit == (HexValue(quad[0]) * 16 + HexValue(quad[1])) * 16 + HexValue(quad[2])
        invariant i == 4 ==> unit == QuadValue(quad)
      {
        var h := text[at + i];
        assert h == quad[i];
        if !IsHexDigit(h) {
          return None;
        }
        unit := unit * 16 + HexValue(h);
        i := i + 1;
      }
      return Some(unit);
    }

    method ParseString() returns (r: Option<string>)
      requires pos <= |text|
      modifies this
      ensures pos <= |text| && Agrees(r, ReadString(text, old(pos)), pos)
    {
      var quote := Consume('"');
      if !quote {
        return None;
      }
      r := ParseBody();
    }

    method ParseInteger() returns (r: Option<Json>)
      requires pos <= |text|
      modifies this
      ensures pos <= |text| && Agrees(r, ReadInteger(text, old(pos)), pos)
    {
      var start := pos;
      if pos < |text| && text[pos] == '-' {
        pos := pos + 1;
      }
      var digits := pos;
      while pos < |text| && IsDigit(text[pos])
        invariant digits <= pos <= |text|
        invariant DigitsEnd(text, pos) == DigitsEnd(text, digits)
      {
        pos := pos + 1;
      }
      if pos == digits {
        return None;
      }
      DigitsTaken(text, digits);
      var number := if digits == start then DigitsValue(text[digits..pos]) as int else 0 - DigitsValue(text[digits..pos]);
      if !(INT64_MIN <= number <= INT64_MAX) {
        return None;
      }
      return Some(JInt(number));
    }

    method ParseValue() returns (r: Option<Json>)
      requires pos <= |text|
      modifies this
      ensures pos <= |text| && Agrees(r, ReadValue(text, old(pos)), pos)
      decreases |text| - pos, 3
    {
      Skip();
      if pos >= |text| {
        return None;
      }
      if text[pos] == '"' {
        var s := ParseString();
        if s.None? {
          return None;
        }
        return Some(JString(s.value));
      }
      if text[pos] == '{' {
        r := ParseObject();
        return;
      }
      if text[pos] == '[' {
        r := ParseArray();
        return;
      }
      if "true" <= text[pos..] {
        pos := pos + 4;
        return Some(JBool(true));
      }
      if "false" <= text[pos..] {
        pos := pos + 5;
        return Some(JBool(false));
      }
      if "null" <= text[pos..] {
        pos := pos + 4;
        return Some(JNull);
      }
      r := ParseInteger();
    }

    method ParseMember() returns (r: Option<(string, Json)>)
      requires pos <= |text|
      modifies this
      ensures pos <= |text| && Agrees(r, ReadMember(text, old(pos)), pos)
      decreases |text| - pos, 0
    {
      var key := ParseString();
      if key.None? {
        return None;
      }
      var colon := Consume(':');
      if !colon {
        return None;
      }
      var value := ParseValue();
      if value.None? {
        return None;
      }
      return Some((key.value, value.value));
    }

    method ParseObject() returns (r: Option<Json>)
      requires pos <= |text|
      modifies this
      ensures pos <= |text| && Agrees(r, ReadObject(text, old(pos)), pos)
      decreases |text| - pos, 2
    {
      hide ReadMember;
      var open := Consume('{');
      if !open {
        return None;
      }
      var fields: map<string, Json> := map[];
      ghost var start := pos;
      var empty := Consume('}');
      if empty {
        return Some(JObject(fields));
      }
      MembersSkip(text, start, fields);
      while true
        invariant old(pos) < pos <= |text|
        invariant ReadMembers(text, pos, fields) == ReadObject(text, old(pos))
        decreases |text| - pos
      {
        var member := ParseMember();
        if member.None? {
          return None;
        }
        fields := fields[member.value.0 := member.value.1];
        ghost var end := pos;
        var closed := Consume('}');
        if closed {
          return Some(JObject(fields));
        }
        SkipTwice(text, end);
        var comma := Consume(',');
        if !comma {
          return None;
        }
      }
    }

    method ParseArray() returns (r: Option<Json>)
      requires pos <= |text|
      modifies this
      ensures pos <= |text| && Agrees(r, ReadArray(text, old(pos)), pos)
      decreases |text| - pos, 2
    {
      hide ReadValue;
      var open := Consume('[');
      if !open {
        return None;
      }
      var items: seq<Json> := [];
      ghost var start := pos;
      var empty := Consume(']');
      if empty {
        return Some(JArray(items));
      }
      ElementsSkip(text, start, items);
      while true
        invariant old(pos) < pos <= |text|
        invariant ReadElements(text, pos, items) == ReadArray(text, old(pos))
        decreases |text| - pos
      {
        var value := ParseValue();
        if value.None? {
          return None;
        }
        items := items + [value.value];
        ghost var end := pos;
        var closed := Consume(']');
        if closed {
          return Some(JArray(items));
        }
        SkipTwice(text, end);
        var comma := Consume(',');
        if !comma {
          return None;
        }
      }
    }
  }

  /** Whitespace skipped once is skipped: a refused Consume changes nothing that is read later. */
  lemma SkipTwice(s: string, p: nat)
    requires p <= |s|
    ensures SkipSpace(s, SkipSpace(s, p)) == SkipSpace(s, p)
  {
  }

  lemma MembersSkip(s: string, p: nat, fields: map<string, Json>)
    requires p <= |s|
    ensures ReadMembers(s, SkipSpace(s, p), fields) == ReadMembers(s, p, fields)
  {
    SkipTwice(s, p);
    assert ReadString(s, SkipSpace(s, p)) == ReadString(s, p);
    hide ReadString, ReadValue, ReadChar, FieldScanner.SkipSpace;
  }

  lemma ElementsSkip(s: string, p: nat, items: seq<Json>)
    requires p <= |s|
    ensures ReadElements(s, SkipSpace(s, p), items) == ReadElements(s, p, items)
  {
    ValueSkips(s, p);
    hide ReadValue, ReadChar, FieldScanner.SkipSpace;
  }

  lemma ValueSkips(s: string, p: nat)
    requires p <= |s|
    ensures ReadValue(s, SkipSpace(s, p)) == ReadValue(s, p)
  {
    SkipTwice(s, p);
    hide ReadObject, ReadArray, ReadString, ReadInteger, FieldScanner.SkipSpace;
  }
}
