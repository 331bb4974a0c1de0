/** FindNumberField, FindNumberToken and IsValidJsonNumber of src/net/Protocol.cpp.

    std::from_chars is a parameter `toDouble`: it gives the finite double a token stands for,
    or None when the conversion reports an error (out of range). */
module NumberFields {
  import opened Sequences
  import opened Wrappers
  import opened JsonGrammar
  import opened FieldScanner

  type Conversion = string -> Option<real>

  // ----- The grammar walk as functions of the text -----

  function DigitsEnd(s: string, i: nat): (r: nat)
    requires i <= |s|
    ensures i <= r <= |s|
    ensures r < |s| ==> !IsDigit(s[r])
    decreases |s| - i
  {
    if i < |s| && IsDigit(s[i]) then DigitsEnd(s, i + 1) else i
  }

  function WholeEnd(s: string, i: nat): (r: Option<nat>)
    requires i <= |s|
    ensures r.Some? ==> i < r.value <= |s|
  {
    if i == |s| || !IsDigit(s[i]) then None
    else if s[i] != '0' then Some(DigitsEnd(s, i))
    else if i + 1 < |s| && IsDigit(s[i + 1]) then None
    else Some(i + 1)
  }

  function FractionEnd(s: string, i: nat): (r: Option<nat>)
    requires i <= |s|
    ensures r.Some? ==> i <= r.value <= |s|
  {
    if i == |s| || s[i] != '.' then Some(i)
    else var e := DigitsEnd(s, i + 1); if e == i + 1 then None else Some(e)
  }

  function SignEnd(s: string, i: nat): (r: nat)
    requires i <= |s|
    ensures i <= r <= |s|
  {
    if i < |s| && (s[i] == '+' || s[i] == '-') then i + 1 else i
  }

  function ExponentEnd(s: string, i: nat): (r: Option<nat>)
    requires i <= |s|
    ensures r.Some? ==> i <= r.value <= |s|
  {
    if i == |s| || (s[i] != 'e' && s[i] != 'E') then Some(i)
    else
      var d := SignEnd(s, i + 1);
      var e := DigitsEnd(s, d);
      if e == d then None else Some(e)
  }

  /** The end of the number token at `i`, taking as much as the grammar allows. */
  function NumberEnd(s: string, i: nat): (r: Option<nat>)
    requires i <= |s|
    ensures r.Some? ==> i < r.value <= |s|
  {
    var w := if i < |s| && s[i] == '-' then i + 1 else i;
    match WholeEnd(s, w)
    case None => None
    case Some(f) =>
      match FractionEnd(s, f)
      case None => None
      case Some(e) => ExponentEnd(s, e)
  }

  /** The double read at `start`: a number token with a separator or brace behind it. */
  function NumberAt(s: string, start: nat, toDouble: Conversion): Option<real>
    requires start <= |s|
  {
    match NumberEnd(s, start)
    case None => None
    case Some(end) => if Ended(s, end) then toDouble(s[start..end]) else None
  }

  function NumberField(s: string, key: string, toDouble: Conversion): Option<real> {
    match ValueStart(s, key)
    case None => None
    case Some(start) => NumberAt(s, start, toDouble)
  }

  function NumberCharsEnd(s: string, i: nat): (r: nat)
    requires i <= |s|
    ensures i <= r <= |s|
    ensures r < |s| ==> !IsNumberChar(s[r])
    decreases |s| - i
  {
    if i < |s| && IsNumberChar(s[i]) then NumberCharsEnd(s, i + 1) else i
  }

  function NumberToken(s: string, key: string, toDouble: Conversion): Option<string> {
    match ValueStart(s, key)
    case None => None
    case Some(start) =>
      if NumberField(s, key, toDouble).None? then None else Some(s[start..NumberCharsEnd(s, start)])
  }

  function Wrapped(token: string): string {
    "{\"n\":" + token + "}"
  }

  predicate ValidToken(token: string, toDouble: Conversion) {
    var parsed := NumberToken(Wrapped(token), "n", toDouble);
    parsed.Some? && |parsed.value| == |token|
  }

  // ----- The loops of the program -----

  method SkipDigits(json: string, start: nat) returns (end: nat)
    requires start <= |json|
    ensures end == DigitsEnd(json, start)
  {
    end := start;
    while end < |json| && IsDigit(json[end])
      invariant start <= end <= |json|
      invariant DigitsEnd(json, end) == DigitsEnd(json, start)
    {
      end := end + 1;
    }
  }

  /** The first half of FindNumberField: sign and whole part, then the rest. */
  method WalkNumber(json: string, start: nat) returns (r: Option<nat>)
    requires start <= |json|
    ensures r == NumberEnd(json, start)
  {
    var end := start;
    if end < |json| && json[end] == '-' {
      end := end + 1;
    }
    if end >= |json| {
      return None;
    }
    if json[end] == '0' {
      end := end + 1;
      if end < |json| && IsDigit(json[end]) {
        return None;
      }
    } else if '1' <= json[end] <= '9' {
      end := SkipDigits(json, end + 1);
    } else {
      return None;
    }
    r := WalkFractionAndExponent(json, end);
  }

  method WalkFractionAndExponent(json: string, start: nat) returns (r: Option<nat>)
    requires start <= |json|
    ensures r == match FractionEnd(json, start) case None => None case Some(e) => ExponentEnd(json, e)
  {
    var end := start;
    if end < |json| && json[end] == '.' {
      end := end + 1;
      var fractionStart := end;
      end := SkipDigits(json, end);
      if end == fractionStart {
        return None;
      }
    }
    if end < |json| && (json[end] == 'e' || json[end] == 'E') {
      end := end + 1;
      if end < |json| && (json[end] == '+' || json[end] == '-') {
        end := end + 1;
      }
      var exponentStart := end;
      end := SkipDigits(json, end);
      if end == exponentStart {
        return None;
      }
    }
    return Some(end);
  }

  method FindNumberField(json: string, key: string, toDouble: Conversion) returns (r: Option<real>)
    ensures r == NumberField(json, key, toDouble)
  {
    var found := FindValueStart(json, key);
    if found.None? {
      return None;
    }
    var start := found.value;
    var token := WalkNumber(json, start);
    if token.None? {
      return None;
    }
    var end := token.value;
    var delimiter := SkipSpaces(json, end);
    if delimiter >= |json| || (json[delimiter] != ',' && json[delimiter] != '}') {
      return None;
    }
    return toDouble(json[start..end]);
  }

  method FindNumberToken(json: string, key: string, toDouble: Conversion) returns (r: Option<string>)
    ensures r == NumberToken(json, key, toDouble)
  {
    var found := FindValueStart(json, key);
    if found.None? {
      return None;
    }
    var start := found.value;
    var value := FindNumberField(json, key, toDouble);
    if value.None? {
      return None;
    }
    var end := start;
    while end < |json| && IsNumberChar(json[end])
      invariant start <= end <= |json|
      invariant NumberCharsEnd(json, end) == NumberCharsEnd(json, start)
    {
      end := end + 1;
    }
    return Some(json[start..end]);
  }

  /** The serializer's guard accepts exactly the tokens of section 6 of RFC 8259 that convert. */
  method IsValidJsonNumber(token: string, toDouble: Conversion) returns (r: bool)
    ensures r <==> IsNumber(token) && toDouble(token).Some?
  {
    var wrapped := "{\"n\":";
    wrapped := wrapped + token;
    wrapped := wrapped + "}";
    assert wrapped == Wrapped(token);
    var parsed := FindNumberToken(wrapped, "n", toDouble);
    ValidTokenIsNumber(token, toDouble);
    return parsed.Some? && |parsed.value| == |token|;
  }

  // ----- Walk and grammar agree -----

  lemma {:induction false} DigitsEndOver(s: string, p: nat, t: string)
    requires At(s, p, t) && AllDigits(t)
    requires p + |t| < |s| ==> !IsDigit(s[p + |t|])
    ensures DigitsEnd(s, p) == p + |t|
    decreases |t|
  {
    if t != [] {
      assert t[0] == s[p + 0];
      AtSplit(s, p, t[..1], t[1..]) by { assert t == t[..1] + t[1..]; }
      DigitsEndOver(s, p + 1, t[1..]);
    }
  }

  /** A number token that is followed by no character of a number is read to its end. */
  lemma NumberEndOver(s: string, p: nat, n: Number)
    requires ValidNumber(n) && At(s, p, NumberText(n))
    requires p + |NumberText(n)| < |s| ==> !IsNumberChar(s[p + |NumberText(n)|])
    ensures NumberEnd(s, p) == Some(p + |NumberText(n)|)
  {
    hide *;
    var m := if n.minus then "-" else "";
    var f := if n.fraction == "" then "" else "." + n.fraction;
    var x := ExponentText(n.exponent);
    NumberShape(n, m, f, x);
    AtSplit(s, p, m + n.whole + f, x);
    AtSplit3(s, p, m, n.whole, f);
    NumberEndParts(s, p, n, m, f, x);
  }

  lemma NumberShape(n: Number, m: string, f: string, x: string)
    requires m == (if n.minus then "-" else "") && x == ExponentText(n.exponent)
    requires f == if n.fraction == "" then "" else "." + n.fraction
    ensures NumberText(n) == m + n.whole + f + x
  {
  }

  lemma NumberEndParts(s: string, p: nat, n: Number, m: string, f: string, x: string)
    requires ValidNumber(n) && m == (if n.minus then "-" else "") && x == ExponentText(n.exponent)
    requires f == if n.fraction == "" then "" else "." + n.fraction
    requires At(s, p, m) && At(s, p + |m|, n.whole)
    requires At(s, p + |m| + |n.whole|, f) && At(s, p + |m| + |n.whole| + |f|, x)
    requires var end := p + |m| + |n.whole| + |f| + |x|; end < |s| ==> !IsNumberChar(s[end])
    ensures NumberEnd(s, p) == Some(p + |m| + |n.whole| + |f| + |x|)
  {
    var w := p + |m|;
    var d := w + |n.whole|;
    var e := d + |f|;
    if n.minus { assert m[0] == s[p + 0]; }
    if f != "" { assert f[0] == s[d + 0]; }
    if x != "" { assert x[0] == s[e + 0]; }
    assert d < |s| ==> !IsDigit(s[d]);
    assert e < |s| ==> !IsDigit(s[e]) && (f == "" ==> s[e] != '.');
    assert e + |x| < |s| ==> !IsNumberChar(s[e + |x|]);
    hide *;
    NumberEndChain(s, p, w, d, e, e + |x|, n, f);
  }

  lemma NumberEndChain(s: string, p: nat, w: nat, d: nat, e: nat, end: nat, n: Number, f: string)
    requires ValidNumber(n) && f == (if n.fraction == "" then "" else "." + n.fraction)
    requires At(s, w, n.whole) && At(s, d, f) && At(s, e, ExponentText(n.exponent))
    requires d == w + |n.whole| && e == d + |f| && end == e + |ExponentText(n.exponent)|
    requires w == if n.minus then p + 1 else p
    requires n.minus ==> s[p] == '-'
    requires d < |s| ==> !IsDigit(s[d])
    requires e < |s| ==> !IsDigit(s[e]) && (f == "" ==> s[e] != '.')
    requires end < |s| ==> !IsNumberChar(s[end])
    ensures NumberEnd(s, p) == Some(end)
  {
    assert ValidNumber(Number(false, "0", "", n.exponent));
    assert AllDigits(n.whole) && |n.whole| > 0 && (n.whole[0] == '0' ==> |n.whole| == 1) && AllDigits(n.fraction);
    hide At, ExponentText, IsDigit, IsNumberChar, WholeEnd, FractionEnd, ExponentEnd, AllDigits, NumberEnd, ValidNumber;
    WholeEndOver(s, w, n.whole);
    FractionEndOver(s, d, n.fraction, f);
    ExponentEndOver(s, e, n.exponent);
    NumberEndOfParts(s, p, w, d, e, end);
  }

  lemma NumberEndOfParts(s: string, p: nat, w: nat, d: nat, e: nat, end: nat)
    requires p <= |s| && w <= |s| && (w == p ==> p == |s| || s[p] != '-') && (w != p ==> p < |s| && s[p] == '-' && w == p + 1)
    requires WholeEnd(s, w) == Some(d) && FractionEnd(s, d) == Some(e) && ExponentEnd(s, e) == Some(end)
    ensures NumberEnd(s, p) == Some(end)
  {
    hide WholeEnd, FractionEnd, ExponentEnd;
  }

  lemma WholeEndOver(s: string, p: nat, t: string)
    requires At(s, p, t) && AllDigits(t) && |t| > 0 && (t[0] == '0' ==> |t| == 1)
    requires p + |t| < |s| ==> !IsDigit(s[p + |t|])
    ensures WholeEnd(s, p) == Some(p + |t|)
    ensures s[p] != '-'
  {
    assert t[0] == s[p + 0];
    DigitsEndOver(s, p, t);
  }

  lemma FractionEndOver(s: string, p: nat, digits: string, f: string)
    requires f == (if digits == "" then "" else "." + digits)
    requires AllDigits(digits) && At(s, p, f)
    requires p + |f| < |s| ==> !IsDigit(s[p + |f|]) && (digits == "" ==> s[p + |f|] != '.')
    ensures FractionEnd(s, p) == Some(p + |f|)
  {
    if digits != "" {
      assert f[0] == s[p + 0];
      AtSplit(s, p, ".", digits);
      DigitsEndOver(s, p + 1, digits);
    }
  }

  lemma ExponentEndOver(s: string, p: nat, x: Exponent)
    requires ValidNumber(Number(false, "0", "", x)) && At(s, p, ExponentText(x))
    requires p + |ExponentText(x)| < |s| ==> !IsNumberChar(s[p + |ExponentText(x)|])
    ensures ExponentEnd(s, p) == Some(p + |ExponentText(x)|)
  {
    if x.Exponent? {
      AtSplit3(s, p, [x.letter], x.sign, x.digits);
      assert [x.letter][0] == s[p + 0];
      if x.sign != "" { assert x.sign[0] == s[p + 1 + 0]; }
      assert x.digits[0] == s[p + 1 + |x.sign| + 0];
      DigitsEndOver(s, p + 1 + |x.sign|, x.digits);
    }
  }

  lemma {:induction false} DigitsTaken(s: string, i: nat)
    requires i <= |s|
    ensures AllDigits(s[i..DigitsEnd(s, i)])
    decreases |s| - i
  {
    if i < |s| && IsDigit(s[i]) {
      DigitsTaken(s, i + 1);
      assert s[i..DigitsEnd(s, i)] == [s[i]] + s[i + 1..DigitsEnd(s, i + 1)];
    }
  }

  /** Conversely, whatever the walk takes is a number token. */
  lemma NumberEndIsNumber(s: string, p: nat)
    requires p <= |s| && NumberEnd(s, p).Some?
    ensures IsNumber(s[p..NumberEnd(s, p).value])
  {
    var minus := p < |s| && s[p] == '-';
    var w := if minus then p + 1 else p;
    var d := WholeEnd(s, w).value;
    var e := FractionEnd(s, d).value;
    var end := ExponentEnd(s, e).value;
    WholeRead(s, w);
    var fraction := FractionRead(s, d);
    var x := ExponentRead(s, e);
    var n := Number(minus, s[w..d], fraction, x);
    assert ValidNumber(n);
    assert s[p..w] == if minus then "-" else "";
    SliceInFour(s, p, w, d, e, end);
    assert NumberText(n) == s[p..end];
  }

  lemma SliceInFour(s: string, p: nat, w: nat, d: nat, e: nat, end: nat)
    requires p <= w <= d <= e <= end <= |s|
    ensures s[p..end] == s[p..w] + s[w..d] + s[d..e] + s[e..end]
  {
    assert s[p..e] == s[p..w] + s[w..d] + s[d..e];
    assert s[p..end] == s[p..e] + s[e..end];
  }

  lemma WholeRead(s: string, i: nat)
    requires i <= |s| && WholeEnd(s, i).Some?
    ensures var t := s[i..WholeEnd(s, i).value]; AllDigits(t) && |t| > 0 && (t[0] == '0' ==> |t| == 1)
  {
    DigitsTaken(s, i);
  }

  lemma FractionRead(s: string, i: nat) returns (digits: string)
    requires i <= |s| && FractionEnd(s, i).Some?
    ensures AllDigits(digits)
    ensures s[i..FractionEnd(s, i).value] == if digits == "" then "" else "." + digits
  {
    var end := FractionEnd(s, i).value;
    if end == i {
      digits := "";
    } else {
      digits := s[i + 1..end];
      DigitsTaken(s, i + 1);
      assert s[i..end] == [s[i]] + digits;
    }
  }

  lemma ExponentRead(s: string, i: nat) returns (x: Exponent)
    requires i <= |s| && ExponentEnd(s, i).Some?
    ensures ValidNumber(Number(false, "0", "", x)) && ExponentText(x) == s[i..ExponentEnd(s, i).value]
  {
    var end := ExponentEnd(s, i).value;
    if end == i {
      x := NoExponent;
    } else {
      var d := SignEnd(s, i + 1);
      x := Exponent(s[i], s[i + 1..d], s[d..end]);
      DigitsTaken(s, d);
      assert s[i..end] == [s[i]] + s[i + 1..d] + s[d..end];
    }
  }

  lemma {:induction false} NumberCharsEndOver(s: string, p: nat, t: string)
    requires At(s, p, t) && forall i :: 0 <= i < |t| ==> IsNumberChar(t[i])
    ensures NumberCharsEnd(s, p) == NumberCharsEnd(s, p + |t|)
    decreases |t|
  {
    if t != [] {
      assert t[0] == s[p + 0];
      AtSplit(s, p, t[..1], t[1..]) by { assert t == t[..1] + t[1..]; }
      NumberCharsEndOver(s, p + 1, t[1..]);
    }
  }

  lemma SpaceIsNoNumberChar(c: char)
    ensures IsSpace(c) || c == ',' || c == '}' ==> !IsNumberChar(c)
  {
  }

  /** The token returned is the grammar's token: collecting number characters goes no further. */
  lemma TokenIsNumber(s: string, key: string, toDouble: Conversion)
    requires NumberToken(s, key, toDouble).Some?
    ensures var start := ValueStart(s, key).value;
            var t := NumberToken(s, key, toDouble).value;
            IsNumber(t) && toDouble(t) == NumberField(s, key, toDouble) && toDouble(t).Some? &&
            NumberEnd(s, start) == Some(start + |t|) && At(s, start, t)
  {
    TokenAt(s, ValueStart(s, key).value);
  }

  lemma TokenAt(s: string, start: nat)
    requires start <= |s| && NumberEnd(s, start).Some? && Ended(s, NumberEnd(s, start).value)
    ensures NumberCharsEnd(s, start) == NumberEnd(s, start).value
    ensures IsNumber(s[start..NumberEnd(s, start).value])
  {
    var end := NumberEnd(s, start).value;
    var t := s[start..end];
    NumberEndIsNumber(s, start);
    EndedIsNoNumberChar(s, end);
    TokenCharacters(t);
    hide NumberEnd, Ended, IsNumber;
    NumberCharsEndOver(s, start, t);
  }

  lemma TokenCharacters(t: string)
    requires IsNumber(t)
    ensures forall i :: 0 <= i < |t| ==> IsNumberChar(t[i])
  {
    var n: Number :| ValidNumber(n) && NumberText(n) == t;
    hide NumberText, ValidNumber;
    NumberCharacters(n);
  }

  lemma EndedIsNoNumberChar(s: string, i: nat)
    requires Ended(s, i)
    ensures i < |s| && !IsNumberChar(s[i])
    ensures NumberCharsEnd(s, i) == i
  {
    var d := SkipSpace(s, i);
    SpaceIsNoNumberChar(s[i]);
  }

  /** A root member that is a number is read as written. */
  lemma ReadsNumber(s: string, start: nat, n: Number, toDouble: Conversion)
    requires ValidNumber(n) && At(s, start, NumberText(n)) && Ended(s, start + |NumberText(n)|)
    ensures NumberAt(s, start, toDouble) == toDouble(NumberText(n))
    ensures NumberCharsEnd(s, start) == start + |NumberText(n)|
  {
    EndedIsNoNumberChar(s, start + |NumberText(n)|);
    hide NumberText, ValidNumber, NumberEnd;
    NumberEndOver(s, start, n);
    AtSlice(s, start, NumberText(n));
    NumberCharacters(n);
    NumberCharsEndOver(s, start, NumberText(n));
  }

  /** Where the wrapped token starts: at its first character that is not whitespace. */
  lemma WrappedStart(token: string)
    ensures ValueStart(Wrapped(token), "n") == Some(SkipSpace(Wrapped(token), 5))
  {
    var s := Wrapped(token);
    assert s[0] == '{' && s[1] == '"' && s[2] == 'n' && s[3] == '"' && s[4] == ':';
    assert SkipSpace(s, 0) == 0;
    assert StringEnd(s, 2, false, false) == StringEnd(s, 3, false, false) == Closing(3, false);
    assert TrimBack(s, 0, 1) == 1;
    assert s[2..3] == "n";
    assert Scan(s, "n", 0, 1, 1) == AfterColon(s, 3);
    assert SkipSpace(s, 4) == 4;
  }

  lemma ValidTokenIsNumber(token: string, toDouble: Conversion)
    ensures ValidToken(token, toDouble) <==> IsNumber(token) && toDouble(token).Some?
  {
    if ValidToken(token, toDouble) { ValidTokenRead(token, toDouble); }
    if IsNumber(token) && toDouble(token).Some? { NumberIsValidToken(token, toDouble); }
  }

  lemma ValidTokenRead(token: string, toDouble: Conversion)
    requires ValidToken(token, toDouble)
    ensures IsNumber(token) && toDouble(token).Some?
  {
    var s := Wrapped(token);
    WrappedStart(token);
    AtWhole("{\"n\":", token, "}");
    TokenIsNumber(s, "n", toDouble);
    hide NumberToken, NumberField;
    var start := SkipSpace(s, 5);
    assert start == 5;
    AtSlice(s, 5, token);
  }

  lemma NumberIsValidToken(token: string, toDouble: Conversion)
    requires IsNumber(token) && toDouble(token).Some?
    ensures ValidToken(token, toDouble)
  {
    var s := Wrapped(token);
    WrappedStart(token);
    AtWhole("{\"n\":", token, "}");
    var n: Number :| ValidNumber(n) && NumberText(n) == token;
    NumberCharacters(n);
    assert s[5 + 0] == token[0];
    assert s[5 + |token|] == '}';
    hide NumberText, ValidNumber;
    SpaceIsNoNumberChar(s[5]);
    assert SkipSpace(s, 5) == 5;
    assert SkipSpace(s, 5 + |token|) == 5 + |token|;
    hide FieldScanner.SkipSpace, ValueStart, NumberToken, Wrapped;
    ReadsNumber(s, 5, n, toDouble);
    TokenOfLength(s, "n", 5, |token|, toDouble);
  }

  lemma TokenOfLength(s: string, key: string, start: nat, length: nat, toDouble: Conversion)
    requires start <= |s| && ValueStart(s, key) == Some(start)
    requires NumberAt(s, start, toDouble).Some? && NumberCharsEnd(s, start) == start + length
    ensures NumberToken(s, key, toDouble).Some? && |NumberToken(s, key, toDouble).value| == length
  {
    hide ValueStart, NumberAt, NumberCharsEnd;
  }
}
