/** The language json.Valid accepts: RFC 8259 texts nested at most 10000 deep. */
module Json {
  import opened Results
  import opened Text

  const MAX_DEPTH: nat := 10000

  predicate IsSpace(ch: char) { ch == ' ' || ch == '\t' || ch == '\r' || ch == '\n' }

  predicate IsDigit(ch: char) { '0' <= ch <= '9' }

  predicate IsHex(ch: char) { IsDigit(ch) || 'a' <= ch <= 'f' || 'A' <= ch <= 'F' }

  function SkipSpace(s: Bytes): (r: Bytes)
    ensures |r| <= |s|
  {
    if s != [] && IsSpace(s[0]) then SkipSpace(s[1..]) else s
  }

  function SkipDigits(s: Bytes): (r: Bytes)
    ensures |r| <= |s|
  {
    if s != [] && IsDigit(s[0]) then SkipDigits(s[1..]) else s
  }

  // Each recogniser returns what follows the text it accepts.
  function Digits(s: Bytes): (r: Option<Bytes>)
    ensures r.Some? ==> |r.value| < |s|
  {
    if s != [] && IsDigit(s[0]) then Some(SkipDigits(s[1..])) else None
  }

  function Fraction(s: Bytes): (r: Option<Bytes>)
    ensures r.Some? ==> |r.value| <= |s|
  {
    if s != [] && s[0] == '.' then Digits(s[1..]) else Some(s)
  }

  function Exponent(s: Bytes): (r: Option<Bytes>)
    ensures r.Some? ==> |r.value| <= |s|
  {
    if s != [] && (s[0] == 'e' || s[0] == 'E') then
      if |s| > 1 && (s[1] == '+' || s[1] == '-') then Digits(s[2..]) else Digits(s[1..])
    else Some(s)
  }

  function Number(s: Bytes): (r: Option<Bytes>)
    ensures r.Some? ==> |r.value| < |s|
  {
    var body := if s != [] && s[0] == '-' then s[1..] else s;
    var whole := if body != [] && body[0] == '0' then Some(body[1..]) else Digits(body);
    match whole
    case None => None
    case Some(rest) =>
      match Fraction(rest)
      case None => None
      case Some(tail) => Exponent(tail)
  }

  function Literal(s: Bytes, word: Bytes): (r: Option<Bytes>)
    requires word != ""
    ensures r.Some? ==> |r.value| < |s|
  {
    if word <= s then Some(s[|word|..]) else None
  }

  // The rest of a string after its opening quote.
  function StringTail(s: Bytes): (r: Option<Bytes>)
    ensures r.Some? ==> |r.value| < |s|
  {
    if s == [] || s[0] < ' ' then None
    else if s[0] == '"' then Some(s[1..])
    else if s[0] != '\\' then StringTail(s[1..])
    else if |s| > 1 && s[1] in "\"\\/bfnrt" then StringTail(s[2..])
    else if |s| > 5 && s[1] == 'u' && IsHex(s[2]) && IsHex(s[3]) && IsHex(s[4]) && IsHex(s[5]) then StringTail(s[6..])
    else None
  }

  function Value(s: Bytes, depth: nat): (r: Option<Bytes>)
    ensures r.Some? ==> |r.value| < |s|
    decreases |s|, 1
  {
    if s == [] then None
    else if s[0] == '"' then StringTail(s[1..])
    else if s[0] == '{' then
      if depth == 0 then None else
        var t := SkipSpace(s[1..]);
        if t != [] && t[0] == '}' then Some(t[1..]) else Members(t, depth - 1)
    else if s[0] == '[' then
      if depth == 0 then None else
        var t := SkipSpace(s[1..]);
        if t != [] && t[0] == ']' then Some(t[1..]) else Items(t, depth - 1)
    else if s[0] == 't' then Literal(s, "true")
    else if s[0] == 'f' then Literal(s, "false")
    else if s[0] == 'n' then Literal(s, "null")
    else Number(s)
  }

  // The items of an array up to and with its closing bracket.
  function Items(s: Bytes, depth: nat): (r: Option<Bytes>)
    ensures r.Some? ==> |r.value| < |s|
    decreases |s|, 2
  {
    match Value(s, depth)
    case None => None
    case Some(after) =>
      var t := SkipSpace(after);
      if t == [] then None
      else if t[0] == ']' then Some(t[1..])
      else if t[0] == ',' then Items(SkipSpace(t[1..]), depth)
      else None
  }

  // The members of an object up to and with its closing brace.
  function Members(s: Bytes, depth: nat): (r: Option<Bytes>)
    ensures r.Some? ==> |r.value| < |s|
    decreases |s|, 2
  {
    if s == [] || s[0] != '"' then None else
    match StringTail(s[1..])
    case None => None
    case Some(name) =>
      var colon := SkipSpace(name);
      if colon == [] || colon[0] != ':' then None else
      match Value(SkipSpace(colon[1..]), depth)
      case None => None
      case Some(after) =>
        var t := SkipSpace(after);
        if t == [] then None
        else if t[0] == '}' then Some(t[1..])
        else if t[0] == ',' then Members(SkipSpace(t[1..]), depth)
        else None
  }

  // json.Valid
  predicate Valid(s: Bytes) {
    var r := Value(SkipSpace(s), MAX_DEPTH);
    r.Some? && SkipSpace(r.value) == []
  }

  // `rest` is what remains of s after a stretch without a colon.
  ghost predicate ColonFree(s: Bytes, rest: Bytes) {
    |rest| <= |s| && rest == s[|s| - |rest|..] && ':' !in s[..|s| - |rest|]
  }

  lemma ColonFreeJoins(s: Bytes, t: Bytes, u: Bytes)
    requires ColonFree(s, t) && ColonFree(t, u)
    ensures ColonFree(s, u)
  {
    assert s[..|s| - |u|] == s[..|s| - |t|] + t[..|t| - |u|];
  }

  lemma {:induction false} SpaceIsColonFree(s: Bytes)
    ensures ColonFree(s, SkipSpace(s))
  {
    if s != [] && IsSpace(s[0]) {
      SpaceIsColonFree(s[1..]);
      ColonFreeJoins(s, s[1..], SkipSpace(s));
    }
  }

  lemma {:induction false} DigitsAreColonFree(s: Bytes)
    ensures ColonFree(s, SkipDigits(s))
  {
    if s != [] && IsDigit(s[0]) {
      DigitsAreColonFree(s[1..]);
      ColonFreeJoins(s, s[1..], SkipDigits(s));
    }
  }

  lemma DigitRunIsColonFree(s: Bytes)
    ensures Digits(s).Some? ==> ColonFree(s, Digits(s).value)
  {
    if Digits(s).Some? {
      DigitsAreColonFree(s[1..]);
      ColonFreeJoins(s, s[1..], SkipDigits(s[1..]));
    }
  }

  lemma FractionIsColonFree(s: Bytes)
    ensures Fraction(s).Some? ==> ColonFree(s, Fraction(s).value)
  {
    if Fraction(s).Some? && s != [] && s[0] == '.' {
      DigitRunIsColonFree(s[1..]);
      ColonFreeJoins(s, s[1..], Fraction(s).value);
    }
  }

  lemma ExponentIsColonFree(s: Bytes)
    ensures Exponent(s).Some? ==> ColonFree(s, Exponent(s).value)
  {
    if Exponent(s).Some? && s != [] && (s[0] == 'e' || s[0] == 'E') {
      var k := if |s| > 1 && (s[1] == '+' || s[1] == '-') then 2 else 1;
      DigitRunIsColonFree(s[k..]);
      ColonFreeJoins(s, s[k..], Exponent(s).value);
    }
  }

  lemma NumberIsColonFree(s: Bytes)
    ensures Number(s).Some? ==> ColonFree(s, Number(s).value)
  {
    if Number(s).Some? {
      var body := if s != [] && s[0] == '-' then s[1..] else s;
      var whole := if body != [] && body[0] == '0' then body[1..] else Digits(body).value;
      DigitRunIsColonFree(body);
      assert ColonFree(s, body) && ColonFree(body, whole);
      FractionIsColonFree(whole);
      ExponentIsColonFree(Fraction(whole).value);
      ColonFreeJoins(s, body, whole);
      ColonFreeJoins(s, whole, Fraction(whole).value);
      ColonFreeJoins(s, Fraction(whole).value, Number(s).value);
    }
  }

  lemma LiteralIsColonFree(s: Bytes, word: Bytes)
    requires word != "" && ':' !in word
    ensures Literal(s, word).Some? ==> ColonFree(s, Literal(s, word).value)
  {
    assert word <= s ==> s[..|word|] == word;
  }

  lemma ScalarIsColonFree(s: Bytes, depth: nat)
    requires s != [] && s[0] != '"' && s[0] != '{' && s[0] != '['
    ensures Value(s, depth).Some? ==> ColonFree(s, Value(s, depth).value)
  {
    if s[0] == 't' { LiteralIsColonFree(s, "true"); }
    else if s[0] == 'f' { LiteralIsColonFree(s, "false"); }
    else if s[0] == 'n' { LiteralIsColonFree(s, "null"); }
    else { NumberIsColonFree(s); }
  }

  // A JSON text that opens with none of space, quote, brace and bracket is a
  // bare literal or number, and has no colon in it.
  lemma ScalarTextHasNoColon(s: Bytes)
    requires Valid(s) && s != [] && !IsSpace(s[0]) && s[0] != '"' && s[0] != '{' && s[0] != '['
    ensures ':' !in s
  {
    ScalarIsColonFree(s, MAX_DEPTH);
    TrailingSpaceOnly(s, Value(s, MAX_DEPTH).value);
  }

  lemma TrailingSpaceOnly(s: Bytes, rest: Bytes)
    requires ColonFree(s, rest) && SkipSpace(rest) == []
    ensures ':' !in s
  {
    SpaceIsColonFree(rest);
    ColonFreeJoins(s, rest, []);
    assert s[..|s| - 0] == s;
  }
}
