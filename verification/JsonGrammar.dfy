/** The grammar of RFC 8259, sections 2 to 7, and that json.Valid accepts exactly
    its texts, as long as they are nested at most 10000 deep. */
module JsonGrammar {
  import opened Results
  import opened Text
  import opened Json

  predicate Spaces(s: Bytes) {
    s == "" || ((s[0] == ' ' || s[0] == '\t' || s[0] == '\r' || s[0] == '\n') && Spaces(s[1..]))
  }

  predicate AllDigits(s: Bytes) { s == "" || ('0' <= s[0] <= '9' && AllDigits(s[1..])) }

  predicate DigitRun(s: Bytes) { s != "" && AllDigits(s) }

  predicate IsInt(s: Bytes) { s == "0" || (DigitRun(s) && s[0] != '0') }

  predicate IsFraction(s: Bytes) { s == "" || (s[0] == '.' && DigitRun(s[1..])) }

  predicate IsExponent(s: Bytes) {
    s == "" || ((s[0] == 'e' || s[0] == 'E')
      && (DigitRun(s[1..]) || (|s| > 1 && (s[1] == '+' || s[1] == '-') && DigitRun(s[2..]))))
  }

  ghost predicate NumberOfParts(s: Bytes, minus: Bytes, whole: Bytes, fraction: Bytes, exponent: Bytes) {
    && s == minus + (whole + (fraction + exponent))
    && (minus == "" || minus == "-") && IsInt(whole) && IsFraction(fraction) && IsExponent(exponent)
  }

  ghost predicate IsNumber(s: Bytes) {
    exists minus, whole, fraction, exponent :: NumberOfParts(s, minus, whole, fraction, exponent)
  }

  predicate IsChars(s: Bytes) {
    || s == ""
    || (s[0] >= ' ' && s[0] != '"' && s[0] != '\\' && IsChars(s[1..]))
    || (|s| > 1 && s[0] == '\\' && s[1] in "\"\\/bfnrt" && IsChars(s[2..]))
    || (|s| > 5 && s[0] == '\\' && s[1] == 'u' && IsHex(s[2]) && IsHex(s[3]) && IsHex(s[4]) && IsHex(s[5])
        && IsChars(s[6..]))
  }

  predicate IsString(s: Bytes) { |s| > 1 && s[0] == '"' && s[|s| - 1] == '"' && IsChars(s[1..|s| - 1]) }

  // A value nested at most `depth` deep.
  ghost predicate IsValue(s: Bytes, depth: nat)
    decreases |s|, 1
  {
    || s == "true" || s == "false" || s == "null" || IsNumber(s) || IsString(s)
    || (depth > 0 && |s| > 1 && s[0] == '[' && s[|s| - 1] == ']'
        && (Spaces(s[1..|s| - 1]) || IsItems(s[1..|s| - 1], depth - 1)))
    || (depth > 0 && |s| > 1 && s[0] == '{' && s[|s| - 1] == '}'
        && (Spaces(s[1..|s| - 1]) || IsMembers(s[1..|s| - 1], depth - 1)))
  }

  // A value with space around it.
  ghost predicate IsElement(s: Bytes, depth: nat)
    decreases |s|, 2
  {
    exists i, j :: 0 <= i <= j <= |s| && Spaces(s[..i]) && IsValue(s[i..j], depth) && Spaces(s[j..])
  }

  ghost predicate IsItems(s: Bytes, depth: nat)
    decreases |s|, 3
  {
    || IsElement(s, depth)
    || exists i :: 0 <= i < |s| && s[i] == ',' && IsElement(s[..i], depth) && IsItems(s[i + 1..], depth)
  }

  ghost predicate IsMember(s: Bytes, depth: nat)
    decreases |s|, 3
  {
    exists i, j, k :: 0 <= i <= j <= k < |s|
      && Spaces(s[..i]) && IsString(s[i..j]) && Spaces(s[j..k]) && s[k] == ':' && IsElement(s[k + 1..], depth)
  }

  ghost predicate IsMembers(s: Bytes, depth: nat)
    decreases |s|, 4
  {
    || IsMember(s, depth)
    || exists i :: 0 <= i < |s| && s[i] == ',' && IsMember(s[..i], depth) && IsMembers(s[i + 1..], depth)
  }

  // ---- Building texts ----

  lemma ElementOf(a: Bytes, v: Bytes, b: Bytes, depth: nat)
    requires Spaces(a) && IsValue(v, depth) && Spaces(b)
    ensures IsElement(a + v + b, depth)
  {
    var s := a + v + b;
    var i, j := |a|, |a| + |v|;
    assert s[..i] == a && s[i..j] == v && s[j..] == b;
  }

  lemma ItemsOf(e: Bytes, rest: Bytes, depth: nat)
    requires IsElement(e, depth) && IsItems(rest, depth)
    ensures IsItems(e + "," + rest, depth)
  {
    var s := e + "," + rest;
    assert s[..|e|] == e && s[|e|] == ',' && s[|e| + 1..] == rest;
  }

  lemma MemberOf(a: Bytes, name: Bytes, b: Bytes, e: Bytes, depth: nat)
    requires Spaces(a) && IsString(name) && Spaces(b) && IsElement(e, depth)
    ensures IsMember(a + name + b + ":" + e, depth)
  {
    var i, j, k := MemberParts(a, name, b, e);
  }

  lemma MemberParts(a: Bytes, name: Bytes, b: Bytes, e: Bytes) returns (i: nat, j: nat, k: nat)
    ensures var s := a + name + b + ":" + e;
      && i <= j <= k < |s|
      && s[..i] == a && s[i..j] == name && s[j..k] == b && s[k] == ':' && s[k + 1..] == e
  {
    i, j, k := |a|, |a| + |name|, |a| + |name| + |b|;
  }

  lemma MembersOf(m: Bytes, rest: Bytes, depth: nat)
    requires IsMember(m, depth) && IsMembers(rest, depth)
    ensures IsMembers(m + "," + rest, depth)
  {
    var s := m + "," + rest;
    assert s[..|m|] == m && s[|m|] == ',' && s[|m| + 1..] == rest;
  }

  lemma TrailedElement(v: Bytes, b: Bytes, depth: nat)
    requires IsValue(v, depth) && Spaces(b)
    ensures IsElement(v + b, depth)
  {
    ElementOf("", v, b, depth);
    NothingBefore(v, b);
  }

  lemma NothingBefore(v: Bytes, b: Bytes)
    ensures "" + v + b == v + b
  {
  }

  lemma ArrayOf(inner: Bytes, depth: nat)
    requires depth > 0 && (Spaces(inner) || IsItems(inner, depth - 1))
    ensures IsValue("[" + inner + "]", depth)
  {
    var t := "[" + inner + "]";
    assert t[1..|t| - 1] == inner;
  }

  lemma ObjectOf(inner: Bytes, depth: nat)
    requires depth > 0 && (Spaces(inner) || IsMembers(inner, depth - 1))
    ensures IsValue("{" + inner + "}", depth)
  {
    var t := "{" + inner + "}";
    assert t[1..|t| - 1] == inner;
  }

  lemma Rejoined(a: Bytes, s: Bytes, i: nat)
    requires i < |s|
    ensures a + s[..i] + [s[i]] + s[i + 1..] == a + s
  {
  }

  lemma RejoinedElement(a: Bytes, s: Bytes, i: nat, j: nat)
    requires i <= j <= |s|
    ensures a + s[..i] + s[i..j] + s[j..] == a + s
  {
  }

  lemma RejoinedMember(a: Bytes, s: Bytes, i: nat, j: nat, k: nat)
    requires i <= j <= k < |s|
    ensures a + s[..i] + s[i..j] + s[j..k] + [s[k]] + s[k + 1..] == a + s
  {
  }

  lemma {:induction false} SpacesJoin(a: Bytes, b: Bytes)
    requires Spaces(a) && Spaces(b)
    ensures Spaces(a + b)
  {
    if a == "" { assert a + b == b; } else {
      SpacesJoin(a[1..], b);
      assert (a + b)[1..] == a[1..] + b;
    }
  }

  lemma SpacedElement(a: Bytes, e: Bytes, depth: nat)
    requires Spaces(a) && IsElement(e, depth)
    ensures IsElement(a + e, depth)
  {
    var i, j :| 0 <= i <= j <= |e| && Spaces(e[..i]) && IsValue(e[i..j], depth) && Spaces(e[j..]);
    SpacesJoin(a, e[..i]);
    ElementOf(a + e[..i], e[i..j], e[j..], depth);
    RejoinedElement(a, e, i, j);
  }

  lemma SpacedItems(a: Bytes, s: Bytes, depth: nat)
    requires Spaces(a) && IsItems(s, depth)
    ensures IsItems(a + s, depth)
  {
    if IsElement(s, depth) {
      SpacedElement(a, s, depth);
    } else {
      var i :| 0 <= i < |s| && s[i] == ',' && IsElement(s[..i], depth) && IsItems(s[i + 1..], depth);
      SpacedElement(a, s[..i], depth);
      ItemsOf(a + s[..i], s[i + 1..], depth);
      Rejoined(a, s, i);
    }
  }

  lemma SpacedMember(a: Bytes, s: Bytes, depth: nat)
    requires Spaces(a) && IsMember(s, depth)
    ensures IsMember(a + s, depth)
  {
    var i, j, k :| 0 <= i <= j <= k < |s|
      && Spaces(s[..i]) && IsString(s[i..j]) && Spaces(s[j..k]) && s[k] == ':' && IsElement(s[k + 1..], depth);
    SpacesJoin(a, s[..i]);
    MemberOf(a + s[..i], s[i..j], s[j..k], s[k + 1..], depth);
    RejoinedMember(a, s, i, j, k);
  }

  lemma SpacedMembers(a: Bytes, s: Bytes, depth: nat)
    requires Spaces(a) && IsMembers(s, depth)
    ensures IsMembers(a + s, depth)
  {
    if IsMember(s, depth) {
      SpacedMember(a, s, depth);
    } else {
      var i :| 0 <= i < |s| && s[i] == ',' && IsMember(s[..i], depth) && IsMembers(s[i + 1..], depth);
      SpacedMember(a, s[..i], depth);
      MembersOf(a + s[..i], s[i + 1..], depth);
      Rejoined(a, s, i);
    }
  }

  // ---- What is accepted is a text ----

  lemma Consed(s: Bytes, b: Bytes, rest: Bytes)
    requires s != "" && s[1..] == b + rest
    ensures s == [s[0]] + b + rest && ([s[0]] + b)[1..] == b && ([s[0]] + b)[0] == s[0]
  {
  }

  lemma {:induction false} SpaceSkipped(s: Bytes) returns (a: Bytes)
    ensures Spaces(a) && s == a + SkipSpace(s) && (SkipSpace(s) != "" ==> !IsSpace(SkipSpace(s)[0]))
  {
    a := "";
    if s != "" && IsSpace(s[0]) {
      var b := SpaceSkipped(s[1..]);
      a := [s[0]] + b;
      Consed(s, b, SkipSpace(s[1..]));
    }
  }

  lemma {:induction false} DigitsSkipped(s: Bytes) returns (a: Bytes)
    ensures AllDigits(a) && s == a + SkipDigits(s)
  {
    a := "";
    if s != "" && IsDigit(s[0]) {
      var b := DigitsSkipped(s[1..]);
      a := [s[0]] + b;
      Consed(s, b, SkipDigits(s[1..]));
    }
  }

  lemma DigitsRead(s: Bytes) returns (a: Bytes)
    requires Digits(s).Some?
    ensures DigitRun(a) && s == a + Digits(s).value
  {
    var b := DigitsSkipped(s[1..]);
    a := [s[0]] + b;
    Consed(s, b, SkipDigits(s[1..]));
  }

  lemma FractionRead(s: Bytes) returns (a: Bytes)
    requires Fraction(s).Some?
    ensures IsFraction(a) && s == a + Fraction(s).value
  {
    a := "";
    if s != "" && s[0] == '.' {
      var b := DigitsRead(s[1..]);
      a := "." + b;
      assert a[1..] == b && s == [s[0]] + s[1..];
    }
  }

  lemma Spliced(s: Bytes, n: nat, b: Bytes, rest: Bytes)
    requires n <= |s| && s[n..] == b + rest
    ensures s == s[..n] + b + rest && (s[..n] + b)[n..] == b && forall i | 0 <= i < n :: (s[..n] + b)[i] == s[i]
  {
  }

  lemma ExponentRead(s: Bytes) returns (a: Bytes)
    requires Exponent(s).Some?
    ensures IsExponent(a) && s == a + Exponent(s).value
  {
    a := "";
    if s != "" && (s[0] == 'e' || s[0] == 'E') {
      var n := if |s| > 1 && (s[1] == '+' || s[1] == '-') then 2 else 1;
      var b := DigitsRead(s[n..]);
      a := s[..n] + b;
      Spliced(s, n, b, Digits(s[n..]).value);
    }
  }

  lemma IntRead(s: Bytes) returns (a: Bytes)
    requires (s != "" && s[0] == '0') || Digits(s).Some?
    ensures IsInt(a) && s == a + (if s[0] == '0' then s[1..] else Digits(s).value)
  {
    if s[0] == '0' { a := "0"; } else { a := DigitsRead(s); }
  }

  lemma NumberRead(s: Bytes) returns (t: Bytes)
    requires Number(s).Some?
    ensures IsNumber(t) && s == t + Number(s).value
  {
    var minus := if s != "" && s[0] == '-' then "-" else "";
    var body := s[|minus|..];
    assert s == minus + body;
    var whole := IntRead(body);
    var rest := if body[0] == '0' then body[1..] else Digits(body).value;
    var fraction := FractionRead(rest);
    var exponent := ExponentRead(Fraction(rest).value);
    t := minus + (whole + (fraction + exponent));
    assert NumberOfParts(t, minus, whole, fraction, exponent);
    FiveJoined(minus, whole, fraction, exponent, Number(s).value);
  }

  lemma FiveJoined(a: Bytes, b: Bytes, c: Bytes, d: Bytes, e: Bytes)
    ensures a + (b + (c + (d + e))) == a + (b + (c + d)) + e
  {
  }

  lemma {:induction false} StringRead(s: Bytes) returns (a: Bytes)
    requires StringTail(s).Some?
    ensures IsChars(a) && s == a + "\"" + StringTail(s).value
  {
    if s[0] == '"' {
      a := "";
    } else {
      var n := if s[0] != '\\' then 1 else if s[1] in "\"\\/bfnrt" then 2 else 6;
      var b := StringRead(s[n..]);
      a := s[..n] + b;
      Associative(b, "\"", StringTail(s).value);
      Spliced(s, n, b, "\"" + StringTail(s).value);
      Associative(a, "\"", StringTail(s).value);
    }
  }

  lemma NameRead(s: Bytes) returns (t: Bytes)
    requires s != "" && s[0] == '"' && StringTail(s[1..]).Some?
    ensures IsString(t) && s == t + StringTail(s[1..]).value
  {
    var a := StringRead(s[1..]);
    t := "\"" + a + "\"";
    assert t[1..|t| - 1] == a && s == [s[0]] + s[1..];
  }
  lemma {:induction false} ValueRead(s: Bytes, depth: nat) returns (t: Bytes)
    requires Value(s, depth).Some?
    ensures IsValue(t, depth) && s == t + Value(s, depth).value
    decreases |s|, 1
  {
    if s[0] == '"' { t := NameRead(s); }
    else if s[0] == '{' { t := ObjectRead(s, depth); }
    else if s[0] == '[' { t := ArrayRead(s, depth); }
    else if s[0] == 't' { t := "true"; }
    else if s[0] == 'f' { t := "false"; }
    else if s[0] == 'n' { t := "null"; }
    else { t := NumberRead(s); }
  }

  lemma {:induction false} ArrayRead(s: Bytes, depth: nat) returns (t: Bytes)
    requires s != "" && s[0] == '[' && Value(s, depth).Some?
    ensures IsValue(t, depth) && s == t + Value(s, depth).value
    decreases |s|, 0, 1
  {
    var a := SpaceSkipped(s[1..]);
    var u := SkipSpace(s[1..]);
    var inner := ArrayInside(u, a, depth - 1);
    ArrayOf(inner, depth);
    t := "[" + inner + "]";
    Opened(s, "[", a, u, inner, "]", Value(s, depth).value);
  }

  lemma {:induction false} ArrayInside(u: Bytes, a: Bytes, depth: nat) returns (inner: Bytes)
    requires Spaces(a) && u != "" && (u[0] != ']' ==> Items(u, depth).Some?)
    ensures Spaces(inner) || IsItems(inner, depth)
    ensures a + u == inner + ("]" + (if u[0] == ']' then u[1..] else Items(u, depth).value))
    decreases |u| + 1, 0, 0
  {
    if u[0] == ']' {
      inner := a;
      assert u == "]" + u[1..];
    } else {
      var items := ItemsRead(u, depth);
      SpacedItems(a, items, depth);
      inner := a + items;
      Enclosed(a, items, "]", Items(u, depth).value);
    }
  }

  lemma {:induction false} ObjectRead(s: Bytes, depth: nat) returns (t: Bytes)
    requires s != "" && s[0] == '{' && Value(s, depth).Some?
    ensures IsValue(t, depth) && s == t + Value(s, depth).value
    decreases |s|, 0, 1
  {
    var a := SpaceSkipped(s[1..]);
    var u := SkipSpace(s[1..]);
    var inner := ObjectInside(u, a, depth - 1);
    ObjectOf(inner, depth);
    t := "{" + inner + "}";
    Opened(s, "{", a, u, inner, "}", Value(s, depth).value);
  }

  lemma {:induction false} ObjectInside(u: Bytes, a: Bytes, depth: nat) returns (inner: Bytes)
    requires Spaces(a) && u != "" && (u[0] != '}' ==> Members(u, depth).Some?)
    ensures Spaces(inner) || IsMembers(inner, depth)
    ensures a + u == inner + ("}" + (if u[0] == '}' then u[1..] else Members(u, depth).value))
    decreases |u| + 1, 0, 0
  {
    if u[0] == '}' {
      inner := a;
      assert u == "}" + u[1..];
    } else {
      var members := MembersRead(u, depth);
      SpacedMembers(a, members, depth);
      inner := a + members;
      Enclosed(a, members, "}", Members(u, depth).value);
    }
  }

  // A value and the space after it.
  lemma {:induction false} ElementRead(s: Bytes, depth: nat) returns (t: Bytes)
    requires Value(s, depth).Some?
    ensures IsElement(t, depth) && s == t + SkipSpace(Value(s, depth).value)
    decreases |s|, 2
  {
    var v := ValueRead(s, depth);
    var b := SpaceSkipped(Value(s, depth).value);
    TrailedElement(v, b, depth);
    t := v + b;
    Associative(v, b, SkipSpace(Value(s, depth).value));
  }

  lemma {:induction false} ItemsRead(s: Bytes, depth: nat) returns (t: Bytes)
    requires Items(s, depth).Some?
    ensures IsItems(t, depth) && s == t + "]" + Items(s, depth).value
    decreases |s|, 3
  {
    t := ElementRead(s, depth);
    var u := SkipSpace(Value(s, depth).value);
    assert u == [u[0]] + u[1..];
    if u[0] == ']' {
      CommaJoined(t, "", "", "]", u[1..]);
    } else {
      var a := SpaceSkipped(u[1..]);
      var more := ItemsRead(SkipSpace(u[1..]), depth);
      SpacedItems(a, more, depth);
      ItemsOf(t, a + more, depth);
      CommaJoined(t, a, more, "]", Items(s, depth).value);
      t := t + "," + (a + more);
    }
  }

  lemma {:induction false} MembersRead(s: Bytes, depth: nat) returns (t: Bytes)
    requires Members(s, depth).Some?
    ensures IsMembers(t, depth) && s == t + "}" + Members(s, depth).value
    decreases |s|, 3
  {
    var u;
    t, u := MemberRead(s, depth);
    assert u == [u[0]] + u[1..];
    if u[0] == '}' {
      CommaJoined(t, "", "", "}", u[1..]);
    } else {
      var a := SpaceSkipped(u[1..]);
      var more := MembersRead(SkipSpace(u[1..]), depth);
      SpacedMembers(a, more, depth);
      MembersOf(t, a + more, depth);
      CommaJoined(t, a, more, "}", Members(s, depth).value);
      t := t + "," + (a + more);
    }
  }

  // What follows the first member.
  function AfterMember(s: Bytes, depth: nat): Bytes
    requires Members(s, depth).Some?
  {
    SkipSpace(Value(SkipSpace(SkipSpace(StringTail(s[1..]).value)[1..]), depth).value)
  }

  lemma {:induction false} MemberRead(s: Bytes, depth: nat) returns (t: Bytes, u: Bytes)
    requires Members(s, depth).Some?
    ensures IsMember(t, depth) && s == t + u && u == AfterMember(s, depth) && |u| < |s|
    decreases |s|, 2
  {
    var name := NameRead(s);
    var b := SpaceSkipped(StringTail(s[1..]).value);
    var colon := SkipSpace(StringTail(s[1..]).value);
    var a := SpaceSkipped(colon[1..]);
    var e := ElementRead(SkipSpace(colon[1..]), depth);
    SpacedElement(a, e, depth);
    MemberOf("", name, b, a + e, depth);
    t, u := "" + name + b + ":" + (a + e), AfterMember(s, depth);
    assert colon == ":" + colon[1..];
    FourJoined(name, b, a, e, u);
  }

  lemma Enclosed(a: Bytes, inner: Bytes, close: Bytes, rest: Bytes)
    ensures a + (inner + close + rest) == a + inner + (close + rest)
  {
  }

  lemma Opened(s: Bytes, open: Bytes, a: Bytes, u: Bytes, inner: Bytes, close: Bytes, rest: Bytes)
    requires |open| == 1 && open <= s && s[1..] == a + u && a + u == inner + (close + rest)
    ensures s == open + inner + close + rest
  {
  }

  lemma CommaJoined(t: Bytes, a: Bytes, more: Bytes, close: Bytes, rest: Bytes)
    ensures t + ("," + (a + (more + close + rest))) == t + "," + (a + more) + close + rest
    ensures t + (close + rest) == t + close + rest
  {
  }

  lemma FourJoined(name: Bytes, b: Bytes, a: Bytes, e: Bytes, u: Bytes)
    ensures name + (b + (":" + (a + (e + u)))) == "" + name + b + ":" + (a + e) + u
  {
  }

  // ---- Every text is accepted ----

  lemma {:induction false} SpaceTaken(a: Bytes, x: Bytes)
    requires Spaces(a) && (x != "" ==> !IsSpace(x[0]))
    ensures SkipSpace(a + x) == x
  {
    if a == "" { assert a + x == x; } else {
      assert (a + x)[1..] == a[1..] + x;
      SpaceTaken(a[1..], x);
    }
  }

  lemma {:induction false} DigitsPassed(a: Bytes, x: Bytes)
    requires AllDigits(a) && (x != "" ==> !IsDigit(x[0]))
    ensures SkipDigits(a + x) == x
  {
    if a == "" { assert a + x == x; } else {
      assert (a + x)[1..] == a[1..] + x;
      DigitsPassed(a[1..], x);
    }
  }

  lemma DigitsTaken(a: Bytes, x: Bytes)
    requires DigitRun(a) && (x != "" ==> !IsDigit(x[0]))
    ensures Digits(a + x) == Some(x)
  {
    assert (a + x)[1..] == a[1..] + x;
    DigitsPassed(a[1..], x);
  }

  lemma FractionTaken(a: Bytes, x: Bytes)
    requires IsFraction(a) && (x != "" ==> !IsDigit(x[0]) && x[0] != '.')
    ensures Fraction(a + x) == Some(x)
  {
    if a == "" { assert a + x == x; } else {
      assert (a + x)[1..] == a[1..] + x;
      DigitsTaken(a[1..], x);
    }
  }

  // What may follow a value.
  predicate Ends(x: Bytes) { x == "" || IsSpace(x[0]) || x[0] == ',' || x[0] == ']' || x[0] == '}' }

  lemma ExponentTaken(a: Bytes, x: Bytes)
    requires IsExponent(a) && Ends(x)
    ensures Exponent(a + x) == Some(x)
  {
    if a == "" {
      assert a + x == x;
    } else {
      var n := if |a| > 1 && (a[1] == '+' || a[1] == '-') then 2 else 1;
      assert (a + x)[n..] == a[n..] + x;
      DigitsTaken(a[n..], x);
    }
  }

  lemma NumberTaken(t: Bytes, x: Bytes)
    requires IsNumber(t) && Ends(x)
    ensures Number(t + x) == Some(x) && t != "" && (t[0] == '-' || IsDigit(t[0]))
  {
    var minus, whole, fraction, exponent :| NumberOfParts(t, minus, whole, fraction, exponent);
    FiveJoined(minus, whole, fraction, exponent, x);
    var rest := fraction + (exponent + x);
    var body := whole + rest;
    assert t + x == minus + body;
    assert body[0] == whole[0] && IsDigit(whole[0]);
    ExponentTaken(exponent, x);
    FractionTaken(fraction, exponent + x);
    if whole == "0" { assert body[1..] == rest; } else { DigitsTaken(whole, rest); }
    assert (if minus == "" then t + x else (t + x)[1..]) == body;
  }

  lemma {:induction false} CharsTaken(a: Bytes, x: Bytes)
    requires IsChars(a)
    ensures StringTail(a + "\"" + x) == Some(x)
  {
    var s := a + "\"" + x;
    if a == "" {
      assert s == "\"" + x;
    } else {
      var n := if a[0] != '\\' then 1 else if a[1] in "\"\\/bfnrt" then 2 else 6;
      assert s[n..] == a[n..] + "\"" + x && s[..n] == a[..n];
      CharsTaken(a[n..], x);
    }
  }

  lemma NameTaken(t: Bytes, x: Bytes)
    requires IsString(t)
    ensures (t + x)[0] == '"' && StringTail((t + x)[1..]) == Some(x)
  {
    CharsTaken(t[1..|t| - 1], x);
    assert (t + x)[1..] == t[1..|t| - 1] + "\"" + x;
  }

  // A value does not open with space or with what ends or parts others.
  predicate Opens(s: Bytes) { s != "" && !Ends(s) }

  lemma {:induction false} ValueTaken(t: Bytes, depth: nat, x: Bytes)
    requires IsValue(t, depth) && Ends(x)
    ensures Value(t + x, depth) == Some(x) && Opens(t)
    decreases |t|, 1
  {
    if t == "true" || t == "false" || t == "null" { LiteralTaken(t, x); }
    else if IsNumber(t) { NumberTaken(t, x); }
    else if IsString(t) { NameTaken(t, x); }
    else if t[0] == '[' { ArrayTaken(t, depth, x); }
    else { ObjectTaken(t, depth, x); }
  }

  lemma LiteralTaken(word: Bytes, x: Bytes)
    requires word != ""
    ensures Literal(word + x, word) == Some(x)
  {
  }

  lemma {:induction false} ArrayTaken(t: Bytes, depth: nat, x: Bytes)
    requires depth > 0 && |t| > 1 && t[0] == '[' && t[|t| - 1] == ']'
    requires Spaces(t[1..|t| - 1]) || IsItems(t[1..|t| - 1], depth - 1)
    ensures Value(t + x, depth) == Some(x)
    decreases |t|, 0
  {
    var inner := t[1..|t| - 1];
    assert (t + x)[1..] == inner + ("]" + x);
    if Spaces(inner) { SpaceTaken(inner, "]" + x); } else { ItemsTaken(inner, depth - 1, x); }
  }

  lemma {:induction false} ObjectTaken(t: Bytes, depth: nat, x: Bytes)
    requires depth > 0 && |t| > 1 && t[0] == '{' && t[|t| - 1] == '}'
    requires Spaces(t[1..|t| - 1]) || IsMembers(t[1..|t| - 1], depth - 1)
    ensures Value(t + x, depth) == Some(x)
    decreases |t|, 0
  {
    var inner := t[1..|t| - 1];
    assert (t + x)[1..] == inner + ("}" + x);
    if Spaces(inner) { SpaceTaken(inner, "}" + x); } else { MembersTaken(inner, depth - 1, x); }
  }

  lemma {:induction false} ElementTaken(t: Bytes, depth: nat, y: Bytes)
    requires IsElement(t, depth) && (y == "" || (Ends(y) && !IsSpace(y[0])))
    ensures Opens(SkipSpace(t + y)) && Value(SkipSpace(t + y), depth).Some?
    ensures SkipSpace(Value(SkipSpace(t + y), depth).value) == y
    decreases |t|, 2
  {
    var i, j :| 0 <= i <= j <= |t| && Spaces(t[..i]) && IsValue(t[i..j], depth) && Spaces(t[j..]);
    var v, b := t[i..j], t[j..];
    ElementSplit(t, i, j, y);
    ValueTaken(v, depth, b + y);
    SpaceTaken(t[..i], v + (b + y));
    SpaceTaken(b, y);
  }

  lemma {:induction false} ItemsTaken(t: Bytes, depth: nat, x: Bytes)
    requires IsItems(t, depth)
    ensures Opens(SkipSpace(t + ("]" + x))) && Items(SkipSpace(t + ("]" + x)), depth) == Some(x)
    decreases |t|, 3
  {
    if IsElement(t, depth) {
      ElementTaken(t, depth, "]" + x);
    } else {
      var i :| 0 <= i < |t| && t[i] == ',' && IsElement(t[..i], depth) && IsItems(t[i + 1..], depth);
      var y := "," + (t[i + 1..] + ("]" + x));
      CommaSplit(t, i, "]" + x);
      ElementTaken(t[..i], depth, y);
      ItemsTaken(t[i + 1..], depth, x);
    }
  }

  lemma {:induction false} MemberTaken(t: Bytes, depth: nat, y: Bytes)
    requires IsMember(t, depth) && y != "" && (y[0] == ',' || y[0] == '}')
    ensures var s := SkipSpace(t + y);
      && Opens(s) && s[0] == '"' && StringTail(s[1..]).Some?
      && var colon := SkipSpace(StringTail(s[1..]).value);
        && colon != "" && colon[0] == ':' && Value(SkipSpace(colon[1..]), depth).Some?
        && SkipSpace(Value(SkipSpace(colon[1..]), depth).value) == y
    decreases |t|, 3
  {
    var i, j, k :| 0 <= i <= j <= k < |t|
      && Spaces(t[..i]) && IsString(t[i..j]) && Spaces(t[j..k]) && t[k] == ':' && IsElement(t[k + 1..], depth);
    var name, b, e := t[i..j], t[j..k], t[k + 1..];
    MemberSplit(t, i, j, k, y);
    NameTaken(name, b + (":" + (e + y)));
    SpaceTaken(t[..i], name + (b + (":" + (e + y))));
    SpaceTaken(b, ":" + (e + y));
    ElementTaken(e, depth, y);
    assert (":" + (e + y))[1..] == e + y;
  }

  lemma ElementSplit(t: Bytes, i: nat, j: nat, y: Bytes)
    requires i <= j <= |t|
    ensures t + y == t[..i] + (t[i..j] + (t[j..] + y))
  {
  }

  lemma CommaSplit(t: Bytes, i: nat, y: Bytes)
    requires i < |t| && t[i] == ','
    ensures t + y == t[..i] + ("," + (t[i + 1..] + y)) && ("," + (t[i + 1..] + y))[1..] == t[i + 1..] + y
  {
  }

  lemma MemberSplit(t: Bytes, i: nat, j: nat, k: nat, y: Bytes)
    requires i <= j <= k < |t| && t[k] == ':'
    ensures t + y == t[..i] + (t[i..j] + (t[j..k] + (":" + (t[k + 1..] + y))))
  {
  }

  lemma {:induction false} MembersTaken(t: Bytes, depth: nat, x: Bytes)
    requires IsMembers(t, depth)
    ensures Opens(SkipSpace(t + ("}" + x))) && Members(SkipSpace(t + ("}" + x)), depth) == Some(x)
    decreases |t|, 4
  {
    if IsMember(t, depth) {
      MemberTaken(t, depth, "}" + x);
    } else {
      var i :| 0 <= i < |t| && t[i] == ',' && IsMember(t[..i], depth) && IsMembers(t[i + 1..], depth);
      var y := "," + (t[i + 1..] + ("}" + x));
      CommaSplit(t, i, "}" + x);
      MemberTaken(t[..i], depth, y);
      MembersTaken(t[i + 1..], depth, x);
    }
  }

  // json.Valid accepts exactly the values, nested at most 10000 deep, with space
  // around them.
  lemma ValidIffText(s: Bytes)
    ensures Valid(s) <==> IsElement(s, 10000)
  {
    if Valid(s) {
      var a := SpaceSkipped(s);
      var e := ElementRead(SkipSpace(s), 10000);
      SpacedElement(a, e, 10000);
      assert s == a + e;
    }
    if IsElement(s, 10000) {
      ElementTaken(s, 10000, "");
      assert s + "" == s;
    }
  }
}
