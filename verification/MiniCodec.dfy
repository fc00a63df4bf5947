/** A record format that meets every law asked of the journal's codec, for any
    canonical form of bodies and texts. */
module MiniCodec {
  import opened Results
  import opened Text
  import opened Sorting
  import Names
  import opened Deliveries
  import opened Journal
  import opened Requests
  import opened FingerprintProofs

  function Integer(n: int): Bytes { if n < 0 then "-" + Decimal(-n) else Decimal(n) }

  lemma IntegerInjective(m: int, n: int)
    requires Integer(m) == Integer(n)
    ensures m == n
  {
    assert forall k: nat :: Decimal(k)[0] in Decimal(k);
    assert Integer(m)[0] == '-' <==> m < 0;
    assert Integer(n)[0] == '-' <==> n < 0;
    if m < 0 {
      assert Decimal(-m) == Integer(m)[1..] && Decimal(-n) == Integer(n)[1..];
      DecimalInjective(-m, -n);
    } else {
      DecimalInjective(m, n);
    }
  }

  function Name(s: Status): Bytes {
    match s
    case Pending => "pending"
    case InFlight => "in_flight"
    case Succeeded => "succeeded"
    case Failed => "failed"
    case Canceled => "canceled"
  }

  function Fields(parts: seq<Bytes>): Bytes {
    if parts == [] then "" else Field(parts[0]) + Fields(parts[1..])
  }

  lemma {:induction false} FieldsInjective(p: seq<Bytes>, q: seq<Bytes>)
    requires |p| == |q| && Fields(p) == Fields(q)
    ensures p == q
  {
    if p != [] {
      FieldCut(p[0], q[0], Fields(p[1..]), Fields(q[1..]));
      FieldsInjective(p[1..], q[1..]);
      assert p == [p[0]] + p[1..] && q == [q[0]] + q[1..];
    }
  }

  ghost function Headers(h: map<Bytes, Bytes>): Bytes {
    Decimal(|h|) + ":" + HeaderFields(Names.Sorted(h.Keys), h)
  }

  lemma HeadersInjective(g: map<Bytes, Bytes>, h: map<Bytes, Bytes>)
    requires Headers(g) == Headers(h)
    ensures g == h
  {
    var p, q := Names.Sorted(g.Keys), Names.Sorted(h.Keys);
    assert Elements(p) == g.Keys && Elements(q) == h.Keys;
    assert forall n | n in p :: n in Elements(p);
    assert forall n | n in q :: n in Elements(q);
    CountCut(|g|, |h|, HeaderFields(p, g), HeaderFields(q, h));
    assert HeaderFields(p, g) + "" == HeaderFields(q, h) + "";
    HeaderFieldsCut(p, g, "", q, h, "");
    SameListingSameHeaders(g, h);
  }

  ghost function Parts(d: Delivery): seq<Bytes> {
    [d.id, d.key, d.url, d.verb, Headers(d.headers), d.body, Name(d.status), Integer(d.attempts),
     Integer(d.maxAttempts), Integer(d.nextAttemptAt), Integer(d.leaseUntil), d.lastError,
     Integer(d.lastResponseCode), Integer(d.createdAt), Integer(d.updatedAt)]
  }

  lemma PartsInjective(d: Delivery, e: Delivery)
    requires Parts(d) == Parts(e)
    ensures d == e
  {
    var p, q := Parts(d), Parts(e);
    assert forall i | 0 <= i < 15 :: p[i] == q[i];
    HeadersInjective(d.headers, e.headers);
    assert Name(d.status) == p[6] == q[6] == Name(e.status);
    IntegerInjective(d.attempts, e.attempts);
    IntegerInjective(d.maxAttempts, e.maxAttempts);
    IntegerInjective(d.nextAttemptAt, e.nextAttemptAt);
    IntegerInjective(d.leaseUntil, e.leaseUntil);
    IntegerInjective(d.lastResponseCode, e.lastResponseCode);
    IntegerInjective(d.createdAt, e.createdAt);
    IntegerInjective(d.updatedAt, e.updatedAt);
  }

  ghost function Flat(r: Record): Bytes {
    Fields([Integer(r.version), if r.delivery.Some? then "+" + Fields(Parts(r.delivery.value)) else "",
            r.requestHash, r.deletedId])
  }

  lemma FlatInjective(r: Record, s: Record)
    requires Flat(r) == Flat(s)
    ensures r == s
  {
    var p := [Integer(r.version), if r.delivery.Some? then "+" + Fields(Parts(r.delivery.value)) else "",
              r.requestHash, r.deletedId];
    var q := [Integer(s.version), if s.delivery.Some? then "+" + Fields(Parts(s.delivery.value)) else "",
              s.requestHash, s.deletedId];
    FieldsInjective(p, q);
    assert forall i | 0 <= i < 4 :: p[i] == q[i];
    IntegerInjective(r.version, s.version);
    if r.delivery.Some? {
      assert Fields(Parts(r.delivery.value)) == p[1][1..] == q[1][1..] == Fields(Parts(s.delivery.value));
      FieldsInjective(Parts(r.delivery.value), Parts(s.delivery.value));
      PartsInjective(r.delivery.value, s.delivery.value);
    }
  }

  // Every char as its code and a semicolon.
  function Codes(s: Bytes): (r: Bytes)
    ensures forall ch | ch in r :: '0' <= ch <= '9' || ch == ';'
  {
    if s == "" then "" else Decimal(s[0] as int) + ";" + Codes(s[1..])
  }

  lemma {:induction false} CodesInjective(s: Bytes, t: Bytes)
    requires Codes(s) == Codes(t)
    ensures s == t
  {
    if s != "" && t != "" {
      CutAt(Decimal(s[0] as int), Decimal(t[0] as int), ';', Codes(s[1..]), Codes(t[1..]));
      DecimalInjective(s[0] as int, t[0] as int);
      CodesInjective(s[1..], t[1..]);
      assert s == [s[0]] + s[1..] && t == [t[0]] + t[1..];
    }
  }

  // How bodies are written and read, and what becomes of error texts.
  datatype Form = Form(write: Bytes -> Bytes, read: Bytes -> Option<Bytes>, text: Bytes -> Bytes)

  // What is written can be read, and what was read is written as before.
  ghost predicate Faithful(f: Form) {
    && (forall b {:trigger f.write(b)} :: f.read(f.write(b)).Some? && f.write(f.read(f.write(b)).value) == f.write(b))
    && (forall t {:trigger f.text(t)} :: f.text(f.text(t)) == f.text(t))
    && f.text("") == ""
  }

  function ReadBody(f: Form, x: Bytes): Bytes { if f.read(x).Some? then f.read(x).value else x }

  ghost function Written(f: Form, r: Record): Record {
    r.(delivery := if r.delivery.None? then None else
         Some(r.delivery.value.(body := f.write(r.delivery.value.body), lastError := f.text(r.delivery.value.lastError))))
  }

  ghost function Read(f: Form, w: Record): Record {
    w.(delivery := if w.delivery.None? then None else
         Some(w.delivery.value.(body := ReadBody(f, w.delivery.value.body))))
  }

  ghost function Encode(f: Form, r: Record): Bytes { "{" + Codes(Flat(Written(f, r))) + "}" }

  ghost function Decode(f: Form, x: Bytes): Option<Record> {
    if r: Record :| Encode(f, r) == x then Some(Read(f, Written(f, r))) else None
  }

  ghost function Mini(f: Form): Codec {
    Codec(r => Encode(f, r), x => Decode(f, x), b => ReadBody(f, f.write(b)), f.text)
  }

  lemma EncodeInjective(f: Form, r: Record, s: Record)
    requires Encode(f, r) == Encode(f, s)
    ensures Written(f, r) == Written(f, s)
  {
    var a, b := Codes(Flat(Written(f, r))), Codes(Flat(Written(f, s)));
    var x, y := Encode(f, r), Encode(f, s);
    assert a == x[1..|x| - 1] && b == y[1..|y| - 1];
    CodesInjective(Flat(Written(f, r)), Flat(Written(f, s)));
    FlatInjective(Written(f, r), Written(f, s));
  }

  lemma EncodeShape(f: Form, r: Record)
    ensures var x := Encode(f, r);
      && |x| >= 2 && x[0] == '{' && x[|x| - 1] == '}'
      && (forall i | 0 < i < |x| :: x[i] != '{' && x[i] != NEWLINE)
      && (forall i | 0 <= i < |x| - 1 :: x[i] != '}')
  {
    var a := Codes(Flat(Written(f, r)));
    var x := Encode(f, r);
    assert x == ['{'] + a + ['}'];
    assert forall i | 0 < i < |x| - 1 :: x[i] == a[i - 1] && a[i - 1] in a;
  }

  lemma CutDoesNotDecode(f: Form, r: Record, p: Bytes)
    requires p <= Encode(f, r) && p != Encode(f, r)
    ensures Decode(f, p).None?
  {
    EncodeShape(f, r);
    forall s: Record ensures Encode(f, s) != p { EncodeShape(f, s); }
  }

  lemma JoinDoesNotDecode(f: Form, r: Record, p: Bytes, q: Record)
    requires p <= Encode(f, r) && p != ""
    ensures Decode(f, p + Encode(f, q)).None?
  {
    var x := p + Encode(f, q);
    EncodeShape(f, q);
    assert x[|p|] == '{';
    forall s: Record ensures Encode(f, s) != x { EncodeShape(f, s); }
  }

  // What is decoded is the canonical form, and it is encoded as before.
  lemma DecodeEncode(f: Form, r: Record)
    requires Faithful(f)
    ensures Decode(f, Encode(f, r)) == Some(CanonRecord(Mini(f), r)) && NEWLINE !in Encode(f, r)
    ensures Encode(f, CanonRecord(Mini(f), r)) == Encode(f, r)
  {
    var x := Encode(f, r);
    var s: Record :| Encode(f, s) == x && Decode(f, x) == Some(Read(f, Written(f, s)));
    EncodeInjective(f, r, s);
    EncodeShape(f, r);
    assert Read(f, Written(f, r)) == CanonRecord(Mini(f), r);
    assert Written(f, CanonRecord(Mini(f), r)) == Written(f, r);
  }

  // The laws asked of the codec can all hold at once.
  lemma LawsAreSatisfiable(f: Form)
    requires Faithful(f)
    ensures Lawful(Mini(f))
  {
    var c := Mini(f);
    forall r: Record
      ensures c.decode(c.encode(r)) == Some(CanonRecord(c, r)) && NEWLINE !in c.encode(r)
      ensures c.encode(CanonRecord(c, r)) == c.encode(r)
    {
      DecodeEncode(f, r);
    }
    forall r: Record, p: Bytes | p <= c.encode(r) && p != c.encode(r) ensures c.decode(p).None? {
      CutDoesNotDecode(f, r, p);
    }
    forall r: Record, p: Bytes, q: Record | p <= c.encode(r) && p != "" ensures c.decode(p + c.encode(q)).None? {
      JoinDoesNotDecode(f, r, p, q);
    }
  }
}
