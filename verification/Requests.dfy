/** Request normalisation and the fingerprint behind idempotency
    (internal/delivery/delivery.go:58-83, 145-311). */
module Requests {
  import opened Results
  import opened Text
  import opened Sorting
  import Names
  import Json
  import opened Deliveries

  datatype Request = Request(
    key: Bytes, url: Bytes, verb: Bytes, headers: map<Bytes, Bytes>, body: Bytes, maxAttempts: int)

  // What the model takes from net/url, net/http, strings and crypto/sha256.
  datatype Url = Url(scheme: Bytes, host: Bytes, hasUser: bool, fragment: Bytes)
  datatype Library = Library(
    trim: Bytes -> Bytes,
    upper: Bytes -> Bytes,
    canonicalHeader: Bytes -> Bytes,
    parseUrl: Bytes -> Option<Url>,
    digest: Bytes -> Bytes)

  const MAX_BODY_BYTES := 0x100000
  const MAX_KEY_BYTES := 256
  const MAX_URL_BYTES := 4096

  predicate Control(ch: char) { ch < ' ' || ch == '\U{007F}' }

  // url.Parse refuses a URL with a control byte in it.
  ghost predicate ParsesNoControls(lib: Library) {
    forall raw: Bytes, ch | lib.parseUrl(raw).Some? && ch in raw :: !Control(ch)
  }

  const SEPARATORS := "()<>@,;:\\\"/[]?={}"

  predicate TokenChar(ch: char) { ' ' < ch < '\U{007F}' && ch !in SEPARATORS }

  // validMethod and validHeaderName
  predicate Token(s: Bytes) { s != "" && forall ch | ch in s :: TokenChar(ch) }

  const RESERVED: set<Bytes> := {
    "Connection", "Content-Length", "Host", "Proxy-Connection", "Trailer", "Transfer-Encoding",
    "Upgrade", "X-Spoold-Attempt", "X-Spoold-Delivery-Id" }

  predicate OneLine(s: Bytes) { '\r' !in s && '\n' !in s }

  function HeaderName(lib: Library, name: Bytes): Bytes { lib.canonicalHeader(lib.trim(name)) }

  predicate HeaderAccepted(lib: Library, name: Bytes, value: Bytes) {
    Token(HeaderName(lib, name)) && HeaderName(lib, name) !in RESERVED && OneLine(value)
  }

  ghost predicate HeadersAccepted(lib: Library, headers: map<Bytes, Bytes>) {
    && (forall n | n in headers :: HeaderAccepted(lib, n, headers[n]))
    && (forall m, n | m in headers && n in headers && m != n :: HeaderName(lib, m) != HeaderName(lib, n))
  }

  predicate UrlAccepted(lib: Library, url: Bytes) {
    && url != "" && |url| <= MAX_URL_BYTES
    && lib.parseUrl(url).Some?
    && var u := lib.parseUrl(url).value;
       u.scheme in {"http", "https"} && u.host != "" && !u.hasUser && u.fragment == ""
  }

  function Verb(lib: Library, verb: Bytes): Bytes {
    var v := lib.upper(lib.trim(verb));
    if v == "" then "POST" else v
  }

  function Budget(maxAttempts: int): int { if maxAttempts == 0 then 8 else maxAttempts }

  ghost predicate Accepted(lib: Library, req: Request) {
    && |lib.trim(req.key)| <= MAX_KEY_BYTES
    && UrlAccepted(lib, lib.trim(req.url))
    && Token(Verb(lib, req.verb))
    && 1 <= Budget(req.maxAttempts) <= 100
    && HeadersAccepted(lib, req.headers)
    && |req.body| <= MAX_BODY_BYTES
  }

  // Printable ASCII other than the separators.
  predicate Printable(s: Bytes) {
    forall ch | ch in s :: 32 < ch as int < 127 && ch !in "()<>@,;:\\\"/[]?={}"
  }

  // What a request must be like, with every limit and every name written out.
  lemma AcceptedIff(lib: Library, req: Request)
    ensures Accepted(lib, req) <==>
      && |lib.trim(req.key)| <= 256 && |req.body| <= 1_048_576
      && GoodUrl(lib, lib.trim(req.url)) && Printable(lib.upper(lib.trim(req.verb)))
      && (req.maxAttempts == 0 || 1 <= req.maxAttempts <= 100)
      && (forall n | n in req.headers :: GoodHeader(lib.canonicalHeader(lib.trim(n)), req.headers[n]))
      && (forall m, n | m in req.headers && n in req.headers && m != n ::
            lib.canonicalHeader(lib.trim(m)) != lib.canonicalHeader(lib.trim(n)))
  {
    UrlIsGood(lib, lib.trim(req.url));
    TokenIsPrintable(lib.upper(lib.trim(req.verb)));
    PostIsPrintable();
    forall n | n in req.headers ensures
      HeaderAccepted(lib, n, req.headers[n]) <==> GoodHeader(lib.canonicalHeader(lib.trim(n)), req.headers[n])
    {
      HeaderIsGood(lib, n, req.headers[n]);
    }
  }

  ghost predicate GoodUrl(lib: Library, url: Bytes) {
    && 0 < |url| <= 4096 && lib.parseUrl(url).Some?
    && var u := lib.parseUrl(url).value;
      (u.scheme == "http" || u.scheme == "https") && u.host != "" && !u.hasUser && u.fragment == ""
  }

  predicate GoodHeader(name: Bytes, value: Bytes) {
    && name != "" && Printable(name) && '\r' !in value && '\n' !in value
    && name != "Connection" && name != "Content-Length" && name != "Host" && name != "Proxy-Connection"
    && name != "Trailer" && name != "Transfer-Encoding" && name != "Upgrade"
    && name != "X-Spoold-Attempt" && name != "X-Spoold-Delivery-Id"
  }

  lemma UrlIsGood(lib: Library, url: Bytes)
    ensures UrlAccepted(lib, url) <==> GoodUrl(lib, url)
  {
  }

  lemma HeaderIsGood(lib: Library, name: Bytes, value: Bytes)
    ensures HeaderAccepted(lib, name, value) <==> GoodHeader(lib.canonicalHeader(lib.trim(name)), value)
  {
    TokenIsPrintable(HeaderName(lib, name));
  }

  lemma PostIsPrintable()
    ensures Token("POST") && Printable("")
  {
    assert forall ch | ch in "POST" :: ch == 'P' || ch == 'O' || ch == 'S' || ch == 'T';
  }

  lemma TokenIsPrintable(s: Bytes)
    ensures Token(s) <==> s != "" && Printable(s)
  {
  }

  // What normalize guarantees of a request it returns.
  ghost predicate Normal(req: Request) {
    && (forall ch | ch in req.url :: !Control(ch))
    && Token(req.verb)
    && 1 <= req.maxAttempts <= 100
    && (forall n | n in req.headers :: Token(n) && OneLine(req.headers[n]))
  }

  // `headers` holds the pairs of `raw` named in `done` under their canonical names.
  ghost predicate HeadersOf(lib: Library, raw: map<Bytes, Bytes>, done: set<Bytes>, headers: map<Bytes, Bytes>) {
    && done <= raw.Keys
    && (forall n | n in done :: HeaderName(lib, n) in headers && headers[HeaderName(lib, n)] == raw[n])
    && (forall c | c in headers :: exists n :: n in done && HeaderName(lib, n) == c)
  }

  method NormalizeHeaders(lib: Library, raw: map<Bytes, Bytes>) returns (r: Result<map<Bytes, Bytes>>)
    ensures r.Ok? <==> HeadersAccepted(lib, raw)
    ensures r.Ok? ==> HeadersOf(lib, raw, raw.Keys, r.value)
  {
    var headers: map<Bytes, Bytes> := map[];
    var left := raw.Keys;
    ghost var done: set<Bytes> := {};
    while left != {}
      invariant left !! done && left + done == raw.Keys
      invariant HeadersOf(lib, raw, done, headers)
      invariant forall n | n in done :: HeaderAccepted(lib, n, raw[n])
      invariant forall m, n | m in done && n in done && m != n :: HeaderName(lib, m) != HeaderName(lib, n)
      decreases left
    {
      var name :| name in left;
      left := left - {name};
      var canonical := HeaderName(lib, name);
      if !HeaderAccepted(lib, name, raw[name]) { return Err(InvalidRequest); }
      if canonical in headers { return Err(InvalidRequest); }
      headers := headers[canonical := raw[name]];
      done := done + {name};
    }
    assert done == raw.Keys;
    return Ok(headers);
  }

  // n is the normalised form of an accepted request.
  ghost predicate NormalForm(lib: Library, req: Request, n: Request) {
    && n.key == lib.trim(req.key) && n.url == lib.trim(req.url)
    && n.verb == Verb(lib, req.verb) && n.maxAttempts == Budget(req.maxAttempts)
    && HeadersOf(lib, req.headers, req.headers.Keys, n.headers)
    && n.body == req.body
    && Normal(n)
  }

  // Whatever order the headers are visited in, there is only one.
  lemma NormalFormUnique(lib: Library, req: Request, m: Request, n: Request)
    requires NormalForm(lib, req, m) && NormalForm(lib, req, n)
    ensures m == n
  {
    assert forall c :: c in m.headers <==> c in n.headers;
    assert m.headers == n.headers;
  }

  method Normalize(lib: Library, req: Request) returns (r: Result<Request>)
    requires ParsesNoControls(lib)
    ensures r.Ok? <==> Accepted(lib, req)
    ensures r.Ok? ==> NormalForm(lib, req, r.value)
  {
    var key := lib.trim(req.key);
    if |key| > MAX_KEY_BYTES { return Err(InvalidRequest); }
    var url := lib.trim(req.url);
    if !UrlAccepted(lib, url) { return Err(InvalidRequest); }
    var verb := lib.upper(lib.trim(req.verb));
    if verb == "" { verb := "POST"; }
    if !Token(verb) { return Err(InvalidRequest); }
    var maxAttempts := req.maxAttempts;
    if maxAttempts == 0 { maxAttempts := 8; }
    if maxAttempts < 1 || maxAttempts > 100 { return Err(InvalidRequest); }
    var headers := NormalizeHeaders(lib, req.headers);
    if headers.Err? { return Err(InvalidRequest); }
    if |req.body| > MAX_BODY_BYTES { return Err(InvalidRequest); }
    return Ok(Request(key, url, verb, headers.value, req.body, maxAttempts));
  }

  function NewDelivery(req: Request, id: Bytes, now: int): Delivery {
    Delivery(id, req.key, req.url, req.verb, req.headers, req.body, Pending, 0, req.maxAttempts,
             now, NO_TIME, "", 0, now, now)
  }

  // A delivery as the request asks for it: trimmed, with the defaults for what it
  // leaves open, its headers under canonical names, due at once and untried.
  ghost predicate MadeFor(lib: Library, req: Request, d: Delivery, id: Bytes, now: int) {
    && d.id == id && d.key == lib.trim(req.key) && d.url == lib.trim(req.url)
    && d.verb == (if lib.upper(lib.trim(req.verb)) == "" then "POST" else lib.upper(lib.trim(req.verb)))
    && d.maxAttempts == (if req.maxAttempts == 0 then 8 else req.maxAttempts)
    && (forall n | n in req.headers ::
          lib.canonicalHeader(lib.trim(n)) in d.headers && d.headers[lib.canonicalHeader(lib.trim(n))] == req.headers[n])
    && (forall name | name in d.headers :: exists n :: n in req.headers && lib.canonicalHeader(lib.trim(n)) == name)
    && d.body == req.body
    && d.status.Pending? && d.attempts == 0 && d.leaseUntil == NO_TIME && d.lastError == "" && d.lastResponseCode == 0
    && d.nextAttemptAt == now && d.createdAt == now && d.updatedAt == now
  }

  lemma NewIsMadeFor(lib: Library, req: Request, normal: Request, id: Bytes, now: int)
    requires NormalForm(lib, req, normal)
    ensures MadeFor(lib, req, NewDelivery(normal, id, now), id, now)
  {
    var d := NewDelivery(normal, id, now);
    forall name | name in d.headers ensures exists n :: n in req.headers && lib.canonicalHeader(lib.trim(n)) == name {
      var n :| n in req.headers.Keys && HeaderName(lib, n) == name;
    }
  }

  // The bytes fed to SHA-256: lines for JSON and empty bodies, length-prefixed
  // fields under a version mark for any other body.
  function HeaderLines(names: seq<Bytes>, headers: map<Bytes, Bytes>): Bytes
    requires forall n | n in names :: n in headers
  {
    if names == [] then "" else
      HeaderLine(names[0], headers[names[0]]) + HeaderLines(names[1..], headers)
  }

  function HeaderLine(name: Bytes, value: Bytes): Bytes { name + ":" + value + "\n" }

  ghost function TextPreimage(req: Request): Bytes {
    req.verb + "\n" + (req.url + "\n" + (Decimal(Natural(req.maxAttempts)) + "\n"
      + (HeaderLines(Names.Sorted(req.headers.Keys), req.headers) + req.body)))
  }

  function Natural(n: int): nat { if n < 0 then 0 else n }

  function Field(value: Bytes): Bytes { Decimal(|value|) + ":" + value }

  function HeaderFields(names: seq<Bytes>, headers: map<Bytes, Bytes>): Bytes
    requires forall n | n in names :: n in headers
  {
    if names == [] then "" else
      Field(names[0]) + (Field(headers[names[0]]) + HeaderFields(names[1..], headers))
  }

  const BINARY_MARK := "spoold-request-v2\0"

  ghost function BinaryPreimage(req: Request): Bytes {
    BINARY_MARK + (Field(req.verb) + (Field(req.url) + (Field(Decimal(Natural(req.maxAttempts)))
      + (Decimal(|req.headers|) + ":" + (HeaderFields(Names.Sorted(req.headers.Keys), req.headers)
      + (Decimal(|req.body|) + ":" + req.body))))))
  }

  predicate TextBody(body: Bytes) { body == "" || Json.Valid(body) }

  ghost function Preimage(req: Request): Bytes {
    if TextBody(req.body) then TextPreimage(req) else BinaryPreimage(req)
  }

  // fingerprint: feeds the hash piece by piece.
  method Fingerprint(lib: Library, req: Request) returns (hash: Bytes)
    requires req.maxAttempts >= 0
    ensures hash == lib.digest(Preimage(req))
  {
    if !TextBody(req.body) {
      hash := BinaryFingerprint(lib, req);
      return;
    }
    var names := SortedHeaderNames(req.headers);
    ghost var rest := HeaderLines(names, req.headers) + req.body;
    var budget := Decimal(req.maxAttempts) + "\n";
    var fed := req.verb + "\n";
    Associative(fed, req.url + "\n", budget + rest);
    fed := fed + (req.url + "\n");
    Associative(fed, budget, rest);
    fed := fed + budget;
    var i := 0;
    while i < |names|
      invariant 0 <= i <= |names|
      invariant rest == HeaderLines(names[i..], req.headers) + req.body
      invariant fed + rest == TextPreimage(req)
    {
      var line := HeaderLine(names[i], req.headers[names[i]]);
      assert names[i..][1..] == names[i + 1..];
      Associative(line, HeaderLines(names[i + 1..], req.headers), req.body);
      rest := HeaderLines(names[i + 1..], req.headers) + req.body;
      Associative(fed, line, rest);
      fed := fed + line;
      i := i + 1;
    }
    assert rest == req.body;
    fed := fed + req.body;
    return lib.digest(fed);
  }

  method BinaryFingerprint(lib: Library, req: Request) returns (hash: Bytes)
    requires req.maxAttempts >= 0
    ensures hash == lib.digest(BinaryPreimage(req))
  {
    var names := SortedHeaderNames(req.headers);
    var budget, count := Field(Decimal(req.maxAttempts)), Decimal(|names|) + ":";
    var size := Decimal(|req.body|) + ":";
    ghost var end := size + req.body;
    ghost var rest := HeaderFields(names, req.headers) + end;
    var fed := BINARY_MARK;
    Associative(fed, Field(req.verb), Field(req.url) + (budget + (count + rest)));
    fed := fed + Field(req.verb);
    Associative(fed, Field(req.url), budget + (count + rest));
    fed := fed + Field(req.url);
    Associative(fed, budget, count + rest);
    fed := fed + budget;
    Associative(fed, count, rest);
    fed := fed + count;
    assert fed + rest == BinaryPreimage(req);
    Associative(fed, HeaderFields(names, req.headers), end);
    fed := FeedHeaderFields(fed, names, req.headers);
    Associative(fed, size, req.body);
    fed := fed + size + req.body;
    return lib.digest(fed);
  }

  method FeedHeaderFields(before: Bytes, names: seq<Bytes>, headers: map<Bytes, Bytes>) returns (fed: Bytes)
    requires forall i | 0 <= i < |names| :: names[i] in headers
    ensures fed == before + HeaderFields(names, headers)
  {
    fed := before;
    var i := 0;
    while i < |names|
      invariant 0 <= i <= |names|
      invariant fed + HeaderFields(names[i..], headers) == before + HeaderFields(names, headers)
    {
      var name, value := Field(names[i]), Field(headers[names[i]]);
      assert names[i..][1..] == names[i + 1..];
      Associative(fed, name, value + HeaderFields(names[i + 1..], headers));
      Associative(fed + name, value, HeaderFields(names[i + 1..], headers));
      fed := fed + name + value;
      i := i + 1;
    }
  }

  method SortedHeaderNames(headers: map<Bytes, Bytes>) returns (names: seq<Bytes>)
    ensures names == Names.Sorted(headers.Keys)
  {
    var found: seq<Bytes> := [];
    var left := headers.Keys;
    while left != {}
      invariant Elements(found) + left == headers.Keys && Elements(found) !! left
      invariant forall i, j | 0 <= i < j < |found| :: found[i] != found[j]
      decreases left
    {
      var name :| name in left;
      assert name !in Elements(found);
      found := found + [name];
      left := left - {name};
    }
    Names.SortIsSorted(found);
    names := Sort(Less, found);
  }
}

/** The hashed bytes determine the request. */
module FingerprintProofs {
  import opened Text
  import opened Sorting
  import Names
  import Json
  import opened Requests

  lemma {:induction false} FieldCut(a: Bytes, b: Bytes, x: Bytes, y: Bytes)
    requires Field(a) + x == Field(b) + y
    ensures a == b && x == y
  {
    assert Field(a) + x == Decimal(|a|) + [':'] + (a + x);
    assert Field(b) + y == Decimal(|b|) + [':'] + (b + y);
    CutAt(Decimal(|a|), Decimal(|b|), ':', a + x, b + y);
    DecimalInjective(|a|, |b|);
    assert a == (a + x)[..|a|] && b == (b + y)[..|a|];
    assert x == (a + x)[|a|..] && y == (b + y)[|a|..];
  }

  lemma CountCut(m: nat, n: nat, x: Bytes, y: Bytes)
    requires Decimal(m) + ":" + x == Decimal(n) + ":" + y
    ensures m == n && x == y
  {
    CutAt(Decimal(m), Decimal(n), ':', x, y);
    DecimalInjective(m, n);
  }

  // No text body can be read as the header line `name:...`.
  lemma BodyIsNoHeaderLine(body: Bytes, name: Bytes, rest: Bytes)
    requires TextBody(body) && Token(name)
    ensures body != name + ":" + rest
  {
    if body != "" && name <= body {
      assert body[0] == name[0] && TokenChar(name[0]);
      if !Json.IsSpace(body[0]) && body[0] != '"' && body[0] != '{' && body[0] != '[' {
        Json.ScalarTextHasNoColon(body);
        assert (name + ":" + rest)[|name|] == ':';
      }
    }
  }

  ghost predicate LineHeaders(names: seq<Bytes>, headers: map<Bytes, Bytes>) {
    forall n | n in names :: n in headers && Token(n) && OneLine(headers[n])
  }

  lemma LineCut(m: Bytes, v: Bytes, x: Bytes, n: Bytes, w: Bytes, y: Bytes)
    requires Token(m) && Token(n) && OneLine(v) && OneLine(w)
    requires HeaderLine(m, v) + x == HeaderLine(n, w) + y
    ensures m == n && v == w && x == y
  {
    assert HeaderLine(m, v) + x == m + [':'] + (v + ['\n'] + x);
    assert HeaderLine(n, w) + y == n + [':'] + (w + ['\n'] + y);
    CutAt(m, n, ':', v + ['\n'] + x, w + ['\n'] + y);
    CutAt(v, w, '\n', x, y);
  }

  lemma BodyIsNoHeaderBlock(body: Bytes, names: seq<Bytes>, headers: map<Bytes, Bytes>, rest: Bytes)
    requires TextBody(body) && names != [] && LineHeaders(names, headers)
    ensures body != HeaderLines(names, headers) + rest
  {
    var after := headers[names[0]] + "\n" + (HeaderLines(names[1..], headers) + rest);
    BodyIsNoHeaderLine(body, names[0], after);
    assert HeaderLines(names, headers) + rest == names[0] + ":" + after;
  }

  lemma {:induction false} HeaderLinesCut(p: seq<Bytes>, g: map<Bytes, Bytes>, b: Bytes,
                                          q: seq<Bytes>, h: map<Bytes, Bytes>, c: Bytes)
    requires LineHeaders(p, g) && LineHeaders(q, h) && TextBody(b) && TextBody(c)
    requires HeaderLines(p, g) + b == HeaderLines(q, h) + c
    ensures p == q && b == c && (forall n | n in p :: g[n] == h[n])
  {
    if p == [] {
      assert HeaderLines(p, g) + b == b;
      if q != [] { BodyIsNoHeaderBlock(b, q, h, c); } else { assert HeaderLines(q, h) + c == c; }
    } else if q == [] {
      assert HeaderLines(q, h) + c == c;
      BodyIsNoHeaderBlock(c, p, g, b);
    } else {
      var x, y := HeaderLines(p[1..], g) + b, HeaderLines(q[1..], h) + c;
      Associative(HeaderLine(p[0], g[p[0]]), HeaderLines(p[1..], g), b);
      Associative(HeaderLine(q[0], h[q[0]]), HeaderLines(q[1..], h), c);
      LineCut(p[0], g[p[0]], x, q[0], h[q[0]], y);
      HeaderLinesCut(p[1..], g, b, q[1..], h, c);
      assert p == [p[0]] + p[1..] && q == [q[0]] + q[1..];
    }
  }

  lemma {:induction false} HeaderFieldsCut(p: seq<Bytes>, g: map<Bytes, Bytes>, b: Bytes,
                                           q: seq<Bytes>, h: map<Bytes, Bytes>, c: Bytes)
    requires |p| == |q| && (forall n | n in p :: n in g) && (forall n | n in q :: n in h)
    requires HeaderFields(p, g) + b == HeaderFields(q, h) + c
    ensures p == q && b == c && (forall n | n in p :: g[n] == h[n])
  {
    if p == [] {
      assert HeaderFields(p, g) + b == b && HeaderFields(q, h) + c == c;
    } else {
      var x, y := HeaderFields(p[1..], g) + b, HeaderFields(q[1..], h) + c;
      assert HeaderFields(p, g) + b == Field(p[0]) + (Field(g[p[0]]) + x);
      assert HeaderFields(q, h) + c == Field(q[0]) + (Field(h[q[0]]) + y);
      FieldCut(p[0], q[0], Field(g[p[0]]) + x, Field(h[q[0]]) + y);
      FieldCut(g[p[0]], h[q[0]], x, y);
      HeaderFieldsCut(p[1..], g, b, q[1..], h, c);
      assert p == [p[0]] + p[1..] && q == [q[0]] + q[1..];
    }
  }

  lemma SameListingSameHeaders(g: map<Bytes, Bytes>, h: map<Bytes, Bytes>)
    requires Names.Sorted(g.Keys) == Names.Sorted(h.Keys)
    requires forall n | n in Names.Sorted(g.Keys) :: n in g && n in h && g[n] == h[n]
    ensures g == h
  {
    assert g.Keys == Elements(Names.Sorted(g.Keys)) == h.Keys;
  }

  // The hashed fields of a request: everything but the key.
  ghost predicate SameContent(r: Request, s: Request) {
    && r.verb == s.verb && r.url == s.url && r.maxAttempts == s.maxAttempts
    && r.headers == s.headers && r.body == s.body
  }

  lemma TextUnambiguous(r: Request, s: Request)
    requires Normal(r) && Normal(s) && TextBody(r.body) && TextBody(s.body)
    requires TextPreimage(r) == TextPreimage(s)
    ensures SameContent(r, s)
  {
    var p, q := Names.Sorted(r.headers.Keys), Names.Sorted(s.headers.Keys);
    assert Elements(p) == r.headers.Keys && Elements(q) == s.headers.Keys;
    var x3, y3 := HeaderLines(p, r.headers) + r.body, HeaderLines(q, s.headers) + s.body;
    var x2, y2 := Decimal(r.maxAttempts) + "\n" + x3, Decimal(s.maxAttempts) + "\n" + y3;
    var x1, y1 := r.url + "\n" + x2, s.url + "\n" + y2;
    assert '\n' !in r.verb && '\n' !in s.verb by { assert !TokenChar('\n'); }
    assert '\n' !in r.url && '\n' !in s.url by { assert Control('\n'); }
    CutAt(r.verb, s.verb, '\n', x1, y1);
    CutAt(r.url, s.url, '\n', x2, y2);
    CutAt(Decimal(r.maxAttempts), Decimal(s.maxAttempts), '\n', x3, y3);
    DecimalInjective(r.maxAttempts, s.maxAttempts);
    assert forall n | n in p :: n in Elements(p);
    assert forall n | n in q :: n in Elements(q);
    HeaderLinesCut(p, r.headers, r.body, q, s.headers, s.body);
    SameListingSameHeaders(r.headers, s.headers);
  }

  lemma BinaryUnambiguous(r: Request, s: Request)
    requires r.maxAttempts >= 0 && s.maxAttempts >= 0
    requires BinaryPreimage(r) == BinaryPreimage(s)
    ensures SameContent(r, s)
  {
    var p, q := Names.Sorted(r.headers.Keys), Names.Sorted(s.headers.Keys);
    assert Elements(p) == r.headers.Keys && Elements(q) == s.headers.Keys;
    assert forall n | n in p :: n in Elements(p);
    assert forall n | n in q :: n in Elements(q);
    var x6, y6 := Decimal(|r.body|) + ":" + r.body, Decimal(|s.body|) + ":" + s.body;
    var x5, y5 := HeaderFields(p, r.headers) + x6, HeaderFields(q, s.headers) + y6;
    var x4, y4 := Decimal(|r.headers|) + ":" + x5, Decimal(|s.headers|) + ":" + y5;
    var x3, y3 := Field(Decimal(r.maxAttempts)) + x4, Field(Decimal(s.maxAttempts)) + y4;
    var x2, y2 := Field(r.url) + x3, Field(s.url) + y3;
    var x1, y1 := Field(r.verb) + x2, Field(s.verb) + y2;
    assert x1 == BinaryPreimage(r)[|BINARY_MARK|..] && y1 == BinaryPreimage(s)[|BINARY_MARK|..];
    FieldCut(r.verb, s.verb, x2, y2);
    FieldCut(r.url, s.url, x3, y3);
    FieldCut(Decimal(r.maxAttempts), Decimal(s.maxAttempts), x4, y4);
    DecimalInjective(r.maxAttempts, s.maxAttempts);
    CountCut(|r.headers|, |s.headers|, x5, y5);
    HeaderFieldsCut(p, r.headers, x6, q, s.headers, y6);
    SameListingSameHeaders(r.headers, s.headers);
    CountCut(|r.body|, |s.body|, r.body, s.body);
  }

  // A request line cannot run over the NUL of the binary mark.
  lemma FormatsAreApart(r: Request, s: Request)
    requires Normal(r)
    ensures TextPreimage(r) != BinaryPreimage(s)
  {
    var t, b := TextPreimage(r), BinaryPreimage(s);
    assert t[|r.verb|] == '\n' && r.verb == t[..|r.verb|];
    assert b[..18] == BINARY_MARK && b[17] == '\0';
    if |r.verb| > 17 {
      assert t[17] == r.verb[17] && TokenChar(r.verb[17]);
    } else {
      assert BINARY_MARK[|r.verb|] == b[|r.verb|];
      assert forall i | 0 <= i < 18 :: BINARY_MARK[i] != '\n';
    }
  }

  // Two normalised requests have the same hashed bytes exactly when they agree
  // on method, URL, attempt budget, headers and body.
  lemma PreimageUnambiguous(r: Request, s: Request)
    requires Normal(r) && Normal(s)
    ensures Preimage(r) == Preimage(s) <==> SameContent(r, s)
  {
    if Preimage(r) == Preimage(s) {
      if TextBody(r.body) && TextBody(s.body) { TextUnambiguous(r, s); }
      else if TextBody(r.body) { FormatsAreApart(r, s); }
      else if TextBody(s.body) { FormatsAreApart(s, r); }
      else { BinaryUnambiguous(r, s); }
    }
  }

  // With a collision-free digest the stored hash identifies the request.
  lemma HashIdentifiesRequest(lib: Library, r: Request, s: Request)
    requires Normal(r) && Normal(s)
    requires forall x, y | lib.digest(x) == lib.digest(y) :: x == y
    ensures lib.digest(Preimage(r)) == lib.digest(Preimage(s)) <==> SameContent(r, s)
  {
    PreimageUnambiguous(r, s);
  }
  // The formats written out, for requests with one header. Stored hashes are
  // compared with those of later releases, so the formats may not change.
  lemma TextFormat(req: Request, name: Bytes, value: Bytes)
    requires req.headers == map[name := value] && req.maxAttempts >= 0 && TextBody(req.body)
    ensures Preimage(req) == req.verb + "\n" + (req.url + "\n" + (Decimal(req.maxAttempts) + "\n"
      + (name + ":" + value + "\n" + req.body)))
  {
    OneName(req.headers, name, value);
    assert HeaderLines([name], req.headers) == name + ":" + value + "\n" + HeaderLines([], req.headers);
    assert name + ":" + value + "\n" + "" == name + ":" + value + "\n";
  }

  lemma BinaryFormat(req: Request, name: Bytes, value: Bytes)
    requires req.headers == map[name := value] && req.maxAttempts >= 0 && req.body != "" && !Json.Valid(req.body)
    ensures Preimage(req) == "spoold-request-v2\0" + (Field(req.verb) + (Field(req.url) + (Field(Decimal(req.maxAttempts))
      + ("1:" + (Field(name) + Field(value) + Field(req.body))))))
  {
    var fields, count := HeaderFields(Names.Sorted(req.headers.Keys), req.headers), Decimal(|req.headers|) + ":";
    OneName(req.headers, name, value);
    OneField(req.headers, name, value);
    assert fields == Field(name) + Field(value) && count == "1:";
  }

  lemma OneField(headers: map<Bytes, Bytes>, name: Bytes, value: Bytes)
    requires headers == map[name := value]
    ensures HeaderFields([name], headers) == Field(name) + Field(value)
  {
    assert HeaderFields([name], headers) == Field(name) + (Field(value) + HeaderFields([name][1..], headers));
    assert Field(value) + "" == Field(value);
  }

  // A field is its length in bytes, a colon and then as many bytes.
  lemma FieldFormat(value: Bytes)
    ensures var i := IndexOf(Field(value), ':');
      i < |Field(value)| && NumberOf(Field(value)[..i]) == |value| && Field(value)[i + 1..] == value
  {
    IndexOfCut(Decimal(|value|), ':', value);
    DecimalReads(|value|);
    assert Field(value)[..|Decimal(|value|)|] == Decimal(|value|);
  }

  lemma OneName(headers: map<Bytes, Bytes>, name: Bytes, value: Bytes)
    requires headers == map[name := value]
    ensures Names.Sorted(headers.Keys) == [name] && |headers| == 1
  {
    assert headers.Keys == {name} && Elements([name]) == {name};
    Names.LessIsStrict({name});
    ListsUnique(Less, Names.Sorted({name}), [name], {name});
  }

  // And of two headers the one with the smaller name comes first.
  lemma NamesInOrder(headers: map<Bytes, Bytes>, m: Bytes, n: Bytes)
    requires headers.Keys == {m, n} && Less(m, n)
    ensures Names.Sorted(headers.Keys) == [m, n]
  {
    assert Elements([m, n]) == {m, n};
    LessIrreflexive(m);
    Names.LessIsStrict({m, n});
    ListsUnique(Less, Names.Sorted({m, n}), [m, n], {m, n});
  }
}
