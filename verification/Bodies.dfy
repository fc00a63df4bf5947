/** The two ways a delivery's body is written into JSON
    (internal/delivery/delivery.go:91-143). */
module Bodies {
  import opened Results
  import opened Text
  import Json
  import opened Journal
  import opened Requests
  import opened FingerprintProofs
  import MiniCodec

  // What the model takes from encoding/json and encoding/base64: `compact` is the
  // form json.Marshal gives a raw message.
  datatype Encoding = Encoding(
    compact: Bytes -> Bytes,
    toBase64: Bytes -> Bytes,
    fromBase64: Bytes -> Option<Bytes>)

  ghost predicate Sound(e: Encoding) {
    && (forall b: Bytes {:trigger e.compact(b)} | Json.Valid(b) ::
          e.compact(b) != "" && Json.Valid(e.compact(b)) && e.compact(e.compact(b)) == e.compact(b))
    && (forall b: Bytes {:trigger e.toBase64(b)} | b != "" ::
          e.toBase64(b) != "" && e.fromBase64(e.toBase64(b)) == Some(b))
  }

  // The body fields of the JSON object; an empty raw body is left out.
  datatype Wire = Wire(body: Bytes, bodyBase64: Option<Bytes>)

  // MarshalJSON
  function Marshal(e: Encoding, body: Bytes): Wire {
    if |body| == 0 then Wire("", None)
    else if Json.Valid(body) then Wire(e.compact(body), None)
    else Wire("", Some(e.toBase64(body)))
  }

  // UnmarshalJSON
  function Unmarshal(e: Encoding, w: Wire): Option<Bytes> {
    if |w.body| > 0 && w.bodyBase64.Some? then None
    else if w.bodyBase64.Some? then e.fromBase64(w.bodyBase64.value)
    else Some(w.body)
  }

  function CanonBody(e: Encoding): Bytes -> Bytes {
    (b: Bytes) => if Json.Valid(b) then e.compact(b) else b
  }

  lemma EmptyIsNotJson()
    ensures !Json.Valid("")
  {
  }

  // A body read back is a JSON body compacted or any other body exactly; writing
  // it again writes the same.
  lemma BodyRoundTrip(e: Encoding, body: Bytes)
    requires Sound(e)
    ensures Unmarshal(e, Marshal(e, body)) == Some(CanonBody(e)(body))
    ensures Marshal(e, CanonBody(e)(body)) == Marshal(e, body)
    ensures CanonBody(e)(CanonBody(e)(body)) == CanonBody(e)(body)
    ensures !Json.Valid(body) ==> Unmarshal(e, Marshal(e, body)) == Some(body)
    ensures Json.Valid(body) ==>
      Unmarshal(e, Marshal(e, body)) == Some(e.compact(body)) && Marshal(e, body) == Wire(e.compact(body), None)
    ensures !Json.Valid(body) && body != "" ==> Marshal(e, body) == Wire("", Some(e.toBase64(body)))
  {
    EmptyIsNotJson();
  }

  // An object with both fields is refused, and so is what is not base64.
  lemma BadBodiesAreRefused(e: Encoding, raw: Bytes, text: Bytes)
    ensures Unmarshal(e, Wire(raw, Some(text))).None? <==> raw != "" || e.fromBase64(text).None?
    ensures Unmarshal(e, Wire(raw, None)) == Some(raw)
  {
  }

  // The two fields as one text.
  function WireText(w: Wire): Bytes {
    Field(w.body) + (if w.bodyBase64.Some? then "+" + w.bodyBase64.value else "")
  }

  lemma WireTextInjective(v: Wire, w: Wire)
    requires WireText(v) == WireText(w)
    ensures v == w
  {
    var x := if v.bodyBase64.Some? then "+" + v.bodyBase64.value else "";
    var y := if w.bodyBase64.Some? then "+" + w.bodyBase64.value else "";
    FieldCut(v.body, w.body, x, y);
    if v.bodyBase64.Some? { assert v.bodyBase64.value == x[1..] == y[1..] == w.bodyBase64.value; }
  }

  ghost function ReadWire(e: Encoding, x: Bytes): Option<Bytes> {
    if w: Wire :| WireText(w) == x then Unmarshal(e, w) else None
  }

  // Records whose bodies are written by Marshal and read by Unmarshal.
  ghost function BodyForm(e: Encoding, canonText: Bytes -> Bytes): MiniCodec.Form {
    MiniCodec.Form(b => WireText(Marshal(e, b)), x => ReadWire(e, x), canonText)
  }

  lemma ReadWritten(e: Encoding, body: Bytes)
    requires Sound(e)
    ensures ReadWire(e, WireText(Marshal(e, body))) == Some(CanonBody(e)(body))
  {
    var x := WireText(Marshal(e, body));
    var w: Wire :| WireText(w) == x && ReadWire(e, x) == Unmarshal(e, w);
    WireTextInjective(w, Marshal(e, body));
    BodyRoundTrip(e, body);
  }

  // So a journal codec that writes bodies this way can meet every law.
  lemma BodiesAllowLawfulCodec(e: Encoding, canonText: Bytes -> Bytes)
    requires Sound(e) && canonText("") == "" && forall t {:trigger canonText(t)} :: canonText(canonText(t)) == canonText(t)
    ensures Lawful(MiniCodec.Mini(BodyForm(e, canonText)))
    ensures forall b :: MiniCodec.Mini(BodyForm(e, canonText)).canonBody(b) == CanonBody(e)(b)
  {
    var f := BodyForm(e, canonText);
    forall b ensures f.read(f.write(b)) == Some(CanonBody(e)(b)) && f.write(f.read(f.write(b)).value) == f.write(b) {
      ReadWritten(e, b);
      BodyRoundTrip(e, b);
    }
    MiniCodec.LawsAreSatisfiable(f);
  }
}
