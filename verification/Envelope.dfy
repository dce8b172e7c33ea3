/** What the phone makes of an answer's text, and the proof that every reply arrives as what it is. */
module Envelope {
  import opened Prelude
  import opened Text
  import opened Base64Url
  import opened Crypto
  import opened Auth
  import opened Canonical
  import opened Unicode
  import opened Json
  import opened JsonReader
  import opened Middleware
  import opened Exchange

  /** What a call returns or throws; None stands for a value that is not there. */
  datatype Parsed =
    | Data(data: Option<Json>)
    | Thrown(code: Option<Json>, message: Option<Json>, status: nat)
    | Malformed(status: nat)

  /** The value of a field; of several with one name the last counts. */
  function Field(fields: seq<(UText, Json)>, name: string): Option<Json>
  {
    if fields == [] then None
    else if fields[|fields| - 1].0 == Points(name) then Some(fields[|fields| - 1].1)
    else Field(fields[..|fields| - 1], name)
  }

  /** What counts as true. */
  predicate Truthy(j: Json)
  {
    match j
    case Null => false
    case Bool(b) => b
    case Number(n) => n != 0
    case String(text) => text != []
    case Arr(_) => true
    case Obj(_) => true
  }

  function FieldOf(j: Json, name: string): Option<Json> { if j.Obj? then Field(j.fields, name) else None }

  /** The phone's reading of an envelope. */
  function ParseEnvelope(text: UText, status: nat): Parsed
  {
    match ReadJson(text)
    case None => Malformed(status)
    case Some(parsed) =>
      if !parsed.Obj? || Field(parsed.fields, "ok").None? then Malformed(status)
      else if Truthy(Field(parsed.fields, "ok").value) then Data(Field(parsed.fields, "data"))
      else
        var error := Field(parsed.fields, "error");
        if error.None? || error.value.Null?
        then Thrown(Some(String(Points("internal_error"))), Some(String(Points("unknown error"))), status)
        else Thrown(FieldOf(error.value, "code"), FieldOf(error.value, "message"), status)
  }

  /** What a reply must arrive as. */
  function Meant(reply: Reply): Parsed
  {
    match reply
    case Success(data) => Data(Some(data))
    case Failure(status, code, message) => Thrown(Some(String(Points(code))), Some(String(message)), status)
  }

  lemma NamesApart(a: string, b: string)
    requires a != b
    ensures Points(a) != Points(b)
  {
    if Points(a) == Points(b) {
      assert |a| == |Points(a)| == |Points(b)| == |b|;
      forall i | 0 <= i < |a| ensures a[i] == b[i] { assert Points(a)[i] == Points(b)[i]; }
    }
  }

  lemma LastField(fields: seq<(UText, Json)>, name: string, value: Json, wanted: string)
    ensures Field(fields + [(Points(name), value)], wanted) == if name == wanted then Some(value)
              else Field(fields, wanted)
  {
    if name != wanted { NamesApart(name, wanted); }
    assert (fields + [(Points(name), value)])[..|fields|] == fields;
  }

  lemma ThreeFields(a: string, x: Json, b: string, y: Json, c: string, z: Json, wanted: string)
    ensures Field([(Points(a), x), (Points(b), y), (Points(c), z)], wanted)
         == if c == wanted then Some(z) else if b == wanted then Some(y) else if a == wanted then Some(x) else None
  {
    LastField([], a, x, wanted);
    LastField([(Points(a), x)], b, y, wanted);
    LastField([(Points(a), x), (Points(b), y)], c, z, wanted);
    assert [] + [(Points(a), x)] == [(Points(a), x)];
    assert [(Points(a), x)] + [(Points(b), y)] == [(Points(a), x), (Points(b), y)];
    assert [(Points(a), x), (Points(b), y)] + [(Points(c), z)] == [(Points(a), x), (Points(b), y), (Points(c), z)];
    hide Points;
  }

  lemma TwoFields(a: string, x: Json, b: string, y: Json, wanted: string)
    ensures Field([(Points(a), x), (Points(b), y)], wanted)
         == if b == wanted then Some(y) else if a == wanted then Some(x) else None
  {
    LastField([], a, x, wanted);
    LastField([(Points(a), x)], b, y, wanted);
    assert [] + [(Points(a), x)] == [(Points(a), x)];
    assert [(Points(a), x)] + [(Points(b), y)] == [(Points(a), x), (Points(b), y)];
    hide Points;
  }

  /** A rendered reply is read as what it is. */
  lemma PayloadMeans(ts: int, reply: Reply)
    ensures ParseEnvelope(Render(Payload(ts, reply)), StatusOf(reply)) == Meant(reply)
              && (reply.Success? ==> StatusOf(reply) == 200)
  {
    RenderReadsBack(Payload(ts, reply));
    match reply
    case Success(data) =>
      forall wanted: string
        ensures Field(Payload(ts, reply).fields, wanted)
             == if wanted == "data" then Some(data) else if wanted == "ts" then Some(Number(ts))
                else if wanted == "ok" then Some(Bool(true)) else None
      {
        ThreeFields("ok", Bool(true), "ts", Number(ts), "data", data, wanted);
      }
      hide Render, ReadJson, Points, Field;
    case Failure(status, code, message) =>
      var error := Obj([(Points("code"), String(Points(code))), (Points("message"), String(message))]);
      forall wanted: string
        ensures Field(Payload(ts, reply).fields, wanted)
             == if wanted == "error" then Some(error) else if wanted == "ts" then Some(Number(ts))
                else if wanted == "ok" then Some(Bool(false)) else None
      {
        ThreeFields("ok", Bool(false), "ts", Number(ts), "error", error, wanted);
      }
      TwoFields("code", String(Points(code)), "message", String(message), "code");
      TwoFields("code", String(Points(code)), "message", String(message), "message");
      hide Render, ReadJson, Points, Field;
  }

  /**
   Every reply that can be sent reaches the phone as what it is: accepted as signed by the paired service, with
   the endpoint's data under status 200, or the error's code, message and status; and no other reply is accepted.
   */
  lemma ReplyArrives(
      p: Primitives, textOf: Bytes -> ReadText, serverSeed: Bytes, serverPubKey: string, headers: HeaderMap,
      nonce: Bytes, ts: int, reply: Reply)
    requires Sound(p) && ReadsUtf8(textOf) && serverPubKey == Encode(p.publicKey(serverSeed))
    requires |nonce| == NONCE_BYTES && HEADER_NONCE in headers && headers[HEADER_NONCE] == Encode(nonce)
    ensures var r := Enveloped(p, serverSeed, headers, ts, reply);
            && (VerifyServerSignature(p, textOf, r, Encode(nonce), serverPubKey) == Ok(()) <==> Speakable(reply))
            && (Speakable(reply) ==> ParseEnvelope(textOf(r.body), r.status) == Meant(reply))
  {
    ResponseAccepted(p, textOf, serverSeed, serverPubKey, headers, nonce, ts, reply);
    SignedExactly(p, serverSeed, headers, ts, reply);
    if Speakable(reply) {
      BodyText(p, textOf, serverSeed, headers, ts, reply);
      PayloadMeans(ts, reply);
    }
    hide Render, Payload, ParseEnvelope, Meant, Enveloped, VerifyServerSignature, ReadsUtf8, Speakable, Encode, Sound;
  }

  /** The phone reads from a signed body exactly the rendered payload. */
  lemma BodyText(p: Primitives, textOf: Bytes -> ReadText, seed: Bytes, headers: HeaderMap, ts: int, reply: Reply)
    requires ReadsUtf8(textOf) && Speakable(reply)
    ensures textOf(Enveloped(p, seed, headers, ts, reply).body) == Render(Payload(ts, reply))
  {
    hide Speakable, Render, Payload, Utf8, ServiceResponse, ServerMessage, PhoneResponse, Encode;
    BodyExists(ts, reply);
    var text := Render(Payload(ts, reply));
    ServerFramed(p, seed, headers, StatusOf(reply), Utf8(text).value);
    EncodesExactly(text);
    BraceFirst(ts, reply);
    var read: ReadText := text;
    assert textOf(TextBytes(read)) == read;
  }
}
