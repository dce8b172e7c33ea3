/**
 The three newline-framed strings that get signed. `Read*` are parsers of the framing that no program
 contains: they state what a canonical string determines.
 */
module Canonical {
  import opened Prelude
  import opened Text

  const DOMAIN_REQUEST := "wol-unlock/v1/request"
  const DOMAIN_RESPONSE := "wol-unlock/v1/response"
  const DOMAIN_PAIR := "wol-unlock/v1/pair"

  datatype Request = Request(
    httpMethod: string, path: string, timestamp: int, nonce: string,
    bodySha256: string, deviceId: string, serverFp: string)

  datatype Response = Response(status: int, nonceEcho: string, bodySha256: string, serverFp: string)

  datatype Pair = Pair(code: string, devicePubkeyB64: string, serverFp: string)

  datatype CanonicalError = NewlineInField | NotAscii

  predicate NewlineFree(s: string) { '\n' !in s && '\r' !in s }

  predicate Ascii(s: string) { forall i :: 0 <= i < |s| ==> s[i] as int < 128 }

  /** One line for the domain tag and one for each field. */
  function Framed(lines: seq<string>): string { Join(lines, "\n") + "\n" }

  function RequestLines(r: Request): (lines: seq<string>)
  {
    [DOMAIN_REQUEST, Upper(r.httpMethod), r.path, Str(r.timestamp), r.nonce, r.bodySha256, r.deviceId, r.serverFp]
  }

  function ResponseLines(r: Response): seq<string>
  {
    [DOMAIN_RESPONSE, Str(r.status), r.nonceEcho, r.bodySha256, r.serverFp]
  }

  function PairLines(p: Pair): seq<string>
  {
    [DOMAIN_PAIR, Upper(p.code), p.devicePubkeyB64, p.serverFp]
  }

  /** The guard on every field, then the framing. */
  function Guarded(lines: seq<string>): Result<string, CanonicalError>
  {
    if exists i :: 0 <= i < |lines| && !NewlineFree(lines[i]) then Err(NewlineInField) else Ok(Framed(lines))
  }

  /** The service also encodes the text as ASCII, which fails on any other character. */
  function Encoded(r: Result<string, CanonicalError>): Result<string, CanonicalError>
  {
    if r.Ok? && !Ascii(r.value) then Err(NotAscii) else r
  }

  // The phone's builders.
  function PhoneRequest(r: Request): Result<string, CanonicalError> { Guarded(RequestLines(r)) }
  function PhoneResponse(r: Response): Result<string, CanonicalError> { Guarded(ResponseLines(r)) }
  function PhonePair(p: Pair): Result<string, CanonicalError> { Guarded(PairLines(p)) }

  // The service's builders.
  function ServiceRequest(r: Request): Result<string, CanonicalError> { Encoded(PhoneRequest(r)) }
  function ServiceResponse(r: Response): Result<string, CanonicalError> { Encoded(PhoneResponse(r)) }
  function ServicePair(p: Pair): Result<string, CanonicalError> { Encoded(PhonePair(p)) }

  // ---- Reading a canonical string back ----

  function ParseInt(s: string): Option<int>
  {
    if s != "" && s[0] == '-' && AllDigits(s[1..]) then Some(-(ParseNat(s[1..]) as int))
    else if s != "" && AllDigits(s) then Some(ParseNat(s))
    else None
  }

  lemma ParseStr(n: int)
    ensures ParseInt(Str(n)) == Some(n)
  {
    if n < 0 {
      assert Str(n)[1..] == Dec(-n);
      ParseDec(-n);
    } else {
      ParseDec(n);
    }
  }

  function ReadRequest(t: string): Option<Request>
  {
    var lines := Split(t, '\n');
    if |lines| != 9 || lines[0] != DOMAIN_REQUEST || lines[8] != "" then None
    else match ParseInt(lines[3])
      case None => None
      case Some(ts) => Some(Request(lines[1], lines[2], ts, lines[4], lines[5], lines[6], lines[7]))
  }

  function ReadResponse(t: string): Option<Response>
  {
    var lines := Split(t, '\n');
    if |lines| != 6 || lines[0] != DOMAIN_RESPONSE || lines[5] != "" then None
    else match ParseInt(lines[1])
      case None => None
      case Some(status) => Some(Response(status, lines[2], lines[3], lines[4]))
  }

  function ReadPair(t: string): Option<Pair>
  {
    var lines := Split(t, '\n');
    if |lines| != 5 || lines[0] != DOMAIN_PAIR || lines[4] != "" then None
    else Some(Pair(lines[1], lines[2], lines[3]))
  }

  /** The framing keeps its lines apart, whatever newline-free text they hold. */
  lemma {:induction false} FramingReadsBack(lines: seq<string>)
    requires |lines| > 0
    requires forall i :: 0 <= i < |lines| ==> '\n' !in lines[i]
    ensures Split(Framed(lines), '\n') == lines + [""]
  {
    var rest := lines[1..];
    if rest == [] {
      SplitFirst(lines[0], "", '\n');
      assert Framed(lines) == lines[0] + ['\n'] + "";
    } else {
      FramingReadsBack(rest);
      SplitFirst(lines[0], Framed(rest), '\n');
      assert Framed(lines) == lines[0] + ['\n'] + Framed(rest);
    }
  }

  lemma GuardedReadsBack(lines: seq<string>)
    requires |lines| > 0 && Guarded(lines).Ok?
    ensures Split(Guarded(lines).value, '\n') == lines + [""]
  {
    forall i | 0 <= i < |lines| ensures '\n' !in lines[i] { assert NewlineFree(lines[i]); }
    FramingReadsBack(lines);
  }

  /** Every field of a request can be recovered, the method up to case. */
  lemma RequestReadsBack(r: Request)
    requires PhoneRequest(r).Ok?
    ensures ReadRequest(PhoneRequest(r).value) == Some(r.(httpMethod := Upper(r.httpMethod)))
  {
    GuardedReadsBack(RequestLines(r));
    ParseStr(r.timestamp);
  }

  lemma ResponseReadsBack(r: Response)
    requires PhoneResponse(r).Ok?
    ensures ReadResponse(PhoneResponse(r).value) == Some(r)
  {
    GuardedReadsBack(ResponseLines(r));
    ParseStr(r.status);
  }

  lemma PairReadsBack(p: Pair)
    requires PhonePair(p).Ok?
    ensures ReadPair(PhonePair(p).value) == Some(p.(code := Upper(p.code)))
  {
    GuardedReadsBack(PairLines(p));
  }

  /** Two requests with the same canonical string are the same request, up to the method's case. */
  lemma RequestInjective(a: Request, b: Request)
    requires ServiceRequest(a).Ok? && ServiceRequest(a) == ServiceRequest(b)
    ensures a.(httpMethod := Upper(a.httpMethod)) == b.(httpMethod := Upper(b.httpMethod))
  {
    RequestReadsBack(a);
    RequestReadsBack(b);
  }

  lemma ResponseInjective(a: Response, b: Response)
    requires ServiceResponse(a).Ok? && ServiceResponse(a) == ServiceResponse(b)
    ensures a == b
  {
    ResponseReadsBack(a);
    ResponseReadsBack(b);
  }

  lemma PairInjective(a: Pair, b: Pair)
    requires ServicePair(a).Ok? && ServicePair(a) == ServicePair(b)
    ensures a.(code := Upper(a.code)) == b.(code := Upper(b.code))
  {
    PairReadsBack(a);
    PairReadsBack(b);
  }

  /** No string is canonical for two purposes, whatever the fields hold. */
  lemma DomainsDisjoint(q: Request, r: Response, p: Pair)
    ensures ServiceRequest(q).Ok? ==> ServiceRequest(q) != ServiceResponse(r) && ServiceRequest(q) != ServicePair(p)
    ensures ServiceResponse(r).Ok? ==> ServiceResponse(r) != ServicePair(p)
  {
    if PhoneRequest(q).Ok? { GuardedReadsBack(RequestLines(q)); }
    if PhoneResponse(r).Ok? { GuardedReadsBack(ResponseLines(r)); }
    if PhonePair(p).Ok? { GuardedReadsBack(PairLines(p)); }
    assert DOMAIN_REQUEST[14] == 'r' && DOMAIN_PAIR[14] == 'p';
  }

  /** When the guard passes: exactly on newline-free fields, and a number never fails it. */
  lemma RequestBuilt(r: Request)
    ensures PhoneRequest(r).Ok? <==>
      && NewlineFree(r.httpMethod) && NewlineFree(r.path) && NewlineFree(r.nonce)
      && NewlineFree(r.bodySha256) && NewlineFree(r.deviceId) && NewlineFree(r.serverFp)
  {
    var lines := RequestLines(r);
    assert NewlineFree(lines[0]) && NewlineFree(lines[3]);
    assert NewlineFree(lines[1]) <==> NewlineFree(r.httpMethod) by { UpperNewlineFree(r.httpMethod); }
    if PhoneRequest(r).Ok? {
      assert NewlineFree(lines[1]) && NewlineFree(lines[2]) && NewlineFree(lines[4]);
      assert NewlineFree(lines[5]) && NewlineFree(lines[6]) && NewlineFree(lines[7]);
    }
  }

  lemma UpperNewlineFree(s: string)
    ensures NewlineFree(Upper(s)) <==> NewlineFree(s)
  {
    forall i | 0 <= i < |s| ensures (Upper(s)[i] == '\n' <==> s[i] == '\n')
        && (Upper(s)[i] == '\r' <==> s[i] == '\r') {}
    if '\n' in s { var i :| 0 <= i < |s| && s[i] == '\n'; assert Upper(s)[i] == '\n'; }
    if '\r' in s { var i :| 0 <= i < |s| && s[i] == '\r'; assert Upper(s)[i] == '\r'; }
  }

  // ---- The texts themselves ----

  lemma {:induction false} FramedStep(lines: seq<string>)
    requires |lines| > 1
    ensures Framed(lines) == lines[0] + "\n" + Framed(lines[1..])
  {
  }

  lemma FramedOne(line: string)
    ensures Framed([line]) == line + "\n"
  {
  }

  /** Four lines. */
  function Four(a: string, b: string, c: string, d: string): string
  {
    a + "\n" + b + "\n" + c + "\n" + d + "\n"
  }

  lemma FourFramed(a: string, b: string, c: string, d: string)
    ensures Framed([a, b, c, d]) == Four(a, b, c, d)
  {
    FramedStep([a, b, c, d]);
    FramedStep([b, c, d]);
    FramedStep([c, d]);
    FramedOne(d);
    assert [a, b, c, d][1..] == [b, c, d] && [b, c, d][1..] == [c, d] && [c, d][1..] == [d];
    hide Framed;
  }

  lemma {:induction false} FramedJoin(a: seq<string>, b: seq<string>)
    requires a != [] && b != []
    ensures Framed(a + b) == Framed(a) + Framed(b)
  {
    FramedStep(a + b);
    if |a| == 1 {
      FramedOne(a[0]);
      assert (a + b)[1..] == b && a == [a[0]];
    } else {
      FramedStep(a);
      FramedJoin(a[1..], b);
      assert (a + b)[1..] == a[1..] + b;
    }
    hide Framed;
  }

  /** The text of a request, line by line. */
  lemma RequestSpelled(r: Request)
    requires PhoneRequest(r).Ok?
    ensures PhoneRequest(r).value
         == Four("wol-unlock/v1/request", Upper(r.httpMethod), r.path, Str(r.timestamp))
            + Four(r.nonce, r.bodySha256, r.deviceId, r.serverFp)
  {
    hide Framed, Upper, Str, Four;
    var a := ["wol-unlock/v1/request", Upper(r.httpMethod), r.path, Str(r.timestamp)];
    var b := [r.nonce, r.bodySha256, r.deviceId, r.serverFp];
    FourFramed(a[0], a[1], a[2], a[3]);
    FourFramed(b[0], b[1], b[2], b[3]);
    FramedJoin(a, b);
    assert RequestLines(r) == a + b;
  }

  lemma ResponseSpelled(r: Response)
    requires PhoneResponse(r).Ok?
    ensures PhoneResponse(r).value
         == "wol-unlock/v1/response\n" + Str(r.status) + "\n" + r.nonceEcho + "\n" + r.bodySha256 + "\n" + r.serverFp
             + "\n"
  {
    var lines := ResponseLines(r);
    assert forall i :: 0 <= i < 4 ==> lines[i..][1..] == lines[i + 1..];
    assert lines[0..] == lines && lines[4..] == [r.serverFp];
    forall i | 0 <= i < 4 ensures Framed(lines[i..]) == lines[i] + "\n"
        + Framed(lines[i + 1..]) { FramedStep(lines[i..]); }
    FramedOne(r.serverFp);
    hide Framed, Str;
  }

  lemma PairSpelled(r: Pair)
    requires PhonePair(r).Ok?
    ensures PhonePair(r).value
         == "wol-unlock/v1/pair\n" + Upper(r.code) + "\n" + r.devicePubkeyB64 + "\n" + r.serverFp + "\n"
  {
    var lines := PairLines(r);
    assert forall i :: 0 <= i < 3 ==> lines[i..][1..] == lines[i + 1..];
    assert lines[0..] == lines && lines[3..] == [r.serverFp];
    forall i | 0 <= i < 3 ensures Framed(lines[i..]) == lines[i] + "\n"
        + Framed(lines[i + 1..]) { FramedStep(lines[i..]); }
    FramedOne(r.serverFp);
    hide Framed, Upper;
  }
}
