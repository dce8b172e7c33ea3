/**
 The `wolunlock:1?...` payload of the pairing QR code: printed by the service, parsed by the phone.
 Texts are UTF-8 code units, as in `PercentCoding`.
 */
module Ticket {
  import opened Prelude
  import opened Text
  import opened PercentCoding
  import opened PairingCode

  // ---- The service's side ----

  datatype WakeTarget = WakeTarget(mac: string, broadcast: string)

  /** What the payload is printed from; the rest of the configuration plays no part. */
  datatype Config = Config(name: string, httpPort: nat, wakeTargets: seq<WakeTarget>)

  predicate IsHex(c: char) { HexValue(c).Some? }

  predicate AllLowerHex(s: string) { forall i :: 0 <= i < |s| ==> '0' <= s[i] <= '9' || 'a' <= s[i] <= 'f' }

  /** A text cut into pairs of characters; a single one at the end is dropped. */
  function Pairs(s: string): seq<string>
  {
    if |s| < 2 then [] else [s[..2]] + Pairs(s[2..])
  }

  function WithColons(hex: string): string { Join(Pairs(hex), ":") }

  predicate NotMacPunctuation(c: char) { c != '-' && c != ':' && c != '.' }

  /** The configuration's MAC addresses: `aa:bb:..`, `aa-bb-..`, `aabb.ccdd.eeff` or bare hex. */
  function NormalizeMac(value: string): Option<string>
  {
    var cleaned := Filter(Lower(Trim(value)), NotMacPunctuation);
    if |cleaned| != 12 || !AllLowerHex(cleaned) then None else Some(WithColons(cleaned))
  }

  function NotColon(c: char): bool { c != ':' }

  function HexOf(targets: seq<WakeTarget>): seq<string>
  {
    if targets == [] then [] else [Filter(targets[0].mac, NotColon)] + HexOf(targets[1..])
  }

  /** The parameters in the order they are printed. */
  function Params(config: Config, hostname: string, fingerprint: string, code: string): seq<(char, string)>
  {
    [('n', config.name),
     ('h', Split(hostname, '.')[0] + ".local"),
     ('p', Dec(config.httpPort)),
     ('f', fingerprint),
     ('c', code)]
    + if config.wakeTargets == [] then []
      else [('m', Join(HexOf(config.wakeTargets), ",")), ('b', config.wakeTargets[0].broadcast)]
  }

  predicate Printable(params: seq<(char, string)>) { forall i :: 0 <= i < |params| ==> IsBytes(params[i].1) }

  /** `key=value` with the value percent-encoded; the keys are single letters. */
  function Encoded(params: seq<(char, string)>): (pairs: seq<string>)
    requires Printable(params)
    ensures |pairs| == |params|
    ensures forall i :: 0 <= i < |pairs| ==> pairs[i] == [params[i].0, '='] + QuotePlus(params[i].1)
  {
    seq(|params|, i requires 0 <= i < |params| => [params[i].0, '='] + QuotePlus(params[i].1))
  }

  function BuildQrPayload(config: Config, hostname: string, fingerprint: string, code: string): string
    requires Printable(Params(config, hostname, fingerprint, code))
  {
    "wolunlock:1?" + Join(Encoded(Params(config, hostname, fingerprint, code)), "&")
  }

  // ---- The phone's side ----

  datatype PairingTicket = PairingTicket(
    name: string, host: string, port: int, fingerprint: string,
    code: Option<string>, macs: seq<string>, broadcast: Option<string>)

  function DigitRun(s: string): (n: nat)
    ensures n <= |s| && AllDigits(s[..n])
  {
    if s != "" && IsDigit(s[0]) then 1 + DigitRun(s[1..]) else 0
  }

  /** `/^wolunlock:(\d+)\?(.*)$/i`: the version and what follows the question mark. */
  function MatchUri(s: string): Option<(string, string)>
  {
    if |s| < 10 || Lower(s[..10]) != "wolunlock:" then None
    else
      var n := DigitRun(s[10..]);
      if n == 0 || |s| <= 10 + n || s[10 + n] != '?' then None
      else if exists i :: 11 + n <= i < |s| && (s[i] == '\n' || s[i] == '\r') then None
      else Some((s[10..10 + n], s[11 + n..]))
  }

  /** The position of the first occurrence. */
  function IndexOf(s: string, c: char): Option<nat>
  {
    if s == "" then None
    else if s[0] == c then Some(0)
    else match IndexOf(s[1..], c)
      case None => None
      case Some(i) => Some(i + 1)
  }

  lemma {:induction false} IndexOfFirst(s: string, c: char)
    ensures match IndexOf(s, c)
            case None => c !in s
            case Some(i) => i < |s| && s[i] == c && c !in s[..i]
  {
    if s != "" && s[0] != c {
      IndexOfFirst(s[1..], c);
      match IndexOf(s[1..], c)
      case None =>
      case Some(i) => assert s[..i + 1] == [s[0]] + s[1..][..i];
    }
  }

  type ParamMap = map<string, string>

  /** One `key=value` pair added to the parameters read so far; None where decoding throws. */
  function AddPair(pair: string, params: ParamMap): Option<ParamMap>
  {
    match IndexOf(pair, '=')
    case None => Some(params)
    case Some(i) =>
      IndexOfFirst(pair, '=');
      match DecodeUri(PlusToSpace(pair[i + 1..]))
      case None => None
      case Some(value) => Some(params[pair[..i] := value])
  }

  function AddPairs(pairs: seq<string>, params: ParamMap): Option<ParamMap>
  {
    if pairs == [] then Some(params)
    else match AddPair(pairs[0], params)
      case None => None
      case Some(more) => AddPairs(pairs[1..], more)
  }

  /** `Number.parseInt(s, 10)`; None is NaN. */
  function ParseIntPrefix(s: string): Option<int>
  {
    var t := TrimLeft(s);
    var signed := t != "" && (t[0] == '-' || t[0] == '+');
    var digits := if signed then t[1..] else t;
    var n := DigitRun(digits);
    if n == 0 then None
    else Some(if signed && t[0] == '-' then -(ParseNat(digits[..n]) as int) else ParseNat(digits[..n]))
  }

  function MacsOf(pieces: seq<string>): seq<string>
  {
    if pieces == [] then []
    else
      var hex := Filter(pieces[0], IsHex);
      (if pieces[0] != "" && |hex| == 12 then [Lower(WithColons(hex))] else []) + MacsOf(pieces[1..])
  }

  function Get(params: ParamMap, key: string): Option<string>
  {
    if key in params then Some(params[key]) else None
  }

  function GetOr(params: ParamMap, key: string, default: string): string
  {
    if key in params then params[key] else default
  }

  function WithoutLocal(host: string): string
  {
    if |host| >= 6 && host[|host| - 6..] == ".local" then host[..|host| - 6] else host
  }

  /** The ticket that a complete set of parameters describes. */
  function TicketOf(params: ParamMap): Option<PairingTicket>
  {
    var host, fingerprint := GetOr(params, "h", ""), GetOr(params, "f", "");
    if host == "" || fingerprint == "" then None
    else match ParseIntPrefix(GetOr(params, "p", "8765"))
      case None => None
      case Some(port) =>
        if port < 1 || port > 65535 then None
        else
          var name, code := GetOr(params, "n", ""), GetOr(params, "c", "");
          Some(PairingTicket(
            if name != "" then name else WithoutLocal(host),
            host, port, fingerprint,
            if code != "" then Some(NormalizeCode(code)) else None,
            MacsOf(Split(GetOr(params, "m", ""), ',')),
            Get(params, "b")))
  }

  /** What the parser returns; None where the original returns null. */
  function Parsed(raw: string): Option<PairingTicket>
  {
    match MatchUri(Trim(raw))
    case None => None
    case Some(m) =>
      if m.0 != "1" then None
      else match AddPairs(Split(m.1, '&'), map[])
        case None => None
        case Some(params) => TicketOf(params)
  }

  method ParsePairingTicket(raw: string) returns (ticket: Option<PairingTicket>)
    ensures ticket == Parsed(raw)
  {
    var m := MatchUri(Trim(raw));
    if m.None? || m.value.0 != "1" { return None; }
    var pairs := Split(m.value.1, '&');
    var params: ParamMap := map[];
    var k := 0;
    while k < |pairs|
      invariant 0 <= k <= |pairs|
      invariant AddPairs(pairs, map[]) == AddPairs(pairs[k..], params)
    {
      var pair := pairs[k];
      k := k + 1;
      assert pairs[k - 1..][1..] == pairs[k..];
      if pair == "" { continue; }
      var index := IndexOf(pair, '=');
      if index.None? { continue; }
      IndexOfFirst(pair, '=');
      var value := DecodeUri(PlusToSpace(pair[index.value + 1..]));
      if value.None? { return None; }
      params := params[pair[..index.value] := value.value];
    }
    return TicketOf(params);
  }
}
