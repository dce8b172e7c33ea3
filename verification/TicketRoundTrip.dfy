/** The parser of the QR payload undoes its printer. */
module TicketRoundTrip {
  import opened Prelude
  import opened Text
  import opened PercentCoding
  import opened PairingCode
  import opened Ticket

  // ---- MAC addresses ----

  /** Twelve lower-case hex digits in colon-separated pairs. */
  predicate WellFormedMac(mac: string)
  {
    var hex := Filter(mac, NotColon);
    |hex| == 12 && AllLowerHex(hex) && WithColons(hex) == mac
  }

  /** Taking the colons out of a colon-separated text gives the text back. */
  lemma {:induction false} ColonsVanish(hex: string)
    requires |hex| % 2 == 0 && ':' !in hex
    ensures Filter(WithColons(hex), NotColon) == hex
  {
    if hex != "" {
      var first, rest := hex[..2], hex[2..];
      assert Pairs(hex) == [first] + Pairs(rest);
      FilterKeepsAll(first, NotColon);
      ColonsVanish(rest);
      if rest == "" {
        assert hex == first;
      } else {
        assert Pairs(hex)[1..] == Pairs(rest) && |Pairs(rest)| > 0;
        assert WithColons(hex) == first + ":" + WithColons(rest);
        FilterAppend(first + ":", WithColons(rest), NotColon);
        FilterAppend(first, ":", NotColon);
        assert hex == first + rest;
      }
    }
  }

  /** Whatever spelling the configuration holds, the stored address is well formed and has its digits. */
  lemma NormalizeMacWellFormed(value: string)
    requires NormalizeMac(value).Some?
    ensures WellFormedMac(NormalizeMac(value).value)
    ensures Filter(NormalizeMac(value).value, NotColon) == Filter(Lower(Trim(value)), NotMacPunctuation)
  {
    ColonsVanish(Filter(Lower(Trim(value)), NotMacPunctuation));
  }

  lemma {:induction false} LowerPairs(hex: string)
    requires AllLowerHex(hex) && |hex| % 2 == 0
    ensures Lower(WithColons(hex)) == WithColons(hex)
  {
    if hex != "" {
      var first, rest := hex[..2], hex[2..];
      assert Pairs(hex) == [first] + Pairs(rest);
      LowerPairs(rest);
      assert Lower(first) == first;
      if rest != "" {
        assert Pairs(hex)[1..] == Pairs(rest) && |Pairs(rest)| > 0;
        assert WithColons(hex) == first + ":" + WithColons(rest);
        assert Lower(":") == ":";
      }
    }
  }

  function Macs(targets: seq<WakeTarget>): (macs: seq<string>)
  {
    if targets == [] then [] else [targets[0].mac] + Macs(targets[1..])
  }

  /** The phone regroups exactly the addresses that the service stripped. */
  lemma {:induction false} MacsReadBack(targets: seq<WakeTarget>)
    requires forall i :: 0 <= i < |targets| ==> WellFormedMac(targets[i].mac)
    ensures MacsOf(HexOf(targets)) == Macs(targets)
    ensures |HexOf(targets)| == |targets|
    ensures forall i :: 0 <= i < |targets| ==> AllLowerHex(HexOf(targets)[i])
  {
    if targets != [] {
      var hex := Filter(targets[0].mac, NotColon);
      FilterKeepsAll(hex, IsHex);
      LowerPairs(hex);
      MacsReadBack(targets[1..]);
      assert HexOf(targets)[1..] == HexOf(targets[1..]);
    }
  }

  // ---- Well-formed values ----

  predicate GoodText(s: string) { IsBytes(s) && ValidUtf8(s) }

  lemma UnreservedGood(s: string)
    requires forall i :: 0 <= i < |s| ==> Unreserved(s[i])
    ensures GoodText(s)
  {
    QuoteUnreserved(s);
  }

  lemma {:induction false} GoodAppend(a: string, b: string)
    requires GoodText(a) && GoodText(b)
    ensures GoodText(a + b)
    decreases |a|
  {
    if a == "" {
      assert a + b == b;
    } else {
      var n := Announced(a[0] as int);
      GoodAppend(a[n..], b);
      assert (a + b)[n..] == a[n..] + b && (a + b)[..n] == a[..n];
    }
  }

  lemma {:induction false} HexListGood(pieces: seq<string>)
    requires forall i :: 0 <= i < |pieces| ==> AllLowerHex(pieces[i])
    ensures GoodText(Join(pieces, ","))
  {
    if |pieces| == 1 {
      QuoteUnreserved(pieces[0]);
    } else if |pieces| > 1 {
      QuoteUnreserved(pieces[0]);
      HexListGood(pieces[1..]);
      assert GoodText(",") by { assert ","[..1] == "," && ","[1..] == ""; }
      GoodAppend(pieces[0], ",");
      GoodAppend(pieces[0] + ",", Join(pieces[1..], ","));
    }
  }

  /** What loading a configuration establishes. */
  predicate ValidConfig(config: Config)
  {
    && config.name != "" && GoodText(config.name)
    && 1 <= config.httpPort <= 65535
    && forall i :: 0 <= i < |config.wakeTargets| ==>
         WellFormedMac(config.wakeTargets[i].mac) && GoodText(config.wakeTargets[i].broadcast)
  }

  predicate GoodParams(params: seq<(char, string)>)
  {
    forall i :: 0 <= i < |params| ==> GoodText(params[i].1) && params[i].0 != '=' && params[i].0 != '&'
  }

  lemma ParamsGood(config: Config, hostname: string, fingerprint: string, code: string)
    requires ValidConfig(config) && GoodText(Split(hostname, '.')[0]) && Generated(code)
    requires forall i :: 0 <= i < |fingerprint| ==> Unreserved(fingerprint[i])
    ensures GoodParams(Params(config, hostname, fingerprint, code))
  {
    hide GoodText;
    UnreservedGood(".local");
    GoodAppend(Split(hostname, '.')[0], ".local");
    UnreservedGood(Dec(config.httpPort));
    UnreservedGood(fingerprint);
    UnreservedGood(code);
    if config.wakeTargets != [] {
      MacsReadBack(config.wakeTargets);
      HexListGood(HexOf(config.wakeTargets));
    }
  }

  // ---- Parameters ----

  /** One printed parameter is read back as itself. */
  lemma PairReadsBack(key: char, value: string, params: ParamMap)
    requires GoodText(value) && key != '='
    ensures AddPair([key, '='] + QuotePlus(value), params) == Some(params[[key] := value])
  {
    var pair := [key, '='] + QuotePlus(value);
    assert pair[1..][0] == '=' && IndexOf(pair[1..], '=') == Some(0);
    assert IndexOf(pair, '=') == Some(1);
    assert pair[2..] == QuotePlus(value) && pair[..1] == [key];
    QuoteReadsBack(value);
  }

  function Collected(params: seq<(char, string)>, sofar: ParamMap): ParamMap
  {
    if params == [] then sofar else Collected(params[1..], sofar[[params[0].0] := params[0].1])
  }

  lemma {:induction false} PairsReadBack(params: seq<(char, string)>, sofar: ParamMap)
    requires GoodParams(params)
    ensures AddPairs(Encoded(params), sofar) == Some(Collected(params, sofar))
  {
    if params != [] {
      PairReadsBack(params[0].0, params[0].1, sofar);
      PairsReadBack(params[1..], sofar[[params[0].0] := params[0].1]);
      assert Encoded(params)[1..] == Encoded(params[1..]);
    }
  }

  predicate DistinctKeys(params: seq<(char, string)>)
  {
    forall i, j :: 0 <= i < j < |params| ==> params[i].0 != params[j].0
  }

  /** With distinct keys, the map holds each parameter and nothing else. */
  lemma {:induction false} CollectedHolds(params: seq<(char, string)>, sofar: ParamMap)
    requires DistinctKeys(params)
    ensures forall i :: 0 <= i < |params| ==> Get(Collected(params, sofar), [params[i].0]) == Some(params[i].1)
    ensures forall k: string :: (forall i :: 0 <= i < |params| ==> [params[i].0] != k) ==>
              Get(Collected(params, sofar), k) == Get(sofar, k)
  {
    if params != [] {
      var rest, next := params[1..], sofar[[params[0].0] := params[0].1];
      CollectedHolds(rest, next);
      forall i | 0 <= i < |params| ensures Get(Collected(params, sofar), [params[i].0]) == Some(params[i].1) {
        if i > 0 {
          assert params[i] == rest[i - 1];
        } else {
          forall j | 0 <= j < |rest| ensures [rest[j].0] != [params[0].0] { assert rest[j] == params[j + 1]; }
        }
      }
      forall k: string | forall i :: 0 <= i < |params| ==> [params[i].0] != k
        ensures Get(Collected(params, sofar), k) == Get(sofar, k)
      {
        forall j | 0 <= j < |rest| ensures [rest[j].0] != k { assert rest[j] == params[j + 1]; }
        assert k != [params[0].0];
      }
    }
  }

  // ---- The payload ----

  lemma TrimEnds(s: string)
    requires s != "" && !IsSpace(s[0]) && !IsSpace(s[|s| - 1])
    ensures Trim(s) == s
  {
  }

  predicate PayloadChar(c: char) { QuotedChar(c) || c == '&' || c == '=' || 'a' <= c <= 'z' }

  lemma {:induction false} JoinedChars(pairs: seq<string>)
    requires forall i :: 0 <= i < |pairs| ==> forall j :: 0 <= j < |pairs[i]| ==> PayloadChar(pairs[i][j])
    ensures forall j :: 0 <= j < |Join(pairs, "&")| ==> PayloadChar(Join(pairs, "&")[j])
  {
    if |pairs| > 1 { JoinedChars(pairs[1..]); }
  }

  lemma EncodedChars(params: seq<(char, string)>)
    requires GoodParams(params)
    requires forall i :: 0 <= i < |params| ==> 'a' <= params[i].0 <= 'z'
    ensures forall i :: 0 <= i < |params| ==> '&' !in Encoded(params)[i]
    ensures forall j :: 0 <= j < |Join(Encoded(params), "&")| ==> PayloadChar(Join(Encoded(params), "&")[j])
  {
    forall i | 0 <= i < |params|
      ensures '&' !in Encoded(params)[i]
      ensures forall j :: 0 <= j < |Encoded(params)[i]| ==> PayloadChar(Encoded(params)[i][j])
    {
      QuotedChars(params[i].1);
    }
    JoinedChars(Encoded(params));
  }

  /** The payload's prefix is recognized and its version is 1. */
  lemma PrefixMatches(rest: string)
    requires rest != "" && forall i :: 0 <= i < |rest| ==> PayloadChar(rest[i])
    ensures MatchUri(Trim("wolunlock:1?" + rest)) == Some(("1", rest))
  {
    var s := "wolunlock:1?" + rest;
    assert s[|s| - 1] == rest[|rest| - 1];
    TrimEnds(s);
    assert s[..10] == "wolunlock:" && Lower("wolunlock:") == "wolunlock:";
    assert s[10..] == "1?" + rest && s[10..][1..] == "?" + rest;
    assert DigitRun("?" + rest) == 0;
    assert DigitRun(s[10..]) == 1;
    assert s[10..11] == "1" && s[12..] == rest;
    forall i | 12 <= i < |s| ensures s[i] != '\n' && s[i] != '\r' { assert s[i] == rest[i - 12]; }
  }

  lemma {:induction false} DigitRunAll(s: string)
    requires AllDigits(s)
    ensures DigitRun(s) == |s|
  {
    if s != "" { DigitRunAll(s[1..]); }
  }

  lemma PortReadsBack(port: nat)
    ensures ParseIntPrefix(Dec(port)) == Some(port)
  {
    var s := Dec(port);
    DigitRunAll(s);
    ParseDec(port);
    assert s[..|s|] == s;
  }

  /** What the parser finds under each key. */
  lemma ParamsCollected(config: Config, hostname: string, fingerprint: string, code: string)
    ensures var m := Collected(Params(config, hostname, fingerprint, code), map[]);
      && Get(m, "n") == Some(config.name)
      && Get(m, "h") == Some(Split(hostname, '.')[0] + ".local")
      && Get(m, "p") == Some(Dec(config.httpPort))
      && Get(m, "f") == Some(fingerprint)
      && Get(m, "c") == Some(code)
      && Get(m, "m") == (if config.wakeTargets == [] then None else Some(Join(HexOf(config.wakeTargets), ",")))
      && Get(m, "b") == (if config.wakeTargets == [] then None else Some(config.wakeTargets[0].broadcast))
  {
    var ps := Params(config, hostname, fingerprint, code);
    var m := Collected(ps, map[]);
    CollectedHolds(ps, map[]);
    hide Collected, Get;
    assert Get(m, [ps[0].0]) == Some(ps[0].1) && Get(m, [ps[1].0]) == Some(ps[1].1);
    assert Get(m, [ps[2].0]) == Some(ps[2].1) && Get(m, [ps[3].0]) == Some(ps[3].1);
    assert Get(m, [ps[4].0]) == Some(ps[4].1);
    if config.wakeTargets == [] {
      assert Get(m, "m") == Get(map[], "m") && Get(m, "b") == Get(map[], "b");
      NothingIn("m");
      NothingIn("b");
    } else {
      assert Get(m, [ps[5].0]) == Some(ps[5].1) && Get(m, [ps[6].0]) == Some(ps[6].1);
    }
  }

  lemma NothingIn(key: string)
    ensures Get(map[], key) == None
  {
  }

  lemma MacParamReadsBack(targets: seq<WakeTarget>)
    requires forall i :: 0 <= i < |targets| ==> WellFormedMac(targets[i].mac)
    ensures MacsOf(Split(if targets == [] then "" else Join(HexOf(targets), ","), ',')) == Macs(targets)
  {
    if targets == [] {
      assert Split("", ',')[1..] == [] && MacsOf(Split("", ',')) == [];
    } else {
      MacsReadBack(targets);
      SplitJoin(HexOf(targets), ',');
    }
  }

  /** The collected parameters describe the configuration. */
  lemma TicketReadsBack(config: Config, hostname: string, fingerprint: string, code: string)
    requires ValidConfig(config) && fingerprint != "" && Generated(code)
    ensures TicketOf(Collected(Params(config, hostname, fingerprint, code), map[]))
         == Some(PairingTicket(
              config.name, Split(hostname, '.')[0] + ".local", config.httpPort, fingerprint, Some(code),
              Macs(config.wakeTargets),
              if config.wakeTargets == [] then None else Some(config.wakeTargets[0].broadcast)))
  {
    ParamsCollected(config, hostname, fingerprint, code);
    PortReadsBack(config.httpPort);
    FixedPoints(code);
    MacParamReadsBack(config.wakeTargets);
    hide Collected, Params, MacsOf, Macs, NormalizeCode, ParseIntPrefix, Split, HexOf, Join;
  }

  /** Printing and parsing: every field arrives as it was configured. */
  lemma PayloadReadsBack(config: Config, hostname: string, fingerprint: string, code: string)
    requires ValidConfig(config) && GoodText(Split(hostname, '.')[0]) && Generated(code)
    requires fingerprint != "" && forall i :: 0 <= i < |fingerprint| ==> Unreserved(fingerprint[i])
    ensures Printable(Params(config, hostname, fingerprint, code))
    ensures Parsed(BuildQrPayload(config, hostname, fingerprint, code))
         == Some(PairingTicket(
              config.name, Split(hostname, '.')[0] + ".local", config.httpPort, fingerprint, Some(code),
              Macs(config.wakeTargets),
              if config.wakeTargets == [] then None else Some(config.wakeTargets[0].broadcast)))
  {
    var ps := Params(config, hostname, fingerprint, code);
    ParamsGood(config, hostname, fingerprint, code);
    PayloadCollected(ps);
    TicketReadsBack(config, hostname, fingerprint, code);
  }

  // ---- Any payload ----

  /** What a list of parameters says under a key. */
  predicate Says(params: seq<(char, string)>, key: char, value: Option<string>)
  {
    match value
    case None => forall i :: 0 <= i < |params| ==> params[i].0 != key
    case Some(v) => (key, v) in params
  }

  lemma SaidCollected(params: seq<(char, string)>, key: char, value: Option<string>)
    requires DistinctKeys(params) && Says(params, key, value)
    ensures Get(Collected(params, map[]), [key]) == value
  {
    CollectedHolds(params, map[]);
    match value
    case None =>
      NothingIn([key]);
      forall i | 0 <= i < |params| ensures [params[i].0] != [key] {}
    case Some(v) =>
      var i :| 0 <= i < |params| && params[i] == (key, v);
      assert Get(Collected(params, map[]), [params[i].0]) == Some(params[i].1);
  }

  /** What the phone makes of each parameter: which may be missing or empty, and what stands for it then. */
  function Described(
    n: Option<string>, h: Option<string>, port: Option<int>, f: Option<string>, c: Option<string>,
    m: Option<string>, b: Option<string>): Option<PairingTicket>
  {
    if h in {None, Some("")} || f in {None, Some("")} then None
    else if port.None? || !(1 <= port.value <= 65535) then None
    else Some(PairingTicket(
      if n in {None, Some("")} then WithoutLocal(h.value) else n.value,
      h.value, port.value, f.value,
      if c in {None, Some("")} then None else Some(NormalizeCode(c.value)),
      if m.None? then [] else MacsOf(Split(m.value, ',')), b))
  }

  lemma TicketDescribed(params: ParamMap)
    ensures TicketOf(params) == Described(
              Get(params, "n"), Get(params, "h"),
              if Get(params, "p").None? then Some(8765) else ParseIntPrefix(Get(params, "p").value),
              Get(params, "f"), Get(params, "c"), Get(params, "m"), Get(params, "b"))
  {
    DefaultsRead();
    hide MacsOf, Split, NormalizeCode, ParseIntPrefix, WithoutLocal;
  }

  /** Parameters in any order, with what is missing or empty. */
  lemma AnyPayloadRead(
      params: seq<(char, string)>, n: Option<string>, h: Option<string>, p: Option<string>, f: Option<string>,
      c: Option<string>, m: Option<string>, b: Option<string>)
    requires params != [] && DistinctKeys(params) && GoodParams(params)
    requires forall i :: 0 <= i < |params| ==> 'a' <= params[i].0 <= 'z'
    requires Says(params, 'n', n) && Says(params, 'h', h) && Says(params, 'p', p) && Says(params, 'f', f)
    requires Says(params, 'c', c) && Says(params, 'm', m) && Says(params, 'b', b)
    ensures Printable(params)
    ensures Parsed("wolunlock:1?" + Join(Encoded(params), "&"))
         == Described(n, h, if p.None? then Some(8765) else ParseIntPrefix(p.value), f, c, m, b)
  {
    SaidCollected(params, 'n', n);
    SaidCollected(params, 'h', h);
    SaidCollected(params, 'p', p);
    SaidCollected(params, 'f', f);
    SaidCollected(params, 'c', c);
    SaidCollected(params, 'm', m);
    SaidCollected(params, 'b', b);
    TicketDescribed(Collected(params, map[]));
    PayloadCollected(params);
    hide *;
  }

  lemma PayloadCollected(params: seq<(char, string)>)
    requires params != [] && GoodParams(params)
    requires forall i :: 0 <= i < |params| ==> 'a' <= params[i].0 <= 'z'
    ensures Printable(params)
    ensures Parsed("wolunlock:1?" + Join(Encoded(params), "&")) == TicketOf(Collected(params, map[]))
  {
    hide GoodText, Collected, Split, MatchUri, Trim, AddPairs, TicketOf, QuotePlus, PayloadChar, QuotedChar, Join;
    GoodPrintable(params);
    EncodedChars(params);
    JoinedNotEmpty(params);
    PrefixMatches(Join(Encoded(params), "&"));
    SplitJoin(Encoded(params), '&');
    PairsReadBack(params, map[]);
  }

  lemma GoodPrintable(params: seq<(char, string)>)
    requires GoodParams(params)
    ensures Printable(params)
  {
  }

  lemma JoinedNotEmpty(params: seq<(char, string)>)
    requires params != [] && Printable(params)
    ensures Join(Encoded(params), "&") != ""
  {
    assert |Encoded(params)[0]| > 0;
  }

  lemma DefaultsRead()
    ensures ParseIntPrefix("8765") == Some(8765) && MacsOf(Split("", ',')) == []
  {
    var s := "8765";
    assert ParseNat("8") == 8 by { assert "8"[..0] == ""; }
    assert ParseNat("87") == 87 by { assert "87"[..1] == "8"; }
    assert ParseNat("876") == 876 by { assert "876"[..2] == "87"; }
    assert ParseNat(s) == 8765 by { assert s[..3] == "876"; }
    DigitRunAll(s);
    assert s[..|s|] == s;
    assert Split("", ',')[1..] == [];
  }
}
