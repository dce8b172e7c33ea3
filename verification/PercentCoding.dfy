/**
 Percent-encoding as the service writes it and as the phone reads it (RFC 3986, sections 2.1 and 2.3).
 A text is its UTF-8 code units, one `char` below 256 per byte; well-formedness follows RFC 3629,
 section 4.
 */
module PercentCoding {
  import opened Prelude

  /** Every character is one byte. */
  predicate IsBytes(s: string) { forall i :: 0 <= i < |s| ==> s[i] as int < 256 }

  predicate IsTail(c: char) { 0x80 <= c as int < 0xC0 }

  /** How many bytes the first byte of a sequence announces; none if it cannot start one. */
  function Announced(b0: int): nat
  {
    if b0 < 0x80 then 1
    else if 0xC0 <= b0 < 0xE0 then 2
    else if 0xE0 <= b0 < 0xF0 then 3
    else if 0xF0 <= b0 < 0xF8 then 4
    else 0
  }

  /** The second byte is in the range that excludes overlong forms, surrogates and large values. */
  predicate SecondByteFits(b0: int, b1: int)
  {
    if b0 == 0xE0 then 0xA0 <= b1 < 0xC0
    else if b0 == 0xED then 0x80 <= b1 < 0xA0
    else if b0 == 0xF0 then 0x90 <= b1 < 0xC0
    else if b0 == 0xF4 then 0x80 <= b1 < 0x90
    else 0x80 <= b1 < 0xC0
  }

  /** One encoded character, no more and no less. */
  predicate IsUnit(u: string)
  {
    && u != ""
    && |u| == Announced(u[0] as int)
    && u[0] as int < 0xF5 && u[0] as int != 0xC0 && u[0] as int != 0xC1
    && (|u| > 1 ==> SecondByteFits(u[0] as int, u[1] as int))
    && forall i :: 1 <= i < |u| ==> IsTail(u[i])
  }

  predicate ValidUtf8(s: string)
  {
    s == "" ||
    (var n := Announced(s[0] as int); 0 < n <= |s| && IsUnit(s[..n]) && ValidUtf8(s[n..]))
  }

  // ---- Writing ----

  predicate Unreserved(c: char)
  {
    'A' <= c <= 'Z' || 'a' <= c <= 'z' || '0' <= c <= '9' || c == '_' || c == '.' || c == '-' || c == '~'
  }

  function HexDigit(n: nat): (c: char)
    requires n < 16
    ensures HexValue(c) == Some(n) && Unreserved(c)
  {
    if n < 10 then ('0' as int + n) as char else ('A' as int + n - 10) as char
  }

  function HexValue(c: char): (v: Option<nat>)
    ensures v.Some? ==> v.value < 16
  {
    if '0' <= c <= '9' then Some(c as int - '0' as int)
    else if 'A' <= c <= 'F' then Some(c as int - 'A' as int + 10)
    else if 'a' <= c <= 'f' then Some(c as int - 'a' as int + 10)
    else None
  }

  function Escape(c: char): string
    requires c as int < 256
  {
    ['%', HexDigit(c as int / 16), HexDigit(c as int % 16)]
  }

  function QuoteChar(c: char): string
    requires c as int < 256
  {
    if Unreserved(c) then [c] else if c == ' ' then "+" else Escape(c)
  }

  function QuotePlus(s: string): string
    requires IsBytes(s)
  {
    if s == "" then "" else QuoteChar(s[0]) + QuotePlus(s[1..])
  }

  // ---- Reading ----

  function PlusToSpace(s: string): (r: string)
    ensures |r| == |s|
  {
    seq(|s|, i requires 0 <= i < |s| => if s[i] == '+' then ' ' else s[i])
  }

  /** The byte that the escape at the front of the text stands for. */
  function EscapedByte(s: string): (b: Option<char>)
    ensures b.Some? ==> |s| >= 3 && b.value as int < 256
  {
    if |s| < 3 || s[0] != '%' || HexValue(s[1]).None? || HexValue(s[2]).None? then None
    else Some((HexValue(s[1]).value * 16 + HexValue(s[2]).value) as char)
  }

  /** The bytes of `n` escapes in a row. */
  function EscapedBytes(s: string, n: nat): (u: Option<string>)
    ensures u.Some? ==> |u.value| == n && |s| >= 3 * n
  {
    if n == 0 then Some("")
    else match EscapedByte(s)
      case None => None
      case Some(b) =>
        match EscapedBytes(s[3..], n - 1)
        case None => None
        case Some(rest) => Some([b] + rest)
  }

  /** `decodeURIComponent`: None where it throws. */
  function DecodeUri(s: string): Option<string>
    decreases |s|
  {
    if s == "" then Some("")
    else if s[0] != '%' then
      match DecodeUri(s[1..])
      case None => None
      case Some(rest) => Some([s[0]] + rest)
    else match EscapedByte(s)
      case None => None
      case Some(b) =>
        var n := Announced(b as int);
        if n == 0 then None
        else match EscapedBytes(s, n)
          case None => None
          case Some(u) =>
            if !IsUnit(u) then None
            else match DecodeUri(s[3 * n..])
              case None => None
              case Some(rest) => Some(u + rest)
  }

  // ---- Round trip ----

  /** The characters that quoting can produce. */
  predicate QuotedChar(c: char) { Unreserved(c) || c == '%' || c == '+' }

  lemma {:induction false} QuotedChars(s: string)
    requires IsBytes(s)
    ensures forall i :: 0 <= i < |QuotePlus(s)| ==> QuotedChar(QuotePlus(s)[i])
  {
    if s != "" { QuotedChars(s[1..]); }
  }

  /** Texts over the unreserved characters are written as they are. */
  lemma {:induction false} QuoteUnreserved(s: string)
    requires forall i :: 0 <= i < |s| ==> Unreserved(s[i])
    ensures IsBytes(s) && QuotePlus(s) == s && ValidUtf8(s)
  {
    if s != "" {
      QuoteUnreserved(s[1..]);
      assert s[..1] == [s[0]];
      assert s == [s[0]] + s[1..];
    }
  }

  /** The characters that reach the phone's reader as themselves. */
  predicate Plain(c: char) { Unreserved(c) || c == ' ' }

  /** What the phone's reader sees after putting the spaces back. */
  function Seen(s: string): string
    requires IsBytes(s)
  {
    PlusToSpace(QuotePlus(s))
  }

  lemma SeenFirst(s: string)
    requires IsBytes(s) && s != ""
    ensures Seen(s) == (if Plain(s[0]) then [s[0]] else Escape(s[0])) + Seen(s[1..])
  {
    assert QuotePlus(s) == QuoteChar(s[0]) + QuotePlus(s[1..]);
  }

  lemma EscapeReadsBack(c: char, rest: string)
    requires c as int < 256
    ensures EscapedByte(Escape(c) + rest) == Some(c)
  {
  }

  /** A run of characters that are not plain is seen as one escape each. */
  lemma {:induction false} EscapesReadBack(s: string, n: nat)
    requires IsBytes(s) && n <= |s|
    requires forall i :: 0 <= i < n ==> !Plain(s[i])
    ensures EscapedBytes(Seen(s), n) == Some(s[..n])
    ensures |Seen(s)| >= 3 * n && Seen(s)[3 * n..] == Seen(s[n..])
  {
    if n > 0 {
      SeenFirst(s);
      EscapeReadsBack(s[0], Seen(s[1..]));
      assert Seen(s)[3..] == Seen(s[1..]);
      EscapesReadBack(s[1..], n - 1);
      assert s[1..][..n - 1] == s[1..n] && s[1..][n - 1..] == s[n..];
      assert [s[0]] + s[1..n] == s[..n];
      assert Seen(s)[3..][3 * (n - 1)..] == Seen(s)[3 * n..];
    }
  }

  /** A character in escapes is read whole. */
  lemma ReadEscapedUnit(s: string, n: nat)
    requires IsBytes(s) && 0 < n <= |s| && n == Announced(s[0] as int) && IsUnit(s[..n])
    requires forall i :: 0 <= i < n ==> !Plain(s[i])
    requires DecodeUri(Seen(s[n..])) == Some(s[n..])
    ensures DecodeUri(Seen(s)) == Some(s)
  {
    SeenFirst(s);
    EscapeReadsBack(s[0], Seen(s[1..]));
    EscapesReadBack(s, n);
    hide Seen, EscapedBytes, IsUnit;
    assert s == s[..n] + s[n..];
  }

  /** Reading what was written gives the text back, for every well-formed text. */
  lemma {:induction false} QuoteReadsBack(s: string)
    requires IsBytes(s) && ValidUtf8(s)
    ensures DecodeUri(Seen(s)) == Some(s)
    decreases |s|
  {
    if s != "" {
      var n := Announced(s[0] as int);
      QuoteReadsBack(s[n..]);
      if Plain(s[0]) {
        SeenFirst(s);
        assert Seen(s)[1..] == Seen(s[1..]);
        assert s == [s[0]] + s[1..];
      } else {
        NotPlain(s, n);
        ReadEscapedUnit(s, n);
      }
    }
  }

  /** Only one-byte characters are plain. */
  lemma NotPlain(s: string, n: nat)
    requires 0 < n <= |s| && IsUnit(s[..n]) && !Plain(s[0])
    ensures forall i :: 0 <= i < n ==> !Plain(s[i])
  {
    forall i | 0 < i < n ensures !Plain(s[i]) { assert IsTail(s[..n][i]); }
  }

  /** Escapes are written with upper-case digits and read in either case. */
  lemma HexSpelled(n: nat)
    requires n < 16
    ensures HexDigit(n) == "0123456789ABCDEF"[n]
    ensures HexValue("0123456789ABCDEF"[n]) == HexValue("0123456789abcdef"[n]) == Some(n)
  {
    if n == 10 || n == 11 || n == 12 {
    } else if n == 13 || n == 14 || n == 15 {
    } else if n < 5 {
    }
  }

  /** What each character is written as. */
  lemma QuotedCharacter(c: char)
    requires c as int < 256
    ensures QuotePlus([c]) == if c == ' ' then "+" else if c in "_.-~" || 'a' <= c <= 'z' || 'A' <= c <= 'Z'
                                   || '0' <= c <= '9' then [c]
              else ['%', "0123456789ABCDEF"[c as int / 16], "0123456789ABCDEF"[c as int % 16]]
  {
    HexSpelled(c as int / 16);
    HexSpelled(c as int % 16);
    hide HexDigit;
    assert [c][1..] == "";
  }
}
