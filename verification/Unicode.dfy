/**
 Texts as sequences of code points, lone surrogates included: that is what Python and JSON strings can
 hold. UTF-8 (RFC 3629, section 3) has no form for a surrogate. The reader of UTF-8 is no part of the
 program: it states what the bytes determine.
 */
module Unicode {
  import opened Prelude
  import opened Base64Url

  type CodePoint = c: int | 0 <= c < 0x11_0000

  type UText = seq<CodePoint>

  predicate IsSurrogate(c: CodePoint) { 0xD800 <= c < 0xE000 }

  predicate Encodable(t: UText) { forall i :: 0 <= i < |t| ==> !IsSurrogate(t[i]) }

  function Points(s: string): (t: UText)
    ensures |t| == |s| && Encodable(t)
  {
    seq(|s|, i requires 0 <= i < |s| => s[i] as int)
  }

  // ---- UTF-8 ----

  function Utf8Of(c: CodePoint): (b: seq<byte>)
    ensures 1 <= |b| <= 4
  {
    if c < 0x80 then [c]
    else if c < 0x800 then [0xC0 + c / 64, 0x80 + c % 64]
    else if c < 0x1_0000 then [0xE0 + c / 0x1000, 0x80 + c / 64 % 64, 0x80 + c % 64]
    else [0xF0 + c / 0x4_0000, 0x80 + c / 0x1000 % 64, 0x80 + c / 64 % 64, 0x80 + c % 64]
  }

  /** None where encoding raises. */
  function Utf8(t: UText): Option<seq<byte>>
  {
    if t == [] then Some([])
    else if IsSurrogate(t[0]) then None
    else match Utf8(t[1..])
      case None => None
      case Some(rest) => Some(Utf8Of(t[0]) + rest)
  }

  lemma {:induction false} EncodesExactly(t: UText)
    ensures Utf8(t).Some? <==> Encodable(t)
  {
    if t != [] {
      EncodesExactly(t[1..]);
      assert Encodable(t) <==> !IsSurrogate(t[0]) && Encodable(t[1..]) by {
        forall i | 0 < i < |t| ensures t[i] == t[1..][i - 1] {}
      }
    }
  }

  /** The code point that a sequence starts with, and how many bytes it takes. */
  function FirstPoint(b: seq<byte>): Option<(int, nat)>
  {
    if b == [] then None
    else if b[0] < 0x80 then Some((b[0], 1))
    else if 0xC0 <= b[0] < 0xE0 && |b| > 1 then Some((Six(b, 1) + (b[0] as int - 0xC0) * 64, 2))
    else if 0xE0 <= b[0] < 0xF0 && |b| > 2 then Some((Six(b, 2) + Six(b, 1) * 64 + (b[0] as int - 0xE0) * 0x1000, 3))
    else if 0xF0 <= b[0] < 0xF8 && |b| > 3 then
      Some((Six(b, 3) + Six(b, 2) * 64 + Six(b, 1) * 0x1000 + (b[0] as int - 0xF0) * 0x4_0000, 4))
    else None
  }

  function Six(b: seq<byte>, i: nat): int
    requires i < |b|
  {
    b[i] as int - 0x80
  }

  function ReadUtf8(b: seq<byte>): Option<seq<int>>
  {
    if b == [] then Some([])
    else match FirstPoint(b)
      case None => None
      case Some((c, n)) =>
        match ReadUtf8(b[n..])
        case None => None
        case Some(rest) => Some([c] + rest)
  }

  lemma Sextets(c: CodePoint)
    ensures c == c / 64 * 64 + c % 64
    ensures c == c / 0x1000 * 0x1000 + c / 64 % 64 * 64 + c % 64
    ensures c == c / 0x4_0000 * 0x4_0000 + c / 0x1000 % 64 * 0x1000 + c / 64 % 64 * 64 + c % 64
  {
    assert c / 64 / 64 == c / 0x1000;
    assert c / 0x1000 / 64 == c / 0x4_0000;
  }

  lemma FirstPointOf(c: CodePoint, rest: seq<byte>)
    ensures FirstPoint(Utf8Of(c) + rest) == Some((c, |Utf8Of(c)|))
  {
    Sextets(c);
  }

  /** The bytes determine the text. */
  lemma {:induction false} Utf8ReadsBack(t: UText)
    requires Encodable(t)
    ensures Utf8(t).Some? && ReadUtf8(Utf8(t).value) == Some(t)
  {
    EncodesExactly(t);
    if t != [] {
      EncodesExactly(t[1..]);
      Utf8ReadsBack(t[1..]);
      var head, rest := Utf8Of(t[0]), Utf8(t[1..]).value;
      FirstPointOf(t[0], rest);
      assert (head + rest)[|head|..] == rest;
      assert Utf8(t).value == head + rest;
      assert [t[0]] + t[1..] == t;
      hide FirstPoint, Utf8Of;
    }
  }

  // ---- UTF-16, as the phone holds its texts ----

  type Unit = u: int | 0 <= u < 0x1_0000

  predicate IsHigh(u: int) { 0xD800 <= u < 0xDC00 }

  predicate IsLow(u: int) { 0xDC00 <= u < 0xE000 }

  /** The code points of a text; half a pair stays what it is. */
  function FromUtf16(u: seq<Unit>): UText
  {
    if u == [] then []
    else if |u| > 1 && IsHigh(u[0]) && IsLow(u[1])
    then [0x1_0000 + (u[0] - 0xD800) * 0x400 + (u[1] - 0xDC00)] + FromUtf16(u[2..])
    else [u[0]] + FromUtf16(u[1..])
  }

  lemma {:induction false} ConsEncodable(c: CodePoint, t: UText)
    ensures Encodable([c] + t) <==> !IsSurrogate(c) && Encodable(t)
  {
    if Encodable([c] + t) {
      assert ([c] + t)[0] == c;
      forall i | 0 <= i < |t| ensures !IsSurrogate(t[i]) { assert ([c] + t)[i + 1] == t[i]; }
    }
  }

  /** Cutting a well-formed text leaves half a pair exactly when the cut goes through one. */
  lemma {:induction false} CutExactly(u: seq<Unit>, n: nat)
    requires n <= |u| && Encodable(FromUtf16(u))
    ensures Encodable(FromUtf16(u[..n])) <==> !(0 < n < |u| && IsHigh(u[n - 1]))
    decreases |u|
  {
    if u != [] {
      var pair := |u| > 1 && IsHigh(u[0]) && IsLow(u[1]);
      var k := if pair then 2 else 1;
      ConsEncodable(FromUtf16(u)[0], FromUtf16(u[k..]));
      if n >= k {
        CutExactly(u[k..], n - k);
        assert u[..n][k..] == u[k..][..n - k];
        ConsEncodable(FromUtf16(u[..n])[0], FromUtf16(u[..n][k..]));
        assert FromUtf16(u[..n]) == [FromUtf16(u)[0]] + FromUtf16(u[..n][k..]);
        assert n > k ==> u[k..][n - k - 1] == u[n - 1];
      } else if n == 1 {
        assert u[..1][1..] == [];
        assert FromUtf16(u[..1])[0] == u[0];
      }
    }
  }

  // ---- Names ----

  /** White space as `str.split` knows it. */
  predicate IsWhite(c: CodePoint)
  {
    || 0x09 <= c <= 0x0D || 0x1C <= c <= 0x20 || c == 0x85 || c == 0xA0 || c == 0x1680
    || 0x2000 <= c <= 0x200A || c == 0x2028 || c == 0x2029 || c == 0x202F || c == 0x205F || c == 0x3000
  }

  /** The words of a text, the first of which has begun with `word`. */
  function Words(word: UText, t: UText): seq<UText>
    decreases |t|
  {
    if t == [] then if word == [] then [] else [word]
    else if IsWhite(t[0]) then (if word == [] then [] else [word]) + Words([], t[1..])
    else Words(word + [t[0]], t[1..])
  }

  function Spaced(words: seq<UText>): UText
  {
    if words == [] then [] else if |words| == 1 then words[0] else words[0] + [0x20] + Spaced(words[1..])
  }

  const MAX_NAME := 64

  function Clip(t: UText): UText { if |t| > MAX_NAME then t[..MAX_NAME] else t }

  /** The name under which a device is listed. */
  function CleanName(value: UText): UText
  {
    var name := Clip(Spaced(Words([], value)));
    if name == [] then Points("Unnamed device") else name
  }

  predicate Wordy(words: seq<UText>)
  {
    forall i :: 0 <= i < |words| ==> words[i] != [] && forall j :: 0 <= j < |words[i]| ==> !IsWhite(words[i][j])
  }

  /** White space is a single space between words. */
  predicate Tidy(t: UText)
  {
    forall i :: 0 <= i < |t| && IsWhite(t[i]) ==> t[i] == 0x20 && i > 0 && !IsWhite(t[i - 1])
  }

  lemma {:induction false} WordsWordy(word: UText, t: UText)
    requires forall j :: 0 <= j < |word| ==> !IsWhite(word[j])
    ensures Wordy(Words(word, t))
    decreases |t|
  {
    if t != [] { if IsWhite(t[0]) { WordsWordy([], t[1..]); } else { WordsWordy(word + [t[0]], t[1..]); } }
  }

  lemma {:induction false} SpacedTidy(words: seq<UText>)
    requires Wordy(words)
    ensures Tidy(Spaced(words))
  {
    if |words| > 1 {
      SpacedTidy(words[1..]);
      var rest := Spaced(words[1..]);
      var k := |words[0]| + 1;
      forall i | 0 <= i < |Spaced(words)| && IsWhite(Spaced(words)[i])
        ensures Spaced(words)[i] == 0x20 && i > 0 && !IsWhite(Spaced(words)[i - 1])
      {
        if i >= k { assert Spaced(words)[i] == rest[i - k]; }
      }
    }
  }

  /** A listed name has between one and 64 characters and no white space but single spaces. */
  lemma CleanNameTidy(value: UText)
    ensures 1 <= |CleanName(value)| <= MAX_NAME && Tidy(CleanName(value))
  {
    WordsWordy([], value);
    SpacedTidy(Words([], value));
  }

  /** White space, and nothing else, separates words. */
  lemma {:induction false} WordsApart(word: UText, a: UText, w: CodePoint, b: UText)
    requires IsWhite(w)
    ensures Words(word, a + [w] + b) == Words(word, a) + Words([], b)
    decreases |a|
  {
    var t := a + [w] + b;
    if a == [] {
      assert t[1..] == b;
    } else {
      assert t[1..] == a[1..] + [w] + b;
      if IsWhite(a[0]) { WordsApart([], a[1..], w, b); } else { WordsApart(word + [a[0]], a[1..], w, b); }
    }
  }

  /** Words put one space apart are found again. */
  lemma {:induction false} SpacedWords(words: seq<UText>)
    requires Wordy(words)
    ensures Words([], Spaced(words)) == words
  {
    if |words| > 0 {
      OneWord([], words[0]);
      assert [] + words[0] == words[0];
      if |words| > 1 {
        WordsApart([], words[0], 0x20, Spaced(words[1..]));
        SpacedWords(words[1..]);
        assert [words[0]] + words[1..] == words;
      }
    }
  }

  /** The listed name is the first 64 characters of the given name's words one space apart. */
  lemma CleanNameWords(value: UText) returns (all: UText)
    ensures Words([], all) == Words([], value) && Tidy(all) && (all != [] ==> !IsWhite(all[|all| - 1]))
    ensures CleanName(value) == if all == [] then Points("Unnamed device")
              else if |all| > 64 then all[..64] else all
  {
    all := Spaced(Words([], value));
    WordsWordy([], value);
    SpacedTidy(Words([], value));
    SpacedWords(Words([], value));
    SpacedEnds(Words([], value));
  }

  lemma {:induction false} SpacedEnds(words: seq<UText>)
    requires Wordy(words)
    ensures Spaced(words) == [] <==> words == []
    ensures words != [] ==> !IsWhite(Spaced(words)[|Spaced(words)| - 1])
  {
    if |words| > 1 { SpacedEnds(words[1..]); }
  }

  lemma {:induction false} OneWord(word: UText, t: UText)
    requires word + t != [] && forall j :: 0 <= j < |t| ==> !IsWhite(t[j])
    ensures Words(word, t) == [word + t]
    decreases |t|
  {
    if t != [] {
      OneWord(word + [t[0]], t[1..]);
      assert word + [t[0]] + t[1..] == word + t;
    } else {
      assert word + t == word;
    }
  }

  /** A short name without white space is listed as it is, surrogates and all. */
  lemma CleanNameKeeps(t: UText)
    requires 1 <= |t| <= MAX_NAME && forall j :: 0 <= j < |t| ==> !IsWhite(t[j])
    ensures CleanName(t) == t
  {
    OneWord([], t);
  }
}
