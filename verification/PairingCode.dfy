/** Pairing codes as they are generated, shown and typed back. Typed text is ASCII. */
module PairingCode {
  import opened Text

  const CODE_LENGTH := 8

  /** Crockford base32 without I, L, O and U. */
  predicate InAlphabet(c: char)
  {
    '0' <= c <= '9' || ('A' <= c <= 'Z' && c != 'I' && c != 'L' && c != 'O' && c != 'U')
  }

  predicate OverAlphabet(s: string) { forall i :: 0 <= i < |s| ==> InAlphabet(s[i]) }

  /** What the generator can produce. */
  predicate Generated(code: string) { |code| == CODE_LENGTH && OverAlphabet(code) }

  /** Upper-case letters and digits: what both patterns keep of upper-cased ASCII text. */
  predicate IsUpperAlnum(c: char) { 'A' <= c <= 'Z' || '0' <= c <= '9' }

  function Fold(c: char): char
  {
    if c == 'I' || c == 'L' then '1' else if c == 'O' then '0' else if c == 'U' then 'V' else c
  }

  function FoldAll(s: string): (r: string)
    ensures |r| == |s| && forall i :: 0 <= i < |s| ==> r[i] == Fold(s[i])
  {
    seq(|s|, i requires 0 <= i < |s| => Fold(s[i]))
  }

  /** Upper-case, drop punctuation, fold look-alikes. */
  function NormalizeCode(s: string): (r: string)
    ensures OverAlphabet(r)
  {
    FoldAll(Filter(Upper(s), IsUpperAlnum))
  }

  /** Grouping for display. */
  function FormatCode(code: string): string
  {
    if |code| == CODE_LENGTH then code[..4] + "-" + code[4..] else code
  }

  /** The codes that normalization leaves alone are exactly those over the alphabet. */
  lemma FixedPoints(s: string)
    ensures NormalizeCode(s) == s <==> OverAlphabet(s)
  {
    if OverAlphabet(s) {
      assert Upper(s) == s;
      FilterKeepsAll(s, IsUpperAlnum);
      assert FoldAll(s) == s;
    }
  }

  lemma NormalizeIdempotent(s: string)
    ensures NormalizeCode(NormalizeCode(s)) == NormalizeCode(s)
  {
    FixedPoints(NormalizeCode(s));
  }

  lemma NormalizeAppend(a: string, b: string)
    ensures NormalizeCode(a + b) == NormalizeCode(a) + NormalizeCode(b)
  {
    assert Upper(a + b) == Upper(a) + Upper(b);
    FilterAppend(Upper(a), Upper(b), IsUpperAlnum);
  }

  /** What is displayed, in either case, normalizes to the code. */
  lemma DisplayNormalizes(code: string)
    requires Generated(code)
    ensures NormalizeCode(FormatCode(code)) == code == NormalizeCode(Lower(FormatCode(code)))
  {
    var shown := FormatCode(code);
    FixedPoints(code[..4]);
    FixedPoints(code[4..]);
    NormalizeAppend(code[..4] + "-", code[4..]);
    NormalizeAppend(code[..4], "-");
    assert Upper("-") == "-" && Filter("-", IsUpperAlnum) == "" && FoldAll("") == "";
    assert code[..4] + code[4..] == code;
    assert Upper(Lower(shown)) == Upper(shown);
  }

  /** What a typed character comes to: look-alikes are folded, letters raised, other characters dropped. */
  lemma TypedCharacter(c: char)
    ensures NormalizeCode([c])
         == if c in "iIlL1" then "1" else if c in "oO0" then "0" else if c in "uUvV" then "V"
            else if '2' <= c <= '9' || 'A' <= c <= 'Z' then [c]
            else if 'a' <= c <= 'z' then [(c as int - 32) as char] else ""
  {
    var raised := Upper([c]);
    assert raised[0] == ToUpper(c);
    assert Filter(raised, IsUpperAlnum) == if IsUpperAlnum(ToUpper(c)) then [ToUpper(c)]
        else [] by { assert raised[1..] == []; }
  }
}
