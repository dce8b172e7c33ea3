/**
 base64url without padding (RFC 4648, section 5).

 `ToDigits` follows the shifts and masks of the phone's loop; `DigitsAreNumeral` and `NumeralUnique`
 prove that it yields the one base-64 numeral the RFC asks for: the bytes read as one number, moved
 left by the missing low bits. The phone's loops are proved to compute `Encode` and its inverse, and
 the guarded library calls of the service and of the native code are proved to accept exactly the
 texts the phone accepts. Shifts and masks by powers of two are written with `/`, `%` and `*`.
 */
module Base64Url {
  import opened Prelude

  type byte = x: int | 0 <= x < 256
  type sextet = x: int | 0 <= x < 64

  // ---- The alphabet ----

  /** The symbol of a base-64 digit. */
  function Symbol(d: sextet): (c: char)
    ensures IsSymbol(c) && Value(c) == d
  {
    if d < 26 then ('A' as int + d) as char
    else if d < 52 then ('a' as int + d - 26) as char
    else if d < 62 then ('0' as int + d - 52) as char
    else if d == 62 then '-' else '_'
  }

  const ALPHABET := "ABCDEFGHIJKLMNOPQRSTUVWXYZabcdefghijklmnopqrstuvwxyz0123456789-_"

  lemma UpperCase()
    ensures Stretch('A', 26) == "ABCDEFGHIJKLMNOPQRSTUVWXYZ"
  {
  }

  lemma LowerCase()
    ensures Stretch('a', 26) == "abcdefghijklmnopqrstuvwxyz"
  {
  }

  lemma UpperFirst()
    ensures ALPHABET == "ABCDEFGHIJKLMNOPQRSTUVWXYZ" + "abcdefghijklmnopqrstuvwxyz0123456789-_"
  {
  }

  lemma LowerNext()
    ensures "abcdefghijklmnopqrstuvwxyz0123456789-_" == "abcdefghijklmnopqrstuvwxyz" + "0123456789-_"
  {
  }

  lemma DigitCase()
    ensures Stretch('0', 10) + "-_" == "0123456789-_"
  {
  }

  lemma AlphabetParts()
    ensures ALPHABET == Stretch('A', 26) + (Stretch('a', 26) + (Stretch('0', 10) + "-_"))
  {
    hide Stretch;
    UpperCase();
    LowerCase();
    UpperFirst();
    LowerNext();
    DigitCase();
  }

  /** The alphabet lists the symbols in digit order. */
  lemma AlphabetSpelled()
    ensures |ALPHABET| == 64 && forall d: sextet :: ALPHABET[d] == Symbol(d)
  {
    AlphabetParts();
    var upper, lower, digits := Stretch('A', 26), Stretch('a', 26), Stretch('0', 10);
    forall d: sextet ensures (upper + (lower + (digits + "-_")))[d] == Symbol(d) {}
  }

  /** Neighbouring characters from one on. */
  function Stretch(first: char, n: nat): (s: string)
    requires first as int + n <= 128
    ensures |s| == n
  {
    seq(n, i requires 0 <= i < n => (first as int + i) as char)
  }

  predicate IsSymbol(c: char)
  {
    'A' <= c <= 'Z' || 'a' <= c <= 'z' || '0' <= c <= '9' || c == '-' || c == '_'
  }

  predicate AllSymbols(t: string) { forall i :: 0 <= i < |t| ==> IsSymbol(t[i]) }

  /** The digit a symbol stands for. */
  function Value(c: char): (d: sextet)
    requires IsSymbol(c)
  {
    if 'A' <= c <= 'Z' then c as int - 'A' as int
    else if 'a' <= c <= 'z' then c as int - 'a' as int + 26
    else if '0' <= c <= '9' then c as int - '0' as int + 52
    else if c == '-' then 62 else 63
  }

  lemma SymbolOfValue(c: char)
    requires IsSymbol(c)
    ensures Symbol(Value(c)) == c
  {
    if 'A' <= c <= 'Z' {
    } else if 'a' <= c <= 'z' {
    } else if '0' <= c <= '9' {
    }
  }

  /** The reverse table that the phone builds once from the alphabet. */
  method BuildLookup() returns (lookup: map<char, sextet>)
    ensures forall c :: c in lookup <==> IsSymbol(c)
    ensures forall c :: IsSymbol(c) ==> lookup[c] == Value(c)
  {
    lookup := map[];
    AlphabetSpelled();
    for i := 0 to |ALPHABET|
      invariant forall c :: c in lookup <==> IsSymbol(c) && Value(c) < i
      invariant forall c :: c in lookup ==> lookup[c] == Value(c)
    {
      lookup := lookup[ALPHABET[i] := i];
      forall c | IsSymbol(c) && Value(c) == i ensures c == ALPHABET[i] { SymbolOfValue(c); }
    }
  }

  /** The text that spells a row of digits. */
  function Spell(ds: seq<sextet>): (t: string)
    ensures |t| == |ds| && AllSymbols(t)
  {
    seq(|ds|, i requires 0 <= i < |ds| => Symbol(ds[i]))
  }

  /** The digits that a text spells. */
  function Values(t: string): (ds: seq<sextet>)
    requires AllSymbols(t)
    ensures |ds| == |t|
  {
    seq(|t|, i requires 0 <= i < |t| => Value(t[i]))
  }

  lemma SpellValues(t: string)
    requires AllSymbols(t)
    ensures Spell(Values(t)) == t
  {
    forall i | 0 <= i < |t| ensures Symbol(Value(t[i])) == t[i] { SymbolOfValue(t[i]); }
  }

  lemma ValuesSpell(ds: seq<sextet>)
    ensures Values(Spell(ds)) == ds
  {
  }

  // ---- Bytes to digits ----

  // The digits that a byte, or two neighbouring bytes, contribute to.
  function Digit0(b0: byte): sextet { b0 / 4 }
  function Digit1(b0: byte, b1: byte): sextet { b0 as int % 4 * 16 + b1 / 16 }
  function Digit2(b1: byte, b2: byte): sextet { b1 as int % 16 * 4 + b2 / 64 }
  function Digit3(b2: byte): sextet { b2 % 64 }

  function ToDigits(b: seq<byte>): (ds: seq<sextet>)
  {
    if |b| == 0 then []
    else if |b| == 1 then [Digit0(b[0]), Digit1(b[0], 0)]
    else if |b| == 2 then [Digit0(b[0]), Digit1(b[0], b[1]), Digit2(b[1], 0)]
    else [Digit0(b[0]), Digit1(b[0], b[1]), Digit2(b[1], b[2]), Digit3(b[2])] + ToDigits(b[3..])
  }

  function Encode(b: seq<byte>): string { Spell(ToDigits(b)) }

  /** The length of the text: 22 symbols for 16 bytes, 43 for 32, 86 for 64. */
  lemma {:induction false} EncodeLength(b: seq<byte>)
    ensures |Encode(b)| == (|b| * 4 + 2) / 3
  {
    if |b| > 2 { EncodeLength(b[3..]); }
  }

  /** The number that a row of digits denotes. */
  function Number(ds: seq<sextet>): nat
  {
    if ds == [] then 0 else Number(ds[..|ds| - 1]) * 64 + ds[|ds| - 1]
  }

  /** The number that a byte string denotes, most significant byte first. */
  function BigEndian(b: seq<byte>): nat
  {
    if b == [] then 0 else BigEndian(b[..|b| - 1]) * 256 + b[|b| - 1]
  }

  lemma NumberAppend(ds: seq<sextet>, d: sextet)
    ensures Number(ds + [d]) == Number(ds) * 64 + d
  {
    assert (ds + [d])[..|ds|] == ds;
  }

  lemma BigEndianAppend(b: seq<byte>, x: byte)
    ensures BigEndian(b + [x]) == BigEndian(b) * 256 + x
  {
    assert (b + [x])[..|b|] == b;
  }

  lemma BigEndianTail(a: seq<byte>, x: byte, y: byte, z: byte)
    ensures BigEndian(a + [x]) == BigEndian(a) * 256 + x
    ensures BigEndian(a + [x, y]) == BigEndian(a) * 65536 + x as int * 256 + y
    ensures BigEndian(a + [x, y, z]) == BigEndian(a) * 16777216 + x as int * 65536 + y as int * 256 + z
  {
    assert a + [x, y] == a + [x] + [y];
    assert a + [x, y, z] == a + [x, y] + [z];
    BigEndianAppend(a, x);
    BigEndianAppend(a + [x], y);
    BigEndianAppend(a + [x, y], z);
  }

  lemma {:induction false} ToDigitsAppend(a: seq<byte>, b: seq<byte>)
    requires |a| % 3 == 0
    ensures ToDigits(a + b) == ToDigits(a) + ToDigits(b)
  {
    if a == [] {
      assert a + b == b;
    } else {
      assert (a + b)[3..] == a[3..] + b;
      ToDigitsAppend(a[3..], b);
    }
  }

  /** How far the number is moved left to fill the last digit. */
  function Shift(n: nat): nat
  {
    if n % 3 == 0 then 1 else if n % 3 == 1 then 16 else 4
  }

  /** A group of digits is the number of its bytes. */
  lemma GroupNumber(x: byte, y: byte, z: byte)
    ensures Digit0(x) as int * 64 + Digit1(x, 0) == x as int * 16
    ensures Digit0(x) as int * 4096 + Digit1(x, y) as int * 64 + Digit2(y, 0) == x as int * 1024 + y as int * 4
    ensures Digit0(x) as int * 262144 + Digit1(x, y) as int * 4096 + Digit2(y, z) as int * 64 + Digit3(z)
         == x as int * 65536 + y as int * 256 + z
  {
  }

  lemma NumberTail(ds: seq<sextet>, d0: sextet, d1: sextet, d2: sextet, d3: sextet)
    ensures Number(ds + [d0, d1]) == Number(ds) * 4096 + d0 as int * 64 + d1
    ensures Number(ds + [d0, d1, d2]) == Number(ds) * 262144 + d0 as int * 4096 + d1 as int * 64 + d2
    ensures Number(ds + [d0, d1, d2, d3])
         == Number(ds) * 16777216 + d0 as int * 262144 + d1 as int * 4096 + d2 as int * 64 + d3
  {
    assert ds + [d0, d1] == ds + [d0] + [d1];
    assert ds + [d0, d1, d2] == ds + [d0, d1] + [d2];
    assert ds + [d0, d1, d2, d3] == ds + [d0, d1, d2] + [d3];
    NumberAppend(ds, d0);
    NumberAppend(ds + [d0], d1);
    NumberAppend(ds + [d0, d1], d2);
    NumberAppend(ds + [d0, d1, d2], d3);
  }

  // Appending the last group of one, two or three bytes keeps the digits a numeral.

  lemma LastGroup1(a: seq<byte>, x: byte)
    requires |a| % 3 == 0 && Number(ToDigits(a)) == BigEndian(a)
    ensures Number(ToDigits(a + [x])) == BigEndian(a + [x]) * 16
  {
    ToDigitsAppend(a, [x]);
    NumberTail(ToDigits(a), Digit0(x), Digit1(x, 0), 0, 0);
    GroupNumber(x, 0, 0);
    BigEndianTail(a, x, 0, 0);
  }

  lemma LastGroup2(a: seq<byte>, x: byte, y: byte)
    requires |a| % 3 == 0 && Number(ToDigits(a)) == BigEndian(a)
    ensures Number(ToDigits(a + [x, y])) == BigEndian(a + [x, y]) * 4
  {
    ToDigitsAppend(a, [x, y]);
    NumberTail(ToDigits(a), Digit0(x), Digit1(x, y), Digit2(y, 0), 0);
    GroupNumber(x, y, 0);
    BigEndianTail(a, x, y, 0);
  }

  lemma LastGroup3(a: seq<byte>, x: byte, y: byte, z: byte)
    requires |a| % 3 == 0 && Number(ToDigits(a)) == BigEndian(a)
    ensures Number(ToDigits(a + [x, y, z])) == BigEndian(a + [x, y, z])
  {
    ToDigitsAppend(a, [x, y, z]);
    hide Number, BigEndian, Digit0, Digit1, Digit2, Digit3;
    assert ToDigits([x, y, z]) == [Digit0(x), Digit1(x, y), Digit2(y, z), Digit3(z)];
    NumberTail(ToDigits(a), Digit0(x), Digit1(x, y), Digit2(y, z), Digit3(z));
    GroupNumber(x, y, z);
    BigEndianTail(a, x, y, z);
  }

  lemma NothingIsZero()
    ensures Number(ToDigits([])) == 0 && BigEndian([]) == 0
  {
  }

  /** Where the last group of a text of `n` bytes begins, and what its missing bits come to. */
  lemma WholeGroups(n: nat) returns (k: nat)
    requires n > 0
    ensures k < n <= k + 3 && k % 3 == 0
    ensures Shift(k) == 1 && Shift(n) == if n == k + 1 then 16 else if n == k + 2 then 4 else 1
  {
    k := if n % 3 == 0 then n - 3 else n - n % 3;
  }

  /** The digits are the base-64 numeral of the bytes' number, moved left by the missing low bits. */
  lemma {:induction false} DigitsAreNumeral(b: seq<byte>)
    ensures Number(ToDigits(b)) == BigEndian(b) * Shift(|b|)
    decreases |b|
  {
    hide Number, BigEndian, ToDigits, Shift;
    if b == [] {
      NothingIsZero();
    } else {
      var k := WholeGroups(|b|);
      var a := b[..k];
      DigitsAreNumeral(a);
      assert Number(ToDigits(a)) == BigEndian(a) * 1;
      if |b| == k + 1 {
        assert b == a + [b[k]];
        LastGroup1(a, b[k]);
      } else if |b| == k + 2 {
        assert b == a + [b[k], b[k + 1]];
        LastGroup2(a, b[k], b[k + 1]);
      } else {
        assert b == a + [b[k], b[k + 1], b[k + 2]];
        LastGroup3(a, b[k], b[k + 1], b[k + 2]);
      }
    }
  }

  lemma SameDigits(a: nat, c: sextet, b: nat, d: sextet)
    requires a * 64 + c == b * 64 + d
    ensures a == b && c == d
  {
  }

  /** A numeral of given length is determined by its number. */
  lemma {:induction false} NumeralUnique(s: seq<sextet>, t: seq<sextet>)
    requires |s| == |t| && Number(s) == Number(t)
    ensures s == t
  {
    if s != [] {
      var n := |s| - 1;
      SameDigits(Number(s[..n]), s[n], Number(t[..n]), t[n]);
      hide Number;
      NumeralUnique(s[..n], t[..n]);
      assert s == s[..n] + [s[n]] && t == t[..n] + [t[n]];
    }
  }

  // ---- Digits to bytes ----

  // The bytes that two neighbouring digits make up.
  function Byte0(d0: sextet, d1: sextet): byte { d0 as int * 4 + d1 / 16 }
  function Byte1(d1: sextet, d2: sextet): byte { d1 as int % 16 * 16 + d2 / 4 }
  function Byte2(d2: sextet, d3: sextet): byte { d2 as int % 4 * 64 + d3 }

  /** The bytes whose bits come first in the digits; surplus low bits are dropped. */
  function FromDigits(ds: seq<sextet>): (b: seq<byte>)
    requires |ds| % 4 != 1
  {
    if |ds| == 0 then []
    else if |ds| == 2 then [Byte0(ds[0], ds[1])]
    else if |ds| == 3 then [Byte0(ds[0], ds[1]), Byte1(ds[1], ds[2])]
    else [Byte0(ds[0], ds[1]), Byte1(ds[1], ds[2]), Byte2(ds[2], ds[3])] + FromDigits(ds[4..])
  }

  lemma ThreeQuarters(n: nat)
    requires n >= 4
    ensures (n - 4) * 3 / 4 + 3 == n * 3 / 4
  {
  }

  lemma {:induction false} FromDigitsLength(ds: seq<sextet>)
    requires |ds| % 4 != 1
    ensures |FromDigits(ds)| == |ds| * 3 / 4
  {
    if |ds| > 3 {
      hide FromDigits;
      GroupLength(ds);
      FromDigitsLength(ds[4..]);
      ThreeQuarters(|ds|);
    }
  }

  lemma GroupLength(ds: seq<sextet>)
    requires |ds| > 3 && |ds| % 4 != 1
    ensures |ds[4..]| % 4 != 1 && |FromDigits(ds)| == 3 + |FromDigits(ds[4..])|
  {
    hide Byte0, Byte1, Byte2;
  }

  /** The strict decoder. */
  function Decode(t: string): Option<seq<byte>>
  {
    if AllSymbols(t) && |t| % 4 != 1 && Encode(FromDigits(Values(t))) == t
    then Some(FromDigits(Values(t))) else None
  }

  lemma Unpack(b0: byte, b1: byte, b2: byte)
    ensures Byte0(Digit0(b0), Digit1(b0, b1)) == b0
    ensures Byte1(Digit1(b0, b1), Digit2(b1, b2)) == b1
    ensures Byte2(Digit2(b1, b2), Digit3(b2)) == b2
  {
  }

  lemma Repack(d0: sextet, d1: sextet, d2: sextet, d3: sextet)
    ensures Digit0(Byte0(d0, d1)) == d0
    ensures Digit1(Byte0(d0, d1), Byte1(d1, d2)) == d1
    ensures Digit2(Byte1(d1, d2), Byte2(d2, d3)) == d2
    ensures Digit3(Byte2(d2, d3)) == d3
    ensures Digit1(Byte0(d0, d1), 0) == d1 <==> d1 % 16 == 0
    ensures Digit2(Byte1(d1, d2), 0) == d2 <==> d2 % 4 == 0
  {
  }

  /** Decoding what was encoded gives the bytes back. */
  lemma {:induction false} FromToDigits(b: seq<byte>)
    ensures |ToDigits(b)| % 4 != 1
    ensures FromDigits(ToDigits(b)) == b
  {
    hide Digit0, Digit1, Digit2, Digit3, Byte0, Byte1, Byte2;
    if |b| == 1 {
      Unpack(b[0], 0, 0);
    } else if |b| == 2 {
      Unpack(b[0], b[1], 0);
    } else if |b| > 2 {
      FromToDigits(b[3..]);
      Unpack(b[0], b[1], b[2]);
      assert ToDigits(b)[4..] == ToDigits(b[3..]);
      assert b == [b[0], b[1], b[2]] + b[3..];
    }
  }

  /** The strict decoder is exactly the inverse of the encoder. */
  lemma DecodeIsInverse(t: string, b: seq<byte>)
    ensures Decode(t) == Some(b) <==> Encode(b) == t
  {
    FromToDigits(b);
    ValuesSpell(ToDigits(b));
  }

  /**
   Which rows of digits are canonical (RFC 4648, section 3.5): zero in the bits of the last digit
   that belong to no byte.
   */
  predicate CanonicalDigits(ds: seq<sextet>)
  {
    && |ds| % 4 != 1
    && (|ds| % 4 == 2 ==> ds[|ds| - 1] % 16 == 0)
    && (|ds| % 4 == 3 ==> ds[|ds| - 1] % 4 == 0)
  }

  /** A full group is repacked as it is. */
  lemma GroupAgain(ds: seq<sextet>)
    requires |ds| > 3 && |ds| % 4 != 1
    ensures |ds[4..]| % 4 != 1
    ensures ToDigits(FromDigits(ds)) == [ds[0], ds[1], ds[2], ds[3]] + ToDigits(FromDigits(ds[4..]))
  {
    hide Digit0, Digit1, Digit2, Digit3, Byte0, Byte1, Byte2;
    Repack(ds[0], ds[1], ds[2], ds[3]);
    assert FromDigits(ds)[3..] == FromDigits(ds[4..]);
  }

  lemma PairAgain(ds: seq<sextet>)
    requires |ds| == 2
    ensures ToDigits(FromDigits(ds)) == ds <==> ds[1] % 16 == 0
  {
    hide Digit0, Digit1, Byte0;
    Repack(ds[0], ds[1], 0, 0);
    var back := ToDigits(FromDigits(ds));
    assert back == [ds[0], Digit1(Byte0(ds[0], ds[1]), 0)];
    assert back == ds <==> back[1] == ds[1];
  }

  lemma TripleAgain(ds: seq<sextet>)
    requires |ds| == 3
    ensures ToDigits(FromDigits(ds)) == ds <==> ds[2] % 4 == 0
  {
    hide Digit0, Digit1, Digit2, Byte0, Byte1;
    Repack(ds[0], ds[1], ds[2], 0);
    var back := ToDigits(FromDigits(ds));
    assert back == [ds[0], ds[1], Digit2(Byte1(ds[1], ds[2]), 0)];
    assert back == ds <==> back[2] == ds[2];
  }

  lemma CanonicalRest(ds: seq<sextet>)
    requires |ds| > 3
    ensures CanonicalDigits(ds) <==> CanonicalDigits(ds[4..])
    ensures |ds[4..]| % 4 == |ds| % 4
  {
  }

  lemma LongAgain(ds: seq<sextet>)
    requires |ds| > 3 && |ds| % 4 != 1 && |ds[4..]| % 4 != 1
    ensures ToDigits(FromDigits(ds)) == ds <==> ToDigits(FromDigits(ds[4..])) == ds[4..]
  {
    GroupAgain(ds);
    hide ToDigits, FromDigits;
    var group := [ds[0], ds[1], ds[2], ds[3]];
    assert ds == group + ds[4..];
    assert (group + ToDigits(FromDigits(ds[4..])))[4..] == ToDigits(FromDigits(ds[4..]));
  }

  lemma {:induction false} ToFromDigits(ds: seq<sextet>)
    requires |ds| % 4 != 1
    ensures ToDigits(FromDigits(ds)) == ds <==> CanonicalDigits(ds)
  {
    if |ds| == 2 {
      PairAgain(ds);
      hide ToDigits, FromDigits;
    } else if |ds| == 3 {
      TripleAgain(ds);
      hide ToDigits, FromDigits;
    } else if |ds| > 3 {
      CanonicalRest(ds);
      ToFromDigits(ds[4..]);
      LongAgain(ds);
      hide *;
    }
  }

  /** The re-encode guard lets exactly the canonical texts through. */
  lemma AcceptsExactlyCanonical(t: string)
    ensures Decode(t).Some? <==> AllSymbols(t) && CanonicalDigits(Values(t))
  {
    if AllSymbols(t) && |t| % 4 != 1 {
      var ds := Values(t);
      ToFromDigits(ds);
      SpellValues(t);
      ValuesSpell(ToDigits(FromDigits(ds)));
    }
  }

  // ---- The phone's loops ----

  /** What is left to encode from position `i` on. */
  lemma ToDigitsAt(b: seq<byte>, i: nat)
    requires i < |b|
    ensures |b| - i == 1 ==> ToDigits(b[i..]) == [Digit0(b[i]), Digit1(b[i], 0)]
    ensures |b| - i == 2 ==> ToDigits(b[i..]) == [Digit0(b[i]), Digit1(b[i], b[i + 1]), Digit2(b[i + 1], 0)]
    ensures |b| - i > 2 ==>
      ToDigits(b[i..]) == [Digit0(b[i]), Digit1(b[i], b[i + 1]), Digit2(b[i + 1], b[i + 2]), Digit3(b[i + 2])]
          + ToDigits(b[i + 3..])
  {
    if |b| - i > 2 { assert b[i..][3..] == b[i + 3..]; }
  }

  method EncodeLoop(bytes: seq<byte>) returns (out: string)
    ensures out == Encode(bytes)
  {
    hide ToDigits, Symbol, Value, Digit0, Digit1, Digit2, Digit3;
    AlphabetSpelled();
    out := "";
    ghost var ds: seq<sextet> := [];
    assert bytes[0..] == bytes;
    var i := 0;
    while i < |bytes|
      invariant 0 <= i <= |bytes|
      invariant out == Spell(ds)
      invariant ds + ToDigits(bytes[i..]) == ToDigits(bytes)
    {
      var b0 := bytes[i];
      var b1 := if i + 1 < |bytes| then Some(bytes[i + 1]) else None;
      var b2 := if i + 2 < |bytes| then Some(bytes[i + 2]) else None;
      ToDigitsAt(bytes, i);

      out := out + [ALPHABET[Digit0(b0)]];
      out := out + [ALPHABET[Digit1(b0, if b1.Some? then b1.value else 0)]];
      ds := ds + [Digit0(b0), Digit1(b0, if b1.Some? then b1.value else 0)];
      if b1.None? { return; }
      out := out + [ALPHABET[Digit2(b1.value, if b2.Some? then b2.value else 0)]];
      ds := ds + [Digit2(b1.value, if b2.Some? then b2.value else 0)];
      if b2.None? { return; }
      out := out + [ALPHABET[Digit3(b2.value)]];
      ds := ds + [Digit3(b2.value)];
      i := i + 3;
    }
    EncodeNothing(bytes[i..]);
  }

  lemma EncodeNothing(b: seq<byte>)
    requires |b| == 0
    ensures ToDigits(b) == []
  {
  }

  datatype DecodeError = NotBase64Url | ImpossibleLength | TruncatedGroup | WrongLength | NonCanonical

  /** The bytes of one group of digits, the last two of which may be missing. */
  function Group(c0: sextet, c1: sextet, c2: Option<sextet>, c3: Option<sextet>): seq<byte>
  {
    if c2.None? then [Byte0(c0, c1)]
    else if c3.None? then [Byte0(c0, c1), Byte1(c1, c2.value)]
    else [Byte0(c0, c1), Byte1(c1, c2.value), Byte2(c2.value, c3.value)]
  }

  function DigitAt(ds: seq<sextet>, i: nat): Option<sextet> { if i < |ds| then Some(ds[i]) else None }

  /** What is left to decode from position `i` on. */
  lemma FromDigitsAt(ds: seq<sextet>, i: nat)
    requires i < |ds| && |ds[i..]| % 4 != 1
    ensures i + 1 < |ds| && (i + 4 <= |ds| ==> |ds[i + 4..]| % 4 != 1)
    ensures FromDigits(ds[i..]) == Group(ds[i], ds[i + 1], DigitAt(ds, i + 2), DigitAt(ds, i + 3))
                                   + if i + 4 <= |ds| then FromDigits(ds[i + 4..]) else []
  {
    if i + 4 <= |ds| { assert ds[i..][4..] == ds[i + 4..]; }
  }

  lemma FromNothing(ds: seq<sextet>)
    requires ds == []
    ensures FromDigits(ds) == []
  {
  }

  /** One group's bytes into the buffer, behind what is filled already. */
  method PutGroup(out: array<byte>, filled: nat, c0: sextet, c1: sextet, c2: Option<sextet>, c3: Option<sextet>)
      returns (outIndex: nat)
    requires filled + |Group(c0, c1, c2, c3)| <= out.Length
    modifies out
    ensures outIndex == filled + |Group(c0, c1, c2, c3)|
    ensures out[..outIndex] == old(out[..filled]) + Group(c0, c1, c2, c3)
  {
    hide Byte0, Byte1, Byte2;
    out[filled] := Byte0(c0, c1);
    outIndex := filled + 1;
    if c2.None? { return; }
    out[outIndex] := Byte1(c1, c2.value);
    outIndex := outIndex + 1;
    if c3.None? { return; }
    out[outIndex] := Byte2(c2.value, c3.value);
    outIndex := outIndex + 1;
  }

  /** The buffer that the phone allocates up front, filled exactly. */
  method FillBuffer(text: string) returns (r: Result<seq<byte>, DecodeError>)
    requires AllSymbols(text) && |text| % 4 != 1
    ensures r == Ok(FromDigits(Values(text)))
  {
    hide FromDigits, Value, Symbol, Group;
    var lookup := BuildLookup();
    var out := new byte[|text| * 3 / 4];
    var outIndex := 0;
    ghost var ds := Values(text);
    assert ds[0..] == ds;
    FromDigitsLength(ds);
    var i := 0;
    while i < |text|
      invariant 0 <= i <= |text| && |ds[i..]| % 4 != 1
      invariant 0 <= outIndex <= out.Length
      invariant out[..outIndex] + FromDigits(ds[i..]) == FromDigits(ds)
    {
      FromDigitsAt(ds, i);
      var c0 := lookup[text[i]];
      var c1 := if i + 1 < |text| then Some(lookup[text[i + 1]]) else None;
      if c1.None? { return Err(TruncatedGroup); }
      var c2 := if i + 2 < |text| then Some(lookup[text[i + 2]]) else None;
      var c3 := if i + 3 < |text| then Some(lookup[text[i + 3]]) else None;
      outIndex := PutGroup(out, outIndex, c0, c1.value, c2, c3);
      if c3.None? {
        assert out[..outIndex] == FromDigits(ds);
        break;
      }
      i := i + 4;
    }
    if i == |text| { FromNothing(ds[i..]); }
    assert out[..outIndex] == FromDigits(ds);
    assert outIndex == out.Length && out[..] == out[..outIndex];
    return Ok(out[..]);
  }

  /** A decoded value of the expected length, when one is expected. */
  function OfLength(r: Option<seq<byte>>, expectLen: Option<nat>): Option<seq<byte>>
  {
    if r.Some? && expectLen.Some? && |r.value| != expectLen.value then None else r
  }

  /** The phone's decoder. */
  method DecodeLoop(text: string, expectLen: Option<nat>)
    returns (r: Result<seq<byte>, DecodeError>)
    ensures (if r.Ok? then Some(r.value) else None) == OfLength(Decode(text), expectLen)
    ensures r.Ok? ==> |r.value| == |text| * 3 / 4
    ensures r.Err? ==> r.error != TruncatedGroup
  {
    if exists i :: 0 <= i < |text| && !IsSymbol(text[i]) { return Err(NotBase64Url); }
    if |text| % 4 == 1 { return Err(ImpossibleLength); }
    r := FillBuffer(text);
    if r.Err? { return; }
    FromDigitsLength(Values(text));
    if expectLen.Some? && |r.value| != expectLen.value { return Err(WrongLength); }
    var again := EncodeLoop(r.value);
    if again != text { return Err(NonCanonical); }
  }
}
