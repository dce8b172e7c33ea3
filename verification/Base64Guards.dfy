/**
 The service (Python) and the native code (Swift) decode base64url with a library decoder and then
 re-encode. Whatever the library does on other texts, if it is right on the encoder's own output the
 guard makes both accept exactly the texts that `Base64Url.Decode` accepts, with the same bytes.
 */
module Base64Guards {
  import opened Prelude
  import opened Base64Url

  /** A library codec with padding, over the URL alphabet or over the standard one. */
  datatype Library = Library(encode: seq<byte> -> string, decode: string -> Option<seq<byte>>)

  function Repeat(c: char, n: nat): string { seq(n, _ => c) }

  /** Fills a text up to a multiple of four characters. */
  function Padded(t: string): string { t + Repeat('=', (4 - |t| % 4) % 4) }

  function ReplaceChar(t: string, from: char, to: char): (r: string)
    ensures |r| == |t|
  {
    seq(|t|, i requires 0 <= i < |t| => if t[i] == from then to else t[i])
  }

  /** The same text in the alphabet of RFC 4648, section 4. */
  function ToStandard(t: string): string { ReplaceChar(ReplaceChar(t, '-', '+'), '_', '/') }

  function FromStandard(t: string): string { ReplaceChar(ReplaceChar(t, '+', '-'), '/', '_') }

  /** The library encodes as the RFC says, and decodes its own encodings. */
  ghost predicate RightOverUrlAlphabet(lib: Library)
  {
    forall b: seq<byte> :: lib.encode(b) == Padded(Encode(b)) && lib.decode(Padded(Encode(b))) == Some(b)
  }

  ghost predicate RightOverStandardAlphabet(lib: Library)
  {
    forall b: seq<byte> ::
      lib.encode(b) == Padded(ToStandard(Encode(b))) && lib.decode(Padded(ToStandard(Encode(b)))) == Some(b)
  }

  // ---- The service ----

  function StripRight(t: string, c: char): string
  {
    if t != "" && t[|t| - 1] == c then StripRight(t[..|t| - 1], c) else t
  }

  function ServiceEncode(lib: Library, b: seq<byte>): string { StripRight(lib.encode(b), '=') }

  /** `^[A-Za-z0-9_-]*$` as Python matches it: `$` also matches before one final newline. */
  predicate ServicePattern(t: string)
  {
    AllSymbols(t) || (t != "" && t[|t| - 1] == '\n' && AllSymbols(t[..|t| - 1]))
  }

  function ServiceDecode(lib: Library, text: string, expectLen: Option<nat>): Option<seq<byte>>
  {
    if !ServicePattern(text) then None
    else if (4 - |text| % 4) % 4 == 3 then None
    else
      match lib.decode(Padded(text))
      case None => None
      case Some(raw) =>
        if expectLen.Some? && |raw| != expectLen.value then None
        else if ServiceEncode(lib, raw) != text then None
        else Some(raw)
  }

  // ---- The native code ----

  function RemoveAll(t: string, c: char): string
  {
    if t == "" then "" else (if t[0] == c then "" else [t[0]]) + RemoveAll(t[1..], c)
  }

  function NativeEncode(lib: Library, b: seq<byte>): string
  {
    RemoveAll(FromStandard(lib.encode(b)), '=')
  }

  function NativeDecode(lib: Library, text: string, expectLen: Option<nat>): Option<seq<byte>>
  {
    if '=' in text || !AllSymbols(text) then None
    else if |text| % 4 == 1 then None
    else
      match lib.decode(Padded(ToStandard(text)))
      case None => None
      case Some(data) =>
        if NativeEncode(lib, data) != text then None
        else if expectLen.Some? && |data| != expectLen.value then None
        else Some(data)
  }

  // ---- Agreement ----

  lemma {:induction false} StripPadding(t: string, n: nat)
    requires AllSymbols(t)
    ensures StripRight(t + Repeat('=', n), '=') == t
  {
    if n == 0 {
      assert t + Repeat('=', 0) == t;
    } else {
      var u := t + Repeat('=', n);
      assert u[..|u| - 1] == t + Repeat('=', n - 1);
      StripPadding(t, n - 1);
    }
  }

  lemma {:induction false} RemovePadding(t: string, n: nat)
    requires AllSymbols(t)
    ensures RemoveAll(t + Repeat('=', n), '=') == t
  {
    var u := t + Repeat('=', n);
    if t != "" {
      assert u[1..] == t[1..] + Repeat('=', n);
      RemovePadding(t[1..], n);
    } else if n > 0 {
      assert u[1..] == t + Repeat('=', n - 1);
      RemovePadding(t, n - 1);
    }
  }

  lemma ServiceEncodeIsEncode(lib: Library, b: seq<byte>)
    requires RightOverUrlAlphabet(lib)
    ensures ServiceEncode(lib, b) == Encode(b)
  {
    StripPadding(Encode(b), (4 - |Encode(b)| % 4) % 4);
  }

  lemma NativeEncodeIsEncode(lib: Library, b: seq<byte>)
    requires RightOverStandardAlphabet(lib)
    ensures NativeEncode(lib, b) == Encode(b)
  {
    var t := Encode(b);
    var n := (4 - |t| % 4) % 4;
    assert FromStandard(ToStandard(t) + Repeat('=', n)) == t + Repeat('=', n);
    RemovePadding(t, n);
  }

  /** The guard makes the service's decoder the strict decoder. */
  lemma ServiceDecodesStrictly(lib: Library, text: string, expectLen: Option<nat>)
    requires RightOverUrlAlphabet(lib)
    ensures ServiceDecode(lib, text, expectLen) == OfLength(Decode(text), expectLen)
  {
    hide Decode, Encode, ServiceEncode;
    match Decode(text)
    case Some(b) =>
      DecodeIsInverse(text, b);
      AcceptsExactlyCanonical(text);
      assert lib.decode(Padded(Encode(b))) == Some(b);
      ServiceEncodeIsEncode(lib, b);
    case None =>
      var r := ServiceDecode(lib, text, expectLen);
      if r.Some? {
        ServiceEncodeIsEncode(lib, r.value);
        DecodeIsInverse(text, r.value);
      }
  }

  lemma NativeDecodesStrictly(lib: Library, text: string, expectLen: Option<nat>)
    requires RightOverStandardAlphabet(lib)
    ensures NativeDecode(lib, text, expectLen) == OfLength(Decode(text), expectLen)
  {
    hide Decode, Encode, NativeEncode;
    match Decode(text)
    case Some(b) =>
      DecodeIsInverse(text, b);
      AcceptsExactlyCanonical(text);
      NativeEncodeIsEncode(lib, b);
      assert lib.decode(Padded(ToStandard(Encode(b)))) == Some(b);
    case None =>
      var r := NativeDecode(lib, text, expectLen);
      if r.Some? {
        NativeEncodeIsEncode(lib, r.value);
        DecodeIsInverse(text, r.value);
      }
  }

  /** All three programs accept the same texts and read the same bytes; the phone's is `DecodeLoop`. */
  lemma DecodersAgree(service: Library, native: Library, text: string, expectLen: Option<nat>)
    requires RightOverUrlAlphabet(service) && RightOverStandardAlphabet(native)
    ensures ServiceDecode(service, text, expectLen) == NativeDecode(native, text, expectLen)
         == OfLength(Decode(text), expectLen)
  {
    ServiceDecodesStrictly(service, text, expectLen);
    NativeDecodesStrictly(native, text, expectLen);
  }
}
