/**
 A reader of JSON texts without white space (RFC 8259), with whole numbers only. It is no part of any of the
 programs: it states what the text of a rendered value says.
 */
module JsonReader {
  import opened Prelude
  import opened Text
  import opened Unicode
  import opened Json

  // ---- Strings ----

  predicate At(t: UText, c: char) { t != [] && t[0] == c as int }

  function HexOf(c: CodePoint): Option<int>
  {
    if '0' as int <= c <= '9' as int then Some(c - '0' as int)
    else if 'a' as int <= c <= 'f' as int then Some(c - 'a' as int + 10)
    else if 'A' as int <= c <= 'F' as int then Some(c - 'A' as int + 10)
    else None
  }

  /** The character that an escape begins with, and the rest; `t` is what follows the backslash. */
  function ReadEscape(t: UText): (r: Option<(CodePoint, UText)>)
    ensures r.Some? ==> |r.value.1| < |t|
  {
    if At(t, '"') || At(t, '\\') || At(t, '/') then Some((t[0], t[1..]))
    else if At(t, 'b') then Some((0x08, t[1..]))
    else if At(t, 'f') then Some((0x0C, t[1..]))
    else if At(t, 'n') then Some((0x0A, t[1..]))
    else if At(t, 'r') then Some((0x0D, t[1..]))
    else if At(t, 't') then Some((0x09, t[1..]))
    else if At(t, 'u') && |t| >= 5 then
      var a, b, c, d := HexOf(t[1]), HexOf(t[2]), HexOf(t[3]), HexOf(t[4]);
      if a.Some? && b.Some? && c.Some? && d.Some?
      then Some((a.value * 0x1000 + b.value * 0x100 + c.value * 0x10 + d.value, t[5..])) else None
    else None
  }

  /** The characters up to the closing quote, and what follows it. */
  function ReadChars(t: UText): (r: Option<(UText, UText)>)
    ensures r.Some? ==> |r.value.1| < |t|
    decreases |t|
  {
    if t == [] then None
    else if t[0] == '"' as int then Some(([], t[1..]))
    else if t[0] == '\\' as int then
      match ReadEscape(t[1..])
      case None => None
      case Some((c, rest)) =>
        match ReadChars(rest)
        case None => None
        case Some((more, left)) => Some(([c] + more, left))
    else if t[0] < 0x20 then None
    else
      match ReadChars(t[1..])
      case None => None
      case Some((more, left)) => Some(([t[0]] + more, left))
  }

  // ---- Numbers ----

  predicate IsDigitPoint(c: CodePoint) { '0' as int <= c <= '9' as int }

  /** The digits that a text begins with, as a number behind `before`, and what follows them. */
  function ReadDigits(before: nat, t: UText): (r: (nat, UText))
    ensures |r.1| <= |t|
    decreases |t|
  {
    if t != [] && IsDigitPoint(t[0]) then ReadDigits(before * 10 + (t[0] - '0' as int), t[1..]) else (before, t)
  }

  // ---- Values ----

  function ReadWord(t: UText, word: string, j: Json): (r: Option<(Json, UText)>)
    requires word != ""
    ensures r.Some? ==> |r.value.1| < |t|
  {
    if Points(word) <= t then Some((j, t[|word|..])) else None
  }

  function ReadValue(t: UText): (r: Option<(Json, UText)>)
    ensures r.Some? ==> |r.value.1| < |t|
    decreases |t|, 1
  {
    if t == [] then None
    else if t[0] == 'n' as int then ReadWord(t, "null", Null)
    else if t[0] == 't' as int then ReadWord(t, "true", Bool(true))
    else if t[0] == 'f' as int then ReadWord(t, "false", Bool(false))
    else if t[0] == '"' as int then
      match ReadChars(t[1..])
      case None => None
      case Some((text, rest)) => Some((String(text), rest))
    else if t[0] == '-' as int && |t| > 1 && IsDigitPoint(t[1]) then
      var (n, rest) := ReadDigits(0, t[1..]);
      Some((Number(0 - n as int), rest))
    else if IsDigitPoint(t[0]) then
      var (n, rest) := ReadDigits(t[0] - '0' as int, t[1..]);
      Some((Number(n), rest))
    else if t[0] == '[' as int then
      if At(t[1..], ']') then Some((Arr([]), t[2..]))
      else
        match ReadItems(t[1..])
        case None => None
        case Some((items, rest)) => Some((Arr(items), rest))
    else if t[0] == '{' as int then
      if At(t[1..], '}') then Some((Obj([]), t[2..]))
      else
        match ReadMembers(t[1..])
        case None => None
        case Some((fields, rest)) => Some((Obj(fields), rest))
    else None
  }

  /** The items of an array, one at least, and what follows the closing bracket. */
  function ReadItems(t: UText): (r: Option<(seq<Json>, UText)>)
    ensures r.Some? ==> |r.value.1| < |t|
    decreases |t|, 2
  {
    match ReadValue(t)
    case None => None
    case Some((item, rest)) =>
      if At(rest, ']') then Some(([item], rest[1..]))
      else if !At(rest, ',') then None
      else
        match ReadItems(rest[1..])
        case None => None
        case Some((items, left)) => Some(([item] + items, left))
  }

  /** A name, a colon and a value. */
  function ReadMember(t: UText): (r: Option<((UText, Json), UText)>)
    ensures r.Some? ==> |r.value.1| < |t|
    decreases |t|, 2
  {
    if !At(t, '"') then None
    else
      match ReadChars(t[1..])
      case None => None
      case Some((name, rest)) =>
        if !At(rest, ':') then None
        else
          match ReadValue(rest[1..])
          case None => None
          case Some((value, left)) => Some(((name, value), left))
  }

  function ReadMembers(t: UText): (r: Option<(seq<(UText, Json)>, UText)>)
    ensures r.Some? ==> |r.value.1| < |t|
    decreases |t|, 3
  {
    match ReadMember(t)
    case None => None
    case Some((field, rest)) =>
      if At(rest, '}') then Some(([field], rest[1..]))
      else if !At(rest, ',') then None
      else
        match ReadMembers(rest[1..])
        case None => None
        case Some((fields, left)) => Some(([field] + fields, left))
  }

  /** A text that is one value. */
  function ReadJson(t: UText): Option<Json>
  {
    match ReadValue(t)
    case None => None
    case Some((j, rest)) => if rest == [] then Some(j) else None
  }

  // ---- What is rendered is read back ----

  lemma EscapedReadsBack(c: CodePoint, rest: UText)
    ensures Escaped(c) != []
    ensures Escaped(c)[0] != '"' as int
    ensures if Escaped(c)[0] == '\\' as int then ReadEscape((Escaped(c) + rest)[1..]) == Some((c, rest))
            else Escaped(c) == [c] && c >= 0x20
  {
    var e := Escaped(c);
    var t := (e + rest)[1..];
    if |e| == 2 {
      assert t == [e[1]] + rest;
      assert t[1..] == rest;
    } else if |e| == 6 {
      var h, l := c / 16, c % 16;
      assert t[0] == 'u' as int && t[1] == '0' as int && t[2] == '0' as int;
      assert t[3] == HEX[h] as int && t[4] == HEX[l] as int;
      HexDigits(h);
      HexDigits(l);
      assert t[5..] == rest;
    }
  }

  lemma HexDigits(d: nat)
    requires d < 16
    ensures HexOf(HEX[d] as int) == Some(d)
  {
  }

  lemma {:induction false} CharsReadBack(text: UText, rest: UText)
    ensures ReadChars(Chars(text) + Points("\"") + rest) == Some((text, rest))
  {
    var quote := Points("\"");
    assert quote == ['"' as int];
    if text == [] {
      assert Chars(text) + quote + rest == quote + rest;
      assert (quote + rest)[1..] == rest;
    } else {
      var e, more := Escaped(text[0]), Chars(text[1..]) + quote + rest;
      var t := Chars(text) + quote + rest;
      assert t == e + more;
      CharsReadBack(text[1..], rest);
      EscapedReadsBack(text[0], more);
      if e[0] != '\\' as int { assert t[1..] == more; }
      assert [text[0]] + text[1..] == text;
      hide Escaped, Chars, ReadEscape;
    }
  }

  function Shifted(before: nat, s: string): nat
    requires AllDigits(s)
  {
    if s == "" then before else Shifted(before, s[..|s| - 1]) * 10 + (s[|s| - 1] as int - '0' as int)
  }

  lemma {:induction false} ShiftedNothing(s: string)
    requires AllDigits(s)
    ensures Shifted(0, s) == ParseNat(s)
  {
    if s != "" { ShiftedNothing(s[..|s| - 1]); }
  }

  lemma {:induction false} DigitsReadBack(before: nat, s: string, u: UText)
    requires AllDigits(s)
    ensures ReadDigits(before, Points(s) + u) == ReadDigits(Shifted(before, s), u)
  {
    if s == "" {
      assert Points(s) + u == u;
    } else {
      var init, last := s[..|s| - 1], s[|s| - 1] as int;
      DigitsReadBack(before, init, [last] + u);
      assert Points(s) + u == Points(init) + ([last] + u);
      assert ([last] + u)[1..] == u;
    }
  }

  predicate NoDigit(t: UText) { t == [] || !IsDigitPoint(t[0]) }

  lemma NumberReadsBack(n: int, rest: UText)
    requires NoDigit(rest)
    ensures ReadValue(Points(Str(n)) + rest) == Some((Number(n), rest))
  {
    var m := if n < 0 then 0 - n else n;
    var digits := Points(Dec(m));
    ParseDec(m);
    ShiftedNothing(Dec(m));
    DigitsReadBack(0, Dec(m), rest);
    var t := Points(Str(n)) + rest;
    if n < 0 {
      assert t[1..] == digits + rest;
      assert t[1] == Dec(m)[0] as int;
    } else {
      assert t == digits + rest && t[0] == Dec(m)[0] as int;
      assert ReadDigits(0, t) == ReadDigits(t[0] - '0' as int, t[1..]);
    }
    hide Dec, ParseNat, Shifted;
  }

  lemma WordReadsBack(word: string, j: Json, rest: UText)
    requires word != ""
    ensures ReadWord(Points(word) + rest, word, j) == Some((j, rest))
  {
    assert (Points(word) + rest)[..|word|] == Points(word);
    assert (Points(word) + rest)[|word|..] == rest;
  }

  lemma StringReadsBack(text: UText, rest: UText)
    ensures var t := Quoted(text) + rest;
            At(t, '"') && ReadChars(t[1..]) == Some((text, rest))
  {
    CharsReadBack(text, rest);
    var t := Quoted(text) + rest;
    assert t[1..] == Chars(text) + Points("\"") + rest;
    assert Points("\"")[0] == '"' as int;
    hide Chars;
  }

  /** A rendered value begins with a character that ends no list. */
  lemma Begins(j: Json)
    ensures Render(j) != [] && Render(j)[0] != ']' as int && Render(j)[0] != '}' as int
  {
    hide Chars, RenderItems, RenderFields, Dec;
  }

  lemma PlainReadsBack(j: Json, rest: UText)
    requires j.Null? || j.Bool? || j.String? || j.Number?
    requires NoDigit(rest)
    ensures ReadValue(Render(j) + rest) == Some((j, rest))
  {
    match j
    case Null => WordReadsBack("null", j, rest);
    case Bool(b) => WordReadsBack(if b then "true" else "false", j, rest);
    case String(text) => StringReadsBack(text, rest); hide Quoted;
    case Number(n) => NumberReadsBack(n, rest); hide Str;
  }

  /** What is rendered is read back, whatever follows it. */
  lemma {:induction false} ValueReadsBack(j: Json, rest: UText)
    requires NoDigit(rest)
    ensures ReadValue(Render(j) + rest) == Some((j, rest))
    decreases j, Breadth(j) + 1
  {
    match j
    case Arr(items) =>
      if items == [] { EmptyReadsBack(j, rest); } else { ItemsReadBack(j, 0, rest); ArrayReadsBack(j, rest); }
    case Obj(fields) =>
      if fields == [] { EmptyReadsBack(j, rest); } else { MembersReadBack(j, 0, rest); ObjectReadsBack(j, rest); }
    case _ => PlainReadsBack(j, rest);
  }

  lemma EmptyReadsBack(j: Json, rest: UText)
    requires j == Arr([]) || j == Obj([])
    ensures ReadValue(Render(j) + rest) == Some((j, rest))
  {
    var t := Render(j) + rest;
    assert t[2..] == rest;
  }

  /** The text of the items from one on, with the closing bracket and what follows. */
  function ItemsText(j: Json, i: nat, rest: UText): UText
    requires j.Arr? && i < |j.items|
  {
    Render(j.items[i]) + RenderItems(j, i + 1) + Points("]") + rest
  }

  lemma ArrayText(j: Json, rest: UText)
    requires j.Arr? && j.items != []
    ensures var t := Render(j) + rest;
            At(t, '[') && t[1..] == ItemsText(j, 0, rest) && !At(t[1..], ']')
  {
    hide Render, RenderItems;
    Begins(j.items[0]);
    var t := Render(j) + rest;
    assert RenderItems(j, 0) == Render(j.items[0]) + RenderItems(j, 1) by { FirstItem(j); }
    assert t == Points("[") + RenderItems(j, 0) + Points("]") + rest by { ArrayBrackets(j); }
    assert t[0] == Points("[")[0] == '[' as int;
    assert t[1..] == ItemsText(j, 0, rest);
    assert t[1] == Render(j.items[0])[0];
  }

  lemma FirstItem(j: Json)
    requires j.Arr? && j.items != []
    ensures RenderItems(j, 0) == Render(j.items[0]) + RenderItems(j, 1)
  {
    hide Render;
  }

  lemma ArrayBrackets(j: Json)
    requires j.Arr?
    ensures Render(j) == Points("[") + RenderItems(j, 0) + Points("]")
  {
  }

  lemma ArrayReadsBack(j: Json, rest: UText)
    requires j.Arr? && j.items != [] && ReadItems(ItemsText(j, 0, rest)) == Some((j.items, rest))
    ensures ReadValue(Render(j) + rest) == Some((j, rest))
  {
    hide Render, RenderItems, ReadItems, ItemsText, ReadMembers, ReadChars, ReadDigits, ReadWord;
    ArrayText(j, rest);
  }

  lemma ItemsStep(j: Json, i: nat, rest: UText) returns (after: UText)
    requires j.Arr? && i < |j.items|
    ensures ItemsText(j, i, rest) == Render(j.items[i]) + after && NoDigit(after)
    ensures i + 1 == |j.items| ==> At(after, ']') && after[1..] == rest
    ensures i + 1 < |j.items| ==> At(after, ',') && after[1..] == ItemsText(j, i + 1, rest)
  {
    hide Render;
    after := RenderItems(j, i + 1) + Points("]") + rest;
    if i + 1 == |j.items| {
      assert after == Points("]") + rest;
      hide RenderItems;
      assert after[0] == Points("]")[0] == ']' as int;
    } else {
      assert after == Points(",") + ItemsText(j, i + 1, rest);
      hide RenderItems, ItemsText;
      assert after[0] == Points(",")[0] == ',' as int;
    }
  }

  lemma {:induction false} ItemsReadBack(j: Json, i: nat, rest: UText)
    requires j.Arr? && i < |j.items|
    ensures ReadItems(ItemsText(j, i, rest)) == Some((j.items[i..], rest))
    decreases j, |j.items| - i
  {
    hide Render, RenderItems, ItemsText, ReadValue;
    var after := ItemsStep(j, i, rest);
    ValueReadsBack(j.items[i], after);
    assert j.items[i..] == [j.items[i]] + j.items[i + 1..];
    if i + 1 < |j.items| { ItemsReadBack(j, i + 1, rest); } else { assert j.items[i..] == [j.items[i]]; }
  }

  function MembersText(j: Json, i: nat, rest: UText): UText
    requires j.Obj? && i < |j.fields|
  {
    Member(j.fields[i].0, Render(j.fields[i].1)) + RenderFields(j, i + 1) + Points("}") + rest
  }

  lemma ObjectText(j: Json, rest: UText)
    requires j.Obj? && j.fields != []
    ensures var t := Render(j) + rest;
            && At(t, '{') && t[1..] == MembersText(j, 0, rest) && At(t[1..], '"')
  {
    hide Render, RenderFields;
    var t := Render(j) + rest;
    var first := Member(j.fields[0].0, Render(j.fields[0].1));
    QuoteFirst(j.fields[0].0, Render(j.fields[0].1));
    assert RenderFields(j, 0) == first + RenderFields(j, 1) by { FirstField(j); }
    assert t == Points("{") + RenderFields(j, 0) + Points("}") + rest by { ObjectBraces(j); }
    assert t[0] == Points("{")[0] == '{' as int;
    hide Member;
    assert t[1..] == MembersText(j, 0, rest);
    assert t[1] == first[0];
  }

  lemma QuoteFirst(name: UText, value: UText)
    ensures At(Member(name, value), '"')
  {
    assert Points("\"")[0] == '"' as int;
    hide Chars;
  }

  lemma FirstField(j: Json)
    requires j.Obj? && j.fields != []
    ensures RenderFields(j, 0) == Member(j.fields[0].0, Render(j.fields[0].1)) + RenderFields(j, 1)
  {
    hide Member, Render;
  }

  lemma ObjectBraces(j: Json)
    requires j.Obj?
    ensures Render(j) == Points("{") + RenderFields(j, 0) + Points("}")
  {
  }

  lemma ObjectReadsBack(j: Json, rest: UText)
    requires j.Obj? && j.fields != [] && ReadMembers(MembersText(j, 0, rest)) == Some((j.fields, rest))
    ensures ReadValue(Render(j) + rest) == Some((j, rest))
  {
    hide Render, RenderFields, ReadMembers, MembersText, ReadItems, ReadChars, ReadDigits, ReadWord;
    ObjectText(j, rest);
  }

  lemma MemberReadsBack(name: UText, value: Json, after: UText)
    requires ReadValue(Render(value) + after) == Some((value, after))
    ensures ReadMember(Member(name, Render(value)) + after) == Some(((name, value), after))
  {
    hide Quoted, Render, ReadValue, ReadChars;
    var more := Points(":") + Render(value) + after;
    assert Member(name, Render(value)) + after == Quoted(name) + more;
    StringReadsBack(name, more);
    ColonFirst(Render(value), after);
    assert more[1..] == Render(value) + after;
  }

  lemma ColonFirst(a: UText, b: UText)
    ensures At(Points(":") + a + b, ':')
  {
    assert Points(":")[0] == ':' as int;
  }

  lemma MembersStep(j: Json, i: nat, rest: UText) returns (after: UText)
    requires j.Obj? && i < |j.fields|
    ensures MembersText(j, i, rest) == Member(j.fields[i].0, Render(j.fields[i].1)) + after && NoDigit(after)
    ensures i + 1 == |j.fields| ==> At(after, '}') && after[1..] == rest
    ensures i + 1 < |j.fields| ==> At(after, ',') && after[1..] == MembersText(j, i + 1, rest)
  {
    hide Member;
    after := RenderFields(j, i + 1) + Points("}") + rest;
    if i + 1 == |j.fields| {
      assert after == Points("}") + rest && after[0] == Points("}")[0] == '}' as int;
    } else {
      var next := Member(j.fields[i + 1].0, Render(j.fields[i + 1].1));
      assert RenderFields(j, i + 1) == Points(",") + next + RenderFields(j, i + 2);
      assert after == Points(",") + MembersText(j, i + 1, rest);
      assert after[0] == Points(",")[0] == ',' as int;
    }
    hide Render, RenderFields;
  }

  lemma {:induction false} MembersReadBack(j: Json, i: nat, rest: UText)
    requires j.Obj? && i < |j.fields|
    ensures ReadMembers(MembersText(j, i, rest)) == Some((j.fields[i..], rest))
    decreases j, |j.fields| - i
  {
    hide Render, RenderFields, MembersText, ReadMember, Member, ReadValue;
    var name, value := j.fields[i].0, j.fields[i].1;
    var after := MembersStep(j, i, rest);
    ValueReadsBack(value, after);
    MemberReadsBack(name, value, after);
    assert j.fields[i..] == [j.fields[i]] + j.fields[i + 1..];
    if i + 1 < |j.fields| { MembersReadBack(j, i + 1, rest); } else { assert j.fields[i..] == [j.fields[i]]; }
  }

  /** The text of a value determines it. */
  lemma RenderReadsBack(j: Json)
    ensures ReadJson(Render(j)) == Some(j)
  {
    ValueReadsBack(j, []);
    assert Render(j) + [] == Render(j);
    hide Render, ReadValue;
  }
}
