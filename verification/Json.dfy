/** JSON values as answers hold them, and their text without spaces and with non-ASCII characters as they are. */
module Json {
  import opened Text
  import opened Unicode

  datatype Json =
    | Null
    | Bool(b: bool)
    | Number(n: int)
    | String(text: UText)
    | Arr(items: seq<Json>)
    | Obj(fields: seq<(UText, Json)>)

  const HEX := "0123456789abcdef"

  /** Control characters, the quote and the backslash are escaped, nothing else. */
  function Escaped(c: CodePoint): (t: UText)
    ensures Encodable(t) <==> !IsSurrogate(c)
  {
    if c == '"' as int then Points("\\\"")
    else if c == '\\' as int then Points("\\\\")
    else if c == 0x0A then Points("\\n")
    else if c == 0x0D then Points("\\r")
    else if c == 0x09 then Points("\\t")
    else if c == 0x0C then Points("\\f")
    else if c == 0x08 then Points("\\b")
    else if c < 0x20 then Points("\\u00" + [HEX[c / 16], HEX[c % 16]])
    else var t := [c]; assert t[0] == c; t
  }

  function Chars(t: UText): UText
  {
    if t == [] then [] else Escaped(t[0]) + Chars(t[1..])
  }

  function Quoted(t: UText): UText { Points("\"") + Chars(t) + Points("\"") }

  function Breadth(j: Json): nat { match j case Arr(items) => |items| case Obj(fields) => |fields| case _ => 0 }

  function Render(j: Json): UText
    decreases j, Breadth(j) + 1
  {
    match j
    case Null => Points("null")
    case Bool(b) => Points(if b then "true" else "false")
    case Number(n) => Points(Text.Str(n))
    case String(text) => Quoted(text)
    case Arr(items) => Points("[") + RenderItems(j, 0) + Points("]")
    case Obj(fields) => Points("{") + RenderFields(j, 0) + Points("}")
  }

  function Comma(i: nat): UText { if i == 0 then [] else Points(",") }

  function Member(name: UText, value: UText): UText { Quoted(name) + Points(":") + value }

  function RenderItems(j: Json, i: nat): UText
    requires j.Arr? && i <= |j.items|
    decreases j, |j.items| - i
  {
    if i == |j.items| then [] else Comma(i) + Render(j.items[i]) + RenderItems(j, i + 1)
  }

  function RenderFields(j: Json, i: nat): UText
    requires j.Obj? && i <= |j.fields|
    decreases j, |j.fields| - i
  {
    if i == |j.fields| then []
    else Comma(i) + Member(j.fields[i].0, Render(j.fields[i].1)) + RenderFields(j, i + 1)
  }

  /** No text anywhere in the value holds a lone surrogate. */
  predicate Sendable(j: Json)
  {
    match j
    case String(text) => Encodable(text)
    case Arr(items) => forall i :: 0 <= i < |items| ==> Sendable(items[i])
    case Obj(fields) => forall i :: 0 <= i < |fields| ==> Encodable(fields[i].0) && Sendable(fields[i].1)
    case _ => true
  }

  // ---- What can be sent ----

  lemma JoinEncodable(a: UText, b: UText)
    ensures Encodable(a + b) <==> Encodable(a) && Encodable(b)
  {
    if Encodable(a + b) {
      forall i | 0 <= i < |a| ensures !IsSurrogate(a[i]) { assert (a + b)[i] == a[i]; }
      forall i | 0 <= i < |b| ensures !IsSurrogate(b[i]) { assert (a + b)[|a| + i] == b[i]; }
    }
  }

  lemma {:induction false} CharsEncodable(t: UText)
    ensures Encodable(Chars(t)) <==> Encodable(t)
  {
    if t != [] {
      CharsEncodable(t[1..]);
      JoinEncodable(Escaped(t[0]), Chars(t[1..]));
      JoinEncodable([t[0]], t[1..]);
      assert t == [t[0]] + t[1..];
      assert [t[0]][0] == t[0];
      hide Escaped;
    }
  }

  lemma QuotedEncodable(t: UText)
    ensures Encodable(Quoted(t)) <==> Encodable(t)
  {
    CharsEncodable(t);
    JoinEncodable(Points("\""), Chars(t));
    JoinEncodable(Points("\"") + Chars(t), Points("\""));
  }

  lemma MemberEncodable(name: UText, value: UText)
    ensures Encodable(Member(name, value)) <==> Encodable(name) && Encodable(value)
  {
    QuotedEncodable(name);
    JoinEncodable(Quoted(name), Points(":"));
    JoinEncodable(Quoted(name) + Points(":"), value);
    hide Quoted;
  }

  /** A value's text can be encoded exactly when each of its strings can. */
  lemma {:induction false} RenderEncodable(j: Json)
    ensures Encodable(Render(j)) <==> Sendable(j)
    decreases j, Breadth(j) + 1
  {
    match j
    case String(text) => QuotedEncodable(text);
    case Arr(items) =>
      ItemsEncodable(j, 0);
      JoinEncodable(Points("["), RenderItems(j, 0));
      JoinEncodable(Points("[") + RenderItems(j, 0), Points("]"));
    case Obj(fields) =>
      FieldsEncodable(j, 0);
      JoinEncodable(Points("{"), RenderFields(j, 0));
      JoinEncodable(Points("{") + RenderFields(j, 0), Points("}"));
    case _ =>
  }

  lemma {:induction false} ItemsEncodable(j: Json, i: nat)
    requires j.Arr? && i <= |j.items|
    ensures Encodable(RenderItems(j, i)) <==> forall k :: i <= k < |j.items| ==> Sendable(j.items[k])
    decreases j, |j.items| - i
  {
    if i < |j.items| {
      RenderEncodable(j.items[i]);
      ItemsEncodable(j, i + 1);
      JoinEncodable(Comma(i), Render(j.items[i]));
      JoinEncodable(Comma(i) + Render(j.items[i]), RenderItems(j, i + 1));
      hide Render, Sendable;
    }
  }

  lemma FieldsFrom(j: Json, i: nat)
    requires j.Obj? && i < |j.fields|
    ensures (forall k :: i <= k < |j.fields| ==> Encodable(j.fields[k].0) && Sendable(j.fields[k].1)) <==>
            Encodable(j.fields[i].0) && Sendable(j.fields[i].1)
            && forall k :: i + 1 <= k < |j.fields| ==> Encodable(j.fields[k].0) && Sendable(j.fields[k].1)
  {
    hide Sendable, Encodable;
  }

  lemma {:induction false} FieldsEncodable(j: Json, i: nat)
    requires j.Obj? && i <= |j.fields|
    ensures Encodable(RenderFields(j, i)) <==>
            forall k :: i <= k < |j.fields| ==> Encodable(j.fields[k].0) && Sendable(j.fields[k].1)
    decreases j, |j.fields| - i
  {
    if i < |j.fields| {
      var name, value := j.fields[i].0, j.fields[i].1;
      RenderEncodable(value);
      FieldsEncodable(j, i + 1);
      FieldsFrom(j, i);
      var member := Member(name, Render(value));
      hide Render, Sendable, Quoted;
      MemberEncodable(name, Render(value));
      JoinEncodable(Comma(i), member);
      JoinEncodable(Comma(i) + member, RenderFields(j, i + 1));
      assert RenderFields(j, i) == Comma(i) + member + RenderFields(j, i + 1);
      hide Encodable, Member, RenderFields;
    }
  }
}
