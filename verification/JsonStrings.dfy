/** JSON strings between the adapters: the reporter's escaping, and the executioner's search for a
    string field in a body. */
module JsonStrings {
  import opened Escapes
  import opened Wrappers

  // ---------------------------------------------------------------- escaping

  function QuoteCode(): char -> string { c => if c == '\\' then "\\\\" else if c == '"' then "\\\"" else [c] }

  /** Every backslash and quote gets a backslash. */
  function Escaped(s: string): string { Encode(QuoteCode(), s) }

  /** The two ordered passes are the one escaping. */
  method JsonEscape(value: string) returns (out: string)
    ensures out == Escaped(value)
  {
    out := Replace(value, '\\', "\\\\");
    out := Replace(out, '"', "\\\"");
    forall x
      ensures Encode(Swap('"', "\\\""), Swap('\\', "\\\\")(x)) == QuoteCode()(x)
    {
      EncodeThree(Swap('"', "\\\""), Swap('\\', "\\\\")(x));
    }
    PassesFuse(Swap('\\', "\\\\"), Swap('"', "\\\""), QuoteCode(), value);
  }

  // ---------------------------------------------------------------- reading

  /** CharToString of the low byte, in the Latin-1 page. */
  function Narrow(c: char): char { (c as int % 256) as char }

  predicate IsBlank(c: char) { c == ' ' || c == '\t' }

  function SkipBlanks(s: string): string {
    if s != "" && IsBlank(s[0]) then SkipBlanks(s[1..]) else s
  }

  /** What follows the first occurrence of a marker. */
  function After(s: string, marker: string): Option<string> {
    if marker <= s then Some(s[|marker|..])
    else if s == "" then None
    else After(s[1..], marker)
  }

  /** The characters up to the first quote not behind a backslash; a backslash is dropped and what it
      stands before is kept. */
  function Unescaped(s: string, esc: bool): string {
    if s == "" then ""
    else if esc then [Narrow(s[0])] + Unescaped(s[1..], false)
    else if s[0] == '\\' then Unescaped(s[1..], true)
    else if s[0] == '"' then ""
    else [Narrow(s[0])] + Unescaped(s[1..], false)
  }

  /** Only spaces and tabs are skipped; a character is narrowed to its low byte, so one below 256 to itself. */
  lemma BlanksExactly(c: char, s: string)
    ensures SkipBlanks([c] + s) == if c == ' ' || c == '\t' then SkipBlanks(s) else [c] + s
    ensures Narrow(c) as int < 256 && (c as int - Narrow(c) as int) % 256 == 0
  {
    assert ([c] + s)[1..] == s;
  }

  function Marker(key: string): string { "\"" + key + "\":" }

  function StringAt(s: string): string {
    var t := SkipBlanks(s);
    if t == "" || t[0] != '"' then "" else Unescaped(t[1..], false)
  }

  function StringField(body: string, key: string): string {
    match After(body, Marker(key)) case None => "" case Some(s) => StringAt(s)
  }

  /** The terminal's search: the index of the first occurrence, or -1. */
  function StringFind(s: string, marker: string): int {
    if marker <= s then 0
    else if s == "" then -1
    else if StringFind(s[1..], marker) < 0 then -1 else StringFind(s[1..], marker) + 1
  }

  lemma {:induction false} FindIsAfter(s: string, marker: string)
    ensures var k := StringFind(s, marker);
      if k < 0 then k == -1 && After(s, marker).None?
      else k + |marker| <= |s| && After(s, marker) == Some(s[k + |marker|..])
  {
    if !(marker <= s) && s != "" {
      FindIsAfter(s[1..], marker);
      var k := StringFind(s[1..], marker);
      if k >= 0 {
        assert s[1..][k + |marker|..] == s[k + 1 + |marker|..];
      }
    }
  }

  method JsonString(body: string, key: string) returns (out: string)
    ensures out == StringField(body, key)
  {
    hide Unescaped, After, Marker, StringFind;
    out := "";
    var marker := Marker(key);
    FindIsAfter(body, marker);
    var p := StringFind(body, marker);
    if p < 0 {
      return;
    }
    p := p + |marker|;
    ghost var start := p;
    while p < |body| && IsBlank(body[p])
      invariant start <= p <= |body|
      invariant SkipBlanks(body[p..]) == SkipBlanks(body[start..])
    {
      assert body[p..][1..] == body[p + 1..];
      p := p + 1;
    }
    if p >= |body| || body[p] != '"' {
      return;
    }
    assert body[p..][1..] == body[p + 1..];
    out := ReadText(body, p + 1);
  }

  /** Reads on from behind the opening quote. */
  method ReadText(body: string, p: nat) returns (out: string)
    requires p <= |body|
    ensures out == Unescaped(body[p..], false)
  {
    hide Unescaped;
    out := "";
    var esc := false;
    var i := p;
    while i < |body|
      invariant p <= i <= |body|
      invariant out + Unescaped(body[i..], esc) == Unescaped(body[p..], false)
    {
      var c := body[i];
      UnescapedStep(body, i, esc);
      if esc {
        Regroup(out, Narrow(c), Unescaped(body[i + 1..], false));
        out := out + [Narrow(c)];
        esc := false;
        i := i + 1;
        continue;
      }
      if c == '\\' {
        esc := true;
        i := i + 1;
        continue;
      }
      if c == '"' {
        assert out + "" == out;
        break;
      }
      Regroup(out, Narrow(c), Unescaped(body[i + 1..], false));
      out := out + [Narrow(c)];
      i := i + 1;
    }
    if i >= |body| {
      NothingUnescaped(esc);
      assert body[i..] == "" && out + "" == out;
    }
  }

  lemma UnescapedStep(body: string, i: nat, esc: bool)
    requires i < |body|
    ensures Unescaped(body[i..], esc)
         == if esc then [Narrow(body[i])] + Unescaped(body[i + 1..], false)
            else if body[i] == '\\' then Unescaped(body[i + 1..], true)
            else if body[i] == '"' then ""
            else [Narrow(body[i])] + Unescaped(body[i + 1..], false)
  {
    assert body[i..][1..] == body[i + 1..];
  }

  lemma NothingUnescaped(esc: bool)
    ensures Unescaped("", esc) == ""
  {
  }

  lemma Regroup(out: string, c: char, rest: string)
    ensures out + ([c] + rest) == (out + [c]) + rest
  {
  }

  predicate Ascii(s: string) { forall i :: 0 <= i < |s| ==> 0 < s[i] as int < 128 }

  /** Reading stops at the closing quote of an escaped value and gives the value back, whatever follows. */
  lemma {:induction false} UnescapeInverts(v: string, rest: string)
    requires Ascii(v)
    ensures Unescaped(Escaped(v) + "\"" + rest, false) == v
  {
    if v == "" {
      assert Escaped(v) + "\"" + rest == "\"" + rest;
    } else {
      UnescapeInverts(v[1..], rest);
      var code, tail := QuoteCode()(v[0]), Escaped(v[1..]) + "\"" + rest;
      assert Escaped(v) + "\"" + rest == code + tail;
      assert Narrow(v[0]) == v[0];
      assert v == [v[0]] + v[1..];
      if |code| == 2 {
        assert (code + tail)[1..] == [code[1]] + tail;
        assert ([code[1]] + tail)[1..] == tail;
      } else {
        assert (code + tail)[1..] == tail;
      }
    }
  }

  // ---------------------------------------------------------------- finding the right field

  /** A field of a flat object: a string, or a printed number, literal or other value without quotes. */
  datatype Field = Text(key: string, value: string) | Printed(key: string, token: string)
  {
    predicate Valid() { Plain(key) && (if Text? then Ascii(value) else Unquoted(token)) }
  }

  predicate PlainChar(c: char) { '0' <= c <= '9' || 'a' <= c <= 'z' || 'A' <= c <= 'Z' || c == '_' }

  predicate Plain(key: string) { key != "" && forall i :: 0 <= i < |key| ==> PlainChar(key[i]) }

  predicate Unquoted(s: string) { forall i :: 0 <= i < |s| ==> s[i] != '"' }

  predicate Blank(s: string) { forall i :: 0 <= i < |s| ==> IsBlank(s[i]) }

  function ValueText(f: Field): string {
    if f.Text? then "\"" + Escaped(f.value) + "\"" else f.token
  }

  /** The fields from one on; `gap` is what the writer puts after a colon and after a comma. */
  function FieldsText(fields: seq<Field>, gap: string): string
    requires fields != []
  {
    Marker(fields[0].key) + gap + ValueText(fields[0])
    + if |fields| == 1 then "}" else "," + gap + FieldsText(fields[1..], gap)
  }

  function ObjectText(fields: seq<Field>, gap: string): string
    requires fields != []
  {
    "{" + FieldsText(fields, gap)
  }

  lemma SkipOne(c: char, s: string, marker: string)
    requires !(marker <= [c] + s)
    ensures After([c] + s, marker) == After(s, marker)
  {
    assert ([c] + s)[1..] == s;
  }

  /** A text without quotes holds no start of a marker. */
  lemma {:induction false} SkipUnquoted(a: string, s: string, key: string)
    requires Unquoted(a)
    ensures After(a + s, Marker(key)) == After(s, Marker(key))
  {
    if a == "" {
      assert a + s == s;
    } else {
      assert a + s == [a[0]] + (a[1..] + s);
      assert (a + s)[0] != Marker(key)[0];
      SkipOne(a[0], a[1..] + s, Marker(key));
      SkipUnquoted(a[1..], s, key);
    }
  }

  /** An escaped value, its closing quote and what follows it never read on as the rest of a marker. */
  lemma {:induction false} ValueIsNoKey(v: string, rest: string, key: string)
    requires rest != "" && rest[0] != ':' && forall i :: 0 <= i < |key| ==> PlainChar(key[i])
    ensures !(key + "\":" <= Escaped(v) + "\"" + rest)
  {
    var s := Escaped(v) + "\"" + rest;
    var k := key + "\":";
    if v == "" {
      assert s == "\"" + rest;
      if key == "" {
        assert s[1] == rest[0] && k[1] == ':';
      } else {
        assert s[0] == '"' && k[0] == key[0];
      }
    } else {
      var code := QuoteCode()(v[0]);
      assert s == code + (Escaped(v[1..]) + "\"" + rest);
      assert s[0] == code[0] && code[0] != '"';
      if key == "" {
        assert k[0] == '"';
      } else if |code| == 2 {
        assert k[0] == key[0] && code[0] == '\\';
      } else {
        ValueIsNoKey(v[1..], rest, key[1..]);
        assert k == [key[0]] + (key[1..] + "\":");
        assert s == [code[0]] + (Escaped(v[1..]) + "\"" + rest);
        if key[0] == code[0] {
          ConsPrefix(key[0], key[1..] + "\":", Escaped(v[1..]) + "\"" + rest);
        }
      }
    }
  }

  /** Nor does one character's code, before a text that does not read on as the rest of a marker. */
  lemma SkipCode(code: string, tail: string, key: string)
    requires 1 <= |code| <= 2 && code[0] != '"' && !(key + "\":" <= tail)
    ensures After(code + tail, Marker(key)) == After(tail, Marker(key))
  {
    hide After;
    var m := Marker(key);
    var c := code[|code| - 1];
    assert m == ['"'] + (key + "\":");
    ConsPrefix('"', key + "\":", tail);
    assert ([c] + tail)[0] == c;
    SkipOne(c, tail, m);
    if |code| == 2 {
      assert code + tail == [code[0]] + ([c] + tail);
      assert ([code[0]] + ([c] + tail))[0] != m[0];
      SkipOne(code[0], [c] + tail, m);
    } else {
      assert code + tail == [c] + tail;
    }
  }

  /** An escaped value with its closing quote holds no start of a marker. */
  lemma {:induction false} SkipValue(v: string, rest: string, key: string)
    requires Plain(key) && rest != "" && rest[0] != ':' && !PlainChar(rest[0])
    ensures After(Escaped(v) + "\"" + rest, Marker(key)) == After(rest, Marker(key))
  {
    if v == "" {
      assert Escaped(v) + "\"" + rest == ['"'] + rest;
      assert (['"'] + rest)[1] == rest[0] && Marker(key)[1] == key[0];
      SkipOne('"', rest, Marker(key));
    } else {
      var code, tail := QuoteCode()(v[0]), Escaped(v[1..]) + "\"" + rest;
      assert Escaped(v) + "\"" + rest == code + tail;
      SkipValue(v[1..], rest, key);
      ValueIsNoKey(v[1..], rest, key);
      SkipCode(code, tail, key);
    }
  }

  /** Another field's key is no start of the marker either. */
  lemma SkipKey(other: string, s: string, key: string)
    requires Plain(other) && Plain(key) && other != key
    ensures After(Marker(other) + s, Marker(key)) == After(s, Marker(key))
  {
    var m := Marker(key);
    var whole := Marker(other) + s;
    assert whole == ['"'] + (other + ("\":" + s));
    DifferentKeys(other, key, s);
    SkipOne('"', other + ("\":" + s), m);
    assert Unquoted(other);
    SkipUnquoted(other, "\":" + s, key);
    assert "\":" + s == ['"'] + (":" + s);
    assert (['"'] + (":" + s))[1] == ':' && m[1] == key[0];
    SkipOne('"', ":" + s, m);
    SkipUnquoted(":", s, key);
  }

  lemma DifferentKeys(other: string, key: string, s: string)
    requires Plain(other) && Plain(key) && other != key
    ensures !(Marker(key) <= Marker(other) + s)
  {
    assert Marker(key) == ['"'] + (key + "\"" + ":");
    assert Marker(other) + s == ['"'] + (other + "\"" + (":" + s));
    ConsPrefix('"', key + "\"" + ":", other + "\"" + (":" + s));
    SameKey(key, other, ":", ":" + s);
  }

  lemma {:induction false} SameKey(a: string, b: string, t: string, s: string)
    requires forall i :: 0 <= i < |a| ==> PlainChar(a[i])
    requires forall i :: 0 <= i < |b| ==> PlainChar(b[i])
    ensures a + "\"" + t <= b + "\"" + s ==> a == b
  {
    assert (a + "\"" + t)[0] == if a == "" then '"' else a[0];
    assert (b + "\"" + s)[0] == if b == "" then '"' else b[0];
    if a != "" && b != "" && a[0] == b[0] {
      assert a + "\"" + t == [a[0]] + (a[1..] + "\"" + t);
      assert b + "\"" + s == [a[0]] + (b[1..] + "\"" + s);
      ConsPrefix(a[0], a[1..] + "\"" + t, b[1..] + "\"" + s);
      SameKey(a[1..], b[1..], t, s);
      assert a == [a[0]] + a[1..] && b == [b[0]] + b[1..];
    }
  }

  lemma ConsPrefix(c: char, a: string, b: string)
    ensures [c] + a <= [c] + b <==> a <= b
  {
    assert ([c] + a)[1..] == a && ([c] + b)[1..] == b;
    if [c] + a <= [c] + b {
      assert [c] + b == ([c] + a) + ([c] + b)[|a| + 1..];
    }
  }

  lemma SkipField(f: Field, gap: string, rest: string, key: string)
    requires f.Valid() && Plain(key) && f.key != key && Blank(gap)
    requires rest != "" && (rest[0] == ',' || rest[0] == '}')
    ensures After(Marker(f.key) + gap + ValueText(f) + rest, Marker(key)) == After(rest, Marker(key))
  {
    hide After, Escaped, Marker;
    var whole := Marker(f.key) + gap + ValueText(f) + rest;
    assert whole == Marker(f.key) + (gap + (ValueText(f) + rest));
    SkipKey(f.key, gap + (ValueText(f) + rest), key);
    SkipUnquoted(gap, ValueText(f) + rest, key);
    if f.Text? {
      OpeningQuote(f.value, rest, key);
      SkipValue(f.value, rest, key);
    } else {
      SkipUnquoted(f.token, rest, key);
    }
  }

  lemma OpeningQuote(v: string, rest: string, key: string)
    requires Plain(key) && rest != "" && rest[0] != ':'
    ensures After("\"" + Escaped(v) + "\"" + rest, Marker(key)) == After(Escaped(v) + "\"" + rest, Marker(key))
  {
    hide Escaped;
    var m, tail := Marker(key), Escaped(v) + "\"" + rest;
    ValueIsNoKey(v, rest, key);
    assert "\"" + Escaped(v) + "\"" + rest == ['"'] + tail;
    assert m == ['"'] + (key + "\":");
    ConsPrefix('"', key + "\":", tail);
    SkipOne('"', tail, m);
  }

  lemma {:induction false} SkipBlanksExact(gap: string, s: string)
    requires Blank(gap) && (s == "" || !IsBlank(s[0]))
    ensures SkipBlanks(gap + s) == s
  {
    if gap == "" {
      assert gap + s == s;
    } else {
      assert (gap + s)[1..] == gap[1..] + s;
      SkipBlanksExact(gap[1..], s);
    }
  }

  /** The marker of a text field is found at once, and its value read back. */
  lemma FirstField(f: Field, gap: string, rest: string)
    requires f.Text? && f.Valid() && Blank(gap)
    ensures StringField(Marker(f.key) + gap + ValueText(f) + rest, f.key) == f.value
  {
    hide After, Escaped, Unescaped, SkipBlanks, Marker;
    var m := Marker(f.key);
    var quoted := "\"" + Escaped(f.value) + "\"" + rest;
    assert m + gap + ValueText(f) + rest == m + (gap + quoted);
    AfterMarker(m, gap + quoted);
    SkipBlanksExact(gap, quoted);
    assert quoted[1..] == Escaped(f.value) + "\"" + rest;
    UnescapeInverts(f.value, rest);
  }

  lemma {:induction false} FindsTheField(fields: seq<Field>, gap: string, k: nat)
    requires k < |fields| && fields[k].Text? && Blank(gap)
    requires forall i :: 0 <= i < |fields| ==> fields[i].Valid()
    requires forall i :: 0 <= i < k ==> fields[i].key != fields[k].key
    ensures StringField(FieldsText(fields, gap), fields[k].key) == fields[k].value
  {
    hide After, Escaped, Marker, Unescaped, SkipBlanks, StringAt, ValueText;
    var rest := if |fields| == 1 then "}" else "," + gap + FieldsText(fields[1..], gap);
    if k == 0 {
      FirstField(fields[0], gap, rest);
    } else {
      SkipField(fields[0], gap, rest, fields[k].key);
      var comma := "," + gap;
      assert rest == comma + FieldsText(fields[1..], gap);
      SkipUnquoted(comma, FieldsText(fields[1..], gap), fields[k].key);
      FindsTheField(fields[1..], gap, k - 1);
    }
  }

  lemma AfterMarker(m: string, tail: string)
    ensures After(m + tail, m) == Some(tail)
  {
    assert (m + tail)[|m|..] == tail;
  }

  /** In a flat object with plain keys, the executioner reads back exactly the text a field was written
      from: its first match is the field's own key, whatever keys or quotes the other values spell, and
      reading stops at the value's true closing quote. */
  lemma JsonStringReadsBack(fields: seq<Field>, gap: string, k: nat)
    requires k < |fields| && fields[k].Text? && Blank(gap)
    requires forall i :: 0 <= i < |fields| ==> fields[i].Valid()
    requires forall i :: 0 <= i < k ==> fields[i].key != fields[k].key
    ensures StringField(ObjectText(fields, gap), fields[k].key) == fields[k].value
  {
    hide After, FieldsText;
    SkipUnquoted("{", FieldsText(fields, gap), fields[k].key);
    FindsTheField(fields, gap, k);
  }
}
