/** The telemetry writer: JSON string escaping, event lines, and the reading of such a line back
    as section 7 of RFC 8259 defines string escapes. */
module Telemetry {
  import opened Characters
  import opened Wrappers

  // ---------------------------------------------------------------- writing

  function EscChar(c: char): string {
    if c == '"' then "\\\""
    else if c == '\\' then "\\\\"
    else if c == '\n' then "\\n"
    else if c == '\r' then "\\r"
    else if c == '\t' then "\\t"
    else if c < ' ' then " "
    else [c]
  }

  function Esc(s: string): string {
    if s == [] then [] else EscChar(s[0]) + Esc(s[1..])
  }

  method NeoFLTelEsc(s: string) returns (out: string)
    ensures out == Esc(s)
  {
    out := "";
    for i := 0 to |s|
      invariant out + Esc(s[i..]) == Esc(s)
    {
      var c := s[i];
      assert s[i..][1..] == s[i + 1..];
      assert (out + EscChar(c)) + Esc(s[i + 1..]) == out + Esc(s[i..]);
      if c == '"' {
        out := out + "\\\"";
      } else if c == '\\' {
        out := out + "\\\\";
      } else if c == '\n' {
        out := out + "\\n";
      } else if c == '\r' {
        out := out + "\\r";
      } else if c == '\t' {
        out := out + "\\t";
      } else if c < ' ' {
        out := out + " ";
      } else {
        out := out + [c];
      }
    }
    assert out + Esc([]) == out;
  }

  /** A field of an event: text, or a number already printed. */
  datatype Field = Text(key: string, value: string) | Number(key: string, token: string)

  /** One event as the engines hand it to the writer; the numbers are already printed. */
  datatype Event = Event(ts: string, tsGmt: string, engine: string, symbol: string, kind: string, detail: string, value: string)
  {
    function Fields(): seq<Field> {
      [Number("ts", ts), Number("ts_gmt", tsGmt), Text("engine", engine), Text("symbol", symbol),
       Text("kind", kind), Text("detail", detail), Number("value", value)]
    }

    /** The three numbers are what the integer and decimal printers produce. */
    predicate Printed() { IsNumber(ts) && IsNumber(tsGmt) && IsNumber(value) }
  }

  predicate NumberChar(c: char) { '0' <= c <= '9' || c == '-' || c == '.' }

  predicate AllNumberChars(s: string) { forall i :: 0 <= i < |s| ==> NumberChar(s[i]) }

  predicate IsNumber(s: string) { s != [] && AllNumberChars(s) }

  function Kv(k: string, v: string): string { "\"" + k + "\":\"" + Esc(v) + "\"" }

  function Kn(k: string, token: string): string { "\"" + k + "\":" + token }

  function FieldText(f: Field): string {
    match f
    case Text(k, v) => Kv(k, v)
    case Number(k, t) => Kn(k, t)
  }

  function Body(fields: seq<Field>): string {
    if fields == [] then "}"
    else FieldText(fields[0]) + (if |fields| == 1 then "}" else "," + Body(fields[1..]))
  }

  /** A flat JSON object. */
  function Object(fields: seq<Field>): string { "{" + Body(fields) }

  /** Event lines as the writer appends them; the terminator follows. */
  function Line(e: Event): string { Object(e.Fields()) }

  /** The event line written out: seven fields by name, the four texts quoted and escaped. */
  lemma LineInFull(e: Event)
    ensures var ts, gmt, engine, symbol, kind, detail, value := "\"ts\":" + e.ts, "\"ts_gmt\":" + e.tsGmt,
        "\"engine\":\"" + Esc(e.engine) + "\"", "\"symbol\":\"" + Esc(e.symbol) + "\"",
        "\"kind\":\"" + Esc(e.kind) + "\"", "\"detail\":\"" + Esc(e.detail) + "\"", "\"value\":" + e.value;
      Line(e) == "{" + (ts + ("," + (gmt + ("," + (engine + ("," + (symbol + ("," + (kind + ("," + (detail + ("," + (value + "}")))))))))))))
  {
    hide Esc, Body, FieldText;
    NumberText("ts", "\"ts\":", e.ts);
    NumberText("ts_gmt", "\"ts_gmt\":", e.tsGmt);
    QuotedText("engine", "\"engine\":\"", e.engine);
    QuotedText("symbol", "\"symbol\":\"", e.symbol);
    QuotedText("kind", "\"kind\":\"", e.kind);
    QuotedText("detail", "\"detail\":\"", e.detail);
    NumberText("value", "\"value\":", e.value);
    SevenFields(Number("ts", e.ts), Number("ts_gmt", e.tsGmt), Text("engine", e.engine), Text("symbol", e.symbol),
                Text("kind", e.kind), Text("detail", e.detail), Number("value", e.value));
  }

  lemma NumberText(key: string, opening: string, token: string)
    requires "\"" + key + "\":" == opening
    ensures FieldText(Number(key, token)) == opening + token
  {
  }

  lemma QuotedText(key: string, opening: string, value: string)
    requires "\"" + key + "\":\"" == opening
    ensures FieldText(Text(key, value)) == opening + Esc(value) + "\""
  {
    hide Esc;
  }

  lemma SevenFields(a: Field, b: Field, c: Field, d: Field, e: Field, f: Field, g: Field)
    ensures Body([a, b, c, d, e, f, g])
         == FieldText(a) + ("," + (FieldText(b) + ("," + (FieldText(c) + ("," + Body([d, e, f, g]))))))
    ensures Body([d, e, f, g])
         == FieldText(d) + ("," + (FieldText(e) + ("," + (FieldText(f) + ("," + (FieldText(g) + "}"))))))
  {
    hide FieldText, Body;
    BodyFollows(a, [b, c, d, e, f, g]);
    BodyFollows(b, [c, d, e, f, g]);
    BodyFollows(c, [d, e, f, g]);
    BodyFollows(d, [e, f, g]);
    BodyFollows(e, [f, g]);
    BodyFollows(f, [g]);
    LastBody(g);
    assert [a] + [b, c, d, e, f, g] == [a, b, c, d, e, f, g];
    assert [b] + [c, d, e, f, g] == [b, c, d, e, f, g];
    assert [c] + [d, e, f, g] == [c, d, e, f, g];
    assert [d] + [e, f, g] == [d, e, f, g];
    assert [e] + [f, g] == [e, f, g];
    assert [f] + [g] == [f, g];
  }

  lemma BodyFollows(first: Field, rest: seq<Field>)
    requires rest != []
    ensures Body([first] + rest) == FieldText(first) + ("," + Body(rest))
  {
    hide FieldText;
    assert ([first] + rest)[1..] == rest;
  }

  lemma LastBody(last: Field)
    ensures Body([last]) == FieldText(last) + "}"
  {
    hide FieldText;
  }

  // ---------------------------------------------------------------- reading

  /** The character of a \uXXXX escape; surrogates stand for no character alone. */
  function Unicode(s: string): Option<char> {
    if |s| < 4 || Hex(s[0]).None? || Hex(s[1]).None? || Hex(s[2]).None? || Hex(s[3]).None? then None
    else
      var n := Hex(s[0]).value * 4096 + Hex(s[1]).value * 256 + Hex(s[2]).value * 16 + Hex(s[3]).value;
      if n < 0xD800 || 0xE000 <= n < 0x1_0000 then Some(n as char) else None
  }

  function SimpleEscape(c: char): Option<char> {
    if c == '"' || c == '\\' || c == '/' then Some(c)
    else if c == 'b' then Some('\U{0008}')
    else if c == 'f' then Some('\U{000C}')
    else if c == 'n' then Some('\n')
    else if c == 'r' then Some('\r')
    else if c == 't' then Some('\t')
    else None
  }

  function Prepend(c: char, r: Option<(string, string)>): Option<(string, string)> {
    match r
    case None => None
    case Some((v, rest)) => Some(([c] + v, rest))
  }

  /** Reads a string whose opening quote is already consumed: its value, and what follows the
      closing quote. Raw control characters and unknown escapes are errors. */
  function Unquote(s: string): Option<(string, string)>
    decreases |s|
  {
    if s == [] then None
    else if s[0] == '"' then Some(("", s[1..]))
    else if s[0] == '\\' then
      (if |s| < 2 then None
       else if s[1] == 'u' then
         (if Unicode(s[2..]).None? then None else Prepend(Unicode(s[2..]).value, Unquote(s[6..])))
       else if SimpleEscape(s[1]).None? then None
       else Prepend(SimpleEscape(s[1]).value, Unquote(s[2..])))
    else if s[0] < ' ' then None
    else Prepend(s[0], Unquote(s[1..]))
  }

  /** The longest number token at the front. */
  function TakeNumber(s: string): (r: (string, string))
    ensures s == r.0 + r.1
    decreases |s|
  {
    if s == [] || !NumberChar(s[0]) then ("", s)
    else
      var r := TakeNumber(s[1..]);
      FrontMoves(s, r.0, r.1);
      ([s[0]] + r.0, r.1)
  }

  lemma FrontMoves(s: string, a: string, b: string)
    requires s != [] && s[1..] == a + b
    ensures s == ([s[0]] + a) + b
  {
    assert s == [s[0]] + s[1..];
  }

  /** Reads one field: a quoted key, a colon, and a string or a number. */
  function ReadField(s: string): Option<(Field, string)> {
    if s == [] || s[0] != '"' then None
    else match Unquote(s[1..])
      case None => None
      case Some((key, rest)) =>
        if |rest| < 2 || rest[0] != ':' then None
        else if rest[1] == '"' then
          (match Unquote(rest[2..])
           case None => None
           case Some((value, after)) => Some((Text(key, value), after)))
        else
          var (token, after) := TakeNumber(rest[1..]);
          if token == "" then None else Some((Number(key, token), after))
  }

  /** Reads the fields of an object up to its closing brace, which must end the line. */
  function ReadBody(s: string): Option<seq<Field>>
    decreases |s|
  {
    match ReadField(s)
    case None => None
    case Some((field, rest)) =>
      if rest == "}" then Some([field])
      else if |rest| < |s| && rest != [] && rest[0] == ',' then
        (match ReadBody(rest[1..])
         case None => None
         case Some(fields) => Some([field] + fields))
      else None
  }

  function ReadObject(line: string): Option<seq<Field>> {
    if line == [] || line[0] != '{' then None else ReadBody(line[1..])
  }

  // ---------------------------------------------------------------- what survives the trip

  /** Control characters without an escape of their own become spaces. */
  function SanitizeChar(c: char): char {
    if c < ' ' && c != '\n' && c != '\r' && c != '\t' then ' ' else c
  }

  function Sanitize(s: string): string {
    seq(|s|, i requires 0 <= i < |s| => SanitizeChar(s[i]))
  }

  function SanitizeField(f: Field): Field {
    match f
    case Text(k, v) => Text(k, Sanitize(v))
    case Number(k, t) => f
  }

  predicate NoControl(s: string) { forall i :: 0 <= i < |s| ==> s[i] >= ' ' }

  lemma {:induction false} NoControlConcat(a: string, b: string)
    ensures NoControl(a + b) <==> NoControl(a) && NoControl(b)
  {
    if NoControl(a + b) {
      assert forall i :: 0 <= i < |a| ==> (a + b)[i] == a[i];
      assert forall i :: 0 <= i < |b| ==> (a + b)[|a| + i] == b[i];
    }
  }

  /** An escaped string holds no raw control character, so no line break. */
  lemma {:induction false} EscHasNoControl(s: string)
    ensures NoControl(Esc(s))
  {
    if s != [] {
      EscHasNoControl(s[1..]);
      NoControlConcat(EscChar(s[0]), Esc(s[1..]));
    }
  }

  lemma UnquoteChar(c: char, tail: string)
    ensures Unquote(EscChar(c) + tail) == Prepend(SanitizeChar(c), Unquote(tail))
  {
    var e := EscChar(c);
    assert (e + tail)[|e|..] == tail;
  }

  /** Reading an escaped string back returns it, sanitised, and stops at the true closing quote. */
  lemma {:induction false} UnquoteEsc(s: string, rest: string)
    ensures Unquote(Esc(s) + "\"" + rest) == Some((Sanitize(s), rest))
  {
    hide EscChar, SanitizeChar;
    if s == [] {
      assert Esc(s) + "\"" + rest == "\"" + rest;
      assert ("\"" + rest)[1..] == rest;
    } else {
      var tail := Esc(s[1..]) + "\"" + rest;
      assert Esc(s) + "\"" + rest == EscChar(s[0]) + tail;
      UnquoteChar(s[0], tail);
      UnquoteEsc(s[1..], rest);
      assert Sanitize(s) == [SanitizeChar(s[0])] + Sanitize(s[1..]);
    }
  }

  /** A key that needs no escaping reads back as itself. */
  predicate PlainKey(k: string) { forall i :: 0 <= i < |k| ==> k[i] >= ' ' && k[i] != '"' && k[i] != '\\' }

  lemma {:induction false} PlainEsc(k: string)
    requires PlainKey(k)
    ensures Esc(k) == k && Sanitize(k) == k
  {
    if k != [] {
      PlainEsc(k[1..]);
      assert k == [k[0]] + k[1..];
    }
  }

  lemma {:induction false} TakeToken(t: string, rest: string)
    requires AllNumberChars(t) && (rest == [] || !NumberChar(rest[0]))
    ensures TakeNumber(t + rest) == (t, rest)
  {
    if t == [] {
      assert t + rest == rest;
    } else {
      assert (t + rest)[1..] == t[1..] + rest;
      TakeToken(t[1..], rest);
      assert t == [t[0]] + t[1..];
    }
  }

  predicate WellFormed(f: Field) {
    PlainKey(f.key) && (f.Number? ==> IsNumber(f.token))
  }

  lemma ReadsText(k: string, v: string, rest: string)
    requires PlainKey(k)
    ensures ReadField(Kv(k, v) + rest) == Some((Text(k, Sanitize(v)), rest))
  {
    hide Unquote, Esc, Sanitize, TakeNumber;
    PlainEsc(k);
    var after := ":\"" + Esc(v) + "\"" + rest;
    assert (Kv(k, v) + rest)[1..] == k + "\"" + after;
    UnquoteEsc(k, after);
    assert after[2..] == Esc(v) + "\"" + rest;
    UnquoteEsc(v, rest);
  }

  lemma ReadsNumber(k: string, t: string, rest: string)
    requires PlainKey(k) && IsNumber(t) && rest != [] && !NumberChar(rest[0])
    ensures ReadField(Kn(k, t) + rest) == Some((Number(k, t), rest))
  {
    hide Unquote, Esc, Sanitize, TakeNumber;
    PlainEsc(k);
    var after := ":" + t + rest;
    assert (Kn(k, t) + rest)[1..] == k + "\"" + after;
    UnquoteEsc(k, after);
    assert after[1..] == t + rest;
    TakeToken(t, rest);
    assert after[1] == t[0];
  }

  lemma ReadsField(f: Field, rest: string)
    requires WellFormed(f) && rest != [] && !NumberChar(rest[0])
    ensures ReadField(FieldText(f) + rest) == Some((SanitizeField(f), rest))
  {
    hide ReadField, Kv, Kn, Sanitize;
    match f
    case Text(k, v) => ReadsText(k, v, rest);
    case Number(k, t) => ReadsNumber(k, t, rest);
  }

  function SanitizeAll(fields: seq<Field>): seq<Field> {
    seq(|fields|, i requires 0 <= i < |fields| => SanitizeField(fields[i]))
  }

  predicate AllWellFormed(fields: seq<Field>) { forall i :: 0 <= i < |fields| ==> WellFormed(fields[i]) }

  lemma {:induction false} ReadsBody(fields: seq<Field>)
    requires fields != [] && AllWellFormed(fields)
    ensures ReadBody(Body(fields)) == Some(SanitizeAll(fields))
    decreases |fields|
  {
    hide ReadField, FieldText, SanitizeField, WellFormed;
    var f, s := fields[0], Body(fields);
    if |fields| == 1 {
      ReadsField(f, "}");
      assert SanitizeAll(fields) == [SanitizeField(f)];
    } else {
      var rest := [','] + Body(fields[1..]);
      assert s == FieldText(f) + rest;
      ReadsField(f, rest);
      assert rest[1..] == Body(fields[1..]);
      ReadsBody(fields[1..]);
      FieldTextNonEmpty(f);
      assert SanitizeAll(fields) == [SanitizeField(f)] + SanitizeAll(fields[1..]);
    }
  }

  lemma FieldTextNonEmpty(f: Field)
    ensures FieldText(f) != []
  {
  }

  lemma EventWellFormed(e: Event)
    requires e.Printed()
    ensures AllWellFormed(e.Fields())
  {
    hide IsNumber;
    assert PlainKey("ts") && PlainKey("ts_gmt") && PlainKey("engine") && PlainKey("symbol");
    assert PlainKey("kind") && PlainKey("detail") && PlainKey("value");
  }

  /** An event line read back gives the written fields, in order, each text sanitised. */
  lemma LineRoundTrip(e: Event)
    requires e.Printed()
    ensures ReadObject(Line(e)) == Some(SanitizeAll(e.Fields()))
  {
    hide ReadBody, Body, AllWellFormed, SanitizeAll, IsNumber;
    EventWellFormed(e);
    assert Line(e)[1..] == Body(e.Fields());
    ReadsBody(e.Fields());
  }

  lemma FieldHasNoControl(f: Field)
    requires WellFormed(f)
    ensures NoControl(FieldText(f))
  {
    hide Esc;
    match f
    case Text(k, v) => EscHasNoControl(v);
    case Number(k, t) =>
  }

  lemma {:induction false} BodyHasNoControl(fields: seq<Field>)
    requires AllWellFormed(fields)
    ensures NoControl(Body(fields)) && Body(fields) != [] && Body(fields)[|Body(fields)| - 1] == '}'
    decreases |fields|
  {
    hide FieldText, WellFormed;
    if fields != [] {
      BodyHasNoControl(fields[1..]);
      FieldHasNoControl(fields[0]);
    }
  }

  /** An event line holds no line break or other control character, opens with a brace and closes
      with one. */
  lemma LineShape(e: Event)
    requires e.Printed()
    ensures NoControl(Line(e)) && |Line(e)| >= 2 && Line(e)[0] == '{' && Line(e)[|Line(e)| - 1] == '}'
  {
    hide Body, AllWellFormed, IsNumber;
    EventWellFormed(e);
    BodyHasNoControl(e.Fields());
    NoControlConcat("{", Body(e.Fields()));
  }
}
