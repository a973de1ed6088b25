/** The percent-encoding with which the MT5 executioner writes query values into a request target. */
module Escapes {
  import opened Characters
  import opened Wrappers

  // ---------------------------------------------------------------- replacement passes

  /** Writes every character as its code. */
  function Encode(code: char -> string, s: string): string {
    if s == "" then "" else code(s[0]) + Encode(code, s[1..])
  }

  /** One pass of StringReplace for a single character. */
  function Replace(s: string, c: char, code: string): string {
    Encode(Swap(c, code), s)
  }

  function Swap(c: char, code: string): char -> string { x => if x == c then code else [x] }

  lemma {:induction false} EncodeAppend(code: char -> string, a: string, b: string)
    ensures Encode(code, a + b) == Encode(code, a) + Encode(code, b)
  {
    if a == "" {
      assert a + b == b;
    } else {
      assert (a + b)[1..] == a[1..] + b;
      EncodeAppend(code, a[1..], b);
    }
  }

  /** A pass over an encoded text is one encoding, if it turns the one code into the other. */
  lemma {:induction false} PassesFuse(inner: char -> string, pass: char -> string, both: char -> string, s: string)
    requires forall c :: Encode(pass, inner(c)) == both(c)
    ensures Encode(pass, Encode(inner, s)) == Encode(both, s)
  {
    if s != "" {
      EncodeAppend(pass, inner(s[0]), Encode(inner, s[1..]));
      PassesFuse(inner, pass, both, s[1..]);
    }
  }

  // ---------------------------------------------------------------- percent-encoding

  /** The reserved characters, in the order the passes take them. */
  const PASSES := "% #?&+"

  const RESERVED: set<char> := {'%', ' ', '#', '?', '&', '+'}

  /** The one-pass code of the first n reserved characters. */
  function UrlCode(n: nat): char -> string {
    c => if c == '%' && n >= 1 then "%25"
         else if c == ' ' && n >= 2 then "%20"
         else if c == '#' && n >= 3 then "%23"
         else if c == '?' && n >= 4 then "%3F"
         else if c == '&' && n >= 5 then "%26"
         else if c == '+' && n >= 6 then "%2B"
         else [c]
  }

  function UrlEncoded(s: string): string { Encode(UrlCode(6), s) }

  /** Each pass leaves what the earlier ones wrote alone, since none of it is reserved but the first. */
  lemma PassAdds(s: string, n: nat, c: char, code: string)
    requires 1 <= n < 6 && c == PASSES[n] && code == UrlCode(6)(c)
    ensures Replace(Encode(UrlCode(n), s), c, code) == Encode(UrlCode(n + 1), s)
  {
    forall x
      ensures Encode(Swap(c, code), UrlCode(n)(x)) == UrlCode(n + 1)(x)
    {
      PassOnCode(n, c, code, x);
    }
    PassesFuse(UrlCode(n), Swap(c, code), UrlCode(n + 1), s);
  }

  lemma PassOnCode(n: nat, c: char, code: string, x: char)
    requires 1 <= n < 6 && c == PASSES[n] && code == UrlCode(6)(c)
    ensures Encode(Swap(c, code), UrlCode(n)(x)) == UrlCode(n + 1)(x)
  {
    var written := UrlCode(n)(x);
    EncodeThree(Swap(c, code), written);
    if |written| == 3 {
      assert c !in written;
      assert [written[0]] + ([written[1]] + [written[2]]) == written;
    } else {
      assert written == [x];
    }
  }

  lemma EncodeThree(code: char -> string, s: string)
    requires |s| <= 3
    ensures |s| == 0 ==> Encode(code, s) == ""
    ensures |s| == 1 ==> Encode(code, s) == code(s[0])
    ensures |s| == 2 ==> Encode(code, s) == code(s[0]) + code(s[1])
    ensures |s| == 3 ==> Encode(code, s) == code(s[0]) + (code(s[1]) + code(s[2]))
  {
    if s != "" {
      EncodeThree(code, s[1..]);
      assert code(s[0]) + "" == code(s[0]);
    }
  }

  lemma FirstPass(s: string)
    ensures Replace(s, '%', "%25") == Encode(UrlCode(1), s)
  {
    assert forall x :: Swap('%', "%25")(x) == UrlCode(1)(x);
    SameCode(Swap('%', "%25"), UrlCode(1), s);
  }

  lemma {:induction false} SameCode(f: char -> string, g: char -> string, s: string)
    requires forall x :: f(x) == g(x)
    ensures Encode(f, s) == Encode(g, s)
  {
    if s != "" {
      SameCode(f, g, s[1..]);
    }
  }

  /** The six ordered passes are one percent-encoding of the reserved characters. */
  method UrlValue(value: string) returns (out: string)
    ensures out == UrlEncoded(value)
  {
    out := Replace(value, '%', "%25");
    FirstPass(value);
    out := Replace(out, ' ', "%20");
    PassAdds(value, 1, ' ', "%20");
    out := Replace(out, '#', "%23");
    PassAdds(value, 2, '#', "%23");
    out := Replace(out, '?', "%3F");
    PassAdds(value, 3, '?', "%3F");
    out := Replace(out, '&', "%26");
    PassAdds(value, 4, '&', "%26");
    out := Replace(out, '+', "%2B");
    PassAdds(value, 5, '+', "%2B");
  }

  /** Decoding of a form value: RFC 3986 section 2.1, and "+" for a space. */
  function PercentDecoded(s: string): string
    decreases |s|
  {
    if s == "" then ""
    else if s[0] == '%' && |s| >= 3 && Hex(s[1]).Some? && Hex(s[2]).Some? then
      [(Hex(s[1]).value * 16 + Hex(s[2]).value) as char] + PercentDecoded(s[3..])
    else [if s[0] == '+' then ' ' else s[0]] + PercentDecoded(s[1..])
  }

  /** Decoding gives every value back. */
  lemma {:induction false} UrlRoundTrip(s: string)
    ensures PercentDecoded(UrlEncoded(s)) == s
  {
    hide PercentDecoded, UrlCode;
    DecodesNothing();
    if s != "" {
      UrlRoundTrip(s[1..]);
      DecodesFirst(s[0], UrlEncoded(s[1..]));
      assert s == [s[0]] + s[1..];
    }
  }

  lemma DecodesNothing()
    ensures PercentDecoded("") == ""
  {
  }

  lemma DecodesFirst(c: char, rest: string)
    ensures PercentDecoded(UrlCode(6)(c) + rest) == [c] + PercentDecoded(rest)
  {
    var code := UrlCode(6)(c);
    if |code| == 3 {
      assert (code + rest)[3..] == rest;
      assert (code + rest)[0] == '%' && (code + rest)[1] == code[1] && (code + rest)[2] == code[2];
    } else {
      assert (code + rest)[1..] == rest;
    }
  }

  const DELIMITERS: set<char> := {' ', '#', '?', '&', '+'}

  predicate Free(s: string, from: set<char>) { forall i :: 0 <= i < |s| ==> s[i] !in from }

  lemma {:induction false} UrlEncodedIsFree(s: string)
    ensures Free(UrlEncoded(s), DELIMITERS)
  {
    if s != "" {
      UrlEncodedIsFree(s[1..]);
      assert Free(UrlCode(6)(s[0]), DELIMITERS);
    }
  }

  lemma {:induction false} PlainIsUntouched(s: string)
    requires Free(s, RESERVED)
    ensures UrlEncoded(s) == s && PercentDecoded(s) == s
  {
    if s != "" {
      assert s == [s[0]] + s[1..];
      PlainIsUntouched(s[1..]);
    }
  }

  // ---------------------------------------------------------------- queries

  /** A query field; keys and printed numbers are written as they are. */
  datatype QueryField = Printed(key: string, token: string) | Encoded(key: string, value: string)
  {
    predicate Valid() { Free(key, RESERVED + {'='}) && (Printed? ==> Free(token, RESERVED)) }

    function Pair(): (string, string) { (key, if Printed? then token else value) }

    function Text(): string { key + "=" + if Printed? then token else UrlEncoded(value) }
  }

  function Query(fields: seq<QueryField>): string
    requires fields != []
  {
    fields[0].Text() + if |fields| == 1 then "" else "&" + Query(fields[1..])
  }

  function ReadField(s: string): (string, string) {
    var k := IndexOf(s, '=');
    (PercentDecoded(s[..k]), if k < |s| then PercentDecoded(s[k + 1..]) else "")
  }

  function ReadFields(s: string): seq<(string, string)>
    decreases |s|
  {
    var k := IndexOf(s, '&');
    [ReadField(s[..k])] + if k < |s| then ReadFields(s[k + 1..]) else []
  }

  /** The fields of a request target: what follows the first "?", up to a fragment. */
  function ReadTarget(target: string): seq<(string, string)> {
    var whole := target[..IndexOf(target, '#')];
    var k := IndexOf(whole, '?');
    if k < |whole| then ReadFields(whole[k + 1..]) else []
  }

  function Pairs(fields: seq<QueryField>): seq<(string, string)> {
    if fields == [] then [] else [fields[0].Pair()] + Pairs(fields[1..])
  }

  lemma FieldReadsBack(f: QueryField)
    requires f.Valid()
    ensures ReadField(f.Text()) == f.Pair()
  {
    hide IndexOf, PercentDecoded, UrlEncoded, Free;
    KeyIsFree(f.key);
    var value := if f.Printed? then f.token else UrlEncoded(f.value);
    SplitsAt(f.key, '=', value);
    PlainIsUntouched(f.key);
    if f.Printed? {
      PlainIsUntouched(f.token);
    } else {
      UrlRoundTrip(f.value);
    }
  }

  lemma KeyIsFree(key: string)
    requires Free(key, RESERVED + {'='})
    ensures Free(key, RESERVED) && Free(key, {'='})
  {
  }

  lemma FieldIsFree(f: QueryField)
    requires f.Valid()
    ensures Free(f.Text(), DELIMITERS)
  {
    hide UrlEncoded;
    if f.Encoded? {
      UrlEncodedIsFree(f.value);
    }
  }

  /** The first c of a text that is put behind one free of it. */
  lemma SplitsAt(head: string, c: char, rest: string)
    requires Free(head, {c})
    ensures var s := head + [c] + rest;
      IndexOf(s, c) == |head| && s[..|head|] == head && s[|head| + 1..] == rest
  {
    hide IndexOf;
    assert head + ([c] + rest) == head + [c] + rest;
    IndexExact(head, c, rest);
  }

  lemma Whole(s: string, c: char)
    requires Free(s, {c})
    ensures IndexOf(s, c) == |s| && s[..|s|] == s
  {
    hide IndexOf;
  }

  lemma {:induction false} QueryReadsBack(fields: seq<QueryField>)
    requires fields != [] && forall i :: 0 <= i < |fields| ==> fields[i].Valid()
    ensures ReadFields(Query(fields)) == Pairs(fields)
    ensures Free(Query(fields), {'#', '?'})
  {
    hide IndexOf, ReadField, PercentDecoded, Encode, QueryField.Text, QueryField.Pair, QueryField.Valid;
    var first := fields[0].Text();
    FieldReadsBack(fields[0]);
    FieldIsFree(fields[0]);
    if |fields| == 1 {
      assert first + "" == first;
      Whole(first, '&');
      assert Pairs(fields[1..]) == [];
    } else {
      var rest := Query(fields[1..]);
      QueryReadsBack(fields[1..]);
      assert Query(fields) == first + "&" + rest;
      SplitsAt(first, '&', rest);
    }
  }

  lemma NoFragment(path: string, query: string)
    requires Free(path, {'#', '?'}) && Free(query, {'#', '?'})
    ensures Free(path + "?" + query, {'#'}) && Free(path, {'?'})
  {
  }

  /** A request target built from encoded values splits back into the same fields, in order. */
  lemma TargetReadsBack(path: string, fields: seq<QueryField>)
    requires Free(path, {'#', '?'}) && fields != [] && forall i :: 0 <= i < |fields| ==> fields[i].Valid()
    ensures ReadTarget(path + "?" + Query(fields)) == Pairs(fields)
  {
    hide *;
    QueryReadsBack(fields);
    NoFragment(path, Query(fields));
    TargetSplits(path, Query(fields));
  }

  lemma TargetSplits(path: string, query: string)
    requires Free(path + "?" + query, {'#'}) && Free(path, {'?'})
    ensures ReadTarget(path + "?" + query) == ReadFields(query)
  {
    hide IndexOf, ReadFields, Free;
    Whole(path + "?" + query, '#');
    SplitsAt(path, '?', query);
  }
}
