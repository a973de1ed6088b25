/** The text side of packaging: finding the quoted includes of a source text, and rewriting them to bare
    file names. */
module Includes {
  import opened Characters
  import opened Wrappers

  /** A piece of a text: a character outside every include, or one quoted include. */
  datatype Piece = Plain(c: char) | Quoted(space: string, rel: string)

  function Spaces(s: string): (n: nat)
    ensures n <= |s|
    ensures forall i :: 0 <= i < n ==> IsSpace(s[i])
    ensures n < |s| ==> !IsSpace(s[n])
  {
    if s != "" && IsSpace(s[0]) then 1 + Spaces(s[1..]) else 0
  }

  const DIRECTIVE := "#include"

  /** A name up to its closing quote; it may not be empty. */
  function MatchName(space: string, u: string): (r: Option<Piece>)
    ensures r.Some? ==> r.value.Quoted? && r.value.space == space && r.value.rel != "" && '"' !in r.value.rel
    ensures r.Some? ==> |r.value.rel| < |u| && u == r.value.rel + (['"'] + u[|r.value.rel| + 1..])
  {
    var q := IndexOf(u, '"');
    if q == 0 || q == |u| then None
    else
      assert u == u[..q] + (['"'] + u[q + 1..]);
      Some(Quoted(space, u[..q]))
  }

  /** Some space, and a quoted name. */
  function MatchTail(t: string): (r: Option<Piece>)
    ensures r.Some? ==> r.value.Quoted? && IsQuoted(r.value)
    ensures r.Some? ==> var m := r.value.space + (['"'] + (r.value.rel + ['"'])); |m| <= |t| && t == m + t[|m|..]
  {
    var w := Spaces(t);
    if w == 0 || w == |t| || t[w] != '"' then None
    else
      var r := MatchName(t[..w], t[w + 1..]);
      assert t == t[..w] + (['"'] + t[w + 1..]);
      if r.Some? then
        var rel := r.value.rel;
        Regroup(t[..w], rel, t[w + 1..][|rel| + 1..]);
        assert t[w + 1..][|rel| + 1..] == t[w + |rel| + 2..];
        r
      else None
  }

  lemma Regroup(space: string, rel: string, rest: string)
    ensures space + (['"'] + (rel + (['"'] + rest))) == space + (['"'] + (rel + ['"'])) + rest
  {
  }

  /** The include a text starts with: the directive, some space, and a quoted name that is not empty. */
  function Match(s: string): (r: Option<Piece>)
    ensures r.Some? ==> r.value.Quoted? && IsQuoted(r.value) && |Written(r.value)| <= |s| && s[..|Written(r.value)|] == Written(r.value)
  {
    if |s| < 8 || s[..8] != DIRECTIVE then None
    else
      var r := MatchTail(s[8..]);
      assert s == DIRECTIVE + s[8..];
      r
  }

  predicate IsQuoted(p: Piece) {
    p.Quoted? ==>
      p.space != "" && p.rel != "" && '"' !in p.rel && (forall i :: 0 <= i < |p.space| ==> IsSpace(p.space[i]))
  }

  function Written(p: Piece): (s: string)
    ensures s != ""
  {
    match p
    case Plain(c) => [c]
    case Quoted(space, rel) => DIRECTIVE + (space + (['"'] + (rel + ['"'])))
  }

  /** Scans from the left for includes that do not overlap. */
  function Pieces(s: string): seq<Piece>
    decreases |s|
  {
    if s == "" then []
    else if Match(s).Some? then [Match(s).value] + Pieces(s[|Written(Match(s).value)|..])
    else [Plain(s[0])] + Pieces(s[1..])
  }

  function Text(pieces: seq<Piece>): string {
    if pieces == [] then "" else Written(pieces[0]) + Text(pieces[1..])
  }

  function RelsOf(pieces: seq<Piece>): seq<string> {
    if pieces == [] then []
    else (if pieces[0].Quoted? then [pieces[0].rel] else []) + RelsOf(pieces[1..])
  }

  /** The names a text includes, in order. */
  function Rels(text: string): seq<string> { RelsOf(Pieces(text)) }

  // ---------------------------------------------------------------- names

  /** The components of a relative path; empty ones and "." are dropped. */
  function Parts(rel: string): seq<string>
    decreases |rel|
  {
    var k := IndexOf(rel, '/');
    (if rel[..k] == "" || rel[..k] == "." then [] else [rel[..k]]) + (if k < |rel| then Parts(rel[k + 1..]) else [])
  }

  /** The components between the slashes, without the empty ones and the single dots. */
  lemma PartsExactly(part: string, rest: string)
    requires '/' !in part
    ensures Parts(part) == if part == "" || part == "." then [] else [part]
    ensures Parts(part + (['/'] + rest)) == (if part == "" || part == "." then [] else [part]) + Parts(rest)
  {
    IndexExact(part, '/', rest);
    var s := part + (['/'] + rest);
    assert s[..|part|] == part && s[|part| + 1..] == rest;
    assert IndexOf(part, '/') == |part| && part[..|part|] == part;
  }

  function BareName(rel: string): string {
    if Parts(rel) == [] then "" else Parts(rel)[|Parts(rel)| - 1]
  }

  function Bare(pieces: seq<Piece>): (r: seq<Piece>)
    ensures |r| == |pieces|
    ensures forall i :: 0 <= i < |r| ==> r[i] == if pieces[i].Quoted? then Quoted(" ", BareName(pieces[i].rel)) else pieces[i]
  {
    if pieces == [] then []
    else [if pieces[0].Quoted? then Quoted(" ", BareName(pieces[0].rel)) else pieces[0]] + Bare(pieces[1..])
  }

  /** Rewrites every quoted include to its bare file name. */
  function Flatten(text: string): string { Text(Bare(Pieces(text))) }

  // ---------------------------------------------------------------- rewriting keeps the includes

  lemma {:induction false} PiecesSpellTheText(s: string)
    ensures Text(Pieces(s)) == s
    decreases |s|
  {
    hide Match;
    if s != "" {
      var rest := if Match(s).Some? then s[|Written(Match(s).value)|..] else s[1..];
      var first := if Match(s).Some? then Match(s).value else Plain(s[0]);
      PiecesSpellTheText(rest);
      assert Pieces(s) == [first] + Pieces(rest);
      TextFirst(first, Pieces(rest));
      assert s == s[..|Written(first)|] + rest;
    }
  }

  lemma TextFirst(p: Piece, rest: seq<Piece>)
    ensures Text([p] + rest) == Written(p) + Text(rest)
  {
    hide Written;
    assert ([p] + rest)[1..] == rest;
  }

  lemma {:induction false} SpacesExact(space: string, rest: string)
    requires forall i :: 0 <= i < |space| ==> IsSpace(space[i])
    requires rest != "" && !IsSpace(rest[0])
    ensures Spaces(space + rest) == |space|
  {
    assert (space + rest)[|space|] == rest[0];
    assert forall i :: 0 <= i < |space| ==> (space + rest)[i] == space[i];
  }

  lemma NameFound(space: string, rel: string, rest: string)
    requires rel != "" && '"' !in rel
    ensures MatchName(space, rel + (['"'] + rest)) == Some(Quoted(space, rel))
  {
    hide IndexOf;
    IndexExact(rel, '"', rest);
    assert (rel + (['"'] + rest))[..|rel|] == rel;
  }

  lemma TailFound(space: string, u: string)
    requires space != "" && forall i :: 0 <= i < |space| ==> IsSpace(space[i])
    ensures MatchTail(space + (['"'] + u)) == MatchName(space, u)
  {
    hide Spaces, MatchName;
    QuoteIsNoSpace();
    SpacesExact(space, ['"'] + u);
    var t := space + (['"'] + u);
    assert t[..|space|] == space && t[|space|] == '"';
    assert t[|space|..] == ['"'] + u;
    assert t[|space| + 1..] == u;
  }

  lemma DirectiveFound(t: string)
    ensures Match(DIRECTIVE + t) == MatchTail(t)
  {
    hide MatchTail;
    assert (DIRECTIVE + t)[..8] == DIRECTIVE && (DIRECTIVE + t)[8..] == t;
  }

  lemma QuoteIsNoSpace()
    ensures !IsSpace('"')
  {
  }

  /** An include written out is found again, whatever follows it. */
  lemma MatchFinds(space: string, rel: string, rest: string)
    requires IsQuoted(Quoted(space, rel))
    ensures Match(Written(Quoted(space, rel)) + rest) == Some(Quoted(space, rel))
  {
    hide Match, MatchTail, MatchName, Written;
    SpellOut(space, rel, rest);
    DirectiveFound(space + (['"'] + (rel + (['"'] + rest))));
    TailFound(space, rel + (['"'] + rest));
    NameFound(space, rel, rest);
  }

  lemma SpellOut(space: string, rel: string, rest: string)
    ensures Written(Quoted(space, rel)) + rest == DIRECTIVE + (space + (['"'] + (rel + (['"'] + rest))))
  {
    Regroup(space, rel, rest);
    var m := space + (['"'] + (rel + ['"']));
    assert (DIRECTIVE + m) + rest == DIRECTIVE + (m + rest);
  }

  /** Where the rewritten text starts with characters other than the directive's first, the original
      starts with the same. */
  lemma {:induction false} PlainPrefix(u: string, x: string, y: string)
    requires '#' !in x && Flatten(u) == x + y
    ensures |x| <= |u| && u == x + u[|x|..] && Flatten(u[|x|..]) == y
    decreases |x|
  {
    hide Match, Flatten, BareName;
    if x == "" {
      assert u[0..] == u && x + y == y;
    } else {
      assert (x + y)[0] == x[0];
      FlattenNone(u);
      FlattenFirst(u);
      var tail := u[1..];
      assert (x + y)[1..] == x[1..] + y;
      assert ([u[0]] + Flatten(tail))[1..] == Flatten(tail);
      PlainPrefix(tail, x[1..], y);
      assert u == [u[0]] + tail && x == [u[0]] + x[1..];
      assert tail[|x| - 1..] == u[|x|..];
    }
  }

  lemma FlattenNone(u: string)
    requires Flatten(u) != ""
    ensures u != ""
  {
  }

  lemma FlattenFirst(u: string)
    requires u != ""
    ensures Match(u).Some? ==> Flatten(u) == Written(Quoted(" ", BareName(Match(u).value.rel))) + Flatten(u[|Written(Match(u).value)|..])
    ensures Match(u).Some? ==> Flatten(u)[0] == '#' && u[0] == '#'
    ensures Match(u).None? ==> Flatten(u) == [u[0]] + Flatten(u[1..])
  {
    hide Match, BareName;
    var p := Pieces(u);
    if Match(u).Some? {
      assert p[0] == Match(u).value;
      assert Bare(p)[1..] == Bare(p[1..]);
      assert Written(Match(u).value)[0] == '#';
      assert u[0] == u[..|Written(Match(u).value)|][0];
    } else {
      assert Bare(p)[1..] == Bare(p[1..]);
    }
  }

  lemma {:induction false} QuoteStays(u: string)
    ensures '"' in Flatten(u) ==> '"' in u
    decreases |u|
  {
    hide Match, BareName;
    if u != "" {
      FlattenFirst(u);
      if Match(u).Some? {
        var w := Written(Match(u).value);
        assert w[|w| - 1] == '"';
        assert u[..|w|][|w| - 1] == '"';
      } else {
        QuoteStays(u[1..]);
      }
    }
  }

  /** Rewriting makes no include where there was none. */
  lemma NoNewMatch(s: string)
    requires s != "" && Match(s).None?
    ensures Match([s[0]] + Flatten(s[1..])).None?
  {
    hide Flatten, BareName, Match, IsSpace, Written;
    var flat := Flatten(s[1..]);
    var m := Match([s[0]] + flat);
    if m.Some? {
      var space, rel := m.value.space, m.value.rel;
      var rest := ([s[0]] + flat)[|Written(m.value)|..];
      var y := rel + (['"'] + rest);
      StartOf(s[0], flat, space, rel, rest);
      SpaceHasNoHash(space);
      PlainPrefix(s[1..], Opening(space), y);
      assert s == [s[0]] + s[1..];
      MatchFromParts(s, space, s[1..][|Opening(space)|..], y);
    }
  }

  /** An include between the "#" and its name. */
  function Opening(space: string): string { DIRECTIVE[1..] + (space + ['"']) }

  lemma SpaceHasNoHash(space: string)
    requires forall i :: 0 <= i < |space| ==> IsSpace(space[i])
    ensures '#' !in Opening(space)
  {
    assert !IsSpace('#');
    assert DIRECTIVE[1..] == "include";
  }

  lemma OpeningGroups(space: string, u: string)
    ensures ['#'] + (Opening(space) + u) == DIRECTIVE + (space + (['"'] + u))
  {
    assert DIRECTIVE == ['#'] + DIRECTIVE[1..];
    assert (space + ['"']) + u == space + (['"'] + u);
  }

  /** Taking the first character off an include at the start of a text. */
  lemma StartOf(first: char, flat: string, space: string, rel: string, rest: string)
    requires var w := Written(Quoted(space, rel)); var t := [first] + flat; |w| <= |t| && t[..|w|] == w && rest == t[|w|..]
    ensures first == '#' && flat == Opening(space) + (rel + (['"'] + rest))
  {
    hide Written, Opening;
    var w, t := Written(Quoted(space, rel)), [first] + flat;
    assert t == w + rest;
    SpellOut(space, rel, rest);
    OpeningGroups(space, rel + (['"'] + rest));
    assert t[0] == '#' && t[1..] == flat;
  }

  lemma MatchFromParts(s: string, space: string, u: string, flat: string)
    requires space != "" && forall i :: 0 <= i < |space| ==> IsSpace(space[i])
    requires s == ['#'] + (Opening(space) + u)
    requires flat == Flatten(u) && '"' in flat && flat[0] != '"'
    ensures Match(s).Some?
  {
    hide Flatten, Match, IndexOf, BareName, IsSpace, Written, Opening;
    QuoteStays(u);
    FlattenNone(u);
    FlattenFirst(u);
    assert u[0] != '"';
    var q := IndexOf(u, '"');
    assert q < |u|;
    var rel, rest := u[..q], u[q + 1..];
    assert u == rel + (['"'] + rest);
    OpeningGroups(space, u);
    SpellOut(space, rel, rest);
    MatchFinds(space, rel, rest);
  }

  lemma {:induction false} PartsHaveNoQuote(rel: string)
    requires '"' !in rel
    ensures forall i :: 0 <= i < |Parts(rel)| ==> '"' !in Parts(rel)[i]
    decreases |rel|
  {
    var k := IndexOf(rel, '/');
    if k < |rel| {
      PartsHaveNoQuote(rel[k + 1..]);
    }
  }

  /** The rewritten text includes exactly the bare names of what the text included, in order. */
  lemma {:induction false} FlattenKeepsIncludes(s: string)
    requires forall rel :: rel in Rels(s) ==> BareName(rel) != ""
    ensures Pieces(Flatten(s)) == Bare(Pieces(s))
    decreases |s|
  {
    hide Match, BareName, Parts;
    if s != "" {
      FlattenFirst(s);
      var p := Pieces(s);
      assert Bare(p)[1..] == Bare(p[1..]);
      if Match(s).Some? {
        var rest := s[|Written(Match(s).value)|..];
        assert Rels(s) == [p[0].rel] + Rels(rest);
        assert forall rel :: rel in Rels(rest) ==> rel in Rels(s);
        assert p[0].rel in Rels(s);
        FlattenKeepsIncludes(rest);
        BareIsQuotable(p[0].rel);
        MatchFinds(" ", BareName(p[0].rel), Flatten(rest));
        assert Flatten(s)[|Written(Bare(p)[0])|..] == Flatten(rest);
      } else {
        assert Rels(s) == Rels(s[1..]);
        FlattenKeepsIncludes(s[1..]);
        NoNewMatch(s);
        assert Flatten(s)[1..] == Flatten(s[1..]);
      }
    }
  }

  lemma BareIsQuotable(rel: string)
    requires '"' !in rel && BareName(rel) != ""
    ensures IsQuoted(Quoted(" ", BareName(rel)))
  {
    hide Parts;
    PartsHaveNoQuote(rel);
  }

  lemma {:induction false} RelsOfBare(pieces: seq<Piece>)
    ensures |RelsOf(Bare(pieces))| == |RelsOf(pieces)|
    ensures forall i :: 0 <= i < |RelsOf(pieces)| ==> RelsOf(Bare(pieces))[i] == BareName(RelsOf(pieces)[i])
  {
    hide BareName;
    if pieces != [] {
      RelsOfBare(pieces[1..]);
      assert Bare(pieces)[1..] == Bare(pieces[1..]);
    }
  }

  /** Reading the rewritten text gives the bare names back, one for one. */
  lemma RewrittenIncludes(text: string)
    requires forall rel :: rel in Rels(text) ==> BareName(rel) != ""
    ensures |Rels(Flatten(text))| == |Rels(text)|
    ensures forall i :: 0 <= i < |Rels(text)| ==> Rels(Flatten(text))[i] == BareName(Rels(text)[i])
  {
    hide BareName, Flatten, Pieces, Bare;
    FlattenKeepsIncludes(text);
    RelsOfBare(Pieces(text));
  }

  lemma {:induction false} PartsAreNotEmpty(rel: string)
    ensures forall i :: 0 <= i < |Parts(rel)| ==> Parts(rel)[i] != ""
    decreases |rel|
  {
    var k := IndexOf(rel, '/');
    if k < |rel| {
      PartsAreNotEmpty(rel[k + 1..]);
    }
  }
}
