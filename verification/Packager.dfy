/** The packager: a worklist walk of the include graph that copies every file flat into one folder. */
module Packager {
  import opened Characters
  import opened Includes
  import opened Wrappers

  /** A resolved path, as its components. */
  type Path = seq<string>

  /** What is at a path: a text the packager can read, or something it cannot (a directory, say). */
  datatype Node = Source(text: string) | Unreadable

  type Files = map<Path, Node>

  function FileName(p: Path): string {
    if p == [] then "" else p[|p| - 1]
  }

  function Parent(p: Path): Path {
    if p == [] then [] else p[..|p| - 1]
  }

  /** Walks the components from a base; ".." steps up, and stays at the root. */
  function Walk(base: Path, parts: seq<string>): Path {
    if parts == [] then base
    else
      var w := Walk(base, parts[..|parts| - 1]);
      if parts[|parts| - 1] == ".." then Parent(w) else w + [parts[|parts| - 1]]
  }

  function Resolve(from: Path, rel: string): Path {
    Walk(if rel != "" && rel[0] == '/' then [] else Parent(from), Parts(rel))
  }

  /** Components are walked one by one: ".." leaves the last component, any other enters one. */
  lemma WalkExactly(base: Path, parts: seq<string>, part: string)
    ensures Walk(base, []) == base
    ensures var w := Walk(base, parts);
      Walk(base, parts + [part]) == if part == ".." then (if w == [] then [] else w[..|w| - 1]) else w + [part]
  {
    assert (parts + [part])[..|parts|] == parts;
  }

  /** An include is walked from the directory of the file it stands in, or from the root when it starts there. */
  lemma ResolveExactly(directory: Path, name: string, rel: string)
    ensures Resolve(directory + [name], rel) == Walk(if rel != "" && rel[0] == '/' then [] else directory, Parts(rel))
    ensures rel != "" && rel[0] == '/' ==> Resolve(directory + [name], rel) == Resolve([], rel)
  {
    assert (directory + [name])[..|directory|] == directory;
  }

  function Targets(from: Path, rels: seq<string>): (r: seq<Path>)
    ensures |r| == |rels|
    ensures forall i :: 0 <= i < |r| ==> r[i] == Resolve(from, rels[i])
  {
    seq(|rels|, i requires 0 <= i < |rels| => Resolve(from, rels[i]))
  }

  /** The files a file includes; what is no source includes nothing. */
  function Dependencies(fs: Files, p: Path): seq<Path> {
    if p in fs && fs[p].Source? then Targets(p, Rels(fs[p].text)) else []
  }

  /** A chain of includes. */
  predicate IsChain(fs: Files, chain: seq<Path>) {
    forall i :: 0 < i < |chain| ==> chain[i] in Dependencies(fs, chain[i - 1])
  }

  predicate Chains(fs: Files, chain: seq<Path>, entry: Path, p: Path) {
    chain != [] && chain[0] == entry && chain[|chain| - 1] == p && IsChain(fs, chain)
  }

  ghost predicate Reachable(fs: Files, entry: Path, p: Path) {
    exists chain :: Chains(fs, chain, entry, p)
  }

  /** What the package needs of the graph: every reachable file can be read, and no two share a name. */
  ghost predicate Packable(fs: Files, entry: Path) {
    && (forall p :: Reachable(fs, entry, p) ==> p in fs && fs[p].Source?)
    && (forall p, q :: Reachable(fs, entry, p) && Reachable(fs, entry, q) && FileName(p) == FileName(q) ==> p == q)
  }

  lemma EntryIsReachable(fs: Files, entry: Path)
    ensures Reachable(fs, entry, entry)
  {
    assert Chains(fs, [entry], entry, entry);
  }

  lemma DependencyIsReachable(fs: Files, entry: Path, p: Path, q: Path)
    requires Reachable(fs, entry, p) && q in Dependencies(fs, p)
    ensures Reachable(fs, entry, q)
  {
    hide Dependencies;
    var chain :| Chains(fs, chain, entry, p);
    assert Chains(fs, chain + [q], entry, q);
  }

  /** A set that holds the entry and all its files' dependencies holds every reachable file. */
  lemma ClosedHoldsReachable(fs: Files, entry: Path, closed: set<Path>)
    requires entry in closed
    requires forall p, q :: p in closed && q in Dependencies(fs, p) ==> q in closed
    ensures forall p :: Reachable(fs, entry, p) ==> p in closed
  {
    forall p | Reachable(fs, entry, p)
      ensures p in closed
    {
      var chain :| Chains(fs, chain, entry, p);
      ChainStaysInside(fs, closed, chain);
    }
  }

  lemma {:induction false} ChainStaysInside(fs: Files, closed: set<Path>, chain: seq<Path>)
    requires chain != [] && chain[0] in closed && IsChain(fs, chain)
    requires forall p, q :: p in closed && q in Dependencies(fs, p) ==> q in closed
    ensures chain[|chain| - 1] in closed
  {
    hide Dependencies;
    if |chain| > 1 {
      assert chain[1] in Dependencies(fs, chain[0]);
      assert IsChain(fs, chain[1..]) by {
        forall i | 0 < i < |chain[1..]|
          ensures chain[1..][i] in Dependencies(fs, chain[1..][i - 1])
        {
          assert chain[i + 1] in Dependencies(fs, chain[i]);
        }
      }
      ChainStaysInside(fs, closed, chain[1..]);
    }
  }

  // ---------------------------------------------------------------- the walk

  datatype Failure = CannotRead(p: Path) | Missing(p: Path, rel: string) | Collision(p: Path, q: Path)

  ghost predicate NamesDistinct(paths: set<Path>) {
    forall p, q :: p in paths && q in paths && FileName(p) == FileName(q) ==> p == q
  }

  /** Why a walk fails: a reachable file that cannot be read or found, or two of one name. */
  ghost predicate Explains(fs: Files, entry: Path, f: Failure) {
    match f
    case CannotRead(p) => Reachable(fs, entry, p) && !(p in fs && fs[p].Source?)
    case Missing(p, rel) => Reachable(fs, entry, p) && Resolve(p, rel) in Dependencies(fs, p) && Resolve(p, rel) !in fs
    case Collision(p, q) => Reachable(fs, entry, p) && Reachable(fs, entry, q) && p != q && FileName(p) == FileName(q)
  }

  lemma ExplainedIsNotPackable(fs: Files, entry: Path, f: Failure)
    requires Explains(fs, entry, f)
    ensures !Packable(fs, entry)
  {
    hide Resolve, Reachable, Dependencies;
    if f.Missing? {
      DependencyIsReachable(fs, entry, f.p, Resolve(f.p, f.rel));
    }
  }

  /** What the walk knows of its lists. */
  ghost predicate Sound(fs: Files, entry: Path, seen: set<Path>, queue: seq<Path>) {
    && (forall p :: p in seen || p in queue ==> Reachable(fs, entry, p))
    && (forall p :: p in seen ==> p in fs && fs[p].Source?)
    && (forall p :: p in queue ==> p in fs)
    && NamesDistinct(seen + Elements(queue))
  }

  ghost function Elements(queue: seq<Path>): set<Path> { set p | p in queue }

  /** The files written: one for each file seen, under its bare name, flattened. */
  ghost predicate Copies(fs: Files, seen: set<Path>, out: map<string, string>, copied: seq<string>) {
    && (forall p :: p in seen ==> p in fs && fs[p].Source? && FileName(p) in out && out[FileName(p)] == Flatten(fs[p].text))
    && (forall name :: name in out ==> exists p :: p in seen && FileName(p) == name)
    && (forall name :: name in out <==> name in copied)
    && (forall i, j :: 0 <= i < j < |copied| ==> copied[i] != copied[j])
  }

  /** The first file of this name that is another file, among those seen and then those queued. */
  method FindClash(seen: seq<Path>, queue: seq<Path>, dep: Path) returns (clash: Option<Path>)
    ensures clash.Some? ==> (clash.value in seen || clash.value in queue) && clash.value != dep && FileName(clash.value) == FileName(dep)
    ensures clash.None? ==> forall p :: (p in seen || p in queue) && FileName(p) == FileName(dep) ==> p == dep
  {
    var all := seen + queue;
    var i := 0;
    while i < |all|
      invariant 0 <= i <= |all|
      invariant forall p :: p in all[..i] && FileName(p) == FileName(dep) ==> p == dep
    {
      if FileName(all[i]) == FileName(dep) && all[i] != dep {
        return Some(all[i]);
      }
      i := i + 1;
    }
    assert all[..i] == all;
    return None;
  }

  lemma SoundAdds(fs: Files, entry: Path, seen: seq<Path>, queue: seq<Path>, dep: Path)
    requires Sound(fs, entry, Elements(seen), queue) && dep in fs && Reachable(fs, entry, dep)
    requires forall p :: (p in seen || p in queue) && FileName(p) == FileName(dep) ==> p == dep
    ensures Sound(fs, entry, Elements(seen), queue + [dep])
  {
    hide Reachable;
    assert Elements(queue + [dep]) == Elements(queue) + {dep};
  }

  lemma SoundCollision(fs: Files, entry: Path, seen: seq<Path>, queue: seq<Path>, dep: Path, clash: Path)
    requires Sound(fs, entry, Elements(seen), queue) && Reachable(fs, entry, dep)
    requires (clash in seen || clash in queue) && clash != dep && FileName(clash) == FileName(dep)
    ensures Explains(fs, entry, Collision(dep, clash))
  {
    hide Reachable;
  }

  /** Queues what a file includes, in order. */
  method Enqueue(fs: Files, src: Path, seen: seq<Path>, queue: seq<Path>, ghost entry: Path) returns (more: seq<Path>, failure: Option<Failure>)
    requires src in fs && fs[src].Source? && Reachable(fs, entry, src)
    requires Sound(fs, entry, Elements(seen), queue)
    ensures failure.Some? ==> Explains(fs, entry, failure.value)
    ensures failure.None? ==> queue <= more && Sound(fs, entry, Elements(seen), more)
    ensures failure.None? ==> forall q :: q in Dependencies(fs, src) ==> q in more
  {
    hide Reachable, Resolve, Flatten, Rels, Sound, FileName;
    more := queue;
    failure := None;
    var rels := Rels(fs[src].text);
    ghost var deps := Dependencies(fs, src);
    assert |deps| == |rels| && forall j :: 0 <= j < |rels| ==> deps[j] == Resolve(src, rels[j]);
    hide Dependencies;
    var i := 0;
    while i < |rels|
      invariant 0 <= i <= |rels|
      invariant queue <= more && Sound(fs, entry, Elements(seen), more)
      invariant forall j :: 0 <= j < i ==> deps[j] in more
    {
      var dep := Resolve(src, rels[i]);
      assert dep == deps[i];
      if dep !in fs {
        return more, Some(Missing(src, rels[i]));
      }
      DependencyIsReachable(fs, entry, src, dep);
      var clash := FindClash(seen, more, dep);
      if clash.Some? {
        SoundCollision(fs, entry, seen, more, dep, clash.value);
        return more, Some(Collision(dep, clash.value));
      }
      SoundAdds(fs, entry, seen, more, dep);
      more := more + [dep];
      i := i + 1;
    }
  }

  /** Packages the entry's include graph, or says why it cannot: it succeeds exactly when every
      reachable file can be read and no two share a name, and then what is in the folder is exactly the
      reachable files, each once, under its bare name and rewritten. */
  method Package(fs: Files, entry: Path) returns (failure: Option<Failure>, out: map<string, string>, copied: seq<string>)
    ensures failure.None? <==> Packable(fs, entry)
    ensures failure.Some? ==> Explains(fs, entry, failure.value)
    ensures failure.None? ==> IsPackage(fs, entry, out, copied)
  {
    hide Reachable, Resolve, Flatten, Rels, Packable, Sound, Copies, Dependencies, Explains, IsPackage;
    out, copied, failure := map[], [], None;
    if entry !in fs {
      NoEntry(fs, entry);
      return Some(CannotRead(entry)), out, copied;
    }
    var seen: seq<Path> := [];
    var queue := [entry];
    Begins(fs, entry);
    while queue != []
      invariant Sound(fs, entry, Elements(seen), queue)
      invariant entry in seen || entry in queue
      invariant Followed(fs, seen, queue)
      invariant Copies(fs, Elements(seen), out, copied)
      decreases fs.Keys - Elements(seen), |queue|
    {
      var src := queue[0];
      ghost var before, known := queue, seen;
      queue := queue[1..];
      assert before == [src] + queue;
      SoundHead(fs, entry, Elements(seen), before);
      if src in seen {
        continue;
      }
      if fs[src].Unreadable? {
        HeadUnreadable(fs, entry, src);
        return Some(CannotRead(src)), out, copied;
      }
      seen := seen + [src];
      assert Elements(seen) == Elements(known) + {src};
      SoundMove(fs, entry, Elements(known), before);
      var more, problem := Enqueue(fs, src, seen, queue, entry);
      if problem.Some? {
        ExplainedIsNotPackable(fs, entry, problem.value);
        return problem, out, copied;
      }
      CopiesAdd(fs, Elements(known), before, out, copied, src, entry);
      out := out[FileName(src) := Flatten(fs[src].text)];
      copied := copied + [FileName(src)];
      queue := more;
    }
    Ends(fs, entry, seen, out, copied);
  }

  /** What is left to do covers what the files seen include. */
  ghost predicate Followed(fs: Files, seen: seq<Path>, queue: seq<Path>) {
    forall p, q :: p in seen && q in Dependencies(fs, p) ==> q in seen || q in queue
  }

  /** The folder: every reachable file under its bare name and rewritten, and nothing else, each once. */
  ghost predicate IsPackage(fs: Files, entry: Path, out: map<string, string>, copied: seq<string>) {
    && (forall p :: Reachable(fs, entry, p) ==> p in fs && fs[p].Source? && FileName(p) in out && out[FileName(p)] == Flatten(fs[p].text))
    && (forall name :: name in out ==> exists p :: Reachable(fs, entry, p) && FileName(p) == name)
    && (forall name :: name in out <==> name in copied)
    && (forall i, j :: 0 <= i < j < |copied| ==> copied[i] != copied[j])
  }

  lemma NoEntry(fs: Files, entry: Path)
    requires entry !in fs
    ensures Explains(fs, entry, CannotRead(entry)) && !Packable(fs, entry)
  {
    EntryIsReachable(fs, entry);
  }

  lemma HeadUnreadable(fs: Files, entry: Path, src: Path)
    requires Reachable(fs, entry, src) && src in fs && fs[src].Unreadable?
    ensures Explains(fs, entry, CannotRead(src)) && !Packable(fs, entry)
  {
    hide Reachable;
  }

  lemma Begins(fs: Files, entry: Path)
    requires entry in fs
    ensures Sound(fs, entry, Elements([]), [entry]) && Copies(fs, Elements([]), map[], [])
  {
    hide Reachable;
    EntryIsReachable(fs, entry);
  }

  lemma Ends(fs: Files, entry: Path, seen: seq<Path>, out: map<string, string>, copied: seq<string>)
    requires Sound(fs, entry, Elements(seen), []) && Followed(fs, seen, []) && entry in seen
    requires Copies(fs, Elements(seen), out, copied)
    ensures Packable(fs, entry) && IsPackage(fs, entry, out, copied)
  {
    hide Reachable, Flatten, Dependencies;
    ClosedHoldsReachable(fs, entry, Elements(seen));
    assert Elements(seen) + Elements([]) == Elements(seen);
  }

  lemma SoundHead(fs: Files, entry: Path, seen: set<Path>, queue: seq<Path>)
    requires queue != [] && Sound(fs, entry, seen, queue)
    ensures queue[0] in fs && Reachable(fs, entry, queue[0])
    ensures queue[0] in seen ==> Sound(fs, entry, seen, queue[1..])
    ensures queue[0] !in seen ==> queue[0] in fs.Keys - seen
  {
    hide Reachable;
    assert Elements(queue[1..]) <= Elements(queue);
  }

  lemma SoundMove(fs: Files, entry: Path, seen: set<Path>, queue: seq<Path>)
    requires queue != [] && Sound(fs, entry, seen, queue) && fs[queue[0]].Source?
    ensures Sound(fs, entry, seen + {queue[0]}, queue[1..])
  {
    hide Reachable;
    assert seen + {queue[0]} + Elements(queue[1..]) <= seen + Elements(queue);
  }

  lemma CopiesAdd(fs: Files, seen: set<Path>, queue: seq<Path>, out: map<string, string>, copied: seq<string>, src: Path, entry: Path)
    requires Copies(fs, seen, out, copied) && Sound(fs, entry, seen, queue)
    requires src !in seen && src in queue && src in fs && fs[src].Source?
    ensures Copies(fs, seen + {src}, out[FileName(src) := Flatten(fs[src].text)], copied + [FileName(src)])
  {
    hide Reachable, Flatten;
    forall p | p in seen
      ensures FileName(p) != FileName(src)
    {
      assert p in seen + Elements(queue) && src in seen + Elements(queue);
    }
    assert FileName(src) !in out;
  }

  // ---------------------------------------------------------------- what the includes of the package name

  predicate Ordinary(name: string) { name != "" && name != "." && name != ".." }

  /** Paths are resolved, the root is no source, and nothing lies under one. */
  ghost predicate FileSystem(fs: Files) {
    && (forall p, i :: p in fs && 0 <= i < |p| ==> Ordinary(p[i]))
    && (forall p :: p in fs && fs[p].Source? ==> p != [])
    && (forall p :: p in fs && p != [] && Parent(p) in fs ==> fs[Parent(p)].Unreadable?)
  }

  lemma TargetName(fs: Files, p: Path, rel: string)
    requires FileSystem(fs) && p in fs && fs[p].Source?
    requires Resolve(p, rel) in fs && fs[Resolve(p, rel)].Source?
    ensures BareName(rel) != ""
    ensures Ordinary(FileName(Resolve(p, rel)))
    ensures BareName(rel) != ".." ==> FileName(Resolve(p, rel)) == BareName(rel)
  {
    hide Parts;
    var target := Resolve(p, rel);
    assert target != [] && Ordinary(target[|target| - 1]);
    PartsAreNotEmpty(rel);
  }

  lemma SourcesHaveNames(fs: Files, p: Path)
    requires FileSystem(fs) && p in fs && fs[p].Source?
    ensures forall rel :: rel in Rels(fs[p].text) && Resolve(p, rel) in fs && fs[Resolve(p, rel)].Source? ==> BareName(rel) != ""
    ensures Ordinary(FileName(p))
  {
    hide Rels, Resolve, BareName;
    forall rel | rel in Rels(fs[p].text) && Resolve(p, rel) in fs && fs[Resolve(p, rel)].Source?
      ensures BareName(rel) != ""
    {
      TargetName(fs, p, rel);
    }
  }

  /** The package has the shape of the graph it was made from.  The i-th include of a copied file is the
      bare name of the i-th include of its source; and it names a packaged file, the copy of the very file
      the source included, unless it ends in "..", and then it names none. */
  lemma PackageResolves(fs: Files, entry: Path, out: map<string, string>, copied: seq<string>, p: Path, i: nat)
    requires FileSystem(fs) && Packable(fs, entry) && IsPackage(fs, entry, out, copied)
    requires Reachable(fs, entry, p) && i < |Rels(fs[p].text)|
    ensures var rels, flat := Rels(fs[p].text), Rels(out[FileName(p)]);
      var target := Resolve(p, rels[i]);
      && |flat| == |rels|
      && flat[i] == BareName(rels[i])
      && Reachable(fs, entry, target)
      && (flat[i] in out <==> flat[i] != "..")
      && (flat[i] != ".." ==> flat[i] == FileName(target) && out[flat[i]] == Flatten(fs[target].text))
  {
    hide Reachable, BareName, Resolve, FileSystem, Flatten;
    var text := fs[p].text;
    var rels := Rels(text);
    var target := Resolve(p, rels[i]);
    IncludesAreReachable(fs, entry, p);
    SourcesHaveNames(fs, p);
    assert rels[i] in rels;
    TargetName(fs, p, rels[i]);
    RewrittenIncludes(text);
    forall name | name in out
      ensures Ordinary(name)
    {
      var q :| Reachable(fs, entry, q) && FileName(q) == name;
      SourcesHaveNames(fs, q);
    }
  }

  lemma IncludesAreReachable(fs: Files, entry: Path, p: Path)
    requires Packable(fs, entry) && Reachable(fs, entry, p)
    ensures forall rel :: rel in Rels(fs[p].text) ==> Reachable(fs, entry, Resolve(p, rel)) && Resolve(p, rel) in fs && fs[Resolve(p, rel)].Source?
  {
    hide Reachable, Resolve, Rels;
    var rels := Rels(fs[p].text);
    forall rel | rel in rels
      ensures Reachable(fs, entry, Resolve(p, rel))
    {
      var j :| 0 <= j < |rels| && rels[j] == rel;
      assert Dependencies(fs, p)[j] == Resolve(p, rel);
      DependencyIsReachable(fs, entry, p, Resolve(p, rel));
    }
  }

  // ---------------------------------------------------------------- an include that names nothing

  /** A source that holds one include and nothing else. */
  function IncludeLine(rel: string): string { Written(Quoted(" ", rel)) }

  lemma OneInclude(rel: string)
    requires rel != "" && '"' !in rel
    ensures Rels(IncludeLine(rel)) == [rel]
  {
    hide Match, Written;
    var s := IncludeLine(rel);
    assert s + "" == s;
    MatchFinds(" ", rel, "");
    assert s[|s|..] == "";
    assert Pieces(s) == [Quoted(" ", rel)] + Pieces("");
    assert Pieces("") == [];
    var q := Quoted(" ", rel);
    assert [q] + [] == [q] && [q][1..] == [];
    assert RelsOf([q]) == [rel];
  }

  lemma NoInclude()
    ensures Rels("") == []
  {
  }

  /** The entry at x includes "a/b/..", which resolves, component by component, to the source a beside it. */
  function StepBack(): Files {
    map[["x"] := Source(IncludeLine("a/b/..")), ["a"] := Source("")]
  }

  lemma StepBackParts()
    ensures Parts("a/b/..") == ["a", "b", ".."]
  {
    hide Parts;
    FirstPart("a", "b/..");
    FirstPart("b", "..");
    LastPart();
    assert ["a"] + (["b"] + [".."]) == ["a", "b", ".."];
    assert "a" + (['/'] + "b/..") == "a/b/..";
    assert "b" + (['/'] + "..") == "b/..";
  }

  lemma FirstPart(part: string, rest: string)
    requires |part| == 1 && part[0] != '/' && part[0] != '.'
    ensures Parts(part + (['/'] + rest)) == [part] + Parts(rest)
  {
    var s := part + (['/'] + rest);
    IndexExact(part, '/', rest);
    assert s[..1] == part && s[2..] == rest;
  }

  lemma LastPart()
    ensures Parts("..") == [".."]
  {
    var k := IndexOf("..", '/');
    assert ".."[0] == '.' && ".."[1] == '.';
    assert k == 2;
    assert ".."[..2] == "..";
  }

  lemma StepBackWalk()
    ensures Walk([], ["a", "b", ".."]) == ["a"]
  {
    var parts := ["a", "b", ".."];
    assert parts[..2] == ["a", "b"] && parts[..2][..1] == ["a"] && parts[..2][..1][..0] == [];
    assert "a"[0] != '.' && "b"[0] != '.';
    assert Walk([], ["a"]) == ["a"];
    assert Walk([], ["a", "b"]) == ["a", "b"];
  }

  lemma StepBackTargets()
    ensures BareName("a/b/..") == ".." && Resolve(["x"], "a/b/..") == ["a"]
    ensures Dependencies(StepBack(), ["x"]) == [["a"]] && Dependencies(StepBack(), ["a"]) == []
  {
    hide Parts, Walk, IncludeLine, Rels;
    StepBackParts();
    StepBackWalk();
    assert Parent(["x"]) == [];
    OneInclude("a/b/..");
    NoInclude();
    assert "x"[0] != "a"[0];
    assert ["x"][0] != ["a"][0];
  }

  /** An instance: this tree packages, and the rewritten entry includes "..", which names no packaged file,
      although what the entry included is packaged. */
  lemma StepBackNamesNothing(out: map<string, string>, copied: seq<string>)
    requires IsPackage(StepBack(), ["x"], out, copied)
    ensures FileSystem(StepBack()) && Packable(StepBack(), ["x"])
    ensures "a" in out && "x" in out && Rels(out["x"]) == [".."] && ".." !in out
  {
    hide Resolve, Dependencies, Rels, Flatten, IncludeLine, BareName, Parts;
    var fs := StepBack();
    StepBackTargets();
    StepBackPackable();
    OneInclude("a/b/..");
    DependencyIsReachable(fs, ["x"], ["x"], ["a"]) by { EntryIsReachable(fs, ["x"]); }
    EntryIsReachable(fs, ["x"]);
    assert FileName(["x"]) == "x" && FileName(["a"]) == "a";
    PackageResolves(fs, ["x"], out, copied, ["x"], 0);
  }

  lemma StepBackFiles()
    ensures StepBack().Keys == {["x"], ["a"]} && StepBack()[["x"]].Source? && StepBack()[["a"]].Source?
  {
    hide IncludeLine;
  }

  /** Two readable files of different plain names directly under the root, the second including nothing. */
  lemma TwoFiles(fs: Files, s: string, t: string)
    requires s != t && Ordinary(s) && Ordinary(t)
    requires fs.Keys == {[s], [t]} && fs[[s]].Source? && fs[[t]].Source?
    requires Dependencies(fs, [s]) == [[t]] && Dependencies(fs, [t]) == []
    ensures FileSystem(fs) && Packable(fs, [s])
  {
    hide Dependencies, Reachable, Ordinary;
    ClosedHoldsReachable(fs, [s], {[s], [t]});
    assert FileName([s]) == s && FileName([t]) == t;
    forall p | p in fs
      ensures p == [s] || p == [t]
    {
      assert p in fs.Keys;
    }
    assert Parent([s]) == [] && Parent([t]) == [];
  }

  lemma PlainNames()
    ensures Ordinary("x") && Ordinary("a")
  {
    assert "x"[0] != '.' && "a"[0] != '.';
  }

  lemma StepBackPackable()
    ensures FileSystem(StepBack()) && Packable(StepBack(), ["x"])
  {
    hide *;
    StepBackTargets();
    StepBackFiles();
    var s, t := "x", "a";
    assert s[0] != t[0];
    PlainNames();
    TwoFiles(StepBack(), s, t);
  }
}
