/** Kernel module closure: from root module names to a dependency-ordered list of paths. */
module Closure {
  import opened Graph
  import opened Resources
  import opened Text

  // ------------------------------------------------------------ reading modules.dep

  function StripGz(p: string): string {
    if EndsWith(p, ".gz") then p[..|p|-3] else p
  }

  function TrimKo(s: string): string {
    if EndsWith(s, ".ko") then TrimKo(s[..|s|-3]) else s
  }

  /** `-` and `_` are the same character in a module name. */
  function Underscored(s: string): (r: string)
    ensures |r| == |s| && forall i | 0 <= i < |s| :: r[i] == if s[i] == '-' then '_' else s[i]
  {
    if s == [] then [] else [if s[0] == '-' then '_' else s[0]] + Underscored(s[1..])
  }

  function ModuleName(path: string): string {
    Underscored(TrimKo(StripGz(AfterLast(path, '/'))))
  }

  function StripAll(paths: seq<string>): (r: seq<string>)
    ensures |r| == |paths|
  {
    if paths == [] then [] else [StripGz(paths[0])] + StripAll(paths[1..])
  }

  /** Dependency paths by path, and path by module name. */
  datatype Index = Index(deps: map<string, seq<string>>, byName: map<string, string>)

  /** The path a line is about; a line without a colon is about none. */
  function PathOf(line: string): Option<string> {
    var n := IndexOf(line, ':');
    if n == |line| then None else Some(StripGz(Trim(line[..n])))
  }

  /** The dependency paths a line lists. */
  function ListedIn(line: string): seq<string>
    requires PathOf(line).Some?
  {
    StripAll(SplitWhitespace(line[IndexOf(line, ':') + 1..]))
  }

  function AddLine(m: Index, line: string): Index {
    match PathOf(line)
    case None => m
    case Some(path) => Index(m.deps[path := ListedIn(line)], m.byName[ModuleName(path) := path])
  }

  function IndexLines(lines: seq<string>): Index {
    if lines == [] then Index(map[], map[]) else AddLine(IndexLines(lines[..|lines|-1]), lines[|lines|-1])
  }

  predicate Names(line: string, name: string) {
    PathOf(line).Some? && ModuleName(PathOf(line).value) == name
  }

  /** Line `i` is the last one about its path. */
  predicate LastOfPath(lines: seq<string>, i: nat, path: string) {
    i < |lines| && PathOf(lines[i]) == Some(path) && forall j | i < j < |lines| :: PathOf(lines[j]) != Some(path)
  }

  /** Line `i` is the last one about a module of this name. */
  predicate LastOfName(lines: seq<string>, i: nat, name: string) {
    i < |lines| && Names(lines[i], name) && forall j | i < j < |lines| :: !Names(lines[j], name)
  }

  /** Each path has the dependencies, and each name the path, of the last line about it; nothing else is there. */
  ghost predicate LastLinesWin(lines: seq<string>, m: Index) {
    && (forall i: nat, path | LastOfPath(lines, i, path) :: path in m.deps && m.deps[path] == ListedIn(lines[i]))
    && (forall i: nat, name | LastOfName(lines, i, name) :: name in m.byName && m.byName[name] == PathOf(lines[i]).value)
    && (forall path | path in m.deps :: exists i: nat :: LastOfPath(lines, i, path))
    && (forall name | name in m.byName :: exists i: nat :: LastOfName(lines, i, name))
  }

  lemma {:induction false} IndexHoldsLastLines(lines: seq<string>)
    ensures LastLinesWin(lines, IndexLines(lines))
  {
    if lines != [] {
      var before, line := lines[..|lines|-1], lines[|lines|-1];
      IndexHoldsLastLines(before);
      assert lines == before + [line];
      AddedLineWins(before, line, IndexLines(before));
    }
  }

  lemma AddedLineWins(lines: seq<string>, line: string, m: Index)
    requires LastLinesWin(lines, m)
    ensures LastLinesWin(lines + [line], AddLine(m, line))
  {
    hide PathOf, ListedIn, ModuleName;
    var lines', m' := lines + [line], AddLine(m, line);
    forall i: nat, path | LastOfPath(lines', i, path) && i < |lines| ensures LastOfPath(lines, i, path) && PathOf(line) != Some(path) {
      assert lines'[|lines|] == line;
      forall j | i < j < |lines| ensures PathOf(lines[j]) != Some(path) { assert lines'[j] == lines[j]; }
    }
    forall i: nat, name | LastOfName(lines', i, name) && i < |lines| ensures LastOfName(lines, i, name) && !Names(line, name) {
      assert lines'[|lines|] == line;
      forall j | i < j < |lines| ensures !Names(lines[j], name) { assert lines'[j] == lines[j]; }
    }
    forall path | path in m'.deps ensures exists i: nat :: LastOfPath(lines', i, path) {
      if PathOf(line) == Some(path) {
        assert LastOfPath(lines', |lines|, path);
      } else {
        var i: nat :| LastOfPath(lines, i, path);
        assert LastOfPath(lines', i, path);
      }
    }
    forall name | name in m'.byName ensures exists i: nat :: LastOfName(lines', i, name) {
      if Names(line, name) {
        assert LastOfName(lines', |lines|, name);
      } else {
        var i: nat :| LastOfName(lines, i, name);
        assert LastOfName(lines', i, name);
      }
    }
  }

  method ReadIndex(text: string) returns (m: Index)
    ensures m == IndexLines(Lines(text)) && LastLinesWin(Lines(text), m)
  {
    hide LastLinesWin, Trim, StripGz, StripAll, SplitWhitespace, ModuleName, Lines;
    var lines := Lines(text);
    m := Index(map[], map[]);
    var i := 0;
    while i < |lines|
      invariant 0 <= i <= |lines| && m == IndexLines(lines[..i])
    {
      assert lines[..i+1][..i] == lines[..i];
      var line := lines[i];
      var n := IndexOf(line, ':');
      if n < |line| {
        var path := StripGz(Trim(line[..n]));
        m := m.(byName := m.byName[ModuleName(path) := path]);
        m := m.(deps := m.deps[path := StripAll(SplitWhitespace(line[n+1..]))]);
      }
      i := i + 1;
    }
    assert lines[..i] == lines;
    IndexHoldsLastLines(lines);
  }

  // ------------------------------------------------------------------- the visit

  function DepsOf(deps: map<string, seq<string>>, p: string): seq<string> {
    if p in deps then deps[p] else []
  }

  function Needs(deps: map<string, seq<string>>): Edges<string> {
    set p, d | p in deps && d in deps[p] :: (p, d)
  }

  ghost predicate Before(out: seq<string>, d: string, p: string) {
    exists i, j :: 0 <= i < j < |out| && out[i] == d && out[j] == p
  }

  /** Each emitted path comes after its dependencies, except those it is on a cycle with. */
  ghost predicate DepsFirst(deps: map<string, seq<string>>, out: seq<string>) {
    forall p, d | p in out && (p, d) in Needs(deps) && !Reach(Needs(deps), d, p) :: Before(out, d, p)
  }

  /** Seen but not emitted: the visits still in progress. */
  ghost predicate Open(seen: set<string>, out: seq<string>, q: string) {
    q in seen && q !in out
  }

  ghost predicate Consistent(deps: map<string, seq<string>>, seen: set<string>, out: seq<string>) {
    && NoDuplicates(out) && (forall p | p in out :: p in seen)
    && (forall p, d | p in out && (p, d) in Needs(deps) :: d in seen)
    && DepsFirst(deps, out)
  }

  /** The result of a visit that started from (seen0, out0). */
  ghost predicate Extends(deps: map<string, seq<string>>, root: string, seen0: set<string>, out0: seq<string>,
                          seen: set<string>, out: seq<string>) {
    && Consistent(deps, seen, out) && seen0 <= seen && out0 <= out
    && (forall q :: Open(seen, out, q) <==> Open(seen0, out0, q))
    && (forall q | q in out && q !in out0 :: Reach(Needs(deps), root, q))
  }

  /** `universe` bounds the recursion: any set of paths closed under the dependency table. */
  method Visit(deps: map<string, seq<string>>, path: string, seen0: set<string>, out0: seq<string>, ghost universe: set<string>)
    returns (seen: set<string>, out: seq<string>)
    requires Consistent(deps, seen0, out0)
    requires forall q | Open(seen0, out0, q) :: Reach(Needs(deps), q, path)
    requires path in universe && forall e | e in Needs(deps) :: e.1 in universe
    ensures Extends(deps, path, seen0, out0, seen, out) && path in seen
    decreases universe - seen0
  {
    if path in seen0 {
      return seen0, out0;
    }
    seen, out := seen0 + {path}, out0;
    var ds := DepsOf(deps, path);
    var i := 0;
    ReachSelf(Needs(deps), path);
    while i < |ds|
      invariant 0 <= i <= |ds| && Consistent(deps, seen, out) && seen0 + {path} <= seen && out0 <= out
      invariant forall q :: Open(seen, out, q) <==> Open(seen0, out0, q) || q == path
      invariant forall q | q in out && q !in out0 :: Reach(Needs(deps), path, q)
      invariant forall j | 0 <= j < i :: ds[j] in seen
    {
      assert (path, ds[i]) in Needs(deps);
      forall q | Open(seen, out, q) ensures Reach(Needs(deps), q, ds[i]) {
        ReachStep(Needs(deps), q, path, ds[i]);
      }
      ghost var out1 := out;
      seen, out := Visit(deps, ds[i], seen, out, universe);
      forall q | q in out && q !in out0 ensures Reach(Needs(deps), path, q) {
        if q !in out1 { StepReach(Needs(deps), path, ds[i], q); }
      }
      i := i + 1;
    }
    assert Open(seen, out, path);
    EmitKeeps(deps, seen, out, path);
    out := out + [path];
  }

  /** Emitting a path all of whose dependencies were visited. */
  lemma EmitKeeps(deps: map<string, seq<string>>, seen: set<string>, out: seq<string>, path: string)
    requires Consistent(deps, seen, out) && Open(seen, out, path)
    requires forall q | Open(seen, out, q) :: Reach(Needs(deps), q, path)
    requires forall j | 0 <= j < |DepsOf(deps, path)| :: DepsOf(deps, path)[j] in seen
    ensures Consistent(deps, seen, out + [path])
  {
    var out' := out + [path];
    forall d | (path, d) in Needs(deps)
      ensures d in seen
    {
      var j :| 0 <= j < |DepsOf(deps, path)| && DepsOf(deps, path)[j] == d;
    }
    forall p, d | p in out' && (p, d) in Needs(deps) && !Reach(Needs(deps), d, p)
      ensures Before(out', d, p)
    {
      if p == path {
        assert !Open(seen, out, d);
        var i :| 0 <= i < |out| && out[i] == d;
        assert out'[i] == d && out'[|out|] == p;
      } else {
        assert Before(out, d, p);
        var i, j :| 0 <= i < j < |out| && out[i] == d && out[j] == p;
        assert out'[i] == d && out'[j] == p;
      }
    }
  }

  // ---------------------------------------------------------------- the closure

  datatype Outcome = Ok(paths: seq<string>) | MissingModule(root: string)

  /** The path a root name stands for. */
  predicate Declared(m: Index, root: string) {
    Underscored(root) in m.byName
  }

  ghost predicate ReachedFrom(m: Index, roots: seq<string>, q: string) {
    exists i :: 0 <= i < |roots| && Declared(m, roots[i]) && Reach(Needs(m.deps), m.byName[Underscored(roots[i])], q)
  }

  /** Closed under dependencies and containing the roots: everything reachable is there. */
  lemma ReachableEmitted(m: Index, roots: seq<string>, out: seq<string>)
    requires forall i | 0 <= i < |roots| :: Declared(m, roots[i]) && m.byName[Underscored(roots[i])] in out
    requires forall p, d | p in out && (p, d) in Needs(m.deps) :: d in out
    ensures forall q | ReachedFrom(m, roots, q) :: q in out
  {
    forall q | ReachedFrom(m, roots, q)
      ensures q in out
    {
      var i :| 0 <= i < |roots| && Declared(m, roots[i]) && Reach(Needs(m.deps), m.byName[Underscored(roots[i])], q);
      var p :| PathFrom(Needs(m.deps), p, m.byName[Underscored(roots[i])], q);
      ClosedUnderPath(Needs(m.deps), (set x | x in out), p);
    }
  }

  /** `root` is the first name that the table does not declare. */
  ghost predicate FirstMissing(m: Index, roots: seq<string>, root: string) {
    exists i ::
      && 0 <= i < |roots| && roots[i] == root && !Declared(m, root)
      && (forall j | 0 <= j < i :: Declared(m, roots[j]))
  }

  ghost predicate IsClosure(m: Index, roots: seq<string>, paths: seq<string>) {
    && NoDuplicates(paths) && DepsFirst(m.deps, paths)
    && (forall q :: q in paths <==> ReachedFrom(m, roots, q))
  }

  method ResolveClosure(text: string, roots: seq<string>) returns (r: Outcome)
    ensures r.Ok? <==> forall i | 0 <= i < |roots| :: Declared(IndexLines(Lines(text)), roots[i])
    ensures r.Ok? ==> IsClosure(IndexLines(Lines(text)), roots, r.paths)
    ensures r.MissingModule? ==> FirstMissing(IndexLines(Lines(text)), roots, r.root)
  {
    var m := ReadIndex(text);
    r := VisitRoots(m, roots);
  }

  method VisitRoots(m: Index, roots: seq<string>) returns (r: Outcome)
    ensures r.Ok? <==> forall i | 0 <= i < |roots| :: Declared(m, roots[i])
    ensures r.Ok? ==> IsClosure(m, roots, r.paths)
    ensures r.MissingModule? ==> FirstMissing(m, roots, r.root)
  {
    ghost var universe := (set p | p in m.byName.Values) + (set e | e in Needs(m.deps) :: e.1);
    var seen, out := {}, [];
    var i := 0;
    while i < |roots|
      invariant 0 <= i <= |roots| && Consistent(m.deps, seen, out)
      invariant forall q :: !Open(seen, out, q)
      invariant forall j | 0 <= j < i :: Declared(m, roots[j]) && m.byName[Underscored(roots[j])] in seen
      invariant forall q | q in out :: ReachedFrom(m, roots, q)
    {
      var name := Underscored(roots[i]);
      if name !in m.byName {
        return MissingModule(roots[i]);
      }
      ghost var seen1, out1 := seen, out;
      seen, out := Visit(m.deps, m.byName[name], seen, out, universe);
      NewlyReached(m, roots, i, seen1, out1, seen, out);
      i := i + 1;
    }
    forall q | q in seen ensures q in out { assert !Open(seen, out, q); }
    ReachableEmitted(m, roots, out);
    r := Outcome.Ok(out);
  }

  lemma NewlyReached(m: Index, roots: seq<string>, i: nat, seen0: set<string>, out0: seq<string>, seen: set<string>, out: seq<string>)
    requires i < |roots| && Declared(m, roots[i])
    requires Extends(m.deps, m.byName[Underscored(roots[i])], seen0, out0, seen, out)
    requires forall q | q in out0 :: ReachedFrom(m, roots, q)
    ensures forall q | q in out :: ReachedFrom(m, roots, q)
  {
  }

  /** Root names that differ only in `-` and `_` stand for the same path. */
  lemma DashesResolveAlike(m: Index, a: string, b: string)
    requires |a| == |b| && forall i | 0 <= i < |a| :: a[i] == b[i] || (a[i] in "-_" && b[i] in "-_")
    ensures Declared(m, a) == Declared(m, b)
    ensures Declared(m, a) ==> m.byName[Underscored(a)] == m.byName[Underscored(b)]
  {
    assert Underscored(a) == Underscored(b);
  }

  // -------------------------------------------------------- what a real line stands for

  lemma StripGzOf(p: string)
    ensures StripGz(p + ".gz") == p && (!EndsWith(p, ".gz") ==> StripGz(p) == p)
  {
    assert (p + ".gz")[|p|..] == ".gz" && (p + ".gz")[..|p|] == p;
  }

  lemma {:induction false} TrimKoOf(base: string)
    requires !EndsWith(base, ".ko")
    ensures TrimKo(base + ".ko") == base && StripGz(base + ".ko") == base + ".ko"
  {
    var s := base + ".ko";
    assert s[|base|..] == ".ko" && s[..|base|] == base && s[|s|-1] == 'o';
    assert ".gz"[2] != 'o';
  }

  /** A module is named by its file, without directory and suffixes, compressed or not. */
  lemma ModuleNameOf(dir: string, base: string)
    requires '/' !in base && !EndsWith(base, ".ko")
    ensures ModuleName(dir + "/" + (base + ".ko")) == ModuleName(dir + "/" + (base + ".ko.gz")) == Underscored(base)
    ensures ModuleName(base + ".ko") == Underscored(base)
  {
    hide TrimKo, StripGz, AfterLast, Underscored;
    var (plain, packed) := (base + ".ko", base + ".ko.gz");
    assert '/' !in plain && '/' !in packed && packed == plain + ".gz";
    AfterLastOf(dir, '/', plain);
    AfterLastOf(dir, '/', packed);
    AfterLastOf("", '/', plain);
    assert AfterLast(plain, '/') == plain by { AfterFirst(plain, '/'); }
    StripGzOf(plain);
    TrimKoOf(base);
  }

  /** Characters that end neither a word nor the path of a line. */
  predicate Clean(s: string) {
    forall c | c in s :: !IsWhitespace(c) && c != ':'
  }

  /** The dependencies of a line, compressed, each after a space. */
  function Spaced(ds: seq<string>): string {
    if ds == [] then "" else Spaced(ds[..|ds|-1]) + " " + (ds[|ds|-1] + ".gz")
  }

  /** A line of modules.dep: a compressed module, a colon and its compressed dependencies. */
  function DepLine(path: string, ds: seq<string>): string {
    path + ".gz" + ":" + Spaced(ds)
  }

  lemma {:induction false} SpacedWords(ds: seq<string>)
    requires forall d | d in ds :: Clean(d)
    ensures |SplitWhitespace(Spaced(ds))| == |ds| && forall i | 0 <= i < |ds| :: SplitWhitespace(Spaced(ds))[i] == ds[i] + ".gz"
  {
    hide IsWhitespace;
    if ds != [] {
      var front, word := ds[..|ds|-1], ds[|ds|-1] + ".gz";
      SpacedWords(front);
      Space();
      SplitAt(Spaced(front), ' ', word);
      assert ds[|ds|-1] in ds;
      OneWord(word);
      assert Spaced(ds) == Spaced(front) + [' '] + word;
    }
  }

  lemma Space()
    ensures IsWhitespace(' ') && !IsWhitespace('.') && !IsWhitespace('g') && !IsWhitespace('z') && !IsWhitespace('k') && !IsWhitespace('o')
  {
  }

  lemma {:induction false} StrippedAll(ps: seq<string>, ds: seq<string>)
    requires |ps| == |ds| && forall i | 0 <= i < |ds| :: ps[i] == ds[i] + ".gz"
    ensures StripAll(ps) == ds
  {
    if ps != [] {
      StripGzOf(ds[0]);
      StrippedAll(ps[1..], ds[1..]);
    }
  }

  lemma TrimClean(s: string)
    requires Clean(s)
    ensures Trim(s) == s
  {
  }

  /** Such a line is about the uncompressed path and lists the uncompressed dependencies. */
  lemma DepLineSays(path: string, ds: seq<string>)
    requires Clean(path) && forall d | d in ds :: Clean(d)
    ensures PathOf(DepLine(path, ds)) == Some(path) && ListedIn(DepLine(path, ds)) == ds
  {
    hide IsWhitespace, StripGz, StripAll, SplitWhitespace, Spaced, Trim;
    var (p, line) := (path + ".gz", DepLine(path, ds));
    Space();
    assert Clean(p);
    IndexOfFirst(p, ':', Spaced(ds));
    assert line == p + [':'] + Spaced(ds) && line[..|p|] == p && line[|p|+1..] == Spaced(ds);
    TrimClean(p);
    StripGzOf(path);
    SpacedWords(ds);
    StrippedAll(SplitWhitespace(Spaced(ds)), ds);
  }

  /**
   A line of a real table does what it should: with "dir/base.ko.gz: d.ko.gz ..." as the last
   line about that path and that name, `base` in either spelling stands for "dir/base.ko", and a
   closure of it holds the path and, before it, each dependency off its cycles.
   */
  lemma NamedModuleResolves(text: string, i: nat, dir: string, base: string, ds: seq<string>, root: string, out: seq<string>)
    requires '/' !in base && !EndsWith(base, ".ko") && Clean(dir) && Clean(base) && forall d | d in ds :: Clean(d)
    requires var (lines, path) := (Lines(text), dir + "/" + (base + ".ko"));
      && i < |lines| && lines[i] == DepLine(path, ds)
      && (forall j | i < j < |lines| :: PathOf(lines[j]) != Some(path) && !Names(lines[j], Underscored(base)))
    requires Underscored(root) == Underscored(base)
    ensures var (m, path) := (IndexLines(Lines(text)), dir + "/" + (base + ".ko"));
      && Declared(m, root) && m.byName[Underscored(root)] == path
      && (IsClosure(m, [root], out) ==>
            && path in out
            && forall d | d in ds :: d in out && (Reach(Needs(m.deps), d, path) || Before(out, d, path)))
  {
    hide Lines, IndexLines, PathOf, ListedIn, ModuleName, DepLine, EndsWith, Clean;
    var (lines, path, m) := (Lines(text), dir + "/" + (base + ".ko"), IndexLines(Lines(text)));
    CleanPath(dir, base);
    DepLineSays(path, ds);
    ModuleNameOf(dir, base);
    IndexHoldsLastLines(lines);
    assert LastOfPath(lines, i, path) && LastOfName(lines, i, Underscored(base));
    if IsClosure(m, [root], out) {
      hide LastLinesWin;
      ClosureHoldsDeps(m, root, path, ds, out);
    }
  }

  lemma CleanPath(dir: string, base: string)
    requires Clean(dir) && Clean(base)
    ensures Clean(dir + "/" + (base + ".ko"))
  {
    Space();
  }

  lemma ClosureHoldsDeps(m: Index, root: string, path: string, ds: seq<string>, out: seq<string>)
    requires Declared(m, root) && m.byName[Underscored(root)] == path && path in m.deps && m.deps[path] == ds
    requires IsClosure(m, [root], out)
    ensures path in out && forall d | d in ds :: d in out && (Reach(Needs(m.deps), d, path) || Before(out, d, path))
  {
    var g := Needs(m.deps);
    ReachSelf(g, path);
    assert [root][0] == root && ReachedFrom(m, [root], path);
    forall d | d in ds ensures d in out && (Reach(g, d, path) || Before(out, d, path)) {
      assert (path, d) in g;
      ReachStep(g, path, path, d);
      assert ReachedFrom(m, [root], d);
    }
  }

  /** The smallest real table: one module and a dependency without a line of its own. */
  lemma OneLineTable(dir: string, base: string, d: string, out: seq<string>)
    requires '/' !in base && !EndsWith(base, ".ko") && Clean(dir) && Clean(base) && Clean(d)
    requires d != dir + "/" + (base + ".ko")
    requires IsClosure(IndexLines(Lines(DepLine(dir + "/" + (base + ".ko"), [d]) + "\n")), [base], out)
    ensures out == [d, dir + "/" + (base + ".ko")]
  {
    hide Lines, IndexLines, PathOf, ListedIn, DepLine, EndsWith, Clean, ModuleName;
    var (path, line) := (dir + "/" + (base + ".ko"), DepLine(dir + "/" + (base + ".ko"), [d]));
    CleanPath(dir, base);
    LineIsOne(path, d);
    DepLineSays(path, [d]);
    ModuleNameOf(dir, base);
    LoneLine(line);
    var m := IndexLines(Lines(line + "\n"));
    assert m == Index(map[path := [d]], map[Underscored(base) := path]);
    LoneEdge(m, base, path, d, out);
  }

  lemma LineIsOne(path: string, d: string)
    requires Clean(path) && Clean(d)
    ensures var line := DepLine(path, [d]); '\n' !in line && line[|line|-1] == 'z' && Lines(line + "\n") == [line]
  {
    hide Lines;
    Breaks();
    var line := DepLine(path, [d]);
    assert [d][..0] == [];
    assert Spaced([d]) == "" + " " + (d + ".gz");
    assert line == path + ".gz" + ":" + ("" + " " + (d + ".gz"));
    LinesCons(line, "");
    assert line + "\n" + "" == line + "\n";
    assert Lines("") == [] by { NoLines(); }
  }

  lemma Breaks()
    ensures IsWhitespace('\n') && IsWhitespace('\r')
  {
  }

  lemma LoneLine(line: string)
    requires Lines(line + "\n") == [line]
    ensures IndexLines(Lines(line + "\n")) == AddLine(Index(map[], map[]), line)
  {
    assert [line][..0] == [];
  }

  lemma LoneEdge(m: Index, root: string, path: string, d: string, out: seq<string>)
    requires m.deps == map[path := [d]] && Declared(m, root) && m.byName[Underscored(root)] == path && d != path
    requires IsClosure(m, [root], out)
    ensures out == [d, path]
  {
    var g := Needs(m.deps);
    assert g == {(path, d)};
    ClosureHoldsDeps(m, root, path, [d], out);
    forall q | q in out ensures q == path || q == d {
      var i :| 0 <= i < |[root]| && Declared(m, [root][i]) && Reach(g, m.byName[Underscored([root][i])], q);
      var p :| PathFrom(g, p, path, q);
      ClosedUnderPath(g, {path, d}, p);
    }
    if Reach(g, d, path) {
      var p :| PathFrom(g, p, d, path);
      ClosedUnderPath(g, {d}, p);
    }
    TwoInOrder(out, d, path);
  }

  lemma TwoInOrder(out: seq<string>, a: string, b: string)
    requires NoDuplicates(out) && (forall q | q in out :: q == a || q == b) && a != b && Before(out, a, b)
    ensures out == [a, b]
  {
    assert out[0] in out && out[1] in out;
    assert out[..2] == [a, b];
    AllShort(out, {a, b});
  }

  lemma AllShort(out: seq<string>, s: set<string>)
    requires NoDuplicates(out) && forall q | q in out :: q in s
    ensures |out| <= |s|
  {
    if out != [] {
      var last := out[|out|-1];
      assert last in out;
      AllShort(out[..|out|-1], s - {last});
    }
  }

  // ------------------------------------------------------------ the documented order

  /** What the documentation promises: every dependency of an emitted path is emitted before it. */
  ghost predicate FullyOrdered(deps: map<string, seq<string>>, out: seq<string>) {
    forall p, d | p in out && (p, d) in Needs(deps) :: Before(out, d, p)
  }

  ghost predicate OnCycle(deps: map<string, seq<string>>, p: string) {
    exists d :: (p, d) in Needs(deps) && Reach(Needs(deps), d, p)
  }

  /** A path that starts in a closed set uses only edges that start in it. */
  lemma {:induction false} PathInside(g: Edges<string>, inside: set<string>, p: seq<string>)
    requires IsPath(g, p) && p[0] in inside && forall e | e in g && e.0 in inside :: e.1 in inside
    ensures IsPath((set e | e in g && e.0 in inside), p)
    decreases |p|
  {
    var g' := set e | e in g && e.0 in inside;
    if |p| > 1 {
      var front := p[..|p|-1];
      assert IsPath(g, front);
      PathInside(g, inside, front);
      ClosedUnderPath(g, inside, front);
      assert (front[|front|-1], p[|p|-1]) in g';
      PathSnoc(g', front, p[|p|-1]);
      assert p == front + [p[|p|-1]];
    }
  }

  /** An order that puts every dependency first leaves no emitted path on a cycle. */
  lemma OrderedMeansNoCycle(deps: map<string, seq<string>>, out: seq<string>, p: string)
    requires NoDuplicates(out) && FullyOrdered(deps, out) && p in out
    requires forall q, d | q in out && (q, d) in Needs(deps) :: d in out
    ensures !OnCycle(deps, p)
  {
    var g, inside := Needs(deps), set x | x in out;
    var g' := set e | e in g && e.0 in inside;
    if OnCycle(deps, p) {
      var d :| (p, d) in g && Reach(g, d, p);
      var path :| PathFrom(g, path, d, p);
      PathInside(g, inside, path);
      assert PathFrom(g', path, d, p) && (p, d) in g';
      StepAndBackIsCycle(g', p, d);
      SuccessorsFirstIsAcyclic(g', out);
    }
  }

  lemma ClosureIsClosed(m: Index, roots: seq<string>, out: seq<string>)
    requires IsClosure(m, roots, out)
    ensures forall q, d | q in out && (q, d) in Needs(m.deps) :: d in out
  {
    hide Needs, Underscored, Reach;
    forall q, d | q in out && (q, d) in Needs(m.deps) ensures d in out {
      var i :| 0 <= i < |roots| && Declared(m, roots[i]) && Reach(Needs(m.deps), m.byName[Underscored(roots[i])], q);
      ReachStep(Needs(m.deps), m.byName[Underscored(roots[i])], q, d);
    }
  }

  /** The documented order holds iff no cycle passes through a path the roots reach. */
  lemma FullyOrderedIff(m: Index, roots: seq<string>, out: seq<string>)
    requires IsClosure(m, roots, out)
    ensures FullyOrdered(m.deps, out) <==> forall p | ReachedFrom(m, roots, p) :: !OnCycle(m.deps, p)
  {
    hide Needs, Reach, ReachedFrom;
    ClosureIsClosed(m, roots, out);
    if FullyOrdered(m.deps, out) {
      forall p | ReachedFrom(m, roots, p) ensures !OnCycle(m.deps, p) {
        OrderedMeansNoCycle(m.deps, out, p);
      }
    } else {
      var p, d :| p in out && (p, d) in Needs(m.deps) && !Before(out, d, p);
      assert Reach(Needs(m.deps), d, p);
      assert OnCycle(m.deps, p);
    }
  }

  /** A character that stands for itself everywhere in a table. */
  predicate Plain(c: char) {
    !IsWhitespace(c) && c != ':' && c != '/' && c != '-' && c != '\n' && c != '\r'
  }

  lemma OneLetter(c: char)
    requires Plain(c)
    ensures Trim([c]) == [c] && StripGz([c]) == [c] && ModuleName([c]) == [c]
    ensures SplitWhitespace([c]) == [[c]] && StripAll([[c]]) == [[c]]
  {
    hide IsWhitespace;
    assert [c][1..] == [] && [c][..1] == [c];
    assert WordLength([c]) == 1;
    assert IndexOf([c], '/') == 1;
  }

  /** What the line "p:d" says. */
  lemma OneLine(p: char, d: char)
    requires Plain(p) && Plain(d)
    ensures PathOf([p, ':', d]) == Some([p]) && ListedIn([p, ':', d]) == [[d]]
  {
    hide IsWhitespace, Trim, StripGz, StripAll, SplitWhitespace, ModuleName;
    var line := [p, ':', d];
    OneLetter(p);
    OneLetter(d);
    assert IndexOf(line, ':') == 1 && line[..1] == [p] && line[2..] == [d];
  }

  lemma {:induction false} FirstLine(p: char, d: char, rest: string)
    requires Plain(p) && Plain(d)
    ensures Lines([p, ':', d, '\n'] + rest) == [[p, ':', d]] + Lines(rest)
  {
    hide IsWhitespace;
    var line, t := [p, ':', d], [p, ':', d, '\n'] + rest;
    assert t[1..] == [':', d, '\n'] + rest && t[1..][1..] == [d, '\n'] + rest && t[1..][1..][1..] == ['\n'] + rest;
    assert IndexOf(t[1..][1..][1..], '\n') == 0;
    assert IndexOf(t[1..][1..], '\n') == 1;
    assert IndexOf(t[1..], '\n') == 2;
    assert IndexOf(t, '\n') == 3;
    assert t[..3] == line && t[4..] == rest;
  }

  /** The smallest table on which the promise fails: two modules that need each other. */
  function CyclicTable(a: char, b: char): string {
    [a, ':', b, '\n'] + [b, ':', a, '\n']
  }

  lemma CyclicIndex(a: char, b: char)
    requires Plain(a) && Plain(b) && a != b
    ensures IndexLines(Lines(CyclicTable(a, b))) == Index(map[[a] := [[b]], [b] := [[a]]], map[[a] := [a], [b] := [b]])
  {
    hide Plain, PathOf, ListedIn, ModuleName;
    var (l1, l2) := ([a, ':', b], [b, ':', a]);
    FirstLine(a, b, [b, ':', a, '\n']);
    FirstLine(b, a, []);
    assert [b, ':', a, '\n'] + [] == [b, ':', a, '\n'];
    var lines := [l1, l2];
    assert Lines(CyclicTable(a, b)) == lines && lines[..1] == [l1] && lines[..1][..0] == [];
    OneLine(a, b);
    OneLine(b, a);
    OneLetter(a);
    OneLetter(b);
    assert [a][0] != [b][0];
    var m1 := AddLine(Index(map[], map[]), l1);
    assert m1 == Index(map[[a] := [[b]]], map[[a] := [a]]);
    assert IndexLines(lines[..1]) == m1;
    assert IndexLines(lines) == AddLine(m1, l2);
  }

  /** Whichever of the two comes first, it comes before its dependency. */
  lemma CyclicTableUnordered(a: char, b: char, out: seq<string>)
    requires Plain(a) && Plain(b) && a != b && IsClosure(IndexLines(Lines(CyclicTable(a, b))), [[a]], out)
    ensures !FullyOrdered(IndexLines(Lines(CyclicTable(a, b))).deps, out)
  {
    hide CyclicTable, IndexLines, Lines, IsClosure;
    CyclicIndex(a, b);
    var m := IndexLines(Lines(CyclicTable(a, b)));
    var g := Needs(m.deps);
    assert [a] in m.deps && [b] in m.deps[[a]] && [b] in m.deps && [a] in m.deps[[b]];
    assert ([a], [b]) in g && ([b], [a]) in g;
    ReachSelf(g, [a]);
    ReachSelf(g, [b]);
    ReachStep(g, [b], [b], [a]);
    assert Underscored([a]) == [a];
    assert [[a]][0] == [a];
    assert ReachedFrom(m, [[a]], [a]) && OnCycle(m.deps, [a]);
    FullyOrderedIff(m, [[a]], out);
  }
}
