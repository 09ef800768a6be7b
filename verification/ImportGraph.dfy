/** Reachability in a graph given by successor lists, and the breadth-first walk that computes it. */
module Reachability {
  import opened Basics
  import opened CodeUnits

  type Path = Source

  type Edges = map<Path, seq<Path>>

  function Successors(edges: Edges, n: Path): seq<Path> { if n in edges then edges[n] else [] }

  predicate IsWalk(edges: Edges, p: seq<Path>) {
    forall k :: 0 <= k < |p| - 1 ==> p[k + 1] in Successors(edges, p[k])
  }

  // b can be reached from a in one step or more.
  ghost predicate Reaches(edges: Edges, a: Path, b: Path) {
    exists p: seq<Path> :: |p| >= 2 && p[0] == a && p[|p| - 1] == b && IsWalk(edges, p)
  }

  ghost predicate Transposed(edges: Edges, back: Edges) {
    forall a, b :: b in Successors(edges, a) <==> a in Successors(back, b)
  }

  lemma ReachesStep(edges: Edges, a: Path, b: Path)
    requires b in Successors(edges, a)
    ensures Reaches(edges, a, b)
  {
    var p := [a, b];
    assert IsWalk(edges, p);
  }

  lemma ReachesThen(edges: Edges, a: Path, b: Path, c: Path)
    requires Reaches(edges, a, b) && c in Successors(edges, b)
    ensures Reaches(edges, a, c)
  {
    var p: seq<Path> :| |p| >= 2 && p[0] == a && p[|p| - 1] == b && IsWalk(edges, p);
    assert IsWalk(edges, p + [c]);
  }

  lemma ReachesReversed(edges: Edges, back: Edges, a: Path, b: Path)
    requires Transposed(edges, back) && Reaches(edges, a, b)
    ensures Reaches(back, b, a)
  {
    var p: seq<Path> :| |p| >= 2 && p[0] == a && p[|p| - 1] == b && IsWalk(edges, p);
    var q := seq(|p|, k requires 0 <= k < |p| => p[|p| - 1 - k]);
    forall k | 0 <= k < |q| - 1
      ensures q[k + 1] in Successors(back, q[k])
    {
      var j := |p| - 2 - k;
      assert p[j + 1] in Successors(edges, p[j]);
    }
    assert IsWalk(back, q);
  }

  // A set closed under successors holds the end of every walk that starts in it.
  lemma {:induction false} ClosedSetsHoldWalks(edges: Edges, inside: set<Path>, p: seq<Path>, k: nat)
    requires k < |p| && p[0] in inside && IsWalk(edges, p)
    requires forall n :: n in inside ==> forall m :: m in Successors(edges, n) ==> m in inside
    ensures p[k] in inside
    decreases k
  {
    if k > 0 {
      ClosedSetsHoldWalks(edges, inside, p, k - 1);
      assert p[k - 1 + 1] in Successors(edges, p[k - 1]);
    }
  }

  // ---- the walk ----

  ghost function Targets(edges: Edges): set<Path> {
    set n, m | n in edges && m in edges[n] :: m
  }

  lemma {:induction false} NoRepeatsFit(xs: seq<Path>, all: set<Path>)
    requires NoRepeats(xs) && forall x :: x in xs ==> x in all
    ensures |xs| <= |all|
    decreases |xs|
  {
    if xs != [] {
      var n := |xs| - 1;
      assert forall x :: x in xs[..n] ==> x in all - {xs[n]};
      NoRepeatsFit(xs[..n], all - {xs[n]});
    }
  }

  // What the queue holds while the walk runs: nodes other than the start, each once, each reachable.
  ghost predicate Queued(edges: Edges, start: Path, queue: seq<Path>) {
    && NoRepeats(queue)
    && (forall x :: x in queue ==> x != start && x in Targets(edges) && Reaches(edges, start, x))
  }

  // Enqueues the successors of one node that have not been seen.
  method Enqueue(edges: Edges, start: Path, current: Path, queue0: seq<Path>) returns (queue: seq<Path>)
    requires Queued(edges, start, queue0)
    requires current == start || Reaches(edges, start, current)
    ensures Queued(edges, start, queue) && queue0 <= queue
    ensures forall m :: m in Successors(edges, current) ==> m in queue || m == start
  {
    queue := queue0;
    var next := Successors(edges, current);
    for i := 0 to |next|
      invariant Queued(edges, start, queue) && queue0 <= queue
      invariant forall m :: m in next[..i] ==> m in queue || m == start
    {
      assert next[..i + 1] == next[..i] + [next[i]];
      if next[i] == start || next[i] in queue { continue; }
      assert next[i] in Targets(edges) && Reaches(edges, start, next[i]) by {
        if current == start { ReachesStep(edges, start, next[i]); } else { ReachesThen(edges, start, current, next[i]); }
      }
      queue := queue + [next[i]];
    }
    assert next[..|next|] == next;
  }

  // Every node reachable from the start, except the start itself. The queue is also the set of nodes
  // seen, in the order in which they were first seen.
  method CollectReachable(edges: Edges, start: Path) returns (queue: seq<Path>)
    ensures NoRepeats(queue)
    ensures forall x :: x in queue <==> x != start && Reaches(edges, start, x)
  {
    hide Reaches;
    assert Queued(edges, start, []);
    queue := Enqueue(edges, start, start, []);
    var head := 0;
    while head < |queue|
      invariant head <= |queue| && Queued(edges, start, queue)
      invariant forall n, m :: (n == start || n in queue[..head]) && m in Successors(edges, n) ==> m in queue || m == start
      decreases |Targets(edges)| - head
    {
      NoRepeatsFit(queue, Targets(edges));
      var before := queue;
      queue := Enqueue(edges, start, queue[head], queue);
      assert queue[..head + 1] == before[..head] + [before[head]];
      assert forall m :: m in before ==> m in queue by { assert queue[..|before|] == before; }
      head := head + 1;
    }
    assert queue[..head] == queue;
    forall x | x != start && Reaches(edges, start, x)
      ensures x in queue
    {
      ReachedIsInside(edges, start, queue, x);
    }
  }

  lemma ReachedIsInside(edges: Edges, start: Path, queue: seq<Path>, x: Path)
    requires forall n, m :: (n == start || n in queue) && m in Successors(edges, n) ==> m in queue || m == start
    requires Reaches(edges, start, x) && x != start
    ensures x in queue
  {
    var p: seq<Path> :| |p| >= 2 && p[0] == start && p[|p| - 1] == x && IsWalk(edges, p);
    var inside := (set n | n in queue) + {start};
    ClosedSetsHoldWalks(edges, inside, p, |p| - 1);
  }
}

/** The order in which JavaScript sorts strings. */
module StringOrder {
  import opened Basics
  import opened CodeUnits

  // Code unit by code unit; a proper prefix comes first.
  predicate AtMost(a: Source, b: Source) {
    a == [] || (b != [] && (a[0] < b[0] || (a[0] == b[0] && AtMost(a[1..], b[1..]))))
  }

  lemma {:induction false} AtMostIsAnOrder(a: Source, b: Source, c: Source)
    ensures AtMost(a, a) && (AtMost(a, b) || AtMost(b, a))
    ensures AtMost(a, b) && AtMost(b, a) ==> a == b
    ensures AtMost(a, b) && AtMost(b, c) ==> AtMost(a, c)
    decreases |a| + |b| + |c|
  {
    if a != [] {
      assert a == [a[0]] + a[1..];
      if b != [] {
        assert b == [b[0]] + b[1..];
        AtMostIsAnOrder(a[1..], b[1..], if c == [] then [] else c[1..]);
      } else {
        AtMostIsAnOrder(a[1..], [], []);
      }
    }
  }

  // The texts first differ at unit k, and there a is smaller.
  predicate SmallerAt(a: Source, b: Source, k: nat) { k < |a| && k < |b| && a[..k] == b[..k] && a[k] < b[k] }

  lemma SmallerInFront(a: Source, b: Source, k: nat)
    requires a != [] && b != [] && a[0] == b[0]
    ensures SmallerAt(a, b, k + 1) <==> SmallerAt(a[1..], b[1..], k)
  {
    if k < |a[1..]| && k < |b[1..]| {
      assert a[..k + 1] == [a[0]] + a[1..][..k] && b[..k + 1] == [b[0]] + b[1..][..k];
      assert a[..k + 1][1..] == a[1..][..k] && b[..k + 1][1..] == b[1..][..k];
    }
  }

  // The order is that of the first unit in which the texts differ; a beginning comes first.
  lemma {:induction false} AtMostIsLexicographic(a: Source, b: Source)
    ensures AtMost(a, b) <==> a <= b || exists k: nat :: SmallerAt(a, b, k)
    decreases |a|
  {
    if a != [] && b != [] {
      AtMostIsLexicographic(a[1..], b[1..]);
      assert SmallerAt(a, b, 0) <==> a[0] < b[0];
      if a[0] == b[0] {
        assert a <= b <==> a[1..] <= b[1..];
        hide SmallerAt;
        if k: nat :| SmallerAt(a, b, k) { SmallerInFront(a, b, k - 1); }
        if k: nat :| SmallerAt(a[1..], b[1..], k) { SmallerInFront(a, b, k); }
      } else {
        assert forall k: nat :: SmallerAt(a, b, k) && k > 0 ==> a[..k][0] == b[..k][0];
      }
    }
  }

  predicate Sorted(xs: seq<Source>) {
    forall j, k :: 0 <= j < k < |xs| ==> AtMost(xs[j], xs[k])
  }

  function Insert(x: Source, sorted: seq<Source>): (r: seq<Source>)
    ensures multiset(r) == multiset(sorted) + multiset{x}
  {
    if sorted == [] || AtMost(x, sorted[0]) then [x] + sorted
    else
      assert sorted == [sorted[0]] + sorted[1..];
      [sorted[0]] + Insert(x, sorted[1..])
  }

  function Sort(xs: seq<Source>): (r: seq<Source>)
    ensures multiset(r) == multiset(xs)
  {
    if xs == [] then []
    else
      assert xs == [xs[0]] + xs[1..];
      Insert(xs[0], Sort(xs[1..]))
  }

  lemma {:induction false} InsertSorts(x: Source, sorted: seq<Source>)
    requires Sorted(sorted)
    ensures Sorted(Insert(x, sorted))
  {
    if sorted != [] {
      AtMostIsAnOrder(x, sorted[0], sorted[0]);
      if AtMost(x, sorted[0]) {
        forall k | 0 <= k < |sorted|
          ensures AtMost(x, sorted[k])
        {
          AtMostIsAnOrder(x, sorted[0], sorted[k]);
        }
      } else {
        InsertSorts(x, sorted[1..]);
        var rest := Insert(x, sorted[1..]);
        forall k | 0 <= k < |rest|
          ensures AtMost(sorted[0], rest[k])
        {
          assert rest[k] in multiset(rest);
        }
      }
    }
  }

  lemma {:induction false} SortSorts(xs: seq<Source>)
    ensures Sorted(Sort(xs))
    ensures forall x :: x in Sort(xs) <==> x in xs
    ensures |Sort(xs)| == |xs|
  {
    if xs != [] {
      SortSorts(xs[1..]);
      InsertSorts(xs[0], Sort(xs[1..]));
    }
    assert |multiset(Sort(xs))| == |multiset(xs)|;
    forall x
      ensures x in Sort(xs) <==> x in xs
    {
      assert x in multiset(Sort(xs)) <==> x in multiset(xs);
    }
  }

  lemma {:induction false} InsertKeepsNoRepeats(x: Source, sorted: seq<Source>)
    requires NoRepeats(sorted) && x !in sorted
    ensures NoRepeats(Insert(x, sorted))
  {
    if sorted != [] && !AtMost(x, sorted[0]) {
      InsertKeepsNoRepeats(x, sorted[1..]);
      var rest := Insert(x, sorted[1..]);
      assert sorted[0] !in sorted[1..];
      assert forall y :: y in rest <==> y in multiset(rest);
      assert sorted[0] !in rest;
    }
  }

  lemma {:induction false} SortKeepsNoRepeats(xs: seq<Source>)
    requires NoRepeats(xs)
    ensures NoRepeats(Sort(xs))
  {
    if xs != [] {
      SortKeepsNoRepeats(xs[1..]);
      SortSorts(xs[1..]);
      assert xs[0] !in xs[1..];
      InsertKeepsNoRepeats(xs[0], Sort(xs[1..]));
    }
  }

  // A sorted list without repeats is determined by its elements.
  lemma {:induction false} SortedIsUnique(xs: seq<Source>, ys: seq<Source>)
    requires Sorted(xs) && Sorted(ys) && NoRepeats(xs) && NoRepeats(ys)
    requires forall x :: x in xs <==> x in ys
    ensures xs == ys
    decreases |xs|
  {
    if xs == [] {
      assert forall k :: 0 <= k < |ys| ==> ys[k] in ys;
    } else {
      assert xs[0] in ys && xs[0] in xs;
      assert ys[0] in xs && ys[0] in ys;
      AtMostIsAnOrder(xs[0], ys[0], ys[0]);
      assert AtMost(xs[0], ys[0]) && AtMost(ys[0], xs[0]);
      assert xs == [xs[0]] + xs[1..] && ys == [ys[0]] + ys[1..];
      forall x
        ensures x in xs[1..] <==> x in ys[1..]
      {
        assert x in xs[1..] <==> x in xs && x != xs[0];
        assert x in ys[1..] <==> x in ys && x != ys[0];
      }
      SortedIsUnique(xs[1..], ys[1..]);
    }
  }
}

/** Building the import graph, and the queries over it. */
module ImportGraphs {
  import opened Basics
  import opened CodeUnits
  import opened Reachability
  import Order = StringOrder

  // A source file as read: its path, the module name it declares, if any, and the names it imports.
  datatype AgdaModule = AgdaModule(relativePath: Path, moduleName: Option<Source>, importedNames: seq<Source>)

  datatype ImportGraph = ImportGraph(
    modules: map<Path, AgdaModule>, moduleNameToFile: map<Source, Path>, imports: Edges, importedBy: Edges)

  // The module a path stands for: the last one read under it.
  function ModuleAt(files: seq<AgdaModule>, path: Path): Option<AgdaModule> {
    if files == [] then None
    else if files[|files| - 1].relativePath == path then Some(files[|files| - 1])
    else ModuleAt(files[..|files| - 1], path)
  }

  // The file of a module name: the first one that declares it.
  function FileOf(files: seq<AgdaModule>, name: Source): Option<Path> {
    if files == [] then None
    else
      var before, f := FileOf(files[..|files| - 1], name), files[|files| - 1];
      if before.Some? then before
      else if f.moduleName == Some(name) then Some(f.relativePath)
      else None
  }

  // x imports y: one of the names x imports is a module of the project, and y is its file.
  // A path stands for the last file of that path.
  lemma {:induction false} ModuleAtIsLast(files: seq<AgdaModule>, path: Path, f: AgdaModule)
    ensures ModuleAt(files, path) == Some(f) <==>
            exists k :: 0 <= k < |files| && files[k] == f && f.relativePath == path && NotBehind(files, k, path)
    decreases |files|
  {
    if files != [] {
      var n := |files| - 1;
      ModuleAtIsLast(files[..n], path, f);
      if files[n].relativePath == path {
        assert forall k :: 0 <= k < n ==> !NotBehind(files, k, path);
        assert NotBehind(files, n, path);
      } else {
        forall k | 0 <= k < n
          ensures NotBehind(files, k, path) <==> NotBehind(files[..n], k, path)
          ensures files[..n][k] == files[k]
        {
        }
      }
    }
  }

  predicate NotBehind(files: seq<AgdaModule>, k: nat, path: Path) {
    forall l :: k < l < |files| ==> files[l].relativePath != path
  }

  // A module name stands for the first file that declares it.
  lemma {:induction false} FileOfIsFirst(files: seq<AgdaModule>, name: Source, path: Path)
    ensures FileOf(files, name) == Some(path) <==>
            exists k :: 0 <= k < |files| && DeclaresFirst(files, k, name) && files[k].relativePath == path
    decreases |files|
  {
    if files != [] {
      var n := |files| - 1;
      FileOfIsFirst(files[..n], name, path);
      FileOfFinds(files[..n], name);
      assert forall k :: 0 <= k < n ==> files[..n][k] == files[k];
      assert forall k :: 0 <= k < n ==> (DeclaresFirst(files, k, name) <==> DeclaresFirst(files[..n], k, name));
    }
  }

  predicate DeclaresFirst(files: seq<AgdaModule>, k: nat, name: Source)
    requires k < |files|
  {
    files[k].moduleName == Some(name) && forall j :: 0 <= j < k ==> files[j].moduleName != Some(name)
  }

  lemma {:induction false} FileOfFinds(files: seq<AgdaModule>, name: Source)
    ensures FileOf(files, name).Some? <==> exists k :: 0 <= k < |files| && files[k].moduleName == Some(name)
    decreases |files|
  {
    if files != [] {
      var n := |files| - 1;
      FileOfFinds(files[..n], name);
      assert forall k :: 0 <= k < n ==> files[..n][k] == files[k];
    }
  }

  ghost predicate Imports(files: seq<AgdaModule>, x: Path, y: Path) {
    ModuleAt(files, x).Some? &&
    exists name :: name in ModuleAt(files, x).value.importedNames && FileOf(files, name) == Some(y)
  }

  lemma {:induction false} FileOfIsAModule(files: seq<AgdaModule>, name: Source)
    ensures FileOf(files, name).Some? ==> ModuleAt(files, FileOf(files, name).value).Some?
  {
    if files != [] { FileOfIsAModule(files[..|files| - 1], name); }
  }

  // The graph says what the files say, in both directions, and repeats nothing.
  ghost predicate Faithful(g: ImportGraph, files: seq<AgdaModule>) {
    && (forall x :: x in g.modules <==> ModuleAt(files, x).Some?)
    && (forall x :: x in g.modules ==> ModuleAt(files, x) == Some(g.modules[x]))
    && g.imports.Keys == g.modules.Keys == g.importedBy.Keys
    && (forall x, y :: y in Successors(g.imports, x) <==> Imports(files, x, y))
    && (forall x, y :: x in Successors(g.importedBy, y) <==> Imports(files, x, y))
    && (forall x :: NoRepeats(Successors(g.imports, x)) && NoRepeats(Successors(g.importedBy, x)))
  }

  lemma FaithfulIsTransposed(g: ImportGraph, files: seq<AgdaModule>)
    requires Faithful(g, files)
    ensures Transposed(g.imports, g.importedBy)
  {
  }

  // First pass: modules by path in reading order, and module names by their first file.
  method ReadModules(files: seq<AgdaModule>)
    returns (order: seq<Path>, modules: map<Path, AgdaModule>, moduleNameToFile: map<Source, Path>)
    ensures NoRepeats(order) && (forall x :: x in order <==> x in modules)
    ensures forall x :: x in modules <==> ModuleAt(files, x).Some?
    ensures forall x :: x in modules ==> ModuleAt(files, x) == Some(modules[x])
    ensures forall n :: n in moduleNameToFile <==> FileOf(files, n).Some?
    ensures forall n :: n in moduleNameToFile ==> FileOf(files, n) == Some(moduleNameToFile[n])
  {
    order, modules, moduleNameToFile := [], map[], map[];
    for i := 0 to |files|
      invariant NoRepeats(order) && (forall x :: x in order <==> x in modules)
      invariant forall x :: x in modules <==> ModuleAt(files[..i], x).Some?
      invariant forall x :: x in modules ==> ModuleAt(files[..i], x) == Some(modules[x])
      invariant forall n :: n in moduleNameToFile <==> FileOf(files[..i], n).Some?
      invariant forall n :: n in moduleNameToFile ==> FileOf(files[..i], n) == Some(moduleNameToFile[n])
    {
      assert files[..i + 1][..i] == files[..i];
      var f := files[i];
      if f.relativePath !in modules { order := order + [f.relativePath]; }
      modules := modules[f.relativePath := f];
      if f.moduleName.Some? && f.moduleName.value !in moduleNameToFile {
        moduleNameToFile := moduleNameToFile[f.moduleName.value := f.relativePath];
      }
    }
    assert files[..|files|] == files;
  }

  function Resolve(names: map<Source, Path>, name: Source): Option<Path> {
    if name in names then Some(names[name]) else None
  }

  // The files a list of imported names resolves to.
  ghost predicate Resolves(names: map<Source, Path>, imported: seq<Source>, y: Path) {
    exists n :: n in imported && Resolve(names, n) == Some(y)
  }

  // The targets of one file's imports, each once, in the order of the names.
  method ImportTargets(names: map<Source, Path>, imported: seq<Source>) returns (targets: seq<Path>)
    ensures NoRepeats(targets)
    ensures forall y :: y in targets <==> Resolves(names, imported, y)
  {
    targets := [];
    for i := 0 to |imported|
      invariant NoRepeats(targets)
      invariant forall y :: y in targets <==> Resolves(names, imported[..i], y)
    {
      ghost var before := targets;
      var name := imported[i];
      if name in names && names[name] !in targets { targets := targets + [names[name]]; }
      forall y
        ensures y in targets <==> Resolves(names, imported[..i + 1], y)
      {
        ResolvesOneMore(names, imported, i, y);
        assert name in names ==> names[name] in targets;
      }
    }
    assert imported[..|imported|] == imported;
  }

  lemma ResolvesOneMore(names: map<Source, Path>, imported: seq<Source>, i: nat, y: Path)
    requires i < |imported|
    ensures Resolves(names, imported[..i + 1], y) <==>
            Resolves(names, imported[..i], y) || Resolve(names, imported[i]) == Some(y)
  {
    assert imported[..i + 1] == imported[..i] + [imported[i]];
    if Resolves(names, imported[..i], y) {
      var n :| n in imported[..i] && Resolve(names, n) == Some(y);
      assert n in imported[..i + 1];
    }
    assert imported[i] in imported[..i + 1];
  }

  // The reverse lists once the files before the i-th have been entered.
  ghost predicate Entered(imports: Edges, importedBy: Edges, order: seq<Path>, i: nat)
    requires i <= |order|
  {
    && (forall y :: y in importedBy ==> NoRepeats(importedBy[y]))
    && (forall x, y :: x in Successors(importedBy, y) <==> x in order[..i] && y in Successors(imports, x))
  }

  method PushAll(importedBy0: Edges, targets: seq<Path>, x: Path) returns (importedBy: Edges)
    requires NoRepeats(targets) && (forall y :: y in targets ==> y in importedBy0)
    requires forall y :: y in importedBy0 ==> x !in importedBy0[y] && NoRepeats(importedBy0[y])
    ensures importedBy.Keys == importedBy0.Keys
    ensures forall y :: y in importedBy ==>
              importedBy[y] == if y in targets then importedBy0[y] + [x] else importedBy0[y]
  {
    importedBy := importedBy0;
    for i := 0 to |targets|
      invariant importedBy.Keys == importedBy0.Keys
      invariant forall y :: y in importedBy ==>
                  importedBy[y] == if y in targets[..i] then importedBy0[y] + [x] else importedBy0[y]
    {
      assert targets[..i + 1] == targets[..i] + [targets[i]];
      assert targets[i] !in targets[..i];
      importedBy := importedBy[targets[i] := importedBy[targets[i]] + [x]];
    }
    assert targets[..|targets|] == targets;
  }

  // Second pass: one list of targets per file, and the reverse lists alongside.
  method CollectEdges(order: seq<Path>, modules: map<Path, AgdaModule>, names: map<Source, Path>)
    returns (imports: Edges, importedBy: Edges)
    requires NoRepeats(order) && (forall x :: x in order <==> x in modules)
    requires forall n :: n in names ==> names[n] in modules
    ensures imports.Keys == modules.Keys == importedBy.Keys
    ensures Listed(imports, modules, names, order)
    ensures Entered(imports, importedBy, order, |order|)
  {
    imports := map x | x in modules :: [];
    importedBy := map x | x in modules :: [];
    for i := 0 to |order|
      invariant imports.Keys == modules.Keys == importedBy.Keys
      invariant Listed(imports, modules, names, order[..i])
      invariant Entered(imports, importedBy, order, i)
    {
      hide Resolves, Listed, Entered;
      var x := order[i];
      var targets := ImportTargets(names, modules[x].importedNames);
      TargetsAreModules(names, modules, modules[x].importedNames, targets);
      NotYetEntered(imports, importedBy, order, i);
      var pushed := PushAll(importedBy, targets, x);
      EnteredOneMore(imports, importedBy, order, i, targets, pushed);
      ListedOneMore(imports, modules, names, order, i, targets);
      imports := imports[x := targets];
      importedBy := pushed;
    }
    assert order[..|order|] == order;
  }

  // The lists of these files are their imports, each once.
  ghost predicate Listed(imports: Edges, modules: map<Path, AgdaModule>, names: map<Source, Path>, xs: seq<Path>)
    requires imports.Keys == modules.Keys
  {
    forall x :: x in xs && x in modules ==>
      NoRepeats(imports[x]) && forall y :: y in imports[x] <==> Resolves(names, modules[x].importedNames, y)
  }

  lemma NotYetEntered(imports: Edges, importedBy: Edges, order: seq<Path>, i: nat)
    requires i < |order| && NoRepeats(order) && Entered(imports, importedBy, order, i)
    ensures forall y :: y in importedBy ==> order[i] !in importedBy[y] && NoRepeats(importedBy[y])
  {
    assert order[i] !in order[..i];
    assert forall y :: y in importedBy ==> importedBy[y] == Successors(importedBy, y);
  }

  lemma ListedOneMore(imports: Edges, modules: map<Path, AgdaModule>, names: map<Source, Path>, order: seq<Path>, i: nat,
                      targets: seq<Path>)
    requires imports.Keys == modules.Keys
    requires i < |order| && order[i] in modules && Listed(imports, modules, names, order[..i])
    requires NoRepeats(targets)
    requires forall y :: y in targets <==> Resolves(names, modules[order[i]].importedNames, y)
    ensures imports[order[i] := targets].Keys == modules.Keys
    ensures Listed(imports[order[i] := targets], modules, names, order[..i + 1])
  {
    assert order[..i + 1] == order[..i] + [order[i]];
    assert imports[order[i] := targets].Keys == imports.Keys + {order[i]};
  }

  lemma TargetsAreModules(names: map<Source, Path>, modules: map<Path, AgdaModule>, imported: seq<Source>, targets: seq<Path>)
    requires forall n :: n in names ==> names[n] in modules
    requires forall y :: y in targets <==> Resolves(names, imported, y)
    ensures forall y :: y in targets ==> y in modules
  {
    forall y | y in targets
      ensures y in modules
    {
      var n :| n in imported && Resolve(names, n) == Some(y);
    }
  }

  method BuildImportGraph(files: seq<AgdaModule>) returns (g: ImportGraph)
    ensures Faithful(g, files)
    ensures forall x :: Order.Sorted(Successors(g.imports, x)) && Order.Sorted(Successors(g.importedBy, x))
  {
    hide ModuleAt, FileOf, Listed, Entered, Faithful, Successors;
    var order, modules, names := ReadModules(files);
    forall n | n in names
      ensures names[n] in modules
    {
      FileOfIsAModule(files, n);
    }
    var imports, importedBy := CollectEdges(order, modules, names);
    var sortedImports: Edges := map x | x in imports :: Order.Sort(imports[x]);
    var sortedBy: Edges := map x | x in importedBy :: Order.Sort(importedBy[x]);
    g := ImportGraph(modules, names, sortedImports, sortedBy);
    SortedListsSaySame(imports, sortedImports);
    SortedListsSaySame(importedBy, sortedBy);
    EdgesAreImports(files, order, modules, names, imports, importedBy);
    SortedIsFaithful(g, files, imports, importedBy);
  }

  lemma SortedIsFaithful(g: ImportGraph, files: seq<AgdaModule>, imports: Edges, importedBy: Edges)
    requires forall x :: x in g.modules <==> ModuleAt(files, x).Some?
    requires forall x :: x in g.modules ==> ModuleAt(files, x) == Some(g.modules[x])
    requires g.imports.Keys == g.modules.Keys == g.importedBy.Keys
    requires forall x, y :: y in Successors(g.imports, x) <==> y in Successors(imports, x)
    requires forall x, y :: y in Successors(g.importedBy, x) <==> y in Successors(importedBy, x)
    requires forall x :: NoRepeats(Successors(g.imports, x)) && NoRepeats(Successors(g.importedBy, x))
    requires forall x, y :: y in Successors(imports, x) <==> Imports(files, x, y)
    requires forall x, y :: x in Successors(importedBy, y) <==> Imports(files, x, y)
    ensures Faithful(g, files)
  {
    hide ModuleAt, FileOf, Successors, Imports;
  }

  lemma EdgesAreImports(files: seq<AgdaModule>, order: seq<Path>, modules: map<Path, AgdaModule>,
                        names: map<Source, Path>, imports: Edges, importedBy: Edges)
    requires forall x :: x in order <==> x in modules
    requires forall x :: x in modules <==> ModuleAt(files, x).Some?
    requires forall x :: x in modules ==> ModuleAt(files, x) == Some(modules[x])
    requires forall n :: n in names <==> FileOf(files, n).Some?
    requires forall n :: n in names ==> FileOf(files, n) == Some(names[n])
    requires imports.Keys == modules.Keys == importedBy.Keys
    requires Listed(imports, modules, names, order)
    requires Entered(imports, importedBy, order, |order|)
    ensures forall x, y :: y in Successors(imports, x) <==> Imports(files, x, y)
    ensures forall x, y :: x in Successors(importedBy, y) <==> Imports(files, x, y)
    ensures forall x :: NoRepeats(Successors(imports, x)) && NoRepeats(Successors(importedBy, x))
  {
    hide ModuleAt, FileOf, Resolves;
    assert order[..|order|] == order;
    forall x, y
      ensures y in Successors(imports, x) <==> Imports(files, x, y)
    {
      if x in modules { NamesResolve(files, modules, names, x, y); }
    }
  }

  lemma EnteredOneMore(imports: Edges, importedBy: Edges, order: seq<Path>, i: nat, targets: seq<Path>, pushed: Edges)
    requires i < |order| && NoRepeats(order) && Entered(imports, importedBy, order, i)
    requires forall y :: y in targets ==> y in importedBy
    requires pushed.Keys == importedBy.Keys
    requires forall y :: y in pushed ==>
               pushed[y] == if y in targets then importedBy[y] + [order[i]] else importedBy[y]
    ensures Entered(imports[order[i] := targets], pushed, order, i + 1)
  {
    var x0 := order[i];
    assert order[..i + 1] == order[..i] + [x0] && x0 !in order[..i];
    forall y | y in pushed
      ensures NoRepeats(pushed[y])
    {
      assert x0 !in Successors(importedBy, y);
    }
    forall x, y
      ensures x in Successors(pushed, y) <==> x in order[..i + 1] && y in Successors(imports[x0 := targets], x)
    {
      assert x in Successors(importedBy, y) <==> x in order[..i] && y in Successors(imports, x);
    }
  }

  lemma NamesResolve(files: seq<AgdaModule>, modules: map<Path, AgdaModule>, names: map<Source, Path>, x: Path, y: Path)
    requires x in modules && ModuleAt(files, x) == Some(modules[x])
    requires forall n :: n in names <==> FileOf(files, n).Some?
    requires forall n :: n in names ==> FileOf(files, n) == Some(names[n])
    ensures Resolves(names, modules[x].importedNames, y) <==> Imports(files, x, y)
  {
    hide ModuleAt, FileOf;
    forall n
      ensures Resolve(names, n) == FileOf(files, n)
    {
    }
  }

  lemma SortedListsSaySame(edges: Edges, sorted: Edges)
    requires sorted.Keys == edges.Keys && forall x :: x in edges ==> sorted[x] == Order.Sort(edges[x])
    ensures forall x, y :: y in Successors(sorted, x) <==> y in Successors(edges, x)
    ensures forall x :: NoRepeats(Successors(edges, x)) ==> NoRepeats(Successors(sorted, x))
    ensures forall x :: Order.Sorted(Successors(sorted, x))
  {
    forall x
      ensures Order.Sorted(Successors(sorted, x))
      ensures forall y :: y in Successors(sorted, x) <==> y in Successors(edges, x)
      ensures NoRepeats(Successors(edges, x)) ==> NoRepeats(Successors(sorted, x))
    {
      if x in edges {
        Order.SortSorts(edges[x]);
        if NoRepeats(edges[x]) { Order.SortKeepsNoRepeats(edges[x]); }
      }
    }
  }

  // ---- impact ----

  datatype ImpactResult = ImpactResult(file: Path, directDependents: seq<Path>, transitiveDependents: seq<Path>,
                                       directDependencies: seq<Path>, transitiveDependencies: seq<Path>)

  ghost predicate IsReachableList(edges: Edges, start: Path, xs: seq<Path>) {
    Order.Sorted(xs) && NoRepeats(xs) && forall x :: x in xs <==> x != start && Reaches(edges, start, x)
  }

  method ComputeImpact(g: ImportGraph, relPath: Path) returns (impact: Option<ImpactResult>)
    ensures impact.Some? <==> relPath in g.modules
    ensures impact.Some? ==>
              var r := impact.value;
              r.file == relPath &&
              r.directDependents == Order.Sort(Successors(g.importedBy, relPath)) &&
              r.directDependencies == Order.Sort(Successors(g.imports, relPath)) &&
              IsReachableList(g.importedBy, relPath, r.transitiveDependents) &&
              IsReachableList(g.imports, relPath, r.transitiveDependencies)
  {
    hide Reaches;
    if relPath !in g.modules { return None; }
    var dependents := CollectReachable(g.importedBy, relPath);
    var dependencies := CollectReachable(g.imports, relPath);
    Order.SortSorts(dependents);
    Order.SortSorts(dependencies);
    Order.SortKeepsNoRepeats(dependents);
    Order.SortKeepsNoRepeats(dependencies);
    impact := Some(ImpactResult(relPath, Order.Sort(Successors(g.importedBy, relPath)), Order.Sort(dependents),
                                Order.Sort(Successors(g.imports, relPath)), Order.Sort(dependencies)));
  }

  // B depends on A exactly when A is a dependency of B, however long the chain.
  lemma DependentsAndDependenciesAreDual(g: ImportGraph, files: seq<AgdaModule>, a: Path, b: Path,
                                         dependentsOfA: seq<Path>, dependenciesOfB: seq<Path>)
    requires Faithful(g, files) && a != b
    requires IsReachableList(g.importedBy, a, dependentsOfA) && IsReachableList(g.imports, b, dependenciesOfB)
    ensures b in dependentsOfA <==> a in dependenciesOfB
  {
    FaithfulIsTransposed(g, files);
    if b in dependentsOfA { ReachesReversed(g.importedBy, g.imports, a, b); }
    if a in dependenciesOfB { ReachesReversed(g.imports, g.importedBy, b, a); }
  }
}

/** The files behind a capture's hash, and the bytes fed to it. */
module ImportClosure {
  import opened Basics
  import opened CodeUnits
  import opened Reachability
  import opened ImportGraphs
  import Order = StringOrder

  // Array.from(new Set(xs)).
  function Distinct(xs: seq<Path>): (r: seq<Path>)
    ensures NoRepeats(r) && forall x :: x in r <==> x in xs
  {
    if xs == [] then []
    else
      assert xs == xs[..|xs| - 1] + [xs[|xs| - 1]];
      var before := Distinct(xs[..|xs| - 1]);
      if xs[|xs| - 1] in before then before else before + [xs[|xs| - 1]]
  }

  method ClosureFileSet(g: ImportGraph, relPath: Path) returns (files: Option<seq<Path>>)
    ensures files.Some? <==> relPath in g.modules
    ensures files.Some? ==> IsClosure(g.imports, relPath, files.value)
  {
    hide Reaches;
    var impact := ComputeImpact(g, relPath);
    if impact.None? { return None; }
    var r := impact.value;
    var all := Distinct([r.file] + r.directDependencies + r.transitiveDependencies);
    Order.SortSorts(all);
    Order.SortKeepsNoRepeats(all);
    Order.SortSorts(Successors(g.imports, relPath));
    forall x
      ensures x in all <==> x == relPath || Reaches(g.imports, relPath, x)
    {
      if x in Successors(g.imports, relPath) { ReachesStep(g.imports, relPath, x); }
    }
    files := Some(Order.Sort(all));
  }

  // The sorted list of a file and everything it imports, directly or not.
  ghost predicate IsClosure(edges: Edges, file: Path, files: seq<Path>) {
    Order.Sorted(files) && NoRepeats(files) && forall x :: x in files <==> x == file || Reaches(edges, file, x)
  }

  lemma ClosureIsClosed(edges: Edges, file: Path, files: seq<Path>, x: Path, y: Path)
    requires IsClosure(edges, file, files) && x in files && y in Successors(edges, x)
    ensures file in files && y in files
  {
    if x == file { ReachesStep(edges, file, y); } else { ReachesThen(edges, file, x, y); }
  }

  // It is the least such set.
  lemma ClosureIsLeast(edges: Edges, file: Path, files: seq<Path>, inside: set<Path>)
    requires IsClosure(edges, file, files) && file in inside
    requires forall n :: n in inside ==> forall m :: m in Successors(edges, n) ==> m in inside
    ensures forall x :: x in files ==> x in inside
  {
    forall x | x in files
      ensures x in inside
    {
      if x != file {
        var p: seq<Path> :| |p| >= 2 && p[0] == file && p[|p| - 1] == x && IsWalk(edges, p);
        ClosedSetsHoldWalks(edges, inside, p, |p| - 1);
      }
    }
  }

  ghost predicate SameEdges(e1: Edges, e2: Edges) {
    forall x, y :: y in Successors(e1, x) <==> y in Successors(e2, x)
  }

  lemma SameEdgesReach(e1: Edges, e2: Edges, a: Path, b: Path)
    requires SameEdges(e1, e2) && Reaches(e1, a, b)
    ensures Reaches(e2, a, b)
  {
    var p: seq<Path> :| |p| >= 2 && p[0] == a && p[|p| - 1] == b && IsWalk(e1, p);
    assert IsWalk(e2, p);
  }

  // The closure depends on the edges alone, not on the order in which they were found.
  lemma ClosureIgnoresOrder(e1: Edges, e2: Edges, file: Path, files1: seq<Path>, files2: seq<Path>)
    requires SameEdges(e1, e2) && IsClosure(e1, file, files1) && IsClosure(e2, file, files2)
    ensures files1 == files2
  {
    forall x
      ensures x in files1 <==> x in files2
    {
      if Reaches(e1, file, x) { SameEdgesReach(e1, e2, file, x); }
      if Reaches(e2, file, x) { SameEdgesReach(e2, e1, file, x); }
    }
    Order.SortedIsUnique(files1, files2);
  }

  // A walk meets every path once.
  predicate DistinctPaths(files: seq<AgdaModule>) {
    forall j, k :: 0 <= j < k < |files| ==> files[j].relativePath != files[k].relativePath
  }

  predicate Declares(files: seq<AgdaModule>, name: Source, f: AgdaModule) {
    f in files && f.moduleName == Some(name)
  }

  ghost predicate Uses(files: seq<AgdaModule>, name: Source) {
    exists x :: x in files && name in x.importedNames
  }

  // No name that some file imports is declared by two files.
  ghost predicate Unambiguous(files: seq<AgdaModule>) {
    forall name, f, g :: Uses(files, name) && Declares(files, name, f) && Declares(files, name, g) ==> f == g
  }

  // The same files, walked in another order.
  ghost predicate Reordered(files1: seq<AgdaModule>, files2: seq<AgdaModule>) {
    DistinctPaths(files1) && DistinctPaths(files2) && forall f :: f in files1 <==> f in files2
  }

  ghost predicate SameImports(files1: seq<AgdaModule>, files2: seq<AgdaModule>) {
    forall x, y :: Imports(files1, x, y) <==> Imports(files2, x, y)
  }

  lemma {:induction false} PathLookup(files: seq<AgdaModule>, f: AgdaModule)
    requires DistinctPaths(files) && f in files
    ensures ModuleAt(files, f.relativePath) == Some(f)
  {
    var n := |files| - 1;
    assert files == files[..n] + [files[n]];
    if f in files[..n] {
      PathLookup(files[..n], f);
    }
  }

  lemma {:induction false} LookupsAreFound(files: seq<AgdaModule>, path: Path, name: Source)
    ensures ModuleAt(files, path).Some? ==> ModuleAt(files, path).value in files
    ensures ModuleAt(files, path).Some? ==> ModuleAt(files, path).value.relativePath == path
    ensures FileOf(files, name).Some? <==> exists f :: Declares(files, name, f)
    ensures FileOf(files, name).Some? ==>
              exists f :: Declares(files, name, f) && f.relativePath == FileOf(files, name).value
  {
    if files != [] {
      var n := |files| - 1;
      assert files == files[..n] + [files[n]];
      LookupsAreFound(files[..n], path, name);
      if FileOf(files[..n], name).Some? {
        var f :| Declares(files[..n], name, f) && f.relativePath == FileOf(files[..n], name).value;
        assert Declares(files, name, f);
      } else {
        assert files[n].moduleName == Some(name) ==> Declares(files, name, files[n]);
        assert forall f :: Declares(files, name, f) ==> f == files[n] || Declares(files[..n], name, f);
      }
    }
  }

  lemma ImportsAgree(files1: seq<AgdaModule>, files2: seq<AgdaModule>, x: Path, y: Path)
    requires Reordered(files1, files2) && Unambiguous(files1) && Imports(files1, x, y)
    ensures Imports(files2, x, y)
  {
    hide ModuleAt, FileOf;
    var name :| name in ModuleAt(files1, x).value.importedNames && FileOf(files1, name) == Some(y);
    LookupsAreFound(files1, x, name);
    LookupsAreFound(files2, x, name);
    PathLookup(files2, ModuleAt(files1, x).value);
    assert Uses(files1, name);
    var f :| Declares(files1, name, f) && f.relativePath == y;
    assert Declares(files2, name, f);
    var g :| Declares(files2, name, g) && g.relativePath == FileOf(files2, name).value;
    assert Declares(files1, name, g);
  }

  // A file that declares the name and is walked first wins it.
  lemma {:induction false} FirstWins(f: AgdaModule, rest: seq<AgdaModule>, name: Source)
    requires f.moduleName == Some(name)
    ensures FileOf([f] + rest, name) == Some(f.relativePath)
    decreases |rest|
  {
    if rest != [] {
      var n := |rest| - 1;
      FirstWins(f, rest[..n], name);
      assert ([f] + rest)[..n + 1] == [f] + rest[..n];
    } else {
      assert [f] + rest == [f] && [f][..0] == [];
    }
  }

  // The files, with the k-th one moved to the front.
  function Promoted(files: seq<AgdaModule>, k: nat): seq<AgdaModule>
    requires k < |files|
  {
    [files[k]] + (files[..k] + files[k + 1..])
  }

  lemma PromotedIsReordered(files: seq<AgdaModule>, k: nat)
    requires k < |files| && DistinctPaths(files)
    ensures Reordered(files, Promoted(files, k))
  {
    var other := Promoted(files, k);
    forall i | 0 <= i < |other|
      ensures other[i] == files[if i == 0 then k else if i <= k then i - 1 else i]
    {
    }
    forall i | 0 <= i < |files|
      ensures files[i] in other
    {
      assert other[if i == k then 0 else if i < k then i + 1 else i] == files[i];
    }
  }

  // With two files declaring an imported name, moving one of them to the front changes the imports.
  lemma DuplicatesMatter(files: seq<AgdaModule>, name: Source, f: AgdaModule, g: AgdaModule) returns (other: seq<AgdaModule>)
    requires DistinctPaths(files) && Uses(files, name) && Declares(files, name, f) && Declares(files, name, g) && f != g
    ensures Reordered(files, other) && !SameImports(files, other)
  {
    hide ModuleAt, FileOf;
    LookupsAreFound(files, [], name);
    var h := if FileOf(files, name) == Some(f.relativePath) then g else f;
    var k :| 0 <= k < |files| && files[k] == h;
    other := Promoted(files, k);
    PromotedIsReordered(files, k);
    FirstWins(h, files[..k] + files[k + 1..], name);
    assert other == [h] + (files[..k] + files[k + 1..]) && DistinctPaths(other) && h in other;
    var x :| x in files && name in x.importedNames;
    assert x in other;
    hide Promoted, Reordered, DistinctPaths, Declares;
    PathLookup(files, x);
    PathLookup(files, h);
    PathLookup(other, x);
    assert Imports(other, x.relativePath, h.relativePath);
    NotImportedBefore(files, name, x, h);
  }

  // A declaring file that a name does not stand for is not imported under that name.
  lemma NotImportedBefore(files: seq<AgdaModule>, name: Source, x: AgdaModule, h: AgdaModule)
    requires DistinctPaths(files) && Declares(files, name, h) && FileOf(files, name) != Some(h.relativePath)
    requires ModuleAt(files, x.relativePath) == Some(x)
    ensures !Imports(files, x.relativePath, h.relativePath)
  {
    hide ModuleAt, FileOf;
    if Imports(files, x.relativePath, h.relativePath) {
      var n :| n in x.importedNames && FileOf(files, n) == Some(h.relativePath);
      LookupsAreFound(files, [], n);
      assert false;
    }
  }

  // The imports do not depend on the order of the walk exactly when no imported name is declared twice.
  lemma OrderIsIrrelevantExactly(files: seq<AgdaModule>)
    requires DistinctPaths(files)
    ensures Unambiguous(files) <==> forall other :: Reordered(files, other) ==> SameImports(files, other)
  {
    hide Imports;
    if Unambiguous(files) {
      forall other | Reordered(files, other)
        ensures SameImports(files, other)
      {
        UnambiguousReordered(files, other);
        forall x, y
          ensures Imports(files, x, y) <==> Imports(other, x, y)
        {
          if Imports(files, x, y) { ImportsAgree(files, other, x, y); }
          if Imports(other, x, y) { ImportsAgree(other, files, x, y); }
        }
      }
    } else {
      var name, f, g :| Uses(files, name) && Declares(files, name, f) && Declares(files, name, g) && f != g;
      var other := DuplicatesMatter(files, name, f, g);
    }
  }

  lemma UnambiguousReordered(files1: seq<AgdaModule>, files2: seq<AgdaModule>)
    requires Reordered(files1, files2) && Unambiguous(files1)
    ensures Unambiguous(files2) && Reordered(files2, files1)
  {
    forall name, f, g | Uses(files2, name) && Declares(files2, name, f) && Declares(files2, name, g)
      ensures f == g
    {
      assert Uses(files1, name) && Declares(files1, name, f) && Declares(files1, name, g);
    }
  }

  // For such a project the edges of the graph do not depend on it either.
  lemma WalkOrderIsIrrelevant(files1: seq<AgdaModule>, files2: seq<AgdaModule>, g1: ImportGraph, g2: ImportGraph)
    requires Reordered(files1, files2) && Unambiguous(files1)
    requires Faithful(g1, files1) && Faithful(g2, files2)
    ensures SameEdges(g1.imports, g2.imports)
  {
    hide Imports;
    OrderIsIrrelevantExactly(files1);
    assert SameImports(files1, files2);
  }

  // ---- the bytes fed to the hash ----

  type Byte = n: int | 0 <= n < 256

  const NUL: Byte := 0

  // A file of the closure as the hash sees it: its content, or only its path.
  datatype HashedFile = WithContent(path: seq<Byte>, content: seq<Byte>) | TooLargeOrUnreadable(path: seq<Byte>)

  function Placeholder(path: seq<Byte>): seq<Byte> {
    [0x3C, 0x6F, 0x76, 0x65, 0x72, 0x73, 0x69, 0x7A, 0x65, 0x64, 0x3A] + path + [0x3E]
  }

  lemma PlaceholderIsSpelled(path: seq<Byte>)
    ensures Placeholder(path) == Ascii("<oversized:") + path + Ascii(">")
  {
  }

  function Ascii(text: string): seq<Byte> {
    seq(|text|, k requires 0 <= k < |text| => if text[k] as int < 128 then text[k] as int else 0x3F)
  }

  function Hashed(f: HashedFile): seq<Byte> {
    if f.WithContent? then f.content else Placeholder(f.path)
  }

  function Encoded(files: seq<HashedFile>): seq<Byte> {
    if files == [] then []
    else files[0].path + [NUL] + Hashed(files[0]) + [NUL] + Encoded(files[1..])
  }

  predicate NulFree(files: seq<HashedFile>) {
    forall k :: 0 <= k < |files| ==> NUL !in files[k].path && NUL !in Hashed(files[k])
  }

  lemma {:induction false} FirstFieldIsDetermined(a: seq<Byte>, rest: seq<Byte>, b: seq<Byte>, more: seq<Byte>)
    requires NUL !in a && NUL !in b && a + [NUL] + rest == b + [NUL] + more
    ensures a == b && rest == more
  {
    assert (a + [NUL] + rest)[0] == (b + [NUL] + more)[0];
    if a == [] || b == [] {
      assert (a + [NUL] + rest)[1..] == (b + [NUL] + more)[1..];
    } else {
      assert (a + [NUL] + rest)[1..] == a[1..] + [NUL] + rest;
      assert (b + [NUL] + more)[1..] == b[1..] + [NUL] + more;
      FirstFieldIsDetermined(a[1..], rest, b[1..], more);
      assert a == [a[0]] + a[1..] && b == [b[0]] + b[1..];
    }
  }

  // Without NUL bytes the encoding determines every path and every hashed content, in order.
  lemma {:induction false} EncodingIsInjective(xs: seq<HashedFile>, ys: seq<HashedFile>)
    requires NulFree(xs) && NulFree(ys) && Encoded(xs) == Encoded(ys)
    ensures |xs| == |ys|
    ensures forall k :: 0 <= k < |xs| ==> xs[k].path == ys[k].path && Hashed(xs[k]) == Hashed(ys[k])
  {
    hide Hashed;
    if xs != [] && ys != [] {
      var x, y := xs[0], ys[0];
      EncodedFields(xs);
      EncodedFields(ys);
      FirstFieldIsDetermined(x.path, Hashed(x) + [NUL] + Encoded(xs[1..]), y.path, Hashed(y) + [NUL] + Encoded(ys[1..]));
      FirstFieldIsDetermined(Hashed(x), Encoded(xs[1..]), Hashed(y), Encoded(ys[1..]));
      EncodingIsInjective(xs[1..], ys[1..]);
      assert forall k :: 1 <= k < |xs| ==> xs[k] == xs[1..][k - 1] && ys[k] == ys[1..][k - 1];
    }
  }

  lemma EncodedFields(files: seq<HashedFile>)
    requires files != []
    ensures Encoded(files) == files[0].path + [NUL] + (Hashed(files[0]) + [NUL] + Encoded(files[1..]))
  {
  }

  // One text is hashed for both: equal contents, or a content that spells out the other's placeholder.
  predicate HashedAlike(x: HashedFile, y: HashedFile) {
    match (x, y)
    case (WithContent(_, a), WithContent(_, b)) => a == b
    case (WithContent(_, a), TooLargeOrUnreadable(p)) => a == Placeholder(p)
    case (TooLargeOrUnreadable(p), WithContent(_, b)) => b == Placeholder(p)
    case (TooLargeOrUnreadable(_), TooLargeOrUnreadable(_)) => true
  }

  // So without NUL bytes two closures encode alike exactly when they list the same paths and, path by
  // path, the same content, both no content, or a content that is the other's placeholder.
  lemma {:induction false} EncodeAlikeExactly(xs: seq<HashedFile>, ys: seq<HashedFile>)
    requires NulFree(xs) && NulFree(ys)
    ensures Encoded(xs) == Encoded(ys) <==>
            |xs| == |ys| && forall k :: 0 <= k < |xs| ==> xs[k].path == ys[k].path && HashedAlike(xs[k], ys[k])
  {
    hide Encoded, Placeholder;
    if Encoded(xs) == Encoded(ys) {
      EncodingIsInjective(xs, ys);
      forall k | 0 <= k < |xs| ensures HashedAlike(xs[k], ys[k]) {
        assert Hashed(xs[k]) == Hashed(ys[k]);
      }
    }
    if |xs| == |ys| && forall k :: 0 <= k < |xs| ==> xs[k].path == ys[k].path && HashedAlike(xs[k], ys[k]) {
      AlikeEncodesAlike(xs, ys);
    }
  }

  lemma {:induction false} AlikeEncodesAlike(xs: seq<HashedFile>, ys: seq<HashedFile>)
    requires |xs| == |ys| && forall k :: 0 <= k < |xs| ==> xs[k].path == ys[k].path && HashedAlike(xs[k], ys[k])
    ensures Encoded(xs) == Encoded(ys)
    decreases |xs|
  {
    hide Placeholder;
    if xs != [] {
      assert Hashed(xs[0]) == Hashed(ys[0]);
      assert forall k :: 0 <= k < |xs| - 1 ==> xs[1..][k] == xs[k + 1] && ys[1..][k] == ys[k + 1];
      AlikeEncodesAlike(xs[1..], ys[1..]);
    }
  }

  // When every file could be read within the cap, the encoding determines the files.
  lemma ReadableClosuresAreDetermined(xs: seq<HashedFile>, ys: seq<HashedFile>)
    requires NulFree(xs) && NulFree(ys)
    requires forall k :: 0 <= k < |xs| ==> xs[k].WithContent?
    requires forall k :: 0 <= k < |ys| ==> ys[k].WithContent?
    ensures Encoded(xs) == Encoded(ys) <==> xs == ys
  {
    if Encoded(xs) == Encoded(ys) { EncodingIsInjective(xs, ys); }
  }

  // Both provisos are needed: a small file can spell out the placeholder of a large one, and a NUL in
  // a content can pass for the end of a file.
  lemma CollisionsWithoutTheProvisos(path: seq<Byte>, other: seq<Byte>, x: seq<Byte>, y: seq<Byte>)
    ensures Encoded([WithContent(path, Placeholder(path))]) == Encoded([TooLargeOrUnreadable(path)])
    ensures Encoded([WithContent(path, x + [NUL] + other + [NUL] + y)]) ==
            Encoded([WithContent(path, x), WithContent(other, y)])
  {
    hide Encoded, Placeholder;
    var one, two := WithContent(path, x + [NUL] + other + [NUL] + y), [WithContent(path, x), WithContent(other, y)];
    EncodedOne(WithContent(path, Placeholder(path)));
    EncodedOne(TooLargeOrUnreadable(path));
    EncodedOne(one);
    EncodedFields(two);
    assert two[1..] == [WithContent(other, y)];
    EncodedOne(WithContent(other, y));
  }

  lemma EncodedOne(f: HashedFile)
    ensures Encoded([f]) == f.path + [NUL] + Hashed(f) + [NUL]
  {
    assert Encoded([f][1..]) == [];
  }
}
