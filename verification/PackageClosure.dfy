/** The import-closure worklist of scripts/check-cli-package-boundary.ts. Paths, the
    repository-relative form of a path, the import specifiers of a file and the candidate
    files of a specifier are given by the file system and the TypeScript scanner. */
module PackageClosure {
  import opened Wrappers

  /** An import that could not be followed; entry points carry the specifier "<entrypoint>". */
  datatype Problem = Problem(importer: string, specifier: string)

  datatype FileSystem = FileSystem(
    existing: set<string>,                          // existsSync
    regular: set<string>,                           // existsSync and isFile
    relative: string -> string,                     // packagePath
    specifiers: string -> seq<string>,              // moduleSpecifiers
    candidates: (string, string) -> seq<string>)    // the paths resolveLocalImport tries, in order
  {
    predicate Outside(path: string) {
      var r := relative(path);
      r == "" || "../" <= r || "/" <= r
    }

    predicate Scanned(path: string) {
      !Outside(path) && path in existing
    }

    /** The first candidate that is a regular file. */
    function Resolve(importer: string, specifier: string): (r: Option<string>)
      ensures r.Some? ==> r.value in regular
    {
      First(candidates(importer, specifier))
    }

    function First(paths: seq<string>): (r: Option<string>)
      ensures r.Some? ==> r.value in regular
      ensures r.None? <==> forall i :: 0 <= i < |paths| ==> paths[i] !in regular
      ensures r.Some? ==>
                exists i :: 0 <= i < |paths| && paths[i] == r.value && forall j :: 0 <= j < i ==> paths[j] !in regular
    {
      if paths == [] then None else if paths[0] in regular then Some(paths[0]) else First(paths[1..])
    }

    /** File `a` imports file `b` through a relative specifier that stays in the repository. */
    ghost predicate Imports(a: string, b: string) {
      Scanned(a) && exists s :: Follows(a, s, b)
    }

    ghost predicate Follows(a: string, s: string, b: string) {
      s in specifiers(a) && "." <= s && Resolve(a, s) == Some(b) && !Outside(b)
    }

    ghost predicate Chain(entries: seq<string>, p: seq<string>) {
      && p != [] && p[0] in entries
      && forall i :: 0 < i < |p| ==> Imports(p[i - 1], p[i])
    }

    ghost predicate Reachable(entries: seq<string>, file: string) {
      exists p :: Chain(entries, p) && p[|p| - 1] == file
    }

    ghost predicate Unresolved(a: string, s: string) {
      Scanned(a) && s in specifiers(a) && "." <= s && Resolve(a, s) == None
    }

    ghost predicate Escapes(a: string, s: string) {
      Scanned(a) && s in specifiers(a) && "." <= s && Resolve(a, s).Some? && Outside(Resolve(a, s).value)
    }

    lemma ReachStep(entries: seq<string>, a: string, b: string)
      requires Reachable(entries, a) && Imports(a, b)
      ensures Reachable(entries, b)
    {
      var p :| Chain(entries, p) && p[|p| - 1] == a;
      var q := p + [b];
      assert Chain(entries, q);
    }

    /** A set that holds the entry points and is closed under imports holds all of a chain. */
    lemma {:induction false} ClosedHoldsChain(entries: seq<string>, visited: set<string>, p: seq<string>)
      requires Chain(entries, p)
      requires forall e :: e in entries ==> e in visited
      requires forall a, b :: a in visited && Imports(a, b) ==> b in visited
      ensures p[|p| - 1] in visited
      decreases |p|
    {
      if |p| > 1 {
        var q := p[..|p| - 1];
        assert Chain(entries, q);
        ClosedHoldsChain(entries, visited, q);
        assert Imports(p[|p| - 2], p[|p| - 1]);
      }
    }
  }

  /** The import problems of one scanned file and the files it puts on the queue. */
  method ScanImports(fs: FileSystem, path: string)
    returns (next: seq<string>, unresolved: seq<Problem>, escaping: seq<Problem>)
    requires fs.Scanned(path)
    ensures forall b :: b in next <==> fs.Imports(path, b)
    ensures forall x :: x in unresolved <==> x.importer == fs.relative(path) && fs.Unresolved(path, x.specifier)
    ensures forall x :: x in escaping <==> x.importer == fs.relative(path) && fs.Escapes(path, x.specifier)
  {
    next, unresolved, escaping := [], [], [];
    var specs := fs.specifiers(path);
    var rel := fs.relative(path);
    for i := 0 to |specs|
      invariant forall b :: b in next <==> exists s :: s in specs[..i] && fs.Follows(path, s, b)
      invariant forall x :: x in unresolved <==>
                  x.importer == rel && x.specifier in specs[..i] && fs.Unresolved(path, x.specifier)
      invariant forall x :: x in escaping <==>
                  x.importer == rel && x.specifier in specs[..i] && fs.Escapes(path, x.specifier)
    {
      var s := specs[i];
      assert specs[..i + 1] == specs[..i] + [s];
      if "." <= s {
        var target := fs.Resolve(path, s);
        if target.None? {
          unresolved := unresolved + [Problem(rel, s)];
        } else if fs.Outside(target.value) {
          escaping := escaping + [Problem(rel, s)];
        } else {
          next := next + [target.value];
          assert fs.Follows(path, s, target.value);
        }
      }
    }
    assert specs[..|specs|] == specs;
  }

  /** The queue holds only reachable files of the finite universe, and all unvisited imports. */
  ghost predicate Frontier(fs: FileSystem, entries: seq<string>, visited: set<string>, queue: seq<string>) {
    && (forall p :: p in visited || p in queue ==> fs.Reachable(entries, p) && (p in entries || p in fs.regular))
    && (forall e :: e in entries ==> e in visited || e in queue)
    && (forall a, b :: a in visited && fs.Imports(a, b) ==> b in visited || b in queue)
  }

  lemma FrontierStart(fs: FileSystem, entries: seq<string>)
    ensures Frontier(fs, entries, {}, entries)
  {
    forall e | e in entries ensures fs.Reachable(entries, e) { assert fs.Chain(entries, [e]); }
  }

  lemma FrontierStep(fs: FileSystem, entries: seq<string>, visited: set<string>, queue: seq<string>, source: string,
                     next: seq<string>)
    requires Frontier(fs, entries, visited, queue + [source])
    requires forall b :: b in next <==> fs.Imports(source, b)
    ensures Frontier(fs, entries, visited + {source}, queue + next)
  {
    assert source in queue + [source];
    forall b | b in next ensures fs.Reachable(entries, b) && b in fs.regular {
      fs.ReachStep(entries, source, b);
      var s :| fs.Follows(source, s, b);
    }
  }

  lemma FrontierDone(fs: FileSystem, entries: seq<string>, visited: set<string>)
    requires Frontier(fs, entries, visited, [])
    ensures forall p :: p in visited <==> fs.Reachable(entries, p)
  {
    forall p | fs.Reachable(entries, p) ensures p in visited {
      var c :| fs.Chain(entries, c) && c[|c| - 1] == p;
      fs.ClosedHoldsChain(entries, visited, c);
    }
  }

  ghost function Unpacked(fs: FileSystem, packed: set<string>, visited: set<string>): set<string> {
    set p | p in visited && fs.Scanned(p) && fs.relative(p) !in packed :: fs.relative(p)
  }

  ghost predicate IsUnresolved(fs: FileSystem, visited: set<string>, x: Problem) {
    exists p :: p in visited && x.importer == fs.relative(p)
      && (fs.Unresolved(p, x.specifier) || (!fs.Outside(p) && p !in fs.existing && x.specifier == "<entrypoint>"))
  }

  ghost predicate IsEscaping(fs: FileSystem, visited: set<string>, x: Problem) {
    exists p :: p in visited && x.importer == fs.relative(p)
      && (fs.Escapes(p, x.specifier) || (fs.Outside(p) && x.specifier == "<entrypoint>"))
  }

  /** Everything one newly visited path contributes, by the branch it falls in. */
  method Visit(fs: FileSystem, packed: set<string>, source: string)
    returns (next: seq<string>, unpacked: set<string>, unresolved: seq<Problem>, escaping: seq<Problem>)
    ensures forall b :: b in next <==> fs.Imports(source, b)
    ensures unpacked == Unpacked(fs, packed, {source})
    ensures forall x :: x in unresolved <==> IsUnresolved(fs, {source}, x)
    ensures forall x :: x in escaping <==> IsEscaping(fs, {source}, x)
  {
    var rel := fs.relative(source);
    next, unpacked, unresolved, escaping := [], {}, [], [];
    if fs.Outside(source) {
      escaping := [Problem(rel, "<entrypoint>")];
    } else if source !in fs.existing {
      unresolved := [Problem(rel, "<entrypoint>")];
    } else {
      if rel !in packed { unpacked := {rel}; }
      next, unresolved, escaping := ScanImports(fs, source);
    }
  }

  lemma VisitedGrows(fs: FileSystem, packed: set<string>, visited: set<string>, source: string)
    ensures Unpacked(fs, packed, visited + {source}) == Unpacked(fs, packed, visited) + Unpacked(fs, packed, {source})
    ensures forall x :: IsUnresolved(fs, visited + {source}, x) <==>
              IsUnresolved(fs, visited, x) || IsUnresolved(fs, {source}, x)
    ensures forall x :: IsEscaping(fs, visited + {source}, x) <==>
              IsEscaping(fs, visited, x) || IsEscaping(fs, {source}, x)
  {
  }

  lemma NothingVisited(fs: FileSystem, packed: set<string>)
    ensures Unpacked(fs, packed, {}) == {} && forall x :: !IsUnresolved(fs, {}, x) && !IsEscaping(fs, {}, x)
  {
  }

  lemma QueueInUniverse(fs: FileSystem, entries: seq<string>, visited: set<string>, queue: seq<string>, source: string)
    requires Frontier(fs, entries, visited, queue + [source])
    ensures source in (set e | e in entries) + fs.regular
  {
    assert source in queue + [source];
  }

  lemma FrontierSkip(fs: FileSystem, entries: seq<string>, visited: set<string>, queue: seq<string>, source: string)
    requires Frontier(fs, entries, visited, queue + [source]) && source in visited
    ensures Frontier(fs, entries, visited, queue)
  {
    forall p | p in queue ensures p in queue + [source] { }
    forall p | p in queue + [source] && p != source ensures p in queue { }
  }

  /** The worklist loop. It stops on every finite tree, cyclic imports included, having visited
      exactly the reachable files and reported exactly their missing and escaping imports. */
  method Closure(fs: FileSystem, entries: seq<string>, packed: set<string>)
    returns (visited: set<string>, missingClosure: set<string>, missing: seq<Problem>, external: seq<Problem>)
    ensures forall p :: p in visited <==> fs.Reachable(entries, p)
    ensures missingClosure == Unpacked(fs, packed, visited)
    ensures forall x :: x in missing <==> IsUnresolved(fs, visited, x)
    ensures forall x :: x in external <==> IsEscaping(fs, visited, x)
  {
    hide Frontier, Unpacked, IsUnresolved, IsEscaping;
    visited, missingClosure, missing, external := {}, {}, [], [];
    NothingVisited(fs, packed);
    var queue := entries;
    ghost var universe := (set e | e in entries) + fs.regular;
    FrontierStart(fs, entries);
    while queue != []
      invariant Frontier(fs, entries, visited, queue)
      invariant missingClosure == Unpacked(fs, packed, visited)
      invariant forall x :: x in missing <==> IsUnresolved(fs, visited, x)
      invariant forall x :: x in external <==> IsEscaping(fs, visited, x)
      decreases universe - visited, |queue|
    {
      var source := queue[|queue| - 1];
      assert queue == queue[..|queue| - 1] + [source];
      queue := queue[..|queue| - 1];
      if source in visited {
        FrontierSkip(fs, entries, visited, queue, source);
        continue;
      }
      var next, unpacked, unresolved, escaping := Visit(fs, packed, source);
      FrontierStep(fs, entries, visited, queue, source, next);
      VisitedGrows(fs, packed, visited, source);
      QueueInUniverse(fs, entries, visited, queue, source);
      visited, queue := visited + {source}, queue + next;
      missingClosure, missing, external := missingClosure + unpacked, missing + unresolved, external + escaping;
    }
    FrontierDone(fs, entries, visited);
  }
}
