/**
 What a change can reach: the touched symbols and those that call them.
 */
module BlastResults {
  import opened Blast
  import opened CallGraph
  import opened Hunks
  import opened Symbols

  // --------------------------------------------------------- the touched symbols --

  /** A definition and its lines; a name may be defined more than once. */
  type Definition = (Path, Span)

  /** A changed file: its symbols in the head revision and its hunks, as git cut them. */
  datatype Changed = Changed(symbols: seq<Definition>, hunks: seq<Span>)

  /** Hunks that add no line are skipped while parsing, and a definition has at least one line. */
  ghost predicate Parsed(file: Changed) {
    NonEmpty(file.hunks) && forall symbol <- file.symbols :: symbol.1.first <= symbol.1.last
  }

  function TouchedIn(file: Changed): set<Path> {
    set symbol <- file.symbols | Overlaps(symbol.1, file.hunks) :: symbol.0
  }

  function Touched(files: seq<Changed>): set<Path> {
    if files == [] then {} else Touched(files[..|files| - 1]) + TouchedIn(files[|files| - 1])
  }

  /** The names of the definitions that overlap the merged spans. */
  method TouchedSymbols(symbols: seq<Definition>, merged: seq<Span>) returns (names: set<Path>)
    ensures names == set symbol <- symbols | Overlaps(symbol.1, merged) :: symbol.0
  {
    names := {};
    for i := 0 to |symbols|
      invariant names == set symbol <- symbols[..i] | Overlaps(symbol.1, merged) :: symbol.0
    {
      if Overlaps(symbols[i].1, merged) {
        names := names + {symbols[i].0};
      }
      assert symbols[..i + 1] == symbols[..i] + [symbols[i]];
    }
    assert symbols[..|symbols|] == symbols;
  }

  /** `changed_symbols` */
  method ChangedSymbols(files: seq<Changed>) returns (touched: set<Path>)
    requires forall file <- files :: Parsed(file)
    ensures touched == Touched(files)
  {
    touched := {};
    for i := 0 to |files|
      invariant touched == Touched(files[..i])
    {
      var file := files[i];
      assert file in files && Parsed(file);
      var merged := Merge(file.hunks);
      var names := TouchedSymbols(file.symbols, merged);
      forall symbol <- file.symbols ensures Overlaps(symbol.1, merged) <==> Overlaps(symbol.1, file.hunks) {
        MergeKeepsOverlaps(symbol.1, file.hunks, merged);
      }
      assert names == TouchedIn(file);
      touched := touched + names;
      assert files[..i + 1][..i] == files[..i];
    }
    assert files[..|files|] == files;
  }

  predicate TouchedAt(files: seq<Changed>, name: Path, i: nat) {
    i < |files| && exists symbol <- files[i].symbols :: symbol.0 == name && Overlaps(symbol.1, files[i].hunks)
  }

  lemma {:induction false} TouchedMeans(files: seq<Changed>, name: Path)
    ensures name in Touched(files) <==> exists i: nat :: TouchedAt(files, name, i)
  {
    if files != [] {
      var front, last := files[..|files| - 1], files[|files| - 1];
      TouchedMeans(front, name);
      if i: nat :| TouchedAt(front, name, i) { assert TouchedAt(files, name, i); }
      if name in TouchedIn(last) { assert TouchedAt(files, name, |files| - 1); }
      if i: nat :| TouchedAt(files, name, i) {
        assert i < |files| - 1 ==> TouchedAt(front, name, i);
      }
    }
  }

  // ------------------------------------------------------- the graph, inverted --

  /** `callers` lists for every callee exactly the callers the graph has for it. */
  ghost predicate Inverts(callers: Callers, graph: Graph, except: set<Path>) {
    forall caller, callee :: caller in CallersOf(callers, callee) <==> Has(graph, caller, callee) && caller !in except
  }

  /** `callers_of[callee].add(caller)` for every callee of one caller. */
  method AddCaller(callers: Callers, caller: Path, callees: set<Path>) returns (callers': Callers)
    ensures forall a, b :: a in CallersOf(callers', b) <==> a in CallersOf(callers, b) || (a == caller && b in callees)
  {
    callers' := callers;
    var todo := callees;
    while todo != {}
      invariant todo <= callees
      invariant forall a, b :: a in CallersOf(callers', b)
                  <==> a in CallersOf(callers, b) || (a == caller && b in callees && b !in todo)
      decreases |todo|
    {
      var callee :| callee in todo;
      var before := callers';
      callers' := callers'[callee := (if callee in callers' then callers'[callee] else []) + [caller]];
      todo := todo - {callee};
      forall a, b ensures a in CallersOf(callers', b) <==> a in CallersOf(before, b) || (a == caller && b == callee) {
        CallerAdded(before, callee, caller, a, b);
      }
    }
  }

  lemma CallerAdded(callers: Callers, callee: Path, caller: Path, a: Path, b: Path)
    ensures a in CallersOf(callers[callee := (if callee in callers then callers[callee] else []) + [caller]], b)
       <==> a in CallersOf(callers, b) || (a == caller && b == callee)
  {
    var list := if callee in callers then callers[callee] else [];
    assert a in list + [caller] <==> a in list || a == caller;
  }

  /** The first loop of `blast_radius`. */
  method Invert(graph: Graph) returns (callers: Callers)
    ensures Inverts(callers, graph, {})
  {
    callers := map[];
    var todo := graph.Keys;
    while todo != {}
      invariant todo <= graph.Keys && Inverts(callers, graph, todo)
      decreases |todo|
    {
      var caller :| caller in todo;
      var before := callers;
      callers := AddCaller(callers, caller, graph[caller]);
      forall a, b ensures a in CallersOf(callers, b) <==> Has(graph, a, b) && a !in todo - {caller} {
        assert a in CallersOf(before, b) <==> Has(graph, a, b) && a !in todo;
      }
      todo := todo - {caller};
    }
  }

  // -------------------------------------------------------------- what is reached --

  /** Some file has a function `caller` that is charged with a call to `callee`. */
  ghost predicate Invokes(files: seq<Module>, caller: Path, callee: Path) {
    callee != caller && exists k: nat, body, call :: InvokesAt(files, caller, callee, k, body, call)
  }

  ghost predicate InvokesAt(files: seq<Module>, caller: Path, callee: Path, k: nat, body: seq<Stmt>, call: Callee) {
    && k < |files| && (caller, body) in Functions(files[k].body, files[k].path)
    && call in CallsFor(body) && callee in Resolve(files[k], Index(files), call)
  }

  lemma EdgesInvoke(files: seq<Module>, caller: Path, callee: Path)
    ensures (exists k :: 0 <= k < |files| && Edge(files[k], Index(files), caller, callee))
            <==> Invokes(files, caller, callee)
  {
    if k :| 0 <= k < |files| && Edge(files[k], Index(files), caller, callee) {
      GraphExactly(files, files[k], caller, callee);
      var body, call :| (caller, body) in Functions(files[k].body, files[k].path) && call in CallsFor(body)
                        && callee in Resolve(files[k], Index(files), call);
      assert InvokesAt(files, caller, callee, k, body, call);
    }
    if Invokes(files, caller, callee) {
      var k: nat, body, call :| InvokesAt(files, caller, callee, k, body, call);
      GraphExactly(files, files[k], caller, callee);
    }
  }

  /** A chain of at most `hops` calls in the package's source, from `name` down to one of `starts`. */
  ghost predicate CallChain(files: seq<Module>, starts: set<Path>, hops: int, name: Path, path: seq<Path>) {
    && path != [] && (|path| == 1 || |path| <= hops + 1) && path[0] in starts && path[|path| - 1] == name
    && forall i :: 0 <= i < |path| - 1 ==> Invokes(files, path[i + 1], path[i])
  }

  ghost predicate InRadius(files: seq<Module>, changed: seq<Changed>, hops: int, name: Path) {
    || (exists i: nat :: TouchedAt(changed, name, i))
    || (name in Index(files) && exists path :: CallChain(files, Touched(changed), hops, name, path))
  }

  lemma WithinIsCallChain(files: seq<Module>, callers: Callers, starts: set<Path>, hops: int, name: Path)
    requires forall caller, callee :: caller in CallersOf(callers, callee) <==> Invokes(files, caller, callee)
    ensures name in Within(callers, starts, Rounds(hops)) <==> exists path :: CallChain(files, starts, hops, name, path)
  {
    WithinExactlyWhenReached(callers, starts, Rounds(hops), name);
    if path :| Reaches(callers, starts, Rounds(hops), name, path) {
      assert CallChain(files, starts, hops, name, path);
    }
    if path :| CallChain(files, starts, hops, name, path) {
      assert Reaches(callers, starts, Rounds(hops), name, path);
    }
  }

  /** A chain of at most `hops` stored edges, from `name` down to the start. */
  predicate LeadsFrom(callers: Callers, fqn: Path, hops: int, name: Path, path: seq<Path>) {
    && CallPath(callers, path) && (|path| == 1 || |path| <= hops + 1) && path[0] == fqn && path[|path| - 1] == name
  }

  lemma WithinIsChain(callers: Callers, fqn: Path, hops: int, name: Path)
    ensures name in Within(callers, {fqn}, Rounds(hops)) <==> exists path :: LeadsFrom(callers, fqn, hops, name, path)
  {
    WithinExactlyWhenReached(callers, {fqn}, Rounds(hops), name);
    if path :| Reaches(callers, {fqn}, Rounds(hops), name, path) {
      assert LeadsFrom(callers, fqn, hops, name, path);
    }
    if path :| LeadsFrom(callers, fqn, hops, name, path) {
      assert Reaches(callers, {fqn}, Rounds(hops), name, path);
    }
  }

  /** `blast_radius`, over the call graph it builds: exactly the symbols overlapping a raw,
      unmerged hunk, and every indexed symbol from which a chain of at most `hops` calls
      in the source leads to one. */
  method BlastRadius(files: seq<Module>, changed: seq<Changed>, hops: int) returns (names: set<Path>)
    requires forall file <- changed :: Parsed(file)
    ensures forall name :: name in names <==> InRadius(files, changed, hops, name)
  {
    var graph := BuildCallGraph(files);
    var touched := ChangedSymbols(changed);
    var callers := Invert(graph);
    var reached := ReachByFrontiers(callers, touched, hops);
    names := touched + reached * Index(files);
    forall caller, callee ensures caller in CallersOf(callers, callee) <==> Invokes(files, caller, callee) {
      assert caller in CallersOf(callers, callee) <==> Has(graph, caller, callee);
      EdgesInvoke(files, caller, callee);
    }
    forall name ensures name in names <==> InRadius(files, changed, hops, name) {
      TouchedMeans(changed, name);
      WithinIsCallChain(files, callers, touched, hops, name);
      StartsWithin(callers, touched, Rounds(hops));
    }
  }

  /** `SqliteGraphStore.callers_of`, over the stored edges of the same graph: what a change of
      this symbol alone reaches, without the symbol. */
  method CallersWithin(callers: Callers, stored: set<Path>, fqn: Path, hops: int) returns (names: set<Path>)
    ensures names == Within(callers, {fqn}, Rounds(hops)) * stored - {fqn}
    ensures forall name :: name in names <==>
              name in stored && name != fqn && exists path :: LeadsFrom(callers, fqn, hops, name, path)
  {
    var reached := ReachByQueue(callers, fqn, hops);
    names := reached * stored;
    forall name ensures name in Within(callers, {fqn}, Rounds(hops))
                   <==> exists path :: LeadsFrom(callers, fqn, hops, name, path) {
      WithinIsChain(callers, fqn, hops, name);
    }
  }
}
