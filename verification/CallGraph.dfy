/**
 A name-resolved call graph over the symbols of a package.

 Two traversals that do not know of each other must agree on names: the one that emits
 the symbols and the one that records the calls.
 */
module CallGraph {
  import opened Options
  import opened Symbols

  /** A file that parses: its dotted name, its import aliases and its statements. */
  datatype Module = Module(path: Path, imports: map<string, Path>, body: seq<Stmt>)

  /** A call and the function it is recorded for. */
  type Call = (Path, Callee)

  type Graph = map<Path, set<Path>>

  const MAX_NAME_MATCHES := 8

  /** The dotted name of nothing at all. */
  const NOTHING: Path := [""]

  // -------------------------------------------------------------- resolution --

  /** `index_symbols` */
  function Index(files: seq<Module>): set<Path> {
    set m <- files, s <- Emitted(m.body, m.path, false) :: s.fqn
  }

  function Named(symbols: set<Path>, name: string): set<Path> {
    set p <- symbols | p != [] && p[|p| - 1] == name
  }

  /** `_fallback`: the symbols of that name, unless they are too many to mean anything. */
  function Fallback(symbols: set<Path>, name: string): set<Path> {
    if |Named(symbols, name)| > MAX_NAME_MATCHES then {} else Named(symbols, name)
  }

  /** `_resolve` */
  function Resolve(m: Module, symbols: set<Path>, callee: Callee): set<Path> {
    match callee
    case Name(id) =>
      if m.path + [id] in symbols then {m.path + [id]}
      else if id in m.imports && m.imports[id] != NOTHING && m.imports[id] in symbols then {m.imports[id]}
      else Fallback(symbols, id)
    case Attribute(base, attr) =>
      if base.Some? && base.value in m.imports && m.imports[base.value] != NOTHING
         && m.imports[base.value] + [attr] in symbols
      then {m.imports[base.value] + [attr]}
      else Fallback(symbols, attr)
    case Dynamic => {}
  }

  // ------------------------------------------------------ what the collector records --

  /** `ast.walk`, for calls: everything below a statement, nested definitions included. */
  function CallsBelow(s: Stmt): seq<Callee> {
    match s
    case ClassDef(_, header, body) => header + CallsIn(body)
    case FunctionDef(_, header, body) => header + CallsIn(body)
    case Plain(calls, blocks) => calls + CallsInBlocks(blocks)
  }

  function CallsIn(body: seq<Stmt>): seq<Callee> {
    if body == [] then [] else CallsIn(body[..|body| - 1]) + CallsBelow(body[|body| - 1])
  }

  function CallsInBlocks(blocks: seq<Block>): seq<Callee> {
    if blocks == [] then [] else CallsInBlocks(blocks[..|blocks| - 1]) + CallsIn(blocks[|blocks| - 1].body)
  }

  /** The calls `visit_body` records, each with the function it is recorded for. */
  function Recorded(body: seq<Stmt>, enclosing: Option<Path>, prefix: Path): set<Call> {
    if body == [] then {}
    else Recorded(body[..|body| - 1], enclosing, prefix) + RecordedBy(body[|body| - 1], enclosing, prefix)
  }

  function RecordedBy(s: Stmt, enclosing: Option<Path>, prefix: Path): set<Call> {
    match s
    case ClassDef(name, _, body) => Recorded(body, enclosing, prefix + [name])
    case FunctionDef(name, _, body) => Recorded(body, Some(prefix + [name]), prefix + [name])
    case Plain(_, blocks) => RecordedHere(s, enclosing) + RecordedIn(blocks, enclosing, prefix)
  }

  function RecordedHere(s: Stmt, enclosing: Option<Path>): set<Call> {
    if enclosing.None? then {} else For(enclosing.value, CallsBelow(s))
  }

  function RecordedIn(blocks: seq<Block>, enclosing: Option<Path>, prefix: Path): set<Call> {
    if blocks == [] then {}
    else RecordedIn(blocks[..|blocks| - 1], enclosing, prefix) + Recorded(blocks[|blocks| - 1].body, enclosing, prefix)
  }

  /** An edge that the recorded calls give rise to. */
  ghost predicate Yields(m: Module, symbols: set<Path>, calls: set<Call>, caller: Path, callee: Path) {
    callee != caller && exists c: Callee :: (caller, c) in calls && callee in Resolve(m, symbols, c)
  }

  predicate Has(graph: Graph, caller: Path, callee: Path) {
    caller in graph && callee in graph[caller]
  }

  function For(caller: Path, calls: seq<Callee>): set<Call> {
    set c <- calls :: (caller, c)
  }

  lemma YieldsOneMore(m: Module, symbols: set<Path>, from: Path, calls: seq<Callee>, last: Callee, caller: Path,
                      callee: Path)
    ensures Yields(m, symbols, For(from, calls + [last]), caller, callee)
       <==> Yields(m, symbols, For(from, calls), caller, callee)
            || (caller == from && callee in Resolve(m, symbols, last) - {from})
  {
    assert last in calls + [last];
    assert forall c :: (caller, c) in For(from, calls + [last]) <==> caller == from && (c in calls || c == last);
    if caller == from && callee in Resolve(m, symbols, last) - {from} {
      assert (caller, last) in For(from, calls + [last]);
    }
  }

  // ------------------------------------------------------------------- collector --

  class CallCollector {
    const file: Module
    const symbols: set<Path>
    var edges: Graph

    constructor (file: Module, symbols: set<Path>)
      ensures this.file == file && this.symbols == symbols && edges == map[]
    {
      this.file, this.symbols, edges := file, symbols, map[];
    }

    /** The edges of `old` and those the calls give rise to. */
    ghost predicate Extends(before: Graph, calls: set<Call>)
      reads this
    {
      forall caller, callee :: Has(edges, caller, callee) <==>
                                 Has(before, caller, callee) || Yields(file, symbols, calls, caller, callee)
    }

    method VisitBody(body: seq<Stmt>, enclosing: Option<Path>, prefix: Path)
      modifies this
      ensures Extends(old(edges), Recorded(body, enclosing, prefix))
      decreases body
    {
      for i := 0 to |body|
        invariant Extends(old(edges), Recorded(body[..i], enclosing, prefix))
      {
        VisitStatement(body[i], enclosing, prefix);
        assert body[..i + 1][..i] == body[..i];
      }
      assert body[..|body|] == body;
    }

    method VisitStatement(s: Stmt, enclosing: Option<Path>, prefix: Path)
      modifies this
      ensures Extends(old(edges), RecordedBy(s, enclosing, prefix))
      decreases s
    {
      match s {
        case ClassDef(name, _, body) =>
          VisitBody(body, enclosing, prefix + [name]);
        case FunctionDef(name, _, body) =>
          // The definition takes over for its own body.
          VisitBody(body, Some(prefix + [name]), prefix + [name]);
        case Plain(_, blocks) =>
          if enclosing.Some? {
            RecordCalls(s, enclosing.value);
          }
          for j := 0 to |blocks|
            invariant Extends(old(edges), RecordedHere(s, enclosing) + RecordedIn(blocks[..j], enclosing, prefix))
          {
            VisitBody(blocks[j].body, enclosing, prefix);
            assert blocks[..j + 1][..j] == blocks[..j];
          }
          assert blocks[..|blocks|] == blocks;
      }
    }

    method RecordCalls(s: Stmt, caller: Path)
      modifies this
      ensures Extends(old(edges), RecordedHere(s, Some(caller)))
    {
      var calls := CallsBelow(s);
      for i := 0 to |calls|
        invariant Extends(old(edges), For(caller, calls[..i]))
      {
        assert calls[..i + 1] == calls[..i] + [calls[i]];
        forall a, b ensures Yields(file, symbols, For(caller, calls[..i + 1]), a, b)
                       <==> Yields(file, symbols, For(caller, calls[..i]), a, b)
                            || (a == caller && b in Resolve(file, symbols, calls[i]) - {caller}) {
          YieldsOneMore(file, symbols, caller, calls[..i], calls[i], a, b);
        }
        RecordCall(calls[i], caller);
      }
      assert calls[..|calls|] == calls;
    }

    method RecordCall(call: Callee, caller: Path)
      modifies this
      ensures forall a, b :: Has(edges, a, b) <==>
                               Has(old(edges), a, b) || (a == caller && b in Resolve(file, symbols, call) - {caller})
    {
      var callees := Resolve(file, symbols, call) - {caller};
      if callees != {} {
        ghost var before := edges;
        edges := edges[caller := callees + if caller in edges then edges[caller] else {}];
        forall a, b ensures Has(edges, a, b) <==> Has(before, a, b) || (a == caller && b in callees) {
          assert a != caller ==> (a in edges <==> a in before);
        }
      }
    }
  }

  // ----------------------------------------------------------------- the graph --

  /** The edges of one file. */
  ghost predicate Edge(m: Module, symbols: set<Path>, caller: Path, callee: Path) {
    Yields(m, symbols, Recorded(m.body, None, m.path), caller, callee)
  }

  /** The callees of every caller are added to those it already has. */
  function Merged(graph: Graph, edges: Graph): Graph {
    map caller | caller in graph.Keys + edges.Keys ::
      (if caller in graph then graph[caller] else {}) + if caller in edges then edges[caller] else {}
  }

  lemma MergedHasBoth(graph: Graph, edges: Graph, caller: Path, callee: Path)
    ensures Has(Merged(graph, edges), caller, callee) <==> Has(graph, caller, callee) || Has(edges, caller, callee)
  {
  }

  /** `build_call_graph` */
  method BuildCallGraph(files: seq<Module>) returns (graph: Graph)
    ensures forall caller, callee :: Has(graph, caller, callee)
              <==> exists i :: 0 <= i < |files| && Edge(files[i], Index(files), caller, callee)
  {
    var symbols := Index(files);
    graph := map[];
    for i := 0 to |files|
      invariant forall caller, callee :: Has(graph, caller, callee)
                  <==> exists k :: 0 <= k < i && Edge(files[k], symbols, caller, callee)
    {
      var collector := new CallCollector(files[i], symbols);
      collector.VisitBody(files[i].body, None, files[i].path);
      assert forall caller, callee :: Has(collector.edges, caller, callee) <==> Edge(files[i], symbols, caller, callee);
      forall caller, callee ensures Has(Merged(graph, collector.edges), caller, callee)
                               <==> Has(graph, caller, callee) || Has(collector.edges, caller, callee) {
        MergedHasBoth(graph, collector.edges, caller, callee);
      }
      graph := Merged(graph, collector.edges);
    }
  }

  // --------------------------------------------- which function a call belongs to --

  /** Every function definition of a body, however deep, by its dotted name. */
  function Functions(body: seq<Stmt>, prefix: Path): set<(Path, seq<Stmt>)> {
    if body == [] then {} else Functions(body[..|body| - 1], prefix) + FunctionsOf(body[|body| - 1], prefix)
  }

  function FunctionsOf(s: Stmt, prefix: Path): set<(Path, seq<Stmt>)> {
    match s
    case ClassDef(name, _, body) => Functions(body, prefix + [name])
    case FunctionDef(name, _, body) => {(prefix + [name], body)} + Functions(body, prefix + [name])
    case Plain(_, blocks) => FunctionsIn(blocks, prefix)
  }

  function FunctionsIn(blocks: seq<Block>, prefix: Path): set<(Path, seq<Stmt>)> {
    if blocks == [] then {}
    else FunctionsIn(blocks[..|blocks| - 1], prefix) + Functions(blocks[|blocks| - 1].body, prefix)
  }

  /** The calls whose innermost function is the one with this body. */
  function OwnCalls(body: seq<Stmt>): set<Callee> {
    if body == [] then {} else OwnCalls(body[..|body| - 1]) + OwnCallsOf(body[|body| - 1])
  }

  function OwnCallsOf(s: Stmt): set<Callee> {
    match s
    case ClassDef(_, _, body) => OwnCalls(body)
    case FunctionDef(_, _, _) => {}
    case Plain(calls, blocks) => (set c <- calls) + OwnCallsIn(blocks)
  }

  function OwnCallsIn(blocks: seq<Block>): set<Callee> {
    if blocks == [] then {} else OwnCallsIn(blocks[..|blocks| - 1]) + OwnCalls(blocks[|blocks| - 1].body)
  }

  /** The calls recorded for the function with this body: its own, and those of definitions
      nested in one of its compound statements. */
  function CallsFor(body: seq<Stmt>): set<Callee> {
    if body == [] then {} else CallsFor(body[..|body| - 1]) + CallsForBy(body[|body| - 1])
  }

  function CallsForBy(s: Stmt): set<Callee> {
    match s
    case ClassDef(_, _, body) => CallsFor(body)
    case FunctionDef(_, _, _) => {}
    case Plain(_, _) => set c <- CallsBelow(s)
  }

  // -- what is recorded, exactly

  /** `call` is recorded for the function around the body, or for one defined in it. */
  ghost predicate BelongsTo(call: Call, enclosing: Option<Path>, around: set<Callee>, inside: set<(Path, seq<Stmt>)>) {
    || (enclosing == Some(call.0) && call.1 in around)
    || exists body :: (call.0, body) in inside && call.1 in CallsFor(body)
  }

  lemma {:induction false} RecordedExactly(body: seq<Stmt>, enclosing: Option<Path>, prefix: Path, call: Call)
    ensures call in Recorded(body, enclosing, prefix)
       <==> BelongsTo(call, enclosing, CallsFor(body), Functions(body, prefix))
    decreases body
  {
    if body != [] {
      RecordedExactly(body[..|body| - 1], enclosing, prefix, call);
      RecordedByExactly(body[|body| - 1], enclosing, prefix, call);
    }
  }

  lemma {:induction false} RecordedByExactly(s: Stmt, enclosing: Option<Path>, prefix: Path, call: Call)
    ensures call in RecordedBy(s, enclosing, prefix)
       <==> BelongsTo(call, enclosing, CallsForBy(s), FunctionsOf(s, prefix))
    decreases s
  {
    match s {
      case ClassDef(name, _, body) => RecordedExactly(body, enclosing, prefix + [name], call);
      case FunctionDef(name, _, body) =>
        RecordedExactly(body, Some(prefix + [name]), prefix + [name], call);
        assert call.0 == prefix + [name] && call.1 in CallsFor(body) ==> (call.0, body) in FunctionsOf(s, prefix);
      case Plain(_, blocks) =>
        RecordedInExactly(blocks, enclosing, prefix, call);
        if call.1 in CallsForIn(blocks) { CallsForWithin(blocks, call.1); }
    }
  }

  lemma {:induction false} RecordedInExactly(blocks: seq<Block>, enclosing: Option<Path>, prefix: Path, call: Call)
    ensures call in RecordedIn(blocks, enclosing, prefix)
       <==> BelongsTo(call, enclosing, CallsForIn(blocks), FunctionsIn(blocks, prefix))
    decreases blocks
  {
    if blocks != [] {
      RecordedInExactly(blocks[..|blocks| - 1], enclosing, prefix, call);
      RecordedExactly(blocks[|blocks| - 1].body, enclosing, prefix, call);
    }
  }

  function CallsForIn(blocks: seq<Block>): set<Callee> {
    if blocks == [] then {} else CallsForIn(blocks[..|blocks| - 1]) + CallsFor(blocks[|blocks| - 1].body)
  }

  lemma {:induction false} CallsForWithin(blocks: seq<Block>, c: Callee)
    requires c in CallsForIn(blocks)
    ensures c in CallsInBlocks(blocks)
    decreases blocks
  {
    if c in CallsForIn(blocks[..|blocks| - 1]) {
      CallsForWithin(blocks[..|blocks| - 1], c);
    } else {
      CallsForBodyWithin(blocks[|blocks| - 1].body, c);
    }
  }

  lemma {:induction false} CallsForBodyWithin(body: seq<Stmt>, c: Callee)
    requires c in CallsFor(body)
    ensures c in CallsIn(body)
    decreases body
  {
    var last := body[|body| - 1];
    if c in CallsFor(body[..|body| - 1]) {
      CallsForBodyWithin(body[..|body| - 1], c);
    } else if last.ClassDef? {
      CallsForBodyWithin(last.body, c);
      assert c in CallsBelow(last);
    }
  }

  lemma {:induction false} OwnCallsRecorded(body: seq<Stmt>, c: Callee)
    requires c in OwnCalls(body)
    ensures c in CallsFor(body)
    decreases body
  {
    var last := body[|body| - 1];
    if c in OwnCalls(body[..|body| - 1]) {
      OwnCallsRecorded(body[..|body| - 1], c);
    } else if last.ClassDef? {
      OwnCallsRecorded(last.body, c);
    } else if c !in last.calls {
      OwnCallsBelow(last.blocks, c);
      assert c in CallsBelow(last);
    }
  }

  lemma {:induction false} OwnCallsBelow(blocks: seq<Block>, c: Callee)
    requires c in OwnCallsIn(blocks)
    ensures c in CallsInBlocks(blocks)
    decreases blocks
  {
    if c in OwnCallsIn(blocks[..|blocks| - 1]) {
      OwnCallsBelow(blocks[..|blocks| - 1], c);
    } else {
      OwnCallsRecorded(blocks[|blocks| - 1].body, c);
      CallsForBodyWithin(blocks[|blocks| - 1].body, c);
    }
  }

  // -- the two traversals agree on names

  predicate Emits(symbols: seq<Symbol>, fqn: Path) {
    exists s <- symbols :: s.fqn == fqn && s.kind != Class
  }

  lemma EmitsAppend(a: seq<Symbol>, b: seq<Symbol>, fqn: Path)
    ensures Emits(a + b, fqn) <==> Emits(a, fqn) || Emits(b, fqn)
  {
    if s :| s in a + b && s.fqn == fqn && s.kind != Class {
      assert s in a || s in b;
    }
    if s :| s in a && s.fqn == fqn && s.kind != Class { assert s in a + b; }
    if s :| s in b && s.fqn == fqn && s.kind != Class { assert s in a + b; }
  }

  ghost predicate Defines(functions: set<(Path, seq<Stmt>)>, fqn: Path) {
    exists body :: (fqn, body) in functions
  }

  /** The function and method symbols are exactly the names of the function definitions. */
  lemma {:induction false} TraversalsAgree(body: seq<Stmt>, prefix: Path, insideClass: bool, fqn: Path)
    ensures Emits(Emitted(body, prefix, insideClass), fqn) <==> Defines(Functions(body, prefix), fqn)
    decreases body
  {
    if body != [] {
      TraversalsAgree(body[..|body| - 1], prefix, insideClass, fqn);
      TraversalsAgreeBy(body[|body| - 1], prefix, insideClass, fqn);
      EmitsAppend(Emitted(body[..|body| - 1], prefix, insideClass),
                  EmittedBy(body[|body| - 1], prefix, insideClass), fqn);
    }
  }

  lemma {:induction false} TraversalsAgreeBy(s: Stmt, prefix: Path, insideClass: bool, fqn: Path)
    ensures Emits(EmittedBy(s, prefix, insideClass), fqn) <==> Defines(FunctionsOf(s, prefix), fqn)
    decreases s
  {
    match s {
      case ClassDef(name, _, body) =>
        TraversalsAgree(body, prefix + [name], true, fqn);
        EmitsAppend([Symbol(prefix + [name], Class)], Emitted(body, prefix + [name], true), fqn);
      case FunctionDef(name, _, body) =>
        var f := Symbol(prefix + [name], if insideClass then Method else Function);
        TraversalsAgree(body, prefix + [name], false, fqn);
        EmitsAppend([f], Emitted(body, prefix + [name], false), fqn);
        assert f in [f] && (prefix + [name], body) in FunctionsOf(s, prefix);
      case Plain(_, blocks) => TraversalsAgreeIn(blocks, prefix, insideClass, fqn);
    }
  }

  lemma {:induction false} TraversalsAgreeIn(blocks: seq<Block>, prefix: Path, insideClass: bool, fqn: Path)
    ensures Emits(EmittedIn(blocks, prefix, insideClass), fqn) <==> Defines(FunctionsIn(blocks, prefix), fqn)
    decreases blocks
  {
    if blocks != [] {
      var front, last := blocks[..|blocks| - 1], blocks[|blocks| - 1].body;
      TraversalsAgreeIn(front, prefix, insideClass, fqn);
      TraversalsAgree(last, prefix, insideClass, fqn);
      EmitsAppend(EmittedIn(front, prefix, insideClass), Emitted(last, prefix, insideClass), fqn);
    }
  }

  // -------------------------------------------------------------- main results --

  /** The bare name a call can be matched by. */
  function BareName(callee: Callee): Option<string> {
    match callee
    case Name(id) => Some(id)
    case Attribute(_, attr) => Some(attr)
    case Dynamic => None
  }

  /** A call that could mean a symbol of its bare name resolves to it, unless it is resolved
      to a single qualified match or the name has too many symbols to mean any. */
  lemma NoPlausibleCalleeIsMissed(m: Module, symbols: set<Path>, callee: Callee, p: Path)
    requires p in symbols && p != [] && BareName(callee) == Some(p[|p| - 1])
    ensures || p in Resolve(m, symbols, callee)
            || (exists q <- symbols :: Resolve(m, symbols, callee) == {q})
            || |Named(symbols, p[|p| - 1])| > MAX_NAME_MATCHES
    ensures |Resolve(m, symbols, callee)| <= MAX_NAME_MATCHES
  {
  }

  lemma ResolvesToSymbols(m: Module, symbols: set<Path>, callee: Callee)
    ensures Resolve(m, symbols, callee) <= symbols
  {
  }

  lemma EmittedIsIndexed(files: seq<Module>, m: Module, fqn: Path)
    requires m in files && Emits(Emitted(m.body, m.path, false), fqn)
    ensures fqn in Index(files)
  {
  }

  /** The graph is closed over the index: a caller is an emitted function or method, a callee
      an emitted symbol, and nothing calls itself. */
  lemma GraphIsClosed(files: seq<Module>, m: Module, caller: Path, callee: Path)
    requires m in files && Edge(m, Index(files), caller, callee)
    ensures Emits(Emitted(m.body, m.path, false), caller)
    ensures caller in Index(files) && callee in Index(files) && caller != callee
  {
    var c: Callee :| (caller, c) in Recorded(m.body, None, m.path) && callee in Resolve(m, Index(files), c);
    ResolvesToSymbols(m, Index(files), c);
    RecordedExactly(m.body, None, m.path, (caller, c));
    TraversalsAgree(m.body, m.path, false, caller);
    EmittedIsIndexed(files, m, caller);
  }

  /** Every resolvable call to something else, made by the statements of a function, is an
      edge from the innermost function it is in. */
  lemma GraphIsComplete(files: seq<Module>, m: Module, caller: Path, body: seq<Stmt>, call: Callee, callee: Path)
    requires (caller, body) in Functions(m.body, m.path) && call in OwnCalls(body)
    requires callee in Resolve(m, Index(files), call) && callee != caller
    ensures Edge(m, Index(files), caller, callee)
  {
    OwnCallsRecorded(body, call);
    RecordedExactly(m.body, None, m.path, (caller, call));
  }

  /** The one edge of a call that is resolved to a single match. */
  ghost predicate OneMatch(files: seq<Module>, m: Module, caller: Path, call: Callee, q: Path) {
    Resolve(m, Index(files), call) == {q} && (q == caller || Edge(m, Index(files), caller, q))
  }

  /** No plausible callee is missed: a call in a function's own statements that could mean an
      indexed symbol is an edge to it, unless the symbol is the function itself, the call has a
      single match, or the name has too many symbols to mean any. */
  lemma PlausibleCallsBecomeEdges(files: seq<Module>, m: Module, caller: Path, body: seq<Stmt>, call: Callee, p: Path)
    requires (caller, body) in Functions(m.body, m.path) && call in OwnCalls(body)
    requires p in Index(files) && p != [] && BareName(call) == Some(p[|p| - 1])
    ensures || Edge(m, Index(files), caller, p) || p == caller
            || (exists q :: OneMatch(files, m, caller, call, q))
            || |Named(Index(files), p[|p| - 1])| > MAX_NAME_MATCHES
  {
    NoPlausibleCalleeIsMissed(m, Index(files), call, p);
    if p in Resolve(m, Index(files), call) {
      if p != caller { GraphIsComplete(files, m, caller, body, call, p); }
    } else if q :| q in Index(files) && Resolve(m, Index(files), call) == {q} {
      if q != caller { GraphIsComplete(files, m, caller, body, call, q); }
      assert OneMatch(files, m, caller, call, q);
    }
  }

  /** The edges are exactly the resolvable calls of the bodies' statements, where a compound
      statement brings the calls of the definitions nested in it along. */
  lemma GraphExactly(files: seq<Module>, m: Module, caller: Path, callee: Path)
    ensures Edge(m, Index(files), caller, callee)
       <==> callee != caller
            && exists body, call ::
                 (caller, body) in Functions(m.body, m.path) && call in CallsFor(body)
                 && callee in Resolve(m, Index(files), call)
  {
    if Edge(m, Index(files), caller, callee) {
      var body, call := GraphIsSound(files, m, caller, callee);
    }
    if body, call :| (caller, body) in Functions(m.body, m.path) && call in CallsFor(body)
                     && callee in Resolve(m, Index(files), call) {
      RecordedExactly(m.body, None, m.path, (caller, call));
    }
  }

  /** Every edge comes from a call written somewhere inside a function of that name. */
  lemma GraphIsSound(files: seq<Module>, m: Module, caller: Path, callee: Path) returns (body: seq<Stmt>, call: Callee)
    requires Edge(m, Index(files), caller, callee)
    ensures (caller, body) in Functions(m.body, m.path) && call in CallsFor(body) && call in CallsIn(body)
    ensures callee in Resolve(m, Index(files), call)
  {
    call :| (caller, call) in Recorded(m.body, None, m.path) && callee in Resolve(m, Index(files), call);
    RecordedExactly(m.body, None, m.path, (caller, call));
    body :| (caller, body) in Functions(m.body, m.path) && call in CallsFor(body);
    CallsForBodyWithin(body, call);
  }
}
