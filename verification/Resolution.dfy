/**
 What a call means, and where it is written.
 */
module Resolution {
  import opened CallGraph
  import opened Definitions
  import opened Options
  import opened Symbols

  // ------------------------------------------------------------- what a call means --

  /** The ways to read a call, the best first: a name of this module, a name it imports, any symbol
      with that last name. */
  datatype Reading = Local | Imported | Anywhere

  /** What the alias stands for, if it stands for anything. */
  ghost predicate StandsFor(m: Module, alias: string, target: Path) {
    alias in m.imports && m.imports[alias] == target && target != NOTHING
  }

  /** The symbols of that last name, if there are at most eight. */
  ghost predicate OneOfFew(symbols: set<Path>, name: string, p: Path) {
    p != [] && p[|p| - 1] == name && |set q <- symbols | q != [] && q[|q| - 1] == name| <= 8
  }

  ghost predicate Reads(m: Module, symbols: set<Path>, call: Callee, reading: Reading, p: Path) {
    && p in symbols
    && match (call, reading)
       case (Name(id), Local) => p == m.path + [id]
       case (Name(id), Imported) => StandsFor(m, id, p)
       case (Name(id), Anywhere) => OneOfFew(symbols, id, p)
       case (Attribute(base, attr), Imported) =>
         base.Some? && p != [] && p[|p| - 1] == attr && StandsFor(m, base.value, p[..|p| - 1])
       case (Attribute(_, attr), Anywhere) => OneOfFew(symbols, attr, p)
       case _ => false
  }

  predicate Better(a: Reading, b: Reading) {
    (a.Local? && !b.Local?) || (a.Imported? && b.Anywhere?)
  }

  /** The symbol is what the best reading that finds one finds. */
  ghost predicate Means(m: Module, symbols: set<Path>, call: Callee, p: Path) {
    exists reading :: Reads(m, symbols, call, reading, p)
      && forall other, q :: Better(other, reading) ==> !Reads(m, symbols, call, other, q)
  }

  /** What one reading finds. */
  ghost function Found(m: Module, symbols: set<Path>, call: Callee, reading: Reading): set<Path> {
    set p <- symbols | Reads(m, symbols, call, reading, p)
  }

  lemma BestOf(m: Module, symbols: set<Path>, call: Callee, p: Path)
    ensures var local, imported := Found(m, symbols, call, Local), Found(m, symbols, call, Imported);
            Means(m, symbols, call, p)
            <==> p in if local != {} then local else if imported != {} then imported
              else Found(m, symbols, call, Anywhere)
  {
    var local, imported := Found(m, symbols, call, Local), Found(m, symbols, call, Imported);
    assert forall reading, q :: Reads(m, symbols, call, reading, q) <==> q in Found(m, symbols, call, reading);
    if local != {} {
      var q :| q in local;
      assert Better(Local, Imported) && Better(Local, Anywhere) && Reads(m, symbols, call, Local, q);
    } else if imported != {} {
      var q :| q in imported;
      assert Better(Imported, Anywhere) && Reads(m, symbols, call, Imported, q);
    }
  }

  lemma LocalIs(m: Module, symbols: set<Path>, call: Callee)
    ensures Found(m, symbols, call, Local) == if call.Name? then symbols * {m.path + [call.id]} else {}
  {
  }

  predicate Imports(m: Module, alias: string) {
    alias in m.imports && m.imports[alias] != NOTHING
  }

  lemma ImportedIs(m: Module, symbols: set<Path>, call: Callee)
    ensures Found(m, symbols, call, Imported) == match call
      case Name(id) => if Imports(m, id) then symbols * {m.imports[id]} else {}
      case Attribute(base, attr) =>
        if base.Some? && Imports(m, base.value) then symbols * {m.imports[base.value] + [attr]} else {}
      case Dynamic => {}
  {
    if call.Attribute? {
      forall p | p in Found(m, symbols, call, Imported)
        ensures p == m.imports[call.base.value] + [call.attr] {
        assert p == p[..|p| - 1] + [p[|p| - 1]];
      }
      if call.base.Some? && call.base.value in m.imports {
        var target := m.imports[call.base.value];
        assert (target + [call.attr])[..|target + [call.attr]| - 1] == target;
      }
    }
  }

  lemma AnywhereIs(m: Module, symbols: set<Path>, call: Callee)
    ensures Found(m, symbols, call, Anywhere) == match call
      case Name(id) => Fallback(symbols, id)
      case Attribute(_, attr) => Fallback(symbols, attr)
      case Dynamic => {}
  {
  }

  /** A call resolves to what its best reading finds. */
  lemma ResolvesToTheBest(m: Module, symbols: set<Path>, call: Callee, p: Path)
    ensures p in Resolve(m, symbols, call) <==> Means(m, symbols, call, p)
  {
    forall x ensures symbols * {x} == if x in symbols then {x} else {} {
    }
    BestOf(m, symbols, call, p);
    LocalIs(m, symbols, call);
    ImportedIs(m, symbols, call);
    AnywhereIs(m, symbols, call);
  }

  // --------------------------------------------------------- where a call is written --

  /** The calls of the statement's own expressions. */
  function Written(s: Stmt): seq<Callee> {
    if s.Plain? then s.calls else s.header
  }

  /** A call of the body: any, or only those that belong to no function defined in it. */
  predicate Within(body: seq<Stmt>, c: Callee, own: bool) {
    if own then c in OwnCalls(body) else c in CallsIn(body)
  }

  predicate WithinOne(s: Stmt, c: Callee, own: bool) {
    if own then c in OwnCallsOf(s) else c in CallsBelow(s)
  }

  lemma {:induction false} WithinBlocks(blocks: seq<Block>, c: Callee)
    ensures c in CallsInBlocks(blocks) <==> exists block <- blocks :: c in CallsIn(block.body)
    ensures c in OwnCallsIn(blocks) <==> exists block <- blocks :: c in OwnCalls(block.body)
  {
    if blocks != [] {
      var front, last := blocks[..|blocks| - 1], blocks[|blocks| - 1];
      WithinBlocks(front, c);
      assert forall block :: block in blocks <==> block in front || block == last;
    }
  }

  lemma WithinOneIs(s: Stmt, c: Callee, own: bool)
    ensures WithinOne(s, c, own)
       <==> || (c in Written(s) && (own ==> s.Plain?))
            || (if s.Plain? then exists block <- s.blocks :: Within(block.body, c, own)
                else Within(s.body, c, own) && (own ==> s.ClassDef?))
  {
    if s.Plain? {
      WithinBlocks(s.blocks, c);
    }
  }

  /** The chain leads to a statement in which the call is written. If only own calls are meant, it
      enters no function and ends at a statement that is no definition. */
  ghost predicate LeadsTo(body: seq<Stmt>, chain: seq<Stmt>, c: Callee, own: bool) {
    && Leads(body, chain) && c in Written(chain[|chain| - 1])
    && (own ==> chain[|chain| - 1].Plain? && forall s <- chain :: !s.FunctionDef?)
  }

  lemma {:induction false} WithinIs(body: seq<Stmt>, c: Callee, own: bool)
    ensures Within(body, c, own) <==> exists s <- body :: WithinOne(s, c, own)
  {
    if body != [] {
      var front, last := body[..|body| - 1], body[|body| - 1];
      WithinIs(front, c, own);
      assert Within(body, c, own) <==> Within(front, c, own) || WithinOne(last, c, own);
      assert forall s :: s in body <==> s in front || s == last;
    }
  }

  lemma {:induction false} FindChain(body: seq<Stmt>, c: Callee, own: bool) returns (chain: seq<Stmt>)
    requires Within(body, c, own)
    ensures LeadsTo(body, chain, c, own)
    decreases body
  {
    WithinIs(body, c, own);
    var s :| s in body && WithinOne(s, c, own);
    WithinOneIs(s, c, own);
    if c in Written(s) && (own ==> s.Plain?) {
      chain := [s];
    } else if s.Plain? {
      var block :| block in s.blocks && Within(block.body, c, own);
      var rest := FindChain(block.body, c, own);
      LeadsOn(s, block.body, rest, body);
      chain := [s] + rest;
    } else {
      var rest := FindChain(s.body, c, own);
      LeadsOn(s, s.body, rest, body);
      chain := [s] + rest;
    }
  }

  lemma {:induction false} FollowChain(body: seq<Stmt>, chain: seq<Stmt>, c: Callee, own: bool)
    requires LeadsTo(body, chain, c, own)
    ensures Within(body, c, own)
    decreases |chain|
  {
    var s := chain[0];
    if |chain| > 1 {
      LeadsBelow(body, chain);
      if s.Plain? {
        var block :| block in s.blocks && Leads(block.body, chain[1..]);
        FollowChain(block.body, chain[1..], c, own);
      } else {
        FollowChain(s.body, chain[1..], c, own);
      }
    }
    WithinOneIs(s, c, own);
    WithinIs(body, c, own);
  }

  /** The calls below a body, and those that are its own, are exactly the calls that a chain of
      statements leads to. */
  lemma WrittenExactly(body: seq<Stmt>, c: Callee)
    ensures c in CallsIn(body) <==> exists chain :: LeadsTo(body, chain, c, false)
    ensures c in OwnCalls(body) <==> exists chain :: LeadsTo(body, chain, c, true)
  {
    if Within(body, c, false) { var chain := FindChain(body, c, false); }
    if Within(body, c, true) { var chain := FindChain(body, c, true); }
    if chain :| LeadsTo(body, chain, c, false) { FollowChain(body, chain, c, false); }
    if chain :| LeadsTo(body, chain, c, true) { FollowChain(body, chain, c, true); }
  }

  // -------------------------------------------------------- which functions there are --

  /** The chain leads to a definition of the function of this name, with this body. */
  ghost predicate DefinedBy(body: seq<Stmt>, chain: seq<Stmt>, prefix: Path, f: (Path, seq<Stmt>)) {
    && Leads(body, chain) && chain[|chain| - 1].FunctionDef?
    && f == (prefix + Names(chain), chain[|chain| - 1].body)
  }

  lemma {:induction false} FunctionsAre(body: seq<Stmt>, prefix: Path, f: (Path, seq<Stmt>))
    ensures f in Functions(body, prefix) <==> exists s <- body :: f in FunctionsOf(s, prefix)
  {
    if body != [] {
      var front, last := body[..|body| - 1], body[|body| - 1];
      FunctionsAre(front, prefix, f);
      if s :| s in front && f in FunctionsOf(s, prefix) {
        assert s in body;
      }
      if s :| s in body && f in FunctionsOf(s, prefix) {
        assert s in front || s == last;
      }
    }
  }

  lemma {:induction false} FunctionsInAre(blocks: seq<Block>, prefix: Path, f: (Path, seq<Stmt>))
    ensures f in FunctionsIn(blocks, prefix) <==> exists block <- blocks :: f in Functions(block.body, prefix)
  {
    if blocks != [] {
      var front, last := blocks[..|blocks| - 1], blocks[|blocks| - 1];
      FunctionsInAre(front, prefix, f);
      if block :| block in front && f in Functions(block.body, prefix) {
        assert block in blocks;
      }
      if block :| block in blocks && f in Functions(block.body, prefix) {
        assert block in front || block == last;
      }
    }
  }

  lemma FunctionsOfAre(s: Stmt, prefix: Path, f: (Path, seq<Stmt>))
    ensures f in FunctionsOf(s, prefix)
       <==> || (s.FunctionDef? && f == (prefix + [s.name], s.body))
            || (if s.Plain? then exists block <- s.blocks :: f in Functions(block.body, prefix)
                else f in Functions(s.body, prefix + [s.name]))
  {
    if s.Plain? {
      FunctionsInAre(s.blocks, prefix, f);
    }
  }

  lemma {:induction false} FindFunction(body: seq<Stmt>, prefix: Path, f: (Path, seq<Stmt>)) returns (chain: seq<Stmt>)
    requires f in Functions(body, prefix)
    ensures DefinedBy(body, chain, prefix, f)
    decreases body
  {
    FunctionsAre(body, prefix, f);
    var s :| s in body && f in FunctionsOf(s, prefix);
    FunctionsOfAre(s, prefix, f);
    if s.FunctionDef? && f == (prefix + [s.name], s.body) {
      NamesOfOne(s);
      chain := [s];
    } else if s.Plain? {
      var block :| block in s.blocks && f in Functions(block.body, prefix);
      var rest := FindFunction(block.body, prefix, f);
      LeadsOn(s, block.body, rest, body);
      ChainGrows(s, rest, prefix, false);
      chain := [s] + rest;
    } else {
      var rest := FindFunction(s.body, prefix + [s.name], f);
      LeadsOn(s, s.body, rest, body);
      ChainGrows(s, rest, prefix, false);
      chain := [s] + rest;
    }
  }

  lemma {:induction false} FollowFunction(body: seq<Stmt>, chain: seq<Stmt>, prefix: Path, f: (Path, seq<Stmt>))
    requires DefinedBy(body, chain, prefix, f)
    ensures f in Functions(body, prefix)
    decreases |chain|
  {
    var s := chain[0];
    if |chain| > 1 {
      LeadsBelow(body, chain);
      assert chain == [s] + chain[1..];
      ChainGrows(s, chain[1..], prefix, false);
      if s.Plain? {
        var block :| block in s.blocks && Leads(block.body, chain[1..]);
        FollowFunction(block.body, chain[1..], prefix, f);
      } else {
        FollowFunction(s.body, chain[1..], prefix + [s.name], f);
      }
    } else {
      NamesOfOne(s);
      assert chain == [s];
    }
    FunctionsOfAre(s, prefix, f);
    FunctionsAre(body, prefix, f);
  }

  // ------------------------------------------------------------------- the edges --

  /** Take any definition of a function and any call that is its own: what the call means, other than
      the function itself, is an edge from it. */
  lemma OwnCallsBecomeEdges(files: seq<Module>, m: Module, around: seq<Stmt>, body: seq<Stmt>, chain: seq<Stmt>,
                            call: Callee, callee: Path)
    requires DefinedBy(m.body, around, m.path, (m.path + Names(around), body)) && LeadsTo(body, chain, call, true)
    requires Means(m, Index(files), call, callee) && callee != m.path + Names(around)
    ensures Edge(m, Index(files), m.path + Names(around), callee)
  {
    FollowFunction(m.body, around, m.path, (m.path + Names(around), body));
    FollowChain(body, chain, call, true);
    ResolvesToTheBest(m, Index(files), call, callee);
    GraphIsComplete(files, m, m.path + Names(around), body, call, callee);
  }

  /** And every edge is what a call means that is written below a definition of a function of that name. */
  lemma EdgesComeFromCalls(files: seq<Module>, m: Module, caller: Path, callee: Path)
    returns (around: seq<Stmt>, body: seq<Stmt>, chain: seq<Stmt>, call: Callee)
    requires Edge(m, Index(files), caller, callee)
    ensures DefinedBy(m.body, around, m.path, (caller, body)) && LeadsTo(body, chain, call, false)
    ensures Means(m, Index(files), call, callee) && callee != caller
  {
    body, call := GraphIsSound(files, m, caller, callee);
    around := FindFunction(m.body, m.path, (caller, body));
    chain := FindChain(body, call, false);
    ResolvesToTheBest(m, Index(files), call, callee);
  }
}
