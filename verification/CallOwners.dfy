/**
 Which function a call is charged to: when it is the innermost one alone.
 */
module CallOwners {
  import opened CallGraph
  import opened Symbols

  /** The calls a body takes over from definitions that stand below one of its compound
      statements: everything written in their headers and bodies. */
  function Hidden(body: seq<Stmt>): set<Callee> {
    if body == [] then {} else Hidden(body[..|body| - 1]) + HiddenBy(body[|body| - 1])
  }

  function HiddenBy(s: Stmt): set<Callee> {
    match s
    case ClassDef(_, _, body) => Hidden(body)
    case FunctionDef(_, _, _) => {}
    case Plain(_, blocks) => InDefinitions(blocks)
  }

  /** The calls written in the definitions below the blocks of a compound statement. */
  function InDefinitions(blocks: seq<Block>): set<Callee> {
    if blocks == [] then {}
    else InDefinitions(blocks[..|blocks| - 1]) + InDefinitionsOf(blocks[|blocks| - 1].body)
  }

  function InDefinitionsOf(body: seq<Stmt>): set<Callee> {
    if body == [] then {} else InDefinitionsOf(body[..|body| - 1]) + InDefinition(body[|body| - 1])
  }

  function InDefinition(s: Stmt): set<Callee> {
    if s.Plain? then InDefinitions(s.blocks) else set c <- CallsBelow(s)
  }

  /** No compound statement of the body holds a definition. */
  predicate Flat(body: seq<Stmt>) {
    forall s <- body :: match s
      case ClassDef(_, _, inner) => Flat(inner)
      case FunctionDef(_, _, _) => true
      case Plain(_, blocks) => NoDefinitions(blocks)
  }

  predicate NoDefinitions(blocks: seq<Block>) {
    forall b <- blocks, s <- b.body :: s.Plain? && NoDefinitions(s.blocks)
  }

  // ------------------------------------------------------------ own and hidden calls --

  /** Everything below a compound statement is an own call or hidden in a definition. */
  lemma {:induction false} BelowIsOwnOrHidden(blocks: seq<Block>, c: Callee)
    ensures c in CallsInBlocks(blocks) <==> c in OwnCallsIn(blocks) || c in InDefinitions(blocks)
    decreases blocks
  {
    if blocks != [] {
      BelowIsOwnOrHidden(blocks[..|blocks| - 1], c);
      InIsOwnOrHidden(blocks[|blocks| - 1].body, c);
    }
  }

  lemma {:induction false} InIsOwnOrHidden(body: seq<Stmt>, c: Callee)
    ensures c in CallsIn(body) <==> c in OwnCalls(body) || c in InDefinitionsOf(body)
    decreases body
  {
    if body != [] {
      var last := body[|body| - 1];
      InIsOwnOrHidden(body[..|body| - 1], c);
      if last.Plain? {
        BelowIsOwnOrHidden(last.blocks, c);
      } else if c in OwnCallsOf(last) {
        OwnCallsRecorded(last.body, c);
        CallsForBodyWithin(last.body, c);
        assert c in CallsBelow(last);
      }
    }
  }

  /** A function is charged exactly its own calls and the hidden ones. */
  lemma {:induction false} ChargedIsOwnOrHidden(body: seq<Stmt>, c: Callee)
    ensures c in CallsFor(body) <==> c in OwnCalls(body) || c in Hidden(body)
    decreases body
  {
    if body != [] {
      var last := body[|body| - 1];
      ChargedIsOwnOrHidden(body[..|body| - 1], c);
      if last.Plain? {
        BelowIsOwnOrHidden(last.blocks, c);
      } else if last.ClassDef? {
        ChargedIsOwnOrHidden(last.body, c);
      }
    }
  }

  /** A function is charged its own calls alone exactly if it makes every hidden call itself. */
  lemma InnermostAloneExactlyWhen(body: seq<Stmt>)
    ensures CallsFor(body) == OwnCalls(body) + Hidden(body)
    ensures CallsFor(body) == OwnCalls(body) <==> Hidden(body) <= OwnCalls(body)
  {
    forall c ensures c in CallsFor(body) <==> c in OwnCalls(body) || c in Hidden(body) {
      ChargedIsOwnOrHidden(body, c);
    }
  }

  lemma {:induction false} FlatHidesNothing(body: seq<Stmt>)
    requires Flat(body)
    ensures Hidden(body) == {}
    decreases body
  {
    if body != [] {
      var front, last := body[..|body| - 1], body[|body| - 1];
      assert last in body && forall s <- front :: s in body;
      FlatHidesNothing(front);
      if last.ClassDef? {
        FlatHidesNothing(last.body);
      } else if last.Plain? {
        NothingInDefinitions(last.blocks);
      }
    }
  }

  lemma {:induction false} NothingInDefinitions(blocks: seq<Block>)
    requires NoDefinitions(blocks)
    ensures InDefinitions(blocks) == {}
    decreases blocks
  {
    if blocks != [] {
      var last := blocks[|blocks| - 1];
      assert last in blocks;
      NothingInDefinitions(blocks[..|blocks| - 1]);
      NothingInDefinitionsOf(last.body);
    }
  }

  lemma {:induction false} NothingInDefinitionsOf(body: seq<Stmt>)
    requires forall s <- body :: s.Plain? && NoDefinitions(s.blocks)
    ensures InDefinitionsOf(body) == {}
    decreases body
  {
    if body != [] {
      NothingInDefinitionsOf(body[..|body| - 1]);
      assert body[|body| - 1] in body;
      NothingInDefinitions(body[|body| - 1].blocks);
    }
  }

  // ------------------------------------------------------------------------ edges --

  /** Some call of a function of this name, among those `calls` picks from its body, is one to the callee. */
  ghost predicate Calls(m: Module, symbols: set<Path>, caller: Path, callee: Path, calls: seq<Stmt> -> set<Callee>) {
    exists body, c ::
      (caller, body) in Functions(m.body, m.path) && c in calls(body) && callee in Resolve(m, symbols, c)
  }

  /** The edges whose caller is the innermost function around the call, and those from a hidden call. */
  ghost predicate OwnEdge(m: Module, symbols: set<Path>, caller: Path, callee: Path) {
    caller != callee && Calls(m, symbols, caller, callee, OwnCalls)
  }

  ghost predicate HiddenEdge(m: Module, symbols: set<Path>, caller: Path, callee: Path) {
    caller != callee && Calls(m, symbols, caller, callee, Hidden)
  }

  /** An edge comes from an own call of its caller or from a call hidden in it. */
  lemma EdgesAreOwnOrHidden(files: seq<Module>, m: Module, caller: Path, callee: Path)
    ensures Edge(m, Index(files), caller, callee)
       <==> OwnEdge(m, Index(files), caller, callee) || HiddenEdge(m, Index(files), caller, callee)
  {
    GraphExactly(files, m, caller, callee);
    if Edge(m, Index(files), caller, callee) {
      var body, c := GraphIsSound(files, m, caller, callee);
      ChargedIsOwnOrHidden(body, c);
      assert if c in OwnCalls(body) then Calls(m, Index(files), caller, callee, OwnCalls)
             else Calls(m, Index(files), caller, callee, Hidden);
    }
    if body, c :|
      (caller, body) in Functions(m.body, m.path) && c in OwnCalls(body) && callee in Resolve(m, Index(files), c)
    {
      ChargedIsOwnOrHidden(body, c);
    }
    if body, c :|
      (caller, body) in Functions(m.body, m.path) && c in Hidden(body) && callee in Resolve(m, Index(files), c)
    {
      ChargedIsOwnOrHidden(body, c);
    }
  }

  /** Every edge starts at the innermost function around its call exactly if the functions of
      the same name make for themselves whatever hidden calls resolve to. */
  lemma EdgesAreInnermostExactlyWhen(files: seq<Module>, m: Module)
    ensures (forall caller, callee ::
               Edge(m, Index(files), caller, callee) <==> OwnEdge(m, Index(files), caller, callee))
       <==> (forall caller, callee ::
               HiddenEdge(m, Index(files), caller, callee) ==> OwnEdge(m, Index(files), caller, callee))
  {
    forall caller, callee
      ensures Edge(m, Index(files), caller, callee)
         <==> OwnEdge(m, Index(files), caller, callee) || HiddenEdge(m, Index(files), caller, callee)
    {
      EdgesAreOwnOrHidden(files, m, caller, callee);
    }
  }

  /** In particular where no function has a definition below a compound statement. */
  lemma FlatFunctionsHaveInnermostEdges(files: seq<Module>, m: Module, caller: Path, callee: Path)
    requires forall fqn, body :: (fqn, body) in Functions(m.body, m.path) ==> Flat(body)
    ensures Edge(m, Index(files), caller, callee) <==> OwnEdge(m, Index(files), caller, callee)
  {
    EdgesAreOwnOrHidden(files, m, caller, callee);
    if body, c :|
      (caller, body) in Functions(m.body, m.path) && c in Hidden(body) && callee in Resolve(m, Index(files), c)
    {
      FlatHidesNothing(body);
    }
  }

  /** The smallest case of a call that is charged twice: the function that makes it is defined
      below a compound statement of another. */
  lemma NestedCallsCountTwice(prefix: Path, call: Callee) returns (outer: seq<Stmt>, inner: seq<Stmt>)
    ensures (prefix + ["g"], inner) in Functions(outer, prefix)
    ensures call in OwnCalls(inner) && call in CallsFor(inner)
    ensures call !in OwnCalls(outer) && call in CallsFor(outer)
  {
    inner := [Plain([call], [])];
    var g := FunctionDef("g", [], inner);
    var compound := Plain([], [Block([g])]);
    outer := [compound];
    assert inner[..0] == [] && outer[..0] == [] && [g][..0] == [] && compound.blocks[..0] == [];
    assert call in CallsBelow(inner[0]) && CallsIn(inner) == [] + CallsBelow(inner[0]);
    assert CallsIn([g]) == [] + CallsBelow(g) && CallsInBlocks(compound.blocks) == [] + CallsIn([g]);
    assert FunctionsIn(compound.blocks, prefix) == {} + Functions([g], prefix);
    assert Functions([g], prefix) == {} + FunctionsOf(g, prefix);
    assert OwnCallsIn(compound.blocks) == {} + OwnCalls([g]) && OwnCalls([g]) == {};
  }
}
