/**
 Where the definitions of a module stand: chains of statements, from the outermost to the innermost.
 */
module Definitions {
  import opened Symbols

  /** The statement stands directly in the other one. */
  predicate StandsIn(inner: Stmt, s: Stmt) {
    if s.Plain? then exists block <- s.blocks :: inner in block.body else inner in s.body
  }

  /** From a statement of the body down to one that stands in it, statement by statement. */
  ghost predicate Leads(body: seq<Stmt>, chain: seq<Stmt>) {
    && chain != [] && chain[0] in body
    && forall i :: 0 <= i < |chain| - 1 ==> StandsIn(chain[i + 1], chain[i])
  }

  lemma LeadsOn(s: Stmt, inner: seq<Stmt>, chain: seq<Stmt>, body: seq<Stmt>)
    requires s in body && Leads(inner, chain) && StandsIn(chain[0], s)
    ensures Leads(body, [s] + chain) && ([s] + chain)[|chain|] == chain[|chain| - 1]
  {
    forall i | 0 <= i < |chain| ensures StandsIn(([s] + chain)[i + 1], ([s] + chain)[i]) {
      if i > 0 { assert StandsIn(chain[i], chain[i - 1]); }
    }
  }

  lemma LeadsBelow(body: seq<Stmt>, chain: seq<Stmt>)
    requires Leads(body, chain) && |chain| > 1
    ensures if chain[0].Plain? then exists block <- chain[0].blocks :: Leads(block.body, chain[1..])
            else Leads(chain[0].body, chain[1..])
  {
    assert StandsIn(chain[1], chain[0]);
    forall i | 0 <= i < |chain[1..]| - 1 ensures StandsIn(chain[1..][i + 1], chain[1..][i]) {
      assert StandsIn(chain[i + 2], chain[i + 1]);
    }
  }

  // ------------------------------------------------------------ what a chain defines --

  /** The names of the definitions along a chain. */
  function Names(chain: seq<Stmt>): Path {
    if chain == [] then [] else (if chain[0].Plain? then [] else [chain[0].name]) + Names(chain[1..])
  }

  /** The innermost definition of the chain is a class; without one, `insideClass` tells. */
  predicate EndsInClass(chain: seq<Stmt>, insideClass: bool) {
    if chain == [] then insideClass
    else EndsInClass(chain[1..], if chain[0].Plain? then insideClass else chain[0].ClassDef?)
  }

  function KindOf(chain: seq<Stmt>, insideClass: bool): Kind
    requires chain != []
  {
    if chain[|chain| - 1].ClassDef? then Class
    else if EndsInClass(chain[..|chain| - 1], insideClass) then Method
    else Function
  }

  /** The chain leads to the definition of this symbol. */
  ghost predicate Introduces(body: seq<Stmt>, chain: seq<Stmt>, prefix: Path, insideClass: bool, symbol: Symbol) {
    && Leads(body, chain) && !chain[|chain| - 1].Plain?
    && symbol == Symbol(prefix + Names(chain), KindOf(chain, insideClass))
  }

  /** What a definition or compound statement passes on to the statements in it. */
  function PrefixIn(s: Stmt, prefix: Path): Path {
    if s.Plain? then prefix else prefix + [s.name]
  }

  predicate ClassIn(s: Stmt, insideClass: bool) {
    if s.Plain? then insideClass else s.ClassDef?
  }

  lemma ChainGrows(s: Stmt, chain: seq<Stmt>, prefix: Path, insideClass: bool)
    requires chain != []
    ensures prefix + Names([s] + chain) == PrefixIn(s, prefix) + Names(chain)
    ensures KindOf([s] + chain, insideClass) == KindOf(chain, ClassIn(s, insideClass))
  {
    NamesGrow(s, chain);
    Regroup(prefix, if s.Plain? then [] else [s.name], Names(chain));
    KindGrows(s, chain, insideClass);
  }

  lemma Regroup(a: Path, b: Path, c: Path)
    ensures a + (b + c) == a + b + c && a + [] == a
  {
  }

  lemma KindGrows(s: Stmt, chain: seq<Stmt>, insideClass: bool)
    requires chain != []
    ensures KindOf([s] + chain, insideClass) == KindOf(chain, ClassIn(s, insideClass))
  {
    AllButLast([s], chain);
    ClassGrows(s, chain[..|chain| - 1], insideClass);
  }

  lemma AllButLast<T>(a: seq<T>, b: seq<T>)
    requires b != []
    ensures (a + b)[|a + b| - 1] == b[|b| - 1]
    ensures (a + b)[..|a + b| - 1] == a + b[..|b| - 1]
  {
  }

  lemma NamesGrow(s: Stmt, chain: seq<Stmt>)
    ensures Names([s] + chain) == (if s.Plain? then [] else [s.name]) + Names(chain)
  {
    assert ([s] + chain)[1..] == chain;
  }

  lemma ClassGrows(s: Stmt, chain: seq<Stmt>, insideClass: bool)
    ensures EndsInClass([s] + chain, insideClass) == EndsInClass(chain, ClassIn(s, insideClass))
  {
    assert ([s] + chain)[1..] == chain;
  }

  lemma NamesOfOne(s: Stmt)
    ensures Names([s]) == if s.Plain? then [] else [s.name]
  {
    assert [s][1..] == [] && Names([]) == [];
  }

  lemma {:induction false} EmittedIs(body: seq<Stmt>, prefix: Path, insideClass: bool, symbol: Symbol)
    ensures symbol in Emitted(body, prefix, insideClass)
       <==> exists s <- body :: symbol in EmittedBy(s, prefix, insideClass)
  {
    if body != [] {
      var front, last := body[..|body| - 1], body[|body| - 1];
      EmittedIs(front, prefix, insideClass, symbol);
      if s :| s in front && symbol in EmittedBy(s, prefix, insideClass) {
        assert s in body;
      }
      if s :| s in body && symbol in EmittedBy(s, prefix, insideClass) {
        assert s in front || s == last;
      }
    }
  }

  lemma {:induction false} EmittedInIs(blocks: seq<Block>, prefix: Path, insideClass: bool, symbol: Symbol)
    ensures symbol in EmittedIn(blocks, prefix, insideClass)
       <==> exists block <- blocks :: symbol in Emitted(block.body, prefix, insideClass)
  {
    if blocks != [] {
      var front, last := blocks[..|blocks| - 1], blocks[|blocks| - 1];
      EmittedInIs(front, prefix, insideClass, symbol);
      assert symbol in EmittedIn(blocks, prefix, insideClass)
        <==> symbol in EmittedIn(front, prefix, insideClass) || symbol in Emitted(last.body, prefix, insideClass);
      assert forall block :: block in blocks <==> block in front || block == last;
    }
  }

  lemma EmittedByIs(s: Stmt, prefix: Path, insideClass: bool, symbol: Symbol)
    ensures symbol in EmittedBy(s, prefix, insideClass)
       <==> || (!s.Plain? && symbol == Symbol(prefix + [s.name], KindOf([s], insideClass)))
            || (if s.Plain? then exists block <- s.blocks :: symbol in Emitted(block.body, prefix, insideClass)
                else symbol in Emitted(s.body, prefix + [s.name], s.ClassDef?))
  {
    assert [s][..0] == [];
    if s.Plain? {
      EmittedInIs(s.blocks, prefix, insideClass, symbol);
    }
  }

  lemma {:induction false} FindDefinition(body: seq<Stmt>, prefix: Path, insideClass: bool, symbol: Symbol)
    returns (chain: seq<Stmt>)
    requires symbol in Emitted(body, prefix, insideClass)
    ensures Introduces(body, chain, prefix, insideClass, symbol)
    decreases body
  {
    EmittedIs(body, prefix, insideClass, symbol);
    var s :| s in body && symbol in EmittedBy(s, prefix, insideClass);
    EmittedByIs(s, prefix, insideClass, symbol);
    if !s.Plain? && symbol == Symbol(prefix + [s.name], KindOf([s], insideClass)) {
      NamesOfOne(s);
      chain := [s];
    } else if s.Plain? {
      var block :| block in s.blocks && symbol in Emitted(block.body, prefix, insideClass);
      var rest := FindDefinition(block.body, prefix, insideClass, symbol);
      LeadsOn(s, block.body, rest, body);
      ChainGrows(s, rest, prefix, insideClass);
      chain := [s] + rest;
    } else {
      var rest := FindDefinition(s.body, prefix + [s.name], s.ClassDef?, symbol);
      LeadsOn(s, s.body, rest, body);
      ChainGrows(s, rest, prefix, insideClass);
      chain := [s] + rest;
    }
  }

  lemma {:induction false} FollowDefinition(body: seq<Stmt>, chain: seq<Stmt>, prefix: Path, insideClass: bool,
                                            symbol: Symbol)
    requires Introduces(body, chain, prefix, insideClass, symbol)
    ensures symbol in Emitted(body, prefix, insideClass)
    decreases |chain|
  {
    var s := chain[0];
    if |chain| > 1 {
      LeadsBelow(body, chain);
      assert chain == [s] + chain[1..];
      ChainGrows(s, chain[1..], prefix, insideClass);
      if s.Plain? {
        var block :| block in s.blocks && Leads(block.body, chain[1..]);
        FollowDefinition(block.body, chain[1..], prefix, insideClass, symbol);
      } else {
        FollowDefinition(s.body, chain[1..], prefix + [s.name], s.ClassDef?, symbol);
      }
    } else {
      NamesOfOne(s);
      assert chain == [s];
    }
    EmittedByIs(s, prefix, insideClass, symbol);
    EmittedIs(body, prefix, insideClass, symbol);
  }

  /** Exactly the definitions are emitted, each under the names that lead to it, and a function as a
      method exactly if the innermost definition around it is a class. */
  lemma EmittedExactly(body: seq<Stmt>, prefix: Path, insideClass: bool, symbol: Symbol)
    ensures symbol in Emitted(body, prefix, insideClass)
       <==> exists chain :: Introduces(body, chain, prefix, insideClass, symbol)
  {
    if symbol in Emitted(body, prefix, insideClass) {
      var chain := FindDefinition(body, prefix, insideClass, symbol);
    }
    if chain :| Introduces(body, chain, prefix, insideClass, symbol) {
      FollowDefinition(body, chain, prefix, insideClass, symbol);
    }
  }

  // ----------------------------------------------------------------------- the order --

  ghost predicate NamedBefore(found: seq<Symbol>, name: Path, k: nat) {
    exists j :: 0 <= j < k && j < |found| && found[j].fqn == name
  }

  /** Every symbol that is nested in another follows one with that one's name. */
  ghost predicate ParentsFirst(found: seq<Symbol>, prefix: Path) {
    forall k :: 0 <= k < |found| ==>
      && |found[k].fqn| > |prefix|
      && (|found[k].fqn| > |prefix| + 1 ==> NamedBefore(found, found[k].fqn[..|found[k].fqn| - 1], k))
  }

  lemma NamedBeforeShifts(a: seq<Symbol>, b: seq<Symbol>, name: Path, k: nat)
    requires k < |b| && NamedBefore(b, name, k)
    ensures NamedBefore(a + b, name, |a| + k)
  {
    var j :| 0 <= j < k && b[j].fqn == name;
    assert (a + b)[|a| + j] == b[j];
  }

  lemma ParentsFirstJoin(a: seq<Symbol>, b: seq<Symbol>, prefix: Path)
    requires ParentsFirst(a, prefix) && ParentsFirst(b, prefix)
    ensures ParentsFirst(a + b, prefix)
  {
    var all := a + b;
    forall k | 0 <= k < |all|
      ensures |all[k].fqn| > |prefix|
      ensures |all[k].fqn| > |prefix| + 1 ==> NamedBefore(all, all[k].fqn[..|all[k].fqn| - 1], k) {
      if k < |a| {
        assert all[k] == a[k];
        if |all[k].fqn| > |prefix| + 1 {
          var j :| 0 <= j < k && a[j].fqn == a[k].fqn[..|a[k].fqn| - 1];
          assert all[j] == a[j];
        }
      } else {
        assert all[k] == b[k - |a|];
        if |all[k].fqn| > |prefix| + 1 {
          NamedBeforeShifts(a, b, all[k].fqn[..|all[k].fqn| - 1], k - |a|);
        }
      }
    }
  }

  lemma ParentComesFirst(parent: Symbol, found: seq<Symbol>, prefix: Path)
    requires |parent.fqn| == |prefix| + 1 && ParentsFirst(found, parent.fqn)
    requires forall k :: 0 <= k < |found| ==> parent.fqn <= found[k].fqn
    ensures ParentsFirst([parent] + found, prefix)
  {
    var all := [parent] + found;
    forall k | 0 <= k < |all|
      ensures |all[k].fqn| > |prefix|
      ensures |all[k].fqn| > |prefix| + 1 ==> NamedBefore(all, all[k].fqn[..|all[k].fqn| - 1], k) {
      if k > 0 {
        var fqn := found[k - 1].fqn;
        assert all[k] == found[k - 1];
        if |fqn| > |parent.fqn| + 1 {
          NamedBeforeShifts([parent], found, fqn[..|fqn| - 1], k - 1);
        } else {
          assert all[0].fqn == fqn[..|fqn| - 1];
        }
      }
    }
  }

  lemma EmittedUnder(body: seq<Stmt>, prefix: Path, insideClass: bool)
    ensures forall s <- Emitted(body, prefix, insideClass) :: prefix <= s.fqn
  {
    forall s | s in Emitted(body, prefix, insideClass) ensures prefix <= s.fqn {
      var chain := FindDefinition(body, prefix, insideClass, s);
    }
  }

  /** A definition is emitted before those in it. */
  lemma {:induction false} EmittedInOrder(body: seq<Stmt>, prefix: Path, insideClass: bool)
    ensures ParentsFirst(Emitted(body, prefix, insideClass), prefix)
    decreases body
  {
    if body != [] {
      var front, last := body[..|body| - 1], body[|body| - 1];
      EmittedInOrder(front, prefix, insideClass);
      if last.Plain? {
        BlocksInOrder(last.blocks, prefix, insideClass);
      } else {
        EmittedInOrder(last.body, prefix + [last.name], last.ClassDef?);
        EmittedUnder(last.body, prefix + [last.name], last.ClassDef?);
        var parent := EmittedBy(last, prefix, insideClass)[0];
        ParentComesFirst(parent, Emitted(last.body, prefix + [last.name], last.ClassDef?), prefix);
      }
      ParentsFirstJoin(Emitted(front, prefix, insideClass), EmittedBy(last, prefix, insideClass), prefix);
    }
  }

  lemma {:induction false} BlocksInOrder(blocks: seq<Block>, prefix: Path, insideClass: bool)
    ensures ParentsFirst(EmittedIn(blocks, prefix, insideClass), prefix)
    decreases blocks
  {
    if blocks != [] {
      var front, last := blocks[..|blocks| - 1], blocks[|blocks| - 1];
      BlocksInOrder(front, prefix, insideClass);
      EmittedInOrder(last.body, prefix, insideClass);
      ParentsFirstJoin(EmittedIn(front, prefix, insideClass), Emitted(last.body, prefix, insideClass), prefix);
    }
  }
}
