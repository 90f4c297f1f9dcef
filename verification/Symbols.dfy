/**
 Definitions of a Python module, by dotted name.

 A dotted name is the sequence of its parts. A statement keeps what the two traversals
 look at: definitions with their bodies, and any other statement with the calls in its own
 expressions and its nested blocks.
 */
module Symbols {
  import opened Options

  type Path = seq<string>

  /** What a call expression calls: `id(...)`, `base.attr(...)` or `<expression>.attr(...)`, anything else. */
  datatype Callee = Name(id: string) | Attribute(base: Option<string>, attr: string) | Dynamic

  /** `header` are the calls in decorators, default arguments and base classes. */
  datatype Stmt =
    | ClassDef(name: string, header: seq<Callee>, body: seq<Stmt>)
    | FunctionDef(name: string, header: seq<Callee>, body: seq<Stmt>)
    | Plain(calls: seq<Callee>, blocks: seq<Block>)

  datatype Block = Block(body: seq<Stmt>)

  datatype Kind = Class | Method | Function

  datatype Symbol = Symbol(fqn: Path, kind: Kind)

  /** The symbols of a body, in the order they are found. */
  function Emitted(body: seq<Stmt>, prefix: Path, insideClass: bool): seq<Symbol> {
    if body == [] then []
    else Emitted(body[..|body| - 1], prefix, insideClass) + EmittedBy(body[|body| - 1], prefix, insideClass)
  }

  function EmittedBy(s: Stmt, prefix: Path, insideClass: bool): seq<Symbol> {
    match s
    case ClassDef(name, _, body) => [Symbol(prefix + [name], Class)] + Emitted(body, prefix + [name], true)
    case FunctionDef(name, _, body) =>
      [Symbol(prefix + [name], if insideClass then Method else Function)] + Emitted(body, prefix + [name], false)
    case Plain(_, blocks) => EmittedIn(blocks, prefix, insideClass)
  }

  function EmittedIn(blocks: seq<Block>, prefix: Path, insideClass: bool): seq<Symbol> {
    if blocks == [] then []
    else EmittedIn(blocks[..|blocks| - 1], prefix, insideClass)
         + Emitted(blocks[|blocks| - 1].body, prefix, insideClass)
  }

  /** `symbols_in_file`, for a file that parses. */
  class SymbolWalker {
    var found: seq<Symbol>

    constructor ()
      ensures found == []
    {
      found := [];
    }

    /** `_walk` */
    method Walk(body: seq<Stmt>, prefix: Path, insideClass: bool)
      modifies this
      ensures found == old(found) + Emitted(body, prefix, insideClass)
      decreases body
    {
      for i := 0 to |body|
        invariant found == old(found) + Emitted(body[..i], prefix, insideClass)
      {
        WalkStatement(body[i], prefix, insideClass);
        assert body[..i + 1][..i] == body[..i];
      }
      assert body[..|body|] == body;
    }

    method WalkStatement(s: Stmt, prefix: Path, insideClass: bool)
      modifies this
      ensures found == old(found) + EmittedBy(s, prefix, insideClass)
      decreases s
    {
      match s {
        case ClassDef(name, _, body) =>
          found := found + [Symbol(prefix + [name], Class)];
          Walk(body, prefix + [name], true);
        case FunctionDef(name, _, body) =>
          found := found + [Symbol(prefix + [name], if insideClass then Method else Function)];
          Walk(body, prefix + [name], false);
        case Plain(_, blocks) =>
          // A compound statement opens no scope.
          for j := 0 to |blocks|
            invariant found == old(found) + EmittedIn(blocks[..j], prefix, insideClass)
          {
            Walk(blocks[j].body, prefix, insideClass);
            assert blocks[..j + 1][..j] == blocks[..j];
          }
          assert blocks[..|blocks|] == blocks;
      }
    }
  }
}
