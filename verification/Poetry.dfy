/**
 Poetry's version constraints as PEP 440 specifiers, over final releases.

 A constraint is taken as split into clauses, and a release as its numbers.
 */
module Poetry {

  /** At least one number. */
  type Release = v: seq<nat> | v != [] witness [0]

  datatype Operator = Equal | Identical | NotEqual | AtMost | AtLeast | Below | Above | Compatible

  datatype Clause = Caret(v: Release) | Tilde(v: Release) | Compare(op: Operator, v: Release) | Star | Bare(v: Release)

  /** `Unrestricted` is the empty text or `*`; `Alternatives` is any text with `||` in it. */
  datatype Constraint = Unrestricted | Alternatives(options: seq<seq<Clause>>) | All(clauses: seq<Clause>)

  /** One comparison of a specifier; a specifier is a comma-separated list of them. */
  datatype Comparison = Comparison(op: Operator, v: Release)

  type Specifier = seq<Comparison>

  // ----------------------------------------------------------- release ordering --

  /** Releases are padded with zeros to compare them ("Version specifiers", PEP 440). */
  function At(v: Release, i: nat): nat {
    if i < |v| then v[i] else 0
  }

  ghost predicate SameBelow(a: Release, b: Release, k: nat) {
    forall i: nat :: i < k ==> At(a, i) == At(b, i)
  }

  ghost predicate Same(a: Release, b: Release) {
    forall i: nat :: At(a, i) == At(b, i)
  }

  ghost predicate LessAt(a: Release, b: Release, k: nat) {
    SameBelow(a, b, k) && At(a, k) < At(b, k)
  }

  ghost predicate Less(a: Release, b: Release) {
    exists k: nat :: LessAt(a, b, k)
  }

  lemma {:induction false} FirstDifference(a: Release, b: Release, from: nat, n: nat) returns (k: nat)
    requires SameBelow(a, b, from) && from <= n && (forall i: nat :: n <= i ==> At(a, i) == At(b, i))
    ensures SameBelow(a, b, k) && (At(a, k) != At(b, k) || Same(a, b))
    decreases n - from
  {
    if from == n || At(a, from) != At(b, from) {
      k := from;
    } else {
      k := FirstDifference(a, b, from + 1, n);
    }
  }

  lemma LessIsExclusive(a: Release, b: Release)
    ensures Less(a, b) ==> !Less(b, a) && !Same(a, b)
  {
    if Less(a, b) {
      var k: nat :| LessAt(a, b, k);
      forall l: nat ensures !LessAt(b, a, l) {
        assert l < k ==> At(a, l) == At(b, l);
        assert k < l && SameBelow(b, a, l) ==> At(b, k) == At(a, k);
      }
    }
  }

  /** Two releases are the same or one is less, never both. */
  lemma ReleasesAreOrdered(a: Release, b: Release)
    ensures Less(a, b) || Less(b, a) || Same(a, b)
    ensures !(Less(a, b) && Less(b, a)) && !(Less(a, b) && Same(a, b))
  {
    var k := FirstDifference(a, b, 0, |a| + |b|);
    if At(a, k) < At(b, k) { assert LessAt(a, b, k); }
    if At(b, k) < At(a, k) { assert LessAt(b, a, k); }
    LessIsExclusive(a, b);
  }

  // ------------------------------------------------------------ the translation --

  /** The first non-zero number, or the last one if there is none. */
  function FirstNonZero(v: Release, i: nat): (k: nat)
    requires i < |v|
    ensures i <= k < |v|
    decreases |v| - i
  {
    if v[i] != 0 || i == |v| - 1 then i else FirstNonZero(v, i + 1)
  }

  lemma {:induction false} FirstNonZeroIs(v: Release, i: nat)
    requires i < |v|
    ensures forall j :: i <= j < FirstNonZero(v, i) ==> v[j] == 0
    ensures v[FirstNonZero(v, i)] != 0 || FirstNonZero(v, i) == |v| - 1
    decreases |v| - i
  {
    if v[i] == 0 && i < |v| - 1 {
      FirstNonZeroIs(v, i + 1);
    }
  }

  function Bumped(v: Release, caret: bool): (k: nat)
    ensures k < |v|
  {
    if caret then FirstNonZero(v, 0) else if |v| == 1 then 0 else 1
  }

  function Upper(v: Release, index: nat): Release
    requires index < |v|
  {
    v[..index] + [v[index] + 1]
  }

  /** `_bounded`, for a text that starts with a release. */
  function Bounded(v: Release, caret: bool): Specifier {
    [Comparison(AtLeast, v), Comparison(Below, Upper(v, Bumped(v, caret)))]
  }

  /** `_clause` */
  function OfClause(c: Clause): Specifier {
    match c
    case Caret(v) => Bounded(v, true)
    case Tilde(v) => Bounded(v, false)
    case Compare(op, v) => [Comparison(op, v)]
    case Star => []
    case Bare(v) => [Comparison(Equal, v)]
  }

  function OfClauses(clauses: seq<Clause>): Specifier {
    if clauses == [] then [] else OfClauses(clauses[..|clauses| - 1]) + OfClause(clauses[|clauses| - 1])
  }

  /** `specifier` */
  function OfConstraint(c: Constraint): Specifier {
    match c
    case Unrestricted => []
    case Alternatives(_) => []
    case All(clauses) => OfClauses(clauses)
  }

  // --------------------------------------------------------------------- meaning --

  /** What a comparison asks of a final release, by PEP 440. */
  ghost predicate Meets(x: Release, c: Comparison) {
    match c.op
    case Equal => Same(x, c.v)
    case Identical => x == c.v
    case NotEqual => !Same(x, c.v)
    case AtMost => !Less(c.v, x)
    case AtLeast => !Less(x, c.v)
    case Below => Less(x, c.v)
    case Above => Less(c.v, x)
    case Compatible => |c.v| >= 2 && !Less(x, c.v) && SameBelow(x, c.v, |c.v| - 1)
  }

  ghost predicate Satisfies(x: Release, s: Specifier) {
    forall i :: 0 <= i < |s| ==> Meets(x, s[i])
  }

  /** What Poetry documents a clause to mean. */
  ghost predicate Allows(c: Clause, x: Release) {
    match c
    case Caret(v) => !Less(x, v) && SameBelow(x, v, Bumped(v, true) + 1)
    case Tilde(v) => !Less(x, v) && SameBelow(x, v, if |v| == 1 then 1 else 2)
    case Compare(op, v) => Meets(x, Comparison(op, v))
    case Star => true
    case Bare(v) => Same(x, v)
  }

  lemma SatisfiesAppend(x: Release, a: Specifier, b: Specifier)
    ensures Satisfies(x, a + b) <==> Satisfies(x, a) && Satisfies(x, b)
  {
    if Satisfies(x, a + b) {
      forall i | 0 <= i < |a| ensures Meets(x, a[i]) { assert (a + b)[i] == a[i]; }
      forall i | 0 <= i < |b| ensures Meets(x, b[i]) { assert (a + b)[|a| + i] == b[i]; }
    }
  }

  /** Below the bumped release and not below `v` is agreeing with `v` up to the bumped number. */
  lemma BumpedBound(x: Release, v: Release, index: nat)
    requires index < |v| && !Less(x, v)
    ensures Less(x, Upper(v, index)) <==> SameBelow(x, v, index + 1)
  {
    var u := Upper(v, index);
    if SameBelow(x, v, index + 1) {
      assert At(x, index) == At(v, index);
      assert LessAt(x, u, index);
    }
    if k: nat :| LessAt(x, u, k) {
      assert !LessAt(x, v, k) && !LessAt(x, v, index);
      assert k <= index;
      if k < index {
        forall i: nat | i < k ensures At(x, i) == At(v, i) { assert At(x, i) == At(u, i); }
        assert false;
      }
      forall i: nat | i < index ensures At(x, i) == At(v, i) { assert At(x, i) == At(u, i); }
    }
  }

  /** `^` and `~` keep their meaning. */
  lemma BoundedKeepsMeaning(x: Release, v: Release, caret: bool)
    ensures Satisfies(x, Bounded(v, caret)) <==> !Less(x, v) && SameBelow(x, v, Bumped(v, caret) + 1)
  {
    var s := Bounded(v, caret);
    assert Satisfies(x, s) <==> Meets(x, s[0]) && Meets(x, s[1]);
    if !Less(x, v) {
      BumpedBound(x, v, Bumped(v, caret));
    }
  }

  lemma ClauseKeepsMeaning(x: Release, c: Clause)
    ensures Satisfies(x, OfClause(c)) <==> Allows(c, x)
  {
    match c {
      case Caret(v) => BoundedKeepsMeaning(x, v, true);
      case Tilde(v) => BoundedKeepsMeaning(x, v, false);
      case Compare(op, v) => assert OfClause(c)[0] == Comparison(op, v);
      case Star =>
      case Bare(v) => assert OfClause(c)[0] == Comparison(Equal, v);
    }
  }

  /** A final release satisfies the emitted specifier exactly if every clause allows it: a comma
      is an intersection. */
  lemma {:induction false} TranslationKeepsMeaning(x: Release, clauses: seq<Clause>)
    ensures Satisfies(x, OfConstraint(All(clauses))) <==> forall c <- clauses :: Allows(c, x)
    decreases |clauses|
  {
    if clauses != [] {
      var front, last := clauses[..|clauses| - 1], clauses[|clauses| - 1];
      TranslationKeepsMeaning(x, front);
      ClauseKeepsMeaning(x, last);
      SatisfiesAppend(x, OfClauses(front), OfClause(last));
      assert clauses == front + [last];
    }
  }

  /** What Poetry documents a constraint to mean. */
  ghost predicate Admits(c: Constraint, x: Release) {
    match c
    case Unrestricted => true
    case Alternatives(options) => exists option <- options :: forall clause <- option :: Allows(clause, x)
    case All(clauses) => forall clause <- clauses :: Allows(clause, x)
  }

  /** No release that a constraint admits is ever excluded, and without `||` none is added. */
  lemma TranslationNeverNarrows(c: Constraint, x: Release)
    ensures Admits(c, x) ==> Satisfies(x, OfConstraint(c))
    ensures !c.Alternatives? ==> (Admits(c, x) <==> Satisfies(x, OfConstraint(c)))
  {
    if c.All? {
      TranslationKeepsMeaning(x, c.clauses);
    }
  }

  /** With `||` releases can be added: `<1 || >2` does not admit 1, its specifier does. */
  lemma AlternativesCanWiden() returns (c: Constraint, x: Release)
    ensures c.Alternatives? && !Admits(c, x) && Satisfies(x, OfConstraint(c))
  {
    x := [1];
    c := Alternatives([[Compare(Below, [1])], [Compare(Above, [2])]]);
    assert LessAt([1], [2], 0);
    LessIsExclusive([1], [2]);
    LessIsExclusive([1], [1]);
    assert !Allows(Compare(Below, [1]), x) && !Allows(Compare(Above, [2]), x);
    forall option <- c.options ensures exists clause <- option :: !Allows(clause, x) {
      assert option[0] in option;
    }
  }
}
