/**
 The order of strings.
 */
module Text {

  /** Strings compare by their first differing character, or by length if one is a prefix. */
  predicate Precedes(a: string, b: string) {
    if b == "" then false
    else if a == "" then true
    else a[0] < b[0] || (a[0] == b[0] && Precedes(a[1..], b[1..]))
  }

  lemma {:induction false} PrecedesIsTotal(a: string, b: string)
    ensures Precedes(a, b) || Precedes(b, a) || a == b
    ensures !(Precedes(a, b) && Precedes(b, a)) && !Precedes(a, a)
    decreases |a|
  {
    if a != "" {
      PrecedesIsTotal(a[1..], if b == "" then "" else b[1..]);
      if b != "" && a[1..] == b[1..] && a[0] == b[0] {
        assert a == [a[0]] + a[1..] && b == [b[0]] + b[1..];
      }
    }
  }

  lemma {:induction false} PrecedesIsTransitive(a: string, b: string, c: string)
    requires Precedes(a, b) && Precedes(b, c)
    ensures Precedes(a, c)
    decreases |a|
  {
    if a != "" && a[0] == b[0] == c[0] {
      PrecedesIsTransitive(a[1..], b[1..], c[1..]);
    }
  }

  /** Heads of equal length decide before the tails do. */
  lemma {:induction false} HeadsDecide(a: string, x: string, b: string, y: string)
    requires |a| == |b|
    ensures Precedes(a + x, b + y) <==> Precedes(a, b) || (a == b && Precedes(x, y))
    decreases |a|
  {
    if a == "" {
      assert a + x == x && b + y == y;
    } else {
      HeadsDecide(a[1..], x, b[1..], y);
      assert (a + x)[1..] == a[1..] + x && (b + y)[1..] == b[1..] + y;
      assert a == [a[0]] + a[1..] && b == [b[0]] + b[1..];
      PrecedesIsTotal(a, b);
    }
  }
}
