/**
 Identifiers that sort by time.
 */
module Ids {
  import opened Text

  /** Crockford's base 32: no i, l, o, u. */
  const ALPHABET := "0123456789abcdefghjkmnpqrstvwxyz"

  function Power(width: nat): nat {
    if width == 0 then 1 else 32 * Power(width - 1)
  }

  function Digit(d: int): char
    requires 0 <= d < 32
  {
    ALPHABET[d]
  }

  /** The last `width` base-32 digits of a value, most significant first. */
  function Digits(value: int, width: nat): (s: string)
    ensures |s| == width
    decreases width
  {
    if width == 0 then "" else Digits(value / 32, width - 1) + [Digit(value % 32)]
  }

  function Reversed(s: string): (r: string)
    ensures |r| == |s|
  {
    if s == "" then "" else Reversed(s[1..]) + [s[0]]
  }

  /** `_b32`: `value & 0x1F` and `value >>= 5` are remainder and quotient of 32, rounding down. */
  method B32(value: int, width: nat) returns (s: string)
    ensures s == Digits(value, width)
  {
    var out, rest := "", value;
    for i := 0 to width
      invariant |out| == i
      invariant Digits(value, width) == Digits(rest, width - i) + Reversed(out)
    {
      ReversedAppend(out, Digit(rest % 32));
      assert Digits(rest, width - i) == Digits(rest / 32, width - i - 1) + [Digit(rest % 32)];
      Associates(Digits(rest / 32, width - i - 1), [Digit(rest % 32)], Reversed(out));
      out := out + [Digit(rest % 32)];
      rest := rest / 32;
    }
    s := Reversed(out);
  }

  lemma Associates(a: string, b: string, c: string)
    ensures (a + b) + c == a + (b + c)
  {
  }

  lemma {:induction false} ReversedAppend(s: string, c: char)
    ensures Reversed(s + [c]) == [c] + Reversed(s)
  {
    if s == "" {
      assert s + [c] == [c] && [c][1..] == "";
    } else {
      ReversedAppend(s[1..], c);
      assert (s + [c])[1..] == s[1..] + [c];
    }
  }

  /** The code of the digit: 48 is '0' and 97 is 'a'; i, l, o and u are skipped. */
  function Code(d: int): int {
    if d < 10 then 48 + d
    else if d < 18 then 87 + d
    else if d < 20 then 88 + d
    else if d < 22 then 89 + d
    else if d < 27 then 90 + d
    else 91 + d
  }

  lemma DigitHasCode(d: int)
    requires 0 <= d < 32
    ensures Digit(d) as int == Code(d)
  {
    if d < 8 {} else if d < 16 {} else if d < 24 {} else {}
  }

  lemma DigitsInOrder(a: int, b: int)
    requires 0 <= a < 32 && 0 <= b < 32
    ensures Digit(a) < Digit(b) <==> a < b
    ensures Digit(a) == Digit(b) <==> a == b
  {
    DigitHasCode(a);
    DigitHasCode(b);
    var x, y := Digit(a), Digit(b);
    assert (x < y) == (x as int < y as int);
  }

  lemma LastDigit(a: int, b: int)
    ensures a < b <==> a / 32 < b / 32 || (a / 32 == b / 32 && a % 32 < b % 32)
    ensures a == b <==> a / 32 == b / 32 && a % 32 == b % 32
  {
  }

  /** Below 32^width the fixed-width strings are ordered exactly as the integers are. */
  lemma {:induction false} DigitsSortLikeIntegers(a: int, b: int, width: nat)
    requires 0 <= a < Power(width) && 0 <= b < Power(width)
    ensures Precedes(Digits(a, width), Digits(b, width)) <==> a < b
    ensures Digits(a, width) == Digits(b, width) <==> a == b
    decreases width
  {
    if width > 0 {
      DigitsSortLikeIntegers(a / 32, b / 32, width - 1);
      LastDigit(a, b);
      DigitsInOrder(a % 32, b % 32);
      HeadsDecide(Digits(a / 32, width - 1), [Digit(a % 32)], Digits(b / 32, width - 1), [Digit(b % 32)]);
      OneCharacter(Digit(a % 32), Digit(b % 32));
      SameParts(Digits(a / 32, width - 1), [Digit(a % 32)], Digits(b / 32, width - 1), [Digit(b % 32)]);
    }
  }

  lemma OneCharacter(a: char, b: char)
    ensures Precedes([a], [b]) <==> a < b
    ensures [a] == [b] <==> a == b
  {
    assert [a][0] == a && [b][0] == b;
  }

  lemma SameParts(a: string, x: string, b: string, y: string)
    requires |a| == |b|
    ensures a + x == b + y <==> a == b && x == y
  {
    if a + x == b + y {
      assert a == (a + x)[..|a|] && x == (a + x)[|a|..];
    }
  }

  /** Digits beyond the width are dropped. */
  lemma {:induction false} DigitsWrap(value: int, width: nat)
    ensures Power(width) > 0 && Digits(value, width) == Digits(value % Power(width), width)
    decreases width
  {
    if width > 0 {
      var p := Power(width - 1);
      DigitsWrap(value / 32, width - 1);
      DigitsWrap((value % (32 * p)) / 32, width - 1);
      Wrapped(value, p);
    }
  }

  lemma Wrapped(value: int, p: int)
    requires p > 0
    ensures (value % (32 * p)) % 32 == value % 32
    ensures (value % (32 * p)) / 32 == (value / 32) % p
  {
    var q, r := value / 32, value % 32;
    var k, m := q / p, q % p;
    assert value == 32 * (k * p + m) + r;
    assert value == k * (32 * p) + (32 * m + r);
    assert 0 <= 32 * m + r < 32 * p;
    Remainder(value, 32 * p, k, 32 * m + r);
  }

  lemma AtLeastOnce(k: int, d: int)
    requires d > 0
    ensures k >= 1 ==> k * d >= d
    ensures k <= -1 ==> k * d <= -d
  {
  }

  lemma Remainder(value: int, d: int, k: int, r: int)
    requires d > 0 && value == k * d + r && 0 <= r < d
    ensures value % d == r
  {
    var k', r' := value / d, value % d;
    assert (k - k') * d == r' - r;
    AtLeastOnce(k - k', d);
  }

  const TIME_DIGITS: nat := 10
  const TAIL_DIGITS: nat := 8

  function IdOf(stamp: int, random: int, timeDigits: nat, tailDigits: nat): string {
    "r" + Digits(stamp, timeDigits) + Digits(random, tailDigits)
  }

  /** `run_id`, for a time stamp in milliseconds and forty random bits. */
  method RunId(stamp: int, random: int) returns (id: string)
    ensures id == IdOf(stamp, random, TIME_DIGITS, TAIL_DIGITS) && |id| == 19
  {
    var time := B32(stamp, TIME_DIGITS);
    var tail := B32(random, TAIL_DIGITS);
    id := "r" + time + tail;
  }

  lemma {:induction false} PowerOfTwo(width: nat)
    ensures width == 2 ==> Power(width) == 0x400
    ensures width == 5 ==> Power(width) == 0x200_0000
    ensures width == 8 ==> Power(width) == 0x100_0000_0000
    ensures width == 10 ==> Power(width) == 0x4_0000_0000_0000
    decreases width
  {
    if width == 10 {
      PowerOfTwo(8);
    } else if width == 8 {
      PowerOfTwo(5);
    }
  }

  lemma PrefixedCompare(a: string, u: string, b: string, v: string)
    requires |a| == |b|
    ensures Precedes("r" + a + u, "r" + b + v) <==> Precedes(a, b) || (a == b && Precedes(u, v))
  {
    HeadsDecide("r", a, "r", b);
    HeadsDecide("r" + a, u, "r" + b, v);
    SameParts("r", a, "r", b);
    PrecedesIsTotal("r", "r");
  }

  /** Digits as the digits of the remainder. */
  lemma DigitsCompare(s: int, t: int, width: nat)
    ensures Power(width) > 0
    ensures Precedes(Digits(s, width), Digits(t, width)) <==> s % Power(width) < t % Power(width)
    ensures Digits(s, width) == Digits(t, width) <==> s % Power(width) == t % Power(width)
  {
    DigitsWrap(s, width);
    DigitsWrap(t, width);
    DigitsSortLikeIntegers(s % Power(width), t % Power(width), width);
  }

  /** Run ids sort by their time stamp, modulo 32 to the number of its digits, and then by
      their random tail. */
  lemma RunIdsSortByTime(s: int, x: int, t: int, y: int, timeDigits: nat, tailDigits: nat)
    requires 0 <= x < Power(tailDigits) && 0 <= y < Power(tailDigits)
    ensures Power(timeDigits) > 0
    ensures Precedes(IdOf(s, x, timeDigits, tailDigits), IdOf(t, y, timeDigits, tailDigits))
       <==> || s % Power(timeDigits) < t % Power(timeDigits)
            || (s % Power(timeDigits) == t % Power(timeDigits) && x < y)
  {
    DigitsCompare(s, t, timeDigits);
    DigitsSortLikeIntegers(x, y, tailDigits);
    PrefixedCompare(Digits(s, timeDigits), Digits(x, tailDigits), Digits(t, timeDigits), Digits(y, tailDigits));
  }

  /** Before 2^50 milliseconds a later millisecond always gives a larger id, whatever the tails. */
  lemma LaterRunsHaveLargerIds(s: int, x: int, t: int, y: int, timeDigits: nat, tailDigits: nat)
    requires timeDigits == TIME_DIGITS && 0 <= s < t < 0x4_0000_0000_0000
    ensures Precedes(IdOf(s, x, timeDigits, tailDigits), IdOf(t, y, timeDigits, tailDigits))
  {
    PowerOfTwo(timeDigits);
    DigitsSortLikeIntegers(s, t, timeDigits);
    PrefixedCompare(Digits(s, timeDigits), Digits(x, tailDigits), Digits(t, timeDigits), Digits(y, tailDigits));
  }

  /** Ids of this width sort by their stamp modulo 2^50, and then by their forty random bits. */
  lemma RunIdsWrap(s: int, x: int, t: int, y: int, timeDigits: nat, tailDigits: nat)
    requires timeDigits == TIME_DIGITS && tailDigits == TAIL_DIGITS
    requires 0 <= x < 0x100_0000_0000 && 0 <= y < 0x100_0000_0000
    ensures Precedes(IdOf(s, x, timeDigits, tailDigits), IdOf(t, y, timeDigits, tailDigits))
       <==> || s % 0x4_0000_0000_0000 < t % 0x4_0000_0000_0000
            || (s % 0x4_0000_0000_0000 == t % 0x4_0000_0000_0000 && x < y)
  {
    PowerOfTwo(timeDigits);
    PowerOfTwo(tailDigits);
    RunIdsSortByTime(s, x, t, y, timeDigits, tailDigits);
  }
}
