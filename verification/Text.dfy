/** Text as the repository uses it: byte-wise comparison, decimal fields and `str.replace`. */
module Text {

  datatype Option<+T> = None | Some(value: T)

  /** SQLite's default (BINARY) collation on ASCII text. */
  predicate TextLess(a: string, b: string) {
    b != [] && (a == [] || a[0] < b[0] || (a[0] == b[0] && TextLess(a[1..], b[1..])))
  }

  lemma {:induction false} TextLessIsStrict(a: string, b: string)
    ensures TextLess(a, b) ==> !TextLess(b, a) && a != b
    ensures a != b ==> TextLess(a, b) || TextLess(b, a)
  {
    if a != [] && b != [] && a[0] == b[0] {
      TextLessIsStrict(a[1..], b[1..]);
      assert a == [a[0]] + a[1..] && b == [b[0]] + b[1..];
    }
  }

  lemma {:induction false} TextLessIsTransitive(a: string, b: string, c: string)
    requires TextLess(a, b) && TextLess(b, c)
    ensures TextLess(a, c)
  {
    if a != [] && a[0] == b[0] == c[0] {
      TextLessIsTransitive(a[1..], b[1..], c[1..]);
    }
  }

  /** Equally long heads decide the comparison, unless they are equal. */
  lemma {:induction false} HeadDecides(a: string, x: string, b: string, y: string)
    requires |a| == |b|
    ensures TextLess(a + x, b + y) <==> TextLess(a, b) || (a == b && TextLess(x, y))
  {
    if a == [] {
      assert a + x == x && b + y == y;
    } else {
      HeadDecides(a[1..], x, b[1..], y);
      assert (a + x)[1..] == a[1..] + x && (b + y)[1..] == b[1..] + y;
      assert a == [a[0]] + a[1..] && b == [b[0]] + b[1..];
    }
  }

  // ---------------------------------------------------------------- decimal fields

  function Pow10(w: nat): (p: nat)
    ensures p > 0
  {
    if w == 0 then 1 else 10 * Pow10(w - 1)
  }

  const DIGITS := "0123456789"

  /** `n` in exactly `w` decimal digits, most significant first (Python's `%0wd`). */
  function Digits(n: nat, w: nat): (s: string)
    requires n < Pow10(w)
    ensures |s| == w && forall c <- s :: '0' <= c <= '9'
  {
    if w == 0 then [] else Digits(n / 10, w - 1) + [DIGITS[n % 10]]
  }

  /** The number a run of decimal digits denotes; `None` when some character is not a digit. */
  function ParseDigits(s: string): Option<nat> {
    if s == [] then Some(0)
    else
      var last := s[|s| - 1];
      match ParseDigits(s[..|s| - 1])
      case Some(n) => if '0' <= last <= '9' then Some(10 * n + (last - '0') as nat) else None
      case None => None
  }

  lemma {:induction false} DigitsRoundTrip(n: nat, w: nat)
    requires n < Pow10(w)
    ensures ParseDigits(Digits(n, w)) == Some(n)
  {
    if w > 0 {
      DigitsRoundTrip(n / 10, w - 1);
      assert Digits(n, w)[..w - 1] == Digits(n / 10, w - 1);
      assert (DIGITS[n % 10] - '0') as nat == n % 10;
    }
  }

  lemma DigitsInjective(n: nat, m: nat, w: nat)
    requires n < Pow10(w) && m < Pow10(w)
    ensures Digits(n, w) == Digits(m, w) <==> n == m
  {
    DigitsRoundTrip(n, w);
    DigitsRoundTrip(m, w);
  }

  lemma DigitOrder(i: nat, j: nat)
    requires i < 10 && j < 10
    ensures TextLess([DIGITS[i]], [DIGITS[j]]) <==> i < j
  {
  }

  /** Fixed-width decimals compare as text exactly as their numbers do. */
  lemma {:induction false} DigitsOrder(n: nat, m: nat, w: nat)
    requires n < Pow10(w) && m < Pow10(w)
    ensures TextLess(Digits(n, w), Digits(m, w)) <==> n < m
  {
    if w > 0 {
      var a, b, i, j := n / 10, m / 10, n % 10, m % 10;
      DigitsOrder(a, b, w - 1);
      DigitsInjective(a, b, w - 1);
      HeadDecides(Digits(a, w - 1), [DIGITS[i]], Digits(b, w - 1), [DIGITS[j]]);
      DigitOrder(i, j);
      assert n == 10 * a + i && m == 10 * b + j;
    }
  }

  // ---------------------------------------------------------------- str.replace

  /** Python's `s.replace(old, new)`: left to right, without overlaps. */
  function Replace(s: string, from: string, to: string): string
    requires from != []
  {
    if |s| < |from| then s
    else if s[..|from|] == from then to + Replace(s[|from|..], from, to)
    else [s[0]] + Replace(s[1..], from, to)
  }

  /** A head without the first character of `from` is copied unchanged. */
  lemma {:induction false} ReplaceSkips(head: string, s: string, from: string, to: string)
    requires from != [] && from[0] !in head
    ensures Replace(head + s, from, to) == head + Replace(s, from, to)
  {
    if head == [] {
      assert head + s == s;
    } else {
      var t := head + s;
      ReplaceSkips(head[1..], s, from, to);
      assert t[1..] == head[1..] + s;
      assert |t| >= |from| ==> t[..|from|][0] == head[0];
      if |t| < |from| {
        assert Replace(s, from, to) == s;
      } else {
        assert Replace(t, from, to) == [t[0]] + Replace(t[1..], from, to);
        assert head + Replace(s, from, to) == [head[0]] + (head[1..] + Replace(s, from, to));
      }
    }
  }
}
