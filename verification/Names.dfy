/** Names that tell what they are made from apart. */
module Names {

  lemma SeparatorComesAfter(sep: char, a: string, b: string)
    requires sep !in a
    ensures var joined := a + [sep] + b;
            joined[|a|] == sep && forall k :: 0 <= k < |a| ==> joined[k] != sep
  {
    forall k | 0 <= k < |a| ensures (a + [sep] + b)[k] != sep {
      assert (a + [sep] + b)[k] == a[k];
      assert a[k] in a;
    }
  }

  /** Two names joined by a separator the first does not contain can be told
      apart again. */
  lemma SplitIsUnique(sep: char, a: string, b: string, c: string, d: string)
    requires sep !in a && sep !in c
    requires a + [sep] + b == c + [sep] + d
    ensures a == c && b == d
  {
    var joined := a + [sep] + b;
    SeparatorComesAfter(sep, a, b);
    SeparatorComesAfter(sep, c, d);
    assert |a| == |c|;
    assert a == joined[..|a|] && c == (c + [sep] + d)[..|c|];
    assert b == joined[|a| + 1..] && d == (c + [sep] + d)[|c| + 1..];
  }

  function Digit(d: nat): (c: char)
    requires d < 10
    ensures '0' <= c <= '9'
  {
    '0' + d as char
  }

  /** A number as it is written in a name. */
  function Decimal(n: nat): (s: string)
    ensures s != [] && forall c :: c in s ==> '0' <= c <= '9'
  {
    if n < 10 then [Digit(n)] else Decimal(n / 10) + [Digit(n % 10)]
  }

  lemma {:induction false} DecimalLength(n: nat)
    ensures n < 10 ==> |Decimal(n)| == 1
    ensures n >= 10 ==> |Decimal(n)| >= 2
  {
  }

  lemma {:induction false} DecimalIsInjective(m: nat, n: nat)
    requires Decimal(m) == Decimal(n)
    ensures m == n
  {
    DecimalLength(m);
    DecimalLength(n);
    var s := Decimal(m);
    if m < 10 {
      assert Digit(m) == s[0] == Digit(n);
    } else {
      assert s[..|s| - 1] == Decimal(m / 10) && s[|s| - 1] == Digit(m % 10);
      assert s[..|s| - 1] == Decimal(n / 10) && s[|s| - 1] == Digit(n % 10);
      DecimalIsInjective(m / 10, n / 10);
    }
  }

  const CHARACTERS := 0x110000

  /** A stand-in for the UUID derived from a name: some number, a different one
      for every name. */
  function Derived(name: string): nat {
    if name == [] then 0 else 1 + name[0] as int + (CHARACTERS + 1) * Derived(name[1..])
  }

  lemma Divided(a: nat, x: nat, b: nat, y: nat)
    requires a <= CHARACTERS && b <= CHARACTERS
    requires a + (CHARACTERS + 1) * x == b + (CHARACTERS + 1) * y
    ensures a == b && x == y
  {
  }

  lemma {:induction false} DerivedIsInjective(a: string, b: string)
    requires Derived(a) == Derived(b)
    ensures a == b
  {
    if a != [] && b != [] {
      Divided(1 + a[0] as int, Derived(a[1..]), 1 + b[0] as int, Derived(b[1..]));
      DerivedIsInjective(a[1..], b[1..]);
      assert a == [a[0]] + a[1..] && b == [b[0]] + b[1..];
    }
  }
}
