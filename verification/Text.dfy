/** Decimal numerals and the `#`-suffixed names the graph builder makes from them. */
module Text {

  function Digit(d: nat): (c: char)
    requires d < 10
    ensures '0' <= c <= '9'
  {
    ['0', '1', '2', '3', '4', '5', '6', '7', '8', '9'][d]
  }

  /** The number as a template literal prints it. */
  function Decimal(n: nat): (s: string)
    ensures |s| > 0
    ensures forall i :: 0 <= i < |s| ==> '0' <= s[i] <= '9'
  {
    if n < 10 then [Digit(n)] else Decimal(n / 10) + [Digit(n % 10)]
  }

  lemma DigitInjective(a: nat, b: nat)
    requires a < 10 && b < 10 && Digit(a) == Digit(b)
    ensures a == b
  {
  }

  lemma {:induction false} DecimalInjective(m: nat, n: nat)
    requires Decimal(m) == Decimal(n)
    ensures m == n
  {
    var dm, dn := Decimal(m), Decimal(n);
    assert dm[|dm| - 1] == dn[|dn| - 1];
    DigitInjective(m % 10, n % 10);
    if m >= 10 && n >= 10 {
      assert dm[..|dm| - 1] == Decimal(m / 10);
      assert dn[..|dn| - 1] == Decimal(n / 10);
      DecimalInjective(m / 10, n / 10);
    }
  }

  /** `base` with `#n` appended. */
  function Hashed(base: string, n: nat): string {
    base + "#" + Decimal(n)
  }

  /** Digits hold no `#`, so the last one splits the text: whatever stands before it, equal texts carry equal numbers. */
  lemma HashedSplits(a: string, m: nat, b: string, n: nat)
    requires Hashed(a, m) == Hashed(b, n)
    ensures a == b && m == n
  {
    var h, k := Hashed(a, m), Hashed(b, n);
    assert h[|a|] == '#' && k[|b|] == '#';
    assert a == h[..|a|] == k[..|b|] == b;
    assert Decimal(m) == h[|a| + 1..] == k[|b| + 1..] == Decimal(n);
    DecimalInjective(m, n);
  }

  /** The number a numeral reads as. */
  function NumberOf(s: string): int {
    if s == "" then 0 else 10 * NumberOf(s[..|s| - 1]) + (s[|s| - 1] as int - '0' as int)
  }

  lemma {:induction false} DecimalReads(n: nat)
    ensures NumberOf(Decimal(n)) == n
  {
    var s := Decimal(n);
    if n < 10 {
      assert s[..|s| - 1] == "";
    } else {
      assert s[..|s| - 1] == Decimal(n / 10);
      DecimalReads(n / 10);
    }
  }
}
