/** Numbers in a fixed number of decimal digits, as in file names and fractions of a second. */
module Decimal {

  predicate IsDigit(c: char) { '0' <= c <= '9' }

  predicate Digits(s: string) { forall i | 0 <= i < |s| :: IsDigit(s[i]) }

  function Pow10(w: nat): nat { if w == 0 then 1 else 10 * Pow10(w - 1) }

  /** n in w digits, with leading zeros */
  function Pad(n: nat, w: nat): (s: string)
    requires n < Pow10(w)
    ensures |s| == w && Digits(s)
  {
    if w == 0 then "" else Pad(n / 10, w - 1) + [('0' as int + n % 10) as char]
  }

  function Value(s: string): nat
    requires Digits(s)
  {
    if s == "" then 0 else Value(s[..|s| - 1]) * 10 + (s[|s| - 1] as int - '0' as int)
  }

  /** std::to_string */
  function NatText(n: nat): (s: string)
    ensures s != "" && Digits(s)
  {
    var last := [('0' as int + n % 10) as char];
    if n < 10 then last else NatText(n / 10) + last
  }

  function IntText(n: int): (s: string)
    ensures s != "" && (s[0] == '-' <==> n < 0) && forall i | 0 <= i < |s| :: s[i] < 128 as char
  {
    if n < 0 then "-" + NatText(-n) else NatText(n)
  }

  lemma {:induction false} NatTextValue(n: nat)
    ensures Value(NatText(n)) == n
  {
    var s := NatText(n);
    if n < 10 {
      assert s[..0] == "";
    } else {
      NatTextValue(n / 10);
      assert s[..|s| - 1] == NatText(n / 10);
    }
  }

  /** Digits further left weigh more. */
  lemma {:induction false} ValueConcat(a: string, b: string)
    requires Digits(a) && Digits(b)
    ensures Digits(a + b) && Value(a + b) == Value(a) * Pow10(|b|) + Value(b)
    decreases |b|
  {
    if b == "" {
      assert a + b == a;
    } else {
      var front := b[..|b| - 1];
      ValueConcat(a, front);
      assert (a + b)[..|a + b| - 1] == a + front;
      Tenfold(Value(a), Pow10(|front|));
    }
  }

  lemma Tenfold(x: int, y: int)
    ensures x * y * 10 == x * (10 * y)
  {}
}
