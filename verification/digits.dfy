/** Fixed-width decimal numerals over ASCII digits: the `\d\d` and `%m`-style fields
    of the date grammars and the zero-padded fields that `strftime` emits. */
module Digits {

  predicate IsDigit(c: char) {
    '0' <= c <= '9'
  }

  predicate AllDigits(s: string) {
    forall i | 0 <= i < |s| :: IsDigit(s[i])
  }

  function DigitValue(c: char): (d: nat)
    requires IsDigit(c)
    ensures d < 10
  {
    c as int - '0' as int
  }

  function DigitChar(d: nat): (c: char)
    requires d < 10
    ensures IsDigit(c) && DigitValue(c) == d
  {
    ('0' as int + d) as char
  }

  function Pow10(n: nat): (p: nat)
    ensures p >= 1
  {
    if n == 0 then 1 else 10 * Pow10(n - 1)
  }

  lemma Pow10Small()
    ensures Pow10(2) == 100 && Pow10(4) == 10000
  {
    assert Pow10(1) == 10;
    assert Pow10(3) == 1000;
  }

  /** The value of a digit string read most-significant digit first. */
  function ValueOf(s: string): (v: nat)
    requires AllDigits(s)
    ensures v < Pow10(|s|)
  {
    if |s| == 0 then 0
    else
      var init := s[..|s| - 1];
      assert AllDigits(init);
      var hi := ValueOf(init);
      assert hi <= Pow10(|s| - 1) - 1;
      10 * hi + DigitValue(s[|s| - 1])
  }

  lemma ValueOfTwo(s: string)
    requires |s| == 2 && AllDigits(s)
    ensures ValueOf(s) == 10 * DigitValue(s[0]) + DigitValue(s[1])
  {
    assert s[..1][..0] == [];
  }

  lemma ValueOfFour(s: string)
    requires |s| == 4 && AllDigits(s)
    ensures ValueOf(s) == 1000 * DigitValue(s[0]) + 100 * DigitValue(s[1]) + 10 * DigitValue(s[2]) + DigitValue(s[3])
  {
    var a := s[..3];
    assert AllDigits(a) && AllDigits(a[..2]);
    ValueOfTwo(a[..2]);
    assert ValueOf(a) == 10 * ValueOf(a[..2]) + DigitValue(s[2]);
  }

  /** The numeral of `n` left-padded with zeros to exactly `w` digits. */
  function Padded(n: nat, w: nat): (s: string)
    requires n < Pow10(w)
    ensures |s| == w && AllDigits(s)
  {
    if w == 0 then ""
    else
      assert n / 10 < Pow10(w - 1);
      Padded(n / 10, w - 1) + [DigitChar(n % 10)]
  }

  /** Reading a padded numeral gives back the number. */
  lemma {:induction false} ValueOfPadded(n: nat, w: nat)
    requires n < Pow10(w)
    ensures ValueOf(Padded(n, w)) == n
  {
    if w > 0 {
      var s := Padded(n, w);
      assert n / 10 < Pow10(w - 1);
      assert s[..w - 1] == Padded(n / 10, w - 1);
      ValueOfPadded(n / 10, w - 1);
      assert DigitValue(s[w - 1]) == n % 10;
    }
  }

  /** Re-padding the value of a digit string to its own width gives back the string,
      leading zeros included. */
  lemma {:induction false} PaddedValueOf(s: string)
    requires AllDigits(s)
    ensures Padded(ValueOf(s), |s|) == s
  {
    if |s| > 0 {
      var init := s[..|s| - 1];
      var last := s[|s| - 1];
      assert AllDigits(init);
      PaddedValueOf(init);
      var v := ValueOf(s);
      assert v == 10 * ValueOf(init) + DigitValue(last);
      assert v / 10 == ValueOf(init) && v % 10 == DigitValue(last);
      assert DigitChar(DigitValue(last)) == last;
      assert s == init + [last];
    }
  }
}
