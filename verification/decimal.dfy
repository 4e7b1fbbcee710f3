/**
 Decimal text for natural numbers: the canonical rendering Python's `str()`
 and f-strings give an `int`, the fixed-width zero-filled rendering of
 `strftime`'s numeric fields, and a parser that inverts both.
 */
module Decimal {
  import opened Wrappers

  predicate IsDigit(c: char) {
    '0' <= c <= '9'
  }

  predicate AllDigits(s: string) {
    forall k :: 0 <= k < |s| ==> IsDigit(s[k])
  }

  /** A non-empty digit string without a superfluous leading zero. */
  predicate Canonical(s: string) {
    |s| >= 1 && AllDigits(s) && (|s| == 1 || s[0] != '0')
  }

  function DigitValue(c: char): (d: nat)
    requires IsDigit(c)
    ensures d < 10
  {
    (c as int) - ('0' as int)
  }

  function DigitChar(d: nat): (c: char)
    requires d < 10
    ensures IsDigit(c) && DigitValue(c) == d
  {
    (('0' as int) + d) as char
  }

  function Pow10(k: nat): (p: nat)
    ensures p >= 1
  {
    if k == 0 then 1 else 10 * Pow10(k - 1)
  }

  /** The decimal rendering of `n`, as `str(n)` gives it. */
  function Show(n: nat): (s: string)
    ensures Canonical(s)
    ensures s[0] == '0' <==> n == 0
    ensures n < 10 <==> |s| == 1
    decreases n
  {
    if n < 10 then [DigitChar(n)] else Show(n / 10) + [DigitChar(n % 10)]
  }

  /** The last `width` decimal digits of `n`, zero-filled on the left. */
  function Padded(n: nat, width: nat): (s: string)
    ensures |s| == width && AllDigits(s)
  {
    if width == 0 then [] else Padded(n / 10, width - 1) + [DigitChar(n % 10)]
  }

  /** The value of a non-empty digit string; leading zeros are accepted. */
  function Parse(s: string): (r: Option<nat>)
    ensures r.Some? <==> |s| >= 1 && AllDigits(s)
    decreases |s|
  {
    if |s| == 0 || !IsDigit(s[|s| - 1]) then None
    else if |s| == 1 then Some(DigitValue(s[0]))
    else
      match Parse(s[..|s| - 1])
      case None => None
      case Some(p) => Some(10 * p + DigitValue(s[|s| - 1]))
  }

  lemma DigitCharValue(c: char)
    requires IsDigit(c)
    ensures DigitChar(DigitValue(c)) == c
  {
  }

  /** Parsing undoes rendering. */
  lemma {:induction false} ShowParse(n: nat)
    ensures Parse(Show(n)) == Some(n)
    decreases n
  {
    if n >= 10 {
      ShowParse(n / 10);
      var s := Show(n);
      assert s[..|s| - 1] == Show(n / 10);
    }
  }

  /** Rendering undoes parsing, on canonical digit strings. */
  lemma {:induction false} ParseShow(s: string)
    requires Canonical(s)
    ensures Parse(s).Some? && Show(Parse(s).value) == s
    decreases |s|
  {
    if |s| == 1 {
      DigitCharValue(s[0]);
    } else {
      var init := s[..|s| - 1];
      var last := s[|s| - 1];
      assert init[0] == s[0];
      assert Canonical(init);
      ParseShow(init);
      var p := Parse(init).value;
      assert p != 0;
      var n := 10 * p + DigitValue(last);
      assert Parse(s) == Some(n);
      assert n / 10 == p && n % 10 == DigitValue(last);
      DigitCharValue(last);
      assert s == init + [last];
    }
  }

  /** Two numbers render alike only if they are equal. */
  lemma ShowInjective(m: nat, n: nat)
    ensures Show(m) == Show(n) <==> m == n
  {
    if Show(m) == Show(n) {
      ShowParse(m);
      ShowParse(n);
    }
  }

  /** Fixed-width rendering is undone by parsing when the number fits the width. */
  lemma {:induction false} PaddedParse(n: nat, width: nat)
    requires 1 <= width && n < Pow10(width)
    ensures Parse(Padded(n, width)) == Some(n)
    decreases width
  {
    var s := Padded(n, width);
    if width == 1 {
      assert n % 10 == n;
    } else {
      assert n / 10 < Pow10(width - 1);
      PaddedParse(n / 10, width - 1);
      assert s[..|s| - 1] == Padded(n / 10, width - 1);
    }
  }
}
