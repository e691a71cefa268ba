/** Printed numbers: decimal digits, zero padding, and the order of the strings. */
module Decimal {
  function DigitChar(d: nat): char
    requires d < 10
  {
    ('0' as int + d) as char
  }

  function Print(n: nat): string {
    if n < 10 then [DigitChar(n)] else Print(n / 10) + [DigitChar(n % 10)]
  }

  function Zeros(k: nat): string {
    seq(k, _ => '0')
  }

  /** Zero padding on the left, as `:0wd` and `padStart` do. */
  function PadStart(s: string, width: nat): string {
    if |s| < width then Zeros(width - |s|) + s else s
  }

  function Pow10(k: nat): nat {
    if k == 0 then 1 else 10 * Pow10(k - 1)
  }

  predicate AllDigits(s: string) {
    forall i | 0 <= i < |s| :: '0' <= s[i] <= '9'
  }

  lemma {:induction false} PrintIsDigits(n: nat)
    ensures Print(n) != "" && AllDigits(Print(n))
  {
    if n >= 10 { PrintIsDigits(n / 10); }
  }

  lemma {:induction false} PrintLength(n: nat, k: nat)
    requires k > 0 && n < Pow10(k)
    ensures |Print(n)| <= k
  {
    if n >= 10 {
      assert Pow10(1) == 10;
      PrintLength(n / 10, k - 1);
    }
  }

  lemma {:induction false} PrintInjective(a: nat, b: nat)
    requires Print(a) == Print(b)
    ensures a == b
  {
    var s := Print(a);
    var last := s[|s| - 1];
    assert last == DigitChar(a % 10) && last == DigitChar(b % 10);
    if a >= 10 && b >= 10 {
      assert Print(a / 10) == s[..|s| - 1] && Print(b / 10) == s[..|s| - 1];
      PrintInjective(a / 10, b / 10);
    } else {
      PrintIsDigits(a / 10);
      PrintIsDigits(b / 10);
      assert |s| == 1 <==> a < 10;
      assert |s| == 1 <==> b < 10;
    }
  }

  // ----- A fixed width -----

  function Fixed(n: nat, width: nat): string {
    if width == 0 then "" else Fixed(n / 10, width - 1) + [DigitChar(n % 10)]
  }

  lemma {:induction false} FixedZero(width: nat)
    ensures Fixed(0, width) == Zeros(width)
  {
    if width > 0 {
      FixedZero(width - 1);
      assert Zeros(width) == Zeros(width - 1) + ['0'];
    }
  }

  lemma {:induction false} PaddedIsFixed(n: nat, width: nat)
    requires n < Pow10(width) && width > 0
    ensures PadStart(Print(n), width) == Fixed(n, width) && |Fixed(n, width)| == width
    decreases width
  {
    PrintLength(n, width);
    if n < 10 {
      FixedZero(width - 1);
      assert Fixed(n, width) == Zeros(width - 1) + [DigitChar(n)];
    } else {
      assert Pow10(1) == 10;
      PaddedIsFixed(n / 10, width - 1);
      PrintLength(n / 10, width - 1);
      var k := width - |Print(n)|;
      assert Zeros(k) + (Print(n / 10) + [DigitChar(n % 10)]) == (Zeros(k) + Print(n / 10)) + [DigitChar(n % 10)];
    }
  }

  /** Ordinal string order. */
  predicate Less(s: string, t: string) {
    exists k | 0 <= k <= |s| && k <= |t| :: DiffersAt(s, t, k)
  }

  predicate DiffersAt(s: string, t: string, k: nat)
    requires k <= |s| && k <= |t|
  {
    s[..k] == t[..k] && k < |t| && (k == |s| || s[k] < t[k])
  }

  lemma LessAsymmetric(s: string, t: string)
    requires Less(s, t)
    ensures !Less(t, s)
  {
    var k :| 0 <= k <= |s| && k <= |t| && DiffersAt(s, t, k);
    forall j | 0 <= j <= |t| && j <= |s|
      ensures !DiffersAt(t, s, j)
    {
      assert j < k ==> s[..k][j] == t[..k][j];
      assert k < j ==> s[..j][k] == s[k] && t[..j][k] == t[k];
    }
  }

  lemma {:induction false} FixedOrder(a: nat, b: nat, width: nat)
    requires a < b < Pow10(width)
    ensures Less(Fixed(a, width), Fixed(b, width)) && |Fixed(a, width)| == |Fixed(b, width)| == width
    decreases width
  {
    if width > 0 {
      var s, t := Fixed(a, width), Fixed(b, width);
      var s', t' := Fixed(a / 10, width - 1), Fixed(b / 10, width - 1);
      FixedLength(a / 10, width - 1);
      FixedLength(b / 10, width - 1);
      if a / 10 < b / 10 {
        FixedOrder(a / 10, b / 10, width - 1);
        var k :| 0 <= k <= |s'| && k <= |t'| && DiffersAt(s', t', k);
        assert k < |s'|;
        assert s[..k] == s'[..k] && t[..k] == t'[..k];
        assert DiffersAt(s, t, k);
      } else {
        assert a / 10 == b / 10 && a % 10 < b % 10;
        assert s[..width - 1] == t[..width - 1];
        assert DiffersAt(s, t, width - 1);
      }
    }
  }

  lemma {:induction false} FixedLength(n: nat, width: nat)
    ensures |Fixed(n, width)| == width
  {
    if width > 0 { FixedLength(n / 10, width - 1); }
  }
}
