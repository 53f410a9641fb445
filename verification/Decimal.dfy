/** Numbers written in decimal, with and without leading zeros. */
module Decimal {

  const DIGITS := "0123456789"

  function Write(n: nat): string
  {
    if n < 10 then [DIGITS[n]] else Write(n / 10) + [DIGITS[n % 10]]
  }

  /** `f"{n:0{width}d}"` */
  function Padded(n: nat, width: nat): string {
    Zeros(width - |Write(n)|) + Write(n)
  }

  function Zeros(k: int): string {
    if k <= 0 then "" else "0" + Zeros(k - 1)
  }

  function Value(text: string): int {
    if text == "" then 0 else 10 * Value(text[..|text| - 1]) + (text[|text| - 1] as int - '0' as int)
  }

  lemma {:induction false} ValueOfWrite(n: nat)
    ensures Value(Write(n)) == n
  {
    if n < 10 {
      assert Write(n)[..0] == "";
    } else {
      assert Write(n)[..|Write(n)| - 1] == Write(n / 10);
      ValueOfWrite(n / 10);
    }
  }

  lemma {:induction false} ZerosInFront(k: int, text: string)
    ensures Value(Zeros(k) + text) == Value(text)
    decreases |text|, if k > 0 then k else 0
  {
    if text == "" {
      assert Zeros(k) + text == Zeros(k);
      if k > 0 { ZerosAre(k); ZerosInFront(k - 1, text); assert Zeros(k - 1) + "" == Zeros(k - 1); }
    } else {
      var all := Zeros(k) + text;
      assert all[..|all| - 1] == Zeros(k) + text[..|text| - 1];
      ZerosInFront(k, text[..|text| - 1]);
    }
  }

  lemma {:induction false} ZerosAre(k: nat)
    requires k > 0
    ensures Zeros(k) == Zeros(k - 1) + "0"
  {
    if k > 1 { ZerosAre(k - 1); }
  }

  lemma ValueOfPadded(n: nat, width: nat)
    ensures Value(Padded(n, width)) == n
  {
    ZerosInFront(width - |Write(n)|, Write(n));
    ValueOfWrite(n);
  }

  predicate Digits(text: string) {
    forall i :: 0 <= i < |text| ==> '0' <= text[i] <= '9'
  }

  lemma {:induction false} WriteIsDigits(n: nat)
    ensures Digits(Write(n))
  {
    if n >= 10 { WriteIsDigits(n / 10); }
  }

  lemma {:induction false} ZerosAreDigits(k: int)
    ensures Digits(Zeros(k))
    decreases if k > 0 then k else 0
  {
    if k > 0 { ZerosAreDigits(k - 1); }
  }

  lemma PaddedIsDigits(n: nat, width: nat)
    ensures Digits(Padded(n, width))
  {
    WriteIsDigits(n);
    ZerosAreDigits(width - |Write(n)|);
  }

  lemma NoDashInside(a: string, b: string, p: string, q: string)
    requires Digits(b) && a + "-" + p == b + "-" + q
    ensures |b| <= |a|
  {
    var all := b + "-" + q;
    assert (a + "-" + p)[|a|] == '-';
    assert forall k :: 0 <= k < |b| ==> all[k] == b[k];
  }

  /** A number ends where a dash follows it. */
  lemma UpToDash(a: string, b: string, p: string, q: string)
    requires Digits(a) && Digits(b) && a + "-" + p == b + "-" + q
    ensures a == b
  {
    NoDashInside(a, b, p, q);
    NoDashInside(b, a, q, p);
    assert a == (a + "-" + p)[..|a|] && b == (b + "-" + q)[..|b|];
  }

  /** Different numbers are written differently, however far they are padded. */
  lemma PaddedIsInjective(a: nat, b: nat, width: nat)
    requires Padded(a, width) == Padded(b, width)
    ensures a == b
  {
    ValueOfPadded(a, width);
    ValueOfPadded(b, width);
  }

  lemma WriteIsInjective(a: nat, b: nat)
    requires Write(a) == Write(b)
    ensures a == b
  {
    ValueOfWrite(a);
    ValueOfWrite(b);
  }
}
