/** Decimal numbers as text. */
module Text {
  import opened Prelude

  function Digit(d: nat): char
    requires d < 10
  {
    ('0' as int + d) as char
  }

  predicate AllDigits(s: string) {
    forall i :: 0 <= i < |s| ==> '0' <= s[i] <= '9'
  }

  /** `String(n)` of a non-negative whole number. */
  function Digits(n: nat): (s: string)
    ensures s != [] && AllDigits(s)
  {
    if n < 10 then [Digit(n)] else Digits(n / 10) + [Digit(n % 10)]
  }

  function Decimal(n: int): string {
    if n < 0 then "-" + Digits(-n) else Digits(n)
  }

  function Zeros(n: nat): (s: string)
    ensures |s| == n && forall i :: 0 <= i < n ==> s[i] == '0'
  {
    if n == 0 then "" else Zeros(n - 1) + "0"
  }

  function PadStart(s: string, width: nat): string {
    Zeros(Max(width - |s|, 0)) + s
  }

  function PadNo(prefix: string, n: nat, width: nat): string {
    prefix + PadStart(Digits(n), width)
  }

  /** The number a run of digits denotes, leading zeros and all. */
  function ParseDigits(s: string): nat
    requires AllDigits(s)
  {
    if s == [] then 0
    else 10 * ParseDigits(s[..|s| - 1]) + (s[|s| - 1] as int - '0' as int)
  }

  lemma {:induction false} ParseZerosDigits(k: nat, n: nat)
    ensures ParseDigits(Zeros(k) + Digits(n)) == n
  {
    var s := Zeros(k) + Digits(n);
    if n < 10 {
      assert s[..|s| - 1] == Zeros(k);
      ParseZeros(k);
    } else {
      assert s[..|s| - 1] == Zeros(k) + Digits(n / 10);
      ParseZerosDigits(k, n / 10);
    }
  }

  lemma {:induction false} ParseZeros(k: nat)
    ensures ParseDigits(Zeros(k)) == 0
  {
    if k > 0 {
      assert Zeros(k)[..k - 1] == Zeros(k - 1);
      ParseZeros(k - 1);
    }
  }

  /** A printed number can be read back, so two different numbers never print alike, whatever their padding. */
  lemma PadNoInjective(prefix: string, a: nat, b: nat, widthA: nat, widthB: nat)
    ensures PadNo(prefix, a, widthA) == PadNo(prefix, b, widthB) ==> a == b
  {
    var x, y := PadStart(Digits(a), widthA), PadStart(Digits(b), widthB);
    ParseZerosDigits(Max(widthA - |Digits(a)|, 0), a);
    ParseZerosDigits(Max(widthB - |Digits(b)|, 0), b);
    assert (prefix + x)[|prefix|..] == x && (prefix + y)[|prefix|..] == y;
  }
}
