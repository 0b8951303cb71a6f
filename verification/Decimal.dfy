/** Decimal text, and the simulated device ids made of it. */
module Decimal {
  import opened Basics

  const ZERO: byte := 48

  predicate IsDigit(b: byte) { 48 <= b <= 57 }

  predicate AllDigits(s: Bytes) { forall i :: 0 <= i < |s| ==> IsDigit(s[i]) }

  /** The decimal digits of `n`, without leading zeros. */
  function Digits(n: nat): (s: Bytes)
    ensures s != [] && AllDigits(s)
    ensures n > 0 ==> s[0] != ZERO
    decreases n
  {
    var last: byte := 48 + n % 10;
    if n < 10 then [last] else Digits(n / 10) + [last]
  }

  function Zeros(k: nat): (s: Bytes)
    ensures |s| == k && forall i :: 0 <= i < k ==> s[i] == ZERO
  {
    seq(k, i requires 0 <= i < k => ZERO)
  }

  /** `n` in decimal, padded with zeros to at least `width` digits. */
  function Padded(n: nat, width: int): Bytes {
    var s := Digits(n);
    if |s| < width then Zeros(width - |s|) + s else s
  }

  /** The number a digit string denotes. */
  function ValueOf(s: Bytes): nat
    requires AllDigits(s)
  {
    if s == [] then 0 else 10 * ValueOf(s[..|s| - 1]) + (s[|s| - 1] - 48)
  }

  function Pow10(k: nat): nat {
    if k == 0 then 1 else 10 * Pow10(k - 1)
  }

  lemma {:induction false} ValueOfDigits(n: nat)
    ensures ValueOf(Digits(n)) == n
  {
    if n >= 10 {
      ValueOfDigits(n / 10);
      assert Digits(n)[..|Digits(n)| - 1] == Digits(n / 10);
    } else {
      assert Digits(n)[..0] == [];
    }
  }

  lemma {:induction false} ValueOfZeros(k: nat, s: Bytes)
    requires AllDigits(s)
    ensures ValueOf(Zeros(k) + s) == ValueOf(s)
    decreases k + |s|
  {
    var t := Zeros(k) + s;
    if s != [] {
      assert t[..|t| - 1] == Zeros(k) + s[..|s| - 1];
      ValueOfZeros(k, s[..|s| - 1]);
    } else if k > 0 {
      assert t[..|t| - 1] == Zeros(k - 1) + [];
      ValueOfZeros(k - 1, []);
    }
  }

  lemma PaddedValue(n: nat, width: int)
    ensures AllDigits(Padded(n, width)) && ValueOf(Padded(n, width)) == n
  {
    ValueOfDigits(n);
    var s := Digits(n);
    if |s| < width {
      ValueOfZeros(width - |s|, s);
    }
  }

  lemma {:induction false} DigitsLength(n: nat, k: nat)
    requires k > 0
    ensures |Digits(n)| <= k <==> n < Pow10(k)
    decreases k
  {
    if n < 10 {
      assert Pow10(k) >= 10 by { Pow10AtLeast(k); }
    } else if k == 1 {
      assert Pow10(1) == 10;
    } else {
      DigitsLength(n / 10, k - 1);
    }
  }

  lemma {:induction false} Pow10AtLeast(k: nat)
    requires k > 0
    ensures Pow10(k) >= 10
  {
    if k > 1 {
      Pow10AtLeast(k - 1);
    }
  }

  /** The id of the simulated device with the given 0-based index. */
  function MakeSimId(index: nat, prefix: Bytes): Bytes {
    prefix + Padded(index + 1, 16 - |prefix|)
  }

  const DEFAULT_DEVICE_ID: Bytes :=
    [0x44, 0x45, 0x46, 0x41, 0x55, 0x4C, 0x54, 0x5F, 0x44, 0x45, 0x56, 0x49, 0x43, 0x45, 0x49, 0x44]

  /** Simulated ids are pairwise distinct, under every prefix and however large the indices. */
  lemma SimIdsDistinct(i: nat, j: nat, prefix: Bytes)
    requires i != j
    ensures MakeSimId(i, prefix) != MakeSimId(j, prefix)
  {
    var w := 16 - |prefix|;
    PaddedValue(i + 1, w);
    PaddedValue(j + 1, w);
    assert MakeSimId(i, prefix)[|prefix|..] == Padded(i + 1, w);
    assert MakeSimId(j, prefix)[|prefix|..] == Padded(j + 1, w);
  }

  /** A simulated id is never the discovery id, and has the protocol's 16 bytes exactly while its number fits. */
  lemma SimIdShape(index: nat, prefix: Bytes)
    requires |prefix| <= 15
    ensures MakeSimId(index, prefix) != DEFAULT_DEVICE_ID
    ensures |MakeSimId(index, prefix)| == 16 <==> index + 1 < Pow10(16 - |prefix|)
  {
    var w := 16 - |prefix|;
    var p, id := Padded(index + 1, w), MakeSimId(index, prefix);
    PaddedValue(index + 1, w);
    DigitsLength(index + 1, w);
    assert id[|id| - 1] == p[|p| - 1] && IsDigit(p[|p| - 1]);
    assert DEFAULT_DEVICE_ID[15] == 0x44;
  }
}
